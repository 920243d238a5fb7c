/**
 * Spreadsheet column letters (`run.toColumnName`): column 1 is "A", 26 is "Z",
 * 27 is "AA", written in bijective base 26 with the digits 'A'..'Z'.
 */
module ColumnNames {

  /** The letter for digit `d`, `String.fromCharCode(d + 65)`. */
  function Letter(d: int): (ch: char)
    requires 0 <= d < 26
    ensures 'A' <= ch <= 'Z'
  {
    (65 + d) as char
  }

  predicate IsLetters(s: string)
  {
    forall i :: 0 <= i < |s| ==> 'A' <= s[i] <= 'Z'
  }

  /**
   * The column name of `n`, peeling off the least significant bijective digit:
   * empty for `n <= 0`, otherwise non-empty and made of capital letters.
   */
  function ColumnName(n: int): (s: string)
    ensures n <= 0 <==> s == ""
    ensures IsLetters(s)
    decreases n
  {
    if n <= 0 then "" else ColumnName((n - 1) / 26) + [Letter((n - 1) % 26)]
  }

  /** The number a column name denotes: the sum of (letter - 64) * 26^i. */
  function Decode(s: string): int
  {
    if |s| == 0 then 0 else 26 * Decode(s[..|s| - 1]) + (s[|s| - 1] as int - 64)
  }

  /** Every positive column number is recovered from its name. */
  lemma {:induction false} DecodeColumnName(n: int)
    requires n >= 0
    ensures Decode(ColumnName(n)) == n
    decreases n
  {
    if n > 0 {
      var q := (n - 1) / 26;
      DecodeColumnName(q);
      var s := ColumnName(n);
      assert s[..|s| - 1] == ColumnName(q);
    }
  }

  /** Every non-empty word of capital letters is the name of the column it denotes. */
  lemma {:induction false} ColumnNameDecode(s: string)
    requires IsLetters(s)
    ensures Decode(s) >= 0
    ensures ColumnName(Decode(s)) == s
    decreases |s|
  {
    if |s| > 0 {
      var t := s[..|s| - 1];
      ColumnNameDecode(t);
      var k := s[|s| - 1] as int - 64;
      assert 1 <= k <= 26;
      var n := Decode(s);
      assert n - 1 == 26 * Decode(t) + (k - 1);
      assert (n - 1) / 26 == Decode(t) && (n - 1) % 26 == k - 1;
      assert Letter(k - 1) == s[|s| - 1];
      assert t + [s[|s| - 1]] == s;
    }
  }

  /** A positive multiple of a positive number is at least that number. */
  lemma MultipleAtLeast(k: int, m: int)
    requires k >= 1 && m > 0
    ensures k * m >= m
  {
  }

  /** Division by `m` is determined by any quotient and remainder that fit. */
  lemma DivModUnique(x: int, m: int, q: int, r: int)
    requires m > 0 && x == q * m + r && 0 <= r < m
    ensures x / m == q && x % m == r
  {
    var q', r' := x / m, x % m;
    assert x == q' * m + r' && 0 <= r' < m;
    assert (q' - q) * m == r - r' by {
      assert (q' - q) * m == q' * m - q * m;
    }
    if q' > q {
      MultipleAtLeast(q' - q, m);
    } else if q' < q {
      assert (q - q') * m == r' - r;
      MultipleAtLeast(q - q', m);
    }
  }

  /** Scaling `m`'s last base-26 digit split by the place value `a`. */
  lemma ScaledSplit(m: int, a: int)
    requires m >= 0 && a >= 1
    ensures m * a == (m / 26) * (26 * a) + (m % 26) * a
    ensures 0 <= (m % 26) * a <= 25 * a
  {
    var t, d := m / 26, m % 26;
    assert m == 26 * t + d;
    assert (26 * t + d) * a == (26 * t) * a + d * a;
    assert (26 * t) * a == t * (26 * a);
    assert (25 - d) * a >= 0;
  }

  /**
   * One step of the loop: with `num == (q - 1) * a + rest`, `0 <= rest < a` and
   * `q >= 1`, the digit `(num % (26 * a)) / a` is the last bijective digit of `q`.
   */
  lemma DigitStep(q: int, a: int, rest: int)
    requires q >= 1 && a >= 1 && 0 <= rest < a
    ensures ((q - 1) * a + rest) % (26 * a) / a == (q - 1) % 26
    ensures (q - 1) * a + rest == ((q - 1) / 26) * (26 * a) + ((q - 1) % 26) * a + rest
    ensures 0 <= ((q - 1) % 26) * a + rest < 26 * a
  {
    var m := q - 1;
    ScaledSplit(m, a);
    DivModUnique(m * a + rest, 26 * a, m / 26, (m % 26) * a + rest);
    DivModUnique((m % 26) * a + rest, a, m % 26, rest);
  }

  /** When `num == (q - 1) * a + rest` with `0 <= rest < a`, `num` is negative exactly when `q < 1`. */
  lemma StopsAtZero(q: int, a: int, rest: int)
    requires a >= 1 && 0 <= rest < a
    ensures (q - 1) * a + rest < 0 <==> q < 1
  {
  }

  /**
   * One pass of the loop, with `num == (q - 1) * a + rest` already reduced by
   * the place value `a`: the letter it prepends is the last bijective digit of
   * `q`, and after moving to the next place the same relation holds for the
   * quotient.
   */
  lemma LoopStep(num: int, q: int, a: int, b: int, rest: int)
    requires a >= 1 && b == 26 * a && 0 <= rest < a
    requires num == (q - 1) * a + rest && num >= 0
    ensures q >= 1
    ensures num % b / a == (q - 1) % 26
    ensures 0 <= ((q - 1) % 26) * a + rest < b
    ensures num - b == ((q - 1) / 26 - 1) * b + (((q - 1) % 26) * a + rest)
    ensures ColumnName(q) == ColumnName((q - 1) / 26) + [Letter((q - 1) % 26)]
  {
    StopsAtZero(q, a, rest);
    DigitStep(q, a, rest);
  }

  /**
   * `run.toColumnName`: the `for` loop that subtracts the place value `a` from
   * `num` in its guard and prepends one letter per place.
   */
  method ToColumnName(n: int) returns (ret: string)
    ensures ret == ColumnName(n)
  {
    var num := n;
    ret := "";
    var a, b := 1, 26;
    ghost var q, rest := n, 0;
    num := num - a;
    while num >= 0
      invariant a >= 1 && b == 26 * a
      invariant 0 <= rest < a
      invariant num == (q - 1) * a + rest
      invariant ColumnName(n) == ColumnName(q) + ret
      decreases num
    {
      LoopStep(num, q, a, b, rest);
      ret := [Letter(num % b / a)] + ret;
      rest := ((q - 1) % 26) * a + rest;
      q := (q - 1) / 26;
      a, b := b, b * 26;
      num := num - a;
    }
    StopsAtZero(q, a, rest);
  }

  /** The column names quoted for this conversion: 1, 2, 26, 27, 702 and 703. */
  lemma KnownColumnNames()
    ensures ColumnName(1) == "A" && ColumnName(2) == "B" && ColumnName(26) == "Z"
    ensures ColumnName(27) == "AA" && ColumnName(702) == "ZZ" && ColumnName(703) == "AAA"
  {
  }

  /**
   * `parseInt((num % b) / a)` as written, with the quotient `x / a` taken
   * exactly. JavaScript writes a number below 1e-6 in exponent form
   * ("8.4e-8"), and `parseInt` then reads only its leading digit.
   */
  function ParseIntQuotient(x: nat, a: nat): (d: nat)
    requires a >= 1 && x < 26 * a
    ensures d < 26
  {
    if x == 0 || 1000000 * x >= a then x / a else LeadingDigit(x, a)
  }

  /** The first significant decimal digit of `x / a`, for `0 < x < 10 * a`. */
  function LeadingDigit(x: nat, a: nat): (d: nat)
    requires 1 <= x < 10 * a
    ensures 1 <= d < 10
    decreases a - x
  {
    if x >= a then x / a else LeadingDigit(10 * x, a)
  }

  /** The loop of `run.toColumnName` as written, from the pass with place value `a` on. */
  function AsWrittenLoop(num: int, a: nat, ret: string): string
    requires a >= 1
    decreases if num < 0 then 0 else num + 1
  {
    if num < 0 then ret
    else
      var b := 26 * a;
      AsWrittenLoop(num - b, b, [Letter(ParseIntQuotient(num % b, a))] + ret)
  }

  /**
   * The written loop keeps what it has built as a suffix, adds a letter on
   * every pass it enters, and adds only capital letters.
   */
  lemma {:induction false} AsWrittenLoopShape(num: int, a: nat, ret: string)
    requires a >= 1
    ensures num < 0 ==> AsWrittenLoop(num, a, ret) == ret
    ensures num >= 0 ==> |AsWrittenLoop(num, a, ret)| > |ret|
    ensures IsLetters(ret) ==> IsLetters(AsWrittenLoop(num, a, ret))
    decreases if num < 0 then 0 else num + 1
  {
    if num >= 0 {
      var b := 26 * a;
      var ret' := [Letter(ParseIntQuotient(num % b, a))] + ret;
      AsWrittenLoopShape(num - b, b, ret');
      if IsLetters(ret) {
        assert IsLetters(ret') by {
          forall i | 0 <= i < |ret'|
            ensures 'A' <= ret'[i] <= 'Z'
          {
            if i > 0 {
              assert ret'[i] == ret[i - 1];
            }
          }
        }
      }
    }
  }

  /**
   * `run.toColumnName(n)` as written, `parseInt` included: empty exactly when
   * the loop never runs, and otherwise made only of capital letters.
   */
  function AsWrittenColumnName(n: int): (s: string)
    ensures n <= 0 <==> s == ""
    ensures IsLetters(s)
  {
    AsWrittenLoopShape(n - 1, 1, "");
    AsWrittenLoop(n - 1, 1, "")
  }

  /** The sixth pass of column 12356632 reads 1 / 26^5, about 8.4e-8, as 8. */
  lemma LastPassReadsEight()
    ensures ParseIntQuotient(1, 11881376) == 8
  {
  }

  /** The written loop names column 12356632 "IAAAAB". */
  lemma AsWrittenNames12356632()
    ensures AsWrittenColumnName(12356632) == "IAAAAB"
  {
    LastPassReadsEight();
    assert AsWrittenLoop(1, 11881376, "AAAAB") == "IAAAAB";
    assert AsWrittenLoop(11881377, 456976, "AAAB") == AsWrittenLoop(1, 11881376, "AAAAB");
    assert AsWrittenLoop(12338353, 17576, "AAB") == AsWrittenLoop(11881377, 456976, "AAAB");
    assert AsWrittenLoop(12355929, 676, "AB") == AsWrittenLoop(12338353, 17576, "AAB");
    assert AsWrittenLoop(12356605, 26, "B") == AsWrittenLoop(12355929, 676, "AB");
    assert AsWrittenLoop(12356631, 1, "") == AsWrittenLoop(12356605, 26, "B");
  }

  /** Column 12356632 is named "AAAAAB". */
  lemma ColumnName12356632()
    ensures ColumnName(12356632) == "AAAAAB"
  {
    assert ColumnName(703) == "AAA";
    assert ColumnName(18279) == "AAAA";
    assert ColumnName(475255) == "AAAAA";
  }

  /**
   * The written loop departs from the column name at 12356632: the sixth
   * pass's quotient is printed in exponent form and read as 8, giving
   * "IAAAAB" for the column named "AAAAAB".
   */
  lemma AsWrittenDivergesAt12356632()
    ensures AsWrittenColumnName(12356632) == "IAAAAB"
    ensures ColumnName(12356632) == "AAAAAB"
  {
    AsWrittenNames12356632();
    ColumnName12356632();
  }

  /** Up to a place value of 1000000, `parseInt` reads the quotient positionally. */
  lemma PositionalQuotient(x: nat, a: nat)
    requires 1 <= a <= 1000000 && x < 26 * a
    ensures ParseIntQuotient(x, a) == x / a
  {
  }

  /** The next pass's column number times its place value stays within the bound. */
  lemma NextPassBound(q: int, a: nat)
    requires q >= 1 && a >= 1
    ensures ((q - 1) / 26) * (26 * a) <= q * a
  {
  }

  /**
   * The written loop agrees with the column name while every remaining pass
   * has a place value of at most 1000000, so that no quotient is printed in
   * exponent form.
   */
  lemma {:induction false} AsWrittenLoopAgrees(num: int, q: int, a: nat, rest: int, ret: string)
    requires a >= 1 && 0 <= rest < a && num == (q - 1) * a + rest
    requires q * a <= 1000000
    ensures AsWrittenLoop(num, a, ret) == ColumnName(q) + ret
    decreases if num < 0 then 0 else num + 1
  {
    StopsAtZero(q, a, rest);
    if num >= 0 {
      var b := 26 * a;
      LoopStep(num, q, a, b, rest);
      MultipleAtLeast(q, a);
      PositionalQuotient(num % b, a);
      var q', rest' := (q - 1) / 26, ((q - 1) % 26) * a + rest;
      NextPassBound(q, a);
      AsWrittenLoopAgrees(num - b, q', b, rest', [Letter((q - 1) % 26)] + ret);
      assert ColumnName(q') + ([Letter((q - 1) % 26)] + ret) == ColumnName(q) + ret;
    }
  }

  /** For every column number up to 1000000 the written loop gives the column name. */
  lemma AsWrittenAgreesUpToAMillion(n: int)
    requires n <= 1000000
    ensures AsWrittenColumnName(n) == ColumnName(n)
  {
    AsWrittenLoopAgrees(n - 1, n, 1, 0, "");
  }
}

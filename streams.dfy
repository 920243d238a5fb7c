/**
 * The classic JSON framing streams. The output stream writes objects as one
 * JSON array, one element per chunk; the input stream buffers text chunks and
 * parses their concatenation once, at the end of input. `JSON.stringify` (with
 * its replacer and spacing) and `JSON.parse` are given to the streams as
 * functions, since the framing does not depend on how they work.
 */
module Streams {
  import opened Results
  import opened Text

  /** `text.split('\n').map(r => `  ${r}`).join('\n')`: every line indented by two spaces. */
  function Indent2(text: string): string
  {
    Join("\n", Prefix("  ", Split(text, '\n')))
  }

  /** Indenting keeps the number of lines and puts exactly two spaces before each. */
  lemma IndentLines(text: string)
    ensures Split(Indent2(text), '\n') == Prefix("  ", Split(text, '\n'))
    ensures |Split(Indent2(text), '\n')| == |Split(text, '\n')|
  {
    var lines := Prefix("  ", Split(text, '\n'));
    forall i | 0 <= i < |lines|
      ensures '\n' !in lines[i]
    {
      assert lines[i] == "  " + Split(text, '\n')[i];
    }
    SplitJoin(lines, '\n');
  }

  /** The chunk pushed for one element: the opening bracket or a comma, then the indented text. */
  function ElementChunk(first: bool, text: string): string
  {
    (if first then "[\n" else ",\n") + Indent2(text)
  }

  /** The closing chunk pushed when the input ends. */
  const Closing: string := "\n]\n"

  /** The chunks pushed for a run of elements, one per element. */
  function ElementChunks<V>(stringify: V -> string, xs: seq<V>): (chunks: seq<string>)
    ensures |chunks| == |xs|
  {
    seq(|xs|, i requires 0 <= i < |xs| => ElementChunk(i == 0, stringify(xs[i])))
  }

  /** The indented text of each element, in order. */
  function Rendered<V>(stringify: V -> string, xs: seq<V>): (texts: seq<string>)
    ensures |texts| == |xs|
  {
    seq(|xs|, i requires 0 <= i < |xs| => Indent2(stringify(xs[i])))
  }

  /** Only the first element's chunk opens the array; every later one starts with a comma. */
  lemma ChunkOpenings<V>(stringify: V -> string, xs: seq<V>)
    ensures var chunks := ElementChunks(stringify, xs);
      forall i :: 0 <= i < |chunks| ==>
        |chunks[i]| >= 2 && (chunks[i][..2] == "[\n" <==> i == 0) && (i > 0 ==> chunks[i][..2] == ",\n")
  {
  }

  /** The chunks are the first element's text after `[`, then every later one after a comma. */
  lemma ChunksAsPrefixed<V>(stringify: V -> string, xs: seq<V>)
    requires |xs| >= 1
    ensures ElementChunks(stringify, xs)
         == ["[\n" + Rendered(stringify, xs)[0]] + Prefix(",\n", Rendered(stringify, xs)[1..])
  {
    var rs := Rendered(stringify, xs);
    var rhs := ["[\n" + rs[0]] + Prefix(",\n", rs[1..]);
    forall i | 0 <= i < |xs|
      ensures ElementChunks(stringify, xs)[i] == rhs[i]
    {
      if i > 0 {
        assert rhs[i] == ",\n" + rs[1..][i - 1];
      }
    }
  }

  /**
   * For one or more elements the pushed chunks concatenate to the classic JSON
   * document: the indented elements joined by commas, inside brackets on
   * their own lines.
   */
  lemma OutputDocument<V>(stringify: V -> string, xs: seq<V>)
    requires |xs| >= 1
    ensures Join("", ElementChunks(stringify, xs) + [Closing])
         == "[\n" + Join(",\n", Rendered(stringify, xs)) + "\n]\n"
  {
    var rs := Rendered(stringify, xs);
    var chunks := ElementChunks(stringify, xs);
    var head, tail := "[\n" + rs[0], Prefix(",\n", rs[1..]);
    ChunksAsPrefixed(stringify, xs);
    JoinEmptyAppend(chunks, [Closing]);
    JoinEmptyAppend([head], tail);
    assert rs == [rs[0]] + rs[1..];
    JoinAsPrefixed(",\n", rs[0], rs[1..]);
  }

  /**
   * With no elements the stream pushes only the closing chunk, so its output has
   * no opening bracket and is not the empty array `[]`.
   */
  lemma EmptyOutputHasNoOpeningBracket<V>(stringify: V -> string)
    ensures Join("", ElementChunks(stringify, []) + [Closing]) == "\n]\n"
    ensures '[' !in Join("", ElementChunks(stringify, []) + [Closing])
  {
    assert ElementChunks(stringify, []) + [Closing] == [Closing];
  }

  /** `classicJsonOutputStream`: a transform whose only state is the `first` flag. */
  class OutputStream<V> {
    const stringify: V -> string
    var first: bool
    /** The chunks pushed so far, in order. */
    var chunks: seq<string>
    /** The elements received so far, and whether the input has ended. */
    ghost var written: seq<V>
    ghost var ended: bool

    /** `first` holds until an element arrives; the chunks frame exactly the elements received. */
    ghost predicate Valid()
      reads this
    {
      first == (written == [])
      && chunks == ElementChunks(stringify, written) + (if ended then [Closing] else [])
    }

    constructor (stringify: V -> string)
      ensures Valid() && this.stringify == stringify
      ensures first && chunks == [] && written == [] && !ended
    {
      this.stringify := stringify;
      first := true;
      chunks := [];
      written := [];
      ended := false;
    }

    /** The transform callback: push one chunk for `data` and clear `first`. */
    method Transform(data: V)
      requires Valid() && !ended
      modifies this
      ensures Valid() && !ended && !first
      ensures written == old(written) + [data]
      ensures chunks == old(chunks) + [ElementChunk(old(first), stringify(data))]
    {
      ghost var before := written;
      var chunk := "";
      if first {
        chunk := "[\n";
      }
      if !first {
        chunk := chunk + ",\n";
      }
      chunk := chunk + Indent2(stringify(data));
      if first {
        first := false;
      }
      assert chunk == ElementChunk(|before| == 0, stringify(data));
      chunks := chunks + [chunk];
      written := before + [data];
      assert forall i :: 0 <= i < |before| ==> ElementChunks(stringify, written)[i] == ElementChunks(stringify, before)[i];
    }

    /** The flush callback: push the closing chunk. */
    method Flush()
      requires Valid() && !ended
      modifies this
      ensures Valid() && ended
      ensures written == old(written) && first == old(first)
      ensures chunks == old(chunks) + [Closing]
    {
      chunks := chunks + [Closing];
      ended := true;
    }
  }

  /** What `JSON.parse` yields: an error message, or a value that is or is not an array. */
  datatype Parsed<V> = ParseError(message: string) | Value(isArray: bool, elems: seq<V>)

  /** The start shared by both input errors. */
  const InvalidInput: string := "Invalid input type: "

  /** The error for text that does not parse, carrying the parser's message. */
  function UnableToParse(message: string): string
  {
    InvalidInput + "unable to parse" + (" (original message: " + message + ")")
  }

  /** The error for a parsed value that is not an array. */
  const ArrayExpected: string := InvalidInput + "array expected" + " with classic json stream"

  /** What the end of input does with a parse result: the rows to push, or the error. */
  function Decoded<V>(parsed: Parsed<V>): Result<seq<V>, string>
  {
    match parsed
    case ParseError(message) => Failure(UnableToParse(message))
    case Value(isArray, elems) => if isArray then Success(elems) else Failure(ArrayExpected)
  }

  /** `t` occurs in `s` at position `i`. */
  predicate OccursAt(s: string, t: string, i: int)
  {
    0 <= i <= |s| - |t| && s[i..i + |t|] == t
  }

  /** `t` occurs somewhere in `s`, as `String.prototype.includes` tests. */
  predicate Contains(s: string, t: string)
  {
    exists i | 0 <= i <= |s| - |t| :: OccursAt(s, t, i)
  }

  /** The middle part of a three-part concatenation occurs right after the first part. */
  lemma OccursInMiddle(a: string, b: string, c: string)
    ensures OccursAt(a + b + c, b, |a|)
  {
    assert (a + b + c)[|a|..|a| + |b|] == b;
  }

  /** End of input succeeds exactly for an array, and then yields its elements in order. */
  lemma DecodedSucceedsOnArrays<V>(parsed: Parsed<V>)
    ensures Decoded(parsed).Success? <==> parsed.Value? && parsed.isArray
    ensures Decoded(parsed).Success? ==> Decoded(parsed).value == parsed.elems
  {
  }

  /** Text that does not parse is reported as "unable to parse", with the parser's message. */
  lemma UnparsableReported<V>(parsed: Parsed<V>)
    requires parsed.ParseError?
    ensures Decoded(parsed).Failure?
    ensures Contains(Decoded(parsed).error, "unable to parse")
    ensures Contains(Decoded(parsed).error, parsed.message)
  {
    var tail := " (original message: " + parsed.message + ")";
    OccursInMiddle(InvalidInput, "unable to parse", tail);
    OccursInMiddle(InvalidInput + "unable to parse" + " (original message: ", parsed.message, ")");
    assert InvalidInput + "unable to parse" + tail
        == InvalidInput + "unable to parse" + " (original message: " + parsed.message + ")";
  }

  /** A value that parses but is not an array is reported as "array expected". */
  lemma NonArrayReported<V>(parsed: Parsed<V>)
    requires parsed.Value? && !parsed.isArray
    ensures Decoded(parsed).Failure?
    ensures Contains(Decoded(parsed).error, "array expected")
  {
    OccursInMiddle(InvalidInput, "array expected", " with classic json stream");
  }

  /** `classicJsonInputStream`: a transform that buffers text and parses it at the end. */
  class InputStream<V> {
    const parse: string -> Parsed<V>
    /** The text chunks received so far, in order. */
    var buffer: seq<string>
    /** The rows pushed so far, in order. */
    var rows: seq<V>

    constructor (parse: string -> Parsed<V>)
      ensures this.parse == parse && buffer == [] && rows == []
    {
      this.parse := parse;
      buffer := [];
      rows := [];
    }

    /** The transform callback: keep the chunk, push nothing. */
    method Transform(chunk: string)
      modifies this
      ensures buffer == old(buffer) + [chunk] && rows == old(rows)
    {
      buffer := buffer + [chunk];
    }

    /**
     * The flush callback: parse the concatenated chunks once, then push every
     * element of an array in order, or end with the error and push nothing.
     */
    method Flush() returns (done: Outcome<string>)
      modifies this
      ensures buffer == old(buffer)
      ensures match Decoded(parse(Join("", buffer)))
              case Failure(e) => done == Fail(e) && rows == old(rows)
              case Success(elems) => done == Pass && rows == old(rows) + elems
    {
      var data := parse(Join("", buffer));
      if data.ParseError? {
        return Fail(UnableToParse(data.message));
      }
      if !data.isArray {
        return Fail(ArrayExpected);
      }
      for i := 0 to |data.elems|
        invariant buffer == old(buffer)
        invariant rows == old(rows) + data.elems[..i]
      {
        rows := rows + [data.elems[i]];
      }
      done := Pass;
    }
  }
}

# spreadstream: sheet-write protocol, column names and classic-JSON framing

A Dafny model of two pieces of the spreadstream library, which streams tabular
records into a hosted spreadsheet:

- **The sheet-write protocol of `run(data, config)`** (`lib/spreadstream.js`).
  `run` reads the document's metadata and looks up the sheet by exact title. It
  creates the sheet with a 1x1 grid when it is missing. In replace mode it
  clears `A1:<last column><last row>` of that sheet. Finally it appends the
  batch at `'<title>'!A1` with `USER_ENTERED`. The header row (the first row of
  the batch) is sent only when the sheet is replaced or new. The spreadsheet
  service is a `SheetsService` object that records each request in a log of
  `Get | BatchUpdate | Clear | Append` calls, as the recording test double
  does. Its `batchUpdate` replies have the real service's shape
  (`replies[i].addSheet` holds the added sheet), not the test double's.
  Endpoints listed in its `failing` map answer with an error. `Run` is proved
  to produce exactly the log and outcome given by the function `Expected`.
  Lemmas about `Expected` cover the following: the read comes first; a sheet
  is created exactly when it is missing; the clear is sent exactly in replace
  mode and before the append; exactly one append is sent; the header rule; how
  errors propagate; and the scenarios from the test suite.
- **Column letters, `run.toColumnName`.** The `for` loop is a method. It is
  proved equal to a bijective base-26 function, `ColumnName`. Decoding is
  proved to invert it in both directions.
- **The classic-JSON streams** (`lib/streams.js`). The output stream is a class
  whose only state is the `first` flag. Its pushed chunks are proved to
  concatenate to `"[\n" + join(",\n", indented elements) + "\n]\n"`. The
  input stream is a class that buffers text chunks and parses their
  concatenation once, in `Flush`. `Flush` fails with "unable to parse" or
  "array expected", or pushes every element in order (a `null` element is the
  exception, see "## Left out"). `JSON.stringify` (with
  its replacer and spacing) and `JSON.parse` are passed to the constructors as
  functions.

lib/streams.js and its test disagree directly in one place, and the model
follows the code. For an empty input, the output stream pushes only
`"\n]\n"`, while the test expects the trimmed output to be `[]`.
`Streams.EmptyOutputHasNoOpeningBracket` records what the code produces.

The write-protocol tests do not exercise `run` itself. They call the streaming
entry point `spreadstream({...})` and then `write`/`end`, and that entry
point's source is not part of this model. Their test double is installed
through `spreadstream.google.sheets` and `authenticate`, which `run` never
reads: it calls `google.sheets('v4')` and `GoogleAuth` directly. Some answers
also have other shapes than `run` reads: the tests' replacement `get`
functions wrap the sheets in `data` (the double's own `get` does not), and the
double's `batchUpdate` replies have no `addSheet`.
`Spreadstream.ReplaceTwoByTwoSheet`, `Spreadstream.AppendToExistingSheet`,
`Spreadstream.CreateMissingSheet` and `Spreadstream.AppendErrorSettlesRun`
restate those tests' expectations as statements about `run`.

`run.toColumnName` first departs from bijective base-26 naming at column
12356632 (agreement is proved up to 1000000; see "## Findings"). `ColumnNames.ToColumnName` models the intended digit,
and `ColumnNames.AsWrittenColumnName` models the loop as written.

Files: `results.dfy` (Option/Result/Outcome), `text.dfy` (`join`, `split`,
decimal rendering), `column_names.dfy`, `sheets_api.dfy` (service records and
the recording service), `spreadstream.dfy` (the protocol), `streams.dfy`.

## Model

| member | source | states |
|---|---|---|
| `Text.Split` | lib/streams.js:17 | `split('\n')` gives at least one line, and no line contains the separator |
| `Text.JoinSplit` | lib/streams.js:17 | joining the split lines with the separator gives back the original text |
| `Text.SplitJoin` | lib/streams.js:17 | splitting the join of separator-free lines gives back those lines |
| `Text.Decimal` | lib/spreadstream.js:50 | the row count in the clear range is written as a non-empty run of decimal digits with no leading zero |
| `Text.DecimalRoundTrip` | lib/spreadstream.js:50 | reading those digits back gives the row count |
| `ColumnNames.ColumnName` | lib/spreadstream.js:106-111 | the column name is empty exactly when n <= 0 and otherwise consists only of the letters A..Z |
| `ColumnNames.DecodeColumnName` | lib/spreadstream.js:106-111 | decoding the name as the sum of (letter - 64) * 26^i gives back n, for every n >= 0 |
| `ColumnNames.ColumnNameDecode` | lib/spreadstream.js:106-111 | every word of capital letters is the name of the number it decodes to, so names and positive numbers are in bijection |
| `ColumnNames.LoopStep` | lib/spreadstream.js:107-108 | each pass of the loop prepends the last bijective base-26 digit, the truncated quotient `(num % b) / a`, and keeps the loop's place-value relation for the quotient |
| `ColumnNames.ToColumnName` | lib/spreadstream.js:106-111 | the loop, guard `(num -= a) >= 0` included and with each digit taken as the truncated quotient, returns exactly `ColumnName(n)` for every integer n |
| `ColumnNames.ParseIntQuotient` | lib/spreadstream.js:108 | `parseInt` of the quotient `(num % b) / a` is always a digit below 26, also when the quotient is printed in exponent form |
| `ColumnNames.LeadingDigit` | lib/spreadstream.js:108 | the first significant decimal digit of a quotient below 10, which `parseInt` reads from an exponent form, is between 1 and 9 |
| `ColumnNames.AsWrittenLoopShape` | lib/spreadstream.js:107-108 | the loop as written, `parseInt` included, returns the text built so far when the guard fails, and otherwise prepends at least one letter, all of them capitals |
| `ColumnNames.AsWrittenColumnName` | lib/spreadstream.js:106-111 | `run.toColumnName(n)` as written, each digit read by `parseInt` from the quotient's printed form, is empty exactly when n <= 0 and otherwise made only of the letters A..Z; the two lemmas below give its value at 12356632 and its agreement with `ColumnName` up to 1000000 |
| `ColumnNames.AsWrittenDivergesAt12356632` | lib/spreadstream.js:106-111 | the loop as written names column 12356632 "IAAAAB", while its bijective base-26 name is "AAAAAB" |
| `ColumnNames.AsWrittenAgreesUpToAMillion` | lib/spreadstream.js:106-111 | for every n up to 1000000 the loop as written, `parseInt` included, gives exactly `ColumnName(n)` |
| `ColumnNames.KnownColumnNames` | lib/spreadstream.js:106-111 | 1, 2, 26, 27, 702 and 703 are named A, B, Z, AA, ZZ and AAA |
| `SheetsApi.SheetsService.Get` | test/utils/mock-google-sheets.js:15-22 | records the read and answers with the document's sheets, or with the endpoint's error |
| `SheetsApi.SheetsService.BatchUpdate` | test/utils/mock-google-sheets.js:24-31 | records the request and answers one reply per request, in request order, each echoing the requested sheet properties, or the endpoint's error |
| `SheetsApi.SheetsService.Clear` | test/utils/mock-google-sheets.js:34-37 | records the clear and answers success or the endpoint's error |
| `SheetsApi.SheetsService.Append` | test/utils/mock-google-sheets.js:38-41 | records the append and answers success or the endpoint's error |
| `Spreadstream.FindSheet` | lib/spreadstream.js:40 | the index of the first sheet whose title equals the requested title exactly, and none exactly when no sheet has that title |
| `Spreadstream.AppendedRows` | lib/spreadstream.js:66 | the appended rows are all of `data` when headers are kept, and otherwise `data` without its first row, in order |
| `Spreadstream.CreateSheet` | lib/spreadstream.js:78-99 | sends one `batchUpdate` adding the title with a 1x1 grid and returns the sheet from the first reply, or the error |
| `Spreadstream.Run` | lib/spreadstream.js:19-69 | the requests sent and the outcome are exactly those of `Expected` for the service's sheets, its failing endpoints, the batch and the options |
| `Spreadstream.ExpectedStages` | lib/spreadstream.js:19-69 | the log is the read, then the create, clear and append stages that were reached before the first error |
| `Spreadstream.ReadsDocumentFirst` | lib/spreadstream.js:33-37 | the document is read exactly once, as the first request, with no ranges |
| `Spreadstream.SheetCreatedExactlyWhenMissing` | lib/spreadstream.js:43-46 | after the read, exactly one `batchUpdate` is sent when no sheet has the title and none otherwise; it is the second request, before any clear or append, and adds the title with a 1x1 grid |
| `Spreadstream.ClearExactlyWhenReplacing` | lib/spreadstream.js:49-57 | one clear is sent in replace mode and none otherwise; its range is `'title'!A1:<ColumnName(columnCount)><rowCount>` of the found or newly created sheet; it comes immediately before the append |
| `Spreadstream.AppendedOnceWithHeaderRule` | lib/spreadstream.js:60-68 | exactly one append is sent when no earlier request fails, and none otherwise; it is the last request, at `'title'!A1` with `USER_ENTERED`, and carries all rows or all but the header row |
| `Spreadstream.HeaderRowKeptIff` | lib/spreadstream.js:27-46 | for a non-empty batch the appended rows are the whole batch if and only if replace is set or no sheet had the title, and otherwise the batch without its first row |
| `Spreadstream.ErrorsPropagateUnchanged` | lib/spreadstream.js:33-68 | every request before the last one succeeded; the run settles with the last request's error unchanged, or succeeds when that request succeeded |
| `Spreadstream.ReplaceTwoByTwoSheet` | test/spreadstream.test.js:60-73 | replacing the existing 2x2 sheet `test` reads the document, clears `'test'!A1:B2` and appends the whole batch |
| `Spreadstream.AppendToExistingSheet` | test/spreadstream.test.js:93-101 | appending to the existing sheet sends no clear and drops the header row |
| `Spreadstream.CreateMissingSheet` | test/spreadstream.test.js:134-153 | writing to a missing sheet adds it with a 1x1 grid and appends the header row even without replace |
| `Spreadstream.AppendErrorSettlesRun` | test/spreadstream.test.js:123-132 | on the existing sheet `test`, an append that fails with a network error is sent after the read, without the header row, and the run fails with that error |
| `Streams.IndentLines` | lib/streams.js:17 | indenting keeps the number of lines and puts exactly two spaces before each line |
| `Streams.ChunkOpenings` | lib/streams.js:10-17 | only the first element's chunk starts with `[` and a newline; every later chunk starts with a comma and a newline |
| `Streams.ChunksAsPrefixed` | lib/streams.js:10-17 | for one or more elements the chunks are the first element's indented text after `[` and a newline, then every later element's after a comma and a newline |
| `Streams.OutputDocument` | lib/streams.js:9-26 | for one or more elements, the concatenated chunks equal `"[\n" + join(",\n", indented elements) + "\n]\n"` |
| `Streams.EmptyOutputHasNoOpeningBracket` | lib/streams.js:23-26 | with no elements the output is only `"\n]\n"` and contains no opening bracket |
| `Streams.OutputStream.constructor` | lib/streams.js:7-8 | a new stream has `first` set and has pushed nothing |
| `Streams.OutputStream.Transform` | lib/streams.js:9-22 | pushes exactly one chunk for the element, opening with `[` only while `first` holds, and clears `first` for good |
| `Streams.OutputStream.Flush` | lib/streams.js:23-26 | pushes exactly the closing chunk `"\n]\n"` and nothing else |
| `Streams.DecodedSucceedsOnArrays` | lib/streams.js:45-51 | the end of input succeeds exactly for a parsed array and then yields its elements in order |
| `Streams.UnparsableReported` | lib/streams.js:40-44 | text that does not parse ends the stream with an error that contains "unable to parse" and the parser's message |
| `Streams.NonArrayReported` | lib/streams.js:45-47 | a parsed value that is not an array ends the stream with an error that contains "array expected" |
| `Streams.InputStream.constructor` | lib/streams.js:33-34 | a new stream has an empty buffer and has pushed nothing |
| `Streams.InputStream.Transform` | lib/streams.js:35-37 | appends the chunk to the buffer and pushes nothing |
| `Streams.InputStream.Flush` | lib/streams.js:38-52 | parses the in-order concatenation of all chunks once, then either fails without pushing anything or pushes every element once, in order (the text is taken as already decoded, and a `null` element is not treated as end of stream) |

## Left out

- Authentication (lib/spreadstream.js:20-24) is an opaque step that yields a handle. `Run` starts after it, and the `auth` and `resource: {}` parameters of the requests are not part of the logged calls.
- The service's sheet list does not change when a sheet is added. `run` reads the document only once, so this does not affect the protocol.
- `SheetsApi.SheetsService.BatchUpdate`: the reply to an added sheet echoes the requested properties. The real service also assigns fields such as the sheet id, and the protocol never reads them.
- `ColumnNames.ToColumnName`: each digit is the truncated quotient `(num % b) / a`. The source reads it with `parseInt`, which takes a quotient below 1e-6 from its exponent form, so from n = 12356632 on the source can give another name ("IAAAAB" for 12356632, where this method gives "AAAAAB"). `ColumnNames.AsWrittenColumnName` models that behaviour, and "## Findings" records it. JavaScript numbers are also doubles, whose rounding of `(num % b) / a` and of `b *= 26` is not modelled (the model uses unbounded integers), and non-integer arguments are not modelled.
- `ColumnNames.LoopStep`: the digit of a pass is the truncated quotient `(num % b) / a`. The source's `parseInt` reads a quotient below 1e-6 from its exponent form and gives its leading digit instead, for example 8 for 1 / 26^5 on the sixth pass of n = 12356632. `ColumnNames.ParseIntQuotient` models that reading.
- `ColumnNames.AsWrittenColumnName`: quotients are exact rationals printed by JavaScript's rule (exponent form below 1e-6). Rounding to doubles is not modelled, so the two agree only while the place values stay well below 2^53.
- `Streams.OutputStream.Transform` and `Streams.OutputStream.Flush` require that the input has not ended. The Node stream layer refuses writes after the end and a second end, and that layer is not part of this model.
- `Streams.OutputStream.Transform`: `stringify` is taken to return a string for every element. `JSON.stringify` returns `undefined` for an `undefined` or function element and throws for a cyclic value or a BigInt; in each case the source's transform throws instead of pushing a chunk. That error path is not modelled.
- `Streams.InputStream.Transform`: chunks arrive as already-decoded text. The source calls `chunk.toString()` on each chunk separately, so a multi-byte UTF-8 character split across two byte chunks is decoded wrongly before parsing; that per-chunk decoding is not modelled.
- `Streams.InputStream.Flush`: every element is taken to reach the reader. In Node, pushing a top-level `null` element ends the readable side, so for `[1, null, 2]` the reader receives only `1` and the next push fails; the model does not capture this early end.
- `JSON.stringify` and `JSON.parse` are constructor parameters. Because of this, the test that compares the output stream with `JSON.stringify` of the whole array (test/spreadstream.test.js:268-274) is not modelled.
- Node stream plumbing is not modelled: `miss.through.obj`, `next`/`done` callbacks and backpressure. The transform and flush callbacks are sequential method calls.
- Promise sequencing is modelled only as the order of the logged requests.
- The streaming buffer/flush engine, `readDocument`, graceful reads and `_normalizeConfig` are not part of this model. Their source is not among the files modelled here.
- lib/initializer.js (interactive prompts, OAuth2 token exchange) is not part of this model.
- bin/spreadstream.js (command-line wiring) is not part of this model.
- lib/google-wrapper.js (authentication wrapper) is not part of this model.
- lib/enums.js holds only string constants.

## Findings

| source | as written | input that shows it | evidently intended | confidence | as-written member | corrected member |
|---|---|---|---|---|---|---|
| lib/spreadstream.js:108 | `parseInt((num % b) / a)` reads the quotient through its string form; a quotient below 1e-6 is printed in exponent form, and `parseInt` returns only its leading digit | `toColumnName(12356632)`: on the sixth pass the quotient is 1 / 26^5, about 8.4e-8, read as 8, so the result is "IAAAAB" | the truncated quotient, digit 0, giving the bijective name "AAAAAB" | not executed | `ColumnNames.AsWrittenDivergesAt12356632` | `ColumnNames.ToColumnName` |

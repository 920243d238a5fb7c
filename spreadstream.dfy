/**
 * The sheet-write protocol of `run(data, config)`: read the document, find the
 * sheet by exact title, create it with a 1x1 grid when it is missing, clear its
 * whole grid in replace mode, then append the batch at the first cell, with the
 * header row only when the sheet is new or is being replaced.
 */
module Spreadstream {
  import opened Results
  import opened Text
  import opened ColumnNames
  import opened SheetsApi

  /** The options `run` reads: document id, sheet title and replace mode. */
  datatype Config = Config(id: string, sheet: string, replace: bool)

  /** The requests issued, in order, and how the returned promise settles. */
  datatype Trace = Trace(calls: seq<Call>, outcome: Outcome<string>)

  /** `sheets.find(s => s.properties.title === title)`, as the index of the first match. */
  function FindSheet(sheets: seq<Sheet>, title: string): (r: Option<nat>)
    ensures r.Some? ==> r.value < |sheets| && sheets[r.value].properties.title == title
    ensures r.Some? ==> forall j :: 0 <= j < r.value ==> sheets[j].properties.title != title
    ensures r.None? <==> forall j :: 0 <= j < |sheets| ==> sheets[j].properties.title != title
  {
    if |sheets| == 0 then None
    else if sheets[0].properties.title == title then Some(0)
    else
      match FindSheet(sheets[1..], title)
      case None => None
      case Some(i) => Some(i + 1)
  }

  /** The properties `createSheet` asks for: the title and a one-cell grid. */
  function NewSheetProperties(title: string): SheetProperties
  {
    SheetProperties(title, GridProperties(1, 1))
  }

  /** The quoted sheet reference that starts every A1 range: `'title'!`. */
  function SheetRef(title: string): string
  {
    "'" + title + "'!"
  }

  /** The range cleared in replace mode: from A1 to the last column and row of the grid. */
  function ClearRange(title: string, grid: GridProperties): string
  {
    SheetRef(title) + "A1:" + ColumnName(grid.columnCount) + Decimal(grid.rowCount)
  }

  /** The range values are appended at. */
  function AppendRange(title: string): string
  {
    SheetRef(title) + "A1"
  }

  /** Whether the header row is written: in replace mode, or when the sheet did not exist. */
  function KeepHeaders(replace: bool, sheetExists: bool): bool
  {
    replace || !sheetExists
  }

  /** `headers ? data.slice() : data.slice(1)`. */
  function AppendedRows(data: seq<Row>, headers: bool): (rows: seq<Row>)
    ensures headers ==> rows == data
    ensures !headers ==> |rows| == if |data| == 0 then 0 else |data| - 1
    ensures !headers ==> forall i :: 0 <= i < |rows| ==> rows[i] == data[i + 1]
  {
    if headers then data else if |data| == 0 then [] else data[1..]
  }

  /** The grid of the sheet written to: the first sheet with the title, or the new 1x1 one. */
  function TargetGrid(sheets: seq<Sheet>, title: string): GridProperties
  {
    match FindSheet(sheets, title)
    case None => NewSheetProperties(title).gridProperties
    case Some(i) => sheets[i].properties.gridProperties
  }

  /** The `batchUpdate` sent when no sheet has the title. */
  function CreateRequests(sheets: seq<Sheet>, config: Config): seq<Call>
  {
    if FindSheet(sheets, config.sheet).None? then [Call.BatchUpdate(config.id, [AddSheet(NewSheetProperties(config.sheet))])] else []
  }

  /** The clear sent in replace mode. */
  function ClearRequests(sheets: seq<Sheet>, config: Config): seq<Call>
  {
    if config.replace then [Call.Clear(config.id, ClearRange(config.sheet, TargetGrid(sheets, config.sheet)))] else []
  }

  /** The append that ends the protocol. */
  function AppendRequest(sheets: seq<Sheet>, data: seq<Row>, config: Config): Call
  {
    var headers := KeepHeaders(config.replace, FindSheet(sheets, config.sheet).Some?);
    Call.Append(config.id, AppendRange(config.sheet), "USER_ENTERED", AppendedRows(data, headers))
  }

  /**
   * The protocol as a function of the service's sheets, the endpoints that
   * fail, the batch and the options: the requests `run` issues and how it ends.
   */
  function Expected(sheets: seq<Sheet>, failing: map<Kind, string>, data: seq<Row>, config: Config): Trace
  {
    var get := [Call.Get(config.id, [])];
    var create := CreateRequests(sheets, config);
    var clear := ClearRequests(sheets, config);
    if GetKind in failing then Trace(get, Fail(failing[GetKind]))
    else if create != [] && BatchUpdateKind in failing then Trace(get + create, Fail(failing[BatchUpdateKind]))
    else if clear != [] && ClearKind in failing then Trace(get + create + clear, Fail(failing[ClearKind]))
    else
      Trace(get + create + clear + [AppendRequest(sheets, data, config)],
            if AppendKind in failing then Fail(failing[AppendKind]) else Pass)
  }

  /** `createSheet`: add a sheet with a one-cell grid and return the first reply's sheet. */
  method CreateSheet(service: SheetsService, title: string, spreadsheet: Spreadsheet) returns (r: Result<Sheet, string>)
    modifies service
    ensures service.calls == old(service.calls) + [Call.BatchUpdate(spreadsheet.spreadsheetId, [AddSheet(NewSheetProperties(title))])]
    ensures r == if BatchUpdateKind in service.failing then Failure(service.failing[BatchUpdateKind])
                 else Success(Sheet(NewSheetProperties(title)))
  {
    var addSheet := service.BatchUpdate(spreadsheet.spreadsheetId, [AddSheet(NewSheetProperties(title))]);
    if addSheet.Failure? {
      return Failure(addSheet.error);
    }
    r := Success(addSheet.value[0].addSheet);
  }

  /**
   * `run(data, config)` after authentication: each request is awaited before
   * the next, and the first error settles the run.
   */
  method Run(service: SheetsService, data: seq<Row>, config: Config) returns (outcome: Outcome<string>)
    modifies service
    ensures service.calls == old(service.calls) + Expected(service.sheets, service.failing, data, config).calls
    ensures outcome == Expected(service.sheets, service.failing, data, config).outcome
  {
    var replace := config.replace;
    var headers := replace;
    var got := service.Get(config.id, []);
    if got.Failure? {
      return Fail(got.error);
    }
    var spreadsheet := got.value;
    var found := FindSheet(spreadsheet.sheets, config.sheet);
    var sheet: Sheet;
    if found.None? {
      headers := true;
      var created := CreateSheet(service, config.sheet, spreadsheet);
      if created.Failure? {
        return Fail(created.error);
      }
      sheet := created.value;
    } else {
      sheet := spreadsheet.sheets[found.value];
    }
    if replace {
      var column := ToColumnName(sheet.properties.gridProperties.columnCount);
      var range := "A1:" + column + Decimal(sheet.properties.gridProperties.rowCount);
      assert SheetRef(config.sheet) + range == ClearRange(config.sheet, sheet.properties.gridProperties);
      var cleared := service.Clear(config.id, SheetRef(config.sheet) + range);
      if cleared.Fail? {
        return cleared;
      }
    }
    var values := AppendedRows(data, headers);
    outcome := service.Append(config.id, AppendRange(config.sheet), "USER_ENTERED", values);
  }

  /** No sheet of the document carries exactly this title. */
  predicate SheetMissing(sheets: seq<Sheet>, title: string)
  {
    forall j :: 0 <= j < |sheets| ==> sheets[j].properties.title != title
  }

  /** None of the requests before the append is answered with an error. */
  predicate ReachesAppend(sheets: seq<Sheet>, failing: map<Kind, string>, config: Config)
  {
    GetKind !in failing
    && (SheetMissing(sheets, config.sheet) ==> BatchUpdateKind !in failing)
    && (config.replace ==> ClearKind !in failing)
  }

  /** How many requests of one endpoint a log holds. */
  function Count(calls: seq<Call>, k: Kind): (n: nat)
    ensures n <= |calls|
  {
    if |calls| == 0 then 0 else (if KindOf(calls[0]) == k then 1 else 0) + Count(calls[1..], k)
  }

  lemma {:induction false} CountAppend(a: seq<Call>, b: seq<Call>, k: Kind)
    ensures Count(a + b, k) == Count(a, k) + Count(b, k)
  {
    if |a| > 0 {
      assert (a + b)[1..] == a[1..] + b;
      CountAppend(a[1..], b, k);
    } else {
      assert a + b == b;
    }
  }

  /** A log none of whose requests belongs to an endpoint counts zero requests of it. */
  lemma {:induction false} NoneOfKind(calls: seq<Call>, k: Kind)
    requires forall i :: 0 <= i < |calls| ==> KindOf(calls[i]) != k
    ensures Count(calls, k) == 0
  {
    if |calls| > 0 {
      NoneOfKind(calls[1..], k);
    }
  }

  /** Counting over the four stages of the protocol. */
  lemma CountStages(get: seq<Call>, create: seq<Call>, clear: seq<Call>, rest: seq<Call>, k: Kind)
    ensures Count(get + create + clear + rest, k) == Count(get, k) + Count(create, k) + Count(clear, k) + Count(rest, k)
  {
    CountAppend(get + create + clear, rest, k);
    CountAppend(get + create, clear, k);
    CountAppend(get, create, k);
  }

  /** The `batchUpdate` actually sent: only once the document was read. */
  function CreateIssued(sheets: seq<Sheet>, failing: map<Kind, string>, config: Config): seq<Call>
  {
    if GetKind in failing then [] else CreateRequests(sheets, config)
  }

  /** The clear actually sent: only once the sheet was found or created. */
  function ClearIssued(sheets: seq<Sheet>, failing: map<Kind, string>, config: Config): seq<Call>
  {
    if GetKind in failing || (CreateRequests(sheets, config) != [] && BatchUpdateKind in failing) then []
    else ClearRequests(sheets, config)
  }

  /** The append actually sent: only when no earlier request failed. */
  function AppendIssued(sheets: seq<Sheet>, failing: map<Kind, string>, data: seq<Row>, config: Config): seq<Call>
  {
    if ReachesAppend(sheets, failing, config) then [AppendRequest(sheets, data, config)] else []
  }

  /** The log of a run is the read followed by the stages it got to. */
  lemma ExpectedStages(sheets: seq<Sheet>, failing: map<Kind, string>, data: seq<Row>, config: Config)
    ensures Expected(sheets, failing, data, config).calls
         == [Call.Get(config.id, [])] + CreateIssued(sheets, failing, config)
            + ClearIssued(sheets, failing, config) + AppendIssued(sheets, failing, data, config)
  {
  }

  /** The document is read exactly once, first, with no ranges. */
  lemma ReadsDocumentFirst(sheets: seq<Sheet>, failing: map<Kind, string>, data: seq<Row>, config: Config)
    ensures var t := Expected(sheets, failing, data, config);
      |t.calls| >= 1 && t.calls[0] == Call.Get(config.id, []) && Count(t.calls, GetKind) == 1
  {
    ExpectedStages(sheets, failing, data, config);
    var cr, cl := CreateIssued(sheets, failing, config), ClearIssued(sheets, failing, config);
    var rest := AppendIssued(sheets, failing, data, config);
    CountStages([Call.Get(config.id, [])], cr, cl, rest, GetKind);
    NoneOfKind(cr, GetKind);
    NoneOfKind(cl, GetKind);
    NoneOfKind(rest, GetKind);
  }

  /**
   * Once the document is read, exactly one `batchUpdate` is sent when no sheet
   * has the title and none otherwise; it comes right after the read, before any
   * clear or append, and adds the title with a 1x1 grid.
   */
  lemma SheetCreatedExactlyWhenMissing(sheets: seq<Sheet>, failing: map<Kind, string>, data: seq<Row>, config: Config)
    requires GetKind !in failing
    ensures var t := Expected(sheets, failing, data, config);
      Count(t.calls, BatchUpdateKind) == (if SheetMissing(sheets, config.sheet) then 1 else 0)
    ensures var t := Expected(sheets, failing, data, config);
      SheetMissing(sheets, config.sheet) ==>
        |t.calls| >= 2
        && t.calls[1] == Call.BatchUpdate(config.id, [AddSheet(SheetProperties(config.sheet, GridProperties(1, 1)))])
  {
    ExpectedStages(sheets, failing, data, config);
    var create, cl := CreateIssued(sheets, failing, config), ClearIssued(sheets, failing, config);
    var rest := AppendIssued(sheets, failing, data, config);
    CountStages([Call.Get(config.id, [])], create, cl, rest, BatchUpdateKind);
    NoneOfKind(cl, BatchUpdateKind);
    NoneOfKind(rest, BatchUpdateKind);
    if !SheetMissing(sheets, config.sheet) {
      assert create == [];
    }
  }

  /**
   * When the document is read and the sheet exists or was created, one clear is
   * sent in replace mode and none otherwise; it covers A1 to the last column and
   * row of the target sheet's grid, and it comes strictly before the append.
   */
  lemma ClearExactlyWhenReplacing(sheets: seq<Sheet>, failing: map<Kind, string>, data: seq<Row>, config: Config)
    requires GetKind !in failing
    requires SheetMissing(sheets, config.sheet) ==> BatchUpdateKind !in failing
    ensures var t := Expected(sheets, failing, data, config);
      Count(t.calls, ClearKind) == (if config.replace then 1 else 0)
    ensures var t := Expected(sheets, failing, data, config);
      var i := if SheetMissing(sheets, config.sheet) then 2 else 1;
      config.replace ==>
        i < |t.calls|
        && t.calls[i] == Call.Clear(config.id, "'" + config.sheet + "'!A1:"
                                    + ColumnName(TargetGrid(sheets, config.sheet).columnCount)
                                    + Decimal(TargetGrid(sheets, config.sheet).rowCount))
        && (ClearKind !in failing ==> i + 1 == |t.calls| - 1 && t.calls[i + 1].Append?)
  {
    ExpectedStages(sheets, failing, data, config);
    var t := Expected(sheets, failing, data, config);
    var get := [Call.Get(config.id, [])];
    var create, clear := CreateIssued(sheets, failing, config), ClearIssued(sheets, failing, config);
    var rest := AppendIssued(sheets, failing, data, config);
    CountStages(get, create, clear, rest, ClearKind);
    NoneOfKind(create, ClearKind);
    NoneOfKind(rest, ClearKind);
    if config.replace {
      assert |get + create| == (if SheetMissing(sheets, config.sheet) then 2 else 1);
      assert t.calls == (get + create) + clear + rest;
    }
  }

  /**
   * Exactly one append is sent when no earlier request fails, and none
   * otherwise; it is the last request, at `'title'!A1` with `USER_ENTERED`, and
   * its rows are the whole batch when the sheet is replaced or new, and the
   * batch without its header row otherwise.
   */
  lemma AppendedOnceWithHeaderRule(sheets: seq<Sheet>, failing: map<Kind, string>, data: seq<Row>, config: Config)
    ensures var t := Expected(sheets, failing, data, config);
      Count(t.calls, AppendKind) == (if ReachesAppend(sheets, failing, config) then 1 else 0)
    ensures var t := Expected(sheets, failing, data, config);
      var headers := config.replace || SheetMissing(sheets, config.sheet);
      ReachesAppend(sheets, failing, config) ==>
        t.calls[|t.calls| - 1] == Call.Append(config.id, "'" + config.sheet + "'!A1", "USER_ENTERED",
                                              if headers then data else if |data| == 0 then [] else data[1..])
  {
    ExpectedStages(sheets, failing, data, config);
    var t := Expected(sheets, failing, data, config);
    var get := [Call.Get(config.id, [])];
    var cr, cl := CreateIssued(sheets, failing, config), ClearIssued(sheets, failing, config);
    var rest := AppendIssued(sheets, failing, data, config);
    CountStages(get, cr, cl, rest, AppendKind);
    NoneOfKind(get, AppendKind);
    NoneOfKind(cr, AppendKind);
    NoneOfKind(cl, AppendKind);
  }

  /**
   * For a non-empty batch, the header row is sent exactly when the sheet is
   * replaced or no sheet had the title; no other row is added, dropped or moved.
   */
  lemma HeaderRowKeptIff(sheets: seq<Sheet>, failing: map<Kind, string>, data: seq<Row>, config: Config)
    requires ReachesAppend(sheets, failing, config)
    requires |data| > 0
    ensures var t := Expected(sheets, failing, data, config);
      var values := t.calls[|t.calls| - 1].values;
      (values == data <==> config.replace || SheetMissing(sheets, config.sheet))
      && (values != data ==> values == data[1..])
  {
    AppendedOnceWithHeaderRule(sheets, failing, data, config);
    assert |data[1..]| < |data|;
  }

  /**
   * Every request but the last was answered without error, and the run settles
   * with the last request's error, unchanged, or succeeds when it had none.
   */
  lemma ErrorsPropagateUnchanged(sheets: seq<Sheet>, failing: map<Kind, string>, data: seq<Row>, config: Config)
    ensures var t := Expected(sheets, failing, data, config);
      forall i :: 0 <= i < |t.calls| - 1 ==> KindOf(t.calls[i]) !in failing
    ensures var t := Expected(sheets, failing, data, config);
      var last := KindOf(t.calls[|t.calls| - 1]);
      t.outcome == if last in failing then Fail(failing[last]) else Pass
  {
  }

  /** A 2x2 sheet named `test`, replaced: read, clear `'test'!A1:B2`, append everything. */
  lemma ReplaceTwoByTwoSheet(data: seq<Row>)
    ensures Expected([Sheet(SheetProperties("test", GridProperties(2, 2)))], map[], data, Config("xxx", "test", true))
         == Trace([Call.Get("xxx", []), Call.Clear("xxx", "'test'!A1:B2"), Call.Append("xxx", "'test'!A1", "USER_ENTERED", data)], Pass)
  {
    var sheets := [Sheet(SheetProperties("test", GridProperties(2, 2)))];
    assert FindSheet(sheets, "test") == Some(0);
    assert ColumnName(2) == "B";
    assert Decimal(2) == "2";
    assert ClearRange("test", GridProperties(2, 2)) == "'test'!A1:B2";
    assert AppendRange("test") == "'test'!A1";
  }

  /** Appending to an existing sheet drops the header row and clears nothing. */
  lemma AppendToExistingSheet(header: Row, rows: seq<Row>)
    ensures Expected([Sheet(SheetProperties("test", GridProperties(2, 2)))], map[], [header] + rows, Config("xxx", "test", false))
         == Trace([Call.Get("xxx", []), Call.Append("xxx", "'test'!A1", "USER_ENTERED", rows)], Pass)
  {
    var sheets := [Sheet(SheetProperties("test", GridProperties(2, 2)))];
    assert FindSheet(sheets, "test") == Some(0);
    assert ([header] + rows)[1..] == rows;
    assert AppendRange("test") == "'test'!A1";
  }

  /** A missing sheet is created with a 1x1 grid and gets the header row even without replace. */
  lemma CreateMissingSheet(data: seq<Row>)
    ensures Expected([], map[], data, Config("xxx", "test", false))
         == Trace([Call.Get("xxx", []),
                   Call.BatchUpdate("xxx", [AddSheet(SheetProperties("test", GridProperties(1, 1)))]),
                   Call.Append("xxx", "'test'!A1", "USER_ENTERED", data)], Pass)
  {
    assert AppendRange("test") == "'test'!A1";
  }

  /** On the existing sheet, a failing append is the last request and its error settles the run. */
  lemma AppendErrorSettlesRun(header: Row, rows: seq<Row>)
    ensures Expected([Sheet(SheetProperties("test", GridProperties(2, 2)))], map[AppendKind := "Network error"],
                     [header] + rows, Config("xxx", "test", false))
         == Trace([Call.Get("xxx", []), Call.Append("xxx", "'test'!A1", "USER_ENTERED", rows)], Fail("Network error"))
  {
    var sheets := [Sheet(SheetProperties("test", GridProperties(2, 2)))];
    assert FindSheet(sheets, "test") == Some(0);
    assert ([header] + rows)[1..] == rows;
    assert AppendRange("test") == "'test'!A1";
  }
}

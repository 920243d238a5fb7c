/**
 * The part of the spreadsheet service that the write protocol talks to: the
 * document metadata it reads, the requests it sends, and a service object that
 * records every request in order, as the recording test double does.
 */
module SheetsApi {
  import opened Results

  /** A cell value as the service accepts it. */
  datatype Cell = Text(text: string) | Number(value: real) | Boolean(flag: bool) | Blank

  type Row = seq<Cell>

  datatype GridProperties = GridProperties(rowCount: nat, columnCount: nat)

  datatype SheetProperties = SheetProperties(title: string, gridProperties: GridProperties)

  datatype Sheet = Sheet(properties: SheetProperties)

  /** The answer to a metadata read: the document's id and its sheets in tab order. */
  datatype Spreadsheet = Spreadsheet(spreadsheetId: string, sheets: seq<Sheet>)

  /** A `batchUpdate` request; the write protocol only ever adds a sheet. */
  datatype Request = AddSheet(properties: SheetProperties)

  /** A `batchUpdate` reply, read as `replies[i].addSheet`. */
  datatype Reply = AddSheetReply(addSheet: Sheet)

  /** One request sent to the service, with the parameters the protocol fills in. */
  datatype Call =
    | Get(spreadsheetId: string, ranges: seq<string>)
    | BatchUpdate(spreadsheetId: string, requests: seq<Request>)
    | Clear(spreadsheetId: string, range: string)
    | Append(spreadsheetId: string, range: string, valueInputOption: string, values: seq<Row>)

  /** The four endpoints, used to say which of them answer with an error. */
  datatype Kind = GetKind | BatchUpdateKind | ClearKind | AppendKind

  function KindOf(c: Call): Kind
  {
    match c
    case Get(_, _) => GetKind
    case BatchUpdate(_, _) => BatchUpdateKind
    case Clear(_, _) => ClearKind
    case Append(_, _, _, _) => AppendKind
  }

  /** The service answers an added sheet with the properties it was created with. */
  function ReplyTo(r: Request): Reply
  {
    AddSheetReply(Sheet(r.properties))
  }

  /**
   * A spreadsheet service holding one document's sheets. Every request is
   * appended to `calls` when it is issued; an endpoint listed in `failing`
   * then answers with that error instead of a result.
   */
  class SheetsService {
    const sheets: seq<Sheet>
    const failing: map<Kind, string>
    var calls: seq<Call>

    constructor (sheets: seq<Sheet>, failing: map<Kind, string>)
      ensures this.sheets == sheets && this.failing == failing && calls == []
    {
      this.sheets := sheets;
      this.failing := failing;
      calls := [];
    }

    /** `spreadsheets.get`: the document metadata. */
    method Get(spreadsheetId: string, ranges: seq<string>) returns (r: Result<Spreadsheet, string>)
      modifies this
      ensures calls == old(calls) + [Call.Get(spreadsheetId, ranges)]
      ensures r == if GetKind in failing then Failure(failing[GetKind])
                   else Success(Spreadsheet(spreadsheetId, sheets))
    {
      calls := calls + [Call.Get(spreadsheetId, ranges)];
      if GetKind in failing {
        r := Failure(failing[GetKind]);
      } else {
        r := Success(Spreadsheet(spreadsheetId, sheets));
      }
    }

    /** `spreadsheets.batchUpdate`: one reply per request, in request order. */
    method BatchUpdate(spreadsheetId: string, requests: seq<Request>) returns (r: Result<seq<Reply>, string>)
      modifies this
      ensures calls == old(calls) + [Call.BatchUpdate(spreadsheetId, requests)]
      ensures r == if BatchUpdateKind in failing then Failure(failing[BatchUpdateKind])
                   else Success(seq(|requests|, i requires 0 <= i < |requests| => ReplyTo(requests[i])))
    {
      calls := calls + [Call.BatchUpdate(spreadsheetId, requests)];
      if BatchUpdateKind in failing {
        r := Failure(failing[BatchUpdateKind]);
      } else {
        r := Success(seq(|requests|, i requires 0 <= i < |requests| => ReplyTo(requests[i])));
      }
    }

    /** `spreadsheets.values.clear` on an A1 range. */
    method Clear(spreadsheetId: string, range: string) returns (r: Outcome<string>)
      modifies this
      ensures calls == old(calls) + [Call.Clear(spreadsheetId, range)]
      ensures r == if ClearKind in failing then Fail(failing[ClearKind]) else Pass
    {
      calls := calls + [Call.Clear(spreadsheetId, range)];
      r := if ClearKind in failing then Fail(failing[ClearKind]) else Pass;
    }

    /** `spreadsheets.values.append` of a block of rows. */
    method Append(spreadsheetId: string, range: string, valueInputOption: string, values: seq<Row>)
      returns (r: Outcome<string>)
      modifies this
      ensures calls == old(calls) + [Call.Append(spreadsheetId, range, valueInputOption, values)]
      ensures r == if AppendKind in failing then Fail(failing[AppendKind]) else Pass
    {
      calls := calls + [Call.Append(spreadsheetId, range, valueInputOption, values)];
      r := if AppendKind in failing then Fail(failing[AppendKind]) else Pass;
    }
  }
}

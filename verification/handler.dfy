/**
 The RSVP endpoint `POST /api/rsvp` (app/api/rsvp/route.ts) as a pure
 function. The decoded request body, the outcome of the spreadsheet append
 and the sheet's current rows are inputs; the HTTP response and the sheet's
 new rows are the result.
 */
module RsvpHandler {
  import opened Wrappers
  import EmailPattern

  /** The request body after `request.json()`: either the parse threw, or
      each of the four fields is present (a string) or absent. */
  datatype Request =
    | Unparseable
    | Body(name: Option<string>, email: Option<string>,
           attendance: Option<string>, dietary: Option<string>)

  /** What the spreadsheet service does with an append: it stores the row,
      or authentication or the append itself fails. */
  datatype SinkOutcome = SinkOk | SinkFailed

  /** One sheet row, columns A to D: Name, E-Mail, Teilnahme, Kommentar. */
  datatype Row = Row(name: string, email: string, attendanceLabel: string, comment: string)

  datatype ResponseBody =
    | ErrorBody(error: string)
    | Received(message: string, name: string, email: string, attendance: string)

  datatype Response = Response(status: nat, body: ResponseBody)

  /** The response together with the sheet after the request. */
  datatype Reply = Reply(response: Response, sheet: seq<Row>)

  const MissingFields := "Missing required fields"
  const InvalidEmail := "Invalid email format"
  const InternalError := "Internal server error"
  const ReceivedMessage := "RSVP received successfully"

  /** The attendance value the form sends for "I am coming". */
  const Coming := "coming"
  /** The attendance value the form sends for "I cannot attend". */
  const NotComing := "not-coming"

  const LabelComing := "Ich komme gern"
  const LabelNotComing := "Ich kann leider nicht teilnehmen"

  /** JavaScript truthiness of a field that is a string or absent: absent
      and the empty string are falsy. */
  predicate Truthy(f: Option<string>) {
    f.Some? && f.value != ""
  }

  /** The required-field check: `name`, `email` and `attendance` truthy. */
  predicate HasRequired(b: Request)
    requires b.Body?
  {
    Truthy(b.name) && Truthy(b.email) && Truthy(b.attendance)
  }

  /** The "Teilnahme" column: one label for `coming`, the other for every
      other value. */
  function AttendanceLabel(attendance: string): (l: string)
    ensures l == LabelComing || l == LabelNotComing
    ensures l == LabelComing <==> attendance == Coming
  {
    if attendance == Coming then LabelComing else LabelNotComing
  }

  /** The "Kommentar" column: `body.dietary || ""`. */
  function Comment(dietary: Option<string>): (comment: string)
    ensures comment == ValueOr(dietary, "")
  {
    if Truthy(dietary) then dietary.value else ""
  }

  /** The row the handler appends for a body that passed validation: the
      submitted name and e-mail, the label of its attendance value and its
      dietary note or "". A body that also passed the e-mail check gives a
      row of the shape every sheet row has. */
  function RowOf(b: Request): (row: Row)
    requires b.Body? && HasRequired(b)
    ensures row.name == b.name.value && row.email == b.email.value
    ensures b.attendance.value == Coming ==> row.attendanceLabel == "Ich komme gern"
    ensures b.attendance.value != Coming ==>
              row.attendanceLabel == "Ich kann leider nicht teilnehmen"
    ensures b.dietary.Some? ==> row.comment == b.dietary.value
    ensures b.dietary.None? ==> row.comment == ""
    ensures EmailPattern.ValidEmail(b.email.value) ==> WellFormedRow(row)
  {
    Row(b.name.value, b.email.value, AttendanceLabel(b.attendance.value), Comment(b.dietary))
  }

  function Error(status: nat, message: string): Response {
    Response(status, ErrorBody(message))
  }

  /** The handler. Validation short-circuits in order: required fields,
      then the e-mail pattern; only a body that passes both reaches the
      sink, and every exception collapses to the generic 500. */
  function Handle(req: Request, sink: SinkOutcome, sheet: seq<Row>): (r: Reply)
    // A body that did not parse: 500, nothing appended.
    ensures req.Unparseable? ==>
              r == Reply(Error(500, InternalError), sheet)
    // The first check: a missing or empty required field.
    ensures r.response == Error(400, MissingFields) <==>
              req.Body? && !HasRequired(req)
    // The second check, reached only when the first passed.
    ensures r.response == Error(400, InvalidEmail) <==>
              req.Body? && HasRequired(req) && !EmailPattern.Matches(req.email.value)
    // Every rejection leaves the sheet as it was.
    ensures r.response.status != 200 ==> r.sheet == sheet
    // Success appends exactly the validated row, after all existing rows,
    // and echoes the raw attendance value rather than its label.
    ensures r.response.status == 200 <==>
              && req.Body? && HasRequired(req)
              && EmailPattern.Matches(req.email.value)
              && sink == SinkOk
    ensures r.response.status == 200 ==>
              && r.sheet == sheet + [RowOf(req)]
              && r.response.body == Received(ReceivedMessage, req.name.value,
                                             req.email.value, req.attendance.value)
  {
    EmailPattern.MatchesIffValidEmail(if req.Body? && req.email.Some? then req.email.value else "");
    if req.Unparseable? then
      Reply(Error(500, InternalError), sheet)
    else if !HasRequired(req) then
      Reply(Error(400, MissingFields), sheet)
    else if !EmailPattern.ValidEmail(req.email.value) then
      Reply(Error(400, InvalidEmail), sheet)
    else
      match sink
      case SinkFailed => Reply(Error(500, InternalError), sheet)
      case SinkOk =>
        Reply(Response(200, Received(ReceivedMessage, req.name.value,
                                     req.email.value, req.attendance.value)),
              sheet + [RowOf(req)])
  }

  /** The shape of every row the handler writes: name and e-mail non-empty,
      the e-mail matching the pattern, one of the two labels. */
  predicate WellFormedRow(row: Row) {
    && row.name != ""
    && row.email != ""
    && EmailPattern.ValidEmail(row.email)
    && (row.attendanceLabel == LabelComing || row.attendanceLabel == LabelNotComing)
  }

  predicate AllWellFormed(sheet: seq<Row>) {
    forall i :: 0 <= i < |sheet| ==> WellFormedRow(sheet[i])
  }

  /** A sheet written only through the handler holds only well-formed rows. */
  lemma HandlePreservesWellFormed(req: Request, sink: SinkOutcome, sheet: seq<Row>)
    requires AllWellFormed(sheet)
    ensures AllWellFormed(Handle(req, sink, sheet).sheet)
  {
  }

  /** The number of rows appended is one on 200 and zero otherwise; the
      rows already in the sheet are never touched. */
  lemma AppendCount(req: Request, sink: SinkOutcome, sheet: seq<Row>)
    ensures var r := Handle(req, sink, sheet);
            && r.sheet[..|sheet|] == sheet
            && |r.sheet| == |sheet| + (if r.response.status == 200 then 1 else 0)
  {
  }

  /** The handler answers with 200, 400 or 500 only; every 500 carries the
      same fixed message and nothing about its cause, and a 400 carries one
      of the two validation messages. */
  lemma ResponseShapes(req: Request, sink: SinkOutcome, sheet: seq<Row>)
    ensures var resp := Handle(req, sink, sheet).response;
            && resp.status in {200, 400, 500}
            && (resp.status == 500 ==> resp == Error(500, InternalError))
            && (resp.status == 400 ==>
                  resp == Error(400, MissingFields) || resp == Error(400, InvalidEmail))
  {
  }

  /** A sink failure after validation is reported as the same 500 as a body
      that did not parse; the client cannot tell the two apart. */
  lemma SinkFailureIsGeneric(req: Request, sheet: seq<Row>)
    requires req.Body? && HasRequired(req) && EmailPattern.ValidEmail(req.email.value)
    ensures Handle(req, SinkFailed, sheet) == Handle(Unparseable, SinkOk, sheet)
  {
  }

  /** Every well-formed submission from the form (non-empty name, valid
      e-mail, one of the two attendance values, any dietary note or none)
      is accepted once the sink succeeds, with the label matching the
      attendance value. */
  lemma ValidSubmissionAccepted(name: string, email: string, attendance: string,
                                dietary: Option<string>, sheet: seq<Row>)
    requires name != "" && EmailPattern.ValidEmail(email)
    requires attendance == Coming || attendance == NotComing
    ensures var r := Handle(Body(Some(name), Some(email), Some(attendance), dietary), SinkOk, sheet);
            && r.response.status == 200
            && r.sheet == sheet + [Row(name, email,
                                       if attendance == Coming then LabelComing else LabelNotComing,
                                       ValueOr(dietary, ""))]
  {
  }

  /** An absent dietary field yields an empty, not a missing, fourth column. */
  lemma AbsentDietaryIsEmptyComment(name: string, email: string, attendance: string, sheet: seq<Row>)
    requires name != "" && EmailPattern.ValidEmail(email) && attendance != ""
    ensures var r := Handle(Body(Some(name), Some(email), Some(attendance), None), SinkOk, sheet);
            r.sheet[|sheet|].comment == ""
  {
  }
}

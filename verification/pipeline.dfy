/**
 The form and the endpoint together: the body the form sends is what the
 endpoint decodes, and the form reads the endpoint's answer through
 `response.ok` (a status from 200 to 299).
 */
module Pipeline {
  import opened Wrappers
  import EmailPattern
  import RsvpHandler
  import FormController

  /** `JSON.stringify(formData)` read back by `request.json()`: all four
      fields present as strings. */
  function Decode(f: FormController.FormData): (req: RsvpHandler.Request)
    ensures req.Body? && req.name == Some(f.name) && req.email == Some(f.email)
    ensures req.attendance == Some(f.attendance) && req.dietary == Some(f.dietary)
    // The endpoint's required-field check sees exactly the form's three
    // text values, and the stored comment is the form's dietary text.
    ensures RsvpHandler.HasRequired(req) <==>
              f.name != "" && f.email != "" && f.attendance != ""
    ensures RsvpHandler.Comment(req.dietary) == f.dietary
  {
    RsvpHandler.Body(Some(f.name), Some(f.email), Some(f.attendance), Some(f.dietary))
  }

  /** What the form observes of a response. */
  function Observe(resp: RsvpHandler.Response): (e: FormController.Event)
    ensures e == FormController.ResponseOk <==> 200 <= resp.status <= 299
    ensures e == FormController.ResponseOk || e == FormController.ResponseNotOk
  {
    if 200 <= resp.status <= 299 then FormController.ResponseOk else FormController.ResponseNotOk
  }

  /** What the network does with one exchange: both directions arrive,
      the request never reaches the endpoint, or the endpoint runs and its
      response is lost. Either loss makes `fetch` throw in the page. */
  datatype Transport = Delivered | RequestLost | ResponseLost

  /** The form's state and the sheet after one exchange. */
  datatype Settled = Settled(client: FormController.ClientState, sheet: seq<RsvpHandler.Row>)

  /** One round trip: the user submits from a settled state, the network
      carries the request and the answer as `net` says, the endpoint
      handles the body with the given sink outcome when it is reached, and
      the form takes the answer or the transport failure. */
  function RoundTrip(s: FormController.ClientState, net: Transport,
                     sink: RsvpHandler.SinkOutcome, sheet: seq<RsvpHandler.Row>): (r: Settled)
    requires !s.isSubmitting
    // At most one row is added, after the rows already there.
    ensures |sheet| <= |r.sheet| <= |sheet| + 1 && r.sheet[..|sheet|] == sheet
    // When the answer arrives, the form shows success exactly when a row
    // was appended.
    ensures net == Delivered ==>
              (r.client.status == FormController.Succeeded <==> |r.sheet| == |sheet| + 1)
    // A lost request writes nothing; any loss shows an error.
    ensures net == RequestLost ==> r.sheet == sheet
    ensures net != Delivered ==> r.client.status == FormController.Failed
    // Success clears the form; every other outcome keeps what was entered.
    ensures r.client.status != FormController.Succeeded ==>
              r.client == FormController.ClientState(s.form, false, FormController.Failed)
    ensures r.client.status == FormController.Succeeded ==>
              r.client.form == FormController.DefaultForm
    // A row that was added carries what the user entered.
    ensures |r.sheet| == |sheet| + 1 ==>
              && r.sheet[|sheet|].name == s.form.name
              && r.sheet[|sheet|].email == s.form.email
              && r.sheet[|sheet|].comment == s.form.dietary
  {
    var t := FormController.Transition(s, FormController.Submit);
    match net
    case RequestLost =>
      Settled(FormController.Next(t.next, FormController.TransportFail), sheet)
    case ResponseLost =>
      var reply := RsvpHandler.Handle(Decode(t.request.value), sink, sheet);
      Settled(FormController.Next(t.next, FormController.TransportFail), reply.sheet)
    case Delivered =>
      var reply := RsvpHandler.Handle(Decode(t.request.value), sink, sheet);
      Settled(FormController.Next(t.next, Observe(reply.response)), reply.sheet)
  }

  /** A form filled in with a name, a valid address and one of the two
      attendance values is stored and cleared when the sink succeeds and
      the answer arrives, and kept intact for a retry when the sink fails. */
  lemma FilledFormRoundTrip(s: FormController.ClientState, sheet: seq<RsvpHandler.Row>)
    requires !s.isSubmitting
    requires s.form.name != "" && EmailPattern.ValidEmail(s.form.email)
    requires FormController.KnownAttendance(s)
    ensures RoundTrip(s, Delivered, RsvpHandler.SinkOk, sheet).client.status == FormController.Succeeded
    ensures RoundTrip(s, Delivered, RsvpHandler.SinkFailed, sheet).client.form == s.form
    ensures RoundTrip(s, Delivered, RsvpHandler.SinkFailed, sheet).sheet == sheet
  {
  }

  /** A response lost after the append leaves the row in the sheet while the
      form shows an error with the values kept; retrying then stores the
      same row a second time, since nothing deduplicates submissions. */
  lemma LostResponseThenRetryDuplicates(s: FormController.ClientState, sheet: seq<RsvpHandler.Row>)
    requires !s.isSubmitting
    requires s.form.name != "" && EmailPattern.ValidEmail(s.form.email)
    requires FormController.KnownAttendance(s)
    ensures var lost := RoundTrip(s, ResponseLost, RsvpHandler.SinkOk, sheet);
            && lost.client.status == FormController.Failed
            && lost.client.form == s.form
            && |lost.sheet| == |sheet| + 1
            && var retry := RoundTrip(lost.client, Delivered, RsvpHandler.SinkOk, lost.sheet);
               && retry.client.status == FormController.Succeeded
               && |retry.sheet| == |sheet| + 2
               && retry.sheet[|sheet|] == retry.sheet[|sheet| + 1]
  {
  }
}

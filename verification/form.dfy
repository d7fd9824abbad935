/**
 The RSVP form's submission lifecycle (app/page.tsx, `Home`): the entered
 values, whether a request is in flight, and the status shown after the
 last one, driven by a pure transition function. The browser's `fetch`
 becomes the request a `Submit` step emits and the response or transport
 error that settles it becomes an event.
 */
module FormController {
  import opened Wrappers

  /** The four form fields, serialised as the request body. */
  datatype FormData = FormData(name: string, email: string, attendance: string, dietary: string)

  datatype Field = NameField | EmailField | AttendanceField | DietaryField

  datatype SubmitStatus = NoStatus | Succeeded | Failed

  datatype ClientState = ClientState(form: FormData, isSubmitting: bool, status: SubmitStatus)

  datatype Event =
    | Submit                          // the form's submit event
    | ResponseOk                      // the response arrived with `response.ok`
    | ResponseNotOk                   // the response arrived without it
    | TransportFail                   // `fetch` threw
    | Edit(field: Field, value: string) // an input's `onChange`

  /** The new state and, when the step starts a request, its body. */
  datatype Step = Step(next: ClientState, request: Option<FormData>)

  /** The values the form starts with and returns to after a success. */
  const DefaultForm := FormData("", "", "coming", "")

  const Initial := ClientState(DefaultForm, false, NoStatus)

  function Get(f: FormData, field: Field): string {
    match field
    case NameField => f.name
    case EmailField => f.email
    case AttendanceField => f.attendance
    case DietaryField => f.dietary
  }

  /** `{ ...formData, [field]: value }`. */
  function Set(f: FormData, field: Field, value: string): (g: FormData)
    ensures Get(g, field) == value
    ensures forall other :: other != field ==> Get(g, other) == Get(f, other)
  {
    match field
    case NameField => f.(name := value)
    case EmailField => f.(email := value)
    case AttendanceField => f.(attendance := value)
    case DietaryField => f.(dietary := value)
  }

  /** One event. The submit button is disabled while a request is in
      flight, so a `Submit` then does nothing; an outcome event settles the
      request in flight and has nothing to settle otherwise. */
  function Transition(s: ClientState, e: Event): (t: Step)
    // Only a `Submit` outside a submission starts a request, and it sends
    // the values currently entered.
    ensures t.request.Some? <==> e == Submit && !s.isSubmitting
    ensures t.request.Some? ==> t.request.value == s.form
    // Submitting: in flight, status cleared, values untouched.
    ensures e == Submit && !s.isSubmitting ==>
              t.next == ClientState(s.form, true, NoStatus)
    // The in-flight guard.
    ensures e == Submit && s.isSubmitting ==> t.next == s
    // Success: status shown, values back to the defaults.
    ensures e == ResponseOk && s.isSubmitting ==>
              t.next == ClientState(DefaultForm, false, Succeeded)
    // Any failure: error shown, values kept for a retry.
    ensures (e == ResponseNotOk || e == TransportFail) && s.isSubmitting ==>
              t.next == ClientState(s.form, false, Failed)
    // With nothing in flight, an outcome has nothing to settle.
    ensures IsOutcome(e) && !s.isSubmitting ==> t.next == s && t.request.None?
    // An outcome always ends the submission.
    ensures (e == ResponseOk || e == ResponseNotOk || e == TransportFail) ==>
              !t.next.isSubmitting
    // An edit changes exactly the edited field.
    ensures e.Edit? ==>
              && Get(t.next.form, e.field) == e.value
              && (forall other :: other != e.field ==>
                    Get(t.next.form, other) == Get(s.form, other))
              && t.next.isSubmitting == s.isSubmitting
              && t.next.status == s.status
  {
    match e
    case Submit =>
      if s.isSubmitting then Step(s, None)
      else Step(ClientState(s.form, true, NoStatus), Some(s.form))
    case ResponseOk =>
      if s.isSubmitting then Step(ClientState(DefaultForm, false, Succeeded), None)
      else Step(s, None)
    case ResponseNotOk =>
      if s.isSubmitting then Step(s.(isSubmitting := false, status := Failed), None)
      else Step(s, None)
    case TransportFail =>
      if s.isSubmitting then Step(s.(isSubmitting := false, status := Failed), None)
      else Step(s, None)
    case Edit(field, value) =>
      Step(s.(form := Set(s.form, field, value)), None)
  }

  function Next(s: ClientState, e: Event): ClientState {
    Transition(s, e).next
  }

  predicate IsOutcome(e: Event) {
    e == ResponseOk || e == ResponseNotOk || e == TransportFail
  }

  /** Run a sequence of events; also count the requests started and the
      outcomes that settled one. */
  datatype Trace = Trace(last: ClientState, sent: nat, settled: nat)

  function Run(s: ClientState, events: seq<Event>): (tr: Trace)
    decreases |events|
  {
    if events == [] then Trace(s, 0, 0)
    else
      var t := Transition(s, events[0]);
      var rest := Run(t.next, events[1..]);
      Trace(rest.last,
            rest.sent + (if t.request.Some? then 1 else 0),
            rest.settled + (if IsOutcome(events[0]) && s.isSubmitting then 1 else 0))
  }

  /** At most one request is in flight: from any state, the requests
      started minus the ones settled is the change in `isSubmitting`. From
      the initial state, started and settled differ by at most one. */
  lemma {:induction false} InFlightAccounting(s: ClientState, events: seq<Event>)
    ensures var tr := Run(s, events);
            tr.sent + (if s.isSubmitting then 1 else 0)
              == tr.settled + (if tr.last.isSubmitting then 1 else 0)
    decreases |events|
  {
    if events != [] {
      InFlightAccounting(Transition(s, events[0]).next, events[1..]);
    }
  }

  lemma AtMostOneInFlight(events: seq<Event>)
    ensures var tr := Run(Initial, events);
            && tr.settled <= tr.sent <= tr.settled + 1
            && (tr.sent == tr.settled + 1 <==> tr.last.isSubmitting)
  {
    InFlightAccounting(Initial, events);
  }

  /** While a request is in flight no status is shown: the pair of flags
      is one of the four phases Idle, Submitting, Success, Error. */
  predicate Consistent(s: ClientState) {
    s.isSubmitting ==> s.status == NoStatus
  }

  lemma {:induction false} RunPreservesConsistent(s: ClientState, events: seq<Event>)
    requires Consistent(s)
    ensures Consistent(Run(s, events).last)
    decreases |events|
  {
    if events != [] {
      RunPreservesConsistent(Transition(s, events[0]).next, events[1..]);
    }
  }

  datatype Phase = Idle | Submitting | Success | Error

  function PhaseOf(s: ClientState): Phase {
    if s.isSubmitting then Submitting
    else match s.status
      case NoStatus => Idle
      case Succeeded => Success
      case Failed => Error
  }

  /** The lifecycle as a state machine over phases: a submit from Idle,
      Success or Error enters Submitting; from Submitting an ok response
      leads to Success and a failed response or transport error to Error;
      edits never change the phase. */
  lemma PhaseTransitions(s: ClientState, e: Event)
    ensures e == Submit ==> PhaseOf(Next(s, e)) == Submitting
    ensures PhaseOf(s) == Submitting && e == ResponseOk ==> PhaseOf(Next(s, e)) == Success
    ensures PhaseOf(s) == Submitting && (e == ResponseNotOk || e == TransportFail) ==>
              PhaseOf(Next(s, e)) == Error
    ensures e.Edit? ==> PhaseOf(Next(s, e)) == PhaseOf(s)
  {
  }

  /** Submitting and being answered with an ok response clears the form and
      shows success, whatever was entered. */
  lemma SubmitThenOkResets(s: ClientState)
    requires !s.isSubmitting
    ensures Next(Next(s, Submit), ResponseOk) == ClientState(DefaultForm, false, Succeeded)
  {
  }

  /** Submitting and failing, either way, leaves the entered values exactly
      as they were before the submit. */
  lemma SubmitThenFailurePreserves(s: ClientState, outcome: Event)
    requires !s.isSubmitting
    requires outcome == ResponseNotOk || outcome == TransportFail
    ensures Next(Next(s, Submit), outcome) == ClientState(s.form, false, Failed)
  {
  }

  /** The initial state has empty text fields, `coming` selected, no
      request in flight and no status. */
  lemma InitialState()
    ensures Get(Initial.form, NameField) == "" && Get(Initial.form, EmailField) == ""
    ensures Get(Initial.form, DietaryField) == ""
    ensures Get(Initial.form, AttendanceField) == "coming"
    ensures PhaseOf(Initial) == Idle
  {
  }

  /** Editing a field and reading it back gives the new value; editing it
      back to what it was restores the form. */
  lemma EditRoundTrip(f: FormData, field: Field, value: string)
    ensures Get(Set(f, field, value), field) == value
    ensures Set(Set(f, field, value), field, Get(f, field)) == f
  {
  }

  /** The radio buttons only ever set `coming` or `not-coming`. */
  predicate FromRadios(e: Event) {
    e.Edit? && e.field == AttendanceField ==> e.value == "coming" || e.value == "not-coming"
  }

  predicate KnownAttendance(s: ClientState) {
    s.form.attendance == "coming" || s.form.attendance == "not-coming"
  }

  /** Driven by the page's own controls, the attendance value stays one of
      the two radio values, so every request carries one of them. */
  lemma {:induction false} RunKeepsKnownAttendance(s: ClientState, events: seq<Event>)
    requires KnownAttendance(s)
    requires forall i :: 0 <= i < |events| ==> FromRadios(events[i])
    ensures KnownAttendance(Run(s, events).last)
    decreases |events|
  {
    if events != [] {
      assert FromRadios(events[0]);
      var rest := events[1..];
      assert forall i :: 0 <= i < |rest| ==> FromRadios(rest[i]) by {
        forall i | 0 <= i < |rest| ensures FromRadios(rest[i]) {
          assert rest[i] == events[i + 1];
        }
      }
      RunKeepsKnownAttendance(Next(s, events[0]), rest);
    }
  }

  /** The inputs stay enabled while a request is in flight: an edit made
      then survives a failure but is discarded by the reset on success. */
  lemma EditDuringFlight(s: ClientState, field: Field, value: string)
    requires !s.isSubmitting
    ensures var editing := Next(Next(s, Submit), Edit(field, value));
            && Next(editing, ResponseOk).form == DefaultForm
            && Next(editing, ResponseNotOk).form == Set(s.form, field, value)
  {
  }
}

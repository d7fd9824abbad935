# RSVP submission pipeline — a Dafny model

This project models the two pieces of the RSVP site that carry logic: the
form on the page that collects an RSVP and submits it, and the
`POST /api/rsvp` endpoint that validates the submission and appends one row
to a Google Sheet. Both are pure functions here: the asynchronous fetch,
React's state hooks and the Sheets client become inputs and events.

- `EmailPattern` (email.dfy): the e-mail pattern `^[^\s@]+@[^\s@]+\.[^\s@]+$`
  of route.ts as an explicit predicate `ValidEmail`, the language of the
  pattern itself as `Matches` (the splits the regex can choose), and a proof
  that both accept exactly the same strings.
- `RsvpHandler` (handler.dfy): the endpoint as `Handle(request, sinkOutcome, sheet)`,
  returning the response and the sheet's rows afterwards. The sheet is an
  append-only sequence of four-column rows (Name, E-Mail, Teilnahme,
  Kommentar); the spreadsheet service is reduced to whether its append
  succeeds.
- `FormController` (form.dfy): the page's state `(formData, isSubmitting,
  submitStatus)` with a transition function over the events Submit, an ok
  response, a not-ok response, a transport failure and a field edit.
- `Pipeline` (pipeline.dfy): the two composed: the form's body decoded by
  the endpoint, the endpoint's status read back by the form through
  `response.ok`, and a network that may lose the request or the response
  (either loss makes `fetch` throw in the page).
- `Wrappers` (wrappers.dfy): `Option`, for fields absent from the body.

The second attendance value the form sends is `not-coming`. The endpoint
accepts any non-empty attendance string and maps everything other than
`coming` to the second label.

## Model

| member | source | states |
|---|---|---|
| `EmailPattern.MatchesIffValidEmail` | app/api/rsvp/route.ts:24 | A string matches the pattern exactly when it has no white space, exactly one `@`, a non-empty part before it, and a `.` inside the part after it that is neither first nor last |
| `EmailPattern.MatchesImpliesValid` | app/api/rsvp/route.ts:24 | Every split the pattern accepts yields a string with no white space, a single `@`, a non-empty local part and an inner dot in the domain |
| `EmailPattern.ValidImpliesMatches` | app/api/rsvp/route.ts:24 | Every string of that shape has a split into three runs free of white space and `@`, around one `@` and one `.` |
| `EmailPattern.NoDotInDomainRejected` | app/api/rsvp/route.ts:24 | `foo@bar` is rejected |
| `EmailPattern.OrdinaryAddressAccepted` | app/api/rsvp/route.ts:24 | `ann@host.de` is accepted |
| `RsvpHandler.AttendanceLabel` | app/api/rsvp/route.ts:33-35 | The label is always one of the two fixed strings, and it is "Ich komme gern" exactly when the value is `coming` |
| `RsvpHandler.Comment` | app/api/rsvp/route.ts:38 | `dietary \|\| ""` is the dietary text when present and the empty string when absent |
| `RsvpHandler.RowOf` | app/api/rsvp/route.ts:32-59 | The row carries the submitted name and e-mail, "Ich komme gern" for `coming` and "Ich kann leider nicht teilnehmen" for any other value, and the dietary text or "" when it is absent; when the e-mail passes the check the row is well formed (non-empty name and e-mail, valid e-mail, one of the two labels) |
| `RsvpHandler.Handle` | app/api/rsvp/route.ts:11-90 | A body that does not parse gives 500; "Missing required fields" comes exactly when a required field is absent or empty; "Invalid email format" exactly when they are present and the e-mail does not match the pattern; 200 exactly when both checks pass and the append succeeds, in which case the one validated row is appended at the end and the raw attendance is echoed; no rejection changes the sheet |
| `RsvpHandler.HandlePreservesWellFormed` | app/api/rsvp/route.ts:16-61 | Every row written has a non-empty name and e-mail, an e-mail accepted by the pattern and one of the two labels, so a sheet written only through the endpoint holds only such rows |
| `RsvpHandler.AppendCount` | app/api/rsvp/route.ts:54-61 | The existing rows are untouched and exactly one row is added on 200, none otherwise |
| `RsvpHandler.ResponseShapes` | app/api/rsvp/route.ts:16-89 | Statuses are 200, 400 or 500; a 500 always carries the one fixed message; a 400 carries one of the two validation messages |
| `RsvpHandler.SinkFailureIsGeneric` | app/api/rsvp/route.ts:83-89 | A failed append answers exactly as a body that does not parse does: no detail of the cause reaches the client |
| `RsvpHandler.ValidSubmissionAccepted` | app/api/rsvp/route.ts:33-81 | A non-empty name, a valid e-mail and either attendance value, with a working sink, give 200 and append the row with the matching label and the dietary text or "" |
| `RsvpHandler.AbsentDietaryIsEmptyComment` | app/api/rsvp/route.ts:38 | Omitting `dietary` gives an empty fourth column, not a missing one |
| `FormController.Set` | app/page.tsx:88 | `{ ...formData, [field]: value }` sets the named field and leaves the other three as they were |
| `FormController.Transition` | app/page.tsx:16-46 | Submit outside a submission sends the current values, sets in-flight and clears the status; Submit during one changes nothing; an ok response shows success and resets to the defaults; a not-ok response or transport failure shows an error and keeps the values; every outcome ends the submission; an edit changes only its field |
| `FormController.InFlightAccounting` | app/page.tsx:158 | Over any run, requests started minus requests settled equals the change in the in-flight flag |
| `FormController.AtMostOneInFlight` | app/page.tsx:158 | From the initial state, at most one request is ever unsettled, and one is unsettled exactly while the form is submitting |
| `FormController.RunPreservesConsistent` | app/page.tsx:18-19 | No status is shown while a request is in flight, in every reachable state |
| `FormController.PhaseTransitions` | app/page.tsx:16-46 | As a machine over Idle, Submitting, Success and Error: Submit enters Submitting from any settled phase, an ok response leads to Success, a failure to Error, and edits keep the phase |
| `FormController.SubmitThenOkResets` | app/page.tsx:30-37 | Submitting then receiving an ok response leaves the default values and a success status |
| `FormController.SubmitThenFailurePreserves` | app/page.tsx:38-46 | Submitting then receiving a not-ok response or a transport failure leaves exactly the values entered before the submit, with an error status |
| `FormController.InitialState` | app/page.tsx:7-14 | The form starts with empty name, e-mail and dietary fields, `coming` selected, nothing in flight and no status |
| `FormController.EditRoundTrip` | app/page.tsx:101 | An edited field reads back as the new value, and editing it back restores the form |
| `FormController.RunKeepsKnownAttendance` | app/page.tsx:110-131 | Driven by the radio buttons, the attendance value stays `coming` or `not-coming` |
| `FormController.EditDuringFlight` | app/page.tsx:148 | The inputs stay enabled during a submission: an edit made then is discarded by a success and kept by a failure |
| `Pipeline.Decode` | app/page.tsx:27 | The endpoint receives all four form values as present strings, so its required-field check passes exactly when the form's name, e-mail and attendance are non-empty, and the comment it stores is the form's dietary text |
| `Pipeline.Observe` | app/page.tsx:30 | The form reads a status from 200 to 299 as success and anything else as failure |
| `Pipeline.RoundTrip` | app/page.tsx:16-46 | One submit-and-answer over a network that may lose the request or the response: at most one row is added after the existing ones, and it carries the entered name, e-mail and dietary text; when the answer arrives the form shows success exactly when a row was appended; a lost request writes nothing; any loss shows an error; every outcome other than success keeps the entered values |
| `Pipeline.FilledFormRoundTrip` | app/api/rsvp/route.ts:16-81 | A form with a name, a valid e-mail and a radio attendance value is stored and cleared when the sink works and the answer arrives, and kept for a retry when the sink fails; it runs the form's submit lifecycle of app/page.tsx:16-46 around the endpoint |
| `Pipeline.LostResponseThenRetryDuplicates` | app/page.tsx:41-43 | A response lost after the append leaves the row stored while the form shows an error with the values kept, and a retry then stores the same row twice |

## Left out

- JSX markup, styling, images and the German status messages the page shows: rendering only.
- The browser's own constraint validation (`required`, `type="email"` on the inputs): it runs before the submit event reaches the handler; `Submit` stands for a submit event that was delivered.
- Google authentication, `google.sheets` and the `USER_ENTERED` input mode: foreign calls. The sink is an append that succeeds or fails; the service's reformatting of numeric- or date-looking text is not modelled, so a stored row is the row sent.
- Environment variables and the private key's `\n` decoding: configuration, read at lines 41-50 of route.ts.
- `console.log`/`console.error` and the `toISOString` timestamp: diagnostics with no effect on the response.
- `fetch`, `async`/`await`, `request.json()` and React's update scheduling: the decoded body, the sink outcome and the fetch outcome are inputs or events. Each handler step is taken as atomic, as React batches the updates of one continuation.
- Request fields whose JSON value is not a string (a number, an object) are not modelled: a field is a string or absent. A body of `null` is modelled as `Unparseable`, since reading a field of it throws and the catch answers 500.
- JavaScript strings are UTF-16; the model's strings are sequences of Unicode scalar values. The pattern's verdict is the same either way, since a supplementary character is neither white space nor `@` in both readings.
- Concurrent invocations of the endpoint and the order in which the sheet serialises their appends.
- Outcome events arriving with no request in flight have no continuation in the page and are ignored by `FormController.Transition`.
- A failed append is taken to have written nothing: the sink is all-or-nothing, and a partial or unacknowledged write by the spreadsheet service is not modelled.

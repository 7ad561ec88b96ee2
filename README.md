# Contact form rate limit of the portfolio landing page

This project models the contact section of the portfolio's landing page
(`src/LandingPage.tsx`). The section has four state cells: the form with its
name, e-mail and message fields, the `isSubmitting` busy flag, the
`submitStatus` (idle, success, error, rate_limited) and the time of the last
successful send. The submit handler refuses a submission with status
`rate_limited` when less than one minute has passed since the last
*successful* send, and then computes the remaining wait in whole seconds.
Otherwise it raises the busy flag and posts the form to the e-mail relay.
A confirmed send clears the form and records the send time. A refused
answer or an exception only sets status `error`. The `finally` step lowers
the busy flag.

- `rate_limit.dfy` (module `RateLimit`) holds the pure part: the one-minute
  constant, the strict `<` gate and the ceiling division for the wait.
- `contact_form.dfy` (module `ContactForm`) holds the component state as a
  value (`State`) and the pure specification of one submission
  (`AttemptOf`, `AfterSubmit`). The class `ContactSection` holds the four
  cells as fields. Its `Submit` method follows the handler step by step and
  is proved equal to that specification.
- `submit_history.dfy` (module `SubmitHistory`) treats a session as a
  sequence of typing and submit events. It proves what the handler's comment
  promises, "1 email per minute": confirmed sends are at least a minute
  apart, and failed sends never start a cooldown.

The network call is a parameter. `SendOutcome` is either `Replied(success)`,
carrying the relay's `success` flag, or `Threw`, for an exception from
`fetch` or from decoding the JSON answer. The clock reading `Date.now()` is
the parameter `now`, in integer milliseconds.

## Model

| member | source | states |
|---|---|---|
| RateLimit.CeilDiv | src/LandingPage.tsx:47 | `Math.ceil` of an exact quotient by a positive divisor: the result q is the least integer with n <= q * d, that is (q - 1) * d < n <= q * d |
| RateLimit.RemainingSeconds | src/LandingPage.tsx:44-47 | the wait is the least number of whole seconds covering the remaining milliseconds; it is at least 1 whenever the gate refuses, at most 60 when the clock has not gone backwards, and exactly (60000 - elapsed) / 1000 when elapsed is a whole number of seconds |
| RateLimit.Gate | src/LandingPage.tsx:42-47 | proceeds if and only if at least 60000 ms have passed since the last successful send; otherwise it reports a wait of 1..60 seconds (when elapsed >= 0), equal to RemainingSeconds |
| RateLimit.BoundaryIsExclusive | src/LandingPage.tsx:44-46 | exactly 60000 ms elapsed passes the gate, and 59999 ms is refused with a wait of 1 second |
| RateLimit.FreshCooldownWaitsSixty | src/LandingPage.tsx:44-47 | a submission at the same millisecond as the last successful send is told to wait 60 seconds |
| ContactForm.AttemptOf | src/LandingPage.tsx:42-70 | a throttled submission sends nothing and reports the remaining seconds; otherwise the request carries the form's name, e-mail and message with the fixed subject |
| ContactForm.AfterSubmit | src/LandingPage.tsx:38-89 | when refused, only the status changes, to rate_limited; when admitted, the busy flag ends down and the status is success iff the relay confirmed, otherwise error. The send time is recorded, as the `now` read at the start, only on a confirmed send. The form is cleared only on a confirmed send. The status after a submission is never idle |
| ContactForm.FailureStartsNoCooldown | src/LandingPage.tsx:75-84 | after a refused answer or an exception the gate decides every later submission exactly as it would have before |
| ContactForm.SuccessStartsCooldown | src/LandingPage.tsx:75-78 | after a confirmed send a later submission is throttled iff it comes less than 60000 ms after that send's `now` |
| ContactForm.FirstSubmissionPasses | src/LandingPage.tsx:13-20 | from the initial cells with any typed form, a submission at a clock time of 60000 or later is posted with that form; it records `now` and clears the form only if confirmed, and ends in success or error accordingly |
| ContactForm.ContactSection.constructor | src/LandingPage.tsx:13-20 | initial cells: empty form, not submitting, idle, last send time 0 |
| ContactForm.ContactSection.Edit | src/LandingPage.tsx:1091-1152 | an `onChange` handler: the edited field of the form takes the new text and the other two fields keep theirs; the busy flag, the status and the last send time are unchanged |
| ContactForm.ContactSection.Submit | src/LandingPage.tsx:38-89 | the handler, step by step: returns AttemptOf of the old state and leaves the cells equal to AfterSubmit of the old state |
| SubmitHistory.CooldownIsLastDelivery | src/LandingPage.tsx:75-84 | after any session the recorded send time is that of the last confirmed send, or the starting one when none was confirmed |
| SubmitHistory.DeliveriesIgnoreForm | src/LandingPage.tsx:42-46 | two sessions that start with the same last send time have the same confirmed sends and end with the same send time, whatever the forms hold: the gate reads only the time |
| SubmitHistory.TypingNeverMovesTheGate | src/LandingPage.tsx:1091-1152 | removing every typing event from a session leaves its confirmed sends and its final send time unchanged |
| SubmitHistory.UntilFirstDelivery | src/LandingPage.tsx:20 | until the first confirmed send of a session from the initial cells the recorded send time is still 0, so every press at clock time 60000 or later is posted with the form as it then is |
| SubmitHistory.DeliveriesAreSpaced | src/LandingPage.tsx:41-51 | in any session each confirmed send comes at least 60000 ms after the previous one, and the first at least 60000 ms after the starting send time |
| SubmitHistory.OneDeliveryPerMinute | src/LandingPage.tsx:41-51 | "1 email per minute": two confirmed sends i < j are at least (j - i) minutes apart, so no one-minute window starting at any time holds two of them (the gap arithmetic is the helper lemma SpacedGaps) |
| SubmitHistory.NeverLeftSubmitting | src/LandingPage.tsx:54-85 | since every admitted submission reaches its `finally`, the busy flag is down after any session that starts with it down |
| SubmitHistory.FromInitial | src/LandingPage.tsx:18-20 | from the first render the busy flag is down after any session, and the i-th confirmed send (from 0) is at clock time (i + 1) * 60000 or later |

## Left out

- The `fetch` to the relay and the JSON decoding of its answer (src/LandingPage.tsx:59-73) are network I/O. They are the `SendOutcome` parameter. The access key in the request body is not modelled.
- The JSON `success` field is modelled as a boolean. A truthy non-boolean value is not distinguished from `true`.
- The two `setTimeout` calls that put the status back to idle after 5 s (src/LandingPage.tsx:49, 87) are asynchronous timers and are not modelled. This is why `AfterSubmit` ends with a status that is never idle.
- `console.log` of the remaining seconds and `console.error` are output only. The remaining seconds are returned by `Submit` instead, as `Throttled(waitSeconds)`.
- A second submission during the `await` is concurrency and is not modelled. The page guards against it only by disabling the button while `isSubmitting` (src/LandingPage.tsx:1174). Each submission is handled to completion (atomically). So the intermediate state, busy and idle while the request is in flight, is set inside `Submit` but never observed between events.
- The browser's form validation is not modelled. All three inputs are `required` and the e-mail input has `type="email"` (src/LandingPage.tsx:1089, 1119-1120, 1150). On the page, an empty or malformed form never fires `onSubmit`, so the handler does not run and the status does not change. In the model every press reaches the handler, whatever the form holds. The session lemmas in submit_history.dfy therefore cover more behaviours than the page allows; each of them holds in particular for the sessions the page does allow.
- React's batching of state updates and its stale closures make no difference to a submission handled atomically. The handler reads `lastSubmitTime` and the form only before it writes them, so they are not modelled separately.
- Times are unbounded integers. JavaScript numbers are doubles, which are exact for integer milliseconds below 2^53, so the arithmetic agrees there. A clock that goes backwards is allowed: the gate then refuses with a wait of 61 seconds or more.
- The status banners, the rest of the JSX, styles and animations, the scroll listener and `scrollIntoView` (src/LandingPage.tsx:22-36) are presentation and DOM plumbing.
- The animated beams background (`./component/Beams`) is not part of this model. Its source is not among the files modelled here, and it is floating-point GPU shading.
- The three case-study pages (src/projects/*.tsx) are static content, and src/App.tsx is a route table. None of them is modelled.

/** The contact section of the landing page: the form's four state cells and
    the submission handler that drives them through the rate-limit gate, the
    send to the e-mail relay and the outcome of that send. */
module ContactForm {
  import opened RateLimit

  /** The four values of `submitStatus`. */
  datatype Status = Idle | Success | Error | RateLimited

  /** The three fields the visitor types into. */
  datatype EmailForm = EmailForm(name: string, email: string, message: string)

  /** Names one input of the form. */
  datatype Field = Name | Email | Message

  /** The subject line every request carries. */
  const Subject: string := "New Client Form Submission from Portfolio"

  /** The fields of the JSON body posted to the relay (the access key aside). */
  datatype Request = Request(name: string, email: string, message: string, subject: string)

  /** How the send ended: the relay answered with its `success` flag, or the
      request or the decoding of its answer raised an exception. */
  datatype SendOutcome = Replied(success: bool) | Threw

  /** What one submission did towards the relay. */
  datatype Attempt = Throttled(waitSeconds: int) | Posted(request: Request)

  /** A snapshot of the component's state cells. */
  datatype State = State(form: EmailForm, isSubmitting: bool, status: Status, lastSubmitTime: int)

  const EmptyForm: EmailForm := EmailForm("", "", "")

  /** The state on first render: empty form, idle, no send yet (time 0). */
  const Initial: State := State(EmptyForm, false, Idle, 0)

  /** The body posted for a form: its three fields and the fixed subject. */
  function RequestFor(f: EmailForm): Request
  {
    Request(f.name, f.email, f.message, Subject)
  }

  /** True when the relay confirmed the send. */
  predicate Delivered(outcome: SendOutcome)
  {
    outcome == Replied(true)
  }

  /** The form after one input changed: that field holds the new text and the
      other two are as they were. */
  function WithField(f: EmailForm, field: Field, value: string): EmailForm
  {
    match field
    case Name => f.(name := value)
    case Email => f.(email := value)
    case Message => f.(message := value)
  }

  /** What a submission at `now` sends: nothing when throttled (only the wait
      is reported), otherwise the current form's request. */
  function AttemptOf(s: State, now: int): (a: Attempt)
    ensures a.Throttled? <==> IsThrottled(now, s.lastSubmitTime)
    ensures a.Throttled? ==> a.waitSeconds == RemainingSeconds(now - s.lastSubmitTime)
    ensures a.Posted? ==> a.request == RequestFor(s.form)
  {
    match Gate(now, s.lastSubmitTime)
    case Wait(seconds) => Throttled(seconds)
    case Proceed => Posted(RequestFor(s.form))
  }

  /** The state after one submission at `now` whose send ends with `outcome`. */
  function AfterSubmit(s: State, now: int, outcome: SendOutcome): (r: State)
    // refused: only the status changes
    ensures IsThrottled(now, s.lastSubmitTime) ==>
              r == s.(status := RateLimited)
    // admitted: the busy flag is down again whatever the outcome
    ensures !IsThrottled(now, s.lastSubmitTime) ==> !r.isSubmitting
    ensures !IsThrottled(now, s.lastSubmitTime) ==>
              (r.status == Success <==> Delivered(outcome)) &&
              (r.status == Error <==> !Delivered(outcome))
    // the cooldown starts only on a confirmed send, at the captured `now`
    ensures r.lastSubmitTime == now || r.lastSubmitTime == s.lastSubmitTime
    ensures r.lastSubmitTime != s.lastSubmitTime ==>
              !IsThrottled(now, s.lastSubmitTime) && Delivered(outcome)
    ensures !IsThrottled(now, s.lastSubmitTime) && Delivered(outcome) ==>
              r.lastSubmitTime == now
    // the form is cleared only on a confirmed send
    ensures r.form == (if !IsThrottled(now, s.lastSubmitTime) && Delivered(outcome)
                       then EmptyForm else s.form)
    ensures r.status != Idle
  {
    if IsThrottled(now, s.lastSubmitTime) then
      s.(status := RateLimited)
    else
      match outcome
      case Replied(ok) =>
        if ok then State(EmptyForm, false, Success, now)
        else s.(isSubmitting := false, status := Error)
      case Threw => s.(isSubmitting := false, status := Error)
  }

  /** A failed send, answered or thrown, leaves the gate exactly as it was:
      the visitor may retry whenever they could have before. */
  lemma FailureStartsNoCooldown(s: State, now: int, outcome: SendOutcome, later: int)
    requires !Delivered(outcome)
    ensures Gate(later, AfterSubmit(s, now, outcome).lastSubmitTime) == Gate(later, s.lastSubmitTime)
  {
  }

  /** A confirmed send closes the gate for exactly one minute from `now`. */
  lemma SuccessStartsCooldown(s: State, now: int, later: int)
    requires !IsThrottled(now, s.lastSubmitTime)
    ensures IsThrottled(later, AfterSubmit(s, now, Replied(true)).lastSubmitTime) <==>
              later < now + OneMinute
  {
  }

  /** From the initial cells, whatever the visitor has typed, the first
      submission reaches the relay as soon as the clock reads at least one
      minute past time 0, and posts what was typed. */
  lemma FirstSubmissionPasses(f: EmailForm, now: int, outcome: SendOutcome)
    requires now >= OneMinute
    ensures AttemptOf(Initial.(form := f), now) == Posted(RequestFor(f))
    ensures AfterSubmit(Initial.(form := f), now, outcome).lastSubmitTime ==
              (if Delivered(outcome) then now else 0)
    ensures AfterSubmit(Initial.(form := f), now, outcome).status ==
              (if Delivered(outcome) then Success else Error)
    ensures AfterSubmit(Initial.(form := f), now, outcome).form ==
              (if Delivered(outcome) then EmptyForm else f)
  {
  }

  /** The live component: its state cells, updated in place by the handlers. */
  class ContactSection {
    var form: EmailForm
    var isSubmitting: bool
    var status: Status
    var lastSubmitTime: int

    /** The current values of the four cells. */
    function Snapshot(): State
      reads this
    {
      State(form, isSubmitting, status, lastSubmitTime)
    }

    constructor ()
      ensures Snapshot() == Initial
    {
      form := EmptyForm;
      isSubmitting := false;
      status := Idle;
      lastSubmitTime := 0;
    }

    /** An `onChange` of one input: replaces that field of the form. */
    method Edit(field: Field, value: string)
      modifies this
      ensures form == WithField(old(form), field, value)
      ensures isSubmitting == old(isSubmitting) && status == old(status)
      ensures lastSubmitTime == old(lastSubmitTime)
    {
      match field {
        case Name => form := EmailForm(value, form.email, form.message);
        case Email => form := EmailForm(form.name, value, form.message);
        case Message => form := EmailForm(form.name, form.email, value);
      }
    }

    /** `handleSubmit`: the gate, then the send with its outcome, then the
        `finally` step. Returns what was sent, or the wait when refused. */
    method Submit(now: int, outcome: SendOutcome) returns (attempt: Attempt)
      modifies this
      ensures attempt == AttemptOf(old(Snapshot()), now)
      ensures Snapshot() == AfterSubmit(old(Snapshot()), now, outcome)
    {
      var timeSinceLastSubmit := now - lastSubmitTime;
      if timeSinceLastSubmit < OneMinute {
        var remainingTime := CeilDiv(OneMinute - timeSinceLastSubmit, MillisPerSecond);
        status := RateLimited;
        return Throttled(remainingTime);
      }
      isSubmitting := true;
      status := Idle;
      var request := Request(form.name, form.email, form.message, Subject);
      match outcome {
        case Replied(ok) =>
          if ok {
            status := Success;
            form := EmailForm("", "", "");
            lastSubmitTime := now;
          } else {
            status := Error;
          }
        case Threw =>
          status := Error;
      }
      isSubmitting := false;
      attempt := Posted(request);
    }
  }
}

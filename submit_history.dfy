/** A visitor's session with the contact form as a sequence of events, each
    handled to completion before the next, and what the rate limit promises
    over such a session: at most one delivered e-mail per minute. */
module SubmitHistory {
  import opened RateLimit
  import opened ContactForm

  /** One user action: typing into a field, or pressing "Send Message" at
      clock time `now` with the send ending in `outcome`. */
  datatype Event = Type(field: Field, value: string) | Press(now: int, outcome: SendOutcome)

  /** The state after one event. */
  function Step(s: State, e: Event): State
  {
    match e
    case Type(field, value) => s.(form := WithField(s.form, field, value))
    case Press(now, outcome) => AfterSubmit(s, now, outcome)
  }

  /** True when the event is a press that gets past the gate and whose send
      the relay confirms. */
  predicate DeliversFrom(s: State, e: Event)
  {
    e.Press? && !IsThrottled(e.now, s.lastSubmitTime) && Delivered(e.outcome)
  }

  /** The state after the whole session. */
  function Run(s: State, events: seq<Event>): State
    decreases |events|
  {
    if events == [] then s else Run(Step(s, events[0]), events[1..])
  }

  /** The clock times of the confirmed sends of a session, in order. */
  function Deliveries(s: State, events: seq<Event>): seq<int>
    decreases |events|
  {
    if events == [] then []
    else
      (if DeliversFrom(s, events[0]) then [events[0].now] else [])
      + Deliveries(Step(s, events[0]), events[1..])
  }

  /** `times` starts at least a minute after `prev` and each time is at least
      a minute after the one before it. */
  ghost predicate SpacedAfter(prev: int, times: seq<int>)
    decreases |times|
  {
    times == [] || (times[0] - prev >= OneMinute && SpacedAfter(times[0], times[1..]))
  }

  /** The cooldown recorded after a session is the time of its last confirmed
      send, or the one it started with if none was confirmed: failed sends
      never move it. */
  lemma {:induction false} CooldownIsLastDelivery(s: State, events: seq<Event>)
    ensures var d := Deliveries(s, events);
            Run(s, events).lastSubmitTime == if d == [] then s.lastSubmitTime else d[|d| - 1]
    decreases |events|
  {
    if events != [] {
      var t := Step(s, events[0]);
      CooldownIsLastDelivery(t, events[1..]);
      var d := Deliveries(s, events);
      var rest := Deliveries(t, events[1..]);
      if DeliversFrom(s, events[0]) {
        assert d == [events[0].now] + rest;
      } else {
        assert d == rest;
        assert t.lastSubmitTime == s.lastSubmitTime;
      }
    }
  }

  /** Every confirmed send of a session comes at least a minute after the
      previous one, the first at least a minute after the starting cooldown. */
  lemma {:induction false} DeliveriesAreSpaced(s: State, events: seq<Event>)
    ensures SpacedAfter(s.lastSubmitTime, Deliveries(s, events))
    decreases |events|
  {
    if events != [] {
      var t := Step(s, events[0]);
      DeliveriesAreSpaced(t, events[1..]);
      var rest := Deliveries(t, events[1..]);
      if DeliversFrom(s, events[0]) {
        assert t.lastSubmitTime == events[0].now;
        assert Deliveries(s, events) == [events[0].now] + rest;
        assert ([events[0].now] + rest)[1..] == rest;
      } else {
        assert t.lastSubmitTime == s.lastSubmitTime;
        assert Deliveries(s, events) == rest;
      }
    }
  }

  /** Spacing by a minute between neighbours adds up: the j-th time lies at
      least (j - i) minutes after the i-th, and the first is past `prev`. */
  lemma {:induction false} SpacedGaps(prev: int, times: seq<int>)
    requires SpacedAfter(prev, times)
    ensures forall i :: 0 <= i < |times| ==> times[i] - prev >= (i + 1) * OneMinute
    ensures forall i, j :: 0 <= i < j < |times| ==> times[j] - times[i] >= (j - i) * OneMinute
    decreases |times|
  {
    if times != [] {
      var rest := times[1..];
      SpacedGaps(times[0], rest);
      forall i | 0 <= i < |times|
        ensures times[i] - prev >= (i + 1) * OneMinute
      {
        if i > 0 {
          assert times[i] == rest[i - 1];
        }
      }
      forall i, j | 0 <= i < j < |times|
        ensures times[j] - times[i] >= (j - i) * OneMinute
      {
        assert times[j] == rest[j - 1];
        if i > 0 {
          assert times[i] == rest[i - 1];
        }
      }
    }
  }

  /** "1 email per minute": in any session, two confirmed sends are at least a
      minute apart, so no window of one minute holds two of them. */
  lemma {:induction false} OneDeliveryPerMinute(s: State, events: seq<Event>, from: int)
    ensures var d := Deliveries(s, events);
            forall i, j :: 0 <= i < j < |d| ==> d[j] - d[i] >= (j - i) * OneMinute
    ensures var d := Deliveries(s, events);
            forall i, j :: 0 <= i < j < |d| && from <= d[i] ==> d[j] >= from + OneMinute
    ensures var d := Deliveries(s, events);
            forall i :: 0 <= i < |d| ==> d[i] - s.lastSubmitTime >= (i + 1) * OneMinute
  {
    DeliveriesAreSpaced(s, events);
    SpacedGaps(s.lastSubmitTime, Deliveries(s, events));
  }

  /** The presses of a session, with the typing taken out. */
  function Presses(events: seq<Event>): seq<Event>
    decreases |events|
  {
    if events == [] then []
    else (if events[0].Press? then [events[0]] else []) + Presses(events[1..])
  }

  /** Which sends are confirmed depends on the recorded send time alone, not
      on what the form holds. */
  lemma {:induction false} DeliveriesIgnoreForm(s: State, t: State, events: seq<Event>)
    requires s.lastSubmitTime == t.lastSubmitTime
    ensures Deliveries(s, events) == Deliveries(t, events)
    ensures Run(s, events).lastSubmitTime == Run(t, events).lastSubmitTime
    decreases |events|
  {
    if events != [] {
      var e := events[0];
      assert DeliversFrom(s, e) == DeliversFrom(t, e);
      assert Step(s, e).lastSubmitTime == Step(t, e).lastSubmitTime;
      DeliveriesIgnoreForm(Step(s, e), Step(t, e), events[1..]);
    }
  }

  /** Typing never moves the gate: taking every `Type` event out of a session
      leaves its confirmed sends and its final send time as they were. */
  lemma {:induction false} TypingNeverMovesTheGate(s: State, events: seq<Event>)
    ensures Deliveries(s, events) == Deliveries(s, Presses(events))
    ensures Run(s, events).lastSubmitTime == Run(s, Presses(events)).lastSubmitTime
    decreases |events|
  {
    if events != [] {
      var e := events[0];
      var rest := events[1..];
      TypingNeverMovesTheGate(Step(s, e), rest);
      if e.Press? {
        assert Presses(events) == [e] + Presses(rest);
        assert ([e] + Presses(rest))[0] == e;
        assert ([e] + Presses(rest))[1..] == Presses(rest);
      } else {
        assert Presses(events) == Presses(rest);
        assert Step(s, e).lastSubmitTime == s.lastSubmitTime;
        DeliveriesIgnoreForm(Step(s, e), s, Presses(rest));
        assert !DeliversFrom(s, e);
      }
    }
  }

  /** Until the first confirmed send, the cooldown is still the initial 0, so
      after any such session every press at 60000 or later is posted with
      whatever the form then holds. */
  lemma UntilFirstDelivery(events: seq<Event>, now: int)
    requires Deliveries(Initial, events) == []
    requires now >= OneMinute
    ensures Run(Initial, events).lastSubmitTime == 0
    ensures AttemptOf(Run(Initial, events), now) == Posted(RequestFor(Run(Initial, events).form))
  {
    CooldownIsLastDelivery(Initial, events);
  }

  /** Since each submission runs to its `finally`, the busy flag is down
      between events: the button is enabled whenever the visitor can act. */
  lemma {:induction false} NeverLeftSubmitting(s: State, events: seq<Event>)
    requires !s.isSubmitting
    ensures !Run(s, events).isSubmitting
    decreases |events|
  {
    if events != [] {
      NeverLeftSubmitting(Step(s, events[0]), events[1..]);
    }
  }

  /** Starting from the first render the busy flag is down after any session,
      and the i-th confirmed send (counting from 0) comes no earlier than
      (i + 1) * 60000 on the clock. */
  lemma FromInitial(events: seq<Event>)
    ensures !Run(Initial, events).isSubmitting
    ensures var d := Deliveries(Initial, events);
            forall i :: 0 <= i < |d| ==> d[i] >= (i + 1) * OneMinute
  {
    NeverLeftSubmitting(Initial, events);
    OneDeliveryPerMinute(Initial, events, 0);
  }
}

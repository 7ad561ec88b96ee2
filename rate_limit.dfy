/** The rate-limit gate of the contact form: one successful send per minute,
    and the whole seconds the visitor is told to wait when refused. */
module RateLimit {

  /** The cooldown after a successful send, in milliseconds (60 * 1000). */
  const OneMinute: int := 60 * 1000

  /** Milliseconds per second: the unit of the wait reported when refused. */
  const MillisPerSecond: int := 1000

  /** What the gate decides for a submission at `now`. */
  datatype Decision = Proceed | Wait(seconds: int)

  /** Integer ceiling of n / d for a positive divisor: `Math.ceil` of an exact
      quotient. The result is the least q with n <= q * d. */
  function CeilDiv(n: int, d: int): (q: int)
    requires d > 0
    ensures (q - 1) * d < n <= q * d
  {
    var k := (-n) / d;
    assert -n == d * k + (-n) % d;
    -k
  }

  /** A submission is refused when strictly less than a minute has passed
      since the last successful send (the test is a strict `<`). */
  predicate IsThrottled(now: int, lastSubmitTime: int)
  {
    now - lastSubmitTime < OneMinute
  }

  /** The whole seconds still to wait after `elapsed` milliseconds: the
      ceiling of the remaining milliseconds divided by 1000. */
  function RemainingSeconds(elapsed: int): (s: int)
    ensures (s - 1) * MillisPerSecond < OneMinute - elapsed <= s * MillisPerSecond
    ensures elapsed < OneMinute ==> s >= 1
    ensures 0 <= elapsed ==> s <= 60
    ensures elapsed < OneMinute && elapsed % MillisPerSecond == 0 ==>
              s == (OneMinute - elapsed) / MillisPerSecond
  {
    CeilDiv(OneMinute - elapsed, MillisPerSecond)
  }

  /** The gate at the head of a submission: proceed, or wait with the number
      of whole seconds left. */
  function Gate(now: int, lastSubmitTime: int): (d: Decision)
    ensures d.Proceed? <==> now - lastSubmitTime >= OneMinute
    ensures d.Wait? ==> 1 <= d.seconds
    ensures d.Wait? && now >= lastSubmitTime ==> d.seconds <= 60
    ensures d.Wait? ==> d.seconds == RemainingSeconds(now - lastSubmitTime)
  {
    if IsThrottled(now, lastSubmitTime) then Wait(RemainingSeconds(now - lastSubmitTime))
    else Proceed
  }

  /** The cooldown boundary is exclusive: at exactly one minute the gate
      opens, one millisecond earlier it asks for one more second. */
  lemma BoundaryIsExclusive(lastSubmitTime: int)
    ensures Gate(lastSubmitTime + OneMinute, lastSubmitTime) == Proceed
    ensures Gate(lastSubmitTime + OneMinute - 1, lastSubmitTime) == Wait(1)
  {
  }

  /** Right after a successful send the full minute is reported. */
  lemma FreshCooldownWaitsSixty(now: int)
    ensures Gate(now, now) == Wait(60)
  {
  }
}

/** The countdown the controller shows next to the current question. Time
    is an integer number of milliseconds; the interval tick is left to the
    caller, which passes the current time. */
module AdminTimer {
  import opened Common

  /** Whole seconds in `elapsedMs`, rounded down as `Math.floor` does; for
      the positive divisor 1000 Dafny's `/` rounds down as well. */
  function ElapsedSeconds(elapsedMs: int): (s: int)
    ensures s * 1000 <= elapsedMs < s * 1000 + 1000
  {
    elapsedMs / 1000
  }

  /** Seconds left of a `duration`-second window after `elapsedMs`,
      clamped at zero. */
  function Remaining(duration: int, elapsedMs: int): (r: int)
    ensures r >= 0
    ensures elapsedMs >= 0 && duration >= 0 ==> r <= duration
    ensures r == 0 <==> elapsedMs >= duration * 1000
    ensures r > 0 ==> (duration - r) * 1000 <= elapsedMs < (duration - r + 1) * 1000
  {
    var remaining := duration - ElapsedSeconds(elapsedMs);
    if remaining > 0 then remaining else 0
  }

  /** The value shown once the interval has ticked at time `nowMs`: the
      timer never starts without a start stamp or with a zero duration,
      and then keeps showing the duration it was given. */
  function Shown(startTime: Option<int>, duration: int, nowMs: int): (r: int)
    ensures startTime.None? || duration == 0 ==> r == duration
    ensures startTime.Some? && duration != 0 ==> r == Remaining(duration, nowMs - startTime.value)
  {
    if startTime.None? || duration == 0 then duration
    else Remaining(duration, nowMs - startTime.value)
  }

  /** The countdown never goes up as time passes. */
  lemma RemainingMonotone(duration: int, e1: int, e2: int)
    requires e1 <= e2
    ensures Remaining(duration, e2) <= Remaining(duration, e1)
  {
    var s1, s2 := ElapsedSeconds(e1), ElapsedSeconds(e2);
    assert s1 <= s2;
  }
}

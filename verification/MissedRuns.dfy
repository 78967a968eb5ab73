/** Counting the runs that were missed while nothing was checking. */
module MissedRuns {
  import opened Wrappers
  import opened Models
  import opened ScheduleCalc
  import opened Arithmetic

  const DEFAULT_GRACE_PERIOD_MINUTES: int := 5

  function IsRunMissed(s: Schedule, now: Time, gracePeriodMinutes: Option<int>): bool {
    var grace := gracePeriodMinutes.GetOr(DEFAULT_GRACE_PERIOD_MINUTES);
    s.nextRunAt.Some? && s.nextRunAt.value + grace * 60 * SECOND < now
  }

  /**
   A window is missed once more time than the grace period, five minutes if none is given, has passed since the next
   time; within it, and without a next time, it is not.
   */
  lemma MissedIff(s: Schedule, now: Time, minutes: int)
    ensures IsRunMissed(s, now, Some(minutes)) <==>
      s.nextRunAt.Some? && now - s.nextRunAt.value > minutes * 60_000_000_000
    ensures IsRunMissed(s, now, None) <==> s.nextRunAt.Some? && now - s.nextRunAt.value > 300_000_000_000
  {
  }

  /** Whole seconds of a duration, truncated toward zero. */
  function NumSeconds(duration: Time): int {
    if duration >= 0 then duration / SECOND else -((-duration) / SECOND)
  }

  function CountMissedIntervalRuns(s: Schedule, lastRun: Option<Time>, now: Time): nat {
    if !s.IsInterval() || s.intervalSeconds.None? || s.intervalSeconds.value <= 0 then
      0
    else
      match lastRun.Or(s.lastRunAt)
      case None => 0
      case Some(last) =>
        var seconds := s.intervalSeconds.value;
        var elapsed := now - last;
        if elapsed < seconds * SECOND then
          0
        else
          var missed := NumSeconds(elapsed) / seconds;
          if missed >= 1 then missed - 1 else 0
  }

  // ---------- division counts slots ----------

  /** The slots after `last` that have passed by `now`, without the first one, which is the run still to come. */
  ghost function MissedSlots(last: Time, seconds: int, now: Time): set<int> {
    set k: int | 2 <= k <= now - last && last + k * (seconds * SECOND) <= now
  }

  /** The bound that keeps `MissedSlots` finite excludes no slot. */
  lemma MissedSlotsAreAll(last: Time, seconds: int, now: Time, k: int)
    requires seconds > 0
    ensures k in MissedSlots(last, seconds, now) <==> 2 <= k && last + k * (seconds * SECOND) <= now
  {
    if 2 <= k && last + k * (seconds * SECOND) <= now {
      Grows(k, seconds * SECOND);
    }
  }

  lemma Grows(k: int, p: int)
    requires k >= 0 && p >= 1
    ensures k <= k * p
  {
    assert k * p == k + k * (p - 1);
    assert k * (p - 1) >= 0;
  }

  /** Rounding to whole seconds first does not change how many whole intervals fit. */
  lemma NestedFloor(e: int, seconds: int)
    requires e >= 0 && seconds > 0
    ensures (e / SECOND) / seconds == e / (seconds * SECOND)
  {
    var q := (e / SECOND) / seconds;
    var w := e / SECOND;
    assert q * seconds <= w < (q + 1) * seconds;
    assert w * SECOND <= e < (w + 1) * SECOND;
    assert (q * seconds) * SECOND == q * (seconds * SECOND) <= e;
    assert (w + 1) * SECOND <= ((q + 1) * seconds) * SECOND == (q + 1) * (seconds * SECOND);
    Fits(q, seconds * SECOND, e);
    Fits(q + 1, seconds * SECOND, e);
  }

  /** The division counts exactly the slots k >= 2 with last + k * interval <= now. */
  lemma CountIsSlots(s: Schedule, lastRun: Option<Time>, now: Time, last: Time, seconds: int)
    requires HasInterval(s, seconds)
    requires lastRun.Or(s.lastRunAt) == Some(last)
    ensures CountMissedIntervalRuns(s, lastRun, now) == |MissedSlots(last, seconds, now)|
  {
    var p, e := seconds * SECOND, now - last;
    var q := if e < p then 1 else e / p;
    if e >= p {
      NestedFloor(e, seconds);
      WholeIntervals(e, p);
    }
    forall k: int
      ensures k in MissedSlots(last, seconds, now) <==> k in Range(2, q + 1)
    {
      MissedSlotsAreAll(last, seconds, now, k);
      if e >= p {
        Fits(k, p, e);
      } else if k >= 2 {
        Scale(1, k, p);
      }
    }
    assert MissedSlots(last, seconds, now) == Range(2, q + 1);
  }

  /** Nothing is counted for another kind of schedule, for an interval that is not positive, or before the first run. */
  lemma NothingToCount(s: Schedule, lastRun: Option<Time>, now: Time)
    requires !s.IsInterval() || s.intervalSeconds.GetOr(0) <= 0 || (lastRun.None? && s.lastRunAt.None?)
    ensures CountMissedIntervalRuns(s, lastRun, now) == 0
  {
  }

  /** A positive count means that two intervals have passed. */
  lemma MissedSlotPassed(s: Schedule, lastRun: Option<Time>, now: Time, last: Time, seconds: int)
    requires HasInterval(s, seconds) && lastRun.Or(s.lastRunAt) == Some(last)
    requires CountMissedIntervalRuns(s, lastRun, now) > 0
    ensures last + 2 * (seconds * SECOND) <= now
  {
    CountIsSlots(s, lastRun, now, last, seconds);
    var k := AnElement(MissedSlots(last, seconds, now));
    Scale(2, k, seconds * SECOND);
  }

  /** A missed slot means that the window has passed and that the schedule is due. */
  lemma MissedMeansDue(s: Schedule, now: Time, last: Time, seconds: int, graceMinutes: Option<int>)
    requires HasInterval(s, seconds) && s.lastRunAt == Some(last)
    requires s.nextRunAt == Some(last + seconds * SECOND)
    requires 0 <= graceMinutes.GetOr(DEFAULT_GRACE_PERIOD_MINUTES) * 60 < seconds
    requires CountMissedIntervalRuns(s, None, now) > 0
    ensures IsRunMissed(s, now, graceMinutes) && IsDue(s, now)
  {
    MissedSlotPassed(s, None, now, last, seconds);
  }

  // ---------- the counts over a run add up ----------

  ghost predicate Spaced(q: seq<Time>, gap: Time) {
    forall k :: 0 < k < |q| ==> q[k - 1] + gap <= q[k]
  }

  /** Over all gaps between the send times, the run itself and the runs it stands for. */
  ghost function TotalRuns(s: Schedule, q: seq<Time>): int {
    if |q| <= 1 then
      0
    else
      var n := |q| - 1;
      TotalRuns(s, q[..n]) + 1 + CountMissedIntervalRuns(s, Some(q[n - 1]), q[n])
  }

  /** The total stands for the elapsed time, up to less than one interval for each gap. */
  lemma {:induction false} MissedRunsTelescope(s: Schedule, q: seq<Time>, seconds: int)
    requires HasInterval(s, seconds) && |q| >= 1
    requires Spaced(q, seconds * SECOND)
    ensures
      var t, n, elapsed := TotalRuns(s, q), |q| - 1, q[|q| - 1] - q[0];
      && (seconds * SECOND) * t <= elapsed
      && if n > 0 then elapsed < (seconds * SECOND) * (t + n) else elapsed == 0 && t == 0
  {
    if |q| > 1 {
      var p, n := seconds * SECOND, |q| - 1;
      MissedRunsTelescope(s, q[..n], seconds);
      var gap := q[n] - q[n - 1];
      NestedFloor(gap, seconds);
      WholeIntervals(gap, p);
      AddGap(p, TotalRuns(s, q[..n]), n - 1, q[n - 1] - q[0], gap);
    }
  }

  lemma WholeIntervals(gap: int, p: int)
    requires 0 < p <= gap
    ensures gap / p >= 1
  {
    Fits(1, p, gap);
  }

  lemma AddGap(p: int, t: int, n: nat, elapsed: int, gap: int)
    requires 0 < p <= gap
    requires p * t <= elapsed && if n > 0 then elapsed < p * (t + n) else elapsed == 0 && t == 0
    ensures p * (t + gap / p) <= elapsed + gap < p * (t + gap / p + (n + 1))
  {
    var f := gap / p;
    assert p * f <= gap < p * (f + 1);
    Distribute(p, t, f);
    Distribute(p, t + n, f + 1);
    assert t + f + (n + 1) == (t + n) + (f + 1);
  }
}

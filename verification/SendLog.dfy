/**
 The history of one schedule within one process: a visit for every message that was
 put on the queue for it, oldest first. A visit carries the due time it answered, the
 instant of the check that found it due, the instant of the send and, once the schedule
 has been moved on in memory, the stamp taken after the send and the next due time.
 A visit without an advance is still under way or failed after the send.

 The results here hold for every legal history. `SchedulerMachine` proves that every
 reachable state of the scheduler has one for every schedule.
 */
module SendLog {
  import opened Wrappers
  import opened Models
  import opened ScheduleCalc
  import opened Arithmetic

  datatype Advance = Advance(stamp: Time, next: Time)

  datatype Visit = Visit(due: Time, check: Time, sent: Time, advance: Option<Advance>) {
    /** The last instant at which this visit is known to have been under way. */
    function End(): Time {
      if advance.Some? then advance.value.stamp else sent
    }
  }

  /** The schedule in memory after the visits of `log`, having been loaded as `loaded`. */
  function Replay(loaded: Schedule, log: seq<Visit>): Schedule {
    if log == [] then
      loaded
    else
      var before := Replay(loaded, log[..|log| - 1]);
      match log[|log| - 1].advance
      case None => before
      case Some(a) => before.Moved(a.stamp, a.next)
  }

  /** A visit that the scheduler can make to a schedule that stands as `entry`. */
  predicate LegalVisit(cron: CronLib, entry: Schedule, v: Visit) {
    && entry.nextRunAt == Some(v.due)
    && v.due <= v.check <= v.sent
    && (v.advance.Some? ==>
          var a := v.advance.value;
          v.sent <= a.stamp && CalculateNextRun(cron, entry, Some(a.stamp), a.stamp) == Ok(a.next))
  }

  predicate Legal(cron: CronLib, loaded: Schedule, log: seq<Visit>) {
    log == [] ||
    var n := |log| - 1;
    && Legal(cron, loaded, log[..n])
    && LegalVisit(cron, Replay(loaded, log[..n]), log[n])
    && (n > 0 ==> log[n - 1].End() <= log[n].check)
  }

  /** How many visits moved the schedule on. */
  function Advances(log: seq<Visit>): nat {
    if log == [] then
      0
    else
      Advances(log[..|log| - 1]) + if log[|log| - 1].advance.Some? then 1 else 0
  }

  // ---------- prefixes ----------

  lemma {:induction false} LegalAt(cron: CronLib, loaded: Schedule, log: seq<Visit>, k: nat)
    requires Legal(cron, loaded, log) && k < |log|
    ensures Legal(cron, loaded, log[..k])
    ensures LegalVisit(cron, Replay(loaded, log[..k]), log[k])
    ensures k > 0 ==> log[k - 1].End() <= log[k].check
  {
    var n := |log| - 1;
    if k < n {
      LegalAt(cron, loaded, log[..n], k);
      assert log[..n][..k] == log[..k];
    }
  }

  lemma {:induction false} ReplayKeepsRule(loaded: Schedule, log: seq<Visit>)
    ensures var s := Replay(loaded, log);
      s == loaded.(lastRunAt := s.lastRunAt, nextRunAt := s.nextRunAt)
    ensures loaded.nextRunAt.Some? ==> Replay(loaded, log).nextRunAt.Some?
  {
    if log != [] {
      ReplayKeepsRule(loaded, log[..|log| - 1]);
    }
  }

  /** The due time of a visit: where the visit before it left the schedule. */
  lemma DueFollows(cron: CronLib, loaded: Schedule, log: seq<Visit>, k: nat)
    requires Legal(cron, loaded, log) && k + 1 < |log|
    ensures log[k + 1].due == match log[k].advance case None => log[k].due case Some(a) => a.next
    ensures log[k].sent <= log[k].End() <= log[k + 1].check
  {
    LegalAt(cron, loaded, log, k);
    LegalAt(cron, loaded, log, k + 1);
    assert log[..k + 1][..k] == log[..k];
  }

  // ---------- interval schedules ----------

  lemma IntervalStep(cron: CronLib, loaded: Schedule, log: seq<Visit>, k: nat, seconds: int)
    requires Legal(cron, loaded, log) && k + 1 < |log| && HasInterval(loaded, seconds)
    ensures log[k].sent <= log[k + 1].sent
    ensures log[k].advance.Some? ==> log[k].sent + seconds * SECOND <= log[k + 1].sent
  {
    DueFollows(cron, loaded, log, k);
    LegalAt(cron, loaded, log, k);
    LegalAt(cron, loaded, log, k + 1);
    ReplayKeepsRule(loaded, log[..k]);
  }

  /** Any two sends are apart by the interval for each time the schedule moved on between them. */
  lemma {:induction false} IntervalSpacing(cron: CronLib, loaded: Schedule, log: seq<Visit>, j: nat, k: nat,
                                           seconds: int)
    requires Legal(cron, loaded, log) && j <= k < |log| && HasInterval(loaded, seconds)
    ensures log[j].sent + Advances(log[j..k]) * (seconds * SECOND) <= log[k].sent
    decreases k - j
  {
    hide Legal;
    if j < k {
      IntervalSpacing(cron, loaded, log, j, k - 1, seconds);
      IntervalStep(cron, loaded, log, k - 1, seconds);
      assert log[j..k][..k - j - 1] == log[j..k - 1];
    }
  }

  /** A window of length `width` holds at most width / interval + 1 sends, plus the attempts that failed in it. */
  lemma WindowBound(cron: CronLib, loaded: Schedule, log: seq<Visit>, j: nat, k: nat, seconds: int, width: Time)
    requires Legal(cron, loaded, log) && j <= k < |log| && HasInterval(loaded, seconds)
    requires log[k].sent - log[j].sent <= width
    ensures k - j + 1 <= width / (seconds * SECOND) + 1 + (k - j - Advances(log[j..k]))
  {
    IntervalSpacing(cron, loaded, log, j, k, seconds);
    Fits(Advances(log[j..k]), seconds * SECOND, width);
  }

  /** With every attempt but the one under way successful, sends since `start` are bounded by the intervals that fit. */
  lemma IntervalQuota(cron: CronLib, loaded: Schedule, log: seq<Visit>, seconds: int, start: Time, now: Time)
    requires Legal(cron, loaded, log) && HasInterval(loaded, seconds)
    requires start <= now && (log != [] ==> start <= log[0].sent && log[|log| - 1].sent <= now)
    ensures log != [] ==> Advances(log[..|log| - 1]) <= (now - start) / (seconds * SECOND)
  {
    if log != [] {
      var n := |log| - 1;
      IntervalSpacing(cron, loaded, log, 0, n, seconds);
      assert log[0..n] == log[..n];
      Fits(Advances(log[..n]), seconds * SECOND, now - start);
    }
  }

  // ---------- cron schedules ----------

  /** The occurrence that send k answers, when the send before it moved the schedule on. */
  predicate Charged(log: seq<Visit>, k: nat) {
    0 < k < |log| && log[k - 1].advance.Some?
  }

  /**
   A charged send answers an occurrence of the calendar, later than the send before it and
   not later than itself; and no occurrence lies between that earlier stamp and the one answered,
   so that all the occurrences up to a send are worked off by that one send.
   */
  lemma CronCharge(cron: CronLib, calendar: Calendar, loaded: Schedule, log: seq<Visit>, k: nat, expression: string)
    requires LeastAfter(cron, calendar) && Legal(cron, loaded, log) && HasCron(loaded, expression)
    requires Charged(log, k)
    ensures log[k].due in Occurrences(calendar, expression)
    ensures log[k - 1].sent <= log[k - 1].advance.value.stamp < log[k].due <= log[k].sent
    ensures forall m: Time :: m in Occurrences(calendar, expression) && log[k - 1].advance.value.stamp < m
              ==> log[k].due <= m
  {
    DueFollows(cron, loaded, log, k - 1);
    LegalAt(cron, loaded, log, k - 1);
    LegalAt(cron, loaded, log, k);
    ReplayKeepsRule(loaded, log[..k - 1]);
    var stamp := log[k - 1].advance.value.stamp;
    CronAnswer(cron, calendar, Replay(loaded, log[..k - 1]), expression, Some(stamp), stamp);
  }

  /** Due times never move back; past a visit that moved the schedule on they are later than its stamp. */
  lemma {:induction false} CronDueGrows(cron: CronLib, calendar: Calendar, loaded: Schedule, log: seq<Visit>, j: nat,
                                        k: nat, expression: string)
    requires LeastAfter(cron, calendar) && Legal(cron, loaded, log) && HasCron(loaded, expression)
    requires j < k < |log|
    ensures log[j].due <= log[k].due && log[j].sent <= log[k].sent
    ensures log[j].advance.Some? ==> log[j].sent < log[k].due
    decreases k - j
  {
    LegalAt(cron, loaded, log, j);
    DueFollows(cron, loaded, log, j);
    LegalAt(cron, loaded, log, j + 1);
    if log[j].advance.Some? {
      CronCharge(cron, calendar, loaded, log, j + 1, expression);
    }
    if j + 1 < k {
      CronDueGrows(cron, calendar, loaded, log, j + 1, k, expression);
    }
  }

  /** No occurrence is charged twice. */
  lemma ChargedOnce(cron: CronLib, calendar: Calendar, loaded: Schedule, log: seq<Visit>, j: nat, k: nat,
                    expression: string)
    requires LeastAfter(cron, calendar) && Legal(cron, loaded, log) && HasCron(loaded, expression)
    requires j < k && Charged(log, j) && Charged(log, k)
    ensures log[j].due < log[k].due
  {
    LegalAt(cron, loaded, log, j);
    if j < k - 1 {
      CronDueGrows(cron, calendar, loaded, log, j, k - 1, expression);
    }
    CronCharge(cron, calendar, loaded, log, k, expression);
  }

  /** The occurrences charged so far. */
  function Charges(log: seq<Visit>): set<Time> {
    if |log| <= 1 then
      {}
    else
      var n := |log| - 1;
      Charges(log[..n]) + if log[n - 1].advance.Some? then {log[n].due} else {}
  }

  lemma {:induction false} ChargeIsSend(log: seq<Visit>, t: Time) returns (k: nat)
    requires t in Charges(log)
    ensures Charged(log, k) && log[k].due == t
  {
    var n := |log| - 1;
    if t in Charges(log[..n]) {
      k := ChargeIsSend(log[..n], t);
    } else {
      k := n;
    }
  }

  lemma {:induction false} ChargesCount(cron: CronLib, calendar: Calendar, loaded: Schedule, log: seq<Visit>,
                                        expression: string)
    requires LeastAfter(cron, calendar) && Legal(cron, loaded, log) && HasCron(loaded, expression)
    requires log != []
    ensures |Charges(log)| == Advances(log[..|log| - 1])
  {
    var n := |log| - 1;
    if n > 0 {
      ChargesCount(cron, calendar, loaded, log[..n], expression);
      assert log[..n][..n - 1] == log[..n - 1];
      if log[n - 1].advance.Some? && log[n].due in Charges(log[..n]) {
        var k := ChargeIsSend(log[..n], log[n].due);
        ChargedOnce(cron, calendar, loaded, log, k, n, expression);
      }
    }
  }

  /** Sends after the first are bounded by the occurrences that have passed since the start. */
  lemma CronQuota(cron: CronLib, calendar: Calendar, loaded: Schedule, log: seq<Visit>, expression: string,
                  start: Time, now: Time, hits: set<Time>)
    requires LeastAfter(cron, calendar) && Legal(cron, loaded, log) && HasCron(loaded, expression)
    requires log != [] ==> start <= log[0].sent && log[|log| - 1].sent <= now
    requires forall t: Time :: t in Occurrences(calendar, expression) && start < t <= now ==> t in hits
    ensures log != [] ==> Advances(log[..|log| - 1]) <= |hits|
  {
    if log != [] {
      var n := |log| - 1;
      forall t | t in Charges(log) ensures t in hits {
        var k := ChargeIsSend(log, t);
        CronCharge(cron, calendar, loaded, log, k, expression);
        if 0 < k - 1 { CronDueGrows(cron, calendar, loaded, log, 0, k - 1, expression); }
        if k < n { CronDueGrows(cron, calendar, loaded, log, k, n, expression); }
      }
      ChargesCount(cron, calendar, loaded, log, expression);
      SubsetSize(Charges(log), hits);
    }
  }
}

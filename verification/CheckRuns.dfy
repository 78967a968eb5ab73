/**
 How late a run can be. Here every check takes no time and every send and write in it
 succeeds, and the instants of the checks are given. Nothing is assumed of the calculation
 of the next time.
 */
module CheckRuns {
  import opened Wrappers
  import opened Models
  import opened ScheduleCalc
  import opened SchedulerMachine
  import opened Scheduler
  import SendLog

  function Instant(t: Time): Attempt {
    Attempt(true, t, true)
  }

  /** Memory after checks at these instants. */
  function MemoryAfter(cron: CronLib, memory: map<int, Schedule>, times: seq<Time>): map<int, Schedule> {
    if times == [] then
      memory
    else
      var t := times[|times| - 1];
      CheckedMemory(cron, MemoryAfter(cron, memory, times[..|times| - 1]), t, _ => Instant(t))
  }

  /** One entry after checks at these instants. */
  function EntryAfter(cron: CronLib, s: Schedule, times: seq<Time>): Schedule {
    if times == [] then
      s
    else
      var t := times[|times| - 1];
      Visited(cron, EntryAfter(cron, s, times[..|times| - 1]), t, Instant(t))
  }

  /** Schedules do not disturb each other in memory, siblings of one job included. */
  lemma {:induction false} MemoryIsPointwise(cron: CronLib, memory: map<int, Schedule>, times: seq<Time>, i: int)
    requires i in memory
    ensures i in MemoryAfter(cron, memory, times)
    ensures MemoryAfter(cron, memory, times)[i] == EntryAfter(cron, memory[i], times)
  {
    if times != [] {
      MemoryIsPointwise(cron, memory, times[..|times| - 1], i);
    }
  }

  // ---------- the checks as one run of the machine ----------

  /** What checks at these instants add to the history of a schedule: a visit for each check that finds it due. */
  function VisitsAt(cron: CronLib, s: Schedule, times: seq<Time>): seq<SendLog.Visit> {
    if times == [] then
      []
    else
      var n := |times| - 1;
      VisitsAt(cron, s, times[..n]) + VisitsOf(cron, EntryAfter(cron, s, times[..n]), times[n], Instant(times[n]))
  }

  /** The steps of the checks. Check k visits the schedules in the order `orders[k]`. */
  function ChecksRun(cron: CronLib, memory: map<int, Schedule>, times: seq<Time>, orders: seq<seq<int>>): seq<Step>
    requires |orders| == |times|
  {
    if times == [] then
      []
    else
      var n := |times| - 1;
      var t := times[n];
      ChecksRun(cron, memory, times[..n], orders[..n]) +
      CheckRun(cron, MemoryAfter(cron, memory, times[..n]), t, orders[n], _ => Instant(t))
  }

  predicate OrdersOf(orders: seq<seq<int>>, keys: set<int>) {
    forall k :: 0 <= k < |orders| ==> Enumerates(orders[k], keys)
  }

  predicate Nondecreasing(times: seq<Time>) {
    forall k :: 0 < k < |times| ==> times[k - 1] <= times[k]
  }

  lemma {:induction false} MemoryKeepsKeys(cron: CronLib, memory: map<int, Schedule>, times: seq<Time>)
    requires forall i :: i in memory ==> memory[i].id == i
    ensures var after := MemoryAfter(cron, memory, times);
      after.Keys == memory.Keys && forall i :: i in after ==> after[i].id == i
  {
    if times != [] {
      MemoryKeepsKeys(cron, memory, times[..|times| - 1]);
    }
  }

  /**
   The checks are one run of the machine, whatever order each of them visits the schedules in; a schedule's history
   grows by the visits computed from its own entry.
   */
  lemma {:induction false} ChecksAreRun(env: Env, s: State, clock: Time, times: seq<Time>, orders: seq<seq<int>>)
    requires s.phase.Idle? && (forall i :: i in s.memory ==> s.memory[i].id == i)
    requires |orders| == |times| && OrdersOf(orders, s.memory.Keys)
    requires Nondecreasing(times) && (times != [] ==> clock <= times[0])
    ensures var run := ChecksRun(env.cron, s.memory, times, orders);
      var r := Exec(env, s, clock, run);
      && r.Some? && r.value.phase.Idle?
      && r.value.memory == MemoryAfter(env.cron, s.memory, times)
      && (forall i :: i in s.memory ==> LogOf(r.value, i) == LogOf(s, i) + VisitsAt(env.cron, s.memory[i], times))
      && ClockAfter(clock, run) == if times == [] then clock else times[|times| - 1]
    decreases |times|
  {
    hide Exec, Next, Visited, VisitsOf, CheckedMemory, CheckRun, LogOf, Enumerates;
    if times == [] {
      ExecNone(env, s, clock);
    } else {
      var n := |times| - 1;
      var t := times[n];
      ChecksAreRun(env, s, clock, times[..n], orders[..n]);
      MemoryKeepsKeys(env.cron, s.memory, times[..n]);
      var steps := ChecksRun(env.cron, s.memory, times[..n], orders[..n]);
      var u := Exec(env, s, clock, steps).value;
      var more := CheckRun(env.cron, u.memory, t, orders[n], _ => Instant(t));
      CheckIsRun(env, u, t, orders[n], _ => Instant(t));
      ExecConcat(env, s, clock, steps, more);
      ClockOfConcat(clock, steps, more);
      CheckLater(env, u, ClockAfter(clock, steps), t, orders[n], _ => Instant(t));
      forall i | i in s.memory {
        MemoryIsPointwise(env.cron, s.memory, times[..n], i);
      }
    }
  }

  /** A check begins at its own instant, whenever the step before it was. */
  lemma CheckLater(env: Env, s: State, clock: Time, now: Time, order: seq<int>, attempts: int -> Attempt)
    requires clock <= now
    ensures var run := CheckRun(env.cron, s.memory, now, order, attempts);
      Exec(env, s, clock, run) == Exec(env, s, now, run) && ClockAfter(clock, run) == ClockAfter(now, run)
  {
    hide Next;
  }

  // ---------- how late a send can be ----------

  /** The checks follow each other at most `gap` apart. */
  predicate GapsWithin(times: seq<Time>, gap: Time) {
    Nondecreasing(times) && forall k :: 0 < k < |times| ==> times[k] <= times[k - 1] + gap
  }

  lemma {:induction false} EntryKeepsRule(cron: CronLib, s: Schedule, times: seq<Time>)
    ensures var e := EntryAfter(cron, s, times);
      e == s.(lastRunAt := e.lastRunAt, nextRunAt := e.nextRunAt)
  {
    if times != [] {
      EntryKeepsRule(cron, s, times[..|times| - 1]);
    }
  }

  /** Each send comes at least the interval and less than the interval and a gap after the one before it. */
  predicate Spaced(visits: seq<SendLog.Visit>, interval: Time, gap: Time) {
    forall p :: 0 < p < |visits| ==> interval <= visits[p].sent - visits[p - 1].sent < interval + gap
  }

  lemma {:induction false} IntervalVisits(cron: CronLib, s: Schedule, times: seq<Time>, seconds: int, gap: Time)
    requires HasInterval(s, seconds) && GapsWithin(times, gap)
    ensures var visits := VisitsAt(cron, s, times);
      && Spaced(visits, seconds * SECOND, gap)
      && (visits != [] ==>
            && s.enabled
            && EntryAfter(cron, s, times).nextRunAt == Some(visits[|visits| - 1].sent + seconds * SECOND)
            && times[|times| - 1] < visits[|visits| - 1].sent + seconds * SECOND)
      && (visits == [] ==>
            EntryAfter(cron, s, times) == s && (times != [] && s.enabled ==> !IsDue(s, times[|times| - 1])))
    decreases |times|
  {
    hide Visited, VisitsOf;
    if times != [] {
      var n := |times| - 1;
      IntervalVisits(cron, s, times[..n], seconds, gap);
      EntryKeepsRule(cron, s, times[..n]);
      IntervalVisit(cron, EntryAfter(cron, s, times[..n]), times[n], seconds);
    }
  }

  lemma IntervalVisit(cron: CronLib, s: Schedule, now: Time, seconds: int)
    requires HasInterval(s, seconds)
    ensures var visits, after := VisitsOf(cron, s, now, Instant(now)), Visited(cron, s, now, Instant(now));
      if s.enabled && IsDue(s, now) then
        |visits| == 1 && visits[0].sent == now && after.nextRunAt == Some(now + seconds * SECOND)
      else
        visits == [] && after == s
  {
  }

  /**
   With checks at most `gap` apart the messages that the run sends for an interval schedule come at least the interval
   and less than the interval and a gap apart, and at the end the last of them is less than an interval ago. There is
   no message only if the schedule is disabled or not due by then.
   */
  lemma IntervalDelay(env: Env, s: State, clock: Time, times: seq<Time>, orders: seq<seq<int>>, i: int, seconds: int,
                      gap: Time)
    requires s.phase.Idle? && (forall j :: j in s.memory ==> s.memory[j].id == j)
    requires |orders| == |times| && OrdersOf(orders, s.memory.Keys)
    requires GapsWithin(times, gap) && (times != [] ==> clock <= times[0])
    requires i in s.memory && HasInterval(s.memory[i], seconds)
    ensures var r := Exec(env, s, clock, ChecksRun(env.cron, s.memory, times, orders));
      && r.Some? && |LogOf(s, i)| <= |LogOf(r.value, i)|
      && var visits := LogOf(r.value, i)[|LogOf(s, i)|..];
         && LogOf(r.value, i) == LogOf(s, i) + visits
         && Spaced(visits, seconds * SECOND, gap)
         && (visits != [] ==> times[|times| - 1] < visits[|visits| - 1].sent + seconds * SECOND)
         && (visits == [] && times != [] && s.memory[i].enabled ==> !IsDue(s.memory[i], times[|times| - 1]))
  {
    hide Exec, ChecksRun, VisitsAt;
    ChecksAreRun(env, s, clock, times, orders);
    IntervalVisits(env.cron, s.memory[i], times, seconds, gap);
  }

  lemma {:induction false} CronVisits(cron: CronLib, calendar: Calendar, s: Schedule, times: seq<Time>,
                                      occurrence: Time, expression: string, gap: Time) returns (p: nat)
    requires LeastAfter(cron, calendar) && HasCron(s, expression) && s.enabled && GapsWithin(times, gap) && gap >= 0
    requires occurrence in Occurrences(calendar, expression)
    requires s.nextRunAt.Some? && s.nextRunAt.value <= occurrence
    requires times != [] && times[0] <= occurrence
    ensures var visits := VisitsAt(cron, s, times);
      if occurrence <= times[|times| - 1] then
        p < |visits| && occurrence <= visits[p].sent <= occurrence + gap
      else
        EntryAfter(cron, s, times).nextRunAt.Some? && EntryAfter(cron, s, times).nextRunAt.value <= occurrence
    decreases |times|
  {
    hide Fields, Visited, VisitsOf, CalculateNextRun, LeastAfter;
    var n := |times| - 1;
    p := 0;
    EntryKeepsRule(cron, s, times[..n]);
    if n > 0 {
      p := CronVisits(cron, calendar, s, times[..n], occurrence, expression, gap);
    }
    if n == 0 || times[n - 1] < occurrence {
      CronVisit(cron, calendar, EntryAfter(cron, s, times[..n]), times[n], expression, occurrence);
      if occurrence <= times[n] {
        p := |VisitsAt(cron, s, times[..n])|;
      }
    }
  }

  lemma CronVisit(cron: CronLib, calendar: Calendar, s: Schedule, now: Time, expression: string, occurrence: Time)
    requires LeastAfter(cron, calendar) && HasCron(s, expression) && s.enabled && s.nextRunAt.Some?
    requires occurrence in Occurrences(calendar, expression)
    ensures var visits, after := VisitsOf(cron, s, now, Instant(now)), Visited(cron, s, now, Instant(now));
      && (if s.nextRunAt.value <= now then |visits| == 1 && visits[0].sent == now else visits == [])
      && (s.nextRunAt.value <= occurrence && now < occurrence ==>
            after.nextRunAt.Some? && after.nextRunAt.value <= occurrence)
  {
    hide LeastAfter, CalculateNextRun, Occurrences;
    if CalculateNextRun(cron, s, Some(now), now).Ok? {
      CronAnswer(cron, calendar, s, expression, Some(now), now);
    }
  }

  /**
   Every occurrence from the loaded next time on is followed by a message within one gap, if the checks go on
   until then.
   */
  lemma CronDelay(env: Env, calendar: Calendar, s: State, clock: Time, times: seq<Time>, orders: seq<seq<int>>, i: int,
                  occurrence: Time, expression: string, gap: Time) returns (p: nat)
    requires LeastAfter(env.cron, calendar)
    requires s.phase.Idle? && (forall j :: j in s.memory ==> s.memory[j].id == j)
    requires |orders| == |times| && OrdersOf(orders, s.memory.Keys)
    requires GapsWithin(times, gap) && gap >= 0 && times != [] && clock <= times[0]
    requires i in s.memory && HasCron(s.memory[i], expression) && s.memory[i].enabled
    requires s.memory[i].nextRunAt.Some? && s.memory[i].nextRunAt.value <= occurrence
    requires occurrence in Occurrences(calendar, expression) && times[0] <= occurrence <= times[|times| - 1]
    ensures var r := Exec(env, s, clock, ChecksRun(env.cron, s.memory, times, orders));
      && r.Some? && |LogOf(s, i)| <= p < |LogOf(r.value, i)|
      && occurrence <= LogOf(r.value, i)[p].sent <= occurrence + gap
  {
    hide Exec, ChecksRun, VisitsAt, LeastAfter;
    ChecksAreRun(env, s, clock, times, orders);
    p := CronVisits(env.cron, calendar, s.memory[i], times, occurrence, expression, gap);
    p := |LogOf(s, i)| + p;
  }
}

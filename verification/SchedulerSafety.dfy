/** What holds of every run of the scheduler: no due run is lost, and one run makes up for all that were missed. */
module SchedulerSafety {
  import opened Wrappers
  import opened Models
  import opened ScheduleCalc
  import opened Queries
  import opened SendLog
  import opened SchedulerMachine
  import MissedRuns

  // ---------- no due run is lost ----------

  lemma NextRunIsLater(cron: CronLib, calendar: Calendar, s: Schedule, now: Time, next: Time)
    requires LeastAfter(cron, calendar) && CalculateNextRun(cron, s, Some(now), now) == Ok(next)
    ensures now < next
  {
    if s.IsCron() {
      CronAnswer(cron, calendar, s, s.cronExpression.value, Some(now), now);
    }
  }

  /**
   From `s` to `t` the schedules in memory stay, an entry is the same unless it was moved on,
   and each time it was moved on its next time became later. Being moved on is an advance
   in the log, and so a message was sent for it.
   */
  ghost predicate Since(s: State, t: State) {
    forall i :: i in s.memory && i in s.log && s.memory[i].nextRunAt.Some? ==>
      && i in t.memory && i in t.log && t.memory[i].nextRunAt.Some?
      && Advances(s.log[i]) <= Advances(t.log[i]) && |s.log[i]| <= |t.log[i]|
      && (Advances(s.log[i]) == Advances(t.log[i]) ==> t.memory[i] == s.memory[i])
      && (Advances(s.log[i]) < Advances(t.log[i]) ==> s.memory[i].nextRunAt.value < t.memory[i].nextRunAt.value)
  }

  /** The entry under way was due when its message was sent. */
  lemma AttemptWasDue(env: Env, s: State, start: Time, clock: Time)
    requires Inv(env, s, start, clock) && s.phase.Written?
    ensures s.phase.entry.nextRunAt.Some? && s.phase.entry.nextRunAt.value <= s.phase.stamp
  {
    var id := s.phase.entry.id;
    assert EntryOk(env, s, id, start, clock);
    LegalAt(env.cron, s.loaded[id], s.log[id], |s.log[id]| - 1);
  }

  lemma SinceUpdate(env: Env, calendar: Calendar, s: State, start: Time, clock: Time)
    requires LeastAfter(env.cron, calendar)
    requires Inv(env, s, start, clock) && s.phase.Written?
    ensures var p := s.phase;
      Since(s, AfterUpdate(s, p.entry.id, p.stamp, p.next).(phase := Checking(p.now, p.todo)))
  {
    hide LeastAfter, CalculateNextRun, Legal, LegalVisit, Replay, Advances, TodoOk, Since;
    var p := s.phase;
    var id := p.entry.id;
    assert EntryOk(env, s, id, start, clock);
    AttemptWasDue(env, s, start, clock);
    AdvanceVisit(env.cron, s.loaded[id], s.log[id], p.stamp, p.next);
    NextRunIsLater(env.cron, calendar, p.entry, p.stamp, p.next);
    SinceMoved(s, AfterUpdate(s, id, p.stamp, p.next).(phase := Checking(p.now, p.todo)), id);
  }

  lemma SinceMoved(s: State, t: State, id: int)
    requires id in s.memory && id in s.log && id in t.memory && id in t.log
    requires Advances(t.log[id]) == Advances(s.log[id]) + 1 && |t.log[id]| == |s.log[id]|
    requires s.memory[id].nextRunAt.Some? && t.memory[id].nextRunAt.Some?
    requires s.memory[id].nextRunAt.value < t.memory[id].nextRunAt.value
    requires forall i :: i in s.memory && i in s.log && i != id ==>
      i in t.memory && i in t.log && t.memory[i] == s.memory[i] && t.log[i] == s.log[i]
    ensures Since(s, t)
  {
  }

  lemma SinceVisit(env: Env, s: State, start: Time, clock: Time, id: int, sendOk: bool)
    requires Inv(env, s, start, clock) && s.phase.Checking? && id in s.phase.todo
    ensures Since(s, AfterVisit(s, s.phase.now, s.phase.todo, id, clock, sendOk))
  {
    var t := AfterVisit(s, s.phase.now, s.phase.todo, id, clock, sendOk);
    if t.phase.Sent? {
      assert EntryOk(env, s, id, start, clock);
      assert t.log[id][..|s.log[id]|] == s.log[id];
    }
  }

  lemma SinceStep(env: Env, calendar: Calendar, s: State, start: Time, clock: Time, e: Event)
    requires LeastAfter(env.cron, calendar)
    requires Inv(env, s, start, clock) && Next(env, s, clock, e).Some?
    ensures Since(s, Next(env, s, clock, e).value)
  {
    hide Since, LeastAfter, Inv;
    LoadIsFresh(env, s, start, clock);
    if e.Visit? {
      SinceVisit(env, s, start, clock, e.id, e.sendOk);
    } else if e.Update? {
      SinceUpdate(env, calendar, s, start, clock);
    } else {
      SinceOther(env, s, clock, e);
    }
  }

  lemma SinceOther(env: Env, s: State, clock: Time, e: Event)
    requires Next(env, s, clock, e).Some? && !e.Visit? && !e.Update?
    requires s.phase.Down? ==> s.memory == map[]
    requires s.phase.Loading? && s.phase.rows != [] ==> s.phase.rows[0].id !in s.memory
    ensures Since(s, Next(env, s, clock, e).value)
  {
    hide Since, CalculateNextRun, LoadedEntry, StoreAfterLoad, UpdateLastRun, FetchedRows;
    SinceLoad(s, Next(env, s, clock, e).value);
  }

  lemma LoadIsFresh(env: Env, s: State, start: Time, clock: Time)
    requires Inv(env, s, start, clock)
    ensures s.phase.Down? ==> s.memory == map[]
    ensures s.phase.Loading? && s.phase.rows != [] ==> s.phase.rows[0].id !in s.memory
  {
  }

  lemma SinceLoad(s: State, t: State)
    requires forall i :: i in s.memory && i in s.log ==>
      i in t.memory && i in t.log && t.memory[i] == s.memory[i] && t.log[i] == s.log[i]
    ensures Since(s, t)
  {
  }

  lemma {:induction false} SinceExec(env: Env, calendar: Calendar, s: State, start: Time, clock: Time, run: seq<Step>)
    requires LeastAfter(env.cron, calendar)
    requires Inv(env, s, start, clock) && Exec(env, s, clock, run).Some?
    ensures Since(s, Exec(env, s, clock, run).value)
    decreases |run|
  {
    hide Next, Inv;
    EntriesHaveNext(env, s, start, clock);
    if run != [] {
      var c, e := run[0].clock, run[0].event;
      InvLater(env, s, start, clock, c);
      SinceStep(env, calendar, s, start, c, e);
      InvNext(env, s, start, c, e);
      SinceExec(env, calendar, Next(env, s, c, e).value, start, c, run[1..]);
    }
  }

  /**
   The entry stands where the last advance of its history left it, and is next due after the send that made the
   advance.
   */
  predicate MovedBySend(entry: Schedule, log: seq<SendLog.Visit>) {
    exists k :: 0 <= k < |log| && log[k].advance.Some? && (forall m :: k < m < |log| ==> log[m].advance.None?)
                && var a := log[k].advance.value;
                   && entry.lastRunAt == Some(a.stamp) && entry.nextRunAt == Some(a.next)
                   && log[k].sent <= a.stamp < a.next
  }

  lemma MovedEarlier(entry: Schedule, log: seq<SendLog.Visit>)
    requires log != [] && log[|log| - 1].advance.None? && MovedBySend(entry, log[..|log| - 1])
    ensures MovedBySend(entry, log)
  {
    var before := log[..|log| - 1];
    var k :| 0 <= k < |before| && before[k].advance.Some? && (forall m :: k < m < |before| ==> before[m].advance.None?)
             && var a := before[k].advance.value;
                && entry.lastRunAt == Some(a.stamp) && entry.nextRunAt == Some(a.next)
                && before[k].sent <= a.stamp < a.next;
    assert log[k].advance.Some? && forall m :: k < m < |before| ==> log[m] == before[m];
  }

  lemma {:induction false} ReplayMoved(cron: CronLib, calendar: Calendar, loaded: Schedule, log: seq<SendLog.Visit>)
    requires LeastAfter(cron, calendar) && Legal(cron, loaded, log) && Advances(log) > 0
    ensures MovedBySend(Replay(loaded, log), log)
  {
    hide LeastAfter, CalculateNextRun;
    var n := |log| - 1;
    match log[n].advance
    case None =>
      ReplayMoved(cron, calendar, loaded, log[..n]);
      MovedEarlier(Replay(loaded, log), log);
    case Some(a) =>
      NextRunIsLater(cron, calendar, Replay(loaded, log[..n]), a.stamp, a.next);
      assert log[n].advance.Some?;
  }

  /**
   Over any run: the next time of a schedule changes only together with an advance, and then it grows and lies after
   the send. So a schedule that was due and was not moved on, because the send, the calculation or the
   write failed or because no check came, is due still.
   */
  lemma NoDueRunIsLost(env: Env, calendar: Calendar, s: State, start: Time, clock: Time, run: seq<Step>)
    requires LeastAfter(env.cron, calendar)
    requires Inv(env, s, start, clock) && Exec(env, s, clock, run).Some?
    ensures var t := Exec(env, s, clock, run).value;
      && Since(s, t)
      && (forall i :: i in t.memory ==>
            i in t.log && (Advances(t.log[i]) > 0 ==> MovedBySend(t.memory[i], t.log[i])))
      && (forall i, now: Time, later: Time ::
            (i in s.memory && IsDue(s.memory[i], now) && now <= later && Advances(s.log[i]) == Advances(t.log[i])) ==>
              IsDue(t.memory[i], later))
  {
    hide Next, Inv, LeastAfter, MovedBySend, Legal, Replay, Advances;
    var t := Exec(env, s, clock, run).value;
    EntriesHaveNext(env, s, start, clock);
    SinceExec(env, calendar, s, start, clock, run);
    InvExec(env, s, start, clock, run);
    EntriesHaveNext(env, t, start, ClockAfter(clock, run));
    forall i | i in t.memory && Advances(t.log[i]) > 0 ensures MovedBySend(t.memory[i], t.log[i]) {
      EntryIsReplay(env, t, start, ClockAfter(clock, run), i);
      ReplayMoved(env.cron, calendar, t.loaded[i], t.log[i]);
    }
  }

  lemma EntryIsReplay(env: Env, s: State, start: Time, clock: Time, i: int)
    requires Inv(env, s, start, clock) && i in s.memory
    ensures i in s.loaded && i in s.log && s.memory[i] == Replay(s.loaded[i], s.log[i])
            && Legal(env.cron, s.loaded[i], s.log[i])
  {
    assert EntryOk(env, s, i, start, clock);
  }

  /** Every entry in memory has a next time, even after a reload that stopped half way. */
  lemma EntriesHaveNext(env: Env, s: State, start: Time, clock: Time)
    requires Inv(env, s, start, clock)
    ensures forall i :: i in s.memory ==> i in s.log && s.memory[i].nextRunAt.Some?
  {
    forall i | i in s.memory ensures i in s.log && s.memory[i].nextRunAt.Some? {
      assert EntryOk(env, s, i, start, clock);
      ReplayKeepsRule(s.loaded[i], s.log[i]);
    }
  }

  /** Whenever no attempt is under way, messages sent are advances plus attempts that failed after the send. */
  lemma SendsAreAccountedFor(env: Env, s: State, start: Time, clock: Time, run: seq<Step>)
    requires Init(s) && start == clock && Exec(env, s, clock, run).Some?
    ensures var t := Exec(env, s, clock, run).value;
      forall i :: i in t.memory ==>
        && i in t.log && i in t.failed
        && |t.log[i]| == Advances(t.log[i]) + t.failed[i] + if Attempting(t.phase, i) then 1 else 0
  {
    InitInv(env, s, clock);
    InvExec(env, s, start, clock, run);
    var t := Exec(env, s, clock, run).value;
    forall i | i in t.memory ensures EntryOk(env, t, i, start, ClockAfter(clock, run)) {
    }
  }

  // ---------- a check passes nothing over ----------

  predicate InCheck(p: Phase) {
    p.Checking? || p.Sent? || p.Calculated? || p.Written?
  }

  predicate Visits(run: seq<Step>, i: int) {
    exists k :: 0 <= k < |run| && run[k].event.Visit? && run[k].event.id == i
  }

  /**
   A step within a check takes a schedule off the list only to visit it, and ends the check only when none is left.
   */
  lemma TodoStep(env: Env, s: State, clock: Time, e: Event, i: int)
    requires InCheck(s.phase) && i in s.phase.todo && Next(env, s, clock, e).Some?
    ensures (e.Visit? && e.id == i) ||
            var p := Next(env, s, clock, e).value.phase; InCheck(p) && i in p.todo
  {
    hide CalculateNextRun, UpdateLastRun, IsDue;
  }

  lemma {:induction false} TodoIsVisited(env: Env, s: State, clock: Time, run: seq<Step>, i: int)
    requires InCheck(s.phase) && i in s.phase.todo && Exec(env, s, clock, run).Some?
    requires !InCheck(Exec(env, s, clock, run).value.phase)
    ensures Visits(run, i)
    decreases |run|
  {
    hide Next;
    var c, e := run[0].clock, run[0].event;
    TodoStep(env, s, c, e, i);
    if !(e.Visit? && e.id == i) {
      TodoIsVisited(env, Next(env, s, c, e).value, c, run[1..], i);
      var k :| 0 <= k < |run[1..]| && run[1..][k].event.Visit? && run[1..][k].event.id == i;
      assert run[k + 1].event.Visit? && run[k + 1].event.id == i;
    }
  }

  /** A check that has ended has visited every schedule that was in memory when it began. */
  lemma CheckVisitsAll(env: Env, s: State, clock: Time, run: seq<Step>)
    requires s.phase.Idle? && run != [] && run[0].event == BeginCheck && Exec(env, s, clock, run).Some?
    requires !InCheck(Exec(env, s, clock, run).value.phase)
    ensures forall i :: i in s.memory ==> Visits(run, i)
  {
    var c := run[0].clock;
    var t := Next(env, s, c, BeginCheck).value;
    forall i | i in s.memory ensures Visits(run, i) {
      TodoIsVisited(env, t, c, run[1..], i);
      var k :| 0 <= k < |run[1..]| && run[1..][k].event.Visit? && run[1..][k].event.id == i;
      assert run[k + 1].event.Visit? && run[k + 1].event.id == i;
    }
  }

  // ---------- schedules that were loaded without a next time ----------

  /**
   An interval schedule with a last run but no next time is due as soon as it is loaded exactly when an interval has
   passed since that run, and so whenever a run was missed; once it has run it is not due for another interval,
   however many were missed.
   */
  lemma LoadCatchesUpOnce(cron: CronLib, row: Schedule, last: Time, now: Time, stamp: Time, seconds: int)
    requires HasInterval(row, seconds) && row.lastRunAt == Some(last) && row.nextRunAt.None? && now <= stamp
    ensures LoadedEntry(cron, row, now).Ok?
    ensures var entry := LoadedEntry(cron, row, now).value;
      && (IsDue(entry, now) <==> last + seconds * SECOND <= now)
      && (MissedRuns.CountMissedIntervalRuns(row, None, now) > 0 ==> IsDue(entry, now))
      && CalculateNextRun(cron, entry, Some(stamp), stamp).Ok?
      && (forall later :: IsDue(entry.Moved(stamp, CalculateNextRun(cron, entry, Some(stamp), stamp).value), later)
                          <==> stamp + seconds * SECOND <= later)
  {
    if MissedRuns.CountMissedIntervalRuns(row, None, now) > 0 {
      var entry := LoadedEntry(cron, row, now).value;
      MissedRuns.MissedSlotPassed(row, None, now, last, seconds);
    }
  }

  /**
   A cron schedule without a next time waits for the first occurrence after the load; earlier ones are not caught up
   on.
   */
  lemma LoadedCronIsNotDue(cron: CronLib, calendar: Calendar, row: Schedule, now: Time, expression: string)
    requires LeastAfter(cron, calendar) && HasCron(row, expression) && row.nextRunAt.None?
             && LoadedEntry(cron, row, now).Ok?
    ensures var next := LoadedEntry(cron, row, now).value.nextRunAt;
      && next.Some? && now < next.value && next.value in Occurrences(calendar, expression)
      && forall m: Time :: m in Occurrences(calendar, expression) && now < m ==> next.value <= m
  {
    CronAnswer(cron, calendar, row, expression, row.lastRunAt, now);
  }
}

/** How many run records a job can have: the scheduler's bounds, carried through the queue and the executor. */
module EndToEnd {
  import opened Wrappers
  import opened Models
  import opened ScheduleCalc
  import opened Queries
  import opened Arithmetic
  import opened SendLog
  import opened System
  import S = SchedulerMachine
  import E = Executor
  import MissedRuns

  // ---------- one schedule ----------

  /**
   The runs a schedule is entitled to from `start` to `now`: one for each interval that fits and one more, or one
   for each occurrence and one more. `hits` holds the occurrences of a cron schedule in that time.
   */
  function Quota(s: Schedule, start: Time, now: Time, hits: set<Time>): int {
    if s.IsInterval() && s.intervalSeconds.Some? && s.intervalSeconds.value > 0 then
      (now - start) / (s.intervalSeconds.value * SECOND) + 1
    else if s.IsCron() then
      |hits| + 1
    else
      1
  }

  /** `hits` misses no occurrence of the schedule after `start` and up to `now`. */
  ghost predicate Covers(calendar: Calendar, s: Schedule, start: Time, now: Time, hits: set<Time>) {
    s.IsCron() && s.cronExpression.Some? ==>
      forall t: Time :: t in Occurrences(calendar, s.cronExpression.value) && start < t <= now ==> t in hits
  }

  lemma {:induction false} NoRuleNoAdvance(cron: CronLib, loaded: Schedule, log: seq<Visit>)
    requires Legal(cron, loaded, log)
    requires !(exists seconds :: HasInterval(loaded, seconds)) && !(exists e :: HasCron(loaded, e))
    ensures Advances(log) == 0
  {
    if log != [] {
      var n := |log| - 1;
      NoRuleNoAdvance(cron, loaded, log[..n]);
      ReplayKeepsRule(loaded, log[..n]);
      if log[n].advance.Some? {
        assert loaded.IsInterval() ==> HasInterval(loaded, loaded.intervalSeconds.value);
        assert loaded.IsCron() ==> HasCron(loaded, loaded.cronExpression.value);
      }
    }
  }

  /** All visits but the last that moved the schedule on are within the quota, less one. */
  lemma AdvancesWithinQuota(cron: CronLib, calendar: Calendar, loaded: Schedule, log: seq<Visit>,
                            start: Time, now: Time, hits: set<Time>)
    requires LeastAfter(cron, calendar) && Legal(cron, loaded, log) && log != []
    requires start <= log[0].sent && log[|log| - 1].sent <= now && start <= now
    requires Covers(calendar, loaded, start, now, hits)
    ensures Advances(log[..|log| - 1]) + 1 <= Quota(loaded, start, now, hits)
  {
    if loaded.IsInterval() && loaded.intervalSeconds.Some? && loaded.intervalSeconds.value > 0 {
      IntervalQuota(cron, loaded, log, loaded.intervalSeconds.value, start, now);
    } else if loaded.IsCron() && loaded.cronExpression.Some? {
      CronQuota(cron, calendar, loaded, log, loaded.cronExpression.value, start, now, hits);
    } else {
      LegalAt(cron, loaded, log, |log| - 1);
      NoRuleNoAdvance(cron, loaded, log[..|log| - 1]);
    }
  }

  /** In every reachable state a schedule has sent no more than its quota and the attempts that failed after sending. */
  lemma SendsWithinQuota(env: S.Env, calendar: Calendar, s: S.State, start: Time, clock: Time, i: int, hits: set<Time>)
    requires LeastAfter(env.cron, calendar) && S.Inv(env, s, start, clock) && i in s.memory
    requires i in s.loaded && Covers(calendar, s.loaded[i], start, clock, hits)
    ensures i in s.log && i in s.failed && |s.log[i]| <= Quota(s.loaded[i], start, clock, hits) + s.failed[i]
  {
    hide Legal, LegalVisit, Replay, CalculateNextRun, Quota, LeastAfter, Covers;
    assert S.EntryOk(env, s, i, start, clock);
    var log := s.log[i];
    if log == [] {
      QuotaPositive(s.loaded[i], start, clock, hits);
    } else {
      SentWithin(env.cron, s.loaded[i], log);
      AdvancesWithinQuota(env.cron, calendar, s.loaded[i], log, start, clock, hits);
    }
  }

  lemma QuotaPositive(s: Schedule, start: Time, now: Time, hits: set<Time>)
    requires start <= now
    ensures Quota(s, start, now, hits) >= 1
  {
  }

  lemma SentWithin(cron: CronLib, loaded: Schedule, log: seq<Visit>)
    requires Legal(cron, loaded, log) && log != []
    ensures log[0].check <= log[0].sent && log[|log| - 1].sent <= log[|log| - 1].End()
  {
    LegalAt(cron, loaded, log, 0);
    LegalAt(cron, loaded, log, |log| - 1);
  }

  /** Visits a step apart from `start` on, each without delay. */
  function Evenly(start: Time, step: Time, n: nat): (log: seq<Visit>)
    ensures |log| == n + 1
  {
    (if n == 0 then [] else Evenly(start, step, n - 1)) + [OnTime(start + n * step, step)]
  }

  function OnTime(due: Time, step: Time): Visit {
    Visit(due, due, due, Some(Advance(due, due + step)))
  }

  lemma OneMore(cron: CronLib, loaded: Schedule, log: seq<Visit>, due: Time, step: Time)
    requires Legal(cron, loaded, log) && Replay(loaded, log).nextRunAt == Some(due)
    requires log != [] ==> log[|log| - 1].End() <= due
    requires CalculateNextRun(cron, Replay(loaded, log), Some(due), due) == Ok(due + step)
    ensures Legal(cron, loaded, log + [OnTime(due, step)])
    ensures Replay(loaded, log + [OnTime(due, step)]).nextRunAt == Some(due + step)
  {
    assert (log + [OnTime(due, step)])[..|log|] == log;
  }

  /** Every run of the schedule is followed by a next time one step later. */
  ghost predicate StepsBy(cron: CronLib, loaded: Schedule, step: Time) {
    forall last, next, t: Time ::
      CalculateNextRun(cron, loaded.(lastRunAt := last, nextRunAt := next), Some(t), t) == Ok(t + step)
  }

  lemma {:induction false} EvenlyIsLegal(cron: CronLib, loaded: Schedule, start: Time, step: Time, n: nat)
    requires StepsBy(cron, loaded, step) && loaded.nextRunAt == Some(start) && step > 0
    ensures var log := Evenly(start, step, n);
      && Legal(cron, loaded, log) && log[0] == OnTime(start, step) && log[n] == OnTime(start + n * step, step)
      && Replay(loaded, log).nextRunAt == Some(start + n * step + step)
  {
    hide Legal, Replay, CalculateNextRun;
    var before := if n == 0 then [] else Evenly(start, step, n - 1);
    if n > 0 {
      EvenlyIsLegal(cron, loaded, start, step, n - 1);
      assert n * step == (n - 1) * step + step;
    } else {
      NoVisits(cron, loaded);
    }
    ReplayKeepsRule(loaded, before);
    var entry := Replay(loaded, before);
    assert entry == loaded.(lastRunAt := entry.lastRunAt, nextRunAt := entry.nextRunAt);
    OneMore(cron, loaded, before, start + n * step, step);
  }

  lemma NoVisits(cron: CronLib, loaded: Schedule)
    ensures Legal(cron, loaded, []) && Replay(loaded, []) == loaded
  {
  }

  /** The quota is no looser than it has to be: an interval schedule can send this often, with no failure. */
  lemma IntervalQuotaIsReached(cron: CronLib, loaded: Schedule, start: Time, seconds: int, n: nat)
    returns (log: seq<Visit>)
    requires HasInterval(loaded, seconds) && loaded.nextRunAt == Some(start)
    ensures Legal(cron, loaded, log) && log != [] && log[0].sent == start
    ensures var now := log[|log| - 1].sent; |log| == n + 1 == Quota(loaded, start, now, {})
  {
    hide Legal, StepsBy, Replay, Quota;
    var step := seconds * SECOND;
    log := Evenly(start, step, n);
    IntervalSteps(cron, loaded, seconds);
    EvenlyIsLegal(cron, loaded, start, step, n);
    QuotaOfSteps(loaded, start, seconds, n);
  }

  lemma IntervalSteps(cron: CronLib, loaded: Schedule, seconds: int)
    requires HasInterval(loaded, seconds)
    ensures StepsBy(cron, loaded, seconds * SECOND)
  {
  }

  lemma QuotaOfSteps(loaded: Schedule, start: Time, seconds: int, n: nat)
    requires HasInterval(loaded, seconds)
    ensures Quota(loaded, start, start + n * (seconds * SECOND), {}) == n + 1
  {
    var step := seconds * SECOND;
    Fits(n, step, n * step);
    Fits(n + 1, step, n * step);
    assert (n + 1) * step == n * step + step;
  }

  /** A library and a calendar in which every instant is an occurrence of every expression. */
  function EachInstant(expression: string, t: Time): Option<Time> {
    Some(t + 1)
  }

  ghost function AllInstants(fields: seq<string>): iset<Time> {
    iset t: Time | EachInstant("", t).Some?
  }

  lemma EachInstantSteps(loaded: Schedule, expression: string)
    requires HasCron(loaded, expression)
    ensures LeastAfter(EachInstant, AllInstants) && StepsBy(EachInstant, loaded, 1)
  {
  }

  /** Nor is that of a cron schedule: with that library it sends once more than there are occurrences. */
  lemma CronQuotaIsReached(loaded: Schedule, expression: string, start: Time, n: nat)
    returns (log: seq<Visit>, hits: set<Time>)
    requires HasCron(loaded, expression) && loaded.nextRunAt == Some(start)
    ensures LeastAfter(EachInstant, AllInstants) && Legal(EachInstant, loaded, log)
    ensures log != [] && log[0].sent == start
    ensures var now := log[|log| - 1].sent;
      && (forall t: Time :: t in hits <==> t in Occurrences(AllInstants, expression) && start < t <= now)
      && |log| == n + 1 == Quota(loaded, start, now, hits)
  {
    hide Legal, LeastAfter, StepsBy, Replay;
    log, hits := Evenly(start, 1, n), Range(start + 1, start + n + 1);
    EachInstantSteps(loaded, expression);
    EvenlyIsLegal(EachInstant, loaded, start, 1, n);
  }

  /** A schedule that fits no rule is entitled to the one attempt that is under way: it never moves on. */
  lemma OtherQuotaIsReached(cron: CronLib, loaded: Schedule, start: Time) returns (log: seq<Visit>)
    requires loaded.nextRunAt == Some(start) && !loaded.IsCron() && !(exists seconds :: HasInterval(loaded, seconds))
    ensures Legal(cron, loaded, log) && |log| == 1 == Quota(loaded, start, start, {})
  {
    assert loaded.IsInterval() && loaded.intervalSeconds.Some? && loaded.intervalSeconds.value > 0 ==>
      HasInterval(loaded, loaded.intervalSeconds.value);
    log := [Visit(start, start, start, None)];
    NoVisits(cron, loaded);
    assert log[..0] == [] && LegalVisit(cron, loaded, log[0]);
  }

  // ---------- one schedule over whole runs ----------

  /** Every schedule in memory has a legal history and stands as that history leaves it, in every reachable state. */
  lemma HistoryIsLegal(env: S.Env, limit: nat, s: System.State, run: seq<System.Event>, i: int)
    requires Init(s) && Exec(env, limit, s, run).Some? && i in Exec(env, limit, s, run).value.sched.memory
    ensures var t := Exec(env, limit, s, run).value.sched;
      && i in t.loaded && i in t.log && Legal(env.cron, t.loaded[i], t.log[i])
      && t.memory[i] == Replay(t.loaded[i], t.log[i])
      && CountFrom(Exec(env, limit, s, run).value.sent, i) == |t.log[i]|
  {
    hide Next;
    InitInv(env, s);
    InvExec(env, limit, s, s.clock, run);
    var t := Exec(env, limit, s, run).value;
    assert S.EntryOk(env, t.sched, i, s.clock, t.clock);
  }

  /**
   In any run: sends j and k of an interval schedule are the interval apart for each of the sends from j to k - 1 that
   moved it on, so that a window of some width holds width / interval + 1 sends and those that failed in it.
   */
  lemma IntervalSendsInRun(env: S.Env, limit: nat, s: System.State, run: seq<System.Event>, i: int, j: nat, k: nat,
                           seconds: int)
    requires Init(s) && Exec(env, limit, s, run).Some? && i in Exec(env, limit, s, run).value.sched.memory
    requires var t := Exec(env, limit, s, run).value.sched;
      i in t.loaded && i in t.log && HasInterval(t.loaded[i], seconds) && j <= k < |t.log[i]|
    ensures var log := Exec(env, limit, s, run).value.sched.log[i];
      && log[j].sent + Advances(log[j..k]) * (seconds * SECOND) <= log[k].sent
      && k - j + 1 <= (log[k].sent - log[j].sent) / (seconds * SECOND) + 1 + (k - j - Advances(log[j..k]))
  {
    hide Exec, Legal, Advances;
    HistoryIsLegal(env, limit, s, run, i);
    var t := Exec(env, limit, s, run).value.sched;
    IntervalSpacing(env.cron, t.loaded[i], t.log[i], j, k, seconds);
    WindowBound(env.cron, t.loaded[i], t.log[i], j, k, seconds, t.log[i][k].sent - t.log[i][j].sent);
  }

  /**
   In any run: each send of a cron schedule that follows one which moved it on is charged to an occurrence of its
   own.
   */
  lemma CronSendsInRun(env: S.Env, calendar: Calendar, limit: nat, s: System.State, run: seq<System.Event>, i: int,
                       j: nat, k: nat, expression: string)
    requires LeastAfter(env.cron, calendar)
    requires Init(s) && Exec(env, limit, s, run).Some? && i in Exec(env, limit, s, run).value.sched.memory
    requires var t := Exec(env, limit, s, run).value.sched;
      && i in t.loaded && i in t.log && HasCron(t.loaded[i], expression)
      && Charged(t.log[i], j) && Charged(t.log[i], k) && j < k
    ensures var log := Exec(env, limit, s, run).value.sched.log[i];
      && log[j].due in Occurrences(calendar, expression) && log[k].due in Occurrences(calendar, expression)
      && log[j - 1].sent < log[j].due <= log[j].sent && log[k - 1].sent < log[k].due <= log[k].sent
      && log[j].due < log[k].due
  {
    hide Exec, Legal, LeastAfter;
    HistoryIsLegal(env, limit, s, run, i);
    var t := Exec(env, limit, s, run).value.sched;
    CronCharge(env.cron, calendar, t.loaded[i], t.log[i], j, expression);
    CronCharge(env.cron, calendar, t.loaded[i], t.log[i], k, expression);
    ChargedOnce(env.cron, calendar, t.loaded[i], t.log[i], j, k, expression);
  }

  function SendTimes(log: seq<Visit>): seq<Time> {
    seq(|log|, k requires 0 <= k < |log| => log[k].sent)
  }

  /**
   Where every send but the last moved an interval schedule on, the sends and the runs missed between them account
   for the time between the first and the last.
   */
  lemma SendsTelescope(cron: CronLib, loaded: Schedule, log: seq<Visit>, seconds: int)
    requires Legal(cron, loaded, log) && HasInterval(loaded, seconds) && log != []
    requires forall k :: 0 <= k < |log| - 1 ==> log[k].advance.Some?
    ensures
      var total, gaps := MissedRuns.TotalRuns(loaded, SendTimes(log)), |log| - 1;
      var elapsed := log[gaps].sent - log[0].sent;
      && (seconds * SECOND) * total <= elapsed
      && (gaps > 0 ==> elapsed < (seconds * SECOND) * (total + gaps))
  {
    hide Legal, MissedRuns.TotalRuns;
    var q := SendTimes(log);
    forall k | 0 < k < |q| ensures q[k - 1] + seconds * SECOND <= q[k] {
      IntervalStep(cron, loaded, log, k - 1, seconds);
    }
    MissedRuns.MissedRunsTelescope(loaded, q, seconds);
  }

  // ---------- all schedules of a job ----------

  /** `ids` lists the loaded schedules of the job, each once. */
  ghost predicate SchedulesOf(ids: seq<int>, loaded: map<int, Schedule>, jobId: Uuid) {
    && (forall k :: 0 <= k < |ids| ==> ids[k] in loaded)
    && (forall j, k :: 0 <= j < k < |ids| ==> ids[j] != ids[k])
    && (forall i :: i in loaded && loaded[i].jobId == jobId ==> i in ids)
  }

  ghost function SumFrom(sent: seq<Message>, ids: seq<int>): int {
    if ids == [] then 0 else SumFrom(sent, ids[..|ids| - 1]) + CountFrom(sent, ids[|ids| - 1])
  }

  /** The quotas of these schedules and their attempts that failed after sending. */
  ghost function SumQuotas(s: S.State, ids: seq<int>, start: Time, now: Time, hits: int -> set<Time>): int
    requires forall k :: 0 <= k < |ids| ==> ids[k] in s.loaded && ids[k] in s.failed
  {
    if ids == [] then
      0
    else
      var n := |ids| - 1;
      SumQuotas(s, ids[..n], start, now, hits) + Quota(s.loaded[ids[n]], start, now, hits(ids[n])) + s.failed[ids[n]]
  }

  lemma {:induction false} SumFromMore(sent: seq<Message>, m: Message, ids: seq<int>)
    requires forall j, k :: 0 <= j < k < |ids| ==> ids[j] != ids[k]
    ensures SumFrom(sent + [m], ids) ==
      SumFrom(sent, ids) + if m.origin.FromSchedule? && m.origin.id in ids then 1 else 0
  {
    if ids != [] {
      var n := |ids| - 1;
      SumFromMore(sent, m, ids[..n]);
      assert (sent + [m])[..|sent|] == sent;
      assert ids == ids[..n] + [ids[n]];
    }
  }

  lemma {:induction false} SumFromNone(ids: seq<int>)
    ensures SumFrom([], ids) == 0
  {
    if ids != [] {
      SumFromNone(ids[..|ids| - 1]);
    }
  }

  /** The messages for a job are its triggers and those of its schedules. */
  lemma {:induction false} MessagesOfJob(sent: seq<Message>, loaded: map<int, Schedule>, ids: seq<int>, jobId: Uuid)
    requires SchedulesOf(ids, loaded, jobId)
    requires forall k :: 0 <= k < |sent| && sent[k].origin.FromSchedule? ==>
      sent[k].origin.id in loaded && loaded[sent[k].origin.id].jobId == sent[k].execution.jobId
    ensures CountJob(ExecutionsOf(sent), jobId) <= CountTriggers(sent, jobId) + SumFrom(sent, ids)
  {
    if sent == [] {
      SumFromNone(ids);
    } else {
      var n := |sent| - 1;
      var before, m := sent[..n], sent[n];
      MessagesOfJob(before, loaded, ids, jobId);
      assert sent == before + [m];
      SumFromMore(before, m, ids);
      assert ExecutionsOf(sent)[..n] == ExecutionsOf(before);
    }
  }

  lemma {:induction false} SumWithinQuotas(env: S.Env, calendar: Calendar, s: System.State, start: Time,
                                           ids: seq<int>, hits: int -> set<Time>)
    requires LeastAfter(env.cron, calendar) && Inv(env, s, start)
    requires forall k :: 0 <= k < |ids| ==>
      && ids[k] in s.sched.loaded && ids[k] in s.sched.failed
      && Covers(calendar, s.sched.loaded[ids[k]], start, s.clock, hits(ids[k]))
    ensures SumFrom(s.sent, ids) <= SumQuotas(s.sched, ids, start, s.clock, hits)
  {
    hide Inv, LeastAfter, Covers, Quota, CountFrom;
    if ids != [] {
      var n := |ids| - 1;
      SumWithinQuotas(env, calendar, s, start, ids[..n], hits);
      OneWithinQuota(env, calendar, s, start, ids[n], hits(ids[n]));
    }
  }

  lemma OneWithinQuota(env: S.Env, calendar: Calendar, s: System.State, start: Time, i: int, hits: set<Time>)
    requires LeastAfter(env.cron, calendar) && Inv(env, s, start)
    requires i in s.sched.loaded && i in s.sched.failed && Covers(calendar, s.sched.loaded[i], start, s.clock, hits)
    ensures CountFrom(s.sent, i) <= Quota(s.sched.loaded[i], start, s.clock, hits) + s.sched.failed[i]
  {
    hide S.EntryOk, S.PhaseOk, LeastAfter, Covers, Quota, E.Inv, Conserved;
    SendsWithinQuota(env, calendar, s.sched, start, s.clock, i, hits);
  }

  // ---------- from messages to runs ----------

  ghost function RunsOf(s: E.State, jobId: Uuid): set<int> {
    set id | id in s.runs && s.runs[id].jobId == jobId
  }

  function TasksOf(xs: seq<JobExecution>, jobId: Uuid): set<int> {
    set i | 0 <= i < |xs| && xs[i].jobId == jobId
  }

  lemma {:induction false} TasksCount(xs: seq<JobExecution>, jobId: Uuid)
    ensures |TasksOf(xs, jobId)| == CountJob(xs, jobId)
  {
    if xs != [] {
      var n := |xs| - 1;
      TasksCount(xs[..n], jobId);
      assert TasksOf(xs, jobId) == TasksOf(xs[..n], jobId) + if xs[n].jobId == jobId then {n} else {};
    }
  }

  lemma {:induction false} CountPrefix(a: seq<JobExecution>, b: seq<JobExecution>, jobId: Uuid)
    ensures CountJob(a, jobId) <= CountJob(a + b, jobId)
  {
    if b == [] {
      assert a + b == a;
    } else {
      CountPrefix(a, b[..|b| - 1], jobId);
      assert (a + b)[..|a + b| - 1] == a + b[..|b| - 1];
    }
  }

  /** A set that maps one-to-one into another is not larger. */
  lemma {:induction false} OneToOne(a: set<int>, f: map<int, int>, b: set<int>)
    requires forall x :: x in a ==> x in f && f[x] in b
    requires forall x, y :: x in a && y in a && f[x] == f[y] ==> x == y
    ensures |a| <= |b|
    decreases |a|
  {
    if a != {} {
      var x := AnElement(a);
      OneToOne(a - {x}, f, b - {f[x]});
    }
  }

  lemma RunsAreMessages(env: S.Env, s: System.State, start: Time, jobId: Uuid)
    requires Inv(env, s, start)
    ensures |RunsOf(s.exec, jobId)| <= CountJob(ExecutionsOf(s.sent), jobId)
  {
    hide S.Inv, Logged, E.RunningSound, E.TaskOk;
    var xs := E.Executions(s.exec.tasks);
    forall id | id in RunsOf(s.exec, jobId) ensures id in s.exec.owner && s.exec.owner[id] in TasksOf(xs, jobId) {
      assert E.RunOk(s.exec, id);
    }
    forall x, y | x in RunsOf(s.exec, jobId) && y in RunsOf(s.exec, jobId) && s.exec.owner[x] == s.exec.owner[y]
      ensures x == y
    {
      assert E.RunOk(s.exec, x) && E.RunOk(s.exec, y);
    }
    OneToOne(RunsOf(s.exec, jobId), s.exec.owner, TasksOf(xs, jobId));
    TasksCount(xs, jobId);
    CountPrefix(xs, s.channel, jobId);
  }

  /**
   In any interleaving of clock, scheduler, triggers, queue and tasks, at every limit: the runs of a job since the
   process started are at most its manual triggers, the quotas of its schedules and the attempts of these schedules
   that failed after their message was sent.
   */
  lemma RunsAreBounded(env: S.Env, calendar: Calendar, limit: nat, s: System.State, run: seq<System.Event>,
                       jobId: Uuid, ids: seq<int>, hits: int -> set<Time>)
    requires LeastAfter(env.cron, calendar) && Init(s) && Exec(env, limit, s, run).Some?
    requires var t := Exec(env, limit, s, run).value;
      && SchedulesOf(ids, t.sched.loaded, jobId)
      && forall k :: 0 <= k < |ids| ==> Covers(calendar, t.sched.loaded[ids[k]], s.clock, t.clock, hits(ids[k]))
    ensures var t := Exec(env, limit, s, run).value;
      && (forall k :: 0 <= k < |ids| ==> ids[k] in t.sched.failed)
      && |RunsOf(t.exec, jobId)| <= CountTriggers(t.sent, jobId) + SumQuotas(t.sched, ids, s.clock, t.clock, hits)
  {
    hide Next, S.EntryOk, S.PhaseOk, Covers, LeastAfter, E.Inv;
    InitInv(env, s);
    InvExec(env, limit, s, s.clock, run);
    var t := Exec(env, limit, s, run).value;
    RunsAreMessages(env, t, s.clock, jobId);
    MessagesOfJob(t.sent, t.sched.loaded, ids, jobId);
    SumWithinQuotas(env, calendar, t, s.clock, ids, hits);
  }
}

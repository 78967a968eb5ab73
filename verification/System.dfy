/**
 The running process: the clock, the scheduler, the bounded job queue, manual triggers and
 the executor's tasks, interleaved step by step.
 */
module System {
  import opened Wrappers
  import opened Models
  import opened ScheduleCalc
  import opened Queries
  import SendLog
  import S = SchedulerMachine
  import E = Executor
  import Backup

  const CHANNEL_CAPACITY: nat := 100

  datatype Origin = FromSchedule(id: int) | FromTrigger

  datatype Message = Message(execution: JobExecution, origin: Origin)

  /** `sent` records every message that was ever put on the queue, in order. */
  datatype State = State(
    clock: Time,
    sched: S.State,
    channel: seq<JobExecution>,
    sent: seq<Message>,
    exec: E.State)

  datatype Event =
    | Tick(to: Time)
    | Schedule(step: S.Event)
    | Trigger(jobId: Uuid)
    | Receive
    | Task(i: nat, action: E.Event)

  /** The state after `e`, if it is possible. A send waits while the queue is full. */
  ghost function Next(env: S.Env, limit: nat, s: State, e: Event): Option<State> {
    match e
    case Tick(to) =>
      if s.clock <= to then Some(s.(clock := to)) else None
    case Schedule(step) =>
      (match S.Next(env, s.sched, s.clock, step)
       case None => None
       case Some(next) =>
         if !S.Sends(s.sched, step) then
           Some(s.(sched := next))
         else if |s.channel| < CHANNEL_CAPACITY then
           Some(Send(s.(sched := next), ScheduleMessage(s.sched, step)))
         else
           None)
    case Trigger(jobId) =>
      if |s.channel| < CHANNEL_CAPACITY then
        Some(Send(s, Message(JobExecution(jobId, "manual"), FromTrigger)))
      else
        None
    case Receive =>
      if s.channel == [] then
        None
      else
        Some(s.(channel := s.channel[1..], exec := E.Spawn(s.exec, s.channel[0])))
    case Task(i, step) =>
      (match E.Next(s.exec, limit, s.clock, i, step)
       case None => None
       case Some(next) => Some(s.(exec := next)))
  }

  function Send(s: State, m: Message): State {
    s.(channel := s.channel + [m.execution], sent := s.sent + [m])
  }

  function ScheduleMessage(sched: S.State, step: S.Event): Message
    requires S.Sends(sched, step)
  {
    Message(JobExecution(sched.phase.todo[step.id].jobId, "schedule"), FromSchedule(step.id))
  }

  ghost function Exec(env: S.Env, limit: nat, s: State, run: seq<Event>): Option<State>
    decreases |run|
  {
    if run == [] then
      Some(s)
    else
      match Next(env, limit, s, run[0])
      case None => None
      case Some(t) => Exec(env, limit, t, run[1..])
  }

  /** A process that has not started, on any schedule table and any runs of earlier processes kept elsewhere. */
  ghost predicate Init(s: State) {
    S.Init(s.sched) && s.channel == [] && s.sent == [] && s.exec == E.State([], map[], map[], map[])
  }

  // ---------- counting messages ----------

  function ExecutionsOf(sent: seq<Message>): seq<JobExecution> {
    seq(|sent|, k requires 0 <= k < |sent| => sent[k].execution)
  }

  /** Messages that schedule i sent. */
  function CountFrom(sent: seq<Message>, i: int): nat {
    if sent == [] then 0
    else CountFrom(sent[..|sent| - 1], i) + if sent[|sent| - 1].origin == FromSchedule(i) then 1 else 0
  }

  /** Manual triggers of a job. */
  function CountTriggers(sent: seq<Message>, jobId: Uuid): nat {
    if sent == [] then 0
    else CountTriggers(sent[..|sent| - 1], jobId) +
         var m := sent[|sent| - 1]; if m.origin.FromTrigger? && m.execution.jobId == jobId then 1 else 0
  }

  /** Messages for a job. */
  function CountJob(xs: seq<JobExecution>, jobId: Uuid): nat {
    if xs == [] then 0
    else CountJob(xs[..|xs| - 1], jobId) + if xs[|xs| - 1].jobId == jobId then 1 else 0
  }

  // ---------- what every step keeps ----------

  /** Messages sent are the tasks and the messages still queued, first in, first out. */
  ghost predicate Conserved(s: State) {
    && ExecutionsOf(s.sent) == E.Executions(s.exec.tasks) + s.channel
    && |s.channel| <= CHANNEL_CAPACITY
  }

  /** The messages of a schedule are the visits in its log, are for its job, and say that a schedule sent them. */
  ghost predicate Logged(sched: S.State, sent: seq<Message>) {
    && sched.loaded.Keys == sched.log.Keys
    && (forall i :: i in sched.log ==> CountFrom(sent, i) == |sched.log[i]|)
    && (forall k :: 0 <= k < |sent| && sent[k].origin.FromSchedule? ==>
          sent[k].origin.id in sched.loaded && sched.loaded[sent[k].origin.id].jobId == sent[k].execution.jobId)
    && (forall k :: 0 <= k < |sent| ==>
          sent[k].execution.triggeredBy == if sent[k].origin.FromTrigger? then "manual" else "schedule")
  }

  ghost predicate Inv(env: S.Env, s: State, start: Time) {
    && S.Inv(env, s.sched, start, s.clock)
    && E.Inv(s.exec)
    && Conserved(s)
    && Logged(s.sched, s.sent)
  }

  lemma InitInv(env: S.Env, s: State)
    requires Init(s)
    ensures Inv(env, s, s.clock)
  {
    S.InitInv(env, s.sched, s.clock);
  }

  lemma {:induction false} CountFromNone(sent: seq<Message>, i: int)
    requires forall k :: 0 <= k < |sent| ==> sent[k].origin != FromSchedule(i)
    ensures CountFrom(sent, i) == 0
  {
    if sent != [] {
      CountFromNone(sent[..|sent| - 1], i);
    }
  }

  lemma ConservedSend(s: State, m: Message)
    requires Conserved(s) && |s.channel| < CHANNEL_CAPACITY
    ensures Conserved(Send(s, m))
  {
    assert ExecutionsOf(s.sent + [m]) == ExecutionsOf(s.sent) + [m.execution];
  }

  lemma LoggedSend(sched: S.State, sent: seq<Message>, m: Message)
    requires Logged(sched, sent) && m.origin.FromTrigger? && m.execution.triggeredBy == "manual"
    ensures Logged(sched, sent + [m])
  {
    assert (sent + [m])[..|sent|] == sent;
  }

  /** How a step that sends changes the log: one more visit of the schedule it visits. */
  lemma SendLogged(env: S.Env, s: S.State, start: Time, clock: Time, e: S.Event, sent: seq<Message>)
    requires S.Inv(env, s, start, clock) && S.Next(env, s, clock, e).Some? && S.Sends(s, e) && Logged(s, sent)
    ensures Logged(S.Next(env, s, clock, e).value, sent + [ScheduleMessage(s, e)])
  {
    var t, m := S.Next(env, s, clock, e).value, ScheduleMessage(s, e);
    S.EntryHere(env, s, start, clock, e.id);
    LoadedJob(env, s, start, clock, e.id);
    SendStep(env, s, clock, e);
    assert (sent + [m])[..|sent|] == sent;
  }

  lemma LoadedJob(env: S.Env, s: S.State, start: Time, clock: Time, i: int)
    requires S.Inv(env, s, start, clock) && i in s.memory
    ensures i in s.loaded && s.loaded[i].jobId == s.memory[i].jobId
  {
    assert S.EntryOk(env, s, i, start, clock);
    SendLog.ReplayKeepsRule(s.loaded[i], s.log[i]);
  }

  lemma SendStep(env: S.Env, s: S.State, clock: Time, e: S.Event)
    requires S.Next(env, s, clock, e).Some? && S.Sends(s, e) && e.id in s.log
    ensures var t := S.Next(env, s, clock, e).value;
      && t.loaded == s.loaded && t.log.Keys == s.log.Keys
      && |t.log[e.id]| == |s.log[e.id]| + 1 && forall i :: i in s.log && i != e.id ==> t.log[i] == s.log[i]
  {
  }

  /** A step that sends nothing leaves the lengths of the logs; what it loads begins with an empty one. */
  lemma QuietLogged(env: S.Env, s: S.State, start: Time, clock: Time, e: S.Event, sent: seq<Message>)
    requires S.Inv(env, s, start, clock) && S.Next(env, s, clock, e).Some? && !S.Sends(s, e) && Logged(s, sent)
    ensures Logged(S.Next(env, s, clock, e).value, sent)
  {
    hide S.Inv, Logged, S.Next;
    InvKeys(env, s, start, clock);
    if e.LoadRow? {
      LoadedQuietly(env, s, clock, e, sent);
    } else {
      QuietLengths(env, s, clock, e);
      LengthsLogged(s, S.Next(env, s, clock, e).value, sent);
    }
  }

  lemma LoadedQuietly(env: S.Env, s: S.State, clock: Time, e: S.Event, sent: seq<Message>)
    requires S.Next(env, s, clock, e).Some? && e.LoadRow? && Logged(s, sent)
    requires s.log.Keys == s.memory.Keys && (s.phase.Loading? && s.phase.rows != [] ==> s.phase.rows[0].id !in s.memory)
    ensures Logged(S.Next(env, s, clock, e).value, sent)
  {
    hide Logged, S.LoadedEntry, S.StoreAfterLoad;
    RowLogged(s, S.Next(env, s, clock, e).value, s.phase.rows[0].id, sent);
  }

  lemma QuietLengths(env: S.Env, s: S.State, clock: Time, e: S.Event)
    requires S.Next(env, s, clock, e).Some? && !S.Sends(s, e) && !e.LoadRow?
    requires s.loaded.Keys == s.memory.Keys && s.log.Keys == s.memory.Keys && (s.phase.Down? ==> s.memory == map[])
    ensures var t := S.Next(env, s, clock, e).value;
      t.loaded == s.loaded && t.log.Keys == s.log.Keys && forall i :: i in s.log ==> |t.log[i]| == |s.log[i]|
  {
    hide S.FetchedRows, UpdateLastRun, CalculateNextRun, IsDue;
  }

  lemma InvKeys(env: S.Env, s: S.State, start: Time, clock: Time)
    requires S.Inv(env, s, start, clock)
    ensures s.loaded.Keys == s.memory.Keys && s.log.Keys == s.memory.Keys && (s.phase.Down? ==> s.memory == map[])
    ensures s.phase.Loading? && s.phase.rows != [] ==> s.phase.rows[0].id !in s.memory
  {
    hide S.EntryOk;
  }

  lemma LengthsLogged(s: S.State, t: S.State, sent: seq<Message>)
    requires Logged(s, sent) && t.loaded == s.loaded && t.log.Keys == s.log.Keys
    requires forall i :: i in s.log ==> |t.log[i]| == |s.log[i]|
    ensures Logged(t, sent)
  {
  }

  lemma RowLogged(s: S.State, t: S.State, id: int, sent: seq<Message>)
    requires Logged(s, sent) && id !in s.log
    requires (t.log == s.log && t.loaded == s.loaded)
             || (&& t.log == s.log[id := []] && t.loaded.Keys == s.loaded.Keys + {id}
                 && forall i :: i in s.loaded && i != id ==> t.loaded[i] == s.loaded[i])
    ensures Logged(t, sent)
  {
    CountFromNone(sent, id);
  }

  lemma InvNext(env: S.Env, limit: nat, s: State, start: Time, e: Event)
    requires Inv(env, s, start) && Next(env, limit, s, e).Some?
    ensures Inv(env, Next(env, limit, s, e).value, start)
  {
    hide S.Inv, E.Inv, Logged, Conserved, S.Next, E.Next, S.Sends;
    var t := Next(env, limit, s, e).value;
    match e
    case Tick(to) =>
      S.InvLater(env, s.sched, start, s.clock, to);
      ConservedSame(s, t);
    case Schedule(step) =>
      S.InvNext(env, s.sched, start, s.clock, step);
      if S.Sends(s.sched, step) {
        SendLogged(env, s.sched, start, s.clock, step, s.sent);
        ConservedSame(s, s.(sched := t.sched));
        ConservedSend(s.(sched := t.sched), ScheduleMessage(s.sched, step));
      } else {
        QuietLogged(env, s.sched, start, s.clock, step, s.sent);
        ConservedSame(s, t);
      }
    case Trigger(jobId) =>
      ConservedSend(s, Message(JobExecution(jobId, "manual"), FromTrigger));
      LoggedSend(s.sched, s.sent, Message(JobExecution(jobId, "manual"), FromTrigger));
    case Receive =>
      E.InvSpawn(s.exec, s.channel[0]);
      ConservedReceive(s);
    case Task(i, step) =>
      E.InvNext(s.exec, limit, s.clock, i, step);
      TaskKeepsExecutions(s.exec, limit, s.clock, i, step);
      ConservedSame(s, t);
  }

  lemma ConservedSame(s: State, t: State)
    requires Conserved(s) && t.sent == s.sent && t.channel == s.channel
    requires E.Executions(t.exec.tasks) == E.Executions(s.exec.tasks)
    ensures Conserved(t)
  {
  }

  lemma ConservedReceive(s: State)
    requires Conserved(s) && s.channel != []
    ensures Conserved(s.(channel := s.channel[1..], exec := E.Spawn(s.exec, s.channel[0])))
  {
    var t := s.(channel := s.channel[1..], exec := E.Spawn(s.exec, s.channel[0]));
    assert E.Executions(t.exec.tasks) == E.Executions(s.exec.tasks) + [s.channel[0]];
    assert E.Executions(s.exec.tasks) + s.channel == E.Executions(t.exec.tasks) + t.channel;
  }

  lemma TaskKeepsExecutions(s: E.State, limit: nat, clock: Time, i: nat, e: E.Event)
    requires E.Next(s, limit, clock, i, e).Some?
    ensures E.Executions(E.Next(s, limit, clock, i, e).value.tasks) == E.Executions(s.tasks)
  {
    hide Backup.Next, E.Admits;
    var t := E.Next(s, limit, clock, i, e).value;
    assert |t.tasks| == |s.tasks| && forall k :: 0 <= k < |s.tasks| ==> t.tasks[k].execution == s.tasks[k].execution;
  }

  lemma {:induction false} InvExec(env: S.Env, limit: nat, s: State, start: Time, run: seq<Event>)
    requires Inv(env, s, start) && Exec(env, limit, s, run).Some?
    ensures Inv(env, Exec(env, limit, s, run).value, start)
    decreases |run|
  {
    hide Next, Inv;
    if run != [] {
      InvNext(env, limit, s, start, run[0]);
      InvExec(env, limit, Next(env, limit, s, run[0]).value, start, run[1..]);
    }
  }

  // ---------- conservation ----------

  /**
   In every reachable state: what was sent is the tasks and the queue, in order; the queue is within its
   capacity; a task creates one run at most, and every run is some task's, for the job it was asked to run.
   */
  lemma ExecutionsAreConserved(env: S.Env, limit: nat, s: State, run: seq<Event>)
    requires Init(s) && Exec(env, limit, s, run).Some?
    ensures var t := Exec(env, limit, s, run).value;
      && |t.sent| == |t.channel| + |t.exec.tasks| && |t.channel| <= 100
      && ExecutionsOf(t.sent) == E.Executions(t.exec.tasks) + t.channel
      && (forall id :: id in t.exec.runs ==>
            && id in t.exec.owner && 0 <= t.exec.owner[id] < |t.exec.tasks|
            && t.exec.tasks[t.exec.owner[id]].execution.jobId == t.exec.runs[id].jobId)
      && (forall id, id' :: id in t.exec.runs && id' in t.exec.runs && t.exec.owner[id] == t.exec.owner[id'] ==>
            id == id')
  {
    InitInv(env, s);
    InvExec(env, limit, s, s.clock, run);
    var t := Exec(env, limit, s, run).value;
    assert |ExecutionsOf(t.sent)| == |E.Executions(t.exec.tasks) + t.channel|;
    forall id | id in t.exec.runs ensures E.RunOk(t.exec, id) {
    }
  }

  /** A send waits exactly while a hundred messages are queued. */
  lemma SendsWaitForRoom(env: S.Env, limit: nat, s: State, jobId: Uuid, step: S.Event)
    ensures Next(env, limit, s, Trigger(jobId)).None? <==> |s.channel| >= 100
    ensures S.Sends(s.sched, step) ==> (Next(env, limit, s, Event.Schedule(step)).None? <==> |s.channel| >= 100)
    ensures !S.Sends(s.sched, step) ==>
      (Next(env, limit, s, Event.Schedule(step)).None? <==> S.Next(env, s.sched, s.clock, step).None?)
  {
  }

  // ---------- what the limit does ----------

  /** At a limit of two or more nothing has been skipped; at zero nothing has been admitted. */
  ghost predicate Limited(limit: nat, s: E.State) {
    && (limit >= 2 ==> forall i: nat :: i < |s.tasks| ==> !s.tasks[i].phase.Skipped?)
    && (limit == 0 ==>
          && s.runs == map[] && s.running == map[]
          && forall i: nat :: i < |s.tasks| ==>
               !s.tasks[i].phase.Admitted? && !s.tasks[i].phase.Active? && !s.tasks[i].phase.Completed?)
  }

  lemma LimitedNext(env: S.Env, limit: nat, s: State, e: Event)
    requires Limited(limit, s.exec) && Next(env, limit, s, e).Some?
    ensures Limited(limit, Next(env, limit, s, e).value.exec)
  {
    hide S.Next, S.Sends, Backup.Next, E.Admits;
    if e.Task? && e.action.CanExecute? {
      E.AdmitsIff(s.exec.running, s.exec.tasks[e.i].phase.job.deviceId, limit);
    }
  }

  lemma {:induction false} LimitedExec(env: S.Env, limit: nat, s: State, run: seq<Event>)
    requires Limited(limit, s.exec) && Exec(env, limit, s, run).Some?
    ensures Limited(limit, Exec(env, limit, s, run).value.exec)
    decreases |run|
  {
    hide Next, Limited;
    if run != [] {
      LimitedNext(env, limit, s, run[0]);
      LimitedExec(env, limit, Next(env, limit, s, run[0]).value, run[1..]);
    }
  }

  /**
   Over any run: at a limit of two or more no task is ever skipped, whatever runs on its device; at a limit of zero no
   run record ever comes to be.
   */
  lemma OnlyOneLimits(env: S.Env, limit: nat, s: State, run: seq<Event>)
    requires Init(s) && Exec(env, limit, s, run).Some?
    ensures var t := Exec(env, limit, s, run).value.exec;
      && (limit >= 2 ==> forall i: nat :: i < |t.tasks| ==> t.tasks[i].phase != E.Skipped)
      && (limit == 0 ==> t.runs == map[] && t.running == map[])
  {
    hide Exec;
    LimitedExec(env, limit, s, run);
  }

  // ---------- terminal runs ----------

  /** From `s` to `t` no run disappears or changes its task, and a finished run does not change at all. */
  ghost predicate RunsKept(s: E.State, t: E.State) {
    forall id :: id in s.runs && id in s.owner ==>
      && id in t.runs && id in t.owner && t.owner[id] == s.owner[id] && t.runs[id].jobId == s.runs[id].jobId
      && (s.runs[id].result.status != Running ==> t.runs[id] == s.runs[id])
  }

  lemma RunsKeptNext(env: S.Env, limit: nat, s: State, start: Time, e: Event)
    requires Inv(env, s, start) && Next(env, limit, s, e).Some?
    ensures RunsKept(s.exec, Next(env, limit, s, e).value.exec)
  {
    hide S.Inv, E.Inv, Logged, Conserved, S.Next, E.Next, S.Sends;
    var t := Next(env, limit, s, e).value;
    if e.Task? {
      E.InvNext(s.exec, limit, s.clock, e.i, e.action);
      OwnersAreRuns(t.exec);
      forall id | id in s.exec.runs && id in s.exec.owner
        ensures id in t.exec.runs && id in t.exec.owner && t.exec.owner[id] == s.exec.owner[id]
                && t.exec.runs[id].jobId == s.exec.runs[id].jobId
                && (s.exec.runs[id].result.status != Running ==> t.exec.runs[id] == s.exec.runs[id])
      {
        E.RunChangesOnce(s.exec, limit, s.clock, e.i, e.action, id);
      }
    }
  }

  lemma OwnersAreRuns(s: E.State)
    requires E.Inv(s)
    ensures s.owner.Keys == s.runs.Keys
  {
  }

  lemma {:induction false} TerminalRunsStay(env: S.Env, limit: nat, s: State, start: Time, run: seq<Event>)
    requires Inv(env, s, start) && Exec(env, limit, s, run).Some?
    ensures RunsKept(s.exec, Exec(env, limit, s, run).value.exec)
    decreases |run|
  {
    hide Next, Inv;
    if run != [] {
      var t := Next(env, limit, s, run[0]).value;
      RunsKeptNext(env, limit, s, start, run[0]);
      InvNext(env, limit, s, start, run[0]);
      TerminalRunsStay(env, limit, t, start, run[1..]);
    }
  }

  // ---------- mutual exclusion over whole runs ----------

  /** In no state of the run are two tasks of one device between the check of the limit and the mark. */
  ghost predicate NeverRaces(env: S.Env, limit: nat, s: State, run: seq<Event>)
    decreases |run|
  {
    && E.NoRace(s.exec)
    && (run != [] && Next(env, limit, s, run[0]).Some? ==>
          NeverRaces(env, limit, Next(env, limit, s, run[0]).value, run[1..]))
  }

  lemma {:induction false} ExclusiveExec(env: S.Env, s: State, start: Time, run: seq<Event>)
    requires Inv(env, s, start) && E.Exclusive(s.exec) && Exec(env, 1, s, run).Some? && NeverRaces(env, 1, s, run)
    ensures E.Exclusive(Exec(env, 1, s, run).value.exec)
    decreases |run|
  {
    hide Inv, E.Exclusive, E.NoRace, Next;
    if run != [] {
      var t := Next(env, 1, s, run[0]).value;
      InvNext(env, 1, s, start, run[0]);
      assert E.NoRace(t.exec);
      ExclusiveNext(env, s, start, run[0]);
      ExclusiveExec(env, t, start, run[1..]);
    }
  }

  lemma ExclusiveNext(env: S.Env, s: State, start: Time, e: Event)
    requires Inv(env, s, start) && E.Exclusive(s.exec) && Next(env, 1, s, e).Some?
    requires E.NoRace(Next(env, 1, s, e).value.exec)
    ensures E.Exclusive(Next(env, 1, s, e).value.exec)
  {
    hide S.Inv, E.Inv, S.Next, E.Next, S.Sends, E.Exclusive, E.NoRace;
    if e.Task? {
      E.ExclusiveStep(s.exec, s.clock, e.i, e.action);
    } else if e.Receive? {
      E.InvSpawn(s.exec, s.channel[0]);
      ExclusiveSpawn(s.exec, s.channel[0]);
    }
  }

  lemma ExclusiveSpawn(s: E.State, execution: JobExecution)
    requires E.Exclusive(s) && E.Inv(E.Spawn(s, execution))
    ensures E.Exclusive(E.Spawn(s, execution))
  {
    hide E.RunningSound, E.TaskOk, E.RunOk;
    var t := E.Spawn(s, execution);
    forall i: nat, j: nat, d: string | i < j < |t.tasks| && E.Claims(t.tasks[i], d) ensures !E.Claims(t.tasks[j], d) {
      if j < |s.tasks| {
        E.NoClash(s, i, j, d);
      }
    }
  }

  /**
   At limit 1, along every run without a race, a device has one active backup at most, and the map has just these
   devices.
   */
  lemma MutualExclusion(env: S.Env, s: State, run: seq<Event>, d: string)
    requires Init(s) && Exec(env, 1, s, run).Some? && NeverRaces(env, 1, s, run)
    ensures var t := Exec(env, 1, s, run).value.exec;
      && (forall i: nat, j: nat ::
            i < |t.tasks| && j < |t.tasks| && E.ActiveOn(t.tasks[i], d) && E.ActiveOn(t.tasks[j], d) ==> i == j)
      && (d in t.running <==> exists i: nat :: i < |t.tasks| && E.ActiveOn(t.tasks[i], d))
  {
    InitInv(env, s);
    ExclusiveExec(env, s, s.clock, run);
    E.ExclusiveMeans(Exec(env, 1, s, run).value.exec, d);
  }

  lemma ExecStep(env: S.Env, limit: nat, s: State, e: Event, rest: seq<Event>)
    requires Next(env, limit, s, e).Some?
    ensures Exec(env, limit, s, [e] + rest) == Exec(env, limit, Next(env, limit, s, e).value, rest)
  {
    hide Next;
    assert ([e] + rest)[1..] == rest;
  }

  lemma ExecNone(env: S.Env, limit: nat, s: State)
    ensures Exec(env, limit, s, []) == Some(s)
  {
  }

  // ---------- the scheduler within the process ----------

  /** The messages that a run of the scheduler's machine sends. */
  ghost function SentBy(env: S.Env, sched: S.State, run: seq<S.Step>): seq<Message>
    decreases |run|
  {
    if run == [] then
      []
    else
      var e := run[0].event;
      (if S.Sends(sched, e) then [ScheduleMessage(sched, e)] else []) +
      match S.Next(env, sched, run[0].clock, e)
      case None => []
      case Some(t) => SentBy(env, t, run[1..])
  }

  /** The messages that schedules sent. */
  function FromSchedules(sent: seq<Message>): seq<Message> {
    if sent == [] then
      []
    else
      var n := |sent| - 1;
      FromSchedules(sent[..n]) + if sent[n].origin.FromSchedule? then [sent[n]] else []
  }

  /** The messages for a job are its triggers and those that schedules sent for it. */
  lemma {:induction false} TriggersAndSchedules(sent: seq<Message>, jobId: Uuid)
    ensures CountJob(ExecutionsOf(sent), jobId) ==
      CountTriggers(sent, jobId) + CountJob(ExecutionsOf(FromSchedules(sent)), jobId)
  {
    hide CountJob;
    if sent != [] {
      var n := |sent| - 1;
      TriggersAndSchedules(sent[..n], jobId);
      var own := FromSchedules(sent[..n]);
      assert ExecutionsOf(sent) == ExecutionsOf(sent[..n]) + [sent[n].execution];
      assert ExecutionsOf(own + [sent[n]]) == ExecutionsOf(own) + [sent[n].execution];
      assert FromSchedules(sent) == if sent[n].origin.FromSchedule? then own + [sent[n]] else own;
      CountOneMore(ExecutionsOf(sent[..n]), sent[n].execution, jobId);
      CountOneMore(ExecutionsOf(own), sent[n].execution, jobId);
    }
  }

  lemma CountOneMore(xs: seq<JobExecution>, x: JobExecution, jobId: Uuid)
    ensures CountJob(xs + [x], jobId) == CountJob(xs, jobId) + if x.jobId == jobId then 1 else 0
  {
    assert (xs + [x])[..|xs|] == xs;
  }

  /** What a step of the process adds to the messages of the schedules. */
  lemma StepSends(env: S.Env, limit: nat, s: State, e: Event)
    requires Next(env, limit, s, e).Some?
    ensures FromSchedules(Next(env, limit, s, e).value.sent) == FromSchedules(s.sent) +
      if e.Schedule? && S.Sends(s.sched, e.step) then [ScheduleMessage(s.sched, e.step)] else []
  {
    hide S.Next, E.Next, S.Sends, FromSchedules, E.Spawn;
    forall m: Message {
      FromSchedulesMore(s.sent, m);
    }
  }

  lemma FromSchedulesMore(sent: seq<Message>, m: Message)
    ensures FromSchedules(sent + [m]) == FromSchedules(sent) + if m.origin.FromSchedule? then [m] else []
  {
    assert (sent + [m])[..|sent|] == sent;
  }

  /**
   Whatever the other tasks do, the scheduler makes a run of its own machine, so that what holds of those runs holds
   here; and the messages of the schedules are those that this run sends.
   */
  lemma {:induction false} SchedulerRunOf(env: S.Env, limit: nat, s: State, run: seq<Event>)
    returns (steps: seq<S.Step>)
    requires Exec(env, limit, s, run).Some?
    ensures var t := Exec(env, limit, s, run).value;
      && s.clock <= t.clock
      && S.Exec(env, s.sched, s.clock, steps) == Some(t.sched)
      && S.ClockAfter(s.clock, steps) <= t.clock
      && FromSchedules(t.sent) == FromSchedules(s.sent) + SentBy(env, s.sched, steps)
    decreases |run|
  {
    hide Next, S.Next, S.Sends, FromSchedules, ScheduleMessage, SentBy;
    if run == [] {
      steps := [];
      SentNothing(env, s.sched);
    } else {
      var t := Next(env, limit, s, run[0]).value;
      SchedulerStepOf(env, limit, s, run[0]);
      StepSends(env, limit, s, run[0]);
      var rest := SchedulerRunOf(env, limit, t, run[1..]);
      if run[0].Schedule? {
        var first := S.Step(s.clock, run[0].step);
        steps := [first] + rest;
        assert steps[1..] == rest;
        SentFirst(env, s.sched, first, rest);
      } else {
        steps := rest;
        LaterStart(env, s.sched, s.clock, t.clock, rest);
      }
    }
  }

  lemma SentNothing(env: S.Env, sched: S.State)
    ensures SentBy(env, sched, []) == []
  {
  }

  lemma SentFirst(env: S.Env, sched: S.State, first: S.Step, rest: seq<S.Step>)
    requires S.Next(env, sched, first.clock, first.event).Some?
    ensures SentBy(env, sched, [first] + rest) ==
      (if S.Sends(sched, first.event) then [ScheduleMessage(sched, first.event)] else [])
      + SentBy(env, S.Next(env, sched, first.clock, first.event).value, rest)
  {
    hide S.Next, S.Sends;
    assert ([first] + rest)[1..] == rest;
  }

  lemma SchedulerStepOf(env: S.Env, limit: nat, s: State, e: Event)
    requires Next(env, limit, s, e).Some?
    ensures var t := Next(env, limit, s, e).value;
      && s.clock <= t.clock
      && (e.Schedule? ==> t.clock == s.clock && S.Next(env, s.sched, s.clock, e.step) == Some(t.sched))
      && (!e.Schedule? ==> t.sched == s.sched)
  {
    hide S.Next, E.Next, S.Sends;
  }

  /** A run that can start at a later clock can start at an earlier one. */
  lemma LaterStart(env: S.Env, s: S.State, clock: Time, later: Time, run: seq<S.Step>)
    requires clock <= later && S.Exec(env, s, later, run).Some?
    ensures S.Exec(env, s, clock, run) == S.Exec(env, s, later, run)
    ensures S.ClockAfter(clock, run) <= S.ClockAfter(later, run)
  {
    hide S.Next;
  }
}

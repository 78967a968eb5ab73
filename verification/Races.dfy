/**
 Why mutual exclusion needs its hypothesis: two schedules of a device that are due in one check send two messages, both
 are received, and both tasks pass the check of the limit before either takes its place in the map.
 */
module Races {
  import opened Wrappers
  import opened Models
  import opened ScheduleCalc
  import opened Queries
  import opened System
  import opened CheckMessages
  import S = SchedulerMachine
  import E = Executor
  import Scheduler
  import SchedulerSafety
  import SharedJobs
  import LoadRuns

  /** Receiving the whole queue. */
  lemma {:induction false} Drain(env: S.Env, limit: nat, s: State) returns (run: seq<Event>)
    ensures NoTriggers(run)
    ensures var r := Exec(env, limit, s, run);
      && r.Some? && r.value.channel == [] && r.value.exec.running == s.exec.running
      && r.value == s.(channel := [], exec := r.value.exec)
      && |r.value.exec.tasks| == |s.exec.tasks| + |s.channel|
      && (forall k :: 0 <= k < |s.exec.tasks| ==> r.value.exec.tasks[k] == s.exec.tasks[k])
      && (forall k :: 0 <= k < |s.channel| ==>
            r.value.exec.tasks[|s.exec.tasks| + k] == E.Task(s.channel[k], E.Spawned))
    decreases |s.channel|
  {
    hide Exec;
    if s.channel == [] {
      run := [];
      ExecNone(env, limit, s);
    } else {
      var t := Next(env, limit, s, Receive).value;
      var rest := Drain(env, limit, t);
      run := [Receive] + rest;
      ExecStep(env, limit, s, Receive, rest);
      assert forall k :: 0 < k < |s.channel| ==> t.channel[k - 1] == s.channel[k];
      DrainedMore(s, t, Exec(env, limit, t, rest).value);
    }
  }

  lemma DrainedMore(s: State, t: State, u: State)
    requires s.channel != [] && t == s.(channel := s.channel[1..], exec := E.Spawn(s.exec, s.channel[0]))
    requires |u.exec.tasks| == |t.exec.tasks| + |t.channel|
    requires forall k :: 0 <= k < |t.exec.tasks| ==> u.exec.tasks[k] == t.exec.tasks[k]
    requires forall k :: 0 <= k < |t.channel| ==> u.exec.tasks[|t.exec.tasks| + k] == E.Task(t.channel[k], E.Spawned)
    ensures forall k :: 0 <= k < |s.exec.tasks| ==> u.exec.tasks[k] == s.exec.tasks[k]
    ensures forall k :: 0 <= k < |s.channel| ==> u.exec.tasks[|s.exec.tasks| + k] == E.Task(s.channel[k], E.Spawned)
  {
    forall k | 0 <= k < |s.channel| ensures u.exec.tasks[|s.exec.tasks| + k] == E.Task(s.channel[k], E.Spawned) {
      if k > 0 {
        assert u.exec.tasks[|t.exec.tasks| + (k - 1)] == E.Task(t.channel[k - 1], E.Spawned);
      }
    }
  }

  // ---------- from two waiting tasks to the race ----------

  /** The steps of a task up to its admission. */
  lemma AdmitTask(env: S.Env, s: State, i: nat, job: BackupJob, rest: seq<Event>) returns (t: State)
    requires i < |s.exec.tasks| && s.exec.tasks[i].phase == E.Spawned && s.exec.tasks[i].execution.jobId == job.id
    requires job.deviceId !in s.exec.running
    ensures t == s.(exec := E.Move(s.exec, i, E.Admitted(job)))
    ensures Exec(env, 1, s, [Task(i, E.Lookup(Ok(Some(job)))), Task(i, E.CanExecute)] + rest) == Exec(env, 1, t, rest)
  {
    hide Exec;
    var lookup, check := Task(i, E.Lookup(Ok(Some(job)))), Task(i, E.CanExecute);
    var s1 := Next(env, 1, s, lookup).value;
    E.AdmitsIff(s1.exec.running, job.deviceId, 1);
    t := Next(env, 1, s1, check).value;
    assert t.exec.tasks == E.Move(s.exec, i, E.Admitted(job)).tasks;
    assert [lookup, check] + rest == [lookup] + ([check] + rest);
    ExecStep(env, 1, s, lookup, [check] + rest);
    ExecStep(env, 1, s1, check, rest);
  }

  /** Two waiting tasks of one device can both become active. */
  lemma TasksRace(env: S.Env, s: State, i: nat, j: nat, first: BackupJob, second: BackupJob) returns (run: seq<Event>)
    requires i < j < |s.exec.tasks| && s.exec.tasks[i].phase == E.Spawned && s.exec.tasks[j].phase == E.Spawned
    requires s.exec.tasks[i].execution.jobId == first.id && s.exec.tasks[j].execution.jobId == second.id
    requires first.deviceId == second.deviceId && first.deviceId !in s.exec.running
    ensures NoTriggers(run)
    ensures Exec(env, 1, s, run).Some?
    ensures var t := Exec(env, 1, s, run).value.exec;
      |t.tasks| == |s.exec.tasks| && E.ActiveOn(t.tasks[i], first.deviceId) && E.ActiveOn(t.tasks[j], first.deviceId)
  {
    hide Exec;
    var marks := [Task(i, E.MarkRunning)] + ([Task(j, E.MarkRunning)] + []);
    var later := [Task(j, E.Lookup(Ok(Some(second)))), Task(j, E.CanExecute)] + marks;
    run := [Task(i, E.Lookup(Ok(Some(first)))), Task(i, E.CanExecute)] + later;
    var s1 := AdmitTask(env, s, i, first, later);
    var s2 := AdmitTask(env, s1, j, second, marks);
    E.RaceBreaksExclusion(s2.exec, 1, s2.clock, i, j, first.deviceId);
    var s3 := Next(env, 1, s2, Task(i, E.MarkRunning)).value;
    ExecStep(env, 1, s2, Task(i, E.MarkRunning), [Task(j, E.MarkRunning)] + []);
    ExecStep(env, 1, s3, Task(j, E.MarkRunning), []);
    ExecNone(env, 1, Next(env, 1, s3, Task(j, E.MarkRunning)).value);
  }

  // ---------- two schedules due in one check ----------

  /** A visit that sends, while nothing else happens. */
  lemma VisitSends(env: S.Env, s: State, id: int) returns (run: seq<Event>)
    requires s.sched.phase.Checking? && id in s.sched.phase.todo && |s.channel| < CHANNEL_CAPACITY
    requires id in s.sched.memory && s.sched.memory[id] == s.sched.phase.todo[id] && s.sched.memory[id].id == id
    requires s.sched.memory[id].enabled && IsDue(s.sched.memory[id], s.sched.phase.now)
    ensures NoTriggers(run)
    ensures var r := Exec(env, 1, s, run);
      && r.Some? && r.value.clock == s.clock && r.value.exec == s.exec
      && r.value.sched == Scheduler.AfterVisited(env, s.sched, id, Scheduler.Attempt(true, s.clock, true))
      && r.value.channel == s.channel + [JobExecution(s.sched.memory[id].jobId, "schedule")]
  {
    hide Exec, S.Exec, S.Next, CalculateNextRun, IsDue, Scheduler.AfterVisited;
    var a := Scheduler.Attempt(true, s.clock, true);
    var steps := Scheduler.VisitSteps(env.cron, s.sched.memory[id], s.sched.phase.now, a);
    var send := S.Visit(id, true);
    Scheduler.VisitIsRun(env, s.sched, s.clock, id, a);
    Scheduler.FirstStep(env, s.sched, id, a);
    assert steps == [steps[0]] + steps[1..];
    Scheduler.ExecStep(env, s.sched, s.clock, steps[0], steps[1..]);
    var t := Next(env, 1, s, Event.Schedule(send)).value;
    assert LoadRuns.SendsNothing(steps[1..]);
    SendsNone(env, t.sched, steps[1..]);
    AloneRun(env, 1, t, steps[1..]);
    run := [Event.Schedule(send)] + Alone(steps[1..]);
    ExecStep(env, 1, s, Event.Schedule(send), Alone(steps[1..]));
  }

  /** A check at a late enough instant sends for both schedules, whatever else it would go on to do. */
  lemma BothAreSent(env: S.Env, s: State, start: Time, i: int, j: int, c: Time) returns (run: seq<Event>)
    requires S.Inv(env, s.sched, start, s.clock) && s.sched.phase.Idle? && s.channel == [] && s.clock <= c
    requires i in s.sched.memory && j in s.sched.memory && i != j
    requires s.sched.memory[i].enabled && IsDue(s.sched.memory[i], c)
    requires s.sched.memory[j].enabled && IsDue(s.sched.memory[j], c)
    ensures NoTriggers(run)
    ensures var r := Exec(env, 1, s, run);
      && r.Some? && r.value.exec == s.exec
      && r.value.channel == [JobExecution(s.sched.memory[i].jobId, "schedule"),
                             JobExecution(s.sched.memory[j].jobId, "schedule")]
  {
    hide Exec, S.Exec, S.Next, S.Inv, IsDue, CalculateNextRun;
    SharedJobs.MemoryIsKeyed(env, s.sched, start, s.clock);
    Scheduler.CheckEnds(env, s.sched, c);
    var s1 := s.(clock := c);
    var s2 := s1.(sched := s.sched.(phase := S.Checking(c, s.sched.memory)));
    var first := VisitSends(env, s2, i);
    var s3 := Exec(env, 1, s2, first).value;
    var second := VisitSends(env, s3, j);
    ExecConcat(env, 1, s2, first, second);
    run := [Tick(c)] + ([Event.Schedule(S.BeginCheck)] + (first + second));
    ExecStep(env, 1, s, Tick(c), [Event.Schedule(S.BeginCheck)] + (first + second));
    ExecStep(env, 1, s1, Event.Schedule(S.BeginCheck), first + second);
  }

  /**
   From a loaded process: two schedules of one device that come due together can end up as two active backups of it.
   */
  lemma SchedulesRace(env: S.Env, s: State, start: Time, i: int, j: int, first: BackupJob, second: BackupJob)
    returns (run: seq<Event>)
    requires S.Inv(env, s.sched, start, s.clock) && s.sched.phase.Idle?
    requires i in s.sched.memory && j in s.sched.memory && i != j
    requires s.sched.memory[i].enabled && s.sched.memory[j].enabled
    requires first.id == s.sched.memory[i].jobId && second.id == s.sched.memory[j].jobId
    requires first.deviceId == second.deviceId && first.deviceId !in s.exec.running
    ensures NoTriggers(run)
    ensures Exec(env, 1, s, run).Some?
    ensures var t, n := Exec(env, 1, s, run).value.exec, |s.exec.tasks| + |s.channel|;
      |t.tasks| == n + 2 && E.ActiveOn(t.tasks[n], first.deviceId) && E.ActiveOn(t.tasks[n + 1], first.deviceId)
  {
    hide Exec, S.Inv, E.ActiveOn;
    var n := |s.exec.tasks| + |s.channel|;
    SchedulerSafety.EntriesHaveNext(env, s.sched, start, s.clock);
    var d1 := Drain(env, 1, s);
    var s1 := Exec(env, 1, s, d1).value;
    var c := LoadRuns.Latest(s.clock, s.sched.memory[i].nextRunAt.value, s.sched.memory[j].nextRunAt.value);
    var check := BothAreSent(env, s1, start, i, j, c);
    var s2 := Exec(env, 1, s1, check).value;
    var d2 := Drain(env, 1, s2);
    var s3 := Exec(env, 1, s2, d2).value;
    assert s3.exec.tasks[n + 0] == E.Task(s2.channel[0], E.Spawned);
    assert s3.exec.tasks[n + 1] == E.Task(s2.channel[1], E.Spawned);
    var race := TasksRace(env, s3, n, n + 1, first, second);
    run := d1 + (check + (d2 + race));
    ExecConcat(env, 1, s, d1, check + (d2 + race));
    ExecConcat(env, 1, s1, check, d2 + race);
    ExecConcat(env, 1, s2, d2, race);
  }

  /**
   Without the hypothesis exclusion fails at limit 1, and it is the scheduler that makes it fail: wherever the table
   selects two schedules that go on, there is a run from the start of the process to two active backups of the device.
   */
  lemma RaceIsReachable(env: S.Env, s: State, i: int, j: int) returns (run: seq<Event>)
    requires Init(s) && forall k :: k in s.sched.store ==> s.sched.store[k].id == k
    requires var selected := SchedulesForDevice(s.sched.store, env.jobs, env.deviceId);
      && i in selected && j in selected && i != j
      && forall k :: k in selected ==> LoadRuns.Recurs(env.cron, s.sched.store[k])
    requires forall id :: id in env.jobs ==> env.jobs[id].id == id
    ensures NoTriggers(run)
    ensures Exec(env, 1, s, run).Some?
    ensures var t := Exec(env, 1, s, run).value.exec;
      |t.tasks| == 2 && E.ActiveOn(t.tasks[0], env.deviceId) && E.ActiveOn(t.tasks[1], env.deviceId)
  {
    hide Exec, S.Exec, S.Next, S.Inv, LoadRuns.Recurs, E.ActiveOn;
    var steps := LoadRuns.Load(env, s.sched, s.clock);
    S.InitInv(env, s.sched, s.clock);
    S.InvExec(env, s.sched, s.clock, s.clock, steps);
    SendsNone(env, s.sched, steps);
    AloneRun(env, 1, s, steps);
    var t := Exec(env, 1, s, Alone(steps)).value;
    var race := SchedulesRace(env, t, s.clock, i, j,
                              env.jobs[s.sched.store[i].jobId], env.jobs[s.sched.store[j].jobId]);
    ExecConcat(env, 1, s, Alone(steps), race);
    run := Alone(steps) + race;
  }

  /** Two manual triggers of one job do the same, with no schedule at all. */
  lemma TriggersRace(env: S.Env, s: State, job: BackupJob) returns (run: seq<Event>)
    requires Init(s)
    ensures Exec(env, 1, s, run).Some?
    ensures var t := Exec(env, 1, s, run).value.exec;
      |t.tasks| == 2 && E.ActiveOn(t.tasks[0], job.deviceId) && E.ActiveOn(t.tasks[1], job.deviceId)
  {
    hide Exec;
    var s1 := Next(env, 1, s, Trigger(job.id)).value;
    var s2 := Next(env, 1, s1, Trigger(job.id)).value;
    var drain := Drain(env, 1, s2);
    var s3 := Exec(env, 1, s2, drain).value;
    assert s3.exec.tasks[0 + 0] == E.Task(s2.channel[0], E.Spawned);
    assert s3.exec.tasks[0 + 1] == E.Task(s2.channel[1], E.Spawned);
    var race := TasksRace(env, s3, 0, 1, job, job);
    run := [Trigger(job.id)] + ([Trigger(job.id)] + (drain + race));
    ExecStep(env, 1, s, Trigger(job.id), [Trigger(job.id)] + (drain + race));
    ExecStep(env, 1, s1, Trigger(job.id), drain + race);
    ExecConcat(env, 1, s2, drain, race);
  }
}

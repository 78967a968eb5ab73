/** When a run record starts and ends: at the clock of the steps that its own task took. */
module RunTimes {
  import opened Wrappers
  import opened Models
  import opened Queries
  import opened System
  import S = SchedulerMachine
  import E = Executor
  import Backup

  // ---------- steps of a run ----------

  /** Event k of the run is this step of the backup of task i, taken at the instant `at`. */
  ghost predicate Took(env: S.Env, limit: nat, s: State, run: seq<Event>, k: nat, i: int, step: Backup.Event,
                       at: Time) {
    && k < |run| && run[k].Task? && run[k].i == i && run[k].action == E.Step(step)
    && Exec(env, limit, s, run[..k]).Some? && Exec(env, limit, s, run[..k]).value.clock == at
  }

  ghost predicate HappenedAt(env: S.Env, limit: nat, s: State, run: seq<Event>, i: int, step: Backup.Event, at: Time) {
    exists k: nat :: Took(env, limit, s, run, k, i, step, at)
  }

  lemma HappenedBefore(env: S.Env, limit: nat, s: State, run: seq<Event>, e: Event, i: int, step: Backup.Event,
                       at: Time)
    requires HappenedAt(env, limit, s, run, i, step, at)
    ensures HappenedAt(env, limit, s, run + [e], i, step, at)
  {
    hide Exec;
    var k: nat :| Took(env, limit, s, run, k, i, step, at);
    assert (run + [e])[..k] == run[..k];
    assert Took(env, limit, s, run + [e], k, i, step, at);
  }

  lemma HappensNow(env: S.Env, limit: nat, s: State, run: seq<Event>, i: nat, step: Backup.Event)
    requires Exec(env, limit, s, run).Some?
    ensures HappenedAt(env, limit, s, run + [Task(i, E.Step(step))], i, step, Exec(env, limit, s, run).value.clock)
  {
    hide Exec;
    var longer := run + [Task(i, E.Step(step))];
    assert longer[..|run|] == run;
    assert Took(env, limit, s, longer, |run|, i, step, Exec(env, limit, s, run).value.clock);
  }

  /** The last step of a run, apart. */
  lemma {:induction false} ExecLast(env: S.Env, limit: nat, s: State, run: seq<Event>)
    requires run != [] && Exec(env, limit, s, run).Some?
    ensures var n := |run| - 1;
      && Exec(env, limit, s, run[..n]).Some?
      && Next(env, limit, Exec(env, limit, s, run[..n]).value, run[n]) == Exec(env, limit, s, run)
    decreases |run|
  {
    hide Next;
    var n := |run| - 1;
    var t := Next(env, limit, s, run[0]).value;
    if n == 0 {
      assert run[..0] == [] && run[1..] == [];
    } else {
      ExecLast(env, limit, t, run[1..]);
      assert run[..n][1..] == run[1..][..n - 1];
    }
  }

  // ---------- what a run keeps ----------

  /** The record started when its task created it, and not later than now. */
  ghost predicate Started(env: S.Env, limit: nat, s: State, run: seq<Event>, t: State, id: int)
    requires id in t.exec.runs && id in t.exec.owner
  {
    var start := t.exec.runs[id].startTime;
    start <= t.clock && HappenedAt(env, limit, s, run, t.exec.owner[id], Backup.Create(Some(id)), start)
  }

  /** The end of a process was seen when its task saw it, after its record started and not later than now. */
  ghost predicate Ended(env: S.Env, limit: nat, s: State, run: seq<Event>, t: State, i: nat)
    requires i < |t.exec.tasks|
  {
    var p := E.BackupOf(t.exec.tasks[i]);
    Backup.EndOf(p).Some? ==>
      var end, id := Backup.EndOf(p).value, Backup.RunIdOf(p);
      && id.Some? && id.value in t.exec.runs && t.exec.runs[id.value].startTime <= end.at <= t.clock
      && HappenedAt(env, limit, s, run, i, Backup.RunProcess(end.outcome), end.at)
  }

  ghost predicate Timed(env: S.Env, limit: nat, s: State, run: seq<Event>, t: State) {
    && t.exec.owner.Keys == t.exec.runs.Keys
    && (forall id :: id in t.exec.runs ==> Started(env, limit, s, run, t, id))
    && (forall i: nat :: i < |t.exec.tasks| ==> Ended(env, limit, s, run, t, i))
  }

  /** A step that is no step of a backup. */
  lemma TimedOther(env: S.Env, limit: nat, s: State, run: seq<Event>, u: State, e: Event)
    requires Exec(env, limit, s, run) == Some(u) && Timed(env, limit, s, run, u)
    requires Next(env, limit, u, e).Some? && !(e.Task? && e.action.Step?)
    ensures Timed(env, limit, s, run + [e], Next(env, limit, u, e).value)
  {
    hide Exec, HappenedAt;
    var t := Next(env, limit, u, e).value;
    OtherStep(env, limit, u, e);
    forall id | id in t.exec.runs ensures Started(env, limit, s, run + [e], t, id) {
      assert Started(env, limit, s, run, u, id);
      HappenedBefore(env, limit, s, run, e, u.exec.owner[id], Backup.Create(Some(id)), u.exec.runs[id].startTime);
    }
    forall i: nat | i < |t.exec.tasks| ensures Ended(env, limit, s, run + [e], t, i) {
      if i < |u.exec.tasks| && Backup.EndOf(E.BackupOf(u.exec.tasks[i])).Some? {
        assert Ended(env, limit, s, run, u, i);
        var end := Backup.EndOf(E.BackupOf(u.exec.tasks[i])).value;
        HappenedBefore(env, limit, s, run, e, i, Backup.RunProcess(end.outcome), end.at);
      }
    }
  }

  lemma OtherStep(env: S.Env, limit: nat, u: State, e: Event)
    requires Next(env, limit, u, e).Some? && !(e.Task? && e.action.Step?)
    ensures var t := Next(env, limit, u, e).value;
      && u.clock <= t.clock && t.exec.runs == u.exec.runs && t.exec.owner == u.exec.owner
      && |u.exec.tasks| <= |t.exec.tasks|
      && (forall i :: 0 <= i < |u.exec.tasks| ==> E.BackupOf(t.exec.tasks[i]) == E.BackupOf(u.exec.tasks[i]))
      && (forall i :: |u.exec.tasks| <= i < |t.exec.tasks| ==> E.BackupOf(t.exec.tasks[i]) == Backup.Starting)
  {
    hide S.Next, S.Sends, Backup.Next, E.Admits;
  }

  /** A step of the backup of task e.i. */
  lemma TimedBackup(env: S.Env, limit: nat, s: State, start: Time, run: seq<Event>, u: State, i: nat,
                    step: Backup.Event)
    requires Exec(env, limit, s, run) == Some(u) && Timed(env, limit, s, run, u) && Inv(env, u, start)
    requires Next(env, limit, u, Task(i, E.Step(step))).Some?
    ensures Timed(env, limit, s, run + [Task(i, E.Step(step))], Next(env, limit, u, Task(i, E.Step(step))).value)
  {
    hide Exec, HappenedAt, Timed, Next, Inv;
    var e := Task(i, E.Step(step));
    var t := Next(env, limit, u, e).value;
    BackupStep(env, limit, u, start, i, step);
    TimedGives(env, limit, s, run, u);
    HappensNow(env, limit, s, run, i, step);
    forall id | id in t.exec.runs ensures Started(env, limit, s, run + [e], t, id) {
      if id in u.exec.runs {
        HappenedBefore(env, limit, s, run, e, u.exec.owner[id], Backup.Create(Some(id)), u.exec.runs[id].startTime);
      }
    }
    forall j: nat | j < |t.exec.tasks| ensures Ended(env, limit, s, run + [e], t, j) {
      var before := E.BackupOf(u.exec.tasks[j]);
      assert Ended(env, limit, s, run, u, j);
      if j == i && step.RunProcess? {
        assert Started(env, limit, s, run, u, Backup.RunIdOf(before).value);
        assert HappenedAt(env, limit, s, run + [e], i, Backup.RunProcess(step.outcome), u.clock);
      } else if Backup.EndOf(before).Some? {
        var end, id := Backup.EndOf(before).value, Backup.RunIdOf(before).value;
        HappenedBefore(env, limit, s, run, e, j, Backup.RunProcess(end.outcome), end.at);
        assert t.exec.runs[id].startTime == u.exec.runs[id].startTime;
      }
    }
    TimedFrom(env, limit, s, run + [e], t);
  }

  lemma TimedGives(env: S.Env, limit: nat, s: State, run: seq<Event>, t: State)
    requires Timed(env, limit, s, run, t)
    ensures t.exec.owner.Keys == t.exec.runs.Keys
    ensures forall id :: id in t.exec.runs ==> Started(env, limit, s, run, t, id)
    ensures forall i: nat :: i < |t.exec.tasks| ==> Ended(env, limit, s, run, t, i)
  {
  }

  lemma TimedFrom(env: S.Env, limit: nat, s: State, run: seq<Event>, t: State)
    requires t.exec.owner.Keys == t.exec.runs.Keys
    requires forall id :: id in t.exec.runs ==> Started(env, limit, s, run, t, id)
    requires forall i: nat :: i < |t.exec.tasks| ==> Ended(env, limit, s, run, t, i)
    ensures Timed(env, limit, s, run, t)
  {
  }

  /** What a backup step does to records and tasks, as far as their times go. */
  lemma BackupStep(env: S.Env, limit: nat, u: State, start: Time, i: nat, step: Backup.Event)
    requires Inv(env, u, start) && Next(env, limit, u, Task(i, E.Step(step))).Some?
    ensures var t := Next(env, limit, u, Task(i, E.Step(step))).value;
      && t.clock == u.clock && t.exec.owner.Keys == t.exec.runs.Keys
      && i < |u.exec.tasks| && |t.exec.tasks| == |u.exec.tasks|
      && (forall j :: 0 <= j < |u.exec.tasks| && j != i ==> t.exec.tasks[j] == u.exec.tasks[j])
      && (forall id :: id in u.exec.runs ==>
            && id in t.exec.runs && t.exec.runs[id].startTime == u.exec.runs[id].startTime
            && id in t.exec.owner && id in u.exec.owner && t.exec.owner[id] == u.exec.owner[id])
      && (forall id :: id in t.exec.runs && id !in u.exec.runs ==>
            t.exec.owner[id] == i && step == Backup.Create(Some(id)) && t.exec.runs[id].startTime == u.clock)
      && var p, q := E.BackupOf(u.exec.tasks[i]), E.BackupOf(t.exec.tasks[i]);
      && (Backup.RunIdOf(p).Some? ==> Backup.RunIdOf(q) == Backup.RunIdOf(p) && Backup.RunIdOf(p).value in u.exec.runs)
      && (step.RunProcess? ==> Backup.RunIdOf(p).Some?)
      && Backup.EndOf(q) == if step.RunProcess? then Some(Backup.End(step.outcome, u.clock)) else Backup.EndOf(p)
  {
    hide S.Inv, Logged, Conserved, S.Next, E.RunningSound, E.RunOk, Backup.WellFinished, Backup.Conclude, Backup.Next;
    assert E.TaskOk(u.exec, i);
    Backup.FitsStep(u.exec.tasks[i].phase.job, u.exec.runs, u.exec.tasks[i].phase.backup, u.clock, step);
  }

  lemma {:induction false} TimedExec(env: S.Env, limit: nat, s: State, run: seq<Event>)
    requires Init(s) && Exec(env, limit, s, run).Some?
    ensures Timed(env, limit, s, run, Exec(env, limit, s, run).value)
    decreases |run|
  {
    hide Next, Inv, HappenedAt;
    if run != [] {
      var n := |run| - 1;
      ExecLast(env, limit, s, run);
      TimedExec(env, limit, s, run[..n]);
      InitInv(env, s);
      InvExec(env, limit, s, s.clock, run[..n]);
      var u, e := Exec(env, limit, s, run[..n]).value, run[n];
      assert run == run[..n] + [e];
      if e.Task? && e.action.Step? {
        TimedBackup(env, limit, s, s.clock, run[..n], u, e.i, e.action.step);
      } else {
        TimedOther(env, limit, s, run[..n], u, e);
      }
    }
  }

  /**
   Over any run of the process: a finished record is what the end of a restic process comes to that its own task saw,
   at the instant of that step; it started at the instant its task created it, and start, end and clock are in order.
   */
  lemma FinishedRuns(env: S.Env, limit: nat, s: State, run: seq<Event>, id: int)
    requires Init(s) && Exec(env, limit, s, run).Some?
    requires var t := Exec(env, limit, s, run).value.exec; id in t.runs && t.runs[id].result.status != Running
    ensures var t := Exec(env, limit, s, run).value;
      && id in t.exec.owner
      && var row, i := t.exec.runs[id], t.exec.owner[id];
      && row.result.endTime.Some? && row.startTime <= row.result.endTime.value <= t.clock
      && HappenedAt(env, limit, s, run, i, Backup.Create(Some(id)), row.startTime)
      && exists outcome ::
        && row.result == Backup.Conclude(id, outcome, row.result.endTime.value).update
        && HappenedAt(env, limit, s, run, i, Backup.RunProcess(outcome), row.result.endTime.value)
  {
    hide Exec, HappenedAt, Timed, S.Inv, Logged, Conserved, Backup.Conclude;
    var t := Exec(env, limit, s, run).value;
    InitInv(env, s);
    InvExec(env, limit, s, s.clock, run);
    TimedExec(env, limit, s, run);
    TimedGives(env, limit, s, run, t);
    assert E.RunOk(t.exec, id);
    var i := t.exec.owner[id];
    assert E.TaskOk(t.exec, i);
    E.ReturnedRun(t.exec, i);
    assert Ended(env, limit, s, run, t, i) && Started(env, limit, s, run, t, id);
    var end := Backup.EndOf(E.BackupOf(t.exec.tasks[i])).value;
    assert t.exec.runs[id].result == Backup.Conclude(id, end.outcome, end.at).update;
  }
}

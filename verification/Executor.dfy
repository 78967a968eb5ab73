/** The job executor: one task for each message, and the map of running jobs that the tasks share. */
module Executor {
  import opened Wrappers
  import opened Models
  import opened Queries
  import Backup

  // ---------- admission ----------

  /** How many entries of the map are for this device. */
  function CountFor(running: map<string, Uuid>, device: string): nat {
    |set d | d in running && d == device|
  }

  predicate Admits(running: map<string, Uuid>, device: string, limit: nat) {
    CountFor(running, device) < limit
  }

  /** The map has one entry for a device at most, so that any limit above one admits everything. */
  lemma AdmitsIff(running: map<string, Uuid>, device: string, limit: nat)
    ensures CountFor(running, device) == if device in running then 1 else 0
    ensures Admits(running, device, limit) <==> limit >= 2 || (limit == 1 && device !in running)
  {
    assert (set d | d in running && d == device) == if device in running then {device} else {};
  }

  // ---------- tasks ----------

  datatype Phase =
    | Spawned
    | LookupFailed
    | NotFound
    | Found(job: BackupJob)
    | Skipped
    | Admitted(job: BackupJob)
    | Active(job: BackupJob, backup: Backup.Phase)
    | Completed(job: BackupJob, backup: Backup.Phase)

  datatype Task = Task(execution: JobExecution, phase: Phase)

  /** `owner` records which task created each run. */
  datatype State = State(
    tasks: seq<Task>,
    running: map<string, Uuid>,
    runs: map<int, Run>,
    owner: map<int, int>)

  datatype Event =
    | Lookup(found: Result<Option<BackupJob>, AppError>)
    | CanExecute
    | MarkRunning
    | Step(step: Backup.Event)
    | MarkCompleted

  /** The state after task i takes a step, if the step is possible. */
  function Next(s: State, limit: nat, clock: Time, i: nat, e: Event): Option<State> {
    if i >= |s.tasks| then
      None
    else
      match (s.tasks[i].phase, e)
      case (Spawned, Lookup(Err(_))) => Some(Move(s, i, LookupFailed))
      case (Spawned, Lookup(Ok(None))) => Some(Move(s, i, NotFound))
      case (Spawned, Lookup(Ok(Some(job)))) =>
        if job.id == s.tasks[i].execution.jobId then Some(Move(s, i, Found(job))) else None
      case (Found(job), CanExecute) =>
        Some(Move(s, i, if Admits(s.running, job.deviceId, limit) then Admitted(job) else Skipped))
      case (Admitted(job), MarkRunning) =>
        Some(Move(s, i, Active(job, Backup.Starting)).(
               running := s.running[job.deviceId := s.tasks[i].execution.jobId]))
      case (Active(job, backup), Step(step)) =>
        (match Backup.Next(job, s.runs, backup, clock, step)
         case None => None
         case Some(effect) =>
           Some(Move(s, i, Active(job, effect.phase)).(
                runs := effect.runs,
                owner := map id | id in effect.runs :: if id in s.owner then s.owner[id] else i)))
      case (Active(job, Returned(id, ended, result)), MarkCompleted) =>
        Some(Move(s, i, Completed(job, Backup.Returned(id, ended, result))).(running := s.running - {job.deviceId}))
      case _ => None
  }

  function Move(s: State, i: nat, phase: Phase): State
    requires i < |s.tasks|
  {
    s.(tasks := s.tasks[i := s.tasks[i].(phase := phase)])
  }

  function Spawn(s: State, execution: JobExecution): State {
    s.(tasks := s.tasks + [Task(execution, Spawned)])
  }

  function Executions(tasks: seq<Task>): seq<JobExecution> {
    seq(|tasks|, i requires 0 <= i < |tasks| => tasks[i].execution)
  }

  // ---------- what a task is doing ----------

  /** The task has been marked as running and not yet as completed. */
  predicate ActiveOn(t: Task, device: string) {
    t.phase.Active? && t.phase.job.deviceId == device
  }

  /** The task is between the check of the limit and the mark. */
  predicate AdmittedOn(t: Task, device: string) {
    t.phase.Admitted? && t.phase.job.deviceId == device
  }

  predicate InProgress(t: Task) {
    t.phase.Spawned? || t.phase.Found? || t.phase.Admitted? || t.phase.Active?
  }

  function BackupOf(t: Task): Backup.Phase {
    if t.phase.Active? || t.phase.Completed? then t.phase.backup else Backup.Starting
  }

  function RunIdOf(t: Task): Option<int> {
    Backup.RunIdOf(BackupOf(t))
  }

  // ---------- what every step keeps, at every limit and in every interleaving ----------

  /** Task i and its run: the job is the one asked for, the run is its own, and the two are in step. */
  ghost predicate TaskOk(s: State, i: nat)
    requires i < |s.tasks|
  {
    var t := s.tasks[i];
    && ((t.phase.Found? || t.phase.Admitted? || t.phase.Active? || t.phase.Completed?) ==>
          t.phase.job.id == t.execution.jobId)
    && (t.phase.Completed? ==> t.phase.backup.Returned?)
    && Backup.Fits(s.runs, BackupOf(t))
    && (RunIdOf(t).Some? ==> RunIdOf(t).value in s.owner && s.owner[RunIdOf(t).value] == i)
  }

  ghost predicate RunOk(s: State, id: int)
    requires id in s.runs
  {
    && id in s.owner && 0 <= s.owner[id] < |s.tasks| && RunIdOf(s.tasks[s.owner[id]]) == Some(id)
    && s.runs[id].jobId == s.tasks[s.owner[id]].execution.jobId && s.runs[id].triggeredBy == "manual"
    && Backup.WellFinished(s.runs[id].result)
  }

  ghost predicate Inv(s: State) {
    && (forall i: nat :: i < |s.tasks| ==> TaskOk(s, i))
    && s.owner.Keys == s.runs.Keys
    && (forall id :: id in s.runs ==> RunOk(s, id))
    && RunningSound(s)
  }

  /** Each entry of the map belongs to a task that is active on that device for that job. */
  ghost predicate RunningSound(s: State) {
    forall d :: d in s.running ==> exists i: nat :: i < |s.tasks| && Holds(s.tasks[i], d, s.running[d])
  }

  predicate Holds(t: Task, device: string, jobId: Uuid) {
    ActiveOn(t, device) && t.execution.jobId == jobId
  }

  lemma RunningMove(s: State, i: nat, phase: Phase, running: map<string, Uuid>)
    requires RunningSound(s) && i < |s.tasks|
    requires forall d :: d in running ==>
      || (d in s.running && running[d] == s.running[d]
          && (ActiveOn(s.tasks[i], d) ==> ActiveOn(s.tasks[i].(phase := phase), d)))
      || Holds(s.tasks[i].(phase := phase), d, running[d])
    ensures RunningSound(Move(s, i, phase).(running := running))
  {
    var t := Move(s, i, phase).(running := running);
    forall d | d in t.running ensures exists j: nat :: j < |t.tasks| && Holds(t.tasks[j], d, t.running[d]) {
      if Holds(t.tasks[i], d, running[d]) {
      } else {
        var j: nat :| j < |s.tasks| && Holds(s.tasks[j], d, s.running[d]);
        assert Holds(t.tasks[j], d, t.running[d]);
      }
    }
  }

  /** A step that leaves the runs alone. */
  lemma InvMove(s: State, i: nat, phase: Phase, running: map<string, Uuid>)
    requires Inv(s) && i < |s.tasks|
    requires BackupOf(s.tasks[i].(phase := phase)) == BackupOf(s.tasks[i])
    requires (phase.Found? || phase.Admitted? || phase.Active? || phase.Completed?) ==>
      phase.job.id == s.tasks[i].execution.jobId
    requires phase.Completed? ==> phase.backup.Returned?
    requires RunningSound(Move(s, i, phase).(running := running))
    ensures Inv(Move(s, i, phase).(running := running))
  {
    hide Backup.Fits, RunningSound, Backup.WellFinished;
    var t := Move(s, i, phase).(running := running);
    forall j: nat | j < |t.tasks| ensures TaskOk(t, j) {
      assert TaskOk(s, j);
    }
    forall id | id in t.runs ensures RunOk(t, id) {
      assert RunOk(s, id);
    }
  }

  /** A step of the backup of task i. */
  lemma InvBackup(s: State, limit: nat, clock: Time, i: nat, step: Backup.Event)
    requires Inv(s) && i < |s.tasks| && s.tasks[i].phase.Active?
    requires Next(s, limit, clock, i, Step(step)).Some?
    ensures Inv(Next(s, limit, clock, i, Step(step)).value)
  {
    var t := Next(s, limit, clock, i, Step(step)).value;
    var job, backup := s.tasks[i].phase.job, s.tasks[i].phase.backup;
    assert TaskOk(s, i);
    Backup.FitsStep(job, s.runs, backup, clock, step);
    RunningMove(s, i, t.tasks[i].phase, s.running);
    assert RunningSound(t);
    BackupTasks(s, t, i, job, backup, clock, step);
    BackupRuns(s, t, i, job, backup, clock, step);
  }

  /** The states before and after a backup step of task i. */
  ghost predicate BackupStep(s: State, t: State, i: nat, job: BackupJob, backup: Backup.Phase, clock: Time,
                             step: Backup.Event) {
    && Inv(s) && i < |s.tasks| && s.tasks[i].phase == Active(job, backup)
    && Backup.Next(job, s.runs, backup, clock, step).Some?
    && var effect := Backup.Next(job, s.runs, backup, clock, step).value;
    && t == Move(s, i, Active(job, effect.phase)).(
              runs := effect.runs,
              owner := map id | id in effect.runs :: if id in s.owner then s.owner[id] else i)
  }

  lemma BackupTasks(s: State, t: State, i: nat, job: BackupJob, backup: Backup.Phase, clock: Time, step: Backup.Event)
    requires BackupStep(s, t, i, job, backup, clock, step)
    ensures forall j: nat :: j < |t.tasks| ==> TaskOk(t, j)
  {
    assert TaskOk(s, i);
    Backup.FitsStep(job, s.runs, backup, clock, step);
    hide Backup.Next, Backup.WellFinished;
    forall j: nat | j < |t.tasks| ensures TaskOk(t, j) {
      assert TaskOk(s, j);
      if j != i && RunIdOf(s.tasks[j]).Some? {
        var id := RunIdOf(s.tasks[j]).value;
        assert RunIdOf(s.tasks[i]) != Some(id);
        assert t.runs[id] == s.runs[id];
      }
    }
  }

  lemma BackupRuns(s: State, t: State, i: nat, job: BackupJob, backup: Backup.Phase, clock: Time, step: Backup.Event)
    requires BackupStep(s, t, i, job, backup, clock, step)
    ensures t.owner.Keys == t.runs.Keys
    ensures forall id :: id in t.runs ==> RunOk(t, id)
  {
    assert TaskOk(s, i);
    Backup.FitsStep(job, s.runs, backup, clock, step);
    hide Backup.Next;
    forall id | id in t.runs ensures RunOk(t, id) {
      if id in s.runs {
        assert RunOk(s, id);
      }
    }
  }

  /** Every step of every task keeps the invariant. */
  lemma InvNext(s: State, limit: nat, clock: Time, i: nat, e: Event)
    requires Inv(s) && Next(s, limit, clock, i, e).Some?
    ensures Inv(Next(s, limit, clock, i, e).value)
  {
    hide Inv, RunningSound, Admits;
    var t := Next(s, limit, clock, i, e).value;
    if e.Step? {
      InvBackup(s, limit, clock, i, e.step);
    } else {
      InvGives(s, i);
      RunningMove(s, i, t.tasks[i].phase, t.running);
      InvMove(s, i, t.tasks[i].phase, t.running);
    }
  }

  lemma InvGives(s: State, i: nat)
    requires Inv(s) && i < |s.tasks|
    ensures RunningSound(s) && TaskOk(s, i)
  {
  }

  lemma InvSpawn(s: State, execution: JobExecution)
    requires Inv(s)
    ensures Inv(Spawn(s, execution))
  {
    var t := Spawn(s, execution);
    forall j: nat | j < |t.tasks| ensures TaskOk(t, j) {
      if j < |s.tasks| { assert TaskOk(s, j); }
    }
    forall id | id in t.runs ensures RunOk(t, id) {
      assert RunOk(s, id);
    }
    forall d | d in t.running ensures exists j: nat :: j < |t.tasks| && Holds(t.tasks[j], d, t.running[d]) {
      var j: nat :| j < |s.tasks| && Holds(s.tasks[j], d, s.running[d]);
      assert Holds(t.tasks[j], d, t.running[d]);
    }
  }

  /** Once no task is in progress, the map of running jobs is empty. */
  lemma NothingRunsAtRest(s: State)
    requires Inv(s)
    ensures (forall i: nat :: i < |s.tasks| ==> !InProgress(s.tasks[i])) ==> s.running == map[]
  {
    forall d | d in s.running ensures exists i: nat :: i < |s.tasks| && InProgress(s.tasks[i]) {
      var i: nat :| i < |s.tasks| && Holds(s.tasks[i], d, s.running[d]);
      assert InProgress(s.tasks[i]);
    }
  }

  /**
   When a call has returned, the error it returned tells how its run stands: a success exactly for Ok, still
   unfinished exactly if the command could not be constructed or the finishing update failed.
   */
  lemma ReturnedRun(s: State, i: nat)
    requires Inv(s) && i < |s.tasks| && BackupOf(s.tasks[i]).Returned? && RunIdOf(s.tasks[i]).Some?
    ensures var result, id := BackupOf(s.tasks[i]).result, RunIdOf(s.tasks[i]).value;
      && id in s.runs && s.runs[id].jobId == s.tasks[i].execution.jobId
      && (s.runs[id].result.status == Success <==> result == Ok(id))
      && (s.runs[id].result.status == Running <==> result.Err? && Backup.LeavesRunning(result.error))
      && (s.runs[id].result.status == Failed ==>
            var u := s.runs[id].result; u.errorMessage.Some? && u.errorMessage.value != "" && u.snapshotId.None?)
      && (s.runs[id].result.status != Running ==>
            && Backup.EndOf(BackupOf(s.tasks[i])).Some?
            && var end := Backup.EndOf(BackupOf(s.tasks[i])).value;
            && s.runs[id].result.endTime == Some(end.at)
            && s.runs[id].result == Backup.Conclude(id, end.outcome, end.at).update)
  {
    assert TaskOk(s, i);
    assert RunOk(s, RunIdOf(s.tasks[i]).value);
  }

  /** A step changes an existing run only to finish it, and only a step of the task that created it does so. */
  lemma RunChangesOnce(s: State, limit: nat, clock: Time, i: nat, e: Event, id: int)
    requires Inv(s) && Next(s, limit, clock, i, e).Some? && id in s.runs
    ensures var t := Next(s, limit, clock, i, e).value;
      && id in t.runs && t.owner[id] == s.owner[id]
      && (t.runs[id] == s.runs[id] ||
          (s.owner[id] == i && e == Step(Backup.Finish(true)) && Backup.Finished(s.runs[id], t.runs[id])))
  {
    var t := Next(s, limit, clock, i, e).value;
    if e.Step? {
      assert TaskOk(s, i);
      Backup.FitsStep(s.tasks[i].phase.job, s.runs, s.tasks[i].phase.backup, clock, e.step);
    }
  }

  // ---------- mutual exclusion at limit 1 ----------

  /** No two tasks of one device are between the check of the limit and the mark. */
  ghost predicate NoRace(s: State) {
    forall i: nat, j: nat, d: string ::
      i < j < |s.tasks| && AdmittedOn(s.tasks[i], d) ==> !AdmittedOn(s.tasks[j], d)
  }

  predicate Claims(t: Task, device: string) {
    AdmittedOn(t, device) || ActiveOn(t, device)
  }

  /** One task at most has a claim on a device, and the map shows exactly the devices with an active task. */
  ghost predicate Exclusive(s: State) {
    && (forall i: nat, j: nat, d: string :: i < j < |s.tasks| && Claims(s.tasks[i], d) ==> !Claims(s.tasks[j], d))
    && (forall i: nat :: i < |s.tasks| && s.tasks[i].phase.Active? ==>
          s.tasks[i].phase.job.deviceId in s.running
            && s.running[s.tasks[i].phase.job.deviceId] == s.tasks[i].execution.jobId)
    && RunningSound(s)
  }

  lemma ExclusiveStep(s: State, clock: Time, i: nat, e: Event)
    requires Inv(s) && Exclusive(s) && Next(s, 1, clock, i, e).Some? && NoRace(Next(s, 1, clock, i, e).value)
    ensures Exclusive(Next(s, 1, clock, i, e).value)
  {
    hide Backup.Next, Inv, RunningSound, Admits, CountFor, Exclusive, NoRace;
    var t := Next(s, 1, clock, i, e).value;
    InvNext(s, 1, clock, i, e);
    InvGives(t, i);
    if e.CanExecute? {
      AdmitsIff(s.running, s.tasks[i].phase.job.deviceId, 1);
    }
    if s.tasks[i].phase.Active? {
      ExclusiveHolds(s, i);
    }
    ExclusiveKept(s, t, i, e);
  }

  lemma ExclusiveHolds(s: State, i: nat)
    requires Exclusive(s) && i < |s.tasks| && s.tasks[i].phase.Active?
    ensures var d := s.tasks[i].phase.job.deviceId;
      s.running == s.running[d := s.tasks[i].execution.jobId]
  {
    var d := s.tasks[i].phase.job.deviceId;
    assert s.running == s.running[d := s.running[d]];
  }

  /** At limit 1 a task is admitted only to a device that no task is active on. */
  lemma ExclusiveKept(s: State, t: State, i: nat, e: Event)
    requires Exclusive(s) && RunningSound(t) && NoRace(t)
    requires i < |s.tasks| && |t.tasks| == |s.tasks| && t.tasks == s.tasks[i := t.tasks[i]]
    requires t.tasks[i].execution == s.tasks[i].execution
    requires t.tasks[i].phase.Admitted? ==> t.tasks[i].phase.job.deviceId !in s.running && t.running == s.running
    requires t.tasks[i].phase.Active? ==>
      && Claims(s.tasks[i], t.tasks[i].phase.job.deviceId)
      && t.running == s.running[t.tasks[i].phase.job.deviceId := t.tasks[i].execution.jobId]
    requires !t.tasks[i].phase.Admitted? && !t.tasks[i].phase.Active? ==>
      t.running == if s.tasks[i].phase.Active? then s.running - {s.tasks[i].phase.job.deviceId} else s.running
    ensures Exclusive(t)
  {
    hide RunningSound;
    forall j: nat, d: string | j < |t.tasks| && j != i && Claims(t.tasks[j], d)
      ensures !Claims(t.tasks[i], d)
    {
      NoClash(s, i, j, d);
      RaceFree(t, i, j, d);
    }
    forall j: nat, k: nat, d: string | j < k < |t.tasks| && Claims(t.tasks[j], d) ensures !Claims(t.tasks[k], d) {
      NoClash(s, j, k, d);
    }
    forall j: nat | j < |t.tasks| && t.tasks[j].phase.Active?
      ensures t.tasks[j].phase.job.deviceId in t.running
              && t.running[t.tasks[j].phase.job.deviceId] == t.tasks[j].execution.jobId
    {
      if j != i {
        NoClash(s, i, j, t.tasks[j].phase.job.deviceId);
        assert Claims(s.tasks[j], t.tasks[j].phase.job.deviceId);
      }
    }
  }

  lemma RaceFree(s: State, j: nat, k: nat, d: string)
    requires NoRace(s) && j < |s.tasks| && k < |s.tasks| && j != k
    ensures !(AdmittedOn(s.tasks[j], d) && AdmittedOn(s.tasks[k], d))
  {
    if j < k {
      assert AdmittedOn(s.tasks[j], d) ==> !AdmittedOn(s.tasks[k], d);
    } else {
      assert AdmittedOn(s.tasks[k], d) ==> !AdmittedOn(s.tasks[j], d);
    }
  }

  lemma NoClash(s: State, j: nat, k: nat, d: string)
    requires Exclusive(s) && j < |s.tasks| && k < |s.tasks| && j != k
    ensures !(Claims(s.tasks[j], d) && Claims(s.tasks[k], d))
  {
    if j < k {
      assert Claims(s.tasks[j], d) ==> !Claims(s.tasks[k], d);
    } else {
      assert Claims(s.tasks[k], d) ==> !Claims(s.tasks[j], d);
    }
  }

  /** Exclusion means one active backup for a device, and the keys of the map are the devices with one. */
  lemma ExclusiveMeans(s: State, d: string)
    requires Exclusive(s)
    ensures forall i: nat, j: nat ::
              i < |s.tasks| && j < |s.tasks| && ActiveOn(s.tasks[i], d) && ActiveOn(s.tasks[j], d) ==> i == j
    ensures d in s.running <==> exists i: nat :: i < |s.tasks| && ActiveOn(s.tasks[i], d)
  {
    if d in s.running {
      var i: nat :| i < |s.tasks| && Holds(s.tasks[i], d, s.running[d]);
      assert ActiveOn(s.tasks[i], d);
    }
    forall i: nat, j: nat | i < |s.tasks| && j < |s.tasks| && ActiveOn(s.tasks[i], d) && ActiveOn(s.tasks[j], d)
      ensures i == j
    {
      if i < j {
        assert Claims(s.tasks[i], d) && Claims(s.tasks[j], d);
      } else if j < i {
        assert Claims(s.tasks[j], d) && Claims(s.tasks[i], d);
      }
    }
  }

  /** The hypothesis is needed: from any race, at any limit, the two marks make two backups of one device active. */
  lemma RaceBreaksExclusion(s: State, limit: nat, clock: Time, i: nat, j: nat, d: string)
    requires i < j < |s.tasks| && AdmittedOn(s.tasks[i], d) && AdmittedOn(s.tasks[j], d)
    ensures var s1 := Next(s, limit, clock, i, MarkRunning);
      && s1.Some?
      && var s2 := Next(s1.value, limit, clock, j, MarkRunning);
      && s2.Some? && ActiveOn(s2.value.tasks[i], d) && ActiveOn(s2.value.tasks[j], d) && !Exclusive(s2.value)
  {
    var s1 := Next(s, limit, clock, i, MarkRunning).value;
    var s2 := Next(s1, limit, clock, j, MarkRunning).value;
    assert Claims(s2.tasks[i], d) && Claims(s2.tasks[j], d);
  }

  // ---------- the object, one job at a time ----------

  class JobExecutor {
    const maxConcurrentPerDevice: nat
    const table: Backup.RunTable
    var running: map<string, Uuid>
    var spawned: seq<Task>

    constructor (table: Backup.RunTable, limit: nat)
      ensures this.table == table && maxConcurrentPerDevice == limit && running == map[] && spawned == []
    {
      this.table := table;
      maxConcurrentPerDevice := limit;
      running := map[];
      spawned := [];
    }

    method CanExecute(device: string) returns (ok: bool)
      ensures ok <==> maxConcurrentPerDevice >= 2 || (maxConcurrentPerDevice == 1 && device !in running)
    {
      AdmitsIff(running, device, maxConcurrentPerDevice);
      var count := |set d | d in running && d == device|;
      ok := count < maxConcurrentPerDevice;
    }

    method MarkRunning(device: string, jobId: Uuid)
      modifies this`running
      ensures running == old(running)[device := jobId]
    {
      running := running[device := jobId];
    }

    method MarkCompleted(device: string)
      modifies this`running
      ensures running == old(running) - {device}
    {
      running := running - {device};
    }

    /**
     With no other task in between: the device is released however the backup ends, and a job that is not admitted
     leaves no run; the run of one that is records this job, its start and its end.
     */
    method ExecuteJob(execution: JobExecution, found: Result<Option<BackupJob>, AppError>, newId: Option<int>,
                      constructError: Option<AppError>, outcome: Backup.ProcessOutcome, updateOk: bool,
                      start: Time, end: Time)
      returns (r: Result<(), AppError>)
      requires newId.Some? ==> newId.value !in table.runs
      requires constructError.Some? ==> Backup.ConstructionError(constructError.value)
      requires table != this as object
      modifies this`running, table
      ensures r == if found.Err? then Err(found.error) else Ok(())
      ensures
        var admitted := found.Ok? && found.value.Some?
          && (|| maxConcurrentPerDevice >= 2
              || (maxConcurrentPerDevice == 1 && found.value.value.deviceId !in old(running)));
        && running == (if admitted then old(running) - {found.value.value.deviceId} else old(running))
        && (!admitted || newId.None? ==> table.runs == old(table.runs))
        && (admitted && newId.Some? ==>
              && newId.value in table.runs
              && var job, row := found.value.value, table.runs[newId.value];
              && table.runs == old(table.runs)[newId.value := row]
              && row == Run(job.id, job.deviceId, start, "manual", row.result)
              && (constructError.Some? || !updateOk ==>
                    row.result == RunUpdate(None, Running, None, None, None, None, None, None, None, None, None))
              && (constructError.None? && updateOk ==>
                    row.result.endTime == Some(end)
                    && row.result == Backup.Conclude(newId.value, outcome, end).update))
    {
      hide Backup.WellFinished, Backup.Conclude, Admits, CountFor;
      if found.Err? {
        return Err(found.error);
      }
      match found.value
      case None =>
        r := Ok(());
      case Some(job) =>
        AdmitsIff(running, job.deviceId, maxConcurrentPerDevice);
        var can := CanExecute(job.deviceId);
        if !can {
          return Ok(());
        }
        MarkRunning(job.deviceId, execution.jobId);
        var result := Backup.ExecuteBackup(table, job, newId, constructError, outcome, updateOk, start, end);
        MarkCompleted(job.deviceId);
        r := Ok(());
    }

    /** Receives until the queue is closed and empty; each message becomes a task, in order. */
    method Start(queue: seq<JobExecution>)
      modifies this`spawned
      ensures Executions(spawned) == Executions(old(spawned)) + queue
      ensures spawned[..|old(spawned)|] == old(spawned)
      ensures forall k :: |old(spawned)| <= k < |spawned| ==> spawned[k].phase == Spawned
    {
      var n := 0;
      while n < |queue|
        invariant 0 <= n <= |queue| && |spawned| == |old(spawned)| + n
        invariant spawned[..|old(spawned)|] == old(spawned)
        invariant forall k :: 0 <= k < n ==> spawned[|old(spawned)| + k] == Task(queue[k], Spawned)
      {
        spawned := spawned + [Task(queue[n], Spawned)];
        n := n + 1;
      }
      forall k | |old(spawned)| <= k < |spawned| ensures spawned[k] == Task(queue[k - |old(spawned)|], Spawned) {
        assert spawned[k] == spawned[|old(spawned)| + (k - |old(spawned)|)];
      }
      forall k | 0 <= k < |spawned| ensures Executions(spawned)[k] == (Executions(old(spawned)) + queue)[k] {
        if k < |old(spawned)| {
          assert spawned[k] == spawned[..|old(spawned)|][k];
        }
      }
    }
  }
}

/** The executor's object against its tasks: one `execute_job` call is a run of one task, with nothing in between. */
module TaskRuns {
  import opened Wrappers
  import opened Models
  import opened Queries
  import opened Executor
  import Backup

  datatype TaskStep = TaskStep(clock: Time, event: Event)

  /** The state after task i has taken these steps, if all of them are possible. */
  function Exec(s: State, limit: nat, i: nat, steps: seq<TaskStep>): Option<State>
    decreases |steps|
  {
    if steps == [] then
      Some(s)
    else
      match Next(s, limit, steps[0].clock, i, steps[0].event)
      case None => None
      case Some(t) => Exec(t, limit, i, steps[1..])
  }

  /** The steps of a backup call with these answers, at the instants the call reads. */
  function BackupSteps(newId: Option<int>, constructError: Option<AppError>, outcome: Backup.ProcessOutcome,
                       updateOk: bool, start: Time, end: Time): seq<TaskStep> {
    [TaskStep(start, Step(Backup.Create(newId)))] +
    if newId.None? then
      []
    else
      [TaskStep(start, Step(Backup.Construct(constructError)))] +
      if constructError.Some? then
        []
      else
        [TaskStep(end, Step(Backup.RunProcess(outcome))), TaskStep(end, Step(Backup.Finish(updateOk)))]
  }

  /** The result of that call. */
  function ResultOf(newId: Option<int>, constructError: Option<AppError>, outcome: Backup.ProcessOutcome,
                    updateOk: bool, end: Time): Result<int, AppError> {
    if newId.None? then Err(QueryFailed)
    else if constructError.Some? then Err(constructError.value)
    else if !updateOk then Err(QueryFailed)
    else Backup.Conclude(newId.value, outcome, end).result
  }

  lemma {:induction false} ExecConcat(s: State, limit: nat, i: nat, a: seq<TaskStep>, b: seq<TaskStep>)
    requires Exec(s, limit, i, a).Some?
    ensures Exec(s, limit, i, a + b) == Exec(Exec(s, limit, i, a).value, limit, i, b)
    decreases |a|
  {
    hide Next;
    if a == [] {
      assert a + b == b;
    } else {
      assert (a + b)[1..] == a[1..] + b;
      ExecConcat(Next(s, limit, a[0].clock, i, a[0].event).value, limit, i, a[1..], b);
    }
  }

  lemma ExecOne(s: State, limit: nat, i: nat, step: TaskStep)
    ensures Exec(s, limit, i, [step]) == Next(s, limit, step.clock, i, step.event)
  {
    hide Next;
    assert [step][1..] == [];
  }

  /** A backup call of an active task: the steps come to the record and the result that the object's call comes to. */
  lemma BackupIsRun(s: State, limit: nat, i: nat, job: BackupJob, newId: Option<int>, constructError: Option<AppError>,
                    outcome: Backup.ProcessOutcome, updateOk: bool, start: Time, end: Time) returns (t: State)
    requires i < |s.tasks| && s.tasks[i].phase == Active(job, Backup.Starting)
    requires newId.Some? ==> newId.value !in s.runs
    requires constructError.Some? ==> Backup.ConstructionError(constructError.value)
    ensures Exec(s, limit, i, BackupSteps(newId, constructError, outcome, updateOk, start, end)) == Some(t)
    ensures t.running == s.running && |t.tasks| == |s.tasks|
    ensures t.tasks[i].execution == s.tasks[i].execution && t.tasks[i].phase.Active? && t.tasks[i].phase.job == job
    ensures t.tasks[i].phase.backup.Returned?
      && t.tasks[i].phase.backup.result == ResultOf(newId, constructError, outcome, updateOk, end)
    ensures t.tasks == s.tasks[i := t.tasks[i]]
    ensures newId.None? ==> t.runs == s.runs
    ensures newId.Some? ==>
      t.runs == s.runs[newId.value := Run(job.id, job.deviceId, start, "manual",
                                          if constructError.Some? || !updateOk then NOT_FINISHED
                                          else Backup.Conclude(newId.value, outcome, end).update)]
  {
    hide Exec, Next, Backup.Conclude;
    var steps := BackupSteps(newId, constructError, outcome, updateOk, start, end);
    var s1 := Moves(s, limit, i, start, Backup.Create(newId));
    assert steps == [steps[0]] + steps[1..];
    ExecFirst(s, limit, i, steps[0], steps[1..]);
    t := s1;
    if newId.Some? {
      var s2 := Moves(s1, limit, i, start, Backup.Construct(constructError));
      assert steps[1..] == [steps[1]] + steps[2..];
      ExecFirst(s1, limit, i, steps[1], steps[2..]);
      t := s2;
      if constructError.None? {
        var s3 := Moves(s2, limit, i, end, Backup.RunProcess(outcome));
        t := Moves(s3, limit, i, end, Backup.Finish(updateOk));
        assert steps[2..] == [steps[2]] + steps[3..];
        ExecFirst(s2, limit, i, steps[2], steps[3..]);
        assert steps[3..] == [steps[3]] + steps[4..];
        ExecFirst(s3, limit, i, steps[3], steps[4..]);
      }
    }
    ExecNone(t, limit, i);
  }

  /** A step of the backup, in what it does to the task and the records. */
  lemma Moves(s: State, limit: nat, i: nat, clock: Time, step: Backup.Event) returns (t: State)
    requires i < |s.tasks| && s.tasks[i].phase.Active?
    requires Backup.Next(s.tasks[i].phase.job, s.runs, s.tasks[i].phase.backup, clock, step).Some?
    ensures Next(s, limit, clock, i, Step(step)) == Some(t)
    ensures var effect := Backup.Next(s.tasks[i].phase.job, s.runs, s.tasks[i].phase.backup, clock, step).value;
      && t.runs == effect.runs && t.running == s.running
      && t.tasks == s.tasks[i := s.tasks[i].(phase := Active(s.tasks[i].phase.job, effect.phase))]
  {
    hide Backup.Next;
    t := Next(s, limit, clock, i, Step(step)).value;
  }

  lemma ExecFirst(s: State, limit: nat, i: nat, step: TaskStep, rest: seq<TaskStep>)
    requires Next(s, limit, step.clock, i, step.event).Some?
    ensures Exec(s, limit, i, [step] + rest) == Exec(Next(s, limit, step.clock, i, step.event).value, limit, i, rest)
  {
    hide Next;
    assert ([step] + rest)[1..] == rest;
  }

  lemma ExecNone(s: State, limit: nat, i: nat)
    ensures Exec(s, limit, i, []) == Some(s)
  {
  }

  /**
   One job from its message to its end: the steps of its task lead to the map of running jobs and to the records that
   the object's `ExecuteJob` leaves, and the task ends where the answers send it.
   */
  lemma JobIsRun(s: State, limit: nat, i: nat, found: Result<Option<BackupJob>, AppError>, newId: Option<int>,
                 constructError: Option<AppError>, outcome: Backup.ProcessOutcome, updateOk: bool,
                 start: Time, end: Time) returns (steps: seq<TaskStep>, t: State)
    requires i < |s.tasks| && s.tasks[i].phase == Spawned
    requires found.Ok? && found.value.Some? ==> found.value.value.id == s.tasks[i].execution.jobId
    requires newId.Some? ==> newId.value !in s.runs
    requires constructError.Some? ==> Backup.ConstructionError(constructError.value)
    ensures Exec(s, limit, i, steps) == Some(t)
    ensures |t.tasks| == |s.tasks| && t.tasks == s.tasks[i := s.tasks[i].(phase := t.tasks[i].phase)]
    ensures
      var admitted := found.Ok? && found.value.Some?
        && (limit >= 2 || (limit == 1 && found.value.value.deviceId !in s.running));
      && t.running == (if admitted then s.running - {found.value.value.deviceId} else s.running)
      && (!admitted || newId.None? ==> t.runs == s.runs)
      && (admitted && newId.Some? ==>
            t.runs == s.runs[newId.value := Run(found.value.value.id, found.value.value.deviceId, start, "manual",
                                                if constructError.Some? || !updateOk then NOT_FINISHED
                                                else Backup.Conclude(newId.value, outcome, end).update)])
      && (found.Err? ==> t.tasks[i].phase == LookupFailed)
      && (found.Ok? && found.value.None? ==> t.tasks[i].phase == NotFound)
      && (found.Ok? && found.value.Some? && !admitted ==> t.tasks[i].phase == Skipped)
      && (admitted ==>
            && t.tasks[i].phase.Completed? && t.tasks[i].phase.job == found.value.value
            && t.tasks[i].phase.backup.Returned?
            && t.tasks[i].phase.backup.result == ResultOf(newId, constructError, outcome, updateOk, end))
  {
    hide Exec, Backup.Next, Backup.Conclude, BackupSteps, ResultOf, Admits;
    var lookup := TaskStep(start, Lookup(found));
    ExecOne(s, limit, i, lookup);
    steps, t := [lookup], Next(s, limit, start, i, Lookup(found)).value;
    if found.Ok? && found.value.Some? {
      var job := found.value.value;
      var check := TaskStep(start, CanExecute);
      AdmitsIff(s.running, job.deviceId, limit);
      ExecConcat(s, limit, i, steps, [check]);
      ExecOne(t, limit, i, check);
      steps, t := steps + [check], Next(t, limit, start, i, CanExecute).value;
      if t.tasks[i].phase.Admitted? {
        var last := AdmittedIsRun(t, limit, i, newId, constructError, outcome, updateOk, start, end);
        var rest := AdmittedSteps(newId, constructError, outcome, updateOk, start, end);
        ExecConcat(s, limit, i, steps, rest);
        steps, t := steps + rest, last;
      }
    }
  }

  function AdmittedSteps(newId: Option<int>, constructError: Option<AppError>, outcome: Backup.ProcessOutcome,
                         updateOk: bool, start: Time, end: Time): seq<TaskStep> {
    [TaskStep(start, MarkRunning)]
    + (BackupSteps(newId, constructError, outcome, updateOk, start, end) + [TaskStep(end, MarkCompleted)])
  }

  /** From the mark to its removal. */
  lemma AdmittedIsRun(s: State, limit: nat, i: nat, newId: Option<int>, constructError: Option<AppError>,
                      outcome: Backup.ProcessOutcome, updateOk: bool, start: Time, end: Time) returns (t: State)
    requires i < |s.tasks| && s.tasks[i].phase.Admitted?
    requires newId.Some? ==> newId.value !in s.runs
    requires constructError.Some? ==> Backup.ConstructionError(constructError.value)
    ensures Exec(s, limit, i, AdmittedSteps(newId, constructError, outcome, updateOk, start, end)) == Some(t)
    ensures |t.tasks| == |s.tasks| && t.tasks == s.tasks[i := s.tasks[i].(phase := t.tasks[i].phase)]
    ensures var job := s.tasks[i].phase.job;
      && t.running == s.running - {job.deviceId}
      && (newId.None? ==> t.runs == s.runs)
      && (newId.Some? ==>
            t.runs == s.runs[newId.value := Run(job.id, job.deviceId, start, "manual",
                                                if constructError.Some? || !updateOk then NOT_FINISHED
                                                else Backup.Conclude(newId.value, outcome, end).update)])
      && t.tasks[i].phase.Completed? && t.tasks[i].phase.job == job && t.tasks[i].phase.backup.Returned?
      && t.tasks[i].phase.backup.result == ResultOf(newId, constructError, outcome, updateOk, end)
  {
    hide Exec, Backup.Next, Backup.Conclude, BackupSteps, ResultOf;
    var mark, release := TaskStep(start, MarkRunning), TaskStep(end, MarkCompleted);
    var backup := BackupSteps(newId, constructError, outcome, updateOk, start, end);
    var s1 := Next(s, limit, start, i, MarkRunning).value;
    var s2 := BackupIsRun(s1, limit, i, s.tasks[i].phase.job, newId, constructError, outcome, updateOk, start, end);
    t := Next(s2, limit, end, i, MarkCompleted).value;
    ExecFirst(s, limit, i, mark, backup + [release]);
    ExecConcat(s1, limit, i, backup, [release]);
    ExecOne(s2, limit, i, release);
  }
}

/** One call of `execute_backup`: it creates a run record and, on most ways out, finishes it. */
module Backup {
  import opened Wrappers
  import opened Models
  import opened Queries
  import opened Output
  import Restic

  /** What comes of starting restic and waiting for it. A process ended by a signal has no code. */
  datatype ProcessOutcome =
    | LaunchError(text: string)
    | Exited(code: Option<int>, stdout: seq<Line>, stderr: string)

  const LAUNCH_ERROR: string := "Failed to execute restic: "
  const DISPLAYED_ERROR: string := "Backup error: Backup execution failed: "
  const NO_MESSAGE: string := "Backup failed with no error message"
  const PARSE_ERROR: string := "Failed to parse restic output: "

  function ExtractErrorMessage(stderr: string): string {
    if stderr != "" then stderr else NO_MESSAGE
  }

  function FailureUpdate(now: Time, message: string, exitCode: Option<int>, stdout: Option<seq<Line>>,
                         stderr: Option<string>): RunUpdate {
    RunUpdate(Some(now), Failed, exitCode, Some(message), None, None, None, None, None, stdout, stderr)
  }

  function SuccessUpdate(now: Time, exitCode: int, stats: BackupStats, stdout: seq<Line>,
                         stderr: Option<string>): RunUpdate {
    RunUpdate(Some(now), Success, Some(exitCode), None, Some(stats.filesNew), Some(stats.filesChanged),
              Some(stats.filesUnmodified), Some(stats.dataAddedBytes), Some(stats.snapshotId), Some(stdout), stderr)
  }

  /** The update of the record, and the result returned once it is written. */
  datatype Conclusion = Conclusion(update: RunUpdate, result: Result<int, AppError>)

  function Conclude(runId: int, o: ProcessOutcome, now: Time): Conclusion {
    match o
    case LaunchError(text) =>
      var message := LAUNCH_ERROR + text;
      Conclusion(FailureUpdate(now, DISPLAYED_ERROR + message, None, None, None), Err(ExecutionFailed(message)))
    case Exited(code, stdout, stderr) =>
      var exitCode := code.GetOr(-1);
      if code != Some(0) then
        var message := ExtractErrorMessage(stderr);
        Conclusion(FailureUpdate(now, message, Some(exitCode), Some(stdout), Some(stderr)),
                   Err(ExecutionFailed(message)))
      else
        match Parsed(stdout)
        case Err(e) =>
          Conclusion(FailureUpdate(now, PARSE_ERROR, Some(exitCode), Some(stdout), Some(stderr)), Err(e))
        case Ok(stats) =>
          Conclusion(SuccessUpdate(now, exitCode, stats, stdout, if stderr != "" then Some(stderr) else None),
                     Ok(runId))
  }

  // ---------- what a finished record looks like ----------

  /** A finished record: a success has a snapshot and no message, a failure a message and no snapshot. */
  predicate WellFinished(u: RunUpdate) {
    match u.status
    case Running => u == NOT_FINISHED
    case Success => u.endTime.Some? && u.errorMessage.None? && u.snapshotId.Some? && u.exitCode == Some(0)
    case Failed => u.endTime.Some? && u.errorMessage.Some? && u.errorMessage.value != "" && u.snapshotId.None?
  }

  /** Errors after which the record has been left as it was created. */
  predicate LeavesRunning(e: AppError) {
    e.ConfigurationError? || e.ResticNotFound? || e.QueryFailed?
  }

  /** The status that a record has once its call has returned `result`. */
  function StatusAfter(result: Result<int, AppError>): RunStatus {
    match result
    case Ok(_) => Success
    case Err(e) => if LeavesRunning(e) then Running else Failed
  }

  lemma ConclusionFits(runId: int, o: ProcessOutcome, now: Time)
    ensures var c := Conclude(runId, o, now);
      && WellFinished(c.update) && c.update.status != Running && c.update.status == StatusAfter(c.result)
      && c.update.endTime == Some(now)
      && (c.result.Ok? <==> o.Exited? && o.code == Some(0) && Parsed(o.stdout).Ok?)
      && (c.result.Ok? ==> c.result.value == runId && c.update.snapshotId == Some(Parsed(o.stdout).value.snapshotId))
  {
  }

  /** A success carries the numbers of the line that the scan stops at, with zero for those it lacks. */
  lemma SuccessCarriesSummary(runId: int, stdout: seq<Line>, stderr: string, now: Time, k: int, id: string)
    requires StopsAt(stdout, k) && stdout[k].parsed.value.snapshotId == Some(id)
    ensures var c, summary := Conclude(runId, Exited(Some(0), stdout, stderr), now), stdout[k].parsed.value;
      && c.result == Ok(runId) && c.update.status == Success && c.update.endTime == Some(now)
      && c.update.exitCode == Some(0) && c.update.errorMessage.None?
      && c.update.snapshotId == Some(id) && c.update.resticOutput == Some(stdout)
      && c.update.filesNew == Some(summary.filesNew.GetOr(0))
      && c.update.filesChanged == Some(summary.filesChanged.GetOr(0))
      && c.update.filesUnmodified == Some(summary.filesUnmodified.GetOr(0))
      && c.update.dataAddedBytes == Some(summary.dataAdded.GetOr(0))
      && (c.update.resticErrors.None? <==> stderr == "") && (stderr != "" ==> c.update.resticErrors == Some(stderr))
  {
    ParsedIffSnapshot(stdout);
  }

  /** Any other end of the process is a failure, with what restic said about it. */
  lemma FailureCarriesOutput(runId: int, code: Option<int>, stdout: seq<Line>, stderr: string, now: Time)
    requires !(code == Some(0) && exists k :: StopsAt(stdout, k) && stdout[k].parsed.value.snapshotId.Some?)
    ensures var c := Conclude(runId, Exited(code, stdout, stderr), now);
      && c.result.Err? && c.update.status == Failed && c.update.endTime == Some(now)
      && c.update.resticOutput == Some(stdout) && c.update.resticErrors == Some(stderr)
      && c.update.exitCode == (if code.Some? then code else Some(-1))
      && (code != Some(0) ==>
            var message := if stderr == "" then "Backup failed with no error message" else stderr;
            c.update.errorMessage == Some(message) && c.result.error == ExecutionFailed(message))
      && (code == Some(0) ==>
            c.update.errorMessage == Some("Failed to parse restic output: ") && c.result.error == OutputParseFailed)
      && c.update.snapshotId.None? && c.update.filesNew.None? && c.update.filesChanged.None?
      && c.update.filesUnmodified.None? && c.update.dataAddedBytes.None?
  {
    ParsedIffSnapshot(stdout);
  }

  /**
   A process that does not start leaves a failure without output or exit code; record and result word it differently.
   */
  lemma LaunchFailureIsRecorded(runId: int, text: string, now: Time)
    ensures var c, message := Conclude(runId, LaunchError(text), now), "Failed to execute restic: " + text;
      && c.result == Err(ExecutionFailed(message))
      && c.update == RunUpdate(Some(now), Failed, None, Some("Backup error: Backup execution failed: " + message),
                               None, None, None, None, None, None, None)
  {
  }

  // ---------- the call, step by step ----------

  /** How the process ended, and the instant at which the call saw it. */
  datatype End = End(outcome: ProcessOutcome, at: Time)

  datatype Phase =
    | Starting
    | Created(runId: int)
    | Constructed(runId: int)
    | Finishing(runId: int, end: End)
    | Returned(createdId: Option<int>, ended: Option<End>, result: Result<int, AppError>)

  datatype Event =
    | Create(newId: Option<int>)
    | Construct(error: Option<AppError>)
    | RunProcess(outcome: ProcessOutcome)
    | Finish(ok: bool)

  /** Errors of `ResticCommand::new`. */
  predicate ConstructionError(e: AppError) {
    e.ConfigurationError? || e.ResticNotFound?
  }

  /** They are all the errors that making a command can end in. */
  lemma ConstructionErrorIff(e: AppError)
    ensures ConstructionError(e) <==> exists settings, binary :: Restic.Configured(settings, binary) == Err(e)
  {
    assert Restic.Configured(map[], None) == Err(ConfigurationError);
    var settings := map["repository_url" := "", "repository_password" := ""];
    assert Restic.Configured(settings, None) == Err(ResticNotFound);
  }

  datatype Effect = Effect(runs: map<int, Run>, phase: Phase)

  function Next(job: BackupJob, runs: map<int, Run>, p: Phase, clock: Time, e: Event): Option<Effect> {
    match (p, e)
    case (Starting, Create(newId)) =>
      (match newId
       case None => Some(Effect(runs, Returned(None, None, Err(QueryFailed))))
       case Some(id) =>
         if id in runs then None
         else Some(Effect(CreateRun(runs, id, job.id, job.deviceId, "manual", clock), Created(id))))
    case (Created(id), Construct(error)) =>
      (match error
       case None => Some(Effect(runs, Constructed(id)))
       case Some(e) => if ConstructionError(e) then Some(Effect(runs, Returned(Some(id), None, Err(e)))) else None)
    case (Constructed(id), RunProcess(outcome)) =>
      Some(Effect(runs, Finishing(id, End(outcome, clock))))
    case (Finishing(id, end), Finish(ok)) =>
      var conclusion := Conclude(id, end.outcome, end.at);
      Some(if ok then Effect(UpdateRun(runs, id, conclusion.update), Returned(Some(id), Some(end), conclusion.result))
           else Effect(runs, Returned(Some(id), Some(end), Err(QueryFailed))))
    case _ => None
  }

  /** The record that a call has created. */
  function RunIdOf(p: Phase): Option<int> {
    match p
    case Starting => None
    case Created(id) => Some(id)
    case Constructed(id) => Some(id)
    case Finishing(id, _) => Some(id)
    case Returned(id, _, _) => id
  }

  /** How the process of a call ended, once it has. */
  function EndOf(p: Phase): Option<End> {
    match p
    case Finishing(_, end) => Some(end)
    case Returned(_, ended, _) => ended
    case _ => None
  }

  /** How a call and its record stand to each other. */
  predicate Fits(runs: map<int, Run>, p: Phase) {
    && (RunIdOf(p).Some? ==> RunIdOf(p).value in runs && WellFinished(runs[RunIdOf(p).value].result))
    && match p
       case Starting => true
       case Created(id) => runs[id].result == NOT_FINISHED
       case Constructed(id) => runs[id].result == NOT_FINISHED
       case Finishing(id, _) => runs[id].result == NOT_FINISHED
       case Returned(None, _, result) => result.Err?
       case Returned(Some(id), ended, result) =>
         && runs[id].result.status == StatusAfter(result) && (result.Ok? ==> result.value == id)
         && (runs[id].result.status != Running ==>
               ended.Some? && runs[id].result == Conclude(id, ended.value.outcome, ended.value.at).update)
  }

  /** A row before and after the one update that finishes it. */
  predicate Finished(before: Run, after: Run) {
    && before.result == NOT_FINISHED && after.result.status != Running
    && after == before.(result := after.result)
  }

  /**
   Each step keeps the call and its record together, touches no other record, and finishes at most this one. A new
   record starts at the clock of its step; the end of the process is seen at the clock of its step, and stays.
   */
  lemma FitsStep(job: BackupJob, runs: map<int, Run>, p: Phase, clock: Time, e: Event)
    requires Fits(runs, p) && Next(job, runs, p, clock, e).Some?
    ensures var r := Next(job, runs, p, clock, e).value;
      && Fits(r.runs, r.phase)
      && (RunIdOf(p).Some? ==> RunIdOf(r.phase) == RunIdOf(p))
      && (forall id :: id in runs ==>
            && id in r.runs
            && (|| r.runs[id] == runs[id]
                || (RunIdOf(p) == Some(id) && e == Finish(true) && Finished(runs[id], r.runs[id]))))
      && (forall id :: id in r.runs && id !in runs ==>
            && RunIdOf(r.phase) == Some(id) && RunIdOf(p).None? && e == Create(Some(id))
            && r.runs[id] == Run(job.id, job.deviceId, clock, "manual", RunUpdate(
                                   None, Running, None, None, None, None, None, None, None, None, None)))
      && (e.RunProcess? ==> RunIdOf(p).Some?)
      && EndOf(r.phase) == (if e.RunProcess? then Some(End(e.outcome, clock)) else EndOf(p))
      && (RunIdOf(r.phase).Some? && RunIdOf(p).None? ==> RunIdOf(r.phase).value !in runs)
  {
    match e
    case Finish(_) => ConclusionFits(p.runId, p.end.outcome, p.end.at);
    case _ =>
  }

  // ---------- the call as one piece ----------

  class RunTable {
    var runs: map<int, Run>

    constructor ()
      ensures runs == map[]
    {
      runs := map[];
    }

    /** The database picks the key of the new row. */
    method Insert(newId: Option<int>, job: BackupJob, triggeredBy: string, now: Time) returns (r: Result<int, AppError>)
      requires newId.Some? ==> newId.value !in runs
      modifies this
      ensures r == match newId case None => Err(QueryFailed) case Some(id) => Ok(id)
      ensures runs == match newId
                      case None => old(runs)
                      case Some(id) => CreateRun(old(runs), id, job.id, job.deviceId, triggeredBy, now)
    {
      match newId
      case None =>
        r := Err(QueryFailed);
      case Some(id) =>
        runs := CreateRun(runs, id, job.id, job.deviceId, triggeredBy, now);
        r := Ok(id);
    }

    method Update(id: int, update: RunUpdate, ok: bool) returns (r: Result<(), AppError>)
      modifies this
      ensures r == if ok then Ok(()) else Err(QueryFailed)
      ensures runs == if ok then UpdateRun(old(runs), id, update) else old(runs)
    {
      if !ok {
        return Err(QueryFailed);
      }
      runs := UpdateRun(runs, id, update);
      r := Ok(());
    }
  }

  /**
   With no other call in between: no row if the insert fails, else exactly one new row. It is a success
   exactly when the call returns Ok, and it stays unfinished exactly when the command cannot be
   constructed or the finishing update fails. It starts and ends at the instants the call read.
   */
  method ExecuteBackup(table: RunTable, job: BackupJob, newId: Option<int>, constructError: Option<AppError>,
                       outcome: ProcessOutcome, updateOk: bool, start: Time, end: Time)
    returns (r: Result<int, AppError>)
    requires newId.Some? ==> newId.value !in table.runs
    requires constructError.Some? ==> ConstructionError(constructError.value)
    modifies table
    ensures newId.None? ==> r == Err(QueryFailed) && table.runs == old(table.runs)
    ensures newId.Some? ==>
      && newId.value in table.runs
      && var row := table.runs[newId.value];
      && table.runs == old(table.runs)[newId.value := row]
      && row == Run(job.id, job.deviceId, start, "manual", row.result) && WellFinished(row.result)
      && (r.Ok? <==> row.result.status == Success) && (r.Ok? ==> r.value == newId.value)
      && (row.result.status == Running <==> constructError.Some? || !updateOk)
      && (row.result.status == Running ==>
            row.result == RunUpdate(None, Running, None, None, None, None, None, None, None, None, None))
      && (row.result.status != Running ==>
            row.result.endTime == Some(end) && row.result == Conclude(newId.value, outcome, end).update)
      && (constructError.Some? ==> r == Err(constructError.value))
      && (constructError.None? ==>
            r == if updateOk then Conclude(newId.value, outcome, end).result else Err(QueryFailed))
  {
    var created := table.Insert(newId, job, "manual", start);
    if created.Err? {
      return created;
    }
    var runId := created.value;
    if constructError.Some? {
      return Err(constructError.value);
    }
    ConclusionFits(runId, outcome, end);
    match outcome
    case LaunchError(text) =>
      var message := LAUNCH_ERROR + text;
      var updated := table.Update(runId, FailureUpdate(end, DISPLAYED_ERROR + message, None, None, None), updateOk);
      if updated.Err? {
        return Err(updated.error);
      }
      return Err(ExecutionFailed(message));
    case Exited(code, stdout, stderr) =>
      var exitCode := code.GetOr(-1);
      if code != Some(0) {
        var message := ExtractErrorMessage(stderr);
        var updated := table.Update(
          runId, FailureUpdate(end, message, Some(exitCode), Some(stdout), Some(stderr)), updateOk);
        if updated.Err? {
          return Err(updated.error);
        }
        return Err(ExecutionFailed(message));
      }
      var stats := ParseResticJsonOutput(stdout);
      if stats.Err? {
        var updated := table.Update(
          runId, FailureUpdate(end, PARSE_ERROR, Some(exitCode), Some(stdout), Some(stderr)), updateOk);
        if updated.Err? {
          return Err(updated.error);
        }
        return Err(stats.error);
      }
      var stderrOpt := if stderr != "" then Some(stderr) else None;
      var updated := table.Update(runId, SuccessUpdate(end, exitCode, stats.value, stdout, stderrOpt), updateOk);
      if updated.Err? {
        return Err(updated.error);
      }
      r := Ok(runId);
  }
}

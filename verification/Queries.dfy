/**
 The database tables and the statements run on them. A table is a map from the primary
 key to the row. A statement either takes effect in one step or fails with none.
 */
module Queries {
  import opened Wrappers
  import opened Models
  import Output

  // ---------- schedules ----------

  /** `update_schedule_last_run`: the key is the job, so that all schedules of the job are written. */
  function UpdateLastRun(rows: map<int, Schedule>, jobId: Uuid, last: Time, next: Option<Time>): map<int, Schedule> {
    map i | i in rows ::
      if rows[i].jobId == jobId then rows[i].(lastRunAt := Some(last), nextRunAt := next) else rows[i]
  }

  /** A row or an entry that differs from `row` at most in when it last ran and is next due. */
  predicate Follows(s: Schedule, row: Schedule) {
    s == row.(lastRunAt := s.lastRunAt, nextRunAt := s.nextRunAt)
  }

  /** The keys of the rows that `get_schedules_for_device` selects. */
  function SchedulesForDevice(rows: map<int, Schedule>, jobs: map<Uuid, BackupJob>, deviceId: string): set<int> {
    set i | i in rows && rows[i].enabled && rows[i].jobId in jobs
            && jobs[rows[i].jobId].deviceId == deviceId && jobs[rows[i].jobId].enabled
  }

  /** A result set: the rows of these keys, each once, in any order. */
  ghost predicate ResultSet(result: seq<Schedule>, rows: map<int, Schedule>, keys: set<int>) {
    && (forall k :: 0 <= k < |result| ==>
          result[k].id in keys && result[k].id in rows && rows[result[k].id] == result[k])
    && (forall j, k :: 0 <= j < k < |result| ==> result[j].id != result[k].id)
    && (forall i :: i in keys ==> exists k :: 0 <= k < |result| && result[k].id == i)
  }

  // ---------- runs ----------

  datatype RunStatus = Running | Success | Failed

  datatype Run = Run(
    jobId: Uuid,
    deviceId: string,
    startTime: Time,
    triggeredBy: string,
    result: RunUpdate)

  /** The columns of a run that `update_run` writes. */
  datatype RunUpdate = RunUpdate(
    endTime: Option<Time>,
    status: RunStatus,
    exitCode: Option<int>,
    errorMessage: Option<string>,
    filesNew: Option<int>,
    filesChanged: Option<int>,
    filesUnmodified: Option<int>,
    dataAddedBytes: Option<int>,
    snapshotId: Option<string>,
    resticOutput: Option<seq<Output.Line>>,
    resticErrors: Option<string>)

  /** What these columns hold in a row that has just been inserted. */
  const NOT_FINISHED := RunUpdate(None, Running, None, None, None, None, None, None, None, None, None)

  function CreateRun(runs: map<int, Run>, id: int, jobId: Uuid, deviceId: string, triggeredBy: string,
                     now: Time): map<int, Run> {
    runs[id := Run(jobId, deviceId, now, triggeredBy, NOT_FINISHED)]
  }

  function UpdateRun(runs: map<int, Run>, id: int, update: RunUpdate): map<int, Run> {
    if id in runs then runs[id := runs[id].(result := update)] else runs
  }
}

/** The rows of the database tables, as the client reads them. */
module Models {
  import opened Wrappers

  /** Instants and durations, in nanoseconds. */
  type Time = int

  const SECOND: int := 1_000_000_000

  /** One hexadecimal digit. */
  type Nibble = x: int | 0 <= x < 16

  /** A UUID: 128 bits, as 32 hexadecimal digits. */
  type Uuid = u: seq<Nibble> | |u| == 32 witness seq(32, _ => 0)

  datatype AppError =
    | InvalidCronExpression
    | InvalidInterval
    | JobNotFound
    | QueryFailed
    | ConfigurationError
    | ResticNotFound
    | ExecutionFailed(message: string)
    | OutputParseFailed

  /** A JSON value, as far as `restic_args` looks into it. */
  datatype Json = JString(text: string) | JArray(items: seq<Json>) | JOther

  datatype BackupJob = BackupJob(
    id: Uuid,
    deviceId: string,
    name: string,
    sourcePaths: seq<string>,
    excludePatterns: Option<seq<string>>,
    tags: Option<seq<string>>,
    resticArgs: Json,
    enabled: bool,
    originName: Option<string>,
    accountId: Option<Uuid>)

  datatype ScheduleType = Cron | Interval | Unknown(name: string)

  datatype Schedule = Schedule(
    id: int,
    jobId: Uuid,
    scheduleType: ScheduleType,
    cronExpression: Option<string>,
    intervalSeconds: Option<int>,
    enabled: bool,
    lastRunAt: Option<Time>,
    nextRunAt: Option<Time>)
  {
    predicate IsCron() {
      scheduleType.Cron?
    }

    predicate IsInterval() {
      scheduleType.Interval?
    }

    /** The same schedule after a run at `last`, next due at `next`. */
    function Moved(last: Time, next: Time): Schedule {
      this.(lastRunAt := Some(last), nextRunAt := Some(next))
    }
  }

  /** A message on the job queue. */
  datatype JobExecution = JobExecution(jobId: Uuid, triggeredBy: string)
}

# A verified model of the rbackup2 client

rbackup2 runs restic backups of one device on schedules kept in a PostgreSQL database. This project models
what happens between a due schedule and a finished run record, and proves what holds over whole runs of it.

- `ScheduleCalc.dfy`, `MissedRuns.dfy`: when a schedule is next due, and how many runs were missed.
- `SchedulerMachine.dfy`: the scheduler task as a state machine whose steps end where the program waits;
  `SendLog.dfy`: the history of one schedule, with the spacing and charging results; `SchedulerSafety.dfy`:
  no due run is lost; `Selection.dfy`: which schedules a process works with; `StoreAgreement.dfy`: memory against the
  store, and restart; `LoadRuns.dfy`, `SharedJobs.dfy`: loads, and why agreement wants one schedule for each job.
- `Scheduler.dfy`: the scheduler object with its map, its queue and its database; its methods are proved against
  order-free specifications, and a whole check of it, like a whole reload, is shown to be a run of the machine.
  `CheckMessages.dfy`: the messages of a check, in the object and in the process. `CheckRuns.dfy`: how late a run can be.
- `Backup.dfy`: one `execute_backup` call, as one piece and step by step; `Output.dfy`: the scan of restic's output.
- `Executor.dfy`: the tasks that share the map of running jobs; the executor object. `TaskRuns.dfy`: a call of the object
  as a run of one task. `RunTimes.dfy`: when run records start and end.
- `System.dfy`: clock, scheduler, queue of 100 messages, manual triggers and tasks, interleaved; `Races.dfy`: how two
  backups of a device come to run at once; `EndToEnd.dfy`: how many run records a job can have.
- `Restic.dfy`: the command line, its tags and how they are read back; `Settings.dfy`: the settings merge.
- `Queries.dfy`, `Models.dfy`, `Wrappers.dfy`, `Arithmetic.dfy`: tables, rows and helpers.

Time is an integer number of nanoseconds. Clocks, answers of the database, refused sends, the outcome of the restic
process and the order in which a hash map is visited are parameters or events. A statement on the database takes
effect at once or fails with no effect. The cron library is a function about which one thing is assumed where it is
needed: an answer is the least occurrence strictly later than the instant asked about, where occurrences belong to the
list of fields of an expression, seconds first. A stored expression has five fields and stands for second 0.

Where the code and its documents differ the model follows the code:

- A job whose device is busy is skipped, not queued (src/scheduler/executor.rs:65-72, against doc/00-architecture-overview.md:309).
- Every run is recorded as triggered manually (src/backup.rs:109).
- Any number of missed runs of a schedule becomes one catch-up run.
- With a limit above one nothing is limited, because the map of running jobs has one entry for each device
  (src/scheduler/executor.rs:113-128).
- Mutual exclusion at limit 1 can fail, because the check and the mark take the lock separately, and nothing but two
  schedules due in one check is needed for it: `Races.RaceIsReachable` gives the run, `System.MutualExclusion` proves
  exclusion for every run without that race, and `Executor.RaceBreaksExclusion` shows that any such race does break it.
- Memory and store can disagree when a job has several schedules, because the update is keyed by the job. That is the
  exact boundary: for schedules that go on, `SharedJobs.AgreesIffOnePerJob` proves agreement in every state of every run
  if and only if no two schedules of the device share a job. Failed sends, calculations and writes do not matter, apart
  from a next time that the load itself could not save, which stays missing in the store until the schedule has run.

## Model

| member | source | states |
|---|---|---|
| ScheduleCalc.CalculationAnswers | src/scheduler/schedule_calc.rs:8-81 | which rows have a next time, which error the others give, and the next time itself: the library's answer to the expression with "0 " in front, or the seconds after the last run or after now |
| ScheduleCalc.SecondsInFront | src/scheduler/schedule_calc.rs:31 | split at blanks, the library is given the field "0" and then exactly the fields of the stored expression |
| ScheduleCalc.FieldsSplit | src/scheduler/schedule_calc.rs:31-36 | the fields of two texts joined by a blank are those of the one and then those of the other, so that only words and blanks count |
| ScheduleCalc.CronAnswer | src/scheduler/schedule_calc.rs:26-48 | the next time of a cron schedule is the first occurrence of its stored five-field expression after now |
| ScheduleCalc.DueFromNextOn | src/scheduler/schedule_calc.rs:83-89 | without a next time a schedule is due always; moved on by a run it is due exactly from its new next time on |
| SendLog.IntervalSpacing | src/scheduler.rs:144-164 | in any legal history of an interval schedule two sends are the interval apart for each send between them that moved the schedule on |
| SendLog.WindowBound | src/scheduler.rs:112-164 | a window of a given width holds at most width / interval + 1 sends, plus those that failed in it |
| SendLog.CronCharge | src/scheduler/schedule_calc.rs:26-48 | a send after one that moved the schedule on answers an occurrence of the stored expression later than that send and not later than itself, and the earliest one left, so several missed occurrences cost one send |
| SendLog.ChargedOnce | src/scheduler.rs:144-164 | no occurrence is charged to two sends |
| SendLog.IntervalQuota | src/scheduler/schedule_calc.rs:50-81 | sends that moved the schedule on, but the last, are at most the intervals elapsed since the start |
| SendLog.CronQuota | src/scheduler/schedule_calc.rs:26-48 | they are at most the occurrences since the start |
| SchedulerMachine.InvNext | src/scheduler.rs:112-174 | every step keeps: each entry in memory is the replay of a legal history in which every send is an advance, a counted failure or the attempt under way |
| SchedulerMachine.InvExec | src/scheduler.rs:50-64 | the same over every run |
| SchedulerMachine.AdvanceVisit | src/scheduler.rs:155-164 | recording stamp and next time of an attempt keeps the history legal and moves the entry exactly so |
| SchedulerSafety.NoDueRunIsLost | src/scheduler.rs:118-164 | over any run the next time of an entry changes only with a send that went through, and then it grows and lies after that send; a due schedule that was not moved on is due at every later instant |
| SchedulerSafety.EntriesHaveNext | src/scheduler.rs:71-105 | every entry in memory has a next time, after a reload that stopped half way too |
| SchedulerSafety.SendsAreAccountedFor | src/scheduler.rs:144-174 | messages sent for a schedule are advances plus attempts that failed after the send, plus one under way |
| SchedulerSafety.CheckVisitsAll | src/scheduler.rs:118-142 | a check that has ended has visited every schedule that was in memory when it began |
| Selection.MemoryIsSelection | src/db/queries.rs:116-131 | in every state of every run memory holds only enabled schedules of enabled jobs of this device, and once loaded all of them, by the table the process started on |
| Selection.MessagesAreForEnabledJobs | src/scheduler.rs:112-153 | in every run of the process a schedule's message is for its own job, which is enabled and of this device, and says "schedule"; triggers say "manual" |
| StoreAgreement.MemoryAgreesWithStore | src/scheduler.rs:155-164 | with one schedule for each job, in every state of every run and whatever failed, memory and store hold the same next time of a schedule if and only if it is not one that the load could not save; between write and update the store holds the time about to be put into memory |
| StoreAgreement.RestartIsSafe | src/scheduler.rs:66-110 | a process started on the store left behind after any step of any run loads the same schedules with the next times the old one had or was about to have, in any row order, except those it never saved |
| SharedJobs.AgreesIffOnePerJob | src/db/queries.rs:134-155 | on a table of schedules that go on, next times in memory and store agree in every state of every run if and only if no two schedules of the device share a job |
| SharedJobs.SiblingRunBreaksAgreement | src/db/queries.rs:140-147 | from every idle state with two schedules of one job: once both are due, a run of one, with nothing failing, leaves the other with a next time in the store that memory does not have |
| SharedJobs.LoadBreaksAgreement | src/scheduler.rs:77-104 | a load can do so before any check: a schedule without a next time writes its own into the row of a sibling that was fetched before |
| LoadRuns.Load | src/scheduler.rs:66-110 | from the start a table of schedules that go on can be loaded, and memory is then exactly the enabled schedules of the enabled jobs of the device, each with its own rule; nothing is sent |
| LoadRuns.ReloadIsRun | src/scheduler.rs:66-110 | what a whole reload of the object leaves in memory and store is what a run of the machine leaves, which ends idle or stops at the row that cannot be calculated |
| StoreAgreement.RowsHoldLastWrite | src/db/queries.rs:134-155 | after any sequence of writes every row of a job holds the pair written last for that job |
| StoreAgreement.StoreIsItsWrites | src/db/queries.rs:134-155 | the store after any run is the store before it after the writes of that run, in order |
| StoreAgreement.SiblingsShareOnePair | src/db/queries.rs:140-147 | once a run has written for a job all its rows hold one last and next time; the rows of a job it never wrote for are untouched |
| StoreAgreement.LoadRecordsARun | src/scheduler.rs:77-94 | a load that calculates a next time records itself as the last run of the job in the store, not in memory, and the schedule is not due yet |
| StoreAgreement.LoadRepeatsLastRun | src/scheduler.rs:77-94 | with a recorded last run the load writes that run again, with the new next time, into every row of the job; a failed write changes no row |
| SchedulerSafety.LoadCatchesUpOnce | src/scheduler.rs:77-94 | a loaded interval schedule without a next time is due at once if and only if an interval has passed since its last run; after that one run it is not due for an interval, however many were missed |
| SchedulerSafety.LoadedCronIsNotDue | src/scheduler.rs:77-79 | a loaded cron schedule without a next time waits for the first occurrence of its stored expression after the load |
| Scheduler.Scheduler.QueueJob | src/scheduler.rs:144-174 | one message with the schedule's job and "schedule" is queued exactly when the send is accepted; memory and store change together, or not at all if a later step fails |
| Scheduler.Scheduler.CheckSchedules | src/scheduler.rs:112-142 | memory after a check is a pointwise function of memory before, whatever the visiting order; each message is queued as often as there are enabled schedules of its job with a passed next time, or none, whose send is accepted, and messages come in visiting order |
| Scheduler.Scheduler.ReloadSchedules | src/scheduler.rs:66-110 | exactly the rows before the first that cannot be calculated are loaded, each with a next time, and its error is returned |
| Scheduler.Scheduler.TriggerManualBackup | src/scheduler.rs:177-191 | one manual message, and no schedule changes |
| Scheduler.VisitIsRun | src/scheduler.rs:144-174 | the steps of a visit lead the machine to exactly the state the object leaves, with the message sent, or not, in the history |
| Scheduler.CheckIsRun | src/scheduler.rs:112-142 | a whole check of the object is a run of the machine from idle to idle: same memory, same store, and one visit more in the history of each schedule that it sends for |
| CheckMessages.CheckSends | src/scheduler.rs:112-153 | the steps of a check send, in order, exactly the messages that the object queues |
| CheckMessages.CheckQueues | src/scheduler.rs:112-153 | in the process, with room in the queue, a check puts those messages on the channel, in that order, and leaves the executor alone |
| CheckRuns.MemoryIsPointwise | src/scheduler.rs:112-142 | over any number of checks schedules do not disturb each other in memory |
| CheckRuns.ChecksAreRun | src/scheduler.rs:50-64 | the checks at given instants are one run of the machine, in any visiting orders; the history of each schedule grows by the visits computed from its own entry |
| CheckRuns.IntervalDelay | src/scheduler.rs:50-64 | with checks at most D apart the messages that this run sends for an interval schedule are at least the interval and less than the interval plus D apart, up to the end; there is none only if the schedule is disabled or not due by then |
| CheckRuns.CronDelay | src/scheduler.rs:112-142 | every occurrence of the stored expression from the loaded next time on is followed by a message of this run within D |
| MissedRuns.MissedIff | src/scheduler/missed_runs.rs:9-29 | a window is missed if and only if there is a next time and more than the grace period, five minutes by default, has passed since it |
| MissedRuns.NothingToCount | src/scheduler/missed_runs.rs:37-50 | nothing is counted for other kinds of schedule, for an interval that is not positive, or before a first run |
| MissedRuns.CountIsSlots | src/scheduler/missed_runs.rs:32-70 | the division, after rounding to seconds, equals the number of slots k >= 2 that have passed |
| MissedRuns.MissedMeansDue | src/scheduler/missed_runs.rs:9-29 | a positive count implies a missed window and a due schedule when the grace period is shorter than the interval |
| MissedRuns.MissedRunsTelescope | src/scheduler/missed_runs.rs:51-69 | over successive sends the runs and the missed runs together account for the elapsed time, to less than one interval for each gap |
| Output.ParseResticJsonOutput | src/backup/output.rs:38-88 | the loop computes the recursive specification |
| Output.FirstSummaryAt | src/backup/output.rs:41-66 | that is the first line which is a summary and parses, and nothing only if there is none |
| Output.ParsedIffSnapshot | src/backup/output.rs:68-87 | statistics come back if and only if that line has a snapshot id, and all ten are its own, with zero where it has none |
| Output.NoiseIsIgnored | src/backup/output.rs:43-64 | unusable lines may be inserted anywhere |
| Output.TailIsIgnored | src/backup/output.rs:55-59 | nothing after that line matters; a missing snapshot id is an error even if a later summary has one |
| Backup.ExecuteBackup | src/backup.rs:96-193 | no row or exactly one new row, for this job, started and ended at the instants read; Ok if and only if the row is a success; unfinished if and only if construction or the finishing update failed; the error returned in each case |
| Backup.ConclusionFits | src/backup.rs:114-192 | every end of the process finishes the row well-formed, at that instant, with the status that the result tells |
| Backup.SuccessCarriesSummary | src/backup.rs:42-67 | a success carries the end time, exit code 0, and the numbers and the snapshot of the summary line found |
| Backup.FailureCarriesOutput | src/backup.rs:133-173 | every other exit is a failure with end time, output, exit code (-1 for a signal) and the message its result carries, and no snapshot or numbers |
| Backup.LaunchFailureIsRecorded | src/backup.rs:80-121 | a process that does not start leaves a failure whose message wraps that of the result, without exit code or output |
| Backup.ConstructionErrorIff | src/backup.rs:112 | the errors after which a row is left as created are exactly those that making the command can end in |
| Backup.FitsStep | src/backup.rs:96-193 | each step of a call keeps it in step with its row, touches no other row and finishes at most this one; a new row is for this job and device and starts at that step, the process ends at its step |
| Executor.AdmitsIff | src/scheduler/executor.rs:113-128 | the count is 0 or 1; a limit of 2 or more admits everything, a limit of 1 exactly the devices not in the map |
| Executor.JobExecutor.CanExecute | src/scheduler/executor.rs:113-128 | the answer, in terms of the limit and the map |
| Executor.JobExecutor.ExecuteJob | src/scheduler/executor.rs:56-111 | an admitted job releases its device however its backup ends, and leaves the run of its own job with the right start, end and conclusion, or none if the insert failed; a job that is not admitted leaves none |
| TaskRuns.JobIsRun | src/scheduler/executor.rs:56-111 | the steps of one task, from message to end, leave the map, the records and the result that the object's call leaves, and the task fails, is skipped or completes as the answers say |
| Executor.JobExecutor.Start | src/scheduler/executor.rs:40-54 | one task for each message, in order |
| Executor.InvNext | src/scheduler/executor.rs:56-111 | in every interleaving and at every limit: each map entry is an active task's, each run is one task's, for the job asked for, and in step with it |
| Executor.NothingRunsAtRest | src/scheduler/executor.rs:74-89 | once no task is in progress the map is empty |
| Executor.ReturnedRun | src/backup.rs:96-193 | the result a call returned tells how its row stands; a finished row is the conclusion of the process end the call saw, at that instant |
| Executor.RunChangesOnce | src/db/queries.rs:182-230 | a step changes a row only to finish it, and only a step of the task that created it |
| Executor.ExclusiveStep | src/scheduler/executor.rs:65-74 | at limit 1 a step into a state without a race keeps one claim for each device and the map in line with it |
| Executor.ExclusiveMeans | src/scheduler/executor.rs:113-149 | one active backup for a device, and the map's keys are the devices with one |
| Executor.RaceBreaksExclusion | src/scheduler/executor.rs:65-74 | from any race the two marks make two backups of one device active |
| System.InvNext | src/scheduler/executor.rs:43-50 | every step of the process keeps messages, tasks, logs and rows in balance |
| System.ExecutionsAreConserved | src/scheduler.rs:37 | messages sent are the tasks and the queue, first in first out; the queue stays within 100; a task has one row at most |
| System.SendsWaitForRoom | src/scheduler.rs:150-153 | a send waits if and only if a hundred messages are queued; nothing else waits for the queue |
| System.OnlyOneLimits | src/scheduler/executor.rs:113-128 | over any run at a limit of two or more no task is ever skipped; at zero no run record ever comes to be |
| RunTimes.FinishedRuns | src/backup.rs:15-67 | over any run a finished row started when its task created it and ended when its task saw the process end, is the conclusion of that end, and start, end and clock are in order |
| System.TerminalRunsStay | src/db/queries.rs:182-230 | over any run no row disappears and a finished row never changes |
| System.MutualExclusion | src/scheduler/executor.rs:56-89 | at limit 1, over every run without a race, one active backup for a device and a map of exactly those devices |
| Races.RaceIsReachable | src/scheduler/executor.rs:65-74 | wherever the table selects two schedules that go on, a run at limit 1 leads from the start of the process to two active backups of the device, with no trigger in it |
| Races.SchedulesRace | src/scheduler/executor.rs:40-74 | the same from any loaded process with two enabled schedules of a device that has no backup in the map, whatever is queued |
| Races.TriggersRace | src/scheduler.rs:177-191 | two manual triggers of one job would do it too, if anything called the trigger |
| System.SchedulerRunOf | src/scheduler.rs:50-64 | whatever the other tasks do, the scheduler makes a run of its own machine, and the messages of schedules are those this run sends |
| EndToEnd.HistoryIsLegal | src/scheduler.rs:112-174 | in every reachable state of the process each schedule has a legal history, and its messages are that history |
| EndToEnd.IntervalSendsInRun | src/scheduler.rs:112-174 | spacing and window bound for an interval schedule over any run of the process |
| EndToEnd.CronSendsInRun | src/scheduler.rs:112-174 | each later send of a cron schedule is charged to an occurrence of its own, over any run of the process |
| EndToEnd.SendsTelescope | src/scheduler/missed_runs.rs:32-70 | the sends of an interval schedule and the runs missed between them account for the elapsed time |
| EndToEnd.SendsWithinQuota | src/scheduler.rs:112-174 | a schedule has sent at most its quota and the attempts that failed after sending |
| EndToEnd.IntervalQuotaIsReached | src/scheduler.rs:112-174 | the interval quota is no looser than it has to be: for every n there is a legal history with exactly that many sends |
| EndToEnd.CronQuotaIsReached | src/scheduler.rs:112-174 | nor is the cron quota: with a library for which every instant is an occurrence, a legal history sends once more than there are occurrences |
| EndToEnd.OtherQuotaIsReached | src/scheduler.rs:150-156 | a schedule that fits no rule can send once before its calculation fails |
| System.TriggersAndSchedules | src/scheduler.rs:144-191 | the messages for a job are exactly its triggers and those that schedules sent for it |
| EndToEnd.RunsAreBounded | src/scheduler/executor.rs:40-111 | in any interleaving the runs of a job are at most its manual triggers, the quotas of its schedules and their failed attempts |
| Restic.UuidRoundTrip | src/db/models.rs:96 | the text of a UUID reads back to it |
| Restic.GetResticTags | src/db/models.rs:95-109 | id, name, then origin and account if the job has them, each with its prefix; they are the tags that TagsDecode reads |
| Restic.TagsDecode | src/db/models.rs:95-109 | the tags decode to id, name, origin name and account id, whatever these contain |
| Restic.ConfiguredIff | src/backup/restic.rs:19-41 | a command can be made if and only if URL and password are set, by the device or globally, and restic was found; the settings used are the device's, else global ones; a missing setting is reported before a missing binary |
| Restic.ResticCommand.BuildBackupCommand | src/backup/restic.rs:63-115 | paths, excludes, generated tags, own tags and extra arguments in this order with their flags; the variables are the repository's URL, password and non-empty cache directory, each replaced by an added one of that name, and the added ones |
| Restic.FlaggedAt | src/backup/restic.rs:82-101 | each value comes right after its own flag, in order, and there is nothing else |
| Restic.StringsOf | src/backup/restic.rs:103-109 | of a JSON array the strings are kept in order and everything else is left out |
| Restic.RoundTripIff | src/backup/restic.rs:79-109 | a reader recovers paths, excludes, tags and extra arguments if and only if no path is a flag and the extra arguments do not read like a tag |
| Restic.ExtraTagIsAmbiguous | src/backup/restic.rs:97-109 | extra arguments that read like a tag give the command line of a different job, so that no reader can tell the two apart |
| Restic.ExcludePathIsAmbiguous | src/backup/restic.rs:82-90 | the same for paths that read like an exclude pattern |
| Restic.TagPathIsAmbiguous | src/backup/restic.rs:79-101 | paths that read like the tags of another job give a command line of that job, so that not even the id can be told |
| Restic.ReadingIsLossless | src/backup/restic.rs:76-109 | the arguments can be put together again from what the reader finds |
| Restic.SameCommandLineIff | src/backup/restic.rs:79-109 | two jobs without flags among their paths share a command line if and only if they agree in paths, excludes, all tags and the other extra arguments, and then in id and name |
| Settings.MergeIsTwoLevelLookup | src/config/remote.rs:46-47 | the device's value if it has one, else a global one, else none, for every order of the rows in a tier |
| Settings.OrderIsIrrelevantIff | src/db/queries.rs:249-261 | the settings do not depend on row order if and only if in the tier that decides a key its rows agree; the unique constraint does not ensure this for global rows, whose device is NULL |

## Left out

- PostgreSQL itself: a stored time keeps its nanoseconds here, while the database rounds to microseconds; rows are not
  changed from outside while the process runs, except that a job may be looked up with any contents.
- Runs written by earlier processes: the run table begins empty, and no modelled statement touches a row it did not create.
- The cron library's parsing and calendar search, and overflow of time arithmetic.
- serde_json: a line of output is blank, without a message type, of another type, or a summary that parses or does not.
- The text of most errors: a record's message for unparsable output is its fixed prefix, without the error's own text.
- The restic process, the search for its binary, `check_repository`, and operating-system limits on arguments.
- tokio: task panics, lost wake-ups and the exact ticks of the check interval; checks are at given instants in `CheckRuns.dfy`.
- A closed job queue inside the interleaved process: a refused send of the scheduler is an event, a refused manual trigger changes nothing.
- Scheduler.Scheduler.CheckSchedules: does not model waiting for room in the queue; `System.Next` does.
- Executor.JobExecutor.ExecuteJob: describes one job with no other task in between; interleavings are in `Executor.Next` and `System.Next`.
- Logging, trace ids, the command line, YAML configuration, device registration and shutdown in src/main.rs.
- The HTTP API, metrics, periodic sync and import described in doc/, which the code does not implement.
- Retention of runs, run durations and the SQL views.

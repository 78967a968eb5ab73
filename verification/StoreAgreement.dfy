/** The schedules in memory against their rows in the database, and what a restart finds there. */
module StoreAgreement {
  import opened Wrappers
  import opened Models
  import opened ScheduleCalc
  import opened Queries
  import opened SchedulerMachine
  import SchedulerSafety

  // ---------- memory agrees with the store ----------

  /** No two schedules of the device belong to one job. */
  ghost predicate OnePerJob(env: Env, store: map<int, Schedule>) {
    forall i, j :: i in Selected(env, store) && j in Selected(env, store) && store[i].jobId == store[j].jobId ==> i == j
  }

  ghost function Selected(env: Env, store: map<int, Schedule>): set<int> {
    SchedulesForDevice(store, env.jobs, env.deviceId)
  }

  /**
   The row of a schedule against its entry in memory: the time of the last run may differ, and a next time that was
   not saved is missing from the row.
   */
  predicate Stands(row: Schedule, entry: Schedule, saved: bool) {
    row == entry.(lastRunAt := row.lastRunAt, nextRunAt := if saved then entry.nextRunAt else None)
  }

  ghost predicate Unwritten(p: Phase, i: int) {
    p.Written? && p.entry.id == i
  }

  ghost predicate Agreement(env: Env, s: State) {
    && s.memory.Keys <= Selected(env, s.store)
    && (forall i :: i in s.memory ==> s.memory[i].id == i)
    && s.unsaved <= s.memory.Keys
    && (forall i :: i in s.memory && !Unwritten(s.phase, i) ==> Stands(s.store[i], s.memory[i], i !in s.unsaved))
    && match s.phase
       case Down => true
       case Stopped => true
       case Loading(rows) =>
         && (forall k :: 0 <= k < |rows| ==>
               rows[k].id in Selected(env, s.store) && s.store[rows[k].id] == rows[k])
         && (forall i :: i in Selected(env, s.store) && i !in s.memory ==>
               exists k :: 0 <= k < |rows| && rows[k].id == i)
       case Idle => s.memory.Keys == Selected(env, s.store)
       case Checking(_, todo) => AgreementChecking(env, s, todo)
       case Sent(_, todo, entry) => AgreementChecking(env, s, todo) && Attempted(s, todo, entry)
       case Calculated(_, todo, entry, _, _) => AgreementChecking(env, s, todo) && Attempted(s, todo, entry)
       case Written(_, todo, entry, _, next) =>
         && AgreementChecking(env, s, todo) && Attempted(s, todo, entry)
         && entry.id in s.store && Stands(s.store[entry.id], entry.(nextRunAt := Some(next)), true)
         && entry.id !in s.unsaved
  }

  ghost predicate AgreementChecking(env: Env, s: State, todo: map<int, Schedule>) {
    && s.memory.Keys == Selected(env, s.store)
    && (forall i :: i in todo ==> i in s.memory && todo[i] == s.memory[i])
  }

  ghost predicate Attempted(s: State, todo: map<int, Schedule>, entry: Schedule) {
    entry.id in s.memory && s.memory[entry.id] == entry && entry.id !in todo
  }

  /** Writing for a job leaves the selection, and every schedule of another job, as it is. */
  lemma WriteKeepsOthers(env: Env, store: map<int, Schedule>, id: int, last: Time, next: Option<Time>)
    requires id in Selected(env, store) && OnePerJob(env, store)
    ensures var after := UpdateLastRun(store, store[id].jobId, last, next);
      && Selected(env, after) == Selected(env, store) && OnePerJob(env, after)
      && after[id] == store[id].(lastRunAt := Some(last), nextRunAt := next)
      && forall i :: i in Selected(env, store) && i != id ==> after[i] == store[i]
  {
    var after := UpdateLastRun(store, store[id].jobId, last, next);
    assert forall i :: i in store ==>
      after[i] == store[i].(lastRunAt := after[i].lastRunAt, nextRunAt := after[i].nextRunAt);
  }

  lemma AgreementLoadRow(env: Env, s: State, clock: Time, writeOk: bool)
    requires OnePerJob(env, s.store) && Agreement(env, s) && s.phase.Loading? && s.phase.rows != []
    requires forall j, k :: 0 <= j < k < |s.phase.rows| ==> s.phase.rows[j].id != s.phase.rows[k].id
    requires s.phase.rows[0].id !in s.memory
    ensures var t := AfterLoadRow(env, s, s.phase.rows, clock, writeOk);
      OnePerJob(env, t.store) && Agreement(env, t)
  {
    var rows := s.phase.rows;
    var row := rows[0];
    var t := AfterLoadRow(env, s, rows, clock, writeOk);
    if t.phase.Loading? {
      if row.nextRunAt.None? {
        WriteKeepsOthers(env, s.store, row.id, row.lastRunAt.GetOr(clock), t.memory[row.id].nextRunAt);
      }
      AgreementInsert(env, s, t, rows, t.memory[row.id]);
    }
  }

  lemma AgreementInsert(env: Env, s: State, t: State, rows: seq<Schedule>, entry: Schedule)
    requires Agreement(env, s) && s.phase == Loading(rows) && rows != []
    requires forall j, k :: 0 <= j < k < |rows| ==> rows[j].id != rows[k].id
    requires t.memory == s.memory[rows[0].id := entry] && t.phase == Loading(rows[1..])
    requires Selected(env, t.store) == Selected(env, s.store)
    requires forall i :: i in Selected(env, s.store) && i != rows[0].id ==> t.store[i] == s.store[i]
    requires entry.id == rows[0].id && Stands(t.store[entry.id], entry, entry.id !in t.unsaved)
    requires s.unsaved <= t.unsaved <= s.unsaved + {entry.id}
    ensures Agreement(env, t)
  {
    RowsShift(rows);
    forall i | i in Selected(env, t.store) && i !in t.memory
      ensures exists k :: 0 <= k < |rows[1..]| && rows[1..][k].id == i
    {
      var k :| 0 <= k < |rows| && rows[k].id == i;
      assert rows[1..][k - 1].id == i;
    }
  }

  lemma RowsShift(rows: seq<Schedule>)
    requires rows != []
    ensures forall k :: 0 <= k < |rows[1..]| ==> rows[1..][k] == rows[k + 1]
  {
  }

  lemma AgreementWrite(env: Env, s: State, clock: Time, writeOk: bool)
    requires OnePerJob(env, s.store) && Agreement(env, s) && s.phase.Calculated?
    ensures var t := Next(env, s, clock, Write(writeOk)).value;
      OnePerJob(env, t.store) && Agreement(env, t)
  {
    hide UpdateLastRun, OnePerJob;
    if writeOk {
      hide Agreement;
      AttemptStored(env, s);
      WriteKeepsOthers(env, s.store, s.phase.entry.id, s.phase.stamp, Some(s.phase.next));
      AgreementWritten(env, s, Next(env, s, clock, Write(true)).value);
    }
  }

  lemma AgreementWritten(env: Env, s: State, t: State)
    requires Agreement(env, s) && s.phase.Calculated?
    requires var p := s.phase;
      && t.memory == s.memory && t.unsaved == s.unsaved - {p.entry.id}
      && t.phase == Written(p.now, p.todo, p.entry, p.stamp, p.next)
      && Selected(env, t.store) == Selected(env, s.store)
      && (forall i :: i in Selected(env, s.store) && i != p.entry.id ==> t.store[i] == s.store[i])
      && p.entry.id in Selected(env, s.store)
      && t.store[p.entry.id] == s.store[p.entry.id].(lastRunAt := Some(p.stamp), nextRunAt := Some(p.next))
    ensures Agreement(env, t)
  {
  }

  lemma AttemptStored(env: Env, s: State)
    requires Agreement(env, s) && s.phase.Calculated?
    ensures var entry := s.phase.entry;
      entry.id in Selected(env, s.store) && entry.id in s.memory && s.store[entry.id].jobId == entry.jobId
  {
    hide SchedulesForDevice;
  }

  lemma AgreementUpdate(env: Env, s: State)
    requires Agreement(env, s) && s.phase.Written?
    ensures var p := s.phase;
      Agreement(env, AfterUpdate(s, p.entry.id, p.stamp, p.next).(phase := Checking(p.now, p.todo)))
  {
  }

  lemma AgreementFetch(env: Env, s: State, start: Time, clock: Time, rows: seq<Schedule>)
    requires Inv(env, s, start, clock)
    requires Agreement(env, s) && s.phase.Down? && FetchedRows(env, s, rows)
    ensures Agreement(env, s.(memory := map[], loaded := map[], log := map[], failed := map[], phase := Loading(rows)))
  {
  }

  lemma AgreementPhase(env: Env, s: State, clock: Time, e: Event)
    requires Agreement(env, s) && Next(env, s, clock, e).Some?
    requires e.FetchFails? || e.BeginCheck? || e.EndCheck? || e.LoadDone?
    ensures Agreement(env, Next(env, s, clock, e).value)
  {
    if e.LoadDone? {
      forall i | i in Selected(env, s.store) ensures i in s.memory {
      }
    }
  }

  lemma AgreementVisit(env: Env, s: State, clock: Time, id: int, sendOk: bool)
    requires Agreement(env, s) && s.phase.Checking? && id in s.phase.todo
    ensures Agreement(env, AfterVisit(s, s.phase.now, s.phase.todo, id, clock, sendOk))
  {
  }

  lemma AgreementCalculate(env: Env, s: State, clock: Time)
    requires Agreement(env, s) && s.phase.Sent?
    ensures Agreement(env, Next(env, s, clock, Calculate).value)
  {
    hide CalculateNextRun, SchedulesForDevice, Stands;
  }

  lemma AgreementStep(env: Env, s: State, start: Time, clock: Time, e: Event)
    requires Inv(env, s, start, clock) && Next(env, s, clock, e).Some?
    requires OnePerJob(env, s.store) && Agreement(env, s)
    ensures OnePerJob(env, Next(env, s, clock, e).value.store) && Agreement(env, Next(env, s, clock, e).value)
  {
    hide Agreement, OnePerJob;
    match e
    case Fetch(rows) => AgreementFetch(env, s, start, clock, rows);
    case LoadRow(writeOk) => AgreementLoadRow(env, s, clock, writeOk);
    case Visit(id, sendOk) => AgreementVisit(env, s, clock, id, sendOk);
    case Calculate => AgreementCalculate(env, s, clock);
    case Write(writeOk) => AgreementWrite(env, s, clock, writeOk);
    case Update => AgreementUpdate(env, s);
    case _ => AgreementPhase(env, s, clock, e);
  }

  lemma {:induction false} AgreementExec(env: Env, s: State, start: Time, clock: Time, run: seq<Step>)
    requires Inv(env, s, start, clock) && Exec(env, s, clock, run).Some?
    requires OnePerJob(env, s.store) && Agreement(env, s)
    ensures OnePerJob(env, Exec(env, s, clock, run).value.store) && Agreement(env, Exec(env, s, clock, run).value)
    decreases |run|
  {
    hide Next, Inv, Agreement, OnePerJob;
    if run != [] {
      var c, e := run[0].clock, run[0].event;
      InvLater(env, s, start, clock, c);
      InvNext(env, s, start, c, e);
      AgreementStep(env, s, start, c, e);
      AgreementExec(env, Next(env, s, c, e).value, start, c, run[1..]);
    }
  }

  lemma InitAgreement(env: Env, s: State)
    requires Init(s)
    ensures Agreement(env, s)
  {
  }

  /** The fetched rows are all in memory. */
  predicate HasLoaded(p: Phase) {
    p.Idle? || p.Checking? || p.Sent? || p.Calculated? || p.Written?
  }

  /** The next time of schedule i once the step under way is complete in memory too. */
  function NextTime(s: State, i: int): Option<Time>
    requires i in s.memory
  {
    if s.phase.Written? && s.phase.entry.id == i then Some(s.phase.next) else s.memory[i].nextRunAt
  }

  /**
   With one schedule for each job, in every state of every run, whatever sends, calculations and writes failed, memory
   and store hold the same next time of a schedule if and only if it is not one whose next time the load could not
   save. Between a write and the update of memory it is the time about to be put into memory that the store holds.
   */
  lemma MemoryAgreesWithStore(env: Env, s: State, clock: Time, run: seq<Step>)
    requires Init(s) && OnePerJob(env, s.store) && Exec(env, s, clock, run).Some?
    ensures var t := Exec(env, s, clock, run).value;
      && (forall i :: i in t.memory ==>
            i in t.store && (t.store[i].nextRunAt == NextTime(t, i) <==> i !in t.unsaved))
      && (HasLoaded(t.phase) ==> t.memory.Keys == Selected(env, t.store))
  {
    hide Next, Inv;
    InitInv(env, s, clock);
    InitAgreement(env, s);
    AgreementExec(env, s, clock, clock, run);
    InvExec(env, s, clock, clock, run);
    SchedulerSafety.EntriesHaveNext(env, Exec(env, s, clock, run).value, clock, ClockAfter(clock, run));
  }

  // ---------- a restart ----------

  /** A run that loads the schedules and has not begun a check. */
  predicate OnlyLoads(run: seq<Step>) {
    forall k :: 0 <= k < |run| ==> !run[k].event.BeginCheck?
  }

  /**
   No check has begun, and every row of `store` that has a next time is still as it was, in memory too if it has been
   loaded.
   */
  ghost predicate LoadedAsStored(env: Env, s: State, store: map<int, Schedule>) {
    && (s.phase.Down? || s.phase.Stopped? || s.phase.Idle? || s.phase.Loading?)
    && Selected(env, s.store) == Selected(env, store)
    && (forall i :: i in Selected(env, store) && store[i].nextRunAt.Some? ==>
          s.store[i] == store[i] && (i in s.memory ==> s.memory[i] == store[i]))
  }

  lemma LoadingReadsStep(env: Env, s: State, clock: Time, e: Event, store: map<int, Schedule>)
    requires OnePerJob(env, s.store) && Agreement(env, s)
    requires LoadedAsStored(env, s, store) && Next(env, s, clock, e).Some? && !e.BeginCheck?
    ensures LoadedAsStored(env, Next(env, s, clock, e).value, store)
  {
    if e.LoadRow? {
      LoadingReadsRow(env, s, clock, e.writeOk, store);
    }
  }

  lemma LoadingReadsRow(env: Env, s: State, clock: Time, writeOk: bool, store: map<int, Schedule>)
    requires OnePerJob(env, s.store) && Agreement(env, s)
    requires LoadedAsStored(env, s, store) && s.phase.Loading? && s.phase.rows != []
    ensures LoadedAsStored(env, AfterLoadRow(env, s, s.phase.rows, clock, writeOk), store)
  {
    hide CalculateNextRun, UpdateLastRun, SchedulesForDevice, OnePerJob, Agreement;
    var row := s.phase.rows[0];
    RowHere(env, s);
    if row.nextRunAt.None? && LoadedEntry(env.cron, row, clock).Ok? && writeOk {
      var next := LoadedEntry(env.cron, row, clock).value.nextRunAt;
      WriteKeepsOthers(env, s.store, row.id, row.lastRunAt.GetOr(clock), next);
    }
  }

  lemma RowHere(env: Env, s: State)
    requires Agreement(env, s) && s.phase.Loading? && s.phase.rows != []
    ensures var row := s.phase.rows[0];
      row.id in Selected(env, s.store) && s.store[row.id] == row
  {
    hide SchedulesForDevice, Stands;
  }

  lemma {:induction false} LoadingReads(env: Env, s: State, start: Time, clock: Time, run: seq<Step>,
                                        store: map<int, Schedule>)
    requires Inv(env, s, start, clock) && OnePerJob(env, s.store) && Agreement(env, s)
    requires LoadedAsStored(env, s, store) && Exec(env, s, clock, run).Some? && OnlyLoads(run)
    ensures LoadedAsStored(env, Exec(env, s, clock, run).value, store)
    decreases |run|
  {
    hide Next, Inv, LoadedAsStored, Agreement, OnePerJob;
    if run != [] {
      var c, e := run[0].clock, run[0].event;
      InvLater(env, s, start, clock, c);
      InvNext(env, s, start, c, e);
      AgreementStep(env, s, start, c, e);
      LoadingReadsStep(env, s, c, e, store);
      LoadingReads(env, Next(env, s, c, e).value, start, c, run[1..], store);
    }
  }

  /**
   A restart is safe: started on the store that a process leaves behind after any step of any run, a new process loads
   every schedule with the next time that the old one had for it or was about to put into memory, whatever order the
   rows come in; only a next time that the old process never saved has to be calculated again.
   */
  lemma RestartIsSafe(env: Env, s: State, clock: Time, run: seq<Step>, s': State, clock': Time, run': seq<Step>)
    requires Init(s) && OnePerJob(env, s.store)
    requires Exec(env, s, clock, run).Some? && s'.store == Exec(env, s, clock, run).value.store
    requires Init(s') && OnlyLoads(run') && Exec(env, s', clock', run').Some?
    requires Exec(env, s', clock', run').value.phase.Idle?
    ensures var t, m' := Exec(env, s, clock, run).value, Exec(env, s', clock', run').value.memory;
      && t.memory.Keys <= m'.Keys
      && (HasLoaded(t.phase) ==> m'.Keys == t.memory.Keys)
      && (forall i :: i in t.memory && i !in t.unsaved ==> m'[i].nextRunAt == NextTime(t, i))
  {
    hide Next, Inv, Agreement, OnePerJob, SchedulesForDevice;
    var t := Exec(env, s, clock, run).value;
    InitInv(env, s, clock);
    InitAgreement(env, s);
    InvExec(env, s, clock, clock, run);
    AgreementExec(env, s, clock, clock, run);
    SchedulerSafety.EntriesHaveNext(env, t, clock, ClockAfter(clock, run));
    InitInv(env, s', clock');
    InitAgreement(env, s');
    AgreementExec(env, s', clock', clock', run');
    LoadingReads(env, s', clock', clock', run', t.store);
    LoadedAgain(env, t, Exec(env, s', clock', run').value);
  }

  lemma LoadedAgain(env: Env, t: State, u: State)
    requires Agreement(env, t) && (forall i :: i in t.memory ==> t.memory[i].nextRunAt.Some?)
    requires Agreement(env, u) && LoadedAsStored(env, u, t.store) && u.phase.Idle?
    ensures t.memory.Keys <= u.memory.Keys
    ensures HasLoaded(t.phase) ==> u.memory.Keys == t.memory.Keys
    ensures forall i :: i in t.memory && i !in t.unsaved ==> u.memory[i].nextRunAt == NextTime(t, i)
  {
    hide SchedulesForDevice;
  }

  // ---------- several schedules for one job ----------

  /**
   A reload that has to calculate a next time tells the store that the job has run: where no run was
   recorded the load itself becomes the last run, for every row of the job, while memory keeps none.
   */
  lemma LoadRecordsARun(cron: CronLib, store: map<int, Schedule>, row: Schedule, now: Time, i: int)
    requires row.nextRunAt.None? && row.lastRunAt.None? && i in store && store[i].jobId == row.jobId
    requires LoadedEntry(cron, row, now).Ok?
    ensures var entry := LoadedEntry(cron, row, now).value;
      && entry.lastRunAt.None?
      && StoreAfterLoad(store, row, entry, now, true)[i].lastRunAt == Some(now)
      && StoreAfterLoad(store, row, entry, now, true)[i].nextRunAt == entry.nextRunAt
      && (forall seconds :: HasInterval(row, seconds) ==>
            entry.nextRunAt == Some(now + seconds * SECOND) && !IsDue(entry, now))
  {
  }

  /** With a recorded run the load repeats it in every row of the job, with the next time it has calculated. */
  lemma LoadRepeatsLastRun(cron: CronLib, store: map<int, Schedule>, row: Schedule, last: Time, now: Time, i: int)
    requires row.nextRunAt.None? && row.lastRunAt == Some(last) && i in store && store[i].jobId == row.jobId
    requires LoadedEntry(cron, row, now).Ok?
    ensures var entry := LoadedEntry(cron, row, now).value;
      && entry == row.(nextRunAt := entry.nextRunAt)
      && StoreAfterLoad(store, row, entry, now, true)[i] ==
           store[i].(lastRunAt := Some(last), nextRunAt := entry.nextRunAt)
      && StoreAfterLoad(store, row, entry, now, false) == store
  {
  }

  /** A write for a job: the pair it carries. */
  datatype JobWrite = JobWrite(jobId: Uuid, last: Time, next: Option<Time>)

  function AfterWrites(store: map<int, Schedule>, writes: seq<JobWrite>): map<int, Schedule> {
    if writes == [] then
      store
    else
      var n := |writes| - 1;
      UpdateLastRun(AfterWrites(store, writes[..n]), writes[n].jobId, writes[n].last, writes[n].next)
  }

  /** After any writes, all rows of a job hold the pair that was written last for it, whichever schedule wrote it. */
  lemma {:induction false} RowsHoldLastWrite(store: map<int, Schedule>, writes: seq<JobWrite>, k: int, i: int)
    requires i in store && -1 <= k < |writes|
    requires k >= 0 ==> writes[k].jobId == store[i].jobId
    requires forall m :: k < m < |writes| ==> writes[m].jobId != store[i].jobId
    ensures i in AfterWrites(store, writes)
    ensures AfterWrites(store, writes)[i] ==
      if k < 0 then store[i] else store[i].(lastRunAt := Some(writes[k].last), nextRunAt := writes[k].next)
  {
    if writes != [] {
      var n := |writes| - 1;
      if k == n {
        RowsKeepJob(store, writes[..n], i);
      } else {
        RowsHoldLastWrite(store, writes[..n], k, i);
      }
    }
  }

  lemma {:induction false} RowsKeepJob(store: map<int, Schedule>, writes: seq<JobWrite>, i: int)
    requires i in store
    ensures i in AfterWrites(store, writes)
    ensures var row := AfterWrites(store, writes)[i];
      row == store[i].(lastRunAt := row.lastRunAt, nextRunAt := row.nextRunAt)
  {
    if writes != [] {
      RowsKeepJob(store, writes[..|writes| - 1], i);
    }
  }

  lemma {:induction false} FirstWriteFirst(store: map<int, Schedule>, w: JobWrite, rest: seq<JobWrite>)
    ensures AfterWrites(store, [w] + rest) == AfterWrites(UpdateLastRun(store, w.jobId, w.last, w.next), rest)
  {
    hide UpdateLastRun;
    if rest == [] {
      assert [w] + rest == [w] && [w][..0] == [];
    } else {
      FirstWriteFirst(store, w, rest[..|rest| - 1]);
      assert ([w] + rest)[..|rest|] == [w] + rest[..|rest| - 1];
    }
  }

  /** The write that a step makes, if it makes one: that of an attempt, or that of a load which had to calculate. */
  ghost function WriteOf(env: Env, s: State, clock: Time, e: Event): seq<JobWrite> {
    if e.Write? && e.writeOk && s.phase.Calculated? then
      [JobWrite(s.phase.entry.jobId, s.phase.stamp, Some(s.phase.next))]
    else if e.LoadRow? && e.writeOk && s.phase.Loading? && s.phase.rows != [] && s.phase.rows[0].nextRunAt.None? then
      var row := s.phase.rows[0];
      match LoadedEntry(env.cron, row, clock)
      case Err(_) => []
      case Ok(entry) => [JobWrite(row.jobId, row.lastRunAt.GetOr(clock), entry.nextRunAt)]
    else
      []
  }

  /** The writes of a run, in order. */
  ghost function WritesOf(env: Env, s: State, clock: Time, run: seq<Step>): seq<JobWrite>
    requires Exec(env, s, clock, run).Some?
    decreases |run|
  {
    if run == [] then
      []
    else
      var c, e := run[0].clock, run[0].event;
      WriteOf(env, s, c, e) + WritesOf(env, Next(env, s, c, e).value, c, run[1..])
  }

  lemma StoreStep(env: Env, s: State, clock: Time, e: Event)
    requires Next(env, s, clock, e).Some?
    ensures var writes := WriteOf(env, s, clock, e);
      Next(env, s, clock, e).value.store ==
      if writes == [] then s.store
      else UpdateLastRun(s.store, writes[0].jobId, writes[0].last, writes[0].next)
  {
    hide UpdateLastRun, CalculateNextRun, IsDue, FetchedRows;
  }

  /** The store after any run is the store before it after the writes of the run, each for all rows of a job. */
  lemma {:induction false} StoreIsItsWrites(env: Env, s: State, clock: Time, run: seq<Step>)
    requires Exec(env, s, clock, run).Some?
    ensures Exec(env, s, clock, run).value.store == AfterWrites(s.store, WritesOf(env, s, clock, run))
    decreases |run|
  {
    hide Next, UpdateLastRun, WriteOf;
    if run != [] {
      var c, e := run[0].clock, run[0].event;
      var t := Next(env, s, c, e).value;
      StoreStep(env, s, c, e);
      WritesOne(env, s, c, e);
      StoreIsItsWrites(env, t, c, run[1..]);
      var writes := WriteOf(env, s, c, e);
      var rest := WritesOf(env, t, c, run[1..]);
      if writes == [] {
        assert writes + rest == rest;
      } else {
        FirstWriteFirst(s.store, writes[0], rest);
        assert writes == [writes[0]];
      }
    }
  }

  lemma WritesOne(env: Env, s: State, clock: Time, e: Event)
    ensures |WriteOf(env, s, clock, e)| <= 1
  {
  }

  predicate Writes(writes: seq<JobWrite>, jobId: Uuid) {
    exists k :: 0 <= k < |writes| && writes[k].jobId == jobId
  }

  lemma {:induction false} LastWrite(writes: seq<JobWrite>, jobId: Uuid) returns (k: nat)
    requires Writes(writes, jobId)
    ensures k < |writes| && writes[k].jobId == jobId && forall m :: k < m < |writes| ==> writes[m].jobId != jobId
  {
    k := |writes| - 1;
    if writes[k].jobId != jobId {
      assert forall m :: 0 <= m < k ==> writes[..k][m] == writes[m];
      k := LastWrite(writes[..k], jobId);
    }
  }

  /**
   Once a run has written for a job all rows of the job hold one and the same pair, the last the run wrote for it;
   the rows of a job that it never wrote for are as they were.
   */
  lemma SiblingsShareOnePair(env: Env, s: State, clock: Time, run: seq<Step>, i: int, j: int)
    requires Exec(env, s, clock, run).Some?
    requires i in s.store && j in s.store && s.store[i].jobId == s.store[j].jobId
    ensures var t := Exec(env, s, clock, run).value.store;
      var written := Writes(WritesOf(env, s, clock, run), s.store[i].jobId);
      && i in t && j in t
      && (written ==> t[i].lastRunAt == t[j].lastRunAt && t[i].nextRunAt == t[j].nextRunAt)
      && (!written ==> t[i] == s.store[i] && t[j] == s.store[j])
  {
    hide Exec, WritesOf, AfterWrites, UpdateLastRun;
    var writes := WritesOf(env, s, clock, run);
    StoreIsItsWrites(env, s, clock, run);
    var k: int := -1;
    if Writes(writes, s.store[i].jobId) {
      k := LastWrite(writes, s.store[i].jobId);
    }
    RowsHoldLastWrite(s.store, writes, k, i);
    RowsHoldLastWrite(s.store, writes, k, j);
  }
}

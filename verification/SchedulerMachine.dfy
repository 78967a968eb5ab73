/**
 The scheduler task as a state machine. Each step ends where the program waits (for the
 queue, for the database, for the lock) so that other tasks and the clock can move in
 between. Failures and the order in which the hash map is visited are part of the event.
 */
module SchedulerMachine {
  import opened Wrappers
  import opened Models
  import opened ScheduleCalc
  import opened Queries
  import opened SendLog

  /** What stays fixed while the process lives. */
  datatype Env = Env(cron: CronLib, jobs: map<Uuid, BackupJob>, deviceId: string)

  datatype Phase =
    | Down
    | Loading(rows: seq<Schedule>)
    | Stopped
    | Idle
    | Checking(now: Time, todo: map<int, Schedule>)
    | Sent(now: Time, todo: map<int, Schedule>, entry: Schedule)
    | Calculated(now: Time, todo: map<int, Schedule>, entry: Schedule, stamp: Time, next: Time)
    | Written(now: Time, todo: map<int, Schedule>, entry: Schedule, stamp: Time, next: Time)

  /**
   `memory` and `store` are the program's; the rest records its history. `unsaved` holds the schedules whose next time
   was calculated by the load and could not be written then, until a run of theirs is written.
   */
  datatype State = State(
    memory: map<int, Schedule>,
    store: map<int, Schedule>,
    phase: Phase,
    loaded: map<int, Schedule>,
    log: map<int, seq<Visit>>,
    failed: map<int, nat>,
    unsaved: set<int>)

  datatype Event =
    | Fetch(rows: seq<Schedule>)
    | FetchFails
    | LoadRow(writeOk: bool)
    | LoadDone
    | BeginCheck
    | Visit(id: int, sendOk: bool)
    | Calculate
    | Write(writeOk: bool)
    | Update
    | EndCheck

  // ---------- reload_schedules ----------

  /** The entry that a fetched row becomes. */
  function LoadedEntry(cron: CronLib, row: Schedule, now: Time): Result<Schedule, AppError> {
    if row.nextRunAt.Some? then
      Ok(row)
    else
      match CalculateNextRun(cron, row, row.lastRunAt, now)
      case Err(e) => Err(e)
      case Ok(next) => Ok(row.(nextRunAt := Some(next)))
  }

  /** The store after that row: only a next time that was calculated is written, for the whole job. */
  function StoreAfterLoad(store: map<int, Schedule>, row: Schedule, entry: Schedule, now: Time,
                          writeOk: bool): map<int, Schedule> {
    if row.nextRunAt.Some? || !writeOk then
      store
    else
      UpdateLastRun(store, row.jobId, row.lastRunAt.GetOr(now), entry.nextRunAt)
  }

  ghost predicate FetchedRows(env: Env, s: State, rows: seq<Schedule>) {
    ResultSet(rows, s.store, SchedulesForDevice(s.store, env.jobs, env.deviceId))
  }

  // ---------- steps ----------

  /** The event puts a message on the queue. */
  predicate Sends(s: State, e: Event) {
    && e.Visit? && e.sendOk && s.phase.Checking? && e.id in s.phase.todo
    && s.phase.todo[e.id].enabled && IsDue(s.phase.todo[e.id], s.phase.now)
  }

  /** The state after event `e` at the instant `clock`, if the event is possible. */
  ghost function Next(env: Env, s: State, clock: Time, e: Event): Option<State> {
    match (s.phase, e)
    case (Down, Fetch(rows)) =>
      if FetchedRows(env, s, rows) then
        Some(s.(memory := map[], loaded := map[], log := map[], failed := map[], phase := Loading(rows)))
      else
        None
    case (Down, FetchFails) =>
      Some(s.(phase := Stopped))
    case (Loading(rows), LoadRow(writeOk)) =>
      if rows == [] then None else Some(AfterLoadRow(env, s, rows, clock, writeOk))
    case (Loading(rows), LoadDone) =>
      if rows == [] then Some(s.(phase := Idle)) else None
    case (Idle, BeginCheck) =>
      Some(s.(phase := Checking(clock, s.memory)))
    case (Checking(now, todo), Visit(id, sendOk)) =>
      if id in todo then Some(AfterVisit(s, now, todo, id, clock, sendOk)) else None
    case (Sent(now, todo, entry), Calculate) =>
      Some(match CalculateNextRun(env.cron, entry, Some(clock), clock)
           case Err(_) => Failing(s, entry.id, Checking(now, todo))
           case Ok(next) => s.(phase := Calculated(now, todo, entry, clock, next)))
    case (Calculated(now, todo, entry, stamp, next), Write(writeOk)) =>
      Some(if writeOk then
             s.(store := UpdateLastRun(s.store, entry.jobId, stamp, Some(next)),
                unsaved := s.unsaved - {entry.id},
                phase := Written(now, todo, entry, stamp, next))
           else
             Failing(s, entry.id, Checking(now, todo)))
    case (Written(now, todo, entry, stamp, next), Update) =>
      Some(AfterUpdate(s, entry.id, stamp, next).(phase := Checking(now, todo)))
    case (Checking(now, todo), EndCheck) =>
      if todo == map[] then Some(s.(phase := Idle)) else None
    case _ => None
  }

  ghost function AfterLoadRow(env: Env, s: State, rows: seq<Schedule>, clock: Time, writeOk: bool): State
    requires rows != []
  {
    var row := rows[0];
    match LoadedEntry(env.cron, row, clock)
    case Err(_) => s.(phase := Stopped)
    case Ok(entry) =>
      s.(memory := s.memory[row.id := entry],
         store := StoreAfterLoad(s.store, row, entry, clock, writeOk),
         loaded := s.loaded[row.id := entry],
         log := s.log[row.id := []],
         failed := s.failed[row.id := 0],
         unsaved := s.unsaved + if row.nextRunAt.None? && !writeOk then {row.id} else {},
         phase := Loading(rows[1..]))
  }

  /** A schedule that is disabled or not due is passed over, and so is one whose message is refused. */
  ghost function AfterVisit(s: State, now: Time, todo: map<int, Schedule>, id: int, clock: Time, sendOk: bool): State
    requires id in todo
  {
    var entry, rest := todo[id], todo - {id};
    if entry.enabled && IsDue(entry, now) && sendOk then
      var v := SendLog.Visit(entry.nextRunAt.GetOr(now), now, clock, None);
      s.(log := s.log[id := LogOf(s, id) + [v]], phase := Sent(now, rest, entry))
    else
      s.(phase := Checking(now, rest))
  }

  ghost function LogOf(s: State, id: int): seq<Visit> {
    if id in s.log then s.log[id] else []
  }

  ghost function FailedOf(s: State, id: int): nat {
    if id in s.failed then s.failed[id] else 0
  }

  ghost function Failing(s: State, id: int, phase: Phase): State {
    s.(failed := s.failed[id := FailedOf(s, id) + 1], phase := phase)
  }

  /** The entry of `memory` after a run, when the schedule is still there. */
  function MoveOn(memory: map<int, Schedule>, id: int, stamp: Time, next: Time): map<int, Schedule> {
    if id in memory then memory[id := memory[id].Moved(stamp, next)] else memory
  }

  ghost function AfterUpdate(s: State, id: int, stamp: Time, next: Time): State {
    var log := LogOf(s, id);
    s.(memory := MoveOn(s.memory, id, stamp, next),
       log := if log == [] then s.log else
                s.log[id := log[..|log| - 1] + [log[|log| - 1].(advance := Some(Advance(stamp, next)))]])
  }

  // ---------- what every step keeps ----------

  ghost predicate Attempting(p: Phase, i: int) {
    (p.Sent? || p.Calculated? || p.Written?) && p.entry.id == i
  }

  /** Schedule i: memory is the replay of a legal history, in which nothing that was sent is unaccounted for. */
  ghost predicate EntryOk(env: Env, s: State, i: int, start: Time, clock: Time) {
    && i in s.memory && i in s.loaded && i in s.log && i in s.failed
    && s.loaded[i].id == i && s.memory[i].id == i && s.loaded[i].nextRunAt.Some?
    && s.memory[i] == Replay(s.loaded[i], s.log[i])
    && Legal(env.cron, s.loaded[i], s.log[i])
    && EndsBy(s.log[i], clock) && (s.log[i] != [] ==> start <= s.log[i][0].check)
    && |s.log[i]| == Advances(s.log[i]) + s.failed[i] + if Attempting(s.phase, i) then 1 else 0
  }

  predicate EndsBy(log: seq<Visit>, t: Time) {
    log != [] ==> log[|log| - 1].End() <= t
  }

  ghost predicate TodoOk(s: State, now: Time, todo: map<int, Schedule>) {
    forall i :: i in todo ==> i in s.memory && todo[i] == s.memory[i] && i in s.log && EndsBy(s.log[i], now)
  }

  ghost predicate AttemptOk(env: Env, s: State, clock: Time) {
    var p := s.phase;
    (p.Sent? || p.Calculated? || p.Written?) ==>
      var id := p.entry.id;
      && id in s.memory && s.memory[id] == p.entry && id !in p.todo && id in s.log
      && s.log[id] != [] && s.log[id][|s.log[id]| - 1].advance.None?
      && (!p.Sent? ==> s.log[id][|s.log[id]| - 1].sent <= p.stamp <= clock
                       && CalculateNextRun(env.cron, p.entry, Some(p.stamp), p.stamp) == Ok(p.next))
  }

  ghost predicate PhaseOk(env: Env, s: State, start: Time, clock: Time) {
    && start <= clock
    && match s.phase
       case Down => s.memory == map[]
       case Loading(rows) =>
         && (forall j, k :: 0 <= j < k < |rows| ==> rows[j].id != rows[k].id)
         && (forall k :: 0 <= k < |rows| ==> rows[k].id !in s.memory)
       case Stopped => true
       case Idle => true
       case _ =>
         start <= s.phase.now <= clock && TodoOk(s, s.phase.now, s.phase.todo) && AttemptOk(env, s, clock)
  }

  ghost predicate Inv(env: Env, s: State, start: Time, clock: Time) {
    && s.loaded.Keys == s.memory.Keys && s.log.Keys == s.memory.Keys && s.failed.Keys == s.memory.Keys
    && (forall i :: i in s.memory ==> EntryOk(env, s, i, start, clock))
    && PhaseOk(env, s, start, clock)
  }

  /** A process that has not started, on any contents of the store. */
  ghost predicate Init(s: State) {
    s == State(map[], s.store, Down, map[], map[], map[], {})
  }

  lemma InitInv(env: Env, s: State, clock: Time)
    requires Init(s)
    ensures Inv(env, s, clock, clock)
  {
  }

  lemma InvLater(env: Env, s: State, start: Time, clock: Time, later: Time)
    requires Inv(env, s, start, clock) && clock <= later
    ensures Inv(env, s, start, later)
  {
    forall i | i in s.memory ensures EntryOk(env, s, i, start, later) {
      assert EntryOk(env, s, i, start, clock);
    }
  }

  lemma InvLoadRow(env: Env, s: State, start: Time, clock: Time, writeOk: bool)
    requires Inv(env, s, start, clock) && s.phase.Loading? && s.phase.rows != []
    ensures Inv(env, AfterLoadRow(env, s, s.phase.rows, clock, writeOk), start, clock)
  {
    hide CalculateNextRun, UpdateLastRun;
    var rows := s.phase.rows;
    var t := AfterLoadRow(env, s, rows, clock, writeOk);
    if !t.phase.Stopped? {
      assert rows[1..] == t.phase.rows;
      forall i | i in t.memory ensures EntryOk(env, t, i, start, clock) {
        if i != rows[0].id { assert EntryOk(env, s, i, start, clock); }
      }
    } else {
      forall i | i in t.memory ensures EntryOk(env, t, i, start, clock) {
        assert EntryOk(env, s, i, start, clock);
      }
    }
  }

  lemma AppendVisit(cron: CronLib, loaded: Schedule, log: seq<Visit>, v: Visit)
    requires Legal(cron, loaded, log) && LegalVisit(cron, Replay(loaded, log), v) && EndsBy(log, v.check)
    requires v.advance.None?
    ensures Legal(cron, loaded, log + [v])
    ensures Replay(loaded, log + [v]) == Replay(loaded, log)
    ensures Advances(log + [v]) == Advances(log)
  {
    assert (log + [v])[..|log|] == log;
  }

  lemma VisitIsLegal(cron: CronLib, entry: Schedule, v: SendLog.Visit)
    requires v.advance.None? && entry.nextRunAt == Some(v.due) && v.due <= v.check <= v.sent
    ensures LegalVisit(cron, entry, v)
  {
  }

  /** The history of the schedule whose message has just been sent. */
  lemma EntrySent(env: Env, s: State, start: Time, clock: Time, id: int)
    requires Inv(env, s, start, clock) && s.phase.Checking? && id in s.phase.todo
    requires var t := AfterVisit(s, s.phase.now, s.phase.todo, id, clock, true); t.phase.Sent?
    ensures EntryOk(env, AfterVisit(s, s.phase.now, s.phase.todo, id, clock, true), id, start, clock)
  {
    hide Legal, LegalVisit, Replay, Advances, CalculateNextRun;
    assert EntryOk(env, s, id, start, clock);
    ReplayKeepsRule(s.loaded[id], s.log[id]);
    var t := AfterVisit(s, s.phase.now, s.phase.todo, id, clock, true);
    var v := t.log[id][|s.log[id]|];
    VisitIsLegal(env.cron, s.memory[id], v);
    AppendVisit(env.cron, s.loaded[id], s.log[id], v);
  }

  lemma EntryHere(env: Env, s: State, start: Time, clock: Time, id: int)
    requires Inv(env, s, start, clock) && s.phase.Checking? && id in s.phase.todo
    ensures id in s.memory && s.phase.todo[id] == s.memory[id] && s.memory[id].id == id && id in s.log
  {
    hide Legal, LegalVisit, Replay, Advances, CalculateNextRun;
    assert EntryOk(env, s, id, start, clock);
  }

  lemma SentPhaseOk(env: Env, s: State, start: Time, clock: Time, id: int)
    requires Inv(env, s, start, clock) && s.phase.Checking? && id in s.phase.todo
    requires var t := AfterVisit(s, s.phase.now, s.phase.todo, id, clock, true); t.phase.Sent?
    ensures PhaseOk(env, AfterVisit(s, s.phase.now, s.phase.todo, id, clock, true), start, clock)
  {
    hide EntryOk, Legal, LegalVisit, Replay, Advances, CalculateNextRun, IsDue;
    var t := AfterVisit(s, s.phase.now, s.phase.todo, id, clock, true);
    EntryHere(env, s, start, clock, id);
  }

  lemma InvSent(env: Env, s: State, start: Time, clock: Time, id: int)
    requires Inv(env, s, start, clock) && s.phase.Checking? && id in s.phase.todo
    requires var t := AfterVisit(s, s.phase.now, s.phase.todo, id, clock, true); t.phase.Sent?
    ensures Inv(env, AfterVisit(s, s.phase.now, s.phase.todo, id, clock, true), start, clock)
  {
    hide Legal, LegalVisit, Replay, Advances, CalculateNextRun, IsDue, PhaseOk;
    var t := AfterVisit(s, s.phase.now, s.phase.todo, id, clock, true);
    EntryHere(env, s, start, clock, id);
    EntrySent(env, s, start, clock, id);
    SentPhaseOk(env, s, start, clock, id);
    forall i | i in t.memory && i != id ensures EntryOk(env, t, i, start, clock) {
      assert EntryOk(env, s, i, start, clock);
    }
  }

  lemma InvVisit(env: Env, s: State, start: Time, clock: Time, id: int, sendOk: bool)
    requires Inv(env, s, start, clock) && s.phase.Checking? && id in s.phase.todo
    ensures Inv(env, AfterVisit(s, s.phase.now, s.phase.todo, id, clock, sendOk), start, clock)
  {
    var t := AfterVisit(s, s.phase.now, s.phase.todo, id, clock, sendOk);
    if t.phase.Sent? {
      InvSent(env, s, start, clock, id);
    } else {
      InvPhase(env, s, t, start, clock);
    }
  }

  lemma AdvanceVisit(cron: CronLib, loaded: Schedule, log: seq<Visit>, stamp: Time, next: Time)
    requires Legal(cron, loaded, log) && log != [] && log[|log| - 1].advance.None? && log[|log| - 1].sent <= stamp
    requires CalculateNextRun(cron, Replay(loaded, log), Some(stamp), stamp) == Ok(next)
    ensures var n := |log| - 1;
      var log' := log[..n] + [log[n].(advance := Some(Advance(stamp, next)))];
      && Legal(cron, loaded, log')
      && Replay(loaded, log') == Replay(loaded, log).Moved(stamp, next)
      && Advances(log') == Advances(log) + 1
  {
    var n := |log| - 1;
    var log' := log[..n] + [log[n].(advance := Some(Advance(stamp, next)))];
    assert log'[..n] == log[..n];
  }

  lemma EntryUpdated(env: Env, s: State, start: Time, clock: Time)
    requires Inv(env, s, start, clock) && s.phase.Written?
    ensures var p := s.phase;
      EntryOk(env, AfterUpdate(s, p.entry.id, p.stamp, p.next).(phase := Checking(p.now, p.todo)), p.entry.id,
              start, clock)
  {
    hide Legal, LegalVisit, Replay, Advances, CalculateNextRun;
    var p := s.phase;
    assert EntryOk(env, s, p.entry.id, start, clock);
    AdvanceVisit(env.cron, s.loaded[p.entry.id], s.log[p.entry.id], p.stamp, p.next);
  }

  lemma UpdatedPhaseOk(env: Env, s: State, start: Time, clock: Time)
    requires Inv(env, s, start, clock) && s.phase.Written?
    ensures var p := s.phase;
      PhaseOk(env, AfterUpdate(s, p.entry.id, p.stamp, p.next).(phase := Checking(p.now, p.todo)), start, clock)
  {
    hide EntryOk, CalculateNextRun;
  }

  lemma InvUpdate(env: Env, s: State, start: Time, clock: Time)
    requires Inv(env, s, start, clock) && s.phase.Written?
    ensures var p := s.phase;
      Inv(env, AfterUpdate(s, p.entry.id, p.stamp, p.next).(phase := Checking(p.now, p.todo)), start, clock)
  {
    hide Legal, LegalVisit, Replay, Advances, CalculateNextRun, PhaseOk;
    var p := s.phase;
    var t := AfterUpdate(s, p.entry.id, p.stamp, p.next).(phase := Checking(p.now, p.todo));
    EntryUpdated(env, s, start, clock);
    UpdatedPhaseOk(env, s, start, clock);
    AttemptHere(env, s, start, clock);
    forall i | i in t.memory && i != p.entry.id ensures EntryOk(env, t, i, start, clock) {
      assert EntryOk(env, s, i, start, clock);
    }
  }

  lemma AttemptHere(env: Env, s: State, start: Time, clock: Time)
    requires Inv(env, s, start, clock) && (s.phase.Sent? || s.phase.Calculated? || s.phase.Written?)
    ensures s.phase.entry.id in s.memory && s.memory[s.phase.entry.id] == s.phase.entry
  {
    hide EntryOk;
  }

  lemma InvFailing(env: Env, s: State, start: Time, clock: Time)
    requires Inv(env, s, start, clock) && (s.phase.Sent? || s.phase.Calculated?)
    ensures Inv(env, Failing(s, s.phase.entry.id, Checking(s.phase.now, s.phase.todo)), start, clock)
  {
    var t := Failing(s, s.phase.entry.id, Checking(s.phase.now, s.phase.todo));
    forall i | i in t.memory ensures EntryOk(env, t, i, start, clock) {
      assert EntryOk(env, s, i, start, clock);
    }
  }

  /** A step that changes no entry, no history and no attempt keeps the entries as they are. */
  lemma InvPhase(env: Env, s: State, t: State, start: Time, clock: Time)
    requires Inv(env, s, start, clock)
    requires t == s.(store := t.store, phase := t.phase, unsaved := t.unsaved)
    requires forall i :: Attempting(t.phase, i) <==> Attempting(s.phase, i)
    requires PhaseOk(env, t, start, clock)
    ensures Inv(env, t, start, clock)
  {
    forall i | i in t.memory ensures EntryOk(env, t, i, start, clock) {
      assert EntryOk(env, s, i, start, clock);
    }
  }

  lemma CalculatedPhaseOk(env: Env, s: State, start: Time, clock: Time, next: Time)
    requires Inv(env, s, start, clock) && s.phase.Sent?
    requires CalculateNextRun(env.cron, s.phase.entry, Some(clock), clock) == Ok(next)
    ensures PhaseOk(env, s.(phase := Calculated(s.phase.now, s.phase.todo, s.phase.entry, clock, next)), start, clock)
  {
    hide Legal, LegalVisit, Replay, Advances, CalculateNextRun;
    assert EntryOk(env, s, s.phase.entry.id, start, clock);
  }

  lemma InvCalculate(env: Env, s: State, start: Time, clock: Time)
    requires Inv(env, s, start, clock) && s.phase.Sent?
    ensures Inv(env, Next(env, s, clock, Calculate).value, start, clock)
  {
    hide Inv, PhaseOk, CalculateNextRun;
    match CalculateNextRun(env.cron, s.phase.entry, Some(clock), clock)
    case Ok(next) =>
      CalculatedPhaseOk(env, s, start, clock, next);
      InvPhase(env, s, s.(phase := Calculated(s.phase.now, s.phase.todo, s.phase.entry, clock, next)), start, clock);
    case Err(_) =>
      InvFailing(env, s, start, clock);
  }

  lemma InvWrite(env: Env, s: State, start: Time, clock: Time, writeOk: bool)
    requires Inv(env, s, start, clock) && s.phase.Calculated?
    ensures Inv(env, Next(env, s, clock, Write(writeOk)).value, start, clock)
  {
    var t := Next(env, s, clock, Write(writeOk)).value;
    if writeOk {
      InvPhase(env, s, t, start, clock);
    } else {
      InvFailing(env, s, start, clock);
    }
  }

  /** Every step keeps the invariant. */
  lemma InvNext(env: Env, s: State, start: Time, clock: Time, e: Event)
    requires Inv(env, s, start, clock) && Next(env, s, clock, e).Some?
    ensures Inv(env, Next(env, s, clock, e).value, start, clock)
  {
    match e
    case Fetch(_) =>
    case LoadRow(writeOk) => InvLoadRow(env, s, start, clock, writeOk);
    case Visit(id, sendOk) => InvVisit(env, s, start, clock, id, sendOk);
    case Calculate => InvCalculate(env, s, start, clock);
    case Write(writeOk) => InvWrite(env, s, start, clock, writeOk);
    case Update => InvUpdate(env, s, start, clock);
    case BeginCheck => InvBegin(env, s, start, clock);
    case _ => InvPhase(env, s, Next(env, s, clock, e).value, start, clock);
  }

  lemma InvBegin(env: Env, s: State, start: Time, clock: Time)
    requires Inv(env, s, start, clock) && s.phase.Idle?
    ensures Inv(env, s.(phase := Checking(clock, s.memory)), start, clock)
  {
    var t := s.(phase := Checking(clock, s.memory));
    forall i | i in s.memory ensures i in s.log && EndsBy(s.log[i], clock) {
      assert EntryOk(env, s, i, start, clock);
    }
    InvPhase(env, s, t, start, clock);
  }

  // ---------- whole runs ----------

  /** One step, with the instant at which it is taken. */
  datatype Step = Step(clock: Time, event: Event)

  /** The state that a run ends in, if every step of it is possible and the clock never goes back. */
  ghost function Exec(env: Env, s: State, clock: Time, run: seq<Step>): Option<State>
    decreases |run|
  {
    if run == [] then
      Some(s)
    else if run[0].clock < clock then
      None
    else
      match Next(env, s, run[0].clock, run[0].event)
      case None => None
      case Some(t) => Exec(env, t, run[0].clock, run[1..])
  }

  function ClockAfter(clock: Time, run: seq<Step>): Time {
    if run == [] then clock else run[|run| - 1].clock
  }

  lemma {:induction false} InvExec(env: Env, s: State, start: Time, clock: Time, run: seq<Step>)
    requires Inv(env, s, start, clock) && Exec(env, s, clock, run).Some?
    ensures Inv(env, Exec(env, s, clock, run).value, start, ClockAfter(clock, run))
    decreases |run|
  {
    hide Next, Inv;
    if run != [] {
      InvLater(env, s, start, clock, run[0].clock);
      InvNext(env, s, start, run[0].clock, run[0].event);
      InvExec(env, Next(env, s, run[0].clock, run[0].event).value, start, run[0].clock, run[1..]);
    }
  }
}

/** The scheduler object: its map of schedules, its end of the job queue, and its database. */
module Scheduler {
  import opened Wrappers
  import opened Models
  import opened ScheduleCalc
  import opened Queries
  import opened SchedulerMachine
  import opened Arithmetic
  import SendLog

  /** What one call of `queue_job` meets: the answer of the queue, the clock after it, the answer of the database. */
  datatype Attempt = Attempt(sendOk: bool, now: Time, writeOk: bool)

  // ---------- what a check does, without the order in which it does it ----------

  predicate Sending(s: Schedule, now: Time, a: Attempt) {
    s.enabled && IsDue(s, now) && a.sendOk
  }

  /** The attempt goes through to the end. */
  predicate Succeeds(cron: CronLib, s: Schedule, a: Attempt) {
    a.sendOk && CalculateNextRun(cron, s, Some(a.now), a.now).Ok? && a.writeOk
  }

  /** The entry after a check at `now`. */
  function Visited(cron: CronLib, s: Schedule, now: Time, a: Attempt): Schedule {
    if s.enabled && IsDue(s, now) && Succeeds(cron, s, a) then
      s.Moved(a.now, CalculateNextRun(cron, s, Some(a.now), a.now).value)
    else
      s
  }

  function CheckedMemory(cron: CronLib, memory: map<int, Schedule>, now: Time,
                         attempts: int -> Attempt): map<int, Schedule> {
    map i | i in memory :: Visited(cron, memory[i], now, attempts(i))
  }

  /** The schedules among `keys` for which `m` is sent. */
  function SendersOf(memory: map<int, Schedule>, keys: set<int>, now: Time, attempts: int -> Attempt,
                     m: JobExecution): set<int> {
    set i | i in keys && i in memory && Sending(memory[i], now, attempts(i))
      && m == JobExecution(memory[i].jobId, "schedule")
  }

  /** The store after the attempt of one schedule. */
  function StoreAfterVisit(cron: CronLib, store: map<int, Schedule>, s: Schedule, now: Time,
                           a: Attempt): map<int, Schedule> {
    if s.enabled && IsDue(s, now) && Succeeds(cron, s, a) then
      UpdateLastRun(store, s.jobId, a.now, Visited(cron, s, now, a).nextRunAt)
    else
      store
  }

  /** The store after the schedules of `order`, each of which writes all rows of its job. */
  function StoreAfterVisits(cron: CronLib, store: map<int, Schedule>, memory: map<int, Schedule>, order: seq<int>,
                            now: Time, attempts: int -> Attempt): map<int, Schedule> {
    if order == [] then
      store
    else
      var n := |order| - 1;
      var before := StoreAfterVisits(cron, store, memory, order[..n], now, attempts);
      if order[n] in memory then
        StoreAfterVisit(cron, before, memory[order[n]], now, attempts(order[n]))
      else
        before
  }

  /** Each key of `keys` once, in some order. */
  predicate Enumerates(order: seq<int>, keys: set<int>) {
    && (forall k :: 0 <= k < |order| ==> order[k] in keys)
    && (forall j, k :: 0 <= j < k < |order| ==> order[j] != order[k])
    && (forall i :: i in keys ==> i in order)
  }

  // ---------- the object ----------

  class Database {
    var schedules: map<int, Schedule>

    constructor (schedules: map<int, Schedule>)
      ensures this.schedules == schedules
    {
      this.schedules := schedules;
    }

    method UpdateScheduleLastRun(jobId: Uuid, last: Time, next: Option<Time>, ok: bool)
      returns (r: Result<(), AppError>)
      modifies this
      ensures r == if ok then Ok(()) else Err(QueryFailed)
      ensures schedules == if ok then UpdateLastRun(old(schedules), jobId, last, next) else old(schedules)
    {
      if !ok {
        return Err(QueryFailed);
      }
      schedules := UpdateLastRun(schedules, jobId, last, next);
      r := Ok(());
    }
  }

  class Scheduler {
    const cron: CronLib
    const db: Database
    var schedules: map<int, Schedule>
    var queued: seq<JobExecution>

    ghost predicate Valid()
      reads this
    {
      forall i :: i in schedules ==> schedules[i].id == i
    }

    constructor (cron: CronLib, db: Database)
      ensures Valid() && this.cron == cron && this.db == db && schedules == map[] && queued == []
    {
      this.cron := cron;
      this.db := db;
      schedules := map[];
      queued := [];
    }

    method QueueJob(schedule: Schedule, a: Attempt) returns (r: Result<(), AppError>)
      requires Valid()
      modifies this, db
      ensures Valid()
      ensures queued == old(queued) + if a.sendOk then [JobExecution(schedule.jobId, "schedule")] else []
      ensures r.Ok? <==> Succeeds(cron, schedule, a)
      ensures r.Err? ==>
        var next := CalculateNextRun(cron, schedule, Some(a.now), a.now);
        r.error == if !a.sendOk then JobNotFound else if next.Err? then next.error else QueryFailed
      ensures r.Ok? ==>
        var next := CalculateNextRun(cron, schedule, Some(a.now), a.now).value;
        && db.schedules == UpdateLastRun(old(db.schedules), schedule.jobId, a.now, Some(next))
        && schedules == MoveOn(old(schedules), schedule.id, a.now, next)
      ensures r.Err? ==> schedules == old(schedules) && db.schedules == old(db.schedules)
    {
      var execution := JobExecution(schedule.jobId, "schedule");
      if !a.sendOk {
        return Err(JobNotFound);
      }
      queued := queued + [execution];

      var now := a.now;
      var next := CalculateNextRun(cron, schedule, Some(now), now);
      if next.Err? {
        return Err(next.error);
      }

      var written := db.UpdateScheduleLastRun(schedule.jobId, now, Some(next.value), a.writeOk);
      if written.Err? {
        return written;
      }

      if schedule.id in schedules {
        var s := schedules[schedule.id];
        schedules := schedules[schedule.id := s.(lastRunAt := Some(now), nextRunAt := Some(next.value))];
      }
      r := Ok(());
    }

    /**
     One check. The hash map hands out its entries in any order: the order is chosen here
     and reported. Memory afterwards does not depend on it, nor does the number of messages
     sent for each job: one for each due, enabled schedule whose send was accepted.
     */
    method CheckSchedules(now: Time, attempts: int -> Attempt) returns (order: seq<int>)
      requires Valid()
      modifies this, db
      ensures Valid()
      ensures schedules == CheckedMemory(cron, old(schedules), now, attempts)
      ensures Enumerates(order, old(schedules).Keys)
      ensures db.schedules == StoreAfterVisits(cron, old(db.schedules), old(schedules), order, now, attempts)
      ensures queued == old(queued) + MessagesInOrder(old(schedules), order, now, attempts)
      ensures forall m ::
        multiset(queued[|old(queued)|..])[m] ==
        |set i | && i in old(schedules) && old(schedules)[i].enabled && attempts(i).sendOk
                 && (old(schedules)[i].nextRunAt.None? || old(schedules)[i].nextRunAt.value <= now)
                 && m == JobExecution(old(schedules)[i].jobId, "schedule")|
    {
      hide Visited, Succeeds, StoreAfterVisit, StoreAfterVisits, SendersOf, Enumerates, CheckedSoFar,
        MessagesInOrder;
      var snapshot := schedules;
      var todo := snapshot.Keys;
      order := [];
      ghost var sent: seq<JobExecution> := [];
      CheckedNone(cron, schedules, db.schedules, now, attempts);
      while todo != {}
        invariant todo <= snapshot.Keys
        invariant CheckedSoFar(cron, snapshot, old(db.schedules), schedules, db.schedules, snapshot.Keys - todo,
                               order, sent, now, attempts)
        invariant queued == old(queued) + sent
        decreases todo
      {
        ghost var some := AnElement(todo);
        var id :| id in todo;
        var schedule := snapshot[id];
        ghost var memory, store, message := schedules, db.schedules, [];
        ghost var done := snapshot.Keys - todo;
        CheckedHere(cron, snapshot, old(db.schedules), memory, store, done, order, sent, now, attempts, id);
        if schedule.enabled {
          if IsDue(schedule, now) {
            var r := QueueJob(schedule, attempts(id));
            message := if attempts(id).sendOk then [JobExecution(schedule.jobId, "schedule")] else [];
          }
        }
        VisitDone(cron, memory, store, schedule, now, attempts(id));
        CheckedMore(cron, snapshot, old(db.schedules), memory, store, done, order, sent, now, attempts, id);
        assert message == MessagesOf(schedule, now, attempts(id));
        order := order + [id];
        sent := sent + message;
        todo := todo - {id};
        assert snapshot.Keys - todo == done + {id};
      }
      assert snapshot.Keys - todo == snapshot.Keys;
      CheckedAll(cron, snapshot, old(db.schedules), schedules, db.schedules, order, sent, now, attempts);
      assert queued[|old(queued)|..] == sent;
      SendersAre(snapshot, now, attempts);
    }

    /** Sends for a job without looking at its schedules. */
    method TriggerManualBackup(jobId: Uuid, sendOk: bool) returns (r: Result<(), AppError>)
      modifies this
      ensures schedules == old(schedules)
      ensures r == if sendOk then Ok(()) else Err(JobNotFound)
      ensures queued == old(queued) + if sendOk then [JobExecution(jobId, "manual")] else []
    {
      if !sendOk {
        return Err(JobNotFound);
      }
      queued := queued + [JobExecution(jobId, "manual")];
      r := Ok(());
    }

    /**
     Loads the fetched rows in turn and stops at the first whose next time cannot be calculated.
     `n` rows have been loaded by then; what they became stays in memory.
     */
    method ReloadSchedules(rows: Option<seq<Schedule>>, clock: nat -> Time, writeOk: nat -> bool)
      returns (r: Result<(), AppError>, n: nat)
      requires Valid()
      requires rows.Some? ==> forall j, k :: 0 <= j < k < |rows.value| ==> rows.value[j].id != rows.value[k].id
      modifies this, db
      ensures Valid() && queued == old(queued)
      ensures rows.None? ==> r == Err(QueryFailed) && schedules == old(schedules) && db.schedules == old(db.schedules)
      ensures rows.Some? ==>
        && n <= |rows.value|
        && (r.Ok? <==> n == |rows.value|)
        && (n < |rows.value| ==> r.Err? && LoadedEntry(cron, rows.value[n], clock(n)) == Err(r.error))
        && schedules.Keys == (set k | 0 <= k < n :: rows.value[k].id)
        && (forall k :: 0 <= k < n ==>
              LoadedEntry(cron, rows.value[k], clock(k)) == Ok(schedules[rows.value[k].id]))
        && db.schedules == StoreAfterLoads(cron, old(db.schedules), rows.value[..n], clock, writeOk)
      ensures rows.Some? ==> forall i :: i in schedules ==> schedules[i].nextRunAt.Some?
    {
      hide CalculateNextRun, UpdateLastRun, LoadedEntry, StoreAfterLoad, StoreAfterLoads, LoadedSoFar;
      n := 0;
      if rows.None? {
        return Err(QueryFailed), 0;
      }
      var dbSchedules := rows.value;
      schedules := map[];
      LoadedNone(cron, dbSchedules, db.schedules, clock, writeOk);
      while n < |dbSchedules|
        invariant queued == old(queued) && n <= |dbSchedules|
        invariant LoadedSoFar(cron, dbSchedules, n, schedules, db.schedules, old(db.schedules), clock, writeOk)
      {
        var schedule := dbSchedules[n];
        var now := clock(n);
        LoadedMore(cron, dbSchedules, n, schedules, db.schedules, old(db.schedules), clock, writeOk);
        if schedule.nextRunAt.None? {
          var nextRun := CalculateNextRun(cron, schedule, schedule.lastRunAt, now);
          if nextRun.Err? {
            LoadedAll(cron, dbSchedules, n, schedules, db.schedules, old(db.schedules), clock, writeOk);
            return Err(nextRun.error), n;
          }
          schedule := schedule.(nextRunAt := Some(nextRun.value));
          var written := db.UpdateScheduleLastRun(
            schedule.jobId, schedule.lastRunAt.GetOr(now), Some(nextRun.value), writeOk(n));
        }
        schedules := schedules[schedule.id := schedule];
        n := n + 1;
      }
      LoadedAll(cron, dbSchedules, n, schedules, db.schedules, old(db.schedules), clock, writeOk);
      r := Ok(());
    }
  }

  // ---------- the loop of a reload ----------

  /** Where a reload stands when the first n rows have been loaded. */
  ghost predicate LoadedSoFar(cron: CronLib, rows: seq<Schedule>, n: nat, memory: map<int, Schedule>,
                              store: map<int, Schedule>, store0: map<int, Schedule>,
                              clock: nat -> Time, writeOk: nat -> bool)
  {
    && n <= |rows|
    && (forall i :: i in memory ==> memory[i].id == i && memory[i].nextRunAt.Some?)
    && memory.Keys == (set k | 0 <= k < n :: rows[k].id)
    && (forall k :: 0 <= k < n ==> LoadedEntry(cron, rows[k], clock(k)) == Ok(memory[rows[k].id]))
    && store == StoreAfterLoads(cron, store0, rows[..n], clock, writeOk)
  }

  lemma LoadedNone(cron: CronLib, rows: seq<Schedule>, store: map<int, Schedule>, clock: nat -> Time,
                   writeOk: nat -> bool)
    ensures LoadedSoFar(cron, rows, 0, map[], store, store, clock, writeOk)
  {
  }

  /** What loading row n comes to, in the branches the program takes. */
  lemma LoadedMore(cron: CronLib, rows: seq<Schedule>, n: nat, memory: map<int, Schedule>, store: map<int, Schedule>,
                   store0: map<int, Schedule>, clock: nat -> Time, writeOk: nat -> bool)
    requires LoadedSoFar(cron, rows, n, memory, store, store0, clock, writeOk) && n < |rows|
    requires forall j, k :: 0 <= j < k < |rows| ==> rows[j].id != rows[k].id
    ensures var row, now := rows[n], clock(n);
      var next := CalculateNextRun(cron, row, row.lastRunAt, now);
      && (row.nextRunAt.Some? ==>
            LoadedSoFar(cron, rows, n + 1, memory[row.id := row], store, store0, clock, writeOk))
      && (row.nextRunAt.None? && next.Err? ==> LoadedEntry(cron, row, now) == Err(next.error))
      && (row.nextRunAt.None? && next.Ok? ==>
            LoadedSoFar(cron, rows, n + 1, memory[row.id := row.(nextRunAt := Some(next.value))],
                        if writeOk(n) then UpdateLastRun(store, row.jobId, row.lastRunAt.GetOr(now), Some(next.value))
                        else store,
                        store0, clock, writeOk))
  {
    hide CalculateNextRun, UpdateLastRun, LoadedSoFar;
    var row, now := rows[n], clock(n);
    if row.nextRunAt.Some? {
      LoadedInsert(cron, rows, n, memory, store, store0, clock, writeOk, row);
    } else {
      var next := CalculateNextRun(cron, row, row.lastRunAt, now);
      if next.Ok? {
        LoadedInsert(cron, rows, n, memory, store, store0, clock, writeOk, row.(nextRunAt := Some(next.value)));
      }
    }
  }

  lemma LoadedInsert(cron: CronLib, rows: seq<Schedule>, n: nat, memory: map<int, Schedule>, store: map<int, Schedule>,
                     store0: map<int, Schedule>, clock: nat -> Time, writeOk: nat -> bool, entry: Schedule)
    requires LoadedSoFar(cron, rows, n, memory, store, store0, clock, writeOk) && n < |rows|
    requires forall j, k :: 0 <= j < k < |rows| ==> rows[j].id != rows[k].id
    requires LoadedEntry(cron, rows[n], clock(n)) == Ok(entry) && entry.id == rows[n].id && entry.nextRunAt.Some?
    ensures LoadedSoFar(cron, rows, n + 1, memory[rows[n].id := entry],
                        StoreAfterLoad(store, rows[n], entry, clock(n), writeOk(n)), store0, clock, writeOk)
  {
    hide LoadedEntry, StoreAfterLoad;
    assert rows[..n + 1][..n] == rows[..n];
  }

  lemma LoadedAll(cron: CronLib, rows: seq<Schedule>, n: nat, memory: map<int, Schedule>, store: map<int, Schedule>,
                  store0: map<int, Schedule>, clock: nat -> Time, writeOk: nat -> bool)
    requires LoadedSoFar(cron, rows, n, memory, store, store0, clock, writeOk)
    ensures n <= |rows| && (forall i :: i in memory ==> memory[i].id == i && memory[i].nextRunAt.Some?)
    ensures memory.Keys == (set k | 0 <= k < n :: rows[k].id)
    ensures forall k :: 0 <= k < n ==> LoadedEntry(cron, rows[k], clock(k)) == Ok(memory[rows[k].id])
    ensures store == StoreAfterLoads(cron, store0, rows[..n], clock, writeOk)
  {
  }

  /** The store after loading these rows. */
  function StoreAfterLoads(cron: CronLib, store: map<int, Schedule>, rows: seq<Schedule>, clock: nat -> Time,
                           writeOk: nat -> bool): map<int, Schedule> {
    if rows == [] then
      store
    else
      var n := |rows| - 1;
      var before := StoreAfterLoads(cron, store, rows[..n], clock, writeOk);
      match LoadedEntry(cron, rows[n], clock(n))
      case Err(_) => before
      case Ok(entry) => StoreAfterLoad(before, rows[n], entry, clock(n), writeOk(n))
  }

  // ---------- the loop of a check ----------

  /** The messages of one visit. */
  function MessagesOf(s: Schedule, now: Time, a: Attempt): seq<JobExecution> {
    if Sending(s, now, a) then [JobExecution(s.jobId, "schedule")] else []
  }

  /** The messages of the visits of `order`, in that order. */
  function MessagesInOrder(memory: map<int, Schedule>, order: seq<int>, now: Time,
                           attempts: int -> Attempt): seq<JobExecution> {
    if order == [] then
      []
    else
      var n := |order| - 1;
      MessagesInOrder(memory, order[..n], now, attempts) +
      if order[n] in memory then MessagesOf(memory[order[n]], now, attempts(order[n])) else []
  }

  /** Where a check stands when the schedules `done` of the snapshot have been visited. */
  ghost predicate CheckedSoFar(cron: CronLib, snapshot: map<int, Schedule>, store0: map<int, Schedule>,
                               memory: map<int, Schedule>, store: map<int, Schedule>, done: set<int>,
                               order: seq<int>, sent: seq<JobExecution>, now: Time, attempts: int -> Attempt)
  {
    && done <= snapshot.Keys && memory.Keys == snapshot.Keys
    && (forall i :: i in snapshot ==> snapshot[i].id == i)
    && (forall i :: i in memory ==>
          memory[i] == if i in done then Visited(cron, snapshot[i], now, attempts(i)) else snapshot[i])
    && Enumerates(order, done)
    && store == StoreAfterVisits(cron, store0, snapshot, order, now, attempts)
    && sent == MessagesInOrder(snapshot, order, now, attempts)
    && (forall m :: multiset(sent)[m] == |SendersOf(snapshot, done, now, attempts, m)|)
  }

  lemma CheckedNone(cron: CronLib, memory: map<int, Schedule>, store: map<int, Schedule>, now: Time,
                    attempts: int -> Attempt)
    requires forall i :: i in memory ==> memory[i].id == i
    ensures CheckedSoFar(cron, memory, store, memory, store, memory.Keys - memory.Keys, [], [], now, attempts)
  {
  }

  lemma CheckedHere(cron: CronLib, snapshot: map<int, Schedule>, store0: map<int, Schedule>,
                    memory: map<int, Schedule>, store: map<int, Schedule>, done: set<int>,
                    order: seq<int>, sent: seq<JobExecution>, now: Time, attempts: int -> Attempt, id: int)
    requires CheckedSoFar(cron, snapshot, store0, memory, store, done, order, sent, now, attempts)
    requires id in snapshot && id !in done
    ensures id in memory && memory[id] == snapshot[id] && snapshot[id].id == id
    ensures forall i :: i in memory ==> memory[i].id == i
  {
  }

  /** What a visit changed, in the terms of the specification. */
  lemma VisitDone(cron: CronLib, memory: map<int, Schedule>, store: map<int, Schedule>, s: Schedule, now: Time,
                  a: Attempt)
    requires s.id in memory && memory[s.id] == s
    ensures var runs := s.enabled && IsDue(s, now) && Succeeds(cron, s, a);
      && memory[s.id := Visited(cron, s, now, a)] ==
           (if runs then MoveOn(memory, s.id, a.now, CalculateNextRun(cron, s, Some(a.now), a.now).value) else memory)
      && StoreAfterVisit(cron, store, s, now, a) ==
           (if runs then
              UpdateLastRun(store, s.jobId, a.now, Some(CalculateNextRun(cron, s, Some(a.now), a.now).value))
            else
              store)
  {
    hide CalculateNextRun, UpdateLastRun, IsDue;
    assert memory == memory[s.id := s];
  }

  lemma MessagesMore(memory: map<int, Schedule>, order: seq<int>, now: Time, attempts: int -> Attempt, id: int)
    requires id in memory
    ensures MessagesInOrder(memory, order + [id], now, attempts) ==
      MessagesInOrder(memory, order, now, attempts) + MessagesOf(memory[id], now, attempts(id))
  {
    assert (order + [id])[..|order|] == order;
  }

  lemma CheckedMore(cron: CronLib, snapshot: map<int, Schedule>, store0: map<int, Schedule>,
                    memory: map<int, Schedule>, store: map<int, Schedule>, done: set<int>,
                    order: seq<int>, sent: seq<JobExecution>, now: Time, attempts: int -> Attempt, id: int)
    requires CheckedSoFar(cron, snapshot, store0, memory, store, done, order, sent, now, attempts)
    requires id in snapshot && id !in done
    ensures CheckedSoFar(cron, snapshot, store0,
                         memory[id := Visited(cron, snapshot[id], now, attempts(id))],
                         StoreAfterVisit(cron, store, snapshot[id], now, attempts(id)),
                         done + {id}, order + [id], sent + MessagesOf(snapshot[id], now, attempts(id)), now, attempts)
  {
    hide Visited, StoreAfterVisit, SendersOf, Sending, MessagesInOrder;
    assert (order + [id])[..|order|] == order;
    MessagesMore(snapshot, order, now, attempts, id);
    var message := MessagesOf(snapshot[id], now, attempts(id));
    assert multiset(sent + message) == multiset(sent) + multiset(message);
    forall m {
      SendersGrow(snapshot, done, now, attempts, m, id);
    }
  }

  lemma CheckedAll(cron: CronLib, snapshot: map<int, Schedule>, store0: map<int, Schedule>,
                   memory: map<int, Schedule>, store: map<int, Schedule>,
                   order: seq<int>, sent: seq<JobExecution>, now: Time, attempts: int -> Attempt)
    requires CheckedSoFar(cron, snapshot, store0, memory, store, snapshot.Keys, order, sent, now, attempts)
    ensures memory == CheckedMemory(cron, snapshot, now, attempts)
    ensures forall i :: i in memory ==> memory[i].id == i
    ensures Enumerates(order, snapshot.Keys)
    ensures store == StoreAfterVisits(cron, store0, snapshot, order, now, attempts)
    ensures sent == MessagesInOrder(snapshot, order, now, attempts)
    ensures forall m :: multiset(sent)[m] == |SendersOf(snapshot, snapshot.Keys, now, attempts, m)|
  {
    hide Visited, SendersOf, StoreAfterVisits, Enumerates, MessagesInOrder;
    var checked := CheckedMemory(cron, snapshot, now, attempts);
    assert forall i :: i in snapshot ==> memory[i] == checked[i];
    assert memory == checked;
    forall i | i in memory ensures memory[i].id == i {
      VisitedKeepsId(cron, snapshot[i], now, attempts(i));
    }
  }

  lemma VisitedKeepsId(cron: CronLib, s: Schedule, now: Time, a: Attempt)
    ensures Visited(cron, s, now, a).id == s.id
  {
  }

  /** Those that send: the enabled schedules that are due and whose message is accepted. */
  lemma SendersAre(memory: map<int, Schedule>, now: Time, attempts: int -> Attempt)
    ensures forall m ::
      SendersOf(memory, memory.Keys, now, attempts, m) ==
      (set i | && i in memory && memory[i].enabled && attempts(i).sendOk
               && (memory[i].nextRunAt.None? || memory[i].nextRunAt.value <= now)
               && m == JobExecution(memory[i].jobId, "schedule"))
  {
    forall m
      ensures SendersOf(memory, memory.Keys, now, attempts, m) ==
        (set i | && i in memory && memory[i].enabled && attempts(i).sendOk
                 && (memory[i].nextRunAt.None? || memory[i].nextRunAt.value <= now)
                 && m == JobExecution(memory[i].jobId, "schedule"))
    {
      var due := set i | && i in memory && memory[i].enabled && attempts(i).sendOk
                         && (memory[i].nextRunAt.None? || memory[i].nextRunAt.value <= now)
                         && m == JobExecution(memory[i].jobId, "schedule");
      assert forall i :: i in SendersOf(memory, memory.Keys, now, attempts, m) <==> i in due;
    }
  }

  lemma SendersGrow(memory: map<int, Schedule>, done: set<int>, now: Time, attempts: int -> Attempt, m: JobExecution,
                    id: int)
    requires id in memory && id !in done
    ensures |SendersOf(memory, done + {id}, now, attempts, m)| ==
      |SendersOf(memory, done, now, attempts, m)| +
      if Sending(memory[id], now, attempts(id)) && m == JobExecution(memory[id].jobId, "schedule") then 1 else 0
  {
    var before, after := SendersOf(memory, done, now, attempts, m), SendersOf(memory, done + {id}, now, attempts, m);
    if Sending(memory[id], now, attempts(id)) && m == JobExecution(memory[id].jobId, "schedule") {
      assert after == before + {id};
    } else {
      assert after == before;
    }
  }

  // ---------- the object makes runs of the state machine ----------

  /** The steps of one visit, all taken at the instant the attempt reads. */
  function VisitSteps(cron: CronLib, s: Schedule, now: Time, a: Attempt): seq<Step> {
    if !Sending(s, now, a) then
      [Step(a.now, Visit(s.id, a.sendOk))]
    else if CalculateNextRun(cron, s, Some(a.now), a.now).Err? then
      [Step(a.now, Visit(s.id, true)), Step(a.now, Calculate)]
    else if !a.writeOk then
      [Step(a.now, Visit(s.id, true)), Step(a.now, Calculate), Step(a.now, Write(false))]
    else
      [Step(a.now, Visit(s.id, true)), Step(a.now, Calculate), Step(a.now, Write(true)), Step(a.now, Update)]
  }

  lemma {:induction false} ExecConcat(env: Env, s: State, clock: Time, a: seq<Step>, b: seq<Step>)
    requires Exec(env, s, clock, a).Some?
    ensures Exec(env, s, clock, a + b) == Exec(env, Exec(env, s, clock, a).value, ClockAfter(clock, a), b)
    decreases |a|
  {
    hide Next;
    if a == [] {
      assert a + b == b;
    } else {
      assert (a + b)[1..] == a[1..] + b;
      ExecConcat(env, Next(env, s, a[0].clock, a[0].event).value, a[0].clock, a[1..], b);
    }
  }

  lemma ExecNone(env: Env, s: State, clock: Time)
    ensures Exec(env, s, clock, []) == Some(s)
  {
  }

  lemma ExecStep(env: Env, s: State, clock: Time, step: Step, rest: seq<Step>)
    requires clock <= step.clock && Next(env, s, step.clock, step.event).Some?
    ensures Exec(env, s, clock, [step] + rest) ==
      Exec(env, Next(env, s, step.clock, step.event).value, step.clock, rest)
  {
    hide Next;
    assert ([step] + rest)[1..] == rest;
  }

  /** What a visit adds to the history: nothing, or the send with what came of it. */
  function VisitsOf(cron: CronLib, s: Schedule, now: Time, a: Attempt): seq<SendLog.Visit> {
    if Sending(s, now, a) then [VisitOf(cron, s, now, a)] else []
  }

  function VisitOf(cron: CronLib, s: Schedule, now: Time, a: Attempt): SendLog.Visit {
    SendLog.Visit(s.nextRunAt.GetOr(now), now, a.now,
                  if Succeeds(cron, s, a) then
                    Some(SendLog.Advance(a.now, CalculateNextRun(cron, s, Some(a.now), a.now).value))
                  else
                    None)
  }

  /** The machine after one visit of the object, history included. */
  ghost function AfterVisited(env: Env, s: State, id: int, a: Attempt): State
    requires s.phase.Checking? && id in s.memory
  {
    var now, entry := s.phase.now, s.memory[id];
    var t := s.(phase := Checking(now, s.phase.todo - {id}),
                memory := s.memory[id := Visited(env.cron, entry, now, a)],
                store := StoreAfterVisit(env.cron, s.store, entry, now, a));
    if !Sending(entry, now, a) then
      t
    else
      var logged := t.(log := s.log[id := LogOf(s, id) + VisitsOf(env.cron, entry, now, a)]);
      if Succeeds(env.cron, entry, a) then
        logged.(unsaved := s.unsaved - {id})
      else
        logged.(failed := s.failed[id := FailedOf(s, id) + 1])
  }

  /** What one visit of the object does, and what it sends, is what those steps do. */
  lemma VisitIsRun(env: Env, s: State, clock: Time, id: int, a: Attempt)
    requires s.phase.Checking? && id in s.phase.todo && clock <= a.now
    requires id in s.memory && s.memory[id] == s.phase.todo[id] && s.memory[id].id == id
    ensures var steps := VisitSteps(env.cron, s.memory[id], s.phase.now, a);
      && Exec(env, s, clock, steps) == Some(AfterVisited(env, s, id, a))
      && ClockAfter(clock, steps) == a.now
  {
    hide Exec, Next, CalculateNextRun, IsDue, UpdateLastRun;
    var now, entry := s.phase.now, s.memory[id];
    var steps := VisitSteps(env.cron, entry, now, a);
    assert s.memory == s.memory[id := entry];
    FirstStep(env, s, id, a);
    assert steps == [steps[0]] + steps[1..];
    ExecStep(env, s, clock, steps[0], steps[1..]);
    var s1 := Next(env, s, a.now, steps[0].event).value;
    if |steps| == 1 {
      ExecNone(env, s1, a.now);
    } else {
      SentIsRun(env, s1, a.now, a.writeOk, steps[1..]);
      SentIsVisited(env, s, id, a);
    }
  }

  /** The machine once the message is on the queue. */
  ghost function AfterSend(s: State, id: int, now: Time): State
    requires s.phase.Checking? && id in s.phase.todo
  {
    var entry := s.phase.todo[id];
    s.(log := s.log[id := LogOf(s, id) + [SendLog.Visit(entry.nextRunAt.GetOr(s.phase.now), s.phase.now, now, None)]],
       phase := Sent(s.phase.now, s.phase.todo - {id}, entry))
  }

  /** The machine at the end of an attempt whose message is on the queue. */
  ghost function AfterAttempt(env: Env, s: State, now: Time, writeOk: bool): State
    requires s.phase.Sent?
  {
    var p, next := s.phase, CalculateNextRun(env.cron, s.phase.entry, Some(now), now);
    if next.Ok? && writeOk then
      var written := s.(store := UpdateLastRun(s.store, p.entry.jobId, now, Some(next.value)),
                        unsaved := s.unsaved - {p.entry.id});
      AfterUpdate(written, p.entry.id, now, next.value).(phase := Checking(p.now, p.todo))
    else
      Failing(s, p.entry.id, Checking(p.now, p.todo))
  }

  lemma SentIsVisited(env: Env, s: State, id: int, a: Attempt)
    requires s.phase.Checking? && id in s.phase.todo && id in s.memory
    requires s.memory[id] == s.phase.todo[id] && s.memory[id].id == id && Sending(s.memory[id], s.phase.now, a)
    ensures AfterAttempt(env, AfterSend(s, id, a.now), a.now, a.writeOk) == AfterVisited(env, s, id, a)
  {
    hide CalculateNextRun, IsDue, UpdateLastRun;
    assert s.memory == s.memory[id := s.memory[id]];
    var log := AfterSend(s, id, a.now).log;
    if Succeeds(env.cron, s.memory[id], a) {
      var visits := LogOf(s, id) + VisitsOf(env.cron, s.memory[id], s.phase.now, a);
      assert log[id][..|log[id]| - 1] == LogOf(s, id);
      assert log[id := visits] == s.log[id := visits];
    }
  }

  lemma FirstStep(env: Env, s: State, id: int, a: Attempt)
    requires s.phase.Checking? && id in s.phase.todo
    ensures Next(env, s, a.now, Visit(id, a.sendOk)) ==
      Some(if Sending(s.phase.todo[id], s.phase.now, a) then AfterSend(s, id, a.now)
           else s.(phase := Checking(s.phase.now, s.phase.todo - {id})))
  {
    hide IsDue;
  }

  /** The rest of a visit, once its message is on the queue. */
  lemma SentIsRun(env: Env, s: State, now: Time, writeOk: bool, steps: seq<Step>)
    requires s.phase.Sent?
    requires
      var next := CalculateNextRun(env.cron, s.phase.entry, Some(now), now);
      steps == if next.Err? then [Step(now, Calculate)]
               else if !writeOk then [Step(now, Calculate), Step(now, Write(false))]
               else [Step(now, Calculate), Step(now, Write(true)), Step(now, Update)]
    ensures Exec(env, s, now, steps) == Some(AfterAttempt(env, s, now, writeOk))
  {
    hide Exec, Next, CalculateNextRun, UpdateLastRun, MoveOn;
    AttemptSteps(env, s, now, writeOk);
    assert steps == [steps[0]] + steps[1..];
    ExecStep(env, s, now, steps[0], steps[1..]);
    var s1 := Next(env, s, now, Calculate).value;
    if |steps| == 1 {
      ExecNone(env, s1, now);
    } else {
      assert steps[1..] == [steps[1]] + steps[2..];
      ExecStep(env, s1, now, steps[1], steps[2..]);
      var s2 := Next(env, s1, now, steps[1].event).value;
      if |steps| == 2 {
        ExecNone(env, s2, now);
      } else {
        assert steps[2..] == [steps[2]] + [];
        ExecStep(env, s2, now, steps[2], []);
        ExecNone(env, Next(env, s2, now, Update).value, now);
      }
    }
  }

  /** The states that the steps after a send lead to. */
  lemma AttemptSteps(env: Env, s: State, now: Time, writeOk: bool)
    requires s.phase.Sent?
    ensures
      var next := CalculateNextRun(env.cron, s.phase.entry, Some(now), now);
      var s1 := Next(env, s, now, Calculate);
      && s1.Some?
      && (next.Err? ==> s1.value == AfterAttempt(env, s, now, writeOk))
      && (next.Ok? ==>
            var s2 := Next(env, s1.value, now, Write(writeOk));
            && s2.Some?
            && (!writeOk ==> s2.value == AfterAttempt(env, s, now, writeOk))
            && (writeOk ==> Next(env, s2.value, now, Update) == Some(AfterAttempt(env, s, now, writeOk))))
  {
    hide CalculateNextRun, UpdateLastRun, MoveOn;
  }

  /** The steps of the visits in this order. */
  function CheckSteps(cron: CronLib, memory: map<int, Schedule>, order: seq<int>, now: Time,
                      attempts: int -> Attempt): seq<Step> {
    if order == [] then
      []
    else
      var n := |order| - 1;
      CheckSteps(cron, memory, order[..n], now, attempts) +
      if order[n] in memory then VisitSteps(cron, memory[order[n]], now, attempts(order[n])) else []
  }

  lemma StepsMore(cron: CronLib, memory: map<int, Schedule>, order: seq<int>, now: Time, attempts: int -> Attempt,
                  id: int)
    requires id in memory
    ensures CheckSteps(cron, memory, order + [id], now, attempts) ==
      CheckSteps(cron, memory, order, now, attempts) + VisitSteps(cron, memory[id], now, attempts(id))
  {
    assert (order + [id])[..|order|] == order;
  }

  /** In the order of the visits the clock does not go back. */
  predicate ClockRuns(order: seq<int>, now: Time, attempts: int -> Attempt) {
    && (order != [] ==> now <= attempts(order[0]).now)
    && forall k :: 0 < k < |order| ==> attempts(order[k - 1]).now <= attempts(order[k]).now
  }

  /** How far the check that began at `s` has come in `t`, after the visits of `order`. */
  ghost predicate Reached(env: Env, s: State, t: State, now: Time, order: seq<int>, attempts: int -> Attempt) {
    && t.phase == Checking(now, s.memory - KeysOf(order))
    && t.memory.Keys == s.memory.Keys
    && (forall i :: i in s.memory ==>
          t.memory[i] == if i in order then Visited(env.cron, s.memory[i], now, attempts(i)) else s.memory[i])
    && t.store == StoreAfterVisits(env.cron, s.store, s.memory, order, now, attempts)
    && t.loaded == s.loaded && t.unsaved <= s.unsaved
    && (forall i :: i in s.memory ==>
          LogOf(t, i) == LogOf(s, i) + if i in order then VisitsOf(env.cron, s.memory[i], now, attempts(i)) else [])
  }

  function KeysOf(order: seq<int>): set<int> {
    set i | i in order
  }

  lemma ReachedMore(env: Env, s: State, t: State, now: Time, order: seq<int>, attempts: int -> Attempt, id: int)
    requires Reached(env, s, t, now, order, attempts) && id in s.memory && id !in order
    ensures Reached(env, s, AfterVisited(env, t, id, attempts(id)), now, order + [id], attempts)
  {
    hide Visited, StoreAfterVisit, VisitsOf, AfterVisited, LogOf;
    VisitedParts(env, t, id, attempts(id));
    assert (order + [id])[..|order|] == order;
    assert KeysOf(order + [id]) == KeysOf(order) + {id};
    assert s.memory - KeysOf(order + [id]) == s.memory - KeysOf(order) - {id};
  }

  lemma VisitedParts(env: Env, s: State, id: int, a: Attempt)
    requires s.phase.Checking? && id in s.memory
    ensures var now, entry, t := s.phase.now, s.memory[id], AfterVisited(env, s, id, a);
      && t.phase == Checking(now, s.phase.todo - {id})
      && t.memory == s.memory[id := Visited(env.cron, entry, now, a)]
      && t.store == StoreAfterVisit(env.cron, s.store, entry, now, a)
      && t.loaded == s.loaded && t.unsaved <= s.unsaved
      && LogOf(t, id) == LogOf(s, id) + VisitsOf(env.cron, entry, now, a)
      && forall i :: i != id ==> LogOf(t, i) == LogOf(s, i)
  {
    hide Visited, StoreAfterVisit, Succeeds, Sending, VisitOf, FailedOf;
    if Sending(s.memory[id], s.phase.now, a) {
    } else {
      assert VisitsOf(env.cron, s.memory[id], s.phase.now, a) == [];
    }
  }

  lemma VisitReaches(env: Env, s: State, t: State, clock: Time, now: Time, order: seq<int>, attempts: int -> Attempt,
                     id: int)
    requires Reached(env, s, t, now, order, attempts) && id in s.memory && id !in order && s.memory[id].id == id
    requires clock <= attempts(id).now
    ensures var steps := VisitSteps(env.cron, s.memory[id], now, attempts(id));
      var r := Exec(env, t, clock, steps);
      && r.Some? && Reached(env, s, r.value, now, order + [id], attempts)
      && ClockAfter(clock, steps) == attempts(id).now
  {
    hide Next, Exec, Visited, StoreAfterVisit, VisitSteps, StoreAfterVisits, AfterVisited;
    VisitIsRun(env, t, clock, id, attempts(id));
    ReachedMore(env, s, t, now, order, attempts, id);
  }

  lemma {:induction false} CheckIsRunPrefix(env: Env, s: State, now: Time, order: seq<int>, attempts: int -> Attempt,
                                            k: nat)
    requires s.phase == Checking(now, s.memory) && (forall i :: i in s.memory ==> s.memory[i].id == i)
    requires Enumerates(order, s.memory.Keys) && ClockRuns(order, now, attempts) && k <= |order|
    ensures var steps := CheckSteps(env.cron, s.memory, order[..k], now, attempts);
      var r := Exec(env, s, now, steps);
      && r.Some? && Reached(env, s, r.value, now, order[..k], attempts)
      && ClockAfter(now, steps) == (if k == 0 then now else attempts(order[k - 1]).now)
    decreases k
  {
    hide Next, Exec, Visited, StoreAfterVisit, VisitSteps, StoreAfterVisits, Reached;
    if k == 0 {
      ExecNone(env, s, now);
      ReachedNone(env, s, now, attempts);
    } else {
      CheckIsRunPrefix(env, s, now, order, attempts, k - 1);
      var id, a := order[k - 1], attempts(order[k - 1]);
      var steps := CheckSteps(env.cron, s.memory, order[..k - 1], now, attempts);
      var t := Exec(env, s, now, steps).value;
      assert order[..k][..k - 1] == order[..k - 1];
      assert id !in order[..k - 1];
      VisitReaches(env, s, t, ClockAfter(now, steps), now, order[..k - 1], attempts, id);
      var more := VisitSteps(env.cron, s.memory[id], now, a);
      ExecConcat(env, s, now, steps, more);
      ClockOfConcat(now, steps, more);
      assert order[..k] == order[..k - 1] + [id];
    }
  }

  lemma ReachedNone(env: Env, s: State, now: Time, attempts: int -> Attempt)
    requires s.phase == Checking(now, s.memory)
    ensures Reached(env, s, s, now, [], attempts)
  {
    assert s.memory - KeysOf([]) == s.memory;
  }

  lemma ClockOfConcat(clock: Time, a: seq<Step>, b: seq<Step>)
    ensures ClockAfter(clock, a + b) == ClockAfter(ClockAfter(clock, a), b)
  {
  }

  lemma ReachedAll(env: Env, s: State, t: State, now: Time, order: seq<int>, attempts: int -> Attempt)
    requires Reached(env, s, t, now, order, attempts) && Enumerates(order, s.memory.Keys)
    ensures t.phase == Checking(now, map[])
    ensures t.memory == CheckedMemory(env.cron, s.memory, now, attempts)
    ensures t.store == StoreAfterVisits(env.cron, s.store, s.memory, order, now, attempts)
    ensures t.loaded == s.loaded && t.unsaved <= s.unsaved
    ensures forall i :: i in s.memory ==>
      LogOf(t, i) == LogOf(s, i) + VisitsOf(env.cron, s.memory[i], now, attempts(i))
  {
    hide Visited, StoreAfterVisits, VisitsOf;
    forall i | i in KeysOf(order) ensures i in s.memory.Keys {
      var k :| 0 <= k < |order| && order[k] == i;
    }
    forall i | i in s.memory.Keys ensures i in KeysOf(order) {
    }
    assert t.phase.todo == map[];
    assert t.memory == CheckedMemory(env.cron, s.memory, now, attempts);
  }

  lemma CheckEnds(env: Env, s: State, clock: Time)
    ensures s.phase.Idle? ==> Next(env, s, clock, BeginCheck) == Some(s.(phase := Checking(clock, s.memory)))
    ensures s.phase.Checking? && s.phase.todo == map[] ==> Next(env, s, clock, EndCheck) == Some(s.(phase := Idle))
  {
  }

  /** The steps of a whole check that visits the schedules in this order. */
  function CheckRun(cron: CronLib, memory: map<int, Schedule>, now: Time, order: seq<int>,
                    attempts: int -> Attempt): seq<Step> {
    var steps := CheckSteps(cron, memory, order, now, attempts);
    [Step(now, BeginCheck)] + (steps + [Step(ClockAfter(now, steps), EndCheck)])
  }

  /**
   A whole check of the object is a run of the machine from idle to idle, with the same memory and store, whose
   history grows by the messages the object sends.
   */
  lemma CheckIsRun(env: Env, s: State, now: Time, order: seq<int>, attempts: int -> Attempt)
    requires s.phase.Idle? && (forall i :: i in s.memory ==> s.memory[i].id == i)
    requires Enumerates(order, s.memory.Keys) && ClockRuns(order, now, attempts)
    ensures var run := CheckRun(env.cron, s.memory, now, order, attempts);
      var r := Exec(env, s, now, run);
      && r.Some? && r.value.phase.Idle?
      && r.value.memory == CheckedMemory(env.cron, s.memory, now, attempts)
      && r.value.store == StoreAfterVisits(env.cron, s.store, s.memory, order, now, attempts)
      && r.value.loaded == s.loaded && r.value.unsaved <= s.unsaved
      && (forall i :: i in s.memory ==>
            LogOf(r.value, i) == LogOf(s, i) + VisitsOf(env.cron, s.memory[i], now, attempts(i)))
      && ClockAfter(now, run) == if order == [] then now else attempts(order[|order| - 1]).now
  {
    hide Exec, Next, Visited, VisitsOf, StoreAfterVisit, CheckSteps, StoreAfterVisits, Reached, CheckedMemory, LogOf;
    var t := s.(phase := Checking(now, s.memory));
    CheckIsRunPrefix(env, t, now, order, attempts, |order|);
    assert order[..|order|] == order;
    var steps := CheckSteps(env.cron, s.memory, order, now, attempts);
    var u := Exec(env, t, now, steps).value;
    ReachedAll(env, t, u, now, order, attempts);
    CheckBounds(env, s, now, steps, u);
    SameLogs(s, t);
    SameLogs(u, u.(phase := Idle));
  }

  lemma SameLogs(s: State, t: State)
    requires s.log == t.log
    ensures forall i :: LogOf(s, i) == LogOf(t, i)
  {
  }

  /** The beginning and the end of a check around its visits. */
  lemma CheckBounds(env: Env, s: State, now: Time, steps: seq<Step>, u: State)
    requires s.phase.Idle? && Exec(env, s.(phase := Checking(now, s.memory)), now, steps) == Some(u)
    requires u.phase == Checking(now, map[])
    ensures var run := [Step(now, BeginCheck)] + (steps + [Step(ClockAfter(now, steps), EndCheck)]);
      Exec(env, s, now, run) == Some(u.(phase := Idle)) && ClockAfter(now, run) == ClockAfter(now, steps)
  {
    hide Exec, Next;
    var t := s.(phase := Checking(now, s.memory));
    CheckEnds(env, s, now);
    CheckEnds(env, u, ClockAfter(now, steps));
    var last := Step(ClockAfter(now, steps), EndCheck);
    ExecStep(env, s, now, Step(now, BeginCheck), steps + [last]);
    ExecConcat(env, t, now, steps, [last]);
    ExecStep(env, u, ClockAfter(now, steps), last, []);
    ExecNone(env, u.(phase := Idle), last.clock);
    assert [last] + [] == [last];
  }
}

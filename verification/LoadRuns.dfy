/** Runs that load the schedules: what a process makes of a table when nothing fails. */
module LoadRuns {
  import opened Wrappers
  import opened Models
  import opened ScheduleCalc
  import opened Queries
  import opened SchedulerMachine
  import opened Scheduler
  import opened StoreAgreement
  import opened Selection
  import opened Arithmetic

  // ---------- schedules that go on ----------

  /** A run at `c` has a next time, and it is later. */
  predicate RunsOn(cron: CronLib, s: Schedule, c: Time) {
    var next := CalculateNextRun(cron, s, Some(c), c);
    next.Ok? && c < next.value
  }

  ghost predicate RunsAfter(cron: CronLib, s: Schedule, t: Time) {
    exists c: Time :: t <= c && RunsOn(cron, s, c)
  }

  /** However late it is, some later run has a next time. */
  ghost predicate Recurs(cron: CronLib, s: Schedule) {
    forall t: Time :: RunsAfter(cron, s, t)
  }

  lemma IntervalsRecur(cron: CronLib, s: Schedule, seconds: int)
    requires HasInterval(s, seconds)
    ensures Recurs(cron, s)
  {
    forall t: Time ensures RunsAfter(cron, s, t) {
      assert RunsOn(cron, s, t);
    }
  }

  /** From `t` on the library still finds occurrences. */
  ghost predicate AnswersAfter(cron: CronLib, expression: string, t: Time) {
    exists c: Time :: t <= c && cron(expression, c).Some?
  }

  lemma CronsRecur(cron: CronLib, calendar: Calendar, s: Schedule, expression: string)
    requires LeastAfter(cron, calendar) && HasCron(s, expression)
    requires forall t: Time :: AnswersAfter(cron, "0 " + expression, t)
    ensures Recurs(cron, s)
  {
    forall t: Time ensures RunsAfter(cron, s, t) {
      assert AnswersAfter(cron, "0 " + expression, t);
      var c: Time :| t <= c && cron("0 " + expression, c).Some?;
      assert RunsOn(cron, s, c);
    }
  }

  /** Whether a schedule goes on does not depend on when it last ran or is next due. */
  lemma RuleRecurs(cron: CronLib, row: Schedule, entry: Schedule)
    requires Recurs(cron, row) && entry == row.(lastRunAt := entry.lastRunAt, nextRunAt := entry.nextRunAt)
    ensures Recurs(cron, entry)
  {
    forall t: Time ensures RunsAfter(cron, entry, t) {
      assert RunsAfter(cron, row, t);
      var c: Time :| t <= c && RunsOn(cron, row, c);
      assert RunsOn(cron, entry, c);
    }
  }

  function Latest(a: Time, b: Time, c: Time): (r: Time)
    ensures a <= r && b <= r && c <= r
  {
    var ab := if a <= b then b else a;
    if ab <= c then c else ab
  }

  // ---------- fetching ----------

  /** The selected rows of a table, in some order. */
  lemma {:induction false} RowsOf(store: map<int, Schedule>, keys: set<int>) returns (rows: seq<Schedule>)
    requires keys <= store.Keys && forall i :: i in store ==> store[i].id == i
    ensures ResultSet(rows, store, keys)
    decreases |keys|
  {
    if keys == {} {
      rows := [];
    } else {
      var x := AnElement(keys);
      var rest := RowsOf(store, keys - {x});
      rows := RowInFront(store, keys - {x}, rest, x);
      assert keys - {x} + {x} == keys;
    }
  }

  lemma RowInFront(store: map<int, Schedule>, keys: set<int>, rest: seq<Schedule>, x: int) returns (rows: seq<Schedule>)
    requires ResultSet(rest, store, keys) && x in store && x !in keys && store[x].id == x
    ensures rows == [store[x]] + rest && ResultSet(rows, store, keys + {x})
  {
    rows := [store[x]] + rest;
    forall i | i in keys + {x} ensures exists k :: 0 <= k < |rows| && rows[k].id == i {
      if i == x {
        assert rows[0].id == i;
      } else {
        var k :| 0 <= k < |rest| && rest[k].id == i;
        assert rows[k + 1].id == i;
      }
    }
  }

  lemma SelectedRows(env: Env, store: map<int, Schedule>)
    ensures Selected(env, store) <= store.Keys
    ensures forall i :: i in Selected(env, store) ==> store[i].enabled
  {
  }

  lemma FetchStep(env: Env, s: State, clock: Time, rows: seq<Schedule>) returns (t: State)
    requires Init(s) && ResultSet(rows, s.store, Selected(env, s.store))
    ensures t == s.(phase := Loading(rows)) && Next(env, s, clock, Fetch(rows)) == Some(t)
  {
    t := s.(phase := Loading(rows));
  }

  // ---------- loading ----------

  predicate SendsNothing(run: seq<Step>) {
    forall k :: 0 <= k < |run| ==> !run[k].event.Visit?
  }

  /** `t` is the scheduler that `s` becomes by loading `rows` without a failure. */
  ghost predicate LoadedFrom(s: State, t: State, rows: seq<Schedule>) {
    && t.phase.Idle? && t.unsaved == s.unsaved
    && (forall k :: 0 <= k < |rows| ==> rows[k].id in t.memory && Follows(t.memory[rows[k].id], rows[k]))
    && (forall i :: i in s.memory && (forall k :: 0 <= k < |rows| ==> rows[k].id != i) ==>
          i in t.memory && t.memory[i] == s.memory[i])
    && (forall i :: i in s.store ==> i in t.store && Follows(t.store[i], s.store[i]))
  }

  lemma RowLoads(env: Env, s: State, clock: Time) returns (c: Time)
    requires s.phase.Loading? && s.phase.rows != [] && Recurs(env.cron, s.phase.rows[0])
    ensures clock <= c
    ensures var row, t := s.phase.rows[0], AfterLoadRow(env, s, s.phase.rows, c, true);
      && Next(env, s, c, LoadRow(true)) == Some(t)
      && t.phase == Loading(s.phase.rows[1..]) && t.unsaved == s.unsaved
      && row.id in t.memory && Follows(t.memory[row.id], row) && t.memory == s.memory[row.id := t.memory[row.id]]
      && (forall i :: i in s.store ==> i in t.store && Follows(t.store[i], s.store[i]))
  {
    assert RunsAfter(env.cron, s.phase.rows[0], clock);
    c :| clock <= c && RunsOn(env.cron, s.phase.rows[0], c);
  }

  lemma {:induction false} LoadAll(env: Env, s: State, clock: Time) returns (run: seq<Step>)
    requires s.phase.Loading? && forall k :: 0 <= k < |s.phase.rows| ==> Recurs(env.cron, s.phase.rows[k])
    requires forall j, k :: 0 <= j < k < |s.phase.rows| ==> s.phase.rows[j].id != s.phase.rows[k].id
    ensures var r := Exec(env, s, clock, run);
      r.Some? && LoadedFrom(s, r.value, s.phase.rows)
    ensures SendsNothing(run)
    decreases |s.phase.rows|
  {
    hide Exec, Next, Recurs, AfterLoadRow;
    var rows := s.phase.rows;
    if rows == [] {
      run := [Step(clock, LoadDone)] + [];
      LoadEnds(env, s, clock);
      ExecStep(env, s, clock, Step(clock, LoadDone), []);
      ExecNone(env, s.(phase := Idle), clock);
    } else {
      var c := RowLoads(env, s, clock);
      var t := AfterLoadRow(env, s, rows, c, true);
      var rest := LoadAll(env, t, c);
      run := [Step(c, LoadRow(true))] + rest;
      ExecStep(env, s, clock, Step(c, LoadRow(true)), rest);
      LoadedMore(s, t, Exec(env, t, c, rest).value, rows);
    }
  }

  lemma LoadEnds(env: Env, s: State, clock: Time)
    requires s.phase == Loading([])
    ensures Next(env, s, clock, LoadDone) == Some(s.(phase := Idle))
  {
  }

  lemma LoadedMore(s: State, t: State, u: State, rows: seq<Schedule>)
    requires rows != [] && LoadedFrom(t, u, rows[1..]) && t.unsaved == s.unsaved
    requires forall j, k :: 0 <= j < k < |rows| ==> rows[j].id != rows[k].id
    requires rows[0].id in t.memory && Follows(t.memory[rows[0].id], rows[0])
    requires t.memory == s.memory[rows[0].id := t.memory[rows[0].id]]
    requires forall i :: i in s.store ==> i in t.store && Follows(t.store[i], s.store[i])
    ensures LoadedFrom(s, u, rows)
  {
    RowsShift(rows);
    forall k | 0 <= k < |rows| ensures rows[k].id in u.memory && Follows(u.memory[rows[k].id], rows[k]) {
      if k > 0 { assert rows[1..][k - 1] == rows[k]; }
    }
  }

  /**
   From the start a process can load a table of schedules that go on: memory then holds exactly the enabled schedules
   of the enabled jobs of the device, each with its own rule.
   */
  lemma Load(env: Env, s: State, clock: Time) returns (run: seq<Step>)
    requires Init(s) && forall k :: k in s.store ==> s.store[k].id == k
    requires forall k :: k in Selected(env, s.store) ==> Recurs(env.cron, s.store[k])
    ensures SendsNothing(run)
    ensures var r := Exec(env, s, clock, run);
      && r.Some? && r.value.phase.Idle? && r.value.unsaved == {}
      && (forall i :: i in r.value.memory <==>
            && i in s.store && s.store[i].enabled && s.store[i].jobId in env.jobs
            && env.jobs[s.store[i].jobId].enabled && env.jobs[s.store[i].jobId].deviceId == env.deviceId)
      && (forall i :: i in Selected(env, s.store) ==> i in r.value.memory && Follows(r.value.memory[i], s.store[i]))
      && (forall i :: i in s.store ==> i in r.value.store && Follows(r.value.store[i], s.store[i]))
  {
    hide Exec, Next, Selected, Recurs, Follows;
    SelectedRows(env, s.store);
    var rows := RowsOf(s.store, Selected(env, s.store));
    var t := FetchStep(env, s, clock, rows);
    var load := LoadAll(env, t, clock);
    run := [Step(clock, Fetch(rows))] + load;
    ExecStep(env, s, clock, Step(clock, Fetch(rows)), load);
    InitChosen(env, s);
    ChosenExec(env, s.store, s, clock, run);
    ChosenAll(env, s.store, Exec(env, s, clock, run).value);
    forall i | i in Selected(env, s.store)
      ensures var u := Exec(env, s, clock, run).value; i in u.memory && Follows(u.memory[i], s.store[i])
    {
      var k :| 0 <= k < |rows| && rows[k].id == i;
    }
  }

  // ---------- the object's reload is a run of the machine ----------

  /** The steps that load n rows. */
  function LoadSteps(n: nat, clock: nat -> Time, writeOk: nat -> bool): seq<Step> {
    if n == 0 then [] else LoadSteps(n - 1, clock, writeOk) + [Step(clock(n - 1), LoadRow(writeOk(n - 1)))]
  }

  /** The clock does not go back over n rows. */
  predicate ClockRunsTo(start: Time, n: nat, clock: nat -> Time) {
    (n > 0 ==> start <= clock(0)) && forall k: nat :: 0 < k < n ==> clock(k - 1) <= clock(k)
  }

  /** Memory after n rows: their entries, under their keys, and nothing else. */
  ghost predicate HoldsRows(cron: CronLib, memory: map<int, Schedule>, rows: seq<Schedule>, n: nat, clock: nat -> Time)
    requires n <= |rows|
  {
    && memory.Keys == (set k | 0 <= k < n :: rows[k].id)
    && forall k: nat :: k < n ==> LoadedEntry(cron, rows[k], clock(k)) == Ok(memory[rows[k].id])
  }

  lemma {:induction false} RowsAreRun(env: Env, s: State, start: Time, rows: seq<Schedule>, clock: nat -> Time,
                                      writeOk: nat -> bool, n: nat)
    requires s.phase == Loading(rows) && s.memory == map[] && n <= |rows| && ClockRunsTo(start, n, clock)
    requires forall j, k :: 0 <= j < k < |rows| ==> rows[j].id != rows[k].id
    requires forall k: nat :: k < n ==> LoadedEntry(env.cron, rows[k], clock(k)).Ok?
    ensures var steps := LoadSteps(n, clock, writeOk);
      var r := Exec(env, s, start, steps);
      && r.Some? && r.value.phase == Loading(rows[n..]) && HoldsRows(env.cron, r.value.memory, rows, n, clock)
      && r.value.store == StoreAfterLoads(env.cron, s.store, rows[..n], clock, writeOk)
      && ClockAfter(start, steps) == if n == 0 then start else clock(n - 1)
    decreases n
  {
    hide Exec, Next, LoadedEntry, StoreAfterLoads, HoldsRows, AfterLoadRow;
    if n == 0 {
      ExecNone(env, s, start);
      NoRows(env.cron, s.store, rows, clock, writeOk);
    } else {
      RowsAreRun(env, s, start, rows, clock, writeOk, n - 1);
      var steps := LoadSteps(n - 1, clock, writeOk);
      var t := Exec(env, s, start, steps).value;
      var c, ok := clock(n - 1), writeOk(n - 1);
      var step := Step(c, LoadRow(ok));
      RowStep(env, t, c, ok);
      OneMoreRow(env, s.store, t, rows, clock, writeOk, n - 1);
      ExecConcat(env, s, start, steps, [step]);
      ExecStep(env, t, ClockAfter(start, steps), step, []);
      ExecNone(env, AfterLoadRow(env, t, rows[n - 1..], c, ok), c);
      assert [step] + [] == [step];
    }
  }

  lemma NoRows(cron: CronLib, store: map<int, Schedule>, rows: seq<Schedule>, clock: nat -> Time, writeOk: nat -> bool)
    ensures rows[0..] == rows && HoldsRows(cron, map[], rows, 0, clock)
    ensures StoreAfterLoads(cron, store, rows[..0], clock, writeOk) == store
  {
  }

  lemma OneMoreRow(env: Env, store: map<int, Schedule>, s: State, rows: seq<Schedule>, clock: nat -> Time,
                   writeOk: nat -> bool, n: nat)
    requires n < |rows| && s.phase == Loading(rows[n..]) && HoldsRows(env.cron, s.memory, rows, n, clock)
    requires s.store == StoreAfterLoads(env.cron, store, rows[..n], clock, writeOk)
    requires forall j, k :: 0 <= j < k < |rows| ==> rows[j].id != rows[k].id
    requires LoadedEntry(env.cron, rows[n], clock(n)).Ok?
    ensures var t := AfterLoadRow(env, s, rows[n..], clock(n), writeOk(n));
      && t.phase == Loading(rows[n + 1..]) && HoldsRows(env.cron, t.memory, rows, n + 1, clock)
      && t.store == StoreAfterLoads(env.cron, store, rows[..n + 1], clock, writeOk)
  {
    hide LoadedEntry, StoreAfterLoad, HoldsRows;
    assert rows[n..][0] == rows[n] && rows[n..][1..] == rows[n + 1..] && rows[..n + 1][..n] == rows[..n];
    HoldsMore(env.cron, s.memory, rows, n, clock);
  }

  lemma HoldsMore(cron: CronLib, memory: map<int, Schedule>, rows: seq<Schedule>, n: nat, clock: nat -> Time)
    requires n < |rows| && HoldsRows(cron, memory, rows, n, clock) && LoadedEntry(cron, rows[n], clock(n)).Ok?
    requires forall j, k :: 0 <= j < k < |rows| ==> rows[j].id != rows[k].id
    ensures HoldsRows(cron, memory[rows[n].id := LoadedEntry(cron, rows[n], clock(n)).value], rows, n + 1, clock)
  {
    hide LoadedEntry;
  }

  lemma RowStep(env: Env, s: State, clock: Time, writeOk: bool)
    requires s.phase.Loading? && s.phase.rows != []
    ensures Next(env, s, clock, LoadRow(writeOk)) == Some(AfterLoadRow(env, s, s.phase.rows, clock, writeOk))
  {
  }

  /**
   What `ReloadSchedules` leaves behind is what a run of the machine leaves behind: the memory of the rows it got
   through, the store with their writes, and a scheduler that is idle or that stopped at the row it could not calculate.
   */
  lemma ReloadIsRun(env: Env, s: State, start: Time, rows: seq<Schedule>, clock: nat -> Time, writeOk: nat -> bool,
                    n: nat, memory: map<int, Schedule>) returns (run: seq<Step>)
    requires s.phase.Down? && FetchedRows(env, s, rows)
    requires n <= |rows| && (n < |rows| ==> LoadedEntry(env.cron, rows[n], clock(n)).Err?)
    requires ClockRunsTo(start, if n < |rows| then n + 1 else n, clock)
    requires HoldsRows(env.cron, memory, rows, n, clock)
    ensures var r := Exec(env, s, start, run);
      && r.Some? && r.value.memory == memory
      && r.value.store == StoreAfterLoads(env.cron, s.store, rows[..n], clock, writeOk)
      && r.value.phase == if n == |rows| then Idle else Stopped
  {
    hide Exec, Next, LoadedEntry, StoreAfterLoads, AfterLoadRow, HoldsRows, LoadSteps, FetchedRows;
    var fetch := Step(start, Fetch(rows));
    var t := s.(memory := map[], loaded := map[], log := map[], failed := map[], phase := Loading(rows));
    var steps := LoadSteps(n, clock, writeOk);
    RowsGiven(env, s, rows, n, clock, memory);
    RowsAreRun(env, t, start, rows, clock, writeOk, n);
    var u := Exec(env, t, start, steps).value;
    SameRows(env.cron, u.memory, memory, rows, n, clock);
    var c := ClockAfter(start, steps);
    var last := if n == |rows| then Step(c, LoadDone) else Step(clock(n), LoadRow(writeOk(n)));
    FetchAndStop(env, s, u, start, rows, last, n);
    var v := Next(env, u, last.clock, last.event).value;
    run := [fetch] + (steps + [last]);
    ExecStep(env, s, start, fetch, steps + [last]);
    ExecConcat(env, t, start, steps, [last]);
    ExecStep(env, u, c, last, []);
    ExecNone(env, v, last.clock);
    assert [last] + [] == [last];
  }

  lemma RowsGiven(env: Env, s: State, rows: seq<Schedule>, n: nat, clock: nat -> Time, memory: map<int, Schedule>)
    requires FetchedRows(env, s, rows) && n <= |rows| && HoldsRows(env.cron, memory, rows, n, clock)
    ensures forall j, k :: 0 <= j < k < |rows| ==> rows[j].id != rows[k].id
    ensures forall k: nat :: k < n ==> LoadedEntry(env.cron, rows[k], clock(k)).Ok?
  {
    hide LoadedEntry;
  }

  lemma SameRows(cron: CronLib, a: map<int, Schedule>, b: map<int, Schedule>, rows: seq<Schedule>, n: nat,
                 clock: nat -> Time)
    requires n <= |rows| && HoldsRows(cron, a, rows, n, clock) && HoldsRows(cron, b, rows, n, clock)
    ensures a == b
  {
    hide LoadedEntry;
    forall i | i in a ensures a[i] == b[i] {
      var k :| 0 <= k < n && rows[k].id == i;
    }
  }

  lemma FetchAndStop(env: Env, s: State, u: State, start: Time, rows: seq<Schedule>, last: Step, n: nat)
    requires s.phase.Down? && FetchedRows(env, s, rows) && n <= |rows| && u.phase == Loading(rows[n..])
    requires if n == |rows| then last.event == LoadDone
             else last.event.LoadRow? && LoadedEntry(env.cron, rows[n], last.clock).Err?
    ensures Next(env, s, start, Fetch(rows)) ==
      Some(s.(memory := map[], loaded := map[], log := map[], failed := map[], phase := Loading(rows)))
    ensures Next(env, u, last.clock, last.event) == Some(u.(phase := if n == |rows| then Idle else Stopped))
  {
    hide LoadedEntry, FetchedRows;
  }
}

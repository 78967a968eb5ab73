/**
 Several schedules for one job. The row update is keyed by the job, so that a schedule overwrites the next times of its
 siblings: this is the one way, besides a load that could not save, in which memory and store come to disagree.
 */
module SharedJobs {
  import opened Wrappers
  import opened Models
  import opened ScheduleCalc
  import opened Queries
  import opened SchedulerMachine
  import opened Scheduler
  import opened StoreAgreement
  import opened LoadRuns
  import SchedulerSafety

  // ---------- a run of one schedule breaks agreement for a sibling ----------

  /**
   From every idle state with two schedules of one job in memory: when the clock has passed both next times, a run of
   one of them, with nothing failing, leaves the other with a next time in the store that it does not have in memory.
   */
  lemma SiblingRunBreaksAgreement(env: Env, s: State, start: Time, clock: Time, i: int, j: int) returns (run: seq<Step>)
    requires Inv(env, s, start, clock) && s.phase.Idle?
    requires i in s.memory && j in s.memory && i != j && s.memory[i].jobId == s.memory[j].jobId
    requires s.memory[i].enabled && Recurs(env.cron, s.memory[i])
    requires j in s.store && s.store[j].jobId == s.memory[j].jobId
    ensures var r := Exec(env, s, clock, run);
      && r.Some? && r.value.phase.Checking? && r.value.unsaved <= s.unsaved
      && j in r.value.memory && r.value.memory[j] == s.memory[j]
      && j in r.value.store && r.value.store[j].nextRunAt != r.value.memory[j].nextRunAt
  {
    hide Exec, Next, Inv, RunsOn, VisitSteps, AfterVisited;
    SchedulerSafety.EntriesHaveNext(env, s, start, clock);
    MemoryIsKeyed(env, s, start, clock);
    var c := LateRun(env.cron, s.memory[i], clock, s.memory[i].nextRunAt.value, s.memory[j].nextRunAt.value);
    var a := Attempt(true, c, true);
    var t := s.(phase := Checking(c, s.memory));
    var steps := VisitSteps(env.cron, s.memory[i], c, a);
    CheckEnds(env, s, c);
    VisitIsRun(env, t, c, i, a);
    ExecStep(env, s, clock, Step(c, BeginCheck), steps);
    run := [Step(c, BeginCheck)] + steps;
    SiblingOverwritten(env, t, i, j, a);
  }

  lemma MemoryIsKeyed(env: Env, s: State, start: Time, clock: Time)
    requires Inv(env, s, start, clock)
    ensures forall i :: i in s.memory ==> s.memory[i].id == i
  {
    forall i | i in s.memory ensures s.memory[i].id == i {
      assert EntryOk(env, s, i, start, clock);
    }
  }

  /** A run with a next time, later than three given instants. */
  lemma LateRun(cron: CronLib, s: Schedule, t1: Time, t2: Time, t3: Time) returns (c: Time)
    requires Recurs(cron, s)
    ensures t1 <= c && t2 <= c && t3 <= c && RunsOn(cron, s, c)
  {
    assert RunsAfter(cron, s, Latest(t1, t2, t3));
    c :| Latest(t1, t2, t3) <= c && RunsOn(cron, s, c);
  }

  /** The write of a due schedule puts its own next time into the rows of its siblings, and memory keeps theirs. */
  lemma SiblingOverwritten(env: Env, s: State, i: int, j: int, a: Attempt)
    requires s.phase.Checking? && i in s.memory && j in s.memory && i != j
    requires s.memory[i].jobId == s.memory[j].jobId && s.memory[i].enabled && IsDue(s.memory[i], s.phase.now)
    requires a.sendOk && a.writeOk && RunsOn(env.cron, s.memory[i], a.now)
    requires s.memory[j].nextRunAt.Some? && s.memory[j].nextRunAt.value <= a.now
    requires j in s.store && s.store[j].jobId == s.memory[j].jobId
    ensures var t := AfterVisited(env, s, i, a);
      && t.phase.Checking? && t.unsaved <= s.unsaved && j in t.memory && t.memory[j] == s.memory[j]
      && j in t.store && t.store[j].nextRunAt != t.memory[j].nextRunAt
  {
    hide CalculateNextRun;
  }

  // ---------- the load does, too ----------

  /**
   A load can break agreement before any check. A schedule without a next time is given one and writes it into the row
   of a sibling that has been fetched already and keeps, in memory, what was fetched or calculated for it.
   */
  lemma LoadBreaksAgreement(env: Env, s: State, clock: Time, i: int, j: int, c: Time, c': Time) returns (run: seq<Step>)
    requires Init(s) && clock <= c <= c' && forall k :: k in s.store ==> s.store[k].id == k
    requires i in Selected(env, s.store) && j in Selected(env, s.store) && i != j
    requires s.store[i].jobId == s.store[j].jobId
    requires s.store[i].nextRunAt.None?
    requires LoadedEntry(env.cron, s.store[i], c').Ok? && LoadedEntry(env.cron, s.store[j], c).Ok?
    requires LoadedEntry(env.cron, s.store[i], c').value.nextRunAt !=
             LoadedEntry(env.cron, s.store[j], c).value.nextRunAt
    ensures var r := Exec(env, s, clock, run);
      && r.Some? && r.value.phase.Loading? && r.value.unsaved == {}
      && j in r.value.memory && r.value.memory[j].nextRunAt == LoadedEntry(env.cron, s.store[j], c).value.nextRunAt
      && j in r.value.store && r.value.store[j].nextRunAt != r.value.memory[j].nextRunAt
  {
    hide Exec, Next, Selected, CalculateNextRun, LoadedEntry;
    SelectedRows(env, s.store);
    var rest := RowsOf(s.store, Selected(env, s.store) - {i} - {j});
    var others := RowInFront(s.store, Selected(env, s.store) - {i} - {j}, rest, i);
    var rows := RowInFront(s.store, Selected(env, s.store) - {i} - {j} + {i}, others, j);
    assert Selected(env, s.store) - {i} - {j} + {i} + {j} == Selected(env, s.store);
    run := [Step(c, Fetch(rows)), Step(c, LoadRow(true)), Step(c', LoadRow(true))];
    var s1 := FetchStep(env, s, c, rows);
    var s2 := AfterLoadRow(env, s1, rows, c, true);
    LoadStep(env, s1, c);
    assert rows[1..] == others && others[0] == s.store[i];
    LoadStep(env, s2, c');
    assert run == [run[0]] + ([run[1]] + ([run[2]] + []));
    ExecStep(env, s, clock, run[0], [run[1]] + ([run[2]] + []));
    ExecStep(env, s1, c, run[1], [run[2]] + []);
    ExecStep(env, s2, c, run[2], []);
    ExecNone(env, AfterLoadRow(env, s2, others, c', true), c');
    RowOverwritten(env, s1, rows, c, c');
  }

  lemma LoadStep(env: Env, s: State, clock: Time)
    requires s.phase.Loading? && s.phase.rows != []
    ensures Next(env, s, clock, LoadRow(true)) == Some(AfterLoadRow(env, s, s.phase.rows, clock, true))
  {
  }

  lemma RowOverwritten(env: Env, s: State, rows: seq<Schedule>, c: Time, c': Time)
    requires |rows| >= 2 && s.phase == Loading(rows) && rows[0].id != rows[1].id && rows[0].jobId == rows[1].jobId
    requires rows[0].id in s.store && s.store[rows[0].id] == rows[0]
    requires LoadedEntry(env.cron, rows[0], c).Ok? && LoadedEntry(env.cron, rows[1], c').Ok? && rows[1].nextRunAt.None?
    ensures var t := AfterLoadRow(env, AfterLoadRow(env, s, rows, c, true), rows[1..], c', true);
      && t.phase.Loading? && t.unsaved == s.unsaved
      && rows[0].id in t.memory && t.memory[rows[0].id] == LoadedEntry(env.cron, rows[0], c).value
      && rows[0].id in t.store && t.store[rows[0].id].nextRunAt == LoadedEntry(env.cron, rows[1], c').value.nextRunAt
  {
    hide CalculateNextRun;
  }

  // ---------- the exact condition ----------

  /** Every schedule in memory whose next time could be saved has the same next time in the store. */
  ghost predicate NextTimesAgree(s: State) {
    forall i :: i in s.memory && i !in s.unsaved ==> i in s.store && s.store[i].nextRunAt == NextTime(s, i)
  }

  /** Started on a table with two schedules of one job, the process has a run after which they disagree. */
  lemma SharedJobDisagrees(env: Env, s: State, clock: Time, i: int, j: int) returns (run: seq<Step>)
    requires Init(s) && forall k :: k in s.store ==> s.store[k].id == k
    requires forall k :: k in Selected(env, s.store) ==> Recurs(env.cron, s.store[k])
    requires i in Selected(env, s.store) && j in Selected(env, s.store) && i != j
    requires s.store[i].jobId == s.store[j].jobId
    ensures Exec(env, s, clock, run).Some? && !NextTimesAgree(Exec(env, s, clock, run).value)
  {
    hide Exec, Next, Inv, Selected, Recurs;
    SelectedRows(env, s.store);
    var first := Load(env, s, clock);
    var t := Exec(env, s, clock, first).value;
    InitInv(env, s, clock);
    InvExec(env, s, clock, clock, first);
    RuleRecurs(env.cron, s.store[i], t.memory[i]);
    var second := SiblingRunBreaksAgreement(env, t, clock, ClockAfter(clock, first), i, j);
    ExecConcat(env, s, clock, first, second);
    run := first + second;
  }

  lemma AgreeingRuns(env: Env, s: State, clock: Time, run: seq<Step>)
    requires Init(s) && OnePerJob(env, s.store) && Exec(env, s, clock, run).Some?
    ensures NextTimesAgree(Exec(env, s, clock, run).value)
  {
    hide Exec;
    MemoryAgreesWithStore(env, s, clock, run);
  }

  /**
   On a table of schedules that go on, the next times in memory and store agree in every state of every run if and only
   if no two schedules of the device belong to one job.
   */
  lemma AgreesIffOnePerJob(env: Env, s: State, clock: Time)
    requires Init(s) && forall k :: k in s.store ==> s.store[k].id == k
    requires forall k :: k in Selected(env, s.store) ==> Recurs(env.cron, s.store[k])
    ensures OnePerJob(env, s.store)
      <==> forall run :: Exec(env, s, clock, run).Some? ==> NextTimesAgree(Exec(env, s, clock, run).value)
  {
    hide Exec, NextTimesAgree, Recurs, Selected;
    if OnePerJob(env, s.store) {
      forall run | Exec(env, s, clock, run).Some? ensures NextTimesAgree(Exec(env, s, clock, run).value) {
        AgreeingRuns(env, s, clock, run);
      }
    } else {
      SelectedRows(env, s.store);
      var i, j :| i in Selected(env, s.store) && j in Selected(env, s.store)
                  && s.store[i].jobId == s.store[j].jobId && i != j;
      var run := SharedJobDisagrees(env, s, clock, i, j);
    }
  }
}

/** Which schedules a process works with: the enabled schedules of the enabled jobs of its own device, and no others. */
module Selection {
  import opened Wrappers
  import opened Models
  import opened ScheduleCalc
  import opened Queries
  import opened SchedulerMachine
  import System
  import SendLog

  /** An enabled schedule of an enabled job of this device. */
  predicate Wanted(env: Env, row: Schedule) {
    && row.enabled
    && row.jobId in env.jobs
    && env.jobs[row.jobId].enabled
    && env.jobs[row.jobId].deviceId == env.deviceId
  }

  // ---------- what every step keeps ----------

  /** The scheduler works on wanted rows of the table `store` that the process was started on. */
  ghost predicate Chosen(env: Env, store: map<int, Schedule>, s: State) {
    && s.store.Keys == store.Keys
    && (forall i :: i in store ==> Follows(s.store[i], store[i]))
    && (forall i :: i in s.memory ==> i in store && Wanted(env, store[i]) && Follows(s.memory[i], store[i]))
    && match s.phase
       case Down => true
       case Stopped => true
       case Loading(rows) =>
         && (forall k :: 0 <= k < |rows| ==>
               rows[k].id in store && Wanted(env, store[rows[k].id]) && Follows(rows[k], store[rows[k].id]))
         && (forall i :: i in store && Wanted(env, store[i]) ==> i in s.memory || Fetched(rows, i))
       case _ => forall i :: i in store && Wanted(env, store[i]) ==> i in s.memory
  }

  predicate Fetched(rows: seq<Schedule>, i: int) {
    exists k :: 0 <= k < |rows| && rows[k].id == i
  }

  lemma ChosenFetch(env: Env, store: map<int, Schedule>, s: State, rows: seq<Schedule>)
    requires Chosen(env, store, s) && FetchedRows(env, s, rows)
    ensures
      Chosen(env, store, s.(memory := map[], loaded := map[], log := map[], failed := map[], phase := Loading(rows)))
  {
    forall i | i in store && Wanted(env, store[i]) ensures Fetched(rows, i) {
      assert Follows(s.store[i], store[i]);
      assert i in SchedulesForDevice(s.store, env.jobs, env.deviceId);
      var k :| 0 <= k < |rows| && rows[k].id == i;
    }
    forall k | 0 <= k < |rows|
      ensures rows[k].id in store && Wanted(env, store[rows[k].id]) && Follows(rows[k], store[rows[k].id])
    {
      assert Follows(s.store[rows[k].id], store[rows[k].id]);
    }
  }

  lemma ChosenRow(env: Env, store: map<int, Schedule>, s: State, clock: Time, writeOk: bool)
    requires Chosen(env, store, s) && s.phase.Loading? && s.phase.rows != []
    ensures Chosen(env, store, AfterLoadRow(env, s, s.phase.rows, clock, writeOk))
  {
    hide CalculateNextRun;
    var rows := s.phase.rows;
    forall i | i != rows[0].id && Fetched(rows, i) ensures Fetched(rows[1..], i) {
      var k :| 0 <= k < |rows| && rows[k].id == i;
      assert rows[1..][k - 1].id == i;
    }
  }

  lemma ChosenWrite(env: Env, store: map<int, Schedule>, s: State, jobId: Uuid, last: Time, next: Option<Time>)
    requires Chosen(env, store, s) && s.phase.Calculated?
    ensures var p := s.phase;
      Chosen(env, store, s.(store := UpdateLastRun(s.store, jobId, last, next), unsaved := s.unsaved - {p.entry.id},
                            phase := Written(p.now, p.todo, p.entry, p.stamp, p.next)))
  {
    hide Wanted;
  }

  lemma ChosenUpdate(env: Env, store: map<int, Schedule>, s: State, id: int, stamp: Time, next: Time, phase: Phase)
    requires Chosen(env, store, s) && s.phase.Written? && phase.Checking?
    ensures Chosen(env, store, AfterUpdate(s, id, stamp, next).(phase := phase))
  {
    hide Wanted;
  }

  /** The other steps change neither memory nor store. */
  lemma ChosenPhase(env: Env, store: map<int, Schedule>, s: State, clock: Time, e: Event)
    requires Chosen(env, store, s) && Next(env, s, clock, e).Some?
    requires !e.Fetch? && !e.LoadRow? && !e.Update? && e != Write(true)
    ensures Chosen(env, store, Next(env, s, clock, e).value)
  {
    hide Wanted, Follows, Next;
    QuietStep(env, s, clock, e);
  }

  lemma QuietStep(env: Env, s: State, clock: Time, e: Event)
    requires Next(env, s, clock, e).Some?
    requires !e.Fetch? && !e.LoadRow? && !e.Update? && e != Write(true)
    ensures var t := Next(env, s, clock, e).value;
      && t.memory == s.memory && t.store == s.store && !t.phase.Loading? && !t.phase.Down?
      && (!t.phase.Stopped? ==> s.phase == Loading([]) || !(s.phase.Down? || s.phase.Stopped? || s.phase.Loading?))
  {
    hide CalculateNextRun, IsDue, FetchedRows;
  }

  lemma ChosenNext(env: Env, store: map<int, Schedule>, s: State, clock: Time, e: Event)
    requires Chosen(env, store, s) && Next(env, s, clock, e).Some?
    ensures Chosen(env, store, Next(env, s, clock, e).value)
  {
    hide Chosen;
    if e.Fetch? {
      ChosenFetch(env, store, s, e.rows);
    } else if e.LoadRow? {
      ChosenRow(env, store, s, clock, e.writeOk);
    } else if e.Update? {
      var p := s.phase;
      ChosenUpdate(env, store, s, p.entry.id, p.stamp, p.next, Checking(p.now, p.todo));
    } else if e == Write(true) {
      ChosenWrite(env, store, s, s.phase.entry.jobId, s.phase.stamp, Some(s.phase.next));
    } else {
      ChosenPhase(env, store, s, clock, e);
    }
  }

  lemma {:induction false} ChosenExec(env: Env, store: map<int, Schedule>, s: State, clock: Time, run: seq<Step>)
    requires Chosen(env, store, s) && Exec(env, s, clock, run).Some?
    ensures Chosen(env, store, Exec(env, s, clock, run).value)
    decreases |run|
  {
    hide Next, Chosen;
    if run != [] {
      var c, e := run[0].clock, run[0].event;
      ChosenNext(env, store, s, c, e);
      ChosenExec(env, store, Next(env, s, c, e).value, c, run[1..]);
    }
  }

  // ---------- what a process works with ----------

  /**
   In every state of every run the schedules in memory are enabled schedules of enabled jobs of this device, by the
   table that the process was started on; and once a load has gone through they are all of these.
   */
  lemma MemoryIsSelection(env: Env, s: State, clock: Time, run: seq<Step>)
    requires Init(s) && Exec(env, s, clock, run).Some?
    ensures var t := Exec(env, s, clock, run).value;
      && (forall i :: i in t.memory ==>
            && i in s.store && t.memory[i].jobId == s.store[i].jobId
            && t.memory[i].enabled && t.memory[i].jobId in env.jobs
            && env.jobs[t.memory[i].jobId].enabled && env.jobs[t.memory[i].jobId].deviceId == env.deviceId)
      && (t.phase.Idle? || t.phase.Checking? || t.phase.Sent? || t.phase.Calculated? || t.phase.Written? ==>
            forall i ::
              i in s.store && s.store[i].enabled && s.store[i].jobId in env.jobs
              && env.jobs[s.store[i].jobId].enabled && env.jobs[s.store[i].jobId].deviceId == env.deviceId ==>
                i in t.memory)
  {
    hide Next;
    ChosenExec(env, s.store, s, clock, run);
  }

  /**
   In every run of the process a message of a schedule is for the job of that schedule in the table, which is an
   enabled job of this device, and says that a schedule sent it. A disabled job is backed up by manual trigger only.
   */
  lemma MessagesAreForEnabledJobs(env: Env, limit: nat, s: System.State, run: seq<System.Event>, k: nat)
    requires System.Init(s) && System.Exec(env, limit, s, run).Some?
    requires k < |System.Exec(env, limit, s, run).value.sent|
    ensures var m := System.Exec(env, limit, s, run).value.sent[k];
      && m.execution.triggeredBy == (if m.origin.FromTrigger? then "manual" else "schedule")
      && (m.origin.FromSchedule? ==>
            && m.origin.id in s.sched.store && s.sched.store[m.origin.id].enabled
            && m.execution.jobId == s.sched.store[m.origin.id].jobId && m.execution.jobId in env.jobs
            && env.jobs[m.execution.jobId].enabled && env.jobs[m.execution.jobId].deviceId == env.deviceId)
  {
    hide System.Next, Next, Inv, Exec, System.Exec, Chosen;
    var t := System.Exec(env, limit, s, run).value;
    System.InitInv(env, s);
    System.InvExec(env, limit, s, s.clock, run);
    var steps := System.SchedulerRunOf(env, limit, s, run);
    var m := t.sent[k];
    if m.origin.FromSchedule? {
      System.InvKeys(env, t.sched, s.clock, t.clock);
      System.LoadedJob(env, t.sched, s.clock, t.clock, m.origin.id);
      InitChosen(env, s.sched);
      ChosenExec(env, s.sched.store, s.sched, s.clock, steps);
      ChosenIsWanted(env, s.sched.store, t.sched, m.origin.id);
    }
  }

  lemma InitChosen(env: Env, s: State)
    requires Init(s)
    ensures Chosen(env, s.store, s)
  {
  }

  lemma ChosenAll(env: Env, store: map<int, Schedule>, s: State)
    requires Chosen(env, store, s) && s.phase.Idle?
    ensures forall i :: i in s.memory <==> i in store && Wanted(env, store[i])
  {
  }

  lemma ChosenIsWanted(env: Env, store: map<int, Schedule>, s: State, i: int)
    requires Chosen(env, store, s) && i in s.memory
    ensures i in store && Wanted(env, store[i]) && s.memory[i].jobId == store[i].jobId
  {
  }
}

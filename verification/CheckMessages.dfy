/**
 The messages of a check: what the object puts on its queue is, in the same order, what the process puts on the channel
 when its scheduler takes the steps of that check.
 */
module CheckMessages {
  import opened Wrappers
  import opened Models
  import opened ScheduleCalc
  import opened System
  import S = SchedulerMachine
  import Scheduler
  import LoadRuns

  // ---------- runs in parts ----------

  lemma {:induction false} ExecConcat(env: S.Env, limit: nat, s: State, a: seq<Event>, b: seq<Event>)
    requires Exec(env, limit, s, a).Some?
    ensures Exec(env, limit, s, a + b) == Exec(env, limit, Exec(env, limit, s, a).value, b)
    decreases |a|
  {
    hide Next;
    if a == [] {
      assert a + b == b;
    } else {
      assert (a + b)[1..] == a[1..] + b;
      ExecConcat(env, limit, Next(env, limit, s, a[0]).value, a[1..], b);
    }
  }

  /** No step of the run is a manual trigger. */
  predicate NoTriggers(run: seq<Event>) {
    forall k :: 0 <= k < |run| ==> !run[k].Trigger?
  }

  /** A run of the scheduler's machine, as a run of the process in which nothing else happens. */
  function Alone(steps: seq<S.Step>): (run: seq<Event>)
    ensures NoTriggers(run)
  {
    if steps == [] then [] else [Tick(steps[0].clock), Event.Schedule(steps[0].event)] + Alone(steps[1..])
  }

  /** With room in the queue the process can leave all steps to the scheduler, and the queue grows by what it sends. */
  lemma {:induction false} AloneRun(env: S.Env, limit: nat, s: State, steps: seq<S.Step>)
    requires S.Exec(env, s.sched, s.clock, steps).Some?
    requires |s.channel| + |SentBy(env, s.sched, steps)| <= CHANNEL_CAPACITY
    ensures var messages := SentBy(env, s.sched, steps);
      Exec(env, limit, s, Alone(steps)) ==
      Some(s.(clock := S.ClockAfter(s.clock, steps), sched := S.Exec(env, s.sched, s.clock, steps).value,
              channel := s.channel + ExecutionsOf(messages), sent := s.sent + messages))
    decreases |steps|
  {
    hide S.Next, S.Sends, Next, ScheduleMessage, SentBy;
    if steps == [] {
      ExecNone(env, limit, s);
      SentNothing(env, s.sched);
      assert s.channel + ExecutionsOf([]) == s.channel && s.sent + [] == s.sent;
    } else {
      var c, e, rest := steps[0].clock, steps[0].event, steps[1..];
      var s1 := s.(clock := c);
      var first := if S.Sends(s.sched, e) then [ScheduleMessage(s.sched, e)] else [];
      assert steps == [steps[0]] + rest;
      SentFirst(env, s.sched, steps[0], rest);
      var t := AloneStep(env, limit, s, c, e, first);
      ClockTicks(env, limit, s, c);
      ExecutionsConcat(first, SentBy(env, t.sched, rest));
      assert [Tick(c), Event.Schedule(e)] + Alone(rest) == [Tick(c)] + ([Event.Schedule(e)] + Alone(rest));
      ExecStep(env, limit, s, Tick(c), [Event.Schedule(e)] + Alone(rest));
      ExecStep(env, limit, s1, Event.Schedule(e), Alone(rest));
      AloneRun(env, limit, t, rest);
      var later := SentBy(env, t.sched, rest);
      assert s.sent + (first + later) == t.sent + later;
      assert s.channel + ExecutionsOf(first + later) == t.channel + ExecutionsOf(later);
    }
  }

  /** One step of the scheduler when the queue has room for what it sends. */
  lemma AloneStep(env: S.Env, limit: nat, s: State, clock: Time, e: S.Event, messages: seq<Message>) returns (t: State)
    requires S.Next(env, s.sched, clock, e).Some?
    requires messages == if S.Sends(s.sched, e) then [ScheduleMessage(s.sched, e)] else []
    requires |s.channel| + |messages| <= CHANNEL_CAPACITY
    ensures t == s.(clock := clock, sched := S.Next(env, s.sched, clock, e).value,
                    channel := s.channel + ExecutionsOf(messages), sent := s.sent + messages)
    ensures Next(env, limit, s.(clock := clock), Event.Schedule(e)) == Some(t)
  {
    hide S.Next, S.Sends;
    t := Next(env, limit, s.(clock := clock), Event.Schedule(e)).value;
    if messages == [] {
      assert s.channel + ExecutionsOf(messages) == s.channel && s.sent + messages == s.sent;
    } else {
      assert s.channel + ExecutionsOf(messages) == s.channel + [messages[0].execution];
    }
  }

  lemma ClockTicks(env: S.Env, limit: nat, s: State, clock: Time)
    requires s.clock <= clock
    ensures Next(env, limit, s, Tick(clock)) == Some(s.(clock := clock))
  {
  }

  lemma {:induction false} SendsNone(env: S.Env, sched: S.State, steps: seq<S.Step>)
    requires LoadRuns.SendsNothing(steps)
    ensures SentBy(env, sched, steps) == []
    decreases |steps|
  {
    hide S.Next;
    if steps != [] && S.Next(env, sched, steps[0].clock, steps[0].event).Some? {
      SendsNone(env, S.Next(env, sched, steps[0].clock, steps[0].event).value, steps[1..]);
    }
  }

  lemma {:induction false} SentConcat(env: S.Env, sched: S.State, clock: Time, a: seq<S.Step>, b: seq<S.Step>)
    requires S.Exec(env, sched, clock, a).Some?
    ensures SentBy(env, sched, a + b) == SentBy(env, sched, a) + SentBy(env, S.Exec(env, sched, clock, a).value, b)
    decreases |a|
  {
    hide S.Next, S.Sends;
    if a == [] {
      assert a + b == b;
    } else {
      assert (a + b)[1..] == a[1..] + b;
      SentConcat(env, S.Next(env, sched, a[0].clock, a[0].event).value, a[0].clock, a[1..], b);
    }
  }

  // ---------- one check ----------

  /** A visit sends the message of its schedule, or nothing. */
  lemma VisitMessages(env: S.Env, s: S.State, id: int, a: Scheduler.Attempt)
    requires s.phase.Checking? && id in s.phase.todo && s.phase.todo[id].id == id
    ensures var entry := s.phase.todo[id];
      ExecutionsOf(SentBy(env, s, Scheduler.VisitSteps(env.cron, entry, s.phase.now, a))) ==
      Scheduler.MessagesOf(entry, s.phase.now, a)
  {
    hide S.Next, CalculateNextRun, IsDue;
    var entry := s.phase.todo[id];
    var steps := Scheduler.VisitSteps(env.cron, entry, s.phase.now, a);
    Scheduler.FirstStep(env, s, id, a);
    SendsNone(env, S.Next(env, s, a.now, steps[0].event).value, steps[1..]);
  }

  lemma {:induction false} PrefixMessages(env: S.Env, s: S.State, now: Time, order: seq<int>,
                                          attempts: int -> Scheduler.Attempt, k: nat)
    requires s.phase == S.Checking(now, s.memory) && (forall i :: i in s.memory ==> s.memory[i].id == i)
    requires Scheduler.Enumerates(order, s.memory.Keys) && Scheduler.ClockRuns(order, now, attempts) && k <= |order|
    ensures ExecutionsOf(SentBy(env, s, Scheduler.CheckSteps(env.cron, s.memory, order[..k], now, attempts))) ==
      Scheduler.MessagesInOrder(s.memory, order[..k], now, attempts)
    decreases k
  {
    hide S.Exec, S.Next, SentBy, Scheduler.MessagesOf, Scheduler.VisitSteps, Scheduler.Reached, Scheduler.CheckSteps,
      Scheduler.MessagesInOrder;
    if k == 0 {
      assert order[..k] == [];
      NoMessages(env, s, now, attempts);
    } else {
      var id, a := order[k - 1], attempts(order[k - 1]);
      PrefixMessages(env, s, now, order, attempts, k - 1);
      Scheduler.CheckIsRunPrefix(env, s, now, order, attempts, k - 1);
      var steps := Scheduler.CheckSteps(env.cron, s.memory, order[..k - 1], now, attempts);
      var t := S.Exec(env, s, now, steps).value;
      var more := Scheduler.VisitSteps(env.cron, s.memory[id], now, a);
      assert order[..k] == order[..k - 1] + [id];
      StillToVisit(env, s, t, now, order[..k - 1], attempts, id);
      VisitMessages(env, t, id, a);
      Scheduler.StepsMore(env.cron, s.memory, order[..k - 1], now, attempts, id);
      Scheduler.MessagesMore(s.memory, order[..k - 1], now, attempts, id);
      SentConcat(env, s, now, steps, more);
      ExecutionsConcat(SentBy(env, s, steps), SentBy(env, t, more));
    }
  }

  lemma NoMessages(env: S.Env, s: S.State, now: Time, attempts: int -> Scheduler.Attempt)
    ensures ExecutionsOf(SentBy(env, s, Scheduler.CheckSteps(env.cron, s.memory, [], now, attempts))) ==
      Scheduler.MessagesInOrder(s.memory, [], now, attempts)
  {
  }

  lemma StillToVisit(env: S.Env, s: S.State, t: S.State, now: Time, order: seq<int>, attempts: int -> Scheduler.Attempt,
                     id: int)
    requires Scheduler.Reached(env, s, t, now, order, attempts) && id in s.memory && id !in order
    ensures t.phase.Checking? && t.phase.now == now && id in t.phase.todo && t.phase.todo[id] == s.memory[id]
  {
  }

  lemma ExecutionsConcat(a: seq<Message>, b: seq<Message>)
    ensures ExecutionsOf(a + b) == ExecutionsOf(a) + ExecutionsOf(b)
  {
  }

  /** The steps of a check send, in order, the messages that the object queues. */
  lemma CheckSends(env: S.Env, s: S.State, now: Time, order: seq<int>, attempts: int -> Scheduler.Attempt)
    requires s.phase.Idle? && (forall i :: i in s.memory ==> s.memory[i].id == i)
    requires Scheduler.Enumerates(order, s.memory.Keys) && Scheduler.ClockRuns(order, now, attempts)
    ensures ExecutionsOf(SentBy(env, s, Scheduler.CheckRun(env.cron, s.memory, now, order, attempts))) ==
      Scheduler.MessagesInOrder(s.memory, order, now, attempts)
  {
    hide S.Exec, S.Next, Scheduler.MessagesInOrder, Scheduler.CheckSteps, Scheduler.Reached;
    var t := s.(phase := S.Checking(now, s.memory));
    var steps := Scheduler.CheckSteps(env.cron, s.memory, order, now, attempts);
    var last := [S.Step(S.ClockAfter(now, steps), S.EndCheck)];
    Scheduler.CheckEnds(env, s, now);
    assert order[..|order|] == order;
    PrefixMessages(env, t, now, order, attempts, |order|);
    Scheduler.CheckIsRunPrefix(env, t, now, order, attempts, |order|);
    SentConcat(env, t, now, steps, last);
    SendsNone(env, S.Exec(env, t, now, steps).value, last);
    assert ([S.Step(now, S.BeginCheck)] + (steps + last))[1..] == steps + last;
    assert SentBy(env, t, steps) + [] == SentBy(env, t, steps);
  }

  /**
   In the process: while nothing else happens and the queue has room, a check puts the messages of the object on the
   channel, one for each enabled schedule found due, in the order of the visits.
   */
  lemma CheckQueues(env: S.Env, limit: nat, s: State, now: Time, order: seq<int>, attempts: int -> Scheduler.Attempt)
    requires s.sched.phase.Idle? && (forall i :: i in s.sched.memory ==> s.sched.memory[i].id == i)
    requires Scheduler.Enumerates(order, s.sched.memory.Keys) && Scheduler.ClockRuns(order, now, attempts)
    requires s.clock <= now
    requires |s.channel| + |Scheduler.MessagesInOrder(s.sched.memory, order, now, attempts)| <= CHANNEL_CAPACITY
    ensures var run := Scheduler.CheckRun(env.cron, s.sched.memory, now, order, attempts);
      var r := Exec(env, limit, s, Alone(run));
      && r.Some? && r.value.sched.phase.Idle? && r.value.exec == s.exec
      && r.value.sched.memory == Scheduler.CheckedMemory(env.cron, s.sched.memory, now, attempts)
      && r.value.channel == s.channel + Scheduler.MessagesInOrder(s.sched.memory, order, now, attempts)
  {
    hide Exec, S.Exec, S.Next, SentBy, Scheduler.CheckRun, Scheduler.MessagesInOrder, Scheduler.CheckedMemory;
    var run := Scheduler.CheckRun(env.cron, s.sched.memory, now, order, attempts);
    Scheduler.CheckIsRun(env, s.sched, now, order, attempts);
    CheckSends(env, s.sched, now, order, attempts);
    LaterStart(env, s.sched, s.clock, now, run);
    AloneRun(env, limit, s, run);
  }
}

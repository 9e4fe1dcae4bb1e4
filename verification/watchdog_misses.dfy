/** The miss count: what it equals, and why it stops one above its limit. */
module WatchdogMisses {
  import opened SchedulerSpec
  import opened SchedulerOwnership
  import opened SchedulerOrder
  import opened SchedulerTiming
  import opened WatchdogSpec
  import opened WatchdogCalls
  import opened WatchdogGuardian
  import opened WatchdogModes

  // ---------- What the count is ----------

  /** Increments since the last reset; `first` stands for the ones before any reset. */
  function MissesOf(es: seq<Event>, first: nat): nat {
    if es == [] then first
    else
      var e := es[|es| - 1];
      if e.Reset? then 0
      else MissesOf(es[..|es| - 1], first) + if e.Incremented? then 1 else 0
  }

  predicate Counted(c: Client) {
    c.misses == MissesOf(c.events, c.maxMissed)
  }

  lemma {:induction false} Appended(es: seq<Event>, e: Event, first: nat)
    ensures MissesOf(es + [e], first)
            == if e.Reset? then 0 else MissesOf(es, first) + if e.Incremented? then 1 else 0
  {
    assert (es + [e])[..|es|] == es;
  }

  lemma {:induction false} SameCount(c: Client, c': Client)
    requires Counted(c) && c'.events == c.events && c'.misses == c.misses && c'.maxMissed == c.maxMissed
    ensures Counted(c')
  {
  }

  /** An event that leaves the count alone. */
  lemma {:induction false} QuietCounted(c: Client, c': Client, e: Event)
    requires Counted(c) && c'.events == c.events + [e] && !e.Reset? && !e.Incremented?
    requires c'.misses == c.misses && c'.maxMissed == c.maxMissed
    ensures Counted(c')
  {
    Appended(c.events, e, c.maxMissed);
  }

  lemma {:induction false} ResetCounted(c: Client, arrives: bool)
    requires Counted(c)
    ensures Counted(ResetIf(c, arrives))
  {
    Appended(c.events, Reset, c.maxMissed);
  }

  lemma {:induction false} KillCounted(c: Client, r: KillResult)
    requires Counted(c)
    ensures Counted(KillTarget(c, r))
  {
    QuietCounted(c, KillTarget(c, r), Killed(c.target, if c.target == 0 then Probe else Usr2, r));
  }

  lemma {:induction false} ForkCounted(c: Client, f: ForkResult)
    requires Counted(c)
    ensures Counted(ReviveApp(c, f))
  {
    QuietCounted(c, ReviveApp(c, f), if f.ForkFailed? then NotForked else Forked(f.pid));
  }

  lemma {:induction false} StopCounted(c: Client, r: KillResult)
    requires Counted(c)
    ensures Counted(WatchdogStop(c, r).0)
  {
    if c.shouldStop {
      KillCounted(c, r);
      SameCount(KillTarget(c, r), WatchdogStop(c, r).0);
    }
  }

  lemma {:induction false} ReviveCounted(c: Client, b: BodyInput)
    requires Counted(c)
    ensures Counted(ReviveIfNeeded(c, b).0)
  {
    StopCounted(c, b.stopKill);
    if !c.shouldStop {
      var c2 := ResetIf(c, b.reset0);
      ResetCounted(c, b.reset0);
      KillCounted(c2, b.kill);
      var c4 := ReviveApp(KillTarget(c2, b.kill), b.fork);
      ForkCounted(KillTarget(c2, b.kill), b.fork);
      SchedulingKeepsTrace(c4, b);
      SameCount(c4, ChangeToWait(c4, b.add0).0);
    }
  }

  lemma {:induction false} IncCounted(c: Client, b: BodyInput)
    requires Counted(c)
    ensures Counted(IncCnt(c, b).0)
  {
    StopCounted(c, b.stopKill);
    ResetCounted(c, b.reset0);
    Appended(ResetIf(c, b.reset0).events, Incremented, c.maxMissed);
  }

  lemma {:induction false} SendCounted(c: Client, b: BodyInput)
    requires Counted(c)
    ensures Counted(SendSignal(c, b).0)
  {
    StopCounted(c, b.stopKill);
    var e := Killed(c.target, Usr1, b.kill);
    var c2 := c.(events := c.events + [e]);
    QuietCounted(c, c2, e);
    ForkCounted(c2, b.fork);
  }

  lemma {:induction false} SetCounted(c: Client, b: BodyInput)
    requires Counted(c)
    ensures Counted(SetScheduler(c, b).0)
  {
    SchedulingKeepsTrace(c, b);
    SameCount(c, SetScheduler(c, b).0);
  }

  lemma {:induction false} WaitCounted(c: Client, b: BodyInput)
    requires Counted(c)
    ensures Counted(WaitForApp(c, b).0)
  {
    if c.shouldStop {
      StopCounted(c, b.stopKill);
    } else {
      var c2 := ResetIf(c, b.reset0);
      ResetCounted(c, b.reset0);
      if c2.misses == 0 {
        SetCounted(c2, b);
        assert WaitForApp(c, b).0 == SetScheduler(c2, b).0;
      } else {
        KillCounted(c2, b.kill);
        ForkCounted(KillTarget(c2, b.kill), b.fork);
      }
    }
  }

  lemma {:induction false} TaskCounted(c: Client, kind: nat, b: BodyInput)
    requires Counted(c)
    ensures Counted(Task(c, kind, b).0)
  {
    if kind == REVIVE {
      ReviveCounted(c, b);
    } else if kind == INCREMENT_COUNTER {
      IncCounted(c, b);
    } else if kind == SEND_SIGNAL {
      SendCounted(c, b);
    } else {
      WaitCounted(c, b);
    }
  }

  lemma {:induction false} BodyCounted(c: Client, kind: nat, b: BodyInput)
    requires Counted(c)
    ensures Counted(Body(c, kind, b).0)
  {
    var c0 := RaiseIf(c, b.raise);
    SameCount(c, c0);
    TaskCounted(c0, kind, b);
    ResetCounted(Task(c0, kind, b).0, b.reset1);
  }

  lemma {:induction false} PassCounted(c: Client, t: ClientTurn)
    requires Counted(c)
    ensures Counted(Pass(c, t).0)
  {
    if t.head.ok && c.sched.queue != [] {
      var c1 := c.(sched := Begin(c.sched, t.head, t.overrun));
      SameCount(c, c1);
      BodyCounted(c1, c.sched.queue[0].op, t.body);
      SameCount(Body(c1, c.sched.queue[0].op, t.body).0, Pass(c, t).0);
    }
  }

  /** The count is right after every pass, whenever resets arrive. */
  lemma {:induction false} StepCounted(c: Client, t: ClientTurn)
    requires Counted(c)
    ensures Counted(ClientStep(c, t).0)
  {
    PassCounted(c, t);
    var c1 := Pass(c, t).0;
    SameCount(c1, Recover(c1, t.recover));
  }

  // ---------- Why it is bounded ----------

  /** How often the INC task `y` can run before the REVIVE task `x`. */
  function Lead(x: TaskRec, y: TaskRec): nat {
    if y.deadline < x.deadline then 2 else if y.deadline == x.deadline then 1 else 0
  }

  /** The count and the increments still possible before the next check. */
  predicate WithinBudget(q: seq<TaskRec>, misses: nat, limit: nat) {
    && misses <= limit + 1
    && forall x, y :: x in q && y in q && x.op == REVIVE && y.op == INCREMENT_COUNTER ==>
         misses + Lead(x, y) <= limit + 1
  }

  /** All tasks repeat every `interval` and are due within it. */
  predicate Soon(q: seq<TaskRec>, clock: int, interval: Positive) {
    forall t :: t in q ==> t.interval == interval && t.deadline <= clock + interval
  }

  predicate Bounded(c: Client) {
    && Soon(c.sched.queue, c.sched.clock, c.interval)
    && WithinBudget(c.sched.queue, c.misses, c.maxMissed)
  }

  predicate SameLimits(c: Client, c': Client) {
    c'.interval == c.interval && c'.maxMissed == c.maxMissed && c.sched.clock <= c'.sched.clock
  }

  lemma {:induction false} AddSoon(c: Client, kind: nat, i: AddInput)
    requires Soon(c.sched.queue, c.sched.clock, c.interval) && kind < NUM_OF_TASKS && 1 <= c.sched.nextUid
    ensures var (c', ok) := AddTaskToSched(c, kind, i);
      && Soon(c'.sched.queue, c'.sched.clock, c'.interval) && SameLimits(c, c') && c'.misses == c.misses
      && (forall x :: x in c'.sched.queue ==>
          x in c.sched.queue || (x.op == kind && x.deadline == c'.sched.clock + c.interval))
  {
    AddOutcome(c, kind, i);
    InsertMembers(c.sched.queue, NewTask(c, kind, i), i.tie);
  }

  /** No INC is queued, and the count is zero. */
  predicate BeforeInc(c: Client) {
    && Soon(c.sched.queue, c.sched.clock, c.interval) && c.misses == 0 && 1 <= c.sched.nextUid
    && forall y :: y in c.sched.queue ==> y.op != INCREMENT_COUNTER
  }

  lemma {:induction false} AddBeforeInc(c: Client, kind: nat, i: AddInput)
    requires BeforeInc(c) && kind < NUM_OF_TASKS && kind != INCREMENT_COUNTER
    ensures var c' := AddTaskToSched(c, kind, i).0;
      BeforeInc(c') && SameLimits(c, c') && Bounded(c')
  {
    AddOutcome(c, kind, i);
    AddSoon(c, kind, i);
  }

  lemma {:induction false} AddInc(c: Client, i: AddInput)
    requires BeforeInc(c)
    ensures var c' := AddTaskToSched(c, INCREMENT_COUNTER, i).0;
      SameLimits(c, c') && c'.misses == 0 && Bounded(c')
  {
    AddSoon(c, INCREMENT_COUNTER, i);
    var c' := AddTaskToSched(c, INCREMENT_COUNTER, i).0;
    forall x, y | x in c'.sched.queue && y in c'.sched.queue && x.op == REVIVE && y.op == INCREMENT_COUNTER
      ensures Lead(x, y) <= 1
    {
    }
  }

  /** Active mode starts with INC due no earlier than REVIVE. */
  lemma {:induction false} SetBounded(c: Client, b: BodyInput)
    requires c.sched.queue == [] && 1 <= c.sched.nextUid && c.misses == 0
    ensures var c' := SetScheduler(c, b).0;
      Bounded(c') && SameLimits(c, c') && c'.misses == 0
  {
    AddBeforeInc(c, SEND_SIGNAL, b.add0);
    var c1 := AddTaskToSched(c, SEND_SIGNAL, b.add0).0;
    AddBeforeInc(c1, REVIVE, b.add1);
    AddInc(AddTaskToSched(c1, REVIVE, b.add1).0, b.add2);
  }

  lemma {:induction false} WaitBounded(c: Client, i: AddInput)
    requires 1 <= c.sched.nextUid && c.misses <= c.maxMissed + 1
    ensures var c' := AddTaskToSched(ClearSched(c), CHECK_FOR_SIGNAL, i).0;
      Bounded(c') && SameLimits(c, c') && c'.misses == c.misses
  {
    AddSoon(ClearSched(c), CHECK_FOR_SIGNAL, i);
  }

  // ---------- Bodies ----------

  /** What a body does to the count, and to the queue unless it keeps it. */
  predicate BodyBound(c: Client, kind: nat, c': Client, r: TaskResult) {
    && SameLimits(c, c')
    && c'.misses <= c.misses + (if kind == INCREMENT_COUNTER && r.Again? then 1 else 0)
    && (kind == INCREMENT_COUNTER && r.Again? ==> !c.shouldStop)
    && (kind == REVIVE && r.Again? ==> c'.misses < c.maxMissed)
    && (c'.sched.queue == c.sched.queue || (!r.Again? && Bounded(c')))
  }

  lemma {:induction false} ReviveBound(c: Client, b: BodyInput)
    requires 1 <= c.sched.nextUid && c.misses <= c.maxMissed + 1
    ensures var (c', r) := ReviveIfNeeded(c, b); r.Result? ==> BodyBound(c, REVIVE, c', r.result)
  {
    if !c.shouldStop {
      var c4 := ReviveApp(KillTarget(ResetIf(c, b.reset0), b.kill), b.fork);
      WaitBounded(c4, b.add0);
    }
  }

  lemma {:induction false} WaitTaskBound(c: Client, b: BodyInput)
    requires 1 <= c.sched.nextUid && c.misses <= c.maxMissed + 1 && c.sched.queue == []
    ensures var (c', r) := WaitForApp(c, b); r.Result? ==> BodyBound(c, CHECK_FOR_SIGNAL, c', r.result)
  {
    if !c.shouldStop {
      var c1 := ResetIf(c, b.reset0);
      if c1.misses == 0 { SetBounded(c1, b); }
    }
  }

  lemma {:induction false} SimpleBound(c: Client, kind: nat, b: BodyInput)
    requires kind == INCREMENT_COUNTER || kind == SEND_SIGNAL
    ensures var (c', r) := Task(c, kind, b); r.Result? ==> BodyBound(c, kind, c', r.result)
  {
  }

  lemma {:induction false} LowerCount(c: Client, c': Client)
    requires Bounded(c) && c'.sched == c.sched && c'.misses <= c.misses
    requires c'.interval == c.interval && c'.maxMissed == c.maxMissed
    ensures Bounded(c')
  {
  }

  lemma {:induction false} BodyIsBound(c: Client, kind: nat, b: BodyInput)
    requires 1 <= c.sched.nextUid && c.misses <= c.maxMissed + 1 && kind < NUM_OF_TASKS
    requires kind == CHECK_FOR_SIGNAL ==> c.sched.queue == []
    ensures var (c', r) := Body(c, kind, b); r.Result? ==> BodyBound(c, kind, c', r.result)
  {
    var c0 := RaiseIf(c, b.raise);
    if kind == REVIVE { ReviveBound(c0, b); }
    else if kind == CHECK_FOR_SIGNAL { WaitTaskBound(c0, b); }
    else { SimpleBound(c0, kind, b); }
    var (c1, r) := Task(c0, kind, b);
    if r.Result? && Bounded(c1) { LowerCount(c1, ResetIf(c1, b.reset1)); }
  }

  // ---------- One pass ----------

  /** The queue after a pass whose body kept it: without the first task, or with it requeued. */
  lemma {:induction false} KeptBudget(q: seq<TaskRec>, q': seq<TaskRec>, misses: nat, misses': nat, limit: nat,
                   clock: int, now: int, interval: Positive, again: bool)
    requires q != [] && Sorted(q) && Soon(q, clock, interval) && WithinBudget(q, misses, limit)
    requires clock <= now && q[0].deadline <= now && 1 <= limit
    requires forall x :: x in q' ==> x in q[1..] || (again && x == q[0].(deadline := now + interval))
    requires misses' <= misses + (if q[0].op == INCREMENT_COUNTER && again then 1 else 0)
    requires q[0].op == REVIVE && again ==> misses' < limit
    requires q[0].op == INCREMENT_COUNTER && again ==> exists x :: x in q && x.op == REVIVE
    requires forall i :: 1 <= i < |q| ==> q[i].op != q[0].op
    ensures Soon(q', now, interval) && WithinBudget(q', misses', limit)
  {
    assert q[0] in q && forall x :: x in q[1..] ==> x in q;
    forall x | x in q ensures q[0].deadline <= x.deadline { var i :| 0 <= i < |q| && q[i] == x; }
    if q[0].op == INCREMENT_COUNTER && again {
      var x :| x in q && x.op == REVIVE;
      assert misses + Lead(x, q[0]) <= limit + 1;
    }
    forall x, y | x in q' && y in q' && x.op == REVIVE && y.op == INCREMENT_COUNTER
      ensures misses' + Lead(x, y) <= limit + 1
    {
      if x in q[1..] && y in q[1..] { assert misses + Lead(x, y) <= limit + 1; }
      if x in q[1..] && y !in q[1..] { assert misses + Lead(x, q[0]) <= limit + 1; }
    }
  }

  /** From the head of a pass to the state in which its task's body runs. */
  predicate AtBody(c: Client, c1: Client) {
    && c.sched.queue != [] && c1 == c.(sched := c1.sched)
    && c1.sched.queue == c.sched.queue[1..] && c1.sched.cur == Some(c.sched.queue[0])
    && !c1.sched.removeCur && !c1.sched.stop && c1.sched.nextUid == c.sched.nextUid
    && c.sched.clock <= c1.sched.clock && c.sched.queue[0].deadline <= c1.sched.clock
  }

  lemma {:induction false} BeginAtBody(c: Client, head: Reading, overrun: nat)
    requires c.sched.queue != [] && !c.sched.removeCur && !c.sched.stop
    requires c.sched.queue[0].deadline - (c.sched.clock + head.delay) < TWO_TO_31
    ensures AtBody(c, c.(sched := Begin(c.sched, head, overrun)))
  {
    NarrowExact(c.sched.queue[0].deadline - (c.sched.clock + head.delay));
  }

  lemma {:induction false} FinishClock(s: State, turn: Turn)
    ensures s.clock <= Finish(s, turn).0.clock
    ensures Finish(s, turn).1.Continue? && turn.result.Again? ==>
      Finish(s, turn).0.clock == s.clock + turn.requeue.delay
  {
  }

  lemma {:induction false} RequeuedMembers(s: State, s': State, t: ClientTurn, r: TaskResult)
    requires s.cur.Some? && Requeued(s, s', t, r)
    ensures var rec := s.cur.value.(deadline := s.clock + t.requeue.delay + s.cur.value.interval);
      forall x :: x in s'.queue ==> x in s.queue || (r.Again? && x == rec)
  {
    InsertMembers(s.queue, s.cur.value.(deadline := s.clock + t.requeue.delay + s.cur.value.interval), t.tie);
  }

  /** While no stop is requested, an active client has a REVIVE task. */
  lemma {:induction false} ReviveQueued(c: Client)
    requires InMode(c) && !c.shouldStop && c.sched.queue != [] && c.sched.queue[0].op == INCREMENT_COUNTER
    ensures exists x :: x in c.sched.queue && x.op == REVIVE
  {
    assert c.sched.queue[0] in c.sched.queue;
    assert INCREMENT_COUNTER in Kinds(c.sched.queue);
    assert REVIVE in Kinds(c.sched.queue);
  }

  /** A body that keeps the queue, and the requeueing after it. */
  lemma {:induction false} KeptBounded(c: Client, c1: Client, c2: Client, s: State, r: TaskResult, t: ClientTurn)
    requires InMode(c) && Bounded(c) && Sorted(c.sched.queue) && AtBody(c, c1)
    requires BodyBound(c1, c.sched.queue[0].op, c2, r) && c2.sched.queue == c1.sched.queue
    requires c2.sched.cur == c1.sched.cur && Requeued(c2.sched, s, t, r)
    requires s.clock >= c2.sched.clock && (r.Again? ==> s.clock == c2.sched.clock + t.requeue.delay)
    ensures Bounded(c2.(sched := s))
  {
    var q := c.sched.queue;
    assert q[0] in q;
    RequeuedMembers(c2.sched, s, t, r);
    if q[0].op == INCREMENT_COUNTER && r.Again? { ReviveQueued(c); }
    KeptBudget(q, s.queue, c.misses, c2.misses, c.maxMissed, c.sched.clock, s.clock, c.interval, r.Again?);
  }

  lemma {:induction false} RecoverBounded(c: Client, i: AddInput)
    requires 1 <= c.sched.nextUid && c.misses <= c.maxMissed + 1
    ensures Bounded(Recover(c, i))
  {
    WaitBounded(c, i);
  }

  /** Whatever happens to the task afterwards, its body keeps the count within the limit. */
  lemma {:induction false} BodyWithinLimit(c: Client, c1: Client, c2: Client, r: TaskResult)
    requires InMode(c) && Bounded(c) && Sorted(c.sched.queue) && AtBody(c, c1)
    requires BodyBound(c1, c.sched.queue[0].op, c2, r)
    ensures c2.misses <= c2.maxMissed + 1
  {
    var q := c.sched.queue;
    assert q[0] in q;
    if q[0].op == INCREMENT_COUNTER && r.Again? { ReviveQueued(c); }
    KeptBudget(q, q[1..], c.misses, c2.misses, c.maxMissed, c.sched.clock, c2.sched.clock, c.interval, r.Again?);
  }

  lemma {:induction false} GivenUpBounded(c: Client, c1: Client, c2: Client, r: TaskResult)
    requires InMode(c) && Bounded(c) && Sorted(c.sched.queue) && AtBody(c, c1)
    requires BodyBound(c1, c.sched.queue[0].op, c2, r) && !r.Again?
    ensures Bounded(c2)
  {
    var q := c.sched.queue;
    if c2.sched.queue == q[1..] {
      KeptBudget(q, q[1..], c.misses, c2.misses, c.maxMissed, c.sched.clock, c2.sched.clock, c.interval, false);
    }
  }

  lemma {:induction false} FinishGivenUp(s: State, turn: Turn)
    requires !turn.result.Again?
    ensures Finish(s, turn).0.queue == s.queue && Finish(s, turn).0.clock == s.clock
  {
  }

  lemma {:induction false} SameQueueBounded(c: Client, s: State)
    requires Bounded(c) && s.queue == c.sched.queue && s.clock == c.sched.clock
    ensures Bounded(c.(sched := s))
  {
  }

  lemma {:induction false} FinishBounded(c: Client, c1: Client, c2: Client, r: TaskResult, t: ClientTurn)
    requires InMode(c) && Bounded(c) && Sorted(c.sched.queue) && AtBody(c, c1)
    requires BodyBound(c1, c.sched.queue[0].op, c2, r)
    requires Steady(c1, c.sched.queue[0].op, c2, r) || !r.Again?
    ensures var (s, o) := Finish(c2.sched, AsTurn(t, r, [])); o.Continue? ==> Bounded(c2.(sched := s))
  {
    var turn := AsTurn(t, r, []);
    var (s, o) := Finish(c2.sched, turn);
    if r.Again? {
      FinishQueue(c2.sched, t, r);
      FinishClock(c2.sched, turn);
      if o.Continue? { KeptBounded(c, c1, c2, s, r, t); }
    } else {
      GivenUpBounded(c, c1, c2, r);
      FinishGivenUp(c2.sched, turn);
      SameQueueBounded(c2, s);
    }
  }

  lemma {:induction false} TaskPassBounded(c: Client, t: ClientTurn)
    requires InMode(c) && Bounded(c) && Sorted(c.sched.queue)
    requires t.head.ok && c.sched.queue != []
    requires c.sched.queue[0].deadline - (c.sched.clock + t.head.delay) < TWO_TO_31
    ensures var (c', r) := Pass(c, t);
      r.Ran? ==> c'.misses <= c'.maxMissed + 1 && (r.outcome.Continue? ==> Bounded(c'))
  {
    var q := c.sched.queue;
    var kind := q[0].op;
    FirstKind(q, c.slots);
    var c1 := c.(sched := Begin(c.sched, t.head, t.overrun));
    BeginAtBody(c, t.head, t.overrun);
    if kind == CHECK_FOR_SIGNAL {
      assert Kinds(q) == WAITING;
      NoKinds(q[1..]);
    }
    BodyShape(c1, kind, t.body);
    BodyIsBound(c1, kind, t.body);
    var (c2, r) := Body(c1, kind, t.body);
    if r.Result? {
      BodyWithinLimit(c, c1, c2, r.result);
      FinishBounded(c, c1, c2, r.result, t);
    }
  }

  lemma {:induction false} ExitKeepsCount(c: Client, kind: nat, b: BodyInput)
    ensures Body(c, kind, b).1.Exit? ==> Body(c, kind, b).0.misses <= c.misses
  {
  }

  /** However a pass ends, it leaves the count within the limit. */
  lemma {:induction false} PassWithinLimit(c: Client, t: ClientTurn)
    requires InMode(c) && Bounded(c) && Sorted(c.sched.queue) && InRange(c.sched, StepActions(c, t))
    ensures Pass(c, t).0.misses <= c.maxMissed + 1
  {
    PassKeepsLimits(c, t);
    if t.head.ok && c.sched.queue != [] {
      FirstInRange(c, t);
      TaskPassBounded(c, t);
      ExitKeepsCount(c.(sched := Begin(c.sched, t.head, t.overrun)), c.sched.queue[0].op, t.body);
    }
  }

  /** All that is kept from one head of the loop to the next. */
  ghost predicate Invariant(c: Client) {
    InMode(c) && Bounded(c) && Counted(c) && Owned(c.sched) && Timely(c.sched)
  }

  lemma {:induction false} FirstInRange(c: Client, t: ClientTurn)
    requires InMode(c) && InRange(c.sched, StepActions(c, t)) && t.head.ok && c.sched.queue != []
    ensures c.sched.queue[0].deadline - (c.sched.clock + t.head.delay) < TWO_TO_31
  {
    var script := [TurnAt(c, t)];
    assert EnterRun(c.sched) == c.sched;
    assert StepActions(c, t)[0] == RunLoop(script);
    assert RunInRange(c.sched, script);
    assert StepInRange(c.sched, script[0]);
  }

  lemma {:induction false} StepBounded(c: Client, t: ClientTurn)
    requires InMode(c) && Bounded(c) && Sorted(c.sched.queue) && InRange(c.sched, StepActions(c, t))
    ensures var (c', p) := ClientStep(c, t); p.Running? ==> Bounded(c')
  {
    PassInMode(c, t);
    if t.head.ok && c.sched.queue != [] {
      FirstInRange(c, t);
      TaskPassBounded(c, t);
    }
    var (c1, r) := Pass(c, t);
    if r.Ran? { RecoverBounded(c1, t.recover); }
  }

  lemma {:induction false} StepKeepsInvariant(c: Client, t: ClientTurn)
    requires Invariant(c) && InRange(c.sched, StepActions(c, t))
    ensures var (c', p) := ClientStep(c, t); p.Running? ==> Invariant(c')
  {
    StepInMode(c, t);
    StepBounded(c, t);
    StepCounted(c, t);
    if ClientStep(c, t).1.Running? {
      StepIsHistory(c, t);
      ActAllKeepsOwned(c.sched, StepActions(c, t));
      ActAllTimely(c.sched, StepActions(c, t));
    }
  }

  /** The deadlines of the client's scheduler stay in range through the script. */
  predicate ClientInRange(c: Client, script: seq<ClientTurn>)
    decreases |script|
  {
    script != [] ==>
      InRange(c.sched, StepActions(c, script[0])) &&
      (ClientStep(c, script[0]).1.Running? ==> ClientInRange(ClientStep(c, script[0]).0, script[1..]))
  }

  lemma {:induction false} ThreadKeepsInvariant(c: Client, script: seq<ClientTurn>)
    requires Invariant(c) && ClientInRange(c, script)
    ensures var (c', p) := Thread(c, script); p.Running? ==> Invariant(c')
    decreases |script|
  {
    if script == [] {
    } else {
      StepKeepsInvariant(c, script[0]);
      var (c1, p) := ClientStep(c, script[0]);
      if p.Running? { ThreadKeepsInvariant(c1, script[1..]); }
    }
  }

  /** What is kept whatever becomes of the thread. */
  predicate RightCount(c: Client) {
    Counted(c) && c.misses <= c.maxMissed + 1
  }

  lemma {:induction false} ThreadKeepsCount(c: Client, script: seq<ClientTurn>)
    requires Invariant(c) && ClientInRange(c, script)
    ensures RightCount(Thread(c, script).0)
    decreases |script|
  {
    if script == [] {
    } else {
      var (c1, p) := ClientStep(c, script[0]);
      StepKeepsInvariant(c, script[0]);
      if p.Running? {
        ThreadKeepsCount(c1, script[1..]);
      } else {
        StepCounted(c, script[0]);
        PassWithinLimit(c, script[0]);
        PassKeepsLimits(c, script[0]);
      }
    }
  }

  lemma {:induction false} StartInvariant(clock: int, interval: Positive, maxMissed: Positive, i: AddInput)
    ensures Invariant(StartClient(clock, interval, maxMissed, i).0)
  {
    var c0 := Client(Create(clock), NO_TARGET, NO_UIDS, maxMissed, false, interval, maxMissed, []);
    var call := AddCall(c0, REVIVE, i);
    StartInMode(clock, interval, maxMissed, i);
    AddSoon(c0, REVIVE, i);
    EveryTaskHasOneOwner(clock, []);
    PerformKeepsOwned(c0.sched, call);
    PerformTimely(c0.sched, call);
  }

  /** The value on which REVIVE decides, if the body gets that far. */
  function CheckedCount(c: Client, b: BodyInput): nat {
    if b.reset0 then 0 else c.misses
  }

  /** In every state a client reaches, also when its thread has finished or died: the count is the
      number of increments since the last reset (or, before any, that number above the limit it
      started from); it is at most one above its limit; and a REVIVE task that decides to revive
      sees the limit or one more. */
  lemma {:induction false} MissesBounded(
    clock: int, interval: Positive, maxMissed: Positive, i: AddInput, script: seq<ClientTurn>, b: BodyInput)
    requires ClientInRange(StartClient(clock, interval, maxMissed, i).0, script)
    ensures var c := Thread(StartClient(clock, interval, maxMissed, i).0, script).0;
      && c.maxMissed == maxMissed
      && c.misses == MissesOf(c.events, maxMissed)
      && c.misses <= maxMissed + 1
      && (CheckedCount(c, b) >= maxMissed ==> CheckedCount(c, b) in {maxMissed, maxMissed + 1})
  {
    var c := StartClient(clock, interval, maxMissed, i).0;
    StartInvariant(clock, interval, maxMissed, i);
    ThreadKeepsCount(c, script);
    ThreadKeepsLimit(c, script);
  }

  lemma {:induction false} ThreadKeepsLimit(c: Client, script: seq<ClientTurn>)
    ensures Thread(c, script).0.maxMissed == c.maxMissed
    decreases |script|
  {
    if script == [] {
    } else {
      PassKeepsLimits(c, script[0]);
      var (c1, p) := ClientStep(c, script[0]);
      if p.Running? { ThreadKeepsLimit(c1, script[1..]); }
    }
  }
}

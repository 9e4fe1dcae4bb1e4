/** The life of the client's thread: how it begins, what a signal and a request that arrive change,
    and when it dies, ends, or goes on. */
module WatchdogLife {
  import opened SchedulerSpec
  import opened SchedulerRuns
  import opened WatchdogSpec
  import opened WatchdogGuardian
  import opened WatchdogModes
  import opened WatchdogMisses
  import opened WatchdogStopping
  import opened WatchdogDetection
  import opened WatchdogSignals

  // ---------- Adding tasks ----------

  predicate AddWorks(i: AddInput) {
    i.uidOk && i.reading.ok && i.enqueueOk
  }

  lemma {:induction false} AddWorksExactly(c: Client, kind: nat, i: AddInput)
    requires kind < NUM_OF_TASKS && 1 <= c.sched.nextUid
    ensures AddTaskToSched(c, kind, i).1 <==> AddWorks(i)
  {
    AddedExactly(c.sched, c.interval, kind, i);
  }

  /** Entering active mode succeeds exactly if each of the three additions does. */
  lemma {:induction false} SetWorksExactly(c: Client, b: BodyInput)
    requires 1 <= c.sched.nextUid
    ensures SetScheduler(c, b).1 <==> AddWorks(b.add0) && AddWorks(b.add1) && AddWorks(b.add2)
  {
    var c1 := AddTaskToSched(c, SEND_SIGNAL, b.add0).0;
    var c2 := AddTaskToSched(c1, REVIVE, b.add1).0;
    AddWorksExactly(c, SEND_SIGNAL, b.add0);
    AddFrame(c, SEND_SIGNAL, b.add0);
    AddWorksExactly(c1, REVIVE, b.add1);
    AddFrame(c1, REVIVE, b.add1);
    AddWorksExactly(c2, INCREMENT_COUNTER, b.add2);
  }

  /** The tasks are added in the order SEND, REVIVE, INC. */
  lemma {:induction false} SetInOrder(c: Client, b: BodyInput)
    requires c.sched.queue == [] && 1 <= c.sched.nextUid && SetScheduler(c, b).1
    ensures var u, slots := c.sched.nextUid, SetScheduler(c, b).0.slots;
      slots[SEND_SIGNAL] == u && slots[REVIVE] == u + 1 && slots[INCREMENT_COUNTER] == u + 2
  {
    var c1 := AddTaskToSched(c, SEND_SIGNAL, b.add0).0;
    var c2 := AddTaskToSched(c1, REVIVE, b.add1).0;
    NextUid(c, SEND_SIGNAL, b.add0);
    NextUid(c1, REVIVE, b.add1);
    NextUid(c2, INCREMENT_COUNTER, b.add2);
  }

  lemma {:induction false} NextUid(c: Client, kind: nat, i: AddInput)
    requires kind < NUM_OF_TASKS && 1 <= c.sched.nextUid && AddTaskToSched(c, kind, i).1
    ensures var c' := AddTaskToSched(c, kind, i).0;
      c'.sched.nextUid == c.sched.nextUid + 1 && c'.slots == c.slots[kind := c.sched.nextUid]
  {
    AddWorksExactly(c, kind, i);
    AddSlot(c, kind, i);
  }

  /** Entering wait mode forgets every UID but the new one. */
  lemma {:induction false} WaitSlots(c: Client, i: AddInput)
    requires 1 <= c.sched.nextUid
    ensures var (c', ok) := AddTaskToSched(ClearSched(c), CHECK_FOR_SIGNAL, i);
      && c'.slots[CHECK_FOR_SIGNAL] == (if ok then c.sched.nextUid else BAD_UID)
      && c'.slots[INCREMENT_COUNTER] == c'.slots[REVIVE] == c'.slots[SEND_SIGNAL] == BAD_UID
  {
    AddSlot(ClearSched(c), CHECK_FOR_SIGNAL, i);
  }

  // ---------- When it dies ----------

  predicate Stopping(c: Client, b: BodyInput) {
    c.shouldStop || b.raise
  }

  /** The task signals its target, and the signal is refused. */
  predicate Refused(c: Client, kind: nat, b: BodyInput) {
    && b.kill.NotPermitted?
    && (kind == SEND_SIGNAL
        || (kind == REVIVE && CheckedCount(c, b) >= c.maxMissed)
        || (kind == CHECK_FOR_SIGNAL && CheckedCount(c, b) > 0))
  }

  /** The first signal has come, and the tasks of active mode cannot all be added. */
  predicate CannotSet(c: Client, kind: nat, b: BodyInput) {
    && kind == CHECK_FOR_SIGNAL && CheckedCount(c, b) == 0
    && !(AddWorks(b.add0) && AddWorks(b.add1) && AddWorks(b.add2))
  }

  /** What each task returns, by its kind and what the world decides. */
  function ResultOf(c: Client, kind: nat, b: BodyInput): BodyResult {
    if Stopping(c, b) then Result(if kind != CHECK_FOR_SIGNAL then Done else if b.stopKill.Sent? then Again else Fail)
    else if Refused(c, kind, b) || CannotSet(c, kind, b) then Exit
    else
      Result(
        if kind == INCREMENT_COUNTER then Again
        else if kind == SEND_SIGNAL then (if b.kill.NoProcess? then Done else Again)
        else if kind == REVIVE then
          (if CheckedCount(c, b) < c.maxMissed then Again else if AddWorks(b.add0) then Done else Fail)
        else if CheckedCount(c, b) == 0 then Done
        else if b.waitOk then Again
        else Fail)
  }

  lemma {:induction false} TaskResultExactly(c: Client, kind: nat, b: BodyInput)
    requires kind < NUM_OF_TASKS && 1 <= c.sched.nextUid && (b.raise ==> c.shouldStop)
    ensures Task(c, kind, b).1 == ResultOf(c, kind, b)
  {
    var c2 := ResetIf(c, b.reset0);
    if kind == CHECK_FOR_SIGNAL { SetWorksExactly(c2, b); }
    if kind == REVIVE {
      AddWorksExactly(ClearSched(ReviveApp(KillTarget(c2, b.kill), b.fork)), CHECK_FOR_SIGNAL, b.add0);
    }
  }

  /** A task gives up its place, repeats, fails or ends the process exactly as the protocol says. */
  lemma {:induction false} ResultExactly(c: Client, kind: nat, b: BodyInput)
    requires kind < NUM_OF_TASKS && 1 <= c.sched.nextUid
    ensures Body(c, kind, b).1 == ResultOf(c, kind, b)
  {
    TaskResultExactly(RaiseIf(c, b.raise), kind, b);
  }

  lemma {:induction false} BodyExitsExactly(c: Client, kind: nat, b: BodyInput)
    requires kind < NUM_OF_TASKS && 1 <= c.sched.nextUid
    ensures Body(c, kind, b).1.Exit? <==> !Stopping(c, b) && (Refused(c, kind, b) || CannotSet(c, kind, b))
  {
    ResultExactly(c, kind, b);
  }

  /** A pass of the thread ends the process exactly if it finds its queue empty, or, with no stop
      requested, its task's signal is refused or active mode cannot be entered. */
  lemma {:induction false} DiesExactly(c: Client, t: ClientTurn)
    requires InMode(c) && !Empty(c.sched)
    ensures ClientStep(c, t).1 == Dead <==>
      t.head.ok &&
      (c.sched.queue != [] ==>
        var kind := c.sched.queue[0].op;
        !Stopping(c, t.body) && (Refused(c, kind, t.body) || CannotSet(c, kind, t.body)))
  {
    AbortsExactly(c, t);
    if t.head.ok && c.sched.queue != [] {
      FirstKind(c.sched.queue, c.slots);
      BodyExitsExactly(c.(sched := Begin(c.sched, t.head, t.overrun)), c.sched.queue[0].op, t.body);
      ExitedExactly(c, t);
    }
    DeadExactly(c, t);
  }

  lemma {:induction false} ExitedExactly(c: Client, t: ClientTurn)
    requires t.head.ok && c.sched.queue != []
    ensures Pass(c, t).1.Exited?
            <==> Body(c.(sched := Begin(c.sched, t.head, t.overrun)), c.sched.queue[0].op, t.body).1.Exit?
  {
  }

  lemma {:induction false} DeadExactly(c: Client, t: ClientTurn)
    requires !Empty(c.sched) && !c.sched.stop
    ensures ClientStep(c, t).1 == Dead <==> Pass(c, t).1.Exited? || Pass(c, t).1 == Ran(Aborted)
  {
  }

  // ---------- Signals and requests that arrive ----------

  /** The count after a pass. */
  function CountAfter(c: Client, kind: nat, b: BodyInput): nat {
    if b.reset1 then 0
    else if Stopping(c, b) || kind == SEND_SIGNAL then c.misses
    else CheckedCount(c, b) + if kind == INCREMENT_COUNTER then 1 else 0
  }

  lemma {:induction false} TaskCounts(c: Client, kind: nat, b: BodyInput)
    requires kind < NUM_OF_TASKS && (b.raise ==> c.shouldStop)
    ensures Task(c, kind, b).0.misses == CountAfter(c, kind, b.(reset1 := false))
  {
    var c2 := ResetIf(c, b.reset0);
    if kind == REVIVE {
      SchedulingKeepsTrace(ReviveApp(KillTarget(c2, b.kill), b.fork), b);
    } else if kind == CHECK_FOR_SIGNAL {
      SchedulingKeepsTrace(c2, b);
    }
  }

  lemma {:induction false} BodyCounts(c: Client, kind: nat, b: BodyInput)
    requires kind < NUM_OF_TASKS
    ensures Body(c, kind, b).0.misses == CountAfter(c, kind, b)
    ensures Body(c, kind, b).0.shouldStop == Stopping(c, b)
  {
    var c0 := RaiseIf(c, b.raise);
    TaskCounts(c0, kind, b);
    TaskKeepsRequest(c0, kind, b);
  }

  lemma {:induction false} TaskKeepsRequest(c: Client, kind: nat, b: BodyInput)
    ensures Task(c, kind, b).0.shouldStop == c.shouldStop
  {
    var c2 := ResetIf(c, b.reset0);
    if kind == REVIVE {
      SchedulingKeepsTrace(ReviveApp(KillTarget(c2, b.kill), b.fork), b);
    } else if kind >= CHECK_FOR_SIGNAL {
      SchedulingKeepsTrace(c2, b);
    }
  }

  /** No signal and no request is missed: whatever task runs, a SIGUSR1 at its end leaves the count
      at zero, one at its beginning is counted from, and a stop request stays. */
  lemma {:induction false} ArrivalsCount(c: Client, t: ClientTurn)
    requires InMode(c) && t.head.ok && c.sched.queue != []
    ensures var c' := ClientStep(c, t).0;
      c'.misses == CountAfter(c, c.sched.queue[0].op, t.body) && c'.shouldStop == Stopping(c, t.body)
  {
    FirstKind(c.sched.queue, c.slots);
    var c1 := c.(sched := Begin(c.sched, t.head, t.overrun));
    BodyCounts(c1, c.sched.queue[0].op, t.body);
    PassControl(c, t);
    var c2 := Pass(c, t).0;
    RecoverControl(c2, t.recover);
    StepShape(c, t);
    assert ClientStep(c, t).0 == c2 || ClientStep(c, t).0 == Recover(c2, t.recover);
  }

  lemma {:induction false} PassControl(c: Client, t: ClientTurn)
    requires t.head.ok && c.sched.queue != []
    ensures var c2 := Body(c.(sched := Begin(c.sched, t.head, t.overrun)), c.sched.queue[0].op, t.body).0;
      Pass(c, t).0.misses == c2.misses && Pass(c, t).0.shouldStop == c2.shouldStop
  {
  }

  lemma {:induction false} RecoverControl(c: Client, i: AddInput)
    ensures Recover(c, i).misses == c.misses && Recover(c, i).shouldStop == c.shouldStop
  {
    AddKeepsControl(ClearSched(c), CHECK_FOR_SIGNAL, i);
  }

  /** Once a guardian has answered, the next look in wait mode enters active mode, and signals no
      one; or, if a task cannot be added, ends the process. */
  lemma {:induction false} AnsweredIsActive(c: Client, t: ClientTurn)
    requires Waiting(c) && t.head.ok && !Stopping(c, t.body) && CheckedCount(c, t.body) == 0
    ensures var (c', p) := ClientStep(c, t);
      && c'.events == c.events + Arrival(t.body.reset0) + Arrival(t.body.reset1) && c'.misses == 0
      && if AddWorks(t.body.add0) && AddWorks(t.body.add1) && AddWorks(t.body.add2)
         then p == Running && Kinds(c'.sched.queue) == ACTIVE
         else p == Dead
  {
    WaitsForSignal(c);
    StepTraceExactly(c, t);
    assert Arrival(t.body.reset0) + [] == Arrival(t.body.reset0);
    Regroup(c.events, Arrival(t.body.reset0), Arrival(t.body.reset1));
    ArrivalsCount(c, t);
    DiesExactly(c, t);
    if AddWorks(t.body.add0) && AddWorks(t.body.add1) && AddWorks(t.body.add2) { AnsweredPass(c, t); }
  }

  lemma {:induction false} AnsweredBody(c: Client, b: BodyInput)
    requires c.sched.queue == [] && 1 <= c.sched.nextUid && !Stopping(c, b) && CheckedCount(c, b) == 0
    requires AddWorks(b.add0) && AddWorks(b.add1) && AddWorks(b.add2)
    ensures var (c', r) := Body(c, CHECK_FOR_SIGNAL, b);
      r == Result(Done) && Kinds(c'.sched.queue) == ACTIVE && c'.sched.stop == c.sched.stop
  {
    SetWorksExactly(ResetIf(c, b.reset0), b);
    SetFiled(ResetIf(c, b.reset0), b);
  }

  lemma {:induction false} DoneContinues(s: State, turn: Turn)
    requires turn.result.Done? && !s.stop
    ensures var (s', o) := Finish(s, turn); o == Continue && s'.queue == s.queue
  {
  }

  lemma {:induction false} AnsweredPass(c: Client, t: ClientTurn)
    requires Waiting(c) && t.head.ok && !Stopping(c, t.body) && CheckedCount(c, t.body) == 0
    requires AddWorks(t.body.add0) && AddWorks(t.body.add1) && AddWorks(t.body.add2)
    ensures var (c', p) := ClientStep(c, t); p == Running && Kinds(c'.sched.queue) == ACTIVE
  {
    var q := c.sched.queue;
    WaitsForSignal(c);
    FirstKind(q, c.slots);
    NoKinds(q[1..]);
    var c1 := c.(sched := Begin(c.sched, t.head, t.overrun));
    AnsweredBody(c1, t.body);
    var c2 := Body(c1, CHECK_FOR_SIGNAL, t.body).0;
    DoneContinues(c2.sched, AsTurn(t, Done, []));
    LoopPass(c, t, c2, Done);
  }

  // ---------- How it begins ----------

  /** REVIVE with the count at the limit, whose signal is not refused. */
  lemma {:induction false} RevivingPass(c: Client, t: ClientTurn)
    requires InMode(c) && c.sched.queue != [] && c.sched.queue[0].op == REVIVE && t.head.ok
    requires !Stopping(c, t.body) && CheckedCount(c, t.body) >= c.maxMissed && !t.body.kill.NotPermitted?
    ensures ClientStep(c, t).0.events == c.events
      + (Arrival(t.body.reset0) + [Dismissal(c.target, t.body.kill), ForkEvent(t.body.fork)] + Arrival(t.body.reset1))
  {
    StepTraceExactly(c, t);
    assert Replacing(c.target, t.body.kill, true, t.body.fork)
        == [Dismissal(c.target, t.body.kill), ForkEvent(t.body.fork)];
  }

  lemma {:induction false} OneAdded(c: Client, kind: nat, i: AddInput)
    requires c.sched.queue == [] && 1 <= c.sched.nextUid && kind < NUM_OF_TASKS && AddWorks(i)
    ensures var (c', ok) := AddTaskToSched(c, kind, i);
      ok && c'.sched.queue == [NewTask(c, kind, i)] && SameControl(c, c')
  {
    AddWorksExactly(c, kind, i);
    AddOutcome(c, kind, i);
    AddKeepsControl(c, kind, i);
    InsertAlone(c.sched.queue, NewTask(c, kind, i), i.tie);
  }

  lemma {:induction false} InsertAlone(q: seq<TaskRec>, t: TaskRec, tie: nat)
    requires q == []
    ensures Insert(q, t, tie) == [t]
  {
    assert q[..0] + [t] + q[0..] == [t];
  }

  /** The first pass of a started client tells no process to exit but INT_MAX, which is none, and
      forks the first guardian. */
  lemma {:induction false} FirstGuardianForked(
    clock: int, interval: Positive, maxMissed: Positive, i: AddInput, t: ClientTurn)
    requires AddWorks(i) && t.head.ok && !t.body.raise && !t.body.reset0 && !t.body.kill.NotPermitted?
    ensures var (c, ok) := StartClient(clock, interval, maxMissed, i);
      ok && ClientStep(c, t).0.events
            == [Killed(NO_TARGET, Usr2, t.body.kill), ForkEvent(t.body.fork)] + Arrival(t.body.reset1)
  {
    var (c, ok) := StartClient(clock, interval, maxMissed, i);
    StartInMode(clock, interval, maxMissed, i);
    StartedTask(clock, interval, maxMissed, i);
    RevivingPass(c, t);
    assert Dismissal(NO_TARGET, t.body.kill) == Killed(NO_TARGET, Usr2, t.body.kill);
    NoEvents([Killed(NO_TARGET, Usr2, t.body.kill), ForkEvent(t.body.fork)], Arrival(t.body.reset1));
  }

  lemma {:induction false} NoEvents(a: seq<Event>, b: seq<Event>)
    ensures [] + ([] + a + b) == a + b
  {
  }

  lemma {:induction false} StartedTask(clock: int, interval: Positive, maxMissed: Positive, i: AddInput)
    requires AddWorks(i)
    ensures var (c, ok) := StartClient(clock, interval, maxMissed, i);
      && ok && |c.sched.queue| == 1 && c.sched.queue[0].op == REVIVE && c.misses == c.maxMissed == maxMissed
      && c.target == NO_TARGET && !c.shouldStop && c.events == []
  {
    OneAdded(Client(Create(clock), NO_TARGET, NO_UIDS, maxMissed, false, interval, maxMissed, []), REVIVE, i);
  }

  // ---------- How long it goes on ----------

  lemma {:induction false} KindsLeft(q: seq<TaskRec>, slots: Slots, target: nat)
    requires Filed(q, slots) && q != [] && Mode(Kinds(q), target, false) && q[0].op == SEND_SIGNAL
    ensures q[1..] != []
  {
    FirstKind(q, slots);
    NoKinds(q[1..]);
    assert ACTIVE_MIN <= Kinds(q);
    assert REVIVE in Kinds(q[1..]);
  }

  /** A task that leaves the scheduler alone leaves something queued, unless it stops. */
  lemma {:induction false} SteadyLeaves(c: Client, kind: nat, c': Client, r: TaskResult, t: ClientTurn)
    requires c.sched.cur.Some? && !c.sched.removeCur && Steady(c, kind, c', r)
    requires kind == SEND_SIGNAL && !c'.shouldStop ==> c.sched.queue != []
    ensures var (s, o) := Finish(c'.sched, AsTurn(t, r, []));
      && (o == Continue && !c'.shouldStop ==> s.queue != [])
      && (o == Returned(Stopped) ==> c'.shouldStop) && o != Returned(Success)
  {
  }

  lemma {:induction false} SwitchedLeaves(c: Client, kind: nat, c': Client, r: TaskResult, t: ClientTurn)
    requires Switched(c, kind, c', r)
    ensures var (s, o) := Finish(c'.sched, AsTurn(t, r, []));
      (o == Continue ==> s.queue != []) && o != Returned(Stopped) && o != Returned(Success)
  {
    NoKinds(c'.sched.queue);
  }

  lemma {:induction false} PassLeaves(c: Client, t: ClientTurn)
    requires InMode(c) && t.head.ok && c.sched.queue != []
    ensures var (c', r) := Pass(c, t);
      && (r == Ran(Continue) && !c'.shouldStop ==> c'.sched.queue != [])
      && (r == Ran(Returned(Stopped)) ==> c'.shouldStop) && r != Ran(Returned(Success))
  {
    var q, kind := c.sched.queue, c.sched.queue[0].op;
    FirstKind(q, c.slots);
    var c1 := c.(sched := Begin(c.sched, t.head, t.overrun));
    if kind == CHECK_FOR_SIGNAL {
      assert Kinds(q) == WAITING;
      NoKinds(q[1..]);
    }
    BodyShape(c1, kind, t.body);
    var (c2, r) := Body(c1, kind, t.body);
    if r.Result? {
      BodyCounts(c1, kind, t.body);
      LoopPass(c, t, c2, r.result);
      if Switched(c1, kind, c2, r.result) {
        SwitchedLeaves(c1, kind, c2, r.result, t);
      } else {
        if kind == SEND_SIGNAL && !c2.shouldStop { KindsLeft(q, c.slots, c.target); }
        SteadyLeaves(c1, kind, c2, r.result, t);
      }
    }
  }

  lemma {:induction false} RecoverLeaves(c: Client, i: AddInput)
    requires 1 <= c.sched.nextUid && AddWorks(i)
    ensures Recover(c, i).sched.queue != []
  {
    AddWorksExactly(ClearSched(c), CHECK_FOR_SIGNAL, i);
    WaitFiled(c, i);
    NoKinds(Recover(c, i).sched.queue);
  }

  lemma {:induction false} StepGoesOn(c: Client, t: ClientTurn)
    requires InMode(c) && c.sched.queue != [] && AddWorks(t.recover)
    ensures var (c', p) := ClientStep(c, t);
      !c'.shouldStop ==> !p.Finished? && (p.Running? ==> c'.sched.queue != [])
  {
    var (c1, r) := Pass(c, t);
    PassInMode(c, t);
    if t.head.ok { PassLeaves(c, t); }
    if r.Ran? {
      RecoverLeaves(c1, t.recover);
      RecoverControl(c1, t.recover);
    }
  }

  lemma {:induction false} ThreadGoesOn(c: Client, script: seq<ClientTurn>)
    requires InMode(c) && c.sched.queue != [] && forall k :: 0 <= k < |script| ==> AddWorks(script[k].recover)
    ensures var (c', p) := Thread(c, script);
      !c'.shouldStop ==> !p.Finished? && (p.Running? ==> c'.sched.queue != [])
    decreases |script|
  {
    if script == [] {
    } else {
      var (c1, p) := ClientStep(c, script[0]);
      StepGoesOn(c, script[0]);
      StepInMode(c, script[0]);
      if p.Running? {
        if c1.shouldStop {
          StopIsFinal(c1, script[1..]);
        } else {
          ThreadGoesOn(c1, script[1..]);
        }
      }
    }
  }

  /** Nothing but a stop request ends the thread of a started client in good order: while recoveries
      find memory and clock, it never finishes and never runs out of tasks without one, whatever
      fails in its passes. */
  lemma {:induction false} PersistsUnlessStopped(
    clock: int, interval: Positive, maxMissed: Positive, i: AddInput, script: seq<ClientTurn>)
    requires AddWorks(i) && forall k :: 0 <= k < |script| ==> AddWorks(script[k].recover)
    ensures var (c, p) := Thread(StartClient(clock, interval, maxMissed, i).0, script);
      !c.shouldStop ==> !p.Finished? && (p.Running? ==> c.sched.queue != [])
  {
    StartInMode(clock, interval, maxMissed, i);
    StartedTask(clock, interval, maxMissed, i);
    ThreadGoesOn(StartClient(clock, interval, maxMissed, i).0, script);
  }
}

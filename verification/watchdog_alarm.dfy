/** When a client tells its guardian to exit and forks another: in active mode only when the count
    has reached its limit at a check, in wait mode whenever waitpid does not fail. */
module WatchdogAlarms {
  import opened SchedulerSpec
  import opened WatchdogSpec
  import opened WatchdogGuardian
  import opened WatchdogModes
  import opened WatchdogMisses
  import opened WatchdogStopping
  import opened WatchdogDetection

  // ---------- Active mode ----------

  /** Nothing fails, no stop is asked for, and signals to the guardian get through. Signals from
      it may arrive or not. */
  predicate Healthy(t: ClientTurn) {
    t.head.ok && t.requeue.ok && t.enqueueOk && !t.body.raise && t.body.kill.Sent?
  }

  /** A process is told to exit, or a fork attempted. */
  predicate Alarming(e: Event) {
    ForkAttempt(e) || (e.Killed? && e.signal == Usr2)
  }

  predicate AlarmSince(es: seq<Event>, es': seq<Event>) {
    exists i :: |es| <= i < |es'| && Alarming(es'[i])
  }

  /** The next task is REVIVE, and finds the count at its limit. */
  predicate LimitFound(c: Client, b: BodyInput)
    requires c.sched.queue != []
  {
    c.sched.queue[0].op == REVIVE && CheckedCount(c, b) >= c.maxMissed
  }

  /** What a task does that finds no reason for alarm. */
  predicate Calm(c: Client, c': Client) {
    && c'.sched == c.sched && c'.slots == c.slots && c'.target == c.target && c'.shouldStop == c.shouldStop
    && c'.maxMissed == c.maxMissed && c'.interval == c.interval
    && Extends(c, c') && !AlarmSince(c.events, c'.events)
  }

  lemma {:induction false} CalmBody(c: Client, kind: nat, b: BodyInput)
    requires !c.shouldStop && !b.raise && b.kill.Sent? && kind in ACTIVE
    requires !(kind == REVIVE && CheckedCount(c, b) >= c.maxMissed)
    ensures Calm(c, Body(c, kind, b).0) && Body(c, kind, b).1 == Result(Again)
  {
  }

  lemma {:induction false} AlarmedBody(c: Client, b: BodyInput)
    requires !c.shouldStop && !b.raise && b.kill.Sent? && CheckedCount(c, b) >= c.maxMissed
    ensures AlarmSince(c.events, Body(c, REVIVE, b).0.events) && Body(c, REVIVE, b).1.Result?
  {
    var c1 := ResetIf(c, b.reset0);
    var c3 := ReviveApp(KillTarget(c1, b.kill), b.fork);
    SchedulingKeepsTrace(c3, b);
    assert Alarming(c3.events[|c3.events| - 1]);
    assert ChangeToWait(c3, b.add0).0.events == c3.events;
    var es := Body(c, REVIVE, b).0.events;
    assert es[|c3.events| - 1] == c3.events[|c3.events| - 1];
  }

  /** The pass around such a task, its queue and its trace. */
  predicate PutBackCalmly(c: Client, t: ClientTurn, c': Client)
    requires c.sched.queue != []
  {
    var q := c.sched.queue;
    && c'.sched.queue == Insert(q[1..], q[0].(deadline := c'.sched.clock + q[0].interval), t.tie)
    && c'.slots == c.slots && c'.target == c.target && c'.shouldStop == c.shouldStop && c'.maxMissed == c.maxMissed
    && Extends(c, c') && !AlarmSince(c.events, c'.events)
  }

  lemma {:induction false} CalmLoopPass(c: Client, t: ClientTurn)
    requires !c.shouldStop && !c.sched.stop && !c.sched.removeCur && c.sched.queue != []
    requires c.sched.queue[0].op in ACTIVE && Healthy(t) && !LimitFound(c, t.body)
    ensures var (c', p) := ClientStep(c, t); p == Running && PutBackCalmly(c, t, c')
  {
    var kind, c1 := c.sched.queue[0].op, c.(sched := Begin(c.sched, t.head, t.overrun));
    CalmBody(c1, kind, t.body);
    AgainPass(c, t, Body(c1, kind, t.body).0);
  }

  lemma {:induction false} CalmKinds(c: Client, t: ClientTurn, c': Client)
    requires InMode(c) && c.sched.queue != [] && PutBackCalmly(c, t, c')
    ensures Kinds(c'.sched.queue) == Kinds(c.sched.queue)
  {
    FirstRequeued(c.sched.queue, c'.sched.clock + c.sched.queue[0].interval, t.tie, c.slots);
  }

  /** The client goes on watching. */
  lemma {:induction false} CalmWatching(c: Client, t: ClientTurn)
    requires Watching(c) && Healthy(t) && c.sched.queue != [] && !LimitFound(c, t.body)
    ensures Watching(ClientStep(c, t).0)
  {
    FirstActive(c);
    CalmLoopPass(c, t);
    StepInMode(c, t);
    CalmKinds(c, t, ClientStep(c, t).0);
  }

  lemma {:induction false} AlarmedPass(c: Client, t: ClientTurn)
    requires Watching(c) && Healthy(t) && c.sched.queue != [] && LimitFound(c, t.body)
    ensures AlarmSince(c.events, ClientStep(c, t).0.events)
  {
    var c1 := c.(sched := Begin(c.sched, t.head, t.overrun));
    AlarmedBody(c1, t.body);
    var (c2, r) := Body(c1, REVIVE, t.body);
    LoopPass(c, t, c2, r.result);
    StepTrace(c, t);
  }

  /** Some check in the script finds the count at its limit. */
  predicate Alarm(c: Client, script: seq<ClientTurn>)
    decreases |script|
  {
    script != [] && c.sched.queue != [] &&
    (LimitFound(c, script[0].body) || Alarm(ClientStep(c, script[0]).0, script[1..]))
  }

  lemma {:induction false} AlarmEarlier(c: Client, c1: Client, c2: Client)
    requires Extends(c, c1) && Extends(c1, c2) && !AlarmSince(c.events, c1.events)
    ensures AlarmSince(c.events, c2.events) <==> AlarmSince(c1.events, c2.events)
  {
    if i :| |c.events| <= i < |c2.events| && Alarming(c2.events[i]) {
      assert i < |c1.events| ==> c2.events[..|c1.events|][i] == c1.events[i];
    }
  }

  lemma {:induction false} AlarmRemains(c: Client, c1: Client, c2: Client)
    requires AlarmSince(c.events, c1.events) && Extends(c1, c2)
    ensures AlarmSince(c.events, c2.events)
  {
    var i :| |c.events| <= i < |c1.events| && Alarming(c1.events[i]);
    assert c2.events[..|c1.events|][i] == c1.events[i];
  }

  /** A watching client whose signals get through tells its guardian to exit, or tries to fork
      another, exactly if some check finds the count at its limit; until then it keeps its target
      and goes on watching. */
  lemma {:induction false} AlarmExactly(c: Client, script: seq<ClientTurn>)
    requires Watching(c) && forall i :: 0 <= i < |script| ==> Healthy(script[i])
    ensures var (c', p) := Thread(c, script);
      && (AlarmSince(c.events, c'.events) <==> Alarm(c, script))
      && (!Alarm(c, script) ==> p == Running && Watching(c') && c'.target == c.target)
    decreases |script|
  {
    if script == [] {
    } else {
      FirstActive(c);
      var (c1, p) := ClientStep(c, script[0]);
      if LimitFound(c, script[0].body) {
        AlarmedPass(c, script[0]);
        if p.Running? { ThreadExtends(c1, script[1..]); }
        AlarmRemains(c, c1, Thread(c, script).0);
      } else {
        CalmLoopPass(c, script[0]);
        CalmWatching(c, script[0]);
        ThreadExtends(c1, script[1..]);
        AlarmExactly(c1, script[1..]);
        AlarmEarlier(c, c1, Thread(c, script).0);
      }
    }
  }

  /** In every state of the run, fewer increments than the limit have come since the last reset. */
  predicate OftenReset(c: Client, script: seq<ClientTurn>)
    decreases |script|
  {
    && MissesOf(c.events, c.maxMissed) < c.maxMissed
    && (script != [] ==> OftenReset(ClientStep(c, script[0]).0, script[1..]))
  }

  lemma {:induction false} OftenResetIsCalm(c: Client, script: seq<ClientTurn>)
    requires Counted(c) && OftenReset(c, script)
    ensures !Alarm(c, script)
    decreases |script|
  {
    if script == [] || c.sched.queue == [] {
    } else {
      StepCounted(c, script[0]);
      OftenResetIsCalm(ClientStep(c, script[0]).0, script[1..]);
    }
  }

  /** No false alarm: a guardian whose signals come often enough is neither told to exit nor
      replaced. */
  lemma {:induction false} NoFalseAlarm(c: Client, script: seq<ClientTurn>)
    requires Watching(c) && Counted(c) && OftenReset(c, script)
    requires forall i :: 0 <= i < |script| ==> Healthy(script[i])
    ensures var (c', p) := Thread(c, script);
      p == Running && Watching(c') && c'.target == c.target && !AlarmSince(c.events, c'.events)
  {
    OftenResetIsCalm(c, script);
    AlarmExactly(c, script);
  }

  // ---------- Wait mode ----------

  /** Waiting for the first signal of a guardian, which has not come. */
  predicate Unanswered(c: Client) {
    Waiting(c) && !c.shouldStop && c.misses > 0
  }

  lemma {:induction false} WaitingBody(c: Client, b: BodyInput)
    requires !c.shouldStop && c.misses > 0 && !b.raise && !b.reset0 && !b.reset1 && !b.kill.NotPermitted?
    ensures var (c', r) := Body(c, CHECK_FOR_SIGNAL, b);
      && c'.sched == c.sched && c'.slots == c.slots && c'.shouldStop == c.shouldStop && c'.misses == c.misses
      && r == Result(if b.waitOk then Again else Fail)
      && (ForkedSince(c.events, c'.events) <==> b.waitOk)
  {
    var c' := Body(c, CHECK_FOR_SIGNAL, b).0;
    if b.waitOk { assert ForkAttempt(c'.events[|c.events| + 1]); }
  }

  lemma {:induction false} RecoverKeepsRest(c: Client, i: AddInput)
    ensures Recover(c, i).events == c.events && Recover(c, i).misses == c.misses
    ensures Recover(c, i).shouldStop == c.shouldStop
  {
    AddKeepsControl(ClearSched(c), CHECK_FOR_SIGNAL, i);
  }

  /** A silent pass in wait mode attempts a fork exactly if waitpid does not fail; and either way,
      while clock and memory last, the client goes on waiting. */
  lemma {:induction false} WaitingForksExactly(c: Client, t: ClientTurn)
    requires Unanswered(c) && Silent(t)
    ensures var (c', p) := ClientStep(c, t);
      && (ForkedSince(c.events, c'.events) <==> t.body.waitOk)
      && (Works(t) ==> p == Running && Unanswered(c'))
  {
    WaitsForSignal(c);
    var c1 := c.(sched := Begin(c.sched, t.head, t.overrun));
    WaitingBody(c1, t.body);
    var c2 := Body(c1, CHECK_FOR_SIGNAL, t.body).0;
    StepInMode(c, t);
    if t.body.waitOk {
      SilentFinish(c2.sched, t);
      WaitingAgain(c, t);
    } else {
      RecoverKeepsRest(Pass(c, t).0, t.recover);
      if Works(t) { WaitFiled(Pass(c, t).0, t.recover); }
    }
  }

  lemma {:induction false} WaitingAgain(c: Client, t: ClientTurn)
    requires Unanswered(c) && Silent(t) && t.body.waitOk
    requires c.sched.queue != [] && c.sched.queue[0].op == CHECK_FOR_SIGNAL
    ensures Kinds(ClientStep(c, t).0.sched.queue) == WAITING
  {
    var q, c1 := c.sched.queue, c.(sched := Begin(c.sched, t.head, t.overrun));
    WaitingBody(c1, t.body);
    AgainPass(c, t, Body(c1, CHECK_FOR_SIGNAL, t.body).0);
    FirstRequeued(q, ClientStep(c, t).0.sched.clock + q[0].interval, t.tie, c.slots);
  }

  /** Over a run without an answer, a fork is attempted exactly if some waitpid does not fail. If
      every one does, as with no child after a failed fork, the client waits on and never forks. */
  lemma {:induction false} WaitingRunForksExactly(c: Client, script: seq<ClientTurn>)
    requires Unanswered(c) && forall i :: 0 <= i < |script| ==> Silent(script[i]) && Works(script[i])
    ensures var (c', p) := Thread(c, script);
      && p == Running && Unanswered(c') && Extends(c, c')
      && (ForkedSince(c.events, c'.events) <==> exists i :: 0 <= i < |script| && script[i].body.waitOk)
    decreases |script|
  {
    if script == [] {
    } else {
      WaitingForksExactly(c, script[0]);
      StepExtends(c, script[0]);
      var c1 := ClientStep(c, script[0]).0;
      WaitingRunForksExactly(c1, script[1..]);
      var c' := Thread(c, script).0;
      ExtendsTrans(c, c1, c');
      ForkedInTwo(c, c1, c');
      SomeInTwo(script);
    }
  }

  lemma {:induction false} ForkedInTwo(c: Client, c1: Client, c2: Client)
    requires Extends(c, c1) && Extends(c1, c2)
    ensures ForkedSince(c.events, c2.events) <==> ForkedSince(c.events, c1.events) || ForkedSince(c1.events, c2.events)
  {
    if ForkedSince(c.events, c1.events) { ForkRemains(c, c1, c2); }
    if ForkedSince(c1.events, c2.events) { ForkedEarlier(c, c1, c2); }
    if i :| |c.events| <= i < |c2.events| && ForkAttempt(c2.events[i]) {
      assert i < |c1.events| ==> c2.events[..|c1.events|][i] == c1.events[i];
    }
  }

  lemma {:induction false} SomeInTwo(script: seq<ClientTurn>)
    requires script != []
    ensures (exists i :: 0 <= i < |script| && script[i].body.waitOk)
            <==> script[0].body.waitOk || exists i :: 0 <= i < |script[1..]| && script[1..][i].body.waitOk
  {
    if i :| 0 <= i < |script| && script[i].body.waitOk {
      assert i > 0 ==> script[1..][i - 1].body.waitOk;
    }
    if i :| 0 <= i < |script[1..]| && script[1..][i].body.waitOk {
      assert script[i + 1].body.waitOk;
    }
  }
}

/** What a stop request does: nothing is revived or forked any more, and how the run ends. */
module WatchdogStopping {
  import opened SchedulerSpec
  import opened WatchdogSpec
  import opened WatchdogGuardian
  import opened WatchdogModes

  /** The events after `from` neither fork nor count. */
  predicate QuietSince(es: seq<Event>, from: nat) {
    from <= |es| && forall i :: from <= i < |es| ==> !ForkAttempt(es[i]) && !es[i].Incremented?
  }

  /** From `c` to `c'` no process is forked and no miss is counted. */
  predicate Quietly(c: Client, c': Client) {
    && c'.shouldStop && c'.target == c.target
    && |c.events| <= |c'.events| && c'.events[..|c.events|] == c.events
    && QuietSince(c'.events, |c.events|)
  }

  lemma {:induction false} QuietlyTrans(a: Client, b: Client, c: Client)
    requires Quietly(a, b) && Quietly(b, c)
    ensures Quietly(a, c)
  {
    assert c.events[..|a.events|] == c.events[..|b.events|][..|a.events|];
    forall i | |a.events| <= i < |c.events| ensures !ForkAttempt(c.events[i]) && !c.events[i].Incremented? {
      if i < |b.events| { assert c.events[i] == c.events[..|b.events|][i]; }
    }
  }

  /** What any task does once a stop is requested: signal the target, and stop the run if the
      signal was sent. CHECK_FOR_SIGNAL asks to run again or fails; the others give up. */
  lemma {:induction false} StoppedBody(c: Client, kind: nat, b: BodyInput)
    requires c.shouldStop && kind < NUM_OF_TASKS && !c.sched.stop
    ensures var (c', r) := Body(c, kind, b);
      && Quietly(c, c')
      && c'.sched == c.sched.(stop := b.stopKill.Sent?) && c'.slots == c.slots
      && c'.interval == c.interval && c'.maxMissed == c.maxMissed
      && r == Result(if kind != CHECK_FOR_SIGNAL then Done else if b.stopKill.Sent? then Again else Fail)
  {
    var c0 := RaiseIf(c, b.raise);
    assert c0 == c;
    var c1 := WatchdogStop(c, b.stopKill).0;
    assert Task(c, kind, b).0 == c1;
  }

  lemma {:induction false} RecoverQuietly(c: Client, c': Client, i: AddInput)
    requires Quietly(c, c')
    ensures Quietly(c, Recover(c', i))
  {
    SchedulingKeepsTrace(ClearSched(c'), BodyInput(false, false, false, Sent, Sent, true, ForkFailed, i, i, i));
  }

  lemma {:induction false} PassQuietly(c: Client, t: ClientTurn)
    requires c.shouldStop && InMode(c)
    ensures Quietly(c, Pass(c, t).0)
  {
    if t.head.ok && c.sched.queue != [] {
      var c1 := c.(sched := Begin(c.sched, t.head, t.overrun));
      FirstKind(c.sched.queue, c.slots);
      StoppedBody(c1, c.sched.queue[0].op, t.body);
    }
  }

  /** A pass of the thread is a pass of the loop, with or without a recovery. */
  lemma {:induction false} StepShape(c: Client, t: ClientTurn)
    ensures var c' := ClientStep(c, t).0;
      c' == c || c' == Pass(c, t).0 || c' == Recover(Pass(c, t).0, t.recover)
  {
  }

  lemma {:induction false} StepQuietly(c: Client, t: ClientTurn)
    requires c.shouldStop && InMode(c)
    ensures Quietly(c, ClientStep(c, t).0)
  {
    StepShape(c, t);
    PassQuietly(c, t);
    RecoverQuietly(c, Pass(c, t).0, t.recover);
  }

  /** Once a stop is requested, nothing is forked and no miss counted, for ever. */
  lemma {:induction false} StopIsFinal(c: Client, script: seq<ClientTurn>)
    requires c.shouldStop && InMode(c)
    ensures Quietly(c, Thread(c, script).0)
    decreases |script|
  {
    if script == [] {
    } else {
      StepQuietly(c, script[0]);
      StepInMode(c, script[0]);
      var (c1, p) := ClientStep(c, script[0]);
      if p.Running? {
        StopIsFinal(c1, script[1..]);
        QuietlyTrans(c, c1, Thread(c, script).0);
      }
    }
  }

  // ---------- How the run ends ----------

  predicate Active(c: Client) {
    InMode(c) && c.sched.cur.None? && Kinds(c.sched.queue) <= ACTIVE
  }

  /** A running client that has active tasks queued, and only those, is active. */
  lemma {:induction false} ReachedIsActive(
    clock: int, interval: Positive, maxMissed: Positive, i: AddInput, script: seq<ClientTurn>)
    ensures var (c, p) := Thread(StartClient(clock, interval, maxMissed, i).0, script);
      p.Running? && c.sched.queue != [] && Kinds(c.sched.queue) <= ACTIVE ==> Active(c)
  {
    StartInMode(clock, interval, maxMissed, i);
    ThreadInMode(StartClient(clock, interval, maxMissed, i).0, script);
    var (c, p) := Thread(StartClient(clock, interval, maxMissed, i).0, script);
    NoKinds(c.sched.queue);
    assert SEND_SIGNAL != CHECK_FOR_SIGNAL && REVIVE != CHECK_FOR_SIGNAL && INCREMENT_COUNTER != CHECK_FOR_SIGNAL;
  }

  lemma {:induction false} ActiveStops(c: Client, t: ClientTurn)
    requires c.shouldStop && Active(c) && c.sched.queue != [] && t.head.ok
    ensures var (c', p) := ClientStep(c, t);
      if t.body.stopKill.Sent? then p == Finished(Stopped)
      else p == Running && c'.shouldStop && Active(c') && c'.sched.queue == c.sched.queue[1..]
  {
    var q := c.sched.queue;
    FirstKind(q, c.slots);
    var c1 := c.(sched := Begin(c.sched, t.head, t.overrun));
    StoppedBody(c1, q[0].op, t.body);
    StepInMode(c, t);
  }

  /** In active mode, while the clock works, the run ends within one pass for each queued task:
      with RUN_STOP at the first signal sent, and with RUN_SUCCESS if every one fails. */
  lemma {:induction false} ActiveRunEnds(c: Client, script: seq<ClientTurn>)
    requires c.shouldStop && Active(c) && |c.sched.queue| < |script|
    requires forall i :: 0 <= i < |script| ==> script[i].head.ok
    ensures var sent := exists i :: 0 <= i < |c.sched.queue| && script[i].body.stopKill.Sent?;
      Thread(c, script).1 == Finished(if sent then Stopped else Success)
    decreases |script|
  {
    if c.sched.queue != [] {
      ActiveStops(c, script[0]);
      if !script[0].body.stopKill.Sent? {
        var c1 := ClientStep(c, script[0]).0;
        ActiveRunEnds(c1, script[1..]);
        if i :| 0 <= i < |c1.sched.queue| && script[1..][i].body.stopKill.Sent? {
          assert script[i + 1].body.stopKill.Sent?;
        }
        if i :| 0 <= i < |c.sched.queue| && script[i].body.stopKill.Sent? {
          assert script[1..][i - 1].body.stopKill.Sent?;
        }
      }
    }
  }

  predicate Waiting(c: Client) {
    InMode(c) && Kinds(c.sched.queue) == WAITING
  }

  predicate Works(t: ClientTurn) {
    t.head.ok && t.requeue.ok && t.enqueueOk && t.recover.uidOk && t.recover.reading.ok && t.recover.enqueueOk
  }

  lemma {:induction false} StopEnds(s: State, turn: Turn)
    requires s.cur.Some? && !s.removeCur && s.stop && turn.result.Again? && turn.requeue.ok && turn.enqueueOk
    ensures Finish(s, turn).1 == Returned(Stopped)
  {
  }

  lemma {:induction false} FailEnds(s: State, turn: Turn)
    requires turn.result.Fail?
    ensures Finish(s, turn).1 == Returned(TaskFail) && Finish(s, turn).0.nextUid == s.nextUid
  {
  }

  lemma {:induction false} WaitsForSignal(c: Client)
    requires Waiting(c)
    ensures c.sched.queue != [] && c.sched.queue[0].op == CHECK_FOR_SIGNAL
  {
    NoKinds(c.sched.queue);
    FirstKind(c.sched.queue, c.slots);
  }

  lemma {:induction false} WaitingPass(c: Client, t: ClientTurn)
    requires c.shouldStop && Waiting(c) && t.head.ok && t.requeue.ok && t.enqueueOk
    ensures var (c', r) := Pass(c, t);
      && r == Ran(Returned(if t.body.stopKill.Sent? then Stopped else TaskFail))
      && c'.shouldStop && (!t.body.stopKill.Sent? ==> 1 <= c'.sched.nextUid)
  {
    WaitsForSignal(c);
    var c1 := c.(sched := Begin(c.sched, t.head, t.overrun));
    StoppedBody(c1, CHECK_FOR_SIGNAL, t.body);
    var (c2, r) := Body(c1, CHECK_FOR_SIGNAL, t.body);
    if t.body.stopKill.Sent? {
      StopEnds(c2.sched, AsTurn(t, Again, []));
    } else {
      FailEnds(c2.sched, AsTurn(t, Fail, []));
    }
  }

  lemma {:induction false} RecoverWaits(c: Client, i: AddInput)
    requires 1 <= c.sched.nextUid && i.uidOk && i.reading.ok && i.enqueueOk
    ensures Kinds(Recover(c, i).sched.queue) == WAITING && Recover(c, i).shouldStop == c.shouldStop
  {
    WaitFiled(c, i);
  }

  lemma {:induction false} WaitingStops(c: Client, t: ClientTurn)
    requires c.shouldStop && Waiting(c) && Works(t)
    ensures var (c', p) := ClientStep(c, t);
      if t.body.stopKill.Sent? then p == Finished(Stopped) else p == Running && c'.shouldStop && Waiting(c')
  {
    WaitsForSignal(c);
    WaitingPass(c, t);
    StepInMode(c, t);
    if !t.body.stopKill.Sent? {
      RecoverWaits(Pass(c, t).0, t.recover);
    }
  }

  /** In wait mode, while clock and memory last, the run ends exactly when a signal is sent. */
  lemma {:induction false} WaitingRunEnds(c: Client, script: seq<ClientTurn>)
    requires c.shouldStop && Waiting(c)
    requires forall i :: 0 <= i < |script| ==> Works(script[i])
    ensures var sent := exists i :: 0 <= i < |script| && script[i].body.stopKill.Sent?;
      Thread(c, script).1 == if sent then Finished(Stopped) else Running
    decreases |script|
  {
    if script == [] {
    } else {
      WaitingStops(c, script[0]);
      if !script[0].body.stopKill.Sent? {
        WaitingRunEnds(ClientStep(c, script[0]).0, script[1..]);
        if i :| 0 <= i < |script[1..]| && script[1..][i].body.stopKill.Sent? {
          assert script[i + 1].body.stopKill.Sent?;
        }
        if i :| 0 <= i < |script| && script[i].body.stopKill.Sent? {
          assert script[1..][i - 1].body.stopKill.Sent?;
        }
      }
    }
  }
}

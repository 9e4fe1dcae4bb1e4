/** At most one guardian has not been told to exit. */
module WatchdogGuardian {
  import opened SchedulerSpec
  import opened WatchdogSpec

  /** `e` tells process `p` to exit, or reports that it is gone. */
  predicate Tells(e: Event, p: nat) {
    e.Killed? && e.pid == p && (e.result.NoProcess? || (e.signal.Usr2? && e.result.Sent?))
  }

  predicate ForkAttempt(e: Event) { e.Forked? || e.NotForked? }

  /** The child forked at `i` is told after `i` and before `j`. */
  predicate ToldBetween(es: seq<Event>, i: nat, j: nat)
    requires i < |es| && es[i].Forked? && j <= |es|
  {
    exists k :: i < k < j && Tells(es[k], es[i].child)
  }

  /** Every child ever forked is told before the next fork is attempted. */
  ghost predicate ToldBeforeNext(es: seq<Event>) {
    forall i, j :: 0 <= i < j < |es| && es[i].Forked? && ForkAttempt(es[j]) ==> ToldBetween(es, i, j)
  }

  ghost predicate AllTold(es: seq<Event>) {
    forall i :: 0 <= i < |es| && es[i].Forked? ==> ToldBetween(es, i, |es|)
  }

  /** The child forked at `i` is the current target. */
  predicate Current(c: Client, i: nat)
    requires i < |c.events| && c.events[i].Forked?
  {
    c.events[i].child == c.target && forall k :: i < k < |c.events| ==> !ForkAttempt(c.events[k])
  }

  ghost predicate Guarded(c: Client) {
    && ToldBeforeNext(c.events)
    && forall i :: 0 <= i < |c.events| && c.events[i].Forked? ==>
         ToldBetween(c.events, i, |c.events|) || Current(c, i)
  }

  // ---------- Single events ----------

  lemma {:induction false} StillTold(es: seq<Event>, e: Event, i: nat, j: nat)
    requires i < |es| && es[i].Forked? && j <= |es| && ToldBetween(es, i, j)
    ensures ToldBetween(es + [e], i, j) && ToldBetween(es + [e], i, |es| + 1)
  {
    var k :| i < k < j && Tells(es[k], es[i].child);
    assert (es + [e])[k] == es[k] && (es + [e])[i] == es[i];
  }

  lemma {:induction false} AppendOrder(es: seq<Event>, e: Event)
    requires ToldBeforeNext(es) && (ForkAttempt(e) ==> AllTold(es))
    ensures ToldBeforeNext(es + [e])
  {
    var es' := es + [e];
    forall i, j | 0 <= i < j < |es'| && es'[i].Forked? && ForkAttempt(es'[j]) ensures ToldBetween(es', i, j) {
      if j < |es| { assert ToldBetween(es, i, j); }
      StillTold(es, e, i, j);
    }
  }

  lemma {:induction false} AppendTold(es: seq<Event>, e: Event)
    requires AllTold(es) && !e.Forked?
    ensures AllTold(es + [e])
  {
    forall i | 0 <= i < |es + [e]| && (es + [e])[i].Forked? ensures ToldBetween(es + [e], i, |es| + 1) {
      StillTold(es, e, i, |es|);
    }
  }

  /** An event that is no fork attempt. */
  lemma {:induction false} PlainEvent(c: Client, c': Client, e: Event)
    requires Guarded(c) && !ForkAttempt(e) && c'.events == c.events + [e] && c'.target == c.target
    ensures Guarded(c')
  {
    AppendOrder(c.events, e);
    forall i | 0 <= i < |c'.events| && c'.events[i].Forked?
      ensures ToldBetween(c'.events, i, |c'.events|) || Current(c', i)
    {
      if ToldBetween(c.events, i, |c.events|) { StillTold(c.events, e, i, |c.events|); }
    }
  }

  /** After a signal 2 to the target, or a report that it is gone, all children are told. */
  lemma {:induction false} TellingTarget(c: Client, c': Client, e: Event)
    requires Guarded(c) && c'.events == c.events + [e] && c'.target == c.target
    requires !ForkAttempt(e) && (c.target != 0 ==> Tells(e, c.target))
    ensures Guarded(c') && AllTold(c'.events)
  {
    PlainEvent(c, c', e);
    forall i | 0 <= i < |c'.events| && c'.events[i].Forked? ensures ToldBetween(c'.events, i, |c'.events|) {
      if ToldBetween(c.events, i, |c.events|) {
        StillTold(c.events, e, i, |c.events|);
      } else {
        assert Current(c, i);
        assert Tells(c'.events[|c.events|], c'.events[i].child);
      }
    }
  }

  lemma {:induction false} ReviveGuarded(c: Client, f: ForkResult)
    requires Guarded(c) && AllTold(c.events)
    ensures Guarded(ReviveApp(c, f))
  {
    var e := if f.ForkFailed? then NotForked else Forked(f.pid);
    var c' := ReviveApp(c, f);
    AppendOrder(c.events, e);
    forall i | 0 <= i < |c.events| && c.events[i].Forked?
      ensures ToldBetween(c'.events, i, |c'.events|) || Current(c', i)
    {
      StillTold(c.events, e, i, |c.events|);
    }
  }

  // ---------- Tasks ----------

  lemma {:induction false} SameTrace(c: Client, c': Client)
    requires Guarded(c) && c'.events == c.events && c'.target == c.target
    ensures Guarded(c')
  {
  }

  lemma {:induction false} ResetGuarded(c: Client, arrives: bool)
    requires Guarded(c)
    ensures Guarded(ResetIf(c, arrives))
    ensures AllTold(c.events) ==> AllTold(ResetIf(c, arrives).events)
  {
    if arrives {
      PlainEvent(c, ResetIf(c, arrives), Reset);
      if AllTold(c.events) { AppendTold(c.events, Reset); }
    }
  }

  lemma {:induction false} KillGuarded(c: Client, r: KillResult)
    requires Guarded(c)
    ensures Guarded(KillTarget(c, r))
    ensures !r.NotPermitted? ==> AllTold(KillTarget(c, r).events)
  {
    var e := Killed(c.target, if c.target == 0 then Probe else Usr2, r);
    PlainEvent(c, KillTarget(c, r), e);
    if !r.NotPermitted? { TellingTarget(c, KillTarget(c, r), e); }
  }

  /** Adding, clearing and stopping leave the trace alone. */
  predicate SameControl(c: Client, c': Client) {
    && c'.events == c.events && c'.target == c.target && c'.sched.stop == c.sched.stop
    && c'.misses == c.misses && c'.maxMissed == c.maxMissed && c'.interval == c.interval
    && c'.shouldStop == c.shouldStop
  }

  lemma {:induction false} AddKeepsControl(c: Client, kind: nat, i: AddInput)
    requires kind < NUM_OF_TASKS
    ensures SameControl(c, AddTaskToSched(c, kind, i).0)
  {
  }

  lemma {:induction false} SchedulingKeepsTrace(c: Client, b: BodyInput)
    ensures SameControl(c, SetScheduler(c, b).0) && SameControl(c, ChangeToWait(c, b.add0).0)
  {
    var c1 := AddTaskToSched(c, SEND_SIGNAL, b.add0).0;
    var c2 := AddTaskToSched(c1, REVIVE, b.add1).0;
    AddKeepsControl(c, SEND_SIGNAL, b.add0);
    AddKeepsControl(c1, REVIVE, b.add1);
    AddKeepsControl(c2, INCREMENT_COUNTER, b.add2);
    AddKeepsControl(ClearSched(c), CHECK_FOR_SIGNAL, b.add0);
  }

  lemma {:induction false} TaskKeepsLimits(c: Client, kind: nat, b: BodyInput)
    ensures Task(c, kind, b).0.maxMissed == c.maxMissed && Task(c, kind, b).0.interval == c.interval
  {
    var c2 := ResetIf(c, b.reset0);
    if kind == REVIVE {
      SchedulingKeepsTrace(ReviveApp(KillTarget(c2, b.kill), b.fork), b);
    } else if kind >= CHECK_FOR_SIGNAL {
      SchedulingKeepsTrace(c2, b);
    }
  }

  lemma {:induction false} BodyKeepsLimits(c: Client, kind: nat, b: BodyInput)
    ensures Body(c, kind, b).0.maxMissed == c.maxMissed && Body(c, kind, b).0.interval == c.interval
  {
    TaskKeepsLimits(RaiseIf(c, b.raise), kind, b);
  }

  lemma {:induction false} PassKeepsLimits(c: Client, t: ClientTurn)
    ensures Pass(c, t).0.maxMissed == c.maxMissed && Pass(c, t).0.interval == c.interval
  {
    if t.head.ok && c.sched.queue != [] {
      BodyKeepsLimits(c.(sched := Begin(c.sched, t.head, t.overrun)), c.sched.queue[0].op, t.body);
    }
  }

  lemma {:induction false} StopGuarded(c: Client, r: KillResult)
    requires Guarded(c) && !c.sched.stop
    ensures Guarded(WatchdogStop(c, r).0)
    ensures WatchdogStop(c, r).0.sched.stop ==> AllTold(WatchdogStop(c, r).0.events)
  {
    if c.shouldStop {
      KillGuarded(c, r);
      SameTrace(KillTarget(c, r), WatchdogStop(c, r).0);
    }
  }

  /** The state after a body: guarded, and if it asked for a stop every child is told. */
  ghost predicate GoodEnd(c: Client) {
    Guarded(c) && (c.sched.stop ==> AllTold(c.events))
  }

  lemma {:induction false} ReviveTaskGuarded(c: Client, b: BodyInput)
    requires Guarded(c) && !c.sched.stop
    ensures GoodEnd(ReviveIfNeeded(c, b).0)
  {
    StopGuarded(c, b.stopKill);
    if WatchdogStop(c, b.stopKill).1 == 0 {
      var c2 := ResetIf(c, b.reset0);
      ResetGuarded(c, b.reset0);
      var c3 := KillTarget(c2, b.kill);
      KillGuarded(c2, b.kill);
      if !b.kill.NotPermitted? {
        var c4 := ReviveApp(c3, b.fork);
        ReviveGuarded(c3, b.fork);
        SchedulingKeepsTrace(c4, b);
        SameTrace(c4, ChangeToWait(c4, b.add0).0);
      }
    }
  }

  lemma {:induction false} IncGuarded(c: Client, b: BodyInput)
    requires Guarded(c) && !c.sched.stop
    ensures GoodEnd(IncCnt(c, b).0)
  {
    StopGuarded(c, b.stopKill);
    if WatchdogStop(c, b.stopKill).1 == 0 {
      ResetGuarded(c, b.reset0);
      PlainEvent(ResetIf(c, b.reset0), IncCnt(c, b).0, Incremented);
    }
  }

  lemma {:induction false} SendGuarded(c: Client, b: BodyInput)
    requires Guarded(c) && !c.sched.stop
    ensures GoodEnd(SendSignal(c, b).0)
  {
    StopGuarded(c, b.stopKill);
    if WatchdogStop(c, b.stopKill).1 == 0 {
      var e := Killed(c.target, Usr1, b.kill);
      var c2 := c.(events := c.events + [e]);
      PlainEvent(c, c2, e);
      if b.kill.NoProcess? {
        TellingTarget(c, c2, e);
        ReviveGuarded(c2, b.fork);
      }
    }
  }

  lemma {:induction false} WaitGuarded(c: Client, b: BodyInput)
    requires Guarded(c) && !c.sched.stop
    ensures GoodEnd(WaitForApp(c, b).0)
  {
    StopGuarded(c, b.stopKill);
    if !c.shouldStop {
      var c1 := ResetIf(c, b.reset0);
      ResetGuarded(c, b.reset0);
      if c1.misses == 0 {
        SchedulingKeepsTrace(c1, b);
        SameTrace(c1, SetScheduler(c1, b).0);
      } else {
        KillGuarded(c1, b.kill);
        if !b.kill.NotPermitted? { ReviveGuarded(KillTarget(c1, b.kill), b.fork); }
      }
    }
  }

  lemma {:induction false} BodyGuarded(c: Client, kind: nat, b: BodyInput)
    requires Guarded(c) && !c.sched.stop
    ensures GoodEnd(Body(c, kind, b).0)
  {
    var c0 := RaiseIf(c, b.raise);
    SameTrace(c, c0);
    ReviveTaskGuarded(c0, b);
    IncGuarded(c0, b);
    SendGuarded(c0, b);
    WaitGuarded(c0, b);
    ResetGuarded(Task(c0, kind, b).0, b.reset1);
  }

  // ---------- The thread ----------

  lemma {:induction false} PassGuarded(c: Client, t: ClientTurn)
    requires Guarded(c) && !c.sched.stop
    ensures var (c', r) := Pass(c, t);
      && Guarded(c')
      && (r == Ran(Continue) ==> !c'.sched.stop)
      && (r == Ran(Returned(Stopped)) ==> AllTold(c'.events))
  {
    if t.head.ok && c.sched.queue != [] {
      var c1 := c.(sched := Begin(c.sched, t.head, t.overrun));
      SameTrace(c, c1);
      BodyGuarded(c1, c.sched.queue[0].op, t.body);
      SameTrace(Body(c1, c.sched.queue[0].op, t.body).0, Pass(c, t).0);
    } else {
      SameTrace(c, Pass(c, t).0);
    }
  }

  lemma {:induction false} StepGuarded(c: Client, t: ClientTurn)
    requires Guarded(c) && !c.sched.stop
    ensures var (c', p) := ClientStep(c, t);
      && Guarded(c')
      && (p.Running? ==> !c'.sched.stop)
      && (p == Finished(Stopped) ==> AllTold(c'.events))
  {
    PassGuarded(c, t);
    var c1 := Pass(c, t).0;
    SameTrace(c1, Recover(c1, t.recover));
  }

  lemma {:induction false} ThreadGuarded(c: Client, script: seq<ClientTurn>)
    requires Guarded(c) && !c.sched.stop
    ensures var (c', p) := Thread(c, script);
      && Guarded(c')
      && (p == Finished(Stopped) ==> AllTold(c'.events))
    decreases |script|
  {
    if script == [] {
    } else {
      StepGuarded(c, script[0]);
      var (c1, p) := ClientStep(c, script[0]);
      if p.Running? { ThreadGuarded(c1, script[1..]); }
    }
  }

  /** In every state a client reaches: every child was told to exit, or reported gone, before
      the next fork was attempted; only the current target can be untold; and when the run
      ends with RUN_STOP there is no untold child. */
  lemma {:induction false} AtMostOneUntold(
    clock: int, interval: Positive, maxMissed: Positive, i: AddInput, script: seq<ClientTurn>)
    ensures var (c, p) := Thread(StartClient(clock, interval, maxMissed, i).0, script);
      && ToldBeforeNext(c.events)
      && (forall k :: 0 <= k < |c.events| && c.events[k].Forked? ==>
            ToldBetween(c.events, k, |c.events|) || Current(c, k))
      && (p == Finished(Stopped) ==> AllTold(c.events))
  {
    ThreadGuarded(StartClient(clock, interval, maxMissed, i).0, script);
  }
}

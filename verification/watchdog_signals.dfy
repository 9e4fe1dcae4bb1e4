/** What a pass of the client does to other processes: the exact trace, at whom every signal is
    aimed, what a signal that is refused, and one that arrives, lead to. */
module WatchdogSignals {
  import opened SchedulerSpec
  import opened WatchdogSpec
  import opened WatchdogGuardian
  import opened WatchdogModes
  import opened WatchdogMisses
  import opened WatchdogStopping
  import opened WatchdogDetection

  // ---------- The trace of a pass ----------

  function Arrival(arrives: bool): seq<Event> {
    if arrives then [Reset] else []
  }

  function ForkEvent(f: ForkResult): Event {
    if f.ForkFailed? then NotForked else Forked(f.pid)
  }

  /** Telling the target to exit: signal 2, but to no process at all if there is none. */
  function Dismissal(target: nat, r: KillResult): Event {
    if target == 0 then Killed(0, Probe, r) else Killed(target, Usr2, r)
  }

  /** The target told to exit, unless that is refused, and then a fork, unless that is not tried. */
  function Replacing(target: nat, r: KillResult, tried: bool, f: ForkResult): seq<Event> {
    [Dismissal(target, r)] + if r.NotPermitted? || !tried then [] else [ForkEvent(f)]
  }

  /** The protocol: what a task adds to the trace, by its kind and what the world decides. */
  function TaskEvents(c: Client, kind: nat, b: BodyInput): seq<Event> {
    if c.shouldStop || b.raise then
      [Dismissal(c.target, b.stopKill)]
    else if kind == INCREMENT_COUNTER then
      Arrival(b.reset0) + [Incremented]
    else if kind == SEND_SIGNAL then
      [Killed(c.target, Usr1, b.kill)] + if b.kill.NoProcess? then [ForkEvent(b.fork)] else []
    else if kind == REVIVE then
      Arrival(b.reset0) + if CheckedCount(c, b) < c.maxMissed then [] else Replacing(c.target, b.kill, true, b.fork)
    else
      Arrival(b.reset0) + if CheckedCount(c, b) == 0 then [] else Replacing(c.target, b.kill, b.waitOk, b.fork)
  }

  /** The same with the signal that may arrive at the end of the task. */
  function PassEvents(c: Client, kind: nat, b: BodyInput): seq<Event> {
    TaskEvents(c, kind, b) + Arrival(b.reset1)
  }

  lemma {:induction false} Regroup(a: seq<Event>, b: seq<Event>, c: seq<Event>)
    ensures a + b + c == a + (b + c)
  {
  }

  lemma {:induction false} StoppedTrace(c: Client, kind: nat, b: BodyInput)
    requires c.shouldStop && kind < NUM_OF_TASKS
    ensures Task(c, kind, b).0.events == c.events + [Dismissal(c.target, b.stopKill)]
  {
  }

  lemma {:induction false} ReviveTrace(c: Client, b: BodyInput)
    requires !c.shouldStop
    ensures var more := if CheckedCount(c, b) < c.maxMissed then [] else Replacing(c.target, b.kill, true, b.fork);
      ReviveIfNeeded(c, b).0.events == c.events + (Arrival(b.reset0) + more)
  {
    var more := if CheckedCount(c, b) < c.maxMissed then [] else Replacing(c.target, b.kill, true, b.fork);
    SchedulingKeepsTrace(ReviveApp(KillTarget(ResetIf(c, b.reset0), b.kill), b.fork), b);
    assert ReviveIfNeeded(c, b).0.events == c.events + Arrival(b.reset0) + more;
    Regroup(c.events, Arrival(b.reset0), more);
  }

  lemma {:induction false} WaitTrace(c: Client, b: BodyInput)
    requires !c.shouldStop
    ensures var more := if CheckedCount(c, b) == 0 then [] else Replacing(c.target, b.kill, b.waitOk, b.fork);
      WaitForApp(c, b).0.events == c.events + (Arrival(b.reset0) + more)
  {
    var more := if CheckedCount(c, b) == 0 then [] else Replacing(c.target, b.kill, b.waitOk, b.fork);
    SchedulingKeepsTrace(ResetIf(c, b.reset0), b);
    assert WaitForApp(c, b).0.events == c.events + Arrival(b.reset0) + more;
    Regroup(c.events, Arrival(b.reset0), more);
  }

  lemma {:induction false} SimpleTrace(c: Client, b: BodyInput)
    requires !c.shouldStop
    ensures IncCnt(c, b).0.events == c.events + (Arrival(b.reset0) + [Incremented])
    ensures SendSignal(c, b).0.events
            == c.events + ([Killed(c.target, Usr1, b.kill)] + if b.kill.NoProcess? then [ForkEvent(b.fork)] else [])
  {
  }

  lemma {:induction false} TaskTrace(c: Client, kind: nat, b: BodyInput)
    requires kind < NUM_OF_TASKS && (b.raise ==> c.shouldStop)
    ensures Task(c, kind, b).0.events == c.events + TaskEvents(c, kind, b)
  {
    if c.shouldStop {
      StoppedTrace(c, kind, b);
    } else if kind == REVIVE {
      ReviveTrace(c, b);
    } else if kind == CHECK_FOR_SIGNAL {
      WaitTrace(c, b);
    } else {
      SimpleTrace(c, b);
    }
  }

  lemma {:induction false} BodyTraceExactly(c: Client, kind: nat, b: BodyInput)
    requires kind < NUM_OF_TASKS
    ensures Body(c, kind, b).0.events == c.events + PassEvents(c, kind, b)
  {
    var c0 := RaiseIf(c, b.raise);
    TaskTrace(c0, kind, b);
    assert TaskEvents(c0, kind, b) == TaskEvents(c, kind, b);
    Regroup(c.events, TaskEvents(c, kind, b), Arrival(b.reset1));
    ArrivalTrace(Task(c0, kind, b).0, b.reset1);
  }

  lemma {:induction false} ArrivalTrace(c: Client, arrives: bool)
    ensures ResetIf(c, arrives).events == c.events + Arrival(arrives)
  {
  }

  /** A pass adds exactly the events of the protocol, and none if it starts no task. */
  lemma {:induction false} StepTraceExactly(c: Client, t: ClientTurn)
    requires InMode(c) && c.sched.queue != []
    ensures ClientStep(c, t).0.events
            == c.events + if t.head.ok then PassEvents(c, c.sched.queue[0].op, t.body) else []
  {
    StepTrace(c, t);
    FirstKind(c.sched.queue, c.slots);
    if t.head.ok {
      var c1 := c.(sched := Begin(c.sched, t.head, t.overrun));
      BodyTraceExactly(c1, c.sched.queue[0].op, t.body);
      assert Pass(c, t).0.events == Body(c1, c.sched.queue[0].op, t.body).0.events;
    }
  }

  // ---------- At whom signals are aimed ----------

  /** The process to look after, by the trace: the child of the last fork, none after a failed
      one, and INT_MAX before the first. */
  function TargetOf(es: seq<Event>): nat {
    if es == [] then NO_TARGET
    else
      match es[|es| - 1]
      case Forked(child) => child
      case NotForked => 0
      case _ => TargetOf(es[..|es| - 1])
  }

  /** The signal goes to the process looked after; and to none, if there is none, unless it is
      the sign of life. */
  predicate Aimed(e: Event, target: nat) {
    e.Killed? ==> e.pid == target && (e.signal.Usr2? ==> e.pid != 0) && (e.signal.Probe? ==> e.pid == 0)
  }

  predicate AllAimed(es: seq<Event>) {
    forall i :: 0 <= i < |es| ==> Aimed(es[i], TargetOf(es[..i]))
  }

  lemma {:induction false} AimedNext(es: seq<Event>, e: Event)
    requires AllAimed(es) && Aimed(e, TargetOf(es))
    ensures AllAimed(es + [e])
    ensures TargetOf(es + [e]) == if e.Forked? then e.child else if e.NotForked? then 0 else TargetOf(es)
  {
    var es' := es + [e];
    assert es'[..|es|] == es;
    forall i | 0 <= i < |es'| ensures Aimed(es'[i], TargetOf(es'[..i])) {
      assert es'[..i] == es[..i];
    }
  }

  predicate OnTarget(c: Client) {
    AllAimed(c.events) && c.target == TargetOf(c.events)
  }

  lemma {:induction false} EventAimed(c: Client, c': Client, e: Event)
    requires OnTarget(c) && c'.events == c.events + [e] && Aimed(e, c.target)
    requires c'.target == if e.Forked? then e.child else if e.NotForked? then 0 else c.target
    ensures OnTarget(c')
  {
    AimedNext(c.events, e);
  }

  lemma {:induction false} ResetAimed(c: Client, arrives: bool)
    requires OnTarget(c)
    ensures OnTarget(ResetIf(c, arrives))
  {
    if arrives { EventAimed(c, ResetIf(c, arrives), Reset); }
  }

  lemma {:induction false} KillAimed(c: Client, r: KillResult)
    requires OnTarget(c)
    ensures OnTarget(KillTarget(c, r))
  {
    EventAimed(c, KillTarget(c, r), Dismissal(c.target, r));
  }

  lemma {:induction false} ForkAimed(c: Client, f: ForkResult)
    requires OnTarget(c)
    ensures OnTarget(ReviveApp(c, f))
  {
    EventAimed(c, ReviveApp(c, f), ForkEvent(f));
  }

  lemma {:induction false} SameAim(c: Client, c': Client)
    requires OnTarget(c) && c'.events == c.events && c'.target == c.target
    ensures OnTarget(c')
  {
  }

  lemma {:induction false} StopAimed(c: Client, kind: nat, b: BodyInput)
    requires OnTarget(c) && c.shouldStop && kind < NUM_OF_TASKS
    ensures OnTarget(Task(c, kind, b).0)
  {
    KillAimed(c, b.stopKill);
    StoppedTask(c, kind, b);
    SameAim(KillTarget(c, b.stopKill), Task(c, kind, b).0);
  }

  lemma {:induction false} StoppedTask(c: Client, kind: nat, b: BodyInput)
    requires c.shouldStop && kind < NUM_OF_TASKS
    ensures var (c', k) := (Task(c, kind, b).0, KillTarget(c, b.stopKill));
      c'.events == k.events && c'.target == k.target
  {
  }

  lemma {:induction false} ReviveAimed(c: Client, b: BodyInput)
    requires OnTarget(c) && !c.shouldStop
    ensures OnTarget(ReviveIfNeeded(c, b).0)
  {
    var c2 := ResetIf(c, b.reset0);
    ResetAimed(c, b.reset0);
    KillAimed(c2, b.kill);
    var c4 := ReviveApp(KillTarget(c2, b.kill), b.fork);
    ForkAimed(KillTarget(c2, b.kill), b.fork);
    SchedulingKeepsTrace(c4, b);
    SameAim(c4, ChangeToWait(c4, b.add0).0);
  }

  lemma {:induction false} WaitAimed(c: Client, b: BodyInput)
    requires OnTarget(c) && !c.shouldStop
    ensures OnTarget(WaitForApp(c, b).0)
  {
    var c1 := ResetIf(c, b.reset0);
    ResetAimed(c, b.reset0);
    SchedulingKeepsTrace(c1, b);
    SameAim(c1, SetScheduler(c1, b).0);
    KillAimed(c1, b.kill);
    ForkAimed(KillTarget(c1, b.kill), b.fork);
  }

  lemma {:induction false} IncAimed(c: Client, b: BodyInput)
    requires OnTarget(c) && !c.shouldStop
    ensures OnTarget(IncCnt(c, b).0)
  {
    ResetAimed(c, b.reset0);
    EventAimed(ResetIf(c, b.reset0), IncCnt(c, b).0, Incremented);
  }

  lemma {:induction false} SendAimed(c: Client, b: BodyInput)
    requires OnTarget(c) && !c.shouldStop
    ensures OnTarget(SendSignal(c, b).0)
  {
    var e := Killed(c.target, Usr1, b.kill);
    EventAimed(c, c.(events := c.events + [e]), e);
    ForkAimed(c.(events := c.events + [e]), b.fork);
  }

  lemma {:induction false} TaskAimed(c: Client, kind: nat, b: BodyInput)
    requires OnTarget(c) && kind < NUM_OF_TASKS
    ensures OnTarget(Task(c, kind, b).0)
  {
    if c.shouldStop {
      StopAimed(c, kind, b);
    } else if kind == REVIVE {
      ReviveAimed(c, b);
    } else if kind == CHECK_FOR_SIGNAL {
      WaitAimed(c, b);
    } else if kind == INCREMENT_COUNTER {
      IncAimed(c, b);
    } else {
      SendAimed(c, b);
    }
  }

  lemma {:induction false} PassAimed(c: Client, t: ClientTurn)
    requires OnTarget(c) && InMode(c)
    ensures OnTarget(Pass(c, t).0)
  {
    var c' := Pass(c, t).0;
    if t.head.ok && c.sched.queue != [] {
      var c1 := c.(sched := Begin(c.sched, t.head, t.overrun));
      var kind := c.sched.queue[0].op;
      FirstKind(c.sched.queue, c.slots);
      SameAim(c, RaiseIf(c1, t.body.raise));
      TaskAimed(RaiseIf(c1, t.body.raise), kind, t.body);
      ResetAimed(Task(RaiseIf(c1, t.body.raise), kind, t.body).0, t.body.reset1);
      SameAim(Body(c1, kind, t.body).0, c');
    } else {
      SameAim(c, c');
    }
  }

  lemma {:induction false} StepAimed(c: Client, t: ClientTurn)
    requires OnTarget(c) && InMode(c)
    ensures OnTarget(ClientStep(c, t).0)
  {
    PassAimed(c, t);
    StepShape(c, t);
    var c1 := Pass(c, t).0;
    AddKeepsControl(ClearSched(c1), CHECK_FOR_SIGNAL, t.recover);
    SameAim(c1, Recover(c1, t.recover));
  }

  lemma {:induction false} ThreadAimed(c: Client, script: seq<ClientTurn>)
    requires OnTarget(c) && InMode(c)
    ensures OnTarget(Thread(c, script).0)
    decreases |script|
  {
    if script == [] {
    } else {
      StepAimed(c, script[0]);
      StepInMode(c, script[0]);
      var (c1, p) := ClientStep(c, script[0]);
      if p.Running? { ThreadAimed(c1, script[1..]); }
    }
  }

  /** In every state a client reaches, its target is the child of its last fork, 0 after a failed
      one, and INT_MAX before the first; every signal went to the target of its time; no request
      to exit went to process 0, which would be the client's own group. */
  lemma {:induction false} SignalsAreAimed(
    clock: int, interval: Positive, maxMissed: Positive, i: AddInput, script: seq<ClientTurn>)
    ensures var c := Thread(StartClient(clock, interval, maxMissed, i).0, script).0;
      && c.target == TargetOf(c.events)
      && (forall k :: 0 <= k < |c.events| && c.events[k].Killed? ==>
          var e := c.events[k];
          e.pid == TargetOf(c.events[..k]) && (e.signal.Usr2? ==> e.pid != 0) && (e.signal.Probe? ==> e.pid == 0))
  {
    var c0 := StartClient(clock, interval, maxMissed, i).0;
    StartInMode(clock, interval, maxMissed, i);
    ThreadAimed(c0, script);
  }
}

/** How a guardian's service ends: exactly when, and as what; and how it begins. */
module GuardianEnds {
  import opened SchedulerSpec
  import opened SchedulerRuns
  import opened WatchdogSpec
  import opened WatchdogCalls
  import opened WatchdogGuardian
  import opened WatchdogModes
  import opened WatchdogMisses
  import opened WatchdogDetection
  import opened Arguments
  import opened GuardianApp
  import opened GuardianDetection

  // ---------- One pass ----------

  /** The task finds a reason to give up the guardian: the limit is reached, or the signal to the
      client does not get through. */
  predicate GivesUp(c: Client, kind: nat, b: BodyInput) {
    (kind == REVIVE && CheckedCount(c, b) >= c.maxMissed) || (kind == SEND_SIGNAL && !b.kill.Sent?)
  }

  /** What SIGUSR2 to the guardian does: it exits, and neither starts a task nor sends a signal. */
  lemma {:induction false} ToldPass(c: Client, t: AppTurn, argv: seq<Arg>)
    requires t.told && t.pass.head.ok && c.sched.queue != []
    ensures AppPass(c, t, argv).1 == Gone
    ensures var c' := AppPass(c, t, argv).0; c'.events == c.events && c'.sched.log == c.sched.log
  {
  }

  lemma {:induction false} TaskLife(c: Client, kind: nat, t: AppTurn, argv: seq<Arg>)
    requires c.sched.cur.Some? && !c.sched.removeCur && !c.sched.stop && kind in ACTIVE
    ensures AppTask(c, kind, t, argv).1 ==
      if GivesUp(c, kind, t.pass.body) then
        (if t.pass.body.kill.NotPermitted? || !t.execOk then Gone else Replaced(Execv(argv)))
      else if t.pass.requeue.ok && t.pass.enqueueOk then Serving else Ended(SystemFail)
  {
    if !GivesUp(c, kind, t.pass.body) {
      assert AppBody(c, kind, t.pass.body, argv, t.execOk).0.sched == c.sched;
    }
  }

  /** Before it gives up, it signals its target: to tell it to exit, or that it was not there. */
  lemma {:induction false} LastSignal(c: Client, kind: nat, t: AppTurn, argv: seq<Arg>)
    ensures GivesUp(c, kind, t.pass.body) ==>
      var es := AppTask(c, kind, t, argv).0.events;
      es != [] && es[|es| - 1] == Killed(c.target, if kind == SEND_SIGNAL then Usr1
                                                   else if c.target == 0 then Probe else Usr2, t.pass.body.kill)
  {
  }

  /** A guardian's pass ends its service exactly if the clock or memory fails, it is told to exit,
      or its task finds the limit reached or a signal not delivered. */
  lemma {:induction false} PassLifeExactly(c: Client, t: AppTurn, argv: seq<Arg>)
    requires InMode(c) && Kinds(c.sched.queue) == ACTIVE
    ensures c.sched.queue != []
    ensures AppPass(c, t, argv).1 ==
      if !t.pass.head.ok then Ended(SystemFail)
      else if t.told then Gone
      else if GivesUp(c, c.sched.queue[0].op, t.pass.body) then
        (if t.pass.body.kill.NotPermitted? || !t.execOk then Gone else Replaced(Execv(argv)))
      else if t.pass.requeue.ok && t.pass.enqueueOk then Serving else Ended(SystemFail)
  {
    NoKinds(c.sched.queue);
    FirstKind(c.sched.queue, c.slots);
    TaskLife(c.(sched := Begin(c.sched, t.pass.head, t.pass.overrun)), c.sched.queue[0].op, t, argv);
  }

  // ---------- Whole runs ----------

  predicate Untold(script: seq<AppTurn>) {
    forall i :: 0 <= i < |script| ==> !script[i].told
  }

  lemma {:induction false} ServingPass(c: Client, script: seq<AppTurn>, argv: seq<Arg>)
    requires script != [] && AppLoop(c, script, argv).1.Serving?
    ensures AppPass(c, script[0], argv).1.Serving? && !script[0].told
    ensures AppLoop(c, script, argv) == AppLoop(AppPass(c, script[0], argv).0, script[1..], argv)
  {
  }

  lemma {:induction false} ServingIsUntold(c: Client, script: seq<AppTurn>, argv: seq<Arg>)
    requires AppLoop(c, script, argv).1.Serving?
    ensures Untold(script)
    decreases |script|
  {
    if script == [] {
    } else {
      ServingPass(c, script, argv);
      ServingIsUntold(AppPass(c, script[0], argv).0, script[1..], argv);
      forall i | 0 <= i < |script| ensures !script[i].told {
        if i > 0 { assert script[i] == script[1..][i - 1]; }
      }
    }
  }

  /** What a serving guardian's passes need, and keep. */
  predicate AtWork(c: Client) {
    InMode(c) && !c.shouldStop && Kinds(c.sched.queue) == ACTIVE
  }

  lemma {:induction false} LoopAtWork(c: Client, script: seq<AppTurn>, argv: seq<Arg>)
    requires AtWork(c) && AppLoop(c, script, argv).1.Serving?
    ensures AtWork(AppLoop(c, script, argv).0)
    decreases |script|
  {
    if script == [] {
    } else {
      var t := script[0];
      PassIsClients(c, t, argv);
      PassKinds(c, t, argv);
      PassStays(c, t, argv);
      StepInMode(c, AsClientTurn(t));
      LoopAtWork(AppPass(c, t, argv).0, script[1..], argv);
    }
  }

  lemma {:induction false} SetAtWork(c: Client, b: BodyInput)
    requires c.sched.queue == [] && 1 <= c.sched.nextUid && !c.sched.stop && !c.sched.removeCur && !c.shouldStop
    requires SetScheduler(c, b).1
    ensures AtWork(SetScheduler(c, b).0)
  {
    SetFiled(c, b);
  }

  lemma {:induction false} SignalAtWork(c: Client, kill: KillResult, argv: seq<Arg>, execOk: bool)
    requires AtWork(c)
    ensures var c1 := AppSendSignal(c, kill, argv, execOk).0; AtWork(c1.(sched := EnterRun(c1.sched)))
  {
    assert EnterRun(c.sched) == c.sched;
  }

  lemma {:induction false} EntersAtWork(args: seq<Arg>, ppid: Pid, clock: int, b: BodyInput)
    requires Readable(args) && SetScheduler(NewGuardian(args, ppid, clock), b).1
    ensures AtWork(Entered(args, ppid, clock, b))
  {
    var c := NewGuardian(args, ppid, clock);
    SetAtWork(c, b);
    SignalAtWork(SetScheduler(c, b).0, b.kill, Decode(args).argv, false);
  }

  lemma {:induction false} ToldLoop(c: Client, t: AppTurn, rest: seq<AppTurn>, argv: seq<Arg>)
    requires AtWork(c) && t.told && t.pass.head.ok
    ensures AppLoop(c, [t] + rest, argv).1 == Gone
    ensures var c' := AppLoop(c, [t] + rest, argv).0; c'.events == c.events && c'.sched.log == c.sched.log
  {
    NoKinds(c.sched.queue);
    ToldPass(c, t, argv);
    assert ([t] + rest)[0] == t;
  }

  /** However a guardian's run has gone, SIGUSR2 before a task ends it: the guardian exits, with no
      further task started and no further signal sent. So one that serves has not been told. */
  lemma {:induction false} ToldGuardianExits(
    args: seq<Arg>, ppid: Pid, clock: int, b: BodyInput, execOk: bool,
    before: seq<AppTurn>, t: AppTurn, rest: seq<AppTurn>)
    requires Readable(args) && WatchdogApp(args, ppid, clock, b, execOk, before).1.Serving?
    requires t.told && t.pass.head.ok
    ensures Untold(before)
    ensures var c := WatchdogApp(args, ppid, clock, b, execOk, before).0;
      var (c', life) := WatchdogApp(args, ppid, clock, b, execOk, before + ([t] + rest));
      life == Gone && c'.events == c.events && c'.sched.log == c.sched.log
  {
    var argv, c0 := Decode(args).argv, Entered(args, ppid, clock, b);
    RunsFromEntry(args, ppid, clock, b, execOk, before, [t] + rest);
    EntersAtWork(args, ppid, clock, b);
    ServingIsUntold(c0, before, argv);
    LoopAtWork(c0, before, argv);
    LoopJoins(c0, before, [t] + rest, argv);
    ToldLoop(AppLoop(c0, before, argv).0, t, rest, argv);
  }

  // ---------- How it begins ----------

  lemma {:induction false} BodyGrows(c: Client, kind: nat, b: BodyInput, argv: seq<Arg>, execOk: bool)
    ensures Extends(c, AppBody(c, kind, b, argv, execOk).0)
  {
  }

  lemma {:induction false} PassGrows(c: Client, t: AppTurn, argv: seq<Arg>)
    ensures Extends(c, AppPass(c, t, argv).0)
  {
    if t.pass.head.ok && c.sched.queue != [] && !t.told {
      var c1 := c.(sched := Begin(c.sched, t.pass.head, t.pass.overrun));
      BodyGrows(c1, c.sched.queue[0].op, t.pass.body, argv, t.execOk);
    }
  }

  lemma {:induction false} LoopGrows(c: Client, script: seq<AppTurn>, argv: seq<Arg>)
    ensures Extends(c, AppLoop(c, script, argv).0)
    decreases |script|
  {
    if Empty(c.sched) || c.sched.stop || script == [] {
    } else {
      var (c1, life) := AppPass(c, script[0], argv);
      PassGrows(c, script[0], argv);
      if life.Serving? {
        LoopGrows(c1, script[1..], argv);
        ExtendsTrans(c, c1, AppLoop(c1, script[1..], argv).0);
      }
    }
  }

  lemma {:induction false} StartSignals(
    c: Client, kill: KillResult, argv: seq<Arg>, execOk: bool, script: seq<AppTurn>)
    requires c.events == []
    ensures var (c', life) := AppStart(c, kill, argv, execOk, script);
      && c'.events != [] && c'.events[0] == Killed(c.target, Usr1, kill)
      && (!kill.Sent? ==> |c'.events| == 1 && c'.sched.log == c.sched.log)
      && (!kill.Sent? ==> life == if kill.NotPermitted? || !execOk then Gone else Replaced(Execv(argv)))
  {
    var (c1, w) := AppSendSignal(c, kill, argv, execOk);
    assert c1.events == [Killed(c.target, Usr1, kill)];
    if w.Went? {
      var c2 := c1.(sched := EnterRun(c1.sched));
      LoopGrows(c2, script, argv);
      assert AppLoop(c2, script, argv).0.events[..1][0] == c2.events[0];
    }
  }

  /** A guardian that has its tasks first tells its parent that it is there, before any task runs;
      one that has not exits at once, and has signalled no one. */
  lemma {:induction false} FirstSignalSent(
    args: seq<Arg>, ppid: Pid, clock: int, b: BodyInput, execOk: bool, script: seq<AppTurn>)
    requires Readable(args)
    ensures var (c, life) := WatchdogApp(args, ppid, clock, b, execOk, script);
      if SetScheduler(NewGuardian(args, ppid, clock), b).1 then
        && c.events != [] && c.events[0] == Killed(ppid, Usr1, b.kill)
        && (!b.kill.Sent? ==> |c.events| == 1 && c.sched.log == [])
        && (b.kill.NotPermitted? ==> life == Gone)
        && (b.kill.NoProcess? ==> life == if execOk then Replaced(Execv(Decode(args).argv)) else Gone)
      else c.events == [] && life == Gone
  {
    var c := NewGuardian(args, ppid, clock);
    NotSet(c, b);
    SchedulingTraces(c, b);
    StartSignals(SetScheduler(c, b).0, b.kill, Decode(args).argv, execOk, script);
  }

  lemma {:induction false} SchedulingTraces(c: Client, b: BodyInput)
    ensures SetScheduler(c, b).0.events == c.events && SetScheduler(c, b).0.sched.log == c.sched.log
  {
    SchedulingKeepsTrace(c, b);
    SetPerforms(c, b);
    CallsKeepLog(c.sched, SetCalls(c, b));
  }
}

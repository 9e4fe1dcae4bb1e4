/** The guardian: it takes its parameters from its arguments, runs three of the client's tasks
    over a scheduler of its own, and revives the client by becoming it. */
module GuardianApp {
  import opened SchedulerSpec
  import opened SchedulerOwnership
  import opened SchedulerTiming
  import opened SchedulerRange
  import opened WatchdogSpec
  import opened WatchdogCalls
  import opened WatchdogGuardian
  import opened WatchdogModes
  import opened WatchdogMisses
  import opened WatchdogRange
  import opened Arguments

  /** What has become of the process: it runs, it was replaced by a program with these
      arguments, it exited, or its run ended by itself. */
  datatype Life = Serving | Replaced(argv: seq<Arg>) | Gone | Ended(status: Status)

  /** One pass of the loop. `told`: SIGUSR2 arrives before the task of this pass; its handler
      exits. No task of the guardian sets the stop request, so `raise` is not looked at. */
  datatype AppTurn = AppTurn(pass: ClientTurn, execOk: bool, told: bool)

  datatype Went = Went(result: TaskResult) | Left(life: Life)

  /** ReviveIfNeededTaskIMP: execv, or exit. */
  function Become(argv: seq<Arg>, execOk: bool): Life {
    if execOk then Replaced(Execv(argv)) else Gone
  }

  function AppRevive(c: Client, b: BodyInput, argv: seq<Arg>, execOk: bool): (Client, Went) {
    var c1 := ResetIf(c, b.reset0);
    if c1.misses >= c1.maxMissed then
      (KillTarget(c1, b.kill), Left(if b.kill.NotPermitted? then Gone else Become(argv, execOk)))
    else (c1, Went(Again))
  }

  function AppIncCnt(c: Client, b: BodyInput): (Client, Went) {
    var c1 := ResetIf(c, b.reset0);
    (c1.(misses := c1.misses + 1, events := c1.events + [Incremented]), Went(Again))
  }

  function AppSendSignal(c: Client, kill: KillResult, argv: seq<Arg>, execOk: bool): (Client, Went) {
    var c1 := c.(events := c.events + [Killed(c.target, Usr1, kill)]);
    match kill
    case Sent => (c1, Went(Again))
    case NotPermitted => (c1, Left(Gone))
    case NoProcess => (c1, Left(Become(argv, execOk)))
  }

  function AppBody(c: Client, kind: nat, b: BodyInput, argv: seq<Arg>, execOk: bool): (Client, Went) {
    var (c1, w) :=
      if kind == REVIVE then AppRevive(c, b, argv, execOk)
      else if kind == INCREMENT_COUNTER then AppIncCnt(c, b)
      else AppSendSignal(c, b.kill, argv, execOk);
    if w.Left? then (c1, w) else (ResetIf(c1, b.reset1), w)
  }

  function AfterPass(o: Outcome): Life {
    match o
    case Continue => Serving
    case Aborted => Gone
    case Returned(status) => Ended(status)
  }

  /** The task of the pass, and what the loop does with it. */
  function AppTask(c: Client, kind: nat, t: AppTurn, argv: seq<Arg>): (Client, Life) {
    var (c1, w) := AppBody(c, kind, t.pass.body, argv, t.execOk);
    match w
    case Left(life) => (c1, life)
    case Went(r) =>
      var (s, o) := Finish(c1.sched, AsTurn(t.pass, r, []));
      (c1.(sched := s), AfterPass(o))
  }

  function AppPass(c: Client, t: AppTurn, argv: seq<Arg>): (Client, Life) {
    if !t.pass.head.ok then (c.(sched := Read(c.sched, t.pass.head).(stop := true)), Ended(SystemFail))
    else if c.sched.queue == [] || t.told then (c, Gone)
    else
      AppTask(c.(sched := Begin(c.sched, t.pass.head, t.pass.overrun)), c.sched.queue[0].op, t, argv)
  }

  function AppLoop(c: Client, script: seq<AppTurn>, argv: seq<Arg>): (Client, Life)
    decreases |script|
  {
    if Empty(c.sched) || c.sched.stop then (c, Ended(Success))
    else if script == [] then (c, Serving)
    else
      var (c1, life) := AppPass(c, script[0], argv);
      if life.Serving? then AppLoop(c1, script[1..], argv) else (c1, life)
  }

  /** The arguments main and WatchdogApp insist on. */
  predicate Readable(args: seq<Arg>) {
    && |args| > INITIAL_ARGS && (forall i :: 1 <= i < INITIAL_ARGS ==> args[i].Str?)
    && Decode(args).seconds != 0 && Decode(args).maxMissed != 0 && Decode(args).argc != 0
  }

  function NewGuardian(args: seq<Arg>, ppid: Pid, clock: int): Client
    requires Readable(args)
  {
    var p := Decode(args);
    Client(Create(clock), ppid, NO_UIDS, 0, false, p.seconds, p.maxMissed, [])
  }

  /** WatchdogApp with its tasks added: a first signal is sent, and the scheduler runs. */
  function AppStart(c: Client, kill: KillResult, argv: seq<Arg>, execOk: bool, script: seq<AppTurn>): (Client, Life) {
    var (c1, w) := AppSendSignal(c, kill, argv, execOk);
    match w
    case Left(life) => (c1, life)
    case Went(_) => AppLoop(c1.(sched := EnterRun(c1.sched)), script, argv)
  }

  function WatchdogApp(
    args: seq<Arg>, ppid: Pid, clock: int, b: BodyInput, execOk: bool, script: seq<AppTurn>): (Client, Life)
    requires Readable(args)
  {
    var (c, ok) := SetScheduler(NewGuardian(args, ppid, clock), b);
    if !ok then (c, Gone) else AppStart(c, b.kill, Decode(args).argv, execOk, script)
  }

  // ---------- While it serves, it does what the client does ----------

  function AsClientTurn(t: AppTurn): ClientTurn {
    t.pass.(body := t.pass.body.(raise := false))
  }

  lemma {:induction false} BodyIsClients(c: Client, kind: nat, b: BodyInput, argv: seq<Arg>, execOk: bool)
    requires !c.shouldStop && !b.raise && kind in ACTIVE && AppBody(c, kind, b, argv, execOk).1.Went?
    ensures AppBody(c, kind, b, argv, execOk).1.result.Again?
    ensures Body(c, kind, b) == (AppBody(c, kind, b, argv, execOk).0, Result(Again))
  {
    assert RaiseIf(c, b.raise) == c;
  }

  lemma {:induction false} BodyIgnoresRaise(c: Client, kind: nat, b: BodyInput, argv: seq<Arg>, execOk: bool)
    ensures AppBody(c, kind, b, argv, execOk) == AppBody(c, kind, b.(raise := false), argv, execOk)
  {
  }

  lemma {:induction false} PassIsClients(c: Client, t: AppTurn, argv: seq<Arg>)
    requires InMode(c) && !c.shouldStop && Kinds(c.sched.queue) == ACTIVE
    requires AppPass(c, t, argv).1.Serving?
    ensures ClientStep(c, AsClientTurn(t)) == (AppPass(c, t, argv).0, Running)
  {
    var q := c.sched.queue;
    FirstKind(q, c.slots);
    var c1 := c.(sched := Begin(c.sched, t.pass.head, t.pass.overrun));
    BodyIgnoresRaise(c1, q[0].op, t.pass.body, argv, t.execOk);
    BodyIsClients(c1, q[0].op, AsClientTurn(t).body, argv, t.execOk);
    var c2 := AppBody(c1, q[0].op, t.pass.body, argv, t.execOk).0;
    assert AsTurn(t.pass, Again, []) == AsTurn(AsClientTurn(t), Again, []);
    assert Pass(c, AsClientTurn(t)) == (AppPass(c, t, argv).0, Ran(Continue));
  }

  // ---------- The invariant ----------

  /** A guardian that serves: the three tasks are queued, the client is the target, nothing was
      forked, and the count, which starts at zero, is what was counted since the last reset. */
  ghost predicate Serves(c: Client, ppid: Pid) {
    && InMode(c) && !c.shouldStop && Kinds(c.sched.queue) == ACTIVE && c.target == ppid
    && Bounded(c) && Owned(c.sched) && Timely(c.sched)
    && Traced(c)
  }

  predicate Traced(c: Client) {
    c.misses == MissesOf(c.events, 0) && forall i :: 0 <= i < |c.events| ==> !ForkAttempt(c.events[i])
  }

  lemma {:induction false} TraceNext(c: Client, c': Client, e: Event)
    requires Traced(c) && c'.events == c.events + [e] && !ForkAttempt(e)
    requires c'.misses == if e.Reset? then 0 else c.misses + if e.Incremented? then 1 else 0
    ensures Traced(c')
  {
    Appended(c.events, e, 0);
  }

  lemma {:induction false} ResetTrace(c: Client, arrives: bool)
    requires Traced(c)
    ensures Traced(ResetIf(c, arrives))
  {
    if arrives { TraceNext(c, ResetIf(c, arrives), Reset); }
  }

  lemma {:induction false} ReviveTrace(c: Client, b: BodyInput, argv: seq<Arg>, execOk: bool)
    requires Traced(c)
    ensures Traced(AppRevive(c, b, argv, execOk).0)
  {
    var c1 := ResetIf(c, b.reset0);
    ResetTrace(c, b.reset0);
    TraceNext(c1, KillTarget(c1, b.kill), Killed(c1.target, if c1.target == 0 then Probe else Usr2, b.kill));
  }

  lemma {:induction false} IncTrace(c: Client, b: BodyInput)
    requires Traced(c)
    ensures Traced(AppIncCnt(c, b).0)
  {
    ResetTrace(c, b.reset0);
    TraceNext(ResetIf(c, b.reset0), AppIncCnt(c, b).0, Incremented);
  }

  lemma {:induction false} SendTrace(c: Client, kill: KillResult, argv: seq<Arg>, execOk: bool)
    requires Traced(c)
    ensures Traced(AppSendSignal(c, kill, argv, execOk).0)
  {
    TraceNext(c, AppSendSignal(c, kill, argv, execOk).0, Killed(c.target, Usr1, kill));
  }

  /** What a task adds to the trace keeps the count right and forks nothing. */
  lemma {:induction false} BodyTrace(c: Client, kind: nat, b: BodyInput, argv: seq<Arg>, execOk: bool)
    requires Traced(c)
    ensures Traced(AppBody(c, kind, b, argv, execOk).0)
  {
    if kind == REVIVE {
      ReviveTrace(c, b, argv, execOk);
      ResetTrace(AppRevive(c, b, argv, execOk).0, b.reset1);
    } else if kind == INCREMENT_COUNTER {
      IncTrace(c, b);
      ResetTrace(AppIncCnt(c, b).0, b.reset1);
    } else {
      SendTrace(c, b.kill, argv, execOk);
      ResetTrace(AppSendSignal(c, b.kill, argv, execOk).0, b.reset1);
    }
  }

  predicate SameAims(c: Client, c': Client) {
    && c'.target == c.target && c'.shouldStop == c.shouldStop
    && c'.maxMissed == c.maxMissed && c'.interval == c.interval
  }

  lemma {:induction false} BodyAims(c: Client, kind: nat, b: BodyInput, argv: seq<Arg>, execOk: bool)
    ensures SameAims(c, AppBody(c, kind, b, argv, execOk).0)
  {
  }

  lemma {:induction false} PassStays(c: Client, t: AppTurn, argv: seq<Arg>)
    ensures SameAims(c, AppPass(c, t, argv).0)
  {
    if t.pass.head.ok && c.sched.queue != [] && !t.told {
      var c1 := c.(sched := Begin(c.sched, t.pass.head, t.pass.overrun));
      BodyAims(c1, c.sched.queue[0].op, t.pass.body, argv, t.execOk);
    }
  }

  lemma {:induction false} SchedTrace(c: Client, s: State)
    requires Traced(c)
    ensures Traced(c.(sched := s))
  {
  }

  lemma {:induction false} PassTrace(c: Client, t: AppTurn, argv: seq<Arg>)
    requires Traced(c)
    ensures Traced(AppPass(c, t, argv).0) && SameAims(c, AppPass(c, t, argv).0)
  {
    var (c', _) := AppPass(c, t, argv);
    if t.pass.head.ok && c.sched.queue != [] && !t.told {
      var c1 := c.(sched := Begin(c.sched, t.pass.head, t.pass.overrun));
      SchedTrace(c, c1.sched);
      BodyTrace(c1, c.sched.queue[0].op, t.pass.body, argv, t.execOk);
      BodyAims(c1, c.sched.queue[0].op, t.pass.body, argv, t.execOk);
      var c2 := AppBody(c1, c.sched.queue[0].op, t.pass.body, argv, t.execOk).0;
      SchedTrace(c2, c'.sched);
      assert c' == c2.(sched := c'.sched);
    } else {
      SchedTrace(c, c'.sched);
      assert c' == c.(sched := c'.sched);
    }
  }

  /** The task of the pass is requeued: the kinds stay. */
  lemma {:induction false} PassKinds(c: Client, t: AppTurn, argv: seq<Arg>)
    requires InMode(c) && !c.shouldStop && Kinds(c.sched.queue) == ACTIVE && AppPass(c, t, argv).1.Serving?
    ensures Kinds(AppPass(c, t, argv).0.sched.queue) == ACTIVE
  {
    var q := c.sched.queue;
    FirstKind(q, c.slots);
    var c1 := c.(sched := Begin(c.sched, t.pass.head, t.pass.overrun));
    BodyIgnoresRaise(c1, q[0].op, t.pass.body, argv, t.execOk);
    BodyIsClients(c1, q[0].op, AsClientTurn(t).body, argv, t.execOk);
    var c2 := AppBody(c1, q[0].op, t.pass.body, argv, t.execOk).0;
    assert c2.sched == c1.sched;
    FinishQueue(c2.sched, t.pass, Again);
    SteadyQueue(c2.sched, AppPass(c, t, argv).0.sched, t.pass, Again, c.slots, ACTIVE);
  }

  lemma {:induction false} PassServes(c: Client, ppid: Pid, t: AppTurn, argv: seq<Arg>)
    requires Serves(c, ppid) && InRange(c.sched, StepActions(c, AsClientTurn(t))) && AppPass(c, t, argv).1.Serving?
    ensures Serves(AppPass(c, t, argv).0, ppid)
  {
    var u := AsClientTurn(t);
    PassIsClients(c, t, argv);
    PassKinds(c, t, argv);
    PassTrace(c, t, argv);
    StepInMode(c, u);
    StepBounded(c, u);
    NoKinds(c.sched.queue);
    StepIsHistory(c, u);
    ActAllKeepsOwned(c.sched, StepActions(c, u));
    ActAllTimely(c.sched, StepActions(c, u));
  }

  /** Why a guardian may become the client: the client is gone, or it was told to exit after
      the limit of misses, or one more, had been counted. */
  predicate Justified(c: Client, ppid: Pid) {
    && c.events != []
    && var e := c.events[|c.events| - 1];
      && e.Killed? && e.pid == ppid
      && ((e.signal == Usr1 && e.result.NoProcess?)
          || (e.signal == Usr2 && !e.result.NotPermitted? && c.misses in {c.maxMissed as nat, c.maxMissed + 1}))
  }

  lemma {:induction false} BodyJustified(c: Client, kind: nat, b: BodyInput, argv: seq<Arg>, execOk: bool)
    requires 0 < c.target < NO_TARGET && c.misses <= c.maxMissed + 1
    ensures var (c', w) := AppBody(c, kind, b, argv, execOk);
      w.Left? && w.life.Replaced? ==> w.life.argv == Execv(argv) && Justified(c', c.target)
  {
  }

  lemma {:induction false} PassReplaced(c: Client, ppid: Pid, t: AppTurn, argv: seq<Arg>)
    requires Serves(c, ppid) && AppPass(c, t, argv).1.Replaced?
    ensures AppPass(c, t, argv).1.argv == Execv(argv) && Justified(AppPass(c, t, argv).0, ppid)
  {
    var c1 := c.(sched := Begin(c.sched, t.pass.head, t.pass.overrun));
    BodyJustified(c1, c.sched.queue[0].op, t.pass.body, argv, t.execOk);
  }

  // ---------- Whole runs ----------

  predicate AppInRange(c: Client, script: seq<AppTurn>, argv: seq<Arg>)
    decreases |script|
  {
    script != [] && !Empty(c.sched) && !c.sched.stop && AppPass(c, script[0], argv).1.Serving? ==>
      InRange(c.sched, StepActions(c, AsClientTurn(script[0]))) &&
      AppInRange(AppPass(c, script[0], argv).0, script[1..], argv)
  }

  /** What holds of a guardian at any time, by what has become of it. */
  ghost predicate Outcomes(c: Client, life: Life, ppid: Pid, argv: seq<Arg>) {
    && Traced(c)
    && (life.Serving? ==> Serves(c, ppid))
    && (life.Replaced? ==> life.argv == Execv(argv) && Justified(c, ppid))
  }

  lemma {:induction false} LoopOutcomes(c: Client, ppid: Pid, script: seq<AppTurn>, argv: seq<Arg>)
    requires Serves(c, ppid) && AppInRange(c, script, argv)
    ensures var (c', life) := AppLoop(c, script, argv); Outcomes(c', life, ppid, argv) && SameAims(c, c')
    decreases |script|
  {
    if !Empty(c.sched) && !c.sched.stop && script != [] {
      var (c1, life) := AppPass(c, script[0], argv);
      PassTrace(c, script[0], argv);
      if life.Serving? {
        PassServes(c, ppid, script[0], argv);
        LoopOutcomes(c1, ppid, script[1..], argv);
      } else if life.Replaced? {
        PassReplaced(c, ppid, script[0], argv);
      }
    }
  }

  lemma {:induction false} NewServes(args: seq<Arg>, ppid: Pid, clock: int, b: BodyInput)
    requires Readable(args) && SetScheduler(NewGuardian(args, ppid, clock), b).1
    requires CallsInRange(Create(clock), SetCalls(NewGuardian(args, ppid, clock), b))
    ensures Serves(SetScheduler(NewGuardian(args, ppid, clock), b).0, ppid)
  {
    var c := NewGuardian(args, ppid, clock);
    SetFiled(c, b);
    SetBounded(c, b);
    SchedulingKeepsTrace(c, b);
    SetPerforms(c, b);
    EveryTaskHasOneOwner(clock, []);
    PerformAllKeepsOwned(c.sched, SetCalls(c, b));
    PerformAllTimely(c.sched, SetCalls(c, b));
  }

  /** All deadlines of a guardian's run are in range of each other. */
  predicate GuardianInRange(args: seq<Arg>, ppid: Pid, clock: int, b: BodyInput, execOk: bool, script: seq<AppTurn>)
    requires Readable(args)
  {
    var c := NewGuardian(args, ppid, clock);
    var (c1, ok) := SetScheduler(c, b);
    var (c2, w) := AppSendSignal(c1, b.kill, Decode(args).argv, execOk);
    && CallsInRange(c.sched, SetCalls(c, b))
    && (ok && w.Went? ==> AppInRange(c2.(sched := EnterRun(c2.sched)), script, Decode(args).argv))
  }

  lemma {:induction false} AppPassClock(c: Client, t: AppTurn, argv: seq<Arg>)
    ensures c.sched.clock <= AppPass(c, t, argv).0.sched.clock
  {
    if t.pass.head.ok && c.sched.queue != [] && !t.told {
      var c1 := c.(sched := Begin(c.sched, t.pass.head, t.pass.overrun));
      var (c2, w) := AppBody(c1, c.sched.queue[0].op, t.pass.body, argv, t.execOk);
      assert c2.sched == c1.sched && c.sched.clock <= c1.sched.clock;
      if w.Went? { FinishAdvances(c2.sched, AsTurn(t.pass, w.result, [])); }
    }
  }

  lemma {:induction false} AppLoopClock(c: Client, script: seq<AppTurn>, argv: seq<Arg>)
    ensures c.sched.clock <= AppLoop(c, script, argv).0.sched.clock
    decreases |script|
  {
    if Empty(c.sched) || c.sched.stop || script == [] {
    } else {
      AppPassClock(c, script[0], argv);
      var (c1, life) := AppPass(c, script[0], argv);
      if life.Serving? { AppLoopClock(c1, script[1..], argv); }
    }
  }

  lemma {:induction false} LoopInWindow(c: Client, script: seq<AppTurn>, argv: seq<Arg>, lo: int, hi: int)
    requires InMode(c) && !c.shouldStop && Kinds(c.sched.queue) == ACTIVE
    requires Window(c.sched, lo, c.interval) && Narrows(lo, hi, c.interval)
    requires AppLoop(c, script, argv).0.sched.clock <= hi
    ensures AppInRange(c, script, argv)
    decreases |script|
  {
    if Empty(c.sched) || c.sched.stop || script == [] {
    } else {
      var (c1, life) := AppPass(c, script[0], argv);
      if life.Serving? {
        var u := AsClientTurn(script[0]);
        AppLoopClock(c1, script[1..], argv);
        PassIsClients(c, script[0], argv);
        PassKinds(c, script[0], argv);
        PassStays(c, script[0], argv);
        StepInMode(c, u);
        StepInWindow(c, u, lo, hi);
        LoopInWindow(c1, script[1..], argv, lo, hi);
      }
    }
  }

  /** The guardian as it enters its run: its queue is in the window, and was all along. */
  lemma {:induction false} StartInWindow(c: Client, b: BodyInput, lo: int, hi: int)
    requires c.sched.queue == [] && 1 <= c.sched.nextUid && !c.sched.stop && !c.sched.removeCur && !c.shouldStop
    requires Window(c.sched, lo, c.interval) && Narrows(lo, hi, c.interval) && SetScheduler(c, b).0.sched.clock <= hi
    ensures CallsInRange(c.sched, SetCalls(c, b))
    ensures var (c1, ok) := SetScheduler(c, b);
      SameAims(c, c1) && Window(c1.sched, lo, c1.interval) &&
      (ok ==> InMode(c1) && Kinds(c1.sched.queue) == ACTIVE && EnterRun(c1.sched) == c1.sched)
  {
    SetPerforms(c, b);
    SetCallsWithin(c, b);
    SchedulingKeepsTrace(c, b);
    CallsWindow(c.sched, SetCalls(c, b), lo, hi, c.interval);
    SetFiled(c, b);
  }

  lemma {:induction false} StartClock(c: Client, kill: KillResult, argv: seq<Arg>, execOk: bool, script: seq<AppTurn>)
    ensures c.sched.clock <= AppStart(c, kill, argv, execOk, script).0.sched.clock
  {
    var (c1, w) := AppSendSignal(c, kill, argv, execOk);
    if w.Went? { AppLoopClock(c1.(sched := EnterRun(c1.sched)), script, argv); }
  }

  lemma {:induction false} EnteredInWindow(
    c: Client, kill: KillResult, argv: seq<Arg>, execOk: bool, script: seq<AppTurn>, lo: int, hi: int)
    requires InMode(c) && !c.shouldStop && Kinds(c.sched.queue) == ACTIVE && EnterRun(c.sched) == c.sched
    requires Window(c.sched, lo, c.interval) && Narrows(lo, hi, c.interval)
    requires var c2 := AppSendSignal(c, kill, argv, execOk).0;
      AppLoop(c2.(sched := EnterRun(c2.sched)), script, argv).0.sched.clock <= hi
    ensures var c2 := AppSendSignal(c, kill, argv, execOk).0;
      AppInRange(c2.(sched := EnterRun(c2.sched)), script, argv)
  {
    var c2 := AppSendSignal(c, kill, argv, execOk).0;
    LoopInWindow(c2.(sched := EnterRun(c2.sched)), script, argv, lo, hi);
  }

  /** A guardian whose interval and running time an int can hold stays in range. */
  lemma {:induction false} GuardianInTime(
    args: seq<Arg>, ppid: Pid, clock: int, b: BodyInput, execOk: bool, script: seq<AppTurn>, horizon: nat)
    requires Readable(args) && FitsInt(Decode(args).seconds, horizon)
    requires WatchdogApp(args, ppid, clock, b, execOk, script).0.sched.clock - clock <= horizon
    ensures GuardianInRange(args, ppid, clock, b, execOk, script)
  {
    var argv, c := Decode(args).argv, NewGuardian(args, ppid, clock);
    var (c1, ok) := SetScheduler(c, b);
    if ok { StartClock(c1, b.kill, argv, execOk, script); }
    StartInWindow(c, b, clock + 1, clock + horizon);
    if ok && AppSendSignal(c1, b.kill, argv, execOk).1.Went? {
      EnteredInWindow(c1, b.kill, argv, execOk, script, clock + 1, clock + horizon);
    }
  }

  lemma {:induction false} FirstSignal(c: Client, ppid: Pid, kill: KillResult, argv: seq<Arg>, execOk: bool)
    requires Serves(c, ppid)
    ensures var (c', w) := AppSendSignal(c, kill, argv, execOk);
      && SameAims(c, c')
      && (w.Left? ==> Outcomes(c', w.life, ppid, argv) && !w.life.Serving?)
      && (w.Went? ==> Serves(c'.(sched := EnterRun(c'.sched)), ppid))
  {
    SendTrace(c, kill, argv, execOk);
    var c' := AppSendSignal(c, kill, argv, execOk).0;
    assert EnterRun(c.sched) == c.sched;
    SchedTrace(c', EnterRun(c'.sched));
  }

  lemma {:induction false} NotSet(c: Client, b: BodyInput)
    requires Traced(c)
    ensures Traced(SetScheduler(c, b).0) && SameAims(c, SetScheduler(c, b).0)
  {
    SchedulingKeepsTrace(c, b);
  }

  lemma {:induction false} AppOutcomes(
    args: seq<Arg>, ppid: Pid, clock: int, b: BodyInput, execOk: bool, script: seq<AppTurn>)
    requires Readable(args) && GuardianInRange(args, ppid, clock, b, execOk, script)
    ensures var (c, life) := WatchdogApp(args, ppid, clock, b, execOk, script);
      Outcomes(c, life, ppid, Decode(args).argv) && SameAims(NewGuardian(args, ppid, clock), c)
  {
    var argv, c := Decode(args).argv, NewGuardian(args, ppid, clock);
    var (c1, ok) := SetScheduler(c, b);
    NotSet(c, b);
    if ok {
      NewServes(args, ppid, clock, b);
      FirstSignal(c1, ppid, b.kill, argv, execOk);
      var (c2, w) := AppSendSignal(c1, b.kill, argv, execOk);
      if w.Went? {
        LoopOutcomes(c2.(sched := EnterRun(c2.sched)), ppid, script, argv);
      }
    }
  }

  /** What is told of a guardian that runs for argument vector `argv`. */
  ghost predicate Told(c: Client, life: Life, ppid: Pid, argv: seq<Arg>) {
    && c.misses == MissesOf(c.events, 0)
    && (forall i :: 0 <= i < |c.events| ==> !ForkAttempt(c.events[i]))
    && (life.Serving? ==> Kinds(c.sched.queue) == ACTIVE && |c.sched.queue| == 3 && c.misses <= c.maxMissed + 1)
    && (life.Replaced? ==> life.argv == Execv(argv) && Justified(c, ppid))
  }

  lemma {:induction false} OutcomesTold(c: Client, life: Life, ppid: Pid, argv: seq<Arg>)
    requires Outcomes(c, life, ppid, argv)
    ensures Told(c, life, ppid, argv)
  {
    if life.Serving? { EachKindOnce(c.sched.queue, c.slots); }
  }

  /** However a guardian's run goes: while it serves, its three tasks are queued, each once, and
      at most one miss above the limit is counted; it never forks; and if it becomes the client,
      then with the client's arguments, and only because the client is gone or has been told to
      exit after the limit, or one more, was reached. */
  lemma {:induction false} GuardianServes(
    args: seq<Arg>, ppid: Pid, clock: int, b: BodyInput, execOk: bool, script: seq<AppTurn>)
    requires Readable(args) && GuardianInRange(args, ppid, clock, b, execOk, script)
    ensures var (c, life) := WatchdogApp(args, ppid, clock, b, execOk, script);
      Told(c, life, ppid, Decode(args).argv) && SameAims(NewGuardian(args, ppid, clock), c)
  {
    AppOutcomes(args, ppid, clock, b, execOk, script);
    var (c, life) := WatchdogApp(args, ppid, clock, b, execOk, script);
    OutcomesTold(c, life, ppid, Decode(args).argv);
  }

  lemma {:induction false} BodyReplaced(c: Client, kind: nat, b: BodyInput, argv: seq<Arg>, execOk: bool)
    ensures var w := AppBody(c, kind, b, argv, execOk).1;
      w.Left? ==> w.life == Gone || w.life == Replaced(Execv(argv))
  {
  }

  lemma {:induction false} LoopReplaced(c: Client, script: seq<AppTurn>, argv: seq<Arg>)
    ensures var (c', life) := AppLoop(c, script, argv);
      SameAims(c, c') && (life.Replaced? ==> life.argv == Execv(argv))
    decreases |script|
  {
    if Empty(c.sched) || c.sched.stop || script == [] {
    } else {
      var t := script[0];
      PassStays(c, t, argv);
      if t.pass.head.ok && c.sched.queue != [] && !t.told {
        var c0 := c.(sched := Begin(c.sched, t.pass.head, t.pass.overrun));
        BodyReplaced(c0, c.sched.queue[0].op, t.pass.body, argv, t.execOk);
      }
      var (c1, life) := AppPass(c, t, argv);
      if life.Serving? { LoopReplaced(c1, script[1..], argv); }
    }
  }

  lemma {:induction false} StartReplaced(
    c: Client, kill: KillResult, argv: seq<Arg>, execOk: bool, script: seq<AppTurn>)
    ensures var (c', life) := AppStart(c, kill, argv, execOk, script);
      SameAims(c, c') && (life.Replaced? ==> life.argv == Execv(argv))
  {
    var (c1, w) := AppSendSignal(c, kill, argv, execOk);
    if w.Went? { LoopReplaced(c1.(sched := EnterRun(c1.sched)), script, argv); }
  }

  /** End to end: the client's parameters, through the guardian's arguments, are what the
      guardian runs with, and its own arguments are what the client is revived with. */
  lemma {:induction false} RevivedAsBefore(
    path: string, p: Params, ppid: Pid, clock: int, b: BodyInput, execOk: bool, script: seq<AppTurn>)
    requires Passable(p)
    ensures var args := Execv(Encoded(path, p));
      Readable(args) &&
      var (c, life) := WatchdogApp(args, ppid, clock, b, execOk, script);
      c.interval == p.seconds && c.maxMissed == p.maxMissed && (life.Replaced? ==> life.argv == p.argv)
  {
    RevivalRoundTrip(path, p);
    ExecvTerminated(p.argv, p.argc);
    var c := NewGuardian(Execv(Encoded(path, p)), ppid, clock);
    var (c1, ok) := SetScheduler(c, b);
    SchedulingKeepsTrace(c, b);
    StartReplaced(c1, b.kill, p.argv, execOk, script);
  }
}

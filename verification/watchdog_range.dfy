/** How long a client can run before narrowing goes wrong: what its owner knows of the interval
    and the running time puts every deadline of its scheduler in range. */
module WatchdogRange {
  import opened SchedulerSpec
  import opened SchedulerTiming
  import opened SchedulerRange
  import opened WatchdogSpec
  import opened WatchdogCalls
  import opened WatchdogGuardian
  import opened WatchdogModes
  import opened WatchdogMisses

  lemma {:induction false} SetCallsWithin(c: Client, b: BodyInput)
    ensures CallsWithin(SetCalls(c, b), c.interval)
  {
  }

  lemma {:induction false} BodyCallsWithin(c: Client, kind: nat, b: BodyInput)
    ensures CallsWithin(BodyCalls(c, kind, b), c.interval)
  {
    SetCallsWithin(c, b);
  }

  /** Everything a client adds to its scheduler repeats at the client's interval. */
  lemma {:induction false} StepActionsWithin(c: Client, t: ClientTurn)
    ensures Within(StepActions(c, t), c.interval)
  {
    var turn := TurnAt(c, t);
    if t.head.ok && c.sched.queue != [] {
      BodyCallsWithin(c.(sched := Begin(c.sched, t.head, t.overrun)), c.sched.queue[0].op, t.body);
    }
    assert CallsWithin(turn.calls, c.interval);
    assert ActionWithin(RunLoop([turn]), c.interval);
  }

  /** A process that exits in a task leaves the clock where the task left it. */
  lemma {:induction false} ExitClock(c: Client, t: ClientTurn)
    requires Pass(c, t).1.Exited?
    ensures Step(c.sched, TurnAt(c, t)).0.clock == Pass(c, t).0.sched.clock
  {
    BodyPerforms(c.(sched := Begin(c.sched, t.head, t.overrun)), c.sched.queue[0].op, t.body);
  }

  /** The clock after a pass of the thread is the clock after its history. */
  lemma {:induction false} StepActionsClock(c: Client, t: ClientTurn)
    requires !c.sched.stop && !c.sched.removeCur
    ensures ActAll(c.sched, StepActions(c, t)).clock == ClientStep(c, t).0.sched.clock
  {
    if Empty(c.sched) {
    } else if Pass(c, t).1.Exited? {
      ExitClock(c, t);
      RunOne(c.sched, TurnAt(c, t));
      ActAllOne(c.sched, RunLoop([TurnAt(c, t)]), []);
    } else {
      StepIsHistory(c, t);
    }
  }

  lemma {:induction false} ThreadClock(c: Client, script: seq<ClientTurn>)
    requires InMode(c)
    ensures c.sched.clock <= Thread(c, script).0.sched.clock
    decreases |script|
  {
    if script == [] {
    } else {
      StepActionsClock(c, script[0]);
      ActAllClock(c.sched, StepActions(c, script[0]));
      StepInMode(c, script[0]);
      var (c1, p) := ClientStep(c, script[0]);
      if p.Running? { ThreadClock(c1, script[1..]); }
    }
  }

  lemma {:induction false} StepInWindow(c: Client, t: ClientTurn, lo: int, hi: int)
    requires InMode(c) && Window(c.sched, lo, c.interval) && Narrows(lo, hi, c.interval)
    requires ClientStep(c, t).0.sched.clock <= hi
    ensures InRange(c.sched, StepActions(c, t))
    ensures var (c', p) := ClientStep(c, t);
      p.Running? ==> Window(c'.sched, lo, c'.interval) && c'.interval == c.interval
  {
    StepActionsClock(c, t);
    StepActionsWithin(c, t);
    ActAllWindow(c.sched, StepActions(c, t), lo, hi, c.interval);
    PassKeepsLimits(c, t);
    if ClientStep(c, t).1.Running? { StepIsHistory(c, t); }
  }

  lemma {:induction false} ThreadInWindow(c: Client, script: seq<ClientTurn>, lo: int, hi: int)
    requires InMode(c) && Window(c.sched, lo, c.interval) && Narrows(lo, hi, c.interval)
    requires Thread(c, script).0.sched.clock <= hi
    ensures ClientInRange(c, script)
    ensures var (c', p) := Thread(c, script);
      p.Running? ==> InMode(c') && Window(c'.sched, lo, c'.interval) && c'.interval == c.interval
    decreases |script|
  {
    if script == [] {
    } else {
      var (c1, p) := ClientStep(c, script[0]);
      StepInMode(c, script[0]);
      if p.Running? { ThreadClock(c1, script[1..]); }
      StepInWindow(c, script[0], lo, hi);
      if p.Running? { ThreadInWindow(c1, script[1..], lo, hi); }
    }
  }

  /** The thread runs for at most `horizon` seconds. */
  predicate ThreadLasts(
    clock: int, interval: Positive, maxMissed: Positive, i: AddInput, script: seq<ClientTurn>, horizon: nat) {
    Thread(StartClient(clock, interval, maxMissed, i).0, script).0.sched.clock - clock <= horizon
  }

  /** A thread whose interval and running time an int can hold stays in range. */
  lemma {:induction false} ClientInTime(
    clock: int, interval: Positive, maxMissed: Positive, i: AddInput, script: seq<ClientTurn>, horizon: nat)
    requires FitsInt(interval, horizon) && ThreadLasts(clock, interval, maxMissed, i, script, horizon)
    ensures ClientInRange(StartClient(clock, interval, maxMissed, i).0, script)
    ensures var (c, p) := Thread(StartClient(clock, interval, maxMissed, i).0, script);
      p.Running? ==> Window(c.sched, clock + 1, interval) && c.interval == interval
  {
    var c0 := Client(Create(clock), NO_TARGET, NO_UIDS, maxMissed, false, interval, maxMissed, []);
    var c := StartClient(clock, interval, maxMissed, i).0;
    StartInMode(clock, interval, maxMissed, i);
    ThreadClock(c, script);
    CallWindow(c0.sched, AddCall(c0, REVIVE, i), clock + 1, clock + horizon, interval);
    ThreadInWindow(c, script, clock + 1, clock + horizon);
  }

  /** The miss count of such a thread. */
  lemma {:induction false} MissesBoundedInTime(
    clock: int, interval: Positive, maxMissed: Positive, i: AddInput, script: seq<ClientTurn>, horizon: nat)
    requires FitsInt(interval, horizon) && ThreadLasts(clock, interval, maxMissed, i, script, horizon)
    ensures var c := Thread(StartClient(clock, interval, maxMissed, i).0, script).0;
      c.misses == MissesOf(c.events, maxMissed) && c.misses <= maxMissed + 1
  {
    ClientInTime(clock, interval, maxMissed, i, script, horizon);
    var b := BodyInput(false, false, false, Sent, Sent, true, ForkFailed, i, i, i);
    MissesBounded(clock, interval, maxMissed, i, script, b);
  }
}

/** What the client's tasks do to their own scheduler is a list of calls, so that every pass of
    the client's thread is a pass of the scheduler's loop. */
module WatchdogCalls {
  import opened SchedulerSpec
  import opened WatchdogSpec
  import opened WatchdogGuardian

  function AddCall(c: Client, kind: nat, i: AddInput): Call {
    Add(c.interval, kind, i)
  }

  /** The calls SetScheduler makes: it gives up at the first failure. */
  function SetCalls(c: Client, b: BodyInput): seq<Call> {
    var (c1, ok1) := AddTaskToSched(c, SEND_SIGNAL, b.add0);
    [AddCall(c, SEND_SIGNAL, b.add0)] +
    if !ok1 then []
    else
      [AddCall(c, REVIVE, b.add1)] +
      if AddTaskToSched(c1, REVIVE, b.add1).1 then [AddCall(c, INCREMENT_COUNTER, b.add2)] else []
  }

  function StopCalls(b: BodyInput): seq<Call> {
    if b.stopKill.Sent? then [Stop] else []
  }

  function BodyCalls(c: Client, kind: nat, b: BodyInput): seq<Call> {
    var misses := if b.reset0 then 0 else c.misses;
    if c.shouldStop || b.raise then StopCalls(b)
    else if kind == REVIVE && misses >= c.maxMissed && !b.kill.NotPermitted? then
      [Clear, AddCall(c, CHECK_FOR_SIGNAL, b.add0)]
    else if kind != INCREMENT_COUNTER && kind != REVIVE && kind != SEND_SIGNAL && misses == 0 then
      SetCalls(c, b)
    else []
  }

  lemma {:induction false} PerformTwo(s: State, a: Call, b: Call)
    ensures PerformAll(s, [a]) == Perform(s, a)
    ensures PerformAll(s, [a, b]) == Perform(Perform(s, a), b)
  {
    assert [a][1..] == [] && [a, b][1..] == [b] && [b][1..] == [];
    var t := Perform(s, a);
    assert PerformAll(t, [b]) == PerformAll(Perform(t, b), []);
  }

  lemma {:induction false} PerformConcat(s: State, a: seq<Call>, b: seq<Call>)
    ensures PerformAll(s, a + b) == PerformAll(PerformAll(s, a), b)
    decreases |a|
  {
    if a == [] {
      assert a + b == b;
    } else {
      assert (a + b)[1..] == a[1..] + b;
      PerformConcat(Perform(s, a[0]), a[1..], b);
    }
  }

  lemma {:induction false} SetPerforms(c: Client, b: BodyInput)
    ensures SetScheduler(c, b).0.sched == PerformAll(c.sched, SetCalls(c, b))
  {
    var c1 := AddTaskToSched(c, SEND_SIGNAL, b.add0).0;
    var c2 := AddTaskToSched(c1, REVIVE, b.add1).0;
    var x, y, z := AddCall(c, SEND_SIGNAL, b.add0), AddCall(c, REVIVE, b.add1), AddCall(c, INCREMENT_COUNTER, b.add2);
    assert c1.sched == Perform(c.sched, x) && c2.sched == Perform(c1.sched, y);
    PerformTwo(c.sched, x, y);
    PerformConcat(c.sched, [x, y], [z]);
    PerformTwo(c2.sched, z, z);
    assert [x] + [] == [x];
    assert [x] + ([y] + []) == [x, y];
    assert [x] + ([y] + [z]) == [x, y] + [z];
  }

  lemma {:induction false} StoppedPerforms(c: Client, kind: nat, b: BodyInput)
    requires c.shouldStop
    ensures Task(c, kind, b).0.sched == PerformAll(c.sched, BodyCalls(c, kind, b))
  {
    PerformTwo(c.sched, Stop, Stop);
    assert WatchdogStop(c, b.stopKill).0.sched == PerformAll(c.sched, BodyCalls(c, kind, b));
  }

  lemma {:induction false} WaitPerforms(c: Client, b: BodyInput)
    requires !c.shouldStop && !b.raise
    ensures WaitForApp(c, b).0.sched == PerformAll(c.sched, BodyCalls(c, CHECK_FOR_SIGNAL, b))
  {
    var r := ResetIf(c, b.reset0);
    SetPerforms(r, b);
    assert SetCalls(r, b) == SetCalls(c, b);
  }

  lemma {:induction false} TaskPerforms(c: Client, kind: nat, b: BodyInput)
    requires b.raise ==> c.shouldStop
    ensures Task(c, kind, b).0.sched == PerformAll(c.sched, BodyCalls(c, kind, b))
  {
    if c.shouldStop {
      StoppedPerforms(c, kind, b);
    } else if kind == REVIVE {
      PerformTwo(c.sched, Clear, AddCall(c, CHECK_FOR_SIGNAL, b.add0));
    } else if kind != INCREMENT_COUNTER && kind != SEND_SIGNAL {
      WaitPerforms(c, b);
    }
  }

  /** The scheduler after a task's body is the scheduler after the body's calls. */
  lemma {:induction false} BodyPerforms(c: Client, kind: nat, b: BodyInput)
    ensures Body(c, kind, b).0.sched == PerformAll(c.sched, BodyCalls(c, kind, b))
  {
    TaskPerforms(RaiseIf(c, b.raise), kind, b);
    assert BodyCalls(RaiseIf(c, b.raise), kind, b) == BodyCalls(c, kind, b);
  }

  // ---------- A pass of the thread as a history of its scheduler ----------

  /** The pass of the scheduler's loop that the client makes at `c`. */
  function TurnAt(c: Client, t: ClientTurn): Turn {
    if t.head.ok && c.sched.queue != [] then
      var c1 := c.(sched := Begin(c.sched, t.head, t.overrun));
      var kind := c.sched.queue[0].op;
      var r := Body(c1, kind, t.body).1;
      AsTurn(t, if r.Exit? then Fail else r.result, BodyCalls(c1, kind, t.body))
    else AsTurn(t, Fail, [])
  }

  lemma {:induction false} PassIsStep(c: Client, t: ClientTurn)
    requires !Pass(c, t).1.Exited?
    ensures (Pass(c, t).0.sched, Pass(c, t).1.outcome) == Step(c.sched, TurnAt(c, t))
  {
    if t.head.ok && c.sched.queue != [] {
      var c1 := c.(sched := Begin(c.sched, t.head, t.overrun));
      var kind := c.sched.queue[0].op;
      BodyPerforms(c1, kind, t.body);
      var (c2, r) := Body(c1, kind, t.body);
      assert Finish(c2.sched, AsTurn(t, r.result, [])) == Finish(c2.sched, TurnAt(c, t));
    }
  }

  predicate Fails(o: Outcome) {
    o == Returned(TaskFail) || o == Returned(SystemFail)
  }

  /** What follows the pass in the history: recovery, if the run has failed. */
  function Afterwards(c: Client, t: ClientTurn): seq<Action>
    requires !Pass(c, t).1.Exited?
  {
    if Fails(Pass(c, t).1.outcome) then
      [Api(Clear), Api(AddCall(c, CHECK_FOR_SIGNAL, t.recover)), RunLoop([])]
    else []
  }

  /** The history of the scheduler in one pass of the thread. */
  function StepActions(c: Client, t: ClientTurn): seq<Action> {
    if Empty(c.sched) || c.sched.stop then []
    else [RunLoop([TurnAt(c, t)])] + if Pass(c, t).1.Exited? then [] else Afterwards(c, t)
  }

  lemma {:induction false} RunOne(s: State, turn: Turn)
    requires !s.stop && !s.removeCur && !Empty(s)
    ensures Act(s, RunLoop([turn])) == Step(s, turn).0
  {
    assert EnterRun(s) == s;
    assert [turn][1..] == [];
    var s1 := Step(s, turn).0;
    assert RunFrom(s1, []).0 == s1;
  }

  lemma {:induction false} RecoverIsHistory(c: Client, i: AddInput)
    ensures Recover(c, i).sched
            == ActAll(c.sched, [Api(Clear), Api(AddCall(c, CHECK_FOR_SIGNAL, i)), RunLoop([])])
  {
    var a, b, r := Api(Clear), Api(AddCall(c, CHECK_FOR_SIGNAL, i)), RunLoop([]);
    var s1 := Act(c.sched, a);
    var s2 := Act(s1, b);
    assert [a, b, r][1..] == [b, r] && [b, r][1..] == [r] && [r][1..] == [];
    assert ActAll(s2, [r]) == ActAll(Act(s2, r), []);
    assert ActAll(s1, [b, r]) == ActAll(s2, [r]);
    assert RunFrom(EnterRun(s2), []).0 == EnterRun(s2);
  }

  lemma {:induction false} ActAllOne(s: State, a: Action, rest: seq<Action>)
    ensures ActAll(s, [a] + rest) == ActAll(Act(s, a), rest)
  {
    assert ([a] + rest)[0] == a && ([a] + rest)[1..] == rest;
  }

  lemma {:induction false} StepAfterPass(c: Client, t: ClientTurn)
    requires !c.sched.stop && !Empty(c.sched) && !Pass(c, t).1.Exited?
    ensures var (c1, r) := Pass(c, t);
      ClientStep(c, t).0 == if Fails(r.outcome) then Recover(c1, t.recover) else c1
  {
  }

  lemma {:induction false} AfterwardsIsHistory(c: Client, t: ClientTurn)
    requires !Pass(c, t).1.Exited?
    ensures var (c1, r) := Pass(c, t);
      (if Fails(r.outcome) then Recover(c1, t.recover) else c1).sched == ActAll(c1.sched, Afterwards(c, t))
  {
    PassKeepsLimits(c, t);
    RecoverIsHistory(Pass(c, t).0, t.recover);
  }

  /** Unless the process exits in it, a pass of the thread is a history of its scheduler; so
      what is proved of all histories holds of the client's scheduler. */
  lemma {:induction false} StepIsHistory(c: Client, t: ClientTurn)
    requires !c.sched.stop && !c.sched.removeCur && !Empty(c.sched)
    requires !Pass(c, t).1.Exited?
    ensures ClientStep(c, t).0.sched == ActAll(c.sched, StepActions(c, t))
  {
    var turn := TurnAt(c, t);
    PassIsStep(c, t);
    RunOne(c.sched, turn);
    StepAfterPass(c, t);
    AfterwardsIsHistory(c, t);
    ActAllOne(c.sched, RunLoop([turn]), Afterwards(c, t));
  }
}

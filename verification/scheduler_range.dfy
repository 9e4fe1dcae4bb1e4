/** How long a scheduler can run, and with what intervals, before narrowing goes wrong. */
module SchedulerRange {
  import opened SchedulerSpec
  import opened SchedulerOwnership
  import opened SchedulerOrder
  import opened SchedulerTiming

  // ---------- What the owner of a scheduler knows ----------

  /** No task repeats at more than `m` seconds. */
  predicate CallWithin(c: Call, m: Positive) {
    c.Add? ==> c.interval <= m
  }

  predicate CallsWithin(cs: seq<Call>, m: Positive) {
    forall i :: 0 <= i < |cs| ==> CallWithin(cs[i], m)
  }

  predicate ScriptWithin(script: seq<Turn>, m: Positive) {
    forall i :: 0 <= i < |script| ==> CallsWithin(script[i].calls, m)
  }

  predicate ActionWithin(a: Action, m: Positive) {
    match a
    case Api(c) => CallWithin(c, m)
    case RunLoop(script) => ScriptWithin(script, m)
  }

  predicate Within(actions: seq<Action>, m: Positive) {
    forall i :: 0 <= i < |actions| ==> ActionWithin(actions[i], m)
  }

  // ---------- The clock ----------

  lemma {:induction false} PerformAllClock(s: State, cs: seq<Call>)
    ensures s.clock <= PerformAll(s, cs).clock
    decreases |cs|
  {
    if cs == [] {
    } else {
      PerformAllClock(Perform(s, cs[0]), cs[1..]);
    }
  }

  lemma {:induction false} FinishAdvances(s: State, turn: Turn)
    ensures s.clock <= Finish(s, turn).0.clock
  {
  }

  lemma {:induction false} StepClock(s: State, turn: Turn)
    ensures s.clock <= Step(s, turn).0.clock
  {
    if turn.head.ok && s.queue != [] {
      var b := Begin(s, turn.head, turn.overrun);
      PerformAllClock(b, turn.calls);
      FinishAdvances(PerformAll(b, turn.calls), turn);
    }
  }

  lemma {:induction false} RunFromClock(s: State, script: seq<Turn>)
    ensures s.clock <= RunFrom(s, script).0.clock
    decreases |script|
  {
    if Empty(s) || s.stop || script == [] {
    } else {
      StepClock(s, script[0]);
      var (s1, o) := Step(s, script[0]);
      if o.Continue? { RunFromClock(s1, script[1..]); }
    }
  }

  lemma {:induction false} ActAllClock(s: State, actions: seq<Action>)
    ensures s.clock <= ActAll(s, actions).clock
    decreases |actions|
  {
    if actions == [] {
    } else {
      if actions[0].RunLoop? { RunFromClock(EnterRun(s), actions[0].script); }
      ActAllClock(Act(s, actions[0]), actions[1..]);
    }
  }

  // ---------- A window of deadlines ----------

  /** Every queued task is due at `lo` or later, and within `m` seconds. */
  predicate Window(s: State, lo: int, m: Positive) {
    && lo <= s.clock + 1
    && (forall i :: 0 <= i < |s.queue| ==> lo <= s.queue[i].deadline <= s.clock + m && s.queue[i].interval <= m)
    && (s.cur.Some? ==> s.cur.value.interval <= m)
  }

  /** While the clock is at most `hi`, a window from `lo` is narrow enough. */
  predicate Narrows(lo: int, hi: int, m: Positive) {
    m < TWO_TO_31 && hi + m - lo <= TWO_TO_31
  }

  lemma {:induction false} WindowPlaces(s: State, lo: int, hi: int, m: Positive, now: int, t: TaskRec)
    requires Window(s, lo, m) && Narrows(lo, hi, m) && s.clock <= now <= hi && now < t.deadline <= now + m
    ensures Placed(s.queue, t)
  {
    forall i | 0 <= i < |s.queue| ensures Agrees(s.queue[i], t) { PriorityFuncOrders(s.queue[i], t); }
  }

  lemma {:induction false} InsertWindow(s: State, s': State, lo: int, m: Positive, t: TaskRec, tie: nat)
    requires Window(s, lo, m) && s.clock <= s'.clock
    requires s'.queue == Insert(s.queue, t, tie) && (s'.cur == s.cur || s'.cur.None?)
    requires s'.clock < t.deadline <= s'.clock + m && t.interval <= m
    ensures Window(s', lo, m)
  {
  }

  lemma {:induction false} AddKeepsWindow(s: State, c: Call, lo: int, m: Positive)
    requires Window(s, lo, m) && c.Add? && CallWithin(c, m)
    ensures Window(Perform(s, c), lo, m)
  {
    var s', t := Perform(s, c), AddedTask(s, c);
    if s'.queue != s.queue {
      assert s'.queue == Insert(s.queue, t, c.input.tie) && t.deadline == s'.clock + c.interval && s'.cur == s.cur;
      InsertWindow(s, s', lo, m, t, c.input.tie);
    }
  }

  lemma {:induction false} RemoveWindow(s: State, u: nat, lo: int, m: Positive)
    requires Window(s, lo, m)
    ensures Window(RemoveTask(s, u).0, lo, m)
  {
    var k := IndexOf(s.queue, u);
    var q := RemoveTask(s, u).0.queue;
    assert k < |s.queue| ==> forall i :: 0 <= i < |q| ==> q[i] == if i < k then s.queue[i] else s.queue[i + 1];
  }

  lemma {:induction false} CallKeepsWindow(s: State, c: Call, lo: int, m: Positive)
    requires Window(s, lo, m) && CallWithin(c, m)
    ensures Window(Perform(s, c), lo, m)
  {
    match c
    case Add(interval, op, i) => AddKeepsWindow(s, c, lo, m);
    case Remove(u) => RemoveWindow(s, u, lo, m);
    case Clear =>
    case Stop =>
  }

  lemma {:induction false} CallWindow(s: State, c: Call, lo: int, hi: int, m: Positive)
    requires Window(s, lo, m) && CallWithin(c, m) && Narrows(lo, hi, m) && Perform(s, c).clock <= hi
    ensures CallInRange(s, c) && Window(Perform(s, c), lo, m)
  {
    CallKeepsWindow(s, c, lo, m);
    if c.Add? && c.input.uidOk && c.input.reading.ok && c.input.enqueueOk {
      WindowPlaces(s, lo, hi, m, s.clock + c.input.reading.delay, AddedTask(s, c));
    }
  }

  lemma {:induction false} CallsWindow(s: State, cs: seq<Call>, lo: int, hi: int, m: Positive)
    requires Window(s, lo, m) && CallsWithin(cs, m) && Narrows(lo, hi, m) && PerformAll(s, cs).clock <= hi
    ensures CallsInRange(s, cs) && Window(PerformAll(s, cs), lo, m)
    decreases |cs|
  {
    if cs == [] {
    } else {
      assert CallWithin(cs[0], m);
      PerformAllClock(Perform(s, cs[0]), cs[1..]);
      CallWindow(s, cs[0], lo, hi, m);
      CallsWindow(Perform(s, cs[0]), cs[1..], lo, hi, m);
    }
  }

  lemma {:induction false} FinishKeepsWindow(s: State, turn: Turn, lo: int, m: Positive)
    requires Window(s, lo, m)
    ensures Window(Finish(s, turn).0, lo, m)
  {
    FinishedQueue(s, turn);
    FinishAdvances(s, turn);
    if turn.result.Again? && s.cur.Some? && !s.removeCur && turn.requeue.ok && turn.enqueueOk {
      InsertWindow(s, Finish(s, turn).0, lo, m, RequeuedTask(s, turn), turn.tie);
    }
  }

  lemma {:induction false} FinishWindow(s: State, turn: Turn, lo: int, hi: int, m: Positive)
    requires Window(s, lo, m) && Narrows(lo, hi, m) && Finish(s, turn).0.clock <= hi
    ensures FinishInRange(s, turn) && Window(Finish(s, turn).0, lo, m)
  {
    FinishKeepsWindow(s, turn, lo, m);
    if turn.result.Again? && s.cur.Some? && !s.removeCur && turn.requeue.ok && turn.enqueueOk {
      WindowPlaces(s, lo, hi, m, s.clock + turn.requeue.delay, RequeuedTask(s, turn));
    }
  }

  lemma {:induction false} BeginKeepsWindow(s: State, head: Reading, overrun: nat, lo: int, m: Positive)
    requires Window(s, lo, m) && s.queue != []
    ensures Window(Begin(s, head, overrun), lo, m) && s.clock <= Begin(s, head, overrun).clock
  {
    assert forall i :: 0 <= i < |s.queue[1..]| ==> s.queue[1..][i] == s.queue[i + 1];
  }

  lemma {:induction false} StepWindow(s: State, turn: Turn, lo: int, hi: int, m: Positive)
    requires Window(s, lo, m) && CallsWithin(turn.calls, m) && Narrows(lo, hi, m) && Step(s, turn).0.clock <= hi
    ensures StepInRange(s, turn) && Window(Step(s, turn).0, lo, m)
  {
    if turn.head.ok && s.queue != [] {
      var b := Begin(s, turn.head, turn.overrun);
      var p := PerformAll(b, turn.calls);
      FinishAdvances(p, turn);
      BeginKeepsWindow(s, turn.head, turn.overrun, lo, m);
      CallsWindow(b, turn.calls, lo, hi, m);
      FinishWindow(p, turn, lo, hi, m);
    }
  }

  lemma {:induction false} RunFromWindow(s: State, script: seq<Turn>, lo: int, hi: int, m: Positive)
    requires Window(s, lo, m) && ScriptWithin(script, m) && Narrows(lo, hi, m) && RunFrom(s, script).0.clock <= hi
    ensures RunInRange(s, script) && Window(RunFrom(s, script).0, lo, m)
    decreases |script|
  {
    if Empty(s) || s.stop || script == [] {
    } else {
      var (s1, o) := Step(s, script[0]);
      assert CallsWithin(script[0].calls, m);
      if o.Continue? { RunFromClock(s1, script[1..]); }
      StepWindow(s, script[0], lo, hi, m);
      if o.Continue? { RunFromWindow(s1, script[1..], lo, hi, m); }
    }
  }

  lemma {:induction false} ActWindow(s: State, a: Action, lo: int, hi: int, m: Positive)
    requires Window(s, lo, m) && ActionWithin(a, m) && Narrows(lo, hi, m) && Act(s, a).clock <= hi
    ensures InRange(s, [a]) && Window(Act(s, a), lo, m)
  {
    match a
    case Api(c) => CallWindow(s, c, lo, hi, m);
    case RunLoop(script) => RunFromWindow(EnterRun(s), script, lo, hi, m);
  }

  lemma {:induction false} ActAllWindow(s: State, actions: seq<Action>, lo: int, hi: int, m: Positive)
    requires Window(s, lo, m) && Within(actions, m) && Narrows(lo, hi, m) && ActAll(s, actions).clock <= hi
    ensures InRange(s, actions) && Window(ActAll(s, actions), lo, m)
    decreases |actions|
  {
    if actions == [] {
    } else {
      var a := actions[0];
      assert ActionWithin(a, m);
      ActAllClock(Act(s, a), actions[1..]);
      ActWindow(s, a, lo, hi, m);
      ActAllWindow(Act(s, a), actions[1..], lo, hi, m);
    }
  }

  // ---------- Whole histories ----------

  /** A history with intervals of at most `m` seconds that takes at most `horizon` seconds. */
  predicate Lasts(clock: int, actions: seq<Action>, m: Positive, horizon: nat) {
    Within(actions, m) && ActAll(Create(clock), actions).clock - clock <= horizon
  }

  /** Intervals and running time for which the conversion to int loses nothing. */
  predicate FitsInt(m: Positive, horizon: nat) {
    m < TWO_TO_31 && m + horizon <= TWO_TO_31 + 1
  }

  /** A history of bounded intervals and running time is in range. */
  lemma {:induction false} ShortIsInRange(clock: int, actions: seq<Action>, m: Positive, horizon: nat)
    requires Lasts(clock, actions, m, horizon) && FitsInt(m, horizon)
    ensures InRange(Create(clock), actions)
  {
    ActAllWindow(Create(clock), actions, clock + 1, clock + horizon, m);
  }

  /** Every history with these bounds starts its tasks in time and in order, and queues them in
      order, exactly if the bounds are not too large for an int. */
  lemma {:induction false} TimelyExactly(m: Positive, horizon: nat)
    ensures (forall clock, actions :: Lasts(clock, actions, m, horizon) ==> Timely(ActAll(Create(clock), actions)))
            <==> FitsInt(m, horizon)
  {
    if FitsInt(m, horizon) {
      forall clock, actions | Lasts(clock, actions, m, horizon) ensures Timely(ActAll(Create(clock), actions)) {
        ShortIsInRange(clock, actions, m, horizon);
        EveryTaskHasOneOwner(clock, []);
        ActAllTimely(Create(clock), actions);
      }
    } else if m >= TWO_TO_31 {
      var actions := LongIntervalStartsEarly();
    } else {
      var actions := LongRunMisplaces(m, TWO_TO_31 + 2 - m);
    }
  }

  const ADDED := AddInput(true, Reading(0, true), true, 0)

  lemma {:induction false} ActTwo(s: State, a: Action, b: Action)
    ensures ActAll(s, [a, b]) == Act(Act(s, a), b)
  {
    assert [a, b][1..] == [b] && [b][1..] == [];
    assert ActAll(Act(s, a), [b]) == ActAll(Act(Act(s, a), b), []);
  }

  lemma {:induction false} FirstAdded(m: Positive)
    ensures Act(Create(0), Api(Add(m, 0, ADDED))) == Create(0).(queue := [TaskRec(1, m, m, 0)], nextUid := 2)
  {
    var t := TaskRec(1, m, m, 0);
    assert Insert([], t, 0) == [t];
  }

  lemma {:induction false} RunsOnce(s: State, turn: Turn)
    requires s.queue != [] && !s.stop && !s.removeCur
    ensures Act(s, RunLoop([turn])) == Step(s, turn).0
  {
    var s' := Step(s, turn).0;
    assert EnterRun(s) == s && [turn][1..] == [];
    assert RunFrom(s', []).0 == s';
  }

  /** A task 2^31 seconds away is started at once. */
  lemma {:induction false} LongIntervalStartsEarly() returns (actions: seq<Action>)
    ensures Lasts(0, actions, TWO_TO_31, 0)
    ensures !TimelyStarts(ActAll(Create(0), actions).log) && !Timely(ActAll(Create(0), actions))
  {
    var a := Api(Add(TWO_TO_31, 0, ADDED));
    FirstAdded(TWO_TO_31);
    var r := RunEarly(Act(Create(0), a));
    actions := [a, r];
    ActTwo(Create(0), a, r);
  }

  lemma {:induction false} RunEarly(s: State) returns (r: Action)
    requires s == Create(0).(queue := [TaskRec(1, TWO_TO_31, TWO_TO_31, 0)], nextUid := 2)
    ensures r.RunLoop? && ActionWithin(r, TWO_TO_31) && Act(s, r).clock == 0
    ensures !TimelyStarts(Act(s, r).log) && !Timely(Act(s, r))
  {
    var turn := Turn(Reading(0, true), [], 0, [], Done, Reading(0, true), true, 0);
    r := RunLoop([turn]);
    RunsOnce(s, turn);
    var s' := Step(s, turn).0;
    assert s'.log[0].deadline > s'.log[0].at;
  }

  lemma {:induction false} OneAdded(m: Positive, q: TaskRec) returns (a: Action)
    requires q == TaskRec(1, 1, 1, 0)
    ensures ActionWithin(a, m) && Act(Create(0), a) == State([q], None, false, false, 0, 2, [], [], [])
  {
    a := Api(Add(1, 0, ADDED));
    FirstAdded(1);
  }

  lemma {:induction false} SecondAdded(s: State, m: Positive, wait: nat, q: TaskRec, t: TaskRec) returns (a: Action)
    requires m + wait == TWO_TO_31 + 2 && q == TaskRec(1, 1, 1, 0) && t == TaskRec(2, m, wait + m, 0)
    requires s == State([q], None, false, false, 0, 2, [], [], [])
    ensures ActionWithin(a, m) && Act(s, a) == State([t, q], None, false, false, wait, 3, [], [], [])
  {
    a := Api(Add(m, 0, AddInput(true, Reading(wait, true), true, 0)));
    assert PriorityFunc(q, t) > 0 && Insert([q], t, 0) == [t, q];
  }

  /** A task due more than 2^31 seconds after another is queued before it. */
  lemma {:induction false} LongRunMisplaces(m: Positive, wait: nat) returns (actions: seq<Action>)
    requires m + wait == TWO_TO_31 + 2 && m < TWO_TO_31
    ensures Lasts(0, actions, m, wait) && !Timely(ActAll(Create(0), actions))
  {
    var q, t := TaskRec(1, 1, 1, 0), TaskRec(2, m, wait + m, 0);
    var a := OneAdded(m, q);
    var s := State([q], None, false, false, 0, 2, [], [], []);
    var b := SecondAdded(s, m, wait, q, t);
    actions := [a, b];
    ActTwo(Create(0), a, b);
    Unsorted(Act(s, b), t, q);
  }

  lemma {:induction false} Unsorted(s: State, a: TaskRec, b: TaskRec)
    requires s.queue == [a, b] && a.deadline > b.deadline
    ensures !Timely(s)
  {
    assert s.queue[0].deadline > s.queue[1].deadline;
  }
}

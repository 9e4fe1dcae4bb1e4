/** For which intervals and running times the starts alone are timely: one second longer than for
    queue and starts together, because a task misplaced at the very end is not started any more. */
module SchedulerStarts {
  import opened SchedulerSpec
  import opened SchedulerOwnership
  import opened SchedulerOrder
  import opened SchedulerTiming
  import opened SchedulerRange

  /** Tasks due by `hi` are in order among themselves. */
  predicate SortedUpTo(q: seq<TaskRec>, hi: int) {
    forall i, j :: 0 <= i < j < |q| && q[i].deadline <= hi && q[j].deadline <= hi ==> q[i].deadline <= q[j].deadline
  }

  /** Until the clock is at `hi` the queue is in order; then, as far as it can still be started. */
  predicate Orderly(s: State, lo: int, hi: int, m: Positive) {
    Window(s, lo, m) && SortedUpTo(s.queue, hi) && (s.clock < hi ==> Sorted(s.queue))
  }

  /** Before `hi`, a window from `lo` is narrow enough. */
  predicate JustNarrows(lo: int, hi: int, m: Positive) {
    m < TWO_TO_31 && hi + m - lo <= TWO_TO_31 + 1
  }

  // ---------- Order ----------

  lemma {:induction false} InsertBeyond(q: seq<TaskRec>, t: TaskRec, tie: nat, hi: int)
    requires SortedUpTo(q, hi) && hi < t.deadline
    ensures SortedUpTo(Insert(q, t, tie), hi)
  {
    var k, r := Position(q, t, tie), Insert(q, t, tie);
    assert r[k] == t;
    assert forall i :: 0 <= i < k ==> r[i] == q[i];
    assert forall i :: k < i < |r| ==> r[i] == q[i - 1];
  }

  /** A task added at `now`, at most `hi`, keeps the queue orderly. */
  lemma {:induction false} InsertOrderly(s: State, s': State, lo: int, hi: int, m: Positive, t: TaskRec, tie: nat)
    requires Orderly(s, lo, hi, m) && JustNarrows(lo, hi, m) && s.clock <= s'.clock <= hi
    requires s'.clock < t.deadline <= s'.clock + m && s'.queue == Insert(s.queue, t, tie)
    ensures SortedUpTo(s'.queue, hi) && (s'.clock < hi ==> Sorted(s'.queue))
  {
    if s'.clock < hi {
      WindowPlaces(s, lo, hi - 1, m, s'.clock, t);
      InsertSorted(s.queue, t, tie);
    } else {
      InsertBeyond(s.queue, t, tie, hi);
    }
  }

  lemma {:induction false} CutOrderly(q: seq<TaskRec>, k: nat, hi: int)
    requires SortedUpTo(q, hi) && k < |q|
    ensures SortedUpTo(q[..k] + q[k + 1..], hi)
  {
    var r := q[..k] + q[k + 1..];
    assert forall i :: 0 <= i < |r| ==> r[i] == if i < k then q[i] else q[i + 1];
  }

  // ---------- Calls and passes ----------

  lemma {:induction false} AddOrderly(s: State, c: Call, lo: int, hi: int, m: Positive)
    requires Orderly(s, lo, hi, m) && JustNarrows(lo, hi, m) && c.Add? && CallWithin(c, m) && Perform(s, c).clock <= hi
    ensures Orderly(Perform(s, c), lo, hi, m)
  {
    CallKeepsWindow(s, c, lo, m);
    var s', t := Perform(s, c), AddedTask(s, c);
    if s'.queue != s.queue {
      assert s'.queue == Insert(s.queue, t, c.input.tie) && t.deadline == s'.clock + c.interval;
      InsertOrderly(s, s', lo, hi, m, t, c.input.tie);
    }
  }

  /** What is in order stays so without one of its tasks. */
  lemma {:induction false} WithoutOne(s: State, s': State, k: nat, lo: int, hi: int, m: Positive)
    requires Orderly(s, lo, hi, m) && k < |s.queue| && s'.queue == s.queue[..k] + s.queue[k + 1..]
    requires Window(s', lo, m) && s.clock <= s'.clock
    ensures Orderly(s', lo, hi, m)
  {
    CutOrderly(s.queue, k, hi);
    if s.clock < hi { CutSorted(s.queue, k); }
  }

  lemma {:induction false} RemoveOrderly(s: State, u: nat, lo: int, hi: int, m: Positive)
    requires Orderly(s, lo, hi, m)
    ensures Orderly(RemoveTask(s, u).0, lo, hi, m)
  {
    RemoveWindow(s, u, lo, m);
    var k := IndexOf(s.queue, u);
    if k < |s.queue| { WithoutOne(s, RemoveTask(s, u).0, k, lo, hi, m); }
  }

  lemma {:induction false} CallOrderly(s: State, c: Call, lo: int, hi: int, m: Positive)
    requires Orderly(s, lo, hi, m) && JustNarrows(lo, hi, m) && CallWithin(c, m) && Perform(s, c).clock <= hi
    ensures Orderly(Perform(s, c), lo, hi, m)
  {
    match c
    case Add(interval, op, i) => AddOrderly(s, c, lo, hi, m);
    case Remove(u) => RemoveOrderly(s, u, lo, hi, m);
    case Clear =>
    case Stop =>
  }

  /** What is kept from call to call and from pass to pass. */
  predicate Kept(s: State, lo: int, hi: int, m: Positive) {
    StartsTimely(s) && Orderly(s, lo, hi, m)
  }

  lemma {:induction false} CallsKept(s: State, cs: seq<Call>, lo: int, hi: int, m: Positive)
    requires Kept(s, lo, hi, m) && JustNarrows(lo, hi, m) && CallsWithin(cs, m) && PerformAll(s, cs).clock <= hi
    ensures Kept(PerformAll(s, cs), lo, hi, m)
    decreases |cs|
  {
    if cs == [] {
    } else {
      assert CallWithin(cs[0], m);
      PerformAllClock(Perform(s, cs[0]), cs[1..]);
      PerformStarts(s, cs[0]);
      CallOrderly(s, cs[0], lo, hi, m);
      CallsKept(Perform(s, cs[0]), cs[1..], lo, hi, m);
    }
  }

  lemma {:induction false} FinishKept(s: State, turn: Turn, lo: int, hi: int, m: Positive)
    requires Kept(s, lo, hi, m) && JustNarrows(lo, hi, m) && Finish(s, turn).0.clock <= hi
    ensures Kept(Finish(s, turn).0, lo, hi, m)
  {
    var s' := Finish(s, turn).0;
    FinishStarts(s, turn);
    FinishKeepsWindow(s, turn, lo, m);
    FinishAdvances(s, turn);
    FinishedQueue(s, turn);
    if s'.queue != s.queue {
      InsertOrderly(s, s', lo, hi, m, RequeuedTask(s, turn), turn.tie);
    }
  }

  /** A task that is started by `hi` is due by then, and so is due before all others. */
  lemma {:induction false} FirstByThen(s: State, head: Reading, overrun: nat, lo: int, hi: int, m: Positive)
    requires Orderly(s, lo, hi, m) && JustNarrows(lo, hi, m) && s.queue != [] && Begin(s, head, overrun).clock <= hi
    ensures s.queue[0].deadline - (s.clock + head.delay) < TWO_TO_31 && FirstIsDue(s.queue)
  {
    NarrowExact(s.queue[0].deadline - (s.clock + head.delay));
  }

  lemma {:induction false} BeginKept(s: State, head: Reading, overrun: nat, lo: int, hi: int, m: Positive)
    requires Owned(s) && Kept(s, lo, hi, m) && JustNarrows(lo, hi, m)
    requires s.queue != [] && Begin(s, head, overrun).clock <= hi
    ensures Kept(Begin(s, head, overrun), lo, hi, m)
  {
    var b := Begin(s, head, overrun);
    FirstByThen(s, head, overrun, lo, hi, m);
    BeginStarts(s, head, overrun);
    BeginKeepsWindow(s, head, overrun, lo, m);
    assert s.queue[..0] + s.queue[1..] == s.queue[1..] == b.queue;
    WithoutOne(s, b, 0, lo, hi, m);
  }

  lemma {:induction false} StepKept(s: State, turn: Turn, lo: int, hi: int, m: Positive)
    requires Owned(s) && Kept(s, lo, hi, m) && JustNarrows(lo, hi, m)
    requires CallsWithin(turn.calls, m) && Step(s, turn).0.clock <= hi
    ensures Kept(Step(s, turn).0, lo, hi, m)
  {
    if turn.head.ok && s.queue != [] {
      var b := Begin(s, turn.head, turn.overrun);
      var p := PerformAll(b, turn.calls);
      PerformAllClock(b, turn.calls);
      FinishAdvances(p, turn);
      BeginKept(s, turn.head, turn.overrun, lo, hi, m);
      CallsKept(b, turn.calls, lo, hi, m);
      FinishKept(p, turn, lo, hi, m);
    }
  }

  // ---------- Histories ----------

  lemma {:induction false} RunFromKept(s: State, script: seq<Turn>, lo: int, hi: int, m: Positive)
    requires Owned(s) && Kept(s, lo, hi, m) && JustNarrows(lo, hi, m)
    requires ScriptWithin(script, m) && RunFrom(s, script).0.clock <= hi
    ensures Kept(RunFrom(s, script).0, lo, hi, m)
    decreases |script|
  {
    if Empty(s) || s.stop || script == [] {
    } else {
      var (s1, o) := Step(s, script[0]);
      assert CallsWithin(script[0].calls, m);
      if o.Continue? { RunFromClock(s1, script[1..]); }
      StepKept(s, script[0], lo, hi, m);
      StepKeepsOwned(s, script[0]);
      if o.Continue? { RunFromKept(s1, script[1..], lo, hi, m); }
    }
  }

  lemma {:induction false} ActKept(s: State, a: Action, lo: int, hi: int, m: Positive)
    requires Owned(s) && Kept(s, lo, hi, m) && JustNarrows(lo, hi, m) && ActionWithin(a, m) && Act(s, a).clock <= hi
    ensures Kept(Act(s, a), lo, hi, m)
  {
    match a
    case Api(c) =>
      PerformStarts(s, c);
      CallOrderly(s, c, lo, hi, m);
    case RunLoop(script) =>
      EnterRunKeepsOwned(s);
      RunFromKept(EnterRun(s), script, lo, hi, m);
  }

  lemma {:induction false} ActAllKept(s: State, actions: seq<Action>, lo: int, hi: int, m: Positive)
    requires Owned(s) && Kept(s, lo, hi, m) && JustNarrows(lo, hi, m)
    requires Within(actions, m) && ActAll(s, actions).clock <= hi
    ensures Kept(ActAll(s, actions), lo, hi, m)
    decreases |actions|
  {
    if actions == [] {
    } else {
      var a := actions[0];
      assert ActionWithin(a, m);
      ActAllClock(Act(s, a), actions[1..]);
      ActKept(s, a, lo, hi, m);
      ActKeepsOwned(s, a);
      ActAllKept(Act(s, a), actions[1..], lo, hi, m);
    }
  }

  // ---------- The exact bounds ----------

  predicate JustFitsInt(m: Positive, horizon: nat) {
    m < TWO_TO_31 && m + horizon <= TWO_TO_31 + 2
  }

  /** A history within these bounds starts its tasks in time, in order, and an interval apart. */
  lemma {:induction false} ShortRunsAreTimely(clock: int, actions: seq<Action>, m: Positive, horizon: nat)
    requires Lasts(clock, actions, m, horizon) && JustFitsInt(m, horizon)
    ensures TimelyStarts(ActAll(Create(clock), actions).log)
  {
    EveryTaskHasOneOwner(clock, []);
    ActAllKept(Create(clock), actions, clock + 1, clock + horizon, m);
    LogIsTimely(ActAll(Create(clock), actions));
  }

  /** Every history with these bounds starts its tasks so exactly if the bounds are no larger. */
  lemma {:induction false} StartsTimelyExactly(m: Positive, horizon: nat)
    ensures (forall clock, actions ::
        Lasts(clock, actions, m, horizon) ==> TimelyStarts(ActAll(Create(clock), actions).log))
            <==> JustFitsInt(m, horizon)
  {
    if JustFitsInt(m, horizon) {
      forall clock, actions | Lasts(clock, actions, m, horizon)
        ensures TimelyStarts(ActAll(Create(clock), actions).log)
      {
        ShortRunsAreTimely(clock, actions, m, horizon);
      }
    } else if m >= TWO_TO_31 {
      var actions := LongIntervalStartsEarly();
    } else {
      var actions := LongRunStartsLate(m, TWO_TO_31 + 2 - m);
    }
  }

  // ---------- A start that is late ----------

  const ONCE := Turn(Reading(0, true), [], 0, [], Done, Reading(0, true), true, 0)

  lemma {:induction false} ActAllThen(s: State, a: Action, rest: seq<Action>)
    ensures ActAll(s, [a] + rest) == ActAll(Act(s, a), rest)
  {
    assert ([a] + rest)[1..] == rest;
  }

  /** With one task overdue by more than 2^31 against another, that goes to the front of the
      queue, a third one due in a second goes before it, and the second is removed. */
  lemma {:induction false} Overtaken(m: Positive, wait: nat) returns (actions: seq<Action>)
    requires m + wait == TWO_TO_31 + 2 && m < TWO_TO_31
    ensures Within(actions, m)
    ensures ActAll(Create(0), actions)
            == State([TaskRec(3, 1, wait + 1, 0), TaskRec(1, 1, 1, 0)], None, false, false, wait, 4, [2], [], [])
  {
    var q, t, r := TaskRec(1, 1, 1, 0), TaskRec(2, m, wait + m, 0), TaskRec(3, 1, wait + 1, 0);
    var a := OneAdded(m, q);
    var s1 := State([q], None, false, false, 0, 2, [], [], []);
    var b := SecondAdded(s1, m, wait, q, t);
    var s2 := State([t, q], None, false, false, wait, 3, [], [], []);
    var c := ThirdAdded(s2, m, wait, q, t, r);
    var s3 := State([r, t, q], None, false, false, wait, 4, [], [], []);
    var d := SecondRemoved(s3, m, q, t, r);
    actions := [a, b, c, d];
    ActFour(Create(0), a, s1, b, s2, c, s3, d);
  }

  /** Four actions, from their intermediate states. */
  lemma {:induction false} ActFour(
    s: State, a: Action, s1: State, b: Action, s2: State, c: Action, s3: State, d: Action)
    requires Act(s, a) == s1 && Act(s1, b) == s2 && Act(s2, c) == s3
    ensures ActAll(s, [a, b, c, d]) == Act(s3, d)
  {
    ActAllThen(s, a, [b, c, d]);
    ActThree(s1, b, c, d);
    assert [a] + [b, c, d] == [a, b, c, d];
  }

  lemma {:induction false} ThirdAdded(
    s: State, m: Positive, wait: nat, q: TaskRec, t: TaskRec, r: TaskRec) returns (a: Action)
    requires m < TWO_TO_31
    requires q == TaskRec(1, 1, 1, 0) && t == TaskRec(2, m, wait + m, 0) && r == TaskRec(3, 1, wait + 1, 0)
    requires s == State([t, q], None, false, false, wait, 3, [], [], [])
    ensures ActionWithin(a, m) && Act(s, a) == State([r, t, q], None, false, false, wait, 4, [], [], [])
  {
    a := Api(Add(1, 0, ADDED));
    assert PriorityFunc(t, r) == m - 1;
    assert Rank([t, q], r, false) == 0 && Position([t, q], r, 0) == 0;
    assert Insert([t, q], r, 0) == [r, t, q];
  }

  lemma {:induction false} SecondRemoved(s: State, m: Positive, q: TaskRec, t: TaskRec, r: TaskRec) returns (a: Action)
    requires s.queue == [r, t, q] && t.uid == 2 && r.uid == 3 && s.cur.None?
    ensures ActionWithin(a, m) && Act(s, a) == s.(queue := [r, q], destroyed := s.destroyed + [2])
  {
    a := Api(Remove(2));
    assert [r, t, q][1..] == [t, q];
    assert IndexOf([t, q], 2) == 0 && IndexOf(s.queue, 2) == 1;
    assert s.queue[..1] + s.queue[2..] == [r, q];
  }

  lemma {:induction false} RunsTwice(s: State, r: TaskRec, q: TaskRec)
    requires s.queue == [r, q] && s.cur.None? && !s.stop && !s.removeCur
    ensures Act(s, RunLoop([ONCE, ONCE])) == Step(Step(s, ONCE).0, ONCE).0
  {
    var s1 := Step(s, ONCE).0;
    assert [r, q][1..] == [q] && s1.queue == [q];
    assert EnterRun(s) == s && [ONCE, ONCE][1..] == [ONCE];
    RunsOnce(s1, ONCE);
    assert EnterRun(s1) == s1;
  }

  lemma {:induction false} StartedInTurn(s: State, wait: nat, r: TaskRec, q: TaskRec)
    requires 1 <= wait && q == TaskRec(1, 1, 1, 0) && r == TaskRec(3, 1, wait + 1, 0)
    requires s == State([r, q], None, false, false, wait, 4, [2], [], [])
    ensures var s' := Step(Step(s, ONCE).0, ONCE).0; s'.clock == wait + 1 && !TimelyStarts(s'.log)
  {
    var s1 := Step(s, ONCE).0;
    assert [r, q][1..] == [q];
    assert s1.queue == [q] && s1.clock == wait + 1 && s1.log == [Start(3, 1, wait + 1, wait + 1)];
    var s2 := Step(s1, ONCE).0;
    assert s2.log == s1.log + [Start(1, 1, 1, wait + 1)];
    assert s2.log[0].deadline > s2.log[1].deadline;
  }

  /** A task due at `wait` + 1 starts before one due at 1. */
  lemma {:induction false} LongRunStartsLate(m: Positive, wait: nat) returns (actions: seq<Action>)
    requires m + wait == TWO_TO_31 + 2 && m < TWO_TO_31
    ensures Lasts(0, actions, m, wait + 1) && !TimelyStarts(ActAll(Create(0), actions).log)
  {
    var before := Overtaken(m, wait);
    var s := ActAll(Create(0), before);
    var r := RunLoop([ONCE, ONCE]);
    actions := before + [r];
    RunsTwice(s, TaskRec(3, 1, wait + 1, 0), TaskRec(1, 1, 1, 0));
    StartedInTurn(s, wait, TaskRec(3, 1, wait + 1, 0), TaskRec(1, 1, 1, 0));
    ActAllLast(Create(0), before, r);
  }

  lemma {:induction false} ActAllLast(s: State, actions: seq<Action>, a: Action)
    ensures ActAll(s, actions + [a]) == Act(ActAll(s, actions), a)
    decreases |actions|
  {
    if actions == [] {
      assert [] + [a] == [a] && [a][1..] == [];
      assert ActAll(Act(s, a), []) == Act(s, a);
    } else {
      assert (actions + [a])[1..] == actions[1..] + [a];
      ActAllLast(Act(s, actions[0]), actions[1..], a);
    }
  }
}

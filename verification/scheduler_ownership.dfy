/** Ownership of task objects over whole histories. */
module SchedulerOwnership {
  import opened SchedulerSpec

  /** How many times `u` occurs in a ledger. */
  function Count(us: seq<nat>, u: nat): nat {
    if us == [] then 0 else (if us[0] == u then 1 else 0) + Count(us[1..], u)
  }

  /** How many pointers and ledger entries there are for the task with UID `u`. */
  function Holders(s: State, u: nat): nat {
    Count(Uids(s.queue), u) + Count(UidOf(s.cur), u) + Count(s.destroyed, u) + Count(s.lost, u)
  }

  function Once(b: bool): nat { if b then 1 else 0 }

  /** Every UID issued has exactly one holder, and nothing else has any. */
  ghost predicate Owned(s: State) {
    1 <= s.nextUid && forall u: nat :: Holders(s, u) == Once(1 <= u < s.nextUid)
  }

  lemma {:induction false} CountConcat(a: seq<nat>, b: seq<nat>, u: nat)
    ensures Count(a + b, u) == Count(a, u) + Count(b, u)
  {
    if a == [] {
      assert a + b == b;
    } else {
      assert (a + b)[1..] == a[1..] + b;
      CountConcat(a[1..], b, u);
    }
  }

  lemma {:induction false} CountOne(x: nat, u: nat)
    ensures Count([x], u) == Once(x == u)
  {
    assert [x][1..] == [];
  }

  lemma {:induction false} CountInsert(q: seq<TaskRec>, k: nat, t: TaskRec, u: nat)
    requires k <= |q|
    ensures Count(Uids(q[..k] + [t] + q[k..]), u) == Count(Uids(q), u) + Once(t.uid == u)
  {
    var a, b := Uids(q[..k]), Uids(q[k..]);
    assert Uids(q[..k] + [t] + q[k..]) == (a + [t.uid]) + b;
    assert Uids(q) == a + b;
    CountConcat(a + [t.uid], b, u);
    CountConcat(a, [t.uid], u);
    CountOne(t.uid, u);
    CountConcat(a, b, u);
  }

  lemma {:induction false} CountCut(q: seq<TaskRec>, k: nat, u: nat)
    requires k < |q|
    ensures Count(Uids(q), u) == Count(Uids(q[..k] + q[k + 1..]), u) + Once(q[k].uid == u)
  {
    var r := q[..k] + q[k + 1..];
    CountInsert(r, k, q[k], u);
    assert r[..k] + [q[k]] + r[k..] == q;
  }

  // ---------- Calls ----------

  lemma {:induction false} AddHolders(s: State, interval: Positive, op: nat, i: AddInput, u: nat)
    ensures Holders(AddTask(s, interval, op, i).0, u) == Holders(s, u) + Once(i.uidOk && u == s.nextUid)
  {
    if i.uidOk {
      var t := TaskRec(s.nextUid, interval, s.clock + i.reading.delay + interval, op);
      CountInsert(s.queue, Position(s.queue, t, i.tie), t, u);
      CountConcat(s.lost, [t.uid], u);
      CountConcat(s.destroyed, [t.uid], u);
    }
  }

  lemma {:induction false} RemoveHolders(s: State, v: nat, u: nat)
    ensures Holders(RemoveTask(s, v).0, u) == Holders(s, u)
  {
    var k := IndexOf(s.queue, v);
    if k < |s.queue| {
      CountCut(s.queue, k, u);
      CountConcat(s.destroyed, [v], u);
    }
  }

  lemma {:induction false} PerformKeepsOwned(s: State, c: Call)
    requires Owned(s)
    ensures Owned(Perform(s, c))
  {
    forall u: nat
      ensures Holders(Perform(s, c), u) == Once(1 <= u < Perform(s, c).nextUid)
    {
      assert Holders(s, u) == Once(1 <= u < s.nextUid);
      match c
      case Add(interval, op, i) => AddHolders(s, interval, op, i, u);
      case Remove(v) => RemoveHolders(s, v, u);
      case Clear => CountConcat(s.destroyed, Uids(s.queue), u);
      case Stop =>
    }
  }

  lemma {:induction false} PerformAllKeepsOwned(s: State, cs: seq<Call>)
    requires Owned(s)
    ensures Owned(PerformAll(s, cs))
    decreases |cs|
  {
    if cs == [] {
    } else {
      PerformKeepsOwned(s, cs[0]);
      PerformAllKeepsOwned(Perform(s, cs[0]), cs[1..]);
    }
  }

  // ---------- One pass through the loop ----------

  lemma {:induction false} BeginHolders(s: State, head: Reading, overrun: nat, u: nat)
    requires s.queue != []
    ensures Holders(Begin(s, head, overrun), u) == Holders(s, u)
  {
    CountCut(s.queue, 0, u);
    assert s.queue[..0] + s.queue[1..] == s.queue[1..];
    CountConcat(s.lost, UidOf(s.cur), u);
    CountOne(s.queue[0].uid, u);
  }

  lemma {:induction false} DestroyCurHolders(s: State, u: nat)
    ensures Holders(DestroyCur(s), u) == Holders(s, u)
  {
    CountConcat(s.destroyed, UidOf(s.cur), u);
  }

  lemma {:induction false} RequeueHolders(s: State, deadline: int, tie: nat, u: nat)
    requires s.cur.Some?
    ensures Holders(s.(queue := Insert(s.queue, s.cur.value.(deadline := deadline), tie), cur := None), u)
            == Holders(s, u)
  {
    var t := s.cur.value.(deadline := deadline);
    CountInsert(s.queue, Position(s.queue, t, tie), t, u);
    CountOne(t.uid, u);
  }

  /** What the loop does with a task that is not marked for removal. */
  lemma {:induction false} UnmarkedHolders(s: State, turn: Turn, u: nat)
    requires !s.removeCur
    ensures Holders(Finish(s, turn).0, u) == Holders(s, u)
  {
    DestroyCurHolders(s, u);
    if turn.result == Again && s.cur.Some? {
      var s2 := Read(s, turn.requeue);
      DestroyCurHolders(s2, u);
      RequeueHolders(s2, s2.clock + s.cur.value.interval, turn.tie, u);
    }
  }

  lemma {:induction false} FinishHolders(s: State, turn: Turn, u: nat)
    ensures Holders(Finish(s, turn).0, u) == Holders(s, u)
  {
    var s1 := if s.removeCur then DestroyCur(s).(removeCur := false) else s;
    DestroyCurHolders(s, u);
    UnmarkedHolders(s1, turn, u);
    assert Finish(s, turn) == Finish(s1, turn);
  }

  lemma {:induction false} StepKeepsOwned(s: State, turn: Turn)
    requires Owned(s)
    ensures Owned(Step(s, turn).0)
  {
    if turn.head.ok && s.queue != [] {
      var b := Begin(s, turn.head, turn.overrun);
      forall u: nat ensures Holders(b, u) == Holders(s, u) { BeginHolders(s, turn.head, turn.overrun, u); }
      PerformAllKeepsOwned(b, turn.calls);
      var p := PerformAll(b, turn.calls);
      forall u: nat ensures Holders(Finish(p, turn).0, u) == Holders(p, u) { FinishHolders(p, turn, u); }
    } else {
      forall u: nat ensures Holders(Step(s, turn).0, u) == Holders(s, u) { }
    }
  }

  lemma {:induction false} RunFromKeepsOwned(s: State, script: seq<Turn>)
    requires Owned(s)
    ensures Owned(RunFrom(s, script).0)
    decreases |script|
  {
    if Empty(s) || s.stop || script == [] {
    } else {
      StepKeepsOwned(s, script[0]);
      var (s1, o) := Step(s, script[0]);
      if o.Continue? { RunFromKeepsOwned(s1, script[1..]); }
    }
  }

  lemma {:induction false} EnterRunKeepsOwned(s: State)
    requires Owned(s)
    ensures Owned(EnterRun(s))
  {
    forall u: nat ensures Holders(EnterRun(s), u) == Holders(s, u) { }
  }

  // ---------- Whole histories ----------

  lemma {:induction false} ActKeepsOwned(s: State, a: Action)
    requires Owned(s)
    ensures Owned(Act(s, a))
  {
    match a
    case Api(c) => PerformKeepsOwned(s, c);
    case RunLoop(script) =>
      EnterRunKeepsOwned(s);
      RunFromKeepsOwned(EnterRun(s), script);
  }

  lemma {:induction false} ActAllKeepsOwned(s: State, actions: seq<Action>)
    requires Owned(s)
    ensures Owned(ActAll(s, actions))
    decreases |actions|
  {
    if actions == [] {
    } else {
      ActKeepsOwned(s, actions[0]);
      ActAllKeepsOwned(Act(s, actions[0]), actions[1..]);
    }
  }

  /** Over every history of a scheduler, each task ever created is in exactly one of: queued,
      running, destroyed (once), lost. Nothing else is in any of them. */
  lemma {:induction false} EveryTaskHasOneOwner(clock: int, actions: seq<Action>)
    ensures Owned(ActAll(Create(clock), actions))
  {
    forall u: nat ensures Holders(Create(clock), u) == 0 { }
    ActAllKeepsOwned(Create(clock), actions);
  }
}

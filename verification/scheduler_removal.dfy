/** A removed task is never started again. */
module SchedulerRemoval {
  import opened SchedulerSpec
  import opened SchedulerOwnership
  import opened SchedulerControl

  /** At a loop head or between runs: `u` was issued and is not queued. */
  predicate Out(s: State, u: nat) {
    1 <= u < s.nextUid && u !in Uids(s.queue)
  }

  /** While a task runs: as `Out`, and if `u` is running its removal is pending. */
  predicate Barred(s: State, u: nat) {
    Out(s, u) && (s.cur.Some? && s.cur.value.uid == u ==> s.removeCur)
  }

  /** The starts recorded between `s` and `s'` are not of `u`. */
  predicate NotStarted(s: State, s': State, u: nat) {
    |s.log| <= |s'.log| && s'.log[..|s.log|] == s.log &&
    forall i :: |s.log| <= i < |s'.log| ==> s'.log[i].uid != u
  }

  lemma {:induction false} NotStartedTrans(a: State, b: State, c: State, u: nat)
    requires NotStarted(a, b, u) && NotStarted(b, c, u)
    ensures NotStarted(a, c, u)
  {
    assert c.log[..|a.log|] == c.log[..|b.log|][..|a.log|];
    forall i | |a.log| <= i < |c.log| ensures c.log[i].uid != u {
      if i < |b.log| { assert c.log[i] == c.log[..|b.log|][i] == b.log[i]; }
    }
  }

  lemma {:induction false} UidsMember(q: seq<TaskRec>, u: nat)
    ensures u in Uids(q) <==> exists i :: 0 <= i < |q| && q[i].uid == u
  {
    if i :| 0 <= i < |q| && q[i].uid == u { assert Uids(q)[i] == u; }
  }

  lemma {:induction false} InsertKeepsOut(q: seq<TaskRec>, t: TaskRec, tie: nat, u: nat)
    requires u !in Uids(q) && t.uid != u
    ensures u !in Uids(Insert(q, t, tie))
  {
    UidsMember(q, u);
    UidsMember(Insert(q, t, tie), u);
  }

  lemma {:induction false} SubqueueKeepsOut(q: seq<TaskRec>, r: seq<TaskRec>, u: nat)
    requires u !in Uids(q) && forall t :: t in r ==> t in q
    ensures u !in Uids(r)
  {
    UidsMember(q, u);
    UidsMember(r, u);
    forall i | 0 <= i < |r| ensures r[i].uid != u { assert r[i] in q; }
  }

  lemma {:induction false} PerformKeepsOut(s: State, c: Call, u: nat)
    requires Out(s, u)
    ensures Out(Perform(s, c), u) && Perform(s, c).log == s.log
  {
    match c
    case Add(interval, op, i) =>
      var t := TaskRec(s.nextUid, interval, s.clock + i.reading.delay + interval, op);
      InsertKeepsOut(s.queue, t, i.tie, u);
    case Remove(v) =>
      SubqueueKeepsOut(s.queue, RemoveTask(s, v).0.queue, u);
    case Clear =>
    case Stop =>
  }

  lemma {:induction false} PerformKeepsBarred(s: State, c: Call, u: nat)
    requires Barred(s, u)
    ensures Barred(Perform(s, c), u) && Perform(s, c).log == s.log
  {
    PerformKeepsOut(s, c, u);
  }

  lemma {:induction false} PerformAllKeepsBarred(s: State, cs: seq<Call>, u: nat)
    requires Barred(s, u)
    ensures Barred(PerformAll(s, cs), u) && PerformAll(s, cs).log == s.log
    decreases |cs|
  {
    if cs == [] {
    } else {
      PerformKeepsBarred(s, cs[0], u);
      PerformAllKeepsBarred(Perform(s, cs[0]), cs[1..], u);
    }
  }

  lemma {:induction false} FinishBarred(s: State, turn: Turn, u: nat)
    requires Barred(s, u) && s.cur.Some?
    ensures Out(Finish(s, turn).0, u) && Finish(s, turn).0.log == s.log
  {
    if !s.removeCur {
      var now := s.clock + turn.requeue.delay;
      var t := s.cur.value.(deadline := now + s.cur.value.interval);
      InsertKeepsOut(s.queue, t, turn.tie, u);
    }
  }

  /** Once SchedulerRemoveTask(u) has succeeded - from inside a task, before any further calls
      of that task and whatever it returns, or between runs - `u` is out. */
  lemma {:induction false} RemovalTakesOut(s: State, u: nat, calls: seq<Call>, turn: Turn)
    requires Owned(s) && RemoveTask(s, u).1
    ensures var r := RemoveTask(s, u).0;
      && Barred(r, u) && r.log == s.log
      && PerformAll(r, calls).log == s.log
      && (s.cur.Some? ==> Out(Finish(PerformAll(r, calls), turn).0, u)
                          && Finish(PerformAll(r, calls), turn).0.log == s.log)
  {
    var r := RemoveTask(s, u).0;
    RemovalIsPrecise(s, u);
    CountIn(Uids(s.queue), u);
    assert Holders(s, u) == Once(1 <= u < s.nextUid);
    if u in Uids(s.queue) && s.cur.Some? { CurNotQueued(s, s.cur.value); }
    if s.cur.Some? && s.cur.value.uid == u { CurNotQueued(s, s.cur.value); }
    PerformAllKeepsBarred(r, calls, u);
    if s.cur.Some? {
      PerformKeepsOwned(s, Remove(u));
      PerformOnCur(s, Remove(u), s.cur.value);
      PerformAllOnCur(r, calls, s.cur.value);
      FinishBarred(PerformAll(r, calls), turn, u);
    }
  }

  lemma {:induction false} StepKeepsOut(s: State, turn: Turn, u: nat)
    requires Owned(s) && Out(s, u)
    ensures Out(Step(s, turn).0, u) && NotStarted(s, Step(s, turn).0, u)
  {
    if turn.head.ok && s.queue != [] {
      var b := Begin(s, turn.head, turn.overrun);
      BeginOwned(s, turn);
      SubqueueKeepsOut(s.queue, b.queue, u);
      UidsMember(s.queue, u);
      assert s.queue[0].uid != u;
      PerformAllKeepsBarred(b, turn.calls, u);
      PerformAllOnCur(b, turn.calls, s.queue[0]);
      FinishBarred(PerformAll(b, turn.calls), turn, u);
    }
  }

  lemma {:induction false} RunFromKeepsOut(s: State, script: seq<Turn>, u: nat)
    requires Owned(s) && Out(s, u)
    ensures Out(RunFrom(s, script).0, u) && NotStarted(s, RunFrom(s, script).0, u)
    decreases |script|
  {
    if Empty(s) || s.stop || script == [] {
    } else {
      StepKeepsOut(s, script[0], u);
      StepKeepsOwned(s, script[0]);
      var (s1, o) := Step(s, script[0]);
      if o.Continue? {
        RunFromKeepsOut(s1, script[1..], u);
        NotStartedTrans(s, s1, RunFrom(s, script).0, u);
      }
    }
  }

  /** A task that is out is never started again, whatever is done with the scheduler. */
  lemma {:induction false} OutIsForever(s: State, actions: seq<Action>, u: nat)
    requires Owned(s) && Out(s, u)
    ensures Out(ActAll(s, actions), u) && NotStarted(s, ActAll(s, actions), u)
    decreases |actions|
  {
    if actions == [] {
    } else {
      var a := actions[0];
      match a {
        case Api(c) => PerformKeepsOut(s, c, u);
        case RunLoop(script) =>
          EnterRunKeepsOwned(s);
          RunFromKeepsOut(EnterRun(s), script, u);
      }
      ActKeepsOwned(s, a);
      OutIsForever(Act(s, a), actions[1..], u);
      NotStartedTrans(s, Act(s, a), ActAll(s, actions), u);
    }
  }
}

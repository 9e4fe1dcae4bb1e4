/** When a run leaves a current task behind, when it aborts, and when a task is lost. */
module SchedulerControl {
  import opened SchedulerSpec
  import opened SchedulerOwnership

  /** The calls ask for the removal of the running task `u`. */
  predicate RemovesSelf(calls: seq<Call>, u: nat) {
    exists i :: 0 <= i < |calls| && (calls[i] == Clear || calls[i] == Remove(u))
  }

  lemma {:induction false} CountIn(us: seq<nat>, u: nat)
    ensures Count(us, u) > 0 <==> u in us
  {
    if us == [] {
    } else {
      CountIn(us[1..], u);
    }
  }

  lemma {:induction false} CountTwice(us: seq<nat>, i: nat, j: nat)
    requires i < j < |us| && us[i] == us[j]
    ensures Count(us, us[i]) >= 2
  {
    if i == 0 {
      assert us[1..][j - 1] == us[0];
      CountIn(us[1..], us[0]);
    } else {
      CountTwice(us[1..], i - 1, j - 1);
    }
  }

  /** UIDs of queued tasks are distinct and were issued. */
  lemma {:induction false} QueuedDistinct(s: State, i: nat, j: nat)
    requires Owned(s) && i < |s.queue| && j < |s.queue| && s.queue[i].uid == s.queue[j].uid
    ensures i == j && 1 <= s.queue[i].uid < s.nextUid
  {
    var us := Uids(s.queue);
    assert us[i] == us[j] == s.queue[i].uid;
    CountIn(us, us[i]);
    assert Holders(s, us[i]) == Once(1 <= us[i] < s.nextUid);
    if i < j { CountTwice(us, i, j); }
    if j < i { CountTwice(us, j, i); }
  }

  lemma {:induction false} CurNotQueued(s: State, t: TaskRec)
    requires Owned(s) && s.cur == Some(t)
    ensures t.uid !in Uids(s.queue) && 1 <= t.uid < s.nextUid
    ensures IndexOf(s.queue, t.uid) == |s.queue|
  {
    CountOne(t.uid, t.uid);
    assert Holders(s, t.uid) == Once(1 <= t.uid < s.nextUid);
    CountIn(Uids(s.queue), t.uid);
    forall i | 0 <= i < |s.queue| ensures s.queue[i].uid != t.uid {
      assert Uids(s.queue)[i] == s.queue[i].uid;
    }
  }

  lemma {:induction false} PerformOnCur(s: State, c: Call, t: TaskRec)
    requires Owned(s) && s.cur == Some(t)
    ensures Perform(s, c).cur == Some(t)
    ensures Perform(s, c).removeCur <==> s.removeCur || c == Clear || c == Remove(t.uid)
    ensures Perform(s, c).stop <==> s.stop || c == Stop
  {
    CurNotQueued(s, t);
    if c.Remove? && c.uid != t.uid { assert RemoveTask(s, c.uid).0.removeCur == s.removeCur; }
  }

  lemma {:induction false} PerformAllOnCur(s: State, cs: seq<Call>, t: TaskRec)
    requires Owned(s) && s.cur == Some(t)
    ensures PerformAll(s, cs).cur == Some(t)
    ensures PerformAll(s, cs).removeCur <==> s.removeCur || RemovesSelf(cs, t.uid)
    ensures PerformAll(s, cs).stop <==> s.stop || Stop in cs
    decreases |cs|
  {
    if cs == [] {
    } else {
      PerformOnCur(s, cs[0], t);
      PerformKeepsOwned(s, cs[0]);
      PerformAllOnCur(Perform(s, cs[0]), cs[1..], t);
      assert cs == [cs[0]] + cs[1..];
      assert RemovesSelf(cs, t.uid) <==> cs[0] == Clear || cs[0] == Remove(t.uid) || RemovesSelf(cs[1..], t.uid) by {
        if RemovesSelf(cs[1..], t.uid) {
          var i :| 0 <= i < |cs[1..]| && (cs[1..][i] == Clear || cs[1..][i] == Remove(t.uid));
          assert cs[i + 1] == cs[1..][i];
        }
        if RemovesSelf(cs, t.uid) && !(cs[0] == Clear || cs[0] == Remove(t.uid)) {
          var i :| 0 <= i < |cs| && (cs[i] == Clear || cs[i] == Remove(t.uid));
          assert cs[1..][i - 1] == cs[i];
        }
      }
    }
  }

  /** A loop head as the source means it: no current task, no pending removal. */
  predicate AtHead(s: State) {
    s.cur.None? && !s.removeCur
  }

  /** From a loop head with something to run, one pass
      - aborts exactly when the task removed itself and asked to run again;
      - leaves a current task behind exactly when the clock fails while requeueing;
      - otherwise is back at a loop head, or returns with no current task. */
  lemma {:induction false} StepFromHead(s: State, turn: Turn)
    requires Owned(s) && AtHead(s) && s.queue != []
    ensures var (s', o) := Step(s, turn);
      var self := RemovesSelf(turn.calls, s.queue[0].uid);
      && (o.Aborted? <==> turn.head.ok && turn.result.Again? && self)
      && (s'.cur.Some? <==> turn.head.ok && turn.result.Again? && !self && !turn.requeue.ok)
      && (s'.cur.Some? ==> o == Returned(SystemFail) && s'.cur.value == s.queue[0])
      && (!o.Aborted? ==> !s'.removeCur)
  {
    if turn.head.ok {
      var b := Begin(s, turn.head, turn.overrun);
      BeginOwned(s, turn);
      PerformAllOnCur(b, turn.calls, s.queue[0]);
    }
  }

  lemma {:induction false} BeginOwned(s: State, turn: Turn)
    requires Owned(s) && s.queue != []
    ensures Owned(Begin(s, turn.head, turn.overrun))
  {
    forall u: nat ensures Holders(Begin(s, turn.head, turn.overrun), u) == Holders(s, u) {
      BeginHolders(s, turn.head, turn.overrun, u);
    }
  }

  predicate RequeueFails(turn: Turn, u: nat) {
    turn.result.Again? && !RemovesSelf(turn.calls, u) && !(turn.requeue.ok && turn.enqueueOk)
  }

  /** Which status a pass returns, as a function of what happened in it. */
  lemma {:induction false} StepStatus(s: State, turn: Turn)
    requires Owned(s) && AtHead(s) && !s.stop && s.queue != []
    ensures var o := Step(s, turn).1;
      && (o == Returned(TaskFail) <==> turn.head.ok && turn.result.Fail?)
      && (o == Returned(SystemFail) <==> !turn.head.ok || RequeueFails(turn, s.queue[0].uid))
      && (o == Returned(Stopped) ==> Stop in turn.calls)
      && (o == Continue ==> Stop !in turn.calls)
      && o != Returned(Success)
  {
    if turn.head.ok {
      var b := Begin(s, turn.head, turn.overrun);
      BeginOwned(s, turn);
      PerformAllOnCur(b, turn.calls, s.queue[0]);
    }
  }

  /** A stop that is asked for is kept until it is obeyed, and a clock that fails at the head of the
      loop asks for one. */
  lemma {:induction false} StepStopFlag(s: State, turn: Turn)
    requires Owned(s) && AtHead(s) && !s.stop && s.queue != []
    ensures var (s', o) := Step(s, turn);
      s'.stop <==> !turn.head.ok || (Stop in turn.calls && o != Returned(Stopped))
  {
    if turn.head.ok {
      var b := Begin(s, turn.head, turn.overrun);
      BeginOwned(s, turn);
      PerformAllOnCur(b, turn.calls, s.queue[0]);
    }
  }

  /** Over a whole run: a current task is left behind only when the run returns a system
      failure, and an unaborted run never leaves a removal pending. */
  lemma {:induction false} RunLeavesNoCurrent(s: State, script: seq<Turn>)
    requires Owned(s) && AtHead(s)
    ensures var (s', o) := RunFrom(s, script);
      && (s'.cur.Some? ==> o == Returned(SystemFail))
      && (!o.Aborted? ==> !s'.removeCur)
    decreases |script|
  {
    if Empty(s) || s.stop || script == [] {
    } else {
      StepFromHead(s, script[0]);
      StepKeepsOwned(s, script[0]);
      var (s1, o) := Step(s, script[0]);
      if o.Continue? { RunLeavesNoCurrent(s1, script[1..]); }
    }
  }

  // ---------- Nothing is lost while the clock works ----------

  predicate ClockOk(c: Call) {
    c.Add? ==> c.input.reading.ok
  }

  predicate TurnClockOk(turn: Turn) {
    turn.requeue.ok && forall c :: c in turn.calls ==> ClockOk(c)
  }

  predicate ActionClockOk(a: Action) {
    match a
    case Api(c) => ClockOk(c)
    case RunLoop(script) => forall t :: t in script ==> TurnClockOk(t)
  }

  lemma {:induction false} PerformAllLosesNothing(s: State, cs: seq<Call>)
    requires forall c :: c in cs ==> ClockOk(c)
    ensures PerformAll(s, cs).lost == s.lost
    decreases |cs|
  {
    if cs == [] {
    } else {
      assert ClockOk(cs[0]);
      PerformAllLosesNothing(Perform(s, cs[0]), cs[1..]);
    }
  }

  lemma {:induction false} RunFromLosesNothing(s: State, script: seq<Turn>)
    requires Owned(s) && AtHead(s)
    requires forall t :: t in script ==> TurnClockOk(t)
    ensures RunFrom(s, script).0.lost == s.lost
    ensures !RunFrom(s, script).1.Aborted? ==> AtHead(RunFrom(s, script).0)
    decreases |script|
  {
    if Empty(s) || s.stop || script == [] {
    } else {
      var turn := script[0];
      assert TurnClockOk(turn);
      StepFromHead(s, turn);
      StepKeepsOwned(s, turn);
      if turn.head.ok { PerformAllLosesNothing(Begin(s, turn.head, turn.overrun), turn.calls); }
      var (s1, o) := Step(s, turn);
      assert s1.lost == s.lost;
      if o.Continue? { RunFromLosesNothing(s1, script[1..]); }
    }
  }

  /** No run in the history aborts. */
  predicate NoAbort(s: State, actions: seq<Action>)
    decreases |actions|
  {
    actions == [] ||
    ((actions[0].RunLoop? ==> !Run(s, actions[0].script).1.Aborted?) && NoAbort(Act(s, actions[0]), actions[1..]))
  }

  lemma {:induction false} NothingLostFrom(s: State, actions: seq<Action>)
    requires Owned(s) && AtHead(s) && NoAbort(s, actions)
    requires forall a :: a in actions ==> ActionClockOk(a)
    ensures ActAll(s, actions).lost == s.lost && AtHead(ActAll(s, actions))
    decreases |actions|
  {
    if actions == [] {
    } else {
      var a := actions[0];
      assert ActionClockOk(a);
      ActKeepsOwned(s, a);
      if a.RunLoop? {
        EnterRunKeepsOwned(s);
        RunFromLosesNothing(EnterRun(s), a.script);
      }
      NothingLostFrom(Act(s, a), actions[1..]);
    }
  }

  /** While the clock works and nothing aborts, every task ever created is queued or destroyed
      whenever no run is in progress, and never both, nor destroyed twice. */
  lemma {:induction false} QueuedOrDestroyed(clock: int, actions: seq<Action>, u: nat)
    requires NoAbort(Create(clock), actions)
    requires forall a :: a in actions ==> ActionClockOk(a)
    ensures var s := ActAll(Create(clock), actions);
      Count(Uids(s.queue), u) + Count(s.destroyed, u) == Once(1 <= u < s.nextUid)
  {
    EveryTaskHasOneOwner(clock, actions);
    EveryTaskHasOneOwner(clock, []);
    NothingLostFrom(Create(clock), actions);
    var s := ActAll(Create(clock), actions);
    assert Holders(s, u) == Once(1 <= u < s.nextUid);
  }

  // ---------- Removal ----------

  predicate TookOut(q: seq<TaskRec>, q': seq<TaskRec>, k: int, u: nat) {
    0 <= k < |q| && q[k].uid == u && q' == q[..k] + q[k + 1..]
  }

  /** A call that fails changes nothing; one that succeeds takes out exactly the task asked
      for, keeps the others in order, and frees it now or marks it to be freed. */
  lemma {:induction false} RemovalIsPrecise(s: State, u: nat)
    requires Owned(s)
    ensures var (s', ok) := RemoveTask(s, u);
      && (ok <==> u in Uids(s.queue) || (s.cur.Some? && s.cur.value.uid == u))
      && (!ok ==> s' == s)
      && (u in Uids(s.queue) ==> s'.destroyed == s.destroyed + [u] && exists k :: TookOut(s.queue, s'.queue, k, u))
      && u !in Uids(s'.queue)
      && (u !in Uids(s.queue) ==> s'.queue == s.queue && (ok ==> s'.removeCur))
  {
    var k := IndexOf(s.queue, u);
    if k < |s.queue| {
      assert Uids(s.queue)[k] == u;
      assert TookOut(s.queue, RemoveTask(s, u).0.queue, k, u);
      assert Holders(s, u) == Once(1 <= u < s.nextUid);
      CountCut(s.queue, k, u);
      CountIn(Uids(s.queue[..k] + s.queue[k + 1..]), u);
    }
  }
}

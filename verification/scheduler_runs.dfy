/** What a run does, pass by pass: when each task starts, how a repeated task drifts, how the run
    ends, and what an addition does. */
module SchedulerRuns {
  import opened SchedulerSpec
  import opened SchedulerOrder

  // ---------- Starts ----------

  /** The start of `t` by a pass whose reading is `now`: when it is due, or at once if it is late,
      and as much later as the sleep overruns. */
  function StartOf(t: TaskRec, now: int, overrun: nat): Start {
    Start(t.uid, t.interval, t.deadline, (if t.deadline > now then t.deadline else now) + overrun)
  }

  lemma {:induction false} StartsWhenDue(s: State, head: Reading, overrun: nat)
    requires s.queue != [] && s.queue[0].deadline - (s.clock + head.delay) < TWO_TO_31
    ensures var b, e := Begin(s, head, overrun), StartOf(s.queue[0], s.clock + head.delay, overrun);
      b.log == s.log + [e] && b.clock == e.at
  {
    SleepLength(s.queue[0].deadline, s.clock + head.delay);
  }

  lemma {:induction false} CallsKeepLog(s: State, cs: seq<Call>)
    ensures PerformAll(s, cs).log == s.log
    decreases |cs|
  {
    if cs == [] {
    } else {
      CallsKeepLog(Perform(s, cs[0]), cs[1..]);
    }
  }

  lemma {:induction false} FinishKeepsLog(s: State, turn: Turn)
    ensures Finish(s, turn).0.log == s.log
  {
  }

  /** A pass starts the first task of the queue and no other, exactly when it is due. */
  lemma {:induction false} PassStartsWhenDue(s: State, turn: Turn)
    requires turn.head.ok && s.queue != [] && s.queue[0].deadline - (s.clock + turn.head.delay) < TWO_TO_31
    ensures Step(s, turn).0.log == s.log + [StartOf(s.queue[0], s.clock + turn.head.delay, turn.overrun)]
  {
    var b := Begin(s, turn.head, turn.overrun);
    StartsWhenDue(s, turn.head, turn.overrun);
    CallsKeepLog(b, turn.calls);
    FinishKeepsLog(PerformAll(b, turn.calls), turn);
  }

  // ---------- A repeated task drifts ----------

  /** The pass repeats its task, which makes no calls; its reading comes before the task is due. */
  predicate Repeats(turn: Turn, interval: Positive) {
    && turn.head.ok && turn.requeue.ok && turn.enqueueOk && turn.result.Again? && turn.calls == []
    && turn.head.delay <= interval
  }

  /** What the passes take besides waiting: overrun sleeps, and the running of the task. */
  function Busy(script: seq<Turn>): nat {
    if script == [] then 0 else script[0].overrun + script[0].requeue.delay + Busy(script[1..])
  }

  lemma {:induction false} BusyNext(script: seq<Turn>, k: nat)
    requires k < |script|
    ensures Busy(script[..k + 1]) == script[0].overrun + script[0].requeue.delay + Busy(script[1..][..k])
  {
    assert script[..k + 1][1..] == script[1..][..k];
  }

  lemma {:induction false} RepeatedPass(s: State, t: TaskRec, turn: Turn)
    requires s.queue == [t] && s.cur.None? && !s.removeCur && !s.stop && Repeats(turn, t.interval)
    requires s.clock + turn.head.delay <= t.deadline && t.deadline - (s.clock + turn.head.delay) < TWO_TO_31
    ensures var (s', o) := Step(s, turn);
      && o == Continue && s'.cur.None? && !s'.removeCur && !s'.stop
      && s'.clock == t.deadline + turn.overrun + turn.requeue.delay
      && s'.queue == [t.(deadline := s'.clock + t.interval)]
      && s'.log == s.log + [Start(t.uid, t.interval, t.deadline, t.deadline + turn.overrun)]
  {
    StartsWhenDue(s, turn.head, turn.overrun);
    var b := Begin(s, turn.head, turn.overrun);
    assert b.queue == [] && PerformAll(b, turn.calls) == b;
  }

  /** The k-th start after those of `log0` is k intervals after the deadline, and later by all that
      the passes before it have taken. */
  predicate Drifted(t: TaskRec, script: seq<Turn>, k: nat, log0: seq<Start>, log: seq<Start>) {
    && k < |script| && |log| == |log0| + |script| && log[..|log0|] == log0
    && log[|log0| + k].uid == t.uid
    && log[|log0| + k].at == t.deadline + k * t.interval + Busy(script[..k]) + script[k].overrun
  }

  /** The state after a pass, from which the run goes on. */
  lemma {:induction false} NextRound(s: State, t: TaskRec, script: seq<Turn>) returns (s1: State)
    requires s.queue == [t] && s.cur.None? && !s.removeCur && !s.stop && script != []
    requires Repeats(script[0], t.interval)
    requires s.clock + script[0].head.delay <= t.deadline
    requires t.deadline - (s.clock + script[0].head.delay) < TWO_TO_31
    ensures RunFrom(s, script) == RunFrom(s1, script[1..])
    ensures s1.cur.None? && !s1.removeCur && !s1.stop
    ensures s1.clock == t.deadline + script[0].overrun + script[0].requeue.delay
    ensures s1.queue == [t.(deadline := s1.clock + t.interval)]
    ensures s1.log == s.log + [Start(t.uid, t.interval, t.deadline, t.deadline + script[0].overrun)]
  {
    RepeatedPass(s, t, script[0]);
    s1 := Step(s, script[0]).0;
  }

  /** A task alone in its scheduler, whose every pass is back before it is due: its k-th start is k
      intervals after its deadline, and later by all that its runs and overrun sleeps have taken. */
  lemma {:induction false} RepeatedTaskDrifts(s: State, t: TaskRec, script: seq<Turn>, k: nat)
    requires s.queue == [t] && s.cur.None? && !s.removeCur && !s.stop && k < |script|
    requires s.clock <= t.deadline && t.deadline <= s.clock + t.interval && t.interval < TWO_TO_31
    requires s.clock + script[0].head.delay <= t.deadline
    requires forall i :: 0 <= i < |script| ==> Repeats(script[i], t.interval)
    ensures Drifted(t, script, k, s.log, RunFrom(s, script).0.log)
    decreases |script|
  {
    var s1 := NextRound(s, t, script);
    var t1, rest := t.(deadline := s1.clock + t.interval), script[1..];
    if rest == [] {
      RunStops(s1);
    } else {
      assert rest[0] == script[1];
      RepeatedTaskDrifts(s1, t1, rest, if k == 0 then 0 else k - 1);
      DriftsOn(t, t1, script, k, s.log, s1.log, RunFrom(s1, rest).0.log);
    }
  }

  lemma {:induction false} DriftsOn(
    t: TaskRec, t1: TaskRec, script: seq<Turn>, k: nat, log0: seq<Start>, log1: seq<Start>, log: seq<Start>)
    requires 1 < |script| && k < |script|
    requires t1 == t.(deadline := t.deadline + script[0].overrun + script[0].requeue.delay + t.interval)
    requires log1 == log0 + [Start(t.uid, t.interval, t.deadline, t.deadline + script[0].overrun)]
    requires Drifted(t1, script[1..], if k == 0 then 0 else k - 1, log1, log)
    ensures Drifted(t, script, k, log0, log)
  {
    Prefix(log, log1, log0);
    if k > 0 { DriftSums(t, t1.deadline, script, k); }
  }

  lemma {:induction false} RunStops(s: State)
    ensures RunFrom(s, []).0 == s
  {
  }

  lemma {:induction false} DriftSums(t: TaskRec, due: int, script: seq<Turn>, k: nat)
    requires 0 < k < |script| && due == t.deadline + script[0].overrun + script[0].requeue.delay + t.interval
    ensures due + (k - 1) * t.interval + Busy(script[1..][..k - 1]) == t.deadline + k * t.interval + Busy(script[..k])
  {
    BusyNext(script, k - 1);
    assert (k - 1) * t.interval + t.interval == k * t.interval;
  }

  lemma {:induction false} Prefix(log: seq<Start>, log1: seq<Start>, log0: seq<Start>)
    requires |log0| < |log1| <= |log| && log[..|log1|] == log1 && log1[..|log0|] == log0
    ensures log[..|log0|] == log0 && log[|log0|] == log1[|log0|]
  {
    assert log[..|log0|] == log[..|log1|][..|log0|];
    assert log[..|log1|][|log0|] == log[|log0|];
  }

  // ---------- Runs ----------

  /** The loop goes on: there is a task, queued or current, and no stop is asked for. */
  predicate GoesOn(s: State) {
    (s.queue != [] || s.cur.Some?) && !s.stop
  }

  /** A run is its passes: `ps` are the states at the heads of its loop. It ends in success at the
      first head with nothing to run, or by the first pass that does not continue. */
  lemma {:induction false} RunIsItsPasses(s: State, script: seq<Turn>) returns (ps: seq<State>)
    ensures 1 <= |ps| <= |script| + 1 && ps[0] == s
    ensures forall k :: 0 <= k < |ps| - 1 ==> GoesOn(ps[k]) && Step(ps[k], script[k]) == (ps[k + 1], Continue)
    ensures var n, last := |ps| - 1, ps[|ps| - 1];
      if !GoesOn(last) then RunFrom(s, script) == (last, Returned(Success))
      else if n == |script| then RunFrom(s, script) == (last, Continue)
      else RunFrom(s, script) == Step(last, script[n]) && RunFrom(s, script).1 != Continue
    decreases |script|
  {
    ps := [s];
    if GoesOn(s) && script != [] {
      var (s1, o) := Step(s, script[0]);
      if o == Continue {
        var rest := RunIsItsPasses(s1, script[1..]);
        ps := [s] + rest;
      }
    }
  }

  // ---------- Additions ----------

  /** An addition succeeds exactly if UID, clock and memory do; then exactly the new task, due an
      interval after the reading, is put into the queue, and nothing leaves it. */
  lemma {:induction false} AddedExactly(s: State, interval: Positive, op: nat, i: AddInput)
    requires 1 <= s.nextUid
    ensures var (s', uid) := AddTask(s, interval, op, i);
      var t := TaskRec(s.nextUid, interval, s.clock + i.reading.delay + interval, op);
      && (uid != BAD_UID <==> i.uidOk && i.reading.ok && i.enqueueOk)
      && (uid != BAD_UID ==> uid == s.nextUid && exists k :: Puts(s.queue, s'.queue, k, t))
      && (uid == BAD_UID ==> s'.queue == s.queue)
      && s'.cur == s.cur && s'.removeCur == s.removeCur && s'.stop == s.stop && s'.log == s.log
  {
    var t := TaskRec(s.nextUid, interval, s.clock + i.reading.delay + interval, op);
    var (s', uid) := AddTask(s, interval, op, i);
    if uid != BAD_UID { assert Puts(s.queue, s'.queue, Position(s.queue, t, i.tie), t); }
  }

  predicate Puts(q: seq<TaskRec>, q': seq<TaskRec>, k: int, t: TaskRec) {
    0 <= k <= |q| && q' == q[..k] + [t] + q[k..]
  }
}

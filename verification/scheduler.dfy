/** The scheduler, its priority queue and its tasks as objects updated in place, proved
    against SchedulerSpec. */
module Scheduling {
  import opened SchedulerSpec

  class Task {
    const uid: nat
    const interval: Positive
    const op: nat
    var deadline: int

    constructor (uid: nat, interval: Positive, op: nat, now: int)
      ensures Rec() == TaskRec(uid, interval, now + interval, op)
    {
      this.uid, this.interval, this.op := uid, interval, op;
      deadline := now + interval;
    }

    function Rec(): TaskRec
      reads this
    {
      TaskRec(uid, interval, deadline, op)
    }

    method UpdateExecuteTime(now: int)
      modifies this
      ensures Rec() == old(Rec()).(deadline := now + interval)
    {
      deadline := now + interval;
    }
  }

  function Recs(ts: seq<Task>): (rs: seq<TaskRec>)
    reads ts
    ensures |rs| == |ts| && forall i :: 0 <= i < |ts| ==> rs[i] == ts[i].Rec()
  {
    seq(|ts|, i requires 0 <= i < |ts| reads ts => ts[i].Rec())
  }

  ghost predicate Distinct(ts: seq<Task>) {
    forall i, j :: 0 <= i < j < |ts| ==> ts[i] != ts[j]
  }

  /** The ordered list under the scheduler. */
  class PQueue {
    var items: seq<Task>

    constructor ()
      ensures items == []
    {
      items := [];
    }

    method Enqueue(t: Task, ok: bool, tie: nat)
      requires Distinct(items) && t !in items
      modifies this
      ensures Distinct(items)
      ensures forall x :: x in items <==> x in old(items) || (ok && x == t)
      ensures Recs(items) == if ok then Insert(old(Recs(items)), t.Rec(), tie) else old(Recs(items))
    {
      if ok {
        ghost var q := Recs(items);
        var k := Position(Recs(items), t.Rec(), tie);
        items := items[..k] + [t] + items[k..];
        assert Recs(items) == q[..k] + [t.Rec()] + q[k..] == Insert(q, t.Rec(), tie);
      }
    }

    method Dequeue() returns (t: Task)
      requires Distinct(items) && items != []
      modifies this
      ensures Distinct(items) && t !in items
      ensures t == old(items)[0] && items == old(items)[1..]
    {
      t := items[0];
      items := items[1..];
    }

    /** Take out the first task with UID `u`. */
    method Erase(u: nat) returns (t: Task?)
      requires Distinct(items)
      modifies this
      ensures Distinct(items) && forall x :: x in items ==> x in old(items)
      ensures var q, k := old(Recs(items)), IndexOf(old(Recs(items)), u);
        if k < |q|
        then t == old(items)[k] && t.uid == u && Recs(items) == q[..k] + q[k + 1..]
        else t == null && items == old(items)
    {
      ghost var q := Recs(items);
      var k := IndexOf(Recs(items), u);
      if k < |items| {
        t := items[k];
        items := items[..k] + items[k + 1..];
        assert Recs(items) == q[..k] + q[k + 1..];
      } else {
        t := null;
      }
    }
  }

  class Scheduler {
    const pq: PQueue
    var cur: Task?
    var removeCur: bool
    var stop: bool
    // The clock and the UID counter are the environment's.
    var clock: int
    var nextUid: nat
    // What has become of tasks, and which were started.
    ghost var destroyed: seq<nat>
    ghost var lost: seq<nat>
    ghost var log: seq<Start>

    ghost predicate Valid()
      reads this, pq
    {
      Distinct(pq.items) && (cur != null ==> cur !in pq.items)
    }

    ghost function View(): State
      reads this, pq, pq.items, cur
    {
      State(Recs(pq.items), if cur == null then None else Some(cur.Rec()), removeCur, stop,
            clock, nextUid, destroyed, lost, log)
    }

    constructor (clock: int)
      ensures Valid() && fresh(pq) && pq.items == [] && cur == null
      ensures View() == Create(clock)
    {
      pq := new PQueue();
      cur, removeCur, stop := null, false, false;
      this.clock, nextUid := clock, 1;
      destroyed, lost, log := [], [], [];
    }

    /** time(NULL) */
    method ReadClock(r: Reading) returns (ok: bool)
      modifies this`clock
      ensures clock == old(clock) + r.delay && ok == r.ok
    {
      clock := clock + r.delay;
      ok := r.ok;
    }

    /** TaskCreate. The task of a failed clock reading is not freed. */
    method CreateTask(interval: Positive, op: nat, input: AddInput) returns (t: Task?)
      modifies this`clock, this`nextUid, this`lost
      ensures t != null <==> input.uidOk && input.reading.ok
      ensures t != null ==> fresh(t) && t.Rec() == TaskRec(old(nextUid), interval, clock + interval, op)
      ensures nextUid == old(nextUid) + (if input.uidOk then 1 else 0)
      ensures clock == old(clock) + (if input.uidOk then input.reading.delay else 0)
      ensures lost == if input.uidOk && !input.reading.ok then old(lost) + [old(nextUid)] else old(lost)
    {
      t := null;
      if input.uidOk {
        var uid := nextUid;
        nextUid := nextUid + 1;
        var ok := ReadClock(input.reading);
        if ok {
          t := new Task(uid, interval, op, clock);
        } else {
          lost := lost + [uid];
        }
      }
    }

    method AddTask(interval: Positive, op: nat, input: AddInput) returns (uid: nat)
      requires Valid()
      modifies this, pq
      ensures Valid() && cur == old(cur) && (forall t :: t in pq.items ==> t in old(pq.items) || fresh(t))
      ensures (View(), uid) == SchedulerSpec.AddTask(old(View()), interval, op, input)
    {
      var t := CreateTask(interval, op, input);
      assert Recs(pq.items) == old(Recs(pq.items));
      if t == null {
        uid := BAD_UID;
      } else {
        uid := Submit(t, input.enqueueOk, input.tie);
      }
    }

    method Submit(t: Task, ok: bool, tie: nat) returns (uid: nat)
      requires Valid() && t !in pq.items && t != cur
      modifies this`destroyed, pq
      ensures Valid() && (forall x :: x in pq.items ==> x in old(pq.items) || x == t)
      ensures uid == if ok then t.uid else BAD_UID
      ensures View() == if ok then old(View()).(queue := Insert(old(View()).queue, t.Rec(), tie))
                              else old(View()).(destroyed := old(destroyed) + [t.uid])
    {
      pq.Enqueue(t, ok, tie);
      if ok {
        uid := t.uid;
      } else {
        destroyed := destroyed + [t.uid];
        uid := BAD_UID;
      }
    }

    /** The part of RemoveTask for a queued task. */
    method RemoveQueued(u: nat) returns (ok: bool)
      requires Valid()
      modifies this`destroyed, pq
      ensures Valid() && (forall t :: t in pq.items ==> t in old(pq.items))
      ensures var v := old(View()); var k := IndexOf(v.queue, u);
        && (ok <==> k < |v.queue|)
        && View() == if ok then v.(queue := v.queue[..k] + v.queue[k + 1..], destroyed := v.destroyed + [u]) else v
    {
      ghost var q, k := Recs(pq.items), IndexOf(Recs(pq.items), u);
      var removed := pq.Erase(u);
      if removed == null {
        return false;
      }
      assert Recs(pq.items) == q[..k] + q[k + 1..];
      destroyed := destroyed + [removed.uid];
      ok := true;
    }

    /** The part of RemoveTask for the current task, which is only marked. */
    method MarkCurrent(u: nat) returns (ok: bool)
      requires Valid()
      modifies this`removeCur
      ensures ok <==> cur != null && cur.uid == u
      ensures View() == if ok then old(View()).(removeCur := true) else old(View())
    {
      ok := false;
      if cur != null && cur.uid == u {
        removeCur := true;
        ok := true;
      }
    }

    method RemoveTask(u: nat) returns (ok: bool)
      requires Valid()
      modifies this, pq
      ensures Valid() && cur == old(cur) && (forall t :: t in pq.items ==> t in old(pq.items))
      ensures (View(), ok) == SchedulerSpec.RemoveTask(old(View()), u)
    {
      ok := RemoveQueued(u);
      if !ok {
        ok := MarkCurrent(u);
      }
    }

    method Clear()
      requires Valid()
      modifies this`destroyed, this`removeCur, pq
      ensures Valid() && cur == old(cur) && (forall t :: t in pq.items ==> t in old(pq.items))
      ensures View() == ClearAll(old(View()))
    {
      DestroyQueued();
      if cur != null {
        removeCur := true;
      }
    }

    /** The loop of SchedulerClear. */
    method DestroyQueued()
      requires Valid()
      modifies this`destroyed, pq
      ensures Valid() && pq.items == [] && destroyed == old(destroyed + Uids(Recs(pq.items)))
    {
      ghost var all := destroyed + Uids(Recs(pq.items));
      while pq.items != []
        invariant Distinct(pq.items) && (cur != null ==> cur !in pq.items)
        invariant destroyed + Uids(Recs(pq.items)) == all
        decreases |pq.items|
      {
        ghost var done, us := destroyed, Uids(Recs(pq.items));
        var t := pq.Dequeue();
        destroyed := destroyed + [t.uid];
        assert Uids(Recs(pq.items)) == us[1..];
        Shift(done, us);
      }
      assert destroyed + Uids(Recs(pq.items)) == destroyed;
    }

    static lemma {:induction false} Shift(done: seq<nat>, us: seq<nat>)
      requires us != []
      ensures done + us == done + [us[0]] + us[1..]
    {
    }

    method Stop()
      modifies this`stop
      ensures stop
    {
      stop := true;
    }

    method IsEmpty() returns (empty: bool)
      ensures empty == Empty(View())
    {
      empty := pq.items == [] && cur == null;
    }

    /** TaskExecute, for a task that makes the given calls. */
    method Execute(calls: seq<Call>)
      requires Valid()
      modifies this, pq
      ensures Valid() && cur == old(cur) && (forall t :: t in pq.items ==> t in old(pq.items) || fresh(t))
      ensures View() == PerformAll(old(View()), calls)
    {
      for i := 0 to |calls|
        invariant Valid() && cur == old(cur) && (forall t :: t in pq.items ==> t in old(pq.items) || fresh(t))
        invariant PerformAll(View(), calls[i..]) == PerformAll(old(View()), calls)
      {
        ghost var v := View();
        match calls[i] {
          case Add(interval, op, input) => var _ := AddTask(interval, op, input);
          case Remove(u) => var _ := RemoveTask(u);
          case Clear => Clear();
          case Stop => Stop();
        }
        assert View() == Perform(v, calls[i]);
        assert calls[i..][1..] == calls[i + 1..];
      }
      assert calls[|calls|..] == [];
    }

    /** HandleExecTimeAndSleep: sleep again for as long as a sleep was interrupted. */
    method SleepUntilDue(deadline: int, now: int, naps: seq<nat>)
      modifies this`clock
      ensures clock == old(clock) + SleepTime(deadline, now)
      ensures 0 <= deadline - now < TWO_TO_31 ==> clock == old(clock) + (deadline - now)
      ensures deadline <= now ==> clock == old(clock)
    {
      var left := Narrow(deadline - now);
      if deadline > now {
        var i := 0;
        while 0 < left
          invariant 0 <= i <= |naps|
          invariant left <= 0 ==> clock == old(clock) + SleepTime(deadline, now)
          invariant 0 < left ==> clock + left == old(clock) + SleepTime(deadline, now)
          decreases |naps| - i, left
        {
          var remaining := if i < |naps| then (if naps[i] <= left then naps[i] else left) else 0;
          clock := clock + left - remaining;
          left := remaining;
          i := if i < |naps| then i + 1 else i;
        }
      }
    }

    /** TaskDestroy of the current task, which may be none. */
    method DestroyCurrent()
      requires Valid()
      modifies this`cur, this`destroyed
      ensures Valid() && View() == DestroyCur(old(View()))
    {
      if cur != null {
        destroyed := destroyed + [cur.uid];
      }
      cur := null;
    }

    /** PQDequeue into `cur`, overwriting what is there. */
    method TakeFirst()
      requires Valid() && pq.items != []
      modifies this`cur, this`lost, pq
      ensures Valid() && cur == old(pq.items)[0] && pq.items == old(pq.items)[1..]
      ensures var v := old(View());
        View() == v.(queue := v.queue[1..], cur := Some(v.queue[0]), lost := v.lost + UidOf(v.cur))
    {
      ghost var q := Recs(pq.items);
      lost := lost + UidOf(if cur == null then None else Some(cur.Rec()));
      cur := pq.Dequeue();
      assert Recs(pq.items) == q[1..];
    }

    method StartCurrent(naps: seq<nat>, overrun: nat)
      requires cur != null
      modifies this`clock, this`log
      ensures clock == old(clock) + SleepTime(cur.deadline, old(clock)) + overrun
      ensures cur.deadline - old(clock) < TWO_TO_31 ==>
        clock == (if cur.deadline > old(clock) then cur.deadline else old(clock)) + overrun
      ensures log == old(log) + [Start(cur.uid, cur.interval, cur.deadline, clock)]
    {
      SleepUntilDue(cur.deadline, clock, naps);
      clock := clock + overrun;
      log := log + [Start(cur.uid, cur.interval, cur.deadline, clock)];
    }

    /** The head of a pass: dequeue, overwriting `cur`, sleep, and start the task. */
    method BeginTurn(head: Reading, naps: seq<nat>, overrun: nat)
      requires Valid() && pq.items != [] && head.ok
      modifies this, pq
      ensures Valid() && cur == old(pq.items)[0] && pq.items == old(pq.items)[1..]
      ensures View() == Begin(old(View()), head, overrun)
      ensures log == old(log) + [Start(cur.uid, cur.interval, cur.deadline, clock)]
      ensures var now := old(clock) + head.delay;
        cur.deadline - now < TWO_TO_31 ==> clock == (if cur.deadline > now then cur.deadline else now) + overrun
    {
      var ok := ReadClock(head);
      TakeFirst();
      StartCurrent(naps, overrun);
    }

    /** The current task becomes due at an interval from now. */
    method Postpone()
      requires Valid() && cur != null
      modifies cur
      ensures var v := old(View()); View() == v.(cur := Some(v.cur.value.(deadline := v.clock + v.cur.value.interval)))
    {
      cur.UpdateExecuteTime(clock);
      assert Recs(pq.items) == old(Recs(pq.items));
    }

    /** The current task goes back to the queue. */
    method PutBack(ok: bool, tie: nat)
      requires Valid() && cur != null
      modifies this`cur, pq
      ensures Valid() && (forall t :: t in pq.items ==> t in old(pq.items) || t == old(cur))
      ensures cur == if ok then null else old(cur)
      ensures var v := old(View());
        View() == if ok then v.(queue := Insert(v.queue, v.cur.value, tie), cur := None) else v
    {
      ghost var q, t := Recs(pq.items), cur.Rec();
      pq.Enqueue(cur, ok, tie);
      assert Recs(pq.items) == if ok then Insert(q, t, tie) else q;
      if ok {
        cur := null;
      }
    }

    /** Requeue the current task, at an interval from now. */
    method Requeue(turn: Turn) returns (o: Outcome)
      requires Valid() && cur != null && !removeCur
      modifies this, pq, cur
      ensures Valid() && (cur == null || cur == old(cur))
      ensures forall t :: t in pq.items ==> t in old(pq.items) || t == old(cur)
      ensures (View(), o) == Finish(old(View()), turn.(result := Again))
    {
      var ok := ReadClock(turn.requeue);
      if !ok {
        return Returned(SystemFail);
      }
      Postpone();
      PutBack(turn.enqueueOk, turn.tie);
      if !turn.enqueueOk {
        DestroyCurrent();
        return Returned(SystemFail);
      }
      o := TestStop();
    }

    method TestStop() returns (o: Outcome)
      requires Valid()
      modifies this`stop
      ensures Valid() && (View(), o) == CheckStop(old(View()))
    {
      if stop {
        stop := false;
        o := Returned(Stopped);
      } else {
        o := Continue;
      }
    }

    /** What the loop does with the task that has just returned. */
    method FinishTurn(turn: Turn) returns (o: Outcome)
      requires Valid()
      modifies this, pq, cur
      ensures Valid() && (cur == null || cur == old(cur))
      ensures forall t :: t in pq.items ==> t in old(pq.items) || t == old(cur)
      ensures (View(), o) == Finish(old(View()), turn)
    {
      if removeCur {
        DestroyCurrent();
        removeCur := false;
      }
      match turn.result {
        case Fail =>
          DestroyCurrent();
          o := Returned(TaskFail);
        case Done =>
          DestroyCurrent();
          o := TestStop();
        case Again =>
          if cur == null {
            o := Aborted;
          } else {
            o := Requeue(turn);
          }
      }
    }

    method TakeTurn(turn: Turn) returns (o: Outcome)
      requires Valid()
      modifies this, pq, set x | x in pq.items, if cur == null then {} else {cur}
      ensures Valid()
      ensures forall t :: t in pq.items ==> t in old(pq.items) || fresh(t)
      ensures cur == null || cur == old(cur) || cur in old(pq.items)
      ensures (View(), o) == Step(old(View()), turn)
    {
      if !turn.head.ok {
        var ok := ReadClock(turn.head);
        Stop();
        return Returned(SystemFail);
      }
      if pq.items == [] {
        var ok := ReadClock(turn.head);
        return Aborted;
      }
      BeginTurn(turn.head, turn.naps, turn.overrun);
      Execute(turn.calls);
      o := FinishTurn(turn);
    }

    /** The beginning of a run. */
    method Enter()
      modifies this`stop, this`removeCur
      ensures View() == EnterRun(old(View()))
    {
      stop := false;
      removeCur := false;
    }

    /** SchedulerRun, for as many passes as the script has. */
    method Run(script: seq<Turn>) returns (o: Outcome)
      requires Valid()
      modifies this, pq, set x | x in pq.items, if cur == null then {} else {cur}
      ensures Valid()
      ensures (View(), o) == SchedulerSpec.Run(old(View()), script)
    {
      Enter();
      ghost var v := View();
      var i := 0;
      while i < |script| && !(pq.items == [] && cur == null) && !stop
        invariant 0 <= i <= |script| && Valid()
        invariant forall t :: t in pq.items ==> t in old(pq.items) || fresh(t)
        invariant cur == null || cur == old(cur) || cur in old(pq.items) || fresh(cur)
        invariant RunFrom(View(), script[i..]) == RunFrom(v, script)
      {
        o := TakeTurn(script[i]);
        assert script[i..][1..] == script[i + 1..];
        if o != Continue {
          return;
        }
        i := i + 1;
      }
      assert i == |script| ==> script[i..] == [];
      o := if (pq.items == [] && cur == null) || stop then Returned(Success) else Continue;
    }
  }
}

/** The client's watchdog object, its tasks and its thread, proved against WatchdogSpec. */
module Watchdogs {
  import opened SchedulerSpec
  import opened Scheduling
  import opened WatchdogSpec

  class Watchdog {
    const scheduler: Scheduler
    const tasksUids: array<nat>
    const interval: Positive
    const maxMissed: Positive
    var target: nat
    // The shared variables.
    var misses: nat
    var shouldStop: bool
    // What has been done to processes and to the count.
    ghost var events: seq<Event>

    ghost predicate Valid()
      reads this, scheduler, scheduler.pq
    {
      scheduler.Valid() && tasksUids.Length == NUM_OF_TASKS
    }

    ghost function View(): Client
      requires Valid()
      reads this, tasksUids, scheduler, scheduler.pq, scheduler.pq.items, scheduler.cur
    {
      Client(scheduler.View(), target, tasksUids[..], misses, shouldStop, interval, maxMissed, events)
    }

    /** WatchdogCreate, in a process whose shared variables have their initial values. */
    constructor (clock: int, interval: Positive, maxMissed: Positive)
      ensures Valid() && fresh(scheduler) && fresh(scheduler.pq) && fresh(tasksUids) && scheduler.pq.items == []
      ensures scheduler.cur == null
      ensures View() == Client(Create(clock), NO_TARGET, NO_UIDS, 0, false, interval, maxMissed, [])
    {
      scheduler := new Scheduler(clock);
      tasksUids := new nat[4](_ => BAD_UID);
      this.interval, this.maxMissed := interval, maxMissed;
      target, misses, shouldStop, events := NO_TARGET, 0, false, [];
      new;
      assert tasksUids[..] == NO_UIDS;
    }

    // ---------- Handlers and processes ----------

    /** SIGUSR1, if it arrives here. */
    method Handle(arrives: bool)
      requires Valid()
      modifies this`misses, this`events
      ensures Valid() && View() == ResetIf(old(View()), arrives)
    {
      if arrives {
        misses := 0;
        events := events + [Reset];
      }
    }

    /** kill(target, SIGUSR2 * !!target) */
    method KillTarget(r: KillResult)
      requires Valid()
      modifies this`events
      ensures Valid() && View() == WatchdogSpec.KillTarget(old(View()), r)
    {
      events := events + [Killed(target, if target == 0 then Probe else Usr2, r)];
    }

    method ReviveApp(f: ForkResult)
      requires Valid()
      modifies this`target, this`events
      ensures Valid() && View() == WatchdogSpec.ReviveApp(old(View()), f)
    {
      match f {
        case ForkFailed =>
          target := 0;
          events := events + [NotForked];
        case Child(pid) =>
          target := pid;
          events := events + [Forked(pid)];
      }
    }

    method Stop(r: KillResult) returns (stopped: int)
      requires Valid()
      modifies this`events, scheduler`stop
      ensures Valid() && (View(), stopped) == WatchdogSpec.WatchdogStop(old(View()), r)
    {
      if !shouldStop {
        return 0;
      }
      KillTarget(r);
      if !r.Sent? {
        return -1;
      }
      scheduler.Stop();
      stopped := 1;
    }

    // ---------- The scheduler ----------

    method AddTaskToSched(kind: nat, i: AddInput) returns (ok: bool)
      requires Valid() && kind < NUM_OF_TASKS
      modifies scheduler, scheduler.pq, tasksUids
      ensures Valid() && scheduler.cur == old(scheduler.cur)
      ensures forall t :: t in scheduler.pq.items ==> t in old(scheduler.pq.items) || fresh(t)
      ensures (View(), ok) == WatchdogSpec.AddTaskToSched(old(View()), kind, i)
    {
      var uid := scheduler.AddTask(interval, kind, i);
      ok := uid != BAD_UID;
      if ok {
        tasksUids[kind] := uid;
      }
    }

    method SetScheduler(b: BodyInput) returns (ok: bool)
      requires Valid()
      modifies scheduler, scheduler.pq, tasksUids
      ensures Valid() && scheduler.cur == old(scheduler.cur)
      ensures forall t :: t in scheduler.pq.items ==> t in old(scheduler.pq.items) || fresh(t)
      ensures (View(), ok) == WatchdogSpec.SetScheduler(old(View()), b)
    {
      ok := AddTaskToSched(SEND_SIGNAL, b.add0);
      if ok {
        ok := AddTaskToSched(REVIVE, b.add1);
        if ok {
          ok := AddTaskToSched(INCREMENT_COUNTER, b.add2);
        }
      }
    }

    method ClearSched()
      requires Valid()
      modifies scheduler, scheduler.pq, tasksUids
      ensures Valid() && scheduler.cur == old(scheduler.cur)
      ensures forall t :: t in scheduler.pq.items ==> t in old(scheduler.pq.items)
      ensures View() == WatchdogSpec.ClearSched(old(View()))
    {
      scheduler.Clear();
      for i := 0 to NUM_OF_TASKS
        modifies tasksUids
        invariant forall k :: 0 <= k < i ==> tasksUids[k] == BAD_UID
      {
        tasksUids[i] := BAD_UID;
      }
      assert tasksUids[..] == NO_UIDS;
    }

    method ChangeToWait(i: AddInput) returns (r: TaskResult)
      requires Valid()
      modifies scheduler, scheduler.pq, tasksUids
      ensures Valid() && scheduler.cur == old(scheduler.cur)
      ensures forall t :: t in scheduler.pq.items ==> t in old(scheduler.pq.items) || fresh(t)
      ensures (View(), r) == WatchdogSpec.ChangeToWait(old(View()), i)
    {
      ClearSched();
      var ok := AddTaskToSched(CHECK_FOR_SIGNAL, i);
      r := if ok then Done else Fail;
    }

    // ---------- The tasks ----------

    method ReviveIfNeeded(b: BodyInput) returns (r: BodyResult)
      requires Valid()
      modifies this, scheduler, scheduler.pq, tasksUids
      ensures Valid() && scheduler.cur == old(scheduler.cur)
      ensures forall t :: t in scheduler.pq.items ==> t in old(scheduler.pq.items) || fresh(t)
      ensures (View(), r) == WatchdogSpec.ReviveIfNeeded(old(View()), b)
    {
      var stopped := Stop(b.stopKill);
      if stopped != 0 {
        return Result(Done);
      }
      Handle(b.reset0);
      if misses >= maxMissed {
        KillTarget(b.kill);
        if b.kill.NotPermitted? {
          return Exit;
        }
        ReviveApp(b.fork);
        var res := ChangeToWait(b.add0);
        return Result(res);
      }
      r := Result(Again);
    }

    method IncCnt(b: BodyInput) returns (r: BodyResult)
      requires Valid()
      modifies this, scheduler, scheduler.pq, tasksUids
      ensures Valid() && scheduler.cur == old(scheduler.cur)
      ensures forall t :: t in scheduler.pq.items ==> t in old(scheduler.pq.items) || fresh(t)
      ensures (View(), r) == WatchdogSpec.IncCnt(old(View()), b)
    {
      var stopped := Stop(b.stopKill);
      if stopped != 0 {
        return Result(Done);
      }
      Handle(b.reset0);
      misses := misses + 1;
      events := events + [Incremented];
      r := Result(Again);
    }

    method SendSignal(b: BodyInput) returns (r: BodyResult)
      requires Valid()
      modifies this, scheduler, scheduler.pq, tasksUids
      ensures Valid() && scheduler.cur == old(scheduler.cur)
      ensures forall t :: t in scheduler.pq.items ==> t in old(scheduler.pq.items) || fresh(t)
      ensures (View(), r) == WatchdogSpec.SendSignal(old(View()), b)
    {
      var stopped := Stop(b.stopKill);
      if stopped != 0 {
        return Result(Done);
      }
      events := events + [Killed(target, Usr1, b.kill)];
      match b.kill {
        case Sent => r := Result(Again);
        case NotPermitted => r := Exit;
        case NoProcess =>
          ReviveApp(b.fork);
          r := Result(Done);
      }
    }

    method WaitForApp(b: BodyInput) returns (r: BodyResult)
      requires Valid()
      modifies this, scheduler, scheduler.pq, tasksUids
      ensures Valid() && scheduler.cur == old(scheduler.cur)
      ensures forall t :: t in scheduler.pq.items ==> t in old(scheduler.pq.items) || fresh(t)
      ensures (View(), r) == WatchdogSpec.WaitForApp(old(View()), b)
    {
      if shouldStop {
        var stopped := Stop(b.stopKill);
        return Result(if stopped == 1 then Again else Fail);
      }
      Handle(b.reset0);
      if misses == 0 {
        var ok := SetScheduler(b);
        return if ok then Result(Done) else Exit;
      }
      KillTarget(b.kill);
      if b.kill.NotPermitted? {
        return Exit;
      }
      if !b.waitOk {
        return Result(Fail);
      }
      ReviveApp(b.fork);
      r := Result(Again);
    }

    method Dispatch(kind: nat, b: BodyInput) returns (r: BodyResult)
      requires Valid()
      modifies this, scheduler, scheduler.pq, tasksUids
      ensures Valid() && scheduler.cur == old(scheduler.cur)
      ensures forall t :: t in scheduler.pq.items ==> t in old(scheduler.pq.items) || fresh(t)
      ensures (View(), r) == WatchdogSpec.Task(old(View()), kind, b)
    {
      if kind == INCREMENT_COUNTER {
        r := IncCnt(b);
      } else if kind == REVIVE {
        r := ReviveIfNeeded(b);
      } else if kind == SEND_SIGNAL {
        r := SendSignal(b);
      } else {
        r := WaitForApp(b);
      }
    }

    method RunTask(kind: nat, b: BodyInput) returns (r: BodyResult)
      requires Valid()
      modifies this, scheduler, scheduler.pq, tasksUids
      ensures Valid() && scheduler.cur == old(scheduler.cur)
      ensures forall t :: t in scheduler.pq.items ==> t in old(scheduler.pq.items) || fresh(t)
      ensures (View(), r) == Body(old(View()), kind, b)
    {
      shouldStop := shouldStop || b.raise;
      assert View() == RaiseIf(old(View()), b.raise);
      r := Dispatch(kind, b);
      Handle(b.reset1);
    }

    // ---------- The thread ----------

    method FillMisses()
      requires Valid()
      modifies this`misses
      ensures Valid() && View() == old(View()).(misses := maxMissed)
    {
      misses := maxMissed;
    }

    method Recover(i: AddInput)
      requires Valid()
      modifies scheduler, scheduler.pq, tasksUids
      ensures Valid() && scheduler.cur == old(scheduler.cur)
      ensures forall t :: t in scheduler.pq.items ==> t in old(scheduler.pq.items) || fresh(t)
      ensures View() == WatchdogSpec.Recover(old(View()), i)
    {
      ClearSched();
      var _ := AddTaskToSched(CHECK_FOR_SIGNAL, i);
      scheduler.Enter();
    }

    method RunPass(t: ClientTurn) returns (r: PassResult)
      requires Valid()
      modifies this, scheduler, scheduler.pq, tasksUids
      modifies set x | x in scheduler.pq.items, if scheduler.cur == null then {} else {scheduler.cur}
      ensures Valid()
      ensures forall x :: x in scheduler.pq.items ==> x in old(scheduler.pq.items) || fresh(x)
      ensures scheduler.cur == null || scheduler.cur == old(scheduler.cur) || scheduler.cur in old(scheduler.pq.items)
      ensures (View(), r) == Pass(old(View()), t)
    {
      if !t.head.ok {
        var ok := scheduler.ReadClock(t.head);
        scheduler.Stop();
        return Ran(Returned(SystemFail));
      }
      if scheduler.pq.items == [] {
        var ok := scheduler.ReadClock(t.head);
        return Ran(Aborted);
      }
      scheduler.BeginTurn(t.head, t.naps, t.overrun);
      var res := RunTask(scheduler.cur.op, t.body);
      if res.Exit? {
        return Exited;
      }
      var o := scheduler.FinishTurn(AsTurn(t, res.result, []));
      r := Ran(o);
    }

    method RunStep(t: ClientTurn) returns (p: Phase)
      requires Valid()
      modifies this, scheduler, scheduler.pq, tasksUids
      modifies set x | x in scheduler.pq.items, if scheduler.cur == null then {} else {scheduler.cur}
      ensures Valid()
      ensures forall x :: x in scheduler.pq.items ==> x in old(scheduler.pq.items) || fresh(x)
      ensures scheduler.cur == null || scheduler.cur == old(scheduler.cur) || scheduler.cur in old(scheduler.pq.items)
      ensures (View(), p) == ClientStep(old(View()), t)
    {
      if (scheduler.pq.items == [] && scheduler.cur == null) || scheduler.stop {
        return Finished(Success);
      }
      var r := RunPass(t);
      if r.Exited? {
        return Dead;
      }
      match r.outcome {
        case Continue => p := Running;
        case Aborted => p := Dead;
        case Returned(status) =>
          if status == TaskFail || status == SystemFail {
            Recover(t.recover);
            p := Running;
          } else {
            p := Finished(status);
          }
      }
    }

    /** WatchdogThreadIMP: runs of the scheduler, one after the other, until one does not fail. */
    method Run(script: seq<ClientTurn>) returns (p: Phase)
      requires Valid()
      modifies this, scheduler, scheduler.pq, tasksUids
      modifies set x | x in scheduler.pq.items, if scheduler.cur == null then {} else {scheduler.cur}
      ensures Valid() && (View(), p) == Thread(old(View()), script)
    {
      p := Running;
      var i := 0;
      while i < |script| && p.Running?
        invariant 0 <= i <= |script| && Valid()
        invariant forall x :: x in scheduler.pq.items ==> x in old(scheduler.pq.items) || fresh(x)
        invariant scheduler.cur == null || scheduler.cur == old(scheduler.cur)
          || scheduler.cur in old(scheduler.pq.items) || fresh(scheduler.cur)
        invariant Thread(old(View()), script) == if p.Running? then Thread(View(), script[i..]) else (View(), p)
      {
        p := RunStep(script[i]);
        assert script[i..][1..] == script[i + 1..];
        i := i + 1;
      }
      assert i == |script| ==> script[i..] == [];
    }
  }

  /** MakeMeImmortal, up to the first run of the thread it starts, which sets the miss count to
      its limit. Without the REVIVE task no thread is started. */
  method MakeMeImmortal(
    clock: int, interval: Positive, maxMissed: Positive, i: AddInput) returns (wd: Watchdog, ok: bool)
    ensures fresh(wd) && wd.Valid() && (wd.View(), ok) == StartClient(clock, interval, maxMissed, i)
  {
    wd := new Watchdog(clock, interval, maxMissed);
    ghost var c := wd.View();
    ok := wd.AddTaskToSched(REVIVE, i);
    wd.FillMisses();
    CountApart(c, REVIVE, i, maxMissed);
  }

  lemma {:induction false} CountApart(c: Client, kind: nat, i: AddInput, misses: nat)
    requires kind < NUM_OF_TASKS
    ensures var (c', ok) := WatchdogSpec.AddTaskToSched(c, kind, i);
      WatchdogSpec.AddTaskToSched(c.(misses := misses), kind, i) == (c'.(misses := misses), ok)
  {
  }
}

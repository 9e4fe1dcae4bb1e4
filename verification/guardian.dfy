/** The guardian's watchdog object, its tasks and its run, proved against GuardianApp. */
module Guardians {
  import opened SchedulerSpec
  import opened WatchdogSpec
  import opened Watchdogs
  import opened Arguments
  import opened GuardianApp

  class Guardian {
    const wd: Watchdog
    const argv: seq<Arg>

    ghost predicate Valid()
      reads this, wd, wd.scheduler, wd.scheduler.pq
    {
      wd.Valid()
    }

    ghost function View(): Client
      requires Valid()
      reads this, wd, wd.tasksUids, wd.scheduler, wd.scheduler.pq, wd.scheduler.pq.items, wd.scheduler.cur
    {
      wd.View()
    }

    /** WatchdogCreate with the decoded arguments; then the parent becomes the target. */
    constructor (seconds: Positive, maxMissed: Positive, argv: seq<Arg>, ppid: Pid, clock: int)
      ensures Valid() && this.argv == argv
      ensures fresh(wd) && fresh(wd.scheduler) && fresh(wd.scheduler.pq) && fresh(wd.tasksUids)
      ensures wd.scheduler.pq.items == [] && wd.scheduler.cur == null
      ensures View() == Client(Create(clock), ppid, NO_UIDS, 0, false, seconds, maxMissed, [])
    {
      wd := new Watchdog(clock, seconds, maxMissed);
      this.argv := argv;
      new;
      wd.target := ppid;
    }

    /** The guardian's revive function: it becomes the client, or exits. */
    method Revive(execOk: bool) returns (life: Life)
      ensures life == Become(argv, execOk)
    {
      life := if execOk then Replaced(Execv(argv)) else Gone;
    }

    method ReviveIfNeeded(b: BodyInput, execOk: bool) returns (w: Went)
      requires Valid()
      modifies wd`misses, wd`events
      ensures Valid() && (View(), w) == AppRevive(old(View()), b, argv, execOk)
    {
      wd.Handle(b.reset0);
      if wd.misses >= wd.maxMissed {
        wd.KillTarget(b.kill);
        if b.kill.NotPermitted? {
          return Left(Gone);
        }
        var life := Revive(execOk);
        return Left(life);
      }
      w := Went(Again);
    }

    method IncCnt(b: BodyInput) returns (w: Went)
      requires Valid()
      modifies wd`misses, wd`events
      ensures Valid() && (View(), w) == AppIncCnt(old(View()), b)
    {
      wd.Handle(b.reset0);
      wd.misses := wd.misses + 1;
      wd.events := wd.events + [Incremented];
      w := Went(Again);
    }

    method SendSignal(kill: KillResult, execOk: bool) returns (w: Went)
      requires Valid()
      modifies wd`events
      ensures Valid() && (View(), w) == AppSendSignal(old(View()), kill, argv, execOk)
    {
      wd.events := wd.events + [Killed(wd.target, Usr1, kill)];
      match kill {
        case Sent => w := Went(Again);
        case NotPermitted => w := Left(Gone);
        case NoProcess =>
          var life := Revive(execOk);
          w := Left(life);
      }
    }

    method RunTask(kind: nat, b: BodyInput, execOk: bool) returns (w: Went)
      requires Valid()
      modifies wd`misses, wd`events
      ensures Valid() && (View(), w) == AppBody(old(View()), kind, b, argv, execOk)
    {
      if kind == REVIVE {
        w := ReviveIfNeeded(b, execOk);
      } else if kind == INCREMENT_COUNTER {
        w := IncCnt(b);
      } else {
        w := SendSignal(b.kill, execOk);
      }
      if w.Went? {
        wd.Handle(b.reset1);
      }
    }

    method RunCurrent(t: AppTurn) returns (life: Life)
      requires Valid() && wd.scheduler.cur != null
      modifies wd`misses, wd`events, wd.scheduler, wd.scheduler.pq, wd.scheduler.cur
      ensures Valid() && (wd.scheduler.cur == null || wd.scheduler.cur == old(wd.scheduler.cur))
      ensures forall x :: x in wd.scheduler.pq.items ==> x in old(wd.scheduler.pq.items) || x == old(wd.scheduler.cur)
      ensures (View(), life) == AppTask(old(View()), old(wd.scheduler.cur.op), t, argv)
    {
      var w := RunTask(wd.scheduler.cur.op, t.pass.body, t.execOk);
      if w.Left? {
        return w.life;
      }
      var o := wd.scheduler.FinishTurn(AsTurn(t.pass, w.result, []));
      life := AfterPass(o);
    }

    method RunPass(t: AppTurn) returns (life: Life)
      requires Valid()
      modifies wd, wd.scheduler, wd.scheduler.pq
      modifies set x | x in wd.scheduler.pq.items, if wd.scheduler.cur == null then {} else {wd.scheduler.cur}
      ensures Valid()
      ensures forall x :: x in wd.scheduler.pq.items ==> x in old(wd.scheduler.pq.items) || fresh(x)
      ensures wd.scheduler.cur == null || wd.scheduler.cur == old(wd.scheduler.cur)
        || wd.scheduler.cur in old(wd.scheduler.pq.items)
      ensures (View(), life) == AppPass(old(View()), t, argv)
      ensures t.told && t.pass.head.ok && old(wd.scheduler.pq.items) != [] ==> life == Gone
      ensures t.told ==> !life.Serving?
    {
      if !t.pass.head.ok {
        var ok := wd.scheduler.ReadClock(t.pass.head);
        wd.scheduler.Stop();
        return Ended(SystemFail);
      }
      if wd.scheduler.pq.items == [] || t.told {
        return Gone;
      }
      wd.scheduler.BeginTurn(t.pass.head, t.pass.naps, t.pass.overrun);
      life := RunCurrent(t);
    }

    /** SchedulerRun, for as many passes as the script has. */
    method Run(script: seq<AppTurn>) returns (life: Life)
      requires Valid()
      modifies wd, wd.scheduler, wd.scheduler.pq
      modifies set x | x in wd.scheduler.pq.items, if wd.scheduler.cur == null then {} else {wd.scheduler.cur}
      ensures Valid() && (View(), life) == AppLoop(old(View()), script, argv)
      ensures life.Serving? ==> forall k :: 0 <= k < |script| ==> !script[k].told
    {
      life := Serving;
      var i := 0;
      while i < |script| && !(wd.scheduler.pq.items == [] && wd.scheduler.cur == null) && !wd.scheduler.stop
        invariant 0 <= i <= |script| && Valid()
        invariant forall x :: x in wd.scheduler.pq.items ==> x in old(wd.scheduler.pq.items) || fresh(x)
        invariant wd.scheduler.cur == null || wd.scheduler.cur == old(wd.scheduler.cur)
          || wd.scheduler.cur in old(wd.scheduler.pq.items) || fresh(wd.scheduler.cur)
        invariant forall k :: 0 <= k < i ==> !script[k].told
        invariant life.Serving? && AppLoop(old(View()), script, argv) == AppLoop(View(), script[i..], argv)
      {
        life := RunPass(script[i]);
        assert script[i..][1..] == script[i + 1..];
        if !life.Serving? {
          return;
        }
        i := i + 1;
      }
      assert i == |script| ==> script[i..] == [];
      if (wd.scheduler.pq.items == [] && wd.scheduler.cur == null) || wd.scheduler.stop {
        life := Ended(Success);
      }
    }

    /** The first signal, and the run. */
    method Start(kill: KillResult, execOk: bool, script: seq<AppTurn>) returns (life: Life)
      requires Valid()
      modifies wd, wd.scheduler, wd.scheduler.pq
      modifies set x | x in wd.scheduler.pq.items, if wd.scheduler.cur == null then {} else {wd.scheduler.cur}
      ensures Valid() && (View(), life) == AppStart(old(View()), kill, argv, execOk, script)
    {
      var w := SendSignal(kill, execOk);
      if w.Left? {
        return w.life;
      }
      wd.scheduler.Enter();
      life := Run(script);
    }
  }

  /** WatchdogApp: decode the arguments, add the tasks, send a first signal, run. */
  method Serve(args: seq<Arg>, ppid: Pid, clock: int, b: BodyInput, execOk: bool, script: seq<AppTurn>)
    returns (g: Guardian, life: Life)
    requires Readable(args)
    ensures fresh(g) && g.Valid() && (g.View(), life) == WatchdogApp(args, ppid, clock, b, execOk, script)
  {
    var seconds := Atoi(args[1].text, 0);
    var maxMissed := Atoi(args[2].text, 0);
    g := new Guardian(seconds, maxMissed, args[INITIAL_ARGS..], ppid, clock);
    var ok := g.wd.SetScheduler(b);
    if !ok {
      return g, Gone;
    }
    life := g.Start(b.kill, execOk, script);
  }
}

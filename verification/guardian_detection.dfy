/** The other half of the mutual watch: a guardian notices a client that is silent, and becomes it. */
module GuardianDetection {
  import opened SchedulerSpec
  import opened SchedulerTiming
  import opened SchedulerRange
  import opened WatchdogSpec
  import opened WatchdogCalls
  import opened WatchdogModes
  import opened WatchdogDetection
  import opened Arguments
  import opened GuardianApp

  /** Nothing is heard from the client, it does not tell the guardian to exit, and nothing fails. */
  predicate SilentTurn(t: AppTurn) {
    !t.told && Silent(AsClientTurn(t))
  }

  lemma {:induction false} SilentAppBody(c: Client, kind: nat, b: BodyInput, argv: seq<Arg>, execOk: bool)
    requires kind in ACTIVE && !b.reset0 && !b.reset1 && !b.kill.NotPermitted?
    ensures var (c', w) := AppBody(c, kind, b, argv, execOk);
      c'.sched == c.sched && w == if Forks(c, kind, b) then Left(Become(argv, execOk)) else Went(Again)
  {
  }

  /** A silent pass goes on, unless the client's own pass would fork: then the guardian becomes
      the client. */
  lemma {:induction false} SilentAppPass(c: Client, ppid: Pid, t: AppTurn, argv: seq<Arg>)
    requires Serves(c, ppid) && SilentTurn(t)
    ensures c.sched.queue != []
    ensures AppPass(c, t, argv).1 ==
      if Forks(c, c.sched.queue[0].op, t.pass.body) then Become(argv, t.execOk) else Serving
  {
    FirstActive(c);
    var c1 := c.(sched := Begin(c.sched, t.pass.head, t.pass.overrun));
    SilentAppBody(c1, c.sched.queue[0].op, t.pass.body, argv, t.execOk);
    SilentFinish(c1.sched, t.pass);
  }

  /** A silent pass in which the guardian goes on wears its patience away. */
  lemma {:induction false} PatienceWears(c: Client, ppid: Pid, t: AppTurn, argv: seq<Arg>, x: TaskRec, y: TaskRec)
    requires Serves(c, ppid) && SilentTurn(t) && InRange(c.sched, StepActions(c, AsClientTurn(t)))
    requires IsTask(c, x, REVIVE) && IsTask(c, y, INCREMENT_COUNTER)
    requires c.sched.queue != [] && AppPass(c, t, argv).1.Serving? && !Forks(c, c.sched.queue[0].op, t.pass.body)
    ensures var c' := AppPass(c, t, argv).0;
      && Serves(c', ppid)
      && IsTask(c', Moved(c, c', x), REVIVE) && IsTask(c', Moved(c, c', y), INCREMENT_COUNTER)
      && Patience(c', Moved(c, c', x), Moved(c, c', y)) < Patience(c, x, y)
  {
    var u, c' := AsClientTurn(t), AppPass(c, t, argv).0;
    PassIsClients(c, t, argv);
    PassServes(c, ppid, t, argv);
    SilentPass(c, u);
    StartsLate(c, u);
    PatienceDrops(c, u, c', x, y);
    MovedIsTask(c, u, c', x, REVIVE);
    MovedIsTask(c, u, c', y, INCREMENT_COUNTER);
  }

  /** In one of the passes the guardian became the client, or tried to. */
  ghost predicate Revives(script: seq<AppTurn>, argv: seq<Arg>, life: Life) {
    exists i :: 0 <= i < |script| && life == Become(argv, script[i].execOk)
  }

  lemma {:induction false} RevivesFirst(c: Client, script: seq<AppTurn>, argv: seq<Arg>)
    requires script != [] && !Empty(c.sched) && !c.sched.stop
    requires AppPass(c, script[0], argv).1 == Become(argv, script[0].execOk)
    ensures Revives(script, argv, AppLoop(c, script, argv).1)
  {
  }

  lemma {:induction false} RevivesLater(script: seq<AppTurn>, argv: seq<Arg>, life: Life)
    requires script != [] && Revives(script[1..], argv, life)
    ensures Revives(script, argv, life)
  {
    var i :| 0 <= i < |script[1..]| && life == Become(argv, script[1..][i].execOk);
    assert script[i + 1] == script[1..][i];
  }

  /** A guardian whose patience a silence outlasts does not serve at its end; with working execs
      it has become the client. */
  lemma {:induction false} SilenceOutlasts(
    c: Client, ppid: Pid, script: seq<AppTurn>, argv: seq<Arg>, x: TaskRec, y: TaskRec)
    requires Serves(c, ppid) && AppInRange(c, script, argv)
    requires IsTask(c, x, REVIVE) && IsTask(c, y, INCREMENT_COUNTER)
    requires (forall i :: 0 <= i < |script| ==> SilentTurn(script[i])) && Patience(c, x, y) <= |script|
    ensures Revives(script, argv, AppLoop(c, script, argv).1)
    decreases |script|
  {
    var t := script[0];
    var c1 := AppPass(c, t, argv).0;
    SilentAppPass(c, ppid, t, argv);
    if Forks(c, c.sched.queue[0].op, t.pass.body) {
      RevivesFirst(c, script, argv);
    } else {
      PatienceWears(c, ppid, t, argv, x, y);
      SilenceOutlasts(c1, ppid, script[1..], argv, Moved(c, c1, x), Moved(c, c1, y));
      RevivesLater(script, argv, AppLoop(c1, script[1..], argv).1);
    }
  }

  /** The same, from the limit alone: five passes for each miss, and five more. */
  lemma {:induction false} SilenceEnds(c: Client, ppid: Pid, silence: seq<AppTurn>, argv: seq<Arg>)
    requires Serves(c, ppid) && AppInRange(c, silence, argv)
    requires 5 * (c.maxMissed + 1) <= |silence| && forall i :: 0 <= i < |silence| ==> SilentTurn(silence[i])
    ensures Revives(silence, argv, AppLoop(c, silence, argv).1)
  {
    assert REVIVE in Kinds(c.sched.queue) && INCREMENT_COUNTER in Kinds(c.sched.queue);
    var x := QueuedTask(c, REVIVE);
    var y := QueuedTask(c, INCREMENT_COUNTER);
    PatienceAtMost(c, x, y);
    SilenceOutlasts(c, ppid, silence, argv, x, y);
  }

  // ---------- Whole runs ----------

  lemma {:induction false} LoopJoins(c: Client, a: seq<AppTurn>, b: seq<AppTurn>, argv: seq<Arg>)
    requires AppLoop(c, a, argv).1.Serving?
    ensures AppLoop(c, a + b, argv) == AppLoop(AppLoop(c, a, argv).0, b, argv)
    ensures AppInRange(c, a + b, argv) ==> AppInRange(c, a, argv) && AppInRange(AppLoop(c, a, argv).0, b, argv)
    decreases |a|
  {
    if a == [] {
      assert a + b == b;
    } else {
      assert (a + b)[1..] == a[1..] + b;
      LoopJoins(AppPass(c, a[0], argv).0, a[1..], b, argv);
    }
  }

  /** The guardian as it enters its run: SetScheduler, and a first signal that was sent. */
  function Entered(args: seq<Arg>, ppid: Pid, clock: int, b: BodyInput): Client
    requires Readable(args)
  {
    var c := AppSendSignal(SetScheduler(NewGuardian(args, ppid, clock), b).0, b.kill, Decode(args).argv, false).0;
    c.(sched := EnterRun(c.sched))
  }

  lemma {:induction false} RunsFromEntry(
    args: seq<Arg>, ppid: Pid, clock: int, b: BodyInput, execOk: bool, before: seq<AppTurn>, silence: seq<AppTurn>)
    requires Readable(args) && WatchdogApp(args, ppid, clock, b, execOk, before).1.Serving?
    ensures var c := Entered(args, ppid, clock, b);
      && WatchdogApp(args, ppid, clock, b, execOk, before) == AppLoop(c, before, Decode(args).argv)
      && WatchdogApp(args, ppid, clock, b, execOk, before + silence) == AppLoop(c, before + silence, Decode(args).argv)
      && (GuardianInRange(args, ppid, clock, b, execOk, before + silence) ==>
          AppInRange(c, before + silence, Decode(args).argv))
  {
  }

  lemma {:induction false} BeforeInRange(
    args: seq<Arg>, ppid: Pid, clock: int, b: BodyInput, execOk: bool, before: seq<AppTurn>, silence: seq<AppTurn>)
    requires Readable(args) && WatchdogApp(args, ppid, clock, b, execOk, before).1.Serving?
    requires GuardianInRange(args, ppid, clock, b, execOk, before + silence)
    ensures GuardianInRange(args, ppid, clock, b, execOk, before)
  {
    RunsFromEntry(args, ppid, clock, b, execOk, before, silence);
    LoopJoins(Entered(args, ppid, clock, b), before, silence, Decode(args).argv);
  }

  /** Whatever a guardian's run has been, if it still serves and then hears nothing for so long,
      it serves no more; and if every exec would work, it has become the client, with the
      client's arguments. */
  lemma {:induction false} SilentClientRevived(
    args: seq<Arg>, ppid: Pid, clock: int, b: BodyInput, execOk: bool, before: seq<AppTurn>, silence: seq<AppTurn>)
    requires Readable(args) && GuardianInRange(args, ppid, clock, b, execOk, before + silence)
    requires WatchdogApp(args, ppid, clock, b, execOk, before).1.Serving?
    requires 5 * (Decode(args).maxMissed + 1) <= |silence|
    requires forall i :: 0 <= i < |silence| ==> SilentTurn(silence[i])
    ensures var life := WatchdogApp(args, ppid, clock, b, execOk, before + silence).1;
      && !life.Serving?
      && ((forall i :: 0 <= i < |silence| ==> silence[i].execOk) ==> life == Replaced(Execv(Decode(args).argv)))
      && ((forall i :: 0 <= i < |silence| ==> !silence[i].execOk) ==> life == Gone)
  {
    var argv, c0 := Decode(args).argv, Entered(args, ppid, clock, b);
    var c := WatchdogApp(args, ppid, clock, b, execOk, before).0;
    RunsFromEntry(args, ppid, clock, b, execOk, before, silence);
    LoopJoins(c0, before, silence, argv);
    BeforeInRange(args, ppid, clock, b, execOk, before, silence);
    AppOutcomes(args, ppid, clock, b, execOk, before);
    SilenceEnds(c, ppid, silence, argv);
    var i :| 0 <= i < |silence| && AppLoop(c, silence, argv).1 == Become(argv, silence[i].execOk);
  }

  /** The same, from the interval and the running time up to then. */
  lemma {:induction false} SilentClientRevivedInTime(
    args: seq<Arg>, ppid: Pid, clock: int, b: BodyInput, execOk: bool,
    before: seq<AppTurn>, silence: seq<AppTurn>, horizon: nat)
    requires Readable(args) && FitsInt(Decode(args).seconds, horizon)
    requires WatchdogApp(args, ppid, clock, b, execOk, before + silence).0.sched.clock - clock <= horizon
    requires WatchdogApp(args, ppid, clock, b, execOk, before).1.Serving?
    requires 5 * (Decode(args).maxMissed + 1) <= |silence|
    requires forall i :: 0 <= i < |silence| ==> SilentTurn(silence[i]) && silence[i].execOk
    ensures WatchdogApp(args, ppid, clock, b, execOk, before + silence).1 == Replaced(Execv(Decode(args).argv))
  {
    GuardianInTime(args, ppid, clock, b, execOk, before + silence, horizon);
    SilentClientRevived(args, ppid, clock, b, execOk, before, silence);
  }
}

/** A silent guardian is noticed: without signals from it, the client tries to fork another. And
    misses are counted at most twice between two looks at their number. */
module WatchdogDetection {
  import opened SchedulerSpec
  import opened SchedulerOwnership
  import opened SchedulerOrder
  import opened SchedulerTiming
  import opened SchedulerFairness
  import opened WatchdogSpec
  import opened WatchdogCalls
  import opened WatchdogGuardian
  import opened WatchdogModes
  import opened WatchdogMisses
  import opened WatchdogRange
  import opened SchedulerRange

  // ---------- How long a task waits ----------

  /** How often `y`, if it is another task, can run before `x`. */
  function Share(x: TaskRec, y: TaskRec): nat {
    if y.op == x.op then 0 else Lead(x, y)
  }

  /** How many runs of other tasks there can be before `x` runs. */
  function Ahead(q: seq<TaskRec>, x: TaskRec): nat {
    if q == [] then 0 else Share(x, q[0]) + Ahead(q[1..], x)
  }

  lemma {:induction false} AheadConcat(a: seq<TaskRec>, b: seq<TaskRec>, x: TaskRec)
    ensures Ahead(a + b, x) == Ahead(a, x) + Ahead(b, x)
  {
    if a == [] {
      assert a + b == b;
    } else {
      assert (a + b)[1..] == a[1..] + b;
      AheadConcat(a[1..], b, x);
    }
  }

  lemma {:induction false} AheadInsert(q: seq<TaskRec>, t: TaskRec, tie: nat, x: TaskRec)
    ensures Ahead(Insert(q, t, tie), x) == Ahead(q, x) + Share(x, t)
  {
    var k := Position(q, t, tie);
    AheadConcat(q[..k] + [t], q[k..], x);
    AheadConcat(q[..k], [t], x);
    AheadConcat(q[..k], q[k..], x);
    assert q[..k] + q[k..] == q;
    assert [t][1..] == [];
  }

  lemma {:induction false} AheadAtMost(q: seq<TaskRec>, x: TaskRec)
    ensures Ahead(q, x) <= 2 * |q|
    ensures x in q ==> Ahead(q, x) <= 2 * |q| - 2
  {
    if q == [] {
    } else {
      AheadAtMost(q[1..], x);
    }
  }

  /** A run of the first task leaves fewer runs before any other. */
  lemma {:induction false} AheadDrops(q: seq<TaskRec>, tie: nat, clock: int, now: int, interval: Positive, x: TaskRec)
    requires q != [] && Soon(q, clock, interval) && clock <= now && q[0].deadline <= now
    requires x in q && x.op != q[0].op && q[0].deadline <= x.deadline
    ensures Ahead(Insert(q[1..], q[0].(deadline := now + interval), tie), x) < Ahead(q, x)
  {
    AheadInsert(q[1..], q[0].(deadline := now + interval), tie, x);
  }

  // ---------- A pass without a sign of life ----------

  /** Nothing is heard from the guardian, nothing fails, no stop is asked for, and no signal to
      the guardian is refused. */
  predicate Silent(t: ClientTurn) {
    && t.head.ok && t.requeue.ok && t.enqueueOk
    && !t.body.raise && !t.body.reset0 && !t.body.reset1 && !t.body.kill.NotPermitted?
  }

  /** The client watches: its active tasks are queued, and no stop is asked for. */
  predicate Watching(c: Client) {
    InMode(c) && !c.shouldStop && ACTIVE_MIN <= Kinds(c.sched.queue) <= ACTIVE
  }

  /** Between two traces a fork was attempted. */
  predicate ForkedSince(es: seq<Event>, es': seq<Event>) {
    exists i :: |es| <= i < |es'| && ForkAttempt(es'[i])
  }

  predicate Forks(c: Client, kind: nat, b: BodyInput) {
    (kind == REVIVE && c.misses >= c.maxMissed) || (kind == SEND_SIGNAL && b.kill.NoProcess?)
  }

  predicate SameTask(c: Client, kind: nat, c': Client) {
    && c'.sched == c.sched && c'.slots == c.slots && c'.target == c.target && c'.shouldStop == c.shouldStop
    && c'.maxMissed == c.maxMissed && c'.interval == c.interval
    && c'.misses == c.misses + (if kind == INCREMENT_COUNTER then 1 else 0)
    && |c.events| <= |c'.events|
  }

  lemma {:induction false} SilentBody(c: Client, kind: nat, b: BodyInput)
    requires !c.shouldStop && !b.raise && !b.reset0 && !b.reset1 && !b.kill.NotPermitted? && kind in ACTIVE
    requires !Forks(c, kind, b)
    ensures SameTask(c, kind, Body(c, kind, b).0) && Body(c, kind, b).1 == Result(Again)
  {
  }

  lemma {:induction false} ForkingBody(c: Client, kind: nat, b: BodyInput)
    requires !c.shouldStop && !b.raise && !b.reset0 && !b.reset1 && !b.kill.NotPermitted? && Forks(c, kind, b)
    ensures ForkedSince(c.events, Body(c, kind, b).0.events) && Body(c, kind, b).1.Result?
  {
    var c2 := Body(c, kind, b).0;
    if kind == REVIVE { SchedulingKeepsTrace(ReviveApp(KillTarget(c, b.kill), b.fork), b); }
    assert ForkAttempt(c2.events[|c.events| + 1]);
  }

  /** The state after such a pass, if no fork was attempted. */
  predicate Continued(c: Client, t: ClientTurn, c': Client)
    requires c.sched.queue != []
  {
    var q := c.sched.queue;
    && c'.sched.queue == Insert(q[1..], q[0].(deadline := c'.sched.clock + q[0].interval), t.tie)
    && Begin(c.sched, t.head, t.overrun).clock <= c'.sched.clock
    && c'.misses == c.misses + (if q[0].op == INCREMENT_COUNTER then 1 else 0)
    && c'.slots == c.slots && c'.maxMissed == c.maxMissed && c'.interval == c.interval && !c'.shouldStop
    && (q[0].op == REVIVE ==> c.misses < c.maxMissed)
    && |c.events| <= |c'.events|
  }

  lemma {:induction false} FirstActive(c: Client)
    requires Watching(c)
    ensures c.sched.queue != [] && c.sched.queue[0].op in ACTIVE
  {
    NoKinds(c.sched.queue);
    FirstKind(c.sched.queue, c.slots);
  }

  lemma {:induction false} SilentFinish(s: State, t: ClientTurn)
    requires s.cur.Some? && !s.removeCur && !s.stop && t.requeue.ok && t.enqueueOk
    ensures var (s', o) := Finish(s, AsTurn(t, Again, []));
      && o == Continue && s'.clock == s.clock + t.requeue.delay
      && s'.queue == Insert(s.queue, s.cur.value.(deadline := s'.clock + s.cur.value.interval), t.tie)
  {
  }

  /** A pass whose task does not end the process. */
  lemma {:induction false} LoopPass(c: Client, t: ClientTurn, c2: Client, r: TaskResult)
    requires t.head.ok && c.sched.queue != []
    requires Body(c.(sched := Begin(c.sched, t.head, t.overrun)), c.sched.queue[0].op, t.body) == (c2, Result(r))
    ensures var (s, o) := Finish(c2.sched, AsTurn(t, r, [])); Pass(c, t) == (c2.(sched := s), Ran(o))
  {
  }

  /** A pass whose task asks to run again, and leaves the scheduler alone. */
  lemma {:induction false} AgainPass(c: Client, t: ClientTurn, c2: Client)
    requires c.sched.queue != [] && !c.sched.stop && !c.sched.removeCur
    requires t.head.ok && t.requeue.ok && t.enqueueOk && c2.sched == Begin(c.sched, t.head, t.overrun)
    requires Body(c.(sched := c2.sched), c.sched.queue[0].op, t.body) == (c2, Result(Again))
    ensures var (c', p) := ClientStep(c, t); var q := c.sched.queue;
      && p == Running && c' == c2.(sched := c'.sched)
      && c'.sched.queue == Insert(q[1..], q[0].(deadline := c'.sched.clock + q[0].interval), t.tie)
  {
    SilentFinish(c2.sched, t);
    LoopPass(c, t, c2, Again);
  }

  lemma {:induction false} ForkingPass(c: Client, t: ClientTurn)
    requires Watching(c) && Silent(t) && c.sched.queue != [] && Forks(c, c.sched.queue[0].op, t.body)
    ensures ForkedSince(c.events, ClientStep(c, t).0.events)
  {
    var c1 := c.(sched := Begin(c.sched, t.head, t.overrun));
    ForkingBody(c1, c.sched.queue[0].op, t.body);
    var (c2, r) := Body(c1, c.sched.queue[0].op, t.body);
    LoopPass(c, t, c2, r.result);
    StepTrace(c, t);
  }

  /** A task that leaves the scheduler alone is put back. */
  lemma {:induction false} TaskPutBack(c: Client, t: ClientTurn, c2: Client)
    requires Silent(t) && c.sched.queue != [] && !c.shouldStop && !c.sched.stop && !c.sched.removeCur
    requires SameTask(c.(sched := Begin(c.sched, t.head, t.overrun)), c.sched.queue[0].op, c2)
    requires c.sched.queue[0].op == REVIVE ==> c.misses < c.maxMissed
    ensures var (s, o) := Finish(c2.sched, AsTurn(t, Again, [])); o == Continue && Continued(c, t, c2.(sched := s))
  {
    SilentFinish(c2.sched, t);
  }

  /** The pass itself, without the thread around it. */
  lemma {:induction false} SilentLoopPass(c: Client, t: ClientTurn)
    requires Watching(c) && Silent(t) && c.sched.queue != [] && !Forks(c, c.sched.queue[0].op, t.body)
    ensures var (c', r) := Pass(c, t); r == Ran(Continue) && Continued(c, t, c')
  {
    FirstActive(c);
    var kind, c1 := c.sched.queue[0].op, c.(sched := Begin(c.sched, t.head, t.overrun));
    SilentBody(c1, kind, t.body);
    var c2 := Body(c1, kind, t.body).0;
    TaskPutBack(c, t, c2);
    LoopPass(c, t, c2, Again);
  }

  lemma {:induction false} SilentPass(c: Client, t: ClientTurn)
    requires Watching(c) && Silent(t) && c.sched.queue != [] && !Forks(c, c.sched.queue[0].op, t.body)
    ensures var (c', p) := ClientStep(c, t); p == Running && Continued(c, t, c')
  {
    SilentLoopPass(c, t);
    assert ClientStep(c, t) == (Pass(c, t).0, Running);
  }

  /** The thread adds nothing to the trace of the loop's pass. */
  lemma {:induction false} StepTrace(c: Client, t: ClientTurn)
    requires InMode(c) && c.sched.queue != []
    ensures ClientStep(c, t).0.events == Pass(c, t).0.events
  {
    RecoverKeepsTrace(Pass(c, t).0, t.recover);
  }

  lemma {:induction false} RecoverKeepsTrace(c: Client, i: AddInput)
    ensures Recover(c, i).events == c.events
  {
    AddKeepsControl(ClearSched(c), CHECK_FOR_SIGNAL, i);
  }

  lemma {:induction false} ContinuedKinds(c: Client, t: ClientTurn, c': Client)
    requires InMode(c) && c.sched.queue != [] && Continued(c, t, c')
    ensures Kinds(c'.sched.queue) == Kinds(c.sched.queue)
  {
    FirstRequeued(c.sched.queue, c'.sched.clock + c.sched.queue[0].interval, t.tie, c.slots);
  }

  lemma {:induction false} ContinuedWatching(c: Client, t: ClientTurn)
    requires Watching(c) && Silent(t) && c.sched.queue != [] && !Forks(c, c.sched.queue[0].op, t.body)
    ensures Watching(ClientStep(c, t).0)
  {
    SilentPass(c, t);
    StepInMode(c, t);
    ContinuedKinds(c, t, ClientStep(c, t).0);
  }

  // ---------- The trace only grows ----------

  predicate Extends(c: Client, c': Client) {
    |c.events| <= |c'.events| && c'.events[..|c.events|] == c.events
  }

  lemma {:induction false} ExtendsTrans(a: Client, b: Client, c: Client)
    requires Extends(a, b) && Extends(b, c)
    ensures Extends(a, c)
  {
    assert c.events[..|a.events|] == c.events[..|b.events|][..|a.events|];
  }

  lemma {:induction false} TaskExtends(c: Client, kind: nat, b: BodyInput)
    ensures Extends(c, Task(c, kind, b).0)
  {
    var c2 := ResetIf(c, b.reset0);
    if kind == REVIVE {
      SchedulingKeepsTrace(ReviveApp(KillTarget(c2, b.kill), b.fork), b);
    } else if kind >= CHECK_FOR_SIGNAL {
      SchedulingKeepsTrace(c2, b);
    }
  }

  lemma {:induction false} StepExtends(c: Client, t: ClientTurn)
    ensures Extends(c, ClientStep(c, t).0)
  {
    var c1 := Pass(c, t).0;
    RecoverKeepsTrace(c1, t.recover);
    if t.head.ok && c.sched.queue != [] {
      TaskExtends(RaiseIf(c.(sched := Begin(c.sched, t.head, t.overrun)), t.body.raise), c.sched.queue[0].op, t.body);
    }
    assert Extends(c, c1);
  }

  lemma {:induction false} ThreadExtends(c: Client, script: seq<ClientTurn>)
    ensures Extends(c, Thread(c, script).0)
    decreases |script|
  {
    if script == [] {
    } else {
      StepExtends(c, script[0]);
      var (c1, p) := ClientStep(c, script[0]);
      if p.Running? {
        ThreadExtends(c1, script[1..]);
        ExtendsTrans(c, c1, Thread(c1, script[1..]).0);
      }
    }
  }

  lemma {:induction false} ForkRemains(c: Client, c1: Client, c2: Client)
    requires ForkedSince(c.events, c1.events) && Extends(c1, c2)
    ensures ForkedSince(c.events, c2.events)
  {
    var i :| |c.events| <= i < |c1.events| && ForkAttempt(c1.events[i]);
    assert c2.events[i] == c2.events[..|c1.events|][i];
  }

  // ---------- Detection ----------

  /** How many passes it can still take, `x` being the REVIVE task and `y` the INC task. */
  function Patience(c: Client, x: TaskRec, y: TaskRec): nat {
    if c.misses < c.maxMissed then Ahead(c.sched.queue, y) + 1 + 5 * (c.maxMissed - c.misses)
    else Ahead(c.sched.queue, x) + 1
  }

  predicate IsTask(c: Client, x: TaskRec, kind: nat) {
    x in c.sched.queue && x.op == kind
  }

  lemma {:induction false} AheadOfTask(c: Client, x: TaskRec)
    requires Watching(c) && x in c.sched.queue
    ensures Ahead(c.sched.queue, x) <= 4
  {
    EachKindOnce(c.sched.queue, c.slots);
    assert Kinds(c.sched.queue) - ACTIVE == {};
    assert |ACTIVE| == 3;
    Subset(Kinds(c.sched.queue), ACTIVE);
    AheadAtMost(c.sched.queue, x);
  }

  lemma {:induction false} Subset(a: set<nat>, b: set<nat>)
    requires a <= b
    ensures |a| <= |b|
  {
    assert b == a + (b - a);
  }

  /** The task that was `z` before the pass. */
  function Moved(c: Client, c': Client, z: TaskRec): TaskRec
    requires c.sched.queue != []
  {
    if z == c.sched.queue[0] then z.(deadline := c'.sched.clock + z.interval) else z
  }

  lemma {:induction false} MovedIsTask(c: Client, t: ClientTurn, c': Client, z: TaskRec, kind: nat)
    requires c.sched.queue != [] && Continued(c, t, c') && IsTask(c, z, kind)
    ensures IsTask(c', Moved(c, c', z), kind)
  {
    var q := c.sched.queue;
    InsertMembers(q[1..], q[0].(deadline := c'.sched.clock + q[0].interval), t.tie);
    if z != q[0] {
      var i :| 0 <= i < |q| && q[i] == z;
      assert q[1..][i - 1] == z;
    }
  }

  lemma {:induction false} OthersWait(c: Client, t: ClientTurn, c': Client, z: TaskRec)
    requires c.sched.queue != [] && Continued(c, t, c') && z in c.sched.queue && z.op != c.sched.queue[0].op
    requires Sorted(c.sched.queue) && Soon(c.sched.queue, c.sched.clock, c.interval)
    requires c.sched.queue[0].deadline <= c'.sched.clock && c.sched.clock <= c'.sched.clock
    ensures Ahead(c'.sched.queue, z) < Ahead(c.sched.queue, z)
  {
    var q := c.sched.queue;
    assert q[0] in q;
    FirstIsEarliest(q, z);
    AheadDrops(q, t.tie, c.sched.clock, c'.sched.clock, c.interval, z);
  }

  lemma {:induction false} PatienceAtMost(c: Client, x: TaskRec, y: TaskRec)
    requires Watching(c) && IsTask(c, x, REVIVE) && IsTask(c, y, INCREMENT_COUNTER)
    ensures Patience(c, x, y) <= if c.misses < c.maxMissed then 5 * (c.maxMissed - c.misses + 1) else 5
  {
    AheadOfTask(c, x);
    AheadOfTask(c, y);
  }

  lemma {:induction false} WaitsLess(c: Client, t: ClientTurn, c': Client, z: TaskRec)
    requires InMode(c) && c.sched.queue != [] && Continued(c, t, c')
    requires z in c.sched.queue && z.op != c.sched.queue[0].op
    requires Sorted(c.sched.queue) && Soon(c.sched.queue, c.sched.clock, c.interval)
    requires c.sched.queue[0].deadline <= c'.sched.clock && c.sched.clock <= c'.sched.clock
    ensures Moved(c, c', z) == z && Ahead(c'.sched.queue, z) < Ahead(c.sched.queue, z)
  {
    OthersWait(c, t, c', z);
  }

  /** After an increment there is a miss less to wait for. */
  lemma {:induction false} PatienceCounts(c: Client, t: ClientTurn, c': Client, x: TaskRec, y: TaskRec)
    requires Watching(c') && c.sched.queue != [] && Continued(c, t, c')
    requires IsTask(c, x, REVIVE) && IsTask(c, y, INCREMENT_COUNTER)
    requires c.misses < c.maxMissed && c.sched.queue[0].op == INCREMENT_COUNTER
    ensures Patience(c', Moved(c, c', x), Moved(c, c', y)) < Patience(c, x, y)
  {
    MovedIsTask(c, t, c', x, REVIVE);
    MovedIsTask(c, t, c', y, INCREMENT_COUNTER);
    PatienceAtMost(c', Moved(c, c', x), Moved(c, c', y));
    assert Patience(c, x, y) >= 1 + 5 * (c.maxMissed - c.misses);
    assert c'.misses == c.misses + 1;
  }

  lemma {:induction false} PatienceDrops(c: Client, t: ClientTurn, c': Client, x: TaskRec, y: TaskRec)
    requires Watching(c) && Watching(c') && c.sched.queue != [] && Continued(c, t, c')
    requires IsTask(c, x, REVIVE) && IsTask(c, y, INCREMENT_COUNTER)
    requires Sorted(c.sched.queue) && Soon(c.sched.queue, c.sched.clock, c.interval)
    requires c.sched.queue[0].deadline <= c'.sched.clock && c.sched.clock <= c'.sched.clock
    ensures Patience(c', Moved(c, c', x), Moved(c, c', y)) < Patience(c, x, y)
  {
    if c.misses >= c.maxMissed {
      WaitsLess(c, t, c', x);
      assert Patience(c', x, Moved(c, c', y)) == Ahead(c'.sched.queue, x) + 1;
    } else if c.sched.queue[0].op != INCREMENT_COUNTER {
      WaitsLess(c, t, c', y);
      assert c'.misses == c.misses;
    } else {
      PatienceCounts(c, t, c', x, y);
    }
  }

  lemma {:induction false} StartsLate(c: Client, t: ClientTurn)
    requires InMode(c) && InRange(c.sched, StepActions(c, t)) && t.head.ok && c.sched.queue != []
    ensures c.sched.queue[0].deadline <= Begin(c.sched, t.head, t.overrun).clock
    ensures c.sched.clock <= Begin(c.sched, t.head, t.overrun).clock
  {
    FirstInRange(c, t);
    NarrowExact(c.sched.queue[0].deadline - (c.sched.clock + t.head.delay));
  }

  /** A silent pass without a fork: everything is kept, and patience wears away. */
  lemma {:induction false} SilentStep(c: Client, t: ClientTurn, x: TaskRec, y: TaskRec)
    requires Watching(c) && Invariant(c) && InRange(c.sched, StepActions(c, t)) && Silent(t)
    requires IsTask(c, x, REVIVE) && IsTask(c, y, INCREMENT_COUNTER)
    requires c.sched.queue != [] && !Forks(c, c.sched.queue[0].op, t.body)
    ensures var (c1, p) := ClientStep(c, t);
      && p.Running? && Watching(c1) && Invariant(c1) && Extends(c, c1)
      && IsTask(c1, Moved(c, c1, x), REVIVE) && IsTask(c1, Moved(c, c1, y), INCREMENT_COUNTER)
      && Patience(c1, Moved(c, c1, x), Moved(c, c1, y)) < Patience(c, x, y)
  {
    var c1 := ClientStep(c, t).0;
    SilentPass(c, t);
    ContinuedWatching(c, t);
    StartsLate(c, t);
    StepKeepsInvariant(c, t);
    PatienceDrops(c, t, c1, x, y);
    MovedIsTask(c, t, c1, x, REVIVE);
    MovedIsTask(c, t, c1, y, INCREMENT_COUNTER);
    StepExtends(c, t);
  }

  /** A watching client that hears nothing, while nothing fails, tries to fork a new guardian
      before its patience is at an end. */
  lemma {:induction false} SilenceNoticed(c: Client, script: seq<ClientTurn>, x: TaskRec, y: TaskRec)
    requires Watching(c) && Invariant(c) && ClientInRange(c, script)
    requires IsTask(c, x, REVIVE) && IsTask(c, y, INCREMENT_COUNTER)
    requires (forall i :: 0 <= i < |script| ==> Silent(script[i])) && Patience(c, x, y) <= |script|
    ensures ForkedSince(c.events, Thread(c, script).0.events)
    decreases |script|
  {
    var t := script[0];
    var (c1, p) := ClientStep(c, t);
    FirstActive(c);
    if Forks(c, c.sched.queue[0].op, t.body) {
      ForkingPass(c, t);
      if p.Running? { ThreadExtends(c1, script[1..]); }
      ForkRemains(c, c1, Thread(c, script).0);
    } else {
      SilentStep(c, t, x, y);
      SilenceNoticed(c1, script[1..], Moved(c, c1, x), Moved(c, c1, y));
      ForkedEarlier(c, c1, Thread(c, script).0);
    }
  }

  lemma {:induction false} ForkedEarlier(c: Client, c1: Client, c2: Client)
    requires Extends(c, c1) && ForkedSince(c1.events, c2.events)
    ensures ForkedSince(c.events, c2.events)
  {
    var i :| |c1.events| <= i < |c2.events| && ForkAttempt(c2.events[i]);
    assert |c.events| <= i;
  }

  lemma {:induction false} QueuedTask(c: Client, kind: nat) returns (x: TaskRec)
    requires kind in Kinds(c.sched.queue)
    ensures IsTask(c, x, kind)
  {
    x :| x in c.sched.queue && x.op == kind;
  }

  /** The same, from the limit alone: five passes for each miss, and five more. */
  lemma {:induction false} SilenceNoticedInTime(c: Client, silence: seq<ClientTurn>)
    requires Watching(c) && Invariant(c) && ClientInRange(c, silence)
    requires 5 * (c.maxMissed + 1) <= |silence| && forall k :: 0 <= k < |silence| ==> Silent(silence[k])
    ensures ForkedSince(c.events, Thread(c, silence).0.events)
  {
    assert REVIVE in Kinds(c.sched.queue) && INCREMENT_COUNTER in Kinds(c.sched.queue);
    var x := QueuedTask(c, REVIVE);
    var y := QueuedTask(c, INCREMENT_COUNTER);
    PatienceAtMost(c, x, y);
    SilenceNoticed(c, silence, x, y);
  }

  /** In every state a client reaches in which it watches: after so long without a sign of life,
      it has tried to fork a new guardian. */
  lemma {:induction false} SilentGuardianDetected(
    clock: int, interval: Positive, maxMissed: Positive, i: AddInput, before: seq<ClientTurn>, silence: seq<ClientTurn>)
    requires var c0 := StartClient(clock, interval, maxMissed, i).0;
      var (c, p) := Thread(c0, before);
      ClientInRange(c0, before) && p.Running? && Watching(c) && ClientInRange(c, silence)
    requires 5 * (maxMissed + 1) <= |silence| && forall k :: 0 <= k < |silence| ==> Silent(silence[k])
    ensures var c := Thread(StartClient(clock, interval, maxMissed, i).0, before).0;
      ForkedSince(c.events, Thread(c, silence).0.events)
  {
    var c0 := StartClient(clock, interval, maxMissed, i).0;
    StartInvariant(clock, interval, maxMissed, i);
    ThreadKeepsInvariant(c0, before);
    ThreadKeepsLimit(c0, before);
    SilenceNoticedInTime(Thread(c0, before).0, silence);
  }

  /** The same, from the interval and the running time up to then. */
  lemma {:induction false} SilentGuardianDetectedInTime(
    clock: int, interval: Positive, maxMissed: Positive, i: AddInput,
    before: seq<ClientTurn>, silence: seq<ClientTurn>, horizon: nat)
    requires var (c, p) := Thread(StartClient(clock, interval, maxMissed, i).0, before);
      p.Running? && Watching(c) && Thread(c, silence).0.sched.clock - clock <= horizon
    requires FitsInt(interval, horizon)
    requires 5 * (maxMissed + 1) <= |silence| && forall k :: 0 <= k < |silence| ==> Silent(silence[k])
    ensures var c := Thread(StartClient(clock, interval, maxMissed, i).0, before).0;
      ForkedSince(c.events, Thread(c, silence).0.events)
  {
    var c := Thread(StartClient(clock, interval, maxMissed, i).0, before).0;
    ThreadClock(c, silence);
    ClientInTime(clock, interval, maxMissed, i, before, horizon);
    ThreadInWindow(c, silence, clock + 1, clock + horizon);
    SilentGuardianDetected(clock, interval, maxMissed, i, before, silence);
  }

  // ---------- Misses between two looks at them ----------

  /** The REVIVE task `x` is queued and is not started. */
  predicate Pending(c: Client, script: seq<ClientTurn>, x: TaskRec)
    decreases |script|
  {
    x in c.sched.queue &&
    (script == [] ||
     (var (c1, p) := ClientStep(c, script[0]); c.sched.queue[0] != x && p.Running? && Pending(c1, script[1..], x)))
  }

  lemma {:induction false} NeitherWaits(c: Client, x: TaskRec)
    requires InMode(c) && IsTask(c, x, REVIVE) && c.sched.queue[0] != x
    ensures c.sched.queue[0].op in {INCREMENT_COUNTER, SEND_SIGNAL}
  {
    FirstKind(c.sched.queue, c.slots);
    assert REVIVE in Kinds(c.sched.queue);
    var i :| 0 <= i < |c.sched.queue| && c.sched.queue[i] == x;
    assert c.sched.queue[0].op != c.sched.queue[i].op;
  }

  lemma {:induction false} SimpleSched(c: Client, kind: nat, b: BodyInput)
    requires kind in {INCREMENT_COUNTER, SEND_SIGNAL}
    ensures var s := Body(c, kind, b).0.sched; s == c.sched || s == c.sched.(stop := true)
  {
  }

  lemma {:induction false} FinishLog(s: State, turn: Turn)
    ensures Finish(s, turn).0.log == s.log
  {
  }

  /** A task put back is due an interval after its start, and after the beginning of the pass. */
  predicate Later(s: State, z: TaskRec)
    requires s.queue != []
  {
    var t := s.queue[0];
    z.uid == t.uid && z.op == t.op && t.deadline + t.interval <= z.deadline && s.clock + t.interval <= z.deadline
  }

  /** One pass while REVIVE waits, as far as queue and log go. */
  predicate Simple(s: State, s': State)
    requires s.queue != []
  {
    && (forall z :: z in s'.queue ==> z in s.queue[1..] || Later(s, z))
    && |s'.log| == |s.log| + 1 && s'.log[..|s.log|] == s.log && s'.log[|s.log|].uid == s.queue[0].uid
  }

  lemma {:induction false} SimpleFinish(s: State, b: State, s2: State, t: ClientTurn, r: TaskResult)
    requires s.queue != [] && b.queue == s.queue[1..] && b.cur == Some(s.queue[0]) && !b.removeCur
    requires s.clock <= b.clock && s.queue[0].deadline <= b.clock
    requires |b.log| == |s.log| + 1 && b.log[..|s.log|] == s.log && b.log[|s.log|].uid == s.queue[0].uid
    requires s2 == b || s2 == b.(stop := true)
    requires Finish(s2, AsTurn(t, r, [])).1.Continue?
    ensures Simple(s, Finish(s2, AsTurn(t, r, [])).0)
  {
    var s' := Finish(s2, AsTurn(t, r, [])).0;
    FinishQueue(s2, t, r);
    RequeuedMembers(s2, s', t, r);
    FinishLog(s2, AsTurn(t, r, []));
  }

  lemma {:induction false} NotRecovered(c: Client, i: AddInput, x: TaskRec)
    requires 1 <= c.sched.nextUid && x.op == REVIVE
    ensures x !in Recover(c, i).sched.queue
  {
    WaitFiled(c, i);
    assert REVIVE !in Kinds(Recover(c, i).sched.queue);
  }

  lemma {:induction false} PendingPass(c: Client, t: ClientTurn, x: TaskRec)
    requires InMode(c) && InRange(c.sched, StepActions(c, t)) && IsTask(c, x, REVIVE) && c.sched.queue[0] != x
    requires ClientStep(c, t).1.Running? && x in ClientStep(c, t).0.sched.queue
    ensures Simple(c.sched, ClientStep(c, t).0.sched)
  {
    PassInMode(c, t);
    NotRecovered(Pass(c, t).0, t.recover, x);
    NeitherWaits(c, x);
    if t.head.ok {
      StartsLate(c, t);
      var kind, c1 := c.sched.queue[0].op, c.(sched := Begin(c.sched, t.head, t.overrun));
      SimpleSched(c1, kind, t.body);
      var (c2, r) := Body(c1, kind, t.body);
      if r.Result? && Finish(c2.sched, AsTurn(t, r.result, [])).1.Continue? {
        SimpleFinish(c.sched, c1.sched, c2.sched, t, r.result);
      }
    }
  }

  /** The task with the UID of `y` has been started `n` times, and can be at most twice in all. */
  predicate Owed(q: seq<TaskRec>, x: TaskRec, y: TaskRec, n: int) {
    n <= 2 && forall z :: z in q && z.uid == y.uid ==> n + Lead(x, z) <= 2
  }

  lemma {:induction false} OwedNext(c: Client, s': State, x: TaskRec, y: TaskRec, n: int)
    requires Owned(c.sched) && Sorted(c.sched.queue) && Soon(c.sched.queue, c.sched.clock, c.interval)
    requires x in c.sched.queue && Simple(c.sched, s') && Owed(c.sched.queue, x, y, n)
    ensures Owed(s'.queue, x, y, n + Once(c.sched.queue[0].uid == y.uid))
  {
    var q := c.sched.queue;
    assert q[0] in q && forall z :: z in q[1..] ==> z in q;
    FirstIsEarliest(q, x);
    FirstIsAlone(c.sched);
    forall z | z in s'.queue && z.uid == y.uid
      ensures n + Once(q[0].uid == y.uid) + Lead(x, z) <= 2
    {
      if z in q[1..] {
        var i :| 0 <= i < |q[1..]| && q[1..][i] == z;
        assert q[i + 1] == z;
      }
    }
  }

  lemma {:induction false} StartsNext(s: State, s': State, u: nat)
    requires s.queue != [] && Simple(s, s')
    ensures Starts(s'.log, u) == Starts(s.log, u) + Once(s.queue[0].uid == u)
  {
  }

  lemma {:induction false} IncOwed(c: Client, script: seq<ClientTurn>, x: TaskRec, y: TaskRec, n: int)
    requires Invariant(c) && ClientInRange(c, script) && x.op == REVIVE && Pending(c, script, x)
    requires Owed(c.sched.queue, x, y, n)
    ensures n + Starts(Thread(c, script).0.sched.log, y.uid) - Starts(c.sched.log, y.uid) <= 2
    decreases |script|
  {
    if script == [] {
    } else {
      var c1 := ClientStep(c, script[0]).0;
      PendingPass(c, script[0], x);
      StepKeepsInvariant(c, script[0]);
      OwedNext(c, c1.sched, x, y, n);
      StartsNext(c.sched, c1.sched, y.uid);
      IncOwed(c1, script[1..], x, y, n + Once(c.sched.queue[0].uid == y.uid));
    }
  }

  /** While a REVIVE task waits for its next start, the INC task is started at most twice. */
  lemma {:induction false} IncAtMostTwice(c: Client, script: seq<ClientTurn>, x: TaskRec, y: TaskRec)
    requires Invariant(c) && ClientInRange(c, script)
    requires IsTask(c, x, REVIVE) && IsTask(c, y, INCREMENT_COUNTER) && Pending(c, script, x)
    ensures Starts(Thread(c, script).0.sched.log, y.uid) <= Starts(c.sched.log, y.uid) + 2
  {
    QueuedAlone(c.sched, y);
    IncOwed(c, script, x, y, 0);
  }
}

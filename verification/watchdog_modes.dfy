/** The modes of the client: which tasks its scheduler can hold at the head of the loop. */
module WatchdogModes {
  import opened SchedulerSpec
  import opened WatchdogSpec

  function Kinds(q: seq<TaskRec>): set<nat> {
    set t | t in q :: t.op
  }

  const ACTIVE_MIN: set<nat> := {REVIVE, INCREMENT_COUNTER}
  const ACTIVE: set<nat> := {SEND_SIGNAL, REVIVE, INCREMENT_COUNTER}
  const WAITING: set<nat> := {CHECK_FOR_SIGNAL}

  /** No kind is queued twice, and each queued task's UID is in its slot. */
  predicate Filed(q: seq<TaskRec>, slots: Slots) {
    && (forall i, j :: 0 <= i < j < |q| ==> q[i].op != q[j].op)
    && (forall t :: t in q ==> t.op < NUM_OF_TASKS && slots[t.op] == t.uid)
  }

  /** The modes; once a stop is requested, active tasks may be missing. */
  predicate Mode(kinds: set<nat>, target: nat, stopping: bool) {
    || kinds == {}
    || kinds == WAITING
    || (kinds <= ACTIVE && (stopping || ACTIVE_MIN <= kinds))
    || (kinds == {REVIVE} && target == NO_TARGET)
  }

  predicate InMode(c: Client) {
    && !c.sched.stop && !c.sched.removeCur && 1 <= c.sched.nextUid
    && Filed(c.sched.queue, c.slots)
    && Mode(Kinds(c.sched.queue), c.target, c.shouldStop)
  }

  // ---------- Queues ----------

  lemma {:induction false} InsertMembers(q: seq<TaskRec>, t: TaskRec, tie: nat)
    ensures forall x :: x in Insert(q, t, tie) <==> x in q || x == t
  {
    var k := Position(q, t, tie);
    assert q == q[..k] + q[k..];
  }

  lemma {:induction false} InsertFiled(q: seq<TaskRec>, t: TaskRec, tie: nat, slots: Slots)
    requires Filed(q, slots) && t.op !in Kinds(q) && t.op < NUM_OF_TASKS && slots[t.op] == t.uid
    ensures Filed(Insert(q, t, tie), slots)
  {
    var k := Position(q, t, tie);
    var r := Insert(q, t, tie);
    InsertMembers(q, t, tie);
    forall i | 0 <= i < |q| ensures q[i].op != t.op {
      assert q[i] in q && q[i].op in Kinds(q);
    }
    forall i, j | 0 <= i < j < |r| ensures r[i].op != r[j].op {
      assert r[i] == (if i < k then q[i] else if i == k then t else q[i - 1]);
      assert r[j] == (if j < k then q[j] else if j == k then t else q[j - 1]);
    }
  }

  lemma {:induction false} InsertKinds(q: seq<TaskRec>, t: TaskRec, tie: nat, slots: Slots)
    requires Filed(q, slots) && t.op !in Kinds(q) && t.op < NUM_OF_TASKS && slots[t.op] == t.uid
    ensures Filed(Insert(q, t, tie), slots) && Kinds(Insert(q, t, tie)) == Kinds(q) + {t.op}
  {
    InsertFiled(q, t, tie, slots);
    InsertMembers(q, t, tie);
    var r := Insert(q, t, tie);
    assert t in r;
    forall x | x in Kinds(q) ensures x in Kinds(r) {
      var y :| y in q && y.op == x;
      assert y in r;
    }
  }

  lemma {:induction false} FirstKind(q: seq<TaskRec>, slots: Slots)
    requires Filed(q, slots) && q != []
    ensures Filed(q[1..], slots) && Kinds(q[1..]) == Kinds(q) - {q[0].op}
    ensures q[0].op in Kinds(q) && q[0].op < NUM_OF_TASKS && slots[q[0].op] == q[0].uid
  {
    assert q[0] in q;
    forall k | k in Kinds(q) - {q[0].op} ensures k in Kinds(q[1..]) {
      var t :| t in q && t.op == k;
      assert t in q[1..];
    }
    forall k | k in Kinds(q[1..]) ensures k in Kinds(q) && k != q[0].op {
      var i :| 0 <= i < |q[1..]| && q[1..][i].op == k;
      assert q[1..][i] == q[i + 1] && q[i + 1] in q;
    }
  }

  lemma {:induction false} NoKinds(q: seq<TaskRec>)
    ensures Kinds(q) == {} <==> q == []
  {
    assert q != [] ==> q[0] in q && q[0].op in Kinds(q);
  }

  /** As many tasks as kinds. */
  lemma {:induction false} EachKindOnce(q: seq<TaskRec>, slots: Slots)
    requires Filed(q, slots)
    ensures |q| == |Kinds(q)|
  {
    NoKinds(q);
    if q != [] {
      FirstKind(q, slots);
      EachKindOnce(q[1..], slots);
    }
  }

  lemma {:induction false} FreshSlot(q: seq<TaskRec>, slots: Slots, kind: nat, uid: nat)
    requires Filed(q, slots) && kind !in Kinds(q) && kind < NUM_OF_TASKS
    ensures Filed(q, slots[kind := uid])
  {
    forall t | t in q ensures slots[kind := uid][t.op] == t.uid {
      assert t.op in Kinds(q);
    }
  }

  /** What the calls on the scheduler leave alone. */
  predicate SameFrame(c: Client, c': Client) {
    && c'.sched.cur == c.sched.cur && c'.sched.removeCur == c.sched.removeCur && c'.sched.stop == c.sched.stop
    && c'.target == c.target && c'.shouldStop == c.shouldStop && c.sched.nextUid <= c'.sched.nextUid
  }

  function NewTask(c: Client, kind: nat, i: AddInput): TaskRec {
    TaskRec(c.sched.nextUid, c.interval, c.sched.clock + i.reading.delay + c.interval, kind)
  }

  /** SchedulerAddTask queues the new task, or leaves the queue as it was. */
  lemma {:induction false} TaskAdded(s: State, interval: Positive, op: nat, i: AddInput)
    requires 1 <= s.nextUid
    ensures var (s', uid) := AddTask(s, interval, op, i);
      && s'.cur == s.cur && s'.removeCur == s.removeCur && s'.stop == s.stop && s.nextUid <= s'.nextUid
      && (uid == s.nextUid || uid == BAD_UID)
      && s'.queue == if uid == BAD_UID then s.queue
                     else Insert(s.queue, TaskRec(s.nextUid, interval, s.clock + i.reading.delay + interval, op), i.tie)
  {
  }

  lemma {:induction false} AddFrame(c: Client, kind: nat, i: AddInput)
    requires kind < NUM_OF_TASKS && 1 <= c.sched.nextUid
    ensures SameFrame(c, AddTaskToSched(c, kind, i).0)
  {
    TaskAdded(c.sched, c.interval, kind, i);
  }

  /** AddTaskToSched around SchedulerAddTask. */
  lemma {:induction false} AddedTo(c: Client, kind: nat, i: AddInput)
    requires kind < NUM_OF_TASKS
    ensures var (s, uid) := AddTask(c.sched, c.interval, kind, i); var (c', ok) := AddTaskToSched(c, kind, i);
      c'.sched == s && ok == (uid != BAD_UID)
  {
  }

  lemma {:induction false} AddSlot(c: Client, kind: nat, i: AddInput)
    requires kind < NUM_OF_TASKS && 1 <= c.sched.nextUid
    ensures var (c', ok) := AddTaskToSched(c, kind, i);
      c'.slots == if ok then c.slots[kind := c.sched.nextUid] else c.slots
  {
    TaskAdded(c.sched, c.interval, kind, i);
  }

  lemma {:induction false} AddOutcome(c: Client, kind: nat, i: AddInput)
    requires kind < NUM_OF_TASKS && 1 <= c.sched.nextUid
    ensures var (c', ok) := AddTaskToSched(c, kind, i);
      && c'.sched.queue == (if ok then Insert(c.sched.queue, NewTask(c, kind, i), i.tie) else c.sched.queue)
      && c'.slots == if ok then c.slots[kind := c.sched.nextUid] else c.slots
  {
    AddedTo(c, kind, i);
    TaskAdded(c.sched, c.interval, kind, i);
    AddSlot(c, kind, i);
  }

  /** Adding a kind that is not queued: it is queued and filed, or nothing is. */
  lemma {:induction false} AddFiled(c: Client, kind: nat, i: AddInput)
    requires Filed(c.sched.queue, c.slots) && kind !in Kinds(c.sched.queue) && kind < NUM_OF_TASKS
    requires 1 <= c.sched.nextUid
    ensures var (c', ok) := AddTaskToSched(c, kind, i);
      && SameFrame(c, c')
      && Filed(c'.sched.queue, c'.slots)
      && Kinds(c'.sched.queue) == (if ok then Kinds(c.sched.queue) + {kind} else Kinds(c.sched.queue))
  {
    AddFrame(c, kind, i);
    AddOutcome(c, kind, i);
    if AddTaskToSched(c, kind, i).1 {
      FreshSlot(c.sched.queue, c.slots, kind, c.sched.nextUid);
      InsertKinds(c.sched.queue, NewTask(c, kind, i), i.tie, c.slots[kind := c.sched.nextUid]);
    }
  }

  /** The same, with the kinds given as a set. */
  lemma {:induction false} AddKind(c: Client, kinds: set<nat>, kind: nat, i: AddInput)
    requires Filed(c.sched.queue, c.slots) && Kinds(c.sched.queue) == kinds && kind !in kinds
    requires kind < NUM_OF_TASKS && 1 <= c.sched.nextUid
    ensures var (c', ok) := AddTaskToSched(c, kind, i);
      && SameFrame(c, c') && Filed(c'.sched.queue, c'.slots)
      && (ok ==> Kinds(c'.sched.queue) == kinds + {kind})
  {
    AddFiled(c, kind, i);
  }

  lemma {:induction false} SetFiled(c: Client, b: BodyInput)
    requires c.sched.queue == [] && 1 <= c.sched.nextUid
    ensures var (c', ok) := SetScheduler(c, b);
      && SameFrame(c, c')
      && (ok ==> Filed(c'.sched.queue, c'.slots) && Kinds(c'.sched.queue) == ACTIVE)
  {
    AddKind(c, {}, SEND_SIGNAL, b.add0);
    var (c1, ok1) := AddTaskToSched(c, SEND_SIGNAL, b.add0);
    if ok1 {
      var k1: set<nat> := {} + {SEND_SIGNAL};
      AddKind(c1, k1, REVIVE, b.add1);
      var (c2, ok2) := AddTaskToSched(c1, REVIVE, b.add1);
      if ok2 {
        AddKind(c2, k1 + {REVIVE}, INCREMENT_COUNTER, b.add2);
        assert k1 + {REVIVE} + {INCREMENT_COUNTER} == ACTIVE;
      }
    }
  }

  lemma {:induction false} WaitFiled(c: Client, i: AddInput)
    requires 1 <= c.sched.nextUid
    ensures var (c', ok) := AddTaskToSched(ClearSched(c), CHECK_FOR_SIGNAL, i);
      && Filed(c'.sched.queue, c'.slots)
      && Kinds(c'.sched.queue) == (if ok then WAITING else {})
      && SameFrame(ClearSched(c), c')
  {
    AddFiled(ClearSched(c), CHECK_FOR_SIGNAL, i);
  }

  // ---------- Bodies ----------

  /** The body leaves the queue alone; it gives up its place only to stop, or if it is SEND. */
  predicate Steady(c: Client, kind: nat, c': Client, r: TaskResult) {
    && c'.sched.queue == c.sched.queue && c'.slots == c.slots && c'.sched.nextUid == c.sched.nextUid
    && c'.sched.cur == c.sched.cur && !c'.sched.removeCur
    && (c.shouldStop ==> c'.shouldStop)
    && (r.Done? ==> kind in ACTIVE && (c'.shouldStop || kind == SEND_SIGNAL))
    && (r.Again? && kind in {REVIVE, INCREMENT_COUNTER} ==> c'.target == c.target)
    && (c'.sched.stop ==> c'.shouldStop)
  }

  /** The body rewrites the queue: to wait mode from REVIVE, to active mode from CHECK_FOR_SIGNAL. */
  predicate Switched(c: Client, kind: nat, c': Client, r: TaskResult) {
    && Filed(c'.sched.queue, c'.slots) && 1 <= c'.sched.nextUid && !c'.sched.stop && !r.Again?
    && ((kind == REVIVE && Kinds(c'.sched.queue) == if r.Done? then WAITING else {})
        || (kind == CHECK_FOR_SIGNAL && r.Done? && Kinds(c'.sched.queue) == ACTIVE))
  }

  predicate Unstopped(c: Client) {
    !c.sched.stop && !c.sched.removeCur && 1 <= c.sched.nextUid
  }

  lemma {:induction false} ReviveShape(c: Client, b: BodyInput)
    requires Unstopped(c)
    ensures var (c', r) := ReviveIfNeeded(c, b);
      r.Result? ==> Steady(c, REVIVE, c', r.result) || Switched(c, REVIVE, c', r.result)
  {
    if !c.shouldStop {
      var c2 := ResetIf(c, b.reset0);
      var c4 := ReviveApp(KillTarget(c2, b.kill), b.fork);
      WaitFiled(c4, b.add0);
    }
  }

  lemma {:induction false} WaitShape(c: Client, b: BodyInput)
    requires Unstopped(c) && c.sched.queue == []
    ensures var (c', r) := WaitForApp(c, b);
      r.Result? ==> Steady(c, CHECK_FOR_SIGNAL, c', r.result) || Switched(c, CHECK_FOR_SIGNAL, c', r.result)
  {
    if !c.shouldStop { SetFiled(ResetIf(c, b.reset0), b); }
  }

  lemma {:induction false} SimpleShape(c: Client, kind: nat, b: BodyInput)
    requires Unstopped(c) && kind in {INCREMENT_COUNTER, SEND_SIGNAL}
    ensures var (c', r) := Task(c, kind, b);
      r.Result? ==> Steady(c, kind, c', r.result)
  {
  }

  lemma {:induction false} BodyShape(c: Client, kind: nat, b: BodyInput)
    requires Unstopped(c) && kind < NUM_OF_TASKS && (kind == CHECK_FOR_SIGNAL ==> c.sched.queue == [])
    ensures var (c', r) := Body(c, kind, b);
      r.Result? ==> Steady(c, kind, c', r.result) || Switched(c, kind, c', r.result)
  {
    var c0 := RaiseIf(c, b.raise);
    if kind == REVIVE { ReviveShape(c0, b); }
    else if kind == CHECK_FOR_SIGNAL { WaitShape(c0, b); }
    else { SimpleShape(c0, kind, b); }
    var (c1, r) := Task(c0, kind, b);
    if r.Result? {
      var c2 := ResetIf(c1, b.reset1);
      if Steady(c0, kind, c1, r.result) { assert Steady(c, kind, c2, r.result); }
      else { assert Switched(c, kind, c2, r.result); }
    }
  }

  // ---------- One pass ----------

  lemma {:induction false} RecoverInMode(c: Client, i: AddInput)
    requires 1 <= c.sched.nextUid
    ensures InMode(Recover(c, i))
  {
    WaitFiled(c, i);
  }

  lemma {:induction false} RequeuedKinds(
    q: seq<TaskRec>, t: TaskRec, deadline: int, tie: nat, slots: Slots, kinds: set<nat>)
    requires Filed(q, slots) && t.op in kinds && Kinds(q) == kinds - {t.op}
    requires t.op < NUM_OF_TASKS && slots[t.op] == t.uid
    ensures Filed(Insert(q, t.(deadline := deadline), tie), slots)
    ensures Kinds(Insert(q, t.(deadline := deadline), tie)) == kinds
  {
    InsertKinds(q, t.(deadline := deadline), tie, slots);
    assert Kinds(q) + {t.op} == kinds;
  }

  /** The first task put back: the kinds stay. */
  lemma {:induction false} FirstRequeued(q: seq<TaskRec>, deadline: int, tie: nat, slots: Slots)
    requires Filed(q, slots) && q != []
    ensures var r := Insert(q[1..], q[0].(deadline := deadline), tie); Filed(r, slots) && Kinds(r) == Kinds(q)
  {
    FirstKind(q, slots);
    RequeuedKinds(q[1..], q[0], deadline, tie, slots, Kinds(q));
  }

  /** The queue after a pass that continues the run. */
  predicate Requeued(s: State, s': State, t: ClientTurn, r: TaskResult)
    requires s.cur.Some?
  {
    var rec := s.cur.value.(deadline := s.clock + t.requeue.delay + s.cur.value.interval);
    && !s.stop && !s'.stop && !s'.removeCur && !r.Fail?
    && s'.queue == if r.Again? then Insert(s.queue, rec, t.tie) else s.queue
  }

  lemma {:induction false} FinishQueue(s: State, t: ClientTurn, r: TaskResult)
    requires s.cur.Some? && !s.removeCur
    ensures var (s', o) := Finish(s, AsTurn(t, r, []));
      s'.nextUid == s.nextUid && (o.Continue? ==> Requeued(s, s', t, r))
  {
  }

  /** Leaving the set of queued kinds as it is, or giving up a place, stays within the modes. */
  lemma {:induction false} ModeKept(
    kinds: set<nat>, kind: nat, target: nat, target': nat, stopping: bool, stopping': bool)
    requires Mode(kinds, target, stopping) && kind in kinds && (stopping ==> stopping')
    ensures kind == CHECK_FOR_SIGNAL || kind == SEND_SIGNAL || target' == target ==> Mode(kinds, target', stopping')
    ensures kind in ACTIVE && (stopping' || kind == SEND_SIGNAL) ==> Mode(kinds - {kind}, target', stopping')
  {
  }

  /** The state in which a body of kind `kind` runs, of a queue that held `kinds`. */
  predicate InBody(c: Client, kind: nat, kinds: set<nat>) {
    && Unstopped(c) && c.sched.cur.Some? && c.sched.cur.value.op == kind && kind < NUM_OF_TASKS
    && Filed(c.sched.queue, c.slots) && c.slots[kind] == c.sched.cur.value.uid
    && kind in kinds && Kinds(c.sched.queue) == kinds - {kind}
    && Mode(kinds, c.target, c.shouldStop)
  }

  lemma {:induction false} AgainQueue(s: State, s': State, t: ClientTurn, slots: Slots, kinds: set<nat>)
    requires s.cur.Some? && Requeued(s, s', t, Again) && Filed(s.queue, slots)
    requires var k := s.cur.value.op;
      k < NUM_OF_TASKS && slots[k] == s.cur.value.uid && k in kinds && Kinds(s.queue) == kinds - {k}
    ensures Filed(s'.queue, slots) && Kinds(s'.queue) == kinds
  {
    var cur := s.cur.value;
    var due := s.clock + t.requeue.delay + cur.interval;
    assert s'.queue == Insert(s.queue, cur.(deadline := due), t.tie);
    RequeuedKinds(s.queue, cur, due, t.tie, slots, kinds);
  }

  lemma {:induction false} SteadyQueue(s: State, s': State, t: ClientTurn, r: TaskResult, slots: Slots, kinds: set<nat>)
    requires s.cur.Some? && Requeued(s, s', t, r) && Filed(s.queue, slots)
    requires var k := s.cur.value.op;
      k < NUM_OF_TASKS && slots[k] == s.cur.value.uid && k in kinds && Kinds(s.queue) == kinds - {k}
    ensures Filed(s'.queue, slots)
    ensures Kinds(s'.queue) == if r.Again? then kinds else kinds - {s.cur.value.op}
  {
    if r.Again? {
      AgainQueue(s, s', t, slots, kinds);
    }
  }

  lemma {:induction false} SteadyFinish(c: Client, kind: nat, c': Client, r: TaskResult, t: ClientTurn, kinds: set<nat>)
    requires InBody(c, kind, kinds) && Steady(c, kind, c', r)
    ensures var (s, o) := Finish(c'.sched, AsTurn(t, r, []));
      1 <= s.nextUid && (o.Continue? ==> InMode(c'.(sched := s)))
  {
    FinishQueue(c'.sched, t, r);
    var (s, o) := Finish(c'.sched, AsTurn(t, r, []));
    if o.Continue? {
      SteadyQueue(c'.sched, s, t, r, c.slots, kinds);
      ModeKept(kinds, kind, c.target, c'.target, c.shouldStop, c'.shouldStop);
    }
  }

  lemma {:induction false} SwitchedFinish(c: Client, kind: nat, c': Client, r: TaskResult, t: ClientTurn)
    requires Switched(c, kind, c', r)
    ensures var (s, o) := Finish(c'.sched, AsTurn(t, r, []));
      1 <= s.nextUid && (o.Continue? ==> InMode(c'.(sched := s)))
  {
  }

  lemma {:induction false} TaskPassInMode(c: Client, t: ClientTurn)
    requires InMode(c) && t.head.ok && c.sched.queue != []
    ensures var (c', r) := Pass(c, t);
      r.Ran? ==> 1 <= c'.sched.nextUid && (r.outcome.Continue? ==> InMode(c'))
  {
    var q := c.sched.queue;
    var kind := q[0].op;
    FirstKind(q, c.slots);
    var c1 := c.(sched := Begin(c.sched, t.head, t.overrun));
    if kind == CHECK_FOR_SIGNAL {
      assert Kinds(q) == WAITING;
      NoKinds(q[1..]);
    }
    BodyShape(c1, kind, t.body);
    var (c2, r) := Body(c1, kind, t.body);
    if r.Result? {
      if Steady(c1, kind, c2, r.result) { SteadyFinish(c1, kind, c2, r.result, t, Kinds(q)); }
      else { SwitchedFinish(c1, kind, c2, r.result, t); }
    }
  }

  /** A pass of the client aborts exactly when it finds its queue empty. No task of the client is
      put back after its removal, though REVIVE clears the scheduler that runs it. */
  lemma {:induction false} AbortsExactly(c: Client, t: ClientTurn)
    requires InMode(c)
    ensures Pass(c, t).1 == Ran(Aborted) <==> t.head.ok && c.sched.queue == []
  {
    var q := c.sched.queue;
    if t.head.ok && q != [] {
      FirstKind(q, c.slots);
      var c1 := c.(sched := Begin(c.sched, t.head, t.overrun));
      if q[0].op == CHECK_FOR_SIGNAL {
        assert Kinds(q) == WAITING;
        NoKinds(q[1..]);
      }
      BodyShape(c1, q[0].op, t.body);
    }
  }

  /** At the head of the loop, a current task is left over only in wait mode, or with nothing
      queued: after a clock failure in putting it back. */
  predicate LeftOver(c: Client) {
    c.sched.cur.Some? ==> Kinds(c.sched.queue) <= WAITING
  }

  lemma {:induction false} StepLeftOver(c: Client, t: ClientTurn)
    ensures var (c', p) := ClientStep(c, t); p.Running? && 1 <= Pass(c, t).0.sched.nextUid ==> LeftOver(c')
  {
    var c1 := Pass(c, t).0;
    if 1 <= c1.sched.nextUid { WaitFiled(c1, t.recover); }
  }

  lemma {:induction false} PassInMode(c: Client, t: ClientTurn)
    requires InMode(c)
    ensures var (c', r) := Pass(c, t);
      r.Ran? ==> 1 <= c'.sched.nextUid && (r.outcome.Continue? ==> InMode(c'))
  {
    if t.head.ok && c.sched.queue != [] { TaskPassInMode(c, t); }
  }

  lemma {:induction false} StepInMode(c: Client, t: ClientTurn)
    requires InMode(c)
    ensures var (c', p) := ClientStep(c, t); p.Running? ==> InMode(c')
  {
    PassInMode(c, t);
    var (c1, r) := Pass(c, t);
    if r.Ran? { RecoverInMode(c1, t.recover); }
  }

  lemma {:induction false} ThreadInMode(c: Client, script: seq<ClientTurn>)
    requires InMode(c) && LeftOver(c)
    ensures var (c', p) := Thread(c, script); p.Running? ==> InMode(c') && LeftOver(c')
    decreases |script|
  {
    if script == [] {
    } else {
      StepInMode(c, script[0]);
      PassInMode(c, script[0]);
      StepLeftOver(c, script[0]);
      var (c1, p) := ClientStep(c, script[0]);
      if p.Running? { ThreadInMode(c1, script[1..]); }
    }
  }

  lemma {:induction false} StartInMode(clock: int, interval: Positive, maxMissed: Positive, i: AddInput)
    ensures var c := StartClient(clock, interval, maxMissed, i).0; InMode(c) && LeftOver(c)
  {
    AddFiled(Client(Create(clock), NO_TARGET, NO_UIDS, maxMissed, false, interval, maxMissed, []), REVIVE, i);
  }

  /** In every state a running client reaches, before a stop is requested: its scheduler holds
      nothing, or CHECK_FOR_SIGNAL alone, or REVIVE and INC with or without SEND, or REVIVE
      alone while there has been no target; no kind twice; every UID in its slot. */
  lemma {:induction false} ClientModes(
    clock: int, interval: Positive, maxMissed: Positive, i: AddInput, script: seq<ClientTurn>)
    requires Thread(StartClient(clock, interval, maxMissed, i).0, script).1.Running?
    ensures var c := Thread(StartClient(clock, interval, maxMissed, i).0, script).0;
      var kinds := Kinds(c.sched.queue);
      && (!c.shouldStop ==> kinds in {{}, WAITING, ACTIVE_MIN, ACTIVE} || (kinds == {REVIVE} && c.target == NO_TARGET))
      && (c.shouldStop ==> kinds == WAITING || kinds <= ACTIVE)
      && (forall a, b :: 0 <= a < b < |c.sched.queue| ==> c.sched.queue[a].op != c.sched.queue[b].op)
      && (forall t :: t in c.sched.queue ==> t.op < NUM_OF_TASKS && c.slots[t.op] == t.uid)
  {
    StartInMode(clock, interval, maxMissed, i);
    ThreadInMode(StartClient(clock, interval, maxMissed, i).0, script);
    var c := Thread(StartClient(clock, interval, maxMissed, i).0, script).0;
    var kinds := Kinds(c.sched.queue);
    if ACTIVE_MIN <= kinds <= ACTIVE {
      if SEND_SIGNAL in kinds { assert kinds == ACTIVE; } else { assert kinds == ACTIVE_MIN; }
    }
  }
}

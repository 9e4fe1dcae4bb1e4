/** Order and timing of starts over whole histories. */
module SchedulerTiming {
  import opened SchedulerSpec
  import opened SchedulerOwnership
  import opened SchedulerControl
  import opened SchedulerOrder

  // ---------- Runs in which the comparison and the sleep are right ----------

  function DeadlineOf(s: State, c: Call): int
    requires c.Add?
  {
    s.clock + c.input.reading.delay + c.interval
  }

  function AddedTask(s: State, c: Call): TaskRec
    requires c.Add?
  {
    TaskRec(s.nextUid, c.interval, DeadlineOf(s, c), c.op)
  }

  predicate CallInRange(s: State, c: Call) {
    c.Add? && c.input.uidOk && c.input.reading.ok && c.input.enqueueOk ==> Placed(s.queue, AddedTask(s, c))
  }

  predicate CallsInRange(s: State, cs: seq<Call>)
    decreases |cs|
  {
    cs == [] || (CallInRange(s, cs[0]) && CallsInRange(Perform(s, cs[0]), cs[1..]))
  }

  function RequeuedTask(s: State, turn: Turn): TaskRec
    requires s.cur.Some?
  {
    s.cur.value.(deadline := s.clock + turn.requeue.delay + s.cur.value.interval)
  }

  predicate FinishInRange(s: State, turn: Turn) {
    turn.result.Again? && s.cur.Some? && !s.removeCur && turn.requeue.ok && turn.enqueueOk ==>
      Placed(s.queue, RequeuedTask(s, turn))
  }

  predicate StepInRange(s: State, turn: Turn) {
    turn.head.ok && s.queue != [] ==>
      && s.queue[0].deadline - (s.clock + turn.head.delay) < TWO_TO_31
      && CallsInRange(Begin(s, turn.head, turn.overrun), turn.calls)
      && FinishInRange(PerformAll(Begin(s, turn.head, turn.overrun), turn.calls), turn)
  }

  predicate RunInRange(s: State, script: seq<Turn>)
    decreases |script|
  {
    Empty(s) || s.stop || script == [] ||
    (StepInRange(s, script[0]) && (Step(s, script[0]).1.Continue? ==> RunInRange(Step(s, script[0]).0, script[1..])))
  }

  predicate InRange(s: State, actions: seq<Action>)
    decreases |actions|
  {
    actions != [] ==>
      && (match actions[0] case Api(c) => CallInRange(s, c) case RunLoop(script) => RunInRange(EnterRun(s), script))
      && InRange(Act(s, actions[0]), actions[1..])
  }

  // ---------- The invariant ----------

  /** The starts so far: on time, in deadline order, and those of one task an interval apart. */
  predicate LogTimely(s: State) {
    && (forall i :: 0 <= i < |s.log| ==>
          s.log[i].deadline <= s.log[i].at <= s.clock && s.log[i].uid < s.nextUid)
    && (forall i, j :: 0 <= i < j < |s.log| ==> OrderedStarts(s.log[i], s.log[j]))
  }

  predicate OrderedStarts(a: Start, b: Start) {
    && a.deadline <= b.deadline
    && a.at <= b.at
    && (a.uid == b.uid ==> a.interval == b.interval && a.at + a.interval <= b.deadline)
  }

  /** A queued task is not due before what has started, nor within an interval of its own start. */
  predicate Follows(t: TaskRec, e: Start) {
    && e.deadline <= t.deadline
    && (e.uid == t.uid ==> e.interval == t.interval && e.at + e.interval <= t.deadline)
  }

  predicate QueueFollows(s: State) {
    forall i, j :: 0 <= i < |s.queue| && 0 <= j < |s.log| ==> Follows(s.queue[i], s.log[j])
  }

  predicate CurTimely(s: State) {
    s.cur.Some? ==> forall j :: 0 <= j < |s.log| ==>
      s.log[j].uid == s.cur.value.uid ==> s.log[j].interval == s.cur.value.interval
  }

  /** The starts so far are timely, and what is queued and running does not contradict them. */
  predicate StartsTimely(s: State) {
    LogTimely(s) && QueueFollows(s) && CurTimely(s)
  }

  predicate Timely(s: State) {
    StartsTimely(s) && Sorted(s.queue)
  }

  // ---------- Starts, however the queue is ordered ----------

  predicate FollowsAll(t: TaskRec, log: seq<Start>) {
    forall j :: 0 <= j < |log| ==> Follows(t, log[j])
  }

  /** Between starts: the queue keeps what it had, or gets what follows all starts. */
  lemma {:induction false} BetweenStarts(s: State, s': State)
    requires StartsTimely(s) && s'.log == s.log && s.clock <= s'.clock && s.nextUid <= s'.nextUid
    requires s'.cur == s.cur || s'.cur.None?
    requires forall i :: 0 <= i < |s'.queue| ==> s'.queue[i] in s.queue || FollowsAll(s'.queue[i], s.log)
    ensures StartsTimely(s')
  {
    forall i, j | 0 <= i < |s'.queue| && 0 <= j < |s'.log| ensures Follows(s'.queue[i], s'.log[j]) {
      if s'.queue[i] in s.queue {
        var k :| 0 <= k < |s.queue| && s.queue[k] == s'.queue[i];
      }
    }
  }

  lemma {:induction false} InsertMember(q: seq<TaskRec>, t: TaskRec, tie: nat)
    ensures forall i :: 0 <= i < |Insert(q, t, tie)| ==> Insert(q, t, tie)[i] in q || Insert(q, t, tie)[i] == t
  {
  }

  lemma {:induction false} AddStarts(s: State, c: Call)
    requires StartsTimely(s) && c.Add?
    ensures StartsTimely(Perform(s, c))
  {
    InsertMember(s.queue, AddedTask(s, c), c.input.tie);
    assert FollowsAll(AddedTask(s, c), s.log);
    BetweenStarts(s, Perform(s, c));
  }

  lemma {:induction false} PerformStarts(s: State, c: Call)
    requires StartsTimely(s)
    ensures StartsTimely(Perform(s, c))
  {
    match c
    case Add(interval, op, i) => AddStarts(s, c);
    case Remove(u) => BetweenStarts(s, Perform(s, c));
    case Clear =>
    case Stop =>
  }

  lemma {:induction false} FinishStarts(s: State, turn: Turn)
    requires StartsTimely(s)
    ensures StartsTimely(Finish(s, turn).0)
  {
    if turn.result.Again? && s.cur.Some? && !s.removeCur {
      InsertMember(s.queue, RequeuedTask(s, turn), turn.tie);
      assert FollowsAll(RequeuedTask(s, turn), s.log);
    }
    BetweenStarts(s, Finish(s, turn).0);
  }

  /** The first task is due no later than the others. */
  predicate FirstIsDue(q: seq<TaskRec>) {
    q != [] ==> forall i :: 0 <= i < |q| ==> q[0].deadline <= q[i].deadline
  }

  /** The only queued task with the UID of the first one is the first one. */
  lemma {:induction false} FirstIsAlone(s: State)
    requires Owned(s) && s.queue != []
    ensures forall i :: 1 <= i < |s.queue| ==> s.queue[i].uid != s.queue[0].uid
    ensures 1 <= s.queue[0].uid < s.nextUid
  {
    QueuedDistinct(s, 0, 0);
    forall i | 1 <= i < |s.queue| ensures s.queue[i].uid != s.queue[0].uid {
      if s.queue[i].uid == s.queue[0].uid { QueuedDistinct(s, 0, i); }
    }
  }

  /** A start in time, of a task that follows all starts, is one more timely start. */
  lemma {:induction false} OneMoreStart(s: State, s': State, t: TaskRec)
    requires LogTimely(s) && FollowsAll(t, s.log) && t.uid < s.nextUid && s.nextUid <= s'.nextUid
    requires s.clock <= s'.clock && t.deadline <= s'.clock
    requires s'.log == s.log + [Start(t.uid, t.interval, t.deadline, s'.clock)]
    ensures LogTimely(s')
  {
    forall i, j | 0 <= i < j < |s'.log| ensures OrderedStarts(s'.log[i], s'.log[j]) {
      if j == |s.log| { assert Follows(t, s.log[i]); }
    }
  }

  lemma {:induction false} BeginStarts(s: State, head: Reading, overrun: nat)
    requires Owned(s) && StartsTimely(s) && s.queue != [] && FirstIsDue(s.queue)
    requires s.queue[0].deadline - (s.clock + head.delay) < TWO_TO_31
    ensures StartsTimely(Begin(s, head, overrun))
  {
    var t, b := s.queue[0], Begin(s, head, overrun);
    NarrowExact(t.deadline - (s.clock + head.delay));
    FirstIsAlone(s);
    assert FollowsAll(t, s.log);
    OneMoreStart(s, b, t);
    forall i, j | 0 <= i < |b.queue| && 0 <= j < |b.log| ensures Follows(b.queue[i], b.log[j]) {
      assert b.queue[i] == s.queue[i + 1];
    }
  }

  // ---------- The order of the queue ----------

  lemma {:induction false} AddPlaces(s: State, c: Call)
    requires c.Add? && CallInRange(s, c)
    ensures var q, t := Perform(s, c).queue, AddedTask(s, c);
      q == s.queue || (q == Insert(s.queue, t, c.input.tie) && Placed(s.queue, t))
  {
  }

  lemma {:induction false} PlacedSorted(q: seq<TaskRec>, t: TaskRec, tie: nat)
    requires Sorted(q) && Placed(q, t)
    ensures Sorted(Insert(q, t, tie))
  {
    InsertSorted(q, t, tie);
  }

  lemma {:induction false} AddSorted(s: State, c: Call)
    requires Sorted(s.queue) && c.Add? && CallInRange(s, c)
    ensures Sorted(Perform(s, c).queue)
  {
    AddPlaces(s, c);
    if Perform(s, c).queue != s.queue { PlacedSorted(s.queue, AddedTask(s, c), c.input.tie); }
  }

  lemma {:induction false} CutSorted(q: seq<TaskRec>, k: nat)
    requires Sorted(q) && k < |q|
    ensures Sorted(q[..k] + q[k + 1..])
  {
    var r := q[..k] + q[k + 1..];
    assert forall i :: 0 <= i < |r| ==> r[i] == if i < k then q[i] else q[i + 1];
  }

  lemma {:induction false} PerformSorted(s: State, c: Call)
    requires Sorted(s.queue) && CallInRange(s, c)
    ensures Sorted(Perform(s, c).queue)
  {
    match c
    case Add(interval, op, i) => AddSorted(s, c);
    case Remove(u) => if IndexOf(s.queue, u) < |s.queue| { CutSorted(s.queue, IndexOf(s.queue, u)); }
    case Clear =>
    case Stop =>
  }

  lemma {:induction false} PerformTimely(s: State, c: Call)
    requires Timely(s) && CallInRange(s, c)
    ensures Timely(Perform(s, c))
  {
    PerformStarts(s, c);
    PerformSorted(s, c);
  }

  lemma {:induction false} PerformAllTimely(s: State, cs: seq<Call>)
    requires Timely(s) && CallsInRange(s, cs)
    ensures Timely(PerformAll(s, cs))
    decreases |cs|
  {
    if cs == [] {
    } else {
      PerformTimely(s, cs[0]);
      PerformAllTimely(Perform(s, cs[0]), cs[1..]);
    }
  }

  lemma {:induction false} BeginTimely(s: State, head: Reading, overrun: nat)
    requires Owned(s) && Timely(s) && s.queue != []
    requires s.queue[0].deadline - (s.clock + head.delay) < TWO_TO_31
    ensures Timely(Begin(s, head, overrun))
  {
    BeginStarts(s, head, overrun);
  }

  /** The queue after a pass: as it was, or with the task of the pass put back. */
  lemma {:induction false} FinishedQueue(s: State, turn: Turn)
    ensures var q := Finish(s, turn).0.queue;
      q == s.queue || (turn.result.Again? && s.cur.Some? && !s.removeCur && turn.requeue.ok && turn.enqueueOk
                       && q == Insert(s.queue, RequeuedTask(s, turn), turn.tie))
  {
  }

  lemma {:induction false} FinishSorted(s: State, turn: Turn)
    requires Sorted(s.queue) && FinishInRange(s, turn)
    ensures Sorted(Finish(s, turn).0.queue)
  {
    FinishedQueue(s, turn);
    if Finish(s, turn).0.queue != s.queue { InsertSorted(s.queue, RequeuedTask(s, turn), turn.tie); }
  }

  lemma {:induction false} FinishTimely(s: State, turn: Turn)
    requires Timely(s) && FinishInRange(s, turn)
    ensures Timely(Finish(s, turn).0)
  {
    FinishStarts(s, turn);
    FinishSorted(s, turn);
  }

  lemma {:induction false} StepTimely(s: State, turn: Turn)
    requires Owned(s) && Timely(s) && StepInRange(s, turn)
    ensures Timely(Step(s, turn).0)
  {
    if turn.head.ok && s.queue != [] {
      var b := Begin(s, turn.head, turn.overrun);
      BeginTimely(s, turn.head, turn.overrun);
      PerformAllTimely(b, turn.calls);
      FinishTimely(PerformAll(b, turn.calls), turn);
    }
  }

  lemma {:induction false} RunFromTimely(s: State, script: seq<Turn>)
    requires Owned(s) && Timely(s) && RunInRange(s, script)
    ensures Timely(RunFrom(s, script).0)
    decreases |script|
  {
    if Empty(s) || s.stop || script == [] {
    } else {
      StepTimely(s, script[0]);
      StepKeepsOwned(s, script[0]);
      var (s1, o) := Step(s, script[0]);
      if o.Continue? { RunFromTimely(s1, script[1..]); }
    }
  }

  lemma {:induction false} ActAllTimely(s: State, actions: seq<Action>)
    requires Owned(s) && Timely(s) && InRange(s, actions)
    ensures Timely(ActAll(s, actions))
    decreases |actions|
  {
    if actions == [] {
    } else {
      var a := actions[0];
      match a {
        case Api(c) => PerformTimely(s, c);
        case RunLoop(script) =>
          EnterRunKeepsOwned(s);
          RunFromTimely(EnterRun(s), script);
      }
      ActKeepsOwned(s, a);
      ActAllTimely(Act(s, a), actions[1..]);
    }
  }

  /** What is promised of starts: none before its deadline, all in the order of their deadlines,
      and two of the same task at least its interval apart. */
  predicate TimelyStarts(log: seq<Start>) {
    && (forall i :: 0 <= i < |log| ==> log[i].deadline <= log[i].at)
    && (forall i, j :: 0 <= i < j < |log| ==>
          log[i].deadline <= log[j].deadline && (log[i].uid == log[j].uid ==> log[i].at + log[i].interval <= log[j].at))
  }

  lemma {:induction false} LogIsTimely(s: State)
    requires LogTimely(s)
    ensures TimelyStarts(s.log)
  {
    forall i, j | 0 <= i < j < |s.log|
      ensures s.log[i].deadline <= s.log[j].deadline
      ensures s.log[i].uid == s.log[j].uid ==> s.log[i].at + s.log[i].interval <= s.log[j].at
    {
      assert OrderedStarts(s.log[i], s.log[j]);
    }
  }

  /** Over every history in which insertions and sleeps are right, starts are timely. */
  lemma {:induction false} StartsAreTimely(clock: int, actions: seq<Action>)
    requires InRange(Create(clock), actions)
    ensures TimelyStarts(ActAll(Create(clock), actions).log)
  {
    EveryTaskHasOneOwner(clock, []);
    ActAllTimely(Create(clock), actions);
    LogIsTimely(ActAll(Create(clock), actions));
  }

  /** Out of range, none of it holds: a task due 2^31 + 1 seconds from now goes before one due
      in a second, and is not slept for. */
  lemma {:induction false} FarDeadlineStartsEarly()
    ensures var add := AddInput(true, Reading(0, true), true, 0);
      var turn := Turn(Reading(0, true), [], 0, [], Done, Reading(0, true), true, 0);
      var s := ActAll(Create(0), [Api(Add(TWO_TO_31 + 1, 0, add)), Api(Add(1, 0, add)), RunLoop([turn])]);
      s.log == [Start(1, TWO_TO_31 + 1, TWO_TO_31 + 1, 0)] && s.queue == [TaskRec(2, 1, 1, 0)]
  {
    var add := AddInput(true, Reading(0, true), true, 0);
    var turn := Turn(Reading(0, true), [], 0, [], Done, Reading(0, true), true, 0);
    var far, near := TaskRec(1, TWO_TO_31 + 1, TWO_TO_31 + 1, 0), TaskRec(2, 1, 1, 0);
    var a, b, r := Api(Add(TWO_TO_31 + 1, 0, add)), Api(Add(1, 0, add)), RunLoop([turn]);
    var s1 := Act(Create(0), a);
    assert s1.queue == [far];
    assert PriorityFunc(far, near) < 0 && [far][1..] == [];
    var s2 := Act(s1, b);
    assert Rank([far], near, false) == 1 && Rank([far], near, true) == 1;
    assert s2.queue == [far, near];
    var s3 := Step(s2, turn).0;
    assert SleepTime(far.deadline, 0) == 0;
    assert RunFrom(s2, [turn]) == RunFrom(s3, [turn][1..]);
    assert Act(s2, r) == s3;
    ActThree(Create(0), a, b, r);
  }

  lemma {:induction false} ActThree(s: State, a: Action, b: Action, c: Action)
    ensures ActAll(s, [a, b, c]) == Act(Act(Act(s, a), b), c)
  {
    assert [a, b, c][1..] == [b, c] && [b, c][1..] == [c] && [c][1..] == [];
    assert ActAll(Act(Act(s, a), b), [c]) == ActAll(Act(Act(Act(s, a), b), c), []);
  }
}

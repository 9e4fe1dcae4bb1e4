/** No queued task starves, and how often one task can overtake another. */
module SchedulerFairness {
  import opened SchedulerSpec
  import opened SchedulerOwnership
  import opened SchedulerControl
  import opened SchedulerOrder
  import opened SchedulerTiming
  import opened SchedulerRange

  /** A pass, from `s`, without failure or stop. The task may add tasks, any number of them, and
      remove others, but not `t`; itself only if it does not ask to run again. */
  predicate Quiet(s: State, turn: Turn, t: TaskRec) {
    && turn.head.ok && turn.requeue.ok && turn.enqueueOk && !turn.result.Fail?
    && (forall i :: 0 <= i < |turn.calls| ==> Spares(turn.calls[i], t))
    && (turn.result.Again? && s.queue != [] ==> !RemovesSelf(turn.calls, s.queue[0].uid))
  }

  predicate Spares(c: Call, t: TaskRec) {
    c.Add? || (c.Remove? && c.uid != t.uid)
  }

  function CountAt(q: seq<TaskRec>, d: int): nat {
    if q == [] then 0 else Once(q[0].deadline == d) + CountAt(q[1..], d)
  }

  lemma {:induction false} CountAtConcat(a: seq<TaskRec>, b: seq<TaskRec>, d: int)
    ensures CountAt(a + b, d) == CountAt(a, d) + CountAt(b, d)
  {
    if a == [] {
      assert a + b == b;
    } else {
      assert (a + b)[1..] == a[1..] + b;
      CountAtConcat(a[1..], b, d);
    }
  }

  lemma {:induction false} CountAtInsert(q: seq<TaskRec>, t: TaskRec, tie: nat, d: int)
    requires t.deadline != d
    ensures CountAt(Insert(q, t, tie), d) == CountAt(q, d)
  {
    var k := Position(q, t, tie);
    CountAtConcat(q[..k] + [t], q[k..], d);
    CountAtConcat(q[..k], [t], d);
    CountAtConcat(q[..k], q[k..], d);
    assert q[..k] + q[k..] == q;
    assert [t][1..] == [];
  }

  lemma {:induction false} CountAtCut(q: seq<TaskRec>, k: nat, d: int)
    requires k < |q|
    ensures CountAt(q[..k] + q[k + 1..], d) <= CountAt(q, d)
  {
    CountAtConcat(q[..k], q[k..], d);
    CountAtConcat(q[..k], q[k + 1..], d);
    assert q[..k] + q[k..] == q && q[k..][1..] == q[k + 1..];
  }

  /** `q'` keeps `t`; what it adds is later than `floor` and has newer UIDs. */
  predicate Altered(q: seq<TaskRec>, q': seq<TaskRec>, t: TaskRec, floor: int, newer: nat) {
    && (t in q ==> t in q')
    && (forall x :: x in q' ==> x in q || (floor < x.deadline && newer <= x.uid))
    && CountAt(q', floor) <= CountAt(q, floor)
  }

  lemma {:induction false} InsertAlters(q: seq<TaskRec>, x: TaskRec, tie: nat, t: TaskRec, floor: int)
    requires floor < x.deadline
    ensures Altered(q, Insert(q, x, tie), t, floor, x.uid)
  {
    CountAtInsert(q, x, tie, floor);
    var k := Position(q, x, tie);
    assert q == q[..k] + q[k..];
  }

  lemma {:induction false} CutAlters(q: seq<TaskRec>, k: nat, t: TaskRec, floor: int, newer: nat)
    requires k < |q| && q[k].uid != t.uid
    ensures Altered(q, q[..k] + q[k + 1..], t, floor, newer)
  {
    CountAtCut(q, k, floor);
    assert q == q[..k] + [q[k]] + q[k + 1..];
  }

  /** `s'` differs from `s` as sparing calls at or after `floor` make it differ. */
  predicate Spared(s: State, s': State, t: TaskRec, floor: int) {
    && Altered(s.queue, s'.queue, t, floor, s.nextUid)
    && s.clock <= s'.clock && s.nextUid <= s'.nextUid && s'.log == s.log
  }

  lemma {:induction false} AddAlters(s: State, c: Call, t: TaskRec, floor: int)
    requires c.Add? && floor <= s.clock
    ensures Spared(s, Perform(s, c), t, floor)
  {
    var q' := Perform(s, c).queue;
    assert q' == s.queue || q' == Insert(s.queue, AddedTask(s, c), c.input.tie);
    InsertAlters(s.queue, AddedTask(s, c), c.input.tie, t, floor);
  }

  lemma {:induction false} CallAlters(s: State, c: Call, t: TaskRec, floor: int)
    requires Spares(c, t) && floor <= s.clock
    ensures Spared(s, Perform(s, c), t, floor)
  {
    if c.Add? {
      AddAlters(s, c, t, floor);
    } else {
      var k := IndexOf(s.queue, c.uid);
      if k < |s.queue| { CutAlters(s.queue, k, t, floor, s.nextUid); }
    }
  }

  lemma {:induction false} AlteredTrans(
    a: seq<TaskRec>, b: seq<TaskRec>, c: seq<TaskRec>, t: TaskRec, floor: int, m: nat, n: nat)
    requires Altered(a, b, t, floor, m) && Altered(b, c, t, floor, n) && m <= n
    ensures Altered(a, c, t, floor, m)
  {
  }

  lemma {:induction false} CallsAlter(s: State, cs: seq<Call>, t: TaskRec, floor: int)
    requires floor <= s.clock && forall i :: 0 <= i < |cs| ==> Spares(cs[i], t)
    ensures Spared(s, PerformAll(s, cs), t, floor)
    decreases |cs|
  {
    if cs == [] {
    } else {
      var s1 := Perform(s, cs[0]);
      CallAlters(s, cs[0], t, floor);
      CallsAlter(s1, cs[1..], t, floor);
      AlteredTrans(s.queue, s1.queue, PerformAll(s1, cs[1..]).queue, t, floor, s.nextUid, s1.nextUid);
    }
  }

  /** What remains of task `t` in the queue after its pass, if anything. */
  predicate Rerun(t: TaskRec, x: TaskRec) {
    x.uid == t.uid && x.interval == t.interval && t.deadline + t.interval <= x.deadline
  }

  /** A queue after a pass of its first task: `t` stays, newcomers are later. */
  predicate Advanced(q: seq<TaskRec>, q': seq<TaskRec>, t: TaskRec, newer: nat)
    requires q != []
  {
    && (t in q[1..] ==> t in q')
    && (forall x :: x in q' ==> x in q[1..] || Rerun(q[0], x) || (q[0].deadline < x.deadline && newer <= x.uid))
    && CountAt(q', q[0].deadline) < CountAt(q, q[0].deadline)
  }

  /** How a pass ends that neither fails nor puts back a removed task. */
  lemma {:induction false} QuietEnd(p: State, turn: Turn)
    requires p.cur.Some? && (turn.result.Again? ==> !p.removeCur) && !p.stop
    requires turn.requeue.ok && turn.enqueueOk && !turn.result.Fail?
    ensures var (s', o) := Finish(p, turn);
      && o == Continue && AtHead(s') && !s'.stop && s'.log == p.log && s'.nextUid == p.nextUid
      && s'.queue == if turn.result.Again? then Insert(p.queue, RequeuedTask(p, turn), turn.tie) else p.queue
  {
  }

  /** What putting `first` back, later, does to a queue. */
  lemma {:induction false} PutBackAlters(q: seq<TaskRec>, first: TaskRec, x: TaskRec, tie: nat)
    requires Rerun(first, x)
    ensures var q' := Insert(q, x, tie);
      && (forall y :: y in q ==> y in q') && (forall y :: y in q' ==> y in q || Rerun(first, y))
      && CountAt(q', first.deadline) == CountAt(q, first.deadline)
  {
    var k := Position(q, x, tie);
    CountAtInsert(q, x, tie, first.deadline);
    assert q == q[..k] + q[k..];
  }

  lemma {:induction false} QuietStep(s: State, turn: Turn, t: TaskRec)
    requires Owned(s) && Timely(s) && AtHead(s) && !s.stop && s.queue != []
    requires Quiet(s, turn, t) && StepInRange(s, turn)
    ensures var (s', o) := Step(s, turn);
      && o == Continue && AtHead(s') && !s'.stop
      && |s'.log| == |s.log| + 1 && s'.log[..|s.log|] == s.log && s'.log[|s.log|].uid == s.queue[0].uid
      && s.nextUid <= s'.nextUid
      && Advanced(s.queue, s'.queue, t, s.nextUid)
  {
    var first := s.queue[0];
    var b := Begin(s, turn.head, turn.overrun);
    NarrowExact(first.deadline - (s.clock + turn.head.delay));
    assert first.deadline <= b.clock;
    BeginOwned(s, turn);
    PerformAllOnCur(b, turn.calls, first);
    assert Stop !in turn.calls;
    CallsAlter(b, turn.calls, t, first.deadline);
    var p := PerformAll(b, turn.calls);
    QuietEnd(p, turn);
    if turn.result.Again? { PutBackAlters(p.queue, first, RequeuedTask(p, turn), turn.tie); }
  }

  // ---------- Infinite runs ----------

  ghost predicate Fit(s: State) { Owned(s) && Timely(s) && AtHead(s) && !s.stop }

  /** `trace` is a run of the loop under the passes `turns`. */
  ghost predicate IsRun(trace: nat -> State, turns: nat -> Turn) {
    Fit(trace(0)) && forall k: nat :: trace(k + 1) == Step(trace(k), turns(k)).0
  }

  ghost predicate WaitsTo(trace: nat -> State, n: nat, t: TaskRec) {
    forall k: nat :: k <= n ==> t in trace(k).queue
  }

  ghost predicate QuietWhileQueued(trace: nat -> State, turns: nat -> Turn, t: TaskRec) {
    forall k: nat :: WaitsTo(trace, k, t) ==> Quiet(trace(k), turns(k), t) && StepInRange(trace(k), turns(k))
  }

  /** One pass while `t` waits, as far as queue, log and UIDs go. */
  predicate Passed(a: State, b: State, t: TaskRec) {
    && a.queue != [] && Sorted(a.queue) && a.queue[0].deadline <= t.deadline
    && (forall i :: 1 <= i < |a.queue| ==> a.queue[i].uid != a.queue[0].uid)
    && |b.log| == |a.log| + 1 && b.log[..|a.log|] == a.log && b.log[|a.log|].uid == a.queue[0].uid
    && a.nextUid <= b.nextUid
    && Advanced(a.queue, b.queue, t, a.nextUid)
    && (t != a.queue[0] ==> t in b.queue)
  }

  ghost predicate Passes(trace: nat -> State, t: TaskRec) {
    forall k: nat :: WaitsTo(trace, k, t) ==> Passed(trace(k), trace(k + 1), t)
  }

  lemma {:induction false} FirstIsEarliest(q: seq<TaskRec>, t: TaskRec)
    requires Sorted(q) && t in q
    ensures q[0].deadline <= t.deadline
    ensures t == q[0] || t in q[1..]
  {
    var i :| 0 <= i < |q| && q[i] == t;
    if i > 0 { assert q[1..][i - 1] == t; }
  }

  lemma {:induction false} QuietPass(s: State, turn: Turn, t: TaskRec)
    requires Fit(s) && t in s.queue && Quiet(s, turn, t) && StepInRange(s, turn)
    ensures Fit(Step(s, turn).0) && Passed(s, Step(s, turn).0, t)
  {
    FirstIsEarliest(s.queue, t);
    FirstIsAlone(s);
    QuietStep(s, turn, t);
    StepKeepsOwned(s, turn);
    StepTimely(s, turn);
  }

  lemma {:induction false} NextFit(a: State, b: State, turn: Turn, t: TaskRec)
    requires Fit(a) && t in a.queue && Quiet(a, turn, t) && StepInRange(a, turn) && b == Step(a, turn).0
    ensures Fit(b) && Passed(a, b, t)
  {
    QuietPass(a, turn, t);
  }

  lemma {:induction false} RunFit(trace: nat -> State, turns: nat -> Turn, t: TaskRec, n: nat)
    requires IsRun(trace, turns) && QuietWhileQueued(trace, turns, t) && WaitsTo(trace, n, t)
    ensures Fit(trace(n))
  {
    if n == 0 {
    } else {
      assert WaitsTo(trace, n - 1, t);
      RunFit(trace, turns, t, n - 1);
      assert trace(n - 1 + 1) == Step(trace(n - 1), turns(n - 1)).0;
      NextFit(trace(n - 1), trace(n), turns(n - 1), t);
    }
  }

  lemma {:induction false} RunPass(trace: nat -> State, turns: nat -> Turn, t: TaskRec, n: nat)
    requires IsRun(trace, turns) && QuietWhileQueued(trace, turns, t) && WaitsTo(trace, n, t)
    ensures Fit(trace(n)) && Passed(trace(n), trace(n + 1), t)
  {
    RunFit(trace, turns, t, n);
    NextFit(trace(n), trace(n + 1), turns(n), t);
  }

  lemma {:induction false} RunPasses(trace: nat -> State, turns: nat -> Turn, t: TaskRec)
    requires IsRun(trace, turns) && QuietWhileQueued(trace, turns, t)
    ensures Passes(trace, t)
  {
    forall n: nat | WaitsTo(trace, n, t) ensures Passed(trace(n), trace(n + 1), t) {
      RunPass(trace, turns, t, n);
    }
  }

  // ---------- No starvation ----------

  lemma {:induction false} AllAtLeast(q: seq<TaskRec>, d: int)
    requires Sorted(q) && q != [] && d <= q[0].deadline
    ensures forall x :: x in q ==> d <= x.deadline
  {
    forall x | x in q ensures d <= x.deadline {
      var j :| 0 <= j < |q| && q[j] == x;
    }
  }

  /** By induction on how far the deadline of `t` is from a bound `d` that every queued
      deadline meets, then on how many tasks are queued at that bound. */
  lemma {:induction false} StartsAtLast(trace: nat -> State, n: nat, t: TaskRec, d: int) returns (k: nat)
    requires Passes(trace, t) && WaitsTo(trace, n, t)
    requires d <= t.deadline && forall x :: x in trace(n).queue ==> d <= x.deadline
    ensures WaitsTo(trace, k, t) && trace(k).queue != [] && trace(k).queue[0].uid == t.uid
    decreases t.deadline - d, CountAt(trace(n).queue, d)
  {
    var q, q' := trace(n).queue, trace(n + 1).queue;
    assert Passed(trace(n), trace(n + 1), t);
    assert q[0] in q;
    if q[0].deadline > d {
      AllAtLeast(q, d + 1);
      k := StartsAtLast(trace, n, t, d + 1);
    } else if q[0].uid == t.uid {
      k := n;
    } else {
      assert forall x :: x in q[1..] ==> x in q;
      k := StartsAtLast(trace, n + 1, t, d);
    }
  }

  /** The latest start is of `u`. */
  predicate JustStarted(s: State, u: nat) {
    s.log != [] && s.log[|s.log| - 1].uid == u
  }

  lemma {:induction false} LogGrows(trace: nat -> State, n: nat, t: TaskRec)
    requires Passes(trace, t) && WaitsTo(trace, n, t)
    ensures |trace(n).log| == |trace(0).log| + n
  {
    if n == 0 {
    } else {
      LogGrows(trace, n - 1, t);
      assert Passed(trace(n - 1), trace(n - 1 + 1), t);
    }
  }

  lemma {:induction false} FirstOfAll(q: seq<TaskRec>, t: TaskRec) returns (d: int)
    requires Sorted(q) && t in q
    ensures d <= t.deadline && forall x :: x in q ==> d <= x.deadline
  {
    FirstIsEarliest(q, t);
    AllAtLeast(q, q[0].deadline);
    d := q[0].deadline;
  }

  lemma {:induction false} StartsNow(trace: nat -> State, k: nat, t: TaskRec)
    requires Passes(trace, t) && WaitsTo(trace, k, t) && trace(k).queue != [] && trace(k).queue[0].uid == t.uid
    ensures JustStarted(trace(k + 1), t.uid) && |trace(k + 1).log| > |trace(0).log|
  {
    assert Passed(trace(k), trace(k + 1), t);
    LogGrows(trace, k, t);
  }

  /** A queued task starts after finitely many passes, even if tasks keep adding tasks,
      and removing others. */
  lemma {:induction false} NoStarvation(trace: nat -> State, turns: nat -> Turn, t: TaskRec)
    requires IsRun(trace, turns) && QuietWhileQueued(trace, turns, t) && t in trace(0).queue
    ensures exists k: nat :: JustStarted(trace(k), t.uid) && |trace(k).log| > |trace(0).log|
  {
    RunPasses(trace, turns, t);
    var d := FirstOfAll(trace(0).queue, t);
    var k := StartsAtLast(trace, 0, t, d);
    StartsNow(trace, k, t);
  }

  /** While `t` waits, the passes are quiet, intervals are at most `m`, and the clock at most `hi`. */
  ghost predicate ShortWhileQueued(trace: nat -> State, turns: nat -> Turn, t: TaskRec, hi: int, m: Positive) {
    forall k: nat :: WaitsTo(trace, k, t) ==>
      Quiet(trace(k), turns(k), t) && CallsWithin(turns(k).calls, m) && trace(k + 1).clock <= hi
  }

  lemma {:induction false} ShortWindow(
    trace: nat -> State, turns: nat -> Turn, t: TaskRec, lo: int, hi: int, m: Positive, k: nat)
    requires IsRun(trace, turns) && ShortWhileQueued(trace, turns, t, hi, m)
    requires Window(trace(0), lo, m) && Narrows(lo, hi, m) && WaitsTo(trace, k, t)
    ensures Window(trace(k), lo, m) && StepInRange(trace(k), turns(k))
  {
    if k == 0 {
    } else {
      ShortWindow(trace, turns, t, lo, hi, m, k - 1);
      assert trace(k - 1 + 1) == Step(trace(k - 1), turns(k - 1)).0;
      StepWindow(trace(k - 1), turns(k - 1), lo, hi, m);
    }
    assert trace(k + 1) == Step(trace(k), turns(k)).0;
    StepWindow(trace(k), turns(k), lo, hi, m);
  }

  /** The same, from what is known of intervals and of how long `t` waits. */
  lemma {:induction false} NoStarvationInTime(
    trace: nat -> State, turns: nat -> Turn, t: TaskRec, lo: int, hi: int, m: Positive)
    requires IsRun(trace, turns) && ShortWhileQueued(trace, turns, t, hi, m) && t in trace(0).queue
    requires Window(trace(0), lo, m) && Narrows(lo, hi, m)
    ensures exists k: nat :: JustStarted(trace(k), t.uid) && |trace(k).log| > |trace(0).log|
  {
    forall k: nat | WaitsTo(trace, k, t) ensures Quiet(trace(k), turns(k), t) && StepInRange(trace(k), turns(k)) {
      ShortWindow(trace, turns, t, lo, hi, m, k);
    }
    NoStarvation(trace, turns, t);
  }

  // ---------- Overtaking ----------

  function Starts(log: seq<Start>, u: nat): nat {
    if log == [] then 0 else Starts(log[..|log| - 1], u) + Once(log[|log| - 1].uid == u)
  }

  /** Every queued task with UID `u` is due at `lower` or later and repeats every `interval`. */
  predicate DueFrom(q: seq<TaskRec>, u: nat, lower: int, interval: Positive) {
    forall x :: x in q && x.uid == u ==> lower <= x.deadline && x.interval == interval
  }

  lemma {:induction false} DueNext(a: State, b: State, t: TaskRec, u: nat, lower: int, interval: Positive)
    requires Passed(a, b, t) && u < a.nextUid && DueFrom(a.queue, u, lower, interval)
    ensures DueFrom(b.queue, u, if a.queue[0].uid == u then lower + interval else lower, interval)
    ensures Starts(b.log, u) == Starts(a.log, u) + Once(a.queue[0].uid == u)
    ensures a.queue[0].uid == u ==> lower <= t.deadline
  {
    assert a.queue[0] in a.queue;
    forall x | x in a.queue[1..] ensures x in a.queue && x.uid != a.queue[0].uid {
      var j :| 0 <= j < |a.queue[1..]| && a.queue[1..][j] == x;
      assert a.queue[j + 1] == x;
    }
  }

  lemma {:induction false} DueAfter(trace: nat -> State, n: nat, t: TaskRec, u: nat, lower: int, interval: Positive)
    requires Passes(trace, t) && WaitsTo(trace, n, t)
    requires u < trace(n).nextUid && DueFrom(trace(n).queue, u, lower, interval)
    ensures u < trace(n + 1).nextUid
    ensures trace(n).queue != []
    ensures var first := trace(n).queue[0].uid == u;
      && DueFrom(trace(n + 1).queue, u, if first then lower + interval else lower, interval)
      && Starts(trace(n + 1).log, u) == Starts(trace(n).log, u) + Once(first)
      && (first ==> lower <= t.deadline)
  {
    assert Passed(trace(n), trace(n + 1), t);
    DueNext(trace(n), trace(n + 1), t, u, lower, interval);
  }

  /** c * m, by repeated addition. */
  function Times(c: nat, m: int): int {
    if c == 0 then 0 else Times(c - 1, m) + m
  }

  lemma {:induction false} TimesIsProduct(c: nat, m: int)
    ensures Times(c, m) == c * m
  {
    if c == 0 {
    } else {
      TimesIsProduct(c - 1, m);
      assert c * m == (c - 1) * m + m;
    }
  }

  /** What is known of `c` starts of a task due from `lower` on, all no later than `t`. */
  predicate StartsFit(c: nat, lower: int, interval: Positive, t: TaskRec) {
    c == 0 || lower + Times(c - 1, interval) <= t.deadline
  }

  lemma {:induction false} OneMoreFits(c: nat, lower: int, interval: Positive, t: TaskRec)
    requires lower <= t.deadline && StartsFit(c, lower + interval, interval, t)
    ensures StartsFit(c + 1, lower, interval, t)
  {
  }

  /** From pass `n` to pass `m`, by induction on their distance. */
  lemma {:induction false} OvertakesAtMost(
    trace: nat -> State, n: nat, m: nat, t: TaskRec, u: nat, interval: Positive, lower: int) returns (c: nat)
    requires Passes(trace, t) && n <= m && WaitsTo(trace, m, t)
    requires u < trace(n).nextUid && DueFrom(trace(n).queue, u, lower, interval)
    ensures Starts(trace(m).log, u) == Starts(trace(n).log, u) + c && StartsFit(c, lower, interval, t)
    decreases m - n
  {
    if n == m {
      c := 0;
    } else {
      DueAfter(trace, n, t, u, lower, interval);
      var first := trace(n).queue[0].uid == u;
      c := OvertakesAtMost(trace, n + 1, m, t, u, interval, if first then lower + interval else lower);
      if first {
        OneMoreFits(c, lower, interval, t);
        c := c + 1;
      }
    }
  }

  /** As many starts as fit, in arithmetic. */
  function MostStarts(t: TaskRec, x: TaskRec): int {
    if x.deadline <= t.deadline then (t.deadline - x.deadline) / x.interval + 1 else 0
  }

  lemma {:induction false} FitIsBounded(c: nat, t: TaskRec, x: TaskRec)
    requires StartsFit(c, x.deadline, x.interval, t)
    ensures c <= MostStarts(t, x)
  {
    if c > 0 {
      TimesIsProduct(c - 1, x.interval);
      MulMonotone(0, c - 1, x.interval);
      DivisionBound(t.deadline - x.deadline, x.interval, c - 1);
    }
  }

  /** While `t` waits, a task `x` queued with it starts at most (t.deadline - x.deadline) / x.interval + 1
      times when it is due no later than `t`, and never otherwise. */
  lemma {:induction false} OvertakingBound(trace: nat -> State, turns: nat -> Turn, n: nat, t: TaskRec, x: TaskRec)
    requires IsRun(trace, turns) && QuietWhileQueued(trace, turns, t) && WaitsTo(trace, n, t)
    requires x in trace(0).queue && x.uid != t.uid
    ensures Starts(trace(n).log, x.uid) - Starts(trace(0).log, x.uid) <= MostStarts(t, x)
  {
    QueuedAlone(trace(0), x);
    RunPasses(trace, turns, t);
    var c := OvertakesAtMost(trace, 0, n, t, x.uid, x.interval, x.deadline);
    FitIsBounded(c, t, x);
  }

  lemma {:induction false} MulMonotone(x: nat, y: nat, m: nat)
    requires x <= y
    ensures x * m <= y * m
  {
    if x < y {
      MulMonotone(x, y - 1, m);
      assert y * m == (y - 1) * m + m;
    }
  }

  lemma {:induction false} DivisionBound(a: int, m: Positive, c: nat)
    requires c * m <= a
    ensures c <= a / m
  {
    var q, r := a / m, a % m;
    assert a == q * m + r;
    if q < c {
      MulMonotone(q + 1, c, m);
      assert false;
    }
  }

  lemma {:induction false} QueuedAlone(s: State, x: TaskRec)
    requires Owned(s) && x in s.queue
    ensures x.uid < s.nextUid
    ensures forall y :: y in s.queue && y.uid == x.uid ==> y == x
  {
    var i :| 0 <= i < |s.queue| && s.queue[i] == x;
    QueuedDistinct(s, i, i);
    forall y | y in s.queue && y.uid == x.uid ensures y == x {
      var j :| 0 <= j < |s.queue| && s.queue[j] == y;
      QueuedDistinct(s, i, j);
    }
  }
}

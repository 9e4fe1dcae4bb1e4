/** When the narrowed comparison keeps the queue in order, and when the narrowed sleep lasts. */
module SchedulerOrder {
  import opened SchedulerSpec

  // ---------- The narrowed comparison ----------

  lemma {:induction false} NarrowExact(x: int)
    ensures Narrow(x) == x <==> -TWO_TO_31 <= x < TWO_TO_31
  {
  }

  /** The comparison of two deadlines says which is earlier. */
  predicate Agrees(a: TaskRec, b: TaskRec) {
    && (PriorityFunc(a, b) < 0 <==> a.deadline < b.deadline)
    && (PriorityFunc(a, b) > 0 <==> a.deadline > b.deadline)
  }

  /** It says so when they are less than 2^31 apart, or the first is 2^31 before the second;
      and otherwise, up to 2^32, it does not. */
  lemma {:induction false} PriorityFuncOrders(a: TaskRec, b: TaskRec)
    ensures PriorityFunc(a, b) == a.deadline - b.deadline <==> -TWO_TO_31 <= a.deadline - b.deadline < TWO_TO_31
    ensures -TWO_TO_32 < a.deadline - b.deadline < TWO_TO_32 ==>
      (Agrees(a, b) <==> -TWO_TO_31 <= a.deadline - b.deadline < TWO_TO_31)
  {
    NarrowExact(a.deadline - b.deadline);
  }

  // ---------- Insertion ----------

  predicate Sorted(q: seq<TaskRec>) {
    forall i, j :: 0 <= i < j < |q| ==> q[i].deadline <= q[j].deadline
  }

  /** `i` is the position of the first task later than `t`. */
  predicate FirstLater(q: seq<TaskRec>, t: TaskRec, i: nat) {
    i < |q| && q[i].deadline > t.deadline && (i == 0 || q[i - 1].deadline <= t.deadline)
  }

  /** The comparison is right about `t` and each task earlier than it, and about the first one
      later than it. What is further back is never looked at. */
  predicate Placed(q: seq<TaskRec>, t: TaskRec) {
    && (forall i :: 0 <= i < |q| && q[i].deadline < t.deadline ==> PriorityFunc(q[i], t) < 0)
    && (forall i :: 0 <= i < |q| && FirstLater(q, t, i) ==> PriorityFunc(q[i], t) > 0)
  }

  /** In arithmetic, for deadlines less than 2^32 apart. */
  lemma {:induction false} PlacedWithin(q: seq<TaskRec>, t: TaskRec)
    requires Sorted(q) && forall i :: 0 <= i < |q| ==> -TWO_TO_32 < q[i].deadline - t.deadline < TWO_TO_32
    ensures Placed(q, t)
            <==> && (q != [] ==> -TWO_TO_31 <= q[0].deadline - t.deadline)
                 && (forall i :: 0 <= i < |q| && FirstLater(q, t, i) ==> q[i].deadline - t.deadline < TWO_TO_31)
  {
    forall i | 0 <= i < |q| ensures Agrees(q[i], t) <==> -TWO_TO_31 <= q[i].deadline - t.deadline < TWO_TO_31 {
      PriorityFuncOrders(q[i], t);
    }
  }

  /** The scan of the sorted list goes past `x` on its way to the place of `t`. */
  predicate GoesPast(x: TaskRec, t: TaskRec, ties: bool) {
    PriorityFunc(x, t) < 0 || (ties && PriorityFunc(x, t) == 0)
  }

  lemma {:induction false} RankStops(q: seq<TaskRec>, t: TaskRec, ties: bool)
    ensures var k := Rank(q, t, ties);
      (forall i :: 0 <= i < k ==> GoesPast(q[i], t, ties)) && (k < |q| ==> !GoesPast(q[k], t, ties))
  {
    if q == [] {
    } else {
      var r := q[1..];
      RankStops(r, t, ties);
      var k := Rank(q, t, ties);
      forall i | 1 <= i < k ensures GoesPast(q[i], t, ties) { assert q[i] == r[i - 1]; }
      assert 0 < k < |q| ==> q[k] == r[k - 1];
    }
  }

  /** How many tasks are earlier than a deadline; with `ties`, or equally early. */
  function Before(q: seq<TaskRec>, d: int, ties: bool): (k: nat)
    ensures k <= |q|
    ensures forall i :: 0 <= i < k ==> q[i].deadline < d || (ties && q[i].deadline == d)
    ensures k < |q| ==> !(q[k].deadline < d || (ties && q[k].deadline == d))
  {
    if q == [] then 0
    else if q[0].deadline < d || (ties && q[0].deadline == d) then 1 + Before(q[1..], d, ties)
    else 0
  }

  lemma {:induction false} BeforeSplits(q: seq<TaskRec>, d: int)
    requires Sorted(q)
    ensures var lo, hi := Before(q, d, false), Before(q, d, true);
      && lo <= hi
      && (forall i :: 0 <= i < lo ==> q[i].deadline < d)
      && (forall i :: lo <= i < hi ==> q[i].deadline == d)
      && (forall i :: hi <= i < |q| ==> q[i].deadline > d)
  {
    var lo, hi := Before(q, d, false), Before(q, d, true);
    assert lo <= hi;
    forall i | lo <= i < hi ensures q[i].deadline == d { assert q[lo].deadline <= q[i].deadline; }
    forall i | hi <= i < |q| ensures q[i].deadline > d { assert q[hi].deadline <= q[i].deadline; }
  }

  lemma {:induction false} PlacedAtEnds(q: seq<TaskRec>, t: TaskRec)
    requires Sorted(q)
    ensures var lo, hi := Before(q, t.deadline, false), Before(q, t.deadline, true);
      Placed(q, t) <==>
        (forall i :: 0 <= i < lo ==> PriorityFunc(q[i], t) < 0) && (hi < |q| ==> PriorityFunc(q[hi], t) > 0)
  {
    BeforeSplits(q, t.deadline);
    var hi := Before(q, t.deadline, true);
    assert hi < |q| ==> FirstLater(q, t, hi);
    forall i | 0 <= i < |q| && FirstLater(q, t, i) ensures i == hi { }
  }

  lemma {:induction false} PlacedRanks(q: seq<TaskRec>, t: TaskRec)
    requires Sorted(q) && Placed(q, t)
    ensures Rank(q, t, false) == Before(q, t.deadline, false) && Rank(q, t, true) == Before(q, t.deadline, true)
  {
    BeforeSplits(q, t.deadline);
    PlacedAtEnds(q, t);
    RankStops(q, t, false);
    RankStops(q, t, true);
    NarrowExact(0);
  }

  lemma {:induction false} RanksPlace(q: seq<TaskRec>, t: TaskRec)
    requires Sorted(q) && Before(q, t.deadline, false) <= Rank(q, t, false)
    requires Rank(q, t, true) <= Before(q, t.deadline, true)
    ensures Placed(q, t)
  {
    BeforeSplits(q, t.deadline);
    PlacedAtEnds(q, t);
    RankStops(q, t, false);
    RankStops(q, t, true);
    NarrowExact(0);
  }

  /** The scan stops where it should, for both ends of the ties, exactly if `t` is placed. */
  lemma {:induction false} RanksRight(q: seq<TaskRec>, t: TaskRec)
    requires Sorted(q)
    ensures var lo, hi := Before(q, t.deadline, false), Before(q, t.deadline, true);
      && (Placed(q, t) <==> lo <= Rank(q, t, false) && Rank(q, t, true) <= hi)
      && (Placed(q, t) ==> Rank(q, t, false) == lo && Rank(q, t, true) == hi)
  {
    var lo, hi := Before(q, t.deadline, false), Before(q, t.deadline, true);
    if Placed(q, t) {
      PlacedRanks(q, t);
    } else if lo <= Rank(q, t, false) && Rank(q, t, true) <= hi {
      RanksPlace(q, t);
    }
  }

  lemma {:induction false} SortedAround(q: seq<TaskRec>, t: TaskRec, k: nat)
    requires Sorted(q) && k <= |q|
    ensures Sorted(q[..k] + [t] + q[k..])
            <==> && (forall i :: 0 <= i < k ==> q[i].deadline <= t.deadline)
                 && (forall i :: k <= i < |q| ==> t.deadline <= q[i].deadline)
  {
    var r := q[..k] + [t] + q[k..];
    assert r[k] == t;
    assert forall i :: 0 <= i < k ==> r[i] == q[i];
    assert forall i :: k <= i < |q| ==> r[i + 1] == q[i];
    if Sorted(r) {
      forall i | 0 <= i < k ensures q[i].deadline <= t.deadline { assert r[i].deadline <= r[k].deadline; }
      forall i | k <= i < |q| ensures t.deadline <= q[i].deadline { assert r[k].deadline <= r[i + 1].deadline; }
    }
  }

  lemma {:induction false} InsertAt(q: seq<TaskRec>, t: TaskRec, k: nat)
    requires Sorted(q) && k <= |q|
    ensures Sorted(q[..k] + [t] + q[k..])
            <==> Before(q, t.deadline, false) <= k <= Before(q, t.deadline, true)
  {
    BeforeSplits(q, t.deadline);
    SortedAround(q, t, k);
    var lo, hi := Before(q, t.deadline, false), Before(q, t.deadline, true);
    assert k < lo ==> q[k].deadline < t.deadline;
    assert hi < k ==> q[hi].deadline > t.deadline;
  }

  /** An insertion keeps the queue sorted, wherever ties go, exactly if the task is placed. */
  lemma {:induction false} InsertSortedExactly(q: seq<TaskRec>, t: TaskRec)
    requires Sorted(q)
    ensures (forall tie: nat :: Sorted(Insert(q, t, tie))) <==> Placed(q, t)
  {
    RanksRight(q, t);
    var first, last := Rank(q, t, false), Rank(q, t, true);
    if Placed(q, t) {
      forall tie: nat ensures Sorted(Insert(q, t, tie)) { InsertSorted(q, t, tie); }
    } else {
      RankOrder(q, t);
      InsertAt(q, t, first);
      InsertAt(q, t, last);
      assert Position(q, t, 0) == first && Position(q, t, last - first) == last;
      assert !Sorted(Insert(q, t, 0)) || !Sorted(Insert(q, t, last - first));
    }
  }

  lemma {:induction false} RankOrder(q: seq<TaskRec>, t: TaskRec)
    ensures Rank(q, t, false) <= Rank(q, t, true)
  {
    if q == [] {
    } else {
      RankOrder(q[1..], t);
    }
  }

  /** A placed task goes after everything earlier and before everything later. */
  lemma {:induction false} InsertSorted(q: seq<TaskRec>, t: TaskRec, tie: nat)
    requires Sorted(q) && Placed(q, t)
    ensures Sorted(Insert(q, t, tie))
    ensures var k := Position(q, t, tie);
      && (forall i :: 0 <= i < k ==> q[i].deadline <= t.deadline)
      && (forall i :: k <= i < |q| ==> t.deadline <= q[i].deadline)
  {
    RanksRight(q, t);
    BeforeSplits(q, t.deadline);
    InsertAt(q, t, Position(q, t, tie));
  }

  /** A position among the equals is reached by some `tie`: nothing is said about their order. */
  lemma {:induction false} AnyTieOrder(q: seq<TaskRec>, t: TaskRec, k: nat)
    requires Sorted(q) && Placed(q, t) && k <= |q|
    requires Sorted(q[..k] + [t] + q[k..])
    ensures exists tie: nat :: Insert(q, t, tie) == q[..k] + [t] + q[k..]
  {
    RanksRight(q, t);
    InsertAt(q, t, k);
    var tie: nat := k - Rank(q, t, false);
    assert Insert(q, t, tie) == q[..k] + [t] + q[k..];
  }

  // ---------- Sleeping ----------

  /** The first task never starts before its deadline, however little its sleep overruns, exactly
      if the deadline is less than 2^31 away. */
  lemma {:induction false} SleepsExactly(s: State, head: Reading)
    requires s.queue != []
    ensures (forall overrun: nat :: s.queue[0].deadline <= Begin(s, head, overrun).clock)
            <==> s.queue[0].deadline - (s.clock + head.delay) < TWO_TO_31
  {
    NarrowExact(s.queue[0].deadline - (s.clock + head.delay));
    assert Begin(s, head, 0).clock >= s.queue[0].deadline || s.queue[0].deadline > s.clock + head.delay;
  }

  /** How long a sleep is, for any distance: the difference modulo 2^32, or nothing if that is
      2^31 or more, or the deadline has come. */
  lemma {:induction false} SleepLength(deadline: int, now: int)
    ensures var left := (deadline - now) % TWO_TO_32;
      SleepTime(deadline, now) == if deadline <= now || left >= TWO_TO_31 then 0 else left
  {
    var d := deadline - now;
    if d > 0 {
      var k, left := d / TWO_TO_32, d % TWO_TO_32;
      assert d + TWO_TO_31 == k * TWO_TO_32 + left + TWO_TO_31;
    }
  }
}

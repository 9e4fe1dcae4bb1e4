/** The heap's operations exactly, with both sift-downs, ties included: which elements move, and
    where to. */
module HeapExact {
  import opened HeapSpec

  // ---------- Ways through the tree ----------

  /** Position k is i or above it in the tree. */
  predicate OnWay(k: nat, i: nat) {
    k == i || (i > 1 && OnWay(k, i / 2))
  }

  lemma {:induction false} WayUp(k: nat, i: nat)
    ensures OnWay(k, i) ==> k <= i
  {
    if i > 1 { WayUp(k, i / 2); }
  }

  lemma {:induction false} ParentOnWay(b: nat, e: nat)
    requires b > 1 && OnWay(b, e)
    ensures OnWay(b / 2, e)
    decreases e
  {
    if b != e { ParentOnWay(b, e / 2); }
  }

  /** No position of a way is between another one and its parent. */
  lemma {:induction false} WayBetween(k: nat, b: nat, e: nat)
    requires OnWay(k, e) && OnWay(b, e) && b / 2 < k
    ensures b <= k
    decreases e
  {
    if k != e {
      WayUp(k, e / 2);
      if b != e { WayBetween(k, b, e / 2); }
    } else {
      WayUp(b, e);
    }
  }

  // ---------- Sifting up ----------

  /** The element at i climbs to `e`, past parents that are strictly below it and no further. They
      move down one step each, and nothing else moves. */
  predicate Climbs(cmp: Cmp, c: seq<Elem>, i: nat, e: nat, d: seq<Elem>)
    requires 1 <= i <= |c|
  {
    && 1 <= e <= i && OnWay(e, i) && |d| == |c|
    && (forall k :: e < k <= i && OnWay(k, i) ==> cmp(At(c, i), At(c, k / 2)) > 0)
    && (e > 1 ==> cmp(At(c, i), At(c, e / 2)) <= 0)
    && (forall k :: 1 <= k <= |c| ==>
        At(d, k) == if k == e then At(c, i) else if e < k && OnWay(k, i) then At(c, k / 2) else At(c, k))
  }

  /** Sift-up, exactly: an element that ties with its parent stays below it. */
  lemma {:induction false} UpClimbs(cmp: Cmp, c: seq<Elem>, i: nat) returns (e: nat)
    requires 1 <= i <= |c|
    ensures Climbs(cmp, c, i, e, Up(cmp, c, i))
    decreases i
  {
    e := i;
    forall k: nat ensures OnWay(k, i) ==> k <= i { WayUp(k, i); }
    if i > 1 && cmp(At(c, i), At(c, i / 2)) > 0 {
      var s := Swap(c, i, i / 2);
      e := UpClimbs(cmp, s, i / 2);
      ClimbsOn(cmp, c, i, e, Up(cmp, s, i / 2));
    }
  }

  lemma {:induction false} ClimbsOn(cmp: Cmp, c: seq<Elem>, i: nat, e: nat, d: seq<Elem>)
    requires 2 <= i <= |c| && cmp(At(c, i), At(c, i / 2)) > 0
    requires Climbs(cmp, Swap(c, i, i / 2), i / 2, e, d)
    ensures Climbs(cmp, c, i, e, d)
  {
    var s, p := Swap(c, i, i / 2), i / 2;
    forall k: nat ensures OnWay(k, p) ==> k <= p { WayUp(k, p); }
    forall k | e < k <= i && OnWay(k, i) ensures cmp(At(c, i), At(c, k / 2)) > 0 {
      if k != i { assert OnWay(k, p) && At(s, k / 2) == At(c, k / 2); }
    }
    forall k | 1 <= k <= |c| ensures
      At(d, k) == if k == e then At(c, i) else if e < k && OnWay(k, i) then At(c, k / 2) else At(c, k)
    {
      assert OnWay(k, i) <==> k == i || OnWay(k, p);
    }
  }

  // ---------- Sifting down ----------

  /** `x`, sifted from position p, goes to the left child: that is not below it, nor, as commented,
      below a right child that is not below it either. */
  predicate GoesLeft(rule: Rule, cmp: Cmp, c: seq<Elem>, p: nat, x: Elem) {
    && 1 <= p && 2 * p <= |c| && cmp(At(c, 2 * p), x) >= 0
    && (rule.AsCommented? && 2 * p + 1 <= |c| && cmp(At(c, 2 * p + 1), x) >= 0 ==>
        cmp(At(c, 2 * p), At(c, 2 * p + 1)) >= 0)
  }

  predicate GoesRight(rule: Rule, cmp: Cmp, c: seq<Elem>, p: nat, x: Elem) {
    !GoesLeft(rule, cmp, c, p, x) && 2 * p + 1 <= |c| && cmp(At(c, 2 * p + 1), x) >= 0
  }

  predicate GoesTo(rule: Rule, cmp: Cmp, c: seq<Elem>, k: nat, x: Elem) {
    if k % 2 == 0 then GoesLeft(rule, cmp, c, k / 2, x) else GoesRight(rule, cmp, c, k / 2, x)
  }

  /** An element stays only above children that are strictly below it; a tie goes down, and to the
      left if it can. */
  lemma {:induction false} BestExactly(rule: Rule, cmp: Cmp, c: seq<Elem>, i: nat)
    requires TotalPreorder(cmp) && 1 <= i <= |c|
    ensures var b, x := Best(rule, cmp, c, i), At(c, i);
      && (b == 2 * i <==> GoesLeft(rule, cmp, c, i, x))
      && (b == 2 * i + 1 <==> GoesRight(rule, cmp, c, i, x))
      && (b == i <==> (2 * i <= |c| ==> cmp(At(c, 2 * i), x) < 0)
                      && (2 * i + 1 <= |c| ==> cmp(At(c, 2 * i + 1), x) < 0))
  {
  }

  /** The element at i sinks to `e`, each time to the child it goes to, as long as it goes to one.
      The children move up one step each, and nothing else moves. */
  predicate Sinks(rule: Rule, cmp: Cmp, c: seq<Elem>, i: nat, e: nat, d: seq<Elem>)
    requires 1 <= i <= |c|
  {
    && i <= e <= |c| && OnWay(i, e) && |d| == |c|
    && (forall k :: i < k <= e && OnWay(k, e) ==> GoesTo(rule, cmp, c, k, At(c, i)) && At(d, k / 2) == At(c, k))
    && !GoesLeft(rule, cmp, c, e, At(c, i)) && !GoesRight(rule, cmp, c, e, At(c, i))
    && At(d, e) == At(c, i)
    && (forall k :: 1 <= k <= |c| && !(i <= k <= e && OnWay(k, e)) ==> At(d, k) == At(c, k))
  }

  /** Sift-down, exactly, with either rule. */
  lemma {:induction false} DownSinks(rule: Rule, cmp: Cmp, c: seq<Elem>, i: nat) returns (e: nat)
    requires TotalPreorder(cmp) && 1 <= i <= |c|
    ensures Sinks(rule, cmp, c, i, e, Down(rule, cmp, c, i))
    decreases |c| - i
  {
    var b := Best(rule, cmp, c, i);
    BestExactly(rule, cmp, c, i);
    if b == i {
      e := i;
    } else {
      var s := Swap(c, i, b);
      e := DownSinks(rule, cmp, s, b);
      SinksOn(rule, cmp, c, i, b, e, Down(rule, cmp, s, b));
    }
  }

  /** What is below b goes on as before the swap. */
  lemma {:induction false} GoesBelow(rule: Rule, cmp: Cmp, c: seq<Elem>, s: seq<Elem>, i: nat, b: nat, p: nat, x: Elem)
    requires |s| == |c| && 1 <= i < b <= p && forall k :: 1 <= k <= |c| && k != i && k != b ==> At(s, k) == At(c, k)
    ensures GoesLeft(rule, cmp, s, p, x) == GoesLeft(rule, cmp, c, p, x)
    ensures GoesRight(rule, cmp, s, p, x) == GoesRight(rule, cmp, c, p, x)
  {
  }

  lemma {:induction false} SinksOn(
    rule: Rule, cmp: Cmp, c: seq<Elem>, i: nat, b: nat, e: nat, d: seq<Elem>)
    requires 1 <= i < b <= |c| && b / 2 == i && GoesTo(rule, cmp, c, b, At(c, i))
    requires Sinks(rule, cmp, Swap(c, i, b), b, e, d)
    ensures Sinks(rule, cmp, c, i, e, d)
  {
    var s, x := Swap(c, i, b), At(c, i);
    ParentOnWay(b, e);
    GoesBelow(rule, cmp, c, s, i, b, e, x);
    forall k | i < k <= e && OnWay(k, e) ensures GoesTo(rule, cmp, c, k, x) && At(d, k / 2) == At(c, k) {
      WayBetween(k, b, e);
      if k > b {
        AboveOnWay(b, k, e);
        GoesBelow(rule, cmp, c, s, i, b, k / 2, x);
      }
    }
  }

  /** A position of a way that is below b is below b in the tree. */
  lemma {:induction false} AboveOnWay(b: nat, k: nat, e: nat)
    requires OnWay(b, e) && OnWay(k, e) && b < k
    ensures b <= k / 2
    decreases e
  {
    if b > k / 2 { WayBetween(b, k, e); }
  }

  // ---------- The operations ----------

  /** HPQEnqueue: the new element climbs from the last position. */
  lemma {:induction false} EnqueueExactly(cmp: Cmp, c: seq<Elem>, x: Elem) returns (e: nat)
    ensures Climbs(cmp, c + [x], |c| + 1, e, Enqueued(cmp, c, x))
  {
    e := UpClimbs(cmp, c + [x], |c| + 1);
  }

  /** HPQDequeue: the last element sinks from the root. */
  lemma {:induction false} DequeueExactly(rule: Rule, cmp: Cmp, c: seq<Elem>) returns (e: nat)
    requires TotalPreorder(cmp) && |c| >= 2
    ensures Sinks(rule, cmp, [c[|c| - 1]] + c[1..|c| - 1], 1, e, Dequeued(rule, cmp, c))
  {
    var d := c[0 := c[|c| - 1]][..|c| - 1];
    assert d == [c[|c| - 1]] + c[1..|c| - 1];
    e := DownSinks(rule, cmp, d, 1);
  }

  /** HPQRemove: the last element, put into the hole, climbs from there; then what is in the hole
      sinks. */
  lemma {:induction false} RemoveExactly(rule: Rule, cmp: Cmp, c: seq<Elem>, k: nat)
    returns (top: nat, u: seq<Elem>, e: nat)
    requires TotalPreorder(cmp) && 1 <= k < |c|
    ensures |u| == |c| - 1
    ensures Climbs(cmp, c[..k - 1] + [c[|c| - 1]] + c[k..|c| - 1], k, top, u)
    ensures Sinks(rule, cmp, u, k, e, RemovedAt(rule, cmp, c, k))
  {
    var d := c[k - 1 := c[|c| - 1]][..|c| - 1];
    assert d == c[..k - 1] + [c[|c| - 1]] + c[k..|c| - 1];
    top := UpClimbs(cmp, d, k);
    u := Up(cmp, d, k);
    e := DownSinks(rule, cmp, u, k);
  }
}

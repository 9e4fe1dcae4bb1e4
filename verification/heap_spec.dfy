/** The binary heap on sequences: sifting, insertion, removal, and draining in order.

    Positions count from 1, as in the source; `At(c, i)` is the element at position i. An element
    is a pointer. `cmp(x, y) > 0` means that x goes nearer the root than y. */
module HeapSpec {
  type Elem = int
  type Cmp = (Elem, Elem) -> int

  /** A comparison function the heap can work with. */
  ghost predicate TotalPreorder(cmp: Cmp) {
    && (forall x, y :: cmp(x, y) > 0 <==> cmp(y, x) < 0)
    && (forall x, y, z :: cmp(x, y) >= 0 && cmp(y, z) >= 0 ==> cmp(x, z) >= 0)
  }

  /** How BestOfThree looks at the left child: as the code does, against the element at the
      index, or as its comment says, against the best so far. */
  datatype Rule = AsWritten | AsCommented

  function At(c: seq<Elem>, i: nat): Elem
    requires 1 <= i <= |c|
  {
    c[i - 1]
  }

  function Swap(c: seq<Elem>, i: nat, j: nat): (d: seq<Elem>)
    requires 1 <= i <= |c| && 1 <= j <= |c|
    ensures |d| == |c|
    ensures forall k :: 1 <= k <= |c| ==> At(d, k) == if k == i then At(c, j) else if k == j then At(c, i) else At(c, k)
  {
    c[i - 1 := c[j - 1]][j - 1 := c[i - 1]]
  }

  // ---------- The source's functions ----------

  function Up(cmp: Cmp, c: seq<Elem>, i: nat): (d: seq<Elem>)
    requires 1 <= i <= |c|
    ensures |d| == |c|
    decreases i
  {
    if i == 1 || cmp(At(c, i), At(c, i / 2)) <= 0 then c
    else Up(cmp, Swap(c, i, i / 2), i / 2)
  }

  function Best(rule: Rule, cmp: Cmp, c: seq<Elem>, i: nat): (b: nat)
    requires 1 <= i <= |c|
    ensures b == i || (b == 2 * i <= |c|) || (b == 2 * i + 1 <= |c|)
  {
    var ret := if 2 * i + 1 <= |c| && cmp(At(c, 2 * i + 1), At(c, i)) >= 0 then 2 * i + 1 else i;
    var rival := if rule.AsWritten? then i else ret;
    if 2 * i <= |c| && cmp(At(c, 2 * i), At(c, rival)) >= 0 then 2 * i else ret
  }

  function Down(rule: Rule, cmp: Cmp, c: seq<Elem>, i: nat): (d: seq<Elem>)
    requires 1 <= i <= |c|
    ensures |d| == |c|
    decreases |c| - i
  {
    var b := Best(rule, cmp, c, i);
    if b == i then c else Down(rule, cmp, Swap(c, i, b), b)
  }

  function Enqueued(cmp: Cmp, c: seq<Elem>, x: Elem): seq<Elem> {
    Up(cmp, c + [x], |c| + 1)
  }

  function Dequeued(rule: Rule, cmp: Cmp, c: seq<Elem>): (d: seq<Elem>)
    requires c != []
    ensures |d| == |c| - 1
  {
    var d := c[0 := c[|c| - 1]][..|c| - 1];
    if d == [] then [] else Down(rule, cmp, d, 1)
  }

  /** The last element moved to position k, and sifted from there. */
  function RemovedAt(rule: Rule, cmp: Cmp, c: seq<Elem>, k: nat): (d: seq<Elem>)
    requires 1 <= k < |c|
    ensures |d| == |c| - 1
  {
    Down(rule, cmp, Up(cmp, c[k - 1 := c[|c| - 1]][..|c| - 1], k), k)
  }

  // ---------- Order ----------

  predicate Above(cmp: Cmp, c: seq<Elem>, i: nat, j: nat)
    requires 1 <= i <= |c| && 1 <= j <= |c|
  {
    cmp(At(c, i), At(c, j)) >= 0
  }

  /** Position `i` is above the children of `p`, but for `skip`. */
  predicate AboveKids(cmp: Cmp, c: seq<Elem>, i: nat, p: nat, skip: nat)
    requires 1 <= i <= |c|
  {
    && (1 <= 2 * p <= |c| && 2 * p != skip ==> Above(cmp, c, i, 2 * p))
    && (2 * p + 1 <= |c| && 2 * p + 1 != skip ==> Above(cmp, c, i, 2 * p + 1))
  }

  /** The heap order: every element is above its children. */
  predicate Ordered(cmp: Cmp, c: seq<Elem>) {
    forall p :: 1 <= p <= |c| ==> AboveKids(cmp, c, p, p, 0)
  }

  /** The parent of `i`, if any, is above the children of `i`. */
  predicate Bridged(cmp: Cmp, c: seq<Elem>, i: nat) {
    2 <= i <= |c| ==> AboveKids(cmp, c, i / 2, i, 0)
  }

  /** Ordered, except that `i` may belong above its parent. */
  predicate UpReady(cmp: Cmp, c: seq<Elem>, i: nat) {
    1 <= i <= |c| && Bridged(cmp, c, i) && forall p :: 1 <= p <= |c| ==> AboveKids(cmp, c, p, p, i)
  }

  /** Ordered, except that `i` may belong below its children. */
  predicate DownReady(cmp: Cmp, c: seq<Elem>, i: nat) {
    1 <= i <= |c| && Bridged(cmp, c, i) && forall p :: 1 <= p <= |c| && p != i ==> AboveKids(cmp, c, p, p, 0)
  }

  /** What is above p is above what p is above. */
  lemma {:induction false} AboveLift(cmp: Cmp, c: seq<Elem>, a: nat, p: nat, skip: nat)
    requires TotalPreorder(cmp) && 1 <= a <= |c| && 1 <= p <= |c|
    requires Above(cmp, c, a, p) && AboveKids(cmp, c, p, p, skip)
    ensures AboveKids(cmp, c, a, p, skip)
  {
  }

  /** Swapping with the parent, when that is not above, moves the disorder to the parent. */
  lemma {:induction false} SwapUp(cmp: Cmp, c: seq<Elem>, i: nat, p: nat)
    requires UpReady(cmp, c, i) && 1 <= p && (i == 2 * p || i == 2 * p + 1)
    requires Above(cmp, c, i, p) && AboveKids(cmp, c, i, p, i) && (p >= 2 ==> AboveKids(cmp, c, p / 2, p, i))
    ensures UpReady(cmp, Swap(c, i, p), p)
  {
    var d := Swap(c, i, p);
    assert AboveKids(cmp, c, p, i, 0);
    forall q | 1 <= q <= |d| ensures AboveKids(cmp, d, q, q, p) {
      assert AboveKids(cmp, c, q, q, i);
    }
    if p >= 2 { assert AboveKids(cmp, c, p / 2, p / 2, i); }
  }

  lemma {:induction false} UpStep(cmp: Cmp, c: seq<Elem>, i: nat)
    requires TotalPreorder(cmp) && UpReady(cmp, c, i) && i > 1 && cmp(At(c, i), At(c, i / 2)) > 0
    ensures UpReady(cmp, Swap(c, i, i / 2), i / 2)
  {
    var p := i / 2;
    assert AboveKids(cmp, c, p, p, i);
    AboveLift(cmp, c, i, p, i);
    if p >= 2 {
      assert AboveKids(cmp, c, p / 2, p / 2, i);
      AboveLift(cmp, c, p / 2, p, i);
    }
    SwapUp(cmp, c, i, p);
  }

  lemma {:induction false} UpStop(cmp: Cmp, c: seq<Elem>, i: nat)
    requires UpReady(cmp, c, i) && (i > 1 ==> Above(cmp, c, i / 2, i))
    ensures Ordered(cmp, c)
  {
    forall p | 1 <= p <= |c| ensures AboveKids(cmp, c, p, p, 0) {
      assert AboveKids(cmp, c, p, p, i);
    }
  }

  lemma {:induction false} UpOrders(cmp: Cmp, c: seq<Elem>, i: nat)
    requires TotalPreorder(cmp) && UpReady(cmp, c, i)
    ensures Ordered(cmp, Up(cmp, c, i))
    decreases i
  {
    if i > 1 && cmp(At(c, i), At(c, i / 2)) > 0 {
      UpStep(cmp, c, i);
      UpOrders(cmp, Swap(c, i, i / 2), i / 2);
    } else {
      UpStop(cmp, c, i);
    }
  }

  /** Swapping with the better child, when that is not below, moves the disorder to the child. */
  lemma {:induction false} SwapDown(cmp: Cmp, c: seq<Elem>, i: nat, b: nat)
    requires DownReady(cmp, c, i)
    requires (b == 2 * i || b == 2 * i + 1) && b <= |c| && Above(cmp, c, b, i) && AboveKids(cmp, c, b, i, 0)
    ensures DownReady(cmp, Swap(c, i, b), b)
  {
    var d := Swap(c, i, b);
    forall p | 1 <= p <= |d| && p != b ensures AboveKids(cmp, d, p, p, 0) {
      if p != i { assert AboveKids(cmp, c, p, p, 0); }
    }
    assert AboveKids(cmp, c, b, b, 0);
  }

  lemma {:induction false} DownOrders(cmp: Cmp, c: seq<Elem>, i: nat)
    requires TotalPreorder(cmp) && DownReady(cmp, c, i)
    ensures Ordered(cmp, Down(AsCommented, cmp, c, i))
    decreases |c| - i
  {
    var b := Best(AsCommented, cmp, c, i);
    if b != i {
      SwapDown(cmp, c, i, b);
      DownOrders(cmp, Swap(c, i, b), b);
    } else {
      assert AboveKids(cmp, c, i, i, 0);
    }
  }

  // ---------- Contents ----------

  lemma {:induction false} SwapKeepsElements(c: seq<Elem>, i: nat, j: nat)
    requires 1 <= i <= |c| && 1 <= j <= |c|
    ensures multiset(Swap(c, i, j)) == multiset(c)
  {
  }

  lemma {:induction false} UpKeepsElements(cmp: Cmp, c: seq<Elem>, i: nat)
    requires 1 <= i <= |c|
    ensures multiset(Up(cmp, c, i)) == multiset(c)
    decreases i
  {
    if i > 1 && cmp(At(c, i), At(c, i / 2)) > 0 {
      SwapKeepsElements(c, i, i / 2);
      UpKeepsElements(cmp, Swap(c, i, i / 2), i / 2);
    }
  }

  lemma {:induction false} DownKeepsElements(rule: Rule, cmp: Cmp, c: seq<Elem>, i: nat)
    requires 1 <= i <= |c|
    ensures multiset(Down(rule, cmp, c, i)) == multiset(c)
    decreases |c| - i
  {
    var b := Best(rule, cmp, c, i);
    if b != i {
      SwapKeepsElements(c, i, b);
      DownKeepsElements(rule, cmp, Swap(c, i, b), b);
    }
  }

  /** Replacing position k by the last element, and dropping the last slot, takes out At(c, k). */
  lemma {:induction false} CutKeepsElements(c: seq<Elem>, k: nat)
    requires 1 <= k <= |c|
    ensures multiset(c) == multiset(c[k - 1 := c[|c| - 1]][..|c| - 1]) + multiset{At(c, k)}
  {
    var n := |c| - 1;
    var d := c[k - 1 := c[n]];
    assert d == d[..n] + [d[n]];
    assert c == c[..n] + [c[n]];
    if k - 1 < n {
      assert d[..n] == c[..n][k - 1 := c[n]];
    } else {
      assert d[..n] == c[..n];
    }
  }

  // ---------- The operations ----------

  /** HPQEnqueue, as written, keeps the order and adds exactly the new element. */
  lemma {:induction false} EnqueueKeepsHeap(cmp: Cmp, c: seq<Elem>, x: Elem)
    requires TotalPreorder(cmp) && Ordered(cmp, c)
    ensures Ordered(cmp, Enqueued(cmp, c, x))
    ensures multiset(Enqueued(cmp, c, x)) == multiset(c) + multiset{x}
  {
    var d := c + [x];
    forall p | 1 <= p <= |d| ensures AboveKids(cmp, d, p, p, |d|) {
      if p <= |c| { assert AboveKids(cmp, c, p, p, 0); }
    }
    UpOrders(cmp, d, |d|);
    UpKeepsElements(cmp, d, |d|);
  }

  lemma {:induction false} RootIsFirst(cmp: Cmp, c: seq<Elem>, i: nat)
    requires TotalPreorder(cmp) && Ordered(cmp, c) && 1 <= i <= |c|
    ensures cmp(At(c, 1), At(c, i)) >= 0
    decreases i
  {
    if i > 1 {
      RootIsFirst(cmp, c, i / 2);
      assert AboveKids(cmp, c, i / 2, i / 2, 0);
    } else {
      Reflexive(cmp, At(c, 1));
    }
  }

  lemma {:induction false} Reflexive(cmp: Cmp, x: Elem)
    requires TotalPreorder(cmp)
    ensures cmp(x, x) == 0
  {
    assert cmp(x, x) > 0 <==> cmp(x, x) < 0;
  }

  /** Moving the last element to k leaves k alone out of order. */
  lemma {:induction false} CutReady(cmp: Cmp, c: seq<Elem>, k: nat)
    requires Ordered(cmp, c) && 1 <= k < |c|
    ensures var d := c[k - 1 := c[|c| - 1]][..|c| - 1];
      && (forall p :: 1 <= p <= |d| && p != k ==> AboveKids(cmp, d, p, p, k))
      && (k >= 2 ==> Above(cmp, c, k / 2, k))
  {
    var d := c[k - 1 := c[|c| - 1]][..|c| - 1];
    forall p | 1 <= p <= |d| && p != k ensures AboveKids(cmp, d, p, p, k) {
      assert AboveKids(cmp, c, p, p, 0);
    }
    if k >= 2 { assert AboveKids(cmp, c, k / 2, k / 2, 0); }
  }

  /** With either sift-down, HPQDequeue takes out the root and nothing else. */
  lemma {:induction false} DequeueTakesRoot(rule: Rule, cmp: Cmp, c: seq<Elem>)
    requires c != []
    ensures multiset(c) == multiset(Dequeued(rule, cmp, c)) + multiset{c[0]}
  {
    var d := c[0 := c[|c| - 1]][..|c| - 1];
    CutKeepsElements(c, 1);
    if d != [] { DownKeepsElements(rule, cmp, d, 1); }
  }

  /** With the sift-down its comments describe, HPQDequeue keeps the order and takes out the root. */
  lemma {:induction false} DequeueKeepsHeap(cmp: Cmp, c: seq<Elem>)
    requires TotalPreorder(cmp) && Ordered(cmp, c) && c != []
    ensures Ordered(cmp, Dequeued(AsCommented, cmp, c))
    ensures multiset(c) == multiset(Dequeued(AsCommented, cmp, c)) + multiset{c[0]}
  {
    var d := c[0 := c[|c| - 1]][..|c| - 1];
    DequeueTakesRoot(AsCommented, cmp, c);
    if d != [] {
      CutReady(cmp, c, 1);
      assert DownReady(cmp, d, 1) by {
        forall p | 1 <= p <= |d| && p != 1 ensures AboveKids(cmp, d, p, p, 0) {
          assert AboveKids(cmp, d, p, p, 1);
        }
      }
      DownOrders(cmp, d, 1);
    }
  }

  /** Peek and dequeue until nothing is left. */
  function Drained(rule: Rule, cmp: Cmp, c: seq<Elem>): (d: seq<Elem>)
    ensures |d| == |c|
    decreases |c|
  {
    if c == [] then [] else [c[0]] + Drained(rule, cmp, Dequeued(rule, cmp, c))
  }

  predicate Descending(cmp: Cmp, d: seq<Elem>) {
    forall i, j :: 0 <= i < j < |d| ==> cmp(d[i], d[j]) >= 0
  }

  lemma {:induction false} RestBelowRoot(cmp: Cmp, c: seq<Elem>, r: seq<Elem>)
    requires TotalPreorder(cmp) && Ordered(cmp, c) && c != [] && multiset(c) == multiset(r) + multiset{c[0]}
    ensures forall j :: 0 <= j < |r| ==> cmp(c[0], r[j]) >= 0
  {
    forall j | 0 <= j < |r| ensures cmp(c[0], r[j]) >= 0 {
      assert r[j] in multiset(r) && r[j] in multiset(c);
      var i :| 0 <= i < |c| && c[i] == r[j];
      RootIsFirst(cmp, c, i + 1);
    }
  }

  /** With either sift-down, and any comparison, draining loses and invents nothing. */
  lemma {:induction false} DrainKeepsElements(rule: Rule, cmp: Cmp, c: seq<Elem>)
    ensures multiset(Drained(rule, cmp, c)) == multiset(c)
    decreases |c|
  {
    if c == [] {
    } else {
      DequeueTakesRoot(rule, cmp, c);
      DrainKeepsElements(rule, cmp, Dequeued(rule, cmp, c));
      assert Drained(rule, cmp, c) == [c[0]] + Drained(rule, cmp, Dequeued(rule, cmp, c));
    }
  }

  /** Draining a heap gives its contents in order, for every total preorder. */
  lemma {:induction false} DrainSorts(cmp: Cmp, c: seq<Elem>)
    requires TotalPreorder(cmp) && Ordered(cmp, c)
    ensures multiset(Drained(AsCommented, cmp, c)) == multiset(c)
    ensures Descending(cmp, Drained(AsCommented, cmp, c))
    decreases |c|
  {
    DrainKeepsElements(AsCommented, cmp, c);
    if c == [] {
    } else {
      var d := Dequeued(AsCommented, cmp, c);
      var r := Drained(AsCommented, cmp, d);
      DequeueKeepsHeap(cmp, c);
      DrainSorts(cmp, d);
      RestBelowRoot(cmp, c, r);
      assert Drained(AsCommented, cmp, c) == [c[0]] + r;
    }
  }
}

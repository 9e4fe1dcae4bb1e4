/** The doubly linked list with sentinels at both ends, and moving a segment from one place to
    another by rewriting six links. */
module DoublyLinked {
  import opened Visiting

  class DNode {
    var data: int
    var next: DNode?
    var prev: DNode?

    constructor (data: int, prev: DNode?, next: DNode?)
      ensures this.data == data && this.prev == prev && this.next == next
    {
      this.data, this.prev, this.next := data, prev, next;
    }
  }

  ghost predicate Distinct(ns: seq<DNode>) {
    forall i, j :: 0 <= i < j < |ns| ==> ns[i] != ns[j]
  }

  /** Neighbours in `ns` are linked both ways. */
  ghost predicate Inner(ns: seq<DNode>)
    reads ns
  {
    && (forall i {:trigger ns[i].next} :: 0 <= i < |ns| - 1 ==> ns[i].next == ns[i + 1])
    && (forall i {:trigger ns[i].prev} :: 1 <= i < |ns| ==> ns[i].prev == ns[i - 1])
  }

  /** `ns` is a whole chain, sentinels included: distinct nodes, with next and prev inverse to
      each other, and nothing before the first or after the last. */
  ghost predicate Linked(ns: seq<DNode>)
    reads ns
  {
    && |ns| >= 2 && Distinct(ns) && Inner(ns)
    && ns[0].prev == null && ns[|ns| - 1].next == null
  }

  ghost function Datas(ns: seq<DNode>): (ds: seq<int>)
    reads ns
    ensures |ds| == |ns| && forall i :: 0 <= i < |ns| ==> ds[i] == ns[i].data
  {
    seq(|ns|, i requires 0 <= i < |ns| reads ns => ns[i].data)
  }

  // ---------- Pieces of chains ----------

  /** Neighbours in `ns` are linked both ways, except across the cuts. */
  ghost predicate LinkedBut(ns: seq<DNode>, cuts: set<nat>)
    reads ns
  {
    && (forall i {:trigger ns[i].next} :: 0 <= i < |ns| - 1 && i + 1 !in cuts ==> ns[i].next == ns[i + 1])
    && (forall i {:trigger ns[i].prev} :: 1 <= i < |ns| && i !in cuts ==> ns[i].prev == ns[i - 1])
  }

  lemma {:induction false} PieceInner(ns: seq<DNode>, cuts: set<nat>, lo: nat, hi: nat)
    requires LinkedBut(ns, cuts) && lo <= hi <= |ns| && forall c :: c in cuts ==> c <= lo || hi <= c
    ensures Inner(ns[lo..hi]) && (lo == 0 ==> Inner(ns[..hi])) && (hi == |ns| ==> Inner(ns[lo..]))
  {
    assert ns[0..hi] == ns[..hi] && ns[lo..|ns|] == ns[lo..];
    var r := ns[lo..hi];
    forall i | 0 <= i < |r| - 1 ensures r[i].next == r[i + 1] {
      assert lo + i + 1 !in cuts && r[i] == ns[lo + i] && ns[lo + i].next == ns[lo + i + 1];
    }
    forall i | 1 <= i < |r| ensures r[i].prev == r[i - 1] {
      assert lo + i !in cuts && r[i] == ns[lo + i] && ns[lo + i].prev == ns[lo + i - 1];
    }
  }

  /** The last of `s` and the first of `t` are linked both ways. */
  ghost predicate Meets(s: seq<DNode>, t: seq<DNode>)
    requires s != [] && t != []
    reads s, t
  {
    s[|s| - 1].next == t[0] && t[0].prev == s[|s| - 1]
  }

  lemma {:induction false} InnerConcat(s: seq<DNode>, t: seq<DNode>)
    requires s != [] && t != [] && Inner(s) && Inner(t) && Meets(s, t)
    ensures Inner(s + t)
  {
    var r := s + t;
    forall i | 0 <= i < |r| - 1 ensures r[i].next == r[i + 1] {
      if i < |s| - 1 { assert r[i] == s[i] && s[i].next == s[i + 1]; }
      if i >= |s| { assert r[i] == t[i - |s|] && t[i - |s|].next == t[i - |s| + 1]; }
    }
    forall i | 1 <= i < |r| ensures r[i].prev == r[i - 1] {
      if i < |s| { assert r[i] == s[i] && s[i].prev == s[i - 1]; }
      if i > |s| { assert r[i] == t[i - |s|] && t[i - |s|].prev == t[i - |s| - 1]; }
    }
  }

  lemma {:induction false} DistinctConcat(s: seq<DNode>, t: seq<DNode>)
    ensures Distinct(s + t) <==> Distinct(s) && Distinct(t) && forall n :: n in s ==> n !in t
  {
    var r := s + t;
    assert forall i :: 0 <= i < |s| ==> r[i] == s[i];
    assert forall i :: 0 <= i < |t| ==> r[|s| + i] == t[i];
    if Distinct(s) && Distinct(t) && (forall n :: n in s ==> n !in t) {
      forall i, j | 0 <= i < j < |r| ensures r[i] != r[j] {
        if i < |s| <= j { assert r[i] in s && r[j] in t; }
      }
    }
  }

  /** No node in common. */
  ghost predicate Apart(a: seq<DNode>, b: seq<DNode>) {
    forall i, j :: 0 <= i < |a| && 0 <= j < |b| ==> a[i] != b[j]
  }

  lemma {:induction false} DistinctInsert(b: seq<DNode>, d: nat, t: seq<DNode>)
    requires Distinct(b) && Distinct(t) && Apart(t, b) && d <= |b|
    ensures Distinct(b[..d] + t + b[d..])
  {
    DistinctConcat(b[..d], b[d..]);
    assert b[..d] + b[d..] == b;
    DistinctConcat(b[..d], t);
    DistinctConcat(b[..d] + t, b[d..]);
  }

  lemma {:induction false} DistinctCut(a: seq<DNode>, i: nat, j: nat)
    requires Distinct(a) && i <= j <= |a|
    ensures Distinct(a[..i] + a[j..])
  {
  }

  /** Two chains joined end to end. */
  lemma {:induction false} JoinTwo(s: seq<DNode>, t: seq<DNode>)
    requires s != [] && t != [] && Distinct(s + t) && Inner(s) && Inner(t) && Meets(s, t)
    requires s[0].prev == null && t[|t| - 1].next == null
    ensures Linked(s + t)
  {
    InnerConcat(s, t);
  }

  lemma {:induction false} JoinThree(s: seq<DNode>, t: seq<DNode>, u: seq<DNode>)
    requires s != [] && t != [] && u != [] && Distinct(s + t + u)
    requires Inner(s) && Inner(t) && Inner(u) && Meets(s, t) && Meets(t, u)
    requires s[0].prev == null && u[|u| - 1].next == null
    ensures Linked(s + t + u)
  {
    InnerConcat(s, t);
    InnerConcat(s + t, u);
  }

  lemma {:induction false} DistinctSwap(x: seq<DNode>, y: seq<DNode>, z: seq<DNode>, w: seq<DNode>)
    requires Distinct(x + y + z + w)
    ensures Distinct(x + z + y + w)
  {
    DistinctConcat(x + y + z, w);
    DistinctConcat(x + y, z);
    DistinctConcat(x, y);
    DistinctConcat(x, z);
    DistinctConcat(x + z, y);
    DistinctConcat(x + z + y, w);
  }

  /** Exchanging two neighbouring pieces of a chain. */
  lemma {:induction false} SwapPieces(x: seq<DNode>, y: seq<DNode>, z: seq<DNode>, w: seq<DNode>)
    requires x != [] && y != [] && z != [] && w != [] && Distinct(x + y + z + w)
    requires Inner(x) && Inner(y) && Inner(z) && Inner(w)
    requires Meets(x, z) && Meets(z, y) && Meets(y, w)
    requires x[0].prev == null && w[|w| - 1].next == null
    ensures Linked(x + z + y + w)
  {
    DistinctSwap(x, y, z, w);
    InnerConcat(x, z);
    InnerConcat(x + z, y);
    InnerConcat(x + z + y, w);
  }

  // ---------- Splicing ----------

  /** The six links a splice of [i, j) of `a` to d of `b` makes, when none is made twice. */
  ghost predicate Spliced(a: seq<DNode>, i: nat, j: nat, b: seq<DNode>, d: nat)
    requires 1 <= i < j < |a| && 1 <= d < |b|
    reads a, b
  {
    && a[i - 1].next == a[j] && a[j].prev == a[i - 1]
    && b[d - 1].next == a[i] && a[i].prev == b[d - 1]
    && a[j - 1].next == b[d] && b[d].prev == a[j - 1]
  }

  ghost predicate Ends(ns: seq<DNode>)
    requires ns != []
    reads ns
  {
    ns[0].prev == null && ns[|ns| - 1].next == null
  }

  lemma {:induction false} SplicedAway(a: seq<DNode>, i: nat, j: nat, b: seq<DNode>, d: nat)
    requires 1 <= i < j < |a| && 1 <= d < |b| && Spliced(a, i, j, b, d)
    requires Distinct(a) && Distinct(b) && Apart(a, b)
    requires LinkedBut(a, {i, j}) && LinkedBut(b, {d}) && Ends(a) && Ends(b)
    ensures Linked(a[..i] + a[j..]) && Linked(b[..d] + a[i..j] + b[d..])
  {
    PieceInner(a, {i, j}, 0, i);
    PieceInner(a, {i, j}, i, j);
    PieceInner(a, {i, j}, j, |a|);
    PieceInner(b, {d}, 0, d);
    PieceInner(b, {d}, d, |b|);
    DistinctInsert(b, d, a[i..j]);
    DistinctCut(a, i, j);
    JoinTwo(a[..i], a[j..]);
    JoinThree(b[..d], a[i..j], b[d..]);
  }

  lemma {:induction false} SplicedBack(a: seq<DNode>, i: nat, j: nat, d: nat)
    requires 1 <= d < i < j < |a| && Spliced(a, i, j, a, d)
    requires Distinct(a) && LinkedBut(a, {i, j, d}) && Ends(a)
    ensures Linked(a[..d] + a[i..j] + a[d..i] + a[j..])
  {
    var x, y, z, w := a[..d], a[d..i], a[i..j], a[j..];
    PieceInner(a, {i, j, d}, 0, d);
    PieceInner(a, {i, j, d}, d, i);
    PieceInner(a, {i, j, d}, i, j);
    PieceInner(a, {i, j, d}, j, |a|);
    assert x + y + z + w == a;
    assert x[|x| - 1] == a[d - 1] && y[|y| - 1] == a[i - 1] && z[|z| - 1] == a[j - 1];
    SwapPieces(x, y, z, w);
  }

  lemma {:induction false} SplicedForward(a: seq<DNode>, i: nat, j: nat, d: nat)
    requires 1 <= i < j < d < |a| && Spliced(a, i, j, a, d)
    requires Distinct(a) && LinkedBut(a, {i, j, d}) && Ends(a)
    ensures Linked(a[..i] + a[j..d] + a[i..j] + a[d..])
  {
    var x, y, z, w := a[..i], a[i..j], a[j..d], a[d..];
    PieceInner(a, {i, j, d}, 0, i);
    PieceInner(a, {i, j, d}, i, j);
    PieceInner(a, {i, j, d}, j, d);
    PieceInner(a, {i, j, d}, d, |a|);
    assert x + y + z + w == a;
    assert x[|x| - 1] == a[i - 1] && y[|y| - 1] == a[j - 1] && z[|z| - 1] == a[d - 1];
    SwapPieces(x, y, z, w);
  }

  /** The chain of the source list after a splice that does what it should: without the
      segment, or with the segment in front of d if d is in the same chain and outside it. */
  function Source(a: seq<DNode>, i: nat, j: nat, same: bool, d: nat): seq<DNode>
    requires i <= j <= |a| && (same ==> d <= |a|)
  {
    if !same then a[..i] + a[j..]
    else if d <= i then a[..d] + a[i..j] + a[d..i] + a[j..]
    else if j <= d then a[..i] + a[j..d] + a[i..j] + a[d..]
    else a
  }

  /** The shapes the code gets right: a segment that is not empty, and a destination that is
      neither in it nor right behind it - or all three iterators equal. */
  predicate Safe(i: nat, j: nat, same: bool, d: nat) {
    (i < j && (same ==> d < i || j < d)) || (same && i == j == d)
  }

  /** The link into node i of `a` is not what it was. */
  ghost predicate CutAt(a: seq<DNode>, i: nat)
    requires 1 <= i < |a|
    reads a
  {
    !(a[i - 1].next == a[i] && a[i].prev == a[i - 1])
  }

  /** The assignments of DListSplice. Where two of the nodes are one, the later assignment wins. */
  method SixLinks(
    dest: DNode, from: DNode, to: DNode, ghost beforeFrom: DNode, ghost last: DNode, ghost beforeDest: DNode)
    requires from.prev == beforeFrom && to.prev == last && dest.prev == beforeDest
    modifies dest`prev, from`prev, to`prev, {beforeFrom, last, beforeDest}`next
    ensures dest.prev == last && last.next == dest
    ensures from != dest ==> from.prev == beforeDest
    ensures beforeDest != last ==> beforeDest.next == from
    ensures to != from && to != dest ==> to.prev == beforeFrom
    ensures beforeFrom != beforeDest && beforeFrom != last ==> beforeFrom.next == to
  {
    var destPrev := dest.prev;
    var fromPrev := from.prev;
    var inclusiveTo := to.prev;

    // The source list closes over the gap.
    fromPrev.next := to;
    to.prev := fromPrev;

    // The node before `dest` and the first of the segment.
    destPrev.next := from;
    from.prev := destPrev;

    // The last of the segment and `dest`.
    inclusiveTo.next := dest;
    dest.prev := inclusiveTo;
  }

  /** What they make of the links of two chains, or of one. */
  method Relink(
    dest: DNode, from: DNode, to: DNode, ghost a: seq<DNode>, ghost i: nat, ghost j: nat,
    ghost b: seq<DNode>, ghost d: nat)
    requires Linked(a) && Linked(b) && (a == b || Apart(a, b))
    requires 1 <= i <= j < |a| && 1 <= d < |b| && from == a[i] && to == a[j] && dest == b[d]
    modifies dest`prev, from`prev, to`prev, {dest.prev, from.prev, to.prev}`next
    ensures Ends(a) && Ends(b)
    ensures a != b ==> LinkedBut(a, {i, j}) && LinkedBut(b, {d})
    ensures a == b ==> LinkedBut(a, {i, j, d})
    ensures i < j && (a != b || d < i || j < d) ==> Spliced(a, i, j, b, d)
    ensures a == b && i < d < j ==> a[i - 1].next == a[j] && a[j].prev == a[i - 1]
    ensures a == b && (i == j || d == i || d == j) ==> (CutAt(a, i) <==> !(i == j == d))
    ensures a != b && i == j ==> CutAt(a, i)
  {
    assert a[i - 1].next == a[i] && a[j - 1].next == a[j] && b[d - 1].next == b[d];
    SixLinks(dest, from, to, a[i - 1], a[j - 1], b[d - 1]);
  }

  /** Move the segment from `from` up to, not including, `to` in front of `dest`.
      The segment is nodes i to j of chain `a`; `dest` is node d of chain `b`, which is `a` or
      has no node in common with it. In the unsafe shapes the links of the source chain are
      broken, and with `dest` inside the segment the segment is lost besides. */
  method Splice(
    dest: DNode, from: DNode, to: DNode, ghost a: seq<DNode>, ghost i: nat, ghost j: nat,
    ghost b: seq<DNode>, ghost d: nat)
    requires Linked(a) && Linked(b) && (a == b || Apart(a, b))
    requires 1 <= i <= j < |a| && 1 <= d < |b| && from == a[i] && to == a[j] && dest == b[d]
    modifies dest`prev, from`prev, to`prev, {dest.prev, from.prev, to.prev}`next
    ensures Safe(i, j, a == b, d) ==> Linked(Source(a, i, j, a == b, d))
    ensures Safe(i, j, a == b, d) && a != b ==> Linked(b[..d] + a[i..j] + b[d..])
    ensures !Safe(i, j, a == b, d) ==> !Linked(Source(a, i, j, a == b, d))
    ensures a == b && i < d < j ==> Linked(a[..i] + a[j..])
  {
    Relink(dest, from, to, a, i, j, b, d);
    if a != b {
      if i < j { SplicedAway(a, i, j, b, d); } else { NotLinked(a, i); assert a[..i] + a[i..] == a; }
    } else if i < j && d < i {
      SplicedBack(a, i, j, d);
    } else if i < j && j < d {
      SplicedForward(a, i, j, d);
    } else if i < d < j {
      LostInside(a, i, j, d);
    } else {
      SourceUnchanged(a, i, j, d);
      if i == j == d { StillLinked(a, i); } else { NotLinked(a, i); }
    }
  }

  lemma {:induction false} NotLinked(a: seq<DNode>, i: nat)
    requires 1 <= i < |a| && CutAt(a, i)
    ensures !Linked(a)
  {
  }

  lemma {:induction false} StillLinked(a: seq<DNode>, i: nat)
    requires |a| >= 2 && Distinct(a) && LinkedBut(a, {i}) && 1 <= i < |a| && !CutAt(a, i) && Ends(a)
    ensures Linked(a)
  {
  }

  lemma {:induction false} SourceUnchanged(a: seq<DNode>, i: nat, j: nat, d: nat)
    requires i <= j <= |a| && d <= |a| && (i == j || d == i || d == j)
    ensures Source(a, i, j, true, d) == a
  {
    InThree(a, d, i);
    InThree(a, i, j);
    InThree(a, j, d);
    if i == j { assert a[i..j] == []; }
    if d == i { assert a[d..i] == []; }
    if d == j { assert a[j..d] == []; }
  }

  lemma {:induction false} InThree(a: seq<DNode>, x: nat, y: nat)
    requires x <= |a| && y <= |a|
    ensures x <= y ==> a[..x] + a[x..y] + a[y..] == a
    ensures a[..x] + a[x..] == a
  {
  }

  lemma {:induction false} LostInside(a: seq<DNode>, i: nat, j: nat, d: nat)
    requires 1 <= i < d < j < |a| && Distinct(a) && LinkedBut(a, {i, j, d}) && Ends(a)
    requires a[i - 1].next == a[j] && a[j].prev == a[i - 1]
    ensures Linked(a[..i] + a[j..]) && !Linked(a)
  {
    PieceInner(a, {i, j, d}, 0, i);
    PieceInner(a, {i, j, d}, j, |a|);
    DistinctCut(a, i, j);
    JoinTwo(a[..i], a[j..]);
    assert a[i - 1].next != a[i];
  }

  // ---------- Lists ----------

  /** The data of the nodes between the first and the last. */
  ghost function Inside(ns: seq<DNode>): (ds: seq<int>)
    requires |ns| >= 2
    reads ns
    ensures |ds| == |ns| - 2 && forall k :: 0 <= k < |ds| ==> ds[k] == ns[k + 1].data
  {
    seq(|ns| - 2, k requires 0 <= k < |ns| - 2 reads ns => ns[k + 1].data)
  }

  /** What putting `t` in front of node d does to the data. */
  function PutIn(vs: seq<int>, d: nat, t: seq<int>): seq<int>
    requires 1 <= d <= |vs| + 1
  {
    vs[..d - 1] + t + vs[d - 1..]
  }

  /** What taking out nodes i to j does to the data. */
  function TakeOut(vs: seq<int>, i: nat, j: nat): seq<int>
    requires 1 <= i <= j <= |vs| + 1
  {
    vs[..i - 1] + vs[j - 1..]
  }

  /** Positions i to j taken out and put in front of what was at position d. */
  function Moved(vs: seq<int>, i: nat, j: nat, d: nat): seq<int>
    requires 1 <= i < j <= |vs| + 1 && 1 <= d <= |vs| + 1 && (d < i || j < d)
  {
    PutIn(TakeOut(vs, i, j), if d < i then d else d - (j - i), vs[i - 1..j - 1])
  }

  lemma {:induction false} InsertedData(b: seq<DNode>, d: nat, t: seq<DNode>)
    requires 1 <= d < |b|
    ensures Inside(b[..d] + t + b[d..]) == PutIn(Inside(b), d, Datas(t))
  {
  }

  lemma {:induction false} CutData(a: seq<DNode>, i: nat, j: nat)
    requires 1 <= i <= j < |a|
    ensures Inside(a[..i] + a[j..]) == TakeOut(Inside(a), i, j)
    ensures Datas(a[i..j]) == Inside(a)[i - 1..j - 1]
  {
  }

  lemma {:induction false} MovedData(a: seq<DNode>, i: nat, j: nat, d: nat)
    requires 1 <= i < j < |a| && 1 <= d < |a| && (d < i || j < d)
    ensures |Source(a, i, j, true, d)| >= 2 && Inside(Source(a, i, j, true, d)) == Moved(Inside(a), i, j, d)
  {
    var rest, e := a[..i] + a[j..], if d < i then d else d - (j - i);
    if d < i {
      assert rest[..e] == a[..d] && rest[e..] == a[d..i] + a[j..];
      assert Source(a, i, j, true, d) == a[..d] + a[i..j] + (a[d..i] + a[j..]);
    } else {
      assert rest[..e] == a[..i] + a[j..d] && rest[e..] == a[d..];
    }
    CutData(a, i, j);
    InsertedData(rest, e, a[i..j]);
  }

  class DList {
    const head: DNode
    const tail: DNode
    ghost var chain: seq<DNode>

    ghost predicate Valid()
      reads this, chain
    {
      Linked(chain) && chain[0] == head && chain[|chain| - 1] == tail
    }

    /** The data between the sentinels. */
    ghost function Contents(): seq<int>
      requires Valid()
      reads this, chain
    {
      Inside(chain)
    }

    constructor ()
      ensures Valid() && Contents() == [] && fresh(chain)
    {
      var h := new DNode(0, null, null);
      var t := new DNode(0, null, null);
      h.next, t.prev := t, h;
      head, tail, chain := h, t, [h, t];
    }

    /** Insert in front of `iter`, node k of the chain. */
    method InsertBefore(iter: DNode, data: int, ok: bool, ghost k: nat) returns (r: DNode)
      requires Valid() && 1 <= k < |chain| && chain[k] == iter
      modifies this`chain, iter`prev, {iter.prev}`next
      ensures Valid()
      ensures if ok then fresh(r) && chain == old(chain[..k] + [r] + chain[k..]) else r == tail && chain == old(chain)
      ensures Contents() == if ok then PutIn(old(Contents()), k, [data]) else old(Contents())
    {
      if !ok {
        return tail;
      }
      ghost var c';
      r, c' := Thread(iter, data, chain, k);
      Adopt(c');
    }

    /** Unlink `iter`, node k of the chain, which is not a sentinel. */
    method Remove(iter: DNode, ghost k: nat) returns (r: DNode)
      requires Valid() && 1 <= k < |chain| - 1 && chain[k] == iter
      modifies this`chain, {iter.prev}`next, {iter.next}`prev
      ensures Valid() && r == old(chain)[k + 1] && chain == old(chain[..k] + chain[k + 1..])
      ensures Contents() == TakeOut(old(Contents()), k, k + 1)
    {
      ghost var c';
      r, c' := Unthread(iter, chain, k);
      Adopt(c');
    }

    ghost method Adopt(c: seq<DNode>)
      requires Linked(c) && c[0] == head && c[|c| - 1] == tail
      modifies this`chain
      ensures chain == c && Valid() && Contents() == Inside(c)
    {
      chain := c;
    }

    ghost method AdoptBoth(c: seq<DNode>, src: DList, a: seq<DNode>)
      requires Linked(c) && c[0] == head && c[|c| - 1] == tail
      requires Linked(a) && a[0] == src.head && a[|a| - 1] == src.tail && src != this
      modifies this`chain, src`chain
      ensures chain == c && Valid() && Contents() == Inside(c)
      ensures src.chain == a && src.Valid() && src.Contents() == Inside(a)
    {
      src.Adopt(a);
      Adopt(c);
    }

    /** DListSplice from another list: the segment leaves there and arrives here. */
    method SpliceFrom(dest: DNode, from: DNode, to: DNode, src: DList, ghost i: nat, ghost j: nat, ghost d: nat)
      requires Valid() && src.Valid() && src != this && Apart(src.chain, chain)
      requires 1 <= i < j < |src.chain| && 1 <= d < |chain|
      requires from == src.chain[i] && to == src.chain[j] && dest == chain[d]
      modifies this`chain, src`chain, dest`prev, from`prev, to`prev, {dest.prev, from.prev, to.prev}`next
      ensures Valid() && src.Valid()
      ensures src.Contents() == TakeOut(old(src.Contents()), i, j)
      ensures Contents() == PutIn(old(Contents()), d, old(src.Contents())[i - 1..j - 1])
    {
      ghost var a', b' := SpliceChains(dest, from, to, src.chain, i, j, chain, d);
      AdoptBoth(b', src, a');
    }

    /** DListSplice within this list, `dest` outside the segment and not right behind it: the
        segment is taken out and put in front of `dest`, wherever that then is. */
    method SpliceWithin(dest: DNode, from: DNode, to: DNode, ghost i: nat, ghost j: nat, ghost d: nat)
      requires Valid() && 1 <= i < j < |chain| && 1 <= d < |chain| && (d < i || j < d)
      requires from == chain[i] && to == chain[j] && dest == chain[d]
      modifies this`chain, dest`prev, from`prev, to`prev, {dest.prev, from.prev, to.prev}`next
      ensures Valid() && Contents() == Moved(old(Contents()), i, j, d)
    {
      ghost var c := SpliceChain(dest, from, to, chain, i, j, d);
      Adopt(c);
    }
  }

  /** DListSplice within a list, in terms of its chain. */
  method SpliceChain(dest: DNode, from: DNode, to: DNode, ghost a: seq<DNode>, ghost i: nat, ghost j: nat, ghost d: nat)
    returns (ghost a': seq<DNode>)
    requires Linked(a) && 1 <= i < j < |a| && 1 <= d < |a| && (d < i || j < d)
    requires from == a[i] && to == a[j] && dest == a[d]
    modifies dest`prev, from`prev, to`prev, {dest.prev, from.prev, to.prev}`next
    ensures Linked(a') && a'[0] == a[0] && a'[|a'| - 1] == a[|a| - 1]
    ensures Inside(a') == Moved(old(Inside(a)), i, j, d)
  {
    a' := Source(a, i, j, true, d);
    MovedData(a, i, j, d);
    MoveWithin(dest, from, to, a, i, j, d, a');
  }

  /** The same, with the data of the new chain told from its nodes. */
  method MoveWithin(dest: DNode, from: DNode, to: DNode, ghost a: seq<DNode>, ghost i: nat, ghost j: nat, ghost d: nat,
                    ghost a': seq<DNode>)
    requires Linked(a) && 1 <= i < j < |a| && 1 <= d < |a| && (d < i || j < d)
    requires from == a[i] && to == a[j] && dest == a[d] && a' == Source(a, i, j, true, d)
    modifies dest`prev, from`prev, to`prev, {dest.prev, from.prev, to.prev}`next
    ensures Linked(a') && Inside(a') == old(Inside(a'))
  {
    Splice(dest, from, to, a, i, j, a, d);
  }

  /** DListSplice between two lists, in terms of their chains. */
  method SpliceChains(
    dest: DNode, from: DNode, to: DNode, ghost a: seq<DNode>, ghost i: nat, ghost j: nat,
    ghost b: seq<DNode>, ghost d: nat)
    returns (ghost a': seq<DNode>, ghost b': seq<DNode>)
    requires Linked(a) && Linked(b) && Apart(a, b)
    requires 1 <= i < j < |a| && 1 <= d < |b| && from == a[i] && to == a[j] && dest == b[d]
    modifies dest`prev, from`prev, to`prev, {dest.prev, from.prev, to.prev}`next
    ensures Linked(a') && a'[0] == a[0] && a'[|a'| - 1] == a[|a| - 1]
    ensures Linked(b') && b'[0] == b[0] && b'[|b'| - 1] == b[|b| - 1]
    ensures Inside(a') == TakeOut(old(Inside(a)), i, j)
    ensures Inside(b') == PutIn(old(Inside(b)), d, old(Inside(a))[i - 1..j - 1])
  {
    assert a[0] != b[0];
    a', b' := Source(a, i, j, false, d), b[..d] + a[i..j] + b[d..];
    CutData(a, i, j);
    InsertedData(b, d, a[i..j]);
    MoveSegment(dest, from, to, a, i, j, b, d, a', b');
  }

  /** The same, with the data of the new chains told from their nodes. */
  method MoveSegment(
    dest: DNode, from: DNode, to: DNode, ghost a: seq<DNode>, ghost i: nat, ghost j: nat,
    ghost b: seq<DNode>, ghost d: nat,
    ghost a': seq<DNode>, ghost b': seq<DNode>)
    requires Linked(a) && Linked(b) && Apart(a, b) && a != b
    requires 1 <= i < j < |a| && 1 <= d < |b| && from == a[i] && to == a[j] && dest == b[d]
    requires a' == Source(a, i, j, false, d) && b' == b[..d] + a[i..j] + b[d..]
    modifies dest`prev, from`prev, to`prev, {dest.prev, from.prev, to.prev}`next
    ensures Linked(a') && Linked(b') && Inside(a') == old(Inside(a')) && Inside(b') == old(Inside(b'))
  {
    Splice(dest, from, to, a, i, j, b, d);
  }

  /** A new node in front of node k of a chain. */
  method Thread(iter: DNode, data: int, ghost c: seq<DNode>, ghost k: nat) returns (r: DNode, ghost c': seq<DNode>)
    requires Linked(c) && 1 <= k < |c| && c[k] == iter
    modifies iter`prev, {iter.prev}`next
    ensures fresh(r) && Linked(c') && c'[0] == c[0] && c'[|c'| - 1] == c[|c| - 1]
    ensures c' == c[..k] + [r] + c[k..]
    ensures Inside(c') == PutIn(old(Inside(c)), k, [data])
  {
    r := Link(iter, data, c, k);
    c' := c[..k] + [r] + c[k..];
    InsertedData(c, k, [r]);
    assert Datas([r]) == [data];
  }

  method Link(iter: DNode, data: int, ghost c: seq<DNode>, ghost k: nat) returns (r: DNode)
    requires Linked(c) && 1 <= k < |c| && c[k] == iter
    modifies iter`prev, {iter.prev}`next
    ensures fresh(r) && r.data == data && Linked(c[..k] + [r] + c[k..]) && Inside(c) == old(Inside(c))
  {
    assert c[k - 1].next == c[k];
    r := new DNode(data, iter.prev, iter);
    iter.prev.next := r;
    iter.prev := r;
    Threaded(c, k, r);
  }

  lemma {:induction false} Threaded(c: seq<DNode>, k: nat, r: DNode)
    requires 1 <= k < |c| && Distinct(c) && Apart([r], c) && LinkedBut(c, {k}) && Ends(c)
    requires c[k - 1].next == r && r.prev == c[k - 1] && r.next == c[k] && c[k].prev == r
    ensures Linked(c[..k] + [r] + c[k..])
  {
    PieceInner(c, {k}, 0, k);
    PieceInner(c, {k}, k, |c|);
    DistinctInsert(c, k, [r]);
    JoinThree(c[..k], [r], c[k..]);
  }

  method Unthread(iter: DNode, ghost c: seq<DNode>, ghost k: nat) returns (r: DNode, ghost c': seq<DNode>)
    requires Linked(c) && 1 <= k < |c| - 1 && c[k] == iter
    modifies {iter.prev}`next, {iter.next}`prev
    ensures r == c[k + 1] && Linked(c') && c'[0] == c[0] && c'[|c'| - 1] == c[|c| - 1]
    ensures c' == c[..k] + c[k + 1..]
    ensures Inside(c') == TakeOut(old(Inside(c)), k, k + 1)
  {
    c' := c[..k] + c[k + 1..];
    CutData(c, k, k + 1);
    r := Unlink(iter, c, k, c');
  }

  /** The same, with the data of the new chain told from its nodes. */
  method Unlink(iter: DNode, ghost c: seq<DNode>, ghost k: nat, ghost c': seq<DNode>) returns (r: DNode)
    requires Linked(c) && 1 <= k < |c| - 1 && c[k] == iter && c' == c[..k] + c[k + 1..]
    modifies {iter.prev}`next, {iter.next}`prev
    ensures r == c[k + 1] && Linked(c') && Inside(c') == old(Inside(c'))
  {
    assert c[k - 1].next == c[k] && c[k].next == c[k + 1];
    r := iter.next;
    iter.prev.next := iter.next;
    iter.next.prev := iter.prev;
    Unthreaded(c, k);
  }

  lemma {:induction false} Unthreaded(c: seq<DNode>, k: nat)
    requires 1 <= k < |c| - 1 && Distinct(c) && LinkedBut(c, {k, k + 1}) && Ends(c)
    requires c[k - 1].next == c[k + 1] && c[k + 1].prev == c[k - 1]
    ensures Linked(c[..k] + c[k + 1..])
  {
    PieceInner(c, {k, k + 1}, 0, k);
    PieceInner(c, {k, k + 1}, k + 1, |c|);
    DistinctCut(c, k, k + 1);
    JoinTwo(c[..k], c[k + 1..]);
  }

  // ---------- Searching, visiting, collecting ----------

  /** The node after node k of a chain is node k + 1. */
  lemma {:induction false} Next(c: seq<DNode>, k: nat)
    requires Linked(c) && k + 1 < |c|
    ensures c[k].next == c[k + 1]
  {
  }

  /** Node k, before node j, is the first from node i on whose data match; or else k is j. */
  ghost predicate Found(c: seq<DNode>, i: nat, j: nat, matches: int -> bool, k: nat)
    requires i <= j < |c|
    reads c
  {
    i <= k <= j && (k < j ==> matches(c[k].data)) && forall m :: i <= m < k ==> !matches(c[m].data)
  }

  /** DListFind over [from, to), nodes i and j of the chain: the first match, or `to`. */
  method Find(
    from: DNode, to: DNode, matches: int -> bool, ghost c: seq<DNode>, ghost i: nat, ghost j: nat) returns (r: DNode)
    requires Linked(c) && i <= j < |c| && from == c[i] && to == c[j]
    ensures exists k :: 0 <= k < |c| && r == c[k] && Found(c, i, j, matches, k)
  {
    r := from;
    ghost var k := i;
    while r != to
      invariant i <= k <= j && r == c[k]
      invariant forall m :: i <= m < k ==> !matches(c[m].data)
      decreases j - k
    {
      if matches(r.data) {
        assert Found(c, i, j, matches, k);
        return;
      }
      Next(c, k);
      r, k := r.next, k + 1;
    }
    assert Found(c, i, j, matches, k);
  }

  /** DListForEach over [from, to), nodes i and j of the chain. */
  method ForEach<P>(
    from: DNode, to: DNode, op: (int, P) -> (P, bool), param: P, ghost c: seq<DNode>, ghost i: nat, ghost j: nat)
    returns (p: P, failed: bool)
    requires Linked(c) && i <= j < |c| && from == c[i] && to == c[j]
    ensures (p, failed) == Visit(Datas(c)[i..j], op, param)
    ensures exists ps :: Goes(Datas(c)[i..j], op, param, ps, p, failed)
  {
    ghost var ps := VisitGoes(Datas(c)[i..j], op, param);
    p, failed := param, false;
    var iter := from;
    ghost var k, ds := i, Datas(c);
    ghost var all := Visit(ds[i..j], op, param);
    while iter != to
      invariant i <= k <= j && iter == c[k] && !failed
      invariant Visit(ds[k..j], op, p) == all
      decreases j - k
    {
      assert ds[k..j][0] == iter.data && ds[k..j][1..] == ds[k + 1..j];
      var (p1, f) := op(iter.data, p);
      p := p1;
      if f {
        failed := true;
        return;
      }
      Next(c, k);
      iter, k := iter.next, k + 1;
    }
  }

  /** The matches among positions k to j of `vs`. */
  function Matches(vs: seq<int>, k: nat, j: nat, matches: int -> bool): seq<int>
    requires k <= j <= |vs|
    decreases j - k
  {
    if k == j then []
    else (if matches(vs[k]) then [vs[k]] else []) + Matches(vs, k + 1, j, matches)
  }

  /** The matches that find memory, `n` having been found before: `oks[m]` says whether the
      m-th allocation succeeds; later ones do. The count is -1 at the first failure. */
  function Gather(vs: seq<int>, k: nat, j: nat, matches: int -> bool, oks: seq<bool>, n: nat): (seq<int>, int)
    requires k <= j <= |vs|
    decreases j - k
  {
    if k == j then ([], n)
    else if !matches(vs[k]) then Gather(vs, k + 1, j, matches, oks, n)
    else if n < |oks| && !oks[n] then ([], -1)
    else
      var (rest, count) := Gather(vs, k + 1, j, matches, oks, n + 1);
      ([vs[k]] + rest, count)
  }

  /** `at` are the positions from k to j whose values match, in order, and `ms` their values. */
  predicate MatchesAt(vs: seq<int>, k: nat, j: nat, matches: int -> bool, at: seq<int>, ms: seq<int>) {
    && |ms| == |at|
    && (forall m :: 0 <= m < |at| ==> k <= at[m] < j && at[m] < |vs| && ms[m] == vs[at[m]] && matches(ms[m]))
    && (forall m, n :: 0 <= m < n < |at| ==> at[m] < at[n])
    && (forall x :: k <= x < j && x < |vs| && matches(vs[x]) ==> x in at)
  }

  lemma {:induction false} MatchesExactly(vs: seq<int>, k: nat, j: nat, matches: int -> bool) returns (at: seq<int>)
    requires k <= j <= |vs|
    ensures MatchesAt(vs, k, j, matches, at, Matches(vs, k, j, matches))
    decreases j - k
  {
    if k == j {
      at := [];
    } else {
      at := MatchesExactly(vs, k + 1, j, matches);
      if matches(vs[k]) {
        MatchTaken(vs, k, j, matches, at, Matches(vs, k + 1, j, matches));
        at := [k] + at;
      } else {
        MatchSkipped(vs, k, j, matches, at, Matches(vs, k + 1, j, matches));
        assert Matches(vs, k, j, matches) == Matches(vs, k + 1, j, matches);
      }
    }
  }

  lemma {:induction false} MatchTaken(
    vs: seq<int>, k: nat, j: nat, matches: int -> bool, at: seq<int>, ms: seq<int>)
    requires k < j <= |vs| && matches(vs[k]) && MatchesAt(vs, k + 1, j, matches, at, ms)
    ensures MatchesAt(vs, k, j, matches, [k] + at, [vs[k]] + ms)
  {
    var at', ms' := [k] + at, [vs[k]] + ms;
    forall m | 0 <= m < |at'| ensures k <= at'[m] < j && ms'[m] == vs[at'[m]] && matches(ms'[m]) {
      if m > 0 { assert at'[m] == at[m - 1] && ms'[m] == ms[m - 1]; }
    }
    forall m, n | 0 <= m < n < |at'| ensures at'[m] < at'[n] {
      assert at'[n] == at[n - 1];
      if m > 0 { assert at'[m] == at[m - 1]; }
    }
    assert at'[0] == k;
    forall x | k <= x < j && matches(vs[x]) ensures x in at' {
      if x > k { assert x in at; }
    }
  }

  lemma {:induction false} MatchSkipped(
    vs: seq<int>, k: nat, j: nat, matches: int -> bool, at: seq<int>, ms: seq<int>)
    requires k < j <= |vs| && !matches(vs[k]) && MatchesAt(vs, k + 1, j, matches, at, ms)
    ensures MatchesAt(vs, k, j, matches, at, ms)
  {
  }

  /** `found` of the matches `ms` are collected before the first allocation, counted from `n`,
      that fails; the count is -1 exactly if there is one among the matches. */
  predicate UpToFailure(ms: seq<int>, oks: seq<bool>, n: nat, found: seq<int>, count: int) {
    && found <= ms
    && (forall m :: n <= m < n + |found| && m < |oks| ==> oks[m])
    && if |found| == |ms| then count == n + |ms| else count == -1 && n + |found| < |oks| && !oks[n + |found|]
  }

  /** What is collected is a prefix of the matches, up to the first failed allocation; all of them,
      counted, unless -1 is returned. */
  lemma {:induction false} GatherMatches(vs: seq<int>, k: nat, j: nat, matches: int -> bool, oks: seq<bool>, n: nat)
    requires k <= j <= |vs|
    ensures var (found, count) := Gather(vs, k, j, matches, oks, n);
      UpToFailure(Matches(vs, k, j, matches), oks, n, found, count)
    decreases j - k
  {
    if k == j {
    } else if !matches(vs[k]) {
      GatherFirst(vs, k, j, matches, oks, n);
      GatherMatches(vs, k + 1, j, matches, oks, n);
    } else if n < |oks| && !oks[n] {
      GatherFirst(vs, k, j, matches, oks, n);
      FailureNow(Matches(vs, k, j, matches), oks, n);
    } else {
      GatherFirst(vs, k, j, matches, oks, n);
      GatherMatches(vs, k + 1, j, matches, oks, n + 1);
      var (rest, count) := Gather(vs, k + 1, j, matches, oks, n + 1);
      FailureLater(Matches(vs, k + 1, j, matches), oks, n, vs[k], rest, count);
    }
  }

  lemma {:induction false} GatherFirst(vs: seq<int>, k: nat, j: nat, matches: int -> bool, oks: seq<bool>, n: nat)
    requires k < j <= |vs|
    ensures Matches(vs, k, j, matches)
            == (if matches(vs[k]) then [vs[k]] else []) + Matches(vs, k + 1, j, matches)
    ensures !matches(vs[k]) ==>
      && Gather(vs, k, j, matches, oks, n) == Gather(vs, k + 1, j, matches, oks, n)
      && Matches(vs, k, j, matches) == Matches(vs, k + 1, j, matches)
    ensures matches(vs[k]) && n < |oks| && !oks[n] ==> Gather(vs, k, j, matches, oks, n) == ([], -1)
    ensures matches(vs[k]) && (n < |oks| ==> oks[n]) ==>
      var (rest, count) := Gather(vs, k + 1, j, matches, oks, n + 1);
      Gather(vs, k, j, matches, oks, n) == ([vs[k]] + rest, count)
  {
  }

  lemma {:induction false} FailureNow(ms: seq<int>, oks: seq<bool>, n: nat)
    requires ms != [] && n < |oks| && !oks[n]
    ensures UpToFailure(ms, oks, n, [], -1)
  {
  }

  lemma {:induction false} FailureLater(ms: seq<int>, oks: seq<bool>, n: nat, x: int, found: seq<int>, count: int)
    requires UpToFailure(ms, oks, n + 1, found, count) && (n < |oks| ==> oks[n])
    ensures UpToFailure([x] + ms, oks, n, [x] + found, count)
  {
    assert ([x] + ms)[..1 + |found|] == [x] + ms[..|found|];
  }

  /** DListPushBack */
  method PushBack(l: DList, data: int, ok: bool)
    requires l.Valid()
    modifies l`chain, (set x | x in l.chain)`next, (set x | x in l.chain)`prev
    ensures l.Valid() && l.Contents() == if ok then old(l.Contents()) + [data] else old(l.Contents())
    ensures forall n :: n in l.chain ==> n in old(l.chain) || fresh(n)
  {
    ghost var k := |l.chain| - 1;
    ghost var vs := l.Contents();
    assert vs[..k - 1] == vs && vs[k - 1..] == [];
    assert l.chain[k].prev == l.chain[k - 1];
    var r := l.InsertBefore(l.tail, data, ok, k);
  }

  /** The same, beside a chain that has no node in common with the list. */
  method PushBackBeside(l: DList, data: int, ok: bool, ghost c: seq<DNode>)
    requires l.Valid() && Linked(c) && forall n :: n in c ==> n !in l.chain
    modifies l`chain, (set x | x in l.chain)`next, (set x | x in l.chain)`prev
    ensures l.Valid() && l.Contents() == if ok then old(l.Contents()) + [data] else old(l.Contents())
    ensures forall n :: n in l.chain ==> n in old(l.chain) || fresh(n)
    ensures Linked(c) && Datas(c) == old(Datas(c)) && forall n :: n in c ==> n !in l.chain
  {
    PushBack(l, data, ok);
  }

  /** `before` and what Gather collects from i on is `now` and what it collects from k on. */
  ghost predicate Collected(vs: seq<int>, i: nat, k: nat, j: nat, matches: int -> bool, oks: seq<bool>, count: nat,
                            before: seq<int>, now: seq<int>)
    requires i <= k <= j <= |vs|
  {
    var (found, n) := Gather(vs, i, j, matches, oks, 0);
    var (more, m) := Gather(vs, k, j, matches, oks, count);
    n == m && before + found == now + more
  }

  /** The list went from `before` to `now` by what Gather collects, and the count is Gather's. */
  predicate AllCollected(vs: seq<int>, i: nat, j: nat, matches: int -> bool, oks: seq<bool>, count: int,
                         before: seq<int>, now: seq<int>)
    requires i <= j <= |vs|
  {
    var (found, n) := Gather(vs, i, j, matches, oks, 0);
    count == n && now == before + found
  }

  lemma {:induction false} CollectedNext(
    vs: seq<int>, i: nat, k: nat, j: nat, matches: int -> bool, oks: seq<bool>, count: nat,
    before: seq<int>, now: seq<int>)
    requires i <= k < j <= |vs| && Collected(vs, i, k, j, matches, oks, count, before, now)
    ensures !matches(vs[k]) ==> Collected(vs, i, k + 1, j, matches, oks, count, before, now)
    ensures matches(vs[k]) && (count < |oks| ==> oks[count]) ==>
      Collected(vs, i, k + 1, j, matches, oks, count + 1, before, now + [vs[k]])
    ensures matches(vs[k]) && count < |oks| && !oks[count] ==> AllCollected(vs, i, j, matches, oks, -1, before, now)
  {
    assert now + [] == now;
    var (more, m) := Gather(vs, k + 1, j, matches, oks, count + 1);
    assert now + ([vs[k]] + more) == now + [vs[k]] + more;
  }

  lemma {:induction false} CollectedAll(vs: seq<int>, i: nat, j: nat, matches: int -> bool, oks: seq<bool>, count: nat,
                     before: seq<int>, now: seq<int>)
    requires i <= j <= |vs| && Collected(vs, i, j, j, matches, oks, count, before, now)
    ensures AllCollected(vs, i, j, matches, oks, count, before, now)
  {
    assert now + [] == now;
  }

  /** The body of the loop below: copy the data of node k if it matches. */
  method CopyMatch(dest: DList, iter: DNode, matches: int -> bool, oks: seq<bool>, count: nat,
                   ghost c: seq<DNode>, ghost k: nat, ghost i: nat, ghost j: nat, ghost before: seq<int>)
    returns (n: int)
    requires dest.Valid() && Linked(c) && forall n :: n in c ==> n !in dest.chain
    requires i <= k < j < |c| && iter == c[k]
    requires Collected(Datas(c), i, k, j, matches, oks, count, before, dest.Contents())
    modifies dest`chain, (set x | x in dest.chain)`next, (set x | x in dest.chain)`prev
    ensures dest.Valid() && Linked(c) && Datas(c) == old(Datas(c)) && forall n :: n in c ==> n !in dest.chain
    ensures forall n :: n in dest.chain ==> n in old(dest.chain) || fresh(n)
    ensures n == -1 || n >= 0
    ensures n >= 0 ==> Collected(Datas(c), i, k + 1, j, matches, oks, n, before, dest.Contents())
    ensures n == -1 ==> AllCollected(Datas(c), i, j, matches, oks, n, before, dest.Contents())
  {
    n := count;
    CollectedNext(Datas(c), i, k, j, matches, oks, count, before, dest.Contents());
    if matches(iter.data) {
      var ok := count < |oks| ==> oks[count];
      PushBackBeside(dest, iter.data, ok, c);
      n := if ok then count + 1 else -1;
    }
  }

  /** DListMultiFind: copy the matches in [from, to) to the end of another list. */
  method MultiFind(dest: DList, from: DNode, to: DNode, matches: int -> bool, oks: seq<bool>,
                   ghost c: seq<DNode>, ghost i: nat, ghost j: nat)
    returns (count: int)
    requires dest.Valid() && Linked(c) && forall n :: n in c ==> n !in dest.chain
    requires i <= j < |c| && from == c[i] && to == c[j]
    modifies dest`chain, (set x | x in dest.chain)`next, (set x | x in dest.chain)`prev
    ensures dest.Valid() && Linked(c)
    ensures AllCollected(Datas(c), i, j, matches, oks, count, old(dest.Contents()), dest.Contents())
    ensures old(dest.Contents()) <= dest.Contents()
    ensures UpToFailure(Matches(Datas(c), i, j, matches), oks, 0, dest.Contents()[|old(dest.Contents())|..], count)
  {
    GatherMatches(Datas(c), i, j, matches, oks, 0);
    count := 0;
    var iter := from;
    ghost var k, ds, before := i, Datas(c), dest.Contents();
    while iter != to
      invariant dest.Valid() && Linked(c) && Datas(c) == ds && forall n :: n in c ==> n !in dest.chain
      invariant forall n :: n in dest.chain ==> n in old(dest.chain) || fresh(n)
      invariant i <= k <= j && iter == c[k] && 0 <= count
      invariant Collected(ds, i, k, j, matches, oks, count, before, dest.Contents())
      decreases j - k
    {
      count := CopyMatch(dest, iter, matches, oks, count, c, k, i, j, before);
      if count == -1 {
        return;
      }
      Next(c, k);
      iter, k := iter.next, k + 1;
    }
    CollectedAll(ds, i, j, matches, oks, count, before, dest.Contents());
  }
}

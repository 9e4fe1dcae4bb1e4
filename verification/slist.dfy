/** The singly linked list that inserts and removes by copying between neighbouring nodes, and
    whose dummy last node points back at the list that owns it. */
module SinglyLinked {
  import opened Visiting

  /** The data pointer of a node: the user's, or in a dummy node the owning list. */
  datatype Data = Elem(value: int) | Owner(list: SList)

  class SNode {
    var data: Data
    var next: SNode?

    constructor (data: Data, next: SNode?)
      ensures this.data == data && this.next == next
    {
      this.data, this.next := data, next;
    }
  }

  ghost predicate Distinct(ns: seq<SNode>) {
    forall i, j :: 0 <= i < j < |ns| ==> ns[i] != ns[j]
  }

  /** `ns` is the chain of nodes of list `l`: acyclic, from head to tail, with user data in all
      but the last, whose data is `l` itself. */
  ghost predicate IsChain(l: SList, ns: seq<SNode>)
    reads l, ns
  {
    && ns != [] && Distinct(ns)
    && l.head == ns[0] && l.tail == ns[|ns| - 1]
    && (forall i :: 0 <= i < |ns| - 1 ==> ns[i].next == ns[i + 1])
    && (forall i :: 0 <= i < |ns| - 1 ==> ns[i].data.Elem?)
    && ns[|ns| - 1].next == null && ns[|ns| - 1].data == Owner(l)
  }

  /** The user's data along a chain. */
  ghost function Values(ns: seq<SNode>): (vs: seq<int>)
    requires ns != [] && forall i :: 0 <= i < |ns| - 1 ==> ns[i].data.Elem?
    reads ns
    ensures |vs| == |ns| - 1
  {
    seq(|ns| - 1, i requires 0 <= i < |ns| - 1 reads ns => if ns[i].data.Elem? then ns[i].data.value else 0)
  }

  class SList {
    var head: SNode
    var tail: SNode
    ghost var nodes: seq<SNode>

    ghost predicate Valid()
      reads this, nodes
    {
      IsChain(this, nodes)
    }

    ghost function Contents(): seq<int>
      requires Valid()
      reads this, nodes
    {
      Values(nodes)
    }

    constructor ()
      ensures Valid() && Contents() == [] && fresh(nodes)
    {
      var dummy := new SNode(Elem(0), null);
      head, tail, nodes := dummy, dummy, [dummy];
      new;
      dummy.data := Owner(this);
    }

    /** A new node takes over what `iter` was, and `iter` holds `value` in front of it. */
    method PushDown(iter: SNode, value: int) returns (n: SNode)
      modifies this`tail, iter
      ensures fresh(n) && n.data == old(iter.data) && n.next == old(iter.next)
      ensures iter.data == Elem(value) && iter.next == n
      ensures tail == if old(iter.next) == null then n else old(tail)
    {
      n := new SNode(iter.data, iter.next);
      iter.data := Elem(value);
      iter.next := n;
      if n.next == null {
        tail := n;
      }
    }

    /** Insert before the element at `iter`, which is node k. The element that was there moves
        to the new node; the iterator now refers to the new element. */
    method InsertBefore(iter: SNode, value: int, ok: bool, ghost k: nat) returns (r: SNode)
      requires Valid() && k < |nodes| && nodes[k] == iter
      modifies this, iter
      ensures Valid() && r == if ok then iter else tail
      ensures k < |nodes| && nodes[k] == iter && (forall n :: n in nodes ==> n in old(nodes) || fresh(n))
      ensures Contents() == if ok then old(Contents()[..k] + [value] + Contents()[k..]) else old(Contents())
    {
      if !ok {
        return tail;
      }
      ghost var ns, vs := nodes, Contents();
      assert Leads(ns, 0, |ns| - 1, vs);
      var newNode := PushDown(iter, value);
      nodes := ns[..k + 1] + [newNode] + ns[k + 1..];
      Inserted(this, ns, newNode, k, vs, value);
      r := iter;
    }
  }

  /** Nodes of `ns` from `lo` to `hi` lead on to their successors and hold `vs`. */
  ghost predicate Leads(ns: seq<SNode>, lo: nat, hi: nat, vs: seq<int>)
    requires hi < |ns| && hi <= |vs|
    reads ns
  {
    forall i :: lo <= i < hi ==> ns[i].next == ns[i + 1] && ns[i].data == Elem(vs[i])
  }

  lemma {:induction false} InsertedDistinct(ns: seq<SNode>, n: SNode, k: nat)
    requires Distinct(ns) && n !in ns && k < |ns|
    ensures Distinct(ns[..k + 1] + [n] + ns[k + 1..])
  {
  }

  /** Node k holds the new value and leads to `n`, which took over what node k was. */
  lemma {:induction false} Inserted(l: SList, ns: seq<SNode>, n: SNode, k: nat, vs: seq<int>, value: int)
    requires Distinct(ns) && n !in ns && k < |ns| && |vs| == |ns| - 1
    requires Leads(ns, 0, k, vs) && Leads(ns, k + 1, |ns| - 1, vs)
    requires ns[k].next == n && ns[k].data == Elem(value) && l.head == ns[0]
    requires if k < |ns| - 1
             then n.data == Elem(vs[k]) && n.next == ns[k + 1] && EndsIn(l, ns[|ns| - 1])
             else EndsIn(l, n)
    ensures IsChain(l, ns[..k + 1] + [n] + ns[k + 1..])
    ensures Values(ns[..k + 1] + [n] + ns[k + 1..]) == vs[..k] + [value] + vs[k..]
  {
    var r, ws := ns[..k + 1] + [n] + ns[k + 1..], vs[..k] + [value] + vs[k..];
    InsertedDistinct(ns, n, k);
    forall i | 0 <= i < |r| - 1 ensures r[i].next == r[i + 1] && r[i].data == Elem(ws[i]) {
      if i < k { assert r[i] == ns[i] && ns[i].next == ns[i + 1]; }
      if i > k + 1 { assert r[i] == ns[i - 1] && ns[i - 1].next == ns[i]; }
    }
    assert r[|r| - 1] == if k < |ns| - 1 then ns[|ns| - 1] else n;
    assert r[0] == ns[0];
  }

  /** The dummy node of `l`. */
  ghost predicate EndsIn(l: SList, n: SNode)
    reads l, n
  {
    l.tail == n && n.next == null && n.data == Owner(l)
  }

  /** `iter` takes over what its successor was; a dummy node's new place is told to its list. */
  method PullUp(iter: SNode, temp: SNode, ghost l: SList)
    requires iter.next == temp && iter != temp && (temp.next == null ==> temp.data == Owner(l))
    modifies iter, l`tail
    ensures iter.data == temp.data && iter.next == temp.next
    ensures l.tail == if temp.next == null then iter else old(l.tail)
  {
    iter.data := temp.data;
    iter.next := temp.next;
    if iter.next == null {
      var owner := iter.data.list;
      owner.tail := iter;
    }
  }

  /** Remove the element at `iter`, which is node k of list `l`. The code is given no list: it
      reaches the one whose tail it must move through the data of the dummy node. */
  method Remove(iter: SNode, ghost l: SList, ghost k: nat) returns (r: SNode)
    requires l.Valid() && k < |l.nodes| - 1 && l.nodes[k] == iter
    modifies iter, l
    ensures l.Valid() && r == iter && k < |l.nodes| && l.nodes[k] == iter
    ensures l.Contents() == old(l.Contents()[..k] + l.Contents()[k + 1..])
    ensures l.nodes == old(l.nodes)[..k + 1] + old(l.nodes)[k + 2..]
  {
    ghost var ns, vs := l.nodes, l.Contents();
    assert Leads(ns, 0, |ns| - 1, vs);
    var temp := iter.next;
    assert temp == ns[k + 1] && (k + 2 < |ns| ==> temp.next == ns[k + 2]) && (k + 2 == |ns| ==> temp.data == Owner(l));
    PullUp(iter, temp, l);
    l.nodes := ns[..k + 1] + ns[k + 2..];
    Removed(l, ns, k, vs);
    r := iter;
  }

  /** Node k has taken over what node k + 1 was. */
  lemma {:induction false} Removed(l: SList, ns: seq<SNode>, k: nat, vs: seq<int>)
    requires Distinct(ns) && k < |ns| - 1 && |vs| == |ns| - 1 && l.head == ns[0]
    requires Leads(ns, 0, k, vs) && Leads(ns, k + 2, |ns| - 1, vs)
    requires if k + 2 < |ns|
             then ns[k].data == Elem(vs[k + 1]) && ns[k].next == ns[k + 2] && EndsIn(l, ns[|ns| - 1])
             else EndsIn(l, ns[k])
    ensures IsChain(l, ns[..k + 1] + ns[k + 2..])
    ensures Values(ns[..k + 1] + ns[k + 2..]) == vs[..k] + vs[k + 1..]
  {
    var r, ws := ns[..k + 1] + ns[k + 2..], vs[..k] + vs[k + 1..];
    forall i | 0 <= i < |r| - 1 ensures r[i].next == r[i + 1] && r[i].data == Elem(ws[i]) {
      if i < k { assert r[i] == ns[i] && ns[i].next == ns[i + 1]; }
      if i > k { assert r[i] == ns[i + 1] && ns[i + 1].next == ns[i + 2]; }
    }
    assert r[|r| - 1] == if k + 2 < |ns| then ns[|ns| - 1] else ns[k];
    assert r[0] == ns[0];
  }

  // ---------- Appending ----------

  lemma {:induction false} AppendedDistinct(d: seq<SNode>, s: seq<SNode>)
    requires Distinct(d) && Distinct(s) && s != [] && forall n :: n in d ==> n !in s
    ensures Distinct(d + s[1..]) && s[0] !in d + s[1..]
  {
    var r := d + s[1..];
    forall j | |d| <= j < |r| ensures r[j] == s[j - |d| + 1] && r[j] in s && r[j] != s[0] { }
    forall i, j | 0 <= i < j < |r| ensures r[i] != r[j] {
      if i < |d| { assert r[i] in d; }
    }
  }

  /** Two chains are joined when the dummy of the first stands in for the first node of the
      second, and the dummy of the second is handed over. */
  lemma {:induction false} Joined(dest: SList, d: seq<SNode>, s: seq<SNode>, dv: seq<int>, sv: seq<int>)
    requires d != [] && |s| > 1 && Distinct(d + s[1..]) && |dv| == |d| - 1 && |sv| == |s| - 1
    requires Leads(d, 0, |d| - 1, dv) && Leads(s, 1, |s| - 1, sv)
    requires d[|d| - 1].next == s[1] && d[|d| - 1].data == Elem(sv[0])
    requires s[|s| - 1].next == null && s[|s| - 1].data == Owner(dest)
    requires dest.head == d[0] && dest.tail == s[|s| - 1]
    ensures IsChain(dest, d + s[1..]) && Values(d + s[1..]) == dv + sv
  {
    var r := d + s[1..];
    forall i | 0 <= i < |r| - 1 ensures r[i].next == r[i + 1] && r[i].data == Elem((dv + sv)[i]) {
      if i < |d| - 1 { assert r[i] == d[i]; }
      if i >= |d| { assert r[i] == s[i - |d| + 1]; }
    }
  }

  /** The assignments of SListAppend: the first node of `src` is copied to the dummy of `dest`,
      which the dummy of `src` replaces, and becomes the dummy of `src` itself. */
  method ExchangeDummies(dest: SList, src: SList, ghost d: seq<SNode>, ghost s: seq<SNode>)
    requires IsChain(dest, d) && IsChain(src, s) && dest != src && forall n :: n in d ==> n !in s
    modifies dest`head, dest`tail, src`head, src`tail, dest.tail, src.tail, src.head
    ensures dest.head == d[0] && src.head == s[0] && src.tail == s[0]
    ensures s[0].next == null && s[0].data == Owner(src)
    ensures dest.tail == s[|s| - 1]
    ensures |s| > 1 ==>
      && d[|d| - 1].next == s[1] && d[|d| - 1].data == old(s[0].data)
      && s[|s| - 1].next == null && s[|s| - 1].data == Owner(dest)
    ensures forall i :: 0 <= i < |d| - 1 ==> d[i].next == old(d[i].next) && d[i].data == old(d[i].data)
    ensures forall i :: 1 <= i < |s| - 1 ==> s[i].next == old(s[i].next) && s[i].data == old(s[i].data)
  {
    assert d[|d| - 1] in d && s[0] in s && s[|s| - 1] in s;
    assert |s| > 1 ==> s[0].next == s[1];
    dest.tail.data := src.head.data;
    dest.tail.next := src.head.next;
    dest.tail := src.tail;
    dest.tail.data := Owner(dest);
    src.head.data := Owner(src);
    src.head.next := null;
    src.tail := src.head;
  }

  /** The elements of `src` move to the end of `dest`. The first node of `src` becomes its
      dummy, and the dummy of `src` that of `dest`. From an empty `src`, `dest` is broken: its
      tail is the dummy node of `src`, which `src` owns. */
  method Append(dest: SList, src: SList)
    requires dest.Valid() && src.Valid() && dest != src
    requires forall n :: n in dest.nodes ==> n !in src.nodes
    modifies dest, src, dest.tail, src.tail, src.head
    ensures src.Valid() && src.Contents() == []
    ensures old(src.Contents()) != [] ==>
      dest.Valid() && dest.Contents() == old(dest.Contents() + src.Contents())
    ensures old(src.Contents()) == [] ==>
      !dest.Valid() && dest.tail == src.head && dest.tail.data == Owner(src)
    ensures dest.nodes == old(dest.nodes + src.nodes[1..]) && src.nodes == old(src.nodes[..1])
  {
    ghost var d, s, dv, sv := dest.nodes, src.nodes, dest.Contents(), src.Contents();
    assert Leads(d, 0, |d| - 1, dv) && Leads(s, 0, |s| - 1, sv);
    AppendedDistinct(d, s);
    ExchangeDummies(dest, src, d, s);
    dest.nodes := d + s[1..];
    src.nodes := s[..1];
    if |s| > 1 {
      Joined(dest, d, s, dv, sv);
    }
  }

  // ---------- Searching and visiting ----------

  /** The first node from i on, before j, whose element matches; or else the dummy node. */
  ghost predicate Found(l: SList, i: nat, j: nat, matches: int -> bool, k: nat)
    requires l.Valid() && i <= j < |l.nodes|
    reads l, l.nodes
  {
    var vs := l.Contents();
    if exists m :: i <= m < j && matches(vs[m])
    then i <= k < j && matches(vs[k]) && forall m :: i <= m < k ==> !matches(vs[m])
    else k == |vs|
  }

  lemma {:induction false} InsideHasNext(l: SList, k: nat)
    requires l.Valid() && k < |l.nodes|
    ensures k < |l.nodes| - 1 ==> l.nodes[k].next != null
  {
    assert k < |l.nodes| - 1 ==> l.nodes[k].next == l.nodes[k + 1];
  }

  /** SListFind over [from, to), nodes i and j of `l`. When nothing matches the result is the
      end of the list, not `to`. */
  method Find(from: SNode, to: SNode, matches: int -> bool, ghost l: SList, ghost i: nat, ghost j: nat)
    returns (r: SNode)
    requires l.Valid() && i <= j < |l.nodes| && from == l.nodes[i] && to == l.nodes[j]
    ensures exists k :: 0 <= k < |l.nodes| && r == l.nodes[k] && Found(l, i, j, matches, k)
  {
    r := from;
    ghost var k := i;
    while r != to && !matches(r.data.value)
      invariant i <= k <= j && r == l.nodes[k]
      invariant forall m :: i <= m < k ==> !matches(l.Contents()[m])
      decreases j - k
    {
      assert l.nodes[k].next == l.nodes[k + 1];
      r, k := r.next, k + 1;
    }
    if r == to {
      while r.next != null
        invariant j <= k < |l.nodes| && r == l.nodes[k]
        decreases |l.nodes| - k
      {
        assert l.nodes[k].next == l.nodes[k + 1];
        r, k := r.next, k + 1;
      }
      InsideHasNext(l, k);
    }
    assert Found(l, i, j, matches, k);
  }

  /** SListForEach over [from, to), nodes i and j of `l`. */
  method ForEach<P>(
    from: SNode, to: SNode, op: (int, P) -> (P, bool), param: P, ghost l: SList, ghost i: nat, ghost j: nat)
    returns (p: P, failed: bool)
    requires l.Valid() && i <= j < |l.nodes| && from == l.nodes[i] && to == l.nodes[j]
    ensures (p, failed) == Visit(l.Contents()[i..j], op, param)
    ensures exists ps :: Goes(l.Contents()[i..j], op, param, ps, p, failed)
  {
    ghost var ps := VisitGoes(l.Contents()[i..j], op, param);
    p, failed := param, false;
    var iter := from;
    ghost var k, vs := i, l.Contents();
    ghost var all := Visit(vs[i..j], op, param);
    while iter != to
      invariant i <= k <= j && iter == l.nodes[k] && !failed
      invariant Visit(vs[k..j], op, p) == all
      decreases j - k
    {
      assert vs[k..j][0] == iter.data.value && vs[k..j][1..] == vs[k + 1..j];
      var (p1, f) := op(iter.data.value, p);
      p := p1;
      if f {
        failed := true;
        return;
      }
      iter := iter.next;
      k := k + 1;
    }
    assert vs[k..j] == [];
  }

  /** OpIncrementParam, which never fails. */
  function Increment(v: int, count: int): (int, bool) {
    (count + 1, false)
  }

  lemma {:induction false} VisitCounts(vs: seq<int>, n: int)
    ensures Visit(vs, Increment, n) == (n + |vs|, false)
  {
    if vs == [] {
    } else {
      VisitCounts(vs[1..], n + 1);
    }
  }

  method Count(l: SList) returns (n: int)
    requires l.Valid()
    ensures n == |l.Contents()|
  {
    ghost var last := |l.nodes| - 1;
    var failed;
    n, failed := ForEach(l.head, l.tail, Increment, 0, l, 0, last);
    VisitCounts(l.Contents()[0..last], 0);
  }
}

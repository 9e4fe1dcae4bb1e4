/** The heap in its array, sifted in place, proved against HeapSpec. */
module Heaps {
  import opened HeapSpec
  import opened HeapLaws

  /** `Aborted`: an assertion of the source fails. */
  datatype RemoveResult = NotFound | Removed(element: Elem) | Aborted

  class Heap {
    const cmp: Cmp
    const rule: Rule
    var data: array<Elem>
    var size: nat

    ghost predicate Valid()
      reads this
    {
      size <= data.Length
    }

    ghost function Contents(): (c: seq<Elem>)
      requires Valid()
      reads this, data
      ensures |c| == size
    {
      data[..size]
    }

    constructor (cmp: Cmp, rule: Rule, capacity: nat)
      ensures Valid() && fresh(data) && Contents() == [] && this.cmp == cmp && this.rule == rule
    {
      this.cmp, this.rule := cmp, rule;
      data, size := new Elem[capacity](_ => 0), 0;
    }

    method SwapData(i: nat, j: nat)
      requires Valid() && 1 <= i <= size && 1 <= j <= size
      modifies data
      ensures Contents() == Swap(old(Contents()), i, j)
    {
      ghost var c := Contents();
      data[i - 1], data[j - 1] := data[j - 1], data[i - 1];
      assert Contents() == Swap(c, i, j);
    }

    method HeapifyUp(i: nat)
      requires Valid() && 1 <= i <= size
      modifies data
      ensures Contents() == Up(cmp, old(Contents()), i)
      decreases i
    {
      assert i > 1 ==> At(Contents(), i) == data[i - 1] && At(Contents(), i / 2) == data[i / 2 - 1];
      if i == 1 || cmp(data[i - 1], data[i / 2 - 1]) <= 0 {
        return;
      }
      SwapData(i, i / 2);
      HeapifyUp(i / 2);
    }

    method BestOfThree(i: nat) returns (b: nat)
      requires Valid() && 1 <= i <= size
      ensures b == Best(rule, cmp, Contents(), i)
    {
      b := i;
      var left, right := 2 * i, 2 * i + 1;
      assert forall k :: 1 <= k <= size ==> At(Contents(), k) == data[k - 1];
      if right <= size && cmp(data[right - 1], data[i - 1]) >= 0 {
        b := right;
      }
      var rival := if rule.AsWritten? then i else b;
      if left <= size && cmp(data[left - 1], data[rival - 1]) >= 0 {
        b := left;
      }
    }

    method HeapifyDown(i: nat)
      requires Valid() && 1 <= i <= size
      modifies data
      ensures Contents() == Down(rule, cmp, old(Contents()), i)
      decreases size - i
    {
      var b := BestOfThree(i);
      if b == i {
        return;
      }
      SwapData(i, b);
      HeapifyDown(b);
    }

    /** DVectorPushBack, which grows the array when it is full. */
    method PushBack(x: Elem, ok: bool)
      requires Valid()
      modifies this, data
      ensures Valid() && (data == old(data) || fresh(data))
      ensures Contents() == if ok then old(Contents()) + [x] else old(Contents())
    {
      if ok {
        ghost var c := Contents();
        if size == data.Length {
          var n, oldData := size, data;
          data := new Elem[2 * n + 1](i requires 0 <= i < 2 * n + 1 reads oldData =>
            if i < oldData.Length then oldData[i] else 0);
          assert data[..n] == c;
        }
        data[size] := x;
        size := size + 1;
        assert Contents() == c + [x];
      }
    }

    /** A failed push changes nothing. */
    method Enqueue(x: Elem, ok: bool) returns (success: bool)
      requires Valid()
      modifies this, data
      ensures Valid() && (data == old(data) || fresh(data)) && success == ok
      ensures Contents() == if ok then Enqueued(cmp, old(Contents()), x) else old(Contents())
    {
      PushBack(x, ok);
      if ok {
        HeapifyUp(size);
      }
      success := ok;
    }

    method Peek() returns (x: Elem)
      requires Valid() && size > 0
      ensures x == Contents()[0]
      ensures TotalPreorder(cmp) && Ordered(cmp, Contents()) ==> forall y :: y in Contents() ==> cmp(x, y) >= 0
    {
      x := data[0];
      if TotalPreorder(cmp) && Ordered(cmp, Contents()) {
        forall y | y in Contents() ensures cmp(x, y) >= 0 {
          var i :| 0 <= i < size && Contents()[i] == y;
          RootIsFirst(cmp, Contents(), i + 1);
        }
      }
    }

    method Dequeue()
      requires Valid() && size > 0
      modifies this`size, data
      ensures Valid() && data == old(data)
      ensures Contents() == Dequeued(rule, cmp, old(Contents()))
    {
      ghost var c := Contents();
      data[0] := data[size - 1];
      size := size - 1;
      assert Contents() == c[0 := c[|c| - 1]][..|c| - 1];
      if size > 0 {
        HeapifyDown(1);
      }
    }

    method TakeRoot() returns (x: Elem)
      requires Valid() && size > 0
      modifies this`size, data
      ensures Valid() && data == old(data) && size == old(size) - 1
      ensures Drained(rule, cmp, old(Contents())) == [x] + Drained(rule, cmp, Contents())
    {
      x := Peek();
      Dequeue();
    }

    /** Peek and dequeue until the heap is empty. */
    method TakeAll() returns (out: seq<Elem>)
      requires Valid()
      modifies this`size, data
      ensures Valid() && data == old(data) && size == 0
      ensures out == Drained(rule, cmp, old(Contents()))
    {
      ghost var all := Drained(rule, cmp, Contents());
      out := [];
      while size > 0
        invariant Valid() && data == old(data)
        invariant out + Drained(rule, cmp, Contents()) == all
        decreases size
      {
        var x := TakeRoot();
        Shift(out, x, Drained(rule, cmp, Contents()));
        out := out + [x];
      }
    }

    static lemma {:induction false} Shift(out: seq<Elem>, x: Elem, rest: seq<Elem>)
      ensures out + ([x] + rest) == (out + [x]) + rest
    {
    }

    /** All that is in the heap comes out, with either sift-down; with the one the comments
        describe, in order. */
    method Drain() returns (out: seq<Elem>)
      requires Valid()
      modifies this`size, data
      ensures Valid() && data == old(data) && size == 0
      ensures multiset(out) == multiset(old(Contents()))
      ensures rule.AsCommented? && TotalPreorder(cmp) && Ordered(cmp, old(Contents())) ==> Descending(cmp, out)
    {
      ghost var c := Contents();
      out := TakeAll();
      DrainKeepsElements(rule, cmp, c);
      if rule.AsCommented? && TotalPreorder(cmp) && Ordered(cmp, c) {
        DrainSorts(cmp, c);
      }
    }

    /** What Remove does when position k of `c` holds the match. */
    ghost predicate TookOut(c: seq<Elem>, k: nat, r: RemoveResult)
      requires Valid() && 1 <= k <= |c|
      reads this, data
    {
      if k == |c| then r.Aborted? && Contents() == c[..k - 1]
      else r == Removed(At(c, k)) && Contents() == RemovedAt(rule, cmp, c, k)
    }

    method Sift(i: nat)
      requires Valid() && 1 <= i <= size
      modifies data
      ensures Contents() == Down(rule, cmp, Up(cmp, old(Contents()), i), i)
    {
      HeapifyUp(i);
      HeapifyDown(i);
    }

    /** Fill position `curr` with the last element, and sift from there. */
    method TakeOut(curr: nat) returns (r: RemoveResult)
      requires Valid() && 1 <= curr <= size
      modifies this`size, data
      ensures Valid() && data == old(data) && TookOut(old(Contents()), curr, r)
    {
      ghost var c := Contents();
      var ret := data[curr - 1];
      data[curr - 1] := data[size - 1];
      size := size - 1;
      if curr > size {
        assert Contents() == c[..curr - 1];
        return Aborted;
      }
      assert Contents() == c[curr - 1 := c[|c| - 1]][..|c| - 1];
      Sift(curr);
      r := Removed(ret);
    }

    /** Takes out the matching element of lowest position, unless that is the last one: then the
        assertion in HeapifyUp fails, with the element already dropped. */
    method Remove(matches: Elem -> bool) returns (r: RemoveResult)
      requires Valid()
      modifies this`size, data
      ensures Valid() && data == old(data)
      ensures r.NotFound? <==> forall x :: x in old(Contents()) ==> !matches(x)
      ensures r.NotFound? ==> Contents() == old(Contents())
      ensures !r.NotFound? ==> exists k :: FirstMatch(matches, old(Contents()), k) && TookOut(old(Contents()), k, r)
      ensures TotalPreorder(cmp) && Ordered(cmp, old(Contents())) && !Hiding(cmp, matches) && r.Removed? ==>
        forall y :: y in old(Contents()) && matches(y) ==> cmp(r.element, y) >= 0
    {
      ghost var c := Contents();
      var curr := 1;
      while curr <= size && !matches(data[curr - 1])
        invariant 1 <= curr <= size + 1
        invariant forall i :: 0 <= i < curr - 1 ==> !matches(c[i])
      {
        curr := curr + 1;
      }
      if curr > size {
        return NotFound;
      }
      assert FirstMatch(matches, c, curr);
      r := TakeOut(curr);
      if TotalPreorder(cmp) && Ordered(cmp, c) && !Hiding(cmp, matches) {
        BiggestUnlessHiding(cmp, matches, c, curr);
      }
    }
  }

  /** The header's promise fails on every such predicate: of top, x and y, x is removed. */
  method RemoveTakesSmaller(h: Heap, matches: Elem -> bool, top: Elem, x: Elem, y: Elem) returns (r: RemoveResult)
    requires h.Valid() && TotalPreorder(h.cmp) && h.Contents() == [top, x, y]
    requires Hides(h.cmp, matches, top, x, y)
    modifies h`size, h.data
    ensures r == Removed(x) && matches(y) && h.cmp(y, x) > 0
  {
    assert At([top, x, y], 1) == top && At([top, x, y], 2) == x;
    r := h.Remove(matches);
  }
}

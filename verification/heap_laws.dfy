/** Removal from the middle of the heap, and exactly when the sift-down as written works. */
module HeapLaws {
  import opened HeapSpec

  // ---------- HPQRemove ----------

  lemma {:induction false} NotBelow(cmp: Cmp, x: Elem, y: Elem)
    requires TotalPreorder(cmp) && cmp(x, y) <= 0
    ensures cmp(y, x) >= 0
  {
  }

  /** The element moved into the hole belongs higher: only its parent can be out of order. */
  lemma {:induction false} HoleUpReady(cmp: Cmp, c: seq<Elem>, k: nat)
    requires TotalPreorder(cmp) && Ordered(cmp, c) && 2 <= k < |c|
    requires cmp(c[|c| - 1], At(c, k / 2)) > 0
    ensures UpReady(cmp, c[k - 1 := c[|c| - 1]][..|c| - 1], k)
  {
    var d := c[k - 1 := c[|c| - 1]][..|c| - 1];
    CutReady(cmp, c, k);
    assert AboveKids(cmp, c, k, k, 0);
    AboveLift(cmp, c, k / 2, k, 0);
    assert AboveKids(cmp, d, k / 2, k, 0);
    AboveThrough(cmp, d, k, k / 2, k);
    forall p | 1 <= p <= |d| ensures AboveKids(cmp, d, p, p, k) { }
  }

  lemma {:induction false} AboveThrough(cmp: Cmp, c: seq<Elem>, a: nat, b: nat, p: nat)
    requires TotalPreorder(cmp) && 1 <= a <= |c| && 1 <= b <= |c|
    requires Above(cmp, c, a, b) && AboveKids(cmp, c, b, p, 0)
    ensures AboveKids(cmp, c, a, p, 0)
  {
  }

  /** The element moved into the hole does not belong higher: only its children can be. */
  lemma {:induction false} HoleParent(cmp: Cmp, c: seq<Elem>, k: nat)
    requires TotalPreorder(cmp) && Ordered(cmp, c) && 1 <= k < |c|
    ensures Bridged(cmp, c[k - 1 := c[|c| - 1]][..|c| - 1], k)
  {
    if k >= 2 {
      assert AboveKids(cmp, c, k / 2, k / 2, 0) && AboveKids(cmp, c, k, k, 0);
      AboveLift(cmp, c, k / 2, k, 0);
    }
  }

  lemma {:induction false} HoleKids(cmp: Cmp, c: seq<Elem>, k: nat)
    requires TotalPreorder(cmp) && Ordered(cmp, c) && 1 <= k < |c|
    requires k >= 2 ==> cmp(c[|c| - 1], At(c, k / 2)) <= 0
    ensures var d := c[k - 1 := c[|c| - 1]][..|c| - 1];
      forall p :: 1 <= p <= |d| && p != k ==> AboveKids(cmp, d, p, p, 0)
  {
    var d := c[k - 1 := c[|c| - 1]][..|c| - 1];
    CutReady(cmp, c, k);
    if k >= 2 { NotBelow(cmp, c[|c| - 1], At(c, k / 2)); }
    forall p | 1 <= p <= |d| && p != k ensures AboveKids(cmp, d, p, p, 0) {
      assert AboveKids(cmp, d, p, p, k);
    }
  }

  lemma {:induction false} HoleDownReady(cmp: Cmp, c: seq<Elem>, k: nat)
    requires TotalPreorder(cmp) && Ordered(cmp, c) && 1 <= k < |c|
    requires k >= 2 ==> cmp(c[|c| - 1], At(c, k / 2)) <= 0
    ensures DownReady(cmp, c[k - 1 := c[|c| - 1]][..|c| - 1], k)
  {
    HoleParent(cmp, c, k);
    HoleKids(cmp, c, k);
  }

  lemma {:induction false} OrderedIsDownReady(cmp: Cmp, c: seq<Elem>, k: nat)
    requires TotalPreorder(cmp) && Ordered(cmp, c) && 1 <= k <= |c|
    ensures DownReady(cmp, c, k)
  {
    if k >= 2 {
      assert AboveKids(cmp, c, k / 2, k / 2, 0) && AboveKids(cmp, c, k, k, 0);
      AboveLift(cmp, c, k / 2, k, 0);
    }
  }

  /** Filling the hole with the last element and sifting up, then down, at the same position
      keeps the order and takes out exactly the element that was there. */
  lemma {:induction false} RemoveKeepsHeap(cmp: Cmp, c: seq<Elem>, k: nat)
    requires TotalPreorder(cmp) && Ordered(cmp, c) && 1 <= k < |c|
    ensures Ordered(cmp, RemovedAt(AsCommented, cmp, c, k))
    ensures multiset(c) == multiset(RemovedAt(AsCommented, cmp, c, k)) + multiset{At(c, k)}
  {
    var d := c[k - 1 := c[|c| - 1]][..|c| - 1];
    var u := Up(cmp, d, k);
    if k >= 2 && cmp(At(d, k), At(d, k / 2)) > 0 {
      HoleUpReady(cmp, c, k);
      UpOrders(cmp, d, k);
      OrderedIsDownReady(cmp, u, k);
    } else {
      HoleDownReady(cmp, c, k);
    }
    DownOrders(cmp, u, k);
    RemoveTakesOut(AsCommented, cmp, c, k);
  }

  /** With either sift-down and any comparison, exactly that element is taken out. */
  lemma {:induction false} RemoveTakesOut(rule: Rule, cmp: Cmp, c: seq<Elem>, k: nat)
    requires 1 <= k < |c|
    ensures multiset(c) == multiset(RemovedAt(rule, cmp, c, k)) + multiset{At(c, k)}
  {
    var d := c[k - 1 := c[|c| - 1]][..|c| - 1];
    CutKeepsElements(c, k);
    UpKeepsElements(cmp, d, k);
    DownKeepsElements(rule, cmp, Up(cmp, d, k), k);
  }

  lemma {:induction false} DropLastOrdered(cmp: Cmp, c: seq<Elem>)
    requires Ordered(cmp, c) && c != []
    ensures Ordered(cmp, c[..|c| - 1])
  {
    var d := c[..|c| - 1];
    forall p | 1 <= p <= |d| ensures AboveKids(cmp, d, p, p, 0) {
      assert AboveKids(cmp, c, p, p, 0);
    }
  }

  // ---------- Which match is removed ----------

  /** Position k holds the first match. */
  predicate FirstMatch(matches: Elem -> bool, c: seq<Elem>, k: nat) {
    1 <= k <= |c| && matches(At(c, k)) && forall i :: 1 <= i < k ==> !matches(At(c, i))
  }

  /** `y` is a match below `top`, which is none, and above another match, `x`. */
  predicate Hides(cmp: Cmp, matches: Elem -> bool, top: Elem, x: Elem, y: Elem) {
    !matches(top) && matches(x) && matches(y) && cmp(top, y) >= 0 && cmp(y, x) > 0
  }

  ghost predicate Hiding(cmp: Cmp, matches: Elem -> bool) {
    exists top, x, y :: Hides(cmp, matches, top, x, y)
  }

  ghost predicate BiggestMatch(cmp: Cmp, matches: Elem -> bool, c: seq<Elem>, k: nat)
    requires 1 <= k <= |c|
  {
    forall j :: 1 <= j <= |c| && matches(At(c, j)) ==> cmp(At(c, k), At(c, j)) >= 0
  }

  lemma {:induction false} BiggestUnlessHiding(cmp: Cmp, matches: Elem -> bool, c: seq<Elem>, k: nat)
    requires TotalPreorder(cmp) && Ordered(cmp, c) && FirstMatch(matches, c, k) && !Hiding(cmp, matches)
    ensures BiggestMatch(cmp, matches, c, k)
    ensures forall y :: y in c && matches(y) ==> cmp(At(c, k), y) >= 0
  {
    forall j | 1 <= j <= |c| && matches(At(c, j)) ensures cmp(At(c, k), At(c, j)) >= 0 {
      RootIsFirst(cmp, c, j);
      if k > 1 { assert !Hides(cmp, matches, At(c, 1), At(c, k), At(c, j)); }
    }
    forall y | y in c && matches(y) ensures cmp(At(c, k), y) >= 0 {
      var i :| 0 <= i < |c| && c[i] == y;
      assert At(c, i + 1) == y;
    }
  }

  lemma {:induction false} HidingHeap(cmp: Cmp, matches: Elem -> bool, top: Elem, x: Elem, y: Elem)
    requires TotalPreorder(cmp) && Hides(cmp, matches, top, x, y)
    ensures var c := [top, x, y];
      Ordered(cmp, c) && FirstMatch(matches, c, 2) && !BiggestMatch(cmp, matches, c, 2)
  {
    var c := [top, x, y];
    assert At(c, 1) == top && At(c, 2) == x && At(c, 3) == y;
    assert cmp(x, y) < 0 && cmp(top, x) >= 0;
  }

  /** The match of lowest position is the biggest one in every heap, as the header says, exactly
      if no match can hide below an element that does not match, and above another match. */
  lemma {:induction false} FirstMatchIsBiggestExactly(cmp: Cmp, matches: Elem -> bool)
    requires TotalPreorder(cmp)
    ensures (forall c, k :: Ordered(cmp, c) && FirstMatch(matches, c, k) ==> BiggestMatch(cmp, matches, c, k))
            <==> !Hiding(cmp, matches)
  {
    if Hiding(cmp, matches) {
      var top, x, y :| Hides(cmp, matches, top, x, y);
      HidingHeap(cmp, matches, top, x, y);
    } else {
      forall c, k | Ordered(cmp, c) && FirstMatch(matches, c, k) ensures BiggestMatch(cmp, matches, c, k) {
        BiggestUnlessHiding(cmp, matches, c, k);
      }
    }
  }

  /** So it is not the biggest even number in the heap 9, 4, 8. */
  lemma {:induction false} FirstMatchIsNotBiggest()
    ensures var cmp: Cmp := (x, y) => x - y;
      var even: Elem -> bool := x => x % 2 == 0;
      Ordered(cmp, [9, 4, 8]) && FirstMatch(even, [9, 4, 8], 2) && !BiggestMatch(cmp, even, [9, 4, 8], 2)
  {
    HidingHeap((x, y) => x - y, x => x % 2 == 0, 9, 4, 8);
  }

  // ---------- The sift-down as written ----------

  /** On its way down from i, an element x never goes left past a right child that is better
      than the left one. */
  predicate LeftIsBetter(cmp: Cmp, c: seq<Elem>, x: Elem, i: nat)
    requires 1 <= i
    decreases |c| - i
  {
    if 2 * i <= |c| && cmp(At(c, 2 * i), x) >= 0 then
      (2 * i + 1 <= |c| ==> Above(cmp, c, 2 * i, 2 * i + 1)) && LeftIsBetter(cmp, c, x, 2 * i)
    else if 2 * i + 1 <= |c| && cmp(At(c, 2 * i + 1), x) >= 0 then LeftIsBetter(cmp, c, x, 2 * i + 1)
    else true
  }

  /** The way down from i depends on what is below i alone. */
  lemma {:induction false} LeftIsBetterBelow(cmp: Cmp, c: seq<Elem>, d: seq<Elem>, x: Elem, i: nat)
    requires 1 <= i && |d| == |c| && forall k :: i < k <= |c| ==> At(d, k) == At(c, k)
    ensures LeftIsBetter(cmp, d, x, i) <==> LeftIsBetter(cmp, c, x, i)
    decreases |c| - i
  {
    if 2 * i <= |c| { LeftIsBetterBelow(cmp, c, d, x, 2 * i); }
    if 2 * i + 1 <= |c| { LeftIsBetterBelow(cmp, c, d, x, 2 * i + 1); }
  }

  /** A sift-down from i touches i and positions from 2 * i on. */
  lemma {:induction false} DownTouches(rule: Rule, cmp: Cmp, c: seq<Elem>, i: nat, k: nat)
    requires 1 <= i <= |c| && 1 <= k <= |c| && (k < i || i < k < 2 * i)
    ensures At(Down(rule, cmp, c, i), k) == At(c, k)
    decreases |c| - i
  {
    var b := Best(rule, cmp, c, i);
    if b != i { DownTouches(rule, cmp, Swap(c, i, b), b, k); }
  }

  /** Going left past a better right child leaves that child above its parent. */
  lemma {:induction false} WrongTurn(cmp: Cmp, c: seq<Elem>, i: nat)
    requires 1 <= i && 2 * i + 1 <= |c|
    requires cmp(At(c, 2 * i), At(c, i)) >= 0 && !Above(cmp, c, 2 * i, 2 * i + 1)
    ensures !Ordered(cmp, Down(AsWritten, cmp, c, i))
  {
    var d := Swap(c, i, 2 * i);
    var r := Down(AsWritten, cmp, d, 2 * i);
    DownTouches(AsWritten, cmp, d, 2 * i, i);
    DownTouches(AsWritten, cmp, d, 2 * i, 2 * i + 1);
    assert !AboveKids(cmp, r, i, i, 0);
  }

  lemma {:induction false} RightTurn(cmp: Cmp, c: seq<Elem>, i: nat)
    requires TotalPreorder(cmp) && 1 <= i && 2 * i + 1 <= |c|
    requires cmp(At(c, 2 * i + 1), At(c, i)) >= 0 && cmp(At(c, 2 * i), At(c, i)) < 0
    ensures AboveKids(cmp, c, 2 * i + 1, i, 0)
  {
    Reflexive(cmp, At(c, 2 * i + 1));
    NotBelow(cmp, At(c, 2 * i), At(c, i));
  }

  /** The sift-down as written restores the order exactly when its element never goes left past
      a better right child. */
  lemma {:induction false} DownAsWritten(cmp: Cmp, c: seq<Elem>, i: nat)
    requires TotalPreorder(cmp) && DownReady(cmp, c, i)
    ensures Ordered(cmp, Down(AsWritten, cmp, c, i)) <==> LeftIsBetter(cmp, c, At(c, i), i)
    decreases |c| - i
  {
    var x, b := At(c, i), Best(AsWritten, cmp, c, i);
    if b == i {
      NoneBetter(cmp, c, i);
    } else if b == 2 * i && b < |c| && !Above(cmp, c, b, b + 1) {
      WrongTurn(cmp, c, i);
    } else {
      if b == 2 * i { Reflexive(cmp, At(c, b)); } else { RightTurn(cmp, c, i); }
      SwapDown(cmp, c, i, b);
      DownAsWritten(cmp, Swap(c, i, b), b);
      LeftIsBetterBelow(cmp, c, Swap(c, i, b), x, b);
    }
  }

  lemma {:induction false} NoneBetter(cmp: Cmp, c: seq<Elem>, i: nat)
    requires TotalPreorder(cmp) && DownReady(cmp, c, i) && Best(AsWritten, cmp, c, i) == i
    ensures Ordered(cmp, c)
  {
    if 2 * i <= |c| { NotBelow(cmp, At(c, 2 * i), At(c, i)); }
    if 2 * i + 1 <= |c| { NotBelow(cmp, At(c, 2 * i + 1), At(c, i)); }
  }

  /** HPQDequeue as written keeps the heap order exactly when the last element, sifted from the
      root, never goes left past a better right child. */
  lemma {:induction false} DequeueAsWritten(cmp: Cmp, c: seq<Elem>)
    requires TotalPreorder(cmp) && Ordered(cmp, c) && |c| >= 2
    ensures Ordered(cmp, Dequeued(AsWritten, cmp, c))
            <==> LeftIsBetter(cmp, c[..|c| - 1], c[|c| - 1], 1)
  {
    var d := c[0 := c[|c| - 1]][..|c| - 1];
    HoleDownReady(cmp, c, 1);
    DownAsWritten(cmp, d, 1);
    LeftIsBetterBelow(cmp, c[..|c| - 1], d, c[|c| - 1], 1);
  }

  /** In an ordered heap, an element that is above position i can go either way from there. */
  lemma {:induction false} OrderedLeftIsBetter(cmp: Cmp, c: seq<Elem>, x: Elem, i: nat)
    requires TotalPreorder(cmp) && Ordered(cmp, c) && 1 <= i && (i <= |c| ==> cmp(x, At(c, i)) >= 0)
    ensures LeftIsBetter(cmp, c, x, i)
    decreases |c| - i
  {
    if 2 * i <= |c| {
      assert AboveKids(cmp, c, i, i, 0);
      OrderedLeftIsBetter(cmp, c, x, 2 * i);
      OrderedLeftIsBetter(cmp, c, x, 2 * i + 1);
    }
  }

  /** Sifting down from a position of an ordered heap does no harm, even as written. */
  lemma {:induction false} OrderedDownAsWritten(cmp: Cmp, c: seq<Elem>, k: nat)
    requires TotalPreorder(cmp) && Ordered(cmp, c) && 1 <= k <= |c|
    ensures Ordered(cmp, Down(AsWritten, cmp, c, k))
  {
    OrderedIsDownReady(cmp, c, k);
    DownAsWritten(cmp, c, k);
    Reflexive(cmp, At(c, k));
    OrderedLeftIsBetter(cmp, c, At(c, k), k);
  }

  /** HPQRemove as written keeps the heap order exactly when the last element belongs above the
      hole, or on its way down from there never goes left past a better right child. */
  lemma {:induction false} RemoveAsWritten(cmp: Cmp, c: seq<Elem>, k: nat)
    requires TotalPreorder(cmp) && Ordered(cmp, c) && 1 <= k < |c|
    ensures Ordered(cmp, RemovedAt(AsWritten, cmp, c, k))
            <==> (k >= 2 && cmp(c[|c| - 1], At(c, k / 2)) > 0) || LeftIsBetter(cmp, c[..|c| - 1], c[|c| - 1], k)
  {
    var d := c[k - 1 := c[|c| - 1]][..|c| - 1];
    if k >= 2 && cmp(At(d, k), At(d, k / 2)) > 0 {
      HoleUpReady(cmp, c, k);
      UpOrders(cmp, d, k);
      OrderedDownAsWritten(cmp, Up(cmp, d, k), k);
    } else {
      HoleDownReady(cmp, c, k);
      DownAsWritten(cmp, d, k);
      LeftIsBetterBelow(cmp, c[..|c| - 1], d, c[|c| - 1], k);
    }
  }

  /** As written, dequeuing from the max-heap 5, 3, 4, 1 puts 3 at the root, above a 4. */
  lemma {:induction false} DequeueAsWrittenFails()
    ensures var cmp: Cmp := (x, y) => x - y;
      && Ordered(cmp, [5, 3, 4, 1])
      && Dequeued(AsWritten, cmp, [5, 3, 4, 1]) == [3, 1, 4]
      && !Ordered(cmp, [3, 1, 4])
  {
    var cmp: Cmp := (x, y) => x - y;
    var d := [1, 3, 4];
    assert [5, 3, 4, 1][0 := 1][..3] == d;
    assert Best(AsWritten, cmp, d, 1) == 2;
    assert Swap(d, 1, 2) == [3, 1, 4];
    assert Best(AsWritten, cmp, [3, 1, 4], 2) == 2;
    assert !AboveKids(cmp, [3, 1, 4], 1, 1, 0);
  }
}

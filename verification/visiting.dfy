/** Going through a sequence with an operation that may stop it. */
module Visiting {
  /** Apply `op` along `vs`, threading `p`, until it reports a failure. */
  function Visit<P>(vs: seq<int>, op: (int, P) -> (P, bool), p: P): (P, bool) {
    if vs == [] then (p, false)
    else
      var (p1, failed) := op(vs[0], p);
      if failed then (p1, true) else Visit(vs[1..], op, p1)
  }

  /** `ps` are the parameters on the way: each from the one before by an operation that did not
      fail. The way ends at the end of `vs`, or at the first operation that fails; that one's
      parameter is the last, and the failure is reported. */
  predicate Goes<P(==)>(vs: seq<int>, op: (int, P) -> (P, bool), p: P, ps: seq<P>, last: P, failed: bool) {
    var k := |ps| - 1;
    && 0 <= k <= |vs| && ps[0] == p
    && (forall m :: 0 <= m < k ==> op(vs[m], ps[m]) == (ps[m + 1], false))
    && if k == |vs| then last == ps[k] && !failed else op(vs[k], ps[k]) == (last, true) && failed
  }

  lemma {:induction false} VisitGoes<P>(vs: seq<int>, op: (int, P) -> (P, bool), p: P) returns (ps: seq<P>)
    ensures Goes(vs, op, p, ps, Visit(vs, op, p).0, Visit(vs, op, p).1)
  {
    ps := [p];
    if vs != [] {
      var (p1, failed) := op(vs[0], p);
      if !failed {
        var rest := VisitGoes(vs[1..], op, p1);
        ps := [p] + rest;
        assert forall m :: 0 < m < |rest| ==> ps[m] == rest[m - 1] && vs[m] == vs[1..][m - 1];
      }
    }
  }
}

/** A panic of `trace` leaves tracing counters behind.  The collection after it starts from them, and can take
    a box that the program holds for garbage; here is when it does. */
module Panics {
  import opened Graph
  import opened Heaps
  import opened Garbage

  lemma NothingLeft<T>(kids: Edges<T>, rc: map<T, nat>, p: set<T>)
    requires rc.Keys == kids.Keys
    ensures CollectableAfter(kids, rc, p, multiset{}) == Collectable(kids, rc, p)
  {
    var out := Out(kids, Reach(kids, p) * kids.Keys);
    assert multiset{} + out == out;
    assert TracedRootsAfter(kids, rc, p, multiset{}) == TracedRoots(kids, rc, p);
  }

  /** No tracing counter that starts at `left` can exceed the strong counter. */
  ghost predicate Within<T>(kids: Edges<T>, rc: map<T, nat>, p: set<T>, left: multiset<T>)
    requires rc.Keys == kids.Keys
  {
    var discovered := Reach(kids, p) * kids.Keys;
    forall n | n in discovered :: (left + Out(kids, discovered))[n] <= rc[n]
  }

  /** The boxes whose tracing counter meets the strong counter only because of where it started. */
  ghost function Masked<T>(kids: Edges<T>, rc: map<T, nat>, p: set<T>, left: multiset<T>): set<T>
    requires rc.Keys == kids.Keys
  {
    var discovered := Reach(kids, p) * kids.Keys;
    set n | n in discovered && left[n] > 0 && rc[n] == (left + Out(kids, discovered))[n]
  }

  /** What is left behind makes no difference to the list exactly if the roots that are still recognized
      reach each box that is not. */
  lemma ListAfterPanicIff<T>(kids: Edges<T>, rc: map<T, nat>, p: set<T>, left: multiset<T>)
    requires rc.Keys == kids.Keys && Within(kids, rc, p, left)
    ensures CollectableAfter(kids, rc, p, left) == Collectable(kids, rc, p)
      <==> Masked(kids, rc, p, left) <= Reach(kids, TracedRootsAfter(kids, rc, p, left))
  {
    var roots, after := TracedRoots(kids, rc, p), TracedRootsAfter(kids, rc, p, left);
    var masked := Masked(kids, rc, p, left);
    RootsAreMaskedOrNot(kids, rc, p, left);
    ReachMono(kids, after, roots);
    if masked <= Reach(kids, after) {
      ReachMono(kids, roots, after);
    } else {
      var n :| n in masked && n !in Reach(kids, after);
      assert n in roots && n in Reach(kids, p);
    }
  }

  lemma RootsAreMaskedOrNot<T>(kids: Edges<T>, rc: map<T, nat>, p: set<T>, left: multiset<T>)
    requires rc.Keys == kids.Keys && Within(kids, rc, p, left)
    ensures TracedRoots(kids, rc, p) == TracedRootsAfter(kids, rc, p, left) + Masked(kids, rc, p, left)
  {
    var discovered := Reach(kids, p) * kids.Keys;
    forall n | n in discovered
      ensures (left + Out(kids, discovered))[n] == left[n] + Out(kids, discovered)[n]
    {}
  }

  /** It is safe under that condition, whatever has been taken out of P, ... */
  lemma SafeAfterPanic<T>(h: Heap<T>, left: multiset<T>)
    requires h.Typed() && h.NoDangling() && h.Conserved() && h.p <= h.kids.Keys && Within(h.kids, h.rc, h.p, left)
    requires Masked(h.kids, h.rc, h.p, left) <= Reach(h.kids, TracedRootsAfter(h.kids, h.rc, h.p, left))
    ensures h.Reachable() !! CollectableAfter(h.kids, h.rc, h.p, left)
  {
    ListAfterPanicIff(h.kids, h.rc, h.p, left);
    NothingReachableIsCollected(h);
  }

  /** ... and where it fails the list holds a box that the program holds or that a box outside of what has
      been traced names. */
  lemma ListedFromOutside<T>(h: Heap<T>, left: multiset<T>, n: T)
    requires h.Typed() && h.NoDangling() && h.Conserved() && h.p <= h.kids.Keys && Within(h.kids, h.rc, h.p, left)
    requires n in Masked(h.kids, h.rc, h.p, left) && n !in Reach(h.kids, TracedRootsAfter(h.kids, h.rc, h.p, left))
    ensures n in CollectableAfter(h.kids, h.rc, h.p, left)
    ensures n in h.Roots() || exists a | a in h.kids :: a !in Reach(h.kids, h.p) && n in h.kids[a]
  {
    DiscoveredIsAllocated(h);
    var r := Reach(h.kids, h.p);
    assert r * h.kids.Keys == r;
    OutMono(h.kids, r, h.kids.Keys);
    if n !in h.Roots() {
      var a := FindOutsideEdge(h.kids, r, n);
    }
  }

  /** If `a`, which the program holds, has the only `Cc` to the candidate `b`, and this `Cc` was seen before
      the panic, then the next list is `b`. */
  lemma ReachableBoxIsListed<T>(h: Heap<T>, a: T, b: T)
    requires h.Typed() && a in h.kids && b in h.kids && h.kids[a] == [b] && h.kids[b] == []
    requires h.rc[b] == 1 && a in h.handles
    ensures b in h.Reachable() && CollectableAfter(h.kids, h.rc, {b}, multiset{b}) == {b}
    ensures Reach(h.kids, {b}) == {b} && Out(h.kids, {b}) == multiset{}
  {
    assert a in h.Roots() && b in h.kids[a];
    ReachLeast(h.kids, {b}, {b});
    assert Reach(h.kids, {b}) * h.kids.Keys == {b};
    OutAdd(h.kids, {}, b);
    assert {} + {b} == {b} && Out(h.kids, {b}) == multiset{};
    assert (multiset{b} + multiset{})[b] == 1;
    assert TracedRootsAfter(h.kids, h.rc, {b}, multiset{b}) == {};
    ReachLeast(h.kids, {}, {});
  }
}

/** One pass of the collector is exact.  The two tracing phases look at nothing but the candidates,
    the objects reachable from them and their counters, yet what they keep in the non-root list is
    precisely the garbage of the whole heap. */
module Garbage {
  import opened Graph
  import opened Heaps

  /** An edge from outside of `r` is a reference that `Out(kids, r)` does not count. */
  lemma OutsideEdge<T>(kids: Edges<T>, r: set<T>, a: T, b: T)
    requires r <= kids.Keys && a in kids && a !in r && b in kids[a]
    ensures Out(kids, r)[b] < Out(kids, kids.Keys)[b]
  {
    OutAdd(kids, r, a);
    OutMono(kids, r + {a}, kids.Keys);
    assert b in multiset(kids[a]);
  }

  lemma FindOutsideEdge<T>(kids: Edges<T>, r: set<T>, b: T) returns (a: T)
    requires r <= kids.Keys && Out(kids, r)[b] < Out(kids, kids.Keys)[b]
    ensures a in kids && a !in r && b in kids[a]
  {
    OutUnion(kids, r, kids.Keys - r);
    assert r + (kids.Keys - r) == kids.Keys;
    OutMember(kids, kids.Keys - r, b);
    a :| a in kids.Keys - r && b in kids[a];
  }

  lemma DiscoveredIsAllocated<T>(h: Heap<T>)
    requires h.NoDangling() && h.p <= h.kids.Keys
    ensures Reach(h.kids, h.p) <= h.kids.Keys
  {
    ReachLeast(h.kids, h.p, h.kids.Keys);
  }

  /** Whatever the program can reach and tracing discovers, tracing finds from its own roots. */
  lemma NothingReachableIsCollected<T>(h: Heap<T>)
    requires h.Typed() && h.NoDangling() && h.Conserved() && h.p <= h.kids.Keys
    ensures h.Reachable() !! Collectable(h.kids, h.rc, h.p)
  {
    DiscoveredIsAllocated(h);
    var r := Reach(h.kids, h.p);
    assert r * h.kids.Keys == r;
    var roots := TracedRoots(h.kids, h.rc, h.p);
    var x := (h.kids.Keys - r) + Reach(h.kids, roots);
    OutMono(h.kids, r, h.kids.Keys);
    forall a, b | a in x && a in h.kids && b in h.kids[a]
      ensures b in x
    {
      if a !in r && b in r {
        OutsideEdge(h.kids, r, a, b);
      }
    }
    assert h.Roots() <= x;
    ReachLeast(h.kids, h.Roots(), x);
  }

  /** The roots that tracing finds are reachable by the program. */
  lemma TracedRootsAreReachable<T>(h: Heap<T>)
    requires h.Typed() && h.NoDangling() && h.Conserved() && h.Placed() && h.Covered() && h.list == {}
    ensures TracedRoots(h.kids, h.rc, h.p) <= h.Reachable()
  {
    DiscoveredIsAllocated(h);
    var r := Reach(h.kids, h.p);
    assert r * h.kids.Keys == r;
    LiveIsReachableOrDiscovered(h);
    forall n | n in TracedRoots(h.kids, h.rc, h.p)
      ensures n in h.Reachable()
    {
      OutMono(h.kids, r, h.kids.Keys);
      if n !in h.handles && n !in h.pending {
        var a := FindOutsideEdge(h.kids, r, n);
        assert a in h.Live();
        assert a in h.Reachable();
      }
    }
  }

  lemma LiveIsReachableOrDiscovered<T>(h: Heap<T>)
    requires h.Covered() && h.list == {}
    ensures h.Live() <= h.Reachable() + Reach(h.kids, h.p)
  {
    assert h.Sources() == h.Roots() + h.p;
    ReachUnion(h.kids, h.Roots(), h.p);
  }

  lemma LiveIsClosed<T>(h: Heap<T>)
    requires h.Typed() && h.NoDangling() && h.Placed() && h.Conserved() && !h.phase.Deallocating?
    ensures Closed(h.kids, h.Live())
    ensures h.Roots() <= h.Live()
  {
    forall a, b | a in h.Live() && a in h.kids && b in h.kids[a]
      ensures b in h.Live()
    {
      OutMember(h.kids, h.kids.Keys, b);
      assert h.rc[b] > 0;
    }
    forall n | n in h.Roots()
      ensures n in h.Live()
    {
      assert h.rc[n] > 0;
    }
  }

  /** Exactness: the non-root list a pass ends with is the set of the live objects that the
      program cannot reach. */
  lemma CollectableIsGarbage<T>(h: Heap<T>)
    requires h.Valid() && h.phase.Idle?
    ensures Collectable(h.kids, h.rc, h.p) == h.Garbage()
  {
    NothingReachableIsCollected(h);
    TracedRootsAreReachable(h);
    ReachMono(h.kids, TracedRoots(h.kids, h.rc, h.p), h.Roots());
    LiveIsReachableOrDiscovered(h);
    LiveIsClosed(h);
    ReachLeast(h.kids, h.p, h.Live());
  }

  /** References into the garbage come from the garbage. */
  lemma GarbageIsPredecessorClosed<T>(h: Heap<T>, a: T, b: T)
    requires h.Valid() && h.phase.Idle?
    requires a in h.kids && b in h.kids[a] && b in Collectable(h.kids, h.rc, h.p)
    ensures a in Collectable(h.kids, h.rc, h.p)
  {
    CollectableIsGarbage(h);
    assert a in h.Live();
  }

  /** The same with paths: no path from a `Cc` held outside of the heap leads to what is collected. */
  lemma NoPathToCollected<T>(h: Heap<T>, path: seq<T>)
    requires h.Valid() && h.phase.Idle?
    requires IsPath(h.kids, path) && path[0] in h.Roots()
    ensures path[|path| - 1] !in Collectable(h.kids, h.rc, h.p)
  {
    CollectableIsGarbage(h);
    PathStaysInReach(h.kids, h.Roots(), path);
  }

  /** ... and one leads to every live object that is not. */
  lemma PathToUncollected<T>(h: Heap<T>, n: T) returns (path: seq<T>)
    requires h.Valid() && h.phase.Idle?
    requires n in h.Live() - Collectable(h.kids, h.rc, h.p)
    ensures IsPath(h.kids, path) && path[0] in h.Roots() && path[|path| - 1] == n
  {
    CollectableIsGarbage(h);
    path := ReachHasPath(h.kids, h.Roots(), n);
  }
}

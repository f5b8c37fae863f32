/** The two tracing phases of a pass. */
module Tracing {
  import opened Graph
  import opened Heaps
  import opened CounterMarkers
  import opened Lists

  /** What a tracing phase works on.  `g` holds the fields that the values report when they are traced;
      neither they nor the strong counters `rc` change meanwhile. */
  class Context {
    const pc: PossibleCycles
    const rootList: LinkedList
    const nonRootList: LinkedList
    const queue: LinkedQueue
    const g: Edges<CcBox>
    ghost const rc: map<CcBox, nat>
    /** What the candidates reach: the boxes that counting may discover. */
    ghost const reach: set<CcBox>
    /** The tracing counters that the candidates start with: none, unless a `trace` has panicked before. */
    ghost const left: multiset<CcBox>
    /** Whether `trace` may panic, and whether it has. */
    const tracePanics: bool
    ghost var panicked: bool

    constructor (pc: PossibleCycles, rootList: LinkedList, nonRootList: LinkedList, queue: LinkedQueue,
                 g: Edges<CcBox>, tracePanics: bool, ghost rc: map<CcBox, nat>, ghost left: multiset<CcBox>)
      ensures this.pc == pc && this.rootList == rootList && this.nonRootList == nonRootList && this.left == left
      ensures this.queue == queue && this.g == g && this.rc == rc && this.reach == Reach(g, pc.boxes)
      ensures this.tracePanics == tracePanics && !panicked
    {
      panicked := false;
      this.tracePanics := tracePanics;
      this.left := left;
      this.pc := pc;
      this.rootList := rootList;
      this.nonRootList := nonRootList;
      this.queue := queue;
      this.g := g;
      this.rc := rc;
      this.reach := Reach(g, pc.boxes);
    }

    // ----- what always holds ----------------------------------------------------------------------------

    ghost predicate Containers()
      reads pc, rootList, nonRootList, queue, g.Keys`next, g.Keys`prev
    {
      && rootList != nonRootList
      && pc.boxes <= g.Keys && rootList.boxes <= g.Keys && nonRootList.boxes <= g.Keys && queue.boxes <= g.Keys
      && pc.Valid() && rootList.Valid() && nonRootList.Valid() && queue.Valid()
    }

    /** The tag of a box says which container holds it, and the two counters tell the lists apart.
        `cur` is the box being counted, which is tagged like a queued one. */
    ghost predicate Tagged(cur: CcBox?, except: CcBox?)
      reads pc, rootList, nonRootList, queue
      reads g.Keys`next, g.Keys`prev, g.Keys`tracing, g.Keys`counter
    {
      forall b | b in g.Keys ::
        && b.counter.rc == Rc(b)
        && (b != except ==>
              && (b.tracing.mark.PossibleCycles? <==> b in pc.boxes)
              && (b.tracing.mark.InList? && b.tracing.tc != b.counter.rc <==> b in rootList.boxes)
              && (b.tracing.mark.InList? && b.tracing.tc == b.counter.rc <==> b in nonRootList.boxes)
              && (b.tracing.mark.InQueue? && b != cur <==> b in queue.boxes)
              && (b == cur ==> b.tracing.mark.InQueue?)
              && (b == cur || b.tracing.mark.NonMarked? ==> b.next == null && b.prev == null)
              && (b.tracing.mark.NonMarked? || b in reach)
              && (b in reach ==> !b.tracing.IsDropped()))
    }

    ghost function Rc(b: CcBox): nat { if b in rc then rc[b] else 0 }

    /** The graph is closed, and no tracing counter can exceed the strong counter. */
    ghost predicate Consistent() {
      && Closed(g, g.Keys) && rc.Keys == g.Keys
      && Closed(g, reach) && reach <= g.Keys
      && forall b | b in g.Keys :: (left + Out(g, reach))[b] <= rc[b] <= MAX
    }

    /** Only candidates have a tracing counter to start with. */
    ghost predicate Starting()
      reads pc`boxes, g.Keys`tracing
    {
      forall b | b in g.Keys :: left[b] == if b in pc.boxes then b.tracing.tc else 0
    }

    /** The references seen when the fields of `traced` have been counted, with what was there before. */
    ghost function Seen(traced: set<CcBox>): multiset<CcBox>
      requires traced <= g.Keys
    {
      left + Out(g, traced)
    }

    /** What a panic leaves: the candidates that have not been counted have been counted up by the
        references `extra` that were seen before. */
    ghost predicate Raised(extra: multiset<CcBox>)
      reads pc`boxes, g.Keys`tracing
    {
      && reach <= g.Keys && extra <= Out(g, reach)
      && forall b | b in pc.boxes && b in g.Keys :: b.tracing.tc == (left + extra)[b]
    }

    /** Every tracing counter is the number of references seen so far. */
    ghost predicate Counted(seen: multiset<CcBox>)
      reads g.Keys`tracing
    {
      forall b | b in g.Keys :: seen[b] == if b.tracing.mark.NonMarked? then 0 else b.tracing.tc
    }

    /** The boxes whose fields have been counted. */
    ghost function Traced(): set<CcBox>
      reads rootList`boxes, nonRootList`boxes
    {
      rootList.boxes + nonRootList.boxes
    }

    lemma ContainersAreApart(cur: CcBox?)
      requires Containers() && Tagged(cur, null)
      ensures pc.boxes !! rootList.boxes !! nonRootList.boxes !! queue.boxes
    {
    }

    // ----- counting ---------------------------------------------------------------------------------------

    /** The counters of `ptr`, which is in `root_list`, have become equal. */
    method MoveToNonRoots(ptr: CcBox, ghost cur: CcBox?)
      requires Containers() && ptr in g.Keys && ptr != cur
      requires pc.boxes !! rootList.boxes !! nonRootList.boxes !! queue.boxes && ptr in rootList.boxes
      requires Tagged(cur, ptr)
      requires ptr.tracing.mark.InList? && ptr.tracing.tc == ptr.counter.rc <= MAX && ptr in reach
      modifies rootList, nonRootList
      modifies rootList.boxes`next, rootList.boxes`prev, nonRootList.boxes`prev
      ensures Containers() && Tagged(cur, null)
      ensures Traced() == old(Traced())
    {
      hide LinkedList.Valid, PossibleCycles.Valid, LinkedQueue.Valid;
      ghost var k := rootList.Remove(ptr);
      nonRootList.Add(ptr);
    }

    /** A reference to a box that is in one of the lists, in the queue, or being counted. */
    method CountListed(ptr: CcBox, ghost cur: CcBox?, ghost seen: multiset<CcBox>)
      requires Containers() && Tagged(cur, null) && Counted(seen)
      requires ptr in g.Keys && seen[ptr] < ptr.counter.rc <= MAX && ptr.tracing.IsInListOrQueue()
      modifies rootList, nonRootList, ptr`tracing
      modifies rootList.boxes`next, rootList.boxes`prev, nonRootList.boxes`prev
      ensures Containers() && Tagged(cur, null) && Counted(seen + multiset{ptr})
      ensures Traced() == old(Traced())
      ensures ptr.tracing.mark == old(ptr.tracing.mark)
    {
      hide LinkedList.Valid, PossibleCycles.Valid, LinkedQueue.Valid;
      ContainersAreApart(cur);
      ptr.tracing := ptr.tracing.Incremented();
      assert Counted(seen + multiset{ptr});
      if ptr.tracing.mark.InList? && ptr.counter.rc == ptr.tracing.tc {
        MoveToNonRoots(ptr, cur);
      }
    }

    /** Queue a box that is in no container. */
    method Enqueue(ptr: CcBox, ghost cur: CcBox?)
      requires Containers() && Tagged(cur, ptr) && ptr in g.Keys && ptr != cur
      requires pc.boxes !! rootList.boxes !! nonRootList.boxes !! queue.boxes
      requires ptr !in pc.boxes + rootList.boxes + nonRootList.boxes + queue.boxes && Unlinked(ptr)
      requires ptr in reach && !ptr.tracing.IsDropped()
      modifies queue, queue.boxes`next, ptr`tracing
      ensures Containers() && Tagged(cur, null)
      ensures ptr.tracing == old(ptr.tracing).Marked(InQueue)
      ensures queue.boxes == old(queue.boxes) + {ptr}
    {
      hide PossibleCycles.Valid, LinkedList.Valid;
      queue.Add(ptr);
      ptr.tracing := ptr.tracing.Marked(InQueue);
    }

    /** The first reference to a box that is in no container. */
    method CountUnmarked(ptr: CcBox, ghost cur: CcBox?, ghost seen: multiset<CcBox>)
      requires Containers() && Tagged(cur, null) && Counted(seen)
      requires ptr in g.Keys && ptr in reach && ptr.tracing.mark.NonMarked?
      modifies queue, queue.boxes`next, ptr`tracing
      ensures Containers() && Tagged(cur, null) && Counted(seen + multiset{ptr})
      ensures ptr.tracing.mark == InQueue
    {
      ContainersAreApart(cur);
      ptr.tracing := ptr.tracing.Reset().Incremented();
      Enqueue(ptr, cur);
    }

    /** `CcBox::trace` while counting: one more reference to `ptr` has been seen. */
    method Count(ptr: CcBox, ghost cur: CcBox?, ghost seen: multiset<CcBox>)
      requires Containers() && Tagged(cur, null) && Counted(seen)
      requires ptr in g.Keys && ptr in reach && seen[ptr] < ptr.counter.rc <= MAX
      modifies rootList, nonRootList, queue, g.Keys`next, g.Keys`prev, ptr`tracing
      ensures Containers() && Tagged(cur, null) && Counted(seen + multiset{ptr})
      ensures Traced() == old(Traced())
    {
      if ptr.tracing.IsInListOrQueue() {
        CountListed(ptr, cur, seen);
      } else if ptr.tracing.mark.PossibleCycles? {
        ptr.tracing := ptr.tracing.Incremented();
      } else {
        CountUnmarked(ptr, cur, seen);
      }
    }

    /** `ptr` has just been taken out of P or of the queue; its tag has been cleared already, its
        tracing counter has not. */
    ghost predicate CountedExcept(ptr: CcBox, seen: multiset<CcBox>)
      reads g.Keys`tracing
    {
      && ptr in g.Keys && ptr.tracing.mark.NonMarked? && ptr.tracing.tc == seen[ptr]
      && forall b | b in g.Keys && b != ptr :: seen[b] == if b.tracing.mark.NonMarked? then 0 else b.tracing.tc
    }

    static lemma OneMore(seen: multiset<CcBox>, fields: seq<CcBox>, i: nat)
      requires i < |fields|
      ensures seen + multiset(fields[..i + 1]) == seen + multiset(fields[..i]) + multiset{fields[i]}
    {
      assert fields[..i + 1] == fields[..i] + [fields[i]];
    }

    lemma TracedIsDiscovered(cur: CcBox?)
      requires Containers() && Tagged(cur, null)
      ensures Traced() <= reach
    {}

    /** One more reference does not carry a tracing counter past the strong counter. */
    lemma MayCount(b: CcBox, cur: CcBox?, extra: multiset<CcBox>)
      requires Consistent() && Tagged(cur, null) && b in g.Keys && extra + multiset{b} <= Out(g, reach)
      ensures (left + extra)[b] < b.counter.rc <= MAX && left + (extra + multiset{b}) == left + extra + multiset{b}
    {
      assert (extra + multiset{b})[b] <= Out(g, reach)[b];
    }

    /** Code of the program: `trace` may panic whenever it is about to report a field. */
    method Panics() returns (panics: bool)
      requires !panicked
      modifies `panicked
      ensures panics == panicked && (panicked ==> tracePanics)
    {
      panics := false;
      if tracePanics {
        if * {
          panics := true;
        }
      }
      panicked := panics;
    }

    lemma ReachIsAllocated()
      requires Consistent()
      ensures reach <= g.Keys && Closed(g, reach)
    {}

    /** One more field of `ptr` is reported. */
    method CountField(ptr: CcBox, i: nat, ghost traced: set<CcBox>, ghost extra: multiset<CcBox>)
      returns (ghost after: multiset<CcBox>)
      requires Containers() && Tagged(ptr, null) && Consistent() && ptr in g && ptr in reach && i < |g[ptr]|
      requires traced == Traced() && traced <= reach <= g.Keys && ptr !in traced
      requires extra == Out(g, traced) + multiset(g[ptr][..i]) && Counted(left + extra)
      modifies rootList, nonRootList, queue, g.Keys`next, g.Keys`prev, reach`tracing
      ensures Containers() && Tagged(ptr, null) && Traced() == traced && Counted(left + after)
      ensures after == Out(g, traced) + multiset(g[ptr][..i + 1]) && after <= Out(g, reach)
    {
      hide Context.Containers, Context.Tagged, Context.Counted, Context.Consistent, Out;
      ReachIsAllocated();
      FieldAdds(g, traced, ptr, i, reach);
      OneMore(Out(g, traced), g[ptr], i);
      MayCount(g[ptr][i], ptr, extra);
      Count(g[ptr][i], ptr, left + extra);
      after := extra + multiset{g[ptr][i]};
    }

    /** Trace the value of `ptr`.  Returns false if `trace` panicked before it was done. */
    method CountEach(ptr: CcBox, ghost traced: set<CcBox>) returns (ok: bool, ghost extra: multiset<CcBox>)
      requires Containers() && Tagged(ptr, null) && Consistent() && ptr in g
      requires traced == Traced() && traced <= g.Keys && ptr in g.Keys - traced
      requires Counted(Seen(traced))
      requires ptr in reach
      requires !panicked
      modifies rootList, nonRootList, queue, g.Keys`next, g.Keys`prev, reach`tracing, `panicked
      ensures (ok <==> !panicked) && (panicked ==> tracePanics)
      ensures Containers() && Tagged(ptr, null) && Traced() == traced
      ensures Counted(left + extra) && extra <= Out(g, reach)
      ensures ok ==> extra == Out(g, traced) + multiset(g[ptr])
    {
      hide Context.Containers, Context.Tagged, Context.Counted, Context.Consistent, Out;
      ghost var seen := Out(g, traced);
      TracedIsDiscovered(ptr);
      ReachIsAllocated();
      OutMono(g, traced, reach);
      var i := 0;
      extra := seen;
      while i < |g[ptr]|
        invariant !panicked
        invariant 0 <= i <= |g[ptr]|
        invariant Containers() && Tagged(ptr, null) && Traced() == traced
        invariant extra == seen + multiset(g[ptr][..i]) && Counted(left + extra) && extra <= Out(g, reach)
      {
        var panics := Panics();
        if panics {
          return false, extra;
        }
        extra := CountField(ptr, i, traced, extra);
        i := i + 1;
      }
      assert g[ptr][..i] == g[ptr];
      return true, extra;
    }

    /** `__trace_counting`.  If `trace` panics the guard clears the tag. */
    method CountBox(ptr: CcBox) returns (ok: bool, ghost extra: multiset<CcBox>)
      requires Containers() && Tagged(null, null) && Consistent() && ptr in g
      requires Traced() <= g.Keys && ptr !in Traced()
      requires CountedExcept(ptr, Seen(Traced()))
      requires ptr in reach
      requires !panicked
      modifies rootList, nonRootList, queue, g.Keys`next, g.Keys`prev, reach`tracing, `panicked
      ensures (ok <==> !panicked) && (panicked ==> tracePanics)
      ensures Containers() && Tagged(null, null)
      ensures ok ==> Traced() == old(Traced()) + {ptr}
      ensures ok ==> Counted(Seen(Traced()))
      ensures !ok ==> Raised(extra)
    {
      hide Context.Containers, Context.Tagged, Context.Counted, Context.CountedExcept, Context.Consistent, Out;
      ghost var traced := Traced();
      MarkInQueue(ptr, Seen(traced));
      ok, extra := CountEach(ptr, traced);
      if ok {
        OutAdd(g, traced, ptr);
        File(ptr, left + extra);
      } else {
        StaysRaised(ptr, extra);
        ResetMark(ptr);
      }
    }

    lemma StaysRaised(ptr: CcBox, extra: multiset<CcBox>)
      requires Containers() && Tagged(ptr, null) && Consistent() && Counted(left + extra) && extra <= Out(g, reach)
      requires ptr in g.Keys
      ensures Raised(extra) && ptr !in pc.boxes
    {}

    method MarkInQueue(ptr: CcBox, ghost seen: multiset<CcBox>)
      requires Containers() && Tagged(null, null) && ptr in reach && CountedExcept(ptr, seen)
      modifies ptr`tracing
      ensures Containers() && Tagged(ptr, null) && Counted(seen)
    {
      ptr.tracing := ptr.tracing.Marked(InQueue);
    }

    /** `ResetMarkDropGuard` */
    method ResetMark(ptr: CcBox)
      requires Containers() && Tagged(ptr, null) && ptr in g.Keys
      modifies ptr`tracing
      ensures Containers() && Tagged(null, null)
    {
      ptr.tracing := ptr.tracing.Marked(NonMarked);
    }

    /** File the box that has been counted in one of the lists. */
    method File(ptr: CcBox, ghost seen: multiset<CcBox>)
      requires Containers() && Tagged(ptr, null) && ptr in g.Keys
      requires Counted(seen)
      modifies rootList, nonRootList, rootList.boxes`prev, nonRootList.boxes`prev, ptr`next, ptr`tracing
      ensures Containers() && Tagged(null, null)
      ensures Traced() == old(Traced()) + {ptr}
      ensures Counted(seen)
    {
      if ptr.counter.rc == ptr.tracing.tc {
        FileNonRoot(ptr);
      } else {
        FileRoot(ptr);
      }
    }

    method FileNonRoot(ptr: CcBox)
      requires Containers() && Tagged(ptr, null) && ptr in g.Keys && ptr.counter.rc == ptr.tracing.tc
      modifies nonRootList, nonRootList.boxes`prev, ptr`next, ptr`tracing
      ensures Containers() && Tagged(null, null)
      ensures nonRootList.boxes == old(nonRootList.boxes) + {ptr}
      ensures ptr.tracing == old(ptr.tracing).Marked(InList)
    {
      hide PossibleCycles.Valid, LinkedQueue.Valid;
      ContainersAreApart(ptr);
      nonRootList.Add(ptr);
      ptr.tracing := ptr.tracing.Marked(InList);
    }

    method FileRoot(ptr: CcBox)
      requires Containers() && Tagged(ptr, null) && ptr in g.Keys && ptr.counter.rc != ptr.tracing.tc
      modifies rootList, rootList.boxes`prev, ptr`next, ptr`tracing
      ensures Containers() && Tagged(null, null)
      ensures rootList.boxes == old(rootList.boxes) + {ptr}
      ensures ptr.tracing == old(ptr.tracing).Marked(InList)
    {
      hide PossibleCycles.Valid, LinkedQueue.Valid;
      ContainersAreApart(ptr);
      rootList.Add(ptr);
      ptr.tracing := ptr.tracing.Marked(InList);
    }

    /** None of the boxes in `all` has been forgotten: each is in P, counted, or next. */
    ghost predicate Accounted(all: set<CcBox>, ptr: CcBox?)
      reads pc`boxes, rootList`boxes, nonRootList`boxes
    {
      forall b | b in all :: b in pc.boxes || b in Traced() || b == ptr
    }

    /** Take the next candidate out of P.  Its tag is cleared with that. */
    method NextCandidate(ghost seen: multiset<CcBox>, ghost all: set<CcBox>) returns (ptr: CcBox?)
      requires Containers() && Tagged(null, null) && Counted(seen) && Accounted(all, null)
      modifies pc, pc.boxes`next, pc.boxes`prev, pc.boxes`tracing
      ensures Containers() && Tagged(null, null)
      ensures Accounted(all, ptr)
      ensures ptr == null ==> pc.boxes == old(pc.boxes) == {} && Counted(seen)
      ensures ptr != null ==> ptr in old(pc.boxes) && pc.boxes == old(pc.boxes) - {ptr} && ptr in reach
      ensures ptr != null ==> CountedExcept(ptr, seen)
    {
      ContainersAreApart(null);
      ptr := pc.RemoveFirst();
    }

    /** Take the next box out of the queue. */
    method NextQueued(ghost seen: multiset<CcBox>) returns (ptr: CcBox?)
      requires Containers() && Tagged(null, null) && Counted(seen)
      modifies queue, queue.boxes`next, queue.boxes`tracing
      ensures Containers() && Tagged(null, null)
      ensures ptr == null ==> queue.boxes == old(queue.boxes) == {} && Counted(seen)
      ensures ptr != null ==> ptr in old(queue.boxes) && queue.boxes == old(queue.boxes) - {ptr} && ptr in reach
      ensures ptr != null ==> CountedExcept(ptr, seen)
    {
      ContainersAreApart(null);
      ptr := queue.Poll();
    }

    /** Between two iterations of a counting loop: `ptr` is the next box to count, if any. */
    ghost predicate Counting(ptr: CcBox?)
      reads pc, rootList, nonRootList, queue
      reads g.Keys`next, g.Keys`prev, g.Keys`tracing, g.Keys`counter
    {
      && Containers() && Tagged(null, null)
      && if ptr == null then Counted(Seen(Traced())) else ptr in reach && CountedExcept(ptr, Seen(Traced()))
    }

    lemma WaitingAreDiscovered()
      requires Containers() && Tagged(null, null)
      ensures pc.boxes <= reach && queue.boxes <= reach
    {}

    lemma MayCountBox(ptr: CcBox)
      requires Counting(ptr) && Consistent()
      ensures ptr in g && ptr in reach && Traced() <= g.Keys && ptr !in Traced()
    {}

    method CountCandidate(ptr: CcBox, ghost all: set<CcBox>)
      returns (ok: bool, next: CcBox?, ghost extra: multiset<CcBox>)
      requires Counting(ptr) && Consistent() && Accounted(all, ptr)
      requires !panicked
      modifies pc, rootList, nonRootList, queue, g.Keys`next, g.Keys`prev, reach`tracing, `panicked
      ensures (ok <==> !panicked) && (panicked ==> tracePanics)
      ensures Containers() && Tagged(null, null)
      ensures pc.boxes <= old(pc.boxes)
      ensures ok ==> Counting(next) && Accounted(all, next)
      ensures ok ==> Traced() == old(Traced()) + {ptr} && ptr !in old(Traced())
      ensures ok ==> if next == null then pc.boxes == {} else pc.boxes < old(pc.boxes)
      ensures !ok ==> Raised(extra)
    {
      hide LinkedList.Valid, PossibleCycles.Valid, LinkedQueue.Valid, Context.Tagged, Context.Consistent;
      hide Context.CountedExcept, Context.Counted;
      next := null;
      MayCountBox(ptr);
      ok, extra := CountBox(ptr);
      if ok {
        WaitingAreDiscovered();
        next := NextCandidate(Seen(Traced()), all);
      }
    }

    /** The first loop of `trace_counting`: the candidates. */
    method CountCandidates() returns (ok: bool, ghost order: seq<CcBox>, ghost extra: multiset<CcBox>)
      requires Counting(null) && Consistent()
      requires Traced() == {}
      requires !panicked
      modifies pc, rootList, nonRootList, queue, g.Keys`next, g.Keys`prev, reach`tracing, `panicked
      ensures (ok <==> !panicked) && (panicked ==> tracePanics)
      ensures Containers() && Tagged(null, null)
      ensures pc.boxes <= old(pc.boxes)
      ensures ok ==> Counting(null) && pc.boxes == {} && old(pc.boxes) <= Traced()
      ensures ok ==> Distinct(order) && Members(order, Traced())
      ensures !ok ==> Raised(extra)
    {
      ghost var all := pc.boxes;
      ok, order, extra := true, [], multiset{};
      var ptr := NextCandidate(Seen(Traced()), all);
      while ptr != null
        invariant ok && !panicked
        invariant Counting(ptr) && Accounted(all, ptr) && pc.boxes <= all
        invariant ptr == null ==> pc.boxes == {}
        invariant Distinct(order) && Members(order, Traced())
        decreases pc.boxes, ptr != null
      {
        InOrder(order, Traced(), ptr);
        ghost var traced := ptr;
        ok, ptr, extra := CountCandidate(ptr, all);
        if !ok {
          return;
        }
        order := order + [traced];
      }
    }

    static lemma InOrder(order: seq<CcBox>, done: set<CcBox>, b: CcBox)
      requires Distinct(order) && Members(order, done)
      ensures b !in done ==> Distinct(order + [b])
      ensures Members(order + [b], done + {b})
    {
      forall c | c in done + {b}
        ensures c in order + [b]
      {
        if c != b { assert c in order; }
      }
    }

    method CountNext(ptr: CcBox) returns (ok: bool, next: CcBox?)
      requires Counting(ptr) && Consistent()
      requires !panicked
      modifies rootList, nonRootList, queue, g.Keys`next, g.Keys`prev, reach`tracing, `panicked
      ensures (ok <==> !panicked) && (panicked ==> tracePanics)
      ensures Containers() && Tagged(null, null)
      ensures ok ==> Counting(next) && Traced() == old(Traced()) + {ptr} && ptr !in old(Traced())
      ensures ok ==> next == null ==> queue.boxes == {}
    {
      hide LinkedList.Valid, PossibleCycles.Valid, LinkedQueue.Valid, Context.Tagged, Context.Consistent;
      hide Context.CountedExcept, Context.Counted;
      next := null;
      ghost var extra;
      MayCountBox(ptr);
      ok, extra := CountBox(ptr);
      if ok {
        WaitingAreDiscovered();
        next := NextQueued(Seen(Traced()));
      }
    }

    /** The second loop of `trace_counting`: what the candidates reach. */
    method CountQueued(ghost before: seq<CcBox>) returns (ok: bool, ghost order: seq<CcBox>)
      requires Counting(null) && Consistent() && Distinct(before) && Members(before, Traced())
      requires !panicked
      modifies rootList, nonRootList, queue, g.Keys`next, g.Keys`prev, reach`tracing, `panicked
      ensures (ok <==> !panicked) && (panicked ==> tracePanics)
      ensures Containers() && Tagged(null, null)
      ensures ok ==> Counting(null) && queue.boxes == {} && old(Traced()) <= Traced()
      ensures ok ==> Distinct(order) && Members(order, Traced())
    {
      ghost var all := Traced();
      ok, order := true, before;
      var ptr := NextQueued(Seen(Traced()));
      while ptr != null
        invariant ok && !panicked
        invariant Counting(ptr)
        invariant ptr == null ==> queue.boxes == {}
        invariant all <= Traced()
        invariant Distinct(order) && Members(order, Traced())
        decreases g.Keys - Traced(), ptr != null
      {
        InOrder(order, Traced(), ptr);
        ghost var traced := ptr;
        ok, ptr := CountNext(ptr);
        if !ok {
          return;
        }
        order := order + [traced];
      }
    }

    lemma TracedIsReach(p: set<CcBox>)
      requires Counting(null) && Consistent() && reach == Reach(g, p) && pc.boxes == {} && queue.boxes == {}
      requires p <= Traced()
      ensures Traced() == Reach(g, p)
    {
      forall a, b | a in Traced() && a in g && b in g[a]
        ensures b in Traced()
      {
        OutMember(g, Traced(), b);
      }
      ReachLeast(g, p, Traced());
    }

    lemma StartCounting()
      requires Containers() && Tagged(null, null)
      requires rootList.boxes == nonRootList.boxes == queue.boxes == {} && Starting()
      ensures Counting(null) && Traced() == {}
    {
      assert Traced() == {};
      assert Seen(Traced()) == left;
    }

    /** `trace_counting`: the boxes reachable from the candidates are in the two lists, according to
        whether all the references to them were found.  Each has been traced once. */
    method TraceCounting() returns (ok: bool, ghost order: seq<CcBox>, ghost extra: multiset<CcBox>)
      requires Containers() && Tagged(null, null) && Consistent()
      requires rootList.boxes == nonRootList.boxes == queue.boxes == {} && reach == Reach(g, pc.boxes)
      requires Starting()
      requires !panicked
      modifies pc, rootList, nonRootList, queue, g.Keys`next, g.Keys`prev, reach`tracing, `panicked
      ensures (ok <==> !panicked) && (panicked ==> tracePanics)
      ensures Containers() && Tagged(null, null)
      ensures pc.boxes <= old(pc.boxes)
      ensures ok ==> pc.boxes == {} && queue.boxes == {}
      ensures ok ==> Traced() == Reach(g, old(pc.boxes)) && Counted(Seen(Traced()))
      ensures ok ==> Distinct(order) && Members(order, Reach(g, old(pc.boxes)))
      ensures !ok ==> Raised(extra)
    {
      hide LinkedList.Valid, PossibleCycles.Valid, LinkedQueue.Valid, Members, Distinct;
      ghost var p := pc.boxes;
      StartCounting();
      ok, order, extra := CountCandidates();
      if ok {
        ok, order := CountQueued(order);
        extra := multiset{};
        if ok {
          TracedIsReach(p);
        }
      }
    }

    // ----- tracing the roots ------------------------------------------------------------------------------

    /** While roots are traced: what has left the non-root list is in `x`, the boxes reachable from
        the roots, and has been traced itself unless it is still listed, queued, or `ptr`. */
    ghost predicate RootTracing(ptr: CcBox?, all: set<CcBox>, x: set<CcBox>)
      reads pc, rootList, nonRootList, queue
      reads g.Keys`next, g.Keys`prev, g.Keys`tracing, g.Keys`counter
    {
      && Containers() && Tagged(null, null)
      && rootList.boxes <= all && nonRootList.boxes <= all && queue.boxes <= all <= g.Keys && all <= reach
      && (ptr != null ==> ptr in all && ptr.tracing.mark.NonMarked?)
      && all - nonRootList.boxes <= x
      && forall a | a in all && a !in nonRootList.boxes && a !in rootList.boxes && a !in queue.boxes && a != ptr ::
           AvoidsNonRoots(a)
    }

    ghost predicate AvoidsNonRoots(a: CcBox)
      reads nonRootList`boxes
    {
      a in g && forall b | b in g[a] :: b !in nonRootList.boxes
    }

    /** `CcBox::trace` while tracing roots: a listed non-root that a live box names is alive. */
    method Revive(ptr: CcBox)
      requires Containers() && Tagged(null, null) && ptr in g.Keys
      modifies nonRootList, queue, g.Keys`next, g.Keys`prev, ptr`tracing
      ensures Containers() && Tagged(null, null)
      ensures nonRootList.boxes == old(nonRootList.boxes) - {ptr}
      ensures queue.boxes == old(queue.boxes) + old(nonRootList.boxes * {ptr})
      ensures ptr.tracing.tc == old(ptr.tracing.tc)
      ensures ptr.tracing.mark.NonMarked? <==> old(ptr.tracing.mark.NonMarked?)
    {
      hide LinkedList.Valid, PossibleCycles.Valid, LinkedQueue.Valid;
      if ptr.tracing.mark.InList? && ptr.counter.rc == ptr.tracing.tc {
        Unfile(ptr);
        Enqueue(ptr, null);
      }
    }

    method Unfile(ptr: CcBox)
      requires Containers() && Tagged(null, null) && ptr in g.Keys && ptr in nonRootList.boxes
      modifies nonRootList, nonRootList.boxes`next, nonRootList.boxes`prev, ptr`tracing
      ensures Containers() && Tagged(null, ptr)
      ensures pc.boxes !! rootList.boxes !! nonRootList.boxes !! queue.boxes
      ensures ptr !in pc.boxes + rootList.boxes + nonRootList.boxes + queue.boxes && Unlinked(ptr)
      ensures nonRootList.boxes == old(nonRootList.boxes) - {ptr}
      ensures ptr.tracing == old(ptr.tracing).Marked(NonMarked)
    {
      ContainersAreApart(null);
      ptr.tracing := ptr.tracing.Marked(NonMarked);
      ghost var k := nonRootList.Remove(ptr);
    }

    /** One reference of the box `cur`, whose fields up to the `i`-th have been traced. */
    method ReviveField(ptr: CcBox, ghost cur: CcBox, ghost all: set<CcBox>, ghost x: set<CcBox>)
      requires RootTracing(cur, all, x) && ptr in g.Keys && ptr in all && ptr in x
      modifies nonRootList, queue, g.Keys`next, g.Keys`prev, reach`tracing
      ensures RootTracing(cur, all, x)
      ensures nonRootList.boxes == old(nonRootList.boxes) - {ptr}
      ensures Waiting() == old(Waiting())
    {
      Revive(ptr);
    }

    /** `__trace_roots`.  Returns false if `trace` panicked. */
    method RootFields(cur: CcBox, ghost all: set<CcBox>, ghost x: set<CcBox>) returns (ok: bool)
      requires RootTracing(cur, all, x) && Closed(g, all) && Closed(g, x)
      requires cur !in nonRootList.boxes
      requires !panicked
      modifies nonRootList, queue, g.Keys`next, g.Keys`prev, reach`tracing, `panicked
      ensures (ok <==> !panicked) && (panicked ==> tracePanics)
      ensures Containers() && Tagged(null, null)
      ensures ok ==> RootTracing(null, all, x)
      ensures nonRootList.boxes <= old(nonRootList.boxes)
      ensures Waiting() == old(Waiting())
    {
      hide LinkedList.Valid, PossibleCycles.Valid, LinkedQueue.Valid, Context.Tagged, Context.Containers;
      var fields := g[cur];
      var i := 0;
      while i < |fields|
        invariant !panicked
        invariant 0 <= i <= |fields|
        invariant RootTracing(cur, all, x) && cur !in nonRootList.boxes
        invariant forall j | 0 <= j < i :: g[cur][j] !in nonRootList.boxes
        invariant nonRootList.boxes <= old(nonRootList.boxes)
        invariant Waiting() == old(Waiting())
      {
        var panics := Panics();
        if panics {
          return false;
        }
        ReviveField(fields[i], cur, all, x);
        i := i + 1;
      }
      return true;
    }

    /** The live boxes whose fields have been traced, apart from `ptr`. */
    ghost function Done(ptr: CcBox?, all: set<CcBox>): set<CcBox>
      reads rootList`boxes, nonRootList`boxes, queue`boxes
    {
      set b | b in all && b !in rootList.boxes && b !in Waiting() && b != ptr
    }

    method NextRoot(ghost all: set<CcBox>, ghost x: set<CcBox>) returns (cur: CcBox?)
      requires RootTracing(null, all, x)
      modifies rootList, g.Keys`next, g.Keys`prev, reach`tracing
      ensures RootTracing(cur, all, x)
      ensures if cur == null then rootList.boxes == {} else rootList.boxes < old(rootList.boxes)
      ensures cur != null ==> cur !in nonRootList.boxes && cur !in queue.boxes && cur !in rootList.boxes
      ensures Done(cur, all) == old(Done(null, all))
    {
      ContainersAreApart(null);
      cur := rootList.RemoveFirst();
    }

    method NextRevived(ghost all: set<CcBox>, ghost x: set<CcBox>) returns (cur: CcBox?)
      requires RootTracing(null, all, x)
      modifies queue, g.Keys`next, g.Keys`prev, reach`tracing
      ensures RootTracing(cur, all, x)
      ensures if cur == null then queue.boxes == {}
              else cur in old(queue.boxes) && queue.boxes == old(queue.boxes) - {cur}
      ensures cur != null ==> cur !in nonRootList.boxes && cur !in rootList.boxes
      ensures Done(cur, all) == old(Done(null, all))
    {
      ContainersAreApart(null);
      cur := queue.Poll();
    }

    method TraceRootBox(cur: CcBox, ghost all: set<CcBox>, ghost x: set<CcBox>) returns (ok: bool, next: CcBox?)
      requires RootTracing(cur, all, x) && Closed(g, all) && Closed(g, x)
      requires cur !in nonRootList.boxes + queue.boxes + rootList.boxes
      requires !panicked
      modifies rootList, nonRootList, queue, g.Keys`next, g.Keys`prev, reach`tracing, `panicked
      ensures (ok <==> !panicked) && (panicked ==> tracePanics)
      ensures Containers() && Tagged(null, null)
      ensures nonRootList.boxes <= old(nonRootList.boxes)
      ensures ok ==> RootTracing(next, all, x)
      ensures ok ==> if next == null then rootList.boxes == {}
                     else next !in nonRootList.boxes + queue.boxes + rootList.boxes
                          && rootList.boxes < old(rootList.boxes)
      ensures ok ==> Done(next, all) == old(Done(cur, all)) + {cur}
    {
      next := null;
      ok := RootFields(cur, all, x);
      if ok {
        assert Done(null, all) == old(Done(cur, all)) + {cur};
        next := NextRoot(all, x);
      }
    }

    /** The first loop of `trace_roots`: the roots. */
    method TraceRootList(ghost all: set<CcBox>, ghost x: set<CcBox>) returns (ok: bool, ghost order: seq<CcBox>)
      requires RootTracing(null, all, x) && Closed(g, all) && Closed(g, x)
      requires Done(null, all) == {}
      requires !panicked
      modifies rootList, nonRootList, queue, g.Keys`next, g.Keys`prev, reach`tracing, `panicked
      ensures (ok <==> !panicked) && (panicked ==> tracePanics)
      ensures Containers() && Tagged(null, null)
      ensures ok ==> RootTracing(null, all, x) && rootList.boxes == {}
      ensures ok ==> Distinct(order) && Members(order, Done(null, all))
      ensures nonRootList.boxes <= old(nonRootList.boxes)
    {
      ok, order := true, [];
      var cur := NextRoot(all, x);
      while cur != null
        invariant ok && !panicked
        invariant RootTracing(cur, all, x) && nonRootList.boxes <= old(nonRootList.boxes)
        invariant if cur == null then rootList.boxes == {} else cur !in nonRootList.boxes + queue.boxes + rootList.boxes
        invariant Distinct(order) && Members(order, Done(cur, all))
        decreases rootList.boxes, cur != null
      {
        InOrder(order, Done(cur, all), cur);
        ghost var traced := cur;
        ok, cur := TraceRootBox(cur, all, x);
        if !ok {
          return;
        }
        order := order + [traced];
      }
    }

    method TraceRevivedBox(cur: CcBox, ghost all: set<CcBox>, ghost x: set<CcBox>)
      returns (ok: bool, next: CcBox?)
      requires RootTracing(cur, all, x) && Closed(g, all) && Closed(g, x)
      requires cur !in nonRootList.boxes + queue.boxes + rootList.boxes
      requires !panicked
      modifies nonRootList, queue, g.Keys`next, g.Keys`prev, reach`tracing, `panicked
      ensures (ok <==> !panicked) && (panicked ==> tracePanics)
      ensures Containers() && Tagged(null, null)
      ensures nonRootList.boxes <= old(nonRootList.boxes)
      ensures ok ==> RootTracing(next, all, x)
      ensures ok ==> if next == null then queue.boxes == {}
                     else next !in nonRootList.boxes + queue.boxes + rootList.boxes && Waiting() < old(Waiting())
      ensures ok ==> Done(next, all) == old(Done(cur, all)) + {cur}
    {
      hide LinkedList.Valid, PossibleCycles.Valid, LinkedQueue.Valid, Context.Tagged;
      next := null;
      ok := RootFields(cur, all, x);
      if ok {
        ghost var left := Waiting();
        next := NextRevived(all, x);
        if next != null {
          assert next in left;
        }
      }
    }

    ghost function Waiting(): set<CcBox>
      reads nonRootList`boxes, queue`boxes
    {
      nonRootList.boxes + queue.boxes
    }

    /** The second loop of `trace_roots`: what the roots reach.  Each round takes a box out of the
        queue, and boxes only enter the queue from the non-root list. */
    method TraceRevived(ghost all: set<CcBox>, ghost x: set<CcBox>, ghost before: seq<CcBox>)
      returns (ok: bool, ghost order: seq<CcBox>)
      requires RootTracing(null, all, x) && Closed(g, all) && Closed(g, x)
      requires Distinct(before) && Members(before, Done(null, all))
      requires !panicked
      modifies nonRootList, queue, g.Keys`next, g.Keys`prev, reach`tracing, `panicked
      ensures (ok <==> !panicked) && (panicked ==> tracePanics)
      ensures Containers() && Tagged(null, null)
      ensures ok ==> RootTracing(null, all, x) && queue.boxes == {}
      ensures ok ==> Distinct(order) && Members(order, Done(null, all))
      ensures nonRootList.boxes <= old(nonRootList.boxes)
    {
      ok, order := true, before;
      var cur := NextRevived(all, x);
      while cur != null
        invariant ok && !panicked
        invariant RootTracing(cur, all, x) && nonRootList.boxes <= old(nonRootList.boxes)
        invariant if cur == null then queue.boxes == {} else cur !in nonRootList.boxes + queue.boxes + rootList.boxes
        invariant Distinct(order) && Members(order, Done(cur, all))
        decreases cur != null, Waiting()
      {
        InOrder(order, Done(cur, all), cur);
        ghost var traced := cur;
        ok, cur := TraceRevivedBox(cur, all, x);
        if !ok {
          return;
        }
        order := order + [traced];
      }
    }

    /** `trace_roots`: what remains in the non-root list is what the roots do not reach.  Exactly what they
        reach has been traced, each box once. */
    method TraceRoots() returns (ok: bool, ghost order: seq<CcBox>)
      requires Containers() && Tagged(null, null) && Consistent()
      requires pc.boxes == queue.boxes == {} && Closed(g, Traced()) && Traced() <= reach
      requires !panicked
      modifies rootList, nonRootList, queue, g.Keys`next, g.Keys`prev, reach`tracing, `panicked
      ensures (ok <==> !panicked) && (panicked ==> tracePanics)
      ensures Containers() && Tagged(null, null)
      ensures ok ==> rootList.boxes == queue.boxes == {}
      ensures ok ==> nonRootList.boxes == old(Traced()) - Reach(g, old(rootList.boxes))
      ensures ok ==> Distinct(order) && Members(order, Reach(g, old(rootList.boxes)))
    {
      hide LinkedList.Valid, PossibleCycles.Valid, LinkedQueue.Valid, Members, Distinct;
      ghost var all := Traced();
      ghost var roots := rootList.boxes;
      ghost var x := Reach(g, roots);
      ContainersAreApart(null);
      assert Done(null, all) == {};
      ok, order := TraceRootList(all, x);
      if ok {
        ok, order := TraceRevived(all, x, order);
        if ok {
          assert Closed(g, all - nonRootList.boxes);
          ReachLeast(g, roots, all - nonRootList.boxes);
          ReachLeast(g, roots, all);
          assert Done(null, all) == all - nonRootList.boxes == x;
        }
      }
    }

    // ----- both phases ------------------------------------------------------------------------------------

    lemma RootsAreTracedRoots(p: set<CcBox>)
      requires Containers() && Tagged(null, null) && Consistent()
      requires p <= g.Keys && Traced() == Reach(g, p) && Counted(Seen(Traced()))
      ensures rootList.boxes == TracedRootsAfter(g, rc, p, left)
    {
      ReachLeast(g, p, g.Keys);
      assert Reach(g, p) * g.Keys == Reach(g, p);
    }

    lemma CandidatesAreBoxes()
      requires Containers()
      ensures pc.boxes <= g.Keys
    {}

    /** With an empty P there is nothing to count up. */
    lemma NothingRaised()
      requires Consistent() && pc.boxes == {}
      ensures Raised(multiset{})
    {}

    /** Both phases, without the unwinding. */
    method TracePhases() returns (ok: bool, ghost extra: multiset<CcBox>)
      requires Containers() && Tagged(null, null) && Consistent()
      requires rootList.boxes == nonRootList.boxes == queue.boxes == {} && reach == Reach(g, pc.boxes)
      requires Starting()
      requires !panicked
      modifies pc, rootList, nonRootList, queue, g.Keys`next, g.Keys`prev, reach`tracing, `panicked
      ensures (ok <==> !panicked) && (panicked ==> tracePanics)
      ensures Containers() && Tagged(null, null)
      ensures pc.boxes <= old(pc.boxes)
      ensures ok ==> rootList.boxes == queue.boxes == pc.boxes == {}
      ensures ok ==> nonRootList.boxes == CollectableAfter(g, rc, old(pc.boxes), left)
      ensures !ok ==> Raised(extra)
    {
      hide LinkedList.Valid, PossibleCycles.Valid, LinkedQueue.Valid, Members, Distinct;
      hide Context.Tagged, Context.Containers, Context.Consistent, Context.Counted, Context.Starting, Context.Raised;
      ghost var order: seq<CcBox>;
      CandidatesAreBoxes();
      ok, order, extra := TraceCounting();
      if ok {
        RootsAreTracedRoots(old(pc.boxes));
        ok, order := TraceRoots();
        extra := multiset{};
        NothingRaised();
      }
    }

    /** Both phases: the non-root list ends up with exactly the collectable boxes, every other box has
        no tag and no links.  If `trace` panics, all the boxes taken out of P have no tag and no links
        either once the containers have been dropped, and those left in P are counted up by the references
        seen so far. */
    method Trace() returns (ok: bool, ghost extra: multiset<CcBox>)
      requires Containers() && Tagged(null, null) && Consistent()
      requires rootList.boxes == nonRootList.boxes == queue.boxes == {} && reach == Reach(g, pc.boxes)
      requires Starting()
      requires !panicked
      modifies pc, rootList, nonRootList, queue, g.Keys`next, g.Keys`prev, reach`tracing, `panicked
      ensures (ok <==> !panicked) && (panicked ==> tracePanics)
      ensures Containers() && Tagged(null, null)
      ensures rootList.boxes == queue.boxes == {}
      ensures ok ==> pc.boxes == {} && nonRootList.boxes == CollectableAfter(g, rc, old(pc.boxes), left)
      ensures !ok ==> nonRootList.boxes == {} && pc.boxes <= old(pc.boxes) && Raised(extra)
    {
      ok, extra := TracePhases();
      if !ok {
        Unwind();
      }
    }

    /** The queue is dropped: its boxes end without tag and links. */
    method DropQueue()
      requires Containers() && Tagged(null, null)
      modifies queue, g.Keys`next, g.Keys`prev, reach`tracing
      ensures Containers() && Tagged(null, null) && queue.boxes == {}
      ensures forall b | b in pc.boxes :: b.tracing == old(b.tracing)
    {
      hide LinkedList.Valid, PossibleCycles.Valid, LinkedQueue.Valid;
      ContainersAreApart(null);
      queue.Drop();
    }

    /** ... and so are the lists. */
    method Unwind()
      requires Containers() && Tagged(null, null)
      modifies rootList, nonRootList, queue, g.Keys`next, g.Keys`prev, reach`tracing
      ensures Containers() && Tagged(null, null)
      ensures rootList.boxes == nonRootList.boxes == queue.boxes == {}
      ensures forall b | b in pc.boxes :: b.tracing == old(b.tracing)
    {
      hide LinkedList.Valid, PossibleCycles.Valid, LinkedQueue.Valid;
      DropQueue();
      ContainersAreApart(null);
      rootList.Drop();
      nonRootList.Drop();
    }
  }
}

/** `collect_cycles`: the passes over the candidates. */
module Collector {
  import opened Graph
  import opened Heaps
  import opened Garbage
  import opened Panics
  import opened Hazards
  import opened HeapRuns
  import opened DropSteps
  import opened CollectSteps
  import opened Logs
  import opened CounterMarkers
  import opened Lists
  import opened Configs
  import opened Tracing
  import opened Runtimes
  import opened Effects
  import opened Ccs

  // ----- tracing ----------------------------------------------------------------------------------------

  lemma TraceableHeap<T>(h: Heap<T>)
    requires MayBegin(h)
    ensures Closed(h.kids, h.kids.Keys) && h.rc.Keys == h.kids.Keys && h.p <= h.kids.Keys && h.list == {}
    ensures Reach(h.kids, h.p) <= h.kids.Keys && Reach(h.kids, h.p) !! h.dropped
    ensures forall b | b in h.kids :: Out(h.kids, h.kids.Keys)[b] <= h.rc[b] <= MAX
  {
    LiveIsClosed(h);
    ReachLeast(h.kids, h.p, h.Live());
  }

  lemma TracingStarts(rt: Runtime, ctx: Context, h: Heap<CcBox>)
    requires rt.Synced(h) && MayBegin(h) && ctx.left == multiset{}
    requires ctx.pc == rt.pc && ctx.g == h.kids && ctx.rc == h.rc && ctx.reach == Reach(h.kids, h.p)
    requires ctx.rootList != ctx.nonRootList
    requires ctx.rootList.Valid() && ctx.nonRootList.Valid() && ctx.queue.Valid()
    requires ctx.rootList.boxes == ctx.nonRootList.boxes == ctx.queue.boxes == {}
    ensures ctx.Containers() && ctx.Tagged(null, null) && ctx.Consistent() && ctx.Starting()
    ensures ctx.reach == Reach(ctx.g, ctx.pc.boxes) && CellsKept(h, {})
  {
    hide MayBegin, Runtime.Blocks, Runtime.Memory, Heap.Valid, PossibleCycles.Valid, LinkedList.Valid;
    hide LinkedQueue.Valid;
    TraceableHeap(h);
    assert multiset{} + Out(h.kids, ctx.reach) == Out(h.kids, ctx.reach);
    OutMono(h.kids, ctx.reach, h.kids.Keys);
  }

  /** Tags, links, size, strong counters, memory and flags are in order, whatever the tracing counters are,
      and the boxes taken out of P are in no container. */
  ghost predicate Unwound(rt: Runtime, h: Heap<CcBox>)
    reads rt`collecting, rt`finalizing, rt`dropping, rt`allocatedBytes, rt`values, rt`blocks, rt`weaks, rt`handles
    reads rt`metadatas, rt.pc, rt.config, h.kids.Keys, rt.metadatas`weak
  {
    && rt.pc.boxes <= h.p && rt.pc.boxes <= h.kids.Keys && rt.pc.Valid()
    && (forall b | b in h.kids ::
          && b in h.rc && b.counter == CounterCell(b in h.w.blocks, b in h.fin, h.rc[b])
          && b.tracing.mark == (if b in rt.pc.boxes then PossibleCycles else NonMarked)
          && (b !in rt.pc.boxes ==> b.next == null && b.prev == null)
          && (b.tracing.IsDropped() <==> b in h.dropped))
    && rt.Memory(h.kids) && rt.Blocks(h.kids.Keys, h.w) && rt.Flags(h) && rt.handles == h.handles
  }

  /** Of the candidates `p`, whose counters started at `left`, those still in P have been counted up by the
      references `extra` that were seen. */
  ghost predicate CountedUp(rt: Runtime, h: Heap<CcBox>, p: set<CcBox>, left: multiset<CcBox>, extra: multiset<CcBox>)
    reads rt.pc, h.kids.Keys`tracing
  {
    && rt.pc.boxes <= p && Reach(h.kids, p) <= h.kids.Keys && extra <= Out(h.kids, Reach(h.kids, p))
    && forall b | b in rt.pc.boxes && b in h.kids :: b.tracing.tc == (left + extra)[b]
  }

  /** Both phases.  The list ends up with exactly the boxes that nothing reaches. */
  method TracePass(rt: Runtime, ghost h: Heap<CcBox>) returns (ok: bool, list: LinkedList, ghost extra: multiset<CcBox>)
    requires rt.Synced(h) && MayBegin(h)
    modifies rt`nonRootList, rt`panics, rt.pc, h.kids.Keys`next, h.kids.Keys`prev, h.kids.Keys`tracing
    ensures fresh(list) && rt.nonRootList == list
    ensures rt.panics == old(rt.panics) + (if ok then 0 else 1) && (!ok ==> rt.tracePanics)
    ensures ok ==> h.Typed() && rt.Synced(Begun(h))
    ensures !ok ==> Unwound(rt, h) && CountedUp(rt, h, h.p, multiset{}, extra)
  {
    hide MayBegin, Runtime.Synced, Heap.Valid, Reach, Context.Consistent, Context.Tagged, Context.Starting;
    hide Context.Containers, PossibleCycles.Valid, LinkedList.Valid, LinkedQueue.Valid, Begun, Unwound, CellsKept;
    hide CountedUp;
    CandidatesAndValues(rt, h);
    list := new LinkedList();
    var rootList := new LinkedList();
    var queue := new LinkedQueue();
    var ctx := new Context(rt.pc, rootList, list, queue, rt.values, rt.tracePanics, h.rc, multiset{});
    TracingStarts(rt, ctx, h);
    ok, extra := TraceIn(rt, ctx, h);
  }

  lemma CandidatesAndValues(rt: Runtime, h: Heap<CcBox>)
    requires rt.Synced(h)
    ensures rt.values == h.kids && rt.pc.boxes == h.p
  {}

  method TraceIn(rt: Runtime, ctx: Context, ghost h: Heap<CcBox>) returns (ok: bool, ghost extra: multiset<CcBox>)
    requires rt.Synced(h) && MayBegin(h) && ctx.pc == rt.pc && ctx.g == h.kids && ctx.rc == h.rc
      && ctx.left == multiset{} && ctx.tracePanics == rt.tracePanics && !ctx.panicked
    requires ctx.Containers() && ctx.Tagged(null, null) && ctx.Consistent() && ctx.Starting() && CellsKept(h, {})
    requires ctx.rootList.boxes == ctx.nonRootList.boxes == ctx.queue.boxes == {}
      && ctx.reach == Reach(ctx.g, ctx.pc.boxes)
    modifies rt`nonRootList, rt`panics, ctx.pc, ctx.rootList, ctx.nonRootList, ctx.queue, ctx`panicked
    modifies h.kids.Keys`next, h.kids.Keys`prev, h.kids.Keys`tracing
    ensures rt.nonRootList == ctx.nonRootList
    ensures rt.panics == old(rt.panics) + (if ok then 0 else 1) && (!ok ==> rt.tracePanics)
    ensures ok ==> h.Typed() && rt.Synced(Begun(h))
    ensures !ok ==> Unwound(rt, h) && CountedUp(rt, h, h.p, multiset{}, extra)
  {
    hide MayBegin, Runtime.Blocks, Runtime.Memory, Heap.Valid, Reach, Collectable, CollectableAfter, Context.Consistent;
    hide PossibleCycles.Valid, LinkedList.Valid, LinkedQueue.Valid, Context.Tagged, Context.Containers, Unwound;
    hide CellsKept;
    hide Context.Starting, Context.Raised, CountedUp;
    TraceableHeap(h);
    ok, extra := TraceKeepingCells(rt, ctx, h);
    rt.nonRootList := ctx.nonRootList;
    if ok {
      NothingLeft(h.kids, h.rc, h.p);
      TracingEnded(rt, ctx, h);
    } else {
      TracingUnwound(rt, ctx, h);
      RaisedIsCountedUp(rt, ctx, h, h.p, extra);
    }
  }

  lemma RaisedIsCountedUp(rt: Runtime, ctx: Context, h: Heap<CcBox>, p: set<CcBox>, extra: multiset<CcBox>)
    requires ctx.Raised(extra) && ctx.pc == rt.pc && ctx.g == h.kids && rt.pc.boxes <= p
    requires ctx.reach == Reach(h.kids, p)
    ensures CountedUp(rt, h, p, ctx.left, extra)
  {
    hide PossibleCycles.Valid, Reach;
  }

  method TraceKeepingCells(rt: Runtime, ctx: Context, ghost h: Heap<CcBox>)
    returns (ok: bool, ghost extra: multiset<CcBox>)
    requires CellsKept(h, {}) && ctx.g == h.kids && !ctx.panicked
    requires ctx.Containers() && ctx.Tagged(null, null) && ctx.Consistent() && ctx.Starting()
    requires ctx.rootList.boxes == ctx.nonRootList.boxes == ctx.queue.boxes == {}
      && ctx.reach == Reach(ctx.g, ctx.pc.boxes)
    modifies rt`panics, ctx.pc, ctx.rootList, ctx.nonRootList, ctx.queue, ctx`panicked
    modifies h.kids.Keys`next, h.kids.Keys`prev, h.kids.Keys`tracing
    ensures ctx.Containers() && ctx.Tagged(null, null) && CellsKept(h, ctx.reach)
    ensures rt.panics == old(rt.panics) + (if ok then 0 else 1) && (!ok ==> ctx.tracePanics)
    ensures ctx.rootList.boxes == ctx.queue.boxes == {} && ctx.rc.Keys == ctx.g.Keys
    ensures ok ==> ctx.pc.boxes == {}
    ensures ok ==> ctx.nonRootList.boxes == CollectableAfter(ctx.g, ctx.rc, old(ctx.pc.boxes), ctx.left)
    ensures !ok ==> ctx.nonRootList.boxes == {} && ctx.pc.boxes <= old(ctx.pc.boxes) && ctx.Raised(extra)
  {
    hide Reach, CollectableAfter, Context.Tagged, Context.Containers, Context.Starting, Context.Raised;
    ok, extra := ctx.Trace();
    rt.panics := rt.panics + if ctx.panicked then 1 else 0;
  }

  /** What tracing does not change in the cells: the counters, and which values have been dropped. */
  ghost predicate CellsKept(h: Heap<CcBox>, traced: set<CcBox>)
    reads h.kids.Keys`counter, h.kids.Keys`tracing
  {
    forall b | b in h.kids ::
      && b in h.rc && b.counter == CounterCell(b in h.w.blocks, b in h.fin, h.rc[b])
      && (b !in traced ==> (b.tracing.IsDropped() <==> b in h.dropped))
  }

  lemma TracingEnded(rt: Runtime, ctx: Context, h: Heap<CcBox>)
    requires MayBegin(h) && CellsKept(h, ctx.reach) && ctx.reach == Reach(h.kids, h.p) && ctx.g == h.kids
      && ctx.rc == h.rc
    requires ctx.Containers() && ctx.Tagged(null, null) && ctx.pc == rt.pc && rt.nonRootList == ctx.nonRootList
    requires ctx.rootList.boxes == ctx.queue.boxes == ctx.pc.boxes == {}
    requires h.Typed() && ctx.nonRootList.boxes == Collectable(h.kids, h.rc, h.p)
    requires rt.Flags(h) && rt.Memory(h.kids) && rt.Blocks(h.kids.Keys, h.w) && rt.handles == h.handles
    ensures rt.Synced(Begun(h))
  {
    hide MayBegin, Runtime.Blocks, Runtime.Memory, Heap.Valid, Reach, Collectable, Context.Consistent;
    hide PossibleCycles.Valid, LinkedList.Valid, LinkedQueue.Valid;
    TraceableHeap(h);
  }

  lemma TracingUnwound(rt: Runtime, ctx: Context, h: Heap<CcBox>)
    requires MayBegin(h) && CellsKept(h, ctx.reach) && ctx.reach == Reach(h.kids, h.p) && ctx.g == h.kids
      && ctx.rc == h.rc
    requires ctx.Containers() && ctx.Tagged(null, null) && ctx.pc == rt.pc && ctx.pc.boxes <= h.p
    requires ctx.rootList.boxes == ctx.nonRootList.boxes == ctx.queue.boxes == {}
    requires rt.Memory(h.kids) && rt.Blocks(h.kids.Keys, h.w) && rt.Flags(h) && rt.handles == h.handles
    ensures Unwound(rt, h)
  {
    hide MayBegin, Runtime.Blocks, Runtime.Memory, Heap.Valid, Reach, Collectable, Context.Consistent;
    hide PossibleCycles.Valid, LinkedList.Valid, LinkedQueue.Valid;
    TraceableHeap(h);
  }

  // ----- after a panic ----------------------------------------------------------------------------------

  /** The tracing counters that the next collection starts from. */
  ghost predicate LeftBehind(rt: Runtime, h: Heap<CcBox>, left: multiset<CcBox>)
    reads rt.pc, h.kids.Keys`tracing
  {
    forall b | b in h.kids :: left[b] == if b in rt.pc.boxes then b.tracing.tc else 0
  }

  /** What a pass needs of a heap in which a `trace` has panicked. */
  ghost predicate Traceable(h: Heap<CcBox>, p: set<CcBox>, left: multiset<CcBox>) {
    && h.rc.Keys == h.kids.Keys && Closed(h.kids, h.kids.Keys) && Reach(h.kids, p) <= h.kids.Keys
    && Reach(h.kids, p) !! h.dropped
    && (forall b | b in h.kids :: (left + Out(h.kids, Reach(h.kids, p)))[b] <= h.rc[b] <= MAX)
  }

  /** Both phases in a state that a panic of `trace` has left: the list is what `CollectableAfter` says. */
  method TraceAfterPanic(rt: Runtime, ghost h: Heap<CcBox>, ghost left: multiset<CcBox>)
    returns (ok: bool, list: LinkedList, ghost extra: multiset<CcBox>)
    requires Unwound(rt, h) && LeftBehind(rt, h, left) && Traceable(h, rt.pc.boxes, left)
    modifies rt`panics, rt.pc, h.kids.Keys`next, h.kids.Keys`prev, h.kids.Keys`tracing
    ensures fresh(list) && list.Valid()
    ensures rt.panics == old(rt.panics) + (if ok then 0 else 1) && (!ok ==> rt.tracePanics)
    ensures ok ==> rt.pc.boxes == {} && list.boxes == CollectableAfter(h.kids, h.rc, old(rt.pc.boxes), left)
    ensures !ok ==> list.boxes == {} && Unwound(rt, h) && CountedUp(rt, h, old(rt.pc.boxes), left, extra)
  {
    hide Runtime.Blocks, Heap.Valid, Reach, Context.Consistent, Context.Tagged, Context.Starting, Traceable, LeftBehind;
    hide Context.Containers, PossibleCycles.Valid, LinkedList.Valid, LinkedQueue.Valid, Unwound, CellsKept;
    hide CollectableAfter, CountedUp, Runtime.Flags, Out, Closed;
    hide Context.Raised, Runtime.Memory;
    list := new LinkedList();
    var rootList := new LinkedList();
    var queue := new LinkedQueue();
    ValuesOf(rt, h);
    var ctx := new Context(rt.pc, rootList, list, queue, rt.values, rt.tracePanics, h.rc, left);
    TracingStartsAgain(rt, ctx, h, left);
    ghost var p := rt.pc.boxes;
    ok, extra := TraceKeepingCells(rt, ctx, h);
    TracedAgain(rt, ctx, h, p, left, ok, extra);
  }

  lemma ValuesOf(rt: Runtime, h: Heap<CcBox>)
    requires Unwound(rt, h)
    ensures rt.values == h.kids && rt.pc.Valid() && rt.pc.boxes <= h.p && rt.Flags(h) && rt.handles == h.handles
    ensures rt.Memory(h.kids) && rt.Blocks(h.kids.Keys, h.w)
  {}

  lemma TracingStartsAgain(rt: Runtime, ctx: Context, h: Heap<CcBox>, left: multiset<CcBox>)
    requires Unwound(rt, h) && LeftBehind(rt, h, left) && Traceable(h, rt.pc.boxes, left) && ctx.left == left
    requires ctx.pc == rt.pc && ctx.g == h.kids && ctx.rc == h.rc && ctx.reach == Reach(h.kids, rt.pc.boxes)
    requires ctx.rootList != ctx.nonRootList
    requires ctx.rootList.Valid() && ctx.nonRootList.Valid() && ctx.queue.Valid()
    requires ctx.rootList.boxes == ctx.nonRootList.boxes == ctx.queue.boxes == {}
    ensures ctx.Containers() && ctx.Tagged(null, null) && ctx.Consistent() && ctx.Starting() && CellsKept(h, {})
  {
    hide Runtime.Blocks, Runtime.Memory, PossibleCycles.Valid, LinkedList.Valid, LinkedQueue.Valid, Reach;
    assert Reach(h.kids, rt.pc.boxes) == ctx.reach;
  }

  lemma TracedAgain(rt: Runtime, ctx: Context, h: Heap<CcBox>, p: set<CcBox>, left: multiset<CcBox>, ok: bool,
                    extra: multiset<CcBox>)
    requires Traceable(h, p, left) && CellsKept(h, ctx.reach) && ctx.reach == Reach(h.kids, p)
    requires ctx.g == h.kids && ctx.rc == h.rc && p <= h.p
    requires ctx.Containers() && ctx.Tagged(null, null) && ctx.pc == rt.pc
    requires rt.Memory(h.kids) && rt.Blocks(h.kids.Keys, h.w) && rt.Flags(h) && rt.handles == h.handles
    requires !ok ==> ctx.rootList.boxes == ctx.nonRootList.boxes == ctx.queue.boxes == {}
    requires !ok ==> ctx.pc.boxes <= p && ctx.Raised(extra) && ctx.left == left
    ensures ctx.nonRootList.Valid() && (!ok ==> Unwound(rt, h) && CountedUp(rt, h, p, left, extra))
  {
    hide Runtime.Blocks, Runtime.Memory, PossibleCycles.Valid, LinkedList.Valid, LinkedQueue.Valid, Reach;
  }

  /** What `TracePass` promises after a panic allows this state: `a`, which the program holds and which has the
      only `Cc` to `b`, was taken out of P, and its `trace` panicked once it had reported `b`.  The next pass
      takes `b` for garbage. */
  lemma ReachableBoxIsListedAfterPanic(rt: Runtime, h: Heap<CcBox>, a: CcBox, b: CcBox)
    requires Unwound(rt, h) && CountedUp(rt, h, h.p, multiset{}, multiset{b}) && h.p == {a, b} && rt.pc.boxes == {b}
    requires h.Typed() && h.NoDangling() && h.Conserved() && a in h.kids && b in h.kids && b !in h.dropped
    requires h.kids[a] == [b] && h.kids[b] == [] && h.rc[b] == 1 && a in h.handles
    ensures LeftBehind(rt, h, multiset{b}) && Traceable(h, {b}, multiset{b})
    ensures b in h.Reachable() && CollectableAfter(h.kids, h.rc, {b}, multiset{b}) == {b}
  {
    hide Unwound, PossibleCycles.Valid;
    ReachableBoxIsListed(h, a, b);
    assert multiset{b} + multiset{} == multiset{b};
    assert multiset{} + multiset{b} == multiset{b};
  }

  /** What the code does when `trace` panics, whether or not it has panicked before, is the event of the machine,
      and what it leaves in the tracing counters is what the next pass of the machine starts from. */
  lemma PanicIsAnEvent(rt: Runtime, h: Heap<CcBox>, p: set<CcBox>, left: multiset<CcBox>, extra: multiset<CcBox>)
    requires CountedUp(rt, h, p, left, extra) && h.Typed() && h.phase.Idle? && h.collecting
    ensures Happens(State(h.(p := p), left), Panic(rt.pc.boxes, extra))
    ensures After(State(h.(p := p), left), Panic(rt.pc.boxes, extra)).h == h.(p := rt.pc.boxes)
    ensures LeftBehind(rt, h, After(State(h.(p := p), left), Panic(rt.pc.boxes, extra)).left)
  {
    hide PossibleCycles.Valid;
    assert Reach(h.kids, p) * h.kids.Keys == Reach(h.kids, p);
  }

  // ----- finalizing -------------------------------------------------------------------------------------

  lemma SyncedIgnoresPhase(rt: Runtime, h: Heap<CcBox>, phase: Phase<CcBox>)
    requires rt.Synced(h)
    ensures rt.Synced(h.(phase := phase))
  {
    hide Runtime.Cells, Runtime.Containers, Runtime.Blocks, Runtime.Memory;
  }

  lemma ListOf(rt: Runtime, list: LinkedList, h: Heap<CcBox>, i: nat)
    requires rt.Synced(h) && rt.nonRootList == list && i <= |list.contents|
    ensures list.boxes == h.list <= h.kids.Keys && list.first == Nth(list.contents, 0)
    ensures Members(list.contents, list.boxes) && Distinct(list.contents)
    ensures i < |list.contents| ==> list.contents[i] in h.kids && list.contents[i].next == Nth(list.contents, i + 1)
  {
    hide Runtime.Cells, Runtime.Blocks, Runtime.Memory, PossibleCycles.Valid;
  }

  /** The finalizers of `boxes` are among those that have been called in between. */
  ghost predicate CalledSince<T>(before: seq<T>, after: seq<T>, boxes: set<T>) {
    before <= after && forall b | b in boxes :: b in after[|before|..]
  }

  lemma CalledOneMore<T>(before: seq<T>, calls: seq<T>, after: seq<T>, boxes: set<T>, b: T, called: bool)
    requires CalledSince(before, calls, boxes) && calls <= after && (called ==> calls + [b] <= after)
    ensures CalledSince(before, after, boxes + if called then {b} else {})
  {
    var k := |before|;
    forall x | x in boxes
      ensures x in after[k..]
    {
      var i :| k <= i < |calls| && calls[i] == x;
      assert after[k..][i - k] == x;
    }
    if called {
      assert after[k..][|calls| - k] == (calls + [b])[|calls|] == b;
    }
  }

  lemma NothingCalled<T>(calls: seq<T>)
    ensures CalledSince(calls, calls, {})
  {}

  lemma CalledNext<T>(before: seq<T>, calls: seq<T>, after: seq<T>, done: set<T>, b: T, fin: set<T>)
    requires CalledSince(before, calls, done - fin) && calls <= after && (b !in fin ==> calls + [b] <= after)
    ensures CalledSince(before, after, done + {b} - fin)
  {
    CalledOneMore(before, calls, after, done - fin, b, b !in fin);
    assert done + {b} - fin == done - fin + if b !in fin then {b} else {};
  }

  /** `CcBox::finalize_inner` */
  method FinalizeInner(rt: Runtime, b: CcBox, ghost h: Heap<CcBox>, ghost done: set<CcBox>, ghost has: bool,
                       ghost m: Heap<CcBox>)
    returns (finalized: bool, ghost steps: seq<Step<CcBox>>, ghost h': Heap<CcBox>)
    requires rt.Synced(m) && InPass(h) && h.finalizing && FinalizedSome(h, done, has, rt.silent, m)
    requires b in h.list && b in m.kids
    modifies rt, rt.pc, rt.config, m.kids.Keys, rt.metadatas
    ensures rt.Synced(h') && FinalizedSome(h, done + {b}, has || finalized, rt.silent, h')
    ensures FlaggedRun(m, steps, h', true) && Logged(old(rt.log), steps, rt.log) && finalized == (b !in m.fin)
    ensures if finalized then old(rt.log.calls) + [b] <= rt.log.calls else rt.log == old(rt.log)
    ensures !finalized || rt.silent(b) ==> rt.ByCode() == old(rt.ByCode())
    ensures rt.nonRootList == old(rt.nonRootList) && rt.Counts() == old(rt.Counts())
    ensures (forall c | c in h'.kids :: c in m.kids || fresh(c)) && fresh(rt.metadatas - old(rt.metadatas))
  {
    hide Runtime.Synced, InPass, FinalizedSome, FinalizerMay, FinalizerRan, Then, FlaggedRun, Logged;
    NothingFlagged(m, true);
    NothingLogged(rt.log);
    CellsOf(rt, m, b);
    finalized, steps, h' := !b.counter.finalized, [], m;
    if finalized {
      StartListed(h, done, has, rt.silent, m, b);
      h' := SetFinalized(rt, b, true, h');
      SyncedIgnoresPhase(rt, h', Phase.Finalizing);
      ghost var fs: seq<Step<CcBox>>;
      fs, h' := RunFinalizer(rt, b, h'.(phase := Phase.Finalizing));
      ListedReturned(h, done, has, rt.silent, m, b, fs, h');
      ListedLogged(b, fs, old(rt.log), rt.log);
      steps := Then([Step.Finalize(b)], fs);
    } else {
      AlreadyFinalized(h, done, has, rt.silent, m, b);
    }
  }

  /** Finalize the `i`-th member of the list. */
  method FinalizeNext(rt: Runtime, list: LinkedList, elem: CcBox, ghost i: nat, ghost h: Heap<CcBox>, ghost has: bool,
                      ghost before: seq<CcBox>, ghost m: Heap<CcBox>)
    returns (finalized: bool, ghost steps: seq<Step<CcBox>>, ghost h': Heap<CcBox>)
    requires rt.Synced(m) && InPass(h) && h.finalizing && rt.nonRootList == list && i < |list.contents|
    requires elem == list.contents[i] && Lists.Members(list.contents, h.list) && Distinct(list.contents)
      && elem in m.kids
    requires FinalizedSome(h, First(list.contents, i), has, rt.silent, m)
    requires CalledSince(before, rt.log.calls, First(list.contents, i) - h.fin)
    modifies rt, rt.pc, rt.config, m.kids.Keys, rt.metadatas
    ensures rt.Synced(h') && FinalizedSome(h, First(list.contents, i + 1), has || finalized, rt.silent, h')
    ensures FlaggedRun(m, steps, h', true) && CalledSince(before, rt.log.calls, First(list.contents, i + 1) - h.fin)
    ensures Logged(old(rt.log), steps, rt.log)
    ensures if finalized then |rt.log.calls| > |old(rt.log.calls)| else rt.log == old(rt.log)
    ensures elem in h.fin || rt.silent(elem) ==> rt.ByCode() == old(rt.ByCode())
    ensures rt.nonRootList == old(rt.nonRootList) && rt.Counts() == old(rt.Counts())
    ensures (forall c | c in h'.kids :: c in m.kids || fresh(c)) && fresh(rt.metadatas - old(rt.metadatas))
  {
    hide Runtime.Synced, InPass, FinalizedSome, FlaggedRun, CalledSince, First, Lists.Members, Distinct, Logged;
    FirstGrows(list.contents, h.list, i);
    SameList(h, First(list.contents, i), has, rt.silent, m, elem);
    StillFinalized(h, First(list.contents, i), has, rt.silent, m, elem);
    finalized, steps, h' := FinalizeInner(rt, elem, h, First(list.contents, i), has, m);
    CalledNext(before, old(rt.log.calls), rt.log.calls, First(list.contents, i), elem, h.fin);
  }

  /** Finalize the members of the list, and count them. */
  method FinalizeList(rt: Runtime, list: LinkedList, ghost h: Heap<CcBox>)
    returns (hasFinalized: bool, size: nat, ghost steps: seq<Step<CcBox>>, ghost h': Heap<CcBox>)
    requires rt.Synced(h) && InPass(h) && h.finalizing && rt.nonRootList == list
    modifies rt, rt.pc, rt.config, h.kids.Keys, rt.metadatas
    ensures rt.Synced(h') && FinalizedSome(h, h.list, hasFinalized, rt.silent, h') && size == |list.contents|
    ensures FlaggedRun(h, steps, h', true) && CalledSince(old(rt.log.calls), rt.log.calls, h.list - h.fin)
    ensures Logged(old(rt.log), steps, rt.log) && (hasFinalized <==> rt.log.calls != old(rt.log.calls))
    ensures AllSilent(h.list - h.fin, rt.silent) ==> rt.ByCode() == old(rt.ByCode())
    ensures rt.nonRootList == old(rt.nonRootList) && rt.Counts() == old(rt.Counts())
    ensures (forall c | c in h'.kids :: c in h.kids || fresh(c)) && fresh(rt.metadatas - old(rt.metadatas))
  {
    hide Runtime.Synced, InPass, FinalizedSome, Lists.Members, Distinct, First, LinkedList.Valid, Then;
    hide FlaggedRun, CalledSince, Heap.Valid, Elements, PossibleCycles.Valid, Logged, AllSilent, Runtime.ByCode;
    hide Marked, Heap.Unfinalized, Runtime.Counts;
    hasFinalized, size, steps, h' := false, 0, [], h;
    NothingFlagged(h, true);
    NothingCalled(rt.log.calls);
    NothingLogged(rt.log);
    NoneFinalized(h, rt.silent);
    ListOf(rt, list, h, 0);
    FirstGrows(list.contents, list.boxes, 0);
    assert First(list.contents, 0) - h.fin == {};
    var it := list.first;
    while it != null
      invariant size <= |list.contents| && it == Nth(list.contents, size)
      invariant rt.Synced(h') && FinalizedSome(h, First(list.contents, size), hasFinalized, rt.silent, h')
      invariant rt.nonRootList == old(rt.nonRootList) && rt.Counts() == old(rt.Counts())
      invariant FlaggedRun(h, steps, h', true)
        && CalledSince(old(rt.log.calls), rt.log.calls, First(list.contents, size) - h.fin)
      invariant if hasFinalized then |rt.log.calls| > |old(rt.log.calls)| else rt.log.calls == old(rt.log.calls)
      invariant Logged(old(rt.log), steps, rt.log)
      invariant AllSilent(h.list - h.fin, rt.silent) ==> rt.ByCode() == old(rt.ByCode())
      invariant (forall c | c in h'.kids :: c in h.kids || fresh(c)) && fresh(rt.metadatas - old(rt.metadatas))
      decreases |list.contents| - size
    {
      var elem := it;
      SameList(h, First(list.contents, size), hasFinalized, rt.silent, h', list.contents[size]);
      ListOf(rt, list, h', size);
      it := elem.next;
      var f: bool;
      ghost var s: seq<Step<CcBox>>;
      ghost var m, log := h', rt.log;
      MemberIsSilent(h, rt.silent, list.contents, size);
      f, s, h' := FinalizeNext(rt, list, elem, size, h, hasFinalized, old(rt.log.calls), m);
      FlaggedRunsCompose(h, steps, m, s, h', true);
      LoggedThen(old(rt.log), steps, log, s, rt.log);
      steps := Then(steps, s);
      hasFinalized := f || hasFinalized;
      size := size + 1;
    }
  }

  lemma MemberIsSilent(h: Heap<CcBox>, silent: CcBox -> bool, s: seq<CcBox>, i: nat)
    requires Lists.Members(s, h.list) && i < |s|
    ensures AllSilent(h.list - h.fin, silent) ==> s[i] in h.fin || silent(s[i])
  {
    assert s[i] in h.list;
  }

  lemma SameList<T>(h: Heap<T>, done: set<T>, has: bool, silent: T -> bool, h': Heap<T>, b: T)
    requires FinalizedSome(h, done, has, silent, h')
    ensures h'.list == h.list
    ensures b in h.list - done && b in h'.fin ==> b in h.fin
  {
    hide Heap.Valid;
  }

  // ----- putting the list back --------------------------------------------------------------------------

  /** Put the members of the list back among the candidates. */
  method Requeue(rt: Runtime, list: LinkedList, size: nat, ghost h: Heap<CcBox>) returns (ghost h': Heap<CcBox>)
    requires rt.Synced(h) && rt.nonRootList == list && size == |list.contents|
    requires h.dropped !! h.list && h.list <= h.kids.Keys
    modifies rt`nonRootList, rt.pc, list, h.list`next, h.list`tracing, h.p`prev
    ensures h' == Requeued(h) && rt.Synced(h')
  {
    hide Runtime.Cells, Runtime.Blocks, Runtime.Memory, LinkedList.Valid, PossibleCycles.Valid;
    SwapAndMark(rt, list, size, h);
    rt.nonRootList := null;
    h' := Requeued(h);
  }

  method SwapAndMark(rt: Runtime, list: LinkedList, size: nat, ghost h: Heap<CcBox>)
    requires rt.Represented(h) && rt.pc.Valid() && list.Valid() && size == |list.contents|
    requires rt.pc.boxes == h.p && list.boxes == h.list && h.p !! h.list && h.dropped !! h.list
    modifies rt.pc, list, h.list`next, h.list`tracing, h.p`prev
    ensures rt.pc.Valid() && rt.pc.boxes == h.list + h.p && rt.Represented(Requeued(h))
  {
    hide LinkedList.Valid, PossibleCycles.Valid;
    SwapBack(rt.pc, list, size);
  }

  method SwapBack(pc: PossibleCycles, list: LinkedList, size: nat)
    requires pc.Valid() && list.Valid() && size == |list.contents| && pc.boxes !! list.boxes
    modifies pc, list, list.boxes`next, list.boxes`tracing, pc.boxes`prev
    ensures pc.Valid() && pc.contents == old(list.contents) + old(pc.contents)
    ensures pc.boxes == old(list.boxes) + old(pc.boxes)
    ensures forall b | b in old(list.boxes) :: b.tracing == TracingCell(PossibleCycles, 0)
  {
    var oldSize := pc.size;
    pc.SwapList(list, size);
    pc.MarkSelfAndAppend(PossibleCycles, list, oldSize);
  }

  // ----- deallocating the list --------------------------------------------------------------------------

  /** `CcBox::drop_inner` of a member of the list. */
  method DropInner(rt: Runtime, b: CcBox, ghost h: Heap<CcBox>, ghost done: set<CcBox>, ghost m: Heap<CcBox>)
    returns (ghost steps: seq<Step<CcBox>>, ghost h': Heap<CcBox>)
    requires rt.Synced(m) && DroppedSome(h, done, m) && b in h.list - done
    modifies rt, rt.pc, rt.config, h.kids.Keys, rt.metadatas
    ensures rt.Synced(h') && DroppedSome(h, done + {b}, h') && FlaggedRun(m, steps, h', m.finalizing)
    ensures rt.log == old(rt.log) && rt.nonRootList == old(rt.nonRootList) && rt.Counts() == old(rt.Counts())
    ensures Logged(rt.log, steps, rt.log) && rt.ByCode() == old(rt.ByCode())
    ensures fresh(rt.metadatas - old(rt.metadatas))
  {
    hide Runtime.Synced, DroppedSome, MayDropAll, DropsAll, FlaggedRun, Then, Logged, DroppedInOrder, HeapAfter;
    hide StepsOf, Uneventful;
    DropMember(h, done, m, b);
    SameKeys(h, done, m);
    assert NoFinalizers(MemberDestroyed(m, b)) && Hushed(MemberDestroyed(m, b), rt.silent);
    h' := SetDropped(rt, b, m);
    var fields: seq<CcBox>;
    fields, h' := TakeFields(rt, b, h');
    SyncedIgnoresPending(rt, h', m.pending + multiset(fields));
    h' := h'.(pending := m.pending + multiset(fields));
    ghost var s: seq<Step<CcBox>>, freed: seq<CcBox>, drops: seq<Dropped<CcBox>>;
    s, freed, drops, h' := DropFields(rt, fields, h');
    MemberDropped(h, done, m, b, rt.silent, s, freed, h');
    MemberLogged(b, s, rt.log);
    steps := Then(Then([Step.Detach(b)], [Step.Bury(b)]), s);
  }

  lemma MemberLogged<T>(b: T, s: seq<Step<T>>, log: Log<T>)
    requires Logged(log, s, log)
    ensures Logged(log, Then(Then([Detach(b)], [Bury(b)]), s), log)
  {
    hide Logged, Then;
    StepLogged(log, Detach(b));
    StepLogged(log, Bury(b));
    LoggedThen(log, [Detach(b)], log, [Bury(b)], log);
    LoggedThen(log, Then([Detach(b)], [Bury(b)]), log, s, log);
  }

  lemma SameKeys<T>(h: Heap<T>, done: set<T>, m: Heap<T>)
    requires DroppedSome(h, done, m)
    ensures m.kids.Keys == h.kids.Keys && m.list == h.list && m.phase.Deallocating? && m.finalizing == h.finalizing
    ensures m.collecting
  {}

  /** Drop the `i`-th member of the list. */
  method DropNext(rt: Runtime, elem: CcBox, ghost contents: seq<CcBox>, ghost i: nat, ghost h: Heap<CcBox>,
    ghost m: Heap<CcBox>)
    returns (ghost steps: seq<Step<CcBox>>, ghost h': Heap<CcBox>)
    requires rt.Synced(m) && Lists.Members(contents, h.list) && Distinct(contents)
    requires i < |contents| && elem == contents[i] && DroppedSome(h, First(contents, i), m)
    modifies rt, rt.pc, rt.config, h.kids.Keys, rt.metadatas
    ensures rt.Synced(h') && DroppedSome(h, First(contents, i + 1), h') && FlaggedRun(m, steps, h', h.finalizing)
    ensures rt.log == old(rt.log) && rt.nonRootList == old(rt.nonRootList) && rt.Counts() == old(rt.Counts())
    ensures Logged(rt.log, steps, rt.log) && rt.ByCode() == old(rt.ByCode())
    ensures fresh(rt.metadatas - old(rt.metadatas))
  {
    hide Runtime.Synced, DroppedSome, Lists.Members, Distinct, First, FlaggedRun, Logged;
    SameKeys(h, First(contents, i), m);
    FirstGrows(contents, h.list, i);
    steps, h' := DropInner(rt, elem, h, First(contents, i), m);
  }

  /** Drop every member of the list. */
  method DropMembers(rt: Runtime, list: LinkedList, ghost h: Heap<CcBox>)
    returns (ghost steps: seq<Step<CcBox>>, ghost h': Heap<CcBox>)
    requires rt.Synced(h) && DroppedSome(h, {}, h) && rt.nonRootList == list
    modifies rt, rt.pc, rt.config, h.kids.Keys, rt.metadatas
    ensures rt.Synced(h') && DroppedSome(h, h.list, h') && FlaggedRun(h, steps, h', h.finalizing)
    ensures rt.log == old(rt.log) && rt.nonRootList == old(rt.nonRootList) && rt.Counts() == old(rt.Counts())
    ensures Logged(rt.log, steps, rt.log) && rt.ByCode() == old(rt.ByCode())
    ensures fresh(rt.metadatas - old(rt.metadatas))
  {
    hide Runtime.Synced, DroppedSome, Lists.Members, Distinct, First, LinkedList.Valid, Then;
    hide FlaggedRun, Logged;
    steps, h' := [], h;
    NothingFlagged(h, h.finalizing);
    NothingLogged(rt.log);
    ghost var i := 0;
    ListOf(rt, list, h, 0);
    FirstGrows(list.contents, list.boxes, 0);
    var it := list.first;
    while it != null
      invariant 0 <= i <= |list.contents| && it == Nth(list.contents, i)
      invariant rt.Synced(h') && DroppedSome(h, First(list.contents, i), h') && FlaggedRun(h, steps, h', h.finalizing)
      invariant rt.log == old(rt.log) && rt.nonRootList == old(rt.nonRootList) && rt.Counts() == old(rt.Counts())
      invariant Logged(rt.log, steps, rt.log) && rt.ByCode() == old(rt.ByCode())
      invariant fresh(rt.metadatas - old(rt.metadatas))
      decreases |list.contents| - i
    {
      var elem := it;
      SameKeys(h, First(list.contents, i), h');
      ListOf(rt, list, h', i);
      it := elem.next;
      ghost var s: seq<Step<CcBox>>;
      ghost var m := h';
      s, h' := DropNext(rt, elem, list.contents, i, h, m);
      FlaggedRunsCompose(h, steps, m, s, h', h.finalizing);
      LoggedThen(rt.log, steps, rt.log, s, rt.log);
      steps := Then(steps, s);
      i := i + 1;
    }
  }

  /** Free one member. */
  method FreeNext(rt: Runtime, elem: CcBox, ghost h: Heap<CcBox>, ghost m: Heap<CcBox>)
    returns (ghost steps: seq<Step<CcBox>>, ghost h': Heap<CcBox>)
    requires rt.SyncedWith(m, {}) && FreedSome(h, m) && elem in m.list
    modifies rt`allocatedBytes, rt`values, rt`blocks, rt.metadatas`weak
    ensures rt.SyncedWith(h', {}) && FreedSome(h, h') && h'.list == m.list - {elem}
    ensures FlaggedRun(m, steps, h', h.finalizing) && Logged(rt.log, steps, rt.log)
    ensures forall c | c in rt.blocks :: c in old(rt.blocks) && rt.blocks[c] == old(rt.blocks)[c]
  {
    hide Runtime.SyncedWith, FreedSome, Freed, FlaggedRun;
    FreeMember(h, m, elem);
    steps := [Step.Free(elem)];
    StepLogged(rt.log, Step.Free(elem));
    h' := FreeBox(rt, elem, m, {});
  }

  /** Free every member of the list.  The links are left as they are. */
  method FreeMembers(rt: Runtime, list: LinkedList, ghost h: Heap<CcBox>)
    returns (ghost steps: seq<Step<CcBox>>, ghost h': Heap<CcBox>)
    requires rt.Synced(h) && FreedSome(h, h) && rt.nonRootList == list
    modifies rt`nonRootList, rt`allocatedBytes, rt`values, rt`blocks, rt.metadatas`weak
    ensures rt.Synced(h') && FreedSome(h, h') && h'.list == {} && FlaggedRun(h, steps, h', h.finalizing)
    ensures Logged(rt.log, steps, rt.log)
  {
    hide Runtime.SyncedWith, FreedSome, Lists.Members, Distinct, First, LinkedList.Valid, Freed, Then, FlaggedRun;
    hide Logged;
    steps, h' := [], h;
    NothingFlagged(h, h.finalizing);
    NothingLogged(rt.log);
    ghost var i := 0;
    ListOf(rt, list, h, 0);
    FirstGrows(list.contents, list.boxes, 0);
    LinksOf(rt, list, h);
    ForgetList(rt, h);
    var it := list.first;
    while it != null
      invariant 0 <= i <= |list.contents| && it == Nth(list.contents, i)
      invariant rt.SyncedWith(h', {}) && FlaggedRun(h, steps, h', h.finalizing) && Logged(rt.log, steps, rt.log)
      invariant FreedSome(h, h') && h'.list == h.list - First(list.contents, i)
      decreases |list.contents| - i
    {
      var elem := it;
      FirstGrows(list.contents, list.boxes, i);
      it := elem.next;
      ghost var m, s := h', steps;
      s, h' := FreeNext(rt, elem, h, m);
      FlaggedRunsCompose(h, steps, m, s, h', h.finalizing);
      LoggedThen(rt.log, steps, rt.log, s, rt.log);
      steps := Then(steps, s);
      i := i + 1;
    }
    assert h'.list == {};
  }

  lemma LinksOf(rt: Runtime, list: LinkedList, h: Heap<CcBox>)
    requires rt.Synced(h) && rt.nonRootList == list
    ensures Chained(list.contents)
  {}

  /** The list is not looked after any more. */
  method ForgetList(rt: Runtime, ghost h: Heap<CcBox>)
    requires rt.Synced(h)
    modifies rt`nonRootList
    ensures rt.SyncedWith(h, {}) && rt.nonRootList == null
  {
    hide Runtime.Cells, Runtime.Blocks, Runtime.Memory, PossibleCycles.Valid;
    rt.nonRootList := null;
  }

  /** `deallocate_list` */
  method DeallocateList(rt: Runtime, list: LinkedList, ghost h: Heap<CcBox>)
    returns (ghost steps: seq<Step<CcBox>>, ghost h': Heap<CcBox>)
    requires rt.Synced(h) && InPass(h) && h.list <= h.fin && rt.nonRootList == list
    modifies rt, rt.pc, rt.config, h.kids.Keys, rt.metadatas
    ensures rt.Synced(h') && Deallocated(h, h') && h'.kids.Keys <= h.kids.Keys && FlaggedRun(h, steps, h', h.finalizing)
    ensures rt.log == old(rt.log) && rt.Counts() == old(rt.Counts())
    ensures Logged(rt.log, steps, rt.log) && rt.ByCode() == old(rt.ByCode())
    ensures fresh(rt.metadatas - old(rt.metadatas))
  {
    hide Runtime.Synced, InPass, MayDealloc, DroppedSome, FreedSome, Deallocated, FlaggedRun, Then, StartSteps;
    hide EndSteps, Logged;
    StartsDealloc(h);
    var guard: bool;
    guard, h' := SetDropping(rt, true, h);
    SyncedIgnoresPhase(rt, h', Deallocating(h'.pending));
    ghost var start, s, m, t, k := Condemning(h'), [], h', [], h';
    s, m := DropMembers(rt, list, start);
    AllDropped(start, m);
    t, k := FreeMembers(rt, list, m);
    Deallocates(h, m, k);
    steps := Then(Then(Then(StartSteps(h), s), t), EndSteps(h));
    GroupLogged(h, s, t, rt.log);
    FlaggedRunsCompose(h, StartSteps(h), start, s, m, h.finalizing);
    FlaggedRunsCompose(h, Then(StartSteps(h), s), m, t, k, h.finalizing);
    FlaggedRunsCompose(h, Then(Then(StartSteps(h), s), t), k, EndSteps(h), Ended(k.(dropping := h.dropping)),
      h.finalizing);
    h' := k;
    guard, h' := SetDropping(rt, guard, h');
    SyncedIgnoresPhase(rt, h', Idle);
    h' := Ended(h');
  }

  lemma GroupLogged<T>(h: Heap<T>, s: seq<Step<T>>, t: seq<Step<T>>, log: Log<T>)
    requires Logged(log, s, log) && Logged(log, t, log)
    ensures Logged(log, Then(Then(Then(StartSteps(h), s), t), EndSteps(h)), log)
  {
    hide Logged, Then;
    StepLogged(log, SetFlags(h.collecting, h.finalizing, true));
    StepLogged(log, StartDealloc);
    StepLogged(log, EndPass);
    StepLogged(log, SetFlags(h.collecting, h.finalizing, h.dropping));
    LoggedThen(log, [SetFlags(h.collecting, h.finalizing, true)], log, [StartDealloc], log);
    LoggedThen(log, StartSteps(h), log, s, log);
    LoggedThen(log, Then(StartSteps(h), s), log, t, log);
    LoggedThen(log, [EndPass], log, [SetFlags(h.collecting, h.finalizing, h.dropping)], log);
    LoggedThen(log, Then(Then(StartSteps(h), s), t), log, EndSteps(h), log);
  }

  // ----- passes -----------------------------------------------------------------------------------------

  lemma FirstOf(rt: Runtime, list: LinkedList, h: Heap<CcBox>)
    requires rt.Synced(h) && rt.nonRootList == list
    ensures list.first == null <==> h.list == {}
  {
    ListOf(rt, list, h, 0);
    FirstGrows(list.contents, list.boxes, 0);
    if list.contents != [] { ListOf(rt, list, h, 0); }
  }

  /** Finalize the members of the list, with the flag set. */
  method FinalizeGarbage(rt: Runtime, list: LinkedList, ghost h: Heap<CcBox>)
    returns (hasFinalized: bool, size: nat, ghost steps: seq<Step<CcBox>>, ghost m: Heap<CcBox>)
    requires rt.Synced(h) && InPass(h.(finalizing := true)) && rt.nonRootList == list
    requires FlaggedRun(h, [SetFlags(h.collecting, true, h.dropping)], h.(finalizing := true), h.finalizing)
    modifies rt, rt.pc, rt.config, h.kids.Keys, rt.metadatas
    ensures rt.Synced(m.(finalizing := h.finalizing)) && size == |list.contents|
    ensures FinalizedSome(h.(finalizing := true), h.list, hasFinalized, rt.silent, m)
    ensures FlaggedRun(h, steps, m.(finalizing := h.finalizing), h.finalizing) && Logged(old(rt.log), steps, rt.log)
    ensures CalledSince(old(rt.log.calls), rt.log.calls, h.list - h.fin)
    ensures hasFinalized <==> rt.log.calls != old(rt.log.calls)
    ensures AllSilent(h.list - h.fin, rt.silent) ==> rt.ByCode() == old(rt.ByCode())
    ensures rt.nonRootList == old(rt.nonRootList) && rt.Counts() == old(rt.Counts())
    ensures (forall c | c in m.kids :: c in h.kids || fresh(c)) && fresh(rt.metadatas - old(rt.metadatas))
  {
    hide Runtime.Synced, InPass, FinalizedSome, LinkedList.Valid, Heap.Valid, FlaggedRun, Then, CalledSince, Logged;
    var guard: bool;
    ghost var s: seq<Step<CcBox>>, start: Heap<CcBox>, h': Heap<CcBox>;
    guard, start := SetFinalizing(rt, true, h);
    hasFinalized, size, s, m := FinalizeList(rt, list, start);
    NotDeallocating(start);
    StopsFinalizing(start, h.list, hasFinalized, rt.silent, m, h.finalizing);
    guard, h' := SetFinalizing(rt, guard, m);
    FlaggedWeakens(start, s, m, h.finalizing);
    FlaggedRunsCompose(h, [SetFlags(h.collecting, true, h.dropping)], start, s, m, h.finalizing);
    steps := Then([SetFlags(h.collecting, true, h.dropping)], s);
    FlaggedRunsCompose(h, steps, m, [SetFlags(m.collecting, h.finalizing, m.dropping)], h', h.finalizing);
    steps := Then(steps, [SetFlags(m.collecting, h.finalizing, m.dropping)]);
    GuardedLogged(SetFlags(h.collecting, true, h.dropping), s, SetFlags(m.collecting, h.finalizing, m.dropping),
      old(rt.log), rt.log);
  }

  /** What guards do is not the program's. */
  lemma GuardedLogged<T>(start: Step<T>, s: seq<Step<T>>, end: Step<T>, before: Log<T>, after: Log<T>)
    requires start.SetFlags? && end.SetFlags? && Logged(before, s, after)
    ensures Logged(before, Then(Then([start], s), [end]), after)
  {
    hide Logged, Then;
    StepLogged(before, start);
    StepLogged(after, end);
    LoggedThen(before, [start], before, s, after);
    LoggedThen(before, Then([start], s), after, [end], after);
  }

  lemma FlaggedWeakens<T>(h: Heap<T>, steps: seq<Step<T>>, h': Heap<T>, f: bool)
    requires FlaggedRun(h, steps, h', true)
    ensures FlaggedRun(h, steps, h', f)
  {
    FlaggedRunWeakens(h, steps, h', Guards(true, false), f);
  }

  /** The members of the list are put back if there was something to finalize, and deallocated otherwise. */
  method FreeOrRequeue(rt: Runtime, list: LinkedList, hasFinalized: bool, size: nat, ghost h: Heap<CcBox>,
                       ghost m: Heap<CcBox>)
    returns (ghost steps: seq<Step<CcBox>>, ghost h': Heap<CcBox>)
    requires MayBegin(h) && h.Typed() && Begun(h).list != {} && rt.Synced(m.(finalizing := h.finalizing))
    requires FinalizedSome(Begun(h).(finalizing := true), Begun(h).list, hasFinalized, rt.silent, m)
    requires rt.nonRootList == list && size == |list.contents|
    modifies rt, rt.pc, rt.config, list, m.kids.Keys, rt.metadatas
    ensures rt.Synced(h') && Passed(h, rt.silent, h')
    ensures FlaggedRun(m.(finalizing := h.finalizing), steps, h', h.finalizing)
    ensures if hasFinalized then h'.Unfinalized() < h.Unfinalized() else GarbageFreed(h, h')
    ensures rt.log == old(rt.log) && Logged(rt.log, steps, rt.log) && rt.ByCode() == old(rt.ByCode())
    ensures rt.Counts() == old(rt.Counts())
    ensures h'.kids.Keys <= m.kids.Keys && fresh(rt.metadatas - old(rt.metadatas))
  {
    hide Runtime.Synced, InPass, FinalizedSome, Deallocated, Passed, LinkedList.Valid, Collectable, Heap.Valid;
    hide MayBegin, FlaggedRun, Then, GarbageFreed, Heap.Unfinalized, Logged;
    ghost var k := m.(finalizing := h.finalizing);
    if !hasFinalized {
      NothingToFinalize(h, rt.silent, m);
      steps, h' := DeallocateList(rt, list, k);
      DeallocatingPass(h, rt.silent, h');
    } else {
      FinalizingPass(h, rt.silent, m);
      steps := [Step.Requeue];
      StepLogged(rt.log, Step.Requeue);
      h' := Requeue(rt, list, size, k);
    }
  }

  /** The rest of `__collect` after tracing, when garbage has been found: finalize the boxes in the list,
      and put them back if there was something to finalize, deallocate them otherwise. */
  method PassWithGarbage(rt: Runtime, list: LinkedList, ghost h: Heap<CcBox>)
    returns (ghost steps: seq<Step<CcBox>>, ghost h': Heap<CcBox>)
    requires MayBegin(h) && h.Typed() && rt.Synced(Begun(h)) && Begun(h).list != {} && rt.nonRootList == list
    modifies rt, rt.pc, rt.config, list, h.kids.Keys, rt.metadatas
    ensures rt.Synced(h') && Passed(h, rt.silent, h') && FlaggedRun(Begun(h), steps, h', h.finalizing)
    ensures if rt.log.calls == old(rt.log.calls) then GarbageFreed(h, h') else h'.Unfinalized() < h.Unfinalized()
    ensures CalledSince(old(rt.log.calls), rt.log.calls, Begun(h).list - h.fin) && Logged(old(rt.log), steps, rt.log)
    ensures AllSilent(Begun(h).list - h.fin, rt.silent) ==> rt.ByCode() == old(rt.ByCode())
    ensures rt.Counts() == old(rt.Counts())
    ensures (forall c | c in h'.kids :: c in h.kids || fresh(c)) && fresh(rt.metadatas - old(rt.metadatas))
  {
    hide Runtime.Synced, InPass, FinalizedSome, Passed, LinkedList.Valid, Collectable, Heap.Valid;
    hide MayBegin;
    hide FlaggedRun, Then, CalledSince, GarbageFreed, Heap.Unfinalized, Logged, AllSilent;
    StartsFinalizing(h);
    var hasFinalized: bool, size: nat;
    ghost var m: Heap<CcBox>, s: seq<Step<CcBox>>;
    hasFinalized, size, steps, m := FinalizeGarbage(rt, list, Begun(h));
    ghost var log := rt.log;
    s, h' := FreeOrRequeue(rt, list, hasFinalized, size, h, m);
    FlaggedRunsCompose(Begun(h), steps, m.(finalizing := h.finalizing), s, h', h.finalizing);
    LoggedThen(old(rt.log), steps, log, s, rt.log);
    steps := Then(steps, s);
  }

  /** `__collect`.  Returns false if a `trace` panicked. */
  method Pass(rt: Runtime, ghost h: Heap<CcBox>)
    returns (ok: bool, ghost steps: seq<Step<CcBox>>, ghost h': Heap<CcBox>)
    requires rt.Synced(h) && MayBegin(h)
    modifies rt, rt.pc, rt.config, h.kids.Keys, rt.metadatas
    ensures ok ==> rt.Synced(h') && Passed(h, rt.silent, h') && FlaggedRun(h, steps, h', h.finalizing)
    ensures ok ==>
      if rt.log.calls == old(rt.log.calls) then GarbageFreed(h, h') else h'.Unfinalized() < h.Unfinalized()
    ensures ok ==> CalledSince(old(rt.log.calls), rt.log.calls, h.Garbage() - h.fin)
    ensures rt.panics == old(rt.panics) + (if ok then 0 else 1) && (!ok ==> rt.tracePanics)
    ensures Logged(old(rt.log), steps, rt.log)
    ensures AllSilent(h.Garbage() - h.fin, rt.silent) ==> rt.ByCode() == old(rt.ByCode())
    ensures rt.passes == old(rt.passes) + 1 && rt.executions == old(rt.executions)
    ensures !ok ==> h' == h && steps == [] && Unwound(rt, h)
    ensures (forall c | c in h'.kids :: c in h.kids || fresh(c)) && fresh(rt.metadatas - old(rt.metadatas))
  {
    hide Runtime.Synced, InPass, Passed, Unwound, LinkedList.Valid, Begun, MayBegin, Heap.Valid, Heap.Live;
    hide Heap.Reachable, Heap.Garbage, Logged;
    hide FlaggedRun, Then, GarbageFreed, Heap.Unfinalized;
    NothingLogged(rt.log);
    PassLogged(rt.log, [], rt.log);
    rt.passes := rt.passes + 1;
    var list: LinkedList;
    steps, h' := [], h;
    ghost var extra: multiset<CcBox>;
    ok, list, extra := TracePass(rt, h);
    if !ok {
      return;
    }
    BeginsPass(h);
    h' := Begun(h);
    FirstOf(rt, list, h');
    if list.first == null {
      EmptyPass(h, rt.silent);
      SyncedIgnoresPhase(rt, h', Idle);
      steps, h' := Then([BeginPass], [EndPass]), Ended(h');
    } else {
      ghost var s: seq<Step<CcBox>>;
      s, h' := PassWithGarbage(rt, list, h);
      FlaggedRunsCompose(h, [BeginPass], Begun(h), s, h', h.finalizing);
      PassLogged(old(rt.log), s, rt.log);
      steps := Then([BeginPass], s);
    }
  }

  /** The steps of the collector itself call nothing. */
  lemma PassLogged<T>(before: Log<T>, s: seq<Step<T>>, after: Log<T>)
    requires Logged(before, s, after)
    ensures Logged(before, Then([BeginPass], s), after) && Logged(before, Then([BeginPass], [EndPass]), before)
  {
    hide Logged, Then;
    StepLogged(before, BeginPass);
    StepLogged(before, EndPass);
    LoggedThen(before, [BeginPass], before, [EndPass], before);
    LoggedThen(before, [BeginPass], before, s, after);
  }

  lemma CallsGrew<T>(before: seq<T>, after: seq<T>)
    requires before <= after
    ensures |before| <= |after| && (|before| == |after| <==> before == after)
  {}

  /** One of the passes of a collection. */
  method NextPass(rt: Runtime, ghost h: Heap<CcBox>, ghost k: nat, ghost c: nat, ghost m: Heap<CcBox>)
    returns (ok: bool, ghost steps: seq<Step<CcBox>>, ghost m': Heap<CcBox>)
    requires rt.Synced(m) && PassesLeft(h, k, c, rt.silent, m) && rt.pc.first != null
    modifies rt, rt.pc, rt.config, m.kids.Keys, rt.metadatas
    ensures old(rt.log.calls) <= rt.log.calls && Logged(old(rt.log), steps, rt.log)
    ensures rt.panics == old(rt.panics) + (if ok then 0 else 1) && (!ok ==> rt.tracePanics)
    ensures ok ==> FlaggedRun(m, steps, m', m.finalizing)
    ensures ok ==> rt.Synced(m') && PassesLeft(h, k + 1, c + |rt.log.calls| - |old(rt.log.calls)|, rt.silent, m')
    ensures rt.passes == old(rt.passes) + 1 && rt.executions == old(rt.executions)
    ensures !ok ==> m' == m && steps == [] && Unwound(rt, m)
    ensures ok && h.Unfinalized() == {} ==> rt.log.calls == old(rt.log.calls)
    ensures AllSilent(h.Garbage() - h.fin, rt.silent) ==> rt.ByCode() == old(rt.ByCode())
    ensures (forall b | b in m'.kids :: b in m.kids || fresh(b)) && fresh(rt.metadatas - old(rt.metadatas))
  {
    hide Runtime.Synced, Passed, PassesLeft, MayBegin, Unwound, PossibleCycles.Valid, FlaggedRun;
    hide GarbageFreed, Heap.Live, Heap.Reachable, Heap.Unfinalized, Heap.Valid, Heap.Garbage, Logged, AllSilent;
    CandidatesOf(rt, m);
    MayPass(h, k, c, rt.silent, m);
    ok, steps, m' := Pass(rt, m);
    LogGrows(old(rt.log), steps, rt.log);
    if ok {
      CallsGrew(old(rt.log.calls), rt.log.calls);
      AfterPass(h, k, c, rt.silent, m, c + |rt.log.calls| - |old(rt.log.calls)|, m');
    }
  }

  /** The passes of a collection: at most 10, and fewer only if P becomes empty or a `trace` panics. */
  method Passes(rt: Runtime, ghost h: Heap<CcBox>)
    returns (ok: bool, ghost steps: seq<Step<CcBox>>, ghost h': Heap<CcBox>, ghost k: nat)
    requires rt.Synced(h) && MayBegin(h)
    modifies rt, rt.pc, rt.config, h.kids.Keys, rt.metadatas
    ensures FlaggedRun(h, steps, h', h.finalizing) && MayBegin(h') && SameCalls(h, h')
    ensures old(rt.log.calls) <= rt.log.calls && Logged(old(rt.log), steps, rt.log)
    ensures rt.panics == old(rt.panics) + (if ok then 0 else 1) && (!ok ==> rt.tracePanics)
    ensures ok ==> rt.Synced(h') && PassesLeft(h, k, |rt.log.calls| - |old(rt.log.calls)|, rt.silent, h')
    ensures ok ==> (k == 10 || h'.p == {}) && (AllSilent(h.Garbage() - h.fin, rt.silent) ==> k <= 3)
    ensures !ok ==> Unwound(rt, h')
    ensures ok && h.Unfinalized() == {} ==> rt.log.calls == old(rt.log.calls)
    ensures AllSilent(h.Garbage() - h.fin, rt.silent) ==> rt.ByCode() == old(rt.ByCode())
    ensures rt.passes == old(rt.passes) + k && k <= 10 && rt.executions == old(rt.executions)
    ensures (forall c | c in h'.kids :: c in h.kids || fresh(c)) && fresh(rt.metadatas - old(rt.metadatas))
  {
    hide Runtime.Synced, Heap.Valid, Passed, PassesLeft, MayBegin, Unwound, PossibleCycles.Valid;
    hide Heap.Live, Heap.Reachable, Heap.Unfinalized, FlaggedRun, Then, Heap.Garbage, Logged, AllSilent;
    StartsCollection(h, rt.silent);
    NothingFlagged(h, h.finalizing);
    NothingLogged(rt.log);
    ok, steps, h' := true, [], h;
    var i := 0;
    while i < 10 && ok && rt.pc.first != null
      invariant 0 <= i <= 10
      invariant FlaggedRun(h, steps, h', h.finalizing) && MayBegin(h') && SameCalls(h, h')
      invariant old(rt.log.calls) <= rt.log.calls && Logged(old(rt.log), steps, rt.log)
      invariant rt.panics == old(rt.panics) + (if ok then 0 else 1) && (!ok ==> rt.tracePanics)
      invariant ok ==> rt.Synced(h') && PassesLeft(h, i, |rt.log.calls| - |old(rt.log.calls)|, rt.silent, h')
      invariant !ok ==> Unwound(rt, h')
      invariant ok && h.Unfinalized() == {} ==> rt.log.calls == old(rt.log.calls)
      invariant AllSilent(h.Garbage() - h.fin, rt.silent) ==> rt.ByCode() == old(rt.ByCode())
      invariant rt.passes == old(rt.passes) + i && rt.executions == old(rt.executions)
      invariant (forall c | c in h'.kids :: c in h.kids || fresh(c)) && fresh(rt.metadatas - old(rt.metadatas))
      decreases 10 - i
    {
      ghost var m, log := h', rt.log;
      ghost var s: seq<Step<CcBox>>;
      ok, s, h' := NextPass(rt, h, i, |rt.log.calls| - |old(rt.log.calls)|, m);
      LoggedThen(old(rt.log), steps, log, s, rt.log);
      if ok {
        BetweenPasses(h, i + 1, |rt.log.calls| - |old(rt.log.calls)|, rt.silent, h');
        FlaggedRunsCompose(h, steps, m, s, h', h.finalizing);
        steps := Then(steps, s);
      } else {
        NothingThen(steps);
      }
      i := i + 1;
    }
    k := i;
    if ok {
      CandidatesOf(rt, h');
      QuietPasses(h, i, |rt.log.calls| - |old(rt.log.calls)|, rt.silent, h');
    }
  }

  lemma QuietPasses<T>(h: Heap<T>, k: nat, c: nat, silent: T -> bool, m: Heap<T>)
    requires PassesLeft(h, k, c, silent, m)
    ensures AllSilent(h.Garbage() - h.fin, silent) ==> k <= 3
  {}

  lemma NothingThen<T>(steps: seq<Step<T>>)
    ensures Then(steps, []) == steps
  {}

  lemma BetweenPasses<T>(h: Heap<T>, k: nat, c: nat, silent: T -> bool, m: Heap<T>)
    requires PassesLeft(h, k, c, silent, m)
    ensures MayBegin(m) && SameCalls(h, m)
  {}

  /** `collect`.  Returns false if a `trace` panicked. */
  method Collect(rt: Runtime, ghost h: Heap<CcBox>)
    returns (ok: bool, ghost steps: seq<Step<CcBox>>, ghost h': Heap<CcBox>)
    requires rt.Synced(h) && h.Valid() && !h.collecting
    modifies rt, rt.pc, rt.config, h.kids.Keys, rt.metadatas
    ensures Does(h, steps, h') && Returned(h, h') && h'.pending == h.pending
    ensures old(rt.log.calls) <= rt.log.calls && Logged(old(rt.log), steps, rt.log)
    ensures rt.panics == old(rt.panics) + (if ok then 0 else 1) && (!ok ==> rt.tracePanics)
    ensures ok ==> rt.Synced(h') && Collected(h, |rt.log.calls| - |old(rt.log.calls)|, rt.silent, h')
    ensures !ok ==> Unwound(rt, h')
    ensures ok && h.Unfinalized() == {} ==> rt.log.calls == old(rt.log.calls)
    ensures AllSilent(h.Garbage() - h.fin, rt.silent) ==> rt.ByCode() == old(rt.ByCode())
    ensures rt.passes <= old(rt.passes) + 10 && (ok && h'.p != {} ==> rt.passes == old(rt.passes) + 10)
    ensures ok && AllSilent(h.Garbage() - h.fin, rt.silent) ==> rt.passes <= old(rt.passes) + 3
    ensures rt.executions == old(rt.executions) + 1
    ensures (forall c | c in h'.kids :: c in h.kids || fresh(c)) && fresh(rt.metadatas - old(rt.metadatas))
  {
    hide Runtime.Synced, Heap.Valid, Passed, PassesLeft, MayBegin, Collected, Unwound, PossibleCycles.Valid;
    hide Heap.Live, Heap.Reachable, Heap.Unfinalized, FlaggedRun, Then, Does, Heap.Garbage, Logged, AllSilent;
    StartsCollecting(h);
    SameSets(h);
    ghost var start, m := h.(collecting := true), h;
    ghost var k: nat, s: seq<Step<CcBox>>;
    h' := SetCollecting(rt, true, h);
    rt.executions := rt.executions + 1;
    ok, s, m, k := Passes(rt, start);
    StopsCollecting(m);
    StoppedReturns(h, m);
    FlaggedRunsCompose(h, [SetFlags(true, h.finalizing, h.dropping)], start, s, m, h.finalizing);
    steps := Then([SetFlags(true, h.finalizing, h.dropping)], s);
    FlaggedRunsCompose(h, steps, m, [SetFlags(false, m.finalizing, m.dropping)], m.(collecting := false), h.finalizing);
    steps := Then(steps, [SetFlags(false, m.finalizing, m.dropping)]);
    GuardedLogged(SetFlags(true, h.finalizing, h.dropping), s, SetFlags(false, m.finalizing, m.dropping), old(rt.log),
      rt.log);
    if ok {
      EndsCollection(h, k, |rt.log.calls| - |old(rt.log.calls)|, rt.silent, m);
      h' := SetCollecting(rt, false, m);
    } else {
      h' := ResetCollecting(rt, m);
    }
    CollectionDoes(h, steps, h');
  }

  /** The guard of `collect` when a panic unwinds. */
  method ResetCollecting(rt: Runtime, ghost h: Heap<CcBox>) returns (ghost h': Heap<CcBox>)
    requires Unwound(rt, h)
    modifies rt`collecting
    ensures h' == h.(collecting := false) && Unwound(rt, h')
  {
    hide Runtime.Blocks, Runtime.Memory, PossibleCycles.Valid;
    rt.collecting := false;
    h' := h.(collecting := false);
  }

  lemma CandidatesOf(rt: Runtime, h: Heap<CcBox>)
    requires rt.Synced(h)
    ensures rt.pc.first == null <==> h.p == {}
  {
    if rt.pc.contents != [] {
      assert rt.pc.contents[0] in rt.pc.boxes;
    } else {
      assert forall b | b in rt.pc.boxes :: b in rt.pc.contents;
    }
  }

  // ----- collections that the program asks for or that start by themselves ------------------------------

  /** How a call ends that may collect: it returns, a `trace` panics, or the threshold is doubled for ever. */
  datatype Ending = Returns | TracePanics | NeverReturns

  /** `collect`, then `adjust_trigger_point`.  Finalizers may have changed the settings before. */
  method CollectAndAdjust(rt: Runtime, ghost h: Heap<CcBox>)
    returns (r: Ending, ghost steps: seq<Step<CcBox>>, ghost h': Heap<CcBox>)
    requires rt.Synced(h) && h.Valid() && !h.collecting
    modifies rt, rt.pc, rt.config, h.kids.Keys, rt.metadatas
    ensures Does(h, steps, h') && Returned(h, h') && h'.pending == h.pending
    ensures r.TracePanics? ==> Unwound(rt, h') && rt.tracePanics
    ensures rt.panics == old(rt.panics) + (if r.TracePanics? then 1 else 0)
    ensures old(rt.log.calls) <= rt.log.calls && Logged(old(rt.log), steps, rt.log)
    ensures !r.TracePanics? ==>
      rt.Synced(h') && Collected(h, |rt.log.calls| - |old(rt.log.calls)|, rt.silent, h')
    ensures r.Returns? ==> rt.config.AtRest(rt.allocatedBytes)
    ensures r.NeverReturns? <==> !r.TracePanics? && rt.allocatedBytes >= Threshold(MAX_DOUBLINGS)
    ensures !r.TracePanics? && h.Unfinalized() == {} ==> rt.log.calls == old(rt.log.calls)
    ensures AllSilent(h.Garbage() - h.fin, rt.silent) && r.Returns? ==>
      AdjustedTo(old(rt.config.Current()), rt.allocatedBytes, rt.config.Current())
    ensures rt.executions == old(rt.executions) + 1
    ensures (forall c | c in h'.kids :: c in h.kids || fresh(c)) && fresh(rt.metadatas - old(rt.metadatas))
  {
    hide Runtime.Synced, Heap.Valid, Collected, Unwound, Does, Returned, Heap.Unfinalized, Adjusted, Fits;
    hide Logged, AllSilent, Heap.Garbage, Config.AtRest, AdjustedTo;
    var ok: bool, ends: bool;
    ok, steps, h' := Collect(rt, h);
    r := TracePanics;
    if ok {
      ends := AdjustTriggerPoint(rt, h');
      r := if ends then Returns else NeverReturns;
    }
  }

  /** `adjust_trigger_point` */
  method AdjustTriggerPoint(rt: Runtime, ghost h: Heap<CcBox>) returns (ends: bool)
    requires rt.Synced(h)
    modifies rt.config
    ensures rt.Synced(h) && (ends <==> rt.allocatedBytes < Threshold(MAX_DOUBLINGS))
    ensures ends ==> rt.config.AtRest(rt.allocatedBytes)
    ensures ends ==> AdjustedTo(old(rt.config.Current()), rt.allocatedBytes, rt.config.Current())
  {
    hide Runtime.Cells, Runtime.Containers, Runtime.Blocks, Adjusted, Fits;
    ends := rt.config.Adjust(rt.allocatedBytes);
  }

  /** `collect_cycles` does nothing during a collection. */
  method CollectCycles(rt: Runtime, ghost h: Heap<CcBox>)
    returns (r: Ending, ghost steps: seq<Step<CcBox>>, ghost h': Heap<CcBox>)
    requires rt.Synced(h) && h.Valid()
    modifies rt, rt.pc, rt.config, h.kids.Keys, rt.metadatas
    ensures Does(h, steps, h') && Returned(h, h') && h'.pending == h.pending
    ensures h.collecting ==> r.Returns? && h' == h && rt.Synced(h) && rt.log == old(rt.log)
    ensures h.collecting ==> rt.ByCode() == old(rt.ByCode())
    ensures h.collecting ==>
      rt.nonRootList == old(rt.nonRootList) && rt.Counts() == old(rt.Counts())
    ensures if r.TracePanics? then Unwound(rt, h') && rt.tracePanics else rt.Synced(h')
    ensures rt.panics == old(rt.panics) + (if r.TracePanics? then 1 else 0)
    ensures old(rt.log.calls) <= rt.log.calls && Logged(old(rt.log), steps, rt.log)
    ensures !h.collecting && !r.TracePanics? ==>
      Collected(h, |rt.log.calls| - |old(rt.log.calls)|, rt.silent, h')
    ensures !h.collecting && r.Returns? ==> rt.config.AtRest(rt.allocatedBytes)
    ensures !h.collecting && r.Returns? && AllSilent(h.Garbage() - h.fin, rt.silent) ==>
      AdjustedTo(old(rt.config.Current()), rt.allocatedBytes, rt.config.Current())
    ensures r.NeverReturns? <==> !h.collecting && !r.TracePanics? && rt.allocatedBytes >= Threshold(MAX_DOUBLINGS)
    ensures !h.collecting ==> rt.executions == old(rt.executions) + 1
    ensures !r.TracePanics? && h.Unfinalized() == {} ==> rt.log.calls == old(rt.log.calls)
    ensures (forall c | c in h'.kids :: c in h.kids || fresh(c)) && fresh(rt.metadatas - old(rt.metadatas))
  {
    hide Runtime.SyncedWith, Heap.Valid, Collected, Unwound, Does, Heap.Unfinalized, Logged, AllSilent, Heap.Garbage;
    hide Config.AtRest, AdjustedTo;
    FlagsOf(rt, h);
    if rt.collecting {
      DoesNothing(h);
      NothingLogged(rt.log);
      r, steps, h' := Returns, [], h;
    } else {
      r, steps, h' := CollectAndAdjust(rt, h);
    }
  }

  /** `trigger_collection` collects only if the configuration says so. */
  method TriggerCollection(rt: Runtime, ghost h: Heap<CcBox>)
    returns (r: Ending, ghost steps: seq<Step<CcBox>>, ghost h': Heap<CcBox>)
    requires rt.Synced(h) && h.Valid()
    modifies rt, rt.pc, rt.config, h.kids.Keys, rt.metadatas
    ensures Does(h, steps, h') && Returned(h, h') && h'.pending == h.pending
    ensures h.collecting || !old(rt.config.Due(rt.allocatedBytes, |h.p|)) ==>
      r.Returns? && h' == h && rt.Synced(h) && rt.log == old(rt.log) && rt.ByCode() == old(rt.ByCode())
    ensures h.collecting || !old(rt.config.Due(rt.allocatedBytes, |h.p|)) ==>
      rt.nonRootList == old(rt.nonRootList) && rt.Counts() == old(rt.Counts())
    ensures if r.TracePanics? then Unwound(rt, h') && rt.tracePanics else rt.Synced(h')
    ensures rt.panics == old(rt.panics) + (if r.TracePanics? then 1 else 0)
    ensures old(rt.log.calls) <= rt.log.calls && Logged(old(rt.log), steps, rt.log)
    ensures !h.collecting && old(rt.config.Due(rt.allocatedBytes, |h.p|)) ==>
      && (!r.TracePanics? ==> Collected(h, |rt.log.calls| - |old(rt.log.calls)|, rt.silent, h'))
      && (r.Returns? ==> rt.config.AtRest(rt.allocatedBytes))
      && (r.Returns? && AllSilent(h.Garbage() - h.fin, rt.silent) ==>
            AdjustedTo(old(rt.config.Current()), rt.allocatedBytes, rt.config.Current()))
      && rt.executions == old(rt.executions) + 1
    ensures !r.TracePanics? && h.Unfinalized() == {} ==> rt.log.calls == old(rt.log.calls)
    ensures (forall c | c in h'.kids :: c in h.kids || fresh(c)) && fresh(rt.metadatas - old(rt.metadatas))
  {
    hide Runtime.SyncedWith, Heap.Valid, Collected, Unwound, Does, Heap.Unfinalized, Logged, AllSilent, Heap.Garbage;
    hide Config.AtRest, AdjustedTo;
    FlagsOf(rt, h);
    DoesNothing(h);
    NothingLogged(rt.log);
    r, steps, h' := Returns, [], h;
    if rt.collecting {
      return;
    }
    BufferedOf(rt, h);
    var due := rt.config.ShouldCollect(rt.allocatedBytes, rt.pc.size);
    if due {
      r, steps, h' := CollectAndAdjust(rt, h);
    }
  }

  lemma BufferedOf(rt: Runtime, h: Heap<CcBox>)
    requires rt.Synced(h)
    ensures rt.pc.size == |h.p|
  {
    SizeOf(rt.pc.contents, rt.pc.boxes);
  }

  lemma {:induction false} SizeOf(s: seq<CcBox>, boxes: set<CcBox>)
    requires Lists.Members(s, boxes) && Distinct(s)
    ensures |s| == |boxes|
    decreases |s|
  {
    if s == [] {
      NoMembers(s, boxes);
    } else {
      MembersRest(s, boxes);
      SizeOf(s[1..], boxes - {s[0]});
    }
  }
}

/** `Weak` pointers, and `Cc::new_cyclic`. */
module Weaks {
  import opened WeakTables
  import opened Heaps
  import opened HeapRuns
  import opened DropSteps
  import opened CollectSteps
  import opened Logs
  import opened CounterMarkers
  import opened Lists
  import Configs
  import opened Runtimes
  import opened Effects
  import opened Ccs
  import opened Collector
  import opened Pointers

  /** `Weak::new` makes a pointer without metadata. */
  datatype WeakPtr = Dangling | WeakPtr(metadata: BoxedMetadata, cc: CcBox)

  /** An existing weak pointer: its metadata is the block of its box. */
  ghost predicate Points(rt: Runtime, w: WeakPtr, h: Heap<CcBox>)
    reads rt`blocks
  {
    w.WeakPtr? ==> w.cc in h.w.weaks && w.cc in rt.blocks && rt.blocks[w.cc] == w.metadata
  }

  lemma BlockOf(rt: Runtime, b: CcBox, h: Heap<CcBox>)
    requires rt.Synced(h) && b in rt.blocks
    ensures b in h.w.blocks && rt.blocks[b].weak == h.w.blocks[b] && rt.blocks[b] in rt.metadatas
    ensures rt.weaks == h.w.weaks
    ensures b in h.kids ==> b.metadata == rt.blocks[b]
  {
    hide Runtime.Cells, Runtime.Containers, Runtime.Memory;
  }

  // ----- counting ---------------------------------------------------------------------------------------

  lemma MetadataOf(rt: Runtime, b: CcBox, h: Heap<CcBox>)
    requires rt.Synced(h) && b in h.kids
    ensures b.counter.metadata == (b in h.w.blocks) == (b in rt.blocks)
    ensures b.tracing.IsDropped() == (b in h.dropped)
  {
    hide Runtime.Containers, Runtime.Memory;
  }

  lemma AccessibleBlock<T>(h: Heap<T>, b: T)
    requires h.Valid() && b in h.w.blocks
    ensures h.w.blocks[b].accessible <==> b in h.kids
    ensures h.w.blocks[b].count == h.w.weaks[b] <= MAX_WEAK
  {}

  /** `Weak::strong_count`.  The box is read only if it is still allocated. */
  method StrongCount(rt: Runtime, w: WeakPtr, ghost h: Heap<CcBox>) returns (n: nat)
    requires rt.Synced(h) && h.Valid() && Points(rt, w, h)
    ensures w.WeakPtr? && h.CanUpgrade(w.cc) ==> n == h.rc[w.cc] > 0
    ensures !(w.WeakPtr? && h.CanUpgrade(w.cc)) ==> n == 0
  {
    hide Runtime.Synced, Heap.Valid;
    if w.Dangling? {
      return 0;
    }
    BlockOf(rt, w.cc, h);
    AccessibleBlock(h, w.cc);
    if !w.metadata.weak.accessible {
      return 0;
    }
    CellsOf(rt, h, w.cc);
    MetadataOf(rt, w.cc, h);
    FlagsOf(rt, h);
    n := w.cc.counter.rc;
    if n == 0 || w.cc.tracing.IsDropped() || (w.cc.tracing.IsInListOrQueue() && rt.dropping) {
      n := 0;
    }
  }

  /** `Weak::weak_count` */
  method WeakCount(rt: Runtime, w: WeakPtr, ghost h: Heap<CcBox>) returns (n: nat)
    requires rt.Synced(h) && h.Valid() && Points(rt, w, h)
    ensures n == if w.WeakPtr? then h.w.weaks[w.cc] else 0
  {
    hide Runtime.Synced, Heap.Valid;
    if w.Dangling? {
      return 0;
    }
    BlockOf(rt, w.cc, h);
    AccessibleBlock(h, w.cc);
    n := w.metadata.weak.count;
  }

  // ----- Weak::upgrade ----------------------------------------------------------------------------------

  datatype Upgraded = None | TooMany | Some(cc: CcBox)

  lemma Upgrades<T>(h: Heap<T>, b: T)
    requires h.Valid() && UserPhase(h) && b in h.w.weaks && h.CanUpgrade(b) && h.rc[b] < MAX
    ensures Does(h, Then([Upgrade(b)], [MarkAlive(b)]), AddReference(h, b).(p := h.p - {b}))
    ensures CallsNothing(Then([Upgrade(b)], [MarkAlive(b)]))
  {
    hide Then;
    AnotherCallsNothing(MarkAlive(b), []);
    AnotherCallsNothing(Upgrade(b), [MarkAlive(b)]);
    DoesStep(h, Upgrade(b));
    assert b in AddReference(h, b).Roots();
    MarksAlive(AddReference(h, b), b);
    DoesThen(h, [Upgrade(b)], AddReference(h, b), [MarkAlive(b)], AddReference(h, b).(p := h.p - {b}));
  }

  lemma UpgradeIsLive<T>(h: Heap<T>, b: T)
    requires h.Valid() && h.CanUpgrade(b)
    ensures b in h.Live() && b in h.kids && b in h.rc && h.rc[b] == h.References()[b]
  {}

  /** Members of the group that is being deallocated and boxes under construction cannot be upgraded; in a
      finalizing pass that was not started by a destructor, listed boxes with a `Cc` can. */
  lemma UpgradesByPhase<T>(h: Heap<T>, b: T)
    requires h.Valid() && b in h.w.blocks
    ensures b in h.building || (h.phase.Deallocating? && b in h.list) ==> !h.CanUpgrade(b)
    ensures h.phase.Finalizing? && !h.dropping && b in h.list ==> (h.CanUpgrade(b) <==> h.References()[b] > 0)
  {}

  /** `Weak::upgrade`.  It gives a `Cc` exactly to the boxes whose value is there to be used, and never to
      a member of the group that is being deallocated, whose destructors may try; the source panics if
      there are too many. */
  method UpgradeWeak(rt: Runtime, w: WeakPtr, ghost h: Heap<CcBox>)
    returns (r: Upgraded, ghost steps: seq<Step<CcBox>>, ghost h': Heap<CcBox>)
    requires rt.Synced(h) && h.Valid() && Points(rt, w, h)
    requires UserPhase(h) || (w.WeakPtr? ==> !h.CanUpgrade(w.cc))
    modifies rt`handles, rt.pc, h.kids.Keys
    ensures rt.Synced(h') && Does(h, steps, h') && CallsNothing(steps)
    ensures r.None? <==> w.Dangling? || !h.CanUpgrade(w.cc)
    ensures w.WeakPtr? && (w.cc in h.building || (h.phase.Deallocating? && w.cc in h.list)) ==> r.None?
    ensures w.WeakPtr? && h.phase.Finalizing? && !h.dropping && w.cc in h.list ==>
      (r.None? <==> h.References()[w.cc] == 0)
    ensures r.Some? ==> r.cc == w.cc && w.cc in h.Live() && h' == AddReference(h, w.cc).(p := h.p - {w.cc})
    ensures r.TooMany? ==> h.References()[w.cc] == MAX
    ensures !r.Some? ==> h' == h
  {
    hide Runtime.Synced, Heap.Valid, Heap.CanUpgrade, Heap.Live, Heap.References, Does;
    if w.WeakPtr? {
      BlockOf(rt, w.cc, h);
      UpgradesByPhase(h, w.cc);
    }
    var n := StrongCount(rt, w, h);
    DoesNothing(h);
    r, steps, h' := None, [], h;
    if n > 0 {
      var b := w.cc;
      UpgradeIsLive(h, b);
      CellsOf(rt, h, b);
      var ok: bool;
      ok, h' := IncrementCounter(rt, b, h);
      if ok {
        RcIsBounded(h, b);
        Upgrades(h, b);
        HandlesOf(rt, h');
        h' := SetHandles(rt, rt.handles + multiset{b}, h');
        h' := RemoveFromList(rt, b, h');
        r, steps := Some(b), Then([Upgrade(b)], [MarkAlive(b)]);
      } else {
        r := TooMany;
      }
    }
  }

  lemma RcIsBounded<T>(h: Heap<T>, b: T)
    requires h.Valid() && b in h.kids
    ensures b in h.rc && h.rc[b] <= MAX
  {}

  // ----- metadata ---------------------------------------------------------------------------------------

  ghost function WithBlock(h: Heap<CcBox>, b: CcBox, weaks: multiset<CcBox>, block: Block): Heap<CcBox> {
    h.(w := WeakTable(weaks, h.w.blocks[b := block]))
  }

  /** `get_or_init_metadata` */
  method GetOrInitMetadata(rt: Runtime, b: CcBox, ghost h: Heap<CcBox>)
    returns (metadata: BoxedMetadata, ghost h': Heap<CcBox>)
    requires rt.Synced(h) && b in h.kids
    modifies rt`blocks, rt`metadatas, b`metadata, b`counter
    ensures rt.Synced(h') && b in rt.blocks && rt.blocks[b] == metadata
    ensures h' == if b in h.w.blocks then h else WithBlock(h, b, h.w.weaks, Block(0, true))
    ensures fresh(rt.metadatas - old(rt.metadatas)) && old(rt.metadatas) <= rt.metadatas
  {
    hide Runtime.Synced;
    MetadataOf(rt, b, h);
    if b.counter.metadata {
      BlockOf(rt, b, h);
      metadata, h' := b.metadata, h;
    } else {
      metadata, h' := InitMetadata(rt, b, h);
    }
  }

  method InitMetadata(rt: Runtime, b: CcBox, ghost h: Heap<CcBox>)
    returns (metadata: BoxedMetadata, ghost h': Heap<CcBox>)
    requires rt.Synced(h) && b in h.kids && b !in h.w.blocks
    modifies rt`blocks, rt`metadatas, b`metadata, b`counter
    ensures rt.Synced(h') && b in rt.blocks && rt.blocks[b] == metadata && fresh(metadata)
    ensures h' == WithBlock(h, b, h.w.weaks, Block(0, true))
    ensures rt.metadatas == old(rt.metadatas) + {metadata}
  {
    hide Runtime.Cells, Runtime.Containers, Runtime.Memory, Runtime.Blocks;
    metadata := AllocMetadata(rt, b, h.kids.Keys, h.w);
    SetAllocatedForMetadata(rt, b, h);
    h' := WithBlock(h, b, h.w.weaks, Block(0, true));
    assert h'.w.blocks.Keys == h.w.blocks.Keys + {b};
  }

  method AllocMetadata(rt: Runtime, b: CcBox, ghost boxes: set<CcBox>, ghost w: WeakTable<CcBox>)
    returns (metadata: BoxedMetadata)
    requires rt.Blocks(boxes, w) && b in boxes && b !in w.blocks
    modifies rt`blocks, rt`metadatas, b`metadata
    ensures rt.Blocks(boxes, WeakTable(w.weaks, w.blocks[b := Block(0, true)]))
    ensures b in rt.blocks && rt.blocks[b] == metadata && fresh(metadata)
      && rt.metadatas == old(rt.metadatas) + {metadata}
  {
    metadata := new BoxedMetadata();
    b.metadata := metadata;
    rt.blocks := rt.blocks[b := metadata];
    rt.metadatas := rt.metadatas + {metadata};
  }

  method SetAllocatedForMetadata(rt: Runtime, b: CcBox, ghost h: Heap<CcBox>)
    requires rt.Represented(h) && b in h.kids
    modifies b`counter
    ensures Runtime.Cells(h.kids.Keys, h.rc, h.p, h.list, h.dropped, h.fin, h.w.blocks.Keys + {b})
  {
    b.counter := b.counter.(metadata := true);
  }

  /** There is a weak pointer more or less, and the counter says so. */
  method SetWeak(rt: Runtime, b: CcBox, metadata: BoxedMetadata, block: Block, weaks: multiset<CcBox>,
                 ghost h: Heap<CcBox>)
    returns (ghost h': Heap<CcBox>)
    requires rt.Synced(h) && b in rt.blocks && rt.blocks[b] == metadata
    modifies metadata`weak, rt`weaks
    ensures rt.Synced(h') && h' == WithBlock(h, b, weaks, block)
  {
    hide Runtime.Cells, Runtime.Containers, Runtime.Memory, Runtime.Blocks;
    BlockOf(rt, b, h);
    WriteWeak(rt, b, metadata, block, weaks, h.kids.Keys, h.w);
    h' := WithBlock(h, b, weaks, block);
    assert h'.w.blocks.Keys == h.w.blocks.Keys;
  }

  method WriteWeak(rt: Runtime, b: CcBox, metadata: BoxedMetadata, block: Block, weaks: multiset<CcBox>,
                   ghost boxes: set<CcBox>, ghost w: WeakTable<CcBox>)
    requires rt.Blocks(boxes, w) && b in w.blocks && b in rt.blocks && rt.blocks[b] == metadata
    modifies metadata`weak, rt`weaks
    ensures rt.Blocks(boxes, WeakTable(weaks, w.blocks[b := block]))
  {
    metadata.weak := block;
    rt.weaks := weaks;
  }

  // ----- Cc::downgrade ----------------------------------------------------------------------------------

  ghost function Downgraded(h: Heap<CcBox>, b: CcBox): Heap<CcBox> {
    WithBlock(h, b, h.w.weaks + multiset{b}, if b in h.w.blocks then h.w.blocks[b].Incremented() else Block(1, true))
  }

  lemma Downgrades(h: Heap<CcBox>, b: CcBox)
    requires h.Valid() && b in h.kids && h.w.weaks[b] < MAX_WEAK
    ensures Does(h, [Step.Weak(Downgrade(b))], Downgraded(h, b))
  {
    DoesStep(h, Step.Weak(Downgrade(b)));
  }

  /** `get_or_init_metadata`, then `increment_counter`. */
  method AddWeak(rt: Runtime, b: CcBox, ghost h: Heap<CcBox>)
    returns (ok: bool, metadata: BoxedMetadata, ghost h': Heap<CcBox>)
    requires rt.Synced(h) && h.Valid() && b in h.kids
    modifies rt`blocks, rt`metadatas, rt`weaks, b`metadata, b`counter, rt.metadatas`weak
    ensures rt.Synced(h') && (ok <==> h.w.weaks[b] < MAX_WEAK) && h' == if ok then Downgraded(h, b) else h
    ensures b in rt.blocks && rt.blocks[b] == metadata
    ensures fresh(rt.metadatas - old(rt.metadatas)) && old(rt.metadatas) <= rt.metadatas
  {
    hide Runtime.Synced, Heap.Valid, WithBlock, Downgraded;
    WeaksCounted(h, b);
    DowngradedBlock(h, b);
    metadata, h' := GetOrInitMetadata(rt, b, h);
    BlockOf(rt, b, h');
    ok := metadata.weak.count != MAX_WEAK;
    if ok {
      h' := SetWeak(rt, b, metadata, metadata.weak.Incremented(), rt.weaks + multiset{b}, h');
    }
  }

  /** Whether the block was there or has just been allocated, it is found and counted up. */
  lemma DowngradedBlock(h: Heap<CcBox>, b: CcBox)
    ensures var m := if b in h.w.blocks then h else WithBlock(h, b, h.w.weaks, Block(0, true));
      && m.w.weaks == h.w.weaks && b in m.w.blocks
      && m.w.blocks[b].count == (if b in h.w.blocks then h.w.blocks[b].count else 0)
      && WithBlock(m, b, h.w.weaks + multiset{b}, m.w.blocks[b].Incremented()) == Downgraded(h, b)
  {
    assert b !in h.w.blocks ==> h.w.blocks[b := Block(0, true)][b := Block(1, true)] == h.w.blocks[b := Block(1, true)];
  }

  lemma WeaksCounted<T>(h: Heap<T>, b: T)
    requires h.Valid()
    ensures if b in h.w.blocks then h.w.blocks[b].count == h.w.weaks[b] <= MAX_WEAK else h.w.weaks[b] == 0
  {}

  /** `Cc::downgrade`.  The first downgrade of a box allocates its metadata; the source panics if there
      are too many weak pointers. */
  method DowngradeCc(rt: Runtime, b: CcBox, ghost h: Heap<CcBox>)
    returns (ok: bool, w: WeakPtr, ghost steps: seq<Step<CcBox>>, ghost h': Heap<CcBox>)
    requires rt.Synced(h) && h.Valid() && UserPhase(h) && b in h.Accessible()
    modifies rt`blocks, rt`metadatas, rt`weaks, rt.metadatas`weak, rt.pc, h.kids.Keys
    ensures rt.Synced(h') && Does(h, steps, h') && (ok <==> h.w.weaks[b] < MAX_WEAK) && CallsNothing(steps)
    ensures if ok then w.WeakPtr? && w.cc == b && Points(rt, w, h')
      && h' == Downgraded(h, b).(p := h.p - {b}) else h' == h
    ensures fresh(rt.metadatas - old(rt.metadatas))
  {
    hide Runtime.Synced, Heap.Valid, Heap.Accessible, Does, Then;
    AccessibleIsAllocated(h, b);
    CellsOf(rt, h, b);
    var metadata: BoxedMetadata;
    ok, metadata, h' := AddWeak(rt, b, h);
    w, steps := Dangling, [];
    DoesNothing(h);
    if ok {
      DowngradesAlive(h, b);
      h' := RemoveFromList(rt, b, h');
      w, steps := WeakPtr(metadata, b), Then([Step.Weak(Downgrade(b))], [MarkAlive(b)]);
    }
  }

  lemma DowngradesAlive(h: Heap<CcBox>, b: CcBox)
    requires h.Valid() && UserPhase(h) && b in h.Accessible() && b in h.kids && h.w.weaks[b] < MAX_WEAK
    ensures Does(h, Then([Step.Weak(Downgrade(b))], [MarkAlive(b)]), Downgraded(h, b).(p := h.p - {b}))
    ensures CallsNothing(Then([Step.Weak(Downgrade(b))], [MarkAlive(b)]))
  {
    hide Heap.Valid, Heap.Accessible, Does, Then;
    AnotherCallsNothing(MarkAlive(b), []);
    AnotherCallsNothing(Step.Weak(Downgrade(b)), [MarkAlive(b)]);
    Downgrades(h, b);
    DowngradedIsAccessible(h, b);
    MarksAlive(Downgraded(h, b), b);
    DoesThen(h, [Step.Weak(Downgrade(b))], Downgraded(h, b), [MarkAlive(b)], Downgraded(h, b).(p := h.p - {b}));
  }

  lemma DowngradedIsAccessible(h: Heap<CcBox>, b: CcBox)
    requires Does(h, [Step.Weak(Downgrade(b))], Downgraded(h, b)) && b in h.Accessible() && UserPhase(h)
    ensures Downgraded(h, b).Valid() && b in Downgraded(h, b).Accessible() && UserPhase(Downgraded(h, b))
  {
    hide Heap.Valid, ProgramRun;
  }

  // ----- Weak::clone, Weak::drop ------------------------------------------------------------------------

  ghost function WeakCloned(h: Heap<CcBox>, b: CcBox): Heap<CcBox>
    requires b in h.w.blocks
  {
    WithBlock(h, b, h.w.weaks + multiset{b}, h.w.blocks[b].Incremented())
  }

  lemma CloneWeakEffect(h: Heap<CcBox>, b: CcBox)
    requires h.Typed() && b in h.w.weaks && b in h.w.blocks && h.w.weaks[b] < MAX_WEAK
    ensures Enabled(h, Step.Weak(CloneWeak(b))) && Apply(h, Step.Weak(CloneWeak(b))) == WeakCloned(h, b)
  {}

  lemma ClonesWeak(h: Heap<CcBox>, b: CcBox)
    requires h.Valid() && b in h.w.weaks && b in h.w.blocks && h.w.weaks[b] < MAX_WEAK
    ensures Does(h, [Step.Weak(CloneWeak(b))], WeakCloned(h, b))
  {
    hide Apply, Enabled, ProgramRun, Heap.Valid, WeakCloned;
    BlocksAreRight(h);
    CloneWeakEffect(h, b);
    DoesStep(h, Step.Weak(CloneWeak(b)));
  }

  /** `Weak::clone`; the source panics if there are too many weak pointers. */
  method CloneWeakPtr(rt: Runtime, w: WeakPtr, ghost h: Heap<CcBox>)
    returns (ok: bool, ghost steps: seq<Step<CcBox>>, ghost h': Heap<CcBox>)
    requires rt.Synced(h) && h.Valid() && Points(rt, w, h)
    modifies rt.metadatas`weak, rt`weaks
    ensures rt.Synced(h') && Does(h, steps, h') && CallsNothing(steps)
    ensures ok <==> w.Dangling? || h.w.weaks[w.cc] < MAX_WEAK
    ensures w.Dangling? || !ok ==> h' == h
    ensures w.WeakPtr? && ok ==> w.cc in h.w.blocks && h' == WeakCloned(h, w.cc)
  {
    hide Runtime.Synced, Heap.Valid, Does;
    DoesNothing(h);
    ok, steps, h' := true, [], h;
    if w.WeakPtr? {
      BlockOf(rt, w.cc, h);
      WeaksCounted(h, w.cc);
      ok := w.metadata.weak.count != MAX_WEAK;
      if ok {
        ClonesWeak(h, w.cc);
        h' := SetWeak(rt, w.cc, w.metadata, w.metadata.weak.Incremented(), rt.weaks + multiset{w.cc}, h);
        steps := [Step.Weak(CloneWeak(w.cc))];
        AnotherCallsNothing(steps[0], []);
      }
    }
  }

  ghost function WeakDropped(h: Heap<CcBox>, b: CcBox): Heap<CcBox>
    requires h.w.Enabled(DropWeak(b))
  {
    h.(w := h.w.Apply(DropWeak(b)))
  }

  lemma DropsWeak(h: Heap<CcBox>, b: CcBox)
    requires h.Valid() && b in h.w.weaks
    ensures h.w.Enabled(DropWeak(b)) && Does(h, [Step.Weak(DropWeak(b))], WeakDropped(h, b))
    ensures b in h.w.blocks && h.w.blocks[b].count == h.w.weaks[b] > 0
    ensures !h.w.blocks[b].accessible ==> b !in h.kids
  {
    DoesStep(h, Step.Weak(DropWeak(b)));
  }

  /** `Weak::drop`.  The last weak pointer to a box that has been freed frees the metadata. */
  method DropWeakPtr(rt: Runtime, w: WeakPtr, ghost h: Heap<CcBox>)
    returns (ghost steps: seq<Step<CcBox>>, ghost h': Heap<CcBox>)
    requires rt.Synced(h) && h.Valid() && Points(rt, w, h)
    modifies rt`blocks, rt.metadatas`weak, rt`weaks
    ensures rt.Synced(h') && Does(h, steps, h') && CallsNothing(steps)
    ensures w.Dangling? ==> h' == h
    ensures w.WeakPtr? ==> h.w.Enabled(DropWeak(w.cc)) && h' == WeakDropped(h, w.cc)
  {
    hide Runtime.Synced, Heap.Valid, Does, WeakDropped, WeakTable.Enabled;
    DoesNothing(h);
    steps, h' := [], h;
    if w.WeakPtr? {
      DropsWeak(h, w.cc);
      h' := CountDown(rt, w, h);
      steps := [Step.Weak(DropWeak(w.cc))];
      AnotherCallsNothing(steps[0], []);
    }
  }

  method CountDown(rt: Runtime, w: WeakPtr, ghost h: Heap<CcBox>) returns (ghost h': Heap<CcBox>)
    requires rt.Synced(h) && w.WeakPtr? && Points(rt, w, h) && h.w.Enabled(DropWeak(w.cc))
    requires w.cc in h.w.blocks && (!h.w.blocks[w.cc].accessible ==> w.cc !in h.kids)
    requires h.w.blocks[w.cc].count == h.w.weaks[w.cc] > 0
    modifies rt`blocks, rt.metadatas`weak, rt`weaks
    ensures rt.Synced(h') && h' == WeakDropped(h, w.cc)
  {
    hide Runtime.Synced;
    var b := w.cc;
    BlockOf(rt, b, h);
    h' := SetWeak(rt, b, w.metadata, w.metadata.weak.Decremented(), rt.weaks - multiset{b}, h);
    BlockOf(rt, b, h');
    if w.metadata.weak.count == 0 && !w.metadata.weak.accessible {
      h' := FreeMetadata(rt, b, h');
      assert h.w.blocks[b := h.w.blocks[b].Decremented()] - {b} == h.w.blocks - {b};
    }
  }

  /** `dealloc_other` of the block of a box that has been freed. */
  method FreeMetadata(rt: Runtime, b: CcBox, ghost h: Heap<CcBox>) returns (ghost h': Heap<CcBox>)
    requires rt.Synced(h) && b !in h.kids
    modifies rt`blocks
    ensures rt.Synced(h') && h' == h.(w := h.w.(blocks := h.w.blocks - {b}))
  {
    hide Runtime.Containers, Runtime.Memory;
    rt.blocks := rt.blocks - {b};
    h' := h.(w := h.w.(blocks := h.w.blocks - {b}));
  }

  // ----- Cc::new_cyclic ---------------------------------------------------------------------------------

  /** The box exists, and only a weak pointer to it does. */
  ghost function Hidden(h: Heap<CcBox>, b: CcBox): Heap<CcBox> {
    h.(rc := h.rc[b := 0], handles := h.handles - multiset{b}, building := h.building + {b})
  }

  ghost function Shown(h: Heap<CcBox>, b: CcBox): Heap<CcBox> {
    h.(rc := h.rc[b := 1], handles := h.handles + multiset{b}, building := h.building - {b})
  }

  ghost function UnderConstruction(h: Heap<CcBox>, b: CcBox): Heap<CcBox> {
    Hidden(Downgraded(Created(h, b, []), b), b)
  }

  ghost function BuildSteps(b: CcBox): seq<Step<CcBox>> {
    Then(Then([New(b, [])], [Step.Weak(Downgrade(b))]), [Hide(b)])
  }

  lemma HideEffect(h: Heap<CcBox>, b: CcBox)
    requires h.Typed() && UserPhase(h) && b in h.handles && b in h.kids && h.rc[b] == 1 && h.kids[b] == []
    requires b !in h.p + h.list
    ensures Enabled(h, Hide(b)) && Apply(h, Hide(b)) == Hidden(h, b)
  {}

  lemma Hides(h: Heap<CcBox>, b: CcBox)
    requires h.Valid() && UserPhase(h) && b in h.handles && b in h.kids && b in h.rc && h.rc[b] == 1 && h.kids[b] == []
    requires b !in h.p + h.list
    ensures Does(h, [Hide(b)], Hidden(h, b))
  {
    hide Apply, Enabled, ProgramRun, Heap.Valid, Hidden;
    BlocksAreRight(h);
    HideEffect(h, b);
    DoesStep(h, Hide(b));
  }

  lemma CreatedBox(h: Heap<CcBox>, b: CcBox)
    requires h.Valid() && UserPhase(h) && b !in h.kids && b !in h.w.blocks
    ensures var m := Downgraded(Created(h, b, []), b);
      && Created(h, b, []).w.weaks[b] == 0 && b in Created(h, b, []).kids
      && UserPhase(m) && b in m.handles && b in m.kids && b in m.rc && m.rc[b] == 1 && m.kids[b] == []
      && b !in m.p + m.list && GuardsOf(m) == GuardsOf(Created(h, b, [])) == GuardsOf(h)
  {
    PlacesOf(h);
    WeaksCounted(h, b);
  }

  lemma StartsBuilding(h: Heap<CcBox>, b: CcBox)
    requires h.Valid() && UserPhase(h) && b !in h.kids && b !in h.w.blocks
    ensures Does(h, BuildSteps(b), UnderConstruction(h, b)) && Created(h, b, []).Valid()
    ensures UnderConstruction(h, b).Valid()
  {
    hide Heap.Valid, Does, Then, Hidden, Downgraded, Created;
    var m := Created(h, b, []);
    CreatedBox(h, b);
    Creates(h, b, []);
    DoesValid(h, [New(b, [])], m);
    Downgrades(m, b);
    DoesValid(m, [Step.Weak(Downgrade(b))], Downgraded(m, b));
    Hides(Downgraded(m, b), b);
    DoesThen(h, [New(b, [])], m, [Step.Weak(Downgrade(b))], Downgraded(m, b));
    DoesThen(h, Then([New(b, [])], [Step.Weak(Downgrade(b))]), Downgraded(m, b), [Hide(b)], UnderConstruction(h, b));
    DoesValid(h, BuildSteps(b), UnderConstruction(h, b));
  }

  /** The closure may run. */
  ghost predicate MayBuild(h: Heap<CcBox>, b: CcBox) { h.Valid() && UserPhase(h) && b in h.building }

  /** What the closure may do: anything the program can, as long as it ends.  The box is not its to finish,
      and the weak pointer is only lent to it. */
  ghost predicate ClosureRan(h: Heap<CcBox>, b: CcBox, fields: seq<CcBox>, steps: seq<Step<CcBox>>, h': Heap<CcBox>) {
    && ProgramRun(h, steps, h', GuardsOf(h)) && Returned(h, h') && h'.pending == h.pending
    && b in h'.w.weaks && multiset(fields) <= h'.handles
  }

  /** The closure has done nothing and has made a value without fields. */
  ghost predicate Idled(h: Heap<CcBox>, fields: seq<CcBox>, steps: seq<Step<CcBox>>, h': Heap<CcBox>) {
    steps == [] && fields == [] && h' == h
  }

  lemma EmptyClosure(h: Heap<CcBox>, b: CcBox)
    requires MayBuild(h, b) && b in h.w.weaks
    ensures ClosureRan(h, b, [], [], h)
  {}

  /** The closure that makes the value: any code of the program.  Whether it panics is not up to the library. */
  method RunClosure(rt: Runtime, w: WeakPtr, ghost h: Heap<CcBox>)
    returns (panicked: bool, fields: seq<CcBox>, ghost steps: seq<Step<CcBox>>, ghost h': Heap<CcBox>)
    requires rt.Synced(h) && w.WeakPtr? && Points(rt, w, h) && MayBuild(h, w.cc)
    modifies rt, rt.pc, rt.config, h.kids.Keys, rt.metadatas
    ensures rt.Synced(h') && ClosureRan(h, w.cc, fields, steps, h') && Points(rt, w, h')
    ensures panicked == rt.closurePanics(w.cc) && fields == rt.log.value
    ensures Logged(old(rt.log).Closing(w.cc), steps, rt.log)
    ensures rt.silent(w.cc) ==> Idled(h, fields, steps, h') && rt.config.Current() == old(rt.config.Current())
    ensures h.collecting ==>
      rt.nonRootList == old(rt.nonRootList) && rt.Counts() == old(rt.Counts())
    ensures (forall c | c in h'.kids :: c in h.kids || fresh(c)) && fresh(rt.metadatas - old(rt.metadatas))
  {
    hide Runtime.Synced, ClosureRan, MayBuild;
    rt.log := rt.log.Closing(w.cc).(value := []);
    panicked, fields, steps, h' := rt.closurePanics(w.cc), [], [], h;
    NothingLogged(rt.log);
    EmptyClosure(h, w.cc);
  }

  /** The closure has returned: the box waits for its value. */
  lemma StillBuilding(h: Heap<CcBox>, b: CcBox, fields: seq<CcBox>, fs: seq<Step<CcBox>>, m: Heap<CcBox>)
    requires MayBuild(h, b) && ClosureRan(h, b, fields, fs, m)
    ensures Does(h, fs, m) && Waiting(m, b) && multiset(fields) <= m.handles && GuardsOf(m) == GuardsOf(h)
  {
    ProgramRunKeepsPass(h, fs, m, GuardsOf(h));
  }

  ghost predicate Waiting(h: Heap<CcBox>, b: CcBox) {
    && h.Valid() && UserPhase(h) && b in h.building && b in h.kids && b in h.rc && h.rc[b] == 0 && h.kids[b] == []
    && b !in h.p && b !in h.list && b !in h.dropped
  }

  ghost function Finished(h: Heap<CcBox>, b: CcBox, fields: seq<CcBox>): Heap<CcBox>
    requires b in h.kids
  {
    Stored(Shown(h, b), b, fields)
  }

  ghost function Abandoned(h: Heap<CcBox>, b: CcBox): Heap<CcBox> { Freed(h, b) }

  lemma Shows(h: Heap<CcBox>, b: CcBox)
    requires h.Valid() && UserPhase(h) && b in h.building && b in h.kids
    ensures Does(h, [Show(b)], Shown(h, b)) && Shown(h, b).Valid() && UserPhase(Shown(h, b))
  {
    DoesStep(h, Show(b));
  }

  lemma Finishes(h: Heap<CcBox>, b: CcBox, fields: seq<CcBox>) returns (steps: seq<Step<CcBox>>)
    requires Waiting(h, b) && multiset(fields) <= h.handles
    ensures Does(h, steps, Finished(h, b, fields)) && Finished(h, b, fields).Valid() && CallsNothing(steps)
    ensures GuardsOf(Finished(h, b, fields)) == GuardsOf(h)
  {
    hide Heap.Valid, Does, Then;
    Shows(h, b);
    assert multiset(fields) + multiset{b} <= Shown(h, b).handles;
    steps := Stores(Shown(h, b), b, fields);
    DoesValid(Shown(h, b), steps, Finished(h, b, fields));
    DoesThen(h, [Show(b)], Shown(h, b), steps, Finished(h, b, fields));
    AnotherCallsNothing(Show(b), steps);
    steps := Then([Show(b)], steps);
  }

  lemma Abandons(h: Heap<CcBox>, b: CcBox)
    requires Waiting(h, b) && b in h.w.weaks
    ensures Does(h, [Free(b)], Abandoned(h, b)) && Abandoned(h, b).Valid()
    ensures b in Abandoned(h, b).w.weaks && b in Abandoned(h, b).w.blocks
    ensures GuardsOf(Abandoned(h, b)) == GuardsOf(h)
  {
    DoesStep(h, Free(b));
  }

  lemma SyncedIgnoresBuilding(rt: Runtime, h: Heap<CcBox>, building: set<CcBox>)
    requires rt.Synced(h)
    ensures rt.Synced(h.(building := building))
  {
    hide Runtime.Cells, Runtime.Containers, Runtime.Blocks, Runtime.Memory;
  }

  /** `decrement_counter`: the strong counter of the only `Cc`, which is forgotten, goes down to 0. */
  method HideBox(rt: Runtime, b: CcBox, ghost h: Heap<CcBox>) returns (ghost h': Heap<CcBox>)
    requires rt.Synced(h) && b in h.kids && b in h.rc && h.rc[b] == 1
    modifies b`counter, rt`handles
    ensures rt.Synced(h') && h' == Hidden(h, b)
  {
    hide Runtime.Synced;
    h' := DecrementCounter(rt, b, h);
    HandlesOf(rt, h');
    h' := SetHandles(rt, rt.handles - multiset{b}, h');
    SyncedIgnoresBuilding(rt, h', h'.building + {b});
    h' := Hidden(h, b);
  }

  /** `increment_counter`, and the `Cc` is made again. */
  method ShowBox(rt: Runtime, b: CcBox, ghost h: Heap<CcBox>) returns (ghost h': Heap<CcBox>)
    requires rt.Synced(h) && b in h.kids && b in h.rc && h.rc[b] == 0
    modifies b`counter, rt`handles
    ensures rt.Synced(h') && h' == Shown(h, b)
  {
    hide Runtime.Synced;
    var ok: bool;
    ok, h' := IncrementCounter(rt, b, h);
    HandlesOf(rt, h');
    h' := SetHandles(rt, rt.handles + multiset{b}, h');
    SyncedIgnoresBuilding(rt, h', h'.building - {b});
    h' := Shown(h, b);
  }

  /** Make the box, its metadata and the first weak pointer, and hide the box behind a zero counter. */
  method StartBuilding(rt: Runtime, size: nat, ghost h: Heap<CcBox>) returns (w: WeakPtr, ghost h': Heap<CcBox>)
    requires rt.Synced(h) && h.Valid() && UserPhase(h)
    modifies rt`allocatedBytes, rt`values, rt`handles, rt`weaks, rt`blocks, rt`metadatas, rt.metadatas`weak
    ensures w.WeakPtr? && fresh(w.cc) && w.cc !in h.kids && w.cc !in h.w.blocks && Points(rt, w, h')
    ensures w.cc.size == size && w.cc.counter.rc == 0 && w.cc.counter.finalized == h.finalizing
    ensures rt.allocatedBytes == old(rt.allocatedBytes) + size
    ensures rt.Synced(h') && h' == UnderConstruction(h, w.cc)
    ensures Does(h, BuildSteps(w.cc), h') && MayBuild(h', w.cc) && GuardsOf(h') == GuardsOf(h)
    ensures h'.kids.Keys == h.kids.Keys + {w.cc} && fresh(rt.metadatas - old(rt.metadatas))
  {
    hide Runtime.Synced, Heap.Valid, Downgraded, Hidden, Does, BuildSteps, MayBuild, Created, UserPhase;
    PlacesOf(h);
    var b: CcBox;
    b, h' := NewBox(rt, size, [], h);
    BoxIsBuilt(h, b);
    w, h' := HideNew(rt, b, h');
    BuildingCounts(h, b);
    CellsOf(rt, h', b);
  }

  /** The box is counted by no `Cc`, and is finalized exactly if something is being finalized. */
  lemma BuildingCounts(h: Heap<CcBox>, b: CcBox)
    requires h.Valid() && b !in h.kids
    ensures var m := UnderConstruction(h, b);
      b in m.kids && b in m.rc && m.rc[b] == 0 && (b in m.fin <==> h.finalizing)
  {
    PlacesOf(h);
  }

  /** The first weak pointer to a new box, which is hidden then. */
  method HideNew(rt: Runtime, b: CcBox, ghost h: Heap<CcBox>) returns (w: WeakPtr, ghost h': Heap<CcBox>)
    requires rt.Synced(h) && h.Valid() && b in h.kids && h.w.weaks[b] == 0
    requires b in Downgraded(h, b).kids && b in Downgraded(h, b).rc && Downgraded(h, b).rc[b] == 1
    modifies rt`handles, rt`weaks, rt`blocks, rt`metadatas, b`metadata, b`counter, rt.metadatas`weak
    ensures rt.Synced(h') && h' == Hidden(Downgraded(h, b), b) && w.WeakPtr? && w.cc == b
    ensures b in rt.blocks && rt.blocks[b] == w.metadata && fresh(rt.metadatas - old(rt.metadatas))
  {
    hide Runtime.Synced, Heap.Valid, Downgraded, Hidden;
    var metadata: BoxedMetadata, ok: bool;
    ok, metadata, h' := AddWeak(rt, b, h);
    h' := HideBox(rt, b, h');
    w := WeakPtr(metadata, b);
  }

  /** What `new_cyclic` needs to know when it starts. */
  lemma BoxIsBuilt(h: Heap<CcBox>, b: CcBox)
    requires h.Valid() && UserPhase(h) && b !in h.kids && b !in h.w.blocks
    ensures var k, m := Created(h, b, []), UnderConstruction(h, b);
      && k.Valid() && b in k.kids && k.w.weaks[b] == 0
      && b in Downgraded(k, b).kids && b in Downgraded(k, b).rc && Downgraded(k, b).rc[b] == 1
      && Does(h, BuildSteps(b), m) && MayBuild(m, b) && GuardsOf(m) == GuardsOf(h)
      && m.kids.Keys == h.kids.Keys + {b} && b in m.w.weaks
  {
    hide Heap.Valid, Does, BuildSteps, MayBuild;
    CreatedBox(h, b);
    StartsBuilding(h, b);
    IsBuilding(h, b);
    PointsDowngraded(h, b);
  }

  lemma IsBuilding(h: Heap<CcBox>, b: CcBox)
    requires h.Valid() && UserPhase(h) && b !in h.kids && b !in h.w.blocks
    ensures var m := UnderConstruction(h, b);
      MayBuild(m, b) && m.kids.Keys == h.kids.Keys + {b} && GuardsOf(m) == GuardsOf(h)
  {
    hide Heap.Valid, Does, BuildSteps;
    StartsBuilding(h, b);
  }

  lemma PointsDowngraded(h: Heap<CcBox>, b: CcBox)
    ensures b in UnderConstruction(h, b).w.weaks
  {}

  /** How `new_cyclic` ends once the closure has returned and left the heap `closed`: the box gets its value
      and is shown, or is freed if the closure panicked; then the lent weak pointer is dropped. */
  ghost predicate Built(closed: Heap<CcBox>, b: CcBox, fields: seq<CcBox>, ok: bool, h': Heap<CcBox>) {
    && b in closed.kids
    && var k := if ok then Finished(closed, b, fields) else Abandoned(closed, b);
       k.w.Enabled(DropWeak(b)) && h' == WeakDropped(k, b)
  }

  /** The value is written, the box is shown, and the weak pointer is dropped. */
  method FinishBuilding(rt: Runtime, w: WeakPtr, fields: seq<CcBox>, ghost h: Heap<CcBox>)
    returns (ghost steps: seq<Step<CcBox>>, ghost h': Heap<CcBox>)
    requires rt.Synced(h) && w.WeakPtr? && Points(rt, w, h) && Waiting(h, w.cc) && multiset(fields) <= h.handles
    modifies rt`values, rt`handles, rt`weaks, w.cc`counter, rt`blocks, rt.metadatas`weak
    ensures rt.Synced(h') && Does(h, steps, h') && Built(h, w.cc, fields, true, h') && CallsNothing(steps)
  {
    hide Runtime.Synced, Heap.Valid, Does, Then;
    var b := w.cc;
    h' := ShowBox(rt, b, h);
    h' := StoreFields(rt, b, fields, h');
    ghost var s := Finishes(h, b, fields);
    ghost var t: seq<Step<CcBox>>;
    t, h' := DropWeakPtr(rt, w, h');
    DoesThen(h, s, Finished(h, b, fields), t, h');
    CallsNothingThen(s, t);
    steps := Then(s, t);
  }

  /** The closure panicked: the box is freed, then the weak pointer is dropped. */
  method AbandonBuilding(rt: Runtime, w: WeakPtr, ghost fields: seq<CcBox>, ghost h: Heap<CcBox>)
    returns (ghost steps: seq<Step<CcBox>>, ghost h': Heap<CcBox>)
    requires rt.Synced(h) && w.WeakPtr? && Points(rt, w, h) && Waiting(h, w.cc)
    modifies rt`allocatedBytes, rt`values, rt`weaks, rt`blocks, rt.metadatas`weak
    ensures rt.Synced(h') && Does(h, steps, h') && Built(h, w.cc, fields, false, h') && CallsNothing(steps)
  {
    hide Runtime.Synced, Heap.Valid, Does, Then, Abandoned;
    var b := w.cc;
    Abandons(h, b);
    h' := FreeAbandoned(rt, w, h);
    ghost var t: seq<Step<CcBox>>;
    t, h' := DropWeakPtr(rt, w, h');
    DoesThen(h, [Free(b)], Abandoned(h, b), t, h');
    AnotherCallsNothing(Step.Free(b), t);
    steps := Then([Free(b)], t);
  }

  method FreeAbandoned(rt: Runtime, w: WeakPtr, ghost h: Heap<CcBox>) returns (ghost h': Heap<CcBox>)
    requires rt.Synced(h) && w.WeakPtr? && Points(rt, w, h)
    requires w.cc in h.kids && w.cc !in h.p && w.cc !in h.list && w.cc in Abandoned(h, w.cc).w.weaks
    requires w.cc in Abandoned(h, w.cc).w.blocks
    modifies rt`allocatedBytes, rt`values, rt`blocks, rt.metadatas`weak
    ensures rt.Synced(h') && h' == Abandoned(h, w.cc) && Points(rt, w, h')
  {
    hide Runtime.Cells, Runtime.Containers, Runtime.Memory;
    h' := FreeUnwrapped(rt, w.cc, h);
  }

  /** `new_cyclic` leaves calls and guards as they were. */
  lemma BuiltReturns(h: Heap<CcBox>, b: CcBox, fields: seq<CcBox>, fs: seq<Step<CcBox>>, closed: Heap<CcBox>, ok: bool,
                     h': Heap<CcBox>)
    requires h.Valid() && b !in h.kids && ClosureRan(UnderConstruction(h, b), b, fields, fs, closed)
    requires Waiting(closed, b) && Built(closed, b, fields, ok, h')
    ensures Returned(h, h') && h'.pending == h.pending
  {
    hide Heap.NoDangling, Heap.Conserved, Heap.Covered, Heap.Doomed, WeakTable.Valid, ProgramRun;
    assert h.building + {b} - {b} == h.building;
    assert h.dropped - {b} == h.dropped && h.list - {b} == h.list;
  }

  /** A box that has been built is live, holds the fields that the closure returned, and has one `Cc`. */
  lemma BuiltBox(closed: Heap<CcBox>, b: CcBox, fields: seq<CcBox>, h': Heap<CcBox>)
    requires Waiting(closed, b) && Built(closed, b, fields, true, h') && h'.Valid()
      && multiset(fields) <= closed.handles
    ensures b in h'.Live() && b in h'.handles && h'.References()[b] == 1 && h'.kids[b] == fields
  {
    hide Heap.NoDangling, Heap.Placed, Heap.Covered, Heap.Doomed, WeakTable.Valid;
  }

  /** Start building, and run the closure. */
  method Build(rt: Runtime, size: nat, ghost h: Heap<CcBox>)
    returns (w: WeakPtr, ok: bool, fields: seq<CcBox>, ghost fs: seq<Step<CcBox>>, ghost m: Heap<CcBox>)
    requires rt.Synced(h) && h.Valid() && UserPhase(h)
    modifies rt, rt.pc, rt.config, h.kids.Keys, rt.metadatas
    ensures w.WeakPtr? && fresh(w.cc) && w.cc !in h.kids && rt.Synced(m) && Points(rt, w, m)
    ensures w.cc.size == size && (ok <==> !rt.closurePanics(w.cc)) && fields == rt.log.value
    ensures Logged(old(rt.log).Closing(w.cc), fs, rt.log)
    ensures rt.silent(w.cc) ==>
      Idled(UnderConstruction(h, w.cc), fields, fs, m) && rt.config.Current() == old(rt.config.Current())
    ensures ClosureRan(UnderConstruction(h, w.cc), w.cc, fields, fs, m) && Waiting(m, w.cc)
    ensures Does(h, Then(BuildSteps(w.cc), fs), m) && multiset(fields) <= m.handles && GuardsOf(m) == GuardsOf(h)
    ensures Called(old(rt.log), Then(BuildSteps(w.cc), fs), rt.log)
    ensures h.collecting ==>
      rt.nonRootList == old(rt.nonRootList) && rt.Counts() == old(rt.Counts())
    ensures (forall c | c in m.kids :: c in h.kids || fresh(c)) && fresh(rt.metadatas - old(rt.metadatas))
  {
    hide Runtime.Synced, Heap.Valid, Does, Then, UnderConstruction, BuildSteps, Waiting, ClosureRan, MayBuild;
    hide Logged, Called, Idled, Points, UserPhase, Hidden, Created, Downgraded;
    w, m := StartBuilding(rt, size, h);
    ghost var start := m;
    var panicked: bool;
    panicked, fields, fs, m := RunClosure(rt, w, start);
    ok := !panicked;
    StillBuilding(start, w.cc, fields, fs, m);
    DoesThen(h, BuildSteps(w.cc), start, fs, m);
    BuildCalls(w.cc, old(rt.log), fs, rt.log);
  }

  /** One closure is called, apart from what it calls itself. */
  lemma BuildCalls(b: CcBox, before: Log<CcBox>, fs: seq<Step<CcBox>>, after: Log<CcBox>)
    requires Logged(before.Closing(b), fs, after)
    ensures Called(before, Then(BuildSteps(b), fs), after)
  {
    hide Then, FinalizersIn, ClosuresIn, ProgramIn, BuildSteps;
    StartCalls(b, before);
    CalledThen(before, BuildSteps(b), before.Closing(b), fs, after);
  }

  lemma StartCalls(b: CcBox, log: Log<CcBox>)
    ensures Called(log, BuildSteps(b), log.Closing(b))
  {
    hide Then, Called;
    var s: seq<Step<CcBox>> := Then([New(b, [])], [Step.Weak(Downgrade(b))]);
    AnotherCallsNothing(Step.Weak(Downgrade(b)), []);
    AnotherCallsNothing(New(b, []), [Step.Weak(Downgrade(b))]);
    CalledNothing(log, s);
    HideCalls(b, log);
    CalledThen(log, s, log, [Hide(b)], log.Closing(b));
  }

  lemma HideCalls<T>(b: T, log: Log<T>)
    ensures Called(log, [Hide(b)], log.Closing(b))
  {
    assert [Hide(b)][1..] == [];
  }

  /** Start building, run the closure, and end. */
  method BuildCyclic(rt: Runtime, size: nat, ghost h: Heap<CcBox>)
    returns (ok: bool, b: CcBox, ghost fields: seq<CcBox>, ghost fs: seq<Step<CcBox>>, ghost closed: Heap<CcBox>,
             ghost steps: seq<Step<CcBox>>, ghost h': Heap<CcBox>)
    requires rt.Synced(h) && h.Valid() && UserPhase(h)
    modifies rt, rt.pc, rt.config, h.kids.Keys, rt.metadatas
    ensures fresh(b) && rt.Synced(h') && Does(h, steps, h') && Returned(h, h') && h'.pending == h.pending
    ensures b.size == size && (ok <==> !rt.closurePanics(b)) && fields == rt.log.value
    ensures Called(old(rt.log), steps, rt.log) && Logged(old(rt.log).Closing(b), fs, rt.log)
    ensures rt.silent(b) ==>
      Idled(UnderConstruction(h, b), fields, fs, closed) && rt.config.Current() == old(rt.config.Current())
    ensures ClosureRan(UnderConstruction(h, b), b, fields, fs, closed) && Built(closed, b, fields, ok, h')
    ensures ok ==> b in h'.Live() && b in h'.handles && h'.References()[b] == 1 && h'.kids[b] == fields
    ensures h.collecting ==>
      rt.nonRootList == old(rt.nonRootList) && rt.Counts() == old(rt.Counts())
    ensures (forall c | c in h'.kids :: c in h.kids || fresh(c)) && fresh(rt.metadatas - old(rt.metadatas))
  {
    hide Runtime.Synced, Heap.Valid, Does, Then, UnderConstruction, BuildSteps, Waiting, ClosureRan, Built;
    hide Returned, Heap.Live, Heap.References, Called, CallsNothing, Logged, Idled;
    var w: WeakPtr, value: seq<CcBox>;
    w, ok, value, fs, closed := Build(rt, size, h);
    b, fields := w.cc, value;
    ghost var s: seq<Step<CcBox>>;
    s, h' := EndBuilding(rt, w, value, ok, closed);
    CalledNothing(rt.log, s);
    CalledThen(old(rt.log), Then(BuildSteps(b), fs), rt.log, s, rt.log);
    DoesThen(h, Then(BuildSteps(b), fs), closed, s, h');
    steps := Then(Then(BuildSteps(b), fs), s);
    BuiltReturns(h, b, fields, fs, closed, ok, h');
  }

  method EndBuilding(rt: Runtime, w: WeakPtr, fields: seq<CcBox>, ok: bool, ghost h: Heap<CcBox>)
    returns (ghost steps: seq<Step<CcBox>>, ghost h': Heap<CcBox>)
    requires rt.Synced(h) && w.WeakPtr? && Points(rt, w, h) && Waiting(h, w.cc) && multiset(fields) <= h.handles
    modifies rt`allocatedBytes, rt`values, rt`handles, rt`weaks, w.cc`counter, rt`blocks, rt.metadatas`weak
    ensures rt.Synced(h') && Does(h, steps, h') && Built(h, w.cc, fields, ok, h') && h'.kids.Keys <= h.kids.Keys
    ensures CallsNothing(steps)
    ensures ok ==> w.cc in h'.Live() && w.cc in h'.handles && h'.References()[w.cc] == 1 && h'.kids[w.cc] == fields
  {
    hide Runtime.Synced, Heap.Valid, Does, Waiting, Built, Heap.Live, Heap.References;
    if ok {
      steps, h' := FinishBuilding(rt, w, fields, h);
      DoesValid(h, steps, h');
      BuiltBox(h, w.cc, fields, h');
    } else {
      steps, h' := AbandonBuilding(rt, w, fields, h);
    }
    BuiltKeys(h, w.cc, fields, ok, h');
  }

  lemma BuiltKeys(closed: Heap<CcBox>, b: CcBox, fields: seq<CcBox>, ok: bool, h': Heap<CcBox>)
    requires Built(closed, b, fields, ok, h')
    ensures h'.kids.Keys <= closed.kids.Keys
  {}

  /** `Cc::new_cyclic`: a collection may come first, as in `Cc::new`, and leaves `m`; `ok` says that the
      closure did not panic, and `closed` is the heap it left. */
  method NewCyclic(rt: Runtime, size: nat, ghost h: Heap<CcBox>)
    returns (r: Ending, ok: bool, b: CcBox?, ghost fields: seq<CcBox>, ghost fs: seq<Step<CcBox>>,
             ghost m: Heap<CcBox>, ghost closed: Heap<CcBox>, ghost steps: seq<Step<CcBox>>, ghost h': Heap<CcBox>)
    requires rt.Synced(h) && h.Valid() && UserPhase(h)
    modifies rt, rt.pc, rt.config, h.kids.Keys, rt.metadatas
    ensures if r.TracePanics? then Unwound(rt, h') && rt.tracePanics && rt.panics == old(rt.panics) + 1
            else rt.Synced(h')
    ensures Does(h, steps, h') && Returned(h, h') && h'.pending == h.pending && Called(old(rt.log), steps, rt.log)
    ensures if h.collecting || !old(rt.config.Due(rt.allocatedBytes, |h.p|)) then r.Returns? && m == h
            else !r.TracePanics? ==> exists c: nat :: Collected(h, c, rt.silent, m)
    ensures if r.Returns? then
              b != null && fresh(b) && b.size == size && (ok <==> !rt.closurePanics(b)) && fields == rt.log.value
            else b == null && h' == m
    ensures r.Returns? && (h.collecting || !old(rt.config.Due(rt.allocatedBytes, |h.p|))) ==>
      Logged(old(rt.log).Closing(b), fs, rt.log) && (rt.silent(b) ==> rt.config.Current() == old(rt.config.Current()))
    ensures r.Returns? && rt.silent(b) ==> Idled(UnderConstruction(m, b), fields, fs, closed)
    ensures r.Returns? ==>
      ClosureRan(UnderConstruction(m, b), b, fields, fs, closed) && Built(closed, b, fields, ok, h')
    ensures r.Returns? && ok ==>
      b in h'.Live() && b in h'.handles && h'.References()[b] == 1 && h'.kids[b] == fields
    ensures h.collecting ==>
      rt.nonRootList == old(rt.nonRootList) && rt.Counts() == old(rt.Counts())
    ensures (forall c | c in h'.kids :: c in h.kids || fresh(c)) && fresh(rt.metadatas - old(rt.metadatas))
  {
    hide Runtime.Synced, Heap.Valid, Does, Collected, Unwound, Returned, HandedOver, UserPhase, ClosureRan, Built;
    hide Heap.Live, Heap.References, UnderConstruction, Called, Logged, Idled, Configs.Config.AtRest;
    HandedNothing(h);
    r, steps, m := CollectFirst(rt, [], h);
    ok, b, fields, fs, closed, h' := false, null, [], [], m, m;
    if r.Returns? {
      ghost var log := rt.log;
      ghost var s: seq<Step<CcBox>>;
      ok, b, fields, fs, closed, s, h' := BuildCyclic(rt, size, m);
      DoesThen(h, steps, m, s, h');
      CalledThen(old(rt.log), steps, log, s, rt.log);
      steps := Then(steps, s);
      ReturnedTwice(h, m, h');
    }
  }

  lemma HandedNothing<T>(h: Heap<T>)
    ensures HandedOver(h, []) == h
  {}

  lemma ReturnedTwice<T>(h: Heap<T>, m: Heap<T>, h': Heap<T>)
    requires Returned(h, m) && Returned(m, h')
    ensures Returned(h, h')
  {}
}

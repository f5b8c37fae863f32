/** The indivisible actions of the pointers on boxes: what each does to cells, links, flags and byte
    accounting, and the heap this stands for. */
module Effects {
  import opened Graph
  import opened WeakTables
  import opened Heaps
  import opened CounterMarkers
  import opened Lists
  import opened Runtimes

  // ----- cells ----------------------------------------------------------------------------------------

  method IncrementCounter(rt: Runtime, b: CcBox, ghost h: Heap<CcBox>) returns (ok: bool, ghost h': Heap<CcBox>)
    requires rt.Synced(h) && b in h.kids && b in h.rc
    modifies b`counter
    ensures rt.Synced(h') && (ok <==> h.rc[b] != MAX)
    ensures h' == if ok then h.(rc := h.rc[b := h.rc[b] + 1]) else h
  {
    hide Runtime.Containers, Runtime.Blocks, Runtime.Memory;
    ok := b.counter.rc != MAX;
    b.counter := b.counter.Incremented();
    h' := if ok then h.(rc := h.rc[b := h.rc[b] + 1]) else h;
  }

  method DecrementCounter(rt: Runtime, b: CcBox, ghost h: Heap<CcBox>) returns (ghost h': Heap<CcBox>)
    requires rt.Synced(h) && b in h.kids && b in h.rc
    modifies b`counter
    ensures rt.Synced(h') && h' == h.(rc := h.rc[b := Decremented(h.rc[b])])
  {
    hide Runtime.Containers, Runtime.Blocks, Runtime.Memory;
    b.counter := b.counter.Decremented();
    h' := h.(rc := h.rc[b := Decremented(h.rc[b])]);
  }

  method SetFinalized(rt: Runtime, b: CcBox, f: bool, ghost h: Heap<CcBox>) returns (ghost h': Heap<CcBox>)
    requires rt.Synced(h) && b in h.kids
    modifies b`counter
    ensures h' == h.(fin := if f then h.fin + {b} else h.fin - {b}) && rt.Synced(h')
  {
    hide Runtime.Containers, Runtime.Blocks, Runtime.Memory;
    b.counter := b.counter.(finalized := f);
    h' := h.(fin := if f then h.fin + {b} else h.fin - {b});
  }

  method SetDropped(rt: Runtime, b: CcBox, ghost h: Heap<CcBox>) returns (ghost h': Heap<CcBox>)
    requires rt.Synced(h) && b in h.kids && b !in h.p
    modifies b`tracing
    ensures h' == h.(dropped := h.dropped + {b}) && rt.Synced(h')
  {
    hide Runtime.Containers, Runtime.Blocks, Runtime.Memory;
    b.tracing := b.tracing.Dropped();
    h' := h.(dropped := h.dropped + {b});
  }

  // ----- flags ----------------------------------------------------------------------------------------

  method SetCollecting(rt: Runtime, c: bool, ghost h: Heap<CcBox>) returns (ghost h': Heap<CcBox>)
    requires rt.Synced(h)
    modifies rt`collecting
    ensures h' == h.(collecting := c) && rt.Synced(h') && rt.collecting == c
  {
    hide Runtime.Cells, Runtime.Containers, Runtime.Blocks, Runtime.Memory;
    rt.collecting := c;
    h' := h.(collecting := c);
  }

  /** Returns the value that the guard restores. */
  method SetFinalizing(rt: Runtime, f: bool, ghost h: Heap<CcBox>) returns (oldValue: bool, ghost h': Heap<CcBox>)
    requires rt.Synced(h)
    modifies rt`finalizing
    ensures oldValue == h.finalizing && h' == h.(finalizing := f) && rt.Synced(h')
  {
    hide Runtime.Cells, Runtime.Containers, Runtime.Blocks, Runtime.Memory;
    oldValue := rt.finalizing;
    rt.finalizing := f;
    h' := h.(finalizing := f);
  }

  method SetDropping(rt: Runtime, d: bool, ghost h: Heap<CcBox>) returns (oldValue: bool, ghost h': Heap<CcBox>)
    requires rt.Synced(h)
    modifies rt`dropping
    ensures oldValue == h.dropping && h' == h.(dropping := d) && rt.Synced(h')
  {
    hide Runtime.Cells, Runtime.Containers, Runtime.Blocks, Runtime.Memory;
    oldValue := rt.dropping;
    rt.dropping := d;
    h' := h.(dropping := d);
  }

  // ----- what the program holds -------------------------------------------------------------------------

  method SetHandles(rt: Runtime, handles: multiset<CcBox>, ghost h: Heap<CcBox>) returns (ghost h': Heap<CcBox>)
    requires rt.Synced(h)
    modifies rt`handles
    ensures h' == h.(handles := handles) && rt.Synced(h')
  {
    hide Runtime.Cells, Runtime.Containers, Runtime.Blocks, Runtime.Memory;
    rt.handles := handles;
    h' := h.(handles := handles);
  }

  // ----- P --------------------------------------------------------------------------------------------

  /** `remove_from_list` */
  method RemoveFromList(rt: Runtime, b: CcBox, ghost h: Heap<CcBox>) returns (ghost h': Heap<CcBox>)
    requires rt.Synced(h) && b in h.kids
    modifies rt.pc`first, rt.pc`size, rt.pc`contents, rt.pc`boxes, h.p`next, h.p`prev, b`tracing
    ensures h' == h.(p := h.p - {b}) && rt.Synced(h')
  {
    hide Runtime.Blocks, Runtime.Memory, Runtime.Containers, PossibleCycles.Valid, LinkedList.Valid;
    if b.tracing.mark.PossibleCycles? {
      b.tracing := b.tracing.Marked(NonMarked);
      RemoveCandidate(rt, b, h.kids.Keys, h.p, h.list);
    } else {
      assert h.p - {b} == h.p;
    }
    h' := h.(p := h.p - {b});
  }

  method RemoveCandidate(rt: Runtime, b: CcBox, ghost boxes: set<CcBox>, ghost p: set<CcBox>, ghost list: set<CcBox>)
    requires rt.Containers(boxes, p, list) && b in p
    modifies rt.pc`first, rt.pc`size, rt.pc`contents, rt.pc`boxes, p`next, p`prev
    ensures rt.Containers(boxes, p - {b}, list) && Unlinked(b) && b !in list
  {
    hide PossibleCycles.Valid, LinkedList.Valid;
    ghost var k := rt.pc.Remove(b);
  }

  /** `add_to_list` */
  method AddToList(rt: Runtime, b: CcBox, ghost h: Heap<CcBox>) returns (ghost h': Heap<CcBox>)
    requires rt.Synced(h) && b in h.kids && b !in h.list && b !in h.dropped
    modifies rt.pc`first, rt.pc`size, rt.pc`contents, rt.pc`boxes, h.p`prev, b`next, b`tracing
    ensures h' == h.(p := h.p + {b}) && rt.Synced(h')
  {
    hide Runtime.Blocks, Runtime.Memory, Runtime.Containers, PossibleCycles.Valid, LinkedList.Valid;
    if !b.tracing.mark.PossibleCycles? {
      AddCandidate(rt, b, h.kids.Keys, h.p, h.list);
      b.tracing := b.tracing.Reset().Marked(PossibleCycles);
    } else {
      assert h.p + {b} == h.p;
    }
    h' := h.(p := h.p + {b});
  }

  method AddCandidate(rt: Runtime, b: CcBox, ghost boxes: set<CcBox>, ghost p: set<CcBox>, ghost list: set<CcBox>)
    requires rt.Containers(boxes, p, list) && b in boxes && b !in p && b !in list && Unlinked(b)
    modifies rt.pc`first, rt.pc`size, rt.pc`contents, rt.pc`boxes, p`prev, b`next
    ensures rt.Containers(boxes, p + {b}, list)
  {
    hide PossibleCycles.Valid, LinkedList.Valid;
    rt.pc.Add(b);
  }

  // ----- memory ---------------------------------------------------------------------------------------

  /** `CcBox::new`, with a value that holds `fields`; the program gets the `Cc`. */
  method NewBox(rt: Runtime, size: nat, fields: seq<CcBox>, ghost h: Heap<CcBox>)
    returns (b: CcBox, ghost h': Heap<CcBox>)
    requires rt.Synced(h) && h.p + h.list + h.dropped + h.fin <= h.kids.Keys
    modifies rt`allocatedBytes, rt`values, rt`handles
    ensures fresh(b) && b !in h.kids && b !in h.w.blocks && b.size == size
    ensures h' == Created(h, b, fields) && rt.Synced(h') && rt.allocatedBytes == old(rt.allocatedBytes) + size
  {
    hide Runtime.Synced, Created;
    FlagsOf(rt, h);
    BlocksOf(rt, h);
    b := new CcBox(rt.finalizing, size);
    h' := AddBox(rt, b, fields, h);
  }

  lemma FlagsOf(rt: Runtime, h: Heap<CcBox>)
    requires rt.Synced(h)
    ensures rt.Flags(h)
  {}

  lemma BlocksOf(rt: Runtime, h: Heap<CcBox>)
    requires rt.Synced(h)
    ensures rt.blocks.Keys == h.w.blocks.Keys
  {}

  /** The new box joins the heap. */
  method AddBox(rt: Runtime, b: CcBox, fields: seq<CcBox>, ghost h: Heap<CcBox>) returns (ghost h': Heap<CcBox>)
    requires rt.Synced(h) && h.p + h.list + h.dropped + h.fin <= h.kids.Keys && b !in h.kids && b !in h.w.blocks
    requires b.next == null && b.prev == null && b.metadata == null
    requires b.tracing == InitialTracing() && b.counter == InitialCounter(h.finalizing)
    modifies rt`allocatedBytes, rt`values, rt`handles
    ensures h' == Created(h, b, fields) && rt.Synced(h') && rt.allocatedBytes == old(rt.allocatedBytes) + b.size
  {
    hide Runtime.Represented, Runtime.Containers, Runtime.Blocks, Runtime.Memory, Created;
    CreatedSize(h, b, fields);
    AddValue(rt, b, fields, h.kids);
    rt.handles := rt.handles + multiset{b};
    h' := Created(h, b, fields);
    CreatedIsSynced(rt, h, b, fields);
  }

  lemma CreatedSize(h: Heap<CcBox>, b: CcBox, fields: seq<CcBox>)
    requires b !in h.kids
    ensures TotalSize(h.kids.Keys + {b}) == TotalSize(h.kids.Keys) + b.size
  {
    TotalSizeWithout(h.kids.Keys + {b}, b);
    assert h.kids.Keys + {b} - {b} == h.kids.Keys;
  }

  /** The box is counted in the allocated bytes. */
  method AddValue(rt: Runtime, b: CcBox, fields: seq<CcBox>, ghost kids: Edges<CcBox>)
    requires rt.Memory(kids) && b !in kids && TotalSize(kids.Keys + {b}) == TotalSize(kids.Keys) + b.size
    modifies rt`allocatedBytes, rt`values
    ensures rt.Memory(kids[b := fields]) && rt.allocatedBytes == old(rt.allocatedBytes) + b.size
  {
    rt.allocatedBytes := rt.allocatedBytes + b.size;
    rt.values := rt.values[b := fields];
    assert kids[b := fields].Keys == kids.Keys + {b};
  }

  lemma CreatedIsSynced(rt: Runtime, h: Heap<CcBox>, b: CcBox, fields: seq<CcBox>)
    requires rt.Represented(h) && rt.Containers(h.kids.Keys, h.p, h.list) && rt.Blocks(h.kids.Keys, h.w)
    requires b !in h.kids && b !in h.w.blocks && h.p + h.list + h.dropped + h.fin <= h.kids.Keys
    requires b.next == null && b.prev == null && b.metadata == null
    requires b.tracing == InitialTracing() && b.counter == InitialCounter(h.finalizing)
    ensures var h' := Created(h, b, fields);
      && h'.kids == h.kids[b := fields] && h'.p == h.p && h'.list == h.list && h'.w == h.w
      && h'.handles == h.handles + multiset{b} && (rt.Flags(h) ==> rt.Flags(h'))
      && rt.Represented(h') && rt.Containers(h'.kids.Keys, h.p, h.list) && rt.Blocks(h'.kids.Keys, h.w)
  {
    assert Created(h, b, fields).kids.Keys == h.kids.Keys + {b};
    Grown(rt, b, h.kids.Keys, h.p, h.list, h.w);
  }

  lemma Grown(rt: Runtime, b: CcBox, boxes: set<CcBox>, p: set<CcBox>, list: set<CcBox>, w: WeakTable<CcBox>)
    requires rt.Containers(boxes, p, list) && rt.Blocks(boxes, w) && b !in w.blocks
    ensures rt.Containers(boxes + {b}, p, list) && rt.Blocks(boxes + {b}, w)
  {}

  /** The fields move out of the value. */
  method TakeFields(rt: Runtime, b: CcBox, ghost h: Heap<CcBox>) returns (fields: seq<CcBox>, ghost h': Heap<CcBox>)
    requires rt.Synced(h) && b in h.kids
    modifies rt`values
    ensures fields == h.kids[b] && h' == h.(kids := h.kids[b := []]) && rt.Synced(h')
  {
    hide Runtime.Cells, Runtime.Containers, Runtime.Blocks;
    fields := rt.values[b];
    rt.values := rt.values[b := []];
    h' := h.(kids := h.kids[b := []]);
    assert h'.kids.Keys == h.kids.Keys;
  }

  /** `drop_metadata` */
  method DropMetadata(rt: Runtime, b: CcBox, ghost boxes: set<CcBox>, ghost w: WeakTable<CcBox>)
    requires rt.Blocks(boxes, w) && b in boxes && b.counter.metadata == (b in w.blocks)
    modifies rt`blocks, rt.metadatas`weak
    ensures rt.Blocks(boxes - {b}, w.BoxFreed(b))
    ensures forall c | c in rt.blocks :: c in old(rt.blocks) && rt.blocks[c] == old(rt.blocks)[c]
  {
    if b.counter.metadata {
      var boxed := b.metadata;
      assert boxed == rt.blocks[b];
      if boxed.weak.count == 0 {
        rt.blocks := rt.blocks - {b};
      } else {
        boxed.weak := boxed.weak.(accessible := false);
      }
    }
  }

  /** `cc_dealloc` */
  method Dealloc(rt: Runtime, b: CcBox, ghost kids: Edges<CcBox>)
    requires rt.Memory(kids) && b in kids
    modifies rt`allocatedBytes, rt`values
    ensures rt.Memory(kids - {b})
  {
    TotalSizeWithout(kids.Keys, b);
    rt.allocatedBytes := rt.allocatedBytes - b.size;
    rt.values := rt.values - {b};
    assert (kids - {b}).Keys == kids.Keys - {b};
  }

  lemma FreedIsSynced(rt: Runtime, h: Heap<CcBox>, b: CcBox, list: set<CcBox>)
    requires rt.Represented(h) && rt.Containers(h.kids.Keys, h.p, list) && b in h.kids && b !in h.p && b !in list
    ensures Freed(h, b).kids.Keys == h.kids.Keys - {b} && (b !in h.list ==> Freed(h, b).list == h.list)
    ensures rt.Represented(Freed(h, b)) && rt.Containers(h.kids.Keys - {b}, h.p, list)
    ensures b.counter.metadata == (b in h.w.blocks)
  {}

  /** `drop_metadata`, then `cc_dealloc`, for a box that is in none of the containers any more. */
  method FreeBox(rt: Runtime, b: CcBox, ghost h: Heap<CcBox>, ghost list: set<CcBox>) returns (ghost h': Heap<CcBox>)
    requires rt.SyncedWith(h, list) && b in h.kids && b !in h.p && b !in list
    modifies rt`blocks, rt.metadatas`weak, rt`allocatedBytes, rt`values
    ensures h' == Freed(h, b) && rt.SyncedWith(h', list)
    ensures b !in h.list ==> h'.list == h.list
    ensures forall c | c in rt.blocks :: c in old(rt.blocks) && rt.blocks[c] == old(rt.blocks)[c]
  {
    hide Runtime.Cells, Runtime.Containers, Runtime.Blocks, Runtime.Memory;
    FreedIsSynced(rt, h, b, list);
    DropMetadata(rt, b, h.kids.Keys, h.w);
    Dealloc(rt, b, h.kids);
    h' := Freed(h, b);
  }
}

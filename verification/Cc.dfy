/** `Cc::drop`: dropping pointers, with the finalizers and destructors this causes. */
module Ccs {
  import opened Heaps
  import opened HeapRuns
  import opened Cascades
  import opened DropSteps
  import opened Logs
  import opened Lists
  import opened Runtimes
  import opened Effects

  lemma CellsOf(rt: Runtime, h: Heap<CcBox>, b: CcBox)
    requires rt.Synced(h) && b in h.kids
    ensures b in h.rc && b.counter.rc == h.rc[b] && b.counter.finalized == (b in h.fin)
    ensures (b.tracing.IsInListOrQueue() <==> b in h.list) && h.p <= h.kids.Keys
  {}

  /** `Finalize::finalize` of the value in `b`: any code of the program.  The contract allows every
      sequence of steps that such code can cause to be made, unless the finalizer is one that does nothing;
      callers rely on nothing else. */
  method RunFinalizer(rt: Runtime, b: CcBox, ghost h: Heap<CcBox>)
    returns (ghost steps: seq<Step<CcBox>>, ghost h': Heap<CcBox>)
    requires rt.Synced(h) && FinalizerMay(h, b)
    modifies rt, rt.pc, rt.config, h.kids.Keys, rt.metadatas
    ensures rt.Synced(h') && FinalizerRan(h, steps, h') && Logged(old(rt.log).Calling(b), steps, rt.log)
    ensures rt.silent(b) ==> steps == [] && h' == h && rt.ByCode() == old(rt.ByCode())
    ensures h.collecting ==>
      rt.nonRootList == old(rt.nonRootList) && rt.Counts() == old(rt.Counts())
    ensures (forall c | c in h'.kids :: c in h.kids || fresh(c)) && fresh(rt.metadatas - old(rt.metadatas))
  {
    hide Runtime.Synced, FinalizerRan, FinalizerMay;
    rt.log := rt.log.Calling(b);
    steps, h' := [], h;
    NothingLogged(rt.log);
    NothingRan(h);
  }

  lemma SyncedIgnoresPending(rt: Runtime, h: Heap<CcBox>, pending: multiset<CcBox>)
    requires rt.Synced(h)
    ensures rt.Synced(h.(pending := pending))
  {
    hide Runtime.Cells, Runtime.Containers, Runtime.Blocks, Runtime.Memory;
  }

  /** `handle_possible_cycle` */
  method HandlePossibleCycle(rt: Runtime, b: CcBox, ghost h: Heap<CcBox>) returns (ghost h': Heap<CcBox>)
    requires rt.Synced(h) && b in h.kids && b in h.rc && b !in h.list && b !in h.dropped
    modifies rt.pc, h.p`prev, b`next, b`tracing, b`counter
    ensures h' == Lost(h, b) && rt.Synced(h')
  {
    hide Runtime.Synced;
    h' := DecrementCounter(rt, b, h);
    SyncedIgnoresPending(rt, h', h.pending - multiset{b});
    h' := AddToList(rt, b, h'.(pending := h.pending - multiset{b}));
  }

  /** The drop of a `Cc` to a box that is in a list of the collector. */
  method LoseListed(rt: Runtime, b: CcBox, ghost h: Heap<CcBox>) returns (ghost h': Heap<CcBox>)
    requires rt.Synced(h) && b in h.kids && b in h.rc && b in h.list
    modifies b`counter
    ensures h' == Lost(h, b) && rt.Synced(h')
  {
    hide Runtime.Synced;
    h' := DecrementCounter(rt, b, h);
    SyncedIgnoresPending(rt, h', h.pending - multiset{b});
    h' := h'.(pending := h.pending - multiset{b});
  }

  /** Run the finalizer of a box whose last `Cc` is being dropped. */
  method FinalizeDropped(rt: Runtime, b: CcBox, ghost h: Heap<CcBox>)
    returns (guard: bool, ghost fs: seq<Step<CcBox>>, ghost m: Heap<CcBox>)
    requires rt.Synced(h) && b in h.kids && LastUnfinalized(h, b)
    modifies rt, rt.pc, rt.config, h.kids.Keys, rt.metadatas
    ensures rt.Synced(m) && AfterFinalizer(h, b, fs, m) && guard == h.finalizing
    ensures Logged(old(rt.log).Calling(b), fs, rt.log)
    ensures rt.silent(b) ==> m == StartedFinalizer(h, b) && rt.ByCode() == old(rt.ByCode())
    ensures h.collecting ==>
      rt.nonRootList == old(rt.nonRootList) && rt.Counts() == old(rt.Counts())
    ensures (forall c | c in m.kids :: c in h.kids || fresh(c)) && fresh(rt.metadatas - old(rt.metadatas))
  {
    hide Runtime.Synced, FinalizerMay, FinalizerRan, LastUnfinalized, LastFinalized, MayDrop;
    hide Heap.Unfinalized, ProgramRun, Then, Heap.Valid, LastCc, UserPhase;
    StartFinalizer(h, b);
    ghost var h': Heap<CcBox>;
    guard, h' := SetFinalizing(rt, true, h);
    h' := SetFinalized(rt, b, true, h');
    fs, m := RunFinalizer(rt, b, h');
    FinalizerReturned(h', b, fs, m);
  }

  /** The finalizer has returned.  If it made another `Cc` to the box, the dropped one is gone. */
  method EndFinalizer(rt: Runtime, b: CcBox, guard: bool, ghost h: Heap<CcBox>, ghost fs: seq<Step<CcBox>>,
                      ghost m: Heap<CcBox>)
    returns (resurrected: bool, ghost h': Heap<CcBox>)
    requires rt.Synced(m) && AfterFinalizer(h, b, fs, m) && guard == h.finalizing
    modifies rt`finalizing, rt.pc, m.kids.Keys
    ensures rt.Synced(h') && Finalized(h, FinalizedSteps(h, b, fs, resurrected), h') && h'.kids == m.kids
    ensures b in m.rc && (resurrected <==> m.rc[b] != 1)
    ensures if resurrected then h'.pending == h.pending - multiset{b}
            else h' == m.(finalizing := h.finalizing) && h'.pending == h.pending && LastFinalized(h', b)
  {
    hide Runtime.Synced, LastUnfinalized, LastFinalized, MayDrop, Finalized, FinalizedSteps, AfterFinalizer;
    AfterFinalizerHeap(h, b, fs, m);
    CellsOf(rt, m, b);
    resurrected, h' := b.counter.rc != 1, m;
    if resurrected {
      Resurrected(h, b, fs, m);
      h' := HandlePossibleCycle(rt, b, m);
    } else {
      NotResurrected(h, b, fs, m);
    }
    var oldValue: bool;
    oldValue, h' := SetFinalizing(rt, guard, h');
  }

  /** A box is resurrected by a step of the program. */
  lemma Resurrects<T>(h: Heap<T>, b: T, fs: seq<Step<T>>, m: Heap<T>, before: Log<T>, after: Log<T>)
    requires AfterFinalizer(h, b, fs, m) && Logged(before.Calling(b), fs, after)
    ensures b in m.rc && (m.rc[b] != 1 ==> after.ran != before.ran) && before.calls + [b] <= after.calls
  {
    hide AfterFinalizer;
    AfterFinalizerHeap(h, b, fs, m);
    if after.ran == before.ran {
      NotResurrectedByNothing(h, b, fs, m);
    }
  }

  lemma StartedKeepsCount<T>(h: Heap<T>, b: T)
    requires LastUnfinalized(h, b)
    ensures b in h.rc && h.rc[b] == 1 && b in h.kids && StartedFinalizer(h, b).rc == h.rc
    ensures StartedFinalizer(h, b).(finalizing := h.finalizing) == h.(fin := h.fin + {b})
  {}

  /** The finalizer of a box whose last `Cc` is being dropped.  Returns true if it made another `Cc` to
      the box, which has lost the dropped one then. */
  method FinalizeLast(rt: Runtime, b: CcBox, ghost h: Heap<CcBox>)
    returns (resurrected: bool, ghost steps: seq<Step<CcBox>>, ghost h': Heap<CcBox>)
    requires rt.Synced(h) && b in h.kids && LastUnfinalized(h, b)
    modifies rt, rt.pc, rt.config, h.kids.Keys, rt.metadatas
    ensures rt.Synced(h') && Finalized(h, steps, h') && Logged(old(rt.log), steps, rt.log)
    ensures old(rt.log.calls) + [b] <= rt.log.calls && (resurrected ==> rt.log.ran != old(rt.log.ran))
    ensures h.collecting ==>
      rt.nonRootList == old(rt.nonRootList) && rt.Counts() == old(rt.Counts())
    ensures if resurrected then h'.pending == h.pending - multiset{b}
            else h'.pending == h.pending && LastFinalized(h', b)
    ensures rt.silent(b) ==> !resurrected && h' == h.(fin := h.fin + {b}) && rt.ByCode() == old(rt.ByCode())
    ensures (forall c | c in h'.kids :: c in h.kids || fresh(c)) && fresh(rt.metadatas - old(rt.metadatas))
  {
    hide Runtime.Synced, LastUnfinalized, LastFinalized, MayDrop, Finalized, FinalizedSteps, AfterFinalizer;
    hide Runtime.ByCode, Logged;
    var guard: bool;
    ghost var fs: seq<Step<CcBox>>, m: Heap<CcBox>;
    guard, fs, m := FinalizeDropped(rt, b, h);
    StartedKeepsCount(h, b);
    resurrected, h' := EndFinalizer(rt, b, guard, h, fs, m);
    steps := FinalizedSteps(h, b, fs, resurrected);
    FinalizedLogged(h, b, fs, resurrected, old(rt.log), rt.log);
    Resurrects(h, b, fs, m, old(rt.log), rt.log);
  }

  /** The start of the end of a box: its last `Cc` is gone, and its value is being dropped. */
  method StartDestructor(rt: Runtime, b: CcBox, ghost h: Heap<CcBox>)
    returns (guard: bool, fields: seq<CcBox>, ghost h': Heap<CcBox>)
    requires rt.Synced(h) && b in h.kids && b in h.rc && h.rc[b] == 1 && b !in h.list && h.p <= h.kids.Keys
    modifies rt`dropping, rt`values, rt.pc, h.kids.Keys
    ensures rt.Synced(h') && guard == h.dropping && fields == h.kids[b]
    ensures h' == InDestructor(h, b)
  {
    hide Runtime.Synced;
    h' := DecrementCounter(rt, b, h);
    h' := RemoveFromList(rt, b, h');
    guard, h' := SetDropping(rt, true, h');
    h' := SetDropped(rt, b, h');
    fields, h' := TakeFields(rt, b, h');
    SyncedIgnoresPending(rt, h', h.pending + multiset(fields) - multiset{b});
    h' := h'.(pending := h.pending + multiset(fields) - multiset{b});
  }

  /** ... and its end: the box is freed, and the guard restores the flag. */
  method FinishDestructor(rt: Runtime, b: CcBox, guard: bool, ghost before: Heap<CcBox>, ghost h: Heap<CcBox>)
    returns (ghost h': Heap<CcBox>)
    requires rt.Synced(h) && b in h.kids && b !in h.p && b !in h.list && guard == before.dropping
    modifies rt`dropping, rt`allocatedBytes, rt`values, rt`blocks, rt.metadatas`weak
    ensures rt.Synced(h') && h' == Outcome(before, b, h) && h'.kids.Keys == h.kids.Keys - {b}
  {
    hide Runtime.SyncedWith;
    var d: bool;
    h' := FreeBox(rt, b, h, h.list);
    d, h' := SetDropping(rt, guard, h');
  }

  /** `Cc::drop`.  What it does besides drop glue is the doing of finalizers; a box that its finalizer has not
      resurrected is freed. */
  method DropCc(rt: Runtime, b: CcBox, ghost h: Heap<CcBox>)
    returns (ghost steps: seq<Step<CcBox>>, ghost freed: seq<CcBox>, ghost h': Heap<CcBox>)
    requires rt.Synced(h) && MayDrop(h, b)
    modifies rt, rt.pc, rt.config, h.kids.Keys, rt.metadatas
    ensures rt.Synced(h') && Drops(h, b, rt.silent, steps, freed, h')
    ensures LastCc(h, b) && b !in h.fin ==> old(rt.log.calls) + [b] <= rt.log.calls
    ensures LastCc(h, b) && (b in h.fin || rt.silent(b) || rt.log.ran == old(rt.log.ran)) ==> b !in h'.kids
    ensures rt.log.ran == old(rt.log.ran) ==> h'.handles == h.handles
    ensures Logged(old(rt.log), steps, rt.log) && (NoFinalizers(h) ==> rt.log.calls == old(rt.log.calls))
    ensures Hushed(h, rt.silent) ==> rt.ByCode() == old(rt.ByCode())
    ensures h.collecting ==>
      rt.nonRootList == old(rt.nonRootList) && rt.Counts() == old(rt.Counts())
    ensures (forall c | c in h'.kids :: c in h.kids || fresh(c)) && fresh(rt.metadatas - old(rt.metadatas))
    decreases h.Unfinalized(), h.Live(), 3
  {
    hide Runtime.Synced, MayDrop, Drops, Finalized, LastFinalized, LastUnfinalized, Heap.Unfinalized, Heap.Live, Then;
    hide NoFinalizers, LastCc, Hushed, Logged;
    DroppedBoxHasItsValue(h, b);
    CellsOf(rt, h, b);
    if b.tracing.IsInListOrQueue() {
      LosesOne(h, b, rt.silent, rt.log);
      steps, freed := [Lose(b)], [];
      h' := LoseListed(rt, b, h);
      return;
    }
    if b.counter.rc != 1 {
      LosesOne(h, b, rt.silent, rt.log);
      steps, freed := [Lose(b)], [];
      h' := HandlePossibleCycle(rt, b, h);
      return;
    }
    LastIsLast(h, b);
    steps, freed, h' := DropOnly(rt, b, h);
    KeepsHandles(h, b, rt.silent, steps, freed, h', old(rt.log), rt.log);
  }

  lemma LosesOne<T>(h: Heap<T>, b: T, silent: T -> bool, log: Log<T>)
    requires MayDrop(h, b) && b in h.rc && (b in h.list || h.rc[b] != 1)
    ensures Drops(h, b, silent, [Lose(b)], [], Lost(h, b)) && !LastCc(h, b)
    ensures Logged(log, [Lose(b)], log) && Lost(h, b).handles == h.handles
  {
    hide Drops, MayDrop, Logged;
    LoseDrops(h, b, silent);
    NotLast(h, b);
    StepLogged(log, Lose(b));
  }

  /** Only the program changes what it holds. */
  lemma KeepsHandles<T>(h: Heap<T>, b: T, silent: T -> bool, steps: seq<Step<T>>, freed: seq<T>, h': Heap<T>,
                        before: Log<T>, after: Log<T>)
    requires h.Valid() && Drops(h, b, silent, steps, freed, h') && Logged(before, steps, after)
    ensures after.ran == before.ran ==> h'.handles == h.handles
  {
    if after.ran == before.ran {
      ProgramRunIsRun(h, steps, h', GuardsOf(h));
      NothingMade(h, steps, h');
    }
  }

  /** `Cc::drop` of a last `Cc`. */
  method DropOnly(rt: Runtime, b: CcBox, ghost h: Heap<CcBox>)
    returns (ghost steps: seq<Step<CcBox>>, ghost freed: seq<CcBox>, ghost h': Heap<CcBox>)
    requires rt.Synced(h) && b in h.kids && if b in h.fin then LastFinalized(h, b) else LastUnfinalized(h, b)
    modifies rt, rt.pc, rt.config, h.kids.Keys, rt.metadatas
    ensures rt.Synced(h') && Drops(h, b, rt.silent, steps, freed, h')
    ensures b !in h.fin ==> old(rt.log.calls) + [b] <= rt.log.calls
    ensures b in h.fin || rt.silent(b) || rt.log.ran == old(rt.log.ran) ==> b !in h'.kids
    ensures Logged(old(rt.log), steps, rt.log) && (NoFinalizers(h) ==> rt.log.calls == old(rt.log.calls))
    ensures Hushed(h, rt.silent) ==> rt.ByCode() == old(rt.ByCode())
    ensures h.collecting ==>
      rt.nonRootList == old(rt.nonRootList) && rt.Counts() == old(rt.Counts())
    ensures (forall c | c in h'.kids :: c in h.kids || fresh(c)) && fresh(rt.metadatas - old(rt.metadatas))
    decreases h.Unfinalized(), h.Live(), 2
  {
    hide Runtime.Synced, MayDrop, Drops, Finalized, LastFinalized, LastUnfinalized, Heap.Unfinalized, Heap.Live, Then;
    hide NoFinalizers, LastCc, Logged, Hushed;
    CellsOf(rt, h, b);
    LastNeedsFinalizers(h, b, rt.silent);
    if !b.counter.finalized {
      var resurrected: bool;
      resurrected, steps, h' := FinalizeLast(rt, b, h);
      if resurrected {
        ResurrectedDrops(h, b, rt.silent, steps, h');
        freed := [];
        return;
      }
      FinalizedShrinks(h, steps, h');
      ghost var m, log, byCode := h', rt.log, rt.ByCode();
      ghost var s: seq<Step<CcBox>>;
      s, freed, h' := DropLast(rt, b, h');
      FinalizedDrops(h, b, rt.silent, steps, m, s, freed, h');
      StaysHushed(h, steps, m, rt.silent);
      LoggedThen(old(rt.log), steps, log, s, rt.log);
      LogGrows(log, s, rt.log);
      steps := Then(steps, s);
    } else {
      steps, freed, h' := DropLast(rt, b, h);
    }
  }

  lemma StaysHushed<T>(h: Heap<T>, steps: seq<Step<T>>, m: Heap<T>, silent: T -> bool)
    requires Finalized(h, steps, m)
    ensures Hushed(h, silent) ==> Hushed(m, silent)
  {
    hide Heap.Valid, ProgramRun;
  }

  lemma LogGrows<T>(before: Log<T>, steps: seq<Step<T>>, after: Log<T>)
    requires Logged(before, steps, after)
    ensures before.calls <= after.calls
  {}

  /** `Cc::drop` of a last `Cc`, when the value is finalized. */
  method DropLast(rt: Runtime, b: CcBox, ghost h: Heap<CcBox>)
    returns (ghost steps: seq<Step<CcBox>>, ghost freed: seq<CcBox>, ghost h': Heap<CcBox>)
    requires rt.Synced(h) && LastFinalized(h, b)
    modifies rt, rt.pc, rt.config, h.kids.Keys, rt.metadatas
    ensures rt.Synced(h') && Drops(h, b, rt.silent, steps, freed, h') && b in freed && b !in h'.kids
    ensures Logged(old(rt.log), steps, rt.log) && (NoFinalizers(h) ==> rt.log.calls == old(rt.log.calls))
    ensures Hushed(h, rt.silent) ==> rt.ByCode() == old(rt.ByCode())
    ensures h.collecting ==>
      rt.nonRootList == old(rt.nonRootList) && rt.Counts() == old(rt.Counts())
    ensures (forall c | c in h'.kids :: c in h.kids || fresh(c)) && fresh(rt.metadatas - old(rt.metadatas))
    decreases h.Unfinalized(), h.Live(), 1
  {
    hide Heap.Valid, LastCc, Returned, Progress, Freed, Destroyed, Then, Cascade, Elements, MayDrop;
    hide Heap.Unfinalized, Heap.Live, Logged, Hushed, Runtime.ByCode, Runtime.Counts;
    hide Runtime.Synced, LastFinalized, DropsAll, Drops, InDestructor, LastSteps, Outcome, MayDropAll, NoFinalizers;
    BeforeFields(h, b, rt.silent);
    var guard: bool;
    ghost var s: seq<Step<CcBox>>;
    guard, s, freed, h' := DropValue(rt, b, h);
    AfterFields(h, b, rt.silent, s, freed, h');
    h' := FinishDestructor(rt, b, guard, h, h');
    LastLogged(h, b, s, old(rt.log), rt.log);
    steps, freed := LastSteps(h, b, s), [b] + freed;
  }

  /** Drop the value in `b`. */
  method DropValue(rt: Runtime, b: CcBox, ghost h: Heap<CcBox>)
    returns (guard: bool, ghost steps: seq<Step<CcBox>>, ghost freed: seq<CcBox>, ghost m: Heap<CcBox>)
    requires rt.Synced(h) && b in h.kids && LastFinalized(h, b)
    modifies rt, rt.pc, rt.config, h.kids.Keys, rt.metadatas
    ensures rt.Synced(m) && DropsAll(InDestructor(h, b), multiset(h.kids[b]), rt.silent, steps, freed, m)
    ensures guard == h.dropping
    ensures Logged(old(rt.log), steps, rt.log) && (NoFinalizers(h) ==> rt.log.calls == old(rt.log.calls))
    ensures Hushed(h, rt.silent) ==> rt.ByCode() == old(rt.ByCode())
    ensures h.collecting ==>
      rt.nonRootList == old(rt.nonRootList) && rt.Counts() == old(rt.Counts())
    ensures (forall c | c in m.kids :: c in h.kids || fresh(c)) && fresh(rt.metadatas - old(rt.metadatas))
    decreases h.Unfinalized(), h.Live(), 0
  {
    hide Heap.Valid, LastCc, Returned, Progress, Freed, Destroyed, Then, Cascade, Elements, MayDrop, Logged, Hushed;
    hide Runtime.Synced, LastFinalized, DropsAll, MayDropAll, InDestructor, Heap.Unfinalized, Heap.Live, NoFinalizers;
    hide DroppedInOrder, StepsOf, HeapAfter, Uneventful, Runtime.ByCode, Runtime.Counts;
    BeforeFields(h, b, rt.silent);
    CellsOf(rt, h, b);
    var fields: seq<CcBox>;
    guard, fields, m := StartDestructor(rt, b, h);
    ghost var drops: seq<Dropped<CcBox>>;
    steps, freed, drops, m := DropFields(rt, fields, m);
  }

  /** Drop glue: the `Cc`s in the fields of a value are dropped in order. */
  method DropFields(rt: Runtime, fields: seq<CcBox>, ghost h: Heap<CcBox>)
    returns (ghost steps: seq<Step<CcBox>>, ghost freed: seq<CcBox>, ghost drops: seq<Dropped<CcBox>>,
             ghost h': Heap<CcBox>)
    requires rt.Synced(h) && MayDropAll(h, fields)
    modifies rt, rt.pc, rt.config, h.kids.Keys, rt.metadatas
    ensures rt.Synced(h') && DropsAll(h, multiset(fields), rt.silent, steps, freed, h')
    ensures DroppedInOrder(h, fields, rt.silent, drops) && steps == StepsOf(drops) && h' == HeapAfter(h, drops)
    ensures Logged(old(rt.log), steps, rt.log) && (NoFinalizers(h) ==> rt.log.calls == old(rt.log.calls))
    ensures Hushed(h, rt.silent) ==> rt.ByCode() == old(rt.ByCode())
    ensures h.collecting ==>
      rt.nonRootList == old(rt.nonRootList) && rt.Counts() == old(rt.Counts())
    ensures (forall c | c in h'.kids :: c in h.kids || fresh(c)) && fresh(rt.metadatas - old(rt.metadatas))
    decreases h.Unfinalized(), h.Live(), 4
  {
    hide Runtime.Synced, DropsAll, Drops, MayDropAll, MayDrop, Heap.Unfinalized, Heap.Live, Then, Heap.Valid;
    hide NoFinalizers, Hushed, Logged, DroppedInOrder, HeapAfter, StepsOf;
    steps, freed, drops, h' := [], [], [], h;
    NothingDropped(h, fields, rt.silent);
    NothingLogged(rt.log);
    NothingInOrder(h, rt.silent);
    var i := 0;
    while i < |fields|
      invariant 0 <= i <= |fields|
      invariant rt.Synced(h') && DropsAll(h, multiset(fields[..i]), rt.silent, steps, freed, h')
      invariant DroppedInOrder(h, fields[..i], rt.silent, drops) && steps == StepsOf(drops) && h' == HeapAfter(h, drops)
      invariant Logged(old(rt.log), steps, rt.log) && (NoFinalizers(h) ==> rt.log.calls == old(rt.log.calls))
      invariant Hushed(h, rt.silent) ==> rt.ByCode() == old(rt.ByCode())
      invariant h.collecting ==>
        rt.nonRootList == old(rt.nonRootList) && rt.Counts() == old(rt.Counts())
      invariant (forall c | c in h'.kids :: c in h.kids || fresh(c)) && fresh(rt.metadatas - old(rt.metadatas))
    {
      ghost var s: seq<Step<CcBox>>, f: seq<CcBox>, m: Heap<CcBox>, log := [], [], h', rt.log;
      DropsAllHeap(h, multiset(fields[..i]), rt.silent, steps, freed, h');
      StillNoFinalizers(h, h', rt.silent);
      MayDropNext(h, fields, i, h');
      s, f, m := DropCc(rt, fields[i], h');
      DropNext(h, multiset(fields[..i]), rt.silent, steps, freed, h', fields[i], s, f, m);
      DroppedNext(h, fields[..i], rt.silent, drops, fields[i], Dropped(s, f, m));
      LoggedThen(old(rt.log), steps, log, s, rt.log);
      steps, freed, drops, h' := Then(steps, s), freed + f, drops + [Dropped(s, f, m)], m;
      OneMore(fields, i);
      i := i + 1;
    }
    assert fields[..i] == fields;
  }

  lemma NothingInOrder<T>(h: Heap<T>, silent: T -> bool)
    ensures DroppedInOrder(h, [], silent, []) && StepsOf<T>([]) == [] && HeapAfter(h, []) == h
  {}

  lemma OneMore(s: seq<CcBox>, i: nat)
    requires i < |s|
    ensures s[..i + 1] == s[..i] + [s[i]] && multiset(s[..i + 1]) == multiset(s[..i]) + multiset{s[i]}
  {}
}

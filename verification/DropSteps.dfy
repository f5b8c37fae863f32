/** `Cc::drop` as steps of the machine: each part of it is a run of the program that keeps every
    invariant, and it makes progress. */
module DropSteps {
  import opened Graph
  import opened WeakTables
  import opened Heaps
  import opened Coverage
  import opened HeapRuns
  import opened Cascades
  import opened Logs

  /** None of the finalizers of these boxes does anything. */
  ghost predicate AllSilent<T>(boxes: set<T>, silent: T -> bool) { forall n | n in boxes :: silent(n) }

  /** No finalizer that may still be called does anything. */
  ghost predicate Uneventful<T>(h: Heap<T>, silent: T -> bool) { AllSilent(h.Unfinalized(), silent) }

  /** A call has returned: what it was in the middle of is over. */
  ghost predicate Returned<T>(h: Heap<T>, h': Heap<T>) {
    && SamePass(h, h')
    && h'.dropped == h.dropped && h'.building == h.building
    && h'.finalizing == h.finalizing && h'.dropping == h.dropping
  }

  /** Fewer boxes to finalize, or as many of them and no more values. */
  ghost predicate Progress<T>(h: Heap<T>, h': Heap<T>) {
    && h'.Unfinalized() <= h.Unfinalized()
    && (h'.Unfinalized() == h.Unfinalized() ==> h'.Live() <= h.Live())
  }

  // ----- the parts of a drop ----------------------------------------------------------------------------

  ghost predicate MayDrop<T>(h: Heap<T>, b: T) { h.Valid() && Dropping(h, b) }

  /** What dropping a `Cc` to `b` does.  The cascade is exact unless a finalizer does something. */
  ghost predicate Drops<T>(h: Heap<T>, b: T, silent: T -> bool, steps: seq<Step<T>>, freed: seq<T>, h': Heap<T>) {
    && Does(h, steps, h') && Returned(h, h') && Progress(h, h')
    && h'.pending == h.pending - multiset{b}
    && (h.phase.Deallocating? ==> OnlyLost(h, h'))
    && (Uneventful(h, silent) ==> Cascade(h, multiset{b}, freed, h'))
  }

  ghost predicate MayDropAll<T>(h: Heap<T>, ccs: seq<T>) {
    && h.Valid() && !h.phase.Listed?
    && multiset(ccs) + (if h.phase.Deallocating? then h.phase.outer else multiset{}) <= h.pending
  }

  /** Some `Cc`s are gone, and nothing else has changed but counters and candidates. */
  ghost predicate OnlyLost<T>(h: Heap<T>, h': Heap<T>) {
    h' == h.(rc := h'.rc, pending := h'.pending, p := h'.p)
  }

  /** What dropping the `Cc`s `lost` one after the other does. */
  ghost predicate DropsAll<T>(h: Heap<T>, lost: multiset<T>, silent: T -> bool, steps: seq<Step<T>>, freed: seq<T>,
                              h': Heap<T>) {
    && Does(h, steps, h') && Returned(h, h') && Progress(h, h')
    && h'.pending == h.pending - lost
    && (h.phase.Deallocating? ==> OnlyLost(h, h'))
    && (Uneventful(h, silent) ==> Cascade(h, lost, freed, h'))
  }

  /** One drop out of several: its steps, the boxes it freed, and the heap it left. */
  datatype Dropped<T> = Dropped(steps: seq<Step<T>>, freed: seq<T>, after: Heap<T>)

  ghost function HeapAfter<T>(h: Heap<T>, drops: seq<Dropped<T>>): Heap<T> {
    if drops == [] then h else drops[|drops| - 1].after
  }

  ghost function StepsOf<T>(drops: seq<Dropped<T>>): seq<Step<T>> {
    if drops == [] then [] else Then(StepsOf(drops[..|drops| - 1]), drops[|drops| - 1].steps)
  }

  /** The `Cc`s have been dropped one after the other, in this order. */
  ghost predicate DroppedInOrder<T>(h: Heap<T>, ccs: seq<T>, silent: T -> bool, drops: seq<Dropped<T>>) {
    && |drops| == |ccs|
    && forall i | 0 <= i < |ccs| ::
         Drops(HeapAfter(h, drops[..i]), ccs[i], silent, drops[i].steps, drops[i].freed, drops[i].after)
  }

  lemma DroppedNext<T>(h: Heap<T>, ccs: seq<T>, silent: T -> bool, drops: seq<Dropped<T>>, b: T, d: Dropped<T>)
    requires DroppedInOrder(h, ccs, silent, drops) && Drops(HeapAfter(h, drops), b, silent, d.steps, d.freed, d.after)
    ensures DroppedInOrder(h, ccs + [b], silent, drops + [d])
    ensures StepsOf(drops + [d]) == Then(StepsOf(drops), d.steps) && HeapAfter(h, drops + [d]) == d.after
  {
    hide Drops;
    var all := drops + [d];
    assert all[..|drops|] == drops;
    forall i | 0 <= i < |all|
      ensures Drops(HeapAfter(h, all[..i]), (ccs + [b])[i], silent, all[i].steps, all[i].freed, all[i].after)
    {
      if i < |drops| { assert all[..i] == drops[..i]; }
    }
  }

  /** Drops cannot cause finalizers to run. */
  ghost predicate NoFinalizers<T>(h: Heap<T>) { h.phase.Deallocating? || h.Unfinalized() == {} }

  /** ... or none that does anything. */
  ghost predicate Hushed<T>(h: Heap<T>, silent: T -> bool) { h.phase.Deallocating? || Uneventful(h, silent) }

  /** The finalizer of `b` may run: its last `Cc` is being dropped, or it is in the non-root list. */
  ghost predicate FinalizerMay<T>(h: Heap<T>, b: T) {
    h.Valid() && UserPhase(h) && h.finalizing && (b in h.pending || b in h.list)
  }

  /** What a finalizer may do: anything the program can, as long as it ends. */
  ghost predicate FinalizerRan<T>(h: Heap<T>, steps: seq<Step<T>>, h': Heap<T>) {
    ProgramRun(h, steps, h', Guards(true, h.collecting)) && Returned(h, h') && h'.pending == h.pending
  }

  ghost predicate LastUnfinalized<T>(h: Heap<T>, b: T) { h.Valid() && LastCc(h, b) && b !in h.fin }

  ghost predicate LastFinalized<T>(h: Heap<T>, b: T) { h.Valid() && LastCc(h, b) && b in h.fin }

  /** The finalizer has run, and flags and calls are as before. */
  ghost predicate Finalized<T>(h: Heap<T>, steps: seq<Step<T>>, h': Heap<T>) {
    && Does(h, steps, h') && Returned(h, h')
    && h'.Unfinalized() < h.Unfinalized()
  }

  // ----- not the last `Cc` ------------------------------------------------------------------------------

  lemma DroppedBoxHasItsValue<T>(h: Heap<T>, b: T)
    requires MayDrop(h, b)
    ensures b in h.kids && b in h.rc && h.rc[b] > 0 && b !in h.building
    ensures b !in h.list ==> b !in h.dropped
  {}

  lemma MayLose<T>(h: Heap<T>, b: T, g: Guards)
    requires MayDrop(h, b) && (b in h.list || h.rc[b] != 1)
    ensures h.Valid() && ProgramMay(h, Lose(b), g) && b in h.rc && Apply(h, Lose(b)) == Lost(h, b)
  {
    hide Apply, Enabled;
    LoseEffect(h, b);
  }

  lemma LoseSteps<T>(h: Heap<T>, b: T, g: Guards)
    requires MayDrop(h, b) && (b in h.list || h.rc[b] != 1)
    ensures ProgramRun(h, [Lose(b)], Lost(h, b), g) && Lost(h, b).Valid()
    ensures Returned(h, Lost(h, b)) && Progress(h, Lost(h, b))
    ensures Cascade(h, multiset{b}, [], Lost(h, b))
  {
    hide Heap.Valid, ProgramMay, Apply, Cascade, ProgramRun, Dropping;
    MayLose(h, b, g);
    OneStep(h, Lose(b), g);
    LostIsProgress(h, b);
  }

  lemma LostIsProgress<T>(h: Heap<T>, b: T)
    requires MayDrop(h, b) && b in h.rc && (b in h.list || h.rc[b] != 1)
    ensures Returned(h, Lost(h, b)) && Progress(h, Lost(h, b)) && Cascade(h, multiset{b}, [], Lost(h, b))
  {
    hide Cascade;
    LoseCascades(h, b);
  }

  lemma LoseDrops<T>(h: Heap<T>, b: T, silent: T -> bool)
    requires MayDrop(h, b) && (b in h.list || h.rc[b] != 1)
    ensures Drops(h, b, silent, [Lose(b)], [], Lost(h, b))
  {
    LoseSteps(h, b, GuardsOf(h));
  }

  // ----- the last `Cc` ----------------------------------------------------------------------------------

  /** While a group is being dropped no `Cc` is the last one to an outside box. */
  lemma LastIsLast<T>(h: Heap<T>, b: T)
    requires MayDrop(h, b) && b !in h.list && h.rc[b] == 1
    ensures LastCc(h, b) && b in h.Live()
    ensures if b in h.fin then LastFinalized(h, b) else LastUnfinalized(h, b)
  {
    if h.phase.Deallocating? {
      OutsidersKeepAReference(h, b);
    }
  }

  lemma NothingRan<T>(h: Heap<T>)
    ensures FinalizerRan(h, [], h)
  {}

  lemma NotLast<T>(h: Heap<T>, b: T)
    requires MayDrop(h, b) && (b in h.list || h.rc[b] != 1)
    ensures !LastCc(h, b)
  {}

  lemma LastNeedsFinalizers<T>(h: Heap<T>, b: T, silent: T -> bool)
    requires b in h.fin || LastUnfinalized(h, b)
    ensures b in h.fin || (!NoFinalizers(h) && (Hushed(h, silent) ==> silent(b)))
  {
    if b !in h.fin { assert b in h.Unfinalized(); }
  }

  lemma StillNoFinalizers<T>(h: Heap<T>, m: Heap<T>, silent: T -> bool)
    requires SamePass(h, m) && Progress(h, m)
    ensures (NoFinalizers(h) ==> NoFinalizers(m)) && (Hushed(h, silent) ==> Hushed(m, silent))
  {}

  ghost function StartedFinalizer<T>(h: Heap<T>, b: T): Heap<T> {
    h.(finalizing := true, fin := h.fin + {b})
  }

  lemma StartedHeap<T>(h: Heap<T>, b: T)
    requires LastUnfinalized(h, b)
    ensures b in StartedFinalizer(h, b).pending && LastCc(StartedFinalizer(h, b), b)
    ensures StartedFinalizer(h, b).Unfinalized() < h.Unfinalized()
  {
    assert b in h.Unfinalized() && b !in StartedFinalizer(h, b).Unfinalized();
    assert b in h.Roots() && StartedFinalizer(h, b).Roots() == h.Roots();
  }

  lemma SetFlagsStep<T>(h: Heap<T>, f: bool, d: bool, g: Guards)
    requires h.Valid() && (h.phase.Deallocating? ==> d) && (g.finalizing ==> f)
    ensures ProgramRun(h, [SetFlags(h.collecting, f, d)], h.(finalizing := f, dropping := d), g)
    ensures h.(finalizing := f, dropping := d).Valid()
  {
    hide Apply, Enabled, ProgramRun;
    FlagsEffect(h, h.collecting, f, d);
    OneStep(h, SetFlags(h.collecting, f, d), g);
  }

  /** Another step after a run: a guard puts the flags back. */
  lemma RestoreFlags<T>(h: Heap<T>, steps: seq<Step<T>>, m: Heap<T>, f: bool, d: bool, g: Guards)
    requires m.Valid() && ProgramRun(h, steps, m, g)
    requires (m.phase.Deallocating? ==> d) && (g.finalizing ==> f)
    ensures ProgramRun(h, Then(steps, [SetFlags(m.collecting, f, d)]), m.(finalizing := f, dropping := d), g)
    ensures m.(finalizing := f, dropping := d).Valid()
  {
    hide Heap.Valid, ProgramRun, Then;
    SetFlagsStep(m, f, d, g);
    ProgramRunsCompose(h, steps, m, [SetFlags(m.collecting, f, d)], m.(finalizing := f, dropping := d), g);
  }

  lemma FinalizeStep<T>(h: Heap<T>, b: T, g: Guards)
    requires LastUnfinalized(h, b) && h.finalizing
    ensures ProgramRun(h, [Finalize(b)], h.(fin := h.fin + {b}), g) && h.(fin := h.fin + {b}).Valid()
  {
    hide Apply, Enabled, ProgramRun;
    FinalizeEffect(h, b);
    OneStep(h, Finalize(b), g);
  }

  ghost function FinalizeSteps<T>(h: Heap<T>, b: T): seq<Step<T>> {
    Then([SetFlags(h.collecting, true, h.dropping)], [Finalize(b)])
  }

  lemma StartFinalizer<T>(h: Heap<T>, b: T)
    requires LastUnfinalized(h, b)
    ensures ProgramRun(h, FinalizeSteps(h, b), StartedFinalizer(h, b), GuardsOf(h))
    ensures b in h.kids && FinalizerMay(StartedFinalizer(h, b), b) && LastFinalized(StartedFinalizer(h, b), b)
  {
    StartedHeap(h, b);
    hide Heap.Valid, ProgramRun, Then;
    var s: Step<T> := SetFlags(h.collecting, true, h.dropping);
    var m := h.(finalizing := true);
    SetFlagsStep(h, true, h.dropping, GuardsOf(h));
    FinalizeStep(m, b, GuardsOf(h));
    ProgramRunsCompose(h, [s], m, [Finalize(b)], StartedFinalizer(h, b), GuardsOf(h));
  }

  /** The box survives its finalizer, since the `Cc` being dropped is still there. */
  lemma FinalizerReturned<T>(h: Heap<T>, b: T, fs: seq<Step<T>>, h': Heap<T>)
    requires LastFinalized(h, b) && FinalizerMay(h, b) && FinalizerRan(h, fs, h')
    ensures MayDrop(h', b) && b !in h'.list && b in h'.fin
    ensures h'.Unfinalized() <= h.Unfinalized()
  {
    ProgramRunKeepsPass(h, fs, h', Guards(true, h.collecting));
    assert b in h'.Roots();
  }

  ghost function FinalizedSteps<T>(h: Heap<T>, b: T, fs: seq<Step<T>>, resurrected: bool): seq<Step<T>> {
    var s := Then(FinalizeSteps(h, b), fs);
    Then(if resurrected then Then(s, [Lose(b)]) else s, [SetFlags(h.collecting, h.finalizing, h.dropping)])
  }

  lemma FinalizerRun<T>(h: Heap<T>, b: T, fs: seq<Step<T>>, m: Heap<T>)
    requires LastUnfinalized(h, b) && FinalizerRan(StartedFinalizer(h, b), fs, m)
    ensures ProgramRun(h, Then(FinalizeSteps(h, b), fs), m, GuardsOf(h))
  {
    hide Heap.Valid, ProgramRun, Then;
    StartFinalizer(h, b);
    ProgramRunWeakens(StartedFinalizer(h, b), fs, m, Guards(true, h.collecting), GuardsOf(h));
    ProgramRunsCompose(h, FinalizeSteps(h, b), StartedFinalizer(h, b), fs, m, GuardsOf(h));
  }

  /** After the finalizer of the box whose last `Cc` is being dropped in `h`. */
  ghost predicate AfterFinalizer<T>(h: Heap<T>, b: T, fs: seq<Step<T>>, m: Heap<T>) {
    && LastUnfinalized(h, b) && FinalizerRan(StartedFinalizer(h, b), fs, m)
    && MayDrop(m, b) && b !in m.list && b in m.fin
    && m.Unfinalized() <= StartedFinalizer(h, b).Unfinalized()
  }

  lemma AfterFinalizerHeap<T>(h: Heap<T>, b: T, fs: seq<Step<T>>, m: Heap<T>)
    requires AfterFinalizer(h, b, fs, m)
    ensures b in m.kids && b in m.rc && b !in m.list && b !in m.dropped
  {}

  lemma AppendLose<T>(h: Heap<T>, s: seq<Step<T>>, m: Heap<T>, b: T, g: Guards)
    requires ProgramRun(h, s, m, g) && MayDrop(m, b) && (b in m.list || m.rc[b] != 1)
    ensures ProgramRun(h, Then(s, [Lose(b)]), Lost(m, b), g) && Lost(m, b).Valid()
  {
    hide ProgramRun, Then;
    LoseSteps(m, b, g);
    ProgramRunsCompose(h, s, m, [Lose(b)], Lost(m, b), g);
  }

  /** The finalizer made another `Cc` to the box, and the dropped one is gone. */
  lemma Resurrected<T>(h: Heap<T>, b: T, fs: seq<Step<T>>, m: Heap<T>)
    requires AfterFinalizer(h, b, fs, m) && m.rc[b] != 1
    ensures Finalized(h, FinalizedSteps(h, b, fs, true), Lost(m, b).(finalizing := h.finalizing))
    ensures Lost(m, b).pending == h.pending - multiset{b}
  {
    hide ProgramRun, Then, Heap.Valid, MayDrop, LastUnfinalized, LastFinalized, Lost, Heap.Unfinalized;
    DroppedBoxHasItsValue(m, b);
    LostKeepsPass(m, b);
    DeallocatingIsDropping(m, b);
    var s := Then(FinalizeSteps(h, b), fs);
    StartedHeap(h, b);
    FinalizerRun(h, b, fs, m);
    AppendLose(h, s, m, b, GuardsOf(h));
    RestoreFlags(h, Then(s, [Lose(b)]), Lost(m, b), h.finalizing, h.dropping, GuardsOf(h));
    FlagsFinalizeNothing(Lost(m, b), h.finalizing, h.dropping);
  }

  lemma LostKeepsPass<T>(h: Heap<T>, b: T)
    requires b in h.rc
    ensures Returned(h, Lost(h, b)) && Lost(h, b).Unfinalized() == h.Unfinalized()
    ensures Lost(h, b).pending == h.pending - multiset{b}
  {}

  lemma FlagsFinalizeNothing<T>(h: Heap<T>, f: bool, d: bool)
    ensures h.(finalizing := f, dropping := d).Unfinalized() == h.Unfinalized()
    ensures h.(finalizing := f).Unfinalized() == h.Unfinalized()
  {}

  lemma DeallocatingIsDropping<T>(h: Heap<T>, b: T)
    requires MayDrop(h, b)
    ensures h.phase.Deallocating? ==> h.dropping
  {}

  /** The dropped `Cc` is still the last one. */
  lemma NotResurrected<T>(h: Heap<T>, b: T, fs: seq<Step<T>>, m: Heap<T>)
    requires AfterFinalizer(h, b, fs, m) && m.rc[b] == 1
    ensures Finalized(h, FinalizedSteps(h, b, fs, false), m.(finalizing := h.finalizing))
    ensures LastFinalized(m.(finalizing := h.finalizing), b) && m.pending == h.pending
  {
    hide ProgramRun, Then, Heap.Valid, MayDrop, LastUnfinalized, LastFinalized, Heap.Unfinalized;
    AfterFinalizerHeap(h, b, fs, m);
    DeallocatingIsDropping(m, b);
    LastIsLast(m, b);
    LastIgnoresFlags(m, b, h.finalizing);
    var s := Then(FinalizeSteps(h, b), fs);
    StartedHeap(h, b);
    FinalizerRun(h, b, fs, m);
    RestoreFlags(h, s, m, h.finalizing, h.dropping, GuardsOf(h));
    FlagsFinalizeNothing(m, h.finalizing, h.dropping);
  }

  lemma LastIgnoresFlags<T>(h: Heap<T>, b: T, f: bool)
    requires LastFinalized(h, b)
    ensures LastFinalized(h.(finalizing := f), b)
  {
    SetFlagsStep(h, f, h.dropping, Guards(false, true));
  }

  lemma MayDetach<T>(h: Heap<T>, b: T, g: Guards)
    requires h.Valid() && LastCc(h, b) && b in h.fin
    ensures b in h.kids && ProgramMay(h, Detach(b), g) && Apply(h, Detach(b)) == Detached(h, b)
  {
    hide Apply, Enabled;
    DetachEffect(h, b);
  }

  lemma DetachStep<T>(h: Heap<T>, b: T, g: Guards)
    requires h.Valid() && LastCc(h, b) && b in h.fin
    ensures ProgramRun(h, [Detach(b)], Detached(h, b), g) && Detached(h, b).Valid()
    ensures LastCc(Detached(h, b), b) && b in Detached(h, b).fin && Detached(h, b).kids[b] == []
  {
    hide Heap.NoDangling, Heap.Conserved, Heap.Covered, Heap.Doomed, ProgramMay, Apply, ProgramRun;
    MayDetach(h, b, g);
    OneStep(h, Detach(b), g);
  }

  lemma BuryStep<T>(h: Heap<T>, b: T, g: Guards)
    requires h.Valid() && LastCc(h, b) && b in h.fin && h.kids[b] == []
    ensures ProgramRun(h, [Bury(b)], Buried(h, b), g) && Buried(h, b).Valid()
  {
    hide Apply, Enabled, ProgramRun;
    BuryEffect(h, b);
    OneStep(h, Bury(b), g);
  }

  lemma DestroyedHeap<T>(h: Heap<T>, b: T)
    requires h.Typed() && LastCc(h, b) && b in h.Live()
    ensures Destroyed(h, b).pending == h.pending - multiset{b} + multiset(h.kids[b])
    ensures Destroyed(h, b).Unfinalized() == h.Unfinalized() && Destroyed(h, b).Live() < h.Live()
    ensures b in Destroyed(h, b).dropped && SamePass(h, Destroyed(h, b))
  {
    assert Destroyed(h, b).kids.Keys == h.kids.Keys;
    assert b in h.Live() && b !in Destroyed(h, b).Live();
  }

  lemma DestroySteps<T>(h: Heap<T>, b: T, g: Guards)
    requires h.Valid() && LastCc(h, b) && b in h.fin
    ensures ProgramRun(h, Then([Detach(b)], [Bury(b)]), Destroyed(h, b), g) && Destroyed(h, b).Valid()
  {
    hide Heap.Valid, ProgramRun, Then;
    DetachStep(h, b, g);
    BuryStep(Detached(h, b), b, g);
    ProgramRunsCompose(h, [Detach(b)], Detached(h, b), [Bury(b)], Destroyed(h, b), g);
  }

  lemma MayFree<T>(h: Heap<T>, b: T, g: Guards)
    requires h.Valid() && b in h.dropped && b !in h.list
    ensures b in h.kids && b !in h.p && b !in h.building
    ensures ProgramMay(h, Free(b), g) && Apply(h, Free(b)) == Freed(h, b)
  {
    hide Apply, Enabled;
    FreeEffect(h, b);
  }

  lemma FreeSteps<T>(h: Heap<T>, b: T, g: Guards)
    requires h.Valid() && b in h.dropped && b !in h.list
    ensures b in h.kids && b !in h.p
    ensures ProgramRun(h, [Free(b)], Freed(h, b), g) && Freed(h, b).Valid()
    ensures Freed(h, b).dropped == h.dropped - {b} && SamePass(h, Freed(h, b)) && Freed(h, b).building == h.building
    ensures Freed(h, b).Unfinalized() <= h.Unfinalized() && Freed(h, b).Live() == h.Live()
  {
    hide Heap.Valid, ProgramMay, Apply, ProgramRun, WeakTable.BoxFreed;
    MayFree(h, b, g);
    OneStep(h, Free(b), g);
    assert h.list - {b} == h.list && h.building - {b} == h.building;
  }

  // ----- the fields of a value --------------------------------------------------------------------------

  lemma NothingDropped<T>(h: Heap<T>, ccs: seq<T>, silent: T -> bool)
    requires MayDropAll(h, ccs)
    ensures DropsAll(h, multiset{}, silent, [], [], h)
  {
    NothingCascades(h);
  }

  lemma MayDropNext<T>(h: Heap<T>, ccs: seq<T>, i: nat, m: Heap<T>)
    requires MayDropAll(h, ccs) && i < |ccs| && m.Valid() && SamePass(h, m)
    requires m.pending == h.pending - multiset(ccs[..i])
    ensures MayDrop(m, ccs[i])
  {
    assert ccs == ccs[..i] + [ccs[i]] + ccs[i + 1..];
    assert ccs[i] in m.Roots();
  }

  lemma DropsAllHeap<T>(h: Heap<T>, lost: multiset<T>, silent: T -> bool, s: seq<Step<T>>, freed: seq<T>, m: Heap<T>)
    requires DropsAll(h, lost, silent, s, freed, m)
    ensures m.Valid() && SamePass(h, m) && Progress(h, m) && m.pending == h.pending - lost
  {
    hide Heap.Valid, ProgramRun, Progress, Cascade;
  }

  lemma GoneIsAllocated<T>(h: Heap<T>, lost: multiset<T>, freed: seq<T>)
    requires h.Valid() && lost <= h.pending && Members(freed) <= h.kids.Keys
    ensures Elements(Gone(h, lost, Members(freed))) <= h.kids.Keys
  {
    forall x | x in Gone(h, lost, Members(freed))
      ensures x in h.kids
    {
      OutMember(h.kids, Members(freed), x);
      assert x in lost ==> x in h.Roots();
    }
  }

  lemma CascadeThen<T>(h: Heap<T>, lost: multiset<T>, freed: seq<T>, m: Heap<T>, b: T, freed': seq<T>, h': Heap<T>)
    requires MayDrop(m, b) && Cascade(h, lost, freed, m) && Cascade(m, multiset{b}, freed', h')
    ensures Cascade(h, lost + multiset{b}, freed + freed', h')
  {
    GoneIsAllocated(m, multiset{b}, freed');
    CascadesCompose(h, lost, freed, m, multiset{b}, freed', h');
  }

  lemma ProgressIsTransitive<T>(h: Heap<T>, m: Heap<T>, h': Heap<T>)
    requires Progress(h, m) && Progress(m, h')
    ensures Progress(h, h')
  {}

  lemma DropNext<T>(h: Heap<T>, lost: multiset<T>, silent: T -> bool, s: seq<Step<T>>, freed: seq<T>, m: Heap<T>,
                    b: T, s': seq<Step<T>>, freed': seq<T>, h': Heap<T>)
    requires DropsAll(h, lost, silent, s, freed, m) && MayDrop(m, b) && Drops(m, b, silent, s', freed', h')
    ensures DropsAll(h, lost + multiset{b}, silent, Then(s, s'), freed + freed', h')
  {
    hide Heap.Valid, ProgramRun, Then, Cascade, MayDrop, Heap.Live, Heap.Unfinalized;
    if Uneventful(h, silent) {
      CascadeThen(h, lost, freed, m, b, freed', h');
    }
    ProgressIsTransitive(h, m, h');
    ProgramRunsCompose(h, s, m, s', h', GuardsOf(h));
    assert h'.pending == h.pending - (lost + multiset{b});
    assert Uneventful(h, silent) ==> Cascade(h, lost + multiset{b}, freed + freed', h');
    assert h.phase.Deallocating? ==> OnlyLost(h, h');
  }

  // ----- the whole drop ---------------------------------------------------------------------------------

  /** While the fields of the value in `b` are dropped. */
  ghost function InDestructor<T>(h: Heap<T>, b: T): Heap<T>
    requires b in h.kids
  {
    Destroyed(h, b).(dropping := true)
  }

  ghost function DestroyedSteps<T>(h: Heap<T>, b: T): seq<Step<T>> {
    Then(Then([Detach(b)], [Bury(b)]), [SetFlags(h.collecting, h.finalizing, true)])
  }

  lemma LastIsLive<T>(h: Heap<T>, b: T)
    requires LastFinalized(h, b)
    ensures h.Typed() && LastCc(h, b) && b in h.Live() && b in h.kids && b in h.rc && h.rc[b] == 1 && b !in h.list
    ensures b !in h.dropped && UserPhase(h)
  {}

  lemma InDestructorHeap<T>(h: Heap<T>, b: T)
    requires LastFinalized(h, b)
    ensures b in h.kids && b in h.rc && h.rc[b] == 1 && b !in h.list && UserPhase(h)
    ensures InDestructor(h, b).kids.Keys == h.kids.Keys
    ensures b in InDestructor(h, b).dropped && SamePass(h, InDestructor(h, b))
    ensures InDestructor(h, b).building == h.building && InDestructor(h, b).dropped == h.dropped + {b}
      && b !in h.dropped
    ensures GuardsOf(InDestructor(h, b)) == GuardsOf(h)
    ensures InDestructor(h, b).Unfinalized() == h.Unfinalized() && InDestructor(h, b).Live() < h.Live()
    ensures InDestructor(h, b).pending == h.pending - multiset{b} + multiset(h.kids[b])
  {
    hide LastFinalized, Destroyed, LastCc, Heap.Live, Heap.Unfinalized;
    LastIsLive(h, b);
    DestroyedHeap(h, b);
    SameSetsInDestructor(h, b);
  }

  lemma SameSetsInDestructor<T>(h: Heap<T>, b: T)
    requires b in h.kids && b !in h.list
    ensures InDestructor(h, b).Unfinalized() == Destroyed(h, b).Unfinalized()
    ensures InDestructor(h, b).Live() == Destroyed(h, b).Live()
    ensures InDestructor(h, b).kids.Keys == h.kids.Keys && InDestructor(h, b).dropped == h.dropped + {b}
    ensures InDestructor(h, b).building == h.building && InDestructor(h, b).finalizing == h.finalizing
    ensures InDestructor(h, b).pending == Destroyed(h, b).pending && SamePass(h, InDestructor(h, b))
  {}

  lemma EnterDestructor<T>(h: Heap<T>, b: T)
    requires LastFinalized(h, b)
    ensures ProgramRun(h, DestroyedSteps(h, b), InDestructor(h, b), GuardsOf(h))
    ensures MayDropAll(InDestructor(h, b), h.kids[b])
  {
    DestroySteps(h, b, GuardsOf(h));
    InDestructorHeap(h, b);
    hide Heap.Valid, ProgramRun, Then, Destroyed;
    RestoreFlags(h, Then([Detach(b)], [Bury(b)]), Destroyed(h, b), h.finalizing, true, GuardsOf(h));
  }

  /** When the fields have been dropped. */
  lemma LeaveDestructor<T>(h: Heap<T>, b: T, lost: multiset<T>, silent: T -> bool, s: seq<Step<T>>, freed: seq<T>,
    m: Heap<T>)
    requires LastFinalized(h, b) && DropsAll(InDestructor(h, b), lost, silent, s, freed, m)
    ensures b in m.kids && b !in m.p && b !in m.list && b in m.dropped
  {
    InDestructorHeap(h, b);
    FreeSteps(m, b, GuardsOf(h));
  }

  ghost function LastSteps<T>(h: Heap<T>, b: T, s: seq<Step<T>>): seq<Step<T>> {
    Then(Then(Then(DestroyedSteps(h, b), s), [Free(b)]), [SetFlags(h.collecting, h.finalizing, h.dropping)])
  }

  ghost function Outcome<T>(h: Heap<T>, b: T, m: Heap<T>): Heap<T> {
    Freed(m, b).(dropping := h.dropping)
  }

  lemma LastRun<T>(h: Heap<T>, b: T, lost: multiset<T>, silent: T -> bool, s: seq<Step<T>>, freed: seq<T>,
    m: Heap<T>)
    requires LastFinalized(h, b) && DropsAll(InDestructor(h, b), lost, silent, s, freed, m)
    ensures ProgramRun(h, LastSteps(h, b, s), Outcome(h, b, m), GuardsOf(h)) && Outcome(h, b, m).Valid()
  {
    InDestructorHeap(h, b);
    EnterDestructor(h, b);
    FreeSteps(m, b, GuardsOf(h));
    hide Heap.Valid, ProgramRun, Then, Freed, InDestructor, DestroyedSteps, LastFinalized, Cascade, Progress;
    hide MayDropAll;
    assert m.finalizing == h.finalizing && m.collecting == h.collecting && m.phase == h.phase;
    ProgramRunsCompose(h, DestroyedSteps(h, b), InDestructor(h, b), s, m, GuardsOf(h));
    ProgramRunsCompose(h, Then(DestroyedSteps(h, b), s), m, [Free(b)], Freed(m, b), GuardsOf(h));
    RestoreFlags(h, Then(Then(DestroyedSteps(h, b), s), [Free(b)]), Freed(m, b), h.finalizing, h.dropping, GuardsOf(h));
  }

  lemma OutcomeHeap<T>(h: Heap<T>, b: T, m: Heap<T>)
    requires m.Valid() && b in m.dropped && b !in m.list
    ensures SamePass(m, Outcome(h, b, m)) && Outcome(h, b, m).building == m.building
    ensures Outcome(h, b, m).dropped == m.dropped - {b} && Outcome(h, b, m).pending == m.pending
    ensures Outcome(h, b, m).Unfinalized() <= m.Unfinalized() && Outcome(h, b, m).Live() == m.Live()
    ensures Outcome(h, b, m).finalizing == m.finalizing && Outcome(h, b, m).dropping == h.dropping
  {
    FreeSteps(m, b, GuardsOf(h));
  }

  lemma LastProgress<T>(h: Heap<T>, b: T, lost: multiset<T>, silent: T -> bool, s: seq<Step<T>>, freed: seq<T>,
    m: Heap<T>)
    requires b in h.kids && LastFinalized(h, b) && DropsAll(InDestructor(h, b), lost, silent, s, freed, m)
    ensures Returned(h, Outcome(h, b, m)) && Progress(h, Outcome(h, b, m))
    ensures lost == multiset(h.kids[b]) ==> Outcome(h, b, m).pending == h.pending - multiset{b}
  {
    hide Heap.Valid, ProgramRun, InDestructor, LastFinalized, Cascade, Heap.Live, Heap.Unfinalized, Outcome, OnlyLost;
    InDestructorHeap(h, b);
    OutcomeHeap(h, b, m);
    assert Outcome(h, b, m).pending == h.pending - multiset{b} + multiset(h.kids[b]) - lost;
    assert Outcome(h, b, m).Unfinalized() <= m.Unfinalized() <= h.Unfinalized();
    assert h.dropped + {b} - {b} == h.dropped;
  }

  lemma LastDrops<T>(h: Heap<T>, b: T, silent: T -> bool, s: seq<Step<T>>, freed: seq<T>, m: Heap<T>)
    requires LastFinalized(h, b) && DropsAll(InDestructor(h, b), multiset(h.kids[b]), silent, s, freed, m)
    ensures Drops(h, b, silent, LastSteps(h, b, s), [b] + freed, Outcome(h, b, m))
  {
    InDestructorHeap(h, b);
    LastRun(h, b, multiset(h.kids[b]), silent, s, freed, m);
    LastProgress(h, b, multiset(h.kids[b]), silent, s, freed, m);
    if Uneventful(h, silent) {
      LastCascade(h, b, freed, m);
    }
    hide Heap.Valid, ProgramRun, Then, InDestructor, LastFinalized, Cascade, Freed, Returned, Progress;
  }

  /** What `Cc::drop` needs to know when it drops the fields, ... */
  lemma BeforeFields<T>(h: Heap<T>, b: T, silent: T -> bool)
    requires LastFinalized(h, b)
    ensures b in h.kids && b in h.rc && h.rc[b] == 1 && b !in h.list
    ensures InDestructor(h, b).kids.Keys == h.kids.Keys && MayDropAll(InDestructor(h, b), h.kids[b])
    ensures InDestructor(h, b).collecting == h.collecting
    ensures InDestructor(h, b).Unfinalized() == h.Unfinalized() && InDestructor(h, b).Live() < h.Live()
    ensures NoFinalizers(h) ==> NoFinalizers(InDestructor(h, b))
    ensures Hushed(h, silent) ==> Hushed(InDestructor(h, b), silent)
  {
    hide Heap.Valid, ProgramRun, InDestructor, LastFinalized, Heap.Live, Heap.Unfinalized, MayDropAll;
    InDestructorHeap(h, b);
    EnterDestructor(h, b);
  }

  /** ... and afterwards. */
  lemma AfterFields<T>(h: Heap<T>, b: T, silent: T -> bool, s: seq<Step<T>>, freed: seq<T>, m: Heap<T>)
    requires LastFinalized(h, b) && DropsAll(InDestructor(h, b), multiset(h.kids[b]), silent, s, freed, m)
    ensures b in m.kids && b !in m.p && b !in m.list
    ensures Drops(h, b, silent, LastSteps(h, b, s), [b] + freed, Outcome(h, b, m))
  {
    LeaveDestructor(h, b, multiset(h.kids[b]), silent, s, freed, m);
    LastDrops(h, b, silent, s, freed, m);
  }

  lemma LastCascade<T>(h: Heap<T>, b: T, freed: seq<T>, m: Heap<T>)
    requires LastFinalized(h, b) && Cascade(InDestructor(h, b), multiset(h.kids[b]), freed, m)
    ensures Cascade(h, multiset{b}, [b] + freed, Outcome(h, b, m))
  {
    hide Cascade;
    FlagsDoNotMatter(InDestructor(h, b), multiset(h.kids[b]), freed, m, h.dropping);
    RestoredFlags(h, b, m);
    LastIsLive(h, b);
    LastCcCascades(h, b, freed, m.(dropping := h.dropping));
  }

  lemma RestoredFlags<T>(h: Heap<T>, b: T, m: Heap<T>)
    requires b in h.kids
    ensures InDestructor(h, b).(dropping := h.dropping) == Destroyed(h, b)
    ensures Freed(m.(dropping := h.dropping), b) == Outcome(h, b, m)
  {}

  // ----- with a finalizer -------------------------------------------------------------------------------

  lemma ResurrectedDrops<T>(h: Heap<T>, b: T, silent: T -> bool, s: seq<Step<T>>, h': Heap<T>)
    requires LastUnfinalized(h, b) && Finalized(h, s, h') && h'.pending == h.pending - multiset{b} && !silent(b)
    ensures Drops(h, b, silent, s, [], h')
  {
    hide Heap.Valid, ProgramRun;
    assert b in h.Unfinalized() by { StartedHeap(h, b); }
  }

  lemma FinalizedShrinks<T>(h: Heap<T>, s: seq<Step<T>>, h': Heap<T>)
    requires Finalized(h, s, h')
    ensures h'.Unfinalized() < h.Unfinalized() && h'.collecting == h.collecting
  {
    hide Heap.Valid, ProgramRun, Heap.Unfinalized;
  }

  lemma FinalizedDrops<T>(h: Heap<T>, b: T, silent: T -> bool, s: seq<Step<T>>, m: Heap<T>, s': seq<Step<T>>,
                          freed: seq<T>, h': Heap<T>)
    requires LastUnfinalized(h, b) && Finalized(h, s, m) && m.pending == h.pending && Drops(m, b, silent, s', freed, h')
    requires b in freed && (silent(b) ==> m == h.(fin := h.fin + {b}))
    ensures Drops(h, b, silent, Then(s, s'), freed, h')
  {
    hide Heap.Valid, ProgramRun, Then, Cascade;
    assert b in h.Unfinalized() by { StartedHeap(h, b); }
    ProgramRunsCompose(h, s, m, s', h', GuardsOf(h));
    assert h'.Unfinalized() < h.Unfinalized();
    if Uneventful(h, silent) {
      CascadesWhenFinalized(h, b, freed, h');
    }
  }

  /** A box that is freed has been finalized first. */
  lemma CascadesWhenFinalized<T>(h: Heap<T>, b: T, freed: seq<T>, h': Heap<T>)
    requires Cascade(h.(fin := h.fin + {b}), multiset{b}, freed, h') && b in freed
    ensures Cascade(h, multiset{b}, freed, h')
  {
    var k := h.(fin := h.fin + {b});
    assert k.Live() == h.Live() && h.fin + {b} - Members(freed) == h.fin - Members(freed);
    forall i | 0 <= i < |freed|
      ensures FreeableAfter(h, multiset{b}, freed[..i], freed[i])
    {
      assert FreeableAfter(k, multiset{b}, freed[..i], freed[i]);
    }
  }

  /** Without a step of the program nothing resurrects a box. */
  lemma NotResurrectedByNothing<T>(h: Heap<T>, b: T, fs: seq<Step<T>>, m: Heap<T>)
    requires AfterFinalizer(h, b, fs, m) && ProgramIn(fs) == []
    ensures b in m.rc && m.rc[b] == 1
  {
    var start := StartedFinalizer(h, b);
    StartFinalizer(h, b);
    ProgramRunIsRun(start, fs, m, Guards(true, h.collecting));
    NothingMade(start, fs, m);
    OnlyPending(start, m, b);
  }

  lemma OnlyPending<T>(h: Heap<T>, m: Heap<T>, b: T)
    requires h.Valid() && LastCc(h, b) && m.Valid() && m.References() <= h.References() && b in m.pending
    ensures b in m.rc && m.rc[b] == 1
  {
    assert b in m.Roots();
    assert m.References()[b] <= h.References()[b];
  }

  // ----- what has been called -----------------------------------------------------------------------------

  /** The finalizer of `b` has been called once, apart from what it calls itself. */
  lemma FinalizedLogged<T>(h: Heap<T>, b: T, fs: seq<Step<T>>, resurrected: bool, before: Log<T>, after: Log<T>)
    requires Logged(before.Calling(b), fs, after)
    ensures Logged(before, FinalizedSteps(h, b, fs, resurrected), after)
  {
    hide Logged, Then;
    var start: Step<T>, end: Step<T> := SetFlags(h.collecting, true, h.dropping),
      SetFlags(h.collecting, h.finalizing, h.dropping);
    StepLogged(before, start);
    StepLogged(before, Finalize(b));
    StepLogged(after, Lose(b));
    StepLogged(after, end);
    LoggedThen(before, [start], before, [Finalize(b)], before.Calling(b));
    LoggedThen(before, FinalizeSteps(h, b), before.Calling(b), fs, after);
    var s := Then(FinalizeSteps(h, b), fs);
    LoggedThen(before, s, after, [Lose(b)], after);
    LoggedThen(before, if resurrected then Then(s, [Lose(b)]) else s, after, [end], after);
  }

  /** Destroying and freeing a box calls nothing but what its fields do. */
  lemma LastLogged<T>(h: Heap<T>, b: T, s: seq<Step<T>>, before: Log<T>, after: Log<T>)
    requires Logged(before, s, after)
    ensures Logged(before, LastSteps(h, b, s), after)
  {
    hide Logged, Then;
    var start: Step<T>, end: Step<T> := SetFlags(h.collecting, h.finalizing, true),
      SetFlags(h.collecting, h.finalizing, h.dropping);
    StepLogged(before, Detach(b));
    StepLogged(before, Bury(b));
    StepLogged(before, start);
    StepLogged(after, Free(b));
    StepLogged(after, end);
    LoggedThen(before, [Detach(b)], before, [Bury(b)], before);
    LoggedThen(before, Then([Detach(b)], [Bury(b)]), before, [start], before);
    LoggedThen(before, DestroyedSteps(h, b), before, s, after);
    LoggedThen(before, Then(DestroyedSteps(h, b), s), after, [Free(b)], after);
    LoggedThen(before, Then(Then(DestroyedSteps(h, b), s), [Free(b)]), after, [end], after);
  }
}

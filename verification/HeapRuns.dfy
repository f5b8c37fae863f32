/** Whole runs of the machine: what holds after any number of steps of the program, of finalizers and
    destructors and of the collector, in any order. */
module HeapRuns {
  import opened Graph
  import opened WeakTables
  import opened Heaps
  import opened HeapCounts
  import opened Garbage
  import opened Coverage

  ghost predicate Run<T>(h: Heap<T>, steps: seq<Step<T>>, h': Heap<T>)
    decreases |steps|
  {
    if steps == [] then h' == h
    else h.Typed() && Enabled(h, steps[0]) && Run(Apply(h, steps[0]), steps[1..], h')
  }

  lemma {:induction false} RunKeepsValid<T>(h: Heap<T>, steps: seq<Step<T>>, h': Heap<T>)
    requires h.Valid() && Run(h, steps, h')
    ensures h'.Valid()
    decreases |steps|
  {
    if steps != [] {
      StepKeepsValid(h, steps[0]);
      RunKeepsValid(Apply(h, steps[0]), steps[1..], h');
    }
  }

  ghost function Then<T>(s: seq<Step<T>>, t: seq<Step<T>>): seq<Step<T>> { s + t }

  lemma EmptyIsValid<T>()
    ensures Empty<T>().Valid()
  {
    assert Out(Empty<T>().kids, {}) == multiset{};
  }

  /** Every heap a program can bring about satisfies all the invariants. */
  lemma ReachableHeapIsValid<T>(steps: seq<Step<T>>, h: Heap<T>)
    requires Run(Empty(), steps, h)
    ensures h.Valid()
  {
    EmptyIsValid<T>();
    RunKeepsValid(Empty(), steps, h);
  }

  // ----- single steps -------------------------------------------------------------------------------------

  lemma FlagsEffect<T>(h: Heap<T>, c: bool, f: bool, d: bool)
    requires h.Typed() && (h.phase.Idle? || c == h.collecting) && (h.phase.Deallocating? ==> d)
    ensures Enabled(h, SetFlags(c, f, d))
    ensures Apply(h, SetFlags(c, f, d)) == h.(collecting := c, finalizing := f, dropping := d)
  {}

  lemma ReleaseEffect<T>(h: Heap<T>, n: T)
    requires h.Typed() && UserPhase(h) && n in h.handles
    ensures Enabled(h, Release(n))
    ensures Apply(h, Release(n)) == h.(handles := h.handles - multiset{n}, pending := h.pending + multiset{n})
  {}

  lemma FinalizeEffect<T>(h: Heap<T>, n: T)
    requires h.Typed() && n !in h.fin && h.finalizing
    requires if n in h.list then h.phase.Listed? || h.phase.Finalizing? else LastCc(h, n)
    ensures Enabled(h, Finalize(n))
    ensures Apply(h, Finalize(n)) == h.(fin := h.fin + {n}, phase := if n in h.list then Phase.Finalizing else h.phase)
  {}

  lemma DetachEffect<T>(h: Heap<T>, n: T)
    requires h.Typed() && n in h.kids && n in h.fin && (Condemned(h, n) || LastCc(h, n))
    ensures Enabled(h, Detach(n)) && Apply(h, Detach(n)) == Detached(h, n)
  {}

  lemma BuryEffect<T>(h: Heap<T>, n: T)
    requires h.Typed() && n in h.kids && n in h.fin && (Condemned(h, n) || LastCc(h, n)) && h.kids[n] == []
    ensures Enabled(h, Bury(n)) && Apply(h, Bury(n)) == Buried(h, n)
  {}

  lemma LoseEffect<T>(h: Heap<T>, n: T)
    requires h.Typed() && Dropping(h, n) && (n in h.list || h.rc[n] != 1)
    ensures Enabled(h, Lose(n)) && Apply(h, Lose(n)) == Lost(h, n)
  {}

  lemma UnwrapEffect<T>(h: Heap<T>, n: T)
    requires h.Typed() && NoGuards(h) && n in h.handles && n in h.kids && h.rc[n] == 1 && h.kids[n] == []
    ensures Enabled(h, Unwrap(n)) && Apply(h, Unwrap(n)) == GivenUp(h, n)
  {}

  lemma FreeEffect<T>(h: Heap<T>, n: T)
    requires h.Typed() && n in h.dropped + h.building && n in h.kids && (n in h.list ==> GroupDropped(h))
    ensures Enabled(h, Free(n)) && Apply(h, Free(n)) == Freed(h, n)
  {}

  // ----- runs of code that something encloses -----------------------------------------------------------

  /** What encloses the code that runs: a guard that keeps the finalizing flag set, a running collection. */
  datatype Guards = Guards(finalizing: bool, collecting: bool)

  ghost function GuardsOf<T>(h: Heap<T>): Guards { Guards(h.finalizing, h.collecting) }

  /** What the code between two guards can do.  During a collection that is everything but what the
      collector does itself. */
  ghost predicate ProgramMay<T>(h: Heap<T>, step: Step<T>, g: Guards)
    requires h.Typed()
  {
    && Enabled(h, step)
    && (g.finalizing && step.SetFlags? ==> step.f)
    && (g.collecting ==>
          && !step.BeginPass? && !step.Requeue? && !step.StartDealloc? && !step.EndPass?
          && (step.SetFlags? ==> step.c == h.collecting)
          && (step.Finalize? || step.Detach? || step.Bury? || step.Free? ==> step.n !in h.list))
  }

  ghost predicate ProgramRun<T>(h: Heap<T>, steps: seq<Step<T>>, h': Heap<T>, g: Guards)
    decreases |steps|
  {
    if steps == [] then h' == h
    else h.Typed() && ProgramMay(h, steps[0], g) && ProgramRun(Apply(h, steps[0]), steps[1..], h', g)
  }

  lemma {:induction false} ProgramRunIsRun<T>(h: Heap<T>, steps: seq<Step<T>>, h': Heap<T>, g: Guards)
    requires ProgramRun(h, steps, h', g)
    ensures Run(h, steps, h')
    decreases |steps|
  {
    hide Apply, Enabled;
    if steps != [] {
      ProgramRunIsRun(Apply(h, steps[0]), steps[1..], h', g);
    }
  }

  /** What code inside of more guards may do, code inside of fewer may cause. */
  lemma {:induction false} ProgramRunWeakens<T>(h: Heap<T>, steps: seq<Step<T>>, h': Heap<T>, g: Guards, outer: Guards)
    requires ProgramRun(h, steps, h', g)
    requires (outer.finalizing ==> g.finalizing) && (outer.collecting ==> g.collecting)
    ensures ProgramRun(h, steps, h', outer)
    decreases |steps|
  {
    hide Apply, Enabled;
    if steps != [] {
      ProgramRunWeakens(Apply(h, steps[0]), steps[1..], h', g, outer);
    }
  }

  lemma {:induction false} ProgramRunsCompose<T>(h: Heap<T>, s: seq<Step<T>>, m: Heap<T>, t: seq<Step<T>>,
                                                 h': Heap<T>, g: Guards)
    requires ProgramRun(h, s, m, g) && ProgramRun(m, t, h', g)
    ensures ProgramRun(h, Then(s, t), h', g)
    decreases |s|
  {
    hide Apply, Enabled;
    if s == [] {
      assert s + t == t;
    } else {
      assert s + t != [] && (s + t)[0] == s[0] && (s + t)[1..] == s[1..] + t;
      ProgramRunsCompose(Apply(h, s[0]), s[1..], m, t, h', g);
    }
  }

  lemma OneStep<T>(h: Heap<T>, step: Step<T>, g: Guards)
    requires h.Valid() && ProgramMay(h, step, g)
    ensures ProgramRun(h, [step], Apply(h, step), g) && Apply(h, step).Valid()
  {
    hide Enabled, Apply;
    StepKeepsValid(h, step);
    assert ProgramRun(Apply(h, step), [], Apply(h, step), g);
    assert [step][1..] == [];
  }

  /** What a call to the library does, by whatever code makes it. */
  ghost predicate Does<T>(h: Heap<T>, steps: seq<Step<T>>, h': Heap<T>) {
    ProgramRun(h, steps, h', GuardsOf(h)) && h'.Valid()
  }

  lemma DoesNothing<T>(h: Heap<T>)
    requires h.Valid()
    ensures Does(h, [], h)
  {}

  lemma DoesStep<T>(h: Heap<T>, step: Step<T>)
    requires h.Valid() && ProgramMay(h, step, GuardsOf(h))
    ensures Does(h, [step], Apply(h, step))
  {
    OneStep(h, step, GuardsOf(h));
  }

  lemma DoesThen<T>(h: Heap<T>, s: seq<Step<T>>, m: Heap<T>, t: seq<Step<T>>, h': Heap<T>)
    requires Does(h, s, m) && Does(m, t, h') && GuardsOf(m) == GuardsOf(h)
    ensures Does(h, Then(s, t), h')
  {
    hide Heap.Valid, ProgramRun, Then;
    ProgramRunsCompose(h, s, m, t, h', GuardsOf(h));
  }

  /** A run of whatever code, the collector included, that leaves the finalizing flag set if `f`. */
  ghost predicate FlaggedRun<T>(h: Heap<T>, steps: seq<Step<T>>, h': Heap<T>, f: bool) {
    ProgramRun(h, steps, h', Guards(f, false))
  }

  lemma FlaggedStep<T>(h: Heap<T>, step: Step<T>, f: bool)
    requires h.Valid() && Enabled(h, step) && (f && step.SetFlags? ==> step.f)
    ensures FlaggedRun(h, [step], Apply(h, step), f) && Apply(h, step).Valid()
  {
    hide Enabled, Apply;
    OneStep(h, step, Guards(f, false));
  }

  lemma NothingFlagged<T>(h: Heap<T>, f: bool)
    ensures FlaggedRun(h, [], h, f)
  {}

  lemma FlaggedRunsCompose<T>(h: Heap<T>, s: seq<Step<T>>, m: Heap<T>, t: seq<Step<T>>, h': Heap<T>, f: bool)
    requires FlaggedRun(h, s, m, f) && FlaggedRun(m, t, h', f)
    ensures FlaggedRun(h, Then(s, t), h', f)
  {
    hide ProgramRun, Then;
    ProgramRunsCompose(h, s, m, t, h', Guards(f, false));
  }

  /** What a finalizer does is such a run, whatever the flag was before. */
  lemma FlaggedRunWeakens<T>(h: Heap<T>, steps: seq<Step<T>>, h': Heap<T>, g: Guards, f: bool)
    requires ProgramRun(h, steps, h', g) && (f ==> g.finalizing)
    ensures FlaggedRun(h, steps, h', f)
  {
    hide ProgramRun;
    ProgramRunWeakens(h, steps, h', g, Guards(f, false));
  }

  /** What no code but the collector changes. */
  ghost predicate SamePass<T>(h: Heap<T>, h': Heap<T>) {
    h'.phase == h.phase && h'.list == h.list && h'.collecting == h.collecting
  }

  lemma ProgramStepKeepsPass<T>(h: Heap<T>, step: Step<T>, g: Guards)
    requires h.Typed() && ProgramMay(h, step, g) && g.collecting
    ensures SamePass(h, Apply(h, step))
  {
    hide Heap.Accessible, Heap.AccessibleWithout, Heap.CanUpgrade, GroupDropped, WeakTable.Apply, WeakTable.BoxFreed;
    if step.Free? { assert h.list - {step.n} == h.list; }
  }

  lemma FinalizerStepFinalizes<T>(h: Heap<T>, step: Step<T>, g: Guards)
    requires h.Typed() && ProgramMay(h, step, g) && g.finalizing && h.finalizing
    ensures Apply(h, step).finalizing && Apply(h, step).Unfinalized() <= h.Unfinalized()
  {
    hide Heap.Accessible, Heap.AccessibleWithout, Heap.CanUpgrade, GroupDropped, WeakTable.Apply, WeakTable.BoxFreed;
  }

  /** Whatever finalizers do, no box becomes finalizable: the ones they create are born finalized.  And
      during a collection the members of the non-root list stay in it and are not freed, and the pass
      stays where it is. */
  lemma {:induction false} ProgramRunKeepsPass<T>(h: Heap<T>, steps: seq<Step<T>>, h': Heap<T>, g: Guards)
    requires h.Valid() && ProgramRun(h, steps, h', g)
    ensures h'.Valid() && h'.list <= h'.kids.Keys
    ensures g.collecting ==> SamePass(h, h')
    ensures g.finalizing && h.finalizing ==> h'.finalizing && h'.Unfinalized() <= h.Unfinalized()
    decreases |steps|
  {
    if steps != [] {
      hide Apply, Enabled, ProgramMay, Heap.Unfinalized;
      ProgramStepKept(h, steps[0], g);
      ProgramRunKeepsPass(Apply(h, steps[0]), steps[1..], h', g);
    }
  }

  lemma ProgramStepKept<T>(h: Heap<T>, step: Step<T>, g: Guards)
    requires h.Valid() && ProgramMay(h, step, g)
    ensures Enabled(h, step) && Apply(h, step).Valid()
    ensures g.collecting ==> SamePass(h, Apply(h, step))
    ensures g.finalizing && h.finalizing ==>
      Apply(h, step).finalizing && Apply(h, step).Unfinalized() <= h.Unfinalized()
  {
    hide Apply, Enabled, Heap.Unfinalized;
    StepKeepsValid(h, step);
    if g.collecting { ProgramStepKeepsPass(h, step, g); }
    if g.finalizing && h.finalizing { FinalizerStepFinalizes(h, step, g); }
  }

  lemma StaysUnfinalized<T>(h: Heap<T>, step: Step<T>, g: Guards)
    requires h.Valid() && ProgramMay(h, step, g) && g.collecting
    ensures Apply(h, step).fin * h.list <= h.fin
  {
    hide Heap.Accessible, Heap.AccessibleWithout, Heap.CanUpgrade, GroupDropped, WeakTable.Apply, WeakTable.BoxFreed;
    hide Heap.NoDangling, Heap.Conserved, Heap.Covered, Heap.Doomed, WeakTable.Valid;
  }

  /** The program does not finalize the members of the list: that is left to the collector. */
  lemma {:induction false} ProgramRunFinalizesNoMember<T>(h: Heap<T>, steps: seq<Step<T>>, h': Heap<T>, g: Guards)
    requires h.Valid() && ProgramRun(h, steps, h', g) && g.collecting
    ensures h'.fin * h.list <= h.fin
    decreases |steps|
  {
    if steps != [] {
      hide Apply, Enabled, Heap.Valid, ProgramMay;
      ProgramStepKept(h, steps[0], g);
      StaysUnfinalized(h, steps[0], g);
      ProgramRunFinalizesNoMember(Apply(h, steps[0]), steps[1..], h', g);
    }
  }

  // ----- safety over whole runs -------------------------------------------------------------------------

  /** No box that the program can reach is ever freed, and none with a `Cc` left. */
  lemma NothingReachableIsFreed<T>(steps: seq<Step<T>>, h: Heap<T>, n: T)
    requires Run(Empty(), steps, h) && h.Typed() && Enabled(h, Free(n))
    ensures n !in h.Reachable() && h.References()[n] == 0
  {
    ReachableHeapIsValid(steps, h);
    FreedIsUnreachable(h, n);
  }

  lemma FreedIsUnreachable<T>(h: Heap<T>, n: T)
    requires h.Sound() && Enabled(h, Free(n))
    ensures n !in h.Reachable() && h.References()[n] == 0
  {
    FreedIsUnreferenced(h, n);
    UnreferencedIsUnreachable(h, n);
  }

  lemma UnreferencedIsUnreachable<T>(h: Heap<T>, n: T)
    requires h.Typed() && h.Conserved() && n in h.kids && h.rc[n] == 0
    ensures n !in h.Reachable()
  {
    Unreferenced(h, n);
    if n in h.Reachable() {
      var a := ReachPredecessor(h.kids, h.Roots(), n);
    }
  }

  /** No value is dropped while code that runs outside of its destructor can reach it: a lone box has no
      `Cc` left but the one being dropped, and a member of a group is out of reach of the survivors. */
  lemma NothingReachableIsDropped<T>(steps: seq<Step<T>>, h: Heap<T>, n: T)
    requires Run(Empty(), steps, h) && h.Typed() && Enabled(h, Bury(n))
    ensures n in h.list ==> n !in Reach(h.kids, h.Survivors())
    ensures n !in h.list ==> h.References()[n] == 1 && n !in Apply(h, Bury(n)).Reachable()
  {
    ReachableHeapIsValid(steps, h);
    StepKeepsValid(h, Bury(n));
    DroppedIsUnreachable(h, n);
  }

  lemma DroppedIsUnreachable<T>(h: Heap<T>, n: T)
    requires h.Sound() && Enabled(h, Bury(n)) && Apply(h, Bury(n)).Typed() && Apply(h, Bury(n)).Conserved()
    ensures n in h.list ==> n !in Reach(h.kids, h.Survivors())
    ensures n !in h.list ==> h.References()[n] == 1 && n !in Apply(h, Bury(n)).Reachable()
  {
    if n in h.list {
      SurvivorsAvoidTheGroup(h);
    } else {
      UnreferencedIsUnreachable(Apply(h, Bury(n)), n);
    }
  }

  // ----- completeness over whole runs -------------------------------------------------------------------

  /** With no candidates left there is no garbage left: every live box is reachable by the program. */
  lemma NoCandidatesNoGarbage<T>(steps: seq<Step<T>>, h: Heap<T>)
    requires Run(Empty(), steps, h) && h.phase.Idle? && h.p == {}
    ensures h.Live() == h.Reachable()
  {
    ReachableHeapIsValid(steps, h);
    Exact(h);
  }

  lemma Exact<T>(h: Heap<T>)
    requires h.Valid() && h.phase.Idle? && h.p == {}
    ensures h.Live() == h.Reachable()
  {
    LiveIsReachableOrDiscovered(h);
    ReachLeast(h.kids, {}, {});
    LiveIsClosed(h);
    ReachLeast(h.kids, h.Roots(), h.Live());
  }

  /** Once the group has been freed nothing but what the program can reach is left. */
  lemma GroupFreedNoGarbage<T>(h: Heap<T>)
    requires h.Valid() && Enabled(h, EndPass)
    ensures Apply(h, EndPass).Live() == Apply(h, EndPass).Reachable()
  {
    var h' := Apply(h, EndPass);
    StepKeepsValid(h, EndPass);
    assert h.Survivors() == h'.Roots();
    LiveIsClosed(h');
    ReachLeast(h'.kids, h'.Roots(), h'.Live());
  }

  /** Finalizers do not cause anything to be freed in their own pass: until the boxes have been put back
      among the candidates, no step of anybody drops or frees a member of the list. */
  lemma {:induction false} FinalizingPassFreesNothing<T>(h: Heap<T>, steps: seq<Step<T>>, h': Heap<T>)
    requires h.Valid() && h.phase.Finalizing? && Run(h, steps, h') && Requeue !in steps
    ensures h'.phase.Finalizing? && h'.list == h.list && h'.list <= h'.Live()
    decreases |steps|
  {
    if steps != [] {
      StepKeepsValid(h, steps[0]);
      FinalizingStep(h, steps[0]);
      FinalizingPassFreesNothing(Apply(h, steps[0]), steps[1..], h');
    }
  }

  lemma FinalizingStep<T>(h: Heap<T>, step: Step<T>)
    requires h.Typed() && h.phase.Finalizing? && Enabled(h, step) && !step.Requeue?
    ensures Apply(h, step).phase.Finalizing? && Apply(h, step).list == h.list
  {
    match step {
      case New(_, _) =>
      case Clone(_) =>
      case Upgrade(_) =>
      case MarkAlive(_) =>
      case Store(_, _) =>
      case Take(_, _) =>
      case Unwrap(_) =>
      case FinalizeAgain(_) =>
      case Hide(_) =>
      case Show(_) =>
      case Release(_) =>
      case Weak(_) =>
      case Lose(_) =>
      case Finalize(_) =>
      case Detach(_) =>
      case Bury(_) =>
      case Free(_) =>
      case SetFlags(_, _, _) =>
      case BeginPass =>
      case StartDealloc =>
      case EndPass =>
    }
  }

  /** A box that a finalizer made reachable again is not in the list of the next pass. */
  lemma ResurrectedIsSpared<T>(h: Heap<T>, steps: seq<Step<T>>, m: Heap<T>, n: T)
    requires h.Valid() && h.phase.Finalizing? && n in h.list
    requires Does(h, steps, m) && n in m.Reachable()
    ensures m.Valid() && Enabled(m, Requeue)
    ensures Apply(m, Requeue).Typed() && Enabled(Apply(m, Requeue), BeginPass)
    ensures n !in Apply(Apply(m, Requeue), BeginPass).list
  {
    ProgramRunKeepsPass(h, steps, m, GuardsOf(h));
    StepKeepsValid(m, Requeue);
    CollectableIsGarbage(Apply(m, Requeue));
  }

  // ----- weak pointers over whole runs ------------------------------------------------------------------

  /** `upgrade` succeeds exactly for the boxes that still have a value and a `Cc`, and not for the
      group that is being deallocated.  The test reads no box that is not allocated. */
  lemma UpgradeAgreesWithLiveness<T>(steps: seq<Step<T>>, h: Heap<T>, n: T)
    requires Run(Empty(), steps, h) && n in h.w.weaks
    ensures h.CanUpgrade(n) <==> n in h.Live() && h.References()[n] > 0 && !(n in h.list && h.dropping)
    ensures h.CanUpgrade(n) && h.phase.Deallocating? ==> n in Reach(h.kids, h.Survivors())
  {
    ReachableHeapIsValid(steps, h);
  }

  /** A step frees a metadata block exactly when neither the box nor a weak pointer to it is left. */
  lemma BlockFreedWithLastUser<T>(h: Heap<T>, step: Step<T>, n: T)
    requires h.Valid() && Enabled(h, step) && n in h.w.blocks
    ensures n !in Apply(h, step).w.blocks <==> n !in Apply(h, step).kids && Apply(h, step).w.weaks[n] == 0
  {
    hide Enabled, Heap.Valid, WeakTable.Apply, WeakTable.BoxFreed, WeakTable.Enabled;
    BlocksAreRight(h);
    if step.Weak? {
      WeakStepEnabled(h, step.s);
      WeakStepFreesBlock(h.w, h.kids.Keys, step.s, n);
    } else if step.Free? {
      BoxFreedFreesBlock(h.w, h.kids.Keys, step.n, n);
    } else {
      hide Apply;
      BlocksStay(h, step);
      PresentBlock(h.w, h.kids.Keys, n);
    }
  }

  lemma BlocksAreRight<T>(h: Heap<T>)
    requires h.Valid()
    ensures h.Typed() && h.w.Valid(h.kids.Keys)
  {}

  lemma WeakStepEnabled<T>(h: Heap<T>, s: WeakStep<T>)
    requires h.Typed() && Enabled(h, Step.Weak(s))
    ensures h.w.Enabled(s)
  {}

  lemma PresentBlock<T>(w: WeakTable<T>, boxes: set<T>, n: T)
    requires w.Valid(boxes) && n in w.blocks
    ensures n in boxes || w.weaks[n] > 0
  {}

  lemma BoxFreedFreesBlock<T>(w: WeakTable<T>, boxes: set<T>, b: T, n: T)
    requires w.Valid(boxes) && n in w.blocks
    ensures n !in w.BoxFreed(b).blocks <==> n !in boxes - {b} && w.BoxFreed(b).weaks[n] == 0
  {}

  lemma BlocksStay<T>(h: Heap<T>, step: Step<T>)
    requires h.Typed() && Enabled(h, step) && !step.Weak? && !step.Free?
    ensures Apply(h, step).w == h.w && h.kids.Keys <= Apply(h, step).kids.Keys
  {
    if step.New? {
    } else {
      hide Apply, Enabled, Rewires, Quiet;
      if Quiet(step) {
        QuietKeepsCcs(h, step);
      } else if Rewires(step) {
        RewireKeepsBoxes(h, step);
      } else {
        MoveKeepsBoxes(h, step);
      }
    }
  }

  lemma WeakStepFreesBlock<T>(w: WeakTable<T>, boxes: set<T>, step: WeakStep<T>, n: T)
    requires w.Valid(boxes) && w.Enabled(step) && n in w.blocks
    ensures n !in w.Apply(step).blocks <==> n !in boxes && w.Apply(step).weaks[n] == 0
  {}

  lemma BlockStays<T>(h: Heap<T>, step: Step<T>, n: T)
    requires h.Valid() && Enabled(h, step) && n in h.w.blocks && n in h.kids && step != Free(n)
    ensures Apply(h, step).Valid() && n in Apply(h, step).w.blocks && n in Apply(h, step).kids
  {
    StepKeepsValid(h, step);
    BlockFreedWithLastUser(h, step, n);
  }

  /** ... so while a box is allocated its block is allocated at most once: it never goes away. */
  lemma {:induction false} BlockOutlivesBox<T>(h: Heap<T>, steps: seq<Step<T>>, h': Heap<T>, n: T)
    requires h.Valid() && Run(h, steps, h') && n in h.w.blocks && n in h.kids
    requires forall i | 0 <= i < |steps| :: steps[i] != Free(n)
    ensures n in h'.w.blocks && n in h'.kids
    decreases |steps|
  {
    if steps != [] {
      assert steps[0] != Free(n);
      BlockStays(h, steps[0], n);
      assert forall i | 0 <= i < |steps[1..]| :: steps[1..][i] == steps[i + 1];
      BlockOutlivesBox(Apply(h, steps[0]), steps[1..], h', n);
    }
  }

  // ----- finalizers run once ----------------------------------------------------------------------------

  /** A box that has been finalized is not finalized again, unless the program asks for it or the box is
      freed. */
  lemma {:induction false} FinalizedAtMostOnce<T>(h: Heap<T>, steps: seq<Step<T>>, h': Heap<T>, n: T)
    requires h.Valid() && Run(h, steps, h') && n in h.fin && n in h.kids
    requires FinalizeAgain(n) !in steps && Free(n) !in steps
    ensures Finalize(n) !in steps && n in h'.fin
    decreases |steps|
  {
    if steps != [] {
      StepKeepsValid(h, steps[0]);
      StaysFinalized(h, steps[0], n);
      FinalizedAtMostOnce(Apply(h, steps[0]), steps[1..], h', n);
    }
  }

  lemma StaysFinalized<T>(h: Heap<T>, step: Step<T>, n: T)
    requires h.Typed() && Enabled(h, step) && n in h.fin && n in h.kids
    requires step != FinalizeAgain(n) && step != Free(n)
    ensures step != Finalize(n) && n in Apply(h, step).fin && n in Apply(h, step).kids
  {
    hide Heap.Accessible, Heap.AccessibleWithout, Heap.CanUpgrade, GroupDropped, WeakTable.Apply, WeakTable.BoxFreed;
  }
}

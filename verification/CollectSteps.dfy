/** A pass of the collector as steps of the machine. */
module CollectSteps {
  import opened Graph
  import opened WeakTables
  import opened Heaps
  import opened Garbage
  import opened Coverage
  import opened HeapRuns
  import opened DropSteps
  import opened Logs

  // ----- tracing ----------------------------------------------------------------------------------------

  ghost predicate MayBegin<T>(h: Heap<T>) { h.Valid() && h.phase.Idle? && h.collecting }

  /** Tracing has ended: the list is settled. */
  ghost predicate InPass<T>(h: Heap<T>) { h.Valid() && h.phase.Listed? }

  lemma BeginsPass<T>(h: Heap<T>)
    requires MayBegin(h)
    ensures FlaggedRun(h, [BeginPass], Begun(h), h.finalizing)
    ensures InPass(Begun(h)) && Begun(h).list == h.Garbage() && Begun(h).kids == h.kids
    ensures Begun(h).Unfinalized() == h.Unfinalized() && Begun(h).Reachable() == h.Reachable()
  {
    FlaggedStep(h, BeginPass, h.finalizing);
    CollectableIsGarbage(h);
  }

  lemma EmptyPassEnds<T>(h: Heap<T>)
    requires InPass(h) && h.list == {}
    ensures FlaggedRun(h, [EndPass], Ended(h), h.finalizing)
    ensures Ended(h).Valid() && Ended(h).Live() == Ended(h).Reachable()
    ensures Ended(h).Unfinalized() == h.Unfinalized()
  {
    FlaggedStep(h, EndPass, h.finalizing);
    GroupFreedNoGarbage(h);
  }

  // ----- finalizing -------------------------------------------------------------------------------------

  /** What finalizing the members of the list leaves alone, and a whole pass does, too. */
  ghost predicate SameCalls<T>(h: Heap<T>, h': Heap<T>) {
    && h'.list == h.list && h'.pending == h.pending && h'.dropped == h.dropped && h'.building == h.building
    && h'.collecting == h.collecting && h'.finalizing == h.finalizing && h'.dropping == h.dropping
  }

  /** Some of the members of the list have been looked at, and `has` says whether one had to be finalized.
      Finalizers that do nothing only leave their mark. */
  ghost predicate FinalizedSome<T>(h: Heap<T>, done: set<T>, has: bool, silent: T -> bool, h': Heap<T>) {
    && h'.Valid() && SameCalls(h, h') && h'.fin * (h.list - done) <= h.fin
    && (if has then h'.phase.Finalizing? && h'.Unfinalized() < h.Unfinalized() && !(done <= h.fin)
        else h' == h && done <= h.fin)
    && (AllSilent(done - h.fin, silent) ==> h' == Marked(h, done, has))
  }

  ghost function Marked<T>(h: Heap<T>, done: set<T>, has: bool): Heap<T> {
    h.(fin := h.fin + done, phase := if has then Phase.Finalizing else h.phase)
  }

  lemma NoneFinalized<T>(h: Heap<T>, silent: T -> bool)
    requires InPass(h)
    ensures FinalizedSome(h, {}, false, silent, h)
  {
    assert h.fin + {} == h.fin;
  }

  lemma AlreadyFinalized<T>(h: Heap<T>, done: set<T>, has: bool, silent: T -> bool, m: Heap<T>, b: T)
    requires FinalizedSome(h, done, has, silent, m) && b in m.fin
    ensures FinalizedSome(h, done + {b}, has, silent, m)
  {
    hide Heap.Valid;
    if AllSilent(done + {b} - h.fin, silent) {
      assert AllSilent(done - h.fin, silent);
      assert h.fin + (done + {b}) == h.fin + done;
    }
  }

  /** Finalizers do not ask for finalization again. */
  lemma StillFinalized<T>(h: Heap<T>, done: set<T>, has: bool, silent: T -> bool, m: Heap<T>, b: T)
    requires FinalizedSome(h, done, has, silent, m) && b in m.kids
    ensures b in h.fin ==> b in m.fin
  {
    hide Heap.Valid;
    if b !in m.fin { assert b in m.Unfinalized() && b in h.Unfinalized(); }
  }

  ghost function StartedListed<T>(h: Heap<T>, b: T): Heap<T> {
    h.(fin := h.fin + {b}, phase := Phase.Finalizing)
  }

  lemma StartListed<T>(h: Heap<T>, done: set<T>, has: bool, silent: T -> bool, m: Heap<T>, b: T)
    requires InPass(h) && h.finalizing && FinalizedSome(h, done, has, silent, m) && b in h.list && b !in m.fin
    ensures b in m.kids && FinalizerMay(StartedListed(m, b), b)
    ensures FlaggedRun(m, [Finalize(b)], StartedListed(m, b), true)
    ensures StartedListed(m, b).Unfinalized() < m.Unfinalized() && StartedListed(m, b).collecting
  {
    hide Apply, Enabled, FlaggedRun;
    FinalizeEffect(m, b);
    FlaggedStep(m, Finalize(b), true);
    assert b in m.Unfinalized() && b !in StartedListed(m, b).Unfinalized();
  }

  lemma ListedReturned<T>(h: Heap<T>, done: set<T>, has: bool, silent: T -> bool, m: Heap<T>, b: T,
                          steps: seq<Step<T>>, h': Heap<T>)
    requires InPass(h) && h.finalizing && FinalizedSome(h, done, has, silent, m) && b in h.list && b !in m.fin
    requires FinalizerRan(StartedListed(m, b), steps, h') && (silent(b) ==> h' == StartedListed(m, b))
    ensures FinalizedSome(h, done + {b}, true, silent, h') && FlaggedRun(m, Then([Finalize(b)], steps), h', true)
  {
    hide InPass, FlaggedRun, Then, FinalizedSome, ProgramRun, Heap.Valid, Returned, FinalizerMay, StartedListed;
    hide SameCalls, Heap.Unfinalized;
    StartListed(h, done, has, silent, m, b);
    StillFinalized(h, done, has, silent, m, b);
    FlaggedRunWeakens(StartedListed(m, b), steps, h', Guards(true, true), true);
    FlaggedRunsCompose(m, [Finalize(b)], StartedListed(m, b), steps, h', true);
    PassIsCollecting(h, done, has, silent, m);
    StartedListedRuns(m, b, steps, h');
    FinalizedOneMore(h, done, has, silent, m, b, h');
  }

  lemma PassIsCollecting<T>(h: Heap<T>, done: set<T>, has: bool, silent: T -> bool, m: Heap<T>)
    requires InPass(h) && FinalizedSome(h, done, has, silent, m)
    ensures m.collecting && h.collecting
  {}

  lemma FinalizedOneMore<T>(h: Heap<T>, done: set<T>, has: bool, silent: T -> bool, m: Heap<T>, b: T, h': Heap<T>)
    requires FinalizedSome(h, done, has, silent, m) && b !in h.fin && (silent(b) ==> h' == StartedListed(m, b))
    requires h'.Valid() && SameCalls(m, h') && h'.phase.Finalizing? && h'.fin * (m.list - {b}) <= m.fin
    requires h'.Unfinalized() <= StartedListed(m, b).Unfinalized() < m.Unfinalized()
    ensures FinalizedSome(h, done + {b}, true, silent, h')
  {
    hide Heap.Valid, Heap.Unfinalized, StartedListed, Marked, AllSilent;
    MarkedNext(h, done, has, silent, m, b, h');
    assert m.Unfinalized() <= h.Unfinalized();
    forall x | x in h'.fin * (h.list - (done + {b}))
      ensures x in h.fin
    {
      assert x in h'.fin * (m.list - {b});
      assert x in m.fin * (h.list - done);
    }
  }

  lemma MarkedNext<T>(h: Heap<T>, done: set<T>, has: bool, silent: T -> bool, m: Heap<T>, b: T, h': Heap<T>)
    requires AllSilent(done - h.fin, silent) ==> m == Marked(h, done, has)
    requires b !in h.fin && (silent(b) ==> h' == StartedListed(m, b))
    ensures AllSilent(done + {b} - h.fin, silent) ==> h' == Marked(h, done + {b}, true)
  {
    if AllSilent(done + {b} - h.fin, silent) {
      assert b in done + {b} - h.fin && AllSilent(done - h.fin, silent);
      assert h.fin + (done + {b}) == h.fin + done + {b};
    }
  }

  /** The finalizer of a listed box has been called once, apart from what it calls itself. */
  lemma ListedLogged<T>(b: T, steps: seq<Step<T>>, before: Log<T>, after: Log<T>)
    requires Logged(before.Calling(b), steps, after)
    ensures Logged(before, Then([Finalize(b)], steps), after) && before.calls + [b] <= after.calls
  {
    hide Then, FinalizersIn, ClosuresIn, ProgramIn;
    StepLogged(before, Finalize(b));
    LoggedThen(before, [Finalize(b)], before.Calling(b), steps, after);
  }

  lemma StartedListedRuns<T>(m: Heap<T>, b: T, steps: seq<Step<T>>, h': Heap<T>)
    requires FinalizerMay(StartedListed(m, b), b) && FinalizerRan(StartedListed(m, b), steps, h') && m.collecting
    ensures h'.Valid() && h'.Unfinalized() <= StartedListed(m, b).Unfinalized()
    ensures SameCalls(m, h') && h'.phase.Finalizing? && h'.fin * (m.list - {b}) <= m.fin
  {
    hide Heap.Valid, ProgramRun, Heap.Accessible, Heap.Unfinalized;
    ProgramRunFinalizesNoMember(StartedListed(m, b), steps, h', Guards(true, true));
    ProgramRunKeepsPass(StartedListed(m, b), steps, h', Guards(true, true));
    forall x | x in h'.fin * (m.list - {b})
      ensures x in m.fin
    {
      assert x in h'.fin * m.list;
    }
  }

  lemma Requeues<T>(h: Heap<T>, done: set<T>, silent: T -> bool, m: Heap<T>)
    requires FinalizedSome(h, done, true, silent, m)
    ensures Requeued(m).Valid() && Requeued(m).Unfinalized() < h.Unfinalized()
    ensures m.Valid() && m.phase.Finalizing? && m.collecting == h.collecting && m.dropping == h.dropping
    ensures m.dropped !! m.list && m.list <= m.kids.Keys && m.p <= m.kids.Keys
  {
    StepKeepsValid(m, Requeue);
  }

  lemma FlagsKeepValid<T>(h: Heap<T>, f: bool, d: bool, kept: bool)
    requires h.Valid() && !h.phase.Deallocating? && (kept ==> f)
    ensures FlaggedRun(h, [SetFlags(h.collecting, f, d)], h.(finalizing := f, dropping := d), kept)
    ensures h.(finalizing := f, dropping := d).Valid()
    ensures h.(finalizing := f, dropping := d).Unfinalized() == h.Unfinalized()
    ensures h.(finalizing := f, dropping := d).Reachable() == h.Reachable()
  {
    hide Apply, Enabled, FlaggedRun;
    FlagsEffect(h, h.collecting, f, d);
    FlaggedStep(h, SetFlags(h.collecting, f, d), kept);
  }

  // ----- deallocating the group -------------------------------------------------------------------------

  ghost predicate MayDealloc<T>(h: Heap<T>) { InPass(h) && h.dropping && h.list <= h.fin }

  ghost function StartSteps<T>(h: Heap<T>): seq<Step<T>> {
    Then([SetFlags(h.collecting, h.finalizing, true)], [StartDealloc])
  }

  lemma StartsDealloc<T>(h: Heap<T>)
    requires InPass(h) && h.list <= h.fin
    ensures FlaggedRun(h, StartSteps(h), Condemning(h.(dropping := true)), h.finalizing)
    ensures MayDealloc(h.(dropping := true))
    ensures DroppedSome(Condemning(h.(dropping := true)), {}, Condemning(h.(dropping := true)))
  {
    FlagsKeepValid(h, h.finalizing, true, h.finalizing);
    FlaggedStep(h.(dropping := true), StartDealloc, h.finalizing);
    FlaggedRunsCompose(h, [SetFlags(h.collecting, h.finalizing, true)], h.(dropping := true), [StartDealloc],
                       Condemning(h.(dropping := true)), h.finalizing);
  }

  /** What is left alone while the members of the list are dropped and freed. */
  ghost predicate SameOutside<T>(h: Heap<T>, h': Heap<T>) {
    && h'.phase == h.phase && h'.pending == h.pending && h'.building == h.building && h'.handles == h.handles
    && h'.collecting == h.collecting && h'.finalizing == h.finalizing && h'.dropping == h.dropping
    && h'.kids.Keys <= h.kids.Keys && (forall x | x in h'.kids && x !in h.list :: h'.kids[x] == h.kids[x])
  }

  /** The members `done` of the list have been dropped. */
  ghost predicate DroppedSome<T>(h: Heap<T>, done: set<T>, h': Heap<T>) {
    && h'.Valid() && SameOutside(h, h') && h'.kids.Keys == h.kids.Keys
    && h.phase.Deallocating? && h.pending == h.phase.outer && h.list <= h.fin && h.dropped !! h.list
    && h'.list == h.list && h'.fin == h.fin && h'.dropped == h.dropped + done
  }

  ghost function MemberDestroyed<T>(h: Heap<T>, b: T): Heap<T>
    requires b in h.kids
  {
    Detached(h, b).(dropped := h.dropped + {b})
  }

  lemma DropMember<T>(h: Heap<T>, done: set<T>, m: Heap<T>, b: T)
    requires DroppedSome(h, done, m) && b in h.list - done
    ensures b in m.kids && b !in m.p && MayDropAll(MemberDestroyed(m, b), m.kids[b])
    ensures FlaggedRun(m, Then([Detach(b)], [Bury(b)]), MemberDestroyed(m, b), m.finalizing)
  {
    hide FlaggedRun, Heap.Valid;
    MemberSteps(m, b);
    FlaggedRunsCompose(m, [Detach(b)], Detached(m, b), [Bury(b)], MemberDestroyed(m, b), m.finalizing);
  }

  lemma MemberSteps<T>(m: Heap<T>, b: T)
    requires m.Valid() && Condemned(m, b) && b in m.fin && m.pending == m.phase.outer
    ensures b in m.kids && b !in m.p && MayDropAll(MemberDestroyed(m, b), m.kids[b])
    ensures FlaggedRun(m, [Detach(b)], Detached(m, b), m.finalizing)
    ensures FlaggedRun(Detached(m, b), [Bury(b)], MemberDestroyed(m, b), m.finalizing)
  {
    hide Heap.Valid, FlaggedRun;
    DetachMember(m, b);
    BuryMember(Detached(m, b), b);
  }

  lemma DetachMember<T>(m: Heap<T>, b: T)
    requires m.Valid() && Condemned(m, b) && b in m.fin
    ensures b in m.kids && b !in m.p && Condemned(Detached(m, b), b)
    ensures FlaggedRun(m, [Detach(b)], Detached(m, b), m.finalizing) && Detached(m, b).Valid()
  {
    hide Heap.NoDangling, Heap.Conserved, Heap.Covered, Heap.Doomed, WeakTable.Valid, FlaggedRun, Apply, Enabled;
    DetachEffect(m, b);
    FlaggedStep(m, Detach(b), m.finalizing);
  }

  lemma BuryMember<T>(m: Heap<T>, b: T)
    requires m.Valid() && Condemned(m, b) && b in m.fin && b in m.kids && m.kids[b] == []
    ensures FlaggedRun(m, [Bury(b)], m.(dropped := m.dropped + {b}), m.finalizing)
    ensures m.(dropped := m.dropped + {b}).Valid()
  {
    hide Heap.NoDangling, Heap.Conserved, Heap.Covered, Heap.Doomed, Heap.Placed, WeakTable.Valid, FlaggedRun;
    hide Apply, Enabled;
    BuryEffect(m, b);
    FlaggedStep(m, Bury(b), m.finalizing);
  }

  lemma MemberDropped<T>(h: Heap<T>, done: set<T>, m: Heap<T>, b: T, silent: T -> bool, s: seq<Step<T>>, freed: seq<T>,
                         h': Heap<T>)
    requires DroppedSome(h, done, m) && b in h.list - done && b in m.kids
    requires DropsAll(MemberDestroyed(m, b), multiset(m.kids[b]), silent, s, freed, h')
    ensures DroppedSome(h, done + {b}, h') && FlaggedRun(m, Then(Then([Detach(b)], [Bury(b)]), s), h', m.finalizing)
  {
    hide Heap.Valid, ProgramRun, Progress, Returned, FlaggedRun, Then;
    DropMember(h, done, m, b);
    FlaggedRunWeakens(MemberDestroyed(m, b), s, h', GuardsOf(MemberDestroyed(m, b)), m.finalizing);
    FlaggedRunsCompose(m, Then([Detach(b)], [Bury(b)]), MemberDestroyed(m, b), s, h', m.finalizing);
    assert h'.pending == m.pending + multiset(m.kids[b]) - multiset(m.kids[b]) == m.pending;
    assert h'.kids.Keys == m.kids.Keys;
  }

  lemma AllDropped<T>(h: Heap<T>, m: Heap<T>)
    requires DroppedSome(h, h.list, m)
    ensures FreedSome(m, m) && m.finalizing == h.finalizing
  {}

  /** Members of the dropped list have been freed. */
  ghost predicate FreedSome<T>(h: Heap<T>, h': Heap<T>) {
    && h'.Valid() && GroupDropped(h') && SameOutside(h, h')
    && h'.list <= h.list && h'.kids.Keys == h.kids.Keys - (h.list - h'.list)
    && h'.fin == h.fin - (h.list - h'.list) && h'.dropped == h.dropped - (h.list - h'.list) && h'.p == h.p
  }

  lemma FreedStaysValid<T>(h: Heap<T>, b: T)
    requires h.Valid() && GroupDropped(h) && b in h.list
    ensures b in h.kids && b !in h.p && h.p <= h.kids.Keys && h.building <= h.kids.Keys - {b}
    ensures Freed(h, b).Valid() && GroupDropped(Freed(h, b)) && FlaggedRun(h, [Free(b)], Freed(h, b), h.finalizing)
  {
    hide Apply, Enabled, FlaggedRun;
    FreeEffect(h, b);
    FlaggedStep(h, Free(b), h.finalizing);
  }

  lemma FreeMember<T>(h: Heap<T>, m: Heap<T>, b: T)
    requires FreedSome(h, m) && b in m.list
    ensures b in m.kids && b !in m.p && m.p <= m.kids.Keys && FreedSome(h, Freed(m, b))
    ensures Freed(m, b).list == m.list - {b} && FlaggedRun(m, [Free(b)], Freed(m, b), h.finalizing)
  {
    hide Heap.Valid, GroupDropped, FlaggedRun;
    FreedStaysValid(m, b);
    FreedStaysOutside(h, m, b);
  }

  lemma FreedStaysOutside<T>(h: Heap<T>, m: Heap<T>, b: T)
    requires SameOutside(h, m) && m.list <= h.list && b in m.list && m.building <= m.kids.Keys - {b}
    requires m.kids.Keys == h.kids.Keys - (h.list - m.list) && m.fin == h.fin - (h.list - m.list)
    requires m.dropped == h.dropped - (h.list - m.list)
    ensures SameOutside(h, Freed(m, b)) && Freed(m, b).kids.Keys == h.kids.Keys - (h.list - (m.list - {b}))
    ensures Freed(m, b).fin == h.fin - (h.list - (m.list - {b}))
    ensures Freed(m, b).dropped == h.dropped - (h.list - (m.list - {b}))
  {
    assert m.building - {b} == m.building;
  }

  lemma AllFreed<T>(h: Heap<T>, m: Heap<T>)
    requires FreedSome(h, m) && m.list == {}
    ensures Ended(m).Valid() && Ended(m).Live() == Ended(m).Reachable()
    ensures FlaggedRun(m, [EndPass], Ended(m), m.finalizing)
  {
    FlaggedStep(m, EndPass, m.finalizing);
    GroupFreedNoGarbage(m);
  }

  // ----- a whole pass -----------------------------------------------------------------------------------

  /** Exactly the garbage is freed; what the program holds and what it can reach stay as they are. */
  ghost predicate GarbageFreed<T>(h: Heap<T>, h': Heap<T>) {
    && h'.kids == h.kids - (h.Garbage())
    && h'.handles == h.handles && h'.pending == h.pending && h'.building == h.building
    && h'.Live() == h'.Reachable() && h'.Unfinalized() <= h.Unfinalized()
  }

  /** The garbage is finalized and put back. */
  ghost function GarbageFinalized<T>(h: Heap<T>): Heap<T> { h.(fin := h.fin + h.Garbage(), p := h.Garbage()) }

  /** What a pass does: it frees exactly the garbage, or it finalizes boxes and frees nothing.  When there
      is no garbage it leaves no candidates.  If no finalizer of the garbage does anything, the heap is exactly
      known. */
  ghost predicate Passed<T>(h: Heap<T>, silent: T -> bool, h': Heap<T>) {
    && MayBegin(h') && SameCalls(h, h')
    && (GarbageFreed(h, h') || h'.Unfinalized() < h.Unfinalized())
    && (h.Live() == h.Reachable() ==> h'.p == {} && GarbageFreed(h, h'))
    && (AllSilent(h.Garbage() - h.fin, silent) ==>
          if h.Garbage() <= h.fin then GarbageFreed(h, h') else h' == GarbageFinalized(h))
  }

  lemma EmptyPass<T>(h: Heap<T>, silent: T -> bool)
    requires MayBegin(h) && Begun(h).list == {}
    ensures Passed(h, silent, Ended(Begun(h))) && GarbageFreed(h, Ended(Begun(h)))
    ensures FlaggedRun(h, Then([BeginPass], [EndPass]), Ended(Begun(h)), h.finalizing)
  {
    BeginsPass(h);
    EmptyPassEnds(Begun(h));
    FlaggedRunsCompose(h, [BeginPass], Begun(h), [EndPass], Ended(Begun(h)), h.finalizing);
    assert h.kids - {} == h.kids;
  }

  lemma StartsFinalizing<T>(h: Heap<T>)
    requires MayBegin(h)
    ensures h.Typed() && InPass(Begun(h).(finalizing := true)) && Begun(h).finalizing == h.finalizing
    ensures FlaggedRun(h, [BeginPass], Begun(h), h.finalizing)
    ensures FlaggedRun(Begun(h), [SetFlags(h.collecting, true, h.dropping)], Begun(h).(finalizing := true),
      h.finalizing)
  {
    BeginsPass(h);
    FlagsKeepValid(Begun(h), true, h.dropping, h.finalizing);
  }

  lemma FinalizingPass<T>(h: Heap<T>, silent: T -> bool, m: Heap<T>)
    requires MayBegin(h) && Begun(h).list != {}
    requires FinalizedSome(Begun(h).(finalizing := true), Begun(h).list, true, silent, m)
    ensures Passed(h, silent, Requeued(m.(finalizing := h.finalizing)))
    ensures Requeued(m.(finalizing := h.finalizing)).Unfinalized() < h.Unfinalized()
    ensures FlaggedRun(m.(finalizing := h.finalizing), [Requeue], Requeued(m.(finalizing := h.finalizing)),
      h.finalizing)
    ensures m.dropped !! m.list && m.list <= m.kids.Keys && m.p <= m.kids.Keys
  {
    hide Heap.Valid, FlaggedRun, Collectable;
    hide Heap.Unfinalized, Heap.Live, Heap.Reachable;
    BeginsPass(h);
    BegunLater(h);
    Requeues(Begun(h).(finalizing := true), Begun(h).list, silent, m);
    RequeuesAt(m, h.finalizing);
    MarkedIsFinalized(h, m);
  }

  lemma MarkedIsFinalized<T>(h: Heap<T>, m: Heap<T>)
    requires h.Typed() && h.phase.Idle? && h.list == {} && Begun(h).list == h.Garbage()
    ensures m == Marked(Begun(h).(finalizing := true), Begun(h).list, true) ==>
      Requeued(m.(finalizing := h.finalizing)) == GarbageFinalized(h)
  {
    hide Collectable, Heap.Live, Heap.Reachable;
    assert h.Garbage() + {} == h.Garbage();
  }

  lemma BegunLater<T>(h: Heap<T>)
    requires MayBegin(h)
    ensures h.Typed() && Begun(h).(finalizing := true).Unfinalized() == h.Unfinalized()
    ensures h.Live() == h.Reachable() ==> Begun(h).list == {}
    ensures h.list == {} && h.collecting && h.phase.Idle?
  {
    BeginsPass(h);
  }

  lemma RequeuesAt<T>(m: Heap<T>, f: bool)
    requires m.Valid() && m.phase.Finalizing? && Requeued(m).Valid()
    ensures FlaggedRun(m.(finalizing := f), [Requeue], Requeued(m.(finalizing := f)), f)
    ensures MayBegin(Requeued(m.(finalizing := f)))
    ensures Requeued(m.(finalizing := f)).Unfinalized() == Requeued(m).Unfinalized()
  {
    hide FlaggedRun;
    FlagsKeepValid(m, f, m.dropping, f);
    FlaggedStep(m.(finalizing := f), Requeue, f);
  }

  lemma NotDeallocating<T>(h: Heap<T>)
    requires InPass(h)
    ensures !h.phase.Deallocating?
  {}

  /** The guard puts the flag back. */
  lemma StopsFinalizing<T>(h: Heap<T>, done: set<T>, has: bool, silent: T -> bool, m: Heap<T>, f: bool)
    requires FinalizedSome(h, done, has, silent, m) && !h.phase.Deallocating?
    ensures FlaggedRun(m, [SetFlags(m.collecting, f, m.dropping)], m.(finalizing := f), f)
  {
    FlagsKeepValid(m, f, m.dropping, f);
  }

  lemma NothingToFinalize<T>(h: Heap<T>, silent: T -> bool, m: Heap<T>)
    requires MayBegin(h) && FinalizedSome(Begun(h).(finalizing := true), Begun(h).list, false, silent, m)
    ensures m.(finalizing := h.finalizing) == Begun(h) && InPass(Begun(h)) && Begun(h).list <= Begun(h).fin
  {
    BeginsPass(h);
  }

  /** What deallocating the list does to a heap in a pass. */
  ghost predicate Deallocated<T>(h: Heap<T>, h': Heap<T>) {
    && h'.Valid() && h'.phase.Idle? && h'.Live() == h'.Reachable()
    && h'.kids == h.kids - h.list && h'.fin == h.fin - h.list
    && h'.pending == h.pending && h'.building == h.building && h'.handles == h.handles && h'.dropped == h.dropped
    && h'.collecting == h.collecting && h'.finalizing == h.finalizing && h'.dropping == h.dropping
  }

  ghost function EndSteps<T>(h: Heap<T>): seq<Step<T>> {
    Then([EndPass], [SetFlags(h.collecting, h.finalizing, h.dropping)])
  }

  lemma Deallocates<T>(h: Heap<T>, m: Heap<T>, k: Heap<T>)
    requires MayDealloc(h.(dropping := true)) && InPass(h)
    requires DroppedSome(Condemning(h.(dropping := true)), h.list, m) && FreedSome(m, k) && k.list == {}
    ensures Deallocated(h, Ended(k.(dropping := h.dropping))) && k.kids.Keys <= h.kids.Keys
    ensures FlaggedRun(k, EndSteps(h), Ended(k.(dropping := h.dropping)), h.finalizing)
  {
    AllFreed(m, k);
    FlagsKeepValid(Ended(k), k.finalizing, h.dropping, k.finalizing);
    FlaggedRunsCompose(k, [EndPass], Ended(k), [SetFlags(h.collecting, h.finalizing, h.dropping)],
                       Ended(k).(dropping := h.dropping), k.finalizing);
    assert Ended(k.(dropping := h.dropping)) == Ended(k).(dropping := h.dropping);
    FreedKids(h, m, k);
  }

  lemma FreedKids<T>(h: Heap<T>, m: Heap<T>, k: Heap<T>)
    requires DroppedSome(Condemning(h.(dropping := true)), h.list, m) && FreedSome(m, k) && k.list == {}
    ensures k.kids == h.kids - h.list && k.fin == h.fin - h.list && h.kids.Keys == m.kids.Keys && k.dropped == h.dropped
  {
    hide Heap.Valid, GroupDropped;
  }

  lemma DeallocatingPass<T>(h: Heap<T>, silent: T -> bool, h': Heap<T>)
    requires MayBegin(h) && Begun(h).list != {} && Begun(h).list <= Begun(h).fin && Deallocated(Begun(h), h')
    ensures Passed(h, silent, h') && GarbageFreed(h, h') && h'.kids.Keys <= h.kids.Keys
  {
    BeginsPass(h);
  }

  // ----- a whole collection -----------------------------------------------------------------------------

  /** Between passes, `k` of which have been made since `h` and have called `c` finalizers: each pass has
      called one, except for at most one pass that freed all the garbage, or P is empty. */
  ghost predicate PassesLeft<T>(h: Heap<T>, k: nat, c: nat, silent: T -> bool, m: Heap<T>) {
    && MayBegin(m) && SameCalls(h, m)
    && (|| m.p == {}
        || (k <= c && |m.Unfinalized()| + k <= |h.Unfinalized()|)
        || (m.Live() == m.Reachable() && k <= c + 1 && |m.Unfinalized()| + k <= |h.Unfinalized()| + 1))
    && (h.Unfinalized() == {} ==> m.Unfinalized() == {})
    && (AllSilent(h.Garbage() - h.fin, silent) ==> QuietlyLeft(h, k, m))
  }

  /** If no finalizer does anything, then one pass finalizes the garbage, the next frees it, and the one after
      that clears P. */
  ghost predicate QuietlyLeft<T>(h: Heap<T>, k: nat, m: Heap<T>) {
    || (k == 0 && m == h)
    || (k == 1 && m == GarbageFinalized(h) && m.p != {})
    || (GarbageFreed(h, m) && k <= (if m.p == {} then 3 else 2))
  }

  lemma StartsCollection<T>(h: Heap<T>, silent: T -> bool)
    requires MayBegin(h)
    ensures PassesLeft(h, 0, 0, silent, h)
  {}

  lemma MayPass<T>(h: Heap<T>, k: nat, c: nat, silent: T -> bool, m: Heap<T>)
    requires PassesLeft(h, k, c, silent, m)
    ensures MayBegin(m) && (h.Unfinalized() == {} ==> m.Unfinalized() == {})
    ensures AllSilent(h.Garbage() - h.fin, silent) ==> AllSilent(m.Garbage() - m.fin, silent)
  {
    hide Heap.Valid;
    if AllSilent(h.Garbage() - h.fin, silent) {
      StillGarbage(h);
    }
  }

  lemma StillGarbage<T>(h: Heap<T>)
    ensures GarbageFinalized(h).Garbage() == h.Garbage() && h.Garbage() <= GarbageFinalized(h).fin
    ensures GarbageFinalized(h).Live() == h.Live() && GarbageFinalized(h).Reachable() == h.Reachable()
  {}

  lemma AfterPass<T>(h: Heap<T>, k: nat, c: nat, silent: T -> bool, m: Heap<T>, c': nat, m': Heap<T>)
    requires PassesLeft(h, k, c, silent, m) && Passed(m, silent, m') && m.p != {} && c <= c'
    requires if c' == c then GarbageFreed(m, m') else m'.Unfinalized() < m.Unfinalized()
    ensures PassesLeft(h, k + 1, c', silent, m')
  {
    hide Heap.Valid;
    if AllSilent(h.Garbage() - h.fin, silent) {
      QuietAfterPass(h, k, silent, m, m');
    }
    if c' == c {
      OutOf(m'.Unfinalized(), m.Unfinalized());
    } else {
      Smaller(m'.Unfinalized(), m.Unfinalized());
    }
  }

  lemma OutOf<T>(s: set<T>, t: set<T>)
    requires s <= t
    ensures |s| <= |t|
  {
    if s != t { Smaller(s, t); }
  }

  lemma QuietAfterPass<T>(h: Heap<T>, k: nat, silent: T -> bool, m: Heap<T>, m': Heap<T>)
    requires QuietlyLeft(h, k, m) && AllSilent(h.Garbage() - h.fin, silent) && Passed(m, silent, m') && m.p != {}
    ensures QuietlyLeft(h, k + 1, m')
  {
    hide Heap.Valid;
    if m == GarbageFinalized(h) {
      StillGarbage(h);
      assert GarbageFreed(m, m');
      FreedAfterMark(h, m');
    } else if m != h {
      assert m.kids - {} == m.kids;
    }
    if m == h && h.Garbage() <= h.fin { assert GarbageFreed(h, m'); }
    if m == h && !(h.Garbage() <= h.fin) { assert m'.p != {}; }
  }

  lemma FreedAfterMark<T>(h: Heap<T>, m': Heap<T>)
    requires GarbageFreed(GarbageFinalized(h), m')
    ensures GarbageFreed(h, m')
  {
    StillGarbage(h);
    assert GarbageFinalized(h).Unfinalized() <= h.Unfinalized();
  }

  /** What a collection that has called `c` finalizers promises: it ends as the call it is; no garbage is
      left unless candidates are; candidates are left only after at least 9 passes had something to
      finalize; and if no finalizer of the garbage does anything, then exactly the garbage is freed and no
      candidates are left. */
  ghost predicate Collected<T>(h: Heap<T>, c: nat, silent: T -> bool, h': Heap<T>) {
    && Returned(h, h') && h'.pending == h.pending
    && (h'.p == {} ==> h'.Live() == h'.Reachable())
    && (h'.p != {} ==> 9 <= c && |h'.Unfinalized()| + 9 <= |h.Unfinalized()|)
    && (AllSilent(h.Garbage() - h.fin, silent) ==> GarbageFreed(h, h') && h'.p == {})
  }

  lemma EndsCollection<T>(h: Heap<T>, k: nat, c: nat, silent: T -> bool, m: Heap<T>)
    requires !h.collecting && h.phase.Idle? && h.list == {}
    requires PassesLeft(h.(collecting := true), k, c, silent, m) && (k == 10 || m.p == {})
    ensures Collected(h, c, silent, m.(collecting := false))
  {
    hide FlaggedRun, Heap.Valid, Heap.Live, Heap.Reachable, Heap.Unfinalized, MayBegin;
    StopsCollecting(m);
    StoppedReturns(h, m);
    SameSets(h);
    FreesUnchanged(h.(collecting := true), m);
    if AllSilent(h.Garbage() - h.fin, silent) { assert GarbageFreed(h.(collecting := true), m) && m.p == {}; }
  }

  lemma StoppedReturns<T>(h: Heap<T>, m: Heap<T>)
    requires !h.collecting && h.phase.Idle? && MayBegin(m) && SameCalls(h.(collecting := true), m)
    ensures Returned(h, m.(collecting := false)) && m.pending == h.pending
      && m.(collecting := false).pending == h.pending
  {}

  lemma StopsCollecting<T>(m: Heap<T>)
    requires MayBegin(m)
    ensures FlaggedRun(m, [SetFlags(false, m.finalizing, m.dropping)], m.(collecting := false), m.finalizing)
    ensures m.(collecting := false).Valid()
    ensures m.(collecting := false).Live() == m.Live() && m.(collecting := false).Reachable() == m.Reachable()
    ensures m.(collecting := false).Unfinalized() == m.Unfinalized()
    ensures m.p == {} ==> m.Live() == m.Reachable()
  {
    hide Apply, Enabled, FlaggedRun;
    FlagsEffect(m, false, m.finalizing, m.dropping);
    FlaggedStep(m, SetFlags(false, m.finalizing, m.dropping), m.finalizing);
    if m.p == {} {
      Exact(m);
    }
  }

  lemma FreesUnchanged<T>(h: Heap<T>, m: Heap<T>)
    ensures m == h && m.Live() == m.Reachable() ==> GarbageFreed(h, m)
  {
    assert h.kids - {} == h.kids;
  }

  lemma StartsCollecting<T>(h: Heap<T>)
    requires h.Valid() && !h.collecting
    ensures MayBegin(h.(collecting := true)) && h.phase.Idle? && h.list == {}
    ensures FlaggedRun(h, [SetFlags(true, h.finalizing, h.dropping)], h.(collecting := true), h.finalizing)
    ensures h.(collecting := true).Unfinalized() == h.Unfinalized()
  {
    hide Apply, Enabled, FlaggedRun;
    FlagsEffect(h, true, h.finalizing, h.dropping);
    FlaggedStep(h, SetFlags(true, h.finalizing, h.dropping), h.finalizing);
  }

  lemma SameSets<T>(h: Heap<T>)
    ensures h.(collecting := true).Live() == h.Live() && h.(collecting := true).Reachable() == h.Reachable()
    ensures h.(collecting := true).Unfinalized() == h.Unfinalized()
    ensures h.(collecting := true).Garbage() == h.Garbage()
  {}

  /** A collection is what a call to the library does. */
  lemma CollectionDoes<T>(h: Heap<T>, steps: seq<Step<T>>, h': Heap<T>)
    requires h.Valid() && !h.collecting && FlaggedRun(h, steps, h', h.finalizing)
    ensures Does(h, steps, h')
  {
    hide ProgramRun;
    ProgramRunKeepsPass(h, steps, h', GuardsOf(h));
  }
}

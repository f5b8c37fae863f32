/** Every step keeps each live box reachable from a `Cc` outside of the heap or from a candidate,
    which is what makes looking at the candidates enough; and while a group is being deallocated
    everything outside of the group stays reachable without it. */
module Coverage {
  import opened Graph
  import opened WeakTables
  import opened Heaps
  import opened HeapCounts
  import opened Garbage

  // ----- accessible boxes -----------------------------------------------------------------------------

  lemma AccessibleIsLive<T>(h: Heap<T>)
    requires h.Typed() && h.NoDangling() && h.Placed() && h.Conserved() && !h.phase.Deallocating?
    ensures h.Accessible() <= h.Live()
  {
    LiveIsClosed(h);
    ReachLeast(h.kids, h.Roots() + h.list, h.Live());
  }

  lemma AccessibleWithoutIsLive<T>(h: Heap<T>, n: T)
    requires h.Typed() && h.NoDangling() && h.Placed() && h.Conserved() && !h.phase.Deallocating?
    ensures h.AccessibleWithout(n) <= h.Live()
  {
    AccessibleIsLive(h);
    ReachMono(h.kids, Elements(h.handles - multiset{n} + h.pending) + h.list, h.Roots() + h.list);
  }

  lemma CollectableIsLive<T>(h: Heap<T>)
    requires h.Typed() && h.NoDangling() && h.Placed() && h.Conserved() && !h.phase.Deallocating?
    ensures Collectable(h.kids, h.rc, h.p) <= h.Live()
  {
    LiveIsClosed(h);
    ReachLeast(h.kids, h.p, h.Live());
  }

  // ----- coverage -------------------------------------------------------------------------------------

  /** Coverage survives when every edge and every source of the old heap is still accounted for. */
  lemma CoverageKept<T>(h: Heap<T>, h': Heap<T>)
    requires h.Covered() && Closed(h.kids, h.kids.Keys) && h.Sources() <= h.kids.Keys
    requires forall a, b | a in h.kids && b in h.kids[a] ::
      b !in h'.Live() || b in Reach(h'.kids, h'.Sources()) || (a in h'.Live() && b in h'.kids[a])
    requires h.Sources() * h'.Live() <= Reach(h'.kids, h'.Sources())
    requires h'.Live() - h.Live() <= Reach(h'.kids, h'.Sources())
    ensures h'.Covered()
  {
    var r := Reach(h'.kids, h'.Sources());
    ReachLeast(h.kids, h.Sources(), r + (h.kids.Keys - h'.Live()));
  }

  /** Without a change of fields only the sources matter. */
  lemma SourcesKept<T>(h: Heap<T>, h': Heap<T>)
    requires h.Covered() && h'.kids == h.kids && h'.Live() <= h.Live()
    requires h.Sources() <= Reach(h'.kids, h'.Sources())
    ensures h'.Covered()
  {
    ReachMono(h.kids, h.Sources(), h'.Sources());
  }

  lemma StoreKeepsCovered<T>(h: Heap<T>, x: T, n: T)
    requires h.Typed() && h.NoDangling() && h.Placed() && h.Covered() && Enabled(h, Store(x, n))
    requires h.AccessibleWithout(n) <= h.Live()
    ensures Apply(h, Store(x, n)).Covered()
  {
    var h' := Apply(h, Store(x, n));
    var rest := Elements(h.handles - multiset{n} + h.pending) + h.list;
    ReachAddEdge(h.kids, rest, x, n);
    assert n in Reach(h'.kids, rest) by { assert n in h'.kids[x]; }
    ReachMono(h'.kids, rest, h'.Sources());
    assert h.Sources() <= h'.Sources() + {n};
    assert h'.Live() == h.Live();
    CoverageKept(h, h');
  }

  lemma TakeKeepsCovered<T>(h: Heap<T>, x: T, i: nat)
    requires h.Typed() && h.NoDangling() && h.Placed() && h.Covered() && Enabled(h, Take(x, i))
    requires h.Accessible() <= h.Live()
    ensures Apply(h, Take(x, i)).Covered()
  {
    var h' := Apply(h, Take(x, i));
    assert h.Sources() <= h'.Sources();
    assert h'.Live() == h.Live();
    forall b | b in h.kids[x]
      ensures b in h'.kids[x] || b in h'.Sources()
    {
      var j :| 0 <= j < |h.kids[x]| && h.kids[x][j] == b;
      if j < i { assert h'.kids[x][j] == b; }
      if j > i { assert h'.kids[x][j - 1] == b; }
    }
    CoverageKept(h, h');
  }

  lemma DetachKeepsCovered<T>(h: Heap<T>, n: T)
    requires h.Typed() && h.NoDangling() && h.Placed() && h.Covered() && Enabled(h, Detach(n))
    ensures Apply(h, Detach(n)).Covered()
  {
    var h' := Apply(h, Detach(n));
    assert h.Sources() <= h'.Sources();
    assert h'.Live() == h.Live();
    forall b | b in h.kids[n]
      ensures b in h'.Sources()
    {
      assert b in multiset(h.kids[n]);
    }
    CoverageKept(h, h');
  }

  /** What the call owned is now reachable from the new box. */
  lemma NewKeepsCovered<T>(h: Heap<T>, n: T, fields: seq<T>)
    requires h.Typed() && h.NoDangling() && h.Placed() && h.Covered() && Enabled(h, New(n, fields))
    ensures Apply(h, New(n, fields)).Covered()
  {
    var h' := Apply(h, New(n, fields));
    forall b | b in h.Sources()
      ensures b in Reach(h'.kids, h'.Sources())
    {
      if b !in h'.Sources() {
        assert b in multiset(fields);
        assert n in h'.kids && b in h'.kids[n] && n in h'.Sources();
      }
    }
    CoverageKept(h, h');
  }

  lemma MoreKeepsCovered<T>(h: Heap<T>, step: Step<T>)
    requires h.Typed() && h.NoDangling() && h.Placed() && h.Covered() && Enabled(h, step)
    requires step.Show? || step.Clone? || step.Upgrade?
    ensures Apply(h, step).Covered()
  {
    var h' := Apply(h, step);
    assert h.Sources() <= h'.Sources();
    CoverageKept(h, h');
  }

  /** The last `Cc` goes, and with it the life of a box that has no fields left. */
  lemma GoneKeepsCovered<T>(h: Heap<T>, step: Step<T>)
    requires h.Typed() && h.NoDangling() && h.Placed() && h.Covered() && Enabled(h, step)
    requires step.Unwrap? || step.Hide?
    ensures Apply(h, step).Covered()
  {
    var h' := Apply(h, step);
    assert h.Sources() <= h'.Sources() + {step.n};
    CoverageKept(h, h');
  }

  lemma BuryKeepsCovered<T>(h: Heap<T>, n: T)
    requires h.Typed() && h.NoDangling() && h.Placed() && h.Covered() && Enabled(h, Bury(n))
    ensures Apply(h, Bury(n)).Covered()
  {
    var h' := Apply(h, Bury(n));
    assert h.Sources() <= h'.Sources() + {n};
    CoverageKept(h, h');
  }

  lemma FreeKeepsCovered<T>(h: Heap<T>, n: T)
    requires h.Typed() && h.NoDangling() && h.Placed() && h.Covered() && Enabled(h, Free(n))
    ensures Apply(h, Free(n)).Covered()
  {
    var h' := Apply(h, Free(n));
    assert h'.Live() == h.Live();
    assert h.Sources() <= h'.Sources() + {n};
    CoverageKept(h, h');
  }

  lemma ReleaseKeepsCovered<T>(h: Heap<T>, n: T)
    requires h.Typed() && h.Covered() && Enabled(h, Release(n))
    ensures Apply(h, Release(n)).Covered()
  {
    var h' := Apply(h, Release(n));
    assert h.Sources() <= h'.Sources();
    SourcesKept(h, h');
  }

  lemma LoseKeepsCovered<T>(h: Heap<T>, n: T)
    requires h.Typed() && h.Covered() && Enabled(h, Lose(n))
    ensures Apply(h, Lose(n)).Covered()
  {
    var h' := Apply(h, Lose(n));
    assert h.Sources() <= h'.Sources();
    SourcesKept(h, h');
  }

  lemma MarkAliveKeepsCovered<T>(h: Heap<T>, n: T)
    requires h.Covered() && h.Typed() && Enabled(h, MarkAlive(n))
    ensures Apply(h, MarkAlive(n)).Covered()
  {
    var h' := Apply(h, MarkAlive(n));
    ReachMono(h.kids, h.Roots() + h.list, h'.Sources());
    SourcesKept(h, h');
  }

  lemma BeginPassKeepsCovered<T>(h: Heap<T>)
    requires h.Valid() && Enabled(h, BeginPass)
    ensures Apply(h, BeginPass).Covered()
  {
    CollectableIsGarbage(h);
    ReachMono(h.kids, h.Roots(), Apply(h, BeginPass).Sources());
  }

  lemma QuietKeepsCovered<T>(h: Heap<T>, step: Step<T>)
    requires h.Typed() && h.Covered() && Enabled(h, step) && Quiet(step) && !step.MarkAlive? && !step.BeginPass?
    ensures Apply(h, step).Covered()
  {
    assert h.Sources() == Apply(h, step).Sources();
  }

  // ----- the group that is being deallocated ------------------------------------------------------------

  /** What the survivors reach contains no member of the group. */
  lemma SurvivorsAvoidTheGroup<T>(h: Heap<T>)
    requires h.NoDangling() && h.Apart() && (h.phase.Listed? || h.phase.Deallocating?)
    requires h.phase.Deallocating? ==> h.phase.outer <= h.pending
    ensures Reach(h.kids, h.Survivors()) <= h.kids.Keys - h.list
  {
    ReachLeast(h.kids, h.Survivors(), h.kids.Keys - h.list);
  }

  /** While a group is being dropped, a `Cc` that one of its members held to an outside box is never
      the last one: the box survives and becomes a candidate. */
  lemma OutsidersKeepAReference<T>(h: Heap<T>, n: T)
    requires h.Valid() && h.phase.Deallocating? && Dropping(h, n) && n !in h.list
    ensures h.rc[n] >= 2
  {
    assert n in h.Live();
    if n !in h.Survivors() {
      var a := ReachPredecessor(h.kids, h.Survivors(), n);
      OutMember(h.kids, h.kids.Keys, n);
    }
  }

  lemma BeginPassKeepsDoomed<T>(h: Heap<T>)
    requires h.Valid() && Enabled(h, BeginPass)
    ensures Apply(h, BeginPass).Doomed()
  {
    CollectableIsGarbage(h);
    LiveIsClosed(h);
  }

  lemma DetachKeepsDoomed<T>(h: Heap<T>, n: T)
    requires h.Valid() && Enabled(h, Detach(n))
    ensures Apply(h, Detach(n)).Doomed()
  {
    var h' := Apply(h, Detach(n));
    if h.phase.Deallocating? {
      SurvivorsAvoidTheGroup(h);
      ReachFrame(h.kids, h'.kids, h.Survivors());
    }
  }

  lemma SurvivorsDoNotReachFreed<T>(h: Heap<T>, n: T)
    requires h.Valid() && Enabled(h, Free(n))
    ensures n !in Reach(h.kids, h.Survivors())
  {
    FreedIsUnreferenced(h, n);
    Unreferenced(h, n);
    if n in Reach(h.kids, h.Survivors()) {
      var a := ReachPredecessor(h.kids, h.Survivors(), n);
    }
  }

  lemma FreeKeepsDoomed<T>(h: Heap<T>, n: T)
    requires h.Valid() && Enabled(h, Free(n))
    ensures Apply(h, Free(n)).Doomed()
  {
    hide Heap.Covered, Heap.Conserved, WeakTable.Valid, WeakTable.BoxFreed, Heap.NoDangling;
    var h' := Apply(h, Free(n));
    if h.phase.Listed? || h.phase.Deallocating? {
      SurvivorsDoNotReachFreed(h, n);
      ReachFrame(h.kids, h'.kids, h.Survivors());
      assert h'.Live() - h'.list == h.Live() - h.list;
    }
  }

  lemma QuietKeepsDoomed<T>(h: Heap<T>, step: Step<T>)
    requires h.Typed() && h.Placed() && h.Doomed() && Enabled(h, step) && Quiet(step) && !step.BeginPass?
    ensures Apply(h, step).Doomed()
  {
    if step.Requeue? || step.StartDealloc? || step.EndPass? || step.Finalize? {
      PhaseKeepsDoomed(h, step);
    }
  }

  lemma PhaseKeepsDoomed<T>(h: Heap<T>, step: Step<T>)
    requires h.Typed() && h.Placed() && h.Doomed() && Enabled(h, step)
    requires step.Requeue? || step.StartDealloc? || step.EndPass? || step.Finalize?
    ensures Apply(h, step).Doomed()
  {}

  lemma DropKeepsDoomed<T>(h: Heap<T>, step: Step<T>)
    requires h.Typed() && h.Placed() && h.Doomed() && Enabled(h, step)
    requires step.Lose? || step.Bury?
    ensures Apply(h, step).Doomed()
  {
    match step {
      case Lose(_) =>
      case Bury(_) =>
    }
  }

  /** The program does not run while the list is settled. */
  lemma ProgramKeepsDoomed<T>(h: Heap<T>, step: Step<T>)
    requires h.Typed() && Enabled(h, step)
    requires !Quiet(step) && !step.Detach? && !step.Free? && !step.Lose? && !step.Bury?
    ensures Apply(h, step).Doomed()
  {
    hide Heap.Accessible, Heap.AccessibleWithout, Heap.CanUpgrade;
  }

  // ----- weak pointers ----------------------------------------------------------------------------------

  lemma StepKeepsWeaks<T>(h: Heap<T>, step: Step<T>)
    requires h.w.Valid(h.kids.Keys) && h.Typed() && Enabled(h, step)
    requires step.Weak? || step.New? || step.Free?
    ensures Apply(h, step).w.Valid(Apply(h, step).kids.Keys)
  {
    if step.New? {
      NewBoxKeeps(h.w, h.kids.Keys, step.n);
      assert h.kids[step.n := step.fields].Keys == h.kids.Keys + {step.n};
    } else if step.Free? {
      BoxFreedKeeps(h.w, h.kids.Keys, step.n);
      assert (h.kids - {step.n}).Keys == h.kids.Keys - {step.n};
    } else {
      StepKeeps(h.w, h.kids.Keys, step.s);
    }
  }

  lemma QuietKeepsWeaks<T>(h: Heap<T>, step: Step<T>)
    requires h.Typed() && h.w.Valid(h.kids.Keys) && Enabled(h, step) && Quiet(step) && !step.Weak?
    ensures Apply(h, step).w.Valid(Apply(h, step).kids.Keys)
  {
    hide Apply, Enabled, Quiet, WeakTable.Valid;
    QuietKeepsCcs(h, step);
  }

  lemma RewireKeepsWeaks<T>(h: Heap<T>, step: Step<T>)
    requires h.Typed() && h.w.Valid(h.kids.Keys) && Enabled(h, step) && Rewires(step)
    ensures Apply(h, step).w.Valid(Apply(h, step).kids.Keys)
  {
    hide Apply, Enabled, Rewires, WeakTable.Valid;
    RewireKeepsBoxes(h, step);
  }

  lemma MoveKeepsWeaks<T>(h: Heap<T>, step: Step<T>)
    requires h.Typed() && h.w.Valid(h.kids.Keys) && Enabled(h, step)
    requires !Rewires(step) && !Quiet(step) && !step.Free? && !step.New?
    ensures Apply(h, step).w.Valid(Apply(h, step).kids.Keys)
  {
    hide Apply, Enabled, Rewires, Quiet, WeakTable.Valid;
    MoveKeepsBoxes(h, step);
  }

  // ----- all the invariants -----------------------------------------------------------------------------

  lemma StepKeepsNoDangling<T>(h: Heap<T>, step: Step<T>)
    requires Countable(h, step) && Enabled(h, step)
    ensures Apply(h, step).NoDangling()
  {
    if Quiet(step) {
      QuietKeepsCounts(h, step);
    } else if Rewires(step) {
      RewireKeepsNoDangling(h, step);
    } else if step.Free? {
      FreeKeepsNoDangling(h, step.n);
    } else if step.New? {
      NewKeepsNoDangling(h, step.n, step.fields);
    } else {
      MoveKeepsNoDangling(h, step);
    }
  }

  lemma StepKeepsConserved<T>(h: Heap<T>, step: Step<T>)
    requires Countable(h, step) && Enabled(h, step)
    ensures Apply(h, step).Conserved()
  {
    if Quiet(step) {
      QuietKeepsCounts(h, step);
    } else if step.New? {
      NewKeepsConserved(h, step.n, step.fields);
    } else if step.Store? {
      StoreKeepsConserved(h, step.x, step.n);
    } else if step.Take? {
      TakeKeepsConserved(h, step.x, step.i);
    } else if step.Detach? {
      DetachKeepsConserved(h, step.n);
    } else if step.Free? {
      FreeKeepsConserved(h, step.n);
    } else if step.Release? {
      ReleaseKeepsConserved(h, step.n);
    } else if step.Lose? {
      LoseKeepsConserved(h, step.n);
    } else if step.Bury? {
      BuryKeepsConserved(h, step.n);
    } else if step.Clone? || step.Upgrade? {
      AddKeepsConserved(h, step);
    } else if step.Unwrap? {
      UnwrapKeepsConserved(h, step.n);
    } else if step.Hide? {
      HideKeepsConserved(h, step.n);
    } else {
      ShowKeepsConserved(h, step.n);
    }
  }

  lemma StepKeepsPlaced<T>(h: Heap<T>, step: Step<T>)
    requires h.Sound() && Enabled(h, step)
    ensures Apply(h, step).Placed()
  {
    if step.Store? {
      AccessibleWithoutIsLive(h, step.n);
      RewireKeepsPlaced(h, step);
    } else if Rewires(step) {
      RewireKeepsPlaced(h, step);
    } else if step.BeginPass? {
      CollectableIsLive(h);
      BeginPassKeepsPlaced(h);
    } else if Quiet(step) {
      QuietKeepsPlaced(h, step);
    } else if step.Free? {
      FreeKeepsPlaced(h, step.n);
    } else if step.Release? || step.Lose? {
      DropKeepsPlaced(h, step);
    } else if step.Bury? {
      BuryKeepsPlaced(h, step.n);
    } else if step.New? {
      NewKeepsPlaced(h, step.n, step.fields);
    } else if step.Clone? || step.Upgrade? {
      AddKeepsPlaced(h, step);
    } else if step.Unwrap? {
      UnwrapKeepsPlaced(h, step.n);
    } else if step.Hide? {
      HideKeepsPlaced(h, step.n);
    } else {
      ShowKeepsPlaced(h, step.n);
    }
  }

  lemma StepKeepsCovered<T>(h: Heap<T>, step: Step<T>)
    requires h.Valid() && Enabled(h, step)
    ensures Apply(h, step).Covered()
  {
    if step.MarkAlive? {
      MarkAliveKeepsCovered(h, step.n);
    } else if step.BeginPass? {
      BeginPassKeepsCovered(h);
    } else if Quiet(step) {
      QuietKeepsCovered(h, step);
    } else if step.Store? {
      AccessibleWithoutIsLive(h, step.n);
      StoreKeepsCovered(h, step.x, step.n);
    } else if step.Take? {
      AccessibleIsLive(h);
      TakeKeepsCovered(h, step.x, step.i);
    } else if step.Detach? {
      DetachKeepsCovered(h, step.n);
    } else if step.Unwrap? || step.Hide? {
      GoneKeepsCovered(h, step);
    } else if step.Bury? {
      BuryKeepsCovered(h, step.n);
    } else if step.Free? {
      FreeKeepsCovered(h, step.n);
    } else if step.Release? {
      ReleaseKeepsCovered(h, step.n);
    } else if step.Lose? {
      LoseKeepsCovered(h, step.n);
    } else if step.New? {
      NewKeepsCovered(h, step.n, step.fields);
    } else {
      MoreKeepsCovered(h, step);
    }
  }

  lemma StepKeepsDoomed<T>(h: Heap<T>, step: Step<T>)
    requires h.Valid() && Enabled(h, step)
    ensures Apply(h, step).Doomed()
  {
    if step.BeginPass? {
      BeginPassKeepsDoomed(h);
    } else if step.Detach? {
      DetachKeepsDoomed(h, step.n);
    } else if step.Free? {
      FreeKeepsDoomed(h, step.n);
    } else if Quiet(step) {
      QuietKeepsDoomed(h, step);
    } else if step.Lose? || step.Bury? {
      DropKeepsDoomed(h, step);
    } else {
      ProgramKeepsDoomed(h, step);
    }
  }

  lemma StepKeepsTable<T>(h: Heap<T>, step: Step<T>)
    requires h.Typed() && h.w.Valid(h.kids.Keys) && Enabled(h, step)
    ensures Apply(h, step).w.Valid(Apply(h, step).kids.Keys)
  {
    if step.Weak? || step.New? || step.Free? {
      StepKeepsWeaks(h, step);
    } else if Rewires(step) {
      RewireKeepsWeaks(h, step);
    } else if Quiet(step) {
      QuietKeepsWeaks(h, step);
    } else {
      MoveKeepsWeaks(h, step);
    }
  }

  /** Every step keeps every invariant. */
  lemma StepKeepsValid<T>(h: Heap<T>, step: Step<T>)
    requires h.Valid() && Enabled(h, step)
    ensures Apply(h, step).Valid()
  {
    StepKeepsTyped(h, step);
    StepKeepsNoDangling(h, step);
    StepKeepsConserved(h, step);
    StepKeepsPlaced(h, step);
    StepKeepsCovered(h, step);
    StepKeepsDoomed(h, step);
    StepKeepsTable(h, step);
  }
}

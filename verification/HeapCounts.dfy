/** Every step keeps the counters equal to the number of `Cc`s, leaves no `Cc` to a box that is not
    allocated, and keeps boxes in the places their state calls for. */
module HeapCounts {
  import opened Graph
  import opened Heaps

  // ----- counting references ------------------------------------------------------------------------

  lemma OutNew<T>(kids: Edges<T>, n: T, fields: seq<T>)
    requires n !in kids
    ensures Out(kids[n := fields], kids[n := fields].Keys) == Out(kids, kids.Keys) + multiset(fields)
  {
    assert kids[n := fields].Keys == kids.Keys + {n};
    OutAdd(kids[n := fields], kids.Keys, n);
    OutFrame(kids, kids[n := fields], kids.Keys);
  }

  lemma OutSet<T>(kids: Edges<T>, n: T, fields: seq<T>)
    requires n in kids
    ensures multiset(kids[n]) <= Out(kids, kids.Keys)
    ensures Out(kids[n := fields], kids[n := fields].Keys)
         == Out(kids, kids.Keys) - multiset(kids[n]) + multiset(fields)
  {
    assert kids[n := fields].Keys == kids.Keys;
    OutUpdate(kids, kids.Keys, n, fields);
    OutSplit(kids, kids.Keys, n);
    Exchange(Out(kids, kids.Keys), multiset(kids[n]), Out(kids[n := fields], kids.Keys), multiset(fields));
  }

  lemma Exchange<T>(a: multiset<T>, b: multiset<T>, c: multiset<T>, d: multiset<T>)
    requires b <= a && c + b == a + d
    ensures c == a - b + d
  {
    assert (c + b) - b == c;
    assert (a + d) - b == a - b + d;
  }

  lemma OutFree<T>(kids: Edges<T>, n: T)
    requires n in kids && kids[n] == []
    ensures Out(kids - {n}, (kids - {n}).Keys) == Out(kids, kids.Keys)
  {
    assert (kids - {n}).Keys == kids.Keys - {n};
    OutSplit(kids, kids.Keys, n);
    OutFrame(kids, kids - {n}, kids.Keys - {n});
  }

  lemma TakeSplits<T>(fields: seq<T>, i: nat)
    requires i < |fields|
    ensures multiset(fields) == multiset(fields[..i] + fields[i + 1..]) + multiset{fields[i]}
  {
    assert fields == fields[..i] + [fields[i]] + fields[i + 1..];
  }

  /** Without a counted reference no `Cc` names the box. */
  lemma Unreferenced<T>(h: Heap<T>, n: T)
    requires h.Typed() && h.Conserved() && n in h.kids && h.rc[n] == 0
    ensures n !in h.handles && n !in h.pending
    ensures forall a | a in h.kids :: n !in h.kids[a]
  {
    OutMember(h.kids, h.kids.Keys, n);
  }

  lemma NewIsUnreferenced<T>(h: Heap<T>, n: T)
    requires h.Typed() && h.NoDangling() && n !in h.kids
    ensures h.References()[n] == 0
  {
    OutMember(h.kids, h.kids.Keys, n);
    assert n !in h.Roots();
  }

  // ----- what is freed ------------------------------------------------------------------------------

  /** Once the whole group has been dropped, every member's counter is exactly 0. */
  lemma GroupCountersAreZero<T>(h: Heap<T>, n: T)
    requires h.Sound() && GroupDropped(h) && n in h.list
    ensures h.rc[n] == 0
  {
    OutMember(h.kids, h.kids.Keys, n);
    assert n !in h.Survivors();
    forall a | a in h.kids
      ensures n !in h.kids[a]
    {
      if a in h.list { assert h.kids[a] == []; }
    }
  }

  lemma FreedIsUnreferenced<T>(h: Heap<T>, n: T)
    requires h.Sound() && Enabled(h, Free(n))
    ensures h.rc[n] == 0 && h.kids[n] == []
  {
    if n in h.list {
      GroupCountersAreZero(h, n);
    }
  }

  // ----- kinds of steps -------------------------------------------------------------------------------

  /** Steps that leave every counter and every `Cc` alone. */
  predicate Quiet<T>(step: Step<T>) {
    || step.MarkAlive? || step.FinalizeAgain? || step.Weak? || step.Finalize? || step.SetFlags?
    || step.BeginPass? || step.Requeue? || step.StartDealloc? || step.EndPass?
  }

  /** Steps that move `Cc`s in and out of fields. */
  predicate Rewires<T>(step: Step<T>) { step.Store? || step.Take? || step.Detach? }

  /** What keeps the counters right: boxes under construction are not counted, and a box is freed only
      without `Cc`s and fields. */
  ghost predicate Countable<T>(h: Heap<T>, step: Step<T>) {
    && h.Typed() && h.NoDangling() && h.Conserved() && h.building <= h.kids.Keys
    && (forall n | n in h.building :: n in h.rc && h.rc[n] == 0)
    && (step.Free? ==> h.Sound())
  }

  // ----- no dangling references -----------------------------------------------------------------------

  lemma FreeKeepsNoDangling<T>(h: Heap<T>, n: T)
    requires h.Sound() && Enabled(h, Free(n))
    ensures Apply(h, Free(n)).NoDangling()
  {
    FreedIsUnreferenced(h, n);
    Unreferenced(h, n);
  }

  ghost predicate SameCcs<T>(h: Heap<T>, h': Heap<T>) {
    h'.kids == h.kids && h'.rc == h.rc && h'.handles == h.handles && h'.pending == h.pending
  }

  lemma QuietKeepsCcs<T>(h: Heap<T>, step: Step<T>)
    requires h.Typed() && Enabled(h, step) && Quiet(step)
    ensures SameCcs(h, Apply(h, step)) && (!step.Weak? ==> Apply(h, step).w == h.w)
  {
    match step {
      case MarkAlive(_) =>
      case FinalizeAgain(_) =>
      case Weak(_) =>
      case Finalize(_) =>
      case SetFlags(_, _, _) =>
      case Requeue =>
      case StartDealloc =>
      case EndPass =>
      case BeginPass =>
    }
  }

  lemma QuietKeepsCounts<T>(h: Heap<T>, step: Step<T>)
    requires h.Typed() && h.NoDangling() && h.Conserved() && Enabled(h, step) && Quiet(step)
    ensures Apply(h, step).Typed() && Apply(h, step).NoDangling() && Apply(h, step).Conserved()
  {
    hide Apply, Enabled, Quiet;
    QuietKeepsCcs(h, step);
  }

  lemma RewireKeepsBoxes<T>(h: Heap<T>, step: Step<T>)
    requires h.Typed() && Enabled(h, step) && Rewires(step)
    ensures Apply(h, step).w == h.w && Apply(h, step).kids.Keys == h.kids.Keys
  {
    match step {
      case Store(_, _) =>
      case Take(_, _) =>
      case Detach(_) =>
    }
  }

  lemma MoveKeepsBoxes<T>(h: Heap<T>, step: Step<T>)
    requires h.Typed() && Enabled(h, step) && !Rewires(step) && !Quiet(step) && !step.Free? && !step.New?
    ensures Apply(h, step).w == h.w && Apply(h, step).kids == h.kids
  {
    match step {
      case Clone(_) =>
      case Upgrade(_) =>
      case Unwrap(_) =>
      case Hide(_) =>
      case Show(_) =>
      case Release(_) =>
      case Lose(_) =>
      case Bury(_) =>
    }
  }

  lemma RewireKeepsNoDangling<T>(h: Heap<T>, step: Step<T>)
    requires h.Typed() && h.NoDangling() && Enabled(h, step) && Rewires(step)
    ensures Apply(h, step).NoDangling()
  {}

  lemma MoveKeepsNoDangling<T>(h: Heap<T>, step: Step<T>)
    requires h.Typed() && h.NoDangling() && Enabled(h, step) && !Rewires(step) && !Quiet(step) && !step.Free?
      && !step.New?
    requires h.building <= h.kids.Keys
    ensures Apply(h, step).NoDangling()
  {
    match step {
      case Clone(_) =>
      case Upgrade(_) =>
      case Unwrap(_) =>
      case Hide(_) =>
      case Show(_) =>
      case Release(_) =>
      case Lose(_) =>
      case Bury(_) =>
    }
  }

  lemma NewKeepsNoDangling<T>(h: Heap<T>, n: T, fields: seq<T>)
    requires h.Typed() && h.NoDangling() && Enabled(h, New(n, fields))
    ensures Apply(h, New(n, fields)).NoDangling()
  {
    forall b | b in fields
      ensures b in h.kids
    {
      assert b in multiset(fields);
      assert b in h.Roots();
    }
  }

  lemma StepKeepsTyped<T>(h: Heap<T>, step: Step<T>)
    requires h.Typed() && Enabled(h, step) && h.building <= h.kids.Keys
    ensures Apply(h, step).Typed()
  {}

  // ----- conservation ---------------------------------------------------------------------------------

  lemma StoreKeepsConserved<T>(h: Heap<T>, x: T, n: T)
    requires h.Typed() && h.Conserved() && Enabled(h, Store(x, n))
    ensures Apply(h, Store(x, n)).Conserved()
  {
    OutSet(h.kids, x, h.kids[x] + [n]);
    MoveIn(h.handles, h.pending, Out(h.kids, h.kids.Keys), multiset(h.kids[x]), n);
    assert multiset(h.kids[x] + [n]) == multiset(h.kids[x]) + multiset{n};
    assert Apply(h, Store(x, n)).References() == h.References();
  }

  lemma MoveIn<T>(a: multiset<T>, b: multiset<T>, out: multiset<T>, fields: multiset<T>, n: T)
    requires n in a && fields <= out
    ensures (a - multiset{n}) + b + (out - fields + (fields + multiset{n})) == a + b + out
  {}

  lemma MoveOne<T>(a: multiset<T>, b: multiset<T>, out: multiset<T>, rest: multiset<T>, n: T)
    requires rest + multiset{n} <= out
    ensures (a + multiset{n}) + b + (out - (rest + multiset{n}) + rest) == a + b + out
  {}

  lemma TakeKeepsConserved<T>(h: Heap<T>, x: T, i: nat)
    requires h.Typed() && h.Conserved() && Enabled(h, Take(x, i))
    ensures Apply(h, Take(x, i)).Conserved()
  {
    var rest := h.kids[x][..i] + h.kids[x][i + 1..];
    TakeSplits(h.kids[x], i);
    OutSet(h.kids, x, rest);
    MoveOne(h.handles, h.pending, Out(h.kids, h.kids.Keys), multiset(rest), h.kids[x][i]);
    assert Apply(h, Take(x, i)).References() == h.References();
  }

  lemma DetachKeepsConserved<T>(h: Heap<T>, n: T)
    requires h.Typed() && h.Conserved() && Enabled(h, Detach(n))
    ensures Apply(h, Detach(n)).Conserved()
  {
    OutSet(h.kids, n, []);
    assert Apply(h, Detach(n)).References() == h.References();
  }

  lemma NewKeepsConserved<T>(h: Heap<T>, n: T, fields: seq<T>)
    requires h.Typed() && h.NoDangling() && h.Conserved() && Enabled(h, New(n, fields))
    ensures Apply(h, New(n, fields)).Conserved()
  {
    OutNew(h.kids, n, fields);
    NewIsUnreferenced(h, n);
    assert Apply(h, New(n, fields)).References() == h.References() + multiset{n};
  }

  lemma AddKeepsConserved<T>(h: Heap<T>, step: Step<T>)
    requires h.Typed() && h.Conserved() && Enabled(h, step) && (step.Clone? || step.Upgrade?)
    ensures Apply(h, step).Conserved()
  {}

  lemma UnwrapKeepsConserved<T>(h: Heap<T>, n: T)
    requires h.Typed() && h.Conserved() && Enabled(h, Unwrap(n))
    ensures Apply(h, Unwrap(n)).Conserved()
  {}

  lemma HideKeepsConserved<T>(h: Heap<T>, n: T)
    requires h.Typed() && h.Conserved() && Enabled(h, Hide(n))
    ensures Apply(h, Hide(n)).Conserved()
  {}

  lemma ShowKeepsConserved<T>(h: Heap<T>, n: T)
    requires h.Typed() && h.Conserved() && Enabled(h, Show(n)) && n in h.rc && h.rc[n] == 0
    ensures Apply(h, Show(n)).Conserved()
  {}

  lemma ReleaseKeepsConserved<T>(h: Heap<T>, n: T)
    requires h.Typed() && h.Conserved() && Enabled(h, Release(n))
    ensures Apply(h, Release(n)).Conserved()
  {}

  lemma LoseKeepsConserved<T>(h: Heap<T>, n: T)
    requires h.Typed() && h.Conserved() && Enabled(h, Lose(n))
    ensures Apply(h, Lose(n)).Conserved()
  {}

  lemma BuryKeepsConserved<T>(h: Heap<T>, n: T)
    requires h.Typed() && h.Conserved() && Enabled(h, Bury(n))
    ensures Apply(h, Bury(n)).Conserved()
  {}

  lemma FreeKeepsConserved<T>(h: Heap<T>, n: T)
    requires h.Sound() && Enabled(h, Free(n))
    ensures Apply(h, Free(n)).Conserved()
  {
    FreedIsUnreferenced(h, n);
    OutFree(h.kids, n);
  }

  // ----- places ---------------------------------------------------------------------------------------

  lemma QuietKeepsPlaced<T>(h: Heap<T>, step: Step<T>)
    requires h.Typed() && h.Placed() && Enabled(h, step) && Quiet(step) && !step.BeginPass?
    ensures Apply(h, step).Placed()
  {
    if step.Requeue? || step.StartDealloc? || step.EndPass? || step.Finalize? {
      PhaseKeepsPlaced(h, step);
    }
  }

  lemma PhaseKeepsPlaced<T>(h: Heap<T>, step: Step<T>)
    requires h.Typed() && h.Placed() && Enabled(h, step)
    requires step.Requeue? || step.StartDealloc? || step.EndPass? || step.Finalize?
    ensures Apply(h, step).Placed()
  {}

  lemma BeginPassKeepsPlaced<T>(h: Heap<T>)
    requires h.Typed() && h.Placed() && Enabled(h, BeginPass) && Collectable(h.kids, h.rc, h.p) <= h.Live()
    ensures Apply(h, BeginPass).Placed()
  {}

  lemma RewireKeepsPlaced<T>(h: Heap<T>, step: Step<T>)
    requires h.Typed() && h.Placed() && Enabled(h, step) && Rewires(step)
    requires step.Store? ==> step.x in h.Live()
    ensures Apply(h, step).Placed()
  {
    match step {
      case Store(_, _) =>
      case Take(_, _) =>
      case Detach(_) =>
    }
  }

  lemma NewKeepsPlaced<T>(h: Heap<T>, n: T, fields: seq<T>)
    requires h.Typed() && h.Placed() && Enabled(h, New(n, fields))
    ensures Apply(h, New(n, fields)).Placed()
  {}

  lemma AddKeepsPlaced<T>(h: Heap<T>, step: Step<T>)
    requires h.Typed() && h.Placed() && Enabled(h, step) && (step.Clone? || step.Upgrade?)
    ensures Apply(h, step).Placed()
  {
    assert h.rc[step.n] > 0;
  }

  lemma UnwrapKeepsPlaced<T>(h: Heap<T>, n: T)
    requires h.Typed() && h.Placed() && h.Conserved() && Enabled(h, Unwrap(n))
    ensures Apply(h, Unwrap(n)).Placed()
  {}

  lemma HideKeepsPlaced<T>(h: Heap<T>, n: T)
    requires h.Typed() && h.Placed() && h.Conserved() && Enabled(h, Hide(n))
    ensures Apply(h, Hide(n)).Placed()
  {}

  lemma ShowKeepsPlaced<T>(h: Heap<T>, n: T)
    requires h.Typed() && h.Placed() && Enabled(h, Show(n))
    ensures Apply(h, Show(n)).Placed()
  {}

  lemma DropKeepsPlaced<T>(h: Heap<T>, step: Step<T>)
    requires h.Typed() && h.Placed() && h.Conserved() && Enabled(h, step)
    requires step.Release? || step.Lose?
    ensures Apply(h, step).Placed()
  {
    match step {
      case Release(_) =>
      case Lose(_) =>
    }
  }

  lemma BuryKeepsPlaced<T>(h: Heap<T>, n: T)
    requires h.Typed() && h.Placed() && Enabled(h, Bury(n))
    ensures Apply(h, Bury(n)).Placed()
  {}

  lemma FreeKeepsPlaced<T>(h: Heap<T>, n: T)
    requires h.Typed() && h.Placed() && Enabled(h, Free(n))
    ensures Apply(h, Free(n)).Placed()
  {}
}

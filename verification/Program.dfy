/** Programs: any code that calls the library.

    Each method named after a call picks the arguments of that call in an arbitrary way among those the
    program can get hold of, so a loop over arbitrary calls covers everything that a program, or a
    finalizer, can do. */
module Programs {
  import opened Graph
  import opened WeakTables
  import opened Heaps
  import opened HeapRuns
  import opened DropSteps
  import opened CollectSteps
  import opened Logs
  import opened Lists
  import opened Runtimes
  import opened Configs
  import opened Collector
  import opened Pointers
  import opened Weaks

  /** Code may run that has been given the box `self`, if it is a finalizer. */
  ghost predicate MayCall<T>(h: Heap<T>, self: set<T>) {
    h.Valid() && UserPhase(h) && self <= Elements(h.pending) + h.list
  }

  /** What a call that returns does: it ends what it has begun. */
  ghost predicate Completes<T>(h: Heap<T>, steps: seq<Step<T>>, h': Heap<T>) {
    Does(h, steps, h') && Returned(h, h') && h'.pending == h.pending
  }

  lemma CompletesNothing<T>(h: Heap<T>)
    requires h.Valid()
    ensures Completes(h, [], h)
  {}

  lemma NothingCalls<T>(log: Log<T>)
    ensures Called(log, [], log)
  {}

  lemma CompletesThen<T>(h: Heap<T>, s: seq<Step<T>>, m: Heap<T>, t: seq<Step<T>>, h': Heap<T>)
    requires Completes(h, s, m) && Does(m, t, h')
    ensures Does(h, Then(s, t), h') && (Completes(m, t, h') ==> Completes(h, Then(s, t), h'))
  {
    hide Heap.Valid, ProgramRun, Then, Does;
    DoesThen(h, s, m, t, h');
  }

  lemma StillMayCall<T>(h: Heap<T>, self: set<T>, steps: seq<Step<T>>, h': Heap<T>)
    requires MayCall(h, self) && Completes(h, steps, h')
    ensures MayCall(h', self) && h'.collecting == h.collecting
  {
    hide Heap.Valid, ProgramRun;
  }

  // ----- what the program can get hold of ---------------------------------------------------------------

  /** Some of the `Cc`s that the program holds. */
  method AnyHeld(rt: Runtime) returns (ccs: seq<CcBox>)
    ensures multiset(ccs) <= rt.handles
  {
    ccs := [];
    var n: nat :| true;
    for i := 0 to n
      invariant multiset(ccs) <= rt.handles
    {
      var rest := rt.handles - multiset(ccs);
      if rest != multiset{} {
        var b :| b in rest;
        ccs := ccs + [b];
      }
    }
  }

  /** A box that can be reached by following fields from a held `Cc` other than those `without`, or from the
      box that the code has been given. */
  method AnyReachable(rt: Runtime, self: set<CcBox>, without: multiset<CcBox>, ghost h: Heap<CcBox>) returns (b: CcBox?)
    requires rt.values == h.kids && rt.handles == h.handles && Closed(h.kids, h.kids.Keys)
    requires self <= Elements(h.pending) + h.list <= h.kids.Keys && Elements(h.handles) <= h.kids.Keys
    ensures b != null ==> b in h.kids && b in Reach(h.kids, Elements(h.handles - without + h.pending) + h.list)
  {
    b := null;
    var start := self + set c | c in rt.handles - without;
    if start == {} {
      return;
    }
    b :| b in start;
    var n: nat :| true;
    for i := 0 to n
      invariant b in h.kids && b in Reach(h.kids, Elements(h.handles - without + h.pending) + h.list)
    {
      if rt.values[b] != [] {
        assert rt.values[b][0] in rt.values[b];
        var c :| c in rt.values[b];
        b := c;
      }
    }
  }

  lemma Reachables(rt: Runtime, h: Heap<CcBox>)
    requires rt.Synced(h) && h.Valid()
    ensures rt.values == h.kids && rt.handles == h.handles && Closed(h.kids, h.kids.Keys)
    ensures Elements(h.pending) + h.list <= h.kids.Keys && Elements(h.handles) <= h.kids.Keys
    ensures Elements(h.handles - multiset{} + h.pending) + h.list == h.Roots() + h.list
  {
    assert h.handles - multiset{} == h.handles;
    assert forall b | b in Elements(h.pending) + Elements(h.handles) :: b in h.Roots();
  }

  method AnyAccessible(rt: Runtime, self: set<CcBox>, ghost h: Heap<CcBox>) returns (b: CcBox?)
    requires rt.Synced(h) && MayCall(h, self)
    ensures b != null ==> b in h.Accessible()
  {
    hide Runtime.Synced, Heap.Valid, UserPhase;
    Reachables(rt, h);
    b := AnyReachable(rt, self, multiset{}, h);
  }

  /** ... and that a `Cc` names which is held or in a field of such a box. */
  method AnyNamed(rt: Runtime, self: set<CcBox>, ghost h: Heap<CcBox>) returns (b: CcBox?)
    requires rt.Synced(h) && MayCall(h, self)
    ensures b != null ==> b in h.Accessible() && h.References()[b] > 0
  {
    hide Runtime.Synced, Heap.Valid, UserPhase, Heap.References, Heap.Accessible;
    Reachables(rt, h);
    b := null;
    if * {
      if rt.handles != multiset{} {
        b :| b in rt.handles;
        HeldIsNamed(h, b);
      }
    } else {
      var x := AnyReachable(rt, self, multiset{}, h);
      if x != null && rt.values[x] != [] {
        assert rt.values[x][0] in rt.values[x];
        b :| b in rt.values[x];
        FieldIsNamed(h, x, b);
      }
    }
  }

  lemma HeldIsNamed<T>(h: Heap<T>, b: T)
    requires b in h.handles
    ensures b in h.Accessible() && h.References()[b] > 0
  {
    assert b in h.Roots() + h.list;
  }

  lemma FieldIsNamed<T>(h: Heap<T>, x: T, b: T)
    requires x in h.kids && x in Reach(h.kids, h.Roots() + h.list) && b in h.kids[x]
    ensures b in h.Accessible() && h.References()[b] > 0
  {
    OutMember(h.kids, h.kids.Keys, b);
  }

  /** One of the weak pointers there are. */
  method AnyWeak(rt: Runtime, ghost h: Heap<CcBox>) returns (w: WeakPtr)
    requires rt.Synced(h) && h.Valid()
    ensures Points(rt, w, h)
  {
    hide Runtime.Synced, Heap.Valid;
    WeaksOf(rt, h);
    w := Dangling;
    if rt.weaks != multiset{} {
      var b :| b in rt.weaks;
      w := WeakPtr(rt.blocks[b], b);
    }
  }

  lemma WeaksOf(rt: Runtime, h: Heap<CcBox>)
    requires rt.Synced(h) && h.Valid()
    ensures rt.weaks == h.w.weaks && forall b | b in rt.weaks :: b in rt.blocks
  {
    hide Runtime.Cells, Runtime.Containers, Runtime.Memory;
  }

  // ----- calls that only change the boxes there are ---------------------------------------------------

  method CloneAny(rt: Runtime, self: set<CcBox>, ghost h: Heap<CcBox>)
    returns (ghost steps: seq<Step<CcBox>>, ghost h': Heap<CcBox>)
    requires rt.Synced(h) && MayCall(h, self)
    modifies rt`handles, rt.pc, h.kids.Keys
    ensures rt.Synced(h') && Completes(h, steps, h') && h'.kids.Keys <= h.kids.Keys && CallsNothing(steps)
  {
    hide Runtime.Synced, Heap.Valid, Heap.Accessible, Heap.References, Does;
    CompletesNothing(h);
    steps, h' := [], h;
    var b := AnyNamed(rt, self, h);
    if b != null {
      var ok: bool;
      ok, steps, h' := CloneCc(rt, b, h);
    }
  }

  method MarkAnyAlive(rt: Runtime, self: set<CcBox>, ghost h: Heap<CcBox>)
    returns (ghost steps: seq<Step<CcBox>>, ghost h': Heap<CcBox>)
    requires rt.Synced(h) && MayCall(h, self)
    modifies rt.pc, h.kids.Keys
    ensures rt.Synced(h') && Completes(h, steps, h') && h'.kids.Keys <= h.kids.Keys && CallsNothing(steps)
  {
    hide Runtime.Synced, Heap.Valid, Heap.Accessible, Does;
    CompletesNothing(h);
    steps, h' := [], h;
    var b := AnyAccessible(rt, self, h);
    if b != null {
      h' := MarkCcAlive(rt, b, h);
      steps := [MarkAlive(b)];
      AnotherCallsNothing(steps[0], []);
    }
  }

  method FinalizeAnyAgain(rt: Runtime, self: set<CcBox>, ghost h: Heap<CcBox>)
    returns (ghost steps: seq<Step<CcBox>>, ghost h': Heap<CcBox>)
    requires rt.Synced(h) && MayCall(h, self)
    modifies h.kids.Keys`counter
    ensures rt.Synced(h') && Completes(h, steps, h') && h'.kids.Keys <= h.kids.Keys && CallsNothing(steps)
  {
    hide Runtime.Synced, Heap.Valid, Heap.Accessible, Does;
    CompletesNothing(h);
    steps, h' := [], h;
    var b := AnyAccessible(rt, self, h);
    if b != null {
      var ok: bool;
      ok, h' := FinalizeCcAgain(rt, b, h);
      var c: CcBox := b;
      steps := if ok then [FinalizeAgain(c)] else [];
      AnotherCallsNothing(FinalizeAgain(c), []);
    }
  }

  method UnwrapAny(rt: Runtime, ghost h: Heap<CcBox>) returns (ghost steps: seq<Step<CcBox>>, ghost h': Heap<CcBox>)
    requires rt.Synced(h) && h.Valid() && UserPhase(h)
    modifies rt`values, rt`allocatedBytes, rt`blocks, rt`handles, rt.metadatas`weak, rt.pc, h.kids.Keys
    ensures rt.Synced(h') && Completes(h, steps, h') && h'.kids.Keys <= h.kids.Keys && CallsNothing(steps)
  {
    hide Runtime.Synced, Heap.Valid, Does, Unwrapped, Completes, Heap.References;
    CompletesNothing(h);
    HandlesOf(rt, h);
    steps, h' := [], h;
    if rt.handles != multiset{} {
      var b :| b in rt.handles;
      var ok: bool, fields: seq<CcBox>;
      ok, fields, steps, h' := TryUnwrap(rt, b, h);
      if ok {
        UnwrappedReturns(h, b, steps, h');
      } else {
        Refused(h, steps);
      }
    }
  }

  lemma Refused<T>(h: Heap<T>, steps: seq<Step<T>>)
    requires Does(h, steps, h)
    ensures Completes(h, steps, h)
  {}

  lemma UnwrappedReturns<T>(h: Heap<T>, b: T, steps: seq<Step<T>>, h': Heap<T>)
    requires h.Valid() && UserPhase(h) && b in h.kids && h' == Unwrapped(h, b) && Does(h, steps, h') && !h.collecting
    requires b in h.handles
    ensures Completes(h, steps, h') && h'.kids.Keys <= h.kids.Keys
  {
    hide ProgramRun, Heap.NoDangling, Heap.Conserved, Heap.Covered, Heap.Doomed, WeakTable.Valid;
    UnwrappableBox(h, b);
    assert h.dropped - {b} == h.dropped && h.building - {b} == h.building;
  }

  /** A box that the program holds has its value. */
  lemma UnwrappableBox<T>(h: Heap<T>, b: T)
    requires h.Valid() && b in h.handles && b in h.kids && !h.collecting
    ensures b !in h.dropped && b !in h.building && h.list == {}
  {}

  /** The program moves a `Cc` that it holds into a field of a box. */
  method StoreAny(rt: Runtime, self: set<CcBox>, ghost h: Heap<CcBox>)
    returns (ghost steps: seq<Step<CcBox>>, ghost h': Heap<CcBox>)
    requires rt.Synced(h) && MayCall(h, self)
    modifies rt`values, rt`handles
    ensures rt.Synced(h') && Completes(h, steps, h') && h'.kids.Keys <= h.kids.Keys && CallsNothing(steps)
  {
    hide Runtime.Synced, Heap.Valid, Completes, UserPhase, Stored;
    CompletesNothing(h);
    Reachables(rt, h);
    steps, h' := [], h;
    if rt.handles != multiset{} {
      var n :| n in rt.handles;
      var x := AnyReachable(rt, self, multiset{n}, h);
      if x != null {
        h' := StoreFields(rt, x, [n], h);
        var y: CcBox := x;
        steps := [Store(y, n)];
        AnotherCallsNothing(steps[0], []);
        StoredReturns(h, x, n);
      }
    }
  }

  lemma StoredReturns<T>(h: Heap<T>, x: T, n: T)
    requires h.Valid() && UserPhase(h) && n in h.handles && x in h.kids && x in h.AccessibleWithout(n)
    ensures Completes(h, [Store(x, n)], Stored(h, x, [n])) && Stored(h, x, [n]).kids.Keys <= h.kids.Keys
  {
    hide ProgramRun, Heap.Valid, Heap.Accessible, Heap.AccessibleWithout;
    DoesStep(h, Store(x, n));
  }

  /** The program moves a `Cc` out of a field of a box. */
  method TakeAny(rt: Runtime, self: set<CcBox>, ghost h: Heap<CcBox>)
    returns (ghost steps: seq<Step<CcBox>>, ghost h': Heap<CcBox>)
    requires rt.Synced(h) && MayCall(h, self)
    modifies rt`values, rt`handles
    ensures rt.Synced(h') && Completes(h, steps, h') && h'.kids.Keys <= h.kids.Keys && CallsNothing(steps)
  {
    hide Runtime.Synced, Heap.Valid, Completes, UserPhase;
    CompletesNothing(h);
    Reachables(rt, h);
    steps, h' := [], h;
    var x := AnyReachable(rt, self, multiset{}, h);
    if x != null && rt.values[x] != [] {
      var i :| 0 <= i < |rt.values[x]|;
      h' := TakeAt(rt, x, i, h);
      steps := [Take(x, i)];
      AnotherCallsNothing(steps[0], []);
      TakenReturns(h, x, i);
    }
  }

  ghost function Taken<T>(h: Heap<T>, x: T, i: nat): Heap<T>
    requires x in h.kids && i < |h.kids[x]|
  {
    h.(kids := h.kids[x := h.kids[x][..i] + h.kids[x][i + 1..]], handles := h.handles + multiset{h.kids[x][i]})
  }

  method TakeAt(rt: Runtime, x: CcBox, i: nat, ghost h: Heap<CcBox>) returns (ghost h': Heap<CcBox>)
    requires rt.Synced(h) && x in h.kids && i < |h.kids[x]|
    modifies rt`values, rt`handles
    ensures h' == Taken(h, x, i) && rt.Synced(h')
  {
    hide Runtime.Cells, Runtime.Containers, Runtime.Blocks;
    var fields := rt.values[x];
    rt.values := rt.values[x := fields[..i] + fields[i + 1..]];
    rt.handles := rt.handles + multiset{fields[i]};
    h' := Taken(h, x, i);
    assert h'.kids.Keys == h.kids.Keys;
  }

  lemma TakenReturns<T>(h: Heap<T>, x: T, i: nat)
    requires h.Valid() && UserPhase(h) && x in h.kids && x in h.Accessible() && i < |h.kids[x]|
    ensures Completes(h, [Take(x, i)], Taken(h, x, i)) && Taken(h, x, i).kids.Keys <= h.kids.Keys
  {
    hide ProgramRun, Heap.Valid, Heap.Accessible, Heap.AccessibleWithout;
    DoesStep(h, Take(x, i));
  }

  // ----- weak pointers ------------------------------------------------------------------------------------

  method UpgradeAny(rt: Runtime, ghost h: Heap<CcBox>) returns (ghost steps: seq<Step<CcBox>>, ghost h': Heap<CcBox>)
    requires rt.Synced(h) && h.Valid() && UserPhase(h)
    modifies rt`handles, rt.pc, h.kids.Keys
    ensures rt.Synced(h') && Completes(h, steps, h') && h'.kids.Keys <= h.kids.Keys && CallsNothing(steps)
  {
    hide Runtime.Synced, Heap.Valid, Heap.CanUpgrade, Heap.Live, Heap.References, Does;
    var w := AnyWeak(rt, h);
    var r: Upgraded;
    r, steps, h' := UpgradeWeak(rt, w, h);
  }

  method DowngradeAny(rt: Runtime, self: set<CcBox>, ghost h: Heap<CcBox>)
    returns (ghost steps: seq<Step<CcBox>>, ghost h': Heap<CcBox>)
    requires rt.Synced(h) && MayCall(h, self)
    modifies rt`blocks, rt`metadatas, rt`weaks, rt.metadatas`weak, rt.pc, h.kids.Keys
    ensures rt.Synced(h') && Completes(h, steps, h') && h'.kids.Keys <= h.kids.Keys && CallsNothing(steps)
    ensures fresh(rt.metadatas - old(rt.metadatas))
  {
    hide Runtime.Synced, Heap.Valid, Heap.Accessible, Does;
    CompletesNothing(h);
    steps, h' := [], h;
    var b := AnyAccessible(rt, self, h);
    if b != null {
      var ok: bool, w: WeakPtr;
      ok, w, steps, h' := DowngradeCc(rt, b, h);
    }
  }

  method CloneAnyWeak(rt: Runtime, ghost h: Heap<CcBox>) returns (ghost steps: seq<Step<CcBox>>, ghost h': Heap<CcBox>)
    requires rt.Synced(h) && h.Valid()
    modifies rt.metadatas`weak, rt`weaks
    ensures rt.Synced(h') && Completes(h, steps, h') && h'.kids.Keys <= h.kids.Keys && CallsNothing(steps)
  {
    hide Runtime.Synced, Heap.Valid, Does;
    var w := AnyWeak(rt, h);
    var ok: bool;
    ok, steps, h' := CloneWeakPtr(rt, w, h);
  }

  method DropAnyWeak(rt: Runtime, ghost h: Heap<CcBox>) returns (ghost steps: seq<Step<CcBox>>, ghost h': Heap<CcBox>)
    requires rt.Synced(h) && h.Valid()
    modifies rt`blocks, rt.metadatas`weak, rt`weaks
    ensures rt.Synced(h') && Completes(h, steps, h') && h'.kids.Keys <= h.kids.Keys && CallsNothing(steps)
  {
    hide Runtime.Synced, Heap.Valid, Does, WeakTable.Apply;
    var w := AnyWeak(rt, h);
    steps, h' := DropWeakPtr(rt, w, h);
  }

  /** Any of the calls above. */
  method SmallCall(rt: Runtime, self: set<CcBox>, ghost h: Heap<CcBox>)
    returns (ghost steps: seq<Step<CcBox>>, ghost h': Heap<CcBox>)
    requires rt.Synced(h) && MayCall(h, self)
    modifies rt`values, rt`allocatedBytes, rt`blocks, rt`metadatas, rt`handles, rt`weaks, rt.metadatas`weak, rt.pc,
      h.kids.Keys
    ensures rt.Synced(h') && Completes(h, steps, h') && h'.kids.Keys <= h.kids.Keys && CallsNothing(steps)
    ensures fresh(rt.metadatas - old(rt.metadatas))
  {
    hide Runtime.Synced, Heap.Valid, Completes, UserPhase;
    var call: nat :| true;
    match call {
      case 0 => steps, h' := CloneAny(rt, self, h);
      case 1 => steps, h' := MarkAnyAlive(rt, self, h);
      case 2 => steps, h' := FinalizeAnyAgain(rt, self, h);
      case 3 => steps, h' := UnwrapAny(rt, h);
      case 4 => steps, h' := StoreAny(rt, self, h);
      case 5 => steps, h' := TakeAny(rt, self, h);
      case 6 => steps, h' := UpgradeAny(rt, h);
      case 7 => steps, h' := DowngradeAny(rt, self, h);
      case 8 => steps, h' := CloneAnyWeak(rt, h);
      case _ => steps, h' := DropAnyWeak(rt, h);
    }
  }

  // ----- calls that may run finalizers and destructors ------------------------------------------------------

  method CreateAny(rt: Runtime, ghost h: Heap<CcBox>)
    returns (returned: bool, ghost steps: seq<Step<CcBox>>, ghost h': Heap<CcBox>)
    requires rt.Synced(h) && h.Valid() && UserPhase(h)
    modifies rt, rt.pc, rt.config, h.kids.Keys, rt.metadatas
    ensures Does(h, steps, h') && (returned ==> rt.Synced(h') && Completes(h, steps, h'))
    ensures Called(old(rt.log), steps, rt.log)
    ensures h.collecting ==>
      rt.nonRootList == old(rt.nonRootList) && rt.Counts() == old(rt.Counts())
    ensures (forall c | c in h'.kids :: c in h.kids || fresh(c)) && fresh(rt.metadatas - old(rt.metadatas))
  {
    hide Runtime.Synced, Heap.Valid, Does, Collected, Unwound, HandedOver, Returned, Called;
    HandlesOf(rt, h);
    var size: nat :| true;
    var fields := AnyHeld(rt);
    var r: Ending, b: CcBox?;
    ghost var m: Heap<CcBox>;
    r, b, steps, m, h' := NewCc(rt, size, fields, h);
    returned := r.Returns?;
    if returned { CreatedReturns(h, fields, m, b); }
  }

  lemma CreatedReturns<T>(h: Heap<T>, fields: seq<T>, m: Heap<T>, b: T)
    requires Returned(HandedOver(h, fields), m) && m.pending == h.pending + multiset(fields)
    ensures Returned(h, Created(m, b, fields)) && Created(m, b, fields).pending == h.pending
  {}

  method CreateAnyCyclic(rt: Runtime, ghost h: Heap<CcBox>)
    returns (returned: bool, ghost steps: seq<Step<CcBox>>, ghost h': Heap<CcBox>)
    requires rt.Synced(h) && h.Valid() && UserPhase(h)
    modifies rt, rt.pc, rt.config, h.kids.Keys, rt.metadatas
    ensures Does(h, steps, h') && (returned ==> rt.Synced(h') && Completes(h, steps, h'))
    ensures Called(old(rt.log), steps, rt.log)
    ensures h.collecting ==>
      rt.nonRootList == old(rt.nonRootList) && rt.Counts() == old(rt.Counts())
    ensures (forall c | c in h'.kids :: c in h.kids || fresh(c)) && fresh(rt.metadatas - old(rt.metadatas))
  {
    hide Runtime.Synced, Heap.Valid, Does, Collected, Unwound, Returned, ClosureRan, Built, Heap.Live, Heap.References;
    hide UnderConstruction, Called;
    var size: nat :| true;
    var r: Ending, ok: bool, b: CcBox?;
    ghost var fields: seq<CcBox>, fs: seq<Step<CcBox>>, m: Heap<CcBox>, closed: Heap<CcBox>;
    r, ok, b, fields, fs, m, closed, steps, h' := NewCyclic(rt, size, h);
    returned := r.Returns?;
  }

  method DropAny(rt: Runtime, ghost h: Heap<CcBox>)
    returns (ghost steps: seq<Step<CcBox>>, ghost h': Heap<CcBox>)
    requires rt.Synced(h) && h.Valid() && UserPhase(h)
    modifies rt, rt.pc, rt.config, h.kids.Keys, rt.metadatas
    ensures rt.Synced(h') && Completes(h, steps, h') && Called(old(rt.log), steps, rt.log)
    ensures h.collecting ==>
      rt.nonRootList == old(rt.nonRootList) && rt.Counts() == old(rt.Counts())
    ensures (forall c | c in h'.kids :: c in h.kids || fresh(c)) && fresh(rt.metadatas - old(rt.metadatas))
  {
    hide Runtime.Synced, Heap.Valid, Does, Drops, Returned, LastCc, Released, Heap.Unfinalized, Logged;
    CompletesNothing(h);
    NothingCalls(rt.log);
    HandlesOf(rt, h);
    steps, h' := [], h;
    if rt.handles != multiset{} {
      var b :| b in rt.handles;
      ghost var freed: seq<CcBox>;
      steps, freed, h' := DropHeld(rt, b, h);
      steps := Then([Release(b)], steps);
    }
  }

  method CollectNow(rt: Runtime, ghost h: Heap<CcBox>)
    returns (returned: bool, ghost steps: seq<Step<CcBox>>, ghost h': Heap<CcBox>)
    requires rt.Synced(h) && h.Valid()
    modifies rt, rt.pc, rt.config, h.kids.Keys, rt.metadatas
    ensures Does(h, steps, h') && (returned ==> rt.Synced(h') && Completes(h, steps, h'))
    ensures Called(old(rt.log), steps, rt.log)
    ensures h.collecting ==>
      rt.nonRootList == old(rt.nonRootList) && rt.Counts() == old(rt.Counts())
    ensures (forall c | c in h'.kids :: c in h.kids || fresh(c)) && fresh(rt.metadatas - old(rt.metadatas))
  {
    hide Runtime.Synced, Heap.Valid, Does, Collected, Unwound, Returned, FinalizersIn, ClosuresIn, ProgramIn;
    var r: Ending;
    r, steps, h' := CollectCycles(rt, h);
    returned := r.Returns?;
  }

  /** The settings change: any switch, any buffer threshold, and any percentage in range. */
  method ConfigureAny(rt: Runtime, ghost h: Heap<CcBox>) returns (ghost steps: seq<Step<CcBox>>, ghost h': Heap<CcBox>)
    requires rt.Synced(h) && h.Valid()
    modifies rt.config
    ensures h' == h && rt.Synced(h') && Completes(h, steps, h') && steps == []
  {
    hide Runtime.Cells, Runtime.Containers, Runtime.Blocks, Heap.Valid, Completes;
    CompletesNothing(h);
    steps, h' := [], h;
    var auto: bool, limited: bool :| true;
    rt.config.SetAutoCollect(auto);
    var threshold: nat, percent: real :| threshold > 0;
    rt.config.SetBufferedThreshold(if limited then Option.Some(threshold) else Option.None);
    var ok := rt.config.SetAdjustmentPercent(percent);
  }

  /** One call, whichever. */
  method AnyCall(rt: Runtime, self: set<CcBox>, ghost h: Heap<CcBox>)
    returns (returned: bool, ghost steps: seq<Step<CcBox>>, ghost h': Heap<CcBox>)
    requires rt.Synced(h) && MayCall(h, self)
    modifies rt, rt.pc, rt.config, h.kids.Keys, rt.metadatas
    ensures Does(h, steps, h') && (returned ==> rt.Synced(h') && Completes(h, steps, h'))
    ensures Called(old(rt.log), steps, rt.log)
    ensures h.collecting ==>
      rt.nonRootList == old(rt.nonRootList) && rt.Counts() == old(rt.Counts())
    ensures (forall c | c in h'.kids :: c in h.kids || fresh(c)) && fresh(rt.metadatas - old(rt.metadatas))
  {
    hide Runtime.Synced, Heap.Valid, Does, UserPhase, Returned, Called, CallsNothing;
    returned := true;
    var call: nat :| true;
    match call {
      case 0 =>
        steps, h' := SmallCall(rt, self, h);
        CalledNothing(rt.log, steps);
      case 1 => returned, steps, h' := CreateAny(rt, h);
      case 2 => returned, steps, h' := CreateAnyCyclic(rt, h);
      case 3 => steps, h' := DropAny(rt, h);
      case 4 =>
        steps, h' := ConfigureAny(rt, h);
        NothingCalls(rt.log);
      case _ => returned, steps, h' := CollectNow(rt, h);
    }
  }

  // ----- any number of calls ------------------------------------------------------------------------------

  /** Any code that ends: any number of calls.  It stops early when a `trace` panics or the threshold is
      doubled for ever. */
  method AnyCode(rt: Runtime, self: set<CcBox>, ghost h: Heap<CcBox>)
    returns (returned: bool, ghost steps: seq<Step<CcBox>>, ghost h': Heap<CcBox>)
    requires rt.Synced(h) && MayCall(h, self)
    modifies rt, rt.pc, rt.config, h.kids.Keys, rt.metadatas
    ensures Does(h, steps, h') && (returned ==> rt.Synced(h') && Completes(h, steps, h'))
    ensures Called(old(rt.log), steps, rt.log)
    ensures h.collecting ==>
      rt.nonRootList == old(rt.nonRootList) && rt.Counts() == old(rt.Counts())
    ensures (forall c | c in h'.kids :: c in h.kids || fresh(c)) && fresh(rt.metadatas - old(rt.metadatas))
  {
    hide Runtime.Synced, Does, MayCall, Completes, Then, Heap.Valid, Called;
    StartsCode(h, self);
    NothingCalls(rt.log);
    returned, steps, h' := true, [], h;
    var n: nat :| true;
    for i := 0 to n
      invariant rt.Synced(h') && MayCall(h', self) && Completes(h, steps, h') && returned
      invariant Called(old(rt.log), steps, rt.log)
      invariant h'.collecting == h.collecting
      invariant h.collecting ==>
        rt.nonRootList == old(rt.nonRootList) && rt.Counts() == old(rt.Counts())
      invariant (forall c | c in h'.kids :: c in h.kids || fresh(c)) && fresh(rt.metadatas - old(rt.metadatas))
    {
      ghost var m, s, log := h', steps, rt.log;
      returned, s, h' := AnyCall(rt, self, m);
      CalledThen(old(rt.log), steps, log, s, rt.log);
      CompletesThen(h, steps, m, s, h');
      steps := Then(steps, s);
      if !returned {
        return;
      }
      StillMayCall(m, self, s, h');
    }
    CompletesDoes(h, steps, h');
  }

  lemma StartsCode<T>(h: Heap<T>, self: set<T>)
    requires MayCall(h, self)
    ensures Completes(h, [], h)
  {}

  lemma CompletesDoes<T>(h: Heap<T>, steps: seq<Step<T>>, h': Heap<T>)
    requires Completes(h, steps, h')
    ensures Does(h, steps, h')
  {}

  /** Whatever a finalizer does, if it returns then it has done what `Ccs.RunFinalizer` promises; `idle` says
      that it is one that does nothing. */
  method AnyFinalizer(rt: Runtime, b: CcBox, idle: bool, ghost h: Heap<CcBox>)
    returns (returned: bool, ghost steps: seq<Step<CcBox>>, ghost h': Heap<CcBox>)
    requires rt.Synced(h) && FinalizerMay(h, b) && (rt.silent(b) ==> idle)
    modifies rt, rt.pc, rt.config, h.kids.Keys, rt.metadatas
    ensures returned ==> rt.Synced(h') && FinalizerRan(h, steps, h') && Logged(old(rt.log).Calling(b), steps, rt.log)
    ensures rt.silent(b) ==> steps == [] && h' == h && rt.ByCode() == old(rt.ByCode())
    ensures h.collecting ==>
      rt.nonRootList == old(rt.nonRootList) && rt.Counts() == old(rt.Counts())
    ensures (forall c | c in h'.kids :: c in h.kids || fresh(c)) && fresh(rt.metadatas - old(rt.metadatas))
  {
    hide Runtime.Synced, Does, Heap.Valid, UserPhase, ProgramRun, Returned, FinalizersIn, ClosuresIn, ProgramIn;
    rt.log := rt.log.Calling(b);
    returned, steps, h' := true, [], h;
    if idle {
      NothingRan(h);
      NothingLogged(rt.log);
    } else {
      returned, steps, h' := AnyCode(rt, {b}, h);
      rt.log := rt.log.(ran := old(rt.log.ran) + ProgramIn(steps));
      if returned { FinalizerMayCall(h, steps, h'); }
    }
  }

  /** Every session is a run of the machine from the empty heap, so whatever holds of all runs holds of every
      state that a program brings about.  The finalizers and closures called are those in its steps, and no
      finalizer is called twice unless the program asks for it.  If no candidates are left, it has no garbage. */
  method Session(tracePanics: bool, closurePanics: CcBox -> bool, ghost silent: CcBox -> bool)
    returns (rt: Runtime, returned: bool, ghost steps: seq<Step<CcBox>>, ghost h: Heap<CcBox>)
    ensures Run(Empty(), steps, h) && h.Valid()
    ensures rt.log.calls == FinalizersIn(steps) && rt.log.closures == ClosuresIn(steps) && CalledOnce(steps)
    ensures returned ==> rt.Synced(h) && NoGuards(h) && h.pending == multiset{}
    ensures returned && rt.pc.first == null ==> h.Live() == Reach(h.kids, Elements(rt.handles))
  {
    hide Runtime.Synced, Does, Heap.Valid, Run, FinalizersIn, ClosuresIn, CalledOnce;
    EmptyIsValid<CcBox>();
    ghost var start := Empty<CcBox>();
    rt := new Runtime(tracePanics, closurePanics, silent);
    StartsEmpty(rt);
    returned, steps, h := AnyCode(rt, {}, start);
    SessionRuns(start, steps, h);
    RunCallsOnce(start, steps, h);
    if returned {
      CandidatesOf(rt, h);
      HandlesOf(rt, h);
      if rt.pc.first == null {
        NoCandidatesNoGarbage(steps, h);
        assert h.handles + h.pending == h.handles;
      }
    }
  }

  lemma StartsEmpty(rt: Runtime)
    ensures MayCall(Empty<CcBox>(), {}) && UserPhase(Empty<CcBox>())
  {
    EmptyIsValid<CcBox>();
  }

  lemma SessionRuns<T>(h: Heap<T>, steps: seq<Step<T>>, h': Heap<T>)
    requires Does(h, steps, h')
    ensures Run(h, steps, h') && h'.Valid()
  {
    ProgramRunIsRun(h, steps, h', GuardsOf(h));
  }
}

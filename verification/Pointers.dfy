/** `Cc`: creating, cloning and unwrapping pointers. */
module Pointers {
  import opened Graph
  import opened WeakTables
  import opened Heaps
  import opened HeapRuns
  import opened DropSteps
  import opened CollectSteps
  import opened Logs
  import opened CounterMarkers
  import opened Lists
  import opened Configs
  import opened Runtimes
  import opened Effects
  import opened Ccs
  import opened Collector

  /** The program hands a `Cc` it holds to a call. */
  ghost function Released<T>(h: Heap<T>, b: T): Heap<T> {
    h.(handles := h.handles - multiset{b}, pending := h.pending + multiset{b})
  }

  lemma HandlesOf(rt: Runtime, h: Heap<CcBox>)
    requires rt.Synced(h)
    ensures rt.handles == h.handles
  {}

  // ----- Cc::new ----------------------------------------------------------------------------------------

  /** The `Cc`s in a value belong to the call that the value has been passed to. */
  ghost function HandedOver<T>(h: Heap<T>, fields: seq<T>): Heap<T> {
    h.(handles := h.handles - multiset(fields), pending := h.pending + multiset(fields))
  }

  lemma {:induction false} HandsOver<T>(h: Heap<T>, fields: seq<T>) returns (steps: seq<Step<T>>)
    requires h.Valid() && UserPhase(h) && multiset(fields) <= h.handles
    ensures Does(h, steps, HandedOver(h, fields)) && CallsNothing(steps)
    decreases |fields|
  {
    hide Heap.Valid, HandedOver, Does;
    steps := [];
    if fields == [] {
      NothingHandedOver(h);
    } else {
      HandOne(h, fields);
      steps := HandsOver(Released(h, fields[0]), fields[1..]);
      DoesThen(h, [Release(fields[0])], Released(h, fields[0]), steps, HandedOver(h, fields));
      AnotherCallsNothing(Release(fields[0]), steps);
      steps := Then([Release(fields[0])], steps);
    }
  }

  lemma AnotherCallsNothing<T>(step: Step<T>, steps: seq<Step<T>>)
    requires CallsNothing(steps) && !step.Finalize? && !step.Hide?
    ensures CallsNothing([step]) && CallsNothing(Then([step], steps))
  {
    hide CallsNothing, Then;
    StepLogged(Log([], [], [], []), step);
    CallsNothingThen([step], steps);
  }

  lemma NothingHandedOver<T>(h: Heap<T>)
    requires h.Valid()
    ensures Does(h, [], HandedOver(h, []))
  {
    assert HandedOver(h, []) == h;
    DoesNothing(h);
  }

  lemma HandOne<T>(h: Heap<T>, fields: seq<T>)
    requires h.Valid() && UserPhase(h) && fields != [] && multiset(fields) <= h.handles
    ensures var m := Released(h, fields[0]);
      && Does(h, [Release(fields[0])], m) && m.Valid() && UserPhase(m) && GuardsOf(m) == GuardsOf(h)
      && multiset(fields[1..]) <= m.handles && HandedOver(m, fields[1..]) == HandedOver(h, fields)
  {
    hide Apply, Enabled, ProgramRun, Heap.Valid;
    assert fields == [fields[0]] + fields[1..];
    assert fields[0] in multiset(fields);
    BlocksAreRight(h);
    ReleaseEffect(h, fields[0]);
    DoesStep(h, Release(fields[0]));
    var m := Released(h, fields[0]);
    assert m.handles - multiset(fields[1..]) == h.handles - multiset(fields);
    assert m.pending + multiset(fields[1..]) == h.pending + multiset(fields);
  }

  lemma Creates<T>(h: Heap<T>, b: T, fields: seq<T>)
    requires h.Valid() && UserPhase(h) && b !in h.kids && b !in h.w.blocks && multiset(fields) <= h.pending
    ensures Does(h, [New(b, fields)], Created(h, b, fields))
  {
    DoesStep(h, New(b, fields));
  }

  lemma PlacesOf<T>(h: Heap<T>)
    requires h.Valid()
    ensures h.p + h.list + h.dropped + h.fin <= h.kids.Keys
  {}

  /** The collection that may come before a new box, while the call owns the `Cc`s in the value: they are
      safe from the finalizers that the collection calls. */
  method CollectFirst(rt: Runtime, fields: seq<CcBox>, ghost h: Heap<CcBox>)
    returns (r: Ending, ghost steps: seq<Step<CcBox>>, ghost m: Heap<CcBox>)
    requires rt.Synced(h) && h.Valid() && UserPhase(h) && multiset(fields) <= h.handles
    modifies rt, rt.pc, rt.config, h.kids.Keys, rt.metadatas
    ensures if r.TracePanics? then Unwound(rt, m) && rt.tracePanics else rt.Synced(m)
    ensures rt.panics == old(rt.panics) + (if r.TracePanics? then 1 else 0)
    ensures old(rt.log.calls) <= rt.log.calls && Called(old(rt.log), steps, rt.log)
    ensures Does(h, steps, m) && Returned(HandedOver(h, fields), m) && m.pending == h.pending + multiset(fields)
    ensures if h.collecting || !old(rt.config.Due(rt.allocatedBytes, |h.p|)) then
              r.Returns? && m == HandedOver(h, fields) && rt.log == old(rt.log) && rt.ByCode() == old(rt.ByCode())
            else
              && (!r.TracePanics? ==>
                    Collected(HandedOver(h, fields), |rt.log.calls| - |old(rt.log.calls)|, rt.silent, m))
              && (r.Returns? ==> rt.config.AtRest(rt.allocatedBytes))
              && (r.Returns? && AllSilent(HandedOver(h, fields).Garbage() - h.fin, rt.silent) ==>
                    AdjustedTo(old(rt.config.Current()), rt.allocatedBytes, rt.config.Current()))
              && rt.executions == old(rt.executions) + 1
    ensures h.collecting || !old(rt.config.Due(rt.allocatedBytes, |h.p|)) ==>
      rt.nonRootList == old(rt.nonRootList) && rt.Counts() == old(rt.Counts())
    ensures (forall c | c in m.kids :: c in h.kids || fresh(c)) && fresh(rt.metadatas - old(rt.metadatas))
    ensures m.Valid() && UserPhase(m) && multiset(fields) <= m.pending && GuardsOf(m) == GuardsOf(h)
  {
    hide Runtime.Synced, Heap.Valid, Does, Collected, Unwound, Returned, HandedOver, UserPhase, Called, CallsNothing;
    hide Config.AtRest, AdjustedTo, AllSilent, FinalizersIn, ClosuresIn, ProgramIn, Runtime.ByCode, Then;
    hide Heap.Garbage;
    hide Adjusted;
    ghost var s: seq<Step<CcBox>>, t: seq<Step<CcBox>>, start: Heap<CcBox>;
    s, start := HandOver(rt, fields, h);
    CalledNothing(rt.log, s);
    r, t, m := TriggerCollection(rt, start);
    CalledThen(old(rt.log), s, old(rt.log), t, rt.log);
    DoesThen(h, s, start, t, m);
    MayCreate(h, fields, t, m);
    steps := Then(s, t);
  }

  /** `Cc::new`, for a value that holds the `Cc`s `fields`: the box is made in the heap `m` that is left when
      a collection has come first, if one is due. */
  method NewCc(rt: Runtime, size: nat, fields: seq<CcBox>, ghost h: Heap<CcBox>)
    returns (r: Ending, b: CcBox?, ghost steps: seq<Step<CcBox>>, ghost m: Heap<CcBox>, ghost h': Heap<CcBox>)
    requires rt.Synced(h) && h.Valid() && UserPhase(h) && multiset(fields) <= h.handles
    modifies rt, rt.pc, rt.config, h.kids.Keys, rt.metadatas
    ensures if r.TracePanics? then Unwound(rt, h') && rt.tracePanics else rt.Synced(h')
    ensures rt.panics == old(rt.panics) + (if r.TracePanics? then 1 else 0)
    ensures old(rt.log.calls) <= rt.log.calls && Called(old(rt.log), steps, rt.log)
    ensures Does(h, steps, h') && Returned(HandedOver(h, fields), m) && m.pending == h.pending + multiset(fields)
    ensures if h.collecting || !old(rt.config.Due(rt.allocatedBytes, |h.p|)) then
              r.Returns? && m == HandedOver(h, fields) && rt.log == old(rt.log) && rt.ByCode() == old(rt.ByCode())
            else
              && (!r.TracePanics? ==>
                    Collected(HandedOver(h, fields), |rt.log.calls| - |old(rt.log.calls)|, rt.silent, m))
              && (r.Returns? ==> size <= rt.allocatedBytes && rt.config.AtRest(rt.allocatedBytes - size))
              && (r.Returns? && AllSilent(HandedOver(h, fields).Garbage() - h.fin, rt.silent) ==>
                    AdjustedTo(old(rt.config.Current()), rt.allocatedBytes - size, rt.config.Current()))
              && rt.executions == old(rt.executions) + 1
    ensures if r.Returns? then b != null && fresh(b) && b !in m.kids && b.size == size && h' == Created(m, b, fields)
            else b == null && h' == m
    ensures r.Returns? ==>
      && b in h'.kids && h'.kids[b] == fields && h'.handles == m.handles + multiset{b}
      && h'.rc == m.rc[b := 1] && b.counter.rc == 1
      && h'.pending == h.pending && (b in h'.fin <==> m.finalizing) && b.counter.finalized == m.finalizing
    ensures h.collecting ==>
      rt.nonRootList == old(rt.nonRootList) && rt.Counts() == old(rt.Counts())
    ensures (forall c | c in h'.kids :: c in h.kids || fresh(c)) && fresh(rt.metadatas - old(rt.metadatas))
  {
    hide Runtime.Synced, Heap.Valid, Does, Collected, Unwound, Returned, HandedOver, UserPhase, Called, CallsNothing;
    hide Config.AtRest, AllSilent, Created, FinalizersIn, ClosuresIn, ProgramIn, Then, AdjustedTo, Heap.Garbage;
    hide Runtime.ByCode, Runtime.Counts;
    r, steps, m := CollectFirst(rt, fields, h);
    b, h' := null, m;
    if r.Returns? {
      ghost var s: seq<Step<CcBox>>;
      b, s, h' := CreateCc(rt, size, fields, m);
      CalledNothing(rt.log, s);
      CalledThen(old(rt.log), steps, rt.log, s, rt.log);
      DoesThen(h, steps, m, s, h');
      CreatedBoxIs(m, b, fields, h.pending);
      CellsOf(rt, h', b);
      steps := Then(steps, s);
    }
  }

  lemma CreatedBoxIs<T>(m: Heap<T>, b: T, fields: seq<T>, pending: multiset<T>)
    requires m.Valid() && b !in m.kids && m.pending == pending + multiset(fields)
    ensures var h' := Created(m, b, fields);
      && h'.kids.Keys == m.kids.Keys + {b} && h'.kids[b] == fields && h'.handles == m.handles + multiset{b}
      && h'.rc == m.rc[b := 1] && h'.pending == pending && (b in h'.fin <==> m.finalizing)
  {}

  /** The value moves into the call. */
  method HandOver(rt: Runtime, fields: seq<CcBox>, ghost h: Heap<CcBox>)
    returns (ghost steps: seq<Step<CcBox>>, ghost h': Heap<CcBox>)
    requires rt.Synced(h) && h.Valid() && UserPhase(h) && multiset(fields) <= h.handles
    modifies rt`handles
    ensures rt.Synced(h') && h' == HandedOver(h, fields) && Does(h, steps, h') && h'.Valid() && CallsNothing(steps)
    ensures GuardsOf(h') == GuardsOf(h) && h'.kids == h.kids && h'.p == h.p && h'.fin == h.fin
      && h'.pending == h.pending + multiset(fields)
  {
    hide Runtime.Synced, Heap.Valid, Does, CallsNothing;
    steps := HandsOver(h, fields);
    DoesValid(h, steps, HandedOver(h, fields));
    HandlesOf(rt, h);
    h' := SetHandles(rt, rt.handles - multiset(fields), h);
    SyncedIgnoresPending(rt, h', h.pending + multiset(fields));
    h' := HandedOver(h, fields);
  }

  lemma MayCreate<T>(h: Heap<T>, fields: seq<T>, t: seq<Step<T>>, m: Heap<T>)
    requires UserPhase(h) && Does(HandedOver(h, fields), t, m) && Returned(HandedOver(h, fields), m)
    requires m.pending == h.pending + multiset(fields)
    ensures m.Valid() && UserPhase(m) && multiset(fields) <= m.pending && GuardsOf(m) == GuardsOf(h)
  {
    hide ProgramRun, Heap.Valid;
  }

  /** The box is made, without a collection. */
  method CreateCc(rt: Runtime, size: nat, fields: seq<CcBox>, ghost h: Heap<CcBox>)
    returns (b: CcBox, ghost steps: seq<Step<CcBox>>, ghost h': Heap<CcBox>)
    requires rt.Synced(h) && h.Valid() && UserPhase(h) && multiset(fields) <= h.pending
    modifies rt`allocatedBytes, rt`values, rt`handles
    ensures rt.Synced(h') && fresh(b) && b !in h.kids && b !in h.w.blocks && b.size == size
      && h' == Created(h, b, fields) && rt.allocatedBytes == old(rt.allocatedBytes) + size
    ensures Does(h, steps, h') && steps == [New(b, fields)] && CallsNothing(steps)
  {
    hide Runtime.Synced, Heap.Valid, Does;
    PlacesOf(h);
    b, h' := NewBox(rt, size, fields, h);
    Creates(h, b, fields);
    steps := [New(b, fields)];
    StepLogged(rt.log, New(b, fields));
  }

  lemma DoesValid<T>(h: Heap<T>, s: seq<Step<T>>, h': Heap<T>)
    requires Does(h, s, h')
    ensures h'.Valid()
  {}

  // ----- storing -----------------------------------------------------------------------------------------

  /** A value is moved into a box: the program does not hold the `Cc`s in its fields any more. */
  ghost function Stored<T>(h: Heap<T>, b: T, fields: seq<T>): Heap<T>
    requires b in h.kids
  {
    h.(kids := h.kids[b := h.kids[b] + fields], handles := h.handles - multiset(fields))
  }

  lemma {:induction false} Stores<T>(h: Heap<T>, b: T, fields: seq<T>) returns (steps: seq<Step<T>>)
    requires h.Valid() && UserPhase(h) && b in h.kids && multiset(fields) + multiset{b} <= h.handles
    ensures Does(h, steps, Stored(h, b, fields)) && CallsNothing(steps)
    decreases |fields|
  {
    hide Heap.Valid, Stored, StoredOne, Does;
    steps := [];
    if fields == [] {
      StoredNothing(h, b);
    } else {
      StoreOne(h, b, fields);
      steps := Stores(StoredOne(h, b, fields[0]), b, fields[1..]);
      StoredFirst(h, b, fields);
      DoesThen(h, [Store(b, fields[0])], StoredOne(h, b, fields[0]), steps, Stored(h, b, fields));
      AnotherCallsNothing(Store(b, fields[0]), steps);
      steps := Then([Store(b, fields[0])], steps);
    }
  }

  lemma StoredNothing<T>(h: Heap<T>, b: T)
    requires h.Valid() && b in h.kids
    ensures Does(h, [], Stored(h, b, []))
  {
    assert h.kids[b] + [] == h.kids[b];
    assert h.kids[b := h.kids[b]] == h.kids;
    assert Stored(h, b, []) == h;
  }

  lemma StoreOne<T>(h: Heap<T>, b: T, fields: seq<T>)
    requires h.Valid() && UserPhase(h) && b in h.kids && fields != [] && multiset(fields) + multiset{b} <= h.handles
    ensures var m := StoredOne(h, b, fields[0]);
      && Does(h, [Store(b, fields[0])], m) && m.Valid() && UserPhase(m) && b in m.kids && GuardsOf(m) == GuardsOf(h)
      && multiset(fields[1..]) + multiset{b} <= m.handles
  {
    HeldBeside(h.handles, b, fields);
    StoreStep(h, b, fields[0]);
  }

  lemma HeldBeside<T>(handles: multiset<T>, b: T, fields: seq<T>)
    requires fields != [] && multiset(fields) + multiset{b} <= handles
    ensures fields[0] in handles && b in handles - multiset{fields[0]}
    ensures multiset(fields[1..]) + multiset{b} <= handles - multiset{fields[0]}
  {
    assert fields == [fields[0]] + fields[1..];
  }

  lemma StoreStep<T>(h: Heap<T>, b: T, n: T)
    requires h.Valid() && UserPhase(h) && b in h.kids && n in h.handles && b in h.handles - multiset{n}
    ensures Does(h, [Store(b, n)], StoredOne(h, b, n)) && StoredOne(h, b, n).Valid()
  {
    assert b in Elements(h.handles - multiset{n} + h.pending) + h.list;
    DoesStep(h, Store(b, n));
  }

  ghost function StoredOne<T>(h: Heap<T>, b: T, n: T): Heap<T>
    requires b in h.kids
  {
    h.(kids := h.kids[b := h.kids[b] + [n]], handles := h.handles - multiset{n})
  }

  lemma StoredFirst<T>(h: Heap<T>, b: T, fields: seq<T>)
    requires b in h.kids && fields != []
    ensures Stored(StoredOne(h, b, fields[0]), b, fields[1..]) == Stored(h, b, fields)
  {
    assert h.kids[b] + [fields[0]] + fields[1..] == h.kids[b] + fields;
    assert fields == [fields[0]] + fields[1..];
    assert h.handles - multiset{fields[0]} - multiset(fields[1..]) == h.handles - multiset(fields);
    assert h.kids[b := h.kids[b] + [fields[0]]][b := h.kids[b] + fields] == h.kids[b := h.kids[b] + fields];
  }

  lemma StoredParts<T>(h: Heap<T>, b: T, fields: seq<T>)
    requires b in h.kids
    ensures var m := Stored(h, b, fields);
      && m == h.(kids := m.kids, handles := m.handles) && m.kids.Keys == h.kids.Keys
      && m.kids == h.kids[b := h.kids[b] + fields] && m.handles == h.handles - multiset(fields)
  {}

  /** The program writes held `Cc`s into the value in `b`. */
  method StoreFields(rt: Runtime, b: CcBox, fields: seq<CcBox>, ghost h: Heap<CcBox>) returns (ghost h': Heap<CcBox>)
    requires rt.Synced(h) && b in h.kids
    modifies rt`values, rt`handles
    ensures h' == Stored(h, b, fields) && rt.Synced(h')
  {
    hide Runtime.Cells, Runtime.Containers, Runtime.Blocks, Stored;
    StoredParts(h, b, fields);
    rt.values := rt.values[b := rt.values[b] + fields];
    rt.handles := rt.handles - multiset(fields);
    h' := Stored(h, b, fields);
  }

  // ----- Cc::clone, Cc::mark_alive ----------------------------------------------------------------------

  lemma AccessibleIsAllocated<T>(h: Heap<T>, b: T)
    requires h.Valid() && b in h.Accessible()
    ensures b in h.kids && b in h.rc
  {
    ReachLeast(h.kids, h.Roots() + h.list, h.kids.Keys);
  }

  lemma Clones<T>(h: Heap<T>, b: T)
    requires h.Valid() && UserPhase(h) && b in h.Accessible() && b in h.kids && 0 < h.rc[b] < MAX
    ensures Does(h, Then([Clone(b)], [MarkAlive(b)]), AddReference(h, b).(p := h.p - {b}))
    ensures CallsNothing(Then([Clone(b)], [MarkAlive(b)]))
  {
    AnotherCallsNothing(MarkAlive(b), []);
    AnotherCallsNothing(Clone(b), [MarkAlive(b)]);
    DoesStep(h, Clone(b));
    MarksAlive(AddReference(h, b), b);
    DoesThen(h, [Clone(b)], AddReference(h, b), [MarkAlive(b)], AddReference(h, b).(p := h.p - {b}));
  }

  lemma MarksAlive<T>(h: Heap<T>, b: T)
    requires h.Valid() && UserPhase(h) && b in h.Accessible()
    ensures Does(h, [MarkAlive(b)], h.(p := h.p - {b}))
  {
    DoesStep(h, MarkAlive(b));
  }

  /** `Cc::clone`.  Returns false, and does nothing, if there are too many references: the source panics. */
  method CloneCc(rt: Runtime, b: CcBox, ghost h: Heap<CcBox>)
    returns (ok: bool, ghost steps: seq<Step<CcBox>>, ghost h': Heap<CcBox>)
    requires rt.Synced(h) && h.Valid() && UserPhase(h) && b in h.Accessible() && h.References()[b] > 0
    modifies rt.pc, h.kids.Keys, rt`handles
    ensures rt.Synced(h') && Does(h, steps, h') && (ok <==> h.References()[b] < MAX) && CallsNothing(steps)
    ensures b in h.rc && h' == if ok then AddReference(h, b).(p := h.p - {b}) else h
  {
    hide Runtime.Synced, Does, Heap.Valid, Heap.Accessible, Heap.References;
    AccessibleIsAllocated(h, b);
    CountOf(h, b);
    CellsOf(rt, h, b);
    steps := [];
    ok, h' := IncrementCounter(rt, b, h);
    if ok {
      Clones(h, b);
      HandlesOf(rt, h');
      h' := SetHandles(rt, rt.handles + multiset{b}, h');
      h' := RemoveFromList(rt, b, h');
      steps := Then([Clone(b)], [MarkAlive(b)]);
    }
  }

  lemma CountOf<T>(h: Heap<T>, b: T)
    requires h.Valid() && b in h.kids
    ensures b in h.rc && h.rc[b] == h.References()[b] <= MAX
    ensures Does(h, [], h)
  {}

  /** `Cc::mark_alive` */
  method MarkCcAlive(rt: Runtime, b: CcBox, ghost h: Heap<CcBox>) returns (ghost h': Heap<CcBox>)
    requires rt.Synced(h) && h.Valid() && UserPhase(h) && b in h.Accessible()
    modifies rt.pc, h.kids.Keys
    ensures rt.Synced(h') && h' == h.(p := h.p - {b}) && Does(h, [MarkAlive(b)], h')
  {
    hide Runtime.Synced, Heap.Valid, Heap.Accessible, Does;
    AccessibleIsAllocated(h, b);
    MarksAlive(h, b);
    CellsOf(rt, h, b);
    h' := RemoveFromList(rt, b, h);
  }

  // ----- Cc::finalize_again -----------------------------------------------------------------------------

  /** `Cc::finalize_again`.  Returns false, and does nothing, during a collection, a finalizer or a
      destructor: the source panics. */
  method FinalizeCcAgain(rt: Runtime, b: CcBox, ghost h: Heap<CcBox>) returns (ok: bool, ghost h': Heap<CcBox>)
    requires rt.Synced(h) && h.Valid() && UserPhase(h) && b in h.Accessible()
    modifies h.kids.Keys`counter
    ensures rt.Synced(h') && (ok <==> !h.collecting && !h.finalizing && !h.dropping)
    ensures h' == if ok then h.(fin := h.fin - {b}) else h
    ensures ok ==> Does(h, [FinalizeAgain(b)], h')
  {
    AccessibleIsAllocated(h, b);
    FlagsOf(rt, h);
    ok, h' := !rt.collecting && !rt.finalizing && !rt.dropping, h;
    if ok {
      FinalizesAgain(h, b);
      h' := SetFinalized(rt, b, false, h);
    }
  }

  lemma FinalizesAgain<T>(h: Heap<T>, b: T)
    requires h.Valid() && b in h.kids && b in h.Accessible() && !h.collecting && !h.finalizing && !h.dropping
    ensures Does(h, [FinalizeAgain(b)], h.(fin := h.fin - {b}))
  {
    DoesStep(h, FinalizeAgain(b));
  }

  // ----- Cc::try_unwrap ---------------------------------------------------------------------------------

  /** The fields have been moved out of the value, and the program holds them. */
  ghost function Emptied<T>(h: Heap<T>, b: T): Heap<T>
    requires b in h.kids
  {
    h.(kids := h.kids[b := []], handles := h.handles + multiset(h.kids[b]))
  }

  ghost function TakenOne<T>(h: Heap<T>, b: T): Heap<T>
    requires b in h.kids && h.kids[b] != []
  {
    h.(kids := h.kids[b := h.kids[b][1..]], handles := h.handles + multiset{h.kids[b][0]})
  }

  lemma TakeOne<T>(h: Heap<T>, b: T)
    requires h.Valid() && NoGuards(h) && b in h.handles && b in h.kids && h.kids[b] != []
    ensures var m := TakenOne(h, b);
      && Does(h, [Take(b, 0)], m) && m.Valid() && NoGuards(m) && b in m.handles && b in m.kids
      && m.kids[b] == h.kids[b][1..]
  {
    assert b in h.Roots();
    assert h.kids[b][..0] + h.kids[b][1..] == h.kids[b][1..];
    DoesStep(h, Take(b, 0));
  }

  lemma TakenFirst<T>(h: Heap<T>, b: T)
    requires b in h.kids && h.kids[b] != []
    ensures Emptied(TakenOne(h, b), b) == Emptied(h, b)
  {
    assert h.kids[b] == [h.kids[b][0]] + h.kids[b][1..];
    assert h.handles + multiset{h.kids[b][0]} + multiset(h.kids[b][1..]) == h.handles + multiset(h.kids[b]);
    assert h.kids[b := h.kids[b][1..]][b := []] == h.kids[b := []];
  }

  lemma NothingTaken<T>(h: Heap<T>, b: T)
    requires h.Valid() && b in h.kids && h.kids[b] == []
    ensures Does(h, [], Emptied(h, b))
  {
    assert h.kids[b := []] == h.kids;
    assert h.handles + multiset([]) == h.handles;
    assert Emptied(h, b) == h;
  }

  lemma {:induction false} Empties<T>(h: Heap<T>, b: T) returns (steps: seq<Step<T>>)
    requires h.Valid() && NoGuards(h) && b in h.handles && b in h.kids
    ensures Does(h, steps, Emptied(h, b)) && CallsNothing(steps)
    decreases |h.kids[b]|
  {
    hide Heap.Valid, Emptied, TakenOne, Does;
    steps := [];
    if h.kids[b] == [] {
      NothingTaken(h, b);
    } else {
      TakeOne(h, b);
      steps := Empties(TakenOne(h, b), b);
      TakenFirst(h, b);
      TakingKeepsGuards(h, b);
      DoesThen(h, [Take(b, 0)], TakenOne(h, b), steps, Emptied(h, b));
      AnotherCallsNothing(Take(b, 0), steps);
      steps := Then([Take(b, 0)], steps);
    }
  }

  lemma TakingKeepsGuards<T>(h: Heap<T>, b: T)
    requires b in h.kids && h.kids[b] != []
    ensures GuardsOf(TakenOne(h, b)) == GuardsOf(h)
  {}

  /** The box has been given up, and its value belongs to the program. */
  ghost function Unwrapped<T>(h: Heap<T>, b: T): Heap<T>
    requires b in h.kids
  {
    Freed(Emptied(h, b).(p := h.p - {b}, handles := h.handles + multiset(h.kids[b]) - multiset{b}), b)
  }

  lemma UnwrapStep<T>(h: Heap<T>, b: T)
    requires h.Valid() && NoGuards(h) && b in h.handles && b in h.kids && h.rc[b] == 1 && h.kids[b] == []
    ensures Does(h, [Unwrap(b)], GivenUp(h, b)) && b !in h.dropped
    ensures b in GivenUp(h, b).dropped && b !in GivenUp(h, b).list
  {
    hide Apply, Enabled, ProgramRun, Heap.NoDangling, Heap.Conserved, Heap.Covered, Heap.Doomed;
    UnwrapEffect(h, b);
    DoesStep(h, Unwrap(b));
  }

  lemma FreeStep<T>(h: Heap<T>, b: T)
    requires h.Valid() && b in h.dropped && b !in h.list
    ensures Does(h, [Free(b)], Freed(h, b))
  {
    hide Apply, Enabled, ProgramRun, Heap.NoDangling, Heap.Conserved, Heap.Covered, Heap.Doomed, WeakTable.BoxFreed;
    FreeEffect(h, b);
    DoesStep(h, Free(b));
  }

  lemma FreedGivenUp<T>(h: Heap<T>, b: T)
    requires b !in h.dropped && b in h.rc
    ensures Freed(GivenUp(h, b), b) == Freed(h.(p := h.p - {b}, handles := h.handles - multiset{b}), b)
    ensures GuardsOf(GivenUp(h, b)) == GuardsOf(h)
  {
    assert h.rc[b := 0] - {b} == h.rc - {b};
    assert h.dropped + {b} - {b} == h.dropped - {b};
  }

  lemma GivesUp<T>(h: Heap<T>, b: T)
    requires h.Valid() && NoGuards(h) && b in h.handles && b in h.kids && b in h.rc && h.rc[b] == 1 && h.kids[b] == []
    ensures Does(h, Then([Unwrap(b)], [Free(b)]), Freed(h.(p := h.p - {b}, handles := h.handles - multiset{b}), b))
  {
    hide Heap.Valid, Does, Then, GivenUp, Freed;
    UnwrapStep(h, b);
    DoesValid(h, [Unwrap(b)], GivenUp(h, b));
    FreeStep(GivenUp(h, b), b);
    FreedGivenUp(h, b);
    DoesThen(h, [Unwrap(b)], GivenUp(h, b), [Free(b)], Freed(GivenUp(h, b), b));
  }

  lemma UnwrapCallsNothing<T>(steps: seq<Step<T>>, b: T)
    requires CallsNothing(steps)
    ensures CallsNothing(Then(steps, Then([Unwrap(b)], [Free(b)])))
  {
    hide CallsNothing, Then;
    StepLogged(Log([], [], [], []), Unwrap(b));
    StepLogged(Log([], [], [], []), Step<T>.Free(b));
    CallsNothingThen([Unwrap(b)], [Free(b)]);
    CallsNothingThen(steps, Then([Unwrap(b)], [Free(b)]));
  }

  lemma Unwraps<T>(h: Heap<T>, b: T) returns (steps: seq<Step<T>>)
    requires h.Valid() && NoGuards(h) && b in h.handles && b in h.kids && h.rc[b] == 1 && multiset(h.kids[b])[b] == 0
    ensures Does(h, steps, Unwrapped(h, b)) && CallsNothing(steps)
  {
    hide CallsNothing, ProgramRun, Then, Freed;
    steps := Empties(h, b);
    var m := Emptied(h, b);
    GivesUp(m, b);
    DoesThen(h, steps, m, Then([Unwrap(b)], [Free(b)]), Freed(m.(p := m.p - {b}, handles := m.handles - multiset{b}),
      b));
    UnwrapCallsNothing(steps, b);
    steps := Then(steps, Then([Unwrap(b)], [Free(b)]));
  }

  /** `Cc::try_unwrap`.  Gives up the box and returns the fields of its value if this is the only `Cc` and
      nothing is being collected, finalized or dropped; otherwise it changes nothing. */
  method TryUnwrap(rt: Runtime, b: CcBox, ghost h: Heap<CcBox>)
    returns (ok: bool, fields: seq<CcBox>, ghost steps: seq<Step<CcBox>>, ghost h': Heap<CcBox>)
    requires rt.Synced(h) && h.Valid() && UserPhase(h) && b in h.handles
    modifies rt`values, rt`allocatedBytes, rt`blocks, rt`handles, rt.metadatas`weak, rt.pc, h.kids.Keys
    ensures rt.Synced(h') && Does(h, steps, h') && b in h.kids && CallsNothing(steps)
    ensures ok <==> h.References()[b] == 1 && !h.collecting && !h.finalizing && !h.dropping
    ensures if ok then fields == h.kids[b] && h' == Unwrapped(h, b) else h' == h
  {
    hide Runtime.Synced, Heap.Valid, Heap.References, Does, Freed;
    HeldIsAllocated(h, b);
    CountOf(h, b);
    CellsOf(rt, h, b);
    FlagsOf(rt, h);
    ok, fields, steps, h' := false, [], [], h;
    if b.counter.rc != 1 {
      return;
    }
    if rt.collecting || rt.dropping || rt.finalizing {
      return;
    }
    ok := true;
    HeldAlone(h, b);
    steps := Unwraps(h, b);
    h' := RemoveFromList(rt, b, h);
    fields, h' := TakeFields(rt, b, h');
    h' := FreeUnwrapped(rt, b, h');
    FreedIgnoresCcs(h, b);
    HandlesOf(rt, h');
    h' := SetHandles(rt, rt.handles + multiset(fields) - multiset{b}, h');
  }

  method FreeUnwrapped(rt: Runtime, b: CcBox, ghost h: Heap<CcBox>) returns (ghost h': Heap<CcBox>)
    requires rt.Synced(h) && b in h.kids && b !in h.p && b !in h.list
    modifies rt`blocks, rt.metadatas`weak, rt`allocatedBytes, rt`values
    ensures rt.Synced(h') && h' == Freed(h, b)
    ensures forall c | c in rt.blocks :: c in old(rt.blocks) && rt.blocks[c] == old(rt.blocks)[c]
  {
    hide Runtime.SyncedWith;
    h' := FreeBox(rt, b, h, h.list);
  }

  lemma FreedIgnoresCcs<T>(h: Heap<T>, b: T)
    requires b in h.kids
    ensures var m := Freed(h.(p := h.p - {b}, kids := h.kids[b := []]), b);
      && m.(handles := h.handles + multiset(h.kids[b]) - multiset{b}) == Unwrapped(h, b)
      && m.pending == h.pending && m.handles == h.handles
  {}

  lemma HeldIsAllocated<T>(h: Heap<T>, b: T)
    requires h.Valid() && b in h.handles
    ensures b in h.kids && b in h.rc
  {
    assert b in h.Roots();
  }

  lemma HeldAlone<T>(h: Heap<T>, b: T)
    requires h.Valid() && UserPhase(h) && b in h.handles && b in h.kids && h.rc[b] == 1
    requires !h.collecting && !h.finalizing && !h.dropping
    ensures NoGuards(h) && multiset(h.kids[b])[b] == 0 && b !in h.list
  {
    OutSplit(h.kids, h.kids.Keys, b);
  }

  // ----- dropping a held Cc -----------------------------------------------------------------------------

  lemma Releases<T>(h: Heap<T>, b: T)
    requires h.Valid() && UserPhase(h) && b in h.handles
    ensures Does(h, [Release(b)], Released(h, b)) && MayDrop(Released(h, b), b)
  {
    hide Apply, Enabled, ProgramRun, Heap.Conserved, Heap.Covered, Heap.Doomed;
    ReleaseEffect(h, b);
    DoesStep(h, Release(b));
    assert b in h.Roots();
  }

  /** Dropping a `Cc` that the program holds. */
  method DropHeld(rt: Runtime, b: CcBox, ghost h: Heap<CcBox>)
    returns (ghost steps: seq<Step<CcBox>>, ghost freed: seq<CcBox>, ghost h': Heap<CcBox>)
    requires rt.Synced(h) && h.Valid() && UserPhase(h) && b in h.handles
    modifies rt, rt.pc, rt.config, h.kids.Keys, rt.metadatas
    ensures rt.Synced(h') && Drops(Released(h, b), b, rt.silent, steps, freed, h')
    ensures Does(h, Then([Release(b)], steps), h') && Returned(h, h') && h'.pending == h.pending
    ensures LastCc(Released(h, b), b) && b !in h.fin ==> old(rt.log.calls) + [b] <= rt.log.calls
    ensures LastCc(Released(h, b), b) && (b in h.fin || rt.silent(b) || rt.log.ran == old(rt.log.ran)) ==>
      b !in h'.kids
    ensures rt.log.ran == old(rt.log.ran) ==> h'.handles == h.handles - multiset{b}
    ensures Logged(old(rt.log), steps, rt.log) && Called(old(rt.log), Then([Release(b)], steps), rt.log)
    ensures h.Unfinalized() == {} ==> rt.log.calls == old(rt.log.calls)
    ensures Uneventful(h, rt.silent) ==> rt.ByCode() == old(rt.ByCode())
    ensures h.collecting ==>
      rt.nonRootList == old(rt.nonRootList) && rt.Counts() == old(rt.Counts())
    ensures (forall c | c in h'.kids :: c in h.kids || fresh(c)) && fresh(rt.metadatas - old(rt.metadatas))
  {
    hide Runtime.Synced, Heap.Valid, Does, Drops, MayDrop, Then, Returned, LastCc, FinalizersIn, ClosuresIn, ProgramIn;
    hide Runtime.ByCode, Released, Uneventful, Hushed, NoFinalizers, Heap.Unfinalized;
    Releases(h, b);
    ReleasedParts(h, b, rt.silent);
    HandlesOf(rt, h);
    h' := SetHandles(rt, rt.handles - multiset{b}, h);
    SyncedIgnoresPending(rt, h', h.pending + multiset{b});
    h' := Released(h, b);
    steps, freed, h' := DropCc(rt, b, h');
    ReleasedDoes(h, b, rt.silent, steps, freed, h');
    StepLogged(old(rt.log), Release(b));
    CalledNothing(old(rt.log), [Release(b)]);
    CalledThen(old(rt.log), [Release(b)], old(rt.log), steps, rt.log);
  }

  lemma ReleasedParts<T>(h: Heap<T>, b: T, silent: T -> bool)
    ensures var m := Released(h, b);
      && m == h.(handles := h.handles - multiset{b}, pending := h.pending + multiset{b})
      && m.kids == h.kids && m.fin == h.fin && m.collecting == h.collecting && m.handles == h.handles - multiset{b}
      && (Uneventful(h, silent) ==> Hushed(m, silent)) && (h.Unfinalized() == {} ==> NoFinalizers(m))
  {}

  lemma ReleasedDoes<T>(h: Heap<T>, b: T, silent: T -> bool, steps: seq<Step<T>>, freed: seq<T>, h': Heap<T>)
    requires Does(h, [Release(b)], Released(h, b)) && Drops(Released(h, b), b, silent, steps, freed, h')
    ensures Does(h, Then([Release(b)], steps), h') && Returned(h, h') && h'.pending == h.pending
  {
    hide Heap.Valid, ProgramRun, Then;
    DoesThen(h, [Release(b)], Released(h, b), steps, h');
    assert h.pending + multiset{b} - multiset{b} == h.pending;
  }

  // ----- what finalizers are made of --------------------------------------------------------------------

  /** A finalizer may make any number of calls, ... */
  lemma FinalizersCompose<T>(h: Heap<T>, s: seq<Step<T>>, m: Heap<T>, t: seq<Step<T>>, h': Heap<T>)
    requires FinalizerRan(h, s, m) && FinalizerRan(m, t, h')
    ensures FinalizerRan(h, Then(s, t), h')
  {
    hide ProgramRun, Then;
    ProgramRunsCompose(h, s, m, t, h', Guards(true, h.collecting));
  }

  /** ... to everything in the library. */
  lemma FinalizerMayCall<T>(h: Heap<T>, s: seq<Step<T>>, h': Heap<T>)
    requires h.finalizing && Does(h, s, h') && Returned(h, h') && h'.pending == h.pending
    ensures FinalizerRan(h, s, h')
  {}
}

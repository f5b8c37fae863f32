/** What the machine of `Heaps` leaves out: a `trace` that panics, which stops a pass half way and leaves tracing
    counters behind, and the drop of an untraced `Cc` by a destructor of the group, which can run the finalizer
    and the destructor of an outside box while the group is deallocated.  Garbage may be missed from then on,
    but what keeps reachable boxes from being freed is kept. */
module Hazards {
  import opened Graph
  import opened WeakTables
  import opened Heaps
  import opened HeapCounts
  import opened Garbage
  import opened Panics
  import opened Coverage
  import opened HeapRuns

  // ----- ordinary steps keep the group apart --------------------------------------------------------------

  /** Whatever P covers, an edge into the list starts in the list. */
  lemma ListIsPredecessorClosed<T>(h: Heap<T>, a: T, b: T)
    requires h.Typed() && h.NoDangling() && h.Conserved() && h.p <= h.kids.Keys
    requires a in h.kids && b in h.kids[a] && b in Collectable(h.kids, h.rc, h.p)
    ensures a in Collectable(h.kids, h.rc, h.p)
  {
    DiscoveredIsAllocated(h);
    var r := Reach(h.kids, h.p);
    assert r * h.kids.Keys == r;
    if a !in r {
      OutsideEdge(h.kids, r, a, b);
    }
  }

  lemma BeginPassKeepsApart<T>(h: Heap<T>)
    requires h.Sound() && Enabled(h, BeginPass)
    ensures Apply(h, BeginPass).Apart()
  {
    NothingReachableIsCollected(h);
    forall a, b | a in h.kids && b in h.kids[a] && b in Collectable(h.kids, h.rc, h.p)
      ensures a in Collectable(h.kids, h.rc, h.p)
    {
      ListIsPredecessorClosed(h, a, b);
    }
  }

  lemma QuietKeepsApart<T>(h: Heap<T>, step: Step<T>)
    requires h.Typed() && h.Apart() && Enabled(h, step) && Quiet(step)
    requires !step.BeginPass? && !step.Requeue? && !step.StartDealloc? && !step.EndPass? && !step.Finalize?
    ensures Apply(h, step).Apart()
  {
    hide Heap.Accessible, WeakTable.Enabled, WeakTable.Apply;
    match step {
      case MarkAlive(_) =>
      case FinalizeAgain(_) =>
      case Weak(_) =>
      case SetFlags(_, _, _) =>
    }
  }

  lemma PhaseKeepsApart<T>(h: Heap<T>, step: Step<T>)
    requires h.Typed() && h.Placed() && h.Apart() && Enabled(h, step)
    requires step.Requeue? || step.StartDealloc? || step.EndPass? || step.Finalize?
    ensures Apply(h, step).Apart()
  {
    match step {
      case Requeue =>
      case StartDealloc =>
      case EndPass =>
      case Finalize(_) =>
    }
  }

  lemma DropKeepsApart<T>(h: Heap<T>, step: Step<T>)
    requires h.Typed() && h.Placed() && h.Apart() && Enabled(h, step)
    requires step.Lose? || step.Bury? || step.Detach? || step.Free?
    ensures Apply(h, step).Apart()
  {
    match step {
      case Lose(_) =>
      case Bury(_) =>
      case Detach(_) =>
      case Free(_) =>
    }
  }

  lemma ProgramKeepsApart<T>(h: Heap<T>, step: Step<T>)
    requires h.Typed() && Enabled(h, step)
    requires !Quiet(step) && !step.Detach? && !step.Free? && !step.Lose? && !step.Bury?
    ensures Apply(h, step).Apart()
  {
    ProgramKeepsDoomed(h, step);
  }

  lemma StepKeepsApart<T>(h: Heap<T>, step: Step<T>)
    requires h.Sound() && Enabled(h, step)
    ensures Apply(h, step).Apart()
  {
    if step.BeginPass? {
      BeginPassKeepsApart(h);
    } else if step.Requeue? || step.StartDealloc? || step.EndPass? || step.Finalize? {
      PhaseKeepsApart(h, step);
    } else if Quiet(step) {
      QuietKeepsApart(h, step);
    } else if step.Lose? || step.Bury? || step.Detach? || step.Free? {
      DropKeepsApart(h, step);
    } else {
      ProgramKeepsApart(h, step);
    }
  }

  /** No step needs more than `Sound` to keep it. */
  lemma StepKeepsSound<T>(h: Heap<T>, step: Step<T>)
    requires h.Sound() && Enabled(h, step)
    ensures Apply(h, step).Sound()
  {
    StepKeepsTyped(h, step);
    StepKeepsNoDangling(h, step);
    StepKeepsConserved(h, step);
    StepKeepsPlaced(h, step);
    StepKeepsApart(h, step);
    StepKeepsTable(h, step);
  }

  // ----- code inside of a group deallocation --------------------------------------------------------------

  /** The same heap for code that may run finalizers. */
  ghost function Inside<T>(h: Heap<T>): Heap<T> { h.(phase := Phase.Finalizing) }

  /** Such code does not get hold of the members of the group, nor of the `Cc`s that their drop glue owns. */
  ghost predicate Avoids<T>(h: Heap<T>, step: Step<T>)
    requires h.Typed() && h.phase.Deallocating? && Enabled(Inside(h), step)
  {
    match step
    case New(_, fields) => multiset(fields) <= h.pending - h.phase.outer && Elements(multiset(fields)) !! h.list
    case Clone(n) => n in Reach(h.kids, h.Roots() - h.list)
    case Upgrade(_) => true
    case MarkAlive(n) => n in Reach(h.kids, h.Roots() - h.list)
    case Store(x, n) => x in Reach(h.kids, Elements(h.handles - multiset{n} + h.pending) - h.list)
    case Take(x, _) => x in Reach(h.kids, h.Roots() - h.list)
    case Hide(_) => true
    case Show(_) => true
    case Release(_) => true
    case Finalize(n) => n !in h.list && Dropping(h, n)
    case Detach(n) => n !in h.list && Dropping(h, n)
    case Bury(n) => n !in h.list && Dropping(h, n)
    // the rest is as it is anywhere, or does not happen
    case Unwrap(_) => false
    case FinalizeAgain(_) => false
    case Weak(_) => false
    case Lose(_) => false
    case Free(_) => false
    case SetFlags(_, _, _) => false
    case BeginPass => false
    case Requeue => false
    case StartDealloc => false
    case EndPass => false
  }

  ghost predicate MayInGroup<T>(h: Heap<T>, step: Step<T>)
    requires h.Typed()
  {
    h.phase.Deallocating? && Enabled(Inside(h), step) && Avoids(h, step)
  }

  ghost function DoneInGroup<T>(h: Heap<T>, step: Step<T>): Heap<T>
    requires h.Typed() && MayInGroup(h, step)
  {
    Apply(Inside(h), step).(phase := h.phase)
  }

  /** What it can get hold of is live and outside of the group. */
  lemma AvoidingIsLive<T>(h: Heap<T>)
    requires h.Sound() && h.phase.Deallocating?
    ensures Reach(h.kids, h.Roots() - h.list) <= h.Live() - h.list
  {
    forall a, b | a in h.Live() - h.list && a in h.kids && b in h.kids[a]
      ensures b in h.Live() - h.list
    {
      OutMember(h.kids, h.kids.Keys, b);
      assert h.rc[b] > 0;
    }
    forall n | n in h.Roots() - h.list
      ensures n in h.Live()
    {
      assert h.rc[n] > 0;
    }
    ReachLeast(h.kids, h.Roots() - h.list, h.Live() - h.list);
  }

  lemma InGroupCounts<T>(h: Heap<T>, step: Step<T>)
    requires h.Sound() && MayInGroup(h, step)
    ensures DoneInGroup(h, step).Typed() && DoneInGroup(h, step).NoDangling() && DoneInGroup(h, step).Conserved()
    ensures DoneInGroup(h, step).w.Valid(DoneInGroup(h, step).kids.Keys)
  {
    hide Apply, Enabled;
    assert Countable(Inside(h), step);
    StepKeepsTyped(Inside(h), step);
    StepKeepsNoDangling(Inside(h), step);
    StepKeepsConserved(Inside(h), step);
    StepKeepsTable(Inside(h), step);
  }

  lemma CreatedKeepsPlaced<T>(h: Heap<T>, n: T, fields: seq<T>)
    requires h.Placed() && h.phase.Deallocating? && n !in h.kids && h.phase.outer <= h.pending - multiset(fields)
    ensures Created(h, n, fields).Placed()
  {}

  lemma CreatedKeepsApart<T>(h: Heap<T>, n: T, fields: seq<T>)
    requires h.Placed() && h.Apart() && h.phase.Deallocating? && n !in h.kids
    requires Elements(multiset(fields)) !! h.list
    ensures Created(h, n, fields).Apart()
  {
    forall b | b in fields
      ensures b !in h.list
    {
      assert b in multiset(fields);
    }
  }

  lemma NewInGroup<T>(h: Heap<T>, n: T, fields: seq<T>)
    requires h.Sound() && MayInGroup(h, New(n, fields))
    ensures DoneInGroup(h, New(n, fields)).Placed() && DoneInGroup(h, New(n, fields)).Apart()
  {
    hide Heap.NoDangling, Heap.Conserved, WeakTable.Valid, Heap.Placed, Heap.Apart;
    assert h.phase.outer <= h.pending by { PlacedOuter(h); }
    CreatedKeepsPlaced(h, n, fields);
    CreatedKeepsApart(h, n, fields);
  }

  lemma PlacedOuter<T>(h: Heap<T>)
    requires h.Placed() && h.phase.Deallocating?
    ensures h.phase.outer <= h.pending
  {}

  lemma AddInGroup<T>(h: Heap<T>, step: Step<T>)
    requires h.Sound() && MayInGroup(h, step) && (step.Clone? || step.Upgrade?)
    ensures DoneInGroup(h, step).Placed() && DoneInGroup(h, step).Apart()
  {
    AvoidingIsLive(h);
    assert h.rc[step.n] > 0 && step.n !in h.list;
  }

  /** Fields of a live box outside of the group may change, if no member is put into them or held. */
  lemma RewiredKeepsApart<T>(h: Heap<T>, x: T, fields: seq<T>, handles: multiset<T>)
    requires h.Placed() && h.Apart() && h.phase.Deallocating? && x in h.Live() - h.list
    requires (forall b | b in fields :: b !in h.list) && Elements(handles) !! h.list
    ensures h.(kids := h.kids[x := fields], handles := handles).Placed()
    ensures h.(kids := h.kids[x := fields], handles := handles).Apart()
  {}

  lemma HeldIsOutside<T>(h: Heap<T>)
    requires h.Apart() && h.phase.Deallocating?
    ensures Elements(h.handles) !! h.list
    ensures forall a, b | a in h.kids && a !in h.list && b in h.kids[a] :: b !in h.list
  {
    assert Elements(h.handles) <= h.Survivors();
  }

  lemma StoreInGroup<T>(h: Heap<T>, x: T, n: T)
    requires h.Sound() && MayInGroup(h, Store(x, n))
    ensures DoneInGroup(h, Store(x, n)).Placed() && DoneInGroup(h, Store(x, n)).Apart()
  {
    hide Heap.Placed, Heap.Apart, Heap.NoDangling, Heap.Conserved, WeakTable.Valid;
    AvoidingIsLive(h);
    ReachMono(h.kids, Elements(h.handles - multiset{n} + h.pending) - h.list, h.Roots() - h.list);
    HeldIsOutside(h);
    RewiredKeepsApart(h, x, h.kids[x] + [n], h.handles - multiset{n});
  }

  lemma TakeInGroup<T>(h: Heap<T>, x: T, i: nat)
    requires h.Sound() && MayInGroup(h, Take(x, i))
    ensures DoneInGroup(h, Take(x, i)).Placed() && DoneInGroup(h, Take(x, i)).Apart()
  {
    hide Heap.Placed, Heap.Apart, Heap.NoDangling, Heap.Conserved, WeakTable.Valid;
    AvoidingIsLive(h);
    HeldIsOutside(h);
    RewiredKeepsApart(h, x, h.kids[x][..i] + h.kids[x][i + 1..], h.handles + multiset{h.kids[x][i]});
  }

  lemma HiddenKeepsApart<T>(h: Heap<T>, n: T)
    requires h.Placed() && h.Apart() && h.phase.Deallocating? && n in h.rc && n in h.kids && n !in h.list + h.p
    requires h.kids[n] == [] && h.rc[n] == 1
    ensures h.(rc := h.rc[n := 0], handles := h.handles - multiset{n}, building := h.building + {n}).Placed()
    ensures h.(rc := h.rc[n := 0], handles := h.handles - multiset{n}, building := h.building + {n}).Apart()
  {}

  lemma ShownKeepsApart<T>(h: Heap<T>, n: T)
    requires h.Placed() && h.Apart() && h.phase.Deallocating? && n in h.building
    ensures h.(rc := h.rc[n := 1], handles := h.handles + multiset{n}, building := h.building - {n}).Placed()
    ensures h.(rc := h.rc[n := 1], handles := h.handles + multiset{n}, building := h.building - {n}).Apart()
  {}

  lemma BuildInGroup<T>(h: Heap<T>, step: Step<T>)
    requires h.Sound() && MayInGroup(h, step) && (step.Hide? || step.Show?)
    ensures DoneInGroup(h, step).Placed() && DoneInGroup(h, step).Apart()
  {
    hide Heap.Placed, Heap.Apart, Heap.NoDangling, Heap.Conserved, WeakTable.Valid;
    match step {
      case Hide(n) => HiddenKeepsApart(h, n);
      case Show(n) => ShownKeepsApart(h, n);
    }
  }

  lemma ReleaseInGroup<T>(h: Heap<T>, step: Step<T>)
    requires h.Sound() && MayInGroup(h, step) && (step.MarkAlive? || step.Release? || step.Finalize?)
    ensures DoneInGroup(h, step).Placed() && DoneInGroup(h, step).Apart()
  {
    hide Heap.NoDangling, Heap.Conserved, WeakTable.Valid, Heap.Accessible;
    match step {
      case MarkAlive(_) =>
      case Release(_) =>
      case Finalize(_) =>
    }
  }

  lemma DropInGroup<T>(h: Heap<T>, step: Step<T>)
    requires h.Sound() && MayInGroup(h, step) && (step.Detach? || step.Bury?)
    ensures DoneInGroup(h, step).Placed() && DoneInGroup(h, step).Apart()
  {
    hide Heap.NoDangling, Heap.Conserved, WeakTable.Valid;
    match step {
      case Detach(_) =>
      case Bury(_) =>
    }
  }

  /** Code inside of a group deallocation keeps the group apart as well. */
  lemma InGroupKeepsSound<T>(h: Heap<T>, step: Step<T>)
    requires h.Sound() && MayInGroup(h, step)
    ensures DoneInGroup(h, step).Sound()
  {
    InGroupCounts(h, step);
    if step.New? {
      NewInGroup(h, step.n, step.fields);
    } else if step.Clone? || step.Upgrade? {
      AddInGroup(h, step);
    } else if step.Store? {
      StoreInGroup(h, step.x, step.n);
    } else if step.Take? {
      TakeInGroup(h, step.x, step.i);
    } else if step.Hide? || step.Show? {
      BuildInGroup(h, step);
    } else if step.MarkAlive? || step.Release? || step.Finalize? {
      ReleaseInGroup(h, step);
    } else {
      DropInGroup(h, step);
    }
  }

  // ----- runs ---------------------------------------------------------------------------------------------

  /** A heap with the tracing counters that the candidates start the next pass from. */
  datatype State<T> = State(h: Heap<T>, left: multiset<T>)

  datatype Event<T> =
    | Ordinary(step: Step<T>)
    | InGroup(step: Step<T>)
    | Panic(p: set<T>, extra: multiset<T>)   // of `trace`: `p` is still in P, `extra` has been counted

  ghost function Restrict<T>(m: multiset<T>, s: set<T>): (r: multiset<T>)
    ensures r <= m && forall n | n in m :: r[n] == if n in s then m[n] else 0
    decreases |m|
  {
    if Elements(m) <= s then m
    else
      var n :| n in m && n !in s;
      Restrict(m[n := 0], s)
  }

  ghost predicate Happens<T>(s: State<T>, e: Event<T>)
    requires s.h.Typed()
  {
    match e
    case Ordinary(step) => Enabled(s.h, step)
    case InGroup(step) => MayInGroup(s.h, step)
    case Panic(p, extra) =>
      && s.h.phase.Idle? && s.h.collecting && p <= s.h.p
      && extra <= Out(s.h.kids, Reach(s.h.kids, s.h.p) * s.h.kids.Keys)
  }

  /** Both tracing phases, with counters that do not start at zero. */
  ghost function BegunAfter<T>(h: Heap<T>, left: multiset<T>): Heap<T>
    requires h.Typed()
  {
    h.(list := CollectableAfter(h.kids, h.rc, h.p, left), p := {}, phase := Listed)
  }

  /** A box that enters P gets a zero counter, and one that leaves it is reset before it is counted again. */
  ghost function After<T>(s: State<T>, e: Event<T>): State<T>
    requires s.h.Typed() && Happens(s, e)
  {
    match e
    case Ordinary(step) =>
      var h' := if step.BeginPass? then BegunAfter(s.h, s.left) else Apply(s.h, step);
      State(h', Restrict(s.left, s.h.p * h'.p))
    case InGroup(step) =>
      var h' := DoneInGroup(s.h, step);
      State(h', Restrict(s.left, s.h.p * h'.p))
    case Panic(p, extra) => State(s.h.(p := p), Restrict(s.left + extra, p))
  }

  /** The condition of `ListAfterPanicIff`, for each pass that begins. */
  ghost predicate Harmless<T>(s: State<T>, e: Event<T>)
    requires s.h.Typed()
  {
    e == Ordinary(BeginPass) ==>
      && Within(s.h.kids, s.h.rc, s.h.p, s.left)
      && Masked(s.h.kids, s.h.rc, s.h.p, s.left) <= Reach(s.h.kids, TracedRootsAfter(s.h.kids, s.h.rc, s.h.p, s.left))
  }

  ghost predicate HazardRun<T>(s: State<T>, events: seq<Event<T>>, s': State<T>)
    decreases |events|
  {
    if events == [] then s' == s
    else s.h.Typed() && Happens(s, events[0]) && HazardRun(After(s, events[0]), events[1..], s')
  }

  ghost predicate HarmlessRun<T>(s: State<T>, events: seq<Event<T>>, s': State<T>)
    decreases |events|
  {
    if events == [] then s' == s
    else
      && s.h.Typed() && Happens(s, events[0]) && Harmless(s, events[0])
      && HarmlessRun(After(s, events[0]), events[1..], s')
  }

  lemma BegunIsBegun<T>(h: Heap<T>, left: multiset<T>)
    requires h.Typed() && Harmless(State(h, left), Ordinary(BeginPass))
    ensures BegunAfter(h, left) == Begun(h)
  {
    ListAfterPanicIff(h.kids, h.rc, h.p, left);
  }

  lemma PanicKeepsSound<T>(h: Heap<T>, p: set<T>)
    requires h.Sound() && p <= h.p
    ensures h.(p := p).Sound()
  {}

  lemma EventKeepsSound<T>(s: State<T>, e: Event<T>)
    requires s.h.Sound() && Happens(s, e) && Harmless(s, e)
    ensures After(s, e).h.Sound()
  {
    hide Apply, Enabled, Heap.Sound, MayInGroup, DoneInGroup, Harmless, BegunAfter, Begun;
    assert s.h.Typed() by { SoundIsTyped(s.h); }
    match e
    case Ordinary(step) =>
      StepKeepsSound(s.h, step);
      if step.BeginPass? {
        BegunIsBegun(s.h, s.left);
        BeginPassEffect(s.h);
      }
    case InGroup(step) => InGroupKeepsSound(s.h, step);
    case Panic(p, _) => PanicKeepsSound(s.h, p);
  }

  lemma SoundIsTyped<T>(h: Heap<T>)
    requires h.Sound()
    ensures h.Typed()
  {}

  lemma BeginPassEffect<T>(h: Heap<T>)
    requires h.Typed() && Enabled(h, BeginPass)
    ensures Apply(h, BeginPass) == Begun(h)
  {}

  lemma {:induction false} HarmlessRunKeepsSound<T>(s: State<T>, events: seq<Event<T>>, s': State<T>)
    requires s.h.Sound() && HarmlessRun(s, events, s')
    ensures s'.h.Sound()
    decreases |events|
  {
    if events != [] {
      EventKeepsSound(s, events[0]);
      HarmlessRunKeepsSound(After(s, events[0]), events[1..], s');
    }
  }

  ghost function Start<T>(): State<T> { State(Empty(), multiset{}) }

  /** Whatever panics and whatever destructors drop: as long as no pass begins with counters that hide a root,
      every heap is sound, ... */
  lemma HazardousHeapIsSound<T>(events: seq<Event<T>>, s: State<T>)
    requires HarmlessRun(Start(), events, s)
    ensures s.h.Sound()
  {
    EmptyIsValid<T>();
    HarmlessRunKeepsSound(Start(), events, s);
  }

  /** ... no box that the program can reach is freed, and none with a `Cc` left, ... */
  lemma NothingReachableIsFreedEver<T>(events: seq<Event<T>>, s: State<T>, n: T)
    requires HarmlessRun(Start(), events, s) && s.h.Typed() && Happens(s, Ordinary(Free(n)))
    ensures n !in s.h.Reachable() && s.h.References()[n] == 0
  {
    HazardousHeapIsSound(events, s);
    FreedIsUnreachable(s.h, n);
  }

  /** ... and no value is dropped that code outside of its destructor can reach, inside of a group
      deallocation or not. */
  lemma NothingReachableIsDroppedEver<T>(events: seq<Event<T>>, s: State<T>, e: Event<T>, n: T)
    requires HarmlessRun(Start(), events, s) && s.h.Typed() && Happens(s, e)
    requires e == Ordinary(Bury(n)) || e == InGroup(Bury(n))
    ensures n in s.h.list ==> n !in Reach(s.h.kids, s.h.Survivors())
    ensures n !in s.h.list ==> s.h.References()[n] == 1 && n !in After(s, e).h.Reachable()
  {
    HazardousHeapIsSound(events, s);
    EventKeepsSound(s, e);
    if e.InGroup? {
      UnreferencedIsUnreachable(After(s, e).h, n);
    } else {
      DroppedIsUnreachable(s.h, n);
    }
  }

  // ----- events that happen -------------------------------------------------------------------------------

  lemma {:induction false} RunThen<T>(s: State<T>, events: seq<Event<T>>, m: State<T>, e: Event<T>)
    requires HazardRun(s, events, m) && m.h.Typed() && Happens(m, e)
    ensures HazardRun(s, events + [e], After(m, e))
    decreases |events|
  {
    hide Happens, After;
    if events == [] {
      assert HazardRun(After(s, e), [], After(m, e));
      assert [e][1..] == [] && events + [e] == [e];
    } else {
      RunThen(After(s, events[0]), events[1..], m, e);
      assert (events + [e])[0] == events[0] && (events + [e])[1..] == events[1..] + [e];
    }
  }

  /** A run of the machine is such a run, and harmless: without a panic no counter hides a root. */
  lemma {:induction false} MachineRunIsHarmless<T>(h: Heap<T>, steps: seq<Step<T>>, h': Heap<T>)
    returns (events: seq<Event<T>>)
    requires h.Valid() && Run(h, steps, h')
    ensures HarmlessRun(State(h, multiset{}), events, State(h', multiset{}))
    decreases |steps|
  {
    if steps == [] {
      events := [];
    } else {
      StepKeepsValid(h, steps[0]);
      OrdinaryIsHarmless(h, steps[0]);
      events := MachineRunIsHarmless(Apply(h, steps[0]), steps[1..], h');
      events := [Ordinary(steps[0])] + events;
    }
  }

  lemma OrdinaryIsHarmless<T>(h: Heap<T>, step: Step<T>)
    requires h.Valid() && Enabled(h, step)
    ensures Harmless(State(h, multiset{}), Ordinary(step))
    ensures After(State(h, multiset{}), Ordinary(step)) == State(Apply(h, step), multiset{})
  {
    hide Apply, Enabled, Heap.Covered, Heap.Doomed, WeakTable.Valid;
    if step.BeginPass? {
      CountersStartAtZero(h);
      BegunIsBegun(h, multiset{});
      BeginPassEffect(h);
    }
    assert Restrict(multiset{}, h.p * Apply(h, step).p) == multiset{};
  }

  lemma CountersStartAtZero<T>(h: Heap<T>)
    requires h.Typed() && h.NoDangling() && h.Conserved() && h.p <= h.kids.Keys
    ensures Harmless(State(h, multiset{}), Ordinary(BeginPass))
  {
    DiscoveredIsAllocated(h);
    var r := Reach(h.kids, h.p);
    assert r * h.kids.Keys == r && multiset{} + Out(h.kids, r) == Out(h.kids, r);
    OutMono(h.kids, r, h.kids.Keys);
  }

  /** The destructor of a group member drops the last `Cc` to an outside box: the box is freed on the spot. */
  lemma UntracedDropFrees<T>(s: State<T>, n: T) returns (s': State<T>)
    requires s.h.Sound() && s.h.phase.Deallocating?
    requires n in s.h.handles && n in s.h.fin && n in s.h.kids && s.h.kids[n] == [] && s.h.rc[n] == 1
    ensures HarmlessRun(s, [InGroup(Release(n)), InGroup(Bury(n)), Ordinary(Free(n))], s')
    ensures s'.h.phase == s.h.phase && s'.h.list == s.h.list && s'.h.kids == s.h.kids - {n}
  {
    hide HarmlessRun, Happens, After, Heap.Sound;
    LastHandle(s.h, n);
    ReleasedInGroup(s, n);
    var r := After(s, InGroup(Release(n)));
    BuriedInGroup(r, n);
    var b := After(r, InGroup(Bury(n)));
    FreedOrdinarily(b, n);
    s' := After(b, Ordinary(Free(n)));
    ThreeEvents(s, InGroup(Release(n)), InGroup(Bury(n)), Ordinary(Free(n)));
  }

  lemma LastHandle<T>(h: Heap<T>, n: T)
    requires h.Sound() && h.phase.Deallocating? && n in h.handles && n in h.kids && h.rc[n] == 1
    ensures n !in h.pending && n !in h.phase.outer && n !in h.list && h.Typed()
  {
    assert n in h.Survivors();
    assert h.handles[n] + h.pending[n] <= h.References()[n];
    assert h.phase.outer[n] <= h.pending[n];
  }

  lemma ReleasedInGroup<T>(s: State<T>, n: T)
    requires s.h.Typed() && s.h.phase.Deallocating? && n in s.h.handles
    ensures Happens(s, InGroup(Release(n)))
    ensures After(s, InGroup(Release(n))).h
         == s.h.(handles := s.h.handles - multiset{n}, pending := s.h.pending + multiset{n})
  {}

  lemma BuriedInGroup<T>(s: State<T>, n: T)
    requires s.h.Typed() && s.h.phase.Deallocating? && n !in s.h.list && n in s.h.fin && n in s.h.kids
    requires s.h.kids[n] == [] && s.h.rc[n] == 1 && s.h.pending[n] > s.h.phase.outer[n]
    ensures Happens(s, InGroup(Bury(n))) && After(s, InGroup(Bury(n))).h == Buried(s.h, n)
  {}

  lemma FreedOrdinarily<T>(s: State<T>, n: T)
    requires s.h.Typed() && n in s.h.dropped && n in s.h.kids && n !in s.h.list
    ensures Happens(s, Ordinary(Free(n))) && After(s, Ordinary(Free(n))).h == Freed(s.h, n)
  {}

  lemma ThreeEvents<T>(s: State<T>, e: Event<T>, f: Event<T>, g: Event<T>)
    requires s.h.Typed() && Happens(s, e) && Harmless(s, e)
    requires After(s, e).h.Typed() && Happens(After(s, e), f) && Harmless(After(s, e), f)
    requires After(After(s, e), f).h.Typed() && Happens(After(After(s, e), f), g) && Harmless(After(After(s, e), f), g)
    ensures HarmlessRun(s, [e, f, g], After(After(After(s, e), f), g))
  {
    hide Happens, After, Harmless;
    var s3 := After(After(After(s, e), f), g);
    assert HarmlessRun(s3, [], s3);
    assert [g][1..] == [] && [f, g][1..] == [g] && [e, f, g][1..] == [f, g];
    assert HarmlessRun(After(After(s, e), f), [g], s3);
    assert HarmlessRun(After(s, e), [f, g], s3);
  }

  // ----- the condition is needed --------------------------------------------------------------------------

  /** A program outside of a collection that uses neither weak pointers nor finalizers. */
  ghost function Plain<T>(kids: Edges<T>, rc: map<T, nat>, handles: multiset<T>, pending: multiset<T>, p: set<T>)
    : (s: State<T>)
    requires rc.Keys == kids.Keys
    ensures s.h.Typed()
  {
    State(Heap(kids, rc, handles, pending, p, {}, Idle, {}, {}, {}, false, false, false,
               WeakTable(multiset{}, map[])), multiset{})
  }

  lemma PlainNew<T>(events: seq<Event<T>>, kids: Edges<T>, rc: map<T, nat>, handles: multiset<T>, pending: multiset<T>,
                    p: set<T>, n: T, fields: seq<T>)
    requires rc.Keys == kids.Keys && HazardRun(Start(), events, Plain(kids, rc, handles, pending, p))
    requires n !in kids && multiset(fields) <= pending
    ensures HazardRun(Start(), events + [Ordinary(New(n, fields))],
      Plain(kids[n := fields], rc[n := 1], handles + multiset{n}, pending - multiset(fields), p))
  {
    hide HazardRun;
    var s := Plain(kids, rc, handles, pending, p);
    RunThen(Start(), events, s, Ordinary(New(n, fields)));
    assert Restrict(multiset{}, p * p) == multiset{};
  }

  lemma PlainClone<T>(events: seq<Event<T>>, kids: Edges<T>, rc: map<T, nat>, handles: multiset<T>,
                      pending: multiset<T>, p: set<T>, n: T)
    requires rc.Keys == kids.Keys && HazardRun(Start(), events, Plain(kids, rc, handles, pending, p))
    requires n in kids && n in handles && rc[n] == 1
    ensures HazardRun(Start(), events + [Ordinary(Clone(n))],
      Plain(kids, rc[n := 2], handles + multiset{n}, pending, p))
  {
    hide HazardRun;
    var s := Plain(kids, rc, handles, pending, p);
    assert n in s.h.Roots() + s.h.list;
    RunThen(Start(), events, s, Ordinary(Clone(n)));
    assert Restrict(multiset{}, p * p) == multiset{};
  }

  lemma PlainRelease<T>(events: seq<Event<T>>, kids: Edges<T>, rc: map<T, nat>, handles: multiset<T>,
                        pending: multiset<T>, p: set<T>, n: T)
    requires rc.Keys == kids.Keys && HazardRun(Start(), events, Plain(kids, rc, handles, pending, p))
    requires n in handles
    ensures HazardRun(Start(), events + [Ordinary(Release(n))],
      Plain(kids, rc, handles - multiset{n}, pending + multiset{n}, p))
  {
    hide HazardRun;
    var s := Plain(kids, rc, handles, pending, p);
    RunThen(Start(), events, s, Ordinary(Release(n)));
    assert Restrict(multiset{}, p * p) == multiset{};
  }

  lemma PlainLose<T>(events: seq<Event<T>>, kids: Edges<T>, rc: map<T, nat>, handles: multiset<T>,
                     pending: multiset<T>, p: set<T>, n: T)
    requires rc.Keys == kids.Keys && HazardRun(Start(), events, Plain(kids, rc, handles, pending, p))
    requires n in kids && n in pending && rc[n] == 2
    ensures HazardRun(Start(), events + [Ordinary(Lose(n))],
      Plain(kids, rc[n := 1], handles, pending - multiset{n}, p + {n}))
  {
    hide HazardRun;
    var s := Plain(kids, rc, handles, pending, p);
    RunThen(Start(), events, s, Ordinary(Lose(n)));
    assert Restrict(multiset{}, p * (p + {n})) == multiset{};
  }

  /** A `Cc` is cloned and the clone is dropped: the box is a candidate. */
  lemma PlainBuffer<T>(events: seq<Event<T>>, kids: Edges<T>, rc: map<T, nat>, handles: multiset<T>,
                       pending: multiset<T>, p: set<T>, n: T) returns (events': seq<Event<T>>)
    requires rc.Keys == kids.Keys && HazardRun(Start(), events, Plain(kids, rc, handles, pending, p))
    requires n in kids && n in handles && rc[n] == 1
    ensures HazardRun(Start(), events', Plain(kids, rc, handles, pending, p + {n}))
  {
    hide HazardRun, Plain;
    PlainClone(events, kids, rc, handles, pending, p, n);
    events' := events + [Ordinary(Clone(n))];
    PlainRelease(events', kids, rc[n := 2], handles + multiset{n}, pending, p, n);
    assert handles + multiset{n} - multiset{n} == handles;
    events' := events' + [Ordinary(Release(n))];
    PlainLose(events', kids, rc[n := 2], handles, pending + multiset{n}, p, n);
    assert rc[n := 2][n := 1] == rc && pending + multiset{n} - multiset{n} == pending;
    events' := events' + [Ordinary(Lose(n))];
  }

  lemma PlainStart<T>()
    ensures HazardRun(Start<T>(), [], Plain(map[], map[], multiset{}, multiset{}, {}))
  {}

  /** `b` is put into a field of `a`, and both are candidates. */
  lemma ChainOfCandidates<T>(a: T, b: T) returns (events: seq<Event<T>>)
    requires a != b
    ensures HazardRun(Start(), events,
      Plain(map[b := [], a := [b]], map[b := 1, a := 1], multiset{a}, multiset{}, {a, b}))
  {
    hide HazardRun, Plain;
    PlainStart<T>();
    var kids: Edges<T>, rc: map<T, nat> := map[b := []], map[b := 1];
    var fields: seq<T> := [];
    PlainNew([], map[], map[], multiset{}, multiset{}, {}, b, fields);
    var empty: Edges<T>, none: map<T, nat> := map[], map[];
    assert empty[b := []] == kids && none[b := 1] == rc;
    assert multiset{} - multiset(fields) == multiset{};
    assert multiset{} + multiset{b} == multiset{b};
    events := PlainBuffer([] + [Ordinary(New(b, fields))], kids, rc, multiset{b}, multiset{}, {}, b);
    PlainRelease(events, kids, rc, multiset{b}, multiset{}, {} + {b}, b);
    events := events + [Ordinary(Release(b))];
    assert multiset{b} - multiset{b} == multiset{} && multiset{} + multiset{b} == multiset{b};
    PlainNew(events, kids, rc, multiset{}, multiset{b}, {} + {b}, a, [b]);
    events := events + [Ordinary(New(a, [b]))];
    assert kids[a := [b]] == map[b := [], a := [b]] && rc[a := 1] == map[b := 1, a := 1];
    assert multiset{b} - multiset([b]) == multiset{} && multiset{} + multiset{a} == multiset{a};
    events := PlainBuffer(events, kids[a := [b]], rc[a := 1], multiset{a}, multiset{}, {} + {b}, a);
    assert {} + {b} + {a} == {a, b};
  }

  lemma CollectingPlain<T>(s: State<T>)
    requires s.h.Typed() && s.h.phase.Idle? && s.left == multiset{} && !s.h.finalizing && !s.h.dropping
    ensures Happens(s, Ordinary(SetFlags(true, false, false)))
    ensures After(s, Ordinary(SetFlags(true, false, false))) == State(s.h.(collecting := true), multiset{})
  {
    assert Restrict(multiset{}, s.h.p * s.h.p) == multiset{};
  }

  /** `trace` panics on `a` once it has reported `b`. */
  lemma TracePanics<T>(s: State<T>, a: T, b: T)
    requires s.h.Typed() && s.h.phase.Idle? && s.h.collecting && s.left == multiset{} && s.h.p == {a, b}
    requires a in s.h.kids && s.h.kids[a] == [b]
    ensures Happens(s, Panic({b}, multiset{b}))
    ensures After(s, Panic({b}, multiset{b})) == State(s.h.(p := {b}), multiset{b})
  {
    var discovered := Reach(s.h.kids, {a, b}) * s.h.kids.Keys;
    assert a in Reach(s.h.kids, {a, b});
    OutMember(s.h.kids, discovered, b);
    assert Restrict(multiset{} + multiset{b}, {b}) == multiset{b};
  }

  lemma PassBegins<T>(s: State<T>)
    requires s.h.Typed() && s.h.phase.Idle? && s.h.collecting
    ensures Happens(s, Ordinary(BeginPass)) && After(s, Ordinary(BeginPass)).h == BegunAfter(s.h, s.left)
  {}

  /** The condition of `HazardousHeapIsSound` is needed: in this run a pass takes a box that the program can
      reach for garbage. */
  lemma ReachableBoxIsListedInARun<T>(a: T, b: T) returns (events: seq<Event<T>>, s: State<T>)
    requires a != b
    ensures HazardRun(Start(), events, s) && s.h.phase.Listed? && s.h.list == {b} && b in s.h.Reachable()
  {
    hide HazardRun, Happens, After, Reach, CollectableAfter;
    events := ChainOfCandidates(a, b);
    s := Plain(map[b := [], a := [b]], map[b := 1, a := 1], multiset{a}, multiset{}, {a, b});
    ReachableBoxIsListed(s.h, a, b);
    CollectingPlain(s);
    RunThen(Start(), events, s, Ordinary(SetFlags(true, false, false)));
    events, s := events + [Ordinary(SetFlags(true, false, false))], After(s, Ordinary(SetFlags(true, false, false)));
    TracePanics(s, a, b);
    RunThen(Start(), events, s, Panic({b}, multiset{b}));
    events, s := events + [Panic({b}, multiset{b})], After(s, Panic({b}, multiset{b}));
    PassBegins(s);
    RunThen(Start(), events, s, Ordinary(BeginPass));
    events, s := events + [Ordinary(BeginPass)], After(s, Ordinary(BeginPass));
  }
}

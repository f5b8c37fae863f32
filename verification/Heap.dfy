/** The collected heap as a transition system.

    A `Heap` is everything the program, the destructors and the collector share: the allocated
    boxes and their fields, the counters, the `Cc`s and `Weak`s that exist, and where the
    collector is.  A `Step` is one atomic action of the code.  Steps of the program, of
    finalizers, of drop glue and of the collector may interleave in every way their guards
    allow, so whatever holds in every reachable heap also holds in the middle of any
    nesting of finalizers and destructors. */
module Heaps {
  import opened Graph
  import opened WeakTables
  import opened CounterMarkers

  /** The largest strong count: 14 bits, with one value reserved. */
  const MAX_COUNT: nat := MAX

  /** Where the collector is.  `outer` are the `Cc`s that enclosing destructors were already
      dropping when the group deallocation started. */
  datatype Phase<T> = Idle | Listed | Finalizing | Deallocating(outer: multiset<T>)

  datatype Heap<T> = Heap(
    kids: Edges<T>,         // the allocated boxes and their traced `Cc` fields
    rc: map<T, nat>,        // strong counters
    handles: multiset<T>,   // `Cc`s held by the program outside of traced fields
    pending: multiset<T>,   // `Cc`s owned by a running call: `Cc::drop`, a destructor, `Cc::new`
    p: set<T>,              // POSSIBLE_CYCLES
    list: set<T>,           // the collector's non-root list
    phase: Phase<T>,
    dropped: set<T>,        // boxes whose value has been dropped, not freed yet
    building: set<T>,       // boxes still under construction in `new_cyclic`
    fin: set<T>,            // boxes that need no finalization
    collecting: bool, finalizing: bool, dropping: bool,
    w: WeakTable<T>
  ) {
    /** Boxes whose value the program may use. */
    ghost function Live(): set<T> { kids.Keys - dropped - building }

    /** Boxes named by a `Cc` that is not stored in a traced field. */
    ghost function Roots(): set<T> { Elements(handles + pending) }

    ghost function Reachable(): set<T> { Reach(kids, Roots()) }

    /** Boxes whose value the program can never use again. */
    ghost function Garbage(): set<T> { Live() - Reachable() }

    /** Boxes that code can get hold of; a finalizer of a listed box starts from that box. */
    ghost function Accessible(): set<T> { Reach(kids, Roots() + list) }

    ghost function AccessibleWithout(n: T): set<T> {
      Reach(kids, Elements(handles - multiset{n} + pending) + list)
    }

    /** Boxes the collector will look at, or that something outside the heap refers to. */
    ghost function Sources(): set<T> { Roots() + p + list }

    ghost function Unfinalized(): set<T> { kids.Keys - fin }

    /** All the `Cc`s that exist. */
    ghost function References(): multiset<T> { handles + pending + Out(kids, kids.Keys) }

    /** `Weak::strong_count(n) > 0`: the test `Weak::upgrade` makes. */
    ghost predicate CanUpgrade(n: T) {
      && n in w.blocks && w.blocks[n].accessible
      && n in rc && rc[n] > 0 && n !in dropped && !(n in list && dropping)
    }

    // ----- what every reachable heap satisfies --------------------------------------------------

    ghost predicate Typed() { rc.Keys == kids.Keys }

    /** Every `Cc` names an allocated box. */
    ghost predicate NoDangling() {
      && Closed(kids, kids.Keys)
      && Roots() <= kids.Keys
    }

    /** Where a box is, what state its value is in and what the collector is doing agree. */
    ghost predicate Placed() {
      && p <= Live() && list <= kids.Keys - building && p !! list
      && dropped <= kids.Keys && building <= kids.Keys && dropped !! building && fin <= kids.Keys
      && (forall n | n in dropped + building :: n in kids && kids[n] == [])
      && (forall n | n in building + (dropped - list) :: n in rc && rc[n] == 0)
      && (!phase.Deallocating? ==> dropped !! list)
      && (phase.Idle? ==> list == {})
      && (!phase.Idle? ==> collecting)
      && (phase.Deallocating? ==> dropping && phase.outer <= pending && list <= fin)
    }

    /** A strong counter is the number of `Cc`s to the box, and fits its 14 bits. */
    ghost predicate Conserved() {
      forall n | n in kids :: n in rc && rc[n] == References()[n] <= MAX_COUNT
    }

    /** Every live box is reachable from a `Cc` held outside of the heap or is a candidate,
        or is reachable from a candidate. */
    ghost predicate Covered() {
      Live() <= Reach(kids, Sources())
    }

    /** The `Cc`s that existed when the group was condemned: they all survive it. */
    ghost function Survivors(): set<T> {
      Elements(if phase.Deallocating? then handles + phase.outer else handles + pending)
    }

    /** Once the list is settled no surviving `Cc` and no field of a box outside of the list names a listed
        box. */
    ghost predicate Apart() {
      phase.Listed? || phase.Deallocating? ==>
        && Survivors() !! list
        && (forall a, b | a in kids && a !in list && b in kids[a] :: b !in list)
    }

    /** ... and every other live box is reachable from the survivors. */
    ghost predicate Doomed() {
      Apart() && (phase.Listed? || phase.Deallocating? ==> Live() - list <= Reach(kids, Survivors()))
    }

    /** What keeps boxes from being freed too early, whether or not garbage is found. */
    ghost predicate Sound() {
      Typed() && NoDangling() && Placed() && Conserved() && Apart() && w.Valid(kids.Keys)
    }

    ghost predicate Valid() {
      Typed() && NoDangling() && Placed() && Conserved() && Covered() && Doomed() && w.Valid(kids.Keys)
    }
  }

  ghost function Elements<T>(m: multiset<T>): set<T> { set n | n in m }

  /** The heap of a program that has not started. */
  ghost function Empty<T>(): Heap<T> {
    Heap(map[], map[], multiset{}, multiset{}, {}, {}, Idle, {}, {}, {}, false, false, false, WeakTable(multiset{},
      map[]))
  }

  /** What the two tracing phases leave in the non-root list, as a function of what they look at:
      the candidates, the fields and the counters.  Objects whose counter exceeds the references
      held by the discovered objects are roots; what they reach is alive. */
  ghost function Collectable<T>(kids: Edges<T>, rc: map<T, nat>, p: set<T>): set<T>
    requires rc.Keys == kids.Keys
  {
    Reach(kids, p) - Reach(kids, TracedRoots(kids, rc, p))
  }

  ghost function TracedRoots<T>(kids: Edges<T>, rc: map<T, nat>, p: set<T>): set<T>
    requires rc.Keys == kids.Keys
  {
    var discovered := Reach(kids, p) * kids.Keys;
    set n | n in discovered && rc[n] != Out(kids, discovered)[n]
  }

  /** The same when the tracing counters of the candidates do not start at zero but at `left`. */
  ghost function CollectableAfter<T>(kids: Edges<T>, rc: map<T, nat>, p: set<T>, left: multiset<T>): set<T>
    requires rc.Keys == kids.Keys
  {
    Reach(kids, p) - Reach(kids, TracedRootsAfter(kids, rc, p, left))
  }

  ghost function TracedRootsAfter<T>(kids: Edges<T>, rc: map<T, nat>, p: set<T>, left: multiset<T>): set<T>
    requires rc.Keys == kids.Keys
  {
    var discovered := Reach(kids, p) * kids.Keys;
    set n | n in discovered && rc[n] != (left + Out(kids, discovered))[n]
  }

  // ----- steps --------------------------------------------------------------------------------------

  datatype Step<T> =
    // the program and finalizers
    | New(n: T, fields: seq<T>)   // with a value that holds `Cc`s owned by the call
    | Clone(n: T)
    | Upgrade(n: T)               // a `Weak::upgrade` that succeeds
    | MarkAlive(n: T)
    | Store(x: T, n: T)           // move a held `Cc` to `n` into a field of `x`
    | Take(x: T, i: nat)          // move it out again
    | Unwrap(n: T)                // `try_unwrap` gives up a box whose fields have been taken
    | FinalizeAgain(n: T)
    | Hide(n: T)                  // `new_cyclic`: the box waits for its value
    | Show(n: T)                  // `new_cyclic`: the box gets its value, the fields are stored
    | Release(n: T)               // hand a held `Cc` to `Cc::drop`, or in a value to `Cc::new`
    // weak pointers
    | Weak(s: WeakStep<T>)
    // drop glue
    | Lose(n: T)                  // not the last `Cc`, or a box in a list of the collector
    | Finalize(n: T)              // the last `Cc`, or a member of the non-root list
    | Detach(n: T)                // move the fields out of the value to drop them
    | Bury(n: T)                  // the value is being dropped
    | Free(n: T)                  // a box without a value
    | SetFlags(c: bool, f: bool, d: bool)
    // the collector
    | BeginPass                   // both tracing phases
    | Requeue
    | StartDealloc
    | EndPass

  /** Code of the program or of a finalizer can run. */
  ghost predicate UserPhase<T>(h: Heap<T>) { h.phase.Idle? || h.phase.Finalizing? }

  ghost predicate NoGuards<T>(h: Heap<T>) {
    h.phase.Idle? && !h.collecting && !h.finalizing && !h.dropping
  }

  /** A `Cc` to `n` is owned by the drop glue that is running now. */
  ghost predicate Dropping<T>(h: Heap<T>, n: T) {
    && n in h.kids && n in h.pending && !h.phase.Listed?
    && (h.phase.Deallocating? ==> h.pending[n] > h.phase.outer[n])
  }

  /** `Cc::drop` is dropping the last `Cc` to `n`. */
  ghost predicate LastCc<T>(h: Heap<T>, n: T)
    requires h.Typed()
  {
    UserPhase(h) && Dropping(h, n) && n !in h.list && h.rc[n] == 1
  }

  /** `n` is a member of the group that is being deallocated and has not been dropped. */
  ghost predicate Condemned<T>(h: Heap<T>, n: T) {
    h.phase.Deallocating? && n in h.list && n !in h.dropped
  }

  /** Every member of the list has been dropped, and so have their fields. */
  ghost predicate GroupDropped<T>(h: Heap<T>) {
    h.phase.Deallocating? && h.list <= h.dropped && h.pending == h.phase.outer
  }

  ghost predicate Enabled<T>(h: Heap<T>, step: Step<T>)
    requires h.Typed()
  {
    match step
    case New(n, fields) => UserPhase(h) && n !in h.kids && n !in h.w.blocks && multiset(fields) <= h.pending
    case Clone(n) => UserPhase(h) && n in h.kids && n in h.Accessible() && 0 < h.rc[n] < MAX_COUNT
    case Upgrade(n) => UserPhase(h) && n in h.w.weaks && h.CanUpgrade(n) && h.rc[n] < MAX_COUNT
    case MarkAlive(n) => UserPhase(h) && n in h.Accessible()
    case Store(x, n) => UserPhase(h) && n in h.handles && x in h.kids && x in h.AccessibleWithout(n)
    case Take(x, i) => UserPhase(h) && x in h.kids && x in h.Accessible() && i < |h.kids[x]|
    case Unwrap(n) => NoGuards(h) && n in h.handles && n in h.kids && h.rc[n] == 1 && h.kids[n] == []
    case FinalizeAgain(n) => NoGuards(h) && n in h.kids && n in h.Accessible()
    case Hide(n) =>
      UserPhase(h) && n in h.handles && n in h.kids && h.rc[n] == 1 && h.kids[n] == [] && n !in h.p + h.list
    case Show(n) => UserPhase(h) && n in h.building
    case Release(n) => UserPhase(h) && n in h.handles

    case Weak(s) => h.w.Enabled(s) && (s.Downgrade? ==> s.n in h.kids)

    case Lose(n) => Dropping(h, n) && (n in h.list || h.rc[n] != 1)
    case Finalize(n) =>
      && n !in h.fin && h.finalizing
      && if n in h.list then h.phase.Listed? || h.phase.Finalizing?
         else LastCc(h, n)
    case Detach(n) => n in h.kids && n in h.fin && (Condemned(h, n) || LastCc(h, n))
    case Bury(n) => n in h.kids && n in h.fin && (Condemned(h, n) || LastCc(h, n)) && h.kids[n] == []
    case Free(n) => n in h.dropped + h.building && n in h.kids && (n in h.list ==> GroupDropped(h))
    case SetFlags(c, f, d) =>
      && (h.phase.Idle? || c == h.collecting)
      && (h.phase.Deallocating? ==> d)

    case BeginPass => h.phase.Idle? && h.collecting
    case Requeue => h.phase.Finalizing?
    case StartDealloc => h.phase.Listed? && h.dropping && h.list <= h.fin
    case EndPass => h.list == {} && (h.phase.Listed? || GroupDropped(h))
  }

  /** A new box; while something is being finalized its value will not be. */
  ghost function Created<T>(h: Heap<T>, n: T, fields: seq<T>): Heap<T> {
    h.(kids := h.kids[n := fields], rc := h.rc[n := 1], handles := h.handles + multiset{n},
       pending := h.pending - multiset(fields), fin := if h.finalizing then h.fin + {n} else h.fin)
  }

  /** One more `Cc` to `n`. */
  ghost function AddReference<T>(h: Heap<T>, n: T): Heap<T>
    requires n in h.rc
  {
    h.(rc := h.rc[n := h.rc[n] + 1], handles := h.handles + multiset{n})
  }

  /** `decrement_counter` leaves a zero alone. */
  function Decremented(c: nat): nat { if c == 0 then 0 else c - 1 }

  /** A `Cc` owned by drop glue goes away without being the last one. */
  ghost function Lost<T>(h: Heap<T>, n: T): Heap<T>
    requires n in h.rc
  {
    h.(rc := h.rc[n := Decremented(h.rc[n])], pending := h.pending - multiset{n},
       p := if n in h.list then h.p else h.p + {n})
  }

  ghost function Detached<T>(h: Heap<T>, n: T): Heap<T>
    requires n in h.kids
  {
    h.(kids := h.kids[n := []], pending := h.pending + multiset(h.kids[n]))
  }

  ghost function Buried<T>(h: Heap<T>, n: T): Heap<T> {
    if n in h.list then h.(dropped := h.dropped + {n})
    else h.(rc := h.rc[n := 0], pending := h.pending - multiset{n}, p := h.p - {n}, dropped := h.dropped + {n})
  }

  ghost function GivenUp<T>(h: Heap<T>, n: T): Heap<T> {
    h.(rc := h.rc[n := 0], p := h.p - {n}, dropped := h.dropped + {n}, handles := h.handles - multiset{n})
  }

  ghost function Freed<T>(h: Heap<T>, n: T): Heap<T> {
    h.(kids := h.kids - {n}, rc := h.rc - {n}, list := h.list - {n}, dropped := h.dropped - {n},
       building := h.building - {n}, fin := h.fin - {n}, w := h.w.BoxFreed(n))
  }

  ghost function Begun<T>(h: Heap<T>): Heap<T>
    requires h.Typed()
  {
    h.(list := Collectable(h.kids, h.rc, h.p), p := {}, phase := Listed)
  }

  ghost function Requeued<T>(h: Heap<T>): Heap<T> { h.(p := h.list + h.p, list := {}, phase := Idle) }

  ghost function Condemning<T>(h: Heap<T>): Heap<T> { h.(phase := Deallocating(h.pending)) }

  ghost function Ended<T>(h: Heap<T>): Heap<T> { h.(phase := Idle) }

  ghost function Apply<T>(h: Heap<T>, step: Step<T>): Heap<T>
    requires h.Typed() && Enabled(h, step)
  {
    match step
    case New(n, fields) => Created(h, n, fields)
    case Clone(n) => AddReference(h, n)
    case Upgrade(n) => AddReference(h, n)
    case MarkAlive(n) => h.(p := h.p - {n})
    case Store(x, n) => h.(kids := h.kids[x := h.kids[x] + [n]], handles := h.handles - multiset{n})
    case Take(x, i) =>
      h.(kids := h.kids[x := h.kids[x][..i] + h.kids[x][i + 1..]],
         handles := h.handles + multiset{h.kids[x][i]})
    case Unwrap(n) => GivenUp(h, n)
    case FinalizeAgain(n) => h.(fin := h.fin - {n})
    case Hide(n) => h.(rc := h.rc[n := 0], handles := h.handles - multiset{n}, building := h.building + {n})
    case Show(n) => h.(rc := h.rc[n := 1], handles := h.handles + multiset{n}, building := h.building - {n})
    case Release(n) => h.(handles := h.handles - multiset{n}, pending := h.pending + multiset{n})

    case Weak(s) => h.(w := h.w.Apply(s))

    case Lose(n) => Lost(h, n)
    case Finalize(n) =>
      h.(fin := h.fin + {n}, phase := if n in h.list then Phase.Finalizing else h.phase)
    case Detach(n) => Detached(h, n)
    case Bury(n) => Buried(h, n)
    case Free(n) => Freed(h, n)
    case SetFlags(c, f, d) => h.(collecting := c, finalizing := f, dropping := d)

    case BeginPass => Begun(h)
    case Requeue => Requeued(h)
    case StartDealloc => Condemning(h)
    case EndPass => Ended(h)
  }
}

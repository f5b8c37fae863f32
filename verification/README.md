# rust-cc, modelled and proved in Dafny

rust-cc is a cycle-collecting smart pointer. A `Cc` counts references; a box that loses a reference without
dying is buffered in `POSSIBLE_CYCLES` (P). A collection traces the objects reachable from P twice: the first
phase counts, in a second counter, the references it sees, and sorts the boxes by whether it saw all of them
(`non_root_list`) or not (`root_list`); the second takes whatever the roots reach back out of the non-root list.
What remains is finalized and put back, or dropped as a group and freed. The collector never sees the program's
own pointers and never scans the whole heap. This project proves that it nevertheless frees exactly the garbage,
over whole runs, and that nothing reachable is ever freed.

## Layers

**The heap as a transition system** (`Graph`, `WeakTable`, `Heap`, `HeapCounts`, `Garbage`, `Coverage`,
`HeapRuns`, `Logs`, `Cascade`, `Panic`, `Hazard`). A `Heap` is what program, destructors and collector share: boxes and
their fields, counters, the `Cc`s and weak pointers that exist, P, the collector's list, flags. A `Step` is one
indivisible action; steps interleave in every way their guards allow, so an invariant of all reachable heaps also
holds in the middle of any nesting of finalizers and destructors. `Heap.Valid` says: counters equal the number of
`Cc`s (`Conserved`), every `Cc` names an allocated box (`NoDangling`), every live box is reachable from a held
`Cc` or from a candidate (`Covered`), a group that is condemned is out of reach of everything that survives it
(`Doomed`), places, flags and value states agree (`Placed`), metadata blocks count their weak pointers.

`Hazard` adds two kinds of events to these runs: a `trace` that panics, after which some candidates are out of P
and the tracing counters of others do not start at zero; and whatever runs when the destructor of a group member
drops an untraced `Cc`, finalizers and destructors of outside boxes included. `Covered` is lost then, and the rest
of `Valid` (`Heap.Sound`, with `Apart` for `Doomed`) is what safety needs.

**The code on cells, links and lists** (`CounterMarker`, `WeakMarker`, `Lists`, `Tracing`, `Runtime`, `Effects`,
`Cc`, `Pointers`, `Weak`, `Collector`, `Config`). Boxes are objects with `next`, `prev`, two counter cells and a
metadata pointer; P, the two lists and the queue are intrusive containers over the same links. Methods follow the
source branch by branch. `Runtime.Synced(h)` says that cells, links, tags, flags, byte count and metadata blocks
stand for the heap `h`; the heap is passed along as a ghost value.

**Between the two** (`DropSteps`, `CollectSteps`). Each part of `Cc::drop` and of a pass is a run of the machine,
so every method also returns the ghost steps it amounts to. Methods about one call say what the new heap is.
Calls nest as in the source: a finalizer may drop, create and collect, a new box may start a collection, and a
collection inside of a finalizer or of a destructor restores the flags it found.

What the program does is kept apart from what the library does. Whether `trace` may panic, which closures of
`new_cyclic` panic and which finalizers and closures do nothing are constants of the `Runtime`, which no method can
change. Finalizers and closures write a log of their calls and of the steps they make themselves; every method that
drops or collects says that its steps outside of that log are drop glue or the collector's (`Logs.Logged`).

**Programs** (`Program`). A loop over arbitrary library calls with arbitrary arguments stands for any code that
uses the library. It meets the contract that is assumed of finalizers, and started in the initial state it shows
that every session is a run of the machine from the empty heap: what is proved of all such runs holds for every
state that the code reaches.

## Main results

* One pass is exact: the non-root list after both phases is the set of live objects that no held `Cc` reaches
  (`Garbage.CollectableIsGarbage`), and the imperative two-phase algorithm computes it, whatever the order of P and
  of the fields (`Tracing.Context.Trace`), and traces each box once in each phase (`Tracing.Context.TraceCounting`,
  `Tracing.Context.TraceRoots`).
* Completeness: candidates cover the garbage in every reachable heap (`Coverage.StepKeepsCovered`); a collection
  frees exactly the garbage, in at most three passes, if no finalizer of the garbage does anything, and leaves no
  garbage and no candidates whatever the finalizers do, unless at least 9 of its 10 passes found something to
  finalize; it fails exactly if a `trace` has panicked (`Collector.Collect`).
* Safety over whole runs: `HeapRuns.NothingReachableIsFreed`, `HeapRuns.NothingReachableIsDropped`,
  `HeapRuns.UpgradeAgreesWithLiveness`, `HeapRuns.BlockFreedWithLastUser`.
* The same safety over runs in which `trace` panics and destructors of a group drop untraced `Cc`s, as long as no
  pass begins with counters that hide a root (`Hazards.NothingReachableIsFreedEver`,
  `Hazards.NothingReachableIsDroppedEver`), and a run in which one does (`Hazards.ReachableBoxIsListedInARun`).
* Every session of a program is a run of the machine (`Programs.Session`), and every finalizer that returns does
  what is assumed of finalizers (`Programs.AnyFinalizer`).
* `Cc::drop` with its recursion terminates and, if no finalizer does anything, frees exactly the least set of boxes
  that are left without a `Cc` (`Ccs.DropCc`, `Cascades.CascadeIsExact`); whatever finalizers do, a box that its own
  has not resurrected is freed.
* Finalizers are called exactly for the boxes that the steps mark as finalized, so in every session none is called
  twice unless the program asks for it (`Programs.Session`, `Logs.RunCallsOnce`).
* Growing the threshold ends if and only if fewer than 25 * 2^59 bytes are allocated (`Configs.GrowthEndsIff`).
* Two claims of the source are false, and hold exactly under the conditions of `Configs.FitsIff` and
  `Panics.ListAfterPanicIff`.

## Where the source disagrees with itself

* The module documentation of `src/config.rs:16-17` says that the threshold is halved when the allocated bytes
  *exceed* the threshold times the percentage. The code (`src/config.rs:202`) halves it while they do *not*; the
  model follows the code.
* `src/config.rs:81-82` calls `threshold * percent < allocated < threshold` an invariant. After `adjust` the right
  half holds; the left half holds if and only if some threshold satisfies both, which the least one above the
  allocated bytes then does (`Configs.FitsIff`, `Configs.LeastFits`). For percentages below one half these are the
  bytes above the percentage of the default threshold (`Configs.FitsBelowHalf`); for every percentage it fails when
  a collection ends with nothing allocated (`Configs.NothingAllocatedDoesNotFit`).
* `src/trace.rs:94` says that it is always safe for `trace` to panic. The candidates that are still in P then keep
  the tracing counters that the boxes traced before gave them (`src/cc.rs:636-640`), and neither `add_to_list` nor
  the next collection resets them. The next list is the one it should be if and only if the roots that are still
  recognized reach every box whose counters meet only because of what was left (`Panics.ListAfterPanicIff`);
  otherwise it holds a box that something outside of it names (`Panics.ListedFromOutside`), for instance the only
  field of a box that the program holds (`Collector.ReachableBoxIsListedAfterPanic` for what the code leaves,
  `Hazards.ReachableBoxIsListedInARun` for a whole run).
* `src/config.rs:183` treats a failing `checked_shl(1)` as overflow, but it fails only for shift amounts of 64 and
  more. `Configs.GrowthEndsIff` gives the exact condition under which the loop ends.

## Model

| member | source | states |
|---|---|---|
| Garbage.NothingReachableIsCollected | src/lib.rs:441-523 | nothing a held `Cc` reaches is left in the non-root list, although tracing never sees the held `Cc`s |
| Garbage.TracedRootsAreReachable | src/cc.rs:626-634 | a box whose counters differ after counting is reachable from a held `Cc` |
| Garbage.CollectableIsGarbage | src/lib.rs:441-523 | the boxes left in the non-root list are exactly the live boxes that no held `Cc` reaches |
| Garbage.GarbageIsPredecessorClosed | src/lib.rs:400-410 | every reference into the non-root list comes from inside it |
| Garbage.NoPathToCollected | src/lib.rs:492-510 | no path of fields leads from a held `Cc` to a collected box |
| Garbage.PathToUncollected | src/lib.rs:492-510 | a path of fields leads from a held `Cc` to every live box that is not collected |
| HeapCounts.GroupCountersAreZero | src/lib.rs:417-422 | once every member of a group has been dropped, every member's counter is exactly 0 |
| HeapCounts.FreedIsUnreferenced | src/cc.rs:313-325 | a box is freed only with counter 0 and without fields |
| HeapCounts.FreeKeepsNoDangling | src/utils.rs:18-25 | freeing leaves no `Cc` to the freed box anywhere |
| Coverage.SurvivorsAvoidTheGroup | src/lib.rs:393-410 | while a group is dropped, nothing that survives reaches a member |
| Coverage.OutsidersKeepAReference | src/cc.rs:270-275 | while a group is dropped, no `Cc` that a member held to an outside box is the last one |
| Coverage.NewKeepsCovered | src/cc.rs:52-67 | a new box takes the `Cc`s in its value with it, and everything live stays reachable from a held `Cc` or a candidate |
| Coverage.MarkAliveKeepsCovered | src/cc.rs:168-170 | taking a candidate that the program can get hold of out of P keeps the coverage |
| Coverage.BeginPassKeepsCovered | src/lib.rs:281-288 | emptying P by tracing keeps the coverage, with the non-root list in place of P |
| Coverage.StepKeepsNoDangling | src/cc.rs:248-333 | every step keeps every `Cc` pointing to an allocated box |
| Coverage.StepKeepsConserved | src/cc.rs:211-333 | every step keeps each strong counter equal to the number of `Cc`s, within 14 bits |
| Coverage.StepKeepsPlaced | src/cc.rs:508-555 | every step keeps the place of a box, the state of its value and the collector's phase in agreement |
| Coverage.StepKeepsCovered | src/cc.rs:263-268 | every step keeps each live box reachable from a held `Cc` or from a candidate |
| Coverage.StepKeepsDoomed | src/lib.rs:400-436 | every step keeps the condemned group out of reach of the survivors, and everything else within it |
| Coverage.StepKeepsValid | src/lib.rs:230-439 | every step of program, destructors and collector keeps all invariants |
| HeapRuns.ReachableHeapIsValid | src/lib.rs:230-348 | every heap that any run brings about satisfies all invariants |
| HeapRuns.ProgramRunKeepsPass | src/lib.rs:304-315 | whatever finalizers do, no box becomes finalizable; during a collection the non-root list keeps its members and none is freed |
| HeapRuns.ProgramRunFinalizesNoMember | src/cc.rs:270-275 | whatever finalizers do, no member of the list is finalized by anything but the collector |
| HeapRuns.NothingReachableIsFreed | src/lib.rs:417-436 | in every run, a box is freed only when no `Cc` to it exists and no held `Cc` reaches it |
| HeapRuns.NothingReachableIsDropped | src/cc.rs:298-313 | in every run, a value is dropped only when no code outside of its destructor can reach it |
| HeapRuns.NoCandidatesNoGarbage | src/lib.rs:266-268 | in every run, if P is empty outside of a pass then every live box is reachable from a held `Cc` |
| HeapRuns.GroupFreedNoGarbage | src/lib.rs:412-439 | after the group has been freed every live box is reachable from a held `Cc`, whatever is in P |
| HeapRuns.FinalizingPassFreesNothing | src/lib.rs:317-341 | from the first finalizer of a pass until the list is requeued no step drops or frees a member |
| HeapRuns.ResurrectedIsSpared | src/lib.rs:319-340 | a box that a finalizer made reachable again is not in the list of the next pass |
| HeapRuns.FinalizedAtMostOnce | src/cc.rs:568-580 | a box is finalized once, unless `finalize_again` is called or it is freed |
| Logs.NothingMade | src/cc.rs:248-333 | drop glue and the collector make no `Cc` and leave those that the program holds |
| Logs.FinalizedBefore | src/cc.rs:568-580 | a box is marked as finalized a second time only after `finalize_again` or a free |
| Logs.RunCallsOnce | src/cc.rs:568-580 | between two calls of the finalizer of a box in a run the program has called `finalize_again`, or the box was freed |
| HeapRuns.UpgradeAgreesWithLiveness | src/weak/mod.rs:102-127 | in every run, the test of `upgrade` holds exactly for live boxes with a `Cc` outside of the group being deallocated |
| HeapRuns.BlockFreedWithLastUser | src/cc.rs:466-481 | a step frees a metadata block exactly when neither the box nor a weak pointer to it is left |
| HeapRuns.BlockOutlivesBox | src/cc.rs:442-456 | the block of a box stays until the box is freed, so it is allocated at most once |
| WeakTables.StepKeeps | src/weak/mod.rs:154-189 | weak operations keep each block's counter equal to the number of weak pointers, and its accessible bit equal to the box being allocated |
| Cascades.LastCcCascades | src/cc.rs:298-327 | dropping the last `Cc` frees the box after everything its fields free |
| Cascades.CascadesCompose | src/cc.rs:311-313 | dropping `Cc`s one after the other frees what dropping them together does |
| Cascades.FreedIsLeast | src/cc.rs:277-327 | only boxes that belong to every set closed under losing all `Cc`s are freed |
| Cascades.CascadeIsExact | src/cc.rs:248-333 | if no finalizer does anything, a drop frees exactly the least set of boxes left without a `Cc`; the others that lost one are candidates or listed |
| CounterMarkers.TestsSelect | src/counter_marker.rs:149-198 | each bit test asks for the field it is named after |
| CounterMarkers.FillAndClear | src/counter_marker.rs:130-133 | filling or clearing the counter bits leaves the high bits |
| CounterMarkers.ReplaceMark | src/counter_marker.rs:200-203 | setting the tag leaves the tracing counter |
| CounterMarkers.SetFirstBit | src/counter_marker.rs:207-213 | setting the metadata flag leaves the finalized flag and the counter |
| CounterMarkers.ClearFirstBit | src/counter_marker.rs:207-213 | clearing the metadata flag leaves the finalized flag and the counter |
| CounterMarkers.SetFinalizedBit | src/counter_marker.rs:143-145 | setting the finalized flag leaves the metadata flag and the counter |
| CounterMarkers.ClearFinalizedBit | src/counter_marker.rs:143-145 | clearing the finalized flag leaves the metadata flag and the counter |
| CounterMarkers.CounterMarker.NewWithCounterToOne | src/counter_marker.rs:50-59 | a new box has counter 1, no tag, no metadata, and is finalized only if asked for |
| CounterMarkers.CounterMarker.IncrementCounter | src/counter_marker.rs:62-72 | adds one to the counter alone, and fails exactly at 16382 |
| CounterMarkers.CounterMarker.DecrementCounter | src/counter_marker.rs:75-85 | takes one from the counter alone, and fails exactly at 0 |
| CounterMarkers.CounterMarker.IncrementTracingCounter | src/counter_marker.rs:88-99 | adds one to the tracing counter alone, and fails exactly at 16382 |
| CounterMarkers.CounterMarker.ResetTracingCounter | src/counter_marker.rs:130-133 | clears the tracing counter and keeps the tag |
| CounterMarkers.CounterMarker.SetDropped | src/counter_marker.rs:167-169 | stores the reserved value in the tracing counter and keeps the tag |
| CounterMarkers.CounterMarker.SetMark | src/counter_marker.rs:201-203 | changes the tag alone |
| CounterMarkers.CounterMarker.SetFinalized | src/counter_marker.rs:143-145 | changes the finalized flag alone |
| CounterMarkers.CounterMarker.SetAllocatedForMetadata | src/counter_marker.rs:155-157 | changes the metadata flag alone |
| CounterMarkers.CounterMarker.IsInListOrQueue | src/counter_marker.rs:194-198 | one bit tells lists and queue from P and from no container |
| WeakMarkers.MasksSelect | src/weak/weak_counter_marker.rs:4-5 | the masks select the 15-bit counter and the accessible bit |
| WeakMarkers.SetAndClear | src/weak/weak_counter_marker.rs:74-80 | setting and clearing the accessible bit leaves the counter |
| WeakMarkers.WeakCounterMarker.IncrementCounter | src/weak/weak_counter_marker.rs:42-50 | adds one to the weak counter alone, and fails exactly at 32767 |
| WeakMarkers.WeakCounterMarker.DecrementCounter | src/weak/weak_counter_marker.rs:53-61 | takes one from the weak counter alone, and fails exactly at 0 |
| WeakMarkers.WeakCounterMarker.SetAccessible | src/weak/weak_counter_marker.rs:74-80 | changes the accessible bit alone |
| Lists.Unlink | src/lists.rs:38-70 | takes a box out of the middle or an end of a doubly linked list; both link directions stay consistent |
| Lists.Join | src/lists.rs:315-320 | links two lists into their concatenation |
| Lists.LinkedList.Add | src/lists.rs:22-34 | puts a box without links in front |
| Lists.LinkedList.Remove | src/lists.rs:36-71 | removes exactly the given box, whose links are null afterwards |
| Lists.LinkedList.RemoveFirst | src/lists.rs:73-93 | removes the first box, clears its tag and links, and leaves the other boxes' cells |
| Lists.LinkedList.Drop | src/lists.rs:106-114 | leaves every member without tag and links |
| Lists.PossibleCycles.Add | src/lists.rs:217-231 | puts a box in front and counts it in the size |
| Lists.PossibleCycles.Remove | src/lists.rs:233-270 | removes exactly the given box and keeps the size equal to the length |
| Lists.PossibleCycles.RemoveFirst | src/lists.rs:272-294 | removes the first candidate, clears its tag and links, and keeps the size |
| Lists.PossibleCycles.SwapList | src/lists.rs:329-336 | exchanges the contents of P and of the list |
| Lists.PossibleCycles.MarkSelfAndAppend | src/lists.rs:301-327 | P becomes itself followed by the list, with back-links and size; its members get the tag and a zero tracing counter |
| Lists.LinkedQueue.Add | src/lists.rs:386-399 | puts a box at the end |
| Lists.LinkedQueue.Poll | src/lists.rs:406-426 | takes the first box out, clears its tag and links |
| Lists.LinkedQueue.Drop | src/lists.rs:434-442 | leaves every member without tag and links |
| Tracing.Context.CountListed | src/cc.rs:618-634 | counts a reference to a listed or queued box, and moves it to the non-root list when the counters meet |
| Tracing.Context.CountUnmarked | src/cc.rs:642-648 | counts the first reference to a box and queues it |
| Tracing.Context.CountField | src/lib.rs:461-490 | reporting one more field counts it, and no tracing counter passes the strong counter |
| Tracing.Context.Count | src/cc.rs:610-649 | every tracing counter equals the references seen, and tags, lists and queue agree, after one more reference |
| Tracing.Context.CountBox | src/lib.rs:461-490 | tracing one box adds exactly its references and files it by whether all references to it have been seen |
| Tracing.Context.ResetMark | src/utils.rs:59-64 | when `trace` panics the box in hand ends without tag and links |
| Tracing.Context.CountCandidates | src/lib.rs:447-450 | the first loop empties P, and every candidate has been counted |
| Tracing.Context.CountQueued | src/lib.rs:452-455 | the second loop ends, empties the queue, and loses no counted box |
| Tracing.Context.TraceCounting | src/lib.rs:441-459 | exactly what P reaches has been traced, each box once, and each tracing counter is the number of references from it on top of where it started; it fails exactly if a `trace` panics |
| Tracing.Context.Revive | src/cc.rs:650-662 | a non-root that a live box names is queued; nothing else changes |
| Tracing.Context.RootFields | src/lib.rs:512-523 | after a live box has been traced it names no non-root |
| Tracing.Context.TraceRoots | src/lib.rs:492-510 | the non-root list loses exactly what the roots reach, each box of which has been traced once, and the worklist empties; it fails exactly if a `trace` panics |
| Tracing.Context.Trace | src/lib.rs:281-288 | unless a `trace` panics, the non-root list is the specified set, and P, queue and root list are empty; if one does, every box taken out of P ends without tag and links, and those still in P are counted up by the references seen |
| Tracing.Context.Unwind | src/lists.rs:106-114 | dropping the containers on unwinding leaves their boxes without tag and links |
| Runtimes.Runtime.constructor | src/state.rs:63-76 | the initial state stands for the empty heap, with nothing called, logged or counted |
| Runtimes.TotalSizeWithout | src/state.rs:84-91 | the sum of the sizes of the allocated boxes loses exactly the size of a freed one, so the subtraction cannot underflow |
| Effects.RemoveFromList | src/cc.rs:509-528 | P loses the box if it is a candidate, and cells, tags, links and size still agree |
| Effects.AddToList | src/cc.rs:531-555 | P gains the box, tagged and with a zero tracing counter, unless it is a candidate already |
| Effects.NewBox | src/cc.rs:362-385 | a fresh box with counter 1, counted in the allocated bytes, born finalized while finalizing |
| Effects.DropMetadata | src/cc.rs:468-481 | the block is freed without weak pointers and made inaccessible with them |
| Effects.Dealloc | src/utils.rs:18-25 | the allocated bytes stay the sum of the sizes of the allocated boxes |
| Effects.FreeBox | src/cc.rs:321-325 | metadata and box are freed together, and the state stands for the heap without the box |
| DropSteps.LoseDrops | src/cc.rs:270-275 | dropping a `Cc` that is not the last one is one step that keeps the invariants |
| DropSteps.LastIsLast | src/cc.rs:277-278 | a `Cc` found to be the last one is dropped outside of group deallocation, and its box has its value |
| DropSteps.FinalizerReturned | src/cc.rs:288-290 | the box survives its finalizer, stays out of the lists and is finalized |
| DropSteps.Resurrected | src/cc.rs:290-294 | a box found with another `Cc` after its finalizer only loses the dropped one |
| DropSteps.NotResurrectedByNothing | src/cc.rs:290-294 | a finalizer that makes no step of the program does not resurrect its box |
| DropSteps.FinalizedDrops | src/cc.rs:282-327 | a box that is finalized and then dropped is one drop, whose cascade is that of a box that needed no finalizer if its own does nothing |
| DropSteps.DroppedNext | src/cc.rs:311-313 | drops one after the other are in the order of the `Cc`s |
| DropSteps.LastDrops | src/cc.rs:298-327 | destroying, dropping the fields and freeing together are one drop with progress, its invariants and its cascade |
| Ccs.RunFinalizer | src/cc.rs:288 | a finalizer may take any steps the program can, a collection included unless one is running, and ends with its own calls returned; one that does nothing takes none; the call and the steps are logged |
| Ccs.HandlePossibleCycle | src/cc.rs:263-268 | the counter drops by one and the box becomes a candidate |
| Ccs.EndFinalizer | src/cc.rs:290-296 | the box counts as resurrected exactly if its counter is not 1 after the finalizer; the flag is restored |
| Ccs.FinalizeLast | src/cc.rs:282-296 | the finalizer is called once, with the flag set, which is restored; it tells whether the box was resurrected, which takes a step of the program |
| Ccs.DropValue | src/cc.rs:298-313 | the box is hidden from weak pointers, then the `Cc`s in its fields are dropped |
| Ccs.DropFields | src/cc.rs:311-313 | the fields are dropped one after the other, in their order, and the steps are those of the drops |
| Ccs.DropCc | src/cc.rs:248-333 | the recursive drop ends; it is a run of the machine that drops exactly one `Cc` and restores flags and calls; a last `Cc` to a box to be finalized calls its finalizer, and the box is freed unless that resurrects it; each finalizer called is one of the steps, and every other step is drop glue or logged by a finalizer; with nothing to finalize, or for the traced fields of a group that is deallocated, no finalizer is called; it cascades if no finalizer does anything, and then settings and held `Cc`s stay |
| Pointers.CollectFirst | src/cc.rs:59-60 | a collection starts exactly if none is running and one is due, once, and the threshold is adjusted; the `Cc`s in the value that is being moved are safe from its finalizers |
| Pointers.NewCc | src/cc.rs:52-67 | after the collection that may be due, a new box with one `Cc`, which the program holds, that owns the given `Cc`s and is born finalized exactly while something is being finalized; no box if the collection does not return |
| Pointers.CloneCc | src/cc.rs:211-228 | one more `Cc`, the box leaves P; refused exactly at 16382 `Cc`s |
| Pointers.MarkCcAlive | src/cc.rs:168-170 | the box leaves P and nothing else changes |
| Pointers.FinalizeCcAgain | src/cc.rs:142-151 | the box becomes finalizable, exactly outside of collections, finalizers and destructors |
| Pointers.TryUnwrap | src/cc.rs:76-118 | succeeds exactly for the only `Cc` while nothing is collected, finalized or dropped; the fields move to the program and the box is freed |
| Pointers.DropHeld | src/cc.rs:248-333 | a held `Cc` handed to `Cc::drop` is dropped with all its consequences; calls and flags are as before, and so are the other held `Cc`s unless finalizers change them |
| Pointers.FinalizersCompose | src/cc.rs:288 | what two finalizers may do one after the other, one finalizer may do |
| Weaks.StrongCount | src/weak/mod.rs:102-127 | the strong counter of a box that can be upgraded, 0 otherwise; freed boxes are not read |
| Weaks.WeakCount | src/weak/mod.rs:133-136 | the number of existing weak pointers |
| Weaks.UpgradeWeak | src/weak/mod.rs:65-83 | a `Cc` exactly for boxes that can be upgraded, all of which are live; none for boxes under construction and for members of the group that is being deallocated, whose destructors may ask; while finalizing, for a listed box exactly if a `Cc` to it exists; refused exactly at 16382 `Cc`s |
| Weaks.GetOrInitMetadata | src/cc.rs:442-456 | returns the existing block, or allocates it and sets the flag |
| Weaks.DowngradeCc | src/weak/mod.rs:336-355 | one more weak pointer, counted in the block, the box leaves P; refused exactly at 32767 |
| Weaks.CloneWeakPtr | src/weak/mod.rs:154-171 | one more weak pointer, also to a freed box; refused exactly at 32767 |
| Weaks.DropWeakPtr | src/weak/mod.rs:176-189 | one weak pointer less; the last one to a freed box frees the block |
| Weaks.StartBuilding | src/weak/mod.rs:251-279 | the box exists with the given size, counter 0 and one weak pointer, finalized exactly while something is being finalized |
| Weaks.RunClosure | src/weak/mod.rs:303 | the closure may take any steps the program can, a collection included; whether it panics is not up to the library; the call, the steps and the value are logged |
| Weaks.BuildCalls | src/weak/mod.rs:303 | exactly one closure is called for the box, apart from what it calls itself |
| Weaks.FinishBuilding | src/weak/mod.rs:303-324 | the value is written, the box gets its counter back, and the lent weak pointer is dropped |
| Weaks.AbandonBuilding | src/weak/mod.rs:282-300 | after a panic of the closure the box is freed and the weak pointer dropped |
| Weaks.BuiltReturns | src/weak/mod.rs:242-324 | whether the closure panics or not, calls, flags and the boxes under construction are as before |
| Weaks.NewCyclic | src/weak/mod.rs:242-324 | after the collection that may be due, and exactly if the closure does not panic, a live box of the given size with exactly one `Cc` that holds the fields the closure returned, and no box otherwise; the lent weak pointer is gone |
| CollectSteps.BeginsPass | src/lib.rs:281-288 | tracing is one step of the machine; the list is the garbage |
| CollectSteps.ListedReturned | src/lib.rs:309-312 | finalizing a listed box leaves list and calls alone and fewer boxes to finalize |
| CollectSteps.ListedLogged | src/cc.rs:568-580 | the finalizer of a listed box is called once, apart from what it calls itself |
| CollectSteps.FinalizingPass | src/lib.rs:319-340 | a pass with a finalizer frees nothing, and fewer boxes remain to be finalized |
| CollectSteps.Deallocates | src/lib.rs:351-439 | dropping and freeing the group removes exactly its boxes and leaves no garbage |
| CollectSteps.AfterPass | src/lib.rs:248-271 | every pass but one calls a finalizer and leaves fewer boxes to finalize, or P is empty |
| CollectSteps.QuietAfterPass | src/lib.rs:248-271 | if no finalizer of the garbage does anything, the first pass finalizes it, the second frees it and the third clears P |
| CollectSteps.EndsCollection | src/lib.rs:247-277 | after 10 passes or with an empty P the promises of a collection hold, inside of finalizers and destructors too: flags and enclosing calls are as before; candidates left mean at least 9 finalizers called and 9 boxes fewer to finalize; exactly the garbage is freed if its finalizers do nothing |
| Collector.TracePass | src/lib.rs:280-288 | both phases on the real cells turn the heap into the one with the garbage in the list, unless a `trace` panics; then they unwind and leave the candidates counted up |
| Collector.FinalizeInner | src/cc.rs:568-580 | calls the finalizer of a listed box exactly if it is needed, once, and says so |
| Collector.FinalizeList | src/lib.rs:306-315 | the finalizer of every member that needs it is called, although finalizers run in between, and the members are counted |
| Collector.FreeOrRequeue | src/lib.rs:317-341 | the list is deallocated if nothing had to be finalized and put back otherwise, and neither calls anything |
| Collector.Requeue | src/lib.rs:323-339 | the members are candidates again, in front of those the finalizers added |
| Collector.DropInner | src/cc.rs:584-593 | a member is hidden from weak pointers and dropped, with its fields |
| Collector.DropMembers | src/lib.rs:401-410 | every member is dropped once, nothing else is, and no finalizer is called |
| Collector.FreeMembers | src/lib.rs:417-436 | every member is freed, each subtracted from the allocated bytes |
| Collector.DeallocateList | src/lib.rs:351-439 | exactly the members are gone and no garbage is left |
| Collector.Pass | src/lib.rs:280-348 | it fails exactly if a `trace` panics; the finalizer of every garbage box that needs it is called, and every call is one of the steps; if none is, exactly the garbage is freed; otherwise fewer boxes remain to be finalized; without garbage P is emptied; if the finalizers of the garbage do nothing the new heap is exactly known |
| Collector.Collect | src/lib.rs:230-278 | it fails exactly if a `trace` panics; at most 10 passes, and fewer only if P is empty; exactly the garbage is freed and P is empty, in at most 3 passes, if no finalizer of the garbage does anything; P and the garbage are gone unless 9 passes called finalizers; every finalizer called is one of the steps, and every other step is drop glue, the collector's or logged by a finalizer; also when a `trace` panics it is a run of the machine that restores flags and calls, and leaves tags, links, strong counters and memory in order |
| Collector.CollectAndAdjust | src/lib.rs:200-205 | after a collection that returns the threshold is above the allocated bytes and cannot be halved; it is the adjusted one, and the other settings are as before, if no finalizer of the garbage does anything; it does not return exactly if the bytes are at least 25 * 2^59 |
| Collector.AdjustTriggerPoint | src/lib.rs:225-228 | the threshold is adjusted to the allocated bytes, and the other settings stay |
| Collector.CollectCycles | src/lib.rs:194-207 | nothing happens during a collection; otherwise exactly one collection, then the threshold is adjusted as above |
| Collector.TriggerCollection | src/lib.rs:210-223 | exactly one collection starts if none is running and the configuration says that one is due, and the threshold is adjusted as above; otherwise nothing changes |
| Collector.TraceAfterPanic | src/lib.rs:441-523 | after an unwound pass both phases compute the list that the counters left behind lead to; if `trace` panics again those still in P are counted up further |
| Collector.ReachableBoxIsListedAfterPanic | src/trace.rs:94 | what `TracePass` promises after a panic allows a state in which the next list holds a box that a held `Cc` reaches |
| Collector.PanicIsAnEvent | src/cc.rs:636-640 | a panic of `trace`, whether or not there was one before, is the event of the machine, and the counters it leaves are what the machine's next pass starts from |
| Panics.ListAfterPanicIff | src/cc.rs:636-640 | counters left behind make no difference to the list if and only if the roots still recognized reach every box whose counters meet only because of them |
| Panics.SafeAfterPanic | src/trace.rs:94 | under that condition nothing that a held `Cc` reaches is listed, whatever has been taken out of P |
| Panics.ListedFromOutside | src/cc.rs:636-640 | where it fails, a listed box is named by a held `Cc` or by a box that has not been traced |
| Panics.ReachableBoxIsListed | src/trace.rs:94 | for a candidate whose only `Cc` is in a held box and was seen before the panic it fails: the next list is that candidate |
| Hazards.StepKeepsApart | src/lib.rs:400-436 | every step keeps each edge into the settled list inside of it and each surviving `Cc` out of it, whatever P covers |
| Hazards.StepKeepsSound | src/lib.rs:230-439 | no step needs the coverage to keep everything else |
| Hazards.AvoidingIsLive | src/cc.rs:277-327 | what code inside of a group deallocation can get hold of is live and outside of the group |
| Hazards.InGroupKeepsSound | src/cc.rs:277-327 | a finalizer or destructor that an untraced `Cc` starts inside of a group deallocation keeps all of it as well |
| Hazards.UntracedDropFrees | src/trace.rs:111 | the last `Cc` to an outside box can be dropped inside of a group deallocation; the box is freed on the spot and the group is as before |
| Hazards.EventKeepsSound | src/trace.rs:94-111 | panics of `trace` and untraced `Cc`s included, every event keeps what safety needs, if no pass begins with counters that hide a root |
| Hazards.HazardousHeapIsSound | src/trace.rs:94-111 | so does every run of such events |
| Hazards.NothingReachableIsFreedEver | src/trace.rs:94-111 | in every such run a box is freed only when no `Cc` to it exists and no held `Cc` reaches it |
| Hazards.NothingReachableIsDroppedEver | src/cc.rs:298-313 | in every such run, inside of a group deallocation too, a value is dropped only when no code outside of its destructor can reach it |
| Hazards.MachineRunIsHarmless | src/lib.rs:230-348 | without panics and untraced `Cc`s these are the runs of the machine, and no counter hides a root |
| Hazards.ReachableBoxIsListedInARun | src/trace.rs:94 | the condition is needed: a run from the empty heap in which a pass after a panic lists a box that a held `Cc` reaches |
| Programs.ConfigureAny | src/config.rs:110-158 | settings may change to any valid values between calls; no box, counter or list changes |
| Programs.AnyCode | src/cc.rs:52-333 | any number of calls, changes of the settings included, with whatever arguments, is a run of the machine that restores calls and flags and calls the finalizers and closures in its steps |
| Programs.AnyFinalizer | src/cc.rs:288 | every finalizer that returns, even one that changes the settings, does what `RunFinalizer` promises |
| Programs.Session | src/lib.rs:194-207 | from the initial state, whatever panics, every sequence of calls and changes of the settings is a run from the empty heap that calls exactly the finalizers and closures in its steps, no finalizer twice unless asked to; with P empty exactly what the held `Cc`s reach is live |
| Configs.GrowthEndsIff | src/config.rs:182-188 | doubling in a 64-bit word passes the allocated bytes if and only if they are fewer than 25 * 2^59 |
| Configs.DoubledBeyondWord | src/config.rs:183 | past the largest threshold the word wraps to smaller values and then stays 0 |
| Configs.Config.SetAdjustmentPercent | src/config.rs:131-137 | accepts exactly the percentages from 0 to 1 |
| Configs.Config.ShouldCollect | src/config.rs:161-175 | automatic collections start exactly above the byte threshold or the buffer threshold, and never when they are switched off |
| Configs.FitsIff | src/config.rs:81-82 | after `adjust` the claimed invariant holds if and only if some threshold satisfies it |
| Configs.LeastFits | src/config.rs:81-82 | ... if and only if the least threshold above the allocated bytes satisfies it |
| Configs.FitsBelowHalf | src/config.rs:81-82 | for percentages below one half, if and only if the bytes exceed the percentage of the default threshold |
| Configs.AdjustedIsAtRest | src/config.rs:202-212 | after `adjust` the threshold is the default, or the bytes are more than the percentage of it or at least half of it |
| Configs.NothingAllocatedDoesNotFit | src/config.rs:178-213 | with nothing allocated `adjust` does not establish the claimed invariant, whatever the threshold was and for every percentage |
| Configs.Config.Adjust | src/config.rs:178-213 | ends exactly below 25 * 2^59 allocated bytes; the threshold is the default doubled some times and above the bytes; growth stops at the least such, halving goes on exactly as long as it may; the lower half of the claimed invariant holds exactly if the least threshold above the bytes satisfies it; the other settings stay |

## Left out

- RunFinalizer: a finalizer is code of the program. The method's own body only records the call; callers rely on its contract alone, and `Programs.AnyFinalizer` shows that any finite sequence of library calls meets it. That finalizers end is assumed. The contract has no panics: a finalizer in which a collection does not return is not covered. What a finalizer does is told apart by its log; for the ones that do nothing (`Runtime.silent`) the results hold without it.
- RunClosure: the closure of `new_cyclic`, in the same way. That the weak pointer it is lent is not dropped is part of its contract, since it is only lent.
- Unwound: after a panic of `trace` the boxes taken out of P are not candidates any more, so coverage is not claimed, and the tracing counters of those in P are what `TracePass` says; `Traceable`, which `TraceAfterPanic` requires, leaves out counters that would exceed the strong counter, for which debug builds panic (`src/cc.rs:621`). The methods stop at such a panic; `PanicIsAnEvent` connects it to the runs of `Hazards`, which go on.
- NewCc: when the collection that comes first panics, the drop of the value that was being moved.
- Panics of finalizers, and of destructors during a group deallocation.
- `Cc`s in fields that are not traced are held by the program. Their drop by the destructor of a value in a group that is being deallocated is an event of `Hazards`, not a branch of the methods; weak pointers in fields are dropped by the program, with `DropWeakPtr`.
- Fields of values live in a map of the runtime and not in the boxes. That `trace` reports the same `Cc`s in both phases and that destructors do not touch `Cc`s is assumed, as `src/trace.rs:90-103` demands it.
- Boxes hold their counters decoded; `CounterMarkers` and `WeakMarkers` show that the packed words do the same.
- Memory exhaustion, the width of `usize` in byte and execution counts, and thread-local access failures.
- The checks of debug builds that panic while tracing: they are preconditions.
- Adjust: uses an exact real percentage instead of a 64-bit float.
- Cleaners, the `Trace` and `Finalize` implementations for standard types, the derive macro, trait forwarding on `Cc`, raw layouts and the nightly and no-std variants.

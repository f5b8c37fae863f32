/** The collector's thread-local state, and its abstraction to a `Heap`.

    Code in this and the following modules works on boxes, links, cells and flags.  The heap they stand
    for is passed along as a ghost value, and `Synced` says that they do stand for it. */
module Runtimes {
  import opened Graph
  import opened WeakTables
  import opened Heaps
  import opened CounterMarkers
  import opened Lists
  import opened Configs
  import opened Logs

  class Runtime {
    const pc: PossibleCycles
    const config: Config
    /** What the code of the program does, which the library cannot influence: whether `trace` may panic, which
        closures of `new_cyclic` panic, and which finalizers and closures do nothing. */
    const tracePanics: bool
    const closurePanics: CcBox -> bool
    ghost const silent: CcBox -> bool
    var collecting: bool
    var finalizing: bool
    var dropping: bool
    var allocatedBytes: nat
    var executions: nat
    /** The traced fields of the values in the boxes. */
    var values: Edges<CcBox>
    /** The allocated metadata blocks, by the box they belong to. */
    var blocks: map<CcBox, BoxedMetadata>
    /** The `Cc`s that the program holds outside of traced fields, and its weak pointers by the box they
        point to.  The library does not look at them. */
    var handles: multiset<CcBox>
    var weaks: multiset<CcBox>
    /** All the blocks that have ever been allocated. */
    ghost var metadatas: set<BoxedMetadata>
    /** The finalizers and closures that have been called and what they did.  Only they write to the log. */
    ghost var log: Log<CcBox>
    /** The number of passes made, and how often `trace` has panicked. */
    ghost var passes: nat
    ghost var panics: nat
    /** The non-root list of the running pass, while other code runs. */
    ghost var nonRootList: LinkedList?

    constructor (tracePanics: bool, closurePanics: CcBox -> bool, ghost silent: CcBox -> bool)
      ensures Synced(Empty()) && fresh(pc) && fresh(config) && nonRootList == null
      ensures metadatas == {} && log == Log([], [], [], []) && passes == 0 && panics == 0 && executions == 0
      ensures this.tracePanics == tracePanics && this.closurePanics == closurePanics && this.silent == silent
    {
      this.tracePanics, this.closurePanics, this.silent := tracePanics, closurePanics, silent;
      pc := new PossibleCycles();
      config := new Config();
      collecting, finalizing, dropping := false, false, false;
      allocatedBytes, executions := 0, 0;
      nonRootList := null;
      values := map[];
      blocks := map[];
      handles, weaks := multiset{}, multiset{};
      metadatas := {};
      log, passes, panics := Log([], [], [], []), 0, 0;
    }

    /** What nothing but code of the program changes, apart from calls of finalizers. */
    ghost function ByCode(): (Log<CcBox>, Settings)
      reads this`log, config
    {
      (log.(calls := []), config.Current())
    }

    ghost function Counts(): (nat, nat, nat)
      reads this`passes, this`panics, this`executions
    {
      (passes, panics, executions)
    }

    /** The cells and links of the boxes are what the heap says: the flags and the counter, the tag of
        the container that holds the box, no links unless one does, a reset tracing counter for the
        candidates, and the reserved one for the dropped boxes. */
    static ghost predicate Cells(boxes: set<CcBox>, rc: map<CcBox, nat>, p: set<CcBox>, list: set<CcBox>,
                                 dropped: set<CcBox>, fin: set<CcBox>, blocks: set<CcBox>)
      reads boxes`counter, boxes`tracing, boxes`next, boxes`prev
    {
      forall b | b in boxes ::
        && b in rc && b.counter == CounterCell(b in blocks, b in fin, rc[b])
        && b.tracing.mark == (if b in p then PossibleCycles else if b in list then InList else NonMarked)
        && (b in p ==> b.tracing.tc == 0)
        && (b !in p && b !in list ==> b.next == null && b.prev == null)
        && (b.tracing.IsDropped() <==> b in dropped)
    }

    ghost predicate Represented(h: Heap<CcBox>)
      reads h.kids.Keys`counter, h.kids.Keys`tracing, h.kids.Keys`next, h.kids.Keys`prev
    {
      Cells(h.kids.Keys, h.rc, h.p, h.list, h.dropped, h.fin, h.w.blocks.Keys)
    }

    /** P and the non-root list are well-formed and hold the boxes that the heap says. */
    ghost predicate Containers(boxes: set<CcBox>, p: set<CcBox>, list: set<CcBox>)
      reads this`nonRootList, pc, nonRootList, boxes`next, boxes`prev
    {
      && pc.boxes == p <= boxes && list <= boxes && p !! list && pc.Valid()
      && (if nonRootList == null then list == {} else nonRootList.boxes == list && nonRootList.Valid())
    }

    /** Every block is what the table of weak pointers says, and its box knows it. */
    ghost predicate Blocks(boxes: set<CcBox>, w: WeakTable<CcBox>)
      reads this`blocks, this`weaks, this`metadatas, boxes`metadata, metadatas`weak
    {
      && weaks == w.weaks && blocks.Keys == w.blocks.Keys
      && (forall b | b in blocks :: blocks[b] in metadatas && blocks[b].weak == w.blocks[b])
      && (forall b, c | b in blocks && c in blocks && b != c :: blocks[b] != blocks[c])
      && (forall b | b in boxes && b in blocks :: b.metadata == blocks[b])
    }

    ghost predicate Flags(h: Heap<CcBox>)
      reads this`collecting, this`finalizing, this`dropping
    {
      collecting == h.collecting && finalizing == h.finalizing && dropping == h.dropping
    }

    /** The values are where the heap says, their bytes are counted, and the threshold on them is in order. */
    ghost predicate Memory(kids: Edges<CcBox>)
      reads this`allocatedBytes, this`values, config
    {
      values == kids && allocatedBytes == TotalSize(kids.Keys) && config.Valid()
    }

    /** The state stands for `h`, except that the list object holds `list`. */
    ghost predicate SyncedWith(h: Heap<CcBox>, list: set<CcBox>)
      reads this`collecting, this`finalizing, this`dropping, this`allocatedBytes, this`values, this`blocks, this`weaks
      reads this`handles, this`metadatas, this`nonRootList, pc, config, nonRootList, h.kids.Keys, metadatas`weak
    {
      && Represented(h) && Containers(h.kids.Keys, h.p, list) && Flags(h) && Memory(h.kids)
      && Blocks(h.kids.Keys, h.w) && handles == h.handles
    }

    ghost predicate Synced(h: Heap<CcBox>)
      reads this`collecting, this`finalizing, this`dropping, this`allocatedBytes, this`values, this`blocks, this`weaks
      reads this`handles, this`metadatas, this`nonRootList, pc, config, nonRootList, h.kids.Keys, metadatas`weak
    {
      SyncedWith(h, h.list)
    }
  }

  // ----- byte accounting --------------------------------------------------------------------------------

  ghost function TotalSize(s: set<CcBox>): nat {
    if s == {} then 0 else var b :| b in s; b.size + TotalSize(s - {b})
  }

  lemma {:induction false} TotalSizeWithout(s: set<CcBox>, b: CcBox)
    requires b in s
    ensures TotalSize(s) == b.size + TotalSize(s - {b})
    decreases |s|
  {
    var c :| c in s && TotalSize(s) == c.size + TotalSize(s - {c});
    if c != b {
      TotalSizeWithout(s - {c}, b);
      TotalSizeWithout(s - {b}, c);
      assert s - {c} - {b} == s - {b} - {c};
    }
  }
}

/** The metadata blocks shared by the weak pointers to a box. */
module WeakTables {

  /** The largest weak count: 15 bits. */
  const MAX_WEAK: nat := 32767

  /** The heap block shared by all the weak pointers to one box. */
  datatype Block = Block(count: nat, accessible: bool) {
    function Incremented(): Block { this.(count := count + 1) }
    function Decremented(): Block { if count == 0 then this else this.(count := count - 1) }
  }

  datatype WeakStep<T> = Downgrade(n: T) | CloneWeak(n: T) | DropWeak(n: T)

  /** The existing `Weak`s and the allocated metadata blocks, by the box they belong to. */
  datatype WeakTable<T> = WeakTable(weaks: multiset<T>, blocks: map<T, Block>) {

    /** A block counts the weak pointers to its box, knows whether the box is still allocated, and
        exists while the box or a weak pointer to it does. */
    ghost predicate Valid(boxes: set<T>) {
      && (forall n | n in blocks :: blocks[n].count == weaks[n] <= MAX_WEAK)
      && (forall n | n in blocks :: blocks[n].accessible <==> n in boxes)
      && (forall n | n in blocks :: blocks[n].accessible || blocks[n].count > 0)
      && (forall n | n in weaks :: n in blocks)
    }

    ghost predicate Enabled(step: WeakStep<T>) {
      match step
      case Downgrade(n) => weaks[n] < MAX_WEAK
      case CloneWeak(n) => n in blocks && 0 < weaks[n] < MAX_WEAK
      case DropWeak(n) => n in blocks && 0 < weaks[n]
    }

    ghost function Apply(step: WeakStep<T>): WeakTable<T>
      requires Enabled(step)
    {
      match step
      case Downgrade(n) =>
        // the first downgrade of a box allocates the block
        WeakTable(weaks + multiset{n},
                  blocks[n := if n in blocks then blocks[n].Incremented() else Block(1, true)])
      case CloneWeak(n) =>
        WeakTable(weaks + multiset{n}, blocks[n := blocks[n].Incremented()])
      case DropWeak(n) =>
        // the last weak pointer to a freed box frees the block
        WeakTable(weaks - multiset{n},
                  if blocks[n].count == 1 && !blocks[n].accessible then blocks - {n}
                  else blocks[n := blocks[n].Decremented()])
    }

    /** `CcBox::drop_metadata`, called when the box of `n` is freed. */
    ghost function BoxFreed(n: T): WeakTable<T> {
      WeakTable(weaks,
                if n !in blocks then blocks
                else if blocks[n].count == 0 then blocks - {n}
                else blocks[n := blocks[n].(accessible := false)])
    }
  }

  lemma StepKeeps<T>(w: WeakTable<T>, boxes: set<T>, step: WeakStep<T>)
    requires w.Valid(boxes) && w.Enabled(step) && (step.Downgrade? ==> step.n in boxes)
    ensures w.Apply(step).Valid(boxes)
  {
    match step
    case Downgrade(n) => DowngradeKeeps(w, boxes, n);
    case CloneWeak(n) =>
    case DropWeak(n) => DropKeeps(w, boxes, n);
  }

  lemma DowngradeKeeps<T>(w: WeakTable<T>, boxes: set<T>, n: T)
    requires w.Valid(boxes) && w.Enabled(Downgrade(n)) && n in boxes
    ensures w.Apply(Downgrade(n)).Valid(boxes)
  {}

  lemma DropKeeps<T>(w: WeakTable<T>, boxes: set<T>, n: T)
    requires w.Valid(boxes) && w.Enabled(DropWeak(n))
    ensures w.Apply(DropWeak(n)).Valid(boxes)
  {}

  lemma BoxFreedKeeps<T>(w: WeakTable<T>, boxes: set<T>, n: T)
    requires w.Valid(boxes)
    ensures w.BoxFreed(n).Valid(boxes - {n})
  {}

  lemma NewBoxKeeps<T>(w: WeakTable<T>, boxes: set<T>, n: T)
    requires w.Valid(boxes) && n !in w.blocks
    ensures w.Valid(boxes + {n})
  {}
}

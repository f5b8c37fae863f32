/** Boxes and the intrusive containers threaded through them.

    Every box has one pair of links.  Two kinds of doubly linked list and a singly linked queue use
    it, so a box is in at most one container, and an operation on one container must leave the links
    of the boxes in all the others alone. */
module Lists {
  import opened CounterMarkers
  import opened WeakTables

  /** The heap block that the weak pointers to a box share. */
  class BoxedMetadata {
    var weak: Block

    constructor ()
      ensures weak == Block(0, true)
    {
      weak := Block(0, true);
    }
  }

  class CcBox {
    var next: CcBox?
    var prev: CcBox?
    var metadata: BoxedMetadata?
    var tracing: TracingCell
    var counter: CounterCell
    /** The size of the allocation. */
    const size: nat

    constructor (alreadyFinalized: bool, size: nat)
      ensures next == null && prev == null && metadata == null && this.size == size
      ensures tracing == InitialTracing() && counter == InitialCounter(alreadyFinalized)
    {
      next, prev, metadata := null, null, null;
      tracing, counter := InitialTracing(), InitialCounter(alreadyFinalized);
      this.size := size;
    }
  }

  // ----- linked boxes ---------------------------------------------------------------------------------

  ghost predicate Members(s: seq<CcBox>, boxes: set<CcBox>) {
    && (forall i | 0 <= i < |s| :: s[i] in boxes)
    && (forall b {:trigger b in s} | b in boxes :: b in s)
  }

  ghost predicate Distinct(s: seq<CcBox>) {
    forall i, j | 0 <= i < j < |s| :: s[i] != s[j]
  }

  ghost function Nth(s: seq<CcBox>, i: int): CcBox? {
    if 0 <= i < |s| then s[i] else null
  }

  /** `s` is a chain of `next` links that ends with a null link. */
  ghost predicate Chained(s: seq<CcBox>)
    reads s`next
  {
    Distinct(s) && forall i {:trigger s[i].next} | 0 <= i < |s| :: s[i].next == Nth(s, i + 1)
  }

  /** ... and the `prev` links lead back. */
  ghost predicate Linked(s: seq<CcBox>)
    reads s`next, s`prev
  {
    && Distinct(s)
    && (forall i {:trigger s[i].next} | 0 <= i < |s| :: s[i].next == Nth(s, i + 1))
    && forall i {:trigger s[i].prev} | 0 <= i < |s| :: s[i].prev == Nth(s, i - 1)
  }

  ghost predicate Unlinked(b: CcBox) reads b`next, b`prev { b.next == null && b.prev == null }

  ghost function First(s: seq<CcBox>, i: nat): set<CcBox>
    requires i <= |s|
  {
    set b | b in s[..i]
  }

  lemma FirstGrows(s: seq<CcBox>, boxes: set<CcBox>, i: nat)
    requires Members(s, boxes) && Distinct(s) && i <= |s|
    ensures First(s, 0) == {} && First(s, |s|) == boxes
    ensures i < |s| ==> First(s, i + 1) == First(s, i) + {s[i]} && s[i] in boxes && s[i] !in First(s, i)
  {
    assert s[..|s|] == s;
    if i < |s| { assert s[..i + 1] == s[..i] + [s[i]]; }
  }

  lemma MembersWithout(s: seq<CcBox>, boxes: set<CcBox>, k: nat)
    requires Members(s, boxes) && Distinct(s) && k < |s|
    ensures Members(s[..k] + s[k + 1..], boxes - {s[k]})
  {
    var t := s[..k] + s[k + 1..];
    forall b | b in boxes - {s[k]}
      ensures b in t
    {
      assert b in s;
      var i :| 0 <= i < |s| && s[i] == b;
      if i < k { assert t[i] == b; } else { assert t[i - 1] == b; }
    }
  }

  lemma NoMembers(s: seq<CcBox>, boxes: set<CcBox>)
    requires Members(s, boxes) && Nth(s, 0) == null
    ensures s == [] && boxes == {}
  {
    assert forall b | b in boxes :: b in s;
  }

  lemma MembersRest(s: seq<CcBox>, boxes: set<CcBox>)
    requires Members(s, boxes) && Distinct(s) && s != []
    ensures Members(s[1..], boxes - {s[0]}) && s[0] in boxes
  {
    MembersWithout(s, boxes, 0);
    assert s[..0] + s[1..] == s[1..];
  }

  /** Take the `k`-th box out of a doubly linked list that starts at `first`. */
  method Unlink(first: CcBox?, ptr: CcBox, ghost s: seq<CcBox>, ghost k: nat) returns (newFirst: CcBox?)
    requires Linked(s) && first == Nth(s, 0) && k < |s| && s[k] == ptr
    modifies s`next, s`prev
    ensures Linked(s[..k] + s[k + 1..]) && newFirst == Nth(s[..k] + s[k + 1..], 0)
    ensures Unlinked(ptr)
  {
    newFirst := first;
    if ptr.next != null && ptr.prev != null {
      assert ptr.next == s[k + 1] && ptr.prev == s[k - 1];
      ptr.next.prev := ptr.prev;
      ptr.prev.next := ptr.next;
      ptr.next := null;
      ptr.prev := null;
    } else if ptr.next != null {
      assert ptr.next == s[k + 1] && k == 0;
      ptr.next.prev := null;
      newFirst := ptr.next;
      ptr.next := null;
    } else if ptr.prev != null {
      assert ptr.prev == s[k - 1] && k == |s| - 1;
      ptr.prev.next := null;
      ptr.prev := null;
    } else {
      assert |s| == 1;
      newFirst := null;
    }
  }

  /** Take the first box out of a doubly linked list. */
  method UnlinkFirst(first: CcBox, ghost s: seq<CcBox>) returns (newFirst: CcBox?)
    requires Linked(s) && s != [] && first == s[0]
    modifies s`next, s`prev
    ensures Linked(s[1..]) && newFirst == Nth(s[1..], 0)
    ensures Unlinked(first)
  {
    newFirst := first.next;
    if newFirst != null {
      assert newFirst == s[1];
      newFirst.prev := null;
    }
    first.next := null;
  }

  /** Link the last box of `s` to the first of `t`. */
  method Join(prev: CcBox, first: CcBox?, ghost s: seq<CcBox>, ghost t: seq<CcBox>)
    requires Linked(s) && Linked(t) && forall b | b in s :: b !in t
    requires s != [] && prev == s[|s| - 1] && first == Nth(t, 0)
    modifies s`next, t`prev
    ensures Linked(s + t)
  {
    if first != null {
      assert first == t[0];
      prev.next := first;
      first.prev := prev;
      forall i | 0 <= i < |s + t|
        ensures (s + t)[i].next == Nth(s + t, i + 1) && (s + t)[i].prev == Nth(s + t, i - 1)
      {
        if i < |s| {
          assert (s + t)[i] == s[i] && s[i] in s;
        } else {
          assert (s + t)[i] == t[i - |s|] && t[i - |s|] in t;
        }
      }
      forall i, j | 0 <= i < j < |s + t|
        ensures (s + t)[i] != (s + t)[j]
      {
        assert (s + t)[i] in s || (s + t)[i] in t;
      }
    } else {
      assert s + t == s;
    }
  }

  // ----- root_list and non_root_list --------------------------------------------------------------------

  class LinkedList {
    var first: CcBox?
    ghost var contents: seq<CcBox>
    ghost var boxes: set<CcBox>  // the members of contents

    ghost predicate Valid()
      reads this, boxes`next, boxes`prev
    {
      Members(contents, boxes) && first == Nth(contents, 0) && Linked(contents)
    }

    constructor ()
      ensures Valid() && contents == [] && boxes == {}
    {
      first := null;
      contents, boxes := [], {};
    }

    method Add(ptr: CcBox)
      requires Valid() && Unlinked(ptr) && ptr !in boxes
      modifies `first, `contents, `boxes, ptr`next, boxes`prev
      ensures Valid() && contents == [ptr] + old(contents)
      ensures boxes == old(boxes) + {ptr}
    {
      if first != null {
        assert first == contents[0];
        first.prev := ptr;
        ptr.next := first;
      }
      first := ptr;
      contents, boxes := [ptr] + contents, boxes + {ptr};
    }

    method Remove(ptr: CcBox) returns (ghost k: nat)
      requires Valid() && ptr in boxes
      modifies `first, `contents, `boxes, boxes`next, boxes`prev
      ensures Valid() && Unlinked(ptr)
      ensures k < |old(contents)| && old(contents)[k] == ptr
      ensures contents == old(contents)[..k] + old(contents)[k + 1..]
      ensures boxes == old(boxes) - {ptr}
    {
      assert ptr in contents;
      k :| 0 <= k < |contents| && contents[k] == ptr;
      first := Unlink(first, ptr, contents, k);
      MembersWithout(contents, boxes, k);
      contents, boxes := contents[..k] + contents[k + 1..], boxes - {ptr};
    }

    method RemoveFirst() returns (r: CcBox?)
      requires Valid()
      modifies `first, `contents, `boxes, boxes`next, boxes`prev, boxes`tracing
      ensures Valid()
      ensures old(contents) == [] ==> r == null && contents == [] && boxes == old(boxes) == {}
      ensures old(contents) != [] ==>
        && r == old(contents)[0] && contents == old(contents)[1..]
        && r in old(boxes) && boxes == old(boxes) - {r}
        && Unlinked(r) && r.tracing == old(r.tracing).Marked(NonMarked)
      ensures forall b | b in old(boxes) && b != r :: b.tracing == old(b.tracing)
    {
      r := first;
      if r != null {
        assert r == contents[0];
        first := UnlinkFirst(r, contents);
        MembersRest(contents, boxes);
        r.tracing := r.tracing.Marked(NonMarked);
        contents, boxes := contents[1..], boxes - {r};
      } else {
        NoMembers(contents, boxes);
      }
    }

    /** The destructor of a list that is not empty, which runs when a pass unwinds. */
    method Drop()
      requires Valid()
      modifies `first, `contents, `boxes, boxes`next, boxes`prev, boxes`tracing
      ensures Valid() && boxes == {}
      ensures forall b | b in old(boxes) :: Unlinked(b) && b.tracing == old(b.tracing).Marked(NonMarked)
    {
      var r := RemoveFirst();
      while r != null
        invariant Valid() && boxes <= old(boxes) && (r == null ==> boxes == {})
        invariant forall b | b in old(boxes) - boxes :: Unlinked(b) && b.tracing == old(b.tracing).Marked(NonMarked)
        invariant forall b | b in boxes :: b.tracing == old(b.tracing)
        decreases boxes, r != null
      {
        r := RemoveFirst();
      }
    }
  }

  // ----- POSSIBLE_CYCLES --------------------------------------------------------------------------------

  class PossibleCycles {
    var first: CcBox?
    var size: nat
    ghost var contents: seq<CcBox>
    ghost var boxes: set<CcBox>  // the members of contents

    ghost predicate Valid()
      reads this, boxes`next, boxes`prev
    {
      Members(contents, boxes) && first == Nth(contents, 0) && size == |contents| && Linked(contents)
    }

    constructor ()
      ensures Valid() && contents == [] && boxes == {}
    {
      first := null;
      size := 0;
      contents, boxes := [], {};
    }

    method Add(ptr: CcBox)
      requires Valid() && Unlinked(ptr) && ptr !in boxes
      modifies `first, `size, `contents, `boxes, ptr`next, boxes`prev
      ensures Valid() && contents == [ptr] + old(contents)
      ensures boxes == old(boxes) + {ptr}
    {
      size := size + 1;
      if first != null {
        assert first == contents[0];
        first.prev := ptr;
        ptr.next := first;
      }
      first := ptr;
      contents, boxes := [ptr] + contents, boxes + {ptr};
    }

    method Remove(ptr: CcBox) returns (ghost k: nat)
      requires Valid() && ptr in boxes
      modifies `first, `size, `contents, `boxes, boxes`next, boxes`prev
      ensures Valid() && Unlinked(ptr)
      ensures k < |old(contents)| && old(contents)[k] == ptr
      ensures contents == old(contents)[..k] + old(contents)[k + 1..]
      ensures boxes == old(boxes) - {ptr}
    {
      assert ptr in contents;
      k :| 0 <= k < |contents| && contents[k] == ptr;
      size := size - 1;
      first := Unlink(first, ptr, contents, k);
      MembersWithout(contents, boxes, k);
      contents, boxes := contents[..k] + contents[k + 1..], boxes - {ptr};
    }

    method RemoveFirst() returns (r: CcBox?)
      requires Valid()
      modifies `first, `size, `contents, `boxes, boxes`next, boxes`prev, boxes`tracing
      ensures Valid()
      ensures old(contents) == [] ==> r == null && contents == [] && boxes == old(boxes) == {}
      ensures old(contents) != [] ==>
        && r == old(contents)[0] && contents == old(contents)[1..]
        && r in old(boxes) && boxes == old(boxes) - {r}
        && Unlinked(r) && r.tracing == old(r.tracing).Marked(NonMarked)
      ensures forall b | b in old(boxes) && b != r :: b.tracing == old(b.tracing)
    {
      r := first;
      if r != null {
        assert r == contents[0];
        size := size - 1;
        first := UnlinkFirst(r, contents);
        MembersRest(contents, boxes);
        r.tracing := r.tracing.Marked(NonMarked);
        contents, boxes := contents[1..], boxes - {r};
      } else {
        NoMembers(contents, boxes);
      }
    }

    /** Exchange the whole list with `toSwap`, whose length is known to the caller. */
    method SwapList(toSwap: LinkedList, toSwapSize: nat)
      requires Valid() && toSwap.Valid() && toSwapSize == |toSwap.contents|
      modifies `first, `size, `contents, `boxes, toSwap`first, toSwap`contents, toSwap`boxes
      ensures Valid() && toSwap.Valid()
      ensures contents == old(toSwap.contents) && toSwap.contents == old(contents)
      ensures boxes == old(toSwap.boxes) && toSwap.boxes == old(boxes)
    {
      size := toSwapSize;
      first, toSwap.first := toSwap.first, first;
      contents, toSwap.contents := toSwap.contents, contents;
      boxes, toSwap.boxes := toSwap.boxes, boxes;
    }

    /** Mark every member, reset its tracing counter, and append a list whose members are marked. */
    method MarkSelfAndAppend(mark: Mark, toAppend: LinkedList, toAppendSize: nat)
      requires Valid() && toAppend.Valid() && toAppendSize == |toAppend.contents|
      requires boxes !! toAppend.boxes
      modifies `first, `size, `contents, `boxes, boxes`next, boxes`tracing, toAppend.boxes`prev
      ensures Valid() && contents == old(contents) + toAppend.contents
      ensures boxes == old(boxes) + toAppend.boxes
      ensures forall b | b in old(boxes) :: b.tracing == TracingCell(mark, 0)
    {
      if first != null {
        var prev := first;
        var it := first;
        ghost var i := 0;
        while it != null
          invariant 0 <= i <= |contents| && Valid() && it == Nth(contents, i)
          invariant i > 0 ==> prev == contents[i - 1]
          invariant forall j | 0 <= j < i :: contents[j].tracing == TracingCell(mark, 0)
          modifies boxes`tracing
          decreases |contents| - i
        {
          var elem := it;
          it := elem.next;
          elem.tracing := elem.tracing.Reset().Marked(mark);
          prev := elem;
          i := i + 1;
        }
        assert forall b | b in boxes :: b in contents;
        Join(prev, toAppend.first, contents, toAppend.contents);
      } else {
        assert forall b | b in boxes :: b in contents;
        assert contents + toAppend.contents == toAppend.contents;
        first := toAppend.first;
      }
      size := size + toAppendSize;
      contents, boxes := contents + toAppend.contents, boxes + toAppend.boxes;
    }
  }

  // ----- queue ------------------------------------------------------------------------------------------

  class LinkedQueue {
    var first: CcBox?
    var last: CcBox?
    ghost var contents: seq<CcBox>
    ghost var boxes: set<CcBox>  // the members of contents

    ghost predicate Valid()
      reads this, boxes`next, boxes`prev
    {
      && Members(contents, boxes)
      && first == Nth(contents, 0) && last == Nth(contents, |contents| - 1)
      && Chained(contents)
      && forall b | b in boxes :: b.prev == null
    }

    constructor ()
      ensures Valid() && contents == [] && boxes == {}
    {
      first, last := null, null;
      contents, boxes := [], {};
    }

    method Add(ptr: CcBox)
      requires Valid() && Unlinked(ptr) && ptr !in boxes
      modifies `first, `last, `contents, `boxes, boxes`next
      ensures Valid() && contents == old(contents) + [ptr]
      ensures boxes == old(boxes) + {ptr}
    {
      if last != null {
        assert last == contents[|contents| - 1];
        last.next := ptr;
      } else {
        first := ptr;
      }
      last := ptr;
      contents, boxes := contents + [ptr], boxes + {ptr};
    }

    method Poll() returns (r: CcBox?)
      requires Valid()
      modifies `first, `last, `contents, `boxes, boxes`next, boxes`tracing
      ensures Valid()
      ensures old(contents) == [] ==> r == null && contents == [] && boxes == old(boxes) == {}
      ensures old(contents) != [] ==>
        && r == old(contents)[0] && contents == old(contents)[1..]
        && r in old(boxes) && boxes == old(boxes) - {r}
        && Unlinked(r) && r.tracing == old(r.tracing).Marked(NonMarked)
      ensures forall b | b in old(boxes) && b != r :: b.tracing == old(b.tracing)
    {
      r := first;
      if r != null {
        assert r == contents[0];
        first := r.next;
        if first == null {
          last := null;
        }
        r.next := null;
        MembersRest(contents, boxes);
        r.tracing := r.tracing.Marked(NonMarked);
        contents, boxes := contents[1..], boxes - {r};
      } else {
        NoMembers(contents, boxes);
      }
    }

    /** The destructor of a queue that is not empty, which runs when a pass unwinds. */
    method Drop()
      requires Valid()
      modifies `first, `last, `contents, `boxes, boxes`next, boxes`prev, boxes`tracing
      ensures Valid() && boxes == {}
      ensures forall b | b in old(boxes) :: Unlinked(b) && b.tracing == old(b.tracing).Marked(NonMarked)
    {
      var r := Poll();
      while r != null
        invariant Valid() && boxes <= old(boxes) && (r == null ==> boxes == {})
        invariant forall b | b in old(boxes) - boxes :: Unlinked(b) && b.tracing == old(b.tracing).Marked(NonMarked)
        invariant forall b | b in boxes :: b.tracing == old(b.tracing)
        decreases boxes, r != null
      {
        r := Poll();
      }
    }
  }
}

/** What dropping a `Cc` does when nothing has to be finalized: the boxes that lose their last `Cc` are
    freed, those they pointed to lose a `Cc` in turn, and so on. */
module Cascades {
  import opened Graph
  import opened Heaps

  ghost function Members<T>(s: seq<T>): set<T> { set x | x in s }

  /** The `Cc`s that are gone when `lost` have been dropped and the boxes in `s` have been freed. */
  ghost function Gone<T>(h: Heap<T>, lost: multiset<T>, s: set<T>): multiset<T>
    requires s <= h.kids.Keys
  {
    lost + Out(h.kids, s)
  }

  /** Boxes that can be freed one after the other: each has no `Cc` left once those before it are gone. */
  ghost predicate Freeable<T>(h: Heap<T>, lost: multiset<T>, freed: seq<T>) {
    forall i | 0 <= i < |freed| :: FreeableAfter(h, lost, freed[..i], freed[i])
  }

  ghost predicate FreeableAfter<T>(h: Heap<T>, lost: multiset<T>, before: seq<T>, x: T) {
    && Members(before) <= h.kids.Keys
    && x in h.rc && x !in before
    && 0 < h.rc[x] <= Gone(h, lost, Members(before))[x]
  }

  /** The freed boxes are gone, and the counters of the others have dropped by the `Cc`s they lost,
      which were never all of them. */
  ghost predicate Counted<T>(h: Heap<T>, lost: multiset<T>, f: set<T>, h': Heap<T>) {
    && f <= h.kids.Keys && f <= h.Live() - h.list
    && h'.kids == h.kids - f && h'.rc.Keys == h'.kids.Keys <= h.rc.Keys
    && forall x | x in h'.rc ::
         && h'.rc[x] + Gone(h, lost, f)[x] == h.rc[x]
         && (Gone(h, lost, f)[x] > 0 && x !in h.list ==> h'.rc[x] > 0)
  }

  /** Those that lost a `Cc` and are in no list have become candidates; the `Cc`s are not pending any
      more; nothing else has changed. */
  ghost predicate Settled<T>(h: Heap<T>, lost: multiset<T>, f: set<T>, h': Heap<T>) {
    && f <= h.kids.Keys
    && h'.p == h.p + (Elements(Gone(h, lost, f)) - h.list) - f
    && h'.pending == h.pending - lost && h'.handles == h.handles
    && h'.fin == h.fin - f && h'.dropped == h.dropped && h'.building == h.building
    && h'.list == h.list && h'.phase == h.phase
    && h'.collecting == h.collecting && h'.finalizing == h.finalizing && h'.dropping == h.dropping
    && h'.w.weaks == h.w.weaks
  }

  /** Dropping the `Cc`s `lost` leads from `h` to `h'` and frees the boxes `freed`. */
  ghost predicate Cascade<T>(h: Heap<T>, lost: multiset<T>, freed: seq<T>, h': Heap<T>) {
    && Freeable(h, lost, freed)
    && Counted(h, lost, Members(freed), h') && Settled(h, lost, Members(freed), h')
  }

  lemma LoseCascades<T>(h: Heap<T>, n: T)
    requires h.Typed() && h.Conserved() && Dropping(h, n) && (n in h.list || h.rc[n] != 1)
    ensures Cascade(h, multiset{n}, [], Lost(h, n))
  {
    assert Members<T>([]) == {};
    assert Gone(h, multiset{n}, {}) == multiset{n};
    CountLost(h, n);
    SettleLost(h, n);
    hide Counted, Settled, Lost;
  }

  lemma SettleLost<T>(h: Heap<T>, n: T)
    requires h.Typed() && Dropping(h, n)
    ensures Settled(h, multiset{n}, {}, Lost(h, n))
  {
    assert Gone(h, multiset{n}, {}) == multiset{n};
  }

  lemma CountLost<T>(h: Heap<T>, n: T)
    requires h.Typed() && h.Conserved() && Dropping(h, n) && (n in h.list || h.rc[n] != 1)
    ensures Counted(h, multiset{n}, {}, Lost(h, n))
  {
    assert Gone(h, multiset{n}, {}) == multiset{n};
    assert h.kids - {} == h.kids;
  }

  lemma FlagsDoNotMatter<T>(h: Heap<T>, lost: multiset<T>, freed: seq<T>, h': Heap<T>, d: bool)
    requires Cascade(h, lost, freed, h')
    ensures Cascade(h.(dropping := d), lost, freed, h'.(dropping := d))
  {
    var k := h.(dropping := d);
    assert k.Live() == h.Live();
    forall i | 0 <= i < |freed|
      ensures FreeableAfter(k, lost, freed[..i], freed[i])
    {
      assert FreeableAfter(h, lost, freed[..i], freed[i]);
    }
  }

  /** Nothing is dropped. */
  lemma NothingCascades<T>(h: Heap<T>)
    requires h.Typed()
    ensures Cascade(h, multiset{}, [], h)
  {
    assert Members<T>([]) == {};
    assert Gone(h, multiset{}, {}) == multiset{};
  }

  // ----- one drop after the other -----------------------------------------------------------------------

  lemma GoneTwice<T>(h: Heap<T>, lost: multiset<T>, f: set<T>, h': Heap<T>, lost': multiset<T>, f': set<T>)
    requires f <= h.kids.Keys && h'.kids == h.kids - f && f' <= h'.kids.Keys
    ensures f + f' <= h.kids.Keys && f !! f'
    ensures Gone(h, lost + lost', f + f') == Gone(h, lost, f) + Gone(h', lost', f')
  {
    OutUnion(h.kids, f, f');
    OutFrame(h.kids, h'.kids, f');
  }

  lemma FreeableLater<T>(h: Heap<T>, lost: multiset<T>, freed: seq<T>, h': Heap<T>, lost': multiset<T>,
                         before: seq<T>, x: T)
    requires Counted(h, lost, Members(freed), h') && FreeableAfter(h', lost', before, x)
    ensures FreeableAfter(h, lost + lost', freed + before, x)
  {
    assert Members(freed + before) == Members(freed) + Members(before);
    GoneTwice(h, lost, Members(freed), h', lost', Members(before));
    assert x in h'.rc;
  }

  lemma FreeableTwice<T>(h: Heap<T>, lost: multiset<T>, freed: seq<T>, h': Heap<T>, lost': multiset<T>, freed': seq<T>)
    requires Freeable(h, lost, freed) && Counted(h, lost, Members(freed), h') && Freeable(h', lost', freed')
    ensures Freeable(h, lost + lost', freed + freed')
  {
    hide Counted;
    var both := freed + freed';
    forall i | 0 <= i < |both|
      ensures FreeableAfter(h, lost + lost', both[..i], both[i])
    {
      if i < |freed| {
        assert FreeableAfter(h, lost, freed[..i], freed[i]);
        assert both[..i] == freed[..i];
      } else {
        var k := i - |freed|;
        assert both[..i] == freed + freed'[..k];
        hide FreeableAfter;
        FreeableLater(h, lost, freed, h', lost', freed'[..k], freed'[k]);
      }
    }
  }

  lemma CountedTwice<T>(h: Heap<T>, lost: multiset<T>, f: set<T>, m: Heap<T>,
                        lost': multiset<T>, f': set<T>, h': Heap<T>)
    requires Counted(h, lost, f, m) && Counted(m, lost', f', h')
    requires m.dropped == h.dropped && m.building == h.building && m.list == h.list
    ensures Counted(h, lost + lost', f + f', h')
  {
    GoneTwice(h, lost, f, m, lost', f');
    assert h.kids - f - f' == h.kids - (f + f');
  }

  lemma SettledTwice<T>(h: Heap<T>, lost: multiset<T>, f: set<T>, m: Heap<T>,
                        lost': multiset<T>, f': set<T>, h': Heap<T>)
    requires m.kids == h.kids - f && f' <= m.kids.Keys && Elements(Gone(m, lost', f')) <= m.kids.Keys
    requires Settled(h, lost, f, m) && Settled(m, lost', f', h')
    ensures Settled(h, lost + lost', f + f', h')
  {
    GoneTwice(h, lost, f, m, lost', f');
    assert h'.pending == h.pending - (lost + lost');
  }

  lemma CascadesCompose<T>(h: Heap<T>, lost: multiset<T>, freed: seq<T>, m: Heap<T>,
                           lost': multiset<T>, freed': seq<T>, h': Heap<T>)
    requires Cascade(h, lost, freed, m) && Cascade(m, lost', freed', h')
    requires Elements(Gone(m, lost', Members(freed'))) <= m.kids.Keys
    ensures Cascade(h, lost + lost', freed + freed', h')
  {
    assert Members(freed + freed') == Members(freed) + Members(freed');
    FreeableTwice(h, lost, freed, m, lost', freed');
    CountedTwice(h, lost, Members(freed), m, lost', Members(freed'), h');
    SettledTwice(h, lost, Members(freed), m, lost', Members(freed'), h');
  }

  // ----- the last `Cc` ----------------------------------------------------------------------------------

  ghost function Destroyed<T>(h: Heap<T>, n: T): Heap<T>
    requires n in h.kids
  {
    Buried(Detached(h, n), n)
  }

  lemma GoneWith<T>(h: Heap<T>, n: T, f: set<T>)
    requires n in h.kids && n !in h.list && n !in f && f <= h.kids.Keys
    ensures Gone(h, multiset{n}, {n} + f) == Gone(Destroyed(h, n), multiset(h.kids[n]), f) + multiset{n}
  {
    OutSplit(h.kids, {n} + f, n);
    assert {n} + f - {n} == f;
    OutFrame(h.kids, Destroyed(h, n).kids, f);
  }

  lemma FreeableBehind<T>(h: Heap<T>, n: T, before: seq<T>, x: T)
    requires h.Typed() && n in h.kids && n !in h.list && n !in before && x != n
    requires FreeableAfter(Destroyed(h, n), multiset(h.kids[n]), before, x)
    ensures FreeableAfter(h, multiset{n}, [n] + before, x)
  {
    assert Members([n] + before) == {n} + Members(before);
    assert Members(before) <= Destroyed(h, n).kids.Keys;
    GoneWith(h, n, Members(before));
  }

  lemma FreeableFirst<T>(h: Heap<T>, n: T)
    requires n in h.rc && h.rc[n] == 1
    ensures FreeableAfter(h, multiset{n}, [], n)
  {
    assert Members<T>([]) == {};
  }

  lemma FreeableWith<T>(h: Heap<T>, n: T, freed: seq<T>)
    requires h.Typed() && LastCc(h, n) && n !in freed
    requires Freeable(Destroyed(h, n), multiset(h.kids[n]), freed)
    ensures Freeable(h, multiset{n}, [n] + freed)
  {
    hide FreeableAfter, Destroyed;
    var all := [n] + freed;
    forall i | 0 <= i < |all|
      ensures FreeableAfter(h, multiset{n}, all[..i], all[i])
    {
      if i == 0 {
        FreeableFirst(h, n);
        assert all[..0] == [];
      } else {
        assert all[..i] == [n] + freed[..i - 1] && all[i] == freed[i - 1] != n;
        FreeableBehind(h, n, freed[..i - 1], freed[i - 1]);
      }
    }
  }

  lemma CountedWith<T>(h: Heap<T>, n: T, f: set<T>, m: Heap<T>)
    requires h.Typed() && LastCc(h, n) && n in h.Live() && n !in f
    requires Counted(Destroyed(h, n), multiset(h.kids[n]), f, m)
    ensures Counted(h, multiset{n}, {n} + f, Freed(m, n))
  {
    GoneWith(h, n, f);
    assert h.kids[n := []] - f - {n} == h.kids - ({n} + f);
  }

  lemma SettledWith<T>(h: Heap<T>, n: T, f: set<T>, m: Heap<T>)
    requires n in h.kids && n in h.rc && n !in h.list && n in h.Live() && n in h.pending && n !in f && f <= h.kids.Keys
    requires Settled(Destroyed(h, n), multiset(h.kids[n]), f, m)
    requires n !in Elements(Gone(Destroyed(h, n), multiset(h.kids[n]), f))
    ensures Settled(h, multiset{n}, {n} + f, Freed(m, n))
  {
    hide Gone, Destroyed;
    GoneWith(h, n, f);
    DestroyedParts(h, n);
    CandidatesWith(h.p, Elements(Gone(Destroyed(h, n), multiset(h.kids[n]), f)), h.list, f, n);
    assert Elements(Gone(h, multiset{n}, {n} + f)) == Elements(Gone(Destroyed(h, n), multiset(h.kids[n]), f)) + {n};
    assert h.pending + multiset(h.kids[n]) - multiset{n} - multiset(h.kids[n]) == h.pending - multiset{n};
    assert h.dropped + {n} - {n} == h.dropped && h.fin - f - {n} == h.fin - ({n} + f) && m.building - {n} == h.building;
  }

  lemma DestroyedParts<T>(h: Heap<T>, n: T)
    requires n in h.kids && n in h.rc && n !in h.list
    ensures Destroyed(h, n) == h.(kids := h.kids[n := []], rc := h.rc[n := 0], p := h.p - {n},
      dropped := h.dropped + {n},
                                  pending := h.pending + multiset(h.kids[n]) - multiset{n})
    ensures Destroyed(h, n).kids.Keys == h.kids.Keys
  {}

  lemma CandidatesWith<T>(p: set<T>, gone: set<T>, list: set<T>, f: set<T>, n: T)
    requires n !in gone && n !in list
    ensures (p - {n}) + (gone - list) - f == p + (gone + {n} - list) - ({n} + f)
  {}

  lemma LastCcCascades<T>(h: Heap<T>, n: T, freed: seq<T>, m: Heap<T>)
    requires h.Typed() && LastCc(h, n) && n in h.Live()
    requires Cascade(Destroyed(h, n), multiset(h.kids[n]), freed, m)
    ensures Cascade(h, multiset{n}, [n] + freed, Freed(m, n))
  {
    assert n in Destroyed(h, n).dropped;
    assert n !in Members(freed) && n !in freed;
    assert Members([n] + freed) == {n} + Members(freed);
    FreeableWith(h, n, freed);
    CountedWith(h, n, Members(freed), m);
    assert m.rc[n] == Destroyed(h, n).rc[n] == 0;
    SettledWith(h, n, Members(freed), m);
  }

  // ----- exactly the boxes without a `Cc` are freed ---------------------------------------------------------

  /** Boxes that no `Cc` outside of `s` points to once `lost` are gone belong to `s`. */
  ghost predicate DropClosed<T>(h: Heap<T>, lost: multiset<T>, s: set<T>) {
    && s <= h.kids.Keys
    && forall x | x in h.rc && x !in h.list && 0 < h.rc[x] <= Gone(h, lost, s)[x] :: x in s
  }

  lemma CcsAreCounted<T>(h: Heap<T>, lost: multiset<T>, s: set<T>, x: T)
    requires h.Typed() && h.Conserved() && lost <= h.pending && s <= h.kids.Keys && x in h.kids
    ensures Gone(h, lost, s)[x] <= h.rc[x]
  {
    OutMono(h.kids, s, h.kids.Keys);
  }

  /** The freed boxes are the least set of that kind: a box goes only if all its `Cc`s are gone, ... */
  lemma {:induction false} FreedIsLeast<T>(h: Heap<T>, lost: multiset<T>, freed: seq<T>, i: nat, s: set<T>)
    requires Freeable(h, lost, freed) && DropClosed(h, lost, s) && i <= |freed|
    requires forall x | x in freed :: x !in h.list
    ensures Members(freed[..i]) <= s
    decreases i
  {
    if i > 0 {
      hide FreeableAfter, DropClosed;
      FreedIsLeast(h, lost, freed, i - 1, s);
      FreeableIsIn(h, lost, freed[..i - 1], freed[i - 1], s);
      assert freed[..i] == freed[..i - 1] + [freed[i - 1]];
    }
  }

  lemma FreeableIsIn<T>(h: Heap<T>, lost: multiset<T>, before: seq<T>, x: T, s: set<T>)
    requires FreeableAfter(h, lost, before, x) && DropClosed(h, lost, s) && Members(before) <= s && x !in h.list
    ensures x in s
  {
    OutMono(h.kids, Members(before), s);
  }

  /** ... and every box that has none left went. */
  lemma FreedIsClosed<T>(h: Heap<T>, lost: multiset<T>, freed: seq<T>, h': Heap<T>)
    requires h.Typed() && Counted(h, lost, Members(freed), h')
    ensures DropClosed(h, lost, Members(freed))
  {
  }

  /** With nothing to finalize, dropping a `Cc` frees exactly the least set of boxes that are left without
      a `Cc`, all of whose `Cc`s are gone; every other box that lost a `Cc` becomes a candidate, unless it
      is in a list, and the counters of all boxes drop by the `Cc`s they lost. */
  lemma CascadeIsExact<T>(h: Heap<T>, lost: multiset<T>, freed: seq<T>, h': Heap<T>, s: set<T>)
    requires h.Valid() && lost <= h.pending && Cascade(h, lost, freed, h') && DropClosed(h, lost, s)
    ensures Members(freed) <= s && DropClosed(h, lost, Members(freed))
    ensures forall x | x in freed :: x in h.kids && h.rc[x] == Gone(h, lost, Members(freed))[x]
    ensures forall x | x in h'.kids && Gone(h, lost, Members(freed))[x] > 0 :: x in h'.p + h'.list
  {
    FreedIsClosed(h, lost, freed, h');
    FreedIsLeast(h, lost, freed, |freed|, s);
    assert freed[..|freed|] == freed;
    forall x | x in freed
      ensures x in h.kids && h.rc[x] == Gone(h, lost, Members(freed))[x]
    {
      var i :| 0 <= i < |freed| && freed[i] == x;
      assert FreeableAfter(h, lost, freed[..i], x);
      OutMono(h.kids, Members(freed[..i]), Members(freed));
      CcsAreCounted(h, lost, Members(freed), x);
    }
  }
}

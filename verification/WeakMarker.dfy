/** The 16-bit cell in which a metadata block keeps its counter and the accessible bit: the packed
    representation of a `Block`. */
module WeakMarkers {
  import opened WeakTables

  type Word = w: nat | w < 0x1_0000

  function Low(w: nat): nat { w % 0x8000 }
  function High(w: nat): bool { w >= 0x8000 }
  function Decode(w: Word): Block { Block(Low(w), High(w)) }

  function WithHigh(w: nat, b: bool): nat {
    if b == High(w) then w else if b then w + 0x8000 else w - 0x8000
  }

  /** A word is determined by what it decodes to. */
  lemma DecodingIsInjective(v: Word, w: Word)
    ensures Decode(v) == Decode(w) ==> v == w
  {}

  // ----- the arithmetic above is the bit operations of the source ---------------------------------------

  lemma SplitWord(w: bv16)
    ensures w as nat == 0x8000 * ((w >> 15) as nat) + (w & 0x7FFF) as nat
    ensures (w & 0x7FFF) as nat < 0x8000 && (w >> 15) as nat < 2
  {}

  lemma MasksSelect(w: bv16)
    ensures (w & 0x7FFF) as nat == Low(w as nat)
    ensures w & 0x8000 != 0 <==> High(w as nat)
  {
    SplitWord(w);
    HighBit(w);
    HighValue(w);
    SplitNat(w as nat, (w >> 15) as nat, (w & 0x7FFF) as nat);
  }

  lemma SplitNat(w: nat, high: nat, low: nat)
    requires w == 0x8000 * high + low && low < 0x8000 && high < 2
    ensures low == Low(w) && (High(w) <==> high == 1)
  {}

  lemma HighValue(w: bv16)
    ensures w >> 15 == 1 <==> (w >> 15) as nat == 1
  {}

  lemma HighBit(w: bv16)
    ensures w & 0x8000 != 0 <==> w >> 15 == 1
    ensures w >> 15 == 0 || w >> 15 == 1
  {}

  lemma SetAndClear(w: bv16)
    ensures (w | 0x8000) as nat == WithHigh(w as nat, true)
    ensures (w & !0x8000) as nat == WithHigh(w as nat, false)
  {
    SetBit(w);
    ClearBit(w);
    ChangeHigh(w | 0x8000, w);
    ChangeHigh(w & !0x8000, w);
  }

  ghost predicate SameLow(v: bv16, w: bv16) { v & 0x7FFF == w & 0x7FFF }
  ghost predicate HasBit(w: bv16) { w & 0x8000 != 0 }

  lemma SetBit(w: bv16)
    ensures SameLow(w | 0x8000, w) && HasBit(w | 0x8000)
  {}

  lemma ClearBit(w: bv16)
    ensures SameLow(w & !0x8000, w) && !HasBit(w & !0x8000)
  {}

  lemma ChangeHigh(v: bv16, w: bv16)
    requires SameLow(v, w)
    ensures v as nat == WithHigh(w as nat, HasBit(v))
  {
    hide SameLow, HasBit;
    SameLowValue(v, w);
    BitValue(v);
    ChangeHighNat(v as nat, w as nat);
  }

  lemma SameLowValue(v: bv16, w: bv16)
    requires SameLow(v, w)
    ensures Low(v as nat) == Low(w as nat)
  {
    MasksSelect(v);
    MasksSelect(w);
  }

  lemma BitValue(w: bv16)
    ensures HasBit(w) == High(w as nat)
  {
    MasksSelect(w);
  }

  lemma ChangeHighNat(v: Word, w: Word)
    requires Low(v) == Low(w)
    ensures v == WithHigh(w, High(v))
  {}

  class WeakCounterMarker {
    var weakCounter: Word

    function Value(): Block reads this { Decode(weakCounter) }

    constructor (accessible: bool)
      ensures Value() == Block(0, accessible)
    {
      weakCounter := if accessible then 0x8000 else 0;
    }

    /** The counter never carries into the accessible bit. */
    method IncrementCounter() returns (ok: bool)
      modifies this
      ensures ok <==> old(Value()).count < MAX_WEAK
      ensures Value() == if ok then old(Value()).Incremented() else old(Value())
    {
      ok := Low(weakCounter) != MAX_WEAK;
      if ok {
        weakCounter := weakCounter + 1;
      }
    }

    method DecrementCounter() returns (ok: bool)
      modifies this
      ensures ok <==> old(Value()).count > 0
      ensures Value() == old(Value()).Decremented()
    {
      ok := Low(weakCounter) != 0;
      if ok {
        weakCounter := weakCounter - 1;
      }
    }

    method SetAccessible(accessible: bool)
      modifies this
      ensures Value() == old(Value()).(accessible := accessible)
    {
      weakCounter := WithHigh(weakCounter, accessible);
    }
  }
}

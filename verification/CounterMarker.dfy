/** The two 16-bit cells in which a box keeps its tag, its two counters and its flags.

    `TracingCell` and `CounterCell` are the cells decoded; boxes use them.  `CounterMarker` is the
    packed representation: each of its operations is shown to do to the decoded cells exactly what
    the operation of the same name below says, and so never to disturb a neighbouring field. */
module CounterMarkers {

  /** The reserved counter value; as a tracing counter it says that the value has been dropped. */
  const RESERVED: nat := 16383
  const MAX: nat := 16382

  datatype Mark = NonMarked | PossibleCycles | InList | InQueue

  datatype TracingCell = TracingCell(mark: Mark, tc: nat) {
    predicate IsInListOrQueue() { mark.InList? || mark.InQueue? }
    predicate IsDropped() { tc == RESERVED }
    function Marked(m: Mark): TracingCell { this.(mark := m) }
    function Incremented(): TracingCell { if tc == MAX then this else this.(tc := tc + 1) }
    function Reset(): TracingCell { this.(tc := 0) }
    function Dropped(): TracingCell { this.(tc := RESERVED) }
  }

  datatype CounterCell = CounterCell(metadata: bool, finalized: bool, rc: nat) {
    function Incremented(): CounterCell { if rc == MAX then this else this.(rc := rc + 1) }
    function Decremented(): CounterCell { if rc == 0 then this else this.(rc := rc - 1) }
  }

  /** The cells of a new box. */
  function InitialTracing(): TracingCell { TracingCell(NonMarked, 1) }
  function InitialCounter(finalized: bool): CounterCell { CounterCell(false, finalized, 1) }

  // ----- the packed representation ----------------------------------------------------------------

  /** A 16-bit word.  The bit operations of the cells act on its low 14 bits (`w & COUNTER_MASK`) and
      on its two high bits; `Bits` shows that the arithmetic used here is those operations. */
  type Word = w: nat | w < 0x1_0000

  function Low(w: nat): nat { w % 0x4000 }
  function High(w: nat): nat { w / 0x4000 }
  function Bit15(w: nat): bool { High(w) >= 2 }
  function Bit14(w: nat): bool { High(w) % 2 == 1 }
  function WithLow(w: nat, low: nat): nat { High(w) * 0x4000 + low }
  function WithHigh(w: nat, high: nat): nat { high * 0x4000 + Low(w) }
  function WithBit15(w: nat, b: bool): nat {
    if b == Bit15(w) then w else if b then w + 0x8000 else w - 0x8000
  }
  function WithBit14(w: nat, b: bool): nat {
    if b == Bit14(w) then w else if b then w + 0x4000 else w - 0x4000
  }

  function MarkBits(m: Mark): nat {
    match m case NonMarked => 0 case PossibleCycles => 1 case InList => 2 case InQueue => 3
  }

  function DecodeMark(high: nat): Mark {
    if high == 0 then NonMarked else if high == 1 then PossibleCycles else if high == 2 then InList else InQueue
  }

  function DecodeTracing(w: Word): TracingCell { TracingCell(DecodeMark(High(w)), Low(w)) }
  function DecodeCounter(w: Word): CounterCell { CounterCell(Bit15(w), Bit14(w), Low(w)) }

  /** A word is determined by what it decodes to: nothing is hidden from the decoded cells. */
  lemma DecodingIsInjective(v: Word, w: Word)
    ensures DecodeTracing(v) == DecodeTracing(w) ==> v == w
    ensures DecodeCounter(v) == DecodeCounter(w) ==> v == w
  {}

  // ----- the arithmetic above is the bit operations of the source -----------------------------------

  lemma SplitWord(w: bv16)
    ensures w as nat == 0x4000 * ((w >> 14) as nat) + (w & 0x3FFF) as nat
    ensures (w & 0x3FFF) as nat < 0x4000
  {}

  lemma MasksSelect(w: bv16)
    ensures (w & 0x3FFF) as nat == Low(w as nat)
    ensures (w >> 14) as nat == High(w as nat)
  {
    SplitWord(w);
  }

  lemma HighCases(w: bv16)
    ensures w >> 14 == 0 || w >> 14 == 1 || w >> 14 == 2 || w >> 14 == 3
    ensures w & 0x8000 == 0x8000 <==> w >> 14 == 2 || w >> 14 == 3
    ensures w & 0x4000 == 0 <==> w >> 14 == 0 || w >> 14 == 2
    ensures w & 0xC000 == 0x4000 <==> w >> 14 == 1
    ensures w & 0xC000 == 0x8000 <==> w >> 14 == 2
  {}

  lemma HighValue(w: bv16)
    ensures High(w as nat) == HighBits(w)
  {
    MasksSelect(w);
    HighCases(w);
  }

  lemma TestsSelect(w: bv16)
    ensures w & 0x8000 == 0x8000 <==> Bit15(w as nat)
    ensures w & 0x4000 == 0 <==> !Bit14(w as nat)
    ensures w & 0xC000 == 0x4000 <==> High(w as nat) == 1
    ensures w & 0xC000 == 0x8000 <==> High(w as nat) == 2
  {
    HighValue(w);
    HighCases(w);
  }

  lemma FillAndClear(w: bv16)
    ensures (w | 0x3FFF) as nat == WithLow(w as nat, RESERVED)
    ensures (w & !0x3FFF) as nat == WithLow(w as nat, 0)
  {
    hide *;
    Fill(w);
    Clear(w);
  }

  lemma Fill(w: bv16)
    ensures (w | 0x3FFF) as nat == WithLow(w as nat, RESERVED)
  {
    hide SameWords, High;
    FillBits(w);
    Recombine(w | 0x3FFF, 0x3FFF, w);
  }

  lemma Clear(w: bv16)
    ensures (w & !0x3FFF) as nat == WithLow(w as nat, 0)
  {
    hide SameWords, High;
    ClearBits(w);
    Recombine(w & !0x3FFF, 0, w);
  }

  lemma FillBits(w: bv16)
    ensures SameWords(w | 0x3FFF, 0x3FFF, w)
  {}

  lemma ClearBits(w: bv16)
    ensures SameWords(w & !0x3FFF, 0, w)
  {}

  lemma ReplaceMark(w: bv16, m: bv16)
    requires m == 0x0000 || m == 0x4000 || m == 0x8000 || m == 0xC000
    ensures ((w & !0xC000) | m) as nat == WithHigh(w as nat, High(m as nat))
  {
    hide SameWords;
    ReplaceMarkBits(w, m);
    Recombine((w & !0xC000) | m, w, m);
  }

  lemma ReplaceMarkBits(w: bv16, m: bv16)
    requires m == 0x0000 || m == 0x4000 || m == 0x8000 || m == 0xC000
    ensures SameWords((w & !0xC000) | m, w, m)
  {}

  /** `v` has the low bits of `low` and the high bits of `high`. */
  ghost predicate SameWords(v: bv16, low: bv16, high: bv16) {
    v & 0x3FFF == low & 0x3FFF && v >> 14 == high >> 14
  }

  lemma Recombine(v: bv16, low: bv16, high: bv16)
    requires SameWords(v, low, high)
    ensures v as nat == WithHigh(low as nat, High(high as nat))
  {
    SplitWord(v);
    MasksSelect(low);
    MasksSelect(high);
  }

  lemma SetFirstBit(w: bv16)
    ensures (w | 0x8000) as nat == WithBit15(w as nat, true)
  {
    SetFlagBits(w);
    ChangeHigh(w | 0x8000, w);
  }

  lemma ClearFirstBit(w: bv16)
    ensures (w & !0x8000) as nat == WithBit15(w as nat, false)
  {
    ClearFlagBits(w);
    ChangeHigh(w & !0x8000, w);
  }

  lemma SetFinalizedBit(w: bv16)
    ensures (w | 0x4000) as nat == WithBit14(w as nat, true)
  {
    SetFlagBits(w);
    ChangeHigh(w | 0x4000, w);
  }

  lemma ClearFinalizedBit(w: bv16)
    ensures (w & !0x4000) as nat == WithBit14(w as nat, false)
  {
    ClearFlagBits(w);
    ChangeHigh(w & !0x4000, w);
  }

  ghost predicate SameLow(v: bv16, w: bv16) { v & 0x3FFF == w & 0x3FFF }

  lemma ChangeHigh(v: bv16, w: bv16)
    requires SameLow(v, w)
    ensures HighBits(v) == HighBits(w) % 2 + 2 ==> v as nat == WithBit15(w as nat, true)
    ensures HighBits(v) == HighBits(w) % 2 ==> v as nat == WithBit15(w as nat, false)
    ensures HighBits(v) == HighBits(w) / 2 * 2 + 1 ==> v as nat == WithBit14(w as nat, true)
    ensures HighBits(v) == HighBits(w) / 2 * 2 ==> v as nat == WithBit14(w as nat, false)
  {
    SameLowDiffers(v, w);
    ChangeHighNat(v as nat, w as nat);
  }

  lemma ChangeHighNat(v: nat, w: nat)
    requires Low(v) == Low(w) && High(w) < 4
    ensures High(v) == High(w) % 2 + 2 ==> v == WithBit15(w, true)
    ensures High(v) == High(w) % 2 ==> v == WithBit15(w, false)
    ensures High(v) == High(w) / 2 * 2 + 1 ==> v == WithBit14(w, true)
    ensures High(v) == High(w) / 2 * 2 ==> v == WithBit14(w, false)
  {}

  /** Words with the same low bits differ by their high bits. */
  lemma SameLowDiffers(v: bv16, w: bv16)
    requires SameLow(v, w)
    ensures Low(v as nat) == Low(w as nat)
    ensures HighBits(v) == High(v as nat) && HighBits(w) == High(w as nat)
  {
    MasksSelect(v);
    MasksSelect(w);
    HighValue(v);
    HighValue(w);
  }

  ghost function HighBits(w: bv16): nat { TopValue(Top(w)) }

  ghost function Top(w: bv16): bv16 { w >> 14 }

  ghost function TopValue(t: bv16): nat { if t == 0 then 0 else if t == 1 then 1 else if t == 2 then 2 else 3 }

  lemma SetFlagBits(w: bv16)
    ensures SameLow(w | 0x8000, w) && HighBits(w | 0x8000) == HighBits(w) % 2 + 2
    ensures SameLow(w | 0x4000, w) && HighBits(w | 0x4000) == HighBits(w) / 2 * 2 + 1
  {
    hide SameLow, Top, TopValue;
    SetFirst(w);
    SetSecond(w);
    TopSet(Top(w), Top(w | 0x8000), Top(w | 0x4000));
  }

  lemma SetFirst(w: bv16)
    ensures SameLow(w | 0x8000, w) && Top(w) < 4
    ensures Top(w | 0x8000) == if Top(w) == 0 then 2 else if Top(w) == 1 then 3 else Top(w)
  {}

  lemma SetSecond(w: bv16)
    ensures SameLow(w | 0x4000, w)
    ensures Top(w | 0x4000) == if Top(w) == 0 then 1 else if Top(w) == 2 then 3 else Top(w)
  {}

  lemma TopSet(t: bv16, first: bv16, second: bv16)
    requires t < 4
    requires first == if t == 0 then 2 else if t == 1 then 3 else t
    requires second == if t == 0 then 1 else if t == 2 then 3 else t
    ensures TopValue(first) == TopValue(t) % 2 + 2 && TopValue(second) == TopValue(t) / 2 * 2 + 1
  {}

  lemma ClearFlagBits(w: bv16)
    ensures SameLow(w & !0x8000, w) && HighBits(w & !0x8000) == HighBits(w) % 2
    ensures SameLow(w & !0x4000, w) && HighBits(w & !0x4000) == HighBits(w) / 2 * 2
  {
    hide SameLow, Top, TopValue;
    ClearFirst(w);
    ClearSecond(w);
    TopCleared(Top(w), Top(w & !0x8000), Top(w & !0x4000));
  }

  lemma ClearFirst(w: bv16)
    ensures SameLow(w & !0x8000, w) && Top(w) < 4
    ensures Top(w & !0x8000) == if Top(w) == 2 then 0 else if Top(w) == 3 then 1 else Top(w)
  {}

  lemma ClearSecond(w: bv16)
    ensures SameLow(w & !0x4000, w)
    ensures Top(w & !0x4000) == if Top(w) == 1 then 0 else if Top(w) == 3 then 2 else Top(w)
  {}

  lemma TopCleared(t: bv16, first: bv16, second: bv16)
    requires t < 4
    requires first == if t == 2 then 0 else if t == 3 then 1 else t
    requires second == if t == 1 then 0 else if t == 3 then 2 else t
    ensures TopValue(first) == TopValue(t) % 2 && TopValue(second) == TopValue(t) / 2 * 2
  {}

  class CounterMarker {
    var tracingCounter: Word
    var counter: Word

    function Tracing(): TracingCell reads this { DecodeTracing(tracingCounter) }
    function Counter(): CounterCell reads this { DecodeCounter(counter) }

    /** The strong counter never takes the reserved value. */
    ghost predicate Valid() reads this { Counter().rc <= MAX }

    constructor NewWithCounterToOne(alreadyFinalized: bool)
      ensures Valid() && Tracing() == InitialTracing() && Counter() == InitialCounter(alreadyFinalized)
    {
      tracingCounter := 1;
      counter := if !alreadyFinalized then 1 else 0x4001;
    }

    method IncrementCounter() returns (ok: bool)
      requires Valid()
      modifies this`counter
      ensures Valid() && Counter() == old(Counter()).Incremented()
      ensures ok <==> old(Counter()).rc < MAX
    {
      if Low(counter) == MAX {
        ok := false;
      } else {
        counter := counter + 1;
        ok := true;
      }
    }

    method DecrementCounter() returns (ok: bool)
      requires Valid()
      modifies this`counter
      ensures Valid() && Counter() == old(Counter()).Decremented()
      ensures ok <==> old(Counter()).rc > 0
    {
      if Low(counter) == 0 {
        ok := false;
      } else {
        counter := counter - 1;
        ok := true;
      }
    }

    method IncrementTracingCounter() returns (ok: bool)
      requires !Tracing().IsDropped()
      modifies this`tracingCounter
      ensures Tracing() == old(Tracing()).Incremented()
      ensures ok <==> old(Tracing()).tc < MAX
    {
      if Low(tracingCounter) == MAX {
        ok := false;
      } else {
        tracingCounter := tracingCounter + 1;
        ok := true;
      }
    }

    method ResetTracingCounter()
      requires !Tracing().IsDropped()
      modifies this`tracingCounter
      ensures Tracing() == old(Tracing()).Reset()
    {
      tracingCounter := WithLow(tracingCounter, 0);
    }

    method SetFinalized(b: bool)
      requires Valid()
      modifies this`counter
      ensures Valid() && Counter() == old(Counter()).(finalized := b)
    {
      counter := WithBit14(counter, b);
    }

    method SetAllocatedForMetadata(b: bool)
      requires Valid()
      modifies this`counter
      ensures Valid() && Counter() == old(Counter()).(metadata := b)
    {
      counter := WithBit15(counter, b);
    }

    /** Clearing the flag clears the tracing counter with it. */
    method SetDropped(b: bool)
      modifies this`tracingCounter
      ensures Tracing() == if b then old(Tracing()).Dropped() else old(Tracing()).Reset()
    {
      tracingCounter := WithLow(tracingCounter, if b then RESERVED else 0);
    }

    method SetMark(m: Mark)
      modifies this`tracingCounter
      ensures Tracing() == old(Tracing()).Marked(m)
    {
      tracingCounter := WithHigh(tracingCounter, MarkBits(m));
    }

    method NeedsFinalization() returns (b: bool)
      ensures b == !Counter().finalized
    {
      b := !Bit14(counter);
    }

    method HasAllocatedForMetadata() returns (b: bool)
      ensures b == Counter().metadata
    {
      b := Bit15(counter);
    }

    method IsDropped() returns (b: bool)
      ensures b == Tracing().IsDropped()
    {
      b := Low(tracingCounter) == RESERVED;
    }

    /** One bit tells the two tags of P and of no container from the two of lists and queue. */
    method IsInListOrQueue() returns (b: bool)
      ensures b == Tracing().IsInListOrQueue()
    {
      b := Bit15(tracingCounter);
    }

    method IsInPossibleCycles() returns (b: bool)
      ensures b == Tracing().mark.PossibleCycles?
    {
      b := High(tracingCounter) == 1;
    }

    method IsInList() returns (b: bool)
      ensures b == Tracing().mark.InList?
    {
      b := High(tracingCounter) == 2;
    }
  }
}

/** When collections start by themselves: the threshold on the allocated bytes. */
module Configs {

  const DEFAULT_BYTES_THRESHOLD: nat := 100
  const WORD: nat := 0x1_0000_0000_0000_0000

  function Pow2(n: nat): (r: nat)
    ensures r > 0
  {
    if n == 0 then 1 else 2 * Pow2(n - 1)
  }

  /** The thresholds there are: the default, doubled some number of times. */
  function Threshold(k: nat): nat { DEFAULT_BYTES_THRESHOLD * Pow2(k) }

  /** The number of times that the default threshold can be doubled within a 64-bit word. */
  const MAX_DOUBLINGS: nat := 57
  const LARGEST_THRESHOLD: nat := 25 * 0x800_0000_0000_0000

  /** A shift left by one.  Shifting is only refused for shift amounts of 64 and more, so the bits
      that do not fit are lost. */
  function Doubled(t: nat): nat { (2 * t) % WORD }

  function DoubledTimes(t: nat, n: nat): nat { if n == 0 then t else Doubled(DoubledTimes(t, n - 1)) }

  lemma {:induction false} Pow2Monotone(j: nat, k: nat)
    requires j <= k
    ensures Pow2(j) <= Pow2(k)
    decreases k
  {
    if j < k { Pow2Monotone(j, k - 1); }
  }

  lemma ThresholdMonotone(j: nat, k: nat)
    requires j <= k
    ensures Threshold(j) <= Threshold(k)
  {
    Pow2Monotone(j, k);
  }

  lemma LargestThreshold()
    ensures Threshold(MAX_DOUBLINGS) == LARGEST_THRESHOLD
  {
    Pow2Of57();
  }

  lemma Pow2Of57()
    ensures Pow2(57) == 0x200_0000_0000_0000
  {
    assert Pow2(8) == 256;
    Pow2Add(8, 8);
    Pow2Add(16, 16);
    Pow2Add(32, 16);
    Pow2Add(48, 8);
    assert Pow2(57) == 2 * Pow2(56);
  }

  lemma {:induction false} Pow2Add(j: nat, k: nat)
    ensures Pow2(j + k) == Pow2(j) * Pow2(k)
    decreases k
  {
    if k > 0 { Pow2Add(j, k - 1); }
  }

  lemma DoublingThresholds(k: nat)
    requires k < MAX_DOUBLINGS
    ensures Doubled(Threshold(k)) == Threshold(k + 1) < WORD
  {
    LargestThreshold();
    ThresholdMonotone(k + 1, MAX_DOUBLINGS);
  }

  // ----- when growing ends ------------------------------------------------------------------------------

  lemma {:induction false} DoubledWithinWord(k: nat, n: nat)
    requires k + n <= MAX_DOUBLINGS
    ensures DoubledTimes(Threshold(k), n) == Threshold(k + n)
    decreases n
  {
    if n > 0 {
      DoubledWithinWord(k, n - 1);
      DoublingThresholds(k + n - 1);
    }
  }

  /** Past the largest threshold the word wraps around: four more values, all smaller, then 0 for ever. */
  lemma {:induction false} DoubledBeyondWord(k: nat, n: nat)
    requires k <= MAX_DOUBLINGS < k + n
    ensures DoubledTimes(Threshold(k), n) < Threshold(MAX_DOUBLINGS)
    ensures k + n >= 62 ==> DoubledTimes(Threshold(k), n) == 0
    ensures k + n == 58 ==> DoubledTimes(Threshold(k), n) == 9 * 0x1000_0000_0000_0000
    ensures 59 <= k + n <= 61 ==> DoubledTimes(Threshold(k), n) == 0x2000_0000_0000_0000 * Pow2(k + n - 59)
    decreases n
  {
    LargestThreshold();
    assert Pow2(0) == 1 && Pow2(1) == 2 && Pow2(2) == 4;
    if k + n == 58 {
      DoubledWithinWord(k, n - 1);
    } else {
      DoubledBeyondWord(k, n - 1);
    }
  }

  /** Doubling exceeds the allocated bytes at some point if and only if they are below the largest threshold. */
  lemma GrowthEndsIff(k: nat, bytes: nat)
    requires k <= MAX_DOUBLINGS
    ensures (exists n :: bytes < DoubledTimes(Threshold(k), n)) <==> bytes < Threshold(MAX_DOUBLINGS)
  {
    if bytes < Threshold(MAX_DOUBLINGS) {
      DoubledWithinWord(k, MAX_DOUBLINGS - k);
      assert bytes < DoubledTimes(Threshold(k), MAX_DOUBLINGS - k);
    } else {
      forall n: nat
        ensures DoubledTimes(Threshold(k), n) <= bytes
      {
        if k + n <= MAX_DOUBLINGS {
          DoubledWithinWord(k, n);
          ThresholdMonotone(k + n, MAX_DOUBLINGS);
        } else {
          DoubledBeyondWord(k, n);
        }
      }
    }
  }

  // ----- what adjusting is for --------------------------------------------------------------------------

  /** The part of a threshold that the allocated bytes are compared with. */
  function Share(threshold: nat, percent: real): real { threshold as real * percent }

  lemma ShareMonotone(s: nat, t: nat, percent: real)
    requires s <= t && 0.0 <= percent
    ensures Share(s, percent) <= Share(t, percent)
  {}

  lemma ShareIsZero(t: nat, percent: real)
    requires t > 0
    ensures Share(t, percent) == 0.0 <==> percent == 0.0
  {}

  lemma TimesSmaller(t: real, p: real, q: real)
    requires p < q && t > 0.0
    ensures t * p < t * q
  {}

  lemma ShareOfDouble(t: nat, percent: real)
    requires percent < 0.5 && t > 0
    ensures Share(2 * t, percent) < t as real
  {
    TimesSmaller((2 * t) as real, percent, 0.5);
  }

  /** What the source calls the invariant of the threshold. */
  ghost predicate Fits(k: nat, percent: real, bytes: nat) {
    Share(Threshold(k), percent) < bytes as real && bytes < Threshold(k)
  }

  /** The bytes are few enough for the threshold to be halved. */
  ghost predicate CanHalve(percent: real, bytes: nat, k: nat) {
    bytes as real <= Share(Threshold(k), percent) && 2 * bytes < Threshold(k)
  }

  /** How often the default threshold has to be doubled to exceed the bytes. */
  ghost function LeastAbove(bytes: nat): (k: nat)
    ensures bytes < Threshold(k) && (k > 0 ==> Threshold(k - 1) <= bytes)
  {
    ExceedsIndex(bytes);
    LeastFrom(bytes, bytes)
  }

  ghost function LeastFrom(bytes: nat, k: nat): (j: nat)
    requires bytes < Threshold(k)
    ensures bytes < Threshold(j) && (j > 0 ==> Threshold(j - 1) <= bytes)
  {
    if k == 0 || Threshold(k - 1) <= bytes then k else LeastFrom(bytes, k - 1)
  }

  lemma {:induction false} ExceedsIndex(n: nat)
    ensures n < Threshold(n)
  {
    if n > 0 { ExceedsIndex(n - 1); }
  }

  /** Where `adjust` ends when it starts from the default doubled `was` times. */
  ghost predicate Adjusted(was: nat, percent: real, bytes: nat, k: nat) {
    && bytes < Threshold(k)
    && (if bytes >= Threshold(was) then k > was && Threshold(k - 1) <= bytes
        else && k <= was && (forall j | k < j <= was :: CanHalve(percent, bytes, j))
             && (k > 0 && percent > 0.0 ==> !CanHalve(percent, bytes, k))
             && (percent == 0.0 ==> k == was))
  }

  lemma AdjustedIsAtRest(was: nat, percent: real, bytes: nat, k: nat)
    requires Adjusted(was, percent, bytes, k) && percent > 0.0
    ensures Threshold(k) == 100 || Threshold(k) as real * percent < bytes as real || Threshold(k) <= 2 * bytes
  {
    if k > 0 { assert Threshold(k) == 2 * Threshold(k - 1); }
  }

  /** The claimed invariant holds after `adjust` exactly if some threshold satisfies it, ... */
  lemma FitsIff(was: nat, percent: real, bytes: nat, k: nat)
    requires 0.0 <= percent <= 1.0 && Adjusted(was, percent, bytes, k)
    ensures Fits(k, percent, bytes) <==> exists j: nat :: Fits(j, percent, bytes)
  {
    hide Share;
    forall j: nat | Fits(j, percent, bytes)
      ensures Fits(k, percent, bytes)
    {
      if k <= j {
        ThresholdMonotone(k, j);
        ShareMonotone(Threshold(k), Threshold(j), percent);
      } else {
        ThresholdMonotone(j, k - 1);
        ShareIsZero(Threshold(j), percent);
        ShareIsZero(Threshold(k), percent);
        assert Threshold(k) == 2 * Threshold(k - 1);
      }
    }
  }

  /** ... and then the least one above the bytes does. */
  lemma LeastFits(percent: real, bytes: nat)
    requires 0.0 <= percent
    ensures (exists j: nat :: Fits(j, percent, bytes)) <==> Fits(LeastAbove(bytes), percent, bytes)
  {
    hide Share;
    var k := LeastAbove(bytes);
    forall j: nat | Fits(j, percent, bytes)
      ensures Fits(k, percent, bytes)
    {
      if j < k { ThresholdMonotone(j, k - 1); }
      ThresholdMonotone(k, j);
      ShareMonotone(Threshold(k), Threshold(j), percent);
    }
  }

  /** For percentages below one half, as the default is, these are the bytes above the percentage of the
      default threshold. */
  lemma FitsBelowHalf(percent: real, bytes: nat)
    requires 0.0 <= percent < 0.5
    ensures Fits(LeastAbove(bytes), percent, bytes) <==> bytes as real > Share(DEFAULT_BYTES_THRESHOLD, percent)
  {
    hide Share;
    var k := LeastAbove(bytes);
    ThresholdMonotone(0, k);
    ShareMonotone(Threshold(0), Threshold(k), percent);
    if k > 0 {
      ThresholdMonotone(0, k - 1);
      ShareOfDouble(Threshold(k - 1), percent);
      ShareOfDouble(Threshold(0), percent);
      ShareMonotone(Threshold(0), 2 * Threshold(0), percent);
    }
  }

  /** With nothing allocated no percentage fits, wherever `adjust` starts. */
  lemma NothingAllocatedDoesNotFit(was: nat, percent: real, k: nat)
    requires 0.0 <= percent <= 1.0 && Adjusted(was, percent, 0, k)
    ensures !Fits(k, percent, 0)
  {
    hide Share;
    ShareMonotone(0, Threshold(k), percent);
    ShareOfNothing(percent);
  }

  lemma ShareOfNothing(percent: real)
    ensures Share(0, percent) == 0.0
  {}

  // ----- the configuration ------------------------------------------------------------------------------

  datatype Option<T> = None | Some(value: T)

  /** The settings, and how often the default threshold has been doubled. */
  datatype Settings = Settings(bytesThreshold: nat, adjustmentPercent: real, bufferedThreshold: Option<nat>,
                               autoCollect: bool, doublings: nat)

  /** Adjusting has led from one to the other, and has changed the threshold alone. */
  ghost predicate AdjustedTo(before: Settings, bytes: nat, after: Settings) {
    && Adjusted(before.doublings, before.adjustmentPercent, bytes, after.doublings)
    && after == before.(bytesThreshold := Threshold(after.doublings), doublings := after.doublings)
  }

  class Config {
    var bytesThreshold: nat
    var adjustmentPercent: real
    var bufferedThreshold: Option<nat>
    var autoCollect: bool
    /** How many times the default threshold has been doubled. */
    ghost var doublings: nat

    ghost predicate Valid()
      reads this
    {
      && doublings <= MAX_DOUBLINGS && bytesThreshold == Threshold(doublings)
      && 0.0 <= adjustmentPercent <= 1.0
      && (bufferedThreshold.Some? ==> bufferedThreshold.value > 0)
    }

    ghost function Current(): Settings
      reads this
    {
      Settings(bytesThreshold, adjustmentPercent, bufferedThreshold, autoCollect, doublings)
    }

    /** The threshold is above the bytes, and low enough: it is the default, or the bytes are more than the
        percentage of it or at least half of it. */
    ghost predicate AtRest(bytes: nat)
      reads this
    {
      && bytes < bytesThreshold
      && (adjustmentPercent > 0.0 ==>
            || bytesThreshold == 100 || bytesThreshold as real * adjustmentPercent < bytes as real
            || bytesThreshold <= 2 * bytes)
    }

    constructor ()
      ensures Valid() && bytesThreshold == DEFAULT_BYTES_THRESHOLD && autoCollect && bufferedThreshold.None?
      ensures adjustmentPercent == 0.1
    {
      bytesThreshold := DEFAULT_BYTES_THRESHOLD;
      adjustmentPercent := 0.1;
      bufferedThreshold := None;
      autoCollect := true;
      doublings := 0;
    }

    /** `set_auto_collect` */
    method SetAutoCollect(auto: bool)
      requires Valid()
      modifies `autoCollect
      ensures Valid() && autoCollect == auto
    {
      autoCollect := auto;
    }

    /** `set_buffered_objects_threshold`, which takes no zero. */
    method SetBufferedThreshold(threshold: Option<nat>)
      requires Valid() && (threshold.Some? ==> threshold.value > 0)
      modifies `bufferedThreshold
      ensures Valid() && bufferedThreshold == threshold
    {
      bufferedThreshold := threshold;
    }

    /** `set_adjustment_percent`.  Returns false, where the source panics, for a percent out of range. */
    method SetAdjustmentPercent(percent: real) returns (ok: bool)
      requires Valid()
      modifies `adjustmentPercent
      ensures Valid() && (ok <==> 0.0 <= percent <= 1.0)
      ensures adjustmentPercent == if ok then percent else old(adjustmentPercent)
    {
      ok := 0.0 <= percent && percent <= 1.0;
      if ok {
        adjustmentPercent := percent;
      }
    }

    /** A collection is due. */
    ghost predicate Due(bytes: nat, buffered: nat)
      reads this
    {
      && autoCollect
      && (bytes > bytesThreshold || (bufferedThreshold.Some? && buffered > bufferedThreshold.value))
    }

    /** `should_collect` */
    method ShouldCollect(bytes: nat, buffered: nat) returns (b: bool)
      ensures b <==> Due(bytes, buffered)
      ensures !autoCollect ==> !b
      ensures autoCollect && bytes > bytesThreshold ==> b
      ensures autoCollect && bytes <= bytesThreshold ==>
        (b <==> bufferedThreshold.Some? && buffered > bufferedThreshold.value)
    {
      if !autoCollect {
        return false;
      }
      if bytes > bytesThreshold {
        return true;
      }
      match bufferedThreshold {
        case Some(value) => b := buffered > value;
        case None => b := false;
      }
    }

    /** The threshold grows to the least doubling above the allocated bytes, or is halved for as long as
        they are few.  Returns false where growing does not end. */
    method Adjust(bytes: nat) returns (ends: bool)
      requires Valid()
      modifies `bytesThreshold, `doublings
      ensures Valid() && (ends <==> bytes < Threshold(MAX_DOUBLINGS))
      ensures ends ==> AtRest(bytes) && AdjustedTo(old(Current()), bytes, Current())
      ensures ends ==> (Share(bytesThreshold, adjustmentPercent) < bytes as real
                        <==> Fits(LeastAbove(bytes), adjustmentPercent, bytes))
    {
      hide LeastAbove, Share, CanHalve, Pow2;
      ghost var was := doublings;
      LargestThreshold();
      ThresholdMonotone(doublings, MAX_DOUBLINGS);
      ShareIsZero(bytesThreshold, adjustmentPercent);
      ends := true;
      if bytes >= bytesThreshold {
        if bytes >= LARGEST_THRESHOLD {
          return false;
        }
        Grow(bytes);
      } else if Share(bytesThreshold, adjustmentPercent) != 0.0 {
        Shrink(bytes);
      }
      if adjustmentPercent > 0.0 { AdjustedIsAtRest(was, adjustmentPercent, bytes, doublings); }
      FitsIff(was, adjustmentPercent, bytes, doublings);
      LeastFits(adjustmentPercent, bytes);
    }

    method Grow(bytes: nat)
      requires Valid() && bytesThreshold <= bytes < Threshold(MAX_DOUBLINGS)
      modifies `bytesThreshold, `doublings
      ensures Valid() && doublings > old(doublings)
      ensures Threshold(doublings - 1) <= bytes < bytesThreshold
    {
      while true
        invariant Valid() && bytesThreshold <= bytes && doublings >= old(doublings)
        decreases MAX_DOUBLINGS - doublings
      {
        BelowLargest(doublings, bytes);
        DoublingThresholds(doublings);
        bytesThreshold := Doubled(bytesThreshold);
        doublings := doublings + 1;
        if bytes < bytesThreshold {
          break;
        }
      }
    }

    static lemma BelowLargest(k: nat, bytes: nat)
      requires k <= MAX_DOUBLINGS && Threshold(k) <= bytes < Threshold(MAX_DOUBLINGS)
      ensures k < MAX_DOUBLINGS
    {}

    method Shrink(bytes: nat)
      requires Valid() && bytes < bytesThreshold && adjustmentPercent > 0.0
      modifies `bytesThreshold, `doublings
      ensures Valid() && bytes < bytesThreshold && doublings <= old(doublings)
      ensures forall j | doublings < j <= old(doublings) :: CanHalve(adjustmentPercent, bytes, j)
      ensures doublings > 0 ==> !CanHalve(adjustmentPercent, bytes, doublings)
    {
      hide Share;
      while bytes as real <= Share(bytesThreshold, adjustmentPercent)
        invariant Valid() && bytes < bytesThreshold && doublings <= old(doublings)
        invariant forall j | doublings < j <= old(doublings) :: CanHalve(adjustmentPercent, bytes, j)
        decreases bytesThreshold
      {
        var newThreshold := bytesThreshold / 2;
        Halved(doublings);
        if bytes >= newThreshold {
          break;
        }
        if newThreshold <= DEFAULT_BYTES_THRESHOLD {
          bytesThreshold := DEFAULT_BYTES_THRESHOLD;
          doublings := 0;
          break;
        }
        bytesThreshold := newThreshold;
        doublings := doublings - 1;
      }
    }

    static lemma Halved(k: nat)
      ensures Threshold(k) / 2 <= DEFAULT_BYTES_THRESHOLD <==> k <= 1
      ensures k > 0 ==> Threshold(k) == 2 * Threshold(k - 1)
      ensures Threshold(k) % 2 == 0
    {
      if k >= 2 {
        ThresholdMonotone(2, k);
        assert Pow2(2) == 4 * Pow2(0);
      }
    }
  }
}

/**
 Rounding up to a power of two in 64-bit words, as done for the number of template uses.
 */
module Rounding {
  import opened Bits

  // ----- Exponents -----

  /** The least power of two that is not below n, as an exponent. */
  function CeilLog2(n: nat): nat {
    if n <= 1 then 0 else 1 + CeilLog2((n + 1) / 2)
  }

  lemma {:induction false} CeilLog2Bounds(n: nat)
    requires n > 0
    ensures n <= Pow2(CeilLog2(n))
    ensures n > 1 ==> CeilLog2(n) > 0 && Pow2(CeilLog2(n) - 1) < n
  {
    if n > 1 {
      CeilLog2Bounds((n + 1) / 2);
    }
  }

  lemma CeilLog2Unique(n: nat, k: nat)
    requires 0 < n <= Pow2(k)
    requires k > 0 ==> Pow2(k - 1) < n
    ensures CeilLog2(n) == k
  {
    CeilLog2Bounds(n);
    var c := CeilLog2(n);
    if c < k {
      Pow2Monotone(c, k - 1);
    } else if k < c {
      Pow2Monotone(k, c - 1);
    }
  }

  /** The exponent is the number of bits of the predecessor. */
  lemma CeilLog2IsBits(n: nat)
    requires n > 1
    ensures CeilLog2(n) == HighestBit(n - 1) + 1
  {
    HighestBitBounds(n - 1);
    CeilLog2Unique(n, HighestBit(n - 1) + 1);
  }

  // ----- Smearing -----

  function Smear(v: nat, shift: nat): nat {
    BitOr(v, LShr(v, shift))
  }

  /** A bit of `v` among the `n` bits from `i` upwards. */
  predicate BitWithin(v: nat, i: nat, n: nat) {
    exists j :: i <= j < i + n && Bit(v, j)
  }

  /** Bits of `w` are set where a bit of `v` is set there or up to `n - 1` places above. */
  ghost predicate Smeared(v: nat, w: nat, n: nat) {
    forall i: nat :: Bit(w, i) <==> BitWithin(v, i, n)
  }

  /** ORing with itself shifted doubles the reach. */
  lemma SmearStep(v: nat, w: nat, n: nat)
    requires Smeared(v, w, n)
    ensures Smeared(v, Smear(w, n), 2 * n)
  {
    hide Bit, BitOr, LShr;
    forall i: nat ensures Bit(Smear(w, n), i) <==> BitWithin(v, i, 2 * n) {
      BitOfOr(w, LShr(w, n), i);
      BitOfLShr(w, n, i);
      TwoWindows(v, i, n);
    }
  }

  lemma TwoWindows(v: nat, i: nat, n: nat)
    ensures BitWithin(v, i, 2 * n) <==> BitWithin(v, i, n) || BitWithin(v, n + i, n)
  {
    hide Bit;
    if BitWithin(v, i, n) {
      var j :| i <= j < i + n && Bit(v, j);
      assert i <= j < i + 2 * n;
    }
    if BitWithin(v, n + i, n) {
      var j :| n + i <= j < n + i + n && Bit(v, j);
      assert i <= j < i + 2 * n;
    }
  }

  function SmearAll(v: nat): nat {
    Smear(Smear(Smear(Smear(Smear(v, 1), 2), 4), 8), 16)
  }

  lemma SmearedAll(v: nat)
    ensures Smeared(v, SmearAll(v), 32)
  {
    hide Bit, Smear, Smeared;
    SmearedNot(v);
    SmearStep(v, v, 1);
    SmearStep(v, Smear(v, 1), 2);
    SmearStep(v, Smear(Smear(v, 1), 2), 4);
    SmearStep(v, Smear(Smear(Smear(v, 1), 2), 4), 8);
    SmearStep(v, Smear(Smear(Smear(Smear(v, 1), 2), 4), 8), 16);
  }

  lemma SmearedNot(v: nat)
    ensures Smeared(v, v, 1)
  {
    hide Bit;
    forall i: nat ensures Bit(v, i) <==> BitWithin(v, i, 1) {
      if Bit(v, i) {
        assert i <= i < i + 1;
      }
    }
  }

  // ----- Rounding up -----

  /** 32 zero bits in a row below the highest bit. */
  predicate HasLongGap(v: nat) {
    exists i :: 0 <= i < HighestBit(v) && !BitWithin(v, i, 32)
  }

  const WORD_LIMIT := 0x1_0000_0000_0000_0000
  const HALF_LIMIT := 0x8000_0000_0000_0000

  lemma Limits()
    ensures Pow2(WORD) == WORD_LIMIT && Pow2(WORD - 1) == HALF_LIMIT
  {
    hide Pow2;
    WordSize();
    Pow2Step(WORD);
  }

  /** The predecessor, in 64 bits. */
  function Before(n: nat): nat
    requires n < WORD_LIMIT
  {
    if n == 0 then WORD_LIMIT - 1 else n - 1
  }

  /** In 64 bits: 0 has all ones before it, and after all ones comes 0. */
  function RoundedUp(n: nat): nat
    requires n < WORD_LIMIT
  {
    (SmearAll(Before(n)) + 1) % WORD_LIMIT
  }

  /** Smearing leaves the highest bit, and fills the bits below exactly if there is no long gap. */
  lemma SmearedTo(v: nat)
    requires v > 0
    ensures var w, h := SmearAll(v), HighestBit(v);
      Pow2(h) <= w < Pow2(h + 1) && (w == Pow2(h + 1) - 1 <==> !HasLongGap(v))
  {
    hide Bit, SmearAll, Pow2, HighestBit;
    var w, h := SmearAll(v), HighestBit(v);
    SmearedAll(v);
    HighestBitIs(v);
    assert BitWithin(v, h, 32) by { assert h <= h < h + 32; }
    assert forall i: nat :: i > h ==> !Bit(w, i);
    HighestBitFrom(w, h);
    HighestBitBounds(w);
    OnesExactly(w, h + 1);
    if !HasLongGap(v) {
      forall i: nat | i < h + 1 ensures Bit(w, i) {
        assert BitWithin(v, i, 32);
      }
    } else {
      var i :| 0 <= i < h && !BitWithin(v, i, 32);
      assert !Bit(w, i);
    }
  }

  /** Rounding up in 64 bits. */
  lemma RoundedTo(n: nat)
    requires 0 < n < WORD_LIMIT
    ensures Pow2(CeilLog2(n)) <= WORD_LIMIT
    ensures !HasLongGap(n - 1) ==> RoundedUp(n) == Pow2(CeilLog2(n)) % WORD_LIMIT
    ensures HasLongGap(n - 1) ==> 0 < CeilLog2(n) && Pow2(CeilLog2(n) - 1) < RoundedUp(n) < Pow2(CeilLog2(n))
  {
    hide SmearAll, Pow2, HasLongGap, CeilLog2, HighestBit;
    ExponentFits(n);
    if n == 1 {
      OneRounded();
    } else {
      SmearedTo(n - 1);
      CeilLog2IsBits(n);
    }
  }

  lemma ExponentFits(n: nat)
    requires 0 < n < WORD_LIMIT
    ensures 0 < Pow2(CeilLog2(n)) <= WORD_LIMIT
    ensures n <= HALF_LIMIT <==> Pow2(CeilLog2(n)) < WORD_LIMIT
  {
    hide Pow2, CeilLog2;
    Limits();
    CeilLog2Bounds(n);
    var k := CeilLog2(n);
    OneRounded();
    if k >= WORD {
      Pow2Monotone(WORD - 1, k - 1);
      if k > WORD {
        Pow2Monotone(WORD, k - 1);
      }
    } else {
      Pow2Monotone(k, WORD - 1);
    }
  }

  lemma OneRounded()
    ensures CeilLog2(1) == 0 && Pow2(0) == 1 && RoundedUp(1) == 1 && !HasLongGap(0)
  {
    assert HighestBit(0) == 0;
  }

  /** The result is right exactly for arguments up to 2^63 whose predecessor has no long gap. */
  lemma RightExactlyWithoutGap(n: nat)
    requires 0 < n < WORD_LIMIT
    ensures RoundedUp(n) == Pow2(CeilLog2(n)) <==> n <= HALF_LIMIT && !HasLongGap(n - 1)
  {
    hide RoundedUp, HasLongGap, CeilLog2, Pow2;
    RoundedTo(n);
    ExponentFits(n);
  }

  /** It wraps to 0 exactly for 0 and for arguments above 2^63 without a long gap. */
  lemma ZeroExactly(n: nat)
    requires n < WORD_LIMIT
    ensures RoundedUp(n) == 0 <==> n == 0 || (n > HALF_LIMIT && !HasLongGap(n - 1))
  {
    hide RoundedUp, HasLongGap, CeilLog2, Pow2;
    if n == 0 {
      ZeroRounded();
    } else {
      RoundedTo(n);
      ExponentFits(n);
    }
  }

  lemma ZeroRounded()
    ensures RoundedUp(0) == 0
  {
    hide Pow2, SmearAll, Bit, HighestBit;
    var v := WORD_LIMIT - 1;
    Limits();
    HighestBitUnique(v, WORD - 1);
    SmearedTo(v);
    OnesExactly(v, WORD);
    forall i | 0 <= i < WORD - 1 ensures BitWithin(v, i, 32) {
      assert i <= i < i + 32 && Bit(v, i);
    }
  }

  /** Up to 2^32 there is no room for a gap. */
  lemma SmallIsRight(n: nat)
    requires 0 < n <= Pow2(32)
    ensures n < WORD_LIMIT && RoundedUp(n) == Pow2(CeilLog2(n)) != 0
  {
    hide RoundedUp, CeilLog2, Pow2, Bit, HighestBit;
    Limits();
    Pow2Monotone(32, WORD - 1);
    if n > 1 {
      var v := n - 1;
      HighestBitIs(v);
      HighestBitBounds(v);
      if HighestBit(v) >= 32 {
        Pow2Monotone(32, HighestBit(v));
      }
      forall i | 0 <= i < HighestBit(v) ensures BitWithin(v, i, 32) {
        assert i <= HighestBit(v) < i + 32;
      }
    } else {
      OneRounded();
    }
    RightExactlyWithoutGap(n);
    ExponentFits(n);
  }

  /** The first argument above 2^33 falls short by 3. */
  lemma FallsShort()
    ensures RoundedUp(0x2_0000_0001) == 0x3_ffff_fffd
    ensures Pow2(CeilLog2(0x2_0000_0001)) == 0x4_0000_0000
  {
    hide SmearAll, Pow2, Bit, CeilLog2;
    var v, w := Pow2(33), 4 * (Pow2(32) - 1);
    SmallPowers();
    CeilLog2Unique(v + 1, 34);
    SmearedAll(v);
    forall i: nat ensures Bit(SmearAll(v), i) <==> Bit(w, i) {
      PowerWindow(33, i, 32);
      OnesShifted(32, i);
    }
    SameBits(SmearAll(v), w);
  }

  lemma SmallPowers()
    ensures Pow2(32) == 0x1_0000_0000 && Pow2(33) == 0x2_0000_0000 && Pow2(34) == 0x4_0000_0000
  {
    hide Pow2;
    ByteSize();
    Pow2Add(8, 8);
    Pow2Add(16, 16);
    Pow2Step(33);
    Pow2Step(34);
  }

  lemma PowerWindow(k: nat, i: nat, n: nat)
    ensures BitWithin(Pow2(k), i, n) <==> i <= k < i + n
  {
    hide Bit, Pow2;
    forall j: nat ensures Bit(Pow2(k), j) <==> j == k {
      BitOfPower(k, j);
    }
    if i <= k < i + n {
      assert Bit(Pow2(k), k);
    }
  }

  lemma OnesShifted(k: nat, i: nat)
    ensures Bit(4 * (Pow2(k) - 1), i) <==> 2 <= i < k + 2
  {
    hide Bit, Pow2;
    BitOfShifted(Pow2(k) - 1, 2, i);
    FourIsPower();
    if i >= 2 {
      BitOfOnes(k, i - 2);
    }
  }

  lemma FourIsPower()
    ensures Pow2(2) == 4
  {}

  // ----- The methods -----

  /** Fills the bits below the highest one of the predecessor. */
  method RoundUpToPowerOf2(original: nat) returns (value: nat)
    requires original < WORD_LIMIT
    ensures value == RoundedUp(original)
    ensures original > 0 ==> (value == Pow2(CeilLog2(original)) <==> original <= HALF_LIMIT && !HasLongGap(original - 1))
  {
    hide BitOr, LShr, Pow2, CeilLog2, HasLongGap;
    if original > 0 {
      RightExactlyWithoutGap(original);
    }
    value := if original == 0 then WORD_LIMIT - 1 else original - 1;
    value := BitOr(value, LShr(value, 1));
    value := BitOr(value, LShr(value, 2));
    value := BitOr(value, LShr(value, 4));
    value := BitOr(value, LShr(value, 8));
    value := BitOr(value, LShr(value, 16));
    value := (value + 1) % WORD_LIMIT;
  }

  /** Halving a word reaches 1 exactly from words other than 0. */
  lemma HalvingEndsExactly(value: nat)
    ensures (exists n: nat :: LShr(value, n) == 1) <==> value != 0
  {
    if value == 0 {
      forall n: nat ensures LShr(0, n) != 1 {
        ZeroStays(n);
      }
    } else {
      HalvedToOne(value);
    }
  }

  lemma {:induction false} ZeroStays(n: nat)
    ensures LShr(0, n) == 0
  {
    if n > 0 {
      ZeroStays(n - 1);
    }
  }

  lemma {:induction false} HalvedToOne(value: nat)
    requires value > 0
    ensures LShr(value, HighestBit(value)) == 1
  {
    if value >= 2 {
      HalvedToOne(value / 2);
    }
  }

  /**
   Counts the halvings down to 1.  Where the rounded value has wrapped to 0 the loop would never end; otherwise
   the exponent is right exactly if there is no long gap, and one too small if there is.
   */
  method GetNextPowerOfTwo(originalValue: nat) returns (power: nat)
    requires 0 < originalValue < WORD_LIMIT && RoundedUp(originalValue) != 0
    ensures power == if HasLongGap(originalValue - 1) then CeilLog2(originalValue) - 1 else CeilLog2(originalValue)
  {
    var value := RoundUpToPowerOf2(originalValue);
    ghost var rounded := value;
    hide CeilLog2, Pow2, RoundedUp, HasLongGap;
    power := 0;
    while value != 1
      invariant value > 0
      invariant HighestBit(rounded) == HighestBit(value) + power
      decreases value
    {
      value := value / 2;
      power := power + 1;
    }
    RoundedBit(originalValue);
  }

  lemma RoundedBit(n: nat)
    requires 0 < n < WORD_LIMIT && RoundedUp(n) != 0
    ensures HighestBit(RoundedUp(n)) == if HasLongGap(n - 1) then CeilLog2(n) - 1 else CeilLog2(n)
  {
    hide CeilLog2, Pow2, RoundedUp, HasLongGap, HighestBit;
    RoundedTo(n);
    var k := CeilLog2(n);
    if HasLongGap(n - 1) {
      HighestBitUnique(RoundedUp(n), k - 1);
    } else {
      ExponentFits(n);
      Pow2Step(k + 1);
      HighestBitUnique(RoundedUp(n), k);
    }
  }
}

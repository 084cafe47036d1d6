/**
 Machine words as natural numbers: bitwise operations, shifts and powers of two.
 */
module Bits {

  function Pow2(n: nat): (r: nat)
    ensures r > 0
  {
    if n == 0 then 1 else 2 * Pow2(n - 1)
  }

  const WORD := 64

  /** Bitwise operations, bit by bit from the least significant one. */
  function BitOr(a: nat, b: nat): nat
    decreases a + b
  {
    if a == 0 then b
    else if b == 0 then a
    else 2 * BitOr(a / 2, b / 2) + if a % 2 == 1 || b % 2 == 1 then 1 else 0
  }

  function BitAnd(a: nat, b: nat): nat
    decreases a + b
  {
    if a == 0 || b == 0 then 0
    else 2 * BitAnd(a / 2, b / 2) + if a % 2 == 1 && b % 2 == 1 then 1 else 0
  }

  function Mask(n: nat): nat {
    Pow2(n) - 1
  }

  /** Complement in a 64-bit word. */
  function BitNot(a: nat): nat
    requires a < Pow2(WORD)
  {
    Pow2(WORD) - 1 - a
  }

  /** Left shift in a 64-bit word, bit by bit: bits shifted out are lost. */
  function Shl(a: nat, n: nat): nat
    decreases n
  {
    if n == 0 then a % 0x1_0000_0000_0000_0000 else Shl(2 * a % 0x1_0000_0000_0000_0000, n - 1)
  }

  function LShr(a: nat, n: nat): nat
    decreases n
  {
    if n == 0 then a else LShr(a / 2, n - 1)
  }

  function Quotient(a: nat, d: nat): nat
    requires d > 0
  {
    a / d
  }

  /** The position of the highest bit set: 63 minus the number of leading zeros of a 64-bit word. */
  function HighestBit(a: nat): nat {
    if a < 2 then 0 else 1 + HighestBit(a / 2)
  }

  // ----- Powers of two -----

  lemma {:induction false} Pow2Add(m: nat, n: nat)
    ensures Pow2(m + n) == Pow2(m) * Pow2(n)
  {
    if m > 0 {
      Pow2Add(m - 1, n);
    }
  }

  lemma {:induction false} Pow2Monotone(m: nat, n: nat)
    requires m <= n
    ensures Pow2(m) <= Pow2(n)
    ensures m < n ==> Pow2(m) < Pow2(n)
    decreases n
  {
    if m < n {
      Pow2Monotone(m, n - 1);
    }
  }

  // ----- Division -----

  lemma MulMonotone(x: int, y: int, d: nat)
    requires x <= y
    ensures x * d <= y * d
  {}

  lemma MulStep(q: int, r: int, q': int, d: nat)
    requires q < q' && r < d
    ensures q * d + r < q' * d
  {
    MulMonotone(q + 1, q', d);
  }

  lemma QuotientsEqual(q: int, r: int, q': int, r': int, d: nat)
    requires 0 <= r < d && 0 <= r' < d && q * d + r == q' * d + r'
    ensures q == q' && r == r'
  {
    if q < q' {
      MulStep(q, r, q', d);
    } else if q' < q {
      MulStep(q', r', q, d);
    }
  }

  lemma DivUnique(a: nat, d: nat, q: nat, r: nat)
    requires d > 0 && r < d && a == q * d + r
    ensures a / d == q && a % d == r
  {
    QuotientsEqual(a / d, a % d, q, r, d);
  }

  lemma DivDivBy(a: nat, d: nat, e: nat)
    requires d > 0 && e > 0
    ensures d * e > 0 && a / (d * e) == a / d / e
  {
    var q, r := a / d, a % d;
    var q', r' := q / e, q % e;
    assert q == q' * e + r';
    assert a == q * d + r;
    assert q * d == (q' * e) * d + r' * d;
    assert (q' * e) * d == q' * (d * e);
    MulMonotone(r' + 1, e, d);
    assert (r' + 1) * d == r' * d + d;
    MulMonotone(0, r', d);
    DivUnique(a, d * e, q', r' * d + r);
  }

  // ----- Shifts are multiplication and division -----

  lemma {:induction false} LShrIs(a: nat, n: nat)
    ensures LShr(a, n) == Quotient(a, Pow2(n))
    decreases n
  {
    if n == 0 {
      Pow2Zero();
    } else {
      LShrIs(a / 2, n - 1);
      Pow2Step(n);
      DivDivBy(a, 2, Pow2(n - 1));
    }
  }

  lemma {:induction false} LShrAdd(a: nat, m: nat, n: nat)
    ensures LShr(a, m + n) == LShr(LShr(a, m), n)
    decreases m
  {
    if m > 0 {
      LShrAdd(a / 2, m - 1, n);
    }
  }

  lemma ModMul(x: nat, y: nat, d: nat)
    requires d > 0
    ensures x % d * y % d == x * y % d
  {
    var q, r := x / d, x % d;
    var product := r * y;
    var q', r' := product / d, product % d;
    Recompose(x, d);
    Recompose(product, d);
    Rearrange(x, y, d, q, r);
    Collect(q * y, q', d);
    DivUnique(x * y, d, q * y + q', r');
  }

  lemma Recompose(a: nat, d: nat)
    requires d > 0
    ensures a == a / d * d + a % d
  {}

  lemma Rearrange(x: nat, y: nat, d: nat, q: nat, r: nat)
    requires x == q * d + r
    ensures x * y == (q * y) * d + r * y
  {
    assert (q * d) * y == (q * y) * d;
  }

  lemma Collect(a: nat, b: nat, d: nat)
    ensures a * d + b * d == (a + b) * d
  {}

  lemma ByteSize()
    ensures Pow2(8) == 0x100
  {}

  lemma WordSize()
    ensures Pow2(WORD) == 0x1_0000_0000_0000_0000
  {
    hide Pow2;
    ByteSize();
    Pow2Add(8, 8);
    Pow2Add(16, 16);
    Pow2Add(32, 32);
  }

  lemma {:induction false} ShlIs(a: nat, n: nat)
    ensures Shl(a, n) == a * Pow2(n) % Pow2(WORD)
    decreases n
  {
    hide Pow2;
    WordSize();
    if n == 0 {
      Pow2Zero();
    } else {
      Pow2Step(n);
      ShlIs(2 * a % Pow2(WORD), n - 1);
      ModMul(2 * a, Pow2(n - 1), Pow2(WORD));
      assert 2 * a * Pow2(n - 1) == a * Pow2(n);
    }
  }

  lemma Pow2Zero()
    ensures Pow2(0) == 1
  {}

  lemma Pow2Step(n: nat)
    requires n > 0
    ensures Pow2(n) == 2 * Pow2(n - 1)
  {}

  // ----- Bitwise operations on disjoint and masked values -----

  lemma {:induction false} OrZero(a: nat)
    ensures BitOr(a, 0) == a && BitOr(0, a) == a
  {}

  /** Half of a multiple of a power of two. */
  lemma HalfMultiple(q: nat, n: nat)
    requires n > 0
    ensures q * Pow2(n) / 2 == q * Pow2(n - 1) && q * Pow2(n) % 2 == 0
  {
    assert q * Pow2(n) == 2 * (q * Pow2(n - 1));
  }

  /** The bits of a multiple of 2^n and of a number below 2^n do not meet. */
  lemma {:induction false} OrDisjoint(q: nat, n: nat, low: nat)
    requires low < Pow2(n)
    ensures BitOr(q * Pow2(n), low) == q * Pow2(n) + low
  {
    if n > 0 && low > 0 && q > 0 {
      HalfMultiple(q, n);
      OrDisjoint(q, n - 1, low / 2);
    }
  }

  /** Masking the low bits is taking the remainder. */
  lemma {:induction false} AndMask(a: nat, n: nat)
    ensures BitAnd(a, Mask(n)) == a % Pow2(n)
    decreases n
  {
    hide Pow2, BitAnd, Mask;
    if n == 0 {
      AndNothing(a);
    } else if a == 0 {
      AndZero(n);
    } else {
      AndMask(a / 2, n - 1);
      AndMaskStep(a, n);
      RemainderByBits(a, n);
    }
  }

  lemma AndNothing(a: nat)
    ensures BitAnd(a, Mask(0)) == 0 && a % Pow2(0) == 0
  {}

  lemma AndZero(n: nat)
    ensures BitAnd(0, Mask(n)) == 0 && 0 % Pow2(n) == 0
  {}

  lemma AndMaskStep(a: nat, n: nat)
    requires a > 0 && n > 0
    ensures BitAnd(a, Mask(n)) == 2 * BitAnd(a / 2, Mask(n - 1)) + a % 2
  {
    var m := Mask(n);
    assert m == 2 * Mask(n - 1) + 1;
    assert m / 2 == Mask(n - 1) && m % 2 == 1;
  }

  /** The remainder by 2^n, bit by bit. */
  lemma RemainderByBits(a: nat, n: nat)
    requires n > 0
    ensures a % Pow2(n) == 2 * (a / 2 % Pow2(n - 1)) + a % 2
  {
    var d := Pow2(n - 1);
    var q, r := a / 2 / d, a / 2 % d;
    assert a / 2 == q * d + r;
    assert a == 2 * (q * d) + (2 * r + a % 2);
    assert 2 * (q * d) == q * (2 * d);
    DivUnique(a, 2 * d, q, 2 * r + a % 2);
  }

  lemma {:induction false} AndComplement(a: nat, b: nat, n: nat)
    requires a < Pow2(n) && b < Pow2(n)
    ensures BitAnd(a, b) + BitAnd(a, Pow2(n) - 1 - b) == a
    decreases n
  {
    if n > 0 {
      var c := Pow2(n) - 1 - b;
      assert c / 2 == Pow2(n - 1) - 1 - b / 2 && c % 2 == 1 - b % 2;
      AndComplement(a / 2, b / 2, n - 1);
    }
  }

  /** Masking the low bits away rounds down to a multiple of the power of two. */
  lemma AndNotMask(a: nat, n: nat)
    requires a < Pow2(WORD) && n <= WORD
    ensures Mask(n) < Pow2(WORD)
    ensures BitAnd(a, BitNot(Mask(n))) == a - a % Pow2(n)
  {
    hide Pow2, BitAnd;
    Pow2Monotone(n, WORD);
    AndMask(a, n);
    AndComplement(a, Mask(n), WORD);
  }

  /** OR of two masks is the larger mask. */
  lemma {:induction false} OrMasks(m: nat, n: nat)
    ensures BitOr(Mask(m), Mask(n)) == Mask(if m < n then n else m)
    decreases m
  {
    if m > 0 && n > 0 {
      assert Mask(m) == 2 * Mask(m - 1) + 1 && Mask(n) == 2 * Mask(n - 1) + 1;
      OrMasks(m - 1, n - 1);
    }
  }

  lemma OrHalves(a: nat, b: nat)
    ensures BitOr(a, b) == 2 * BitOr(a / 2, b / 2) + if a % 2 == 1 || b % 2 == 1 then 1 else 0
  {
    if a == 0 {
      OrZero(b);
      OrZero(b / 2);
    } else if b == 0 {
      OrZero(a);
      OrZero(a / 2);
    }
  }

  lemma HalfSplit(hi: nat, lo: nat, n: nat)
    requires n > 0 && lo < Pow2(n)
    ensures (hi * Pow2(n) + lo) / 2 == hi * Pow2(n - 1) + lo / 2
    ensures (hi * Pow2(n) + lo) % 2 == lo % 2
    ensures lo / 2 < Pow2(n - 1)
  {
    HalfMultiple(hi, n);
  }

  /** OR works on the low n bits and on the rest separately. */
  lemma {:induction false} OrSplit(a: nat, low: nat, b: nat, low': nat, n: nat)
    requires low < Pow2(n) && low' < Pow2(n)
    ensures BitOr(a * Pow2(n) + low, b * Pow2(n) + low') == BitOr(a, b) * Pow2(n) + BitOr(low, low')
    ensures BitOr(low, low') < Pow2(n)
    decreases n
  {
    hide BitOr, Pow2;
    if n == 0 {
      OrZero(0);
      Pow2Zero();
    } else {
      var x, y := a * Pow2(n) + low, b * Pow2(n) + low';
      Pow2Step(n);
      HalfSplit(a, low, n);
      HalfSplit(b, low', n);
      OrSplit(a, low / 2, b, low' / 2, n - 1);
      OrHalves(x, y);
      OrHalves(low, low');
      HalfMultiple(BitOr(a, b), n);
    }
  }

  // ----- The highest bit -----

  lemma {:induction false} HighestBitBounds(a: nat)
    requires a > 0
    ensures Pow2(HighestBit(a)) <= a < Pow2(HighestBit(a) + 1)
  {
    if a >= 2 {
      HighestBitBounds(a / 2);
    }
  }

  lemma HighestBitUnique(a: nat, k: nat)
    requires Pow2(k) <= a < Pow2(k + 1)
    ensures HighestBit(a) == k
  {
    HighestBitBounds(a);
    var h := HighestBit(a);
    if h < k {
      Pow2Monotone(h + 1, k);
    } else if k < h {
      Pow2Monotone(k + 1, h);
    }
  }

  // ----- Single bits -----

  predicate Bit(a: nat, i: nat) {
    LShr(a, i) % 2 == 1
  }

  lemma {:induction false} BitOfZero(i: nat)
    ensures !Bit(0, i)
  {
    if i > 0 {
      BitOfZero(i - 1);
    }
  }

  lemma {:induction false} BitOfOr(a: nat, b: nat, i: nat)
    ensures Bit(BitOr(a, b), i) <==> Bit(a, i) || Bit(b, i)
    decreases i
  {
    if a == 0 || b == 0 {
      BitOfZero(i);
    } else if i > 0 {
      BitOfOr(a / 2, b / 2, i - 1);
    }
  }

  lemma {:induction false} BitOfShifted(x: nat, n: nat, i: nat)
    ensures Bit(x * Pow2(n), i) <==> n <= i && Bit(x, i - n)
    decreases n
  {
    if n > 0 {
      HalfMultiple(x, n);
      if i > 0 {
        BitOfShifted(x, n - 1, i - 1);
      }
    }
  }

  lemma BitOfLShr(x: nat, n: nat, i: nat)
    ensures Bit(LShr(x, n), i) <==> Bit(x, n + i)
  {
    LShrAdd(x, n, i);
  }

  lemma {:induction false} BitOfOnes(k: nat, i: nat)
    ensures Bit(Pow2(k) - 1, i) <==> i < k
    decreases k
  {
    if k == 0 {
      BitOfZero(i);
    } else if i > 0 {
      assert (Pow2(k) - 1) / 2 == Pow2(k - 1) - 1;
      BitOfOnes(k - 1, i - 1);
    }
  }

  lemma {:induction false} BitOfPower(k: nat, i: nat)
    ensures Bit(Pow2(k), i) <==> i == k
    decreases k
  {
    if k == 0 {
      if i > 0 {
        BitOfZero(i - 1);
      }
    } else if i > 0 {
      BitOfPower(k - 1, i - 1);
    }
  }

  /** A number is determined by its bits. */
  lemma {:induction false} SameBits(a: nat, b: nat)
    requires forall i: nat :: Bit(a, i) <==> Bit(b, i)
    ensures a == b
    decreases a + b
  {
    if a != b {
      assert Bit(a, 0) <==> Bit(b, 0);
      forall i: nat ensures Bit(a / 2, i) <==> Bit(b / 2, i) {
        assert Bit(a, i + 1) <==> Bit(b, i + 1);
      }
      SameBits(a / 2, b / 2);
    }
  }

  /** All of the lowest `k` bits and no others. */
  lemma OnesExactly(a: nat, k: nat)
    ensures a == Pow2(k) - 1 <==> forall i: nat :: Bit(a, i) <==> i < k
  {
    hide Bit;
    var ones := Pow2(k) - 1;
    forall i: nat ensures Bit(ones, i) <==> i < k {
      BitOfOnes(k, i);
    }
    if forall i: nat :: Bit(a, i) <==> i < k {
      SameBits(a, ones);
    }
  }

  lemma {:induction false} HighestBitIs(a: nat)
    requires a > 0
    ensures Bit(a, HighestBit(a))
    ensures forall i: nat :: Bit(a, i) ==> i <= HighestBit(a)
  {
    if a == 1 {
      forall i: nat | Bit(a, i) ensures i == 0 {
        if i > 0 {
          BitOfZero(i - 1);
        }
      }
    } else {
      HighestBitIs(a / 2);
      forall i: nat | Bit(a, i) ensures i <= HighestBit(a) {
        if i > 0 {
          assert Bit(a / 2, i - 1);
        }
      }
    }
  }

  lemma HighestBitFrom(a: nat, h: nat)
    requires Bit(a, h) && forall i: nat :: i > h ==> !Bit(a, i)
    ensures a > 0 && HighestBit(a) == h
  {
    BitOfZero(h);
    HighestBitIs(a);
  }
}

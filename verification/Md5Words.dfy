/**
 What the word operations of MD5 do to single bits (sections 2 and 3.4 of RFC 1321): selections,
 parity and rotation.
 */
module Md5Words {
  import opened Bits
  import opened Md5Transform

  lemma {:induction false} BitOfAnd(a: nat, b: nat, i: nat)
    ensures Bit(BitAnd(a, b), i) <==> Bit(a, i) && Bit(b, i)
    decreases i
  {
    if a == 0 || b == 0 {
      BitOfZero(i);
    } else if i > 0 {
      BitOfAnd(a / 2, b / 2, i - 1);
    }
  }

  lemma {:induction false} BitOfXor(a: nat, b: nat, i: nat)
    ensures Bit(BitXor(a, b), i) <==> Bit(a, i) != Bit(b, i)
    decreases i
  {
    if a == 0 || b == 0 {
      BitOfZero(i);
    } else if i > 0 {
      BitOfXor(a / 2, b / 2, i - 1);
    }
  }

  lemma {:induction false} BitOfComplement(a: nat, n: nat, i: nat)
    requires a < Pow2(n) && i < n
    ensures Bit(Pow2(n) - 1 - a, i) <==> !Bit(a, i)
    decreases i
  {
    if i > 0 {
      assert (Pow2(n) - 1 - a) / 2 == Pow2(n - 1) - 1 - a / 2;
      BitOfComplement(a / 2, n - 1, i - 1);
    }
  }

  lemma HalfWord()
    ensures Pow2(32) == WORD_SIZE
  {
    assert Pow2(8) == 0x100;
    Pow2Add(8, 8);
    Pow2Add(16, 16);
  }

  lemma BitOfNot(a: nat, i: nat)
    requires a < WORD_SIZE && i < 32
    ensures Bit(Not32(a), i) <==> !Bit(a, i)
  {
    HalfWord();
    BitOfComplement(a, 32, i);
  }

  /** F chooses: if x then y else z. */
  lemma FChooses(x: nat, y: nat, z: nat, i: nat)
    requires x < WORD_SIZE && i < 32
    ensures Bit(F(x, y, z), i) <==> if Bit(x, i) then Bit(y, i) else Bit(z, i)
  {
    hide BitAnd, BitOr, Bit, Not32;
    BitOfNot(x, i);
    BitOfAnd(x, y, i);
    BitOfAnd(Not32(x), z, i);
    BitOfOr(BitAnd(x, y), BitAnd(Not32(x), z), i);
  }

  /** G chooses by its last argument: if z then x else y. */
  lemma GChooses(x: nat, y: nat, z: nat, i: nat)
    requires z < WORD_SIZE && i < 32
    ensures Bit(G(x, y, z), i) <==> if Bit(z, i) then Bit(x, i) else Bit(y, i)
  {
    hide BitAnd, BitOr, Bit, Not32;
    BitOfNot(z, i);
    BitOfAnd(x, z, i);
    BitOfAnd(y, Not32(z), i);
    BitOfOr(BitAnd(x, z), BitAnd(y, Not32(z)), i);
  }

  /** H is parity: true for one or three true arguments. */
  lemma HIsParity(x: nat, y: nat, z: nat, i: nat)
    ensures Bit(H(x, y, z), i) <==> ((Bit(x, i) != Bit(y, i)) != Bit(z, i))
  {
    hide BitXor, Bit;
    BitOfXor(x, y, i);
    BitOfXor(BitXor(x, y), z, i);
  }

  lemma IDiffers(x: nat, y: nat, z: nat, i: nat)
    requires z < WORD_SIZE && i < 32
    ensures Bit(I(x, y, z), i) <==> Bit(y, i) != (Bit(x, i) || !Bit(z, i))
  {
    hide BitXor, BitOr, Bit, Not32;
    BitOfNot(z, i);
    BitOfOr(x, Not32(z), i);
    BitOfXor(y, BitOr(x, Not32(z)), i);
  }

  lemma {:induction false} BitOfRemainder(x: nat, n: nat, i: nat)
    ensures Bit(x % Pow2(n), i) <==> i < n && Bit(x, i)
    decreases n
  {
    hide Pow2;
    if n == 0 {
      Pow2Zero();
      BitOfZero(i);
    } else {
      RemainderByBits(x, n);
      if i > 0 {
        BitOfRemainder(x / 2, n - 1, i - 1);
      }
    }
  }

  lemma BeyondWord(x: nat, i: nat)
    requires x < Pow2(i)
    ensures !Bit(x, i)
  {
    hide LShr;
    LShrIs(x, i);
    DivUnique(x, Pow2(i), 0, x);
  }

  /** Rotation moves every bit to the left, the highest ones round to the right. */
  lemma RotateMovesBits(x: nat, n: nat, i: nat)
    requires x < WORD_SIZE && n <= 32 && i < 32
    ensures Bit(RotateLeft(x, n), i) <==> Bit(x, if i >= n then i - n else 32 + i - n)
  {
    hide BitOr, Bit, Pow2, LShr;
    HalfWord();
    BitOfOr(x * Pow2(n) % WORD_SIZE, Quotient(x, Pow2(32 - n)), i);
    BitOfRemainder(x * Pow2(n), 32, i);
    BitOfShifted(x, n, i);
    LShrIs(x, 32 - n);
    BitOfLShr(x, 32 - n, i);
    if i >= n {
      Pow2Monotone(32, 32 - n + i);
      BeyondWord(x, 32 - n + i);
    }
  }
}

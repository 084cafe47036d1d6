/**
 Words of 32 bits as bit vectors: their operations are those on numbers, bit by bit and with sums modulo 2^32.
 */
module BitVectors {
  import opened Bits
  import opened Md5Transform

  // ----- Words as numbers -----

  function Nat(x: bv8): (v: nat)
    ensures v < 0x100
  {
    x as nat
  }

  function Byte3(w: bv32): bv8 {
    (w >> 24) as bv8
  }

  function Byte2(w: bv32): bv8 {
    ((w >> 16) & 0xff) as bv8
  }

  function Byte1(w: bv32): bv8 {
    ((w >> 8) & 0xff) as bv8
  }

  function Byte0(w: bv32): bv8 {
    (w & 0xff) as bv8
  }

  /** A word as a number, from its bytes. */
  function Value(w: bv32): (v: nat)
    ensures v < WORD_SIZE
  {
    0x100 * (0x100 * (0x100 * Nat(Byte3(w)) + Nat(Byte2(w))) + Nat(Byte1(w))) + Nat(Byte0(w))
  }

  function Last(w: bv32): nat {
    if w & 1 == 1 then 1 else 0
  }

  function Half(w: bv32): bv32 {
    w >> 1
  }

  /** A byte moved to the right takes over the last bit of the byte above. */
  function Moved(above: bv8, x: bv8): bv8 {
    (x >> 1) | (above << 7)
  }

  function HalfNat(x: bv8): nat {
    Nat(x >> 1)
  }

  function LastNat(x: bv8): nat {
    if x & 1 == 1 then 1 else 0
  }

  lemma ByteParts(x: bv8)
    ensures Nat(x) == 2 * HalfNat(x) + LastNat(x)
  {}

  lemma SetHighest(x: bv8)
    requires x < 0x80
    ensures Nat(x | 0x80) == Nat(x) + 0x80
  {}

  lemma MovedIs(above: bv8, x: bv8)
    ensures Nat(Moved(above, x)) == HalfNat(x) + 0x80 * LastNat(above)
  {
    hide Nat;
    SetHighest(x >> 1);
    assert Moved(above, x) == if above & 1 == 1 then (x >> 1) | 0x80 else x >> 1;
  }

  lemma HighBytesOfHalf(w: bv32)
    ensures Byte3(Half(w)) == Moved(0, Byte3(w)) && Byte2(Half(w)) == Moved(Byte3(w), Byte2(w))
  {}

  lemma LowBytesOfHalf(w: bv32)
    ensures Byte1(Half(w)) == Moved(Byte2(w), Byte1(w)) && Byte0(Half(w)) == Moved(Byte1(w), Byte0(w))
  {}

  lemma LastBit(w: bv32)
    ensures Last(w) == LastNat(Byte0(w)) < 2
  {
    assert w & 1 == 1 <==> Byte0(w) & 1 == 1;
  }

  lemma NothingAbove()
    ensures LastNat(0) == 0
  {}

  /** A word is twice its half and its last bit. */
  lemma HalfIs(w: bv32)
    ensures Value(w) == 2 * Value(Half(w)) + Last(w) && Last(w) < 2
  {
    hide Nat, Byte3, Byte2, Byte1, Byte0, Moved, Half, Last, HalfNat, LastNat;
    HighBytesOfHalf(w);
    LowBytesOfHalf(w);
    LastBit(w);
    NothingAbove();
    var b3, b2, b1, b0 := Byte3(w), Byte2(w), Byte1(w), Byte0(w);
    ByteParts(b3);
    ByteParts(b2);
    ByteParts(b1);
    ByteParts(b0);
    MovedIs(0, b3);
    MovedIs(b3, b2);
    MovedIs(b2, b1);
    MovedIs(b1, b0);
  }

  lemma ZeroIs(w: bv32)
    ensures Value(0) == 0
    ensures Value(w) == 0 ==> w == 0
  {}

  // ----- Bitwise operations -----

  function And(x: bv32, y: bv32): bv32 {
    x & y
  }

  function Or(x: bv32, y: bv32): bv32 {
    x | y
  }

  function Xor(x: bv32, y: bv32): bv32 {
    x ^ y
  }

  function Not(x: bv32): bv32 {
    !x
  }

  lemma OpsOfBits(p: nat, q: nat, u: nat, v: nat)
    requires u < 2 && v < 2
    ensures BitAnd(2 * p + u, 2 * q + v) == 2 * BitAnd(p, q) + if u == 1 && v == 1 then 1 else 0
    ensures BitOr(2 * p + u, 2 * q + v) == 2 * BitOr(p, q) + if u == 1 || v == 1 then 1 else 0
    ensures BitXor(2 * p + u, 2 * q + v) == 2 * BitXor(p, q) + if u == v then 0 else 1
  {}

  lemma HalfOfAnd(x: bv32, y: bv32)
    ensures Half(And(x, y)) == And(Half(x), Half(y))
    ensures Last(And(x, y)) == if Last(x) == 1 && Last(y) == 1 then 1 else 0
  {}

  lemma {:induction false} AndIs(x: bv32, y: bv32)
    ensures Value(And(x, y)) == BitAnd(Value(x), Value(y))
    decreases Value(x) + Value(y)
  {
    hide BitAnd, BitOr, BitXor, Value, Half, Last, And;
    HalfIs(x);
    HalfIs(y);
    HalfIs(And(x, y));
    HalfOfAnd(x, y);
    if Value(x) + Value(y) == 0 {
      ZeroIs(x);
      ZeroIs(y);
      OpsOfBits(0, 0, 0, 0);
      ZeroOps();
    } else {
      AndIs(Half(x), Half(y));
      OpsOfBits(Value(Half(x)), Value(Half(y)), Last(x), Last(y));
    }
  }

  lemma ZeroOps()
    ensures And(0, 0) == 0 && Or(0, 0) == 0 && Xor(0, 0) == 0
  {}

  lemma HalfOfOr(x: bv32, y: bv32)
    ensures Half(Or(x, y)) == Or(Half(x), Half(y))
    ensures Last(Or(x, y)) == if Last(x) == 1 || Last(y) == 1 then 1 else 0
  {}

  lemma {:induction false} OrIs(x: bv32, y: bv32)
    ensures Value(Or(x, y)) == BitOr(Value(x), Value(y))
    decreases Value(x) + Value(y)
  {
    hide BitAnd, BitOr, BitXor, Value, Half, Last, Or;
    HalfIs(x);
    HalfIs(y);
    HalfIs(Or(x, y));
    HalfOfOr(x, y);
    if Value(x) + Value(y) == 0 {
      ZeroIs(x);
      ZeroIs(y);
      OpsOfBits(0, 0, 0, 0);
      ZeroOps();
    } else {
      OrIs(Half(x), Half(y));
      OpsOfBits(Value(Half(x)), Value(Half(y)), Last(x), Last(y));
    }
  }

  lemma HalfOfXor(x: bv32, y: bv32)
    ensures Half(Xor(x, y)) == Xor(Half(x), Half(y))
    ensures Last(Xor(x, y)) == if Last(x) == Last(y) then 0 else 1
  {}

  lemma {:induction false} XorIs(x: bv32, y: bv32)
    ensures Value(Xor(x, y)) == BitXor(Value(x), Value(y))
    decreases Value(x) + Value(y)
  {
    hide BitAnd, BitOr, BitXor, Value, Half, Last, Xor;
    HalfIs(x);
    HalfIs(y);
    HalfIs(Xor(x, y));
    HalfOfXor(x, y);
    if Value(x) + Value(y) == 0 {
      ZeroIs(x);
      ZeroIs(y);
      OpsOfBits(0, 0, 0, 0);
      ZeroOps();
    } else {
      XorIs(Half(x), Half(y));
      OpsOfBits(Value(Half(x)), Value(Half(y)), Last(x), Last(y));
    }
  }

  lemma NotByte(x: bv8)
    ensures Nat(!x) == 0xff - Nat(x)
  {}

  lemma HighBytesOfNot(x: bv32)
    ensures Byte3(Not(x)) == !Byte3(x) && Byte2(Not(x)) == !Byte2(x)
  {}

  lemma LowBytesOfNot(x: bv32)
    ensures Byte1(Not(x)) == !Byte1(x) && Byte0(Not(x)) == !Byte0(x)
  {}

  lemma NotIs(x: bv32)
    ensures Value(Not(x)) == Not32(Value(x))
  {
    hide Nat, Byte3, Byte2, Byte1, Byte0, Not;
    HighBytesOfNot(x);
    LowBytesOfNot(x);
    NotByte(Byte3(x));
    NotByte(Byte2(x));
    NotByte(Byte1(x));
    NotByte(Byte0(x));
  }

  // ----- Shifts -----

  function Double(x: bv32): bv32 {
    x << 1
  }

  function WithoutTop(x: bv32): bv32 {
    x & 0x7fff_ffff
  }

  lemma TopIs(x: bv32)
    ensures Value(WithoutTop(x)) == Value(x) % 0x8000_0000
  {
    hide Nat, Byte3, Byte2, Byte1, Byte0, WithoutTop, SevenBits;
    HighBytesWithoutTop(x);
    LowBytesWithoutTop(x);
    TopByteIs(Byte3(x));
    TopRemainder(Nat(Byte3(x)), 0x100 * (0x100 * Nat(Byte2(x)) + Nat(Byte1(x))) + Nat(Byte0(x)));
  }

  lemma TopRemainder(b3: nat, rest: nat)
    requires rest < 0x100_0000
    ensures (0x100_0000 * b3 + rest) % 0x8000_0000 == 0x100_0000 * (b3 % 0x80) + rest
  {}

  function SevenBits(x: bv8): bv8 {
    x & 0x7f
  }

  lemma HighBytesWithoutTop(x: bv32)
    ensures Byte3(WithoutTop(x)) == SevenBits(Byte3(x)) && Byte2(WithoutTop(x)) == Byte2(x)
  {}

  lemma LowBytesWithoutTop(x: bv32)
    ensures Byte1(WithoutTop(x)) == Byte1(x) && Byte0(WithoutTop(x)) == Byte0(x)
  {}

  lemma TopByteIs(x: bv8)
    ensures Nat(SevenBits(x)) == Nat(x) % 0x80
  {}

  lemma DoubleBits(x: bv32)
    ensures Half(Double(x)) == WithoutTop(x) && Last(Double(x)) == 0
  {}

  lemma DoubleIs(x: bv32)
    ensures Value(Double(x)) == 2 * Value(x) % WORD_SIZE
  {
    hide Value, Half, Last, Double, WithoutTop;
    HalfIs(Double(x));
    DoubleBits(x);
    TopIs(x);
  }

  /** Shifts by a power of two places, or none. */
  function LeftBy(x: bv32, k: nat, on: bool): bv32 {
    if !on then x else if k == 1 then x << 1 else if k == 2 then x << 2 else if k == 4 then x << 4
    else if k == 8 then x << 8 else x << 16
  }

  function RightBy(x: bv32, k: nat, on: bool): bv32 {
    if !on then x else if k == 1 then x >> 1 else if k == 2 then x >> 2 else if k == 4 then x >> 4
    else if k == 8 then x >> 8 else x >> 16
  }

  function ShiftLeft(x: bv32, n: nat): bv32 {
    var x4 := LeftBy(LeftBy(LeftBy(x, 1, n % 2 == 1), 2, n / 2 % 2 == 1), 4, n / 4 % 2 == 1);
    LeftBy(LeftBy(x4, 8, n / 8 % 2 == 1), 16, n / 16 % 2 == 1)
  }

  function ShiftRight(x: bv32, n: nat): bv32 {
    var x4 := RightBy(RightBy(RightBy(x, 1, n % 2 == 1), 2, n / 2 % 2 == 1), 4, n / 4 % 2 == 1);
    RightBy(RightBy(x4, 8, n / 8 % 2 == 1), 16, n / 16 % 2 == 1)
  }

  function Places(k: nat, on: bool): nat {
    if on then k else 0
  }

  /** In 32 bits, a shift to the left followed by another. */
  lemma LeftTwice(v: nat, a: nat, b: nat)
    ensures v * Pow2(a) % WORD_SIZE * Pow2(b) % WORD_SIZE == v * Pow2(a + b) % WORD_SIZE
  {
    hide Pow2;
    Pow2Add(a, b);
    ModMul(v * Pow2(a), Pow2(b), WORD_SIZE);
    Regroup(v, Pow2(a), Pow2(b));
  }

  lemma Regroup(x: nat, y: nat, z: nat)
    ensures x * y * z == x * (y * z)
  {}

  lemma RightTwice(v: nat, a: nat, b: nat)
    ensures v / Pow2(a) / Pow2(b) == v / Pow2(a + b)
  {
    hide Pow2;
    Pow2Add(a, b);
    DivDivBy(v, Pow2(a), Pow2(b));
  }

  lemma {:induction false} LeftByIs(x: bv32, k: nat, on: bool)
    requires k == 1 || k == 2 || k == 4 || k == 8 || k == 16
    ensures Value(LeftBy(x, k, on)) == Value(x) * Pow2(Places(k, on)) % WORD_SIZE
    decreases k
  {
    hide Value, Pow2, Double;
    Pow2Zero();
    if on && k == 1 {
      Pow2Step(1);
      DoubleIs(x);
      assert LeftBy(x, 1, true) == Double(x) by { LeftOne(x); }
    } else if on {
      LeftByIs(x, k / 2, true);
      LeftByIs(LeftBy(x, k / 2, true), k / 2, true);
      LeftTwice(Value(x), k / 2, k / 2);
      LeftHalves(x, k);
    }
  }

  lemma LeftOne(x: bv32)
    ensures LeftBy(x, 1, true) == Double(x)
  {}

  lemma Left2(x: bv32)
    ensures LeftBy(x, 2, true) == LeftBy(LeftBy(x, 1, true), 1, true)
  {
    assert x << 2 == (x << 1) << 1;
  }

  lemma Left4(x: bv32)
    ensures LeftBy(x, 4, true) == LeftBy(LeftBy(x, 2, true), 2, true)
  {
    assert x << 4 == (x << 2) << 2;
  }

  lemma Left8(x: bv32)
    ensures LeftBy(x, 8, true) == LeftBy(LeftBy(x, 4, true), 4, true)
  {
    assert x << 8 == (x << 4) << 4;
  }

  lemma Left16(x: bv32)
    ensures LeftBy(x, 16, true) == LeftBy(LeftBy(x, 8, true), 8, true)
  {
    assert x << 16 == (x << 8) << 8;
  }

  lemma LeftHalves(x: bv32, k: nat)
    requires k == 2 || k == 4 || k == 8 || k == 16
    ensures LeftBy(x, k, true) == LeftBy(LeftBy(x, k / 2, true), k / 2, true)
  {
    hide LeftBy;
    Left2(x);
    Left4(x);
    Left8(x);
    Left16(x);
  }

  lemma {:induction false} RightByIs(x: bv32, k: nat, on: bool)
    requires k == 1 || k == 2 || k == 4 || k == 8 || k == 16
    ensures Value(RightBy(x, k, on)) == Value(x) / Pow2(Places(k, on))
    decreases k
  {
    hide Value, Pow2, Half;
    Pow2Zero();
    if on && k == 1 {
      Pow2Step(1);
      HalfIs(x);
      assert RightBy(x, 1, true) == Half(x) by { RightOne(x); }
    } else if on {
      RightByIs(x, k / 2, true);
      RightByIs(RightBy(x, k / 2, true), k / 2, true);
      RightTwice(Value(x), k / 2, k / 2);
      RightHalves(x, k);
    }
  }

  lemma RightOne(x: bv32)
    ensures RightBy(x, 1, true) == Half(x)
  {}

  lemma Right2(x: bv32)
    ensures RightBy(x, 2, true) == RightBy(RightBy(x, 1, true), 1, true)
  {
    assert x >> 2 == (x >> 1) >> 1;
  }

  lemma Right4(x: bv32)
    ensures RightBy(x, 4, true) == RightBy(RightBy(x, 2, true), 2, true)
  {
    assert x >> 4 == (x >> 2) >> 2;
  }

  lemma Right8(x: bv32)
    ensures RightBy(x, 8, true) == RightBy(RightBy(x, 4, true), 4, true)
  {
    assert x >> 8 == (x >> 4) >> 4;
  }

  lemma Right16(x: bv32)
    ensures RightBy(x, 16, true) == RightBy(RightBy(x, 8, true), 8, true)
  {
    assert x >> 16 == (x >> 8) >> 8;
  }

  lemma RightHalves(x: bv32, k: nat)
    requires k == 2 || k == 4 || k == 8 || k == 16
    ensures RightBy(x, k, true) == RightBy(RightBy(x, k / 2, true), k / 2, true)
  {
    hide RightBy;
    Right2(x);
    Right4(x);
    Right8(x);
    Right16(x);
  }

  lemma BinaryPlaces(n: nat)
    requires n < 32
    ensures n == Places(1, n % 2 == 1) + Places(2, n / 2 % 2 == 1) + Places(4, n / 4 % 2 == 1) + Places(8, n / 8 % 2 == 1)
      + Places(16, n / 16 % 2 == 1)
  {}

  lemma LeftStep(v: nat, x: bv32, places: nat, k: nat, on: bool)
    requires k == 1 || k == 2 || k == 4 || k == 8 || k == 16
    requires Value(x) == v * Pow2(places) % WORD_SIZE
    ensures Value(LeftBy(x, k, on)) == v * Pow2(places + Places(k, on)) % WORD_SIZE
  {
    hide Value, Pow2, LeftBy, Places;
    LeftByIs(x, k, on);
    LeftTwice(v, places, Places(k, on));
  }

  /** All five shifts, whatever the digits. */
  lemma LeftAll(x: bv32, b1: bool, b2: bool, b4: bool, b8: bool, b16: bool)
    ensures var places := Places(1, b1) + Places(2, b2) + Places(4, b4) + Places(8, b8) + Places(16, b16);
      Value(LeftBy(LeftBy(LeftBy(LeftBy(LeftBy(x, 1, b1), 2, b2), 4, b4), 8, b8), 16, b16)) == Value(x) * Pow2(places) % WORD_SIZE
  {
    hide Value, Pow2, LeftBy, Places;
    Pow2Zero();
    var v, p2 := Value(x), Places(1, b1);
    var p4 := p2 + Places(2, b2);
    var p8 := p4 + Places(4, b4);
    var x2 := LeftBy(x, 1, b1);
    var x4 := LeftBy(x2, 2, b2);
    var x8 := LeftBy(x4, 4, b4);
    LeftStep(v, x, 0, 1, b1);
    LeftStep(v, x2, p2, 2, b2);
    LeftStep(v, x4, p4, 4, b4);
    LeftStep(v, x8, p8, 8, b8);
    LeftStep(v, LeftBy(x8, 8, b8), p8 + Places(8, b8), 16, b16);
  }

  lemma ShiftLeftIs(x: bv32, n: nat)
    requires n < 32
    ensures Value(ShiftLeft(x, n)) == Value(x) * Pow2(n) % WORD_SIZE
  {
    hide Value, Pow2, LeftBy, Places;
    BinaryPlaces(n);
    LeftAll(x, n % 2 == 1, n / 2 % 2 == 1, n / 4 % 2 == 1, n / 8 % 2 == 1, n / 16 % 2 == 1);
  }

  lemma RightStep(v: nat, x: bv32, places: nat, k: nat, on: bool)
    requires k == 1 || k == 2 || k == 4 || k == 8 || k == 16
    requires Value(x) == v / Pow2(places)
    ensures Value(RightBy(x, k, on)) == v / Pow2(places + Places(k, on))
  {
    hide Value, Pow2, RightBy, Places;
    RightByIs(x, k, on);
    RightTwice(v, places, Places(k, on));
  }

  /** All five shifts, whatever the digits. */
  lemma RightAll(x: bv32, b1: bool, b2: bool, b4: bool, b8: bool, b16: bool)
    ensures var places := Places(1, b1) + Places(2, b2) + Places(4, b4) + Places(8, b8) + Places(16, b16);
      Value(RightBy(RightBy(RightBy(RightBy(RightBy(x, 1, b1), 2, b2), 4, b4), 8, b8), 16, b16)) == Value(x) / Pow2(places)
  {
    hide Value, Pow2, RightBy, Places;
    Pow2Zero();
    var v, p2 := Value(x), Places(1, b1);
    var p4 := p2 + Places(2, b2);
    var p8 := p4 + Places(4, b4);
    var x2 := RightBy(x, 1, b1);
    var x4 := RightBy(x2, 2, b2);
    var x8 := RightBy(x4, 4, b4);
    RightStep(v, x, 0, 1, b1);
    RightStep(v, x2, p2, 2, b2);
    RightStep(v, x4, p4, 4, b4);
    RightStep(v, x8, p8, 8, b8);
    RightStep(v, RightBy(x8, 8, b8), p8 + Places(8, b8), 16, b16);
  }

  lemma ShiftRightIs(x: bv32, n: nat)
    requires n < 32
    ensures Value(ShiftRight(x, n)) == Value(x) / Pow2(n)
  {
    hide Value, Pow2, RightBy, Places;
    BinaryPlaces(n);
    RightAll(x, n % 2 == 1, n / 2 % 2 == 1, n / 4 % 2 == 1, n / 8 % 2 == 1, n / 16 % 2 == 1);
  }

  function Rotate(x: bv32, n: nat): bv32
    requires n <= 32
  {
    Or(ShiftLeft(x, n), ShiftRight(x, 32 - n))
  }

  lemma RotateIs(x: bv32, n: nat)
    requires 0 < n < 32
    ensures Value(Rotate(x, n)) == RotateLeft(Value(x), n)
  {
    hide Value, Pow2, ShiftLeft, ShiftRight, Or, BitOr;
    ShiftLeftIs(x, n);
    ShiftRightIs(x, 32 - n);
    OrIs(ShiftLeft(x, n), ShiftRight(x, 32 - n));
  }

  // ----- Sums -----

  lemma {:induction false} XorAndAre(a: nat, b: nat)
    ensures BitXor(a, b) + 2 * BitAnd(a, b) == a + b
    decreases a + b
  {
    if a != 0 && b != 0 {
      XorAndAre(a / 2, b / 2);
    }
  }

  function Add(x: bv32, y: bv32): bv32 {
    x + y
  }

  lemma XorAddAnd(x: bv32, y: bv32)
    ensures Add(Xor(x, y), And(x, y)) == Or(x, y)
  {
    assert (x ^ y) + (x & y) == x | y;
    assert Xor(x, y) == x ^ y && And(x, y) == x & y && Or(x, y) == x | y;
    assert Add(x ^ y, x & y) == (x ^ y) + (x & y);
  }

  lemma OrAddAnd(x: bv32, y: bv32)
    ensures Add(Or(x, y), And(x, y)) == Add(x, y)
  {
    assert (x | y) + (x & y) == x + y;
    assert Or(x, y) == x | y && And(x, y) == x & y && Add(x, y) == x + y;
    assert Add(x | y, x & y) == (x | y) + (x & y);
  }

  lemma DoubleIsSum(x: bv32)
    ensures Double(x) == Add(x, x)
  {}

  lemma AddAssociates(x: bv32, y: bv32, z: bv32)
    ensures Add(x, Add(y, z)) == Add(Add(x, y), z)
  {
    assert Add(y, z) == y + z && Add(x, y) == x + y;
    assert Add(x, y + z) == x + (y + z);
    assert Add(x + y, z) == (x + y) + z;
  }

  /** A sum is the sum without carries and the carries. */
  lemma CarriesMove(x: bv32, y: bv32)
    ensures Add(x, y) == Add(Xor(x, y), Double(And(x, y)))
  {
    hide Add, And, Or, Xor, Double;
    DoubleIsSum(And(x, y));
    AddAssociates(Xor(x, y), And(x, y), And(x, y));
    XorAddAnd(x, y);
    OrAddAnd(x, y);
  }

  /** The lowest bits of a word, as many as `low` has, are 0. */
  predicate Clear(x: bv32, low: bv32) {
    x & low == 0 && low & (low + 1) == 0
  }

  function OneMore(low: bv32): bv32 {
    (low << 1) | 1
  }

  /** With every such step one more of the lowest bits of the carries is 0. */
  lemma CarriesRise(x: bv32, y: bv32, low: bv32)
    requires Clear(y, low) && low != 0xffff_ffff
    ensures Clear(Double(And(x, y)), OneMore(low)) && Not(OneMore(low)) < Not(low)
  {}

  lemma NothingToAdd(x: bv32, y: bv32)
    requires Clear(y, 0xffff_ffff)
    ensures y == 0 && Add(x, y) == x && Value(y) == 0
  {}

  lemma SumOfRemainder(a: nat, b: nat)
    ensures (a + b % WORD_SIZE) % WORD_SIZE == (a + b) % WORD_SIZE
  {}

  lemma {:induction false} AddIs(x: bv32, y: bv32, low: bv32)
    requires Clear(y, low)
    ensures Value(Add(x, y)) == (Value(x) + Value(y)) % WORD_SIZE
    decreases Not(low)
  {
    hide Value, Xor, And, Double, BitAnd, BitXor, Clear, OneMore, Add, Not;
    if low == 0xffff_ffff {
      NothingToAdd(x, y);
    } else {
      CarriesMove(x, y);
      CarriesRise(x, y, low);
      AddIs(Xor(x, y), Double(And(x, y)), OneMore(low));
      XorIs(x, y);
      AndIs(x, y);
      DoubleIs(And(x, y));
      XorAndAre(Value(x), Value(y));
      SumOfRemainder(Value(Xor(x, y)), 2 * Value(And(x, y)));
    }
  }

  lemma SumIs(x: bv32, y: bv32)
    ensures Value(Add(x, y)) == (Value(x) + Value(y)) % WORD_SIZE
  {
    hide Value;
    AddIs(x, y, 0);
  }
}

/**
 The MD5 block function (sections 3.3 and 3.4 of RFC 1321): the straight-line code of 64 calls against
 the table-driven description of its steps.
 */
module Md5Transform {
  import opened Bits

  const WORD_SIZE := 0x1_0000_0000

  datatype Registers = Registers(a: nat, b: nat, c: nat, d: nat)

  // ----- Word operations -----

  function BitXor(a: nat, b: nat): nat
    decreases a + b
  {
    if a == 0 then b
    else if b == 0 then a
    else 2 * BitXor(a / 2, b / 2) + if a % 2 == b % 2 then 0 else 1
  }

  function Not32(x: nat): nat {
    if x < WORD_SIZE then WORD_SIZE - 1 - x else 0
  }

  function F(x: nat, y: nat, z: nat): nat {
    BitOr(BitAnd(x, y), BitAnd(Not32(x), z))
  }

  function G(x: nat, y: nat, z: nat): nat {
    BitOr(BitAnd(x, z), BitAnd(y, Not32(z)))
  }

  function H(x: nat, y: nat, z: nat): nat {
    BitXor(BitXor(x, y), z)
  }

  function I(x: nat, y: nat, z: nat): nat {
    BitXor(y, BitOr(x, Not32(z)))
  }

  function RotateLeft(x: nat, n: nat): nat
    requires n <= 32
  {
    BitOr(x * Pow2(n) % WORD_SIZE, Quotient(x, Pow2(32 - n)))
  }

  function FF(a: nat, b: nat, c: nat, d: nat, x: nat, s: nat, ac: nat): nat
    requires s <= 32
  {
    (RotateLeft((a + F(b, c, d) + x + ac) % WORD_SIZE, s) + b) % WORD_SIZE
  }

  function GG(a: nat, b: nat, c: nat, d: nat, x: nat, s: nat, ac: nat): nat
    requires s <= 32
  {
    (RotateLeft((a + G(b, c, d) + x + ac) % WORD_SIZE, s) + b) % WORD_SIZE
  }

  function HH(a: nat, b: nat, c: nat, d: nat, x: nat, s: nat, ac: nat): nat
    requires s <= 32
  {
    (RotateLeft((a + H(b, c, d) + x + ac) % WORD_SIZE, s) + b) % WORD_SIZE
  }

  function II(a: nat, b: nat, c: nat, d: nat, x: nat, s: nat, ac: nat): nat
    requires s <= 32
  {
    (RotateLeft((a + I(b, c, d) + x + ac) % WORD_SIZE, s) + b) % WORD_SIZE
  }

  // ----- The table -----

  /** The constants, one per step. */
  function Sine(i: nat): nat
    requires i < 64
  {
    match i
    case 0 => 0xd76aa478
    case 1 => 0xe8c7b756
    case 2 => 0x242070db
    case 3 => 0xc1bdceee
    case 4 => 0xf57c0faf
    case 5 => 0x4787c62a
    case 6 => 0xa8304613
    case 7 => 0xfd469501
    case 8 => 0x698098d8
    case 9 => 0x8b44f7af
    case 10 => 0xffff5bb1
    case 11 => 0x895cd7be
    case 12 => 0x6b901122
    case 13 => 0xfd987193
    case 14 => 0xa679438e
    case 15 => 0x49b40821
    case 16 => 0xf61e2562
    case 17 => 0xc040b340
    case 18 => 0x265e5a51
    case 19 => 0xe9b6c7aa
    case 20 => 0xd62f105d
    case 21 => 0x2441453
    case 22 => 0xd8a1e681
    case 23 => 0xe7d3fbc8
    case 24 => 0x21e1cde6
    case 25 => 0xc33707d6
    case 26 => 0xf4d50d87
    case 27 => 0x455a14ed
    case 28 => 0xa9e3e905
    case 29 => 0xfcefa3f8
    case 30 => 0x676f02d9
    case 31 => 0x8d2a4c8a
    case 32 => 0xfffa3942
    case 33 => 0x8771f681
    case 34 => 0x6d9d6122
    case 35 => 0xfde5380c
    case 36 => 0xa4beea44
    case 37 => 0x4bdecfa9
    case 38 => 0xf6bb4b60
    case 39 => 0xbebfbc70
    case 40 => 0x289b7ec6
    case 41 => 0xeaa127fa
    case 42 => 0xd4ef3085
    case 43 => 0x4881d05
    case 44 => 0xd9d4d039
    case 45 => 0xe6db99e5
    case 46 => 0x1fa27cf8
    case 47 => 0xc4ac5665
    case 48 => 0xf4292244
    case 49 => 0x432aff97
    case 50 => 0xab9423a7
    case 51 => 0xfc93a039
    case 52 => 0x655b59c3
    case 53 => 0x8f0ccc92
    case 54 => 0xffeff47d
    case 55 => 0x85845dd1
    case 56 => 0x6fa87e4f
    case 57 => 0xfe2ce6e0
    case 58 => 0xa3014314
    case 59 => 0x4e0811a1
    case 60 => 0xf7537e82
    case 61 => 0xbd3af235
    case 62 => 0x2ad7d2bb
    case _ => 0xeb86d391
  }

  /** Which word of the block a step takes. */
  function MessageIndex(i: nat): (k: nat)
    requires i < 64
    ensures k < 16
  {
    if i < 16 then i
    else if i < 32 then (5 * i + 1) % 16
    else if i < 48 then (3 * i + 5) % 16
    else 7 * i % 16
  }

  function Shift(i: nat): (s: nat)
    requires i < 64
    ensures s <= 32
  {
    if i < 16 then [7, 12, 17, 22][i % 4]
    else if i < 32 then [5, 9, 14, 20][i % 4]
    else if i < 48 then [4, 11, 16, 23][i % 4]
    else [6, 10, 15, 21][i % 4]
  }

  /** The function of a round. */
  function Auxiliary(i: nat, x: nat, y: nat, z: nat): nat {
    if i < 16 then F(x, y, z)
    else if i < 32 then G(x, y, z)
    else if i < 48 then H(x, y, z)
    else I(x, y, z)
  }

  function Mix(i: nat, a: nat, b: nat, c: nat, d: nat, x: nat): nat
    requires i < 64
  {
    (RotateLeft((a + Auxiliary(i, b, c, d) + x + Sine(i)) % WORD_SIZE, Shift(i)) + b) % WORD_SIZE
  }

  /** One step: the first register is replaced, then all move on by one place. */
  function Step(r: Registers, x: seq<nat>, i: nat): Registers
    requires |x| == 16 && i < 64
  {
    Registers(r.d, Mix(i, r.a, r.b, r.c, r.d, x[MessageIndex(i)]), r.b, r.c)
  }

  function Steps(start: Registers, x: seq<nat>, n: nat): Registers
    requires |x| == 16 && n <= 64
  {
    if n == 0 then start else Step(Steps(start, x, n - 1), x, n - 1)
  }

  /** The state after a block: the registers after all steps, added to the old state. */
  function Compress(state: Registers, x: seq<nat>): Registers
    requires |x| == 16
  {
    var r := Steps(state, x, 64);
    Registers((state.a + r.a) % WORD_SIZE, (state.b + r.b) % WORD_SIZE, (state.c + r.c) % WORD_SIZE, (state.d + r.d) % WORD_SIZE)
  }

  /** After four steps every register is back in its place. */
  lemma FourSteps(start: Registers, x: seq<nat>, i: nat)
    requires |x| == 16 && i + 4 <= 64
    ensures var r := Steps(start, x, i);
      var a := Mix(i, r.a, r.b, r.c, r.d, x[MessageIndex(i)]);
      var d := Mix(i + 1, r.d, a, r.b, r.c, x[MessageIndex(i + 1)]);
      var c := Mix(i + 2, r.c, d, a, r.b, x[MessageIndex(i + 2)]);
      var b := Mix(i + 3, r.b, c, d, a, x[MessageIndex(i + 3)]);
      Steps(start, x, i + 4) == Registers(a, b, c, d)
  {
    hide Mix, MessageIndex;
    assert Steps(start, x, i + 1) == Step(Steps(start, x, i), x, i);
    assert Steps(start, x, i + 2) == Step(Steps(start, x, i + 1), x, i + 1);
    assert Steps(start, x, i + 3) == Step(Steps(start, x, i + 2), x, i + 2);
  }

  lemma MixIsFF()
    ensures forall i, a, b, c, d, x {:trigger Mix(i, a, b, c, d, x)} ::
      0 <= i < 16 ==> Mix(i, a, b, c, d, x) == FF(a, b, c, d, x, Shift(i), Sine(i))
  {
    hide F, G, H, I, RotateLeft, Shift, Sine;
  }

  lemma MixIsGG()
    ensures forall i, a, b, c, d, x {:trigger Mix(i, a, b, c, d, x)} ::
      16 <= i < 32 ==> Mix(i, a, b, c, d, x) == GG(a, b, c, d, x, Shift(i), Sine(i))
  {
    hide F, G, H, I, RotateLeft, Shift, Sine;
  }

  lemma MixIsHH()
    ensures forall i, a, b, c, d, x {:trigger Mix(i, a, b, c, d, x)} ::
      32 <= i < 48 ==> Mix(i, a, b, c, d, x) == HH(a, b, c, d, x, Shift(i), Sine(i))
  {
    hide F, G, H, I, RotateLeft, Shift, Sine;
  }

  lemma MixIsII()
    ensures forall i, a, b, c, d, x {:trigger Mix(i, a, b, c, d, x)} ::
      48 <= i < 64 ==> Mix(i, a, b, c, d, x) == II(a, b, c, d, x, Shift(i), Sine(i))
  {
    hide F, G, H, I, RotateLeft, Shift, Sine;
  }

  // ----- The straight-line code -----

  method Round1(ghost start: Registers, x: seq<nat>, a0: nat, b0: nat, c0: nat, d0: nat) returns (a: nat, b: nat, c: nat, d: nat)
    requires |x| == 16 && Steps(start, x, 0) == Registers(a0, b0, c0, d0)
    ensures Steps(start, x, 16) == Registers(a, b, c, d)
  {
    hide FF, GG, HH, II, Mix, Steps;
    MixIsFF();
    a, b, c, d := a0, b0, c0, d0;
    FourSteps(start, x, 0);
    a := FF(a, b, c, d, x[0], 7, 0xd76aa478);
    d := FF(d, a, b, c, x[1], 12, 0xe8c7b756);
    c := FF(c, d, a, b, x[2], 17, 0x242070db);
    b := FF(b, c, d, a, x[3], 22, 0xc1bdceee);
    FourSteps(start, x, 4);
    a := FF(a, b, c, d, x[4], 7, 0xf57c0faf);
    d := FF(d, a, b, c, x[5], 12, 0x4787c62a);
    c := FF(c, d, a, b, x[6], 17, 0xa8304613);
    b := FF(b, c, d, a, x[7], 22, 0xfd469501);
    FourSteps(start, x, 8);
    a := FF(a, b, c, d, x[8], 7, 0x698098d8);
    d := FF(d, a, b, c, x[9], 12, 0x8b44f7af);
    c := FF(c, d, a, b, x[10], 17, 0xffff5bb1);
    b := FF(b, c, d, a, x[11], 22, 0x895cd7be);
    FourSteps(start, x, 12);
    a := FF(a, b, c, d, x[12], 7, 0x6b901122);
    d := FF(d, a, b, c, x[13], 12, 0xfd987193);
    c := FF(c, d, a, b, x[14], 17, 0xa679438e);
    b := FF(b, c, d, a, x[15], 22, 0x49b40821);
  }

  method Round2(ghost start: Registers, x: seq<nat>, a0: nat, b0: nat, c0: nat, d0: nat) returns (a: nat, b: nat, c: nat, d: nat)
    requires |x| == 16 && Steps(start, x, 16) == Registers(a0, b0, c0, d0)
    ensures Steps(start, x, 32) == Registers(a, b, c, d)
  {
    hide FF, GG, HH, II, Mix, Steps;
    MixIsGG();
    a, b, c, d := a0, b0, c0, d0;
    FourSteps(start, x, 16);
    a := GG(a, b, c, d, x[1], 5, 0xf61e2562);
    d := GG(d, a, b, c, x[6], 9, 0xc040b340);
    c := GG(c, d, a, b, x[11], 14, 0x265e5a51);
    b := GG(b, c, d, a, x[0], 20, 0xe9b6c7aa);
    FourSteps(start, x, 20);
    a := GG(a, b, c, d, x[5], 5, 0xd62f105d);
    d := GG(d, a, b, c, x[10], 9, 0x2441453);
    c := GG(c, d, a, b, x[15], 14, 0xd8a1e681);
    b := GG(b, c, d, a, x[4], 20, 0xe7d3fbc8);
    FourSteps(start, x, 24);
    a := GG(a, b, c, d, x[9], 5, 0x21e1cde6);
    d := GG(d, a, b, c, x[14], 9, 0xc33707d6);
    c := GG(c, d, a, b, x[3], 14, 0xf4d50d87);
    b := GG(b, c, d, a, x[8], 20, 0x455a14ed);
    FourSteps(start, x, 28);
    a := GG(a, b, c, d, x[13], 5, 0xa9e3e905);
    d := GG(d, a, b, c, x[2], 9, 0xfcefa3f8);
    c := GG(c, d, a, b, x[7], 14, 0x676f02d9);
    b := GG(b, c, d, a, x[12], 20, 0x8d2a4c8a);
  }

  method Round3(ghost start: Registers, x: seq<nat>, a0: nat, b0: nat, c0: nat, d0: nat) returns (a: nat, b: nat, c: nat, d: nat)
    requires |x| == 16 && Steps(start, x, 32) == Registers(a0, b0, c0, d0)
    ensures Steps(start, x, 48) == Registers(a, b, c, d)
  {
    hide FF, GG, HH, II, Mix, Steps;
    MixIsHH();
    a, b, c, d := a0, b0, c0, d0;
    FourSteps(start, x, 32);
    a := HH(a, b, c, d, x[5], 4, 0xfffa3942);
    d := HH(d, a, b, c, x[8], 11, 0x8771f681);
    c := HH(c, d, a, b, x[11], 16, 0x6d9d6122);
    b := HH(b, c, d, a, x[14], 23, 0xfde5380c);
    FourSteps(start, x, 36);
    a := HH(a, b, c, d, x[1], 4, 0xa4beea44);
    d := HH(d, a, b, c, x[4], 11, 0x4bdecfa9);
    c := HH(c, d, a, b, x[7], 16, 0xf6bb4b60);
    b := HH(b, c, d, a, x[10], 23, 0xbebfbc70);
    FourSteps(start, x, 40);
    a := HH(a, b, c, d, x[13], 4, 0x289b7ec6);
    d := HH(d, a, b, c, x[0], 11, 0xeaa127fa);
    c := HH(c, d, a, b, x[3], 16, 0xd4ef3085);
    b := HH(b, c, d, a, x[6], 23, 0x4881d05);
    FourSteps(start, x, 44);
    a := HH(a, b, c, d, x[9], 4, 0xd9d4d039);
    d := HH(d, a, b, c, x[12], 11, 0xe6db99e5);
    c := HH(c, d, a, b, x[15], 16, 0x1fa27cf8);
    b := HH(b, c, d, a, x[2], 23, 0xc4ac5665);
  }

  method Round4(ghost start: Registers, x: seq<nat>, a0: nat, b0: nat, c0: nat, d0: nat) returns (a: nat, b: nat, c: nat, d: nat)
    requires |x| == 16 && Steps(start, x, 48) == Registers(a0, b0, c0, d0)
    ensures Steps(start, x, 64) == Registers(a, b, c, d)
  {
    hide FF, GG, HH, II, Mix, Steps;
    MixIsII();
    a, b, c, d := a0, b0, c0, d0;
    FourSteps(start, x, 48);
    a := II(a, b, c, d, x[0], 6, 0xf4292244);
    d := II(d, a, b, c, x[7], 10, 0x432aff97);
    c := II(c, d, a, b, x[14], 15, 0xab9423a7);
    b := II(b, c, d, a, x[5], 21, 0xfc93a039);
    FourSteps(start, x, 52);
    a := II(a, b, c, d, x[12], 6, 0x655b59c3);
    d := II(d, a, b, c, x[3], 10, 0x8f0ccc92);
    c := II(c, d, a, b, x[10], 15, 0xffeff47d);
    b := II(b, c, d, a, x[1], 21, 0x85845dd1);
    FourSteps(start, x, 56);
    a := II(a, b, c, d, x[8], 6, 0x6fa87e4f);
    d := II(d, a, b, c, x[15], 10, 0xfe2ce6e0);
    c := II(c, d, a, b, x[6], 15, 0xa3014314);
    b := II(b, c, d, a, x[13], 21, 0x4e0811a1);
    FourSteps(start, x, 60);
    a := II(a, b, c, d, x[4], 6, 0xf7537e82);
    d := II(d, a, b, c, x[11], 10, 0xbd3af235);
    c := II(c, d, a, b, x[2], 15, 0x2ad7d2bb);
    b := II(b, c, d, a, x[9], 21, 0xeb86d391);
  }

  method Transform(start: Registers, x: seq<nat>) returns (state: Registers)
    requires |x| == 16
    ensures state == Compress(start, x)
  {
    hide Steps;
    var a, b, c, d := start.a, start.b, start.c, start.d;
    assert Steps(start, x, 0) == start by { NoSteps(start, x); }
    a, b, c, d := Round1(start, x, a, b, c, d);
    a, b, c, d := Round2(start, x, a, b, c, d);
    a, b, c, d := Round3(start, x, a, b, c, d);
    a, b, c, d := Round4(start, x, a, b, c, d);
    state := Registers((start.a + a) % WORD_SIZE, (start.b + b) % WORD_SIZE, (start.c + c) % WORD_SIZE, (start.d + d) % WORD_SIZE);
  }

  lemma NoSteps(start: Registers, x: seq<nat>)
    requires |x| == 16
    ensures Steps(start, x, 0) == start
  {}
}

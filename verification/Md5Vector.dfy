/**
 The digest of the empty message, worked out step by step: a test vector of the standard (appendix A.5 of
 RFC 1321) for tables, order of steps, initial state, padding and byte order together.
 */
module Md5Vector {
  import opened Bits
  import opened BitVectors
  import opened Md5Transform
  import opened Md5

  // ----- Steps on bit vectors -----

  /** The only block of the padded empty message, as words. */
  function Block(): (x: seq<nat>)
    ensures |x| == 16
  {
    [0x80, 0, 0, 0, 0, 0, 0, 0, 0, 0, 0, 0, 0, 0, 0, 0]
  }

  /** The message word of a step: only the first word of the block is not 0. */
  function MessageWord(i: nat): nat {
    if i == 0 || i == 19 || i == 41 || i == 48 then 0x80 else 0
  }

  lemma MessageWordIs(i: nat)
    requires i < 64
    ensures Block()[MessageIndex(i)] == MessageWord(i)
  {}

  /** How far a step rotates. */
  function Rotation(i: nat): nat {
    var k := i % 4;
    if i < 16 then if k == 0 then 7 else if k == 1 then 12 else if k == 2 then 17 else 22
    else if i < 32 then if k == 0 then 5 else if k == 1 then 9 else if k == 2 then 14 else 20
    else if i < 48 then if k == 0 then 4 else if k == 1 then 11 else if k == 2 then 16 else 23
    else if k == 0 then 6 else if k == 1 then 10 else if k == 2 then 15 else 21
  }

  lemma RotationIs(i: nat)
    requires i < 64
    ensures Shift(i) == Rotation(i)
  {}

  /** The functions of the rounds, and the rotations. */
  datatype Round = RoundF | RoundG | RoundH | RoundI

  datatype Turn =
    | T4 | T5 | T6 | T7 | T9 | T10 | T11 | T12
    | T14 | T15 | T16 | T17 | T20 | T21 | T22 | T23

  function PlacesOf(turn: Turn): (n: nat)
    ensures 0 < n < 32
  {
    match turn
    case T4 => 4
    case T5 => 5
    case T6 => 6
    case T7 => 7
    case T9 => 9
    case T10 => 10
    case T11 => 11
    case T12 => 12
    case T14 => 14
    case T15 => 15
    case T16 => 16
    case T17 => 17
    case T20 => 20
    case T21 => 21
    case T22 => 22
    case T23 => 23
  }

  function RotateBits(x: bv32, turn: Turn): bv32 {
    match turn
    case T4 => (x << 4) | (x >> 28)
    case T5 => (x << 5) | (x >> 27)
    case T6 => (x << 6) | (x >> 26)
    case T7 => (x << 7) | (x >> 25)
    case T9 => (x << 9) | (x >> 23)
    case T10 => (x << 10) | (x >> 22)
    case T11 => (x << 11) | (x >> 21)
    case T12 => (x << 12) | (x >> 20)
    case T14 => (x << 14) | (x >> 18)
    case T15 => (x << 15) | (x >> 17)
    case T16 => (x << 16) | (x >> 16)
    case T17 => (x << 17) | (x >> 15)
    case T20 => (x << 20) | (x >> 12)
    case T21 => (x << 21) | (x >> 11)
    case T22 => (x << 22) | (x >> 10)
    case T23 => (x << 23) | (x >> 9)
  }

  function RoundBits(round: Round, x: bv32, y: bv32, z: bv32): bv32 {
    match round
    case RoundF => Or(And(x, y), And(Not(x), z))
    case RoundG => Or(And(x, z), And(y, Not(z)))
    case RoundH => Xor(Xor(x, y), z)
    case RoundI => Xor(y, Or(x, Not(z)))
  }

  function RoundOf(i: nat): Round {
    if i < 16 then RoundF else if i < 32 then RoundG else if i < 48 then RoundH else RoundI
  }

  lemma RoundBitsAre(i: nat, x: bv32, y: bv32, z: bv32)
    ensures Value(RoundBits(RoundOf(i), x, y, z)) == Auxiliary(i, Value(x), Value(y), Value(z))
  {
    hide BitAnd, BitOr, BitXor, Not32, Value, And, Or, Xor, Not;
    NotIs(x);
    NotIs(z);
    if i < 16 {
      AndIs(x, y);
      AndIs(Not(x), z);
      OrIs(And(x, y), And(Not(x), z));
    } else if i < 32 {
      AndIs(x, z);
      AndIs(y, Not(z));
      OrIs(And(x, z), And(y, Not(z)));
    } else if i < 48 {
      XorIs(x, y);
      XorIs(Xor(x, y), z);
    } else {
      OrIs(x, Not(z));
      XorIs(y, Or(x, Not(z)));
    }
  }

  lemma Rotate4To7(x: bv32, turn: Turn)
    requires turn.T4? || turn.T5? || turn.T6? || turn.T7?
    ensures RotateBits(x, turn) == Rotate(x, PlacesOf(turn))
  {
    match turn
    case T4 =>
    case T5 =>
    case T6 =>
    case T7 =>
  }

  lemma Rotate9To12(x: bv32, turn: Turn)
    requires turn.T9? || turn.T10? || turn.T11? || turn.T12?
    ensures RotateBits(x, turn) == Rotate(x, PlacesOf(turn))
  {
    match turn
    case T9 =>
    case T10 =>
    case T11 =>
    case T12 =>
  }

  lemma Rotate14To17(x: bv32, turn: Turn)
    requires turn.T14? || turn.T15? || turn.T16? || turn.T17?
    ensures RotateBits(x, turn) == Rotate(x, PlacesOf(turn))
  {
    match turn
    case T14 =>
    case T15 =>
    case T16 =>
    case T17 =>
  }

  lemma Rotate20To23(x: bv32, turn: Turn)
    requires turn.T20? || turn.T21? || turn.T22? || turn.T23?
    ensures RotateBits(x, turn) == Rotate(x, PlacesOf(turn))
  {
    match turn
    case T20 =>
    case T21 =>
    case T22 =>
    case T23 =>
  }

  lemma RotateBitsIs(x: bv32, turn: Turn)
    ensures RotateBits(x, turn) == Rotate(x, PlacesOf(turn))
  {
    hide RotateBits, Rotate;
    if PlacesOf(turn) <= 7 {
      Rotate4To7(x, turn);
    } else if PlacesOf(turn) <= 12 {
      Rotate9To12(x, turn);
    } else if PlacesOf(turn) <= 17 {
      Rotate14To17(x, turn);
    } else {
      Rotate20To23(x, turn);
    }
  }

  /** The word that a step gives; `added` is its message word and its constant. */
  function StepBits(round: Round, a: bv32, b: bv32, c: bv32, d: bv32, added: bv32, turn: Turn): bv32 {
    Add(RotateBits(Add(Add(a, RoundBits(round, b, c, d)), added), turn), b)
  }

  lemma StepBitsIs(round: Round, a: bv32, b: bv32, c: bv32, d: bv32, added: bv32, turn: Turn)
    ensures StepBits(round, a, b, c, d, added, turn) ==
      Add(Rotate(Add(Add(a, RoundBits(round, b, c, d)), added), PlacesOf(turn)), b)
  {
    hide RoundBits, RotateBits, Rotate, Add;
    RotateBitsIs(Add(Add(a, RoundBits(round, b, c, d)), added), turn);
  }

  function Numbers(a: bv32, b: bv32, c: bv32, d: bv32): Registers {
    Registers(Value(a), Value(b), Value(c), Value(d))
  }

  lemma StepIs(i: nat, a: bv32, b: bv32, c: bv32, d: bv32, added: bv32, turn: Turn)
    requires i < 64 && PlacesOf(turn) == Rotation(i) && Value(added) == MessageWord(i) + Sine(i)
    ensures Step(Numbers(a, b, c, d), Block(), i) == Numbers(d, StepBits(RoundOf(i), a, b, c, d, added, turn), b, c)
  {
    hide Value, Add, Rotate, MessageWord, Sine, Shift, MessageIndex, Auxiliary, RotateLeft, Block;
    hide StepBits, RoundBits, RoundOf, PlacesOf, Rotation;
    RotationIs(i);
    MessageWordIs(i);
    StepBitsIs(RoundOf(i), a, b, c, d, added, turn);
    RoundBitsAre(i, b, c, d);
    var f := RoundBits(RoundOf(i), b, c, d);
    SumIs(a, f);
    SumIs(Add(a, f), added);
    var t := Add(Add(a, f), added);
    RotateIs(t, PlacesOf(turn));
    SumIs(Rotate(t, PlacesOf(turn)), b);
    ThreeTerms(Value(a), Value(f), MessageWord(i), Sine(i));
  }

  lemma ThreeTerms(a: nat, f: nat, x: nat, k: nat)
    ensures ((a + f) % WORD_SIZE + (x + k)) % WORD_SIZE == (a + f + x + k) % WORD_SIZE
  {}

  /** What successive steps add, and how far they rotate. */
  datatype Plan = Nil | Cons(added: bv32, turn: Turn, rest: Plan)

  function Length(plan: Plan): nat {
    match plan
    case Nil => 0
    case Cons(_, _, rest) => 1 + Length(rest)
  }

  predicate IsPlan(plan: Plan, round: Round, i: nat) {
    match plan
    case Nil => true
    case Cons(added, turn, rest) =>
      && i < 64 && round == RoundOf(i) && PlacesOf(turn) == Rotation(i)
      && Value(added) == MessageWord(i) + Sine(i)
      && IsPlan(rest, round, i + 1)
  }

  datatype Words = Words(a: bv32, b: bv32, c: bv32, d: bv32)

  function Run(plan: Plan, round: Round, a: bv32, b: bv32, c: bv32, d: bv32): Words {
    match plan
    case Nil => Words(a, b, c, d)
    case Cons(added, turn, rest) => Run(rest, round, d, StepBits(round, a, b, c, d, added, turn), b, c)
  }

  /** Running a plan is taking its steps. */
  lemma {:induction false} RunIsSteps(plan: Plan, round: Round, i: nat, a: bv32, b: bv32, c: bv32, d: bv32, start: Registers)
    requires IsPlan(plan, round, i) && i <= 64 && Steps(start, Block(), i) == Numbers(a, b, c, d)
    ensures i + Length(plan) <= 64
    ensures var w := Run(plan, round, a, b, c, d);
      Steps(start, Block(), i + Length(plan)) == Numbers(w.a, w.b, w.c, w.d)
  {
    hide Value, StepBits, MessageWord, Sine, Step, Block, Numbers, PlacesOf, RoundOf, Rotation;
    if plan.Cons? {
      StepIs(i, a, b, c, d, plan.added, plan.turn);
      RunIsSteps(plan.rest, round, i + 1, d, StepBits(round, a, b, c, d, plan.added, plan.turn), b, c, start);
    }
  }

  // ----- The steps for this block -----

  const PLAN0 :=
    Cons(0xd76aa4f8, T7, Cons(0xe8c7b756, T12, Cons(0x242070db, T17, Cons(0xc1bdceee, T22,
    Cons(0xf57c0faf, T7, Cons(0x4787c62a, T12, Cons(0xa8304613, T17, Cons(0xfd469501, T22, Nil))))))))

  lemma Constants0()
    ensures Sine(0) == 0xd76aa478 && Sine(1) == 0xe8c7b756 && Sine(2) == 0x242070db && Sine(3) == 0xc1bdceee
    ensures Sine(4) == 0xf57c0faf && Sine(5) == 0x4787c62a && Sine(6) == 0xa8304613 && Sine(7) == 0xfd469501
  {}

  lemma IsPlan0()
    ensures IsPlan(PLAN0, RoundF, 0) && Length(PLAN0) == 8
  {
    Constants0();
    hide Sine;
  }

  lemma Part0()
    ensures Run(PLAN0, RoundF, 0x67452301, 0xefcdab89, 0x98badcfe, 0x10325476)
      == Words(0x32033344, 0x9bc13ce9, 0xf5b158db, 0x2f35d494)
  {}

  const PLAN1 :=
    Cons(0x698098d8, T7, Cons(0x8b44f7af, T12, Cons(0xffff5bb1, T17, Cons(0x895cd7be, T22,
    Cons(0x6b901122, T7, Cons(0xfd987193, T12, Cons(0xa679438e, T17, Cons(0x49b40821, T22, Nil))))))))

  lemma Constants1()
    ensures Sine(8) == 0x698098d8 && Sine(9) == 0x8b44f7af && Sine(10) == 0xffff5bb1 && Sine(11) == 0x895cd7be
    ensures Sine(12) == 0x6b901122 && Sine(13) == 0xfd987193 && Sine(14) == 0xa679438e && Sine(15) == 0x49b40821
  {}

  lemma IsPlan1()
    ensures IsPlan(PLAN1, RoundF, 8) && Length(PLAN1) == 8
  {
    Constants1();
    hide Sine;
  }

  lemma Part1()
    ensures Run(PLAN1, RoundF, 0x32033344, 0x9bc13ce9, 0xf5b158db, 0x2f35d494)
      == Words(0xf56c7cf1, 0xd6819c6a, 0x5aa53f75, 0x374943a7)
  {}

  const PLAN2 :=
    Cons(0xf61e2562, T5, Cons(0xc040b340, T9, Cons(0x265e5a51, T14, Cons(0xe9b6c82a, T20,
    Cons(0xd62f105d, T5, Cons(0x02441453, T9, Cons(0xd8a1e681, T14, Cons(0xe7d3fbc8, T20, Nil))))))))

  lemma Constants2()
    ensures Sine(16) == 0xf61e2562 && Sine(17) == 0xc040b340 && Sine(18) == 0x265e5a51 && Sine(19) == 0xe9b6c7aa
    ensures Sine(20) == 0xd62f105d && Sine(21) == 0x02441453 && Sine(22) == 0xd8a1e681 && Sine(23) == 0xe7d3fbc8
  {}

  lemma IsPlan2()
    ensures IsPlan(PLAN2, RoundG, 16) && Length(PLAN2) == 8
  {
    Constants2();
    hide Sine;
  }

  lemma Part2()
    ensures Run(PLAN2, RoundG, 0xf56c7cf1, 0xd6819c6a, 0x5aa53f75, 0x374943a7)
      == Words(0x3d1e3e6c, 0xe422531a, 0xeb41643e, 0x68b7b3e3)
  {}

  const PLAN3 :=
    Cons(0x21e1cde6, T5, Cons(0xc33707d6, T9, Cons(0xf4d50d87, T14, Cons(0x455a14ed, T20,
    Cons(0xa9e3e905, T5, Cons(0xfcefa3f8, T9, Cons(0x676f02d9, T14, Cons(0x8d2a4c8a, T20, Nil))))))))

  lemma Constants3()
    ensures Sine(24) == 0x21e1cde6 && Sine(25) == 0xc33707d6 && Sine(26) == 0xf4d50d87 && Sine(27) == 0x455a14ed
    ensures Sine(28) == 0xa9e3e905 && Sine(29) == 0xfcefa3f8 && Sine(30) == 0x676f02d9 && Sine(31) == 0x8d2a4c8a
  {}

  lemma IsPlan3()
    ensures IsPlan(PLAN3, RoundG, 24) && Length(PLAN3) == 8
  {
    Constants3();
    hide Sine;
  }

  lemma Part3()
    ensures Run(PLAN3, RoundG, 0x3d1e3e6c, 0xe422531a, 0xeb41643e, 0x68b7b3e3)
      == Words(0x13707036, 0xa2205f1f, 0x1c31c384, 0xae7813db)
  {}

  const PLAN4 :=
    Cons(0xfffa3942, T4, Cons(0x8771f681, T11, Cons(0x6d9d6122, T16, Cons(0xfde5380c, T23,
    Cons(0xa4beea44, T4, Cons(0x4bdecfa9, T11, Cons(0xf6bb4b60, T16, Cons(0xbebfbc70, T23, Nil))))))))

  lemma Constants4()
    ensures Sine(32) == 0xfffa3942 && Sine(33) == 0x8771f681 && Sine(34) == 0x6d9d6122 && Sine(35) == 0xfde5380c
    ensures Sine(36) == 0xa4beea44 && Sine(37) == 0x4bdecfa9 && Sine(38) == 0xf6bb4b60 && Sine(39) == 0xbebfbc70
  {}

  lemma IsPlan4()
    ensures IsPlan(PLAN4, RoundH, 32) && Length(PLAN4) == 8
  {
    Constants4();
    hide Sine;
  }

  lemma Part4()
    ensures Run(PLAN4, RoundH, 0x13707036, 0xa2205f1f, 0x1c31c384, 0xae7813db)
      == Words(0x5f7a9b2e, 0xc5dc8c15, 0x91ca4cb7, 0xabc34e16)
  {}

  const PLAN5 :=
    Cons(0x289b7ec6, T4, Cons(0xeaa1287a, T11, Cons(0xd4ef3085, T16, Cons(0x04881d05, T23,
    Cons(0xd9d4d039, T4, Cons(0xe6db99e5, T11, Cons(0x1fa27cf8, T16, Cons(0xc4ac5665, T23, Nil))))))))

  lemma Constants5()
    ensures Sine(40) == 0x289b7ec6 && Sine(41) == 0xeaa127fa && Sine(42) == 0xd4ef3085 && Sine(43) == 0x04881d05
    ensures Sine(44) == 0xd9d4d039 && Sine(45) == 0xe6db99e5 && Sine(46) == 0x1fa27cf8 && Sine(47) == 0xc4ac5665
  {}

  lemma IsPlan5()
    ensures IsPlan(PLAN5, RoundH, 40) && Length(PLAN5) == 8
  {
    Constants5();
    hide Sine;
  }

  lemma Part5()
    ensures Run(PLAN5, RoundH, 0x5f7a9b2e, 0xc5dc8c15, 0x91ca4cb7, 0xabc34e16)
      == Words(0x3f55edfd, 0xca7d2dbd, 0x68d84ea2, 0x22a31f54)
  {}

  const PLAN6 :=
    Cons(0xf42922c4, T6, Cons(0x432aff97, T10, Cons(0xab9423a7, T15, Cons(0xfc93a039, T21,
    Cons(0x655b59c3, T6, Cons(0x8f0ccc92, T10, Cons(0xffeff47d, T15, Cons(0x85845dd1, T21, Nil))))))))

  lemma Constants6()
    ensures Sine(48) == 0xf4292244 && Sine(49) == 0x432aff97 && Sine(50) == 0xab9423a7 && Sine(51) == 0xfc93a039
    ensures Sine(52) == 0x655b59c3 && Sine(53) == 0x8f0ccc92 && Sine(54) == 0xffeff47d && Sine(55) == 0x85845dd1
  {}

  lemma IsPlan6()
    ensures IsPlan(PLAN6, RoundI, 48) && Length(PLAN6) == 8
  {
    Constants6();
    hide Sine;
  }

  lemma Part6()
    ensures Run(PLAN6, RoundI, 0x3f55edfd, 0xca7d2dbd, 0x68d84ea2, 0x22a31f54)
      == Words(0x5625a114, 0x1e77fa61, 0x392ad0d0, 0x3450f42b)
  {}

  const PLAN7 :=
    Cons(0x6fa87e4f, T6, Cons(0xfe2ce6e0, T10, Cons(0xa3014314, T15, Cons(0x4e0811a1, T21,
    Cons(0xf7537e82, T6, Cons(0xbd3af235, T10, Cons(0x2ad7d2bb, T15, Cons(0xeb86d391, T21, Nil))))))))

  lemma Constants7()
    ensures Sine(56) == 0x6fa87e4f && Sine(57) == 0xfe2ce6e0 && Sine(58) == 0xa3014314 && Sine(59) == 0x4e0811a1
    ensures Sine(60) == 0xf7537e82 && Sine(61) == 0xbd3af235 && Sine(62) == 0x2ad7d2bb && Sine(63) == 0xeb86d391
  {}

  lemma IsPlan7()
    ensures IsPlan(PLAN7, RoundI, 56) && Length(PLAN7) == 8
  {
    Constants7();
    hide Sine;
  }

  lemma Part7()
    ensures Run(PLAN7, RoundI, 0x5625a114, 0x1e77fa61, 0x392ad0d0, 0x3450f42b)
      == Words(0x7246fad3, 0x14e45506, 0xff4ea3eb, 0x6e10a476)
  {}

  lemma EmptySteps(start: Registers)
    requires start == Numbers(0x67452301, 0xefcdab89, 0x98badcfe, 0x10325476)
    ensures Steps(start, Block(), 64) == Numbers(0x7246fad3, 0x14e45506, 0xff4ea3eb, 0x6e10a476)
  {
    hide Numbers, Block, IsPlan, Run, Length;
    NoSteps(start, Block());
    hide Steps;
    Part0();
    IsPlan0();
    RunIsSteps(PLAN0, RoundF, 0, 0x67452301, 0xefcdab89, 0x98badcfe, 0x10325476, start);
    Part1();
    IsPlan1();
    RunIsSteps(PLAN1, RoundF, 8, 0x32033344, 0x9bc13ce9, 0xf5b158db, 0x2f35d494, start);
    Part2();
    IsPlan2();
    RunIsSteps(PLAN2, RoundG, 16, 0xf56c7cf1, 0xd6819c6a, 0x5aa53f75, 0x374943a7, start);
    Part3();
    IsPlan3();
    RunIsSteps(PLAN3, RoundG, 24, 0x3d1e3e6c, 0xe422531a, 0xeb41643e, 0x68b7b3e3, start);
    Part4();
    IsPlan4();
    RunIsSteps(PLAN4, RoundH, 32, 0x13707036, 0xa2205f1f, 0x1c31c384, 0xae7813db, start);
    Part5();
    IsPlan5();
    RunIsSteps(PLAN5, RoundH, 40, 0x5f7a9b2e, 0xc5dc8c15, 0x91ca4cb7, 0xabc34e16, start);
    Part6();
    IsPlan6();
    RunIsSteps(PLAN6, RoundI, 48, 0x3f55edfd, 0xca7d2dbd, 0x68d84ea2, 0x22a31f54, start);
    Part7();
    IsPlan7();
    RunIsSteps(PLAN7, RoundI, 56, 0x5625a114, 0x1e77fa61, 0x392ad0d0, 0x3450f42b, start);
  }

  lemma EmptyCompressed()
    ensures Compress(INITIAL, Block()) == Registers(0xd98c1dd4, 0x04b2008f, 0x980980e9, 0x7e42f8ec)
  {
    hide Steps, Block;
    assert INITIAL == Numbers(0x67452301, 0xefcdab89, 0x98badcfe, 0x10325476);
    EmptySteps(INITIAL);
    assert Numbers(0x7246fad3, 0x14e45506, 0xff4ea3eb, 0x6e10a476)
      == Registers(0x7246fad3, 0x14e45506, 0xff4ea3eb, 0x6e10a476);
  }

  // ----- The digest -----

  lemma LowestByte(v: nat, rest: nat, b: nat, n: nat)
    requires v == 0x100 * rest + b && b < 0x100
    ensures LittleEndian(v, n + 1) == [b] + LittleEndian(rest, n)
  {}

  lemma FourBytes(v: nat, b0: nat, b1: nat, b2: nat, b3: nat)
    requires v == 0x100 * (0x100 * (0x100 * b3 + b2) + b1) + b0 && b0 < 0x100 && b1 < 0x100 && b2 < 0x100 && b3 < 0x100
    ensures LittleEndian(v, 4) == [b0, b1, b2, b3]
  {
    hide LittleEndian;
    var v1, v2 := 0x100 * (0x100 * b3 + b2) + b1, 0x100 * b3 + b2;
    LowestByte(v, v1, b0, 3);
    LowestByte(v1, v2, b1, 2);
    LowestByte(v2, b3, b2, 1);
    LowestByte(b3, 0, b3, 0);
    assert LittleEndian(0, 0) == [];
  }

  lemma {:induction false} FromZeros(s: seq<nat>)
    requires forall k :: 0 <= k < |s| ==> s[k] == 0
    ensures FromLittleEndian(s) == 0
  {
    if s != [] {
      FromZeros(s[1..]);
    }
  }

  lemma {:induction false} NoDigits(n: nat)
    ensures LittleEndian(0, n) == Zeros(n)
  {
    if n > 0 {
      NoDigits(n - 1);
      assert [0] + Zeros(n - 1) == Zeros(n);
    }
  }

  lemma EmptyPadded()
    ensures Pad([]) == [0x80] + Zeros(63)
  {
    hide LittleEndian;
    NoDigits(8);
    assert PadLength(0) == 56;
    assert Zeros(55) + Zeros(8) == Zeros(63);
  }

  lemma WordAt(i: nat)
    requires i < 16
    ensures FromLittleEndian(([0x80] + Zeros(63))[4 * i..4 * i + 4]) == if i == 0 then 0x80 else 0
  {
    var s := [0x80] + Zeros(63);
    var four := s[4 * i..4 * i + 4];
    assert forall k :: 0 < k < 64 ==> s[k] == 0;
    if i == 0 {
      FromZeros(four[1..]);
    } else {
      FromZeros(four);
    }
  }

  lemma EmptyBlock()
    ensures WordsOf([0x80] + Zeros(63)) == Block()
  {
    hide FromLittleEndian;
    var words := WordsOf([0x80] + Zeros(63));
    forall i | 0 <= i < 16 ensures words[i] == Block()[i] {
      WordAt(i);
    }
  }

  /** The digest of the empty message is d41d8cd98f00b204e9800998ecf8427e. */
  lemma EmptyDigest()
    ensures Digest([]) == [0xd4, 0x1d, 0x8c, 0xd9, 0x8f, 0x00, 0xb2, 0x04, 0xe9, 0x80, 0x09, 0x98, 0xec, 0xf8, 0x42, 0x7e]
  {
    hide Compress, Pad, WordsOf, LittleEndian;
    EmptyPadded();
    EmptyBlock();
    EmptyCompressed();
    var s := Pad([]);
    assert s[..BLOCK_SIZE] == s && s[BLOCK_SIZE..] == [];
    var r := Registers(0xd98c1dd4, 0x04b2008f, 0x980980e9, 0x7e42f8ec);
    assert Fold(r, []) == r;
    assert Fold(INITIAL, s) == r;
    FourBytes(r.a, 0xd4, 0x1d, 0x8c, 0xd9);
    FourBytes(r.b, 0x8f, 0x00, 0xb2, 0x04);
    FourBytes(r.c, 0xe9, 0x80, 0x09, 0x98);
    FourBytes(r.d, 0xec, 0xf8, 0x42, 0x7e);
    BytesOfFour(r.a, r.b, r.c, r.d);
  }

  lemma BytesOfFour(a: nat, b: nat, c: nat, d: nat)
    ensures BytesOf([a, b, c, d]) == LittleEndian(a, 4) + LittleEndian(b, 4) + LittleEndian(c, 4) + LittleEndian(d, 4)
  {
    hide LittleEndian;
    assert [a, b, c, d][..3] == [a, b, c] && [a, b, c][..2] == [a, b] && [a, b][..1] == [a] && [a][..0] == [];
    assert BytesOf([a]) == [] + LittleEndian(a, 4);
    assert BytesOf([a, b]) == BytesOf([a]) + LittleEndian(b, 4);
    assert BytesOf([a, b, c]) == BytesOf([a, b]) + LittleEndian(c, 4);
  }
}

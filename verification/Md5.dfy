/**
 Streaming MD5: a buffer of leftover bytes, a 64-bit count of bits held in two words, and the state
 after all whole blocks. Whatever the pieces a message is fed in, the digest is that of the padded
 message (sections 3.1 to 3.5 of RFC 1321).
 */
module Md5 {
  import opened Bits
  import opened Md5Transform

  const BLOCK_SIZE := 64

  ghost predicate AreBytes(s: seq<nat>) {
    forall i :: 0 <= i < |s| ==> s[i] < 256
  }

  // ----- The meaning -----

  const INITIAL := Registers(0x67452301, 0xefcdab89, 0x98badcfe, 0x10325476)

  /** Little-endian digits. */
  function LittleEndian(v: nat, n: nat): (r: seq<nat>)
    ensures |r| == n && AreBytes(r)
  {
    if n == 0 then [] else [v % 256] + LittleEndian(v / 256, n - 1)
  }

  function FromLittleEndian(s: seq<nat>): nat {
    if s == [] then 0 else s[0] + 256 * FromLittleEndian(s[1..])
  }

  function WordsOf(s: seq<nat>): (r: seq<nat>)
    ensures |r| == |s| / 4
  {
    seq(|s| / 4, i requires 0 <= i < |s| / 4 => FromLittleEndian(s[4 * i..4 * i + 4]))
  }

  function BytesOf(words: seq<nat>): (r: seq<nat>)
    ensures |r| == 4 * |words| && AreBytes(r)
  {
    if words == [] then [] else BytesOf(words[..|words| - 1]) + LittleEndian(words[|words| - 1], 4)
  }

  function CompressBlock(state: Registers, block: seq<nat>): Registers
    requires |block| == BLOCK_SIZE
  {
    Compress(state, WordsOf(block))
  }

  /** The state after all whole blocks. */
  function Fold(state: Registers, s: seq<nat>): Registers
    decreases |s|
  {
    if |s| < BLOCK_SIZE then state else Fold(CompressBlock(state, s[..BLOCK_SIZE]), s[BLOCK_SIZE..])
  }

  function PadLength(n: nat): nat {
    if n % 64 < 56 then 56 - n % 64 else 120 - n % 64
  }

  function Zeros(n: nat): (r: seq<nat>)
    ensures |r| == n && forall i :: 0 <= i < n ==> r[i] == 0
  {
    seq(n, _ => 0)
  }

  /** A single 1 bit, zeros, and the number of bits modulo 2^64. */
  function Pad(message: seq<nat>): seq<nat> {
    message + ([0x80] + Zeros(PadLength(|message|) - 1)) + LittleEndian(8 * |message|, 8)
  }

  function Digest(message: seq<nat>): seq<nat> {
    var r := Fold(INITIAL, Pad(message));
    BytesOf([r.a, r.b, r.c, r.d])
  }

  /** Padding ends on a block boundary. */
  lemma PadEndsBlock(message: seq<nat>)
    ensures |Pad(message)| % BLOCK_SIZE == 0
    ensures |message| < |Pad(message)| <= |message| + 9 + 63
  {
    hide LittleEndian, Zeros, PadLength;
    PadLengthEndsBlock(|message|);
    assert |Pad(message)| == |message| + PadLength(|message|) + 8;
  }

  lemma PadLengthEndsBlock(n: nat)
    ensures 0 < PadLength(n) <= 64 && (n + PadLength(n) + 8) % BLOCK_SIZE == 0
  {}

  /** Different messages of fewer than 2^61 bytes are padded differently. */
  lemma PadInjective(a: seq<nat>, b: seq<nat>)
    requires Pad(a) == Pad(b) && 8 * |a| < Pow2(64) && 8 * |b| < Pow2(64)
    ensures a == b
  {
    hide Pow2;
    var p := Pad(a);
    assert p[|p| - 8..] == LittleEndian(8 * |a|, 8);
    assert p[|p| - 8..] == LittleEndian(8 * |b|, 8);
    Pow256(8);
    DigitsRestore(8 * |a|, 8);
    DigitsRestore(8 * |b|, 8);
    assert a == p[..|a|] && b == p[..|b|];
  }

  function Power256(n: nat): nat {
    if n == 0 then 1 else 256 * Power256(n - 1)
  }

  lemma {:induction false} Pow256(n: nat)
    ensures Power256(n) == Pow2(8 * n)
  {
    if n > 0 {
      Pow256(n - 1);
      Pow2Add(8, 8 * (n - 1));
      assert Pow2(8) == 256;
    }
  }

  lemma {:induction false} DigitsRestore(v: nat, n: nat)
    requires v < Power256(n)
    ensures FromLittleEndian(LittleEndian(v, n)) == v
  {
    if n > 0 {
      DigitsRestore(v / 256, n - 1);
      assert LittleEndian(v, n)[1..] == LittleEndian(v / 256, n - 1);
    }
  }

  lemma {:induction false} FoldAppend(state: Registers, a: seq<nat>, b: seq<nat>)
    requires |a| % BLOCK_SIZE == 0
    ensures Fold(state, a + b) == Fold(Fold(state, a), b)
    decreases |a|
  {
    hide CompressBlock;
    if a == [] {
      assert a + b == b;
    } else {
      assert (a + b)[..BLOCK_SIZE] == a[..BLOCK_SIZE];
      assert (a + b)[BLOCK_SIZE..] == a[BLOCK_SIZE..] + b;
      FoldAppend(CompressBlock(state, a[..BLOCK_SIZE]), a[BLOCK_SIZE..], b);
    }
  }

  lemma FoldBlock(state: Registers, a: seq<nat>, block: seq<nat>)
    requires |a| % BLOCK_SIZE == 0 && |block| == BLOCK_SIZE
    ensures Fold(state, a + block) == CompressBlock(Fold(state, a), block)
  {
    hide CompressBlock;
    FoldAppend(state, a, block);
    assert block[..BLOCK_SIZE] == block;
  }

  // ----- Words and bytes -----

  lemma {:induction false} OrCommutes(a: nat, b: nat)
    ensures BitOr(a, b) == BitOr(b, a)
    decreases a + b
  {
    if a > 0 && b > 0 {
      OrCommutes(a / 2, b / 2);
    }
  }

  lemma OrBytes(low: nat, byte: nat, n: nat)
    requires low < Pow2(n)
    ensures BitOr(low, byte * Pow2(n)) == low + byte * Pow2(n)
  {
    OrDisjoint(byte, n, low);
    OrCommutes(low, byte * Pow2(n));
  }

  lemma PowersOfBytes()
    ensures Pow2(8) == 0x100 && Pow2(16) == 0x1_0000 && Pow2(24) == 0x100_0000 && Pow2(32) == WORD_SIZE
  {
    assert Pow2(8) == 0x100;
    Pow2Add(8, 8);
    Pow2Add(16, 8);
    Pow2Add(16, 16);
  }

  /** Shifting the bytes into place gives the word. */
  method DecodeWord(s: seq<nat>) returns (word: nat)
    requires |s| == 4 && AreBytes(s)
    ensures word == FromLittleEndian(s)
  {
    hide BitOr;
    PowersOfBytes();
    OrBytes(s[0], s[1], 8);
    OrBytes(s[0] + 0x100 * s[1], s[2], 16);
    OrBytes(s[0] + 0x100 * s[1] + 0x1_0000 * s[2], s[3], 24);
    FourBytes(s);
    word := BitOr(BitOr(BitOr(s[0], s[1] * Pow2(8)), s[2] * Pow2(16)), s[3] * Pow2(24));
  }

  lemma FourBytes(s: seq<nat>)
    requires |s| == 4
    ensures FromLittleEndian(s) == s[0] + 0x100 * s[1] + 0x1_0000 * s[2] + 0x100_0000 * s[3]
  {
    assert s[1..][1..] == s[2..] && s[2..][1..] == s[3..] && s[3..][1..] == [];
    assert FromLittleEndian(s[3..]) == s[3];
    assert FromLittleEndian(s[2..]) == s[2] + 256 * s[3];
    assert FromLittleEndian(s[1..]) == s[1] + 256 * (s[2] + 256 * s[3]);
  }

  method Decode(output: array<nat>, input: seq<nat>)
    requires |input| % 4 == 0 && output.Length == |input| / 4 && AreBytes(input)
    modifies output
    ensures output[..] == WordsOf(input)
  {
    var i, j := 0, 0;
    while j < |input|
      invariant j == 4 * i <= |input|
      invariant forall k :: 0 <= k < i ==> output[k] == WordsOf(input)[k]
      modifies output
    {
      output[i] := DecodeWord(input[j..j + 4]);
      i, j := i + 1, j + 4;
    }
  }

  /** The byte of a word at a shift, masked out. */
  method EncodeByte(word: nat, shift: nat) returns (byte: nat)
    ensures byte == Quotient(word, Pow2(shift)) % 256
  {
    hide BitAnd;
    assert Mask(8) == 0xff && Pow2(8) == 256;
    LShrIs(word, shift);
    AndMask(LShr(word, shift), 8);
    byte := BitAnd(LShr(word, shift), 0xff);
  }

  lemma WordDigits(word: nat)
    ensures LittleEndian(word, 4) == [
      word % 256, Quotient(word, Pow2(8)) % 256, Quotient(word, Pow2(16)) % 256, Quotient(word, Pow2(24)) % 256]
  {
    PowersOfBytes();
    DivDivBy(word, 256, 256);
    DivDivBy(word, 0x1_0000, 256);
    assert LittleEndian(word, 4) == [word % 256] + LittleEndian(word / 256, 3);
    assert LittleEndian(word / 256, 3) == [word / 256 % 256] + LittleEndian(word / 256 / 256, 2);
    var w := word / 256 / 256;
    assert LittleEndian(w, 2) == [w % 256] + LittleEndian(w / 256, 1);
    assert LittleEndian(w / 256, 1) == [w / 256 % 256];
  }

  method Encode(output: array<nat>, input: seq<nat>)
    requires output.Length == 4 * |input|
    modifies output
    ensures output[..] == BytesOf(input)
  {
    hide LittleEndian, Pow2;
    var i, j := 0, 0;
    while j < output.Length
      invariant j == 4 * i <= output.Length
      invariant output[..j] == BytesOf(input[..i])
    {
      WordDigits(input[i]);
      assert input[..i + 1][..i] == input[..i];
      output[j] := input[i] % 256;
      output[j + 1] := EncodeByte(input[i], 8);
      output[j + 2] := EncodeByte(input[i], 16);
      output[j + 3] := EncodeByte(input[i], 24);
      assert output[..j + 4] == output[..j] + [output[j], output[j + 1], output[j + 2], output[j + 3]];
      i, j := i + 1, j + 4;
    }
    assert input[..|input|] == input && output[..output.Length] == output[..];
  }

  // ----- Counting bits -----

  /** Two words hold the number of bits modulo 2^64. */
  ghost predicate CountIs(lo: nat, hi: nat, n: nat) {
    lo == 8 * n % WORD_SIZE && hi == 8 * n / WORD_SIZE % WORD_SIZE
  }

  lemma IndexFromCount(lo: nat, hi: nat, n: nat)
    requires CountIs(lo, hi, n)
    ensures lo / 8 % BLOCK_SIZE == n % BLOCK_SIZE
  {
    var q, r := n / 0x2000_0000, n % 0x2000_0000;
    DivUnique(8 * n, WORD_SIZE, q, 8 * r);
    DivUnique(n, BLOCK_SIZE, q * 0x80_0000 + r / BLOCK_SIZE, r % BLOCK_SIZE);
  }

  lemma CarryExact(al: nat, bl: nat)
    requires al < WORD_SIZE && bl < WORD_SIZE
    ensures var sum := (al + bl) % WORD_SIZE;
      al + bl == sum + (if sum < bl then WORD_SIZE else 0)
  {}

  lemma AddModulo(a: nat, b: nat, c: nat)
    ensures ((a % WORD_SIZE + c) % WORD_SIZE + b) % WORD_SIZE == (a + b + c) % WORD_SIZE
  {}

  lemma HighBits(length: nat)
    ensures 8 * length / WORD_SIZE == length / 0x2000_0000
  {}

  lemma DivMod(a: nat)
    ensures a == a / WORD_SIZE * WORD_SIZE + a % WORD_SIZE
  {}

  /** The carry is found by comparing the sum with a summand. */
  lemma CountAdvances(lo: nat, hi: nat, n: nat, length: nat)
    requires CountIs(lo, hi, n) && length < WORD_SIZE
    ensures var added := 8 * length % WORD_SIZE;
      var lo' := (lo + added) % WORD_SIZE;
      var hi' := if lo' < added then (hi + 1) % WORD_SIZE else hi;
      CountIs(lo', (hi' + length / 0x2000_0000) % WORD_SIZE, n + length)
  {
    var ah, bh := 8 * n / WORD_SIZE, 8 * length / WORD_SIZE;
    var added := 8 * length % WORD_SIZE;
    HighBits(length);
    CarryExact(lo, added);
    var lo' := (lo + added) % WORD_SIZE;
    var carry := if lo' < added then 1 else 0;
    DivMod(8 * n);
    DivMod(8 * length);
    DivUnique(8 * (n + length), WORD_SIZE, ah + bh + carry, lo');
    AddModulo(ah, bh, carry);
    AddModulo(ah, bh, 0);
  }

  lemma AddMultiple(v: nat, q: nat)
    ensures (v + 256 * q) / 256 == v / 256 + q && (v + 256 * q) % 256 == v % 256
  {}

  /** The product with a power, one digit less. */
  lemma PowerStep(q: nat, k: nat)
    requires k > 0
    ensures q * Power256(k) == 256 * (q * Power256(k - 1))
  {
    ProductStep(q, Power256(k - 1));
  }

  lemma ProductStep(q: nat, p: nat)
    ensures q * (256 * p) == 256 * (q * p)
  {}

  lemma OneDigit(lo: nat, k: nat)
    requires k > 0 && lo < Power256(k)
    ensures lo / 256 < Power256(k - 1)
  {}

  lemma {:induction false} DigitsSplit(lo: nat, hi: nat, k: nat, n: nat)
    requires lo < Power256(k)
    ensures LittleEndian(lo + hi * Power256(k), k + n) == LittleEndian(lo, k) + LittleEndian(hi, n)
    decreases k
  {
    if k == 0 {
      assert lo == 0 && hi * Power256(0) == hi;
    } else {
      hide Power256;
      var high := hi * Power256(k - 1);
      PowerStep(hi, k);
      OneDigit(lo, k);
      AddMultiple(lo, high);
      DigitsSplit(lo / 256, hi, k - 1, n);
      FirstDigit(lo + 256 * high, k + n);
      FirstDigit(lo, k);
    }
  }

  lemma FirstDigit(v: nat, n: nat)
    requires n > 0
    ensures LittleEndian(v, n) == [v % 256] + LittleEndian(v / 256, n - 1)
  {}

  lemma {:induction false} DigitsModulo(v: nat, q: nat, n: nat)
    ensures LittleEndian(v + q * Power256(n), n) == LittleEndian(v, n)
    decreases n
  {
    if n > 0 {
      hide Power256;
      var high := q * Power256(n - 1);
      PowerStep(q, n);
      AddMultiple(v, high);
      DigitsModulo(v / 256, q, n - 1);
      FirstDigit(v + 256 * high, n);
      FirstDigit(v, n);
    }
  }

  /** The two count words, as bytes, are the length field of the padding. */
  lemma CountBytes(lo: nat, hi: nat, n: nat)
    requires CountIs(lo, hi, n)
    ensures BytesOf([lo, hi]) == LittleEndian(8 * n, 8)
  {
    hide LittleEndian, Power256;
    EightBytes();
    DigitsSplit(lo, hi, 4, 4);
    var q := CountNumber(lo, hi, n);
    DigitsModulo(lo + hi * WORD_SIZE, q, 8);
    assert [lo, hi][..1] == [lo] && [lo][..0] == [];
    assert BytesOf([lo]) == LittleEndian(lo, 4);
  }

  lemma CountNumber(lo: nat, hi: nat, n: nat) returns (q: nat)
    requires CountIs(lo, hi, n)
    ensures lo < WORD_SIZE && 8 * n == lo + hi * WORD_SIZE + q * (WORD_SIZE * WORD_SIZE)
  {
    q := 8 * n / WORD_SIZE / WORD_SIZE;
    assert 8 * n / WORD_SIZE == hi + q * WORD_SIZE;
  }

  lemma EightBytes()
    ensures Power256(4) == WORD_SIZE && Power256(8) == WORD_SIZE * WORD_SIZE
  {
    assert Power256(4) == WORD_SIZE;
    assert Power256(8) == 0x1_0000_0000 * Power256(4);
  }

  // ----- The 32-bit loop guard -----

  /** Where the last whole block of the input would begin after the loop. */
  function LastStart(firstPart: nat, length: nat): nat
    requires firstPart <= length
  {
    firstPart + (length - firstPart) / BLOCK_SIZE * BLOCK_SIZE
  }

  /** `i + 64 <= length` is computed in 32 bits: the sum must not wrap at the place where the loop ends. */
  predicate GuardHolds(index: nat, length: nat)
    requires index < BLOCK_SIZE
  {
    var firstPart := BLOCK_SIZE - index;
    firstPart <= length ==> LastStart(firstPart, length) + BLOCK_SIZE < WORD_SIZE
  }

  /** On the way to the last block the 32-bit sum does not wrap. */
  lemma GuardPlain(firstPart: nat, length: nat, i: nat)
    requires firstPart <= i <= length && (i - firstPart) % BLOCK_SIZE == 0
    requires LastStart(firstPart, length) + BLOCK_SIZE < WORD_SIZE
    ensures (i + BLOCK_SIZE) % WORD_SIZE == i + BLOCK_SIZE
  {
    var q, last := (i - firstPart) / BLOCK_SIZE, (length - firstPart) / BLOCK_SIZE;
    assert i == firstPart + q * BLOCK_SIZE && q <= last;
    DivUnique(i + BLOCK_SIZE, WORD_SIZE, 0, i + BLOCK_SIZE);
  }

  lemma NextBoundary(n: nat, i: nat)
    requires (n + i) % BLOCK_SIZE == 0
    ensures (n + (i + BLOCK_SIZE)) % BLOCK_SIZE == 0
  {}

  /** The loop guard is right at every position the loop passes exactly when the sum at the end does not wrap. */
  lemma GuardExact(index: nat, length: nat)
    requires index < BLOCK_SIZE && length < WORD_SIZE
    ensures GuardHolds(index, length) <==>
      forall k: nat :: var i := BLOCK_SIZE - index + 64 * k;
        i <= length ==> ((i + BLOCK_SIZE) % WORD_SIZE <= length <==> i + BLOCK_SIZE <= length)
  {
    var firstPart := BLOCK_SIZE - index;
    if firstPart <= length {
      var last := (length - firstPart) / BLOCK_SIZE;
      var i := firstPart + 64 * last;
      assert i <= length < i + BLOCK_SIZE;
      if i + BLOCK_SIZE >= WORD_SIZE {
        assert (i + BLOCK_SIZE) % WORD_SIZE == i + BLOCK_SIZE - WORD_SIZE <= length;
      }
    }
  }

  /** Pieces of fewer than 2^32 - 64 bytes are never affected; one of exactly that size can be. */
  lemma GuardAffectsHugePiecesOnly(index: nat, length: nat)
    requires index < BLOCK_SIZE
    ensures length < WORD_SIZE - BLOCK_SIZE ==> GuardHolds(index, length)
    ensures !GuardHolds(0, WORD_SIZE - BLOCK_SIZE)
  {
    var firstPart := BLOCK_SIZE - index;
    if firstPart <= length {
      assert LastStart(firstPart, length) <= length;
    }
    assert LastStart(BLOCK_SIZE, WORD_SIZE - BLOCK_SIZE) == WORD_SIZE - BLOCK_SIZE;
  }

  // ----- The hash object -----

  /** The bytes of the message that fill whole blocks. */
  function Whole(n: nat): (w: nat)
    ensures w <= n < w + BLOCK_SIZE && w % BLOCK_SIZE == 0
  {
    n - n % BLOCK_SIZE
  }

  /** The state covers the whole blocks, the buffer begins with the leftover bytes. */
  ghost predicate Tracks(message: seq<nat>, buffer: seq<nat>, state: Registers) {
    && |buffer| == BLOCK_SIZE
    && state == Fold(INITIAL, message[..Whole(|message|)])
    && buffer[..|message| % BLOCK_SIZE] == message[Whole(|message|)..]
  }

  /** Filling the buffer up completes a block of the message. */
  lemma BufferFull(message: seq<nat>, input: seq<nat>, buffer: seq<nat>, full: seq<nat>, state: Registers)
    requires Tracks(message, buffer, state) && AreBytes(message) && AreBytes(input)
    requires var index := |message| % BLOCK_SIZE;
      && BLOCK_SIZE - index <= |input|
      && full == buffer[..index] + input[..BLOCK_SIZE - index]
    ensures |full| == BLOCK_SIZE && AreBytes(full)
    ensures var n := |message| + BLOCK_SIZE - |message| % BLOCK_SIZE;
      && n % BLOCK_SIZE == 0
      && CompressBlock(state, full) == Fold(INITIAL, (message + input)[..n])
  {
    hide CompressBlock, Fold;
    var w := Whole(|message|);
    assert (message + input)[..w + BLOCK_SIZE] == message[..w] + full;
    FoldBlock(INITIAL, message[..w], full);
  }

  lemma NextChunk(all: seq<nat>, i: nat)
    requires i % BLOCK_SIZE == 0 && i + BLOCK_SIZE <= |all|
    ensures CompressBlock(Fold(INITIAL, all[..i]), all[i..i + BLOCK_SIZE]) == Fold(INITIAL, all[..i + BLOCK_SIZE])
  {
    hide CompressBlock, Fold;
    assert all[..i + BLOCK_SIZE] == all[..i] + all[i..i + BLOCK_SIZE];
    FoldBlock(INITIAL, all[..i], all[i..i + BLOCK_SIZE]);
  }

  /** After the loop the rest of the input is what is left of the message. */
  lemma RestBuffered(message: seq<nat>, input: seq<nat>, i: nat, buffer: seq<nat>, state: Registers)
    requires i <= |input| < i + BLOCK_SIZE && (|message| + i) % BLOCK_SIZE == 0 && |buffer| == BLOCK_SIZE
    requires state == Fold(INITIAL, (message + input)[..|message| + i])
    requires buffer[..|input| - i] == input[i..]
    ensures Tracks(message + input, buffer, state)
  {
    hide Fold;
    var all := message + input;
    assert Whole(|all|) == |message| + i;
    assert all[|message| + i..] == input[i..];
  }

  /** A short piece only goes to the buffer. */
  lemma OnlyBuffered(message: seq<nat>, input: seq<nat>, before: seq<nat>, buffer: seq<nat>, state: Registers)
    requires Tracks(message, before, state) && |message| % BLOCK_SIZE + |input| < BLOCK_SIZE == |buffer|
    requires var index := |message| % BLOCK_SIZE; buffer[..index + |input|] == before[..index] + input
    ensures Tracks(message + input, buffer, state)
  {
    hide Fold;
    var all := message + input;
    var w := Whole(|message|);
    assert Whole(|all|) == w && all[..w] == message[..w];
    assert all[w..] == message[w..] + input;
  }

  class Md5 {
    var finalized: bool
    const buffer: array<nat>
    const count: array<nat>
    const state: array<nat>
    const digest: array<nat>
    ghost var message: seq<nat>

    ghost predicate Valid()
      reads this, buffer, count, state
    {
      && buffer.Length == BLOCK_SIZE && count.Length == 2 && state.Length == 4 && digest.Length == 16
      && buffer != count && buffer != state && buffer != digest && count != state && count != digest && state != digest
      && AreBytes(message)
      && (!finalized ==> CountIs(count[0], count[1], |message|) && Tracks(message, buffer[..], CurrentState()))
    }

    function CurrentState(): Registers
      requires state.Length == 4
      reads state
    {
      Registers(state[0], state[1], state[2], state[3])
    }

    constructor ()
      ensures Valid() && !finalized && message == []
      ensures fresh(buffer) && fresh(count) && fresh(state) && fresh(digest)
    {
      finalized := false;
      buffer := new nat[BLOCK_SIZE](_ => 0);
      count := new nat[2](_ => 0);
      state := new nat[4](_ => 0);
      digest := new nat[16](_ => 0);
      message := [];
      new;
      state[0], state[1], state[2], state[3] := 0x67452301, 0xefcdab89, 0x98badcfe, 0x10325476;
    }

    /** Takes in one block. */
    method TransformBlock(block: seq<nat>)
      requires |block| == BLOCK_SIZE && AreBytes(block) && state.Length == 4
      modifies state
      ensures CurrentState() == CompressBlock(old(CurrentState()), block)
    {
      hide Compress;
      var x := new nat[16](_ => 0);
      Decode(x, block);
      var r := Transform(CurrentState(), x[..]);
      state[0], state[1], state[2], state[3] := r.a, r.b, r.c, r.d;
    }

    method AddToCount(length: nat)
      requires count.Length == 2 && length < WORD_SIZE && CountIs(count[0], count[1], |message|)
      modifies count
      ensures CountIs(count[0], count[1], |message| + length)
    {
      CountAdvances(count[0], count[1], |message|, length);
      var added := 8 * length % WORD_SIZE;
      count[0] := (count[0] + added) % WORD_SIZE;
      if count[0] < added {
        count[1] := (count[1] + 1) % WORD_SIZE;
      }
      count[1] := (count[1] + length / 0x2000_0000) % WORD_SIZE;
    }

    /** Takes in the whole blocks of the input from a block boundary of the message on. */
    method TransformChunks(input: seq<nat>, firstPart: nat) returns (i: nat)
      requires state.Length == 4 && AreBytes(input) && |input| < WORD_SIZE && firstPart <= |input|
      requires LastStart(firstPart, |input|) + BLOCK_SIZE < WORD_SIZE
      requires (|message| + firstPart) % BLOCK_SIZE == 0
      requires CurrentState() == Fold(INITIAL, (message + input)[..|message| + firstPart])
      modifies state
      ensures i <= |input| < i + BLOCK_SIZE && (|message| + i) % BLOCK_SIZE == 0
      ensures CurrentState() == Fold(INITIAL, (message + input)[..|message| + i])
    {
      hide Fold, CompressBlock, LastStart;
      ghost var all, n := message + input, |message|;
      i := firstPart;
      GuardPlain(firstPart, |input|, i);
      while (i + BLOCK_SIZE) % WORD_SIZE <= |input|
        invariant firstPart <= i <= |input| && (i - firstPart) % BLOCK_SIZE == 0
        invariant (i + BLOCK_SIZE) % WORD_SIZE == i + BLOCK_SIZE
        invariant (n + i) % BLOCK_SIZE == 0
        invariant CurrentState() == Fold(INITIAL, all[..n + i])
        decreases |input| - i
      {
        assert all[n + i..n + i + BLOCK_SIZE] == input[i..i + BLOCK_SIZE];
        NextChunk(all, n + i);
        TransformBlock(input[i..i + BLOCK_SIZE]);
        NextBoundary(n, i);
        i := (i + BLOCK_SIZE) % WORD_SIZE;
        GuardPlain(firstPart, |input|, i);
      }
    }

    /** Copies a stretch of the input to the buffer. */
    method FillBuffer(index: nat, input: seq<nat>, start: nat, length: nat)
      requires buffer.Length == BLOCK_SIZE && index + length <= BLOCK_SIZE && start + length <= |input|
      modifies buffer
      ensures buffer[..index + length] == old(buffer[..index]) + input[start..start + length]
    {
      forall k | 0 <= k < length {
        buffer[index + k] := input[start + k];
      }
    }

    /** Continues the message with another piece. */
    method Update(input: seq<nat>)
      requires Valid() && !finalized && AreBytes(input) && |input| < WORD_SIZE
      requires GuardHolds(|message| % BLOCK_SIZE, |input|)
      modifies this`message, buffer, count, state
      ensures Valid() && !finalized && message == old(message) + input
    {
      hide CountIs, LastStart, CompressBlock, Fold, Tracks;
      IndexFromCount(count[0], count[1], |message|);
      var index := count[0] / 8 % BLOCK_SIZE;
      AddToCount(|input|);
      var firstPart := BLOCK_SIZE - index;
      ghost var before := buffer[..];
      if firstPart <= |input| {
        FillBuffer(index, input, 0, firstPart);
        BufferFull(message, input, before, buffer[..], CurrentState());
        TransformBlock(buffer[..]);
        var i := TransformChunks(input, firstPart);
        FillBuffer(0, input, i, |input| - i);
        RestBuffered(message, input, i, buffer[..], CurrentState());
      } else {
        FillBuffer(index, input, 0, |input|);
        OnlyBuffered(message, input, before, buffer[..], CurrentState());
      }
      message := message + input;
    }

    /** Pads, appends the length, and leaves the digest. */
    method Finalize()
      requires Valid()
      modifies this, buffer, count, state, digest
      ensures Valid() && finalized
      ensures old(finalized) ==> digest[..] == old(digest[..])
      ensures !old(finalized) ==> digest[..] == Digest(old(message))
    {
      hide Fold, CountIs, BytesOf, LittleEndian, Zeros, Tracks, GuardHolds, PadLength;
      if finalized {
        return;
      }
      var padding := [0x80] + Zeros(63);
      CountBytes(count[0], count[1], |message|);
      var bits := new nat[8];
      Encode(bits, [count[0], count[1]]);
      IndexFromCount(count[0], count[1], |message|);
      var index := count[0] / 8 % 64;
      var padLen := if index < 56 then 56 - index else 120 - index;
      PadLengthIs(|message|, index);
      ghost var text := message;
      PaddingPrefix(padLen);
      PadLengthEndsBlock(|message|);
      ShortPiece(|message| % BLOCK_SIZE, padLen);
      Update(padding[..padLen]);
      ShortPiece(|message| % BLOCK_SIZE, 8);
      Update(bits[..]);
      assert message == Pad(text);
      AllFolded(message, buffer[..], CurrentState());
      Encode(digest, [state[0], state[1], state[2], state[3]]);
      forall k | 0 <= k < BLOCK_SIZE {
        buffer[k] := 0;
      }
      count[0], count[1] := 0, 0;
      finalized := true;
    }
  }

  lemma PadLengthIs(n: nat, index: nat)
    requires index == n % BLOCK_SIZE
    ensures PadLength(n) == if index < 56 then 56 - index else 120 - index
  {}

  lemma PaddingPrefix(n: nat)
    requires 0 < n <= 64
    ensures ([0x80] + Zeros(63))[..n] == [0x80] + Zeros(n - 1)
    ensures AreBytes([0x80] + Zeros(n - 1))
  {}

  lemma ShortPiece(index: nat, length: nat)
    requires index < BLOCK_SIZE && length <= BLOCK_SIZE
    ensures GuardHolds(index, length)
  {}

  lemma AllFolded(message: seq<nat>, buffer: seq<nat>, state: Registers)
    requires Tracks(message, buffer, state) && |message| % BLOCK_SIZE == 0
    ensures state == Fold(INITIAL, message)
  {
    hide Fold;
    assert message[..Whole(|message|)] == message;
  }

  function Flatten(pieces: seq<seq<nat>>): seq<nat> {
    if pieces == [] then [] else Flatten(pieces[..|pieces| - 1]) + pieces[|pieces| - 1]
  }

  /** Feeding a message in any pieces gives the digest of the whole message. */
  method HashPieces(pieces: seq<seq<nat>>) returns (digest: seq<nat>)
    requires forall i :: 0 <= i < |pieces| ==> AreBytes(pieces[i]) && |pieces[i]| < WORD_SIZE
    requires forall i :: 0 <= i < |pieces| ==> GuardHolds(|Flatten(pieces[..i])| % BLOCK_SIZE, |pieces[i]|)
    ensures digest == Digest(Flatten(pieces))
  {
    hide GuardHolds, Digest, Fold, CountIs, Tracks, AreBytes;
    var md5 := new Md5();
    for i := 0 to |pieces|
      invariant md5.Valid() && !md5.finalized && md5.message == Flatten(pieces[..i])
      invariant fresh(md5) && fresh(md5.buffer) && fresh(md5.count) && fresh(md5.state) && fresh(md5.digest)
    {
      md5.Update(pieces[i]);
      assert pieces[..i + 1][..i] == pieces[..i];
    }
    assert pieces[..|pieces|] == pieces;
    md5.Finalize();
    digest := md5.digest[..];
  }
}

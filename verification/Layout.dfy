/**
 Object layout: member offsets and sizes are computed in four places, by a loop over known sizes, by
 a generated offset function, by the sum that places a suffix byte and by the sum that gives the size
 of the whole object.
 */
module Layout {
  import opened Bits

  /** The size of a member and its alignment, as a power of two. */
  datatype Member = Member(size: nat, alignBits: nat)

  /** The least multiple of 2^k that is not below x, by halving upwards. */
  function AlignUp(x: nat, k: nat): (r: nat)
    ensures x <= r
    decreases k
  {
    if k == 0 then x else 2 * AlignUp((x + 1) / 2, k - 1)
  }

  /** The k lowest bits are zero. */
  predicate IsAligned(x: nat, k: nat)
    decreases k
  {
    k == 0 || (x % 2 == 0 && IsAligned(x / 2, k - 1))
  }

  /** Where the next free byte is after the members, beginning at `start`. */
  function End(members: seq<Member>, start: nat): nat {
    if members == [] then start
    else
      var last := members[|members| - 1];
      AlignUp(End(members[..|members| - 1], start), last.alignBits) + last.size
  }

  /** The offset of a member. */
  function Offset(members: seq<Member>, i: nat): nat
    requires i < |members|
  {
    AlignUp(End(members[..i], 0), members[i].alignBits)
  }

  function MaxBits(members: seq<Member>): nat {
    if members == [] then 0
    else
      var last := members[|members| - 1];
      var before := MaxBits(members[..|members| - 1]);
      if before < last.alignBits then last.alignBits else before
  }

  // ----- Aligning one value -----

  /** Aligned values are the multiples of the power of two. */
  lemma {:induction false} AlignedIsMultiple(x: nat, k: nat)
    ensures IsAligned(x, k) <==> x % Pow2(k) == 0
    decreases k
  {
    hide Pow2;
    if k == 0 {
      Pow2Zero();
    } else {
      AlignedIsMultiple(x / 2, k - 1);
      RemainderByBits(x, k);
    }
  }

  lemma {:induction false} AlignUpIs(x: nat, k: nat, m: nat)
    requires IsAligned(m, k) && x <= m < x + Pow2(k)
    ensures AlignUp(x, k) == m
    decreases k
  {
    if k > 0 {
      AlignUpIs((x + 1) / 2, k - 1, m / 2);
    }
  }

  lemma {:induction false} AlignUpBounds(x: nat, k: nat)
    ensures IsAligned(AlignUp(x, k), k) && x <= AlignUp(x, k) < x + Pow2(k)
    decreases k
  {
    if k > 0 {
      AlignUpBounds((x + 1) / 2, k - 1);
    }
  }

  /** Nothing smaller is aligned and large enough. */
  lemma {:induction false} AlignUpLeast(x: nat, k: nat, y: nat)
    requires IsAligned(y, k) && x <= y
    ensures AlignUp(x, k) <= y
    decreases k
  {
    if k > 0 {
      AlignUpLeast((x + 1) / 2, k - 1, y / 2);
    }
  }

  lemma {:induction false} AlignedAdd(x: nat, y: nat, k: nat)
    requires IsAligned(x, k) && IsAligned(y, k)
    ensures IsAligned(x + y, k)
    decreases k
  {
    if k > 0 {
      AlignedAdd(x / 2, y / 2, k - 1);
    }
  }

  lemma {:induction false} ZeroAligned(k: nat)
    ensures IsAligned(0, k)
    decreases k
  {
    if k > 0 {
      ZeroAligned(k - 1);
    }
  }

  lemma {:induction false} LargerPowerAligned(a: nat, k: nat)
    requires k <= a
    ensures IsAligned(Pow2(a), k)
    decreases k
  {
    if k > 0 {
      LargerPowerAligned(a - 1, k - 1);
    }
  }

  /** Moving a value up by a coarser power of two moves its aligned value by as much. */
  lemma AlignUpShift(x: nat, k: nat, a: nat)
    requires k <= a
    ensures AlignUp(x + Pow2(a), k) == AlignUp(x, k) + Pow2(a)
  {
    hide Pow2, AlignUp, IsAligned;
    AlignUpBounds(x, k);
    LargerPowerAligned(a, k);
    AlignedAdd(AlignUp(x, k), Pow2(a), k);
    AlignUpIs(x + Pow2(a), k, AlignUp(x, k) + Pow2(a));
  }

  lemma AlignUpMonotone(x: nat, y: nat, k: nat)
    requires x <= y
    ensures AlignUp(x, k) <= AlignUp(y, k)
  {
    hide AlignUp, IsAligned;
    AlignUpBounds(y, k);
    AlignUpLeast(x, k, AlignUp(y, k));
  }

  // ----- The word operations -----

  /** (size + mask) & ~mask, in 64-bit words. */
  function MakeAligned(size: nat, mask: nat): nat
    requires mask < Pow2(WORD)
  {
    BitAnd((size + mask) % Pow2(WORD), BitNot(mask))
  }

  /** The bit trick gives the least aligned value that is not below its input. */
  lemma MakeAlignedIsLeast(size: nat, k: nat)
    requires k <= WORD && size + Mask(k) < Pow2(WORD)
    ensures Mask(k) < Pow2(WORD) && MakeAligned(size, Mask(k)) == AlignUp(size, k)
  {
    hide Pow2, BitAnd, BitNot, AlignUp;
    var y := size + Mask(k);
    AndNotMask(y, k);
    DivUnique(y, Pow2(WORD), 0, y);
    RoundedDown(size, k);
  }

  lemma NoMask(size: nat)
    ensures size + Mask(0) == size && size % Pow2(0) == 0
  {}

  lemma HalfPlusMask(size: nat, k: nat)
    requires k > 0
    ensures (size + Mask(k)) / 2 == (size + 1) / 2 + Mask(k - 1)
  {}

  lemma {:induction false} RoundedDown(size: nat, k: nat)
    ensures AlignUp(size, k) == size + Mask(k) - (size + Mask(k)) % Pow2(k)
    decreases k
  {
    hide Pow2, Mask;
    if k == 0 {
      NoMask(size);
    } else {
      HalfPlusMask(size, k);
      RoundedDown((size + 1) / 2, k - 1);
      RemainderByBits(size + Mask(k), k);
    }
  }

  // ----- Properties of the layout -----

  lemma {:induction false} EndGrows(members: seq<Member>, i: nat, start: nat)
    requires i <= |members|
    ensures End(members[..i], start) <= End(members, start)
    decreases |members|
  {
    hide AlignUp;
    if i < |members| {
      var shorter := members[..|members| - 1];
      EndGrows(shorter, i, start);
      assert members[..i] == shorter[..i];
      AlignUpBounds(End(shorter, start), members[|members| - 1].alignBits);
    } else {
      assert members[..i] == members;
    }
  }

  lemma MemberEnds(members: seq<Member>, i: nat)
    requires i < |members|
    ensures Offset(members, i) + members[i].size == End(members[..i + 1], 0)
    ensures End(members[..i], 0) <= Offset(members, i)
  {
    hide AlignUp;
    assert members[..i + 1][..i] == members[..i];
    AlignUpBounds(End(members[..i], 0), members[i].alignBits);
  }

  /** Offsets are aligned, members follow each other without overlap, and the last one ends before the end. */
  lemma MembersDisjoint(members: seq<Member>, i: nat, j: nat)
    requires i < j < |members|
    ensures Offset(members, i) + members[i].size <= Offset(members, j)
  {
    hide End;
    MemberEnds(members, i);
    MemberEnds(members, j);
    EndGrows(members[..j], i + 1, 0);
    assert members[..j][..i + 1] == members[..i + 1];
  }

  lemma MemberInside(members: seq<Member>, i: nat)
    requires i < |members|
    ensures IsAligned(Offset(members, i), members[i].alignBits)
    ensures Offset(members, i) + members[i].size <= End(members, 0)
  {
    hide End;
    AlignUpBounds(End(members[..i], 0), members[i].alignBits);
    MemberEnds(members, i);
    EndGrows(members, i + 1, 0);
  }

  lemma {:induction false} EndMonotone(members: seq<Member>, start: nat, start': nat)
    requires start <= start'
    ensures End(members, start) <= End(members, start')
  {
    hide AlignUp;
    if members != [] {
      var shorter := members[..|members| - 1];
      EndMonotone(shorter, start, start');
      AlignUpMonotone(End(shorter, start), End(shorter, start'), members[|members| - 1].alignBits);
    }
  }

  lemma {:induction false} MaxBitsIs(members: seq<Member>)
    ensures forall i :: 0 <= i < |members| ==> members[i].alignBits <= MaxBits(members)
    ensures members != [] ==> exists i :: 0 <= i < |members| && members[i].alignBits == MaxBits(members)
  {
    if members != [] {
      var shorter := members[..|members| - 1];
      MaxBitsIs(shorter);
      if MaxBits(members) == members[|members| - 1].alignBits {
      } else if shorter != [] {
        var i :| 0 <= i < |shorter| && shorter[i].alignBits == MaxBits(shorter);
        assert members[i].alignBits == MaxBits(members);
      }
    }
  }

  // ----- Whole objects -----

  datatype Indicator = NoIndicator | GapByte(offset: nat) | SuffixByte

  /** The size of a class or struct. */
  function ObjectSize(members: seq<Member>, indicator: Indicator, isStruct: bool): nat {
    var size := End(members, if indicator.SuffixByte? then 1 else 0);
    AlignUp(if !isStruct && size == 0 then 1 else size, MaxBits(members))
  }

  function SuffixOffset(members: seq<Member>): nat {
    AlignUp(End(members, 0), MaxBits(members))
  }

  /** Members lie inside the object. */
  lemma MembersInsideObject(members: seq<Member>, indicator: Indicator, isStruct: bool, i: nat)
    requires i < |members|
    ensures Offset(members, i) + members[i].size <= ObjectSize(members, indicator, isStruct)
  {
    hide End, Offset, AlignUp;
    MemberInside(members, i);
    EndMonotone(members, 0, 1);
    var size := End(members, if indicator.SuffixByte? then 1 else 0);
    AlignUpBounds(if !isStruct && size == 0 then 1 else size, MaxBits(members));
  }

  // ----- The gap byte -----

  function GapBefore(members: seq<Member>, i: nat): nat
    requires i < |members|
  {
    Offset(members, i) - End(members[..i], 0)
  }

  /** A byte put in front of a gap lies inside the object and in no member. */
  lemma GapByteIsSafe(members: seq<Member>, i: nat, indicator: Indicator, isStruct: bool)
    requires i < |members| && GapBefore(members, i) > 0
    ensures var gap := End(members[..i], 0);
      && gap < ObjectSize(members, indicator, isStruct)
      && (forall j :: 0 <= j < i ==> Offset(members, j) + members[j].size <= gap)
      && (forall j :: i <= j < |members| ==> gap < Offset(members, j))
  {
    hide End, Offset, ObjectSize;
    MembersInsideObject(members, indicator, isStruct, i);
    MemberEnds(members, i);
    forall j | 0 <= j < i
      ensures Offset(members, j) + members[j].size <= End(members[..i], 0)
    {
      MemberEnds(members, j);
      EndGrows(members[..i], j + 1, 0);
      assert members[..i][..j + 1] == members[..j + 1];
    }
    forall j | i <= j < |members|
      ensures End(members[..i], 0) < Offset(members, j)
    {
      if i < j {
        MembersDisjoint(members, i, j);
      }
    }
  }

  // ----- The suffix byte -----

  /** No gap is as large as the alignments of the members before it. */
  ghost predicate GapsStaySmall(members: seq<Member>) {
    forall i :: 0 <= i < |members| ==> GapBefore(members, i) < Pow2(MaxBits(members[..i]))
  }

  lemma GapsOfPrefix(members: seq<Member>)
    requires members != []
    ensures var shorter := members[..|members| - 1];
      GapsStaySmall(members) <==>
        GapsStaySmall(shorter) && GapBefore(members, |members| - 1) < Pow2(MaxBits(shorter))
  {
    hide End, AlignUp, MaxBits;
    var n := |members| - 1;
    var shorter := members[..n];
    assert forall i :: 0 <= i < n ==> shorter[..i] == members[..i];
    assert forall i :: 0 <= i < n ==> GapBefore(shorter, i) == GapBefore(members, i);
    if GapsStaySmall(members) {
      assert GapBefore(members, n) < Pow2(MaxBits(members[..n]));
    }
  }

  /**
   Starting the sum at 1 instead of 0 pushes everything behind it by the largest alignment, unless a
   gap swallows the extra byte; from then on both sums agree.
   */
  lemma {:induction false} ExtraByte(members: seq<Member>)
    ensures End(members, 1)
      == if GapsStaySmall(members) then End(members, 0) + Pow2(MaxBits(members)) else End(members, 0)
  {
    hide AlignUp, GapsStaySmall;
    if members == [] {
      NoGaps();
    } else {
      var n := |members| - 1;
      var shorter, last := members[..n], members[n];
      ExtraByte(shorter);
      GapsOfPrefix(members);
      if GapsStaySmall(shorter) {
        AlignPushed(End(shorter, 0), MaxBits(shorter), last.alignBits);
      }
    }
  }

  lemma NoGaps()
    ensures GapsStaySmall([])
  {}

  lemma AlignPushed(p: nat, a: nat, k: nat)
    ensures AlignUp(p + Pow2(a), k)
      == if AlignUp(p, k) - p < Pow2(a) then AlignUp(p, k) + Pow2(if a < k then k else a) else AlignUp(p, k)
  {
    hide Pow2, AlignUp, IsAligned;
    AlignUpBounds(p, k);
    if k <= a {
      AlignUpShift(p, k, a);
      Pow2Monotone(k, a);
    } else {
      Pow2Monotone(a, k);
      if AlignUp(p, k) - p < Pow2(a) {
        LargerPowerAligned(k, k);
        AlignedAdd(AlignUp(p, k), Pow2(k), k);
        AlignUpIs(p + Pow2(a), k, AlignUp(p, k) + Pow2(k));
      } else {
        AlignUpIs(p + Pow2(a), k, AlignUp(p, k));
      }
    }
  }

  /**
   The suffix byte lies after every member, and strictly inside the object exactly when no gap is as
   large as the alignments of the members before it.
   */
  lemma SuffixFitsExactly(members: seq<Member>, isStruct: bool)
    ensures forall i :: 0 <= i < |members| ==> Offset(members, i) + members[i].size <= SuffixOffset(members)
    ensures SuffixOffset(members) < ObjectSize(members, SuffixByte, isStruct) <==> GapsStaySmall(members)
  {
    hide End, Offset, AlignUp, GapsStaySmall;
    ExtraByte(members);
    EndMonotone(members, 0, 1);
    AlignUpBounds(End(members, 0), MaxBits(members));
    forall i | 0 <= i < |members|
      ensures Offset(members, i) + members[i].size <= SuffixOffset(members)
    {
      MemberInside(members, i);
    }
    AlignUpShift(End(members, 0), MaxBits(members), MaxBits(members));
    if End(members, 1) == 0 {
      StartsAtOne(members);
    }
  }

  lemma {:induction false} StartsAtOne(members: seq<Member>)
    ensures End(members, 1) > 0
  {
    hide AlignUp;
    if members != [] {
      StartsAtOne(members[..|members| - 1]);
      AlignUpBounds(End(members[..|members| - 1], 1), members[|members| - 1].alignBits);
    }
  }

  /** When every size is known and no gap was found, the suffix byte is safe. */
  lemma SuffixFitsWithoutGaps(members: seq<Member>, isStruct: bool)
    requires forall i :: 0 <= i < |members| ==> GapBefore(members, i) == 0
    ensures SuffixOffset(members) < ObjectSize(members, SuffixByte, isStruct)
  {
    hide GapBefore, MaxBits;
    SuffixFitsExactly(members, isStruct);
  }

  /**
   The gap search stops at the first member of unknown size: a byte followed by such a member, of size
   4 and alignment 4 when instantiated, gets a suffix byte just past the end of the object.
   */
  lemma SuffixCanMissTheObject()
    ensures var members := [Member(1, 0), Member(4, 2)];
      && LivenessByte(members, [true, false]) == SuffixByte
      && SuffixOffset(members) == 8 == ObjectSize(members, SuffixByte, false)
  {
    hide AlignUp;
    var members := [Member(1, 0), Member(4, 2)];
    assert members[..1] == [Member(1, 0)] && members[..1][..0] == [];
    assert Pow2(2) == 4 && Pow2(0) == 1;
    AlignUpIs(0, 0, 0);
    AlignUpIs(1, 0, 1);
    AlignUpIs(1, 2, 4);
    AlignUpIs(2, 2, 4);
    AlignUpIs(8, 2, 8);
    assert End(members[..1], 0) == 1 && End(members[..1], 1) == 2;
    assert End(members, 0) == 8 && End(members, 1) == 8;
    assert MaxBits(members[..1]) == 0 && MaxBits(members) == 2;
    assert members[..0] == [] && Offset(members, 0) == 0;
    assert LivenessByteFrom(members, [true, false], 1) == SuffixByte;
  }

  // ----- The loops -----

  /** All the sums stay inside 64-bit words. */
  ghost predicate InWord(members: seq<Member>) {
    && (forall i :: 0 <= i < |members| ==> members[i].alignBits < WORD - 1)
    && End(members, 1) < Pow2(WORD - 1)
  }

  lemma AlignInWord(size: nat, k: nat)
    requires k < WORD - 1 && size <= Pow2(WORD - 1)
    ensures size + Mask(k) < Pow2(WORD) && Mask(k) < Pow2(WORD)
  {
    Pow2Monotone(k, WORD - 1);
    assert Pow2(WORD) == 2 * Pow2(WORD - 1);
  }

  /** One step of any of the sums. */
  method NextAligned(members: seq<Member>, i: nat, current: nat, ghost start: nat) returns (offset: nat)
    requires InWord(members) && start <= 1 && i < |members| && current == End(members[..i], start)
    ensures offset == AlignUp(current, members[i].alignBits)
    ensures offset + members[i].size == End(members[..i + 1], start) <= End(members, 1)
  {
    hide Pow2, AlignUp;
    assert members[..i + 1][..i] == members[..i];
    EndGrows(members, i, start);
    EndGrows(members, i + 1, start);
    EndMonotone(members, start, 1);
    AlignInWord(current, members[i].alignBits);
    MakeAlignedIsLeast(current, members[i].alignBits);
    offset := MakeAligned(current, Mask(members[i].alignBits));
  }

  /** The static loop over known sizes. */
  method GenMemberOffset(members: seq<Member>, memberIndex: nat) returns (offset: nat)
    requires memberIndex < |members| && InWord(members)
    ensures offset == Offset(members, memberIndex)
  {
    if memberIndex == 0 {
      FirstOffset(members);
      return 0;
    }
    offset := 0;
    for i := 0 to memberIndex
      invariant offset == End(members[..i], 0)
    {
      var aligned := NextAligned(members, i, offset, 0);
      offset := aligned + members[i].size;
    }
    offset := NextAligned(members, memberIndex, offset, 0);
  }

  lemma FirstOffset(members: seq<Member>)
    requires members != []
    ensures Offset(members, 0) == 0
  {
    ZeroAligned(members[0].alignBits);
    AlignUpIs(0, members[0].alignBits, 0);
  }

  /** The generated function compares the requested index with every member in turn. */
  method MemberOffsetFunction(members: seq<Member>, memberIndex: nat) returns (offset: nat)
    requires memberIndex < |members| && InWord(members)
    ensures offset == Offset(members, memberIndex)
  {
    offset := 0;
    for i := 0 to |members|
      invariant i <= memberIndex && offset == End(members[..i], 0)
    {
      offset := NextAligned(members, i, offset, 0);
      if memberIndex == i {
        return;
      }
      if i != |members| - 1 {
        offset := offset + members[i].size;
      }
    }
  }

  /** ORing one more mask gives the mask of the largest alignment so far. */
  lemma OneMoreMask(members: seq<Member>, i: nat)
    requires i < |members|
    ensures BitOr(Mask(MaxBits(members[..i])), Mask(members[i].alignBits)) == Mask(MaxBits(members[..i + 1]))
  {
    hide BitOr;
    OrMasks(MaxBits(members[..i]), members[i].alignBits);
    assert members[..i + 1][..i] == members[..i];
  }

  method GenAlignMask(members: seq<Member>) returns (mask: nat)
    ensures mask == Mask(MaxBits(members))
  {
    mask := 0;
    for i := 0 to |members|
      invariant mask == Mask(MaxBits(members[..i]))
    {
      OneMoreMask(members, i);
      mask := BitOr(mask, Mask(members[i].alignBits));
    }
    assert members[..|members|] == members;
  }

  method FinalAlign(members: seq<Member>, size: nat, mask: nat) returns (aligned: nat)
    requires InWord(members) && size <= Pow2(WORD - 1) && mask == Mask(MaxBits(members))
    ensures aligned == AlignUp(size, MaxBits(members))
  {
    hide Pow2, AlignUp, MakeAligned, Mask;
    MaxBitsIs(members);
    AlignInWord(size, MaxBits(members));
    MakeAlignedIsLeast(size, MaxBits(members));
    aligned := MakeAligned(size, mask);
  }

  method GenSuffixByteOffset(members: seq<Member>) returns (offset: nat)
    requires InWord(members)
    ensures offset == SuffixOffset(members)
  {
    hide MakeAligned;
    var classSize, mask := 0, 0;
    EndMonotone(members, 0, 1);
    for i := 0 to |members|
      invariant classSize == End(members[..i], 0)
      invariant mask == Mask(MaxBits(members[..i]))
    {
      OneMoreMask(members, i);
      mask := BitOr(mask, Mask(members[i].alignBits));
      var aligned := NextAligned(members, i, classSize, 0);
      classSize := aligned + members[i].size;
    }
    assert members[..|members|] == members;
    offset := FinalAlign(members, classSize, mask);
  }

  method EmitSizeOf(members: seq<Member>, indicator: Indicator, isStruct: bool) returns (size: nat)
    requires InWord(members)
    ensures size == ObjectSize(members, indicator, isStruct)
  {
    hide MakeAligned, AlignUp;
    ghost var start := if indicator.SuffixByte? then 1 else 0;
    var classSize, mask := if indicator.SuffixByte? then 1 else 0, 0;
    EndMonotone(members, start, 1);
    StartsAtOne(members);
    for i := 0 to |members|
      invariant classSize == End(members[..i], start)
      invariant mask == Mask(MaxBits(members[..i]))
    {
      OneMoreMask(members, i);
      mask := BitOr(mask, Mask(members[i].alignBits));
      var aligned := NextAligned(members, i, classSize, start);
      classSize := aligned + members[i].size;
    }
    assert members[..|members|] == members;
    if !isStruct && classSize == 0 {
      classSize := 1;
    }
    size := FinalAlign(members, classSize, mask);
  }

  /** The search for a gap, up to the first member whose size is not known. */
  method FindGapByte(members: seq<Member>, known: seq<bool>) returns (indicator: Indicator)
    requires InWord(members) && |known| == |members|
    ensures indicator == LivenessByte(members, known)
  {
    var currentOffset := 0;
    for i := 0 to |members|
      invariant currentOffset == End(members[..i], 0)
      invariant LivenessByte(members, known) == LivenessByteFrom(members, known, i)
    {
      if !known[i] {
        return SuffixByte;
      }
      var nextOffset := NextAligned(members, i, currentOffset, 0);
      if currentOffset != nextOffset {
        return GapByte(currentOffset);
      }
      currentOffset := nextOffset + members[i].size;
    }
    return SuffixByte;
  }

  /** The byte chosen to say whether an object is live. */
  function LivenessByte(members: seq<Member>, known: seq<bool>): Indicator
    requires |known| == |members|
  {
    LivenessByteFrom(members, known, 0)
  }

  function LivenessByteFrom(members: seq<Member>, known: seq<bool>, i: nat): Indicator
    requires i <= |members| == |known|
    decreases |members| - i
  {
    if i == |members| || !known[i] then SuffixByte
    else if End(members[..i], 0) != Offset(members, i) then GapByte(End(members[..i], 0))
    else LivenessByteFrom(members, known, i + 1)
  }

  /** A chosen gap byte is one in front of a gap; with all sizes known, a suffix byte means there is no gap. */
  lemma {:induction false} LivenessByteIs(members: seq<Member>, known: seq<bool>, i: nat)
    requires i <= |members| == |known|
    ensures var byte := LivenessByteFrom(members, known, i);
      && !byte.NoIndicator?
      && (byte.GapByte? ==>
        exists j :: i <= j < |members| && GapBefore(members, j) > 0 && byte.offset == End(members[..j], 0))
      && (byte.SuffixByte? ==>
        (forall j :: i <= j < |members| ==> known[j]) ==> forall j :: i <= j < |members| ==> GapBefore(members, j) == 0)
    decreases |members| - i
  {
    hide End, AlignUp;
    if i < |members| && known[i] {
      MemberEnds(members, i);
      if GapBefore(members, i) == 0 {
        LivenessByteIs(members, known, i + 1);
      }
    }
  }
}

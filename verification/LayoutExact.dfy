/**
 The layout described without sums: every offset and size is the least that will do, and the choice of the
 liveness byte is the first gap that is known to be there.
 */
module LayoutExact {
  import opened Bits
  import opened Layout

  /** The least value that is aligned and large enough. */
  ghost predicate IsLeast(x: nat, bits: nat, atLeast: nat) {
    && IsAligned(x, bits) && atLeast <= x
    && forall y: nat | IsAligned(y, bits) && atLeast <= y :: x <= y
  }

  lemma AlignUpIsLeast(x: nat, bits: nat)
    ensures IsLeast(AlignUp(x, bits), bits, x)
  {
    hide AlignUp, IsAligned;
    AlignUpBounds(x, bits);
    forall y: nat | IsAligned(y, bits) && x <= y ensures AlignUp(x, bits) <= y {
      AlignUpLeast(x, bits, y);
    }
  }

  /** Where the members end: after the last of them. */
  function LastEnd(members: seq<Member>): nat {
    if members == [] then 0 else Offset(members, |members| - 1) + members[|members| - 1].size
  }

  lemma LastEndIs(members: seq<Member>)
    ensures End(members, 0) == LastEnd(members)
  {
    if members != [] {
      MemberEnds(members, |members| - 1);
      assert members[..|members|] == members;
    }
  }

  /** Every member is put as early as its alignment allows behind the one before it, the first at 0. */
  lemma OffsetsAreLeast(members: seq<Member>, i: nat)
    requires i < |members|
    ensures IsLeast(Offset(members, i), members[i].alignBits,
              if i == 0 then 0 else Offset(members, i - 1) + members[i - 1].size)
  {
    hide AlignUp, IsAligned, IsLeast;
    AlignUpIsLeast(End(members[..i], 0), members[i].alignBits);
    if i > 0 {
      MemberEnds(members, i - 1);
    }
  }

  /** What has to fit into an object: its members, a suffix byte behind them, and one byte for a class. */
  ghost function Needed(members: seq<Member>, indicator: Indicator, isStruct: bool): nat {
    if indicator.SuffixByte? && GapsStaySmall(members) then SuffixOffset(members) + 1
    else if LastEnd(members) == 0 && !isStruct then 1
    else LastEnd(members)
  }

  /**
   The size of an object is the least that is aligned for all members and holds what has to fit, except for a
   suffix byte where some gap is too large for it.
   */
  lemma SizeIsLeast(members: seq<Member>, indicator: Indicator, isStruct: bool)
    ensures IsLeast(ObjectSize(members, indicator, isStruct), MaxBits(members), Needed(members, indicator, isStruct))
  {
    hide End, AlignUp, IsAligned, IsLeast, GapsStaySmall, MaxBits;
    var bits := MaxBits(members);
    LastEndIs(members);
    ExtraByte(members);
    if !indicator.SuffixByte? {
      AlignUpIsLeast(if !isStruct && End(members, 0) == 0 then 1 else End(members, 0), bits);
    } else if GapsStaySmall(members) {
      AlignUpShift(End(members, 0), bits, bits);
      NextAligned(End(members, 0), bits);
    } else {
      StartsAtOne(members);
      AlignUpIsLeast(End(members, 0), bits);
    }
  }

  lemma NextAligned(x: nat, bits: nat)
    ensures IsLeast(AlignUp(x, bits) + Pow2(bits), bits, AlignUp(x, bits) + 1)
  {
    hide Pow2, AlignUp, IsAligned;
    var a := AlignUp(x, bits);
    AlignUpBounds(x, bits);
    LargerPowerAligned(bits, bits);
    AlignedAdd(a, Pow2(bits), bits);
    forall y: nat | IsAligned(y, bits) && a + 1 <= y ensures a + Pow2(bits) <= y {
      if y < a + Pow2(bits) {
        AlignUpIs(a, bits, a);
        AlignUpIs(a + 1, bits, a + Pow2(bits));
        AlignUpLeast(a + 1, bits, y);
      }
    }
  }

  /** The place for a suffix byte is the least aligned one behind the members. */
  lemma SuffixIsLeast(members: seq<Member>)
    ensures IsLeast(SuffixOffset(members), MaxBits(members), LastEnd(members))
  {
    hide End, AlignUp, IsLeast, MaxBits;
    LastEndIs(members);
    AlignUpIsLeast(End(members, 0), MaxBits(members));
  }

  // ----- The choice of the liveness byte -----

  /** The first gap, with every member up to the one behind it of known size. */
  ghost predicate IsFirstGap(members: seq<Member>, known: seq<bool>, j: nat)
    requires |known| == |members|
  {
    && j < |members| && GapBefore(members, j) > 0
    && (forall k :: 0 <= k <= j ==> known[k])
    && forall k :: 0 <= k < j ==> GapBefore(members, k) == 0
  }

  lemma {:induction false} SearchIsExact(members: seq<Member>, known: seq<bool>, i: nat)
    requires i <= |members| == |known|
    requires forall k :: 0 <= k < i ==> known[k] && GapBefore(members, k) == 0
    ensures var byte := LivenessByteFrom(members, known, i);
      && (byte.GapByte? ==> exists j: nat :: IsFirstGap(members, known, j) && byte.offset == End(members[..j], 0))
      && (byte.SuffixByte? ==> forall j: nat :: !IsFirstGap(members, known, j))
      && !byte.NoIndicator?
    decreases |members| - i
  {
    hide End, AlignUp;
    if i < |members| && known[i] {
      MemberEnds(members, i);
      if GapBefore(members, i) == 0 {
        SearchIsExact(members, known, i + 1);
      } else {
        assert IsFirstGap(members, known, i);
      }
    }
  }

  /** A gap byte goes in front of the first gap, if every member up to there is known; otherwise a suffix byte is taken. */
  lemma LivenessByteExactly(members: seq<Member>, known: seq<bool>)
    requires |known| == |members|
    ensures (exists j: nat :: IsFirstGap(members, known, j) && LivenessByte(members, known) == GapByte(End(members[..j], 0)))
      || (LivenessByte(members, known) == SuffixByte && forall j: nat :: !IsFirstGap(members, known, j))
  {
    SearchIsExact(members, known, 0);
  }

  /** The choice does not look at sizes that are not known: all instances of a class have their byte in one place. */
  lemma UnknownSizesDoNotMatter(members: seq<Member>, members': seq<Member>, known: seq<bool>)
    requires |known| == |members| == |members'|
    requires forall i :: 0 <= i < |members| && known[i] ==> members[i] == members'[i]
    ensures LivenessByte(members, known) == LivenessByte(members', known)
  {
    SameSearch(members, members', known, 0);
  }

  lemma {:induction false} SameSearch(members: seq<Member>, members': seq<Member>, known: seq<bool>, i: nat)
    requires i <= |known| == |members| == |members'|
    requires forall k :: 0 <= k < |members| && known[k] ==> members[k] == members'[k]
    requires forall k :: 0 <= k < i ==> known[k]
    ensures LivenessByteFrom(members, known, i) == LivenessByteFrom(members', known, i)
    decreases |members| - i
  {
    hide End, AlignUp;
    assert members[..i] == members'[..i];
    if i < |members| && known[i] {
      SameSearch(members, members', known, i + 1);
    }
  }
}

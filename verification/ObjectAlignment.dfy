/**
 Alignment at every depth: an object is aligned exactly if all primitives inside it are.
 */
module ObjectAlignment {
  import opened Bits
  import opened Layout
  import opened LayoutExact
  import opened ObjectLife

  /** Every primitive inside an object at this address is aligned. */
  ghost predicate PartsAligned(t: Type, address: nat) {
    match t
    case Primitive(_, bits) => IsAligned(address, bits)
    case Record(_, _, fields) =>
      forall i {:trigger fields[i]} :: 0 <= i < |fields| ==> PartsAligned(fields[i].content, address + FieldOffset(t, i))
    case Variant(types) => forall i :: 0 <= i < |types| ==> PartsAligned(types[i], address + ValueOffset(t))
  }

  lemma {:induction false} LessAligned(x: nat, k: nat, n: nat)
    requires IsAligned(x, k) && n <= k
    ensures IsAligned(x, n)
    decreases n
  {
    if n > 0 {
      LessAligned(x / 2, k - 1, n - 1);
    }
  }

  lemma {:induction false} AlignedWithout(x: nat, y: nat, k: nat)
    requires IsAligned(x + y, k) && IsAligned(y, k)
    ensures IsAligned(x, k)
    decreases k
  {
    if k > 0 {
      assert (x + y) / 2 == x / 2 + y / 2;
      AlignedWithout(x / 2, y / 2, k - 1);
    }
  }

  /** At an aligned offset from the object, a part is aligned exactly if its address is, as far as the part needs. */
  lemma PartAddress(address: nat, offset: nat, bits: nat)
    requires IsAligned(offset, bits)
    ensures IsAligned(address, bits) <==> IsAligned(address + offset, bits)
  {
    if IsAligned(address, bits) {
      AlignedAdd(address, offset, bits);
    } else if IsAligned(address + offset, bits) {
      AlignedWithout(address, offset, bits);
    }
  }

  /** An address is aligned for all members exactly if it is for the one with the largest alignment. */
  lemma AlignedForAll(members: seq<Member>, address: nat)
    ensures IsAligned(address, MaxBits(members)) <==>
      forall i :: 0 <= i < |members| ==> IsAligned(address, members[i].alignBits)
  {
    hide IsAligned, MaxBits;
    NoBits();
    Unaligned(address);
    MaxBitsIs(members);
    if IsAligned(address, MaxBits(members)) {
      forall i | 0 <= i < |members| ensures IsAligned(address, members[i].alignBits) {
        LessAligned(address, MaxBits(members), members[i].alignBits);
      }
    }
  }

  lemma NoBits()
    ensures MaxBits([]) == 0
  {}

  lemma Unaligned(x: nat)
    ensures IsAligned(x, 0)
  {}

  /** Objects at aligned addresses have all their primitives aligned, and no less alignment will do. */
  lemma {:induction false} AlignedExactly(t: Type, address: nat)
    ensures PartsAligned(t, address) <==> IsAligned(address, AlignBits(t))
    decreases t
  {
    hide IsAligned, SizeOf, FieldLayout, CaseLayout, MaxBits, Offset, AlignUp, ValueOffset;
    match t
    case Primitive(_, _) =>
    case Record(_, _, fields) =>
      var members := FieldLayout(fields);
      AlignedForAll(members, address);
      forall i | 0 <= i < |fields|
        ensures PartsAligned(fields[i].content, address + FieldOffset(t, i)) <==> IsAligned(address, members[i].alignBits)
      {
        FieldLayoutAt(fields, i);
        MemberInside(members, i);
        PartAddress(address, FieldOffset(t, i), members[i].alignBits);
        AlignedExactly(fields[i].content, address + FieldOffset(t, i));
      }
    case Variant(types) =>
      var members := CaseLayout(types);
      AlignedForAll(members, address);
      ValueAligned(t);
      AlignedForAll(members, ValueOffset(t));
      forall i | 0 <= i < |types|
        ensures PartsAligned(types[i], address + ValueOffset(t)) <==> IsAligned(address, members[i].alignBits)
      {
        CaseLayoutAt(types, i);
        PartAddress(address, ValueOffset(t), members[i].alignBits);
        AlignedExactly(types[i], address + ValueOffset(t));
      }
  }

  lemma ValueAligned(t: Type)
    requires t.Variant?
    ensures IsAligned(ValueOffset(t), AlignBits(t))
  {
    LargerPowerAligned(AlignBits(t), AlignBits(t));
  }

  /** A record without a liveness byte is the least aligned block that holds its members, a class at least one byte. */
  lemma PlainSizeIsLeast(t: Type)
    requires t.Record? && !t.hasDestructor
    ensures var end := LastEnd(FieldLayout(t.fields));
      IsLeast(SizeOf(t), AlignBits(t), if end == 0 && !t.isStruct then 1 else end)
  {
    hide MaxBits, IsLeast, LastEnd, FieldLayout;
    SizeIsLeast(FieldLayout(t.fields), NoIndicator, t.isStruct);
  }

  /** A variant is the least aligned block that holds its tag and, at the place for the value, its largest case. */
  lemma VariantSizeIsLeast(t: Type)
    requires t.Variant?
    ensures var members := CaseLayout(t.types);
      && IsLeast(ValueOffset(t), AlignBits(t), 1)
      && IsLeast(SizeOf(t), AlignBits(t), ValueOffset(t) + MaxSize(members))
      && (forall i :: 0 <= i < |members| ==> members[i].size <= MaxSize(members))
      && (members != [] ==> exists i :: 0 <= i < |members| && members[i].size == MaxSize(members))
  {
    hide AlignUp, IsAligned, CaseLayout, MaxBits, IsLeast, MaxSize;
    var members := CaseLayout(t.types);
    var bits := MaxBits(members);
    AlignUpIsLeast(1, bits);
    LargerPowerAligned(bits, bits);
    AlignUpIs(1, bits, Pow2(bits));
    AlignUpIsLeast(ValueOffset(t) + MaxSize(members), bits);
    LargestSize(members);
  }

  lemma {:induction false} LargestSize(members: seq<Member>)
    ensures forall i :: 0 <= i < |members| ==> members[i].size <= MaxSize(members)
    ensures members != [] ==> exists i :: 0 <= i < |members| && members[i].size == MaxSize(members)
  {
    if members != [] {
      var n := |members| - 1;
      var shorter := members[..n];
      LargestSize(shorter);
      if MaxSize(members) != members[n].size && shorter != [] {
        var i :| 0 <= i < |shorter| && shorter[i].size == MaxSize(shorter);
        assert members[i].size == MaxSize(members);
      }
    }
  }
}

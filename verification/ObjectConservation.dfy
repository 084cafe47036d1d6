/**
 Conservation of destructor calls: destroying an object makes exactly the pending calls and leaves
 none, moving one hands its value and its pending calls to the destination and leaves none behind,
 and over any run of moves and destructions every pending call is made exactly once or still pending.
 */
module ObjectConservation {
  import opened Layout
  import opened ObjectLife
  import opened ObjectFrames

  // ----- Types that destruction skips -----

  /** Skipping the types without custom destructors loses no call. */
  lemma {:induction false} SkippedHaveNone(t: Type, v: Value)
    requires !HasCustomDestructor(t)
    ensures Pending(t, v) == []
    decreases t, 1, 0
  {
    match t
    case Primitive(_, _) =>
    case Record(_, _, fields) =>
      if v.Live? && |v.fields| == |fields| {
        SkippedFieldsHaveNone(t, v.fields, |fields|);
      }
    case Variant(types) =>
      if v.Holds? && ValidTag(t, v.tag) {
        SkippedHaveNone(types[v.tag - 1], v.value);
      }
  }

  lemma {:induction false} SkippedFieldsHaveNone(t: Type, values: seq<Value>, n: nat)
    requires t.Record? && n <= |values| == |t.fields| && !HasCustomDestructor(t)
    ensures PendingFields(t, values, n) == []
    decreases t, 0, n
  {
    if n > 0 {
      SkippedHaveNone(t.fields[n - 1].content, values[n - 1]);
      SkippedFieldsHaveNone(t, values, n - 1);
    }
  }

  lemma {:induction false} SomeFieldPending(t: Type, values: seq<Value>, i: nat, n: nat)
    requires t.Record? && i < n <= |values| == |t.fields| && Pending(t.fields[i].content, values[i]) != []
    ensures PendingFields(t, values, n) != []
  {
    hide Pending;
    if i < n - 1 {
      SomeFieldPending(t, values, i, n - 1);
    }
  }

  /** The types that are not skipped have values with a call pending. */
  lemma {:induction false} SomethingPending(t: Type) returns (v: Value)
    requires HasCustomDestructor(t)
    ensures Pending(t, v) != []
    decreases t
  {
    match t
    case Record(_, hasDestructor, fields) =>
      var values := seq(|fields|, _ => Empty);
      if !hasDestructor {
        var i :| 0 <= i < |fields| && HasCustomDestructor(fields[i].content);
        var inner := SomethingPending(fields[i].content);
        values := values[i := inner];
        SomeFieldPending(t, values, i, |fields|);
      }
      v := Live(values);
    case Variant(types) =>
      var i :| 0 <= i < |types| && HasCustomDestructor(types[i]);
      var inner := SomethingPending(types[i]);
      v := Holds(i + 1, inner);
  }

  /** Destruction skips exactly the types of which no value has a call pending. */
  lemma SkippedExactly(t: Type)
    ensures HasCustomDestructor(t) <==> exists v :: Pending(t, v) != []
  {
    if HasCustomDestructor(t) {
      var v := SomethingPending(t);
    } else {
      forall v ensures Pending(t, v) == [] {
        SkippedHaveNone(t, v);
      }
    }
  }

  lemma {:induction false} PendingFieldsSame(t: Type, values: seq<Value>, values': seq<Value>, n: nat)
    requires t.Record? && n <= |values| == |values'| == |t.fields|
    requires forall i :: 0 <= i < n ==> values[i] == values'[i]
    ensures PendingFields(t, values, n) == PendingFields(t, values', n)
    decreases n
  {
    hide Pending;
    if n > 0 {
      PendingFieldsSame(t, values, values', n - 1);
    }
  }

  lemma {:induction false} PendingFieldsNone(t: Type, values: seq<Value>, n: nat)
    requires t.Record? && n <= |values| == |t.fields|
    requires forall i :: 0 <= i < n ==> Pending(t.fields[i].content, values[i]) == []
    ensures PendingFields(t, values, n) == []
    decreases n
  {
    hide Pending;
    if n > 0 {
      PendingFieldsNone(t, values, n - 1);
    }
  }

  /** Nothing is pending for an object all of whose fields have nothing pending and which has no destructor or is dead. */
  lemma NothingPending(t: Type, m: Memory, address: nat)
    requires t.Record?
    requires IsLive(t, m, address) ==>
      !t.hasDestructor && forall i :: 0 <= i < |t.fields| ==>
        PendingAt(t.fields[i].content, m, address + FieldOffset(t, i)) == []
    ensures PendingAt(t, m, address) == []
  {
    hide IsLive, FieldOffset, Read;
    ReadLive(t, m, address);
    if IsLive(t, m, address) {
      PendingFieldsNone(t, FieldValues(t, m, address), |t.fields|);
    }
  }

  function OwnCall(t: Type, m: Memory, address: nat): seq<Call>
    requires t.Record?
  {
    if t.hasDestructor then [Call(t, Read(t, m, address))] else []
  }

  lemma PendingLive(t: Type, m: Memory, address: nat)
    requires t.Record?
    ensures PendingAt(t, m, address)
      == if IsLive(t, m, address)
         then OwnCall(t, m, address) + PendingFields(t, FieldValues(t, m, address), |t.fields|)
         else []
  {
    hide IsLive, FieldOffset, Read, PendingFields;
    ReadLive(t, m, address);
  }

  lemma NoIndicatorMeansNoDestructor(t: Type)
    requires t.Record?
    ensures IndicatorOf(t).NoIndicator? <==> !t.hasDestructor
  {
    hide LivenessByteFrom;
    LivenessByteIs(FieldLayout(t.fields), Known(t.fields), 0);
  }

  lemma SkippedNonePending(t: Type, m: Memory, address: nat)
    requires !HasCustomDestructor(t)
    ensures PendingAt(t, m, address) == []
  {
    SkippedHaveNone(t, Read(t, m, address));
  }

  // ----- Destruction -----

  /** Destroying runs the pending calls, in order, and leaves nothing pending. */
  lemma {:induction false} DestroyRuns(t: Type, m: Memory, address: nat)
    requires WellFormed(t)
    ensures Destroy(t, m, address).log == PendingAt(t, m, address)
    ensures PendingAt(t, Destroy(t, m, address).memory, address) == []
    decreases t, 2, 0
  {
    hide WellFormed, PendingAt, HasCustomDestructor, OuterDestroy, Pending, Read;
    if HasCustomDestructor(t) {
      OuterDestroyRuns(t, m, address);
    } else {
      SkippedNonePending(t, m, address);
    }
  }

  lemma {:induction false} OuterDestroyRuns(t: Type, m: Memory, address: nat)
    requires WellFormed(t)
    ensures OuterDestroy(t, m, address).log == PendingAt(t, m, address)
    ensures PendingAt(t, OuterDestroy(t, m, address).memory, address) == []
    decreases t, 1, 0
  {
    hide WellFormed, IsLive, FieldOffset, DestroyFields, PendingFields, Destroy;
    match t
    case Primitive(_, _) =>
    case Record(_, _, fields) =>
      PendingLive(t, m, address);
      if IsLive(t, m, address) {
        DestroyFieldsRun(t, m, address, |fields|);
        AfterDestroy(t, DestroyFields(t, m, address, |fields|).memory, address);
      }
    case Variant(types) =>
      if ValidTag(t, m(address)) {
        var i := m(address) - 1;
        CaseWellFormed(t, i);
        DestroyRuns(types[i], m, address + ValueOffset(t));
        AfterVariantDestroy(t, m, address);
      }
  }

  /** A destroyed object is dead, or has neither a destructor nor anything pending in its fields. */
  lemma AfterDestroy(t: Type, m: Memory, address: nat)
    requires t.Record? && WellFormed(t)
    requires forall i :: 0 <= i < |t.fields| ==>
      PendingAt(t.fields[i].content, m, address + FieldOffset(t, i)) == []
    ensures PendingAt(t, SetByte(t, m, address, 0), address) == []
  {
    hide WellFormed, FieldOffset, PendingAt, ByteOffset, IndicatorOf;
    NoIndicatorMeansNoDestructor(t);
    NothingPending(t, SetByte(t, m, address, 0), address);
  }

  lemma AfterVariantDestroy(t: Type, m: Memory, address: nat)
    requires t.Variant? && WellFormed(t) && ValidTag(t, m(address))
    requires var i := m(address) - 1;
      PendingAt(t.types[i], Destroy(t.types[i], m, address + ValueOffset(t)).memory, address + ValueOffset(t)) == []
    ensures var i := m(address) - 1;
      PendingAt(t, Destroy(t.types[i], m, address + ValueOffset(t)).memory, address) == []
  {
    hide WellFormed, ValueOffset, Destroy, SizeOf;
    var i := m(address) - 1;
    CaseInside(t, i);
    CaseWellFormed(t, i);
    DestroyFrame(t.types[i], m, address + ValueOffset(t), address);
  }

  /** Destroying one field does not change another. */
  lemma OtherFieldKept(t: Type, m: Memory, address: nat, i: nat, j: nat)
    requires t.Record? && WellFormed(t) && i < |t.fields| && j < |t.fields| && i != j
    ensures var m' := Destroy(t.fields[i].content, m, address + FieldOffset(t, i)).memory;
      Read(t.fields[j].content, m', address + FieldOffset(t, j))
        == Read(t.fields[j].content, m, address + FieldOffset(t, j))
  {
    hide WellFormed, FieldOffset, Destroy, SizeOf, Read;
    FieldsWellFormed(t, i);
    FieldsWellFormed(t, j);
    if i < j { FieldsApart(t, i, j); } else { FieldsApart(t, j, i); }
    var m' := Destroy(t.fields[i].content, m, address + FieldOffset(t, i)).memory;
    var a, size := address + FieldOffset(t, j), SizeOf(t.fields[j].content);
    forall x | a <= x < a + size
      ensures m'(x) == m(x)
    {
      DestroyFrame(t.fields[i].content, m, address + FieldOffset(t, i), x);
    }
    ReadFrame(t.fields[j].content, m, m', a);
  }

  /** Destroying the fields before a field does not change it. */
  lemma LaterFieldKept(t: Type, m: Memory, address: nat, n: nat)
    requires t.Record? && WellFormed(t) && n < |t.fields|
    ensures var m' := DestroyFields(t, m, address, n).memory;
      Read(t.fields[n].content, m', address + FieldOffset(t, n))
        == Read(t.fields[n].content, m, address + FieldOffset(t, n))
  {
    hide WellFormed, FieldOffset, DestroyFields, SizeOf, Read;
    FieldsWellFormed(t, n);
    var m' := DestroyFields(t, m, address, n).memory;
    var a, size := address + FieldOffset(t, n), SizeOf(t.fields[n].content);
    forall x | a <= x < a + size
      ensures m'(x) == m(x)
    {
      InLaterField(t, address, n, x);
      DestroyFieldsFrame(t, m, address, n, x);
    }
    ReadFrame(t.fields[n].content, m, m', a);
  }

  lemma InLaterField(t: Type, address: nat, n: nat, x: nat)
    requires t.Record? && n < |t.fields|
    requires address + FieldOffset(t, n) <= x < address + FieldOffset(t, n) + SizeOf(t.fields[n].content)
    ensures OutsideFields(t, address, n, x)
  {
    hide FieldOffset, SizeOf;
    forall i | 0 <= i < n
      ensures Outside(x, address + FieldOffset(t, i), SizeOf(t.fields[i].content))
    {
      FieldsApart(t, i, n);
    }
  }

  lemma {:induction false} DestroyFieldsRun(t: Type, m: Memory, address: nat, n: nat)
    requires t.Record? && WellFormed(t) && n <= |t.fields|
    ensures DestroyFields(t, m, address, n).log == PendingFields(t, FieldValues(t, m, address), n)
    ensures forall i :: 0 <= i < n ==>
      PendingAt(t.fields[i].content, DestroyFields(t, m, address, n).memory, address + FieldOffset(t, i)) == []
    decreases t, 0, n
  {
    hide WellFormed, FieldOffset, Destroy, Read, Pending;
    if n > 0 {
      var content, a := t.fields[n - 1].content, address + FieldOffset(t, n - 1);
      var last := Destroy(content, m, a);
      FieldsWellFormed(t, n - 1);
      DestroyRuns(content, m, a);
      DestroyFieldsRun(t, last.memory, address, n - 1);
      forall i | 0 <= i < n - 1
        ensures FieldValues(t, last.memory, address)[i] == FieldValues(t, m, address)[i]
      {
        OtherFieldKept(t, m, address, n - 1, i);
      }
      PendingFieldsSame(t, FieldValues(t, last.memory, address), FieldValues(t, m, address), n - 1);
      LaterFieldKept(t, last.memory, address, n - 1);
    }
  }

  /** A second destruction makes no call. */
  lemma DestroyTwice(t: Type, m: Memory, address: nat)
    requires WellFormed(t)
    ensures Destroy(t, Destroy(t, m, address).memory, address).log == []
  {
    hide WellFormed, Destroy, PendingAt;
    DestroyRuns(t, m, address);
    DestroyRuns(t, Destroy(t, m, address).memory, address);
  }

  // ----- Moves -----

  predicate Apart(a: nat, b: nat, size: nat) {
    a + size <= b || b + size <= a
  }

  /** The destination has the value the source had, and the source has nothing pending. */
  ghost predicate Transferred(t: Type, m: Memory, m': Memory, src: nat, dst: nat) {
    Read(t, m', dst) == Read(t, m, src) && PendingAt(t, m', src) == []
  }

  lemma {:induction false} MoveTransfers(t: Type, m: Memory, src: nat, dst: nat)
    requires WellFormed(t) && Apart(src, dst, SizeOf(t))
    ensures Transferred(t, m, Move(t, m, src, dst), src, dst)
    decreases t, 1, 0
  {
    hide WellFormed, Move, MoveFields, Transferred, FieldOffset, ValueOffset, SizeOf;
    match t
    case Primitive(_, _) => CopyTransfers(t, m, src, dst);
    case Record(_, _, fields) =>
      MoveFieldsTransfer(t, m, src, dst, |fields|);
      RecordTransfers(t, m, src, dst);
    case Variant(types) =>
      if ValidTag(t, m(src)) {
        var i := m(src) - 1;
        CaseInside(t, i);
        CaseWellFormed(t, i);
        MoveTransfers(types[i], Put(Put(m, dst, m(src)), src, 0), src + ValueOffset(t), dst + ValueOffset(t));
        VariantTransfers(t, m, src, dst);
      } else {
        EmptyTransfers(t, m, src, dst);
      }
  }

  lemma CopyAt(m: Memory, src: nat, dst: nat, size: nat, k: nat)
    requires k < size
    ensures Copy(m, src, dst, size)(dst + k) == m(src + k)
  {
    var m' := Copy(m, src, dst, size);
    assert m'(dst + k) == m(src + (dst + k - dst));
  }

  lemma CopyArrives(m: Memory, src: nat, dst: nat, size: nat)
    ensures seq(size, (i: nat) => Copy(m, src, dst, size)(dst + i)) == seq(size, (i: nat) => m(src + i))
  {
    var arrived := seq(size, (i: nat) => Copy(m, src, dst, size)(dst + i));
    var sent := seq(size, (i: nat) => m(src + i));
    forall k | 0 <= k < size
      ensures arrived[k] == sent[k]
    {
      CopyAt(m, src, dst, size, k);
    }
  }

  lemma CopyTransfers(t: Type, m: Memory, src: nat, dst: nat)
    requires t.Primitive? && Apart(src, dst, SizeOf(t))
    ensures Transferred(t, m, Move(t, m, src, dst), src, dst)
  {
    CopyArrives(m, src, dst, t.size);
  }

  lemma EmptyTransfers(t: Type, m: Memory, src: nat, dst: nat)
    requires t.Variant? && Apart(src, dst, SizeOf(t)) && !ValidTag(t, m(src))
    ensures Transferred(t, m, Move(t, m, src, dst), src, dst)
  {
    hide ValueOffset, SizeOf;
    TagInside(t);
  }

  lemma VariantTransfers(t: Type, m: Memory, src: nat, dst: nat)
    requires t.Variant? && WellFormed(t) && Apart(src, dst, SizeOf(t)) && ValidTag(t, m(src))
    requires Transferred(t.types[m(src) - 1], Put(Put(m, dst, m(src)), src, 0),
      Move(t.types[m(src) - 1], Put(Put(m, dst, m(src)), src, 0), src + ValueOffset(t), dst + ValueOffset(t)),
      src + ValueOffset(t), dst + ValueOffset(t))
    ensures Transferred(t, m, Move(t, m, src, dst), src, dst)
  {
    hide ValueOffset, SizeOf, WellFormed, Pending, Move, Read, PendingAt;
    var i := m(src) - 1;
    var inner := t.types[i];
    var m1 := Put(Put(m, dst, m(src)), src, 0);
    var m2 := Move(inner, m1, src + ValueOffset(t), dst + ValueOffset(t));
    TagInside(t);
    CaseInside(t, i);
    CaseWellFormed(t, i);
    MoveFrame(inner, m1, src + ValueOffset(t), dst + ValueOffset(t), src);
    MoveFrame(inner, m1, src + ValueOffset(t), dst + ValueOffset(t), dst);
    ReadFrame(inner, m1, m, src + ValueOffset(t));
    MoveOfVariant(t, m, src, dst);
    ReadVariant(t, m, src);
    ReadVariant(t, m2, dst);
    EmptyHasNone(t, m2, src);
  }

  lemma MoveOfVariant(t: Type, m: Memory, src: nat, dst: nat)
    requires t.Variant? && ValidTag(t, m(src))
    ensures Move(t, m, src, dst)
      == Move(t.types[m(src) - 1], Put(Put(m, dst, m(src)), src, 0), src + ValueOffset(t), dst + ValueOffset(t))
  {
    hide ValueOffset;
  }

  lemma EmptyHasNone(t: Type, m: Memory, address: nat)
    requires t.Variant? && m(address) == 0
    ensures PendingAt(t, m, address) == []
  {}

  ghost predicate FieldTransferred(t: Type, m: Memory, m': Memory, src: nat, dst: nat, i: nat)
    requires t.Record? && i < |t.fields|
  {
    Transferred(t.fields[i].content, m, m', src + FieldOffset(t, i), dst + FieldOffset(t, i))
  }

  lemma InObject(t: Type, address: nat, other: nat, n: nat, x: nat)
    requires t.Record? && n <= |t.fields| && Apart(address, other, SizeOf(t))
    requires address <= x < address + SizeOf(t)
    ensures OutsideFields(t, other, n, x)
  {
    hide FieldOffset, SizeOf;
    forall i | 0 <= i < n
      ensures Outside(x, other + FieldOffset(t, i), SizeOf(t.fields[i].content))
    {
      FieldInside(t, i);
    }
  }

  /** A field is not touched by the moves of the fields before it. */
  lemma FieldNotYetMoved(t: Type, m: Memory, src: nat, dst: nat, n: nat)
    requires t.Record? && WellFormed(t) && n < |t.fields| && Apart(src, dst, SizeOf(t))
    ensures var m' := MoveFields(t, m, src, dst, n);
      Read(t.fields[n].content, m', src + FieldOffset(t, n)) == Read(t.fields[n].content, m, src + FieldOffset(t, n))
  {
    hide WellFormed, FieldOffset, MoveFields, SizeOf, Read, OutsideFields;
    FieldsWellFormed(t, n);
    FieldInside(t, n);
    var m' := MoveFields(t, m, src, dst, n);
    var a, size := src + FieldOffset(t, n), SizeOf(t.fields[n].content);
    forall x | a <= x < a + size
      ensures m'(x) == m(x)
    {
      InLaterField(t, src, n, x);
      InObject(t, src, dst, n, x);
      MoveFieldsFrame(t, m, src, dst, n, x);
    }
    ReadFrame(t.fields[n].content, m, m', a);
  }

  /** Moving a field does not change the same object's other fields, at the source or at the destination. */
  lemma MovedFieldKept(t: Type, m: Memory, src: nat, dst: nat, i: nat, j: nat, address: nat)
    requires t.Record? && WellFormed(t) && i < j < |t.fields| && Apart(src, dst, SizeOf(t))
    requires address == src || address == dst
    ensures var m' := Move(t.fields[j].content, m, src + FieldOffset(t, j), dst + FieldOffset(t, j));
      Read(t.fields[i].content, m', address + FieldOffset(t, i))
        == Read(t.fields[i].content, m, address + FieldOffset(t, i))
  {
    hide WellFormed, FieldOffset, Move, SizeOf, Read;
    FieldsWellFormed(t, i);
    FieldsWellFormed(t, j);
    FieldInside(t, i);
    FieldInside(t, j);
    FieldsApart(t, i, j);
    var m' := Move(t.fields[j].content, m, src + FieldOffset(t, j), dst + FieldOffset(t, j));
    var a, size := address + FieldOffset(t, i), SizeOf(t.fields[i].content);
    forall x | a <= x < a + size
      ensures m'(x) == m(x)
    {
      MoveFrame(t.fields[j].content, m, src + FieldOffset(t, j), dst + FieldOffset(t, j), x);
    }
    ReadFrame(t.fields[i].content, m, m', a);
  }

  lemma {:induction false} MoveFieldsTransfer(t: Type, m: Memory, src: nat, dst: nat, n: nat)
    requires t.Record? && WellFormed(t) && n <= |t.fields| && Apart(src, dst, SizeOf(t))
    ensures forall i :: 0 <= i < n ==> FieldTransferred(t, m, MoveFields(t, m, src, dst, n), src, dst, i)
    decreases t, 0, n
  {
    hide WellFormed, FieldOffset, Move, SizeOf, Read, Pending;
    if n > 0 {
      var before := MoveFields(t, m, src, dst, n - 1);
      var content := t.fields[n - 1].content;
      MoveFieldsTransfer(t, m, src, dst, n - 1);
      FieldInside(t, n - 1);
      FieldsWellFormed(t, n - 1);
      MoveTransfers(content, before, src + FieldOffset(t, n - 1), dst + FieldOffset(t, n - 1));
      FieldNotYetMoved(t, m, src, dst, n - 1);
      forall i | 0 <= i < n - 1
        ensures FieldTransferred(t, m, MoveFields(t, m, src, dst, n), src, dst, i)
      {
        assert FieldTransferred(t, m, before, src, dst, i);
        MovedFieldKept(t, before, src, dst, i, n - 1, src);
        MovedFieldKept(t, before, src, dst, i, n - 1, dst);
      }
    }
  }

  lemma RecordTransfers(t: Type, m: Memory, src: nat, dst: nat)
    requires t.Record? && WellFormed(t) && Apart(src, dst, SizeOf(t))
    requires forall i :: 0 <= i < |t.fields| ==>
      FieldTransferred(t, m, MoveFields(t, m, src, dst, |t.fields|), src, dst, i)
    ensures Transferred(t, m, Move(t, m, src, dst), src, dst)
  {
    hide WellFormed, FieldOffset, SizeOf, Read, MoveFields, PendingAt, ByteOffset, IndicatorOf;
    NoIndicatorMeansNoDestructor(t);
    var moved := MoveFields(t, m, src, dst, |t.fields|);
    ReadLive(t, m, src);
    ReadLive(t, Move(t, m, src, dst), dst);
    if IndicatorOf(t).NoIndicator? {
      assert FieldValues(t, moved, dst) == FieldValues(t, m, src) by { FieldsArrived(t, m, moved, src, dst); }
      FieldsLeft(t, m, moved, src, dst);
      NothingPending(t, moved, src);
    } else {
      ByteInside(t);
      NothingPending(t, Move(t, m, src, dst), src);
      if IsLive(t, m, src) {
        LiveTransfers(t, m, moved, src, dst);
      }
    }
  }

  lemma FieldsArrived(t: Type, m: Memory, m': Memory, src: nat, dst: nat)
    requires t.Record? && forall i :: 0 <= i < |t.fields| ==> FieldTransferred(t, m, m', src, dst, i)
    ensures FieldValues(t, m', dst) == FieldValues(t, m, src)
  {
    hide FieldOffset, Read, PendingAt;
    forall i | 0 <= i < |t.fields|
      ensures FieldValues(t, m', dst)[i] == FieldValues(t, m, src)[i]
    {
      assert FieldTransferred(t, m, m', src, dst, i);
    }
  }

  lemma FieldsLeft(t: Type, m: Memory, m': Memory, src: nat, dst: nat)
    requires t.Record? && forall i :: 0 <= i < |t.fields| ==> FieldTransferred(t, m, m', src, dst, i)
    ensures forall i :: 0 <= i < |t.fields| ==> PendingAt(t.fields[i].content, m', src + FieldOffset(t, i)) == []
  {
    hide FieldOffset, Read, PendingAt;
    forall i | 0 <= i < |t.fields|
      ensures PendingAt(t.fields[i].content, m', src + FieldOffset(t, i)) == []
    {
      assert FieldTransferred(t, m, m', src, dst, i);
    }
  }

  /** Setting the two liveness bytes does not disturb the fields that have arrived. */
  lemma LiveTransfers(t: Type, m: Memory, moved: Memory, src: nat, dst: nat)
    requires t.Record? && WellFormed(t) && Apart(src, dst, SizeOf(t)) && !IndicatorOf(t).NoIndicator?
    requires forall i :: 0 <= i < |t.fields| ==> FieldTransferred(t, m, moved, src, dst, i)
    ensures FieldValues(t, SetByte(t, SetByte(t, moved, dst, 1), src, 0), dst) == FieldValues(t, m, src)
  {
    hide WellFormed, FieldOffset, SizeOf, Read, PendingAt, ByteOffset, IndicatorOf;
    FieldsArrived(t, m, moved, src, dst);
    ByteInside(t);
    var m' := SetByte(t, SetByte(t, moved, dst, 1), src, 0);
    forall i | 0 <= i < |t.fields|
      ensures FieldValues(t, m', dst)[i] == FieldValues(t, moved, dst)[i]
    {
      FieldInside(t, i);
      ByteOutsideFields(t, i);
      FieldsWellFormed(t, i);
      ReadFrame(t.fields[i].content, m', moved, dst + FieldOffset(t, i));
    }
    assert FieldValues(t, m', dst) == FieldValues(t, moved, dst);
  }

  // ----- Whole runs -----

  /** A place in memory for an object of a type; places do not overlap. */
  datatype Place = Place(t: Type, address: nat)

  ghost predicate Placed(places: seq<Place>) {
    && (forall i :: 0 <= i < |places| ==> WellFormed(places[i].t))
    && forall i, j :: 0 <= i < |places| && 0 <= j < |places| && i != j ==> Separate(places[i], places[j])
  }

  ghost predicate Separate(a: Place, b: Place) {
    a.address + SizeOf(a.t) <= b.address || b.address + SizeOf(b.t) <= a.address
  }

  datatype Operation = MoveBetween(from: nat, to: nat) | DestroyAt(place: nat)

  /** An object is moved into a place of its type where nothing is pending. */
  ghost predicate CanApply(places: seq<Place>, m: Memory, op: Operation) {
    match op
    case MoveBetween(from, to) =>
      && from < |places| && to < |places| && from != to && places[from].t == places[to].t
      && PendingAt(places[to].t, m, places[to].address) == []
    case DestroyAt(place) => place < |places|
  }

  ghost function Apply(places: seq<Place>, state: Outcome, op: Operation): Outcome
    requires CanApply(places, state.memory, op)
  {
    match op
    case MoveBetween(from, to) =>
      Outcome(Move(places[from].t, state.memory, places[from].address, places[to].address), state.log)
    case DestroyAt(place) =>
      var outcome := Destroy(places[place].t, state.memory, places[place].address);
      Outcome(outcome.memory, state.log + outcome.log)
  }

  ghost predicate CanApplyAll(places: seq<Place>, state: Outcome, ops: seq<Operation>)
    decreases |ops|
  {
    ops != [] ==> CanApply(places, state.memory, ops[0]) && CanApplyAll(places, Apply(places, state, ops[0]), ops[1..])
  }

  ghost function ApplyAll(places: seq<Place>, state: Outcome, ops: seq<Operation>): Outcome
    requires CanApplyAll(places, state, ops)
    decreases |ops|
  {
    if ops == [] then state else ApplyAll(places, Apply(places, state, ops[0]), ops[1..])
  }

  ghost function PendingOf(places: seq<Place>, m: Memory): (r: seq<multiset<Call>>)
    ensures |r| == |places|
    ensures forall i :: 0 <= i < |r| ==> r[i] == multiset(PendingAt(places[i].t, m, places[i].address))
  {
    seq(|places|, i requires 0 <= i < |places| => multiset(PendingAt(places[i].t, m, places[i].address)))
  }

  ghost function Sum(parts: seq<multiset<Call>>): multiset<Call> {
    if parts == [] then multiset{} else Sum(parts[..|parts| - 1]) + parts[|parts| - 1]
  }

  /** All calls made so far and all calls still pending anywhere. */
  ghost function AllCalls(places: seq<Place>, state: Outcome): multiset<Call> {
    multiset(state.log) + Sum(PendingOf(places, state.memory))
  }

  lemma {:induction false} SumUpdate(parts: seq<multiset<Call>>, i: nat, part: multiset<Call>)
    requires i < |parts|
    ensures Sum(parts[i := part]) + parts[i] == Sum(parts) + part
  {
    var n := |parts| - 1;
    var parts' := parts[i := part];
    if i == n {
      assert parts'[..n] == parts[..n];
    } else {
      SumUpdate(parts[..n], i, part);
      assert parts'[..n] == parts[..n][i := part];
      var rest, rest' := Sum(parts[..n]), Sum(parts'[..n]);
      assert rest' + parts[i] == rest + part;
      assert Sum(parts') + parts[i] == (rest' + parts[i]) + parts[n];
    }
  }

  lemma Cancel(a: multiset<Call>, b: multiset<Call>, c: multiset<Call>)
    requires a + c == b + c
    ensures a == b
  {
    assert a == (a + c) - c && b == (b + c) - c;
  }

  lemma {:induction false} SumOfNothing(parts: seq<multiset<Call>>)
    requires forall i :: 0 <= i < |parts| ==> parts[i] == multiset{}
    ensures Sum(parts) == multiset{}
  {
    if parts != [] {
      SumOfNothing(parts[..|parts| - 1]);
    }
  }

  /** An operation on some places leaves the others as they were. */
  lemma OtherPlaceKept(places: seq<Place>, m: Memory, op: Operation, k: nat)
    requires Placed(places) && CanApply(places, m, op) && k < |places|
    requires match op case MoveBetween(from, to) => k != from && k != to case DestroyAt(place) => k != place
    ensures var m' := Apply(places, Outcome(m, []), op).memory;
      PendingAt(places[k].t, m', places[k].address) == PendingAt(places[k].t, m, places[k].address)
  {
    hide WellFormed, SizeOf, Move, Destroy, Read, Pending;
    var m' := Apply(places, Outcome(m, []), op).memory;
    var place := places[k];
    forall x | place.address <= x < place.address + SizeOf(place.t)
      ensures m'(x) == m(x)
    {
      match op
      case MoveBetween(from, to) =>
        assert Separate(places[k], places[from]) && Separate(places[k], places[to]);
        MoveFrame(places[from].t, m, places[from].address, places[to].address, x);
      case DestroyAt(at) =>
        assert Separate(places[k], places[at]);
        DestroyFrame(places[at].t, m, places[at].address, x);
    }
    ReadFrame(place.t, m, m', place.address);
  }

  lemma MoveConserves(places: seq<Place>, state: Outcome, op: Operation)
    requires Placed(places) && op.MoveBetween? && CanApply(places, state.memory, op)
    ensures AllCalls(places, Apply(places, state, op)) == AllCalls(places, state)
  {
    hide WellFormed, SizeOf, Move, Destroy, Read, Pending, Sum;
    var m, m' := state.memory, Apply(places, state, op).memory;
    var before, after := PendingOf(places, m), PendingOf(places, m');
    var from, to := op.from, op.to;
    assert Separate(places[from], places[to]);
    MoveTransfers(places[from].t, m, places[from].address, places[to].address);
    forall k | 0 <= k < |places| && k != from && k != to
      ensures after[k] == before[k]
    {
      OtherPlaceKept(places, m, op, k);
    }
    var middle := before[to := before[from]];
    assert after == middle[from := multiset{}];
    SumUpdate(before, to, before[from]);
    SumUpdate(middle, from, multiset{});
    assert Sum(after) + before[from] == Sum(before) + before[from];
    Cancel(Sum(after), Sum(before), before[from]);
  }

  lemma DestroyConserves(places: seq<Place>, state: Outcome, op: Operation)
    requires Placed(places) && op.DestroyAt? && CanApply(places, state.memory, op)
    ensures AllCalls(places, Apply(places, state, op)) == AllCalls(places, state)
  {
    hide WellFormed, SizeOf, Move, Destroy, Read, Pending, Sum;
    var m, m' := state.memory, Apply(places, state, op).memory;
    var before, after := PendingOf(places, m), PendingOf(places, m');
    var place := op.place;
    DestroyRuns(places[place].t, m, places[place].address);
    forall k | 0 <= k < |places| && k != place
      ensures after[k] == before[k]
    {
      OtherPlaceKept(places, m, op, k);
    }
    assert after == before[place := multiset{}];
    SumUpdate(before, place, multiset{});
    assert Sum(after) + before[place] == Sum(before);
    var log := Destroy(places[place].t, m, places[place].address).log;
    assert multiset(state.log + log) == multiset(state.log) + multiset(log);
  }

  /** Over any run of moves and destructions no destructor call is lost, invented or made twice. */
  lemma {:induction false} CallsConserved(places: seq<Place>, state: Outcome, ops: seq<Operation>)
    requires Placed(places) && CanApplyAll(places, state, ops)
    ensures AllCalls(places, ApplyAll(places, state, ops)) == AllCalls(places, state)
    decreases |ops|
  {
    hide Placed, CanApply, AllCalls, Apply;
    if ops != [] {
      if ops[0].MoveBetween? {
        MoveConserves(places, state, ops[0]);
      } else {
        DestroyConserves(places, state, ops[0]);
      }
      CallsConserved(places, Apply(places, state, ops[0]), ops[1..]);
    }
  }

  /** When nothing is pending at the end, every call pending at the start was made exactly once. */
  lemma EveryCallOnce(places: seq<Place>, m: Memory, ops: seq<Operation>)
    requires Placed(places) && CanApplyAll(places, Outcome(m, []), ops)
    requires var end := ApplyAll(places, Outcome(m, []), ops).memory;
      forall i :: 0 <= i < |places| ==> PendingAt(places[i].t, end, places[i].address) == []
    ensures multiset(ApplyAll(places, Outcome(m, []), ops).log) == Sum(PendingOf(places, m))
  {
    hide Placed, Apply, CanApply, PendingAt;
    CallsConserved(places, Outcome(m, []), ops);
    var end := ApplyAll(places, Outcome(m, []), ops);
    SumOfNothing(PendingOf(places, end.memory));
    var nothing: seq<Call> := [];
    assert multiset(nothing) == multiset{};
    assert AllCalls(places, end) == multiset(end.log);
  }
}

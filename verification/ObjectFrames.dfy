/**
 What destroying and moving an object can touch: nothing outside the object, and for its fields
 nothing outside those fields.
 */
module ObjectFrames {
  import opened Layout
  import opened ObjectLife

  predicate Outside(x: nat, address: nat, size: nat) {
    x < address || address + size <= x
  }

  ghost predicate Agree(m: Memory, m': Memory, address: nat, size: nat) {
    forall x :: address <= x < address + size ==> m(x) == m'(x)
  }

  /** Outside the first n fields of an object. */
  ghost predicate OutsideFields(t: Type, address: nat, n: nat, x: nat)
    requires t.Record? && n <= |t.fields|
  {
    forall i :: 0 <= i < n ==> Outside(x, address + FieldOffset(t, i), SizeOf(t.fields[i].content))
  }

  function FieldValues(t: Type, m: Memory, address: nat): (r: seq<Value>)
    requires t.Record?
    ensures |r| == |t.fields|
    ensures forall i :: 0 <= i < |r| ==> r[i] == Read(t.fields[i].content, m, address + FieldOffset(t, i))
  {
    seq(|t.fields|, i requires 0 <= i < |t.fields| => Read(t.fields[i].content, m, address + FieldOffset(t, i)))
  }

  lemma ReadLive(t: Type, m: Memory, address: nat)
    requires t.Record?
    ensures Read(t, m, address) == if IsLive(t, m, address) then Live(FieldValues(t, m, address)) else Dead
  {
    hide FieldOffset, IsLive;
    if IsLive(t, m, address) {
      assert Read(t, m, address).Live?;
      assert Read(t, m, address).fields == FieldValues(t, m, address);
    }
  }

  lemma FieldsWellFormed(t: Type, i: nat)
    requires t.Record? && WellFormed(t) && i < |t.fields|
    ensures WellFormed(t.fields[i].content)
  {}

  lemma CaseWellFormed(t: Type, i: nat)
    requires t.Variant? && WellFormed(t) && i < |t.types|
    ensures WellFormed(t.types[i])
  {}

  lemma ReadVariant(t: Type, m: Memory, address: nat)
    requires t.Variant?
    ensures Read(t, m, address)
      == if ValidTag(t, m(address))
         then Holds(m(address), Read(t.types[m(address) - 1], m, address + ValueOffset(t)))
         else Empty
  {
    hide ValueOffset;
  }

  // ----- Reading -----

  /** The value of an object depends on its own bytes only. */
  lemma {:induction false} ReadFrame(t: Type, m: Memory, m': Memory, address: nat)
    requires WellFormed(t) && Agree(m, m', address, SizeOf(t))
    ensures Read(t, m, address) == Read(t, m', address)
    decreases t
  {
    hide WellFormed, SizeOf, FieldOffset, ValueOffset, ByteOffset, IndicatorOf, Read;
    match t
    case Primitive(size, _) => ReadBytes(t, m, m', address);
    case Record(_, _, fields) =>
      ReadLive(t, m, address);
      ReadLive(t, m', address);
      if !IndicatorOf(t).NoIndicator? {
        ByteInside(t);
      }
      forall i | 0 <= i < |fields|
        ensures FieldValues(t, m, address)[i] == FieldValues(t, m', address)[i]
      {
        FieldInside(t, i);
        FieldsWellFormed(t, i);
        ReadFrame(fields[i].content, m, m', address + FieldOffset(t, i));
      }
      assert FieldValues(t, m, address) == FieldValues(t, m', address);
    case Variant(types) =>
      TagInside(t);
      ReadVariant(t, m, address);
      ReadVariant(t, m', address);
      if ValidTag(t, m(address)) {
        var i := m(address) - 1;
        CaseInside(t, i);
        CaseWellFormed(t, i);
        ReadFrame(types[i], m, m', address + ValueOffset(t));
      }
  }

  lemma ReadBytes(t: Type, m: Memory, m': Memory, address: nat)
    requires t.Primitive? && Agree(m, m', address, SizeOf(t))
    ensures Read(t, m, address) == Read(t, m', address)
  {
    assert Read(t, m, address).bytes == Read(t, m', address).bytes;
  }

  // ----- Destroying -----

  lemma OutsideObject(t: Type, address: nat, x: nat)
    requires t.Record? && Outside(x, address, SizeOf(t))
    ensures OutsideFields(t, address, |t.fields|, x)
  {
    hide SizeOf, FieldOffset;
    forall i | 0 <= i < |t.fields|
      ensures Outside(x, address + FieldOffset(t, i), SizeOf(t.fields[i].content))
    {
      FieldInside(t, i);
    }
  }

  lemma {:induction false} DestroyFrame(t: Type, m: Memory, address: nat, x: nat)
    requires WellFormed(t) && Outside(x, address, SizeOf(t))
    ensures Destroy(t, m, address).memory(x) == m(x)
    decreases t, 1, 0
  {
    hide WellFormed, SizeOf, FieldOffset, ValueOffset, ByteOffset, IndicatorOf, Read, HasCustomDestructor;
    hide OutsideFields;
    if HasCustomDestructor(t) {
      match t
      case Primitive(_, _) =>
      case Record(_, _, fields) =>
        OutsideObject(t, address, x);
        DestroyFieldsFrame(t, m, address, |fields|, x);
        if !IndicatorOf(t).NoIndicator? {
          ByteInside(t);
        }
      case Variant(types) =>
        if ValidTag(t, m(address)) {
          CaseInside(t, m(address) - 1);
          CaseWellFormed(t, m(address) - 1);
          DestroyFrame(types[m(address) - 1], m, address + ValueOffset(t), x);
        }
    }
  }

  lemma {:induction false} DestroyFieldsFrame(t: Type, m: Memory, address: nat, n: nat, x: nat)
    requires t.Record? && WellFormed(t) && n <= |t.fields| && OutsideFields(t, address, n, x)
    ensures DestroyFields(t, m, address, n).memory(x) == m(x)
    decreases t, 0, n
  {
    hide WellFormed, SizeOf, FieldOffset, Destroy;
    if n > 0 {
      var last := Destroy(t.fields[n - 1].content, m, address + FieldOffset(t, n - 1));
      FieldsWellFormed(t, n - 1);
      DestroyFrame(t.fields[n - 1].content, m, address + FieldOffset(t, n - 1), x);
      DestroyFieldsFrame(t, last.memory, address, n - 1, x);
    }
  }

  // ----- Moving -----

  lemma CopyFrame(t: Type, m: Memory, src: nat, dst: nat, x: nat)
    requires t.Primitive? && Outside(x, dst, SizeOf(t))
    ensures Move(t, m, src, dst)(x) == m(x)
  {}

  /** The liveness bytes written by a move are inside the two objects. */
  lemma BytesFrame(t: Type, m: Memory, src: nat, dst: nat, x: nat)
    requires t.Record? && WellFormed(t) && Outside(x, src, SizeOf(t)) && Outside(x, dst, SizeOf(t))
    requires MoveFields(t, m, src, dst, |t.fields|)(x) == m(x)
    ensures Move(t, m, src, dst)(x) == m(x)
  {
    hide WellFormed, ByteOffset, IndicatorOf, SizeOf, MoveFields;
    if !IndicatorOf(t).NoIndicator? {
      ByteInside(t);
    }
  }

  lemma {:induction false} MoveFrame(t: Type, m: Memory, src: nat, dst: nat, x: nat)
    requires WellFormed(t) && Outside(x, src, SizeOf(t)) && Outside(x, dst, SizeOf(t))
    ensures Move(t, m, src, dst)(x) == m(x)
    decreases t, 1, 0
  {
    hide WellFormed, SizeOf, FieldOffset, ValueOffset, ByteOffset, IndicatorOf, OutsideFields;
    match t
    case Primitive(_, _) => CopyFrame(t, m, src, dst, x);
    case Record(_, _, fields) =>
      OutsideObject(t, src, x);
      OutsideObject(t, dst, x);
      MoveFieldsFrame(t, m, src, dst, |fields|, x);
      BytesFrame(t, m, src, dst, x);
    case Variant(types) =>
      TagInside(t);
      if ValidTag(t, m(src)) {
        var i := m(src) - 1;
        CaseInside(t, i);
        CaseWellFormed(t, i);
        MoveFrame(types[i], Put(Put(m, dst, m(src)), src, 0), src + ValueOffset(t), dst + ValueOffset(t), x);
      }
  }

  lemma {:induction false} MoveFieldsFrame(t: Type, m: Memory, src: nat, dst: nat, n: nat, x: nat)
    requires t.Record? && WellFormed(t) && n <= |t.fields|
    requires OutsideFields(t, src, n, x) && OutsideFields(t, dst, n, x)
    ensures MoveFields(t, m, src, dst, n)(x) == m(x)
    decreases t, 0, n
  {
    hide WellFormed, SizeOf, FieldOffset, Move;
    if n > 0 {
      FieldsWellFormed(t, n - 1);
      MoveFieldsFrame(t, m, src, dst, n - 1, x);
      MoveFrame(t.fields[n - 1].content, MoveFields(t, m, src, dst, n - 1), src + FieldOffset(t, n - 1),
        dst + FieldOffset(t, n - 1), x);
    }
  }
}

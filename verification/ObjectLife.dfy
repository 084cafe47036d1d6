/**
 The life of objects in memory: the generated destructors and moves, which read and write liveness
 bytes and variant tags, against the abstract value an object holds and the custom destructor calls
 that are still pending for it.
 */
module ObjectLife {
  import opened Bits
  import opened Layout

  /** A primitive (also an enum or union), a struct or class, or a variant. Only classes have destructor methods. */
  datatype Type =
    | Primitive(size: nat, alignBits: nat)
    | Record(isStruct: bool, hasDestructor: bool, fields: seq<Field>)
    | Variant(types: seq<Type>)

  /** `known` says whether the size is known where the liveness byte is chosen. */
  datatype Field = Field(content: Type, known: bool)

  // ----- Layout of types -----

  function AlignBits(t: Type): nat {
    match t
    case Primitive(_, bits) => bits
    case Record(_, _, fields) => MaxBits(FieldLayout(fields))
    case Variant(types) => MaxBits(CaseLayout(types))
  }

  function SizeOf(t: Type): nat {
    match t
    case Primitive(size, _) => size
    case Record(isStruct, hasDestructor, fields) =>
      ObjectSize(FieldLayout(fields), ChooseIndicator(FieldLayout(fields), Known(fields), hasDestructor), isStruct)
    case Variant(types) =>
      AlignUp(AlignUp(1, MaxBits(CaseLayout(types))) + MaxSize(CaseLayout(types)), MaxBits(CaseLayout(types)))
  }

  function FieldLayout(fields: seq<Field>): (r: seq<Member>)
    ensures |r| == |fields|
  {
    if fields == [] then []
    else
      var first := fields[0];
      assert first.content < first;
      [Member(SizeOf(first.content), AlignBits(first.content))] + FieldLayout(fields[1..])
  }

  function CaseLayout(types: seq<Type>): (r: seq<Member>)
    ensures |r| == |types|
  {
    if types == [] then []
    else [Member(SizeOf(types[0]), AlignBits(types[0]))] + CaseLayout(types[1..])
  }

  function Known(fields: seq<Field>): (r: seq<bool>)
    ensures |r| == |fields|
  {
    seq(|fields|, i requires 0 <= i < |fields| => fields[i].known)
  }

  function MaxSize(members: seq<Member>): nat {
    if members == [] then 0
    else
      var before := MaxSize(members[..|members| - 1]);
      if before < members[|members| - 1].size then members[|members| - 1].size else before
  }

  function ChooseIndicator(members: seq<Member>, known: seq<bool>, hasDestructor: bool): Indicator
    requires |known| == |members|
  {
    if hasDestructor then LivenessByte(members, known) else NoIndicator
  }

  function IndicatorOf(t: Type): Indicator
    requires t.Record?
  {
    ChooseIndicator(FieldLayout(t.fields), Known(t.fields), t.hasDestructor)
  }

  function FieldOffset(t: Type, i: nat): nat
    requires t.Record? && i < |t.fields|
  {
    Offset(FieldLayout(t.fields), i)
  }

  function ByteOffset(t: Type): nat
    requires t.Record?
  {
    match IndicatorOf(t)
    case NoIndicator => 0
    case GapByte(offset) => offset
    case SuffixByte => SuffixOffset(FieldLayout(t.fields))
  }

  /** Where the value of a variant is: right after the tag, at the largest alignment. */
  function ValueOffset(t: Type): nat
    requires t.Variant?
  {
    Mask(AlignBits(t)) + 1
  }

  /** Tags are single bytes, 0 is the empty tag, and every suffix byte is inside its object. */
  ghost predicate WellFormed(t: Type) {
    match t
    case Primitive(_, _) => true
    case Record(isStruct, hasDestructor, fields) =>
      && (isStruct ==> !hasDestructor)
      && (IndicatorOf(t).SuffixByte? ==> GapsStaySmall(FieldLayout(fields)))
      && forall i :: 0 <= i < |fields| ==> WellFormed(fields[i].content)
    case Variant(types) =>
      |types| < 256 && forall i :: 0 <= i < |types| ==> WellFormed(types[i])
  }

  predicate HasCustomDestructor(t: Type) {
    match t
    case Primitive(_, _) => false
    case Record(_, hasDestructor, fields) =>
      hasDestructor || exists i :: 0 <= i < |fields| && HasCustomDestructor(fields[i].content)
    case Variant(types) => exists i :: 0 <= i < |types| && HasCustomDestructor(types[i])
  }

  // ----- Memory and abstract values -----

  /** What every address holds. */
  type Memory = nat -> nat

  function Put(m: Memory, address: nat, value: nat): Memory {
    (x: nat) => if x == address then value else m(x)
  }

  function Copy(m: Memory, src: nat, dst: nat, size: nat): Memory {
    (x: nat) => if dst <= x < dst + size then m(src + (x - dst)) else m(x)
  }

  datatype Value =
    | Bytes(bytes: seq<nat>)
    | Live(fields: seq<Value>)
    | Dead
    | Holds(tag: nat, value: Value)
    | Empty

  predicate IsLive(t: Type, m: Memory, address: nat)
    requires t.Record?
  {
    IndicatorOf(t).NoIndicator? || m(address + ByteOffset(t)) == 1
  }

  /** A record with a liveness byte holds live fields exactly if the byte is 1; any other value means dead. */
  lemma LiveExactly(t: Type, m: Memory, address: nat)
    requires t.Record? && !IndicatorOf(t).NoIndicator?
    ensures Read(t, m, address).Live? <==> m(address + ByteOffset(t)) == 1
    ensures Read(t, m, address).Dead? <==> m(address + ByteOffset(t)) != 1
  {
    hide IndicatorOf, ByteOffset;
  }

  predicate ValidTag(t: Type, tag: nat)
    requires t.Variant?
  {
    1 <= tag <= |t.types|
  }

  /** The abstract value stored at an address. */
  function Read(t: Type, m: Memory, address: nat): Value {
    match t
    case Primitive(size, _) => Bytes(seq(size, (i: nat) => m(address + i)))
    case Record(_, _, fields) =>
      if IsLive(t, m, address) then
        Live(seq(|fields|, i requires 0 <= i < |fields| => Read(fields[i].content, m, address + FieldOffset(t, i))))
      else Dead
    case Variant(types) =>
      if ValidTag(t, m(address)) then Holds(m(address), Read(types[m(address) - 1], m, address + ValueOffset(t)))
      else Empty
  }

  /** A call of a custom destructor, with the value the object has at the time. */
  datatype Call = Call(owner: Type, value: Value)

  /** The custom destructor calls that a value still needs, in the order destruction makes them. */
  function Pending(t: Type, v: Value): seq<Call>
    decreases t, 1, 0
  {
    match t
    case Primitive(_, _) => []
    case Record(_, hasDestructor, fields) =>
      if v.Live? && |v.fields| == |fields|
      then (if hasDestructor then [Call(t, v)] else []) + PendingFields(t, v.fields, |fields|)
      else []
    case Variant(types) =>
      if v.Holds? && ValidTag(t, v.tag) then Pending(types[v.tag - 1], v.value) else []
  }

  /** Fields go in reverse order. */
  function PendingFields(t: Type, values: seq<Value>, n: nat): seq<Call>
    requires t.Record? && n <= |values| == |t.fields|
    decreases t, 0, n
  {
    if n == 0 then []
    else Pending(t.fields[n - 1].content, values[n - 1]) + PendingFields(t, values, n - 1)
  }

  function PendingAt(t: Type, m: Memory, address: nat): seq<Call> {
    Pending(t, Read(t, m, address))
  }

  // ----- The generated functions -----

  datatype Outcome = Outcome(memory: Memory, log: seq<Call>)

  function SetByte(t: Type, m: Memory, address: nat, value: nat): Memory
    requires t.Record?
  {
    if IndicatorOf(t).NoIndicator? then m else Put(m, address + ByteOffset(t), value)
  }

  /** The destructor call is left out for types without custom destructors. */
  function Destroy(t: Type, m: Memory, address: nat): Outcome
    decreases t, 2, 0
  {
    if HasCustomDestructor(t) then OuterDestroy(t, m, address) else Outcome(m, [])
  }

  function OuterDestroy(t: Type, m: Memory, address: nat): Outcome
    decreases t, 1, 0
  {
    match t
    case Primitive(_, _) => Outcome(m, [])
    case Record(_, hasDestructor, fields) =>
      if !IsLive(t, m, address) then Outcome(m, [])
      else
        var own := if hasDestructor then [Call(t, Read(t, m, address))] else [];
        var rest := DestroyFields(t, m, address, |fields|);
        Outcome(SetByte(t, rest.memory, address, 0), own + rest.log)
    case Variant(types) =>
      if ValidTag(t, m(address)) then Destroy(types[m(address) - 1], m, address + ValueOffset(t)) else Outcome(m, [])
  }

  function DestroyFields(t: Type, m: Memory, address: nat, n: nat): Outcome
    requires t.Record? && n <= |t.fields|
    decreases t, 0, n
  {
    if n == 0 then Outcome(m, [])
    else
      var last := Destroy(t.fields[n - 1].content, m, address + FieldOffset(t, n - 1));
      var rest := DestroyFields(t, last.memory, address, n - 1);
      Outcome(rest.memory, last.log + rest.log)
  }

  function Move(t: Type, m: Memory, src: nat, dst: nat): Memory
    decreases t, 1, 0
  {
    match t
    case Primitive(size, _) => Copy(m, src, dst, size)
    case Record(_, _, fields) =>
      if IndicatorOf(t).NoIndicator? then MoveFields(t, m, src, dst, |fields|)
      else if IsLive(t, m, src) then
        SetByte(t, SetByte(t, MoveFields(t, m, src, dst, |fields|), dst, 1), src, 0)
      else SetByte(t, m, dst, 0)
    case Variant(types) =>
      var tag := m(src);
      var m' := Put(Put(m, dst, tag), src, 0);
      if ValidTag(t, tag) then Move(types[tag - 1], m', src + ValueOffset(t), dst + ValueOffset(t)) else m'
  }

  function MoveFields(t: Type, m: Memory, src: nat, dst: nat, n: nat): Memory
    requires t.Record? && n <= |t.fields|
    decreases t, 0, n
  {
    if n == 0 then m
    else Move(t.fields[n - 1].content, MoveFields(t, m, src, dst, n - 1), src + FieldOffset(t, n - 1), dst + FieldOffset(t, n - 1))
  }

  // ----- Where the parts of an object are -----

  lemma {:induction false} FieldLayoutAt(fields: seq<Field>, i: nat)
    requires i < |fields|
    ensures FieldLayout(fields)[i] == Member(SizeOf(fields[i].content), AlignBits(fields[i].content))
  {
    if i > 0 {
      FieldLayoutAt(fields[1..], i - 1);
    }
  }

  lemma {:induction false} CaseLayoutAt(types: seq<Type>, i: nat)
    requires i < |types|
    ensures CaseLayout(types)[i] == Member(SizeOf(types[i]), AlignBits(types[i]))
  {
    if i > 0 {
      CaseLayoutAt(types[1..], i - 1);
    }
  }

  lemma FieldInside(t: Type, i: nat)
    requires t.Record? && i < |t.fields|
    ensures FieldOffset(t, i) + SizeOf(t.fields[i].content) <= SizeOf(t)
  {
    hide ObjectSize, Offset, LivenessByte, AlignBits, FieldLayout;
    FieldLayoutAt(t.fields, i);
    MembersInsideObject(FieldLayout(t.fields), IndicatorOf(t), t.isStruct, i);
  }

  lemma FieldsApart(t: Type, i: nat, j: nat)
    requires t.Record? && i < j < |t.fields|
    ensures FieldOffset(t, i) + SizeOf(t.fields[i].content) <= FieldOffset(t, j)
  {
    hide Offset, AlignBits, FieldLayout, SizeOf;
    FieldLayoutAt(t.fields, i);
    MembersDisjoint(FieldLayout(t.fields), i, j);
  }

  /** The liveness byte is inside the object and in none of its fields. */
  lemma ByteInside(t: Type)
    requires t.Record? && WellFormed(t) && !IndicatorOf(t).NoIndicator?
    ensures ByteOffset(t) < SizeOf(t)
  {
    hide End, Offset, AlignUp, MaxBits, LivenessByteFrom, GapsStaySmall, ObjectSize, SuffixOffset;
    var members := FieldLayout(t.fields);
    LivenessByteIs(members, Known(t.fields), 0);
    if IndicatorOf(t).GapByte? {
      var j :| 0 <= j < |members| && GapBefore(members, j) > 0 && ByteOffset(t) == End(members[..j], 0);
      GapByteIsSafe(members, j, IndicatorOf(t), t.isStruct);
    } else {
      SuffixFitsExactly(members, t.isStruct);
    }
  }

  lemma ByteOutsideFields(t: Type, i: nat)
    requires t.Record? && !IndicatorOf(t).NoIndicator? && i < |t.fields|
    ensures ByteOffset(t) < FieldOffset(t, i) || FieldOffset(t, i) + SizeOf(t.fields[i].content) <= ByteOffset(t)
  {
    hide End, Offset, AlignUp, MaxBits, LivenessByteFrom, ObjectSize, SuffixOffset, SizeOf, AlignBits, FieldLayout;
    var members := FieldLayout(t.fields);
    FieldLayoutAt(t.fields, i);
    LivenessByteIs(members, Known(t.fields), 0);
    if IndicatorOf(t).GapByte? {
      var j :| 0 <= j < |members| && GapBefore(members, j) > 0 && ByteOffset(t) == End(members[..j], 0);
      GapByteIsSafe(members, j, IndicatorOf(t), t.isStruct);
    } else {
      SuffixFitsExactly(members, t.isStruct);
    }
  }

  lemma {:induction false} MaxSizeIs(members: seq<Member>, i: nat)
    requires i < |members|
    ensures members[i].size <= MaxSize(members)
  {
    if i < |members| - 1 {
      MaxSizeIs(members[..|members| - 1], i);
    }
  }

  /** The tag comes before the value, and the value is inside the variant. */
  lemma CaseInside(t: Type, i: nat)
    requires t.Variant? && i < |t.types|
    ensures 0 < ValueOffset(t) && ValueOffset(t) + SizeOf(t.types[i]) <= SizeOf(t)
  {
    hide MaxBits, MaxSize, CaseLayout;
    CaseLayoutAt(t.types, i);
    MaxSizeIs(CaseLayout(t.types), i);
    var a := AlignBits(t);
    OneAligned(a);
    hide AlignUp;
    AlignUpBounds(AlignUp(1, a) + MaxSize(CaseLayout(t.types)), a);
  }

  lemma OneAligned(a: nat)
    ensures AlignUp(1, a) == Mask(a) + 1
  {
    LargerPowerAligned(a, a);
    AlignUpIs(1, a, Pow2(a));
  }

  lemma TagInside(t: Type)
    requires t.Variant?
    ensures SizeOf(t) > 0
  {
    hide MaxBits, MaxSize, CaseLayout;
    OneAligned(AlignBits(t));
    hide AlignUp;
    AlignUpBounds(AlignUp(1, AlignBits(t)) + MaxSize(CaseLayout(t.types)), AlignBits(t));
  }
}

/**
 Why liveness bytes have to be inside their objects: for a class whose suffix byte is not, destroying
 an object changes the object behind it.
 */
module ObjectSuffix {
  import opened Bits
  import opened Layout
  import opened ObjectLife
  import opened ObjectFrames
  import opened ObjectConservation

  /** A record with well-formed fields; its own liveness byte may be anywhere. */
  ghost predicate FieldsOK(t: Type) {
    t.Record? && (t.isStruct ==> !t.hasDestructor) && forall i :: 0 <= i < |t.fields| ==> WellFormed(t.fields[i].content)
  }

  ghost predicate Zero(m: Memory, address: nat, size: nat) {
    forall x :: address <= x < address + size ==> m(x) == 0
  }

  /** Where memory is zero, all objects with custom destructors are dead or in empty variants. */
  lemma {:induction false} ZeroDestroys(t: Type, m: Memory, address: nat)
    requires WellFormed(t) && Zero(m, address, SizeOf(t))
    ensures Destroy(t, m, address) == Outcome(m, [])
    decreases t, 1, 0
  {
    hide WellFormed, SizeOf, FieldOffset, ValueOffset, ByteOffset, IndicatorOf, Read, HasCustomDestructor;
    hide DestroyFields;
    if HasCustomDestructor(t) {
      match t
      case Primitive(_, _) =>
      case Record(_, _, fields) =>
        NoIndicatorMeansNoDestructor(t);
        if IndicatorOf(t).NoIndicator? {
          ShapeOf(t);
          ZeroFields(t, m, address, |fields|);
        } else {
          ByteInside(t);
        }
      case Variant(types) =>
        TagInside(t);
    }
  }

  lemma ShapeOf(t: Type)
    requires WellFormed(t) && t.Record?
    ensures FieldsOK(t)
  {}

  lemma {:induction false} ZeroFields(t: Type, m: Memory, address: nat, n: nat)
    requires FieldsOK(t) && n <= |t.fields| && Zero(m, address, SizeOf(t))
    ensures DestroyFields(t, m, address, n) == Outcome(m, [])
    decreases t, 0, n
  {
    hide SizeOf, FieldOffset, Destroy;
    if n > 0 {
      FieldInside(t, n - 1);
      ZeroDestroys(t.fields[n - 1].content, m, address + FieldOffset(t, n - 1));
      ZeroFields(t, m, address, n - 1);
    }
  }

  /** A class of one byte, with its liveness byte right behind it. */
  const SMALL := Record(false, true, [Field(Primitive(1, 0), true)])

  lemma SmallLayout()
    ensures WellFormed(SMALL) && SizeOf(SMALL) == 2 && ByteOffset(SMALL) == 1 && !IndicatorOf(SMALL).NoIndicator?
    ensures FieldOffset(SMALL, 0) == 0
  {
    hide AlignUp, GapsStaySmall;
    var members := FieldLayout(SMALL.fields);
    assert SMALL.fields[1..] == [];
    assert members == [Member(1, 0)] && members[..0] == [] && Known(SMALL.fields) == [true];
    AlignUpIs(0, 0, 0);
    AlignUpIs(1, 0, 1);
    AlignUpIs(2, 0, 2);
    assert LivenessByteFrom(members, [true], 1) == SuffixByte;
    assert IndicatorOf(SMALL) == SuffixByte;
    SuffixFitsExactly(members, false);
  }

  /** What a live object of that class holds, and the call pending for it. */
  lemma SmallPending(m: Memory, address: nat)
    requires m(address + 1) == 1
    ensures PendingAt(SMALL, m, address) == [Call(SMALL, Live([Bytes([m(address)])]))]
  {
    hide WellFormed, SizeOf, FieldOffset, ByteOffset, IndicatorOf;
    SmallLayout();
    ReadLive(SMALL, m, address);
    assert Read(Primitive(1, 0), m, address).bytes == [m(address)];
    assert FieldValues(SMALL, m, address) == [Bytes([m(address)])];
    var v := Live([Bytes([m(address)])]);
    assert PendingFields(SMALL, v.fields, 0) == [];
    assert PendingFields(SMALL, v.fields, 1) == [];
  }

  /** A class whose suffix byte is outside, live and otherwise zero. */
  lemma OutsidePending(t: Type, m: Memory)
    requires FieldsOK(t) && t.hasDestructor && Zero(m, 0, SizeOf(t)) && m(ByteOffset(t)) == 1
    ensures PendingAt(t, m, 0) == [Call(t, Read(t, m, 0))]
    ensures Destroy(t, m, 0) == Outcome(SetByte(t, m, 0, 0), [Call(t, Read(t, m, 0))])
    ensures PendingAt(t, SetByte(t, m, 0, 0), 0) == []
  {
    hide WellFormed, SizeOf, FieldOffset, ByteOffset, IndicatorOf, DestroyFields, PendingFields, Read;
    NoIndicatorMeansNoDestructor(t);
    ZeroFields(t, m, 0, |t.fields|);
    PendingLive(t, m, 0);
    forall i | 0 <= i < |t.fields| ensures Pending(t.fields[i].content, FieldValues(t, m, 0)[i]) == [] {
      FieldInside(t, i);
      ZeroDestroys(t.fields[i].content, m, FieldOffset(t, i));
      DestroyRuns(t.fields[i].content, m, FieldOffset(t, i));
    }
    PendingFieldsNone(t, FieldValues(t, m, 0), |t.fields|);
    PendingLive(t, SetByte(t, m, 0, 0), 0);
  }

  ghost function Beside(t: Type, a: nat, other: Type, b: nat): seq<Place> {
    [Place(t, a), Place(other, b)]
  }

  /** Destroying an object of the type conserves the calls of every separate object. */
  ghost predicate ConservesBeside(t: Type) {
    forall other, a, b, m | WellFormed(other) && Separate(Place(t, a), Place(other, b)) ::
      AllCalls(Beside(t, a, other, b), Apply(Beside(t, a, other, b), Outcome(m, []), DestroyAt(0)))
        == AllCalls(Beside(t, a, other, b), Outcome(m, []))
  }

  ghost function OneByteLive(a: nat): Memory {
    (x: nat) => if x == a || x == a + 1 then 1 else 0
  }

  lemma SumOfTwo(parts: seq<multiset<Call>>)
    requires |parts| == 2
    ensures Sum(parts) == parts[0] + parts[1]
  {
    assert Sum(parts[..1][..0]) == multiset{};
    assert parts[..1][0] == parts[0];
  }

  lemma CallsOfTwo(places: seq<Place>, state: Outcome, first: seq<Call>, second: seq<Call>)
    requires |places| == 2
    requires PendingAt(places[0].t, state.memory, places[0].address) == first
    requires PendingAt(places[1].t, state.memory, places[1].address) == second
    ensures AllCalls(places, state) == multiset(state.log) + (multiset(first) + multiset(second))
  {
    hide PendingAt;
    SumOfTwo(PendingOf(places, state.memory));
  }

  /** With the suffix byte outside, destroying the object changes the value the next object is destroyed with. */
  lemma OutsideLosesCalls(t: Type)
    requires FieldsOK(t) && t.hasDestructor && ByteOffset(t) >= SizeOf(t)
    ensures !ConservesBeside(t)
  {
    hide WellFormed, SizeOf, FieldOffset, ByteOffset, IndicatorOf, Read, Pending, PendingAt, Destroy, AllCalls;
    var a := ByteOffset(t);
    var m := OneByteLive(a);
    var m' := SetByte(t, m, 0, 0);
    var places, state := Beside(t, 0, SMALL, a), Outcome(m, []);
    SmallLayout();
    OutsidePending(t, m);
    NoIndicatorMeansNoDestructor(t);
    assert m'(a) == 0 && m'(a + 1) == 1;
    SmallPending(m, a);
    SmallPending(m', a);
    var own := Call(t, Read(t, m, 0));
    var call, call' := Call(SMALL, Live([Bytes([1])])), Call(SMALL, Live([Bytes([0])]));
    var after := Apply(places, state, DestroyAt(0));
    assert [] + [own] == [own];
    assert after == Outcome(m', [own]);
    CallsOfTwo(places, state, [own], [call]);
    CallsOfTwo(places, after, [], [call']);
    CallsDiffer(call, call');
    Different(own, call, call');
    assert Separate(Place(t, 0), Place(SMALL, a));
  }

  lemma CallsDiffer(call: Call, call': Call)
    requires call == Call(SMALL, Live([Bytes([1])])) && call' == Call(SMALL, Live([Bytes([0])]))
    ensures call != call'
  {
    assert call.value.fields[0].bytes[0] != call'.value.fields[0].bytes[0];
  }

  lemma Different(own: Call, call: Call, call': Call)
    requires call != call'
    ensures multiset([]) + (multiset([own]) + multiset([call])) != multiset([own]) + (multiset([]) + multiset([call']))
  {
    var nothing: seq<Call> := [];
    assert multiset(nothing) == multiset{};
    var before, after := multiset{own, call}, multiset{own, call'};
    assert before[call] == after[call] + 1;
    assert multiset(nothing) + (multiset([own]) + multiset([call])) == before;
    assert multiset([own]) + (multiset(nothing) + multiset([call'])) == after;
  }

  /** Calls are conserved next to every object of the type exactly if its suffix byte, if it has one, is inside. */
  lemma ConservesExactlyInside(t: Type)
    requires FieldsOK(t)
    ensures ConservesBeside(t) <==> WellFormed(t)
  {
    hide SizeOf, Destroy, AllCalls, Apply, GapsStaySmall, SuffixOffset, ObjectSize;
    if WellFormed(t) {
      forall other, a, b, m | WellFormed(other) && Separate(Place(t, a), Place(other, b))
        ensures AllCalls(Beside(t, a, other, b), Apply(Beside(t, a, other, b), Outcome(m, []), DestroyAt(0)))
          == AllCalls(Beside(t, a, other, b), Outcome(m, []))
      {
        DestroyConserves(Beside(t, a, other, b), Outcome(m, []), DestroyAt(0));
      }
    } else {
      SuffixOutside(t);
      OutsideLosesCalls(t);
    }
  }

  lemma SuffixOutside(t: Type)
    requires FieldsOK(t) && !WellFormed(t)
    ensures t.hasDestructor && ByteOffset(t) >= SizeOf(t)
  {
    hide GapsStaySmall, SuffixOffset, ObjectSize, LivenessByteFrom;
    SuffixFitsExactly(FieldLayout(t.fields), t.isStruct);
    NoIndicatorMeansNoDestructor(t);
  }

  /** Such a class: a byte, and a member of unknown size that turns out to have size and alignment 4. */
  lemma SuchAClass()
    ensures var t := Record(false, true, [Field(Primitive(1, 0), true), Field(Primitive(4, 2), false)]);
      FieldsOK(t) && !ConservesBeside(t)
  {
    hide AlignUp, GapsStaySmall, LivenessByteFrom, SuffixOffset, ObjectSize, ConservesBeside;
    var fields := [Field(Primitive(1, 0), true), Field(Primitive(4, 2), false)];
    var t := Record(false, true, fields);
    assert FieldLayout(fields) == [Member(1, 0), Member(4, 2)] && Known(fields) == [true, false];
    SuffixCanMissTheObject();
    assert IndicatorOf(t) == SuffixByte;
    SuffixFitsExactly(FieldLayout(fields), false);
    assert !WellFormed(t);
    ConservesExactlyInside(t);
  }
}

/**
 The generated destructors and moves as they run: memory and the log of custom destructor calls are
 updated in place, fields are visited by loops, in reverse for destruction.
 */
module ObjectRuntime {
  import opened Layout
  import opened ObjectLife

  class Runtime {
    var memory: Memory
    var log: seq<Call>

    constructor (memory: Memory)
      ensures this.memory == memory && log == []
    {
      this.memory := memory;
      log := [];
    }

    /** `__islive`: objects without an indicator are always live. */
    method IsLiveCall(t: Type, address: nat) returns (live: bool)
      requires t.Record?
      ensures live == IsLive(t, memory, address)
    {
      hide IndicatorOf, SuffixOffset, FieldLayout;
      var indicator := IndicatorOf(t);
      match indicator
      case NoIndicator =>
        live := true;
      case GapByte(offset) =>
        live := memory(address + offset) == 1;
      case SuffixByte =>
        live := memory(address + SuffixOffset(FieldLayout(t.fields))) == 1;
    }

    method SetLivenessByte(t: Type, address: nat, value: nat)
      requires t.Record?
      modifies this`memory
      ensures memory == SetByte(t, old(memory), address, value)
    {
      hide IndicatorOf, SuffixOffset, FieldLayout;
      var indicator := IndicatorOf(t);
      match indicator
      case NoIndicator =>
      case GapByte(offset) =>
        memory := Put(memory, address + offset, value);
      case SuffixByte =>
        memory := Put(memory, address + SuffixOffset(FieldLayout(t.fields)), value);
    }

    method CallDestructor(t: Type, address: nat)
      modifies this
      ensures var outcome := Destroy(t, old(memory), address);
        memory == outcome.memory && log == old(log) + outcome.log
      decreases t, 2, 0
    {
      if HasCustomDestructor(t) {
        OuterDestructor(t, address);
      }
    }

    method OuterDestructor(t: Type, address: nat)
      modifies this
      ensures var outcome := OuterDestroy(t, old(memory), address);
        memory == outcome.memory && log == old(log) + outcome.log
      decreases t, 1, 0
    {
      hide IsLive, SetByte, DestroyFields, Destroy, Read, ValueOffset, AlignBits;
      match t
      case Primitive(_, _) =>
      case Record(_, hasDestructor, fields) =>
        var live := IsLiveCall(t, address);
        if live {
          if hasDestructor {
            log := log + [Call(t, Read(t, memory, address))];
          }
          DestroyMembers(t, address);
          SetLivenessByte(t, address, 0);
        }
      case Variant(types) =>
        var tag := memory(address);
        if 1 <= tag <= |types| {
          CallDestructor(types[tag - 1], address + ValueOffset(t));
        }
    }

    method DestroyMembers(t: Type, address: nat)
      requires t.Record?
      modifies this
      ensures var outcome := DestroyFields(t, old(memory), address, |t.fields|);
        memory == outcome.memory && log == old(log) + outcome.log
      decreases t, 0, 0
    {
      hide Destroy, FieldOffset;
      ghost var all := DestroyFields(t, memory, address, |t.fields|);
      for i := 0 to |t.fields|
        invariant var rest := DestroyFields(t, memory, address, |t.fields| - i);
          rest.memory == all.memory && log + rest.log == old(log) + all.log
      {
        var k := |t.fields| - 1 - i;
        CallDestructor(t.fields[k].content, address + FieldOffset(t, k));
      }
    }

    method MoveObject(t: Type, src: nat, dst: nat)
      modifies this`memory
      ensures memory == Move(t, old(memory), src, dst)
      decreases t, 2, 0
    {
      hide MoveFields, IsLive, SetByte, IndicatorOf, Put, ValueOffset;
      match t
      case Primitive(size, _) =>
        memory := Copy(memory, src, dst, size);
      case Record(_, _, _) =>
        MoveRecord(t, src, dst);
      case Variant(_) =>
        MoveVariant(t, src, dst);
    }

    method MoveVariant(t: Type, src: nat, dst: nat)
      requires t.Variant?
      modifies this`memory
      ensures memory == Move(t, old(memory), src, dst)
      decreases t, 1, 0
    {
      hide MoveFields, Put, Copy, ValueOffset, IndicatorOf;
      MoveOfTag(t, memory, src, dst);
      var tag := memory(src);
      memory := Put(memory, dst, tag);
      memory := Put(memory, src, 0);
      if 1 <= tag <= |t.types| {
        hide Move;
        MoveObject(t.types[tag - 1], src + ValueOffset(t), dst + ValueOffset(t));
      }
    }

    method MoveRecord(t: Type, src: nat, dst: nat)
      requires t.Record?
      modifies this`memory
      ensures memory == Move(t, old(memory), src, dst)
      decreases t, 1, 0
    {
      hide IsLive, SetByte, MoveFields, IndicatorOf, Put, Copy;
      if IndicatorOf(t).NoIndicator? {
        MoveMembers(t, src, dst);
      } else {
        var live := IsLiveCall(t, src);
        if live {
          MoveMembers(t, src, dst);
          SetLivenessByte(t, dst, 1);
          SetLivenessByte(t, src, 0);
        } else {
          SetLivenessByte(t, dst, 0);
        }
      }
    }

    method MoveMembers(t: Type, src: nat, dst: nat)
      requires t.Record?
      modifies this`memory
      ensures memory == MoveFields(t, old(memory), src, dst, |t.fields|)
      decreases t, 0, 0
    {
      hide Move, FieldOffset;
      for i := 0 to |t.fields|
        invariant memory == MoveFields(t, old(memory), src, dst, i)
      {
        MoveObject(t.fields[i].content, src + FieldOffset(t, i), dst + FieldOffset(t, i));
      }
    }
  }

  /** The move of a variant, by its tag. */
  lemma MoveOfTag(t: Type, m: Memory, src: nat, dst: nat)
    requires t.Variant?
    ensures var m' := Put(Put(m, dst, m(src)), src, 0);
      Move(t, m, src, dst)
        == if ValidTag(t, m(src))
           then Move(t.types[m(src) - 1], m', src + ValueOffset(t), dst + ValueOffset(t))
           else m'
  {
    hide Put, ValueOffset;
  }
}

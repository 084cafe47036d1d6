/**
 Rewriting the array of run-time type information in place: what an intermediate function does for
 one template use. Arguments may be permuted, so all moved slots are loaded before any is stored.
 */
module TypeArrayMapper {
  import opened TemplateUses
  import opened TemplateGenerator

  datatype MoveAction = MoveAction(source: nat, dest: nat)

  datatype SetAction = SetAction(index: nat, value: TypeInfo)

  predicate MovesInside(moves: seq<MoveAction>, n: nat) {
    forall k :: 0 <= k < |moves| ==> moves[k].source < n && moves[k].dest < n
  }

  predicate SetsInside(sets: seq<SetAction>, n: nat) {
    forall k :: 0 <= k < |sets| ==> sets[k].index < n
  }

  /** Every move reads the array as it was before all of them. */
  function AfterMoves(before: seq<TypeInfo>, moves: seq<MoveAction>): (r: seq<TypeInfo>)
    requires MovesInside(moves, |before|)
    ensures |r| == |before|
  {
    if moves == [] then before
    else
      var last := moves[|moves| - 1];
      AfterMoves(before, moves[..|moves| - 1])[last.dest := before[last.source]]
  }

  function AfterSets(types: seq<TypeInfo>, sets: seq<SetAction>): (r: seq<TypeInfo>)
    requires SetsInside(sets, |types|)
    ensures |r| == |types|
  {
    if sets == [] then types
    else
      var last := sets[|sets| - 1];
      AfterSets(types, sets[..|sets| - 1])[last.index := last.value]
  }

  /** A slot that no assignment touches can be written before or after them. */
  lemma {:induction false} SetsCommute(types: seq<TypeInfo>, sets: seq<SetAction>, i: nat, value: TypeInfo)
    requires SetsInside(sets, |types|) && i < |types|
    requires forall k :: 0 <= k < |sets| ==> sets[k].index != i
    ensures AfterSets(types[i := value], sets) == AfterSets(types, sets)[i := value]
  {
    if sets != [] {
      SetsCommute(types, sets[..|sets| - 1], i, value);
    }
  }

  /** The array with the first i slots rewritten. */
  function Partly(before: seq<TypeInfo>, after: seq<TypeInfo>, i: nat): seq<TypeInfo>
    requires i <= |before| == |after|
  {
    after[..i] + before[i..]
  }

  class Mapper {
    var moveActions: seq<MoveAction>
    var setActions: seq<SetAction>

    constructor ()
      ensures moveActions == [] && setActions == []
    {
      moveActions := [];
      setActions := [];
    }

    method ScheduleAssign(index: nat, value: TypeInfo)
      modifies this`setActions
      ensures setActions == old(setActions) + [SetAction(index, value)]
    {
      setActions := setActions + [SetAction(index, value)];
    }

    method ScheduleMove(source: nat, dest: nat)
      modifies this`moveActions
      ensures moveActions == if source == dest then old(moveActions) else old(moveActions) + [MoveAction(source, dest)]
    {
      if source == dest {
        return;
      }
      moveActions := moveActions + [MoveAction(source, dest)];
    }

    method EmitActions(types: array<TypeInfo>)
      requires MovesInside(moveActions, types.Length) && SetsInside(setActions, types.Length)
      modifies types
      ensures types[..] == AfterSets(AfterMoves(old(types[..]), moveActions), setActions)
    {
      ghost var before := types[..];
      var loaded: seq<TypeInfo> := [];
      for i := 0 to |moveActions|
        invariant |loaded| == i && forall k :: 0 <= k < i ==> loaded[k] == before[moveActions[k].source]
      {
        loaded := loaded + [types[moveActions[i].source]];
      }
      for i := 0 to |moveActions|
        invariant types[..] == AfterMoves(before, moveActions[..i])
      {
        types[moveActions[i].dest] := loaded[i];
        assert moveActions[..i + 1][..i] == moveActions[..i];
      }
      assert moveActions[..|moveActions|] == moveActions;
      for i := 0 to |setActions|
        invariant types[..] == AfterSets(AfterMoves(before, moveActions), setActions[..i])
      {
        types[setActions[i].index] := setActions[i].value;
        assert setActions[..i + 1][..i] == setActions[..i];
      }
      assert setActions[..|setActions|] == setActions;
    }
  }

  /** What the scheduled actions will do, with the first i arguments scheduled. */
  ghost predicate Scheduled(moves: seq<MoveAction>, sets: seq<SetAction>, before: seq<TypeInfo>, after: seq<TypeInfo>, i: nat)
    requires i <= |before| == |after|
  {
    && MovesInside(moves, |before|) && SetsInside(sets, |before|)
    && (forall k :: 0 <= k < |sets| ==> sets[k].index < i)
    && AfterSets(AfterMoves(before, moves), sets) == Partly(before, after, i)
  }

  lemma OneMore(before: seq<TypeInfo>, after: seq<TypeInfo>, i: nat)
    requires i < |before| == |after|
    ensures Partly(before, after, i + 1) == Partly(before, after, i)[i := after[i]]
  {}

  lemma MoveScheduled(moves: seq<MoveAction>, sets: seq<SetAction>, before: seq<TypeInfo>, after: seq<TypeInfo>, i: nat,
      source: nat)
    requires i < |before| == |after| && source < |before| && after[i] == before[source]
    requires Scheduled(moves, sets, before, after, i)
    ensures Scheduled(if source == i then moves else moves + [MoveAction(source, i)], sets, before, after, i + 1)
  {
    hide AfterSets, Partly;
    OneMore(before, after, i);
    if source == i {
      StillUntouched(before, after, i);
    } else {
      var moves' := moves + [MoveAction(source, i)];
      assert moves'[..|moves'| - 1] == moves;
      SetsCommute(AfterMoves(before, moves), sets, i, before[source]);
    }
  }

  lemma StillUntouched(before: seq<TypeInfo>, after: seq<TypeInfo>, i: nat)
    requires i < |before| == |after| && after[i] == before[i]
    ensures Partly(before, after, i + 1) == Partly(before, after, i)
  {}

  lemma AssignScheduled(moves: seq<MoveAction>, sets: seq<SetAction>, before: seq<TypeInfo>, after: seq<TypeInfo>, i: nat)
    requires i < |before| == |after|
    requires Scheduled(moves, sets, before, after, i)
    ensures Scheduled(moves, sets + [SetAction(i, after[i])], before, after, i + 1)
  {
    hide AfterMoves, Partly;
    OneMore(before, after, i);
    var sets' := sets + [SetAction(i, after[i])];
    assert sets'[..|sets'| - 1] == sets;
  }

  /** The case of one template use: the array becomes the arguments of the use. */
  method GenUseCase(world: World, owner: ObjectId, inst: TemplateInst, types: array<TypeInfo>, root: TemplateInst,
                    subPath: nat)
    requires owner in world && |inst.args| <= types.Length
    requires forall i :: 0 <= i < |inst.args| && inst.args[i].Var? ==> inst.args[i].index < types.Length
    modifies types
    ensures types[..] == UseTypes(world, owner, inst.args, old(types[..]), root, subPath)
  {
    hide Scheduled, AfterSets, AfterMoves, ArgGenerator;
    ghost var before := types[..];
    ghost var after := UseTypes(world, owner, inst.args, before, root, subPath);
    var mapper := new Mapper();
    NothingScheduled(before, after);
    for i := 0 to |inst.args|
      invariant fresh(mapper) && types[..] == before
      invariant Scheduled(mapper.moveActions, mapper.setActions, before, after, i)
    {
      ghost var moves, sets := mapper.moveActions, mapper.setActions;
      match inst.args[i]
      case Var(index) =>
        mapper.ScheduleMove(index, i);
        MoveScheduled(moves, sets, before, after, i, index);
      case Object(target, args) =>
        var generator := Null;
        if args != [] {
          generator := ArgGenerator(world, owner, InstOf(inst.args[i]), root, subPath);
        }
        mapper.ScheduleAssign(i, TypeInfo(target, generator));
        AssignScheduled(moves, sets, before, after, i);
    }
    AllScheduled(mapper.moveActions, mapper.setActions, before, after, |inst.args|);
    mapper.EmitActions(types);
  }

  lemma NothingScheduled(before: seq<TypeInfo>, after: seq<TypeInfo>)
    requires |before| == |after|
    ensures Scheduled([], [], before, after, 0)
  {}

  lemma AllScheduled(moves: seq<MoveAction>, sets: seq<SetAction>, before: seq<TypeInfo>, after: seq<TypeInfo>, n: nat)
    requires n <= |before| == |after| && Scheduled(moves, sets, before, after, n)
    requires forall k :: n <= k < |before| ==> after[k] == before[k]
    ensures MovesInside(moves, |before|) && SetsInside(sets, |before|)
    ensures AfterSets(AfterMoves(before, moves), sets) == after
  {
    hide AfterSets, AfterMoves;
  }

  /** The root function's stores into the fresh array. */
  method GenRootTypes(world: World, inst: TemplateInst) returns (types: array<TypeInfo>)
    requires |inst.args| <= TYPE_INFO_ARRAY_SIZE
    ensures fresh(types) && types[..] == RootTypes(world, inst.args)
  {
    types := new TypeInfo[TYPE_INFO_ARRAY_SIZE](_ => Undefined);
    for i := 0 to |inst.args|
      invariant types.Length == TYPE_INFO_ARRAY_SIZE
      invariant forall k :: 0 <= k < i ==> types[k] == RootInfo(world, inst.args[k])
      invariant forall k :: i <= k < types.Length ==> types[k] == Undefined
    {
      types[i] := RootInfo(world, inst.args[i]);
    }
  }
}

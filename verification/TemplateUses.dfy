/**
 The table of template uses of one templated object: every use gets an id, and the ids are packed
 into paths as components of a width that is known only once all uses have been added.
 */
module TemplateUses {
  import opened Bits
  import opened Rounding

  // ----- Widths -----

  /** The width of a path component for a table of n uses. */
  function BitsRequired(n: nat): nat {
    if n == 0 then 0
    else if n == 1 then 1
    else CeilLog2(n)
  }

  /** Every id fits its component, which has at least one bit, and no narrower one would do. */
  lemma IdsFit(n: nat, id: nat)
    requires id < n
    ensures BitsRequired(n) > 0 && id < Pow2(BitsRequired(n))
    ensures forall width: nat | width > 0 && n <= Pow2(width) :: BitsRequired(n) <= width
  {
    hide Pow2;
    CeilLog2Bounds(n);
    if n > 1 {
      forall width: nat | n <= Pow2(width) ensures BitsRequired(n) <= width {
        if width < BitsRequired(n) {
          Pow2Monotone(width, BitsRequired(n) - 1);
        }
      }
    }
  }

  // ----- Types and uses -----

  /** A templated type instance or function. */
  type ObjectId = nat

  /** A template argument: one of the enclosing object's own variables, or an object type. */
  datatype Type = Var(index: nat) | Object(target: ObjectId, args: seq<Type>)

  datatype TemplateInst = TemplateInst(target: ObjectId, args: seq<Type>)

  type UseMap = map<TemplateInst, nat>

  /** A use is either an entry of the table or the object itself with its own variables. */
  datatype Use = Self | Entry(id: nat)

  datatype Option<T> = None | Some(value: T)

  function OwnVars(n: nat): (r: seq<Type>)
    ensures |r| == n && forall i :: 0 <= i < n ==> r[i] == Var(i)
  {
    seq(n, (i: nat) => Var(i))
  }

  function GetUse(owner: ObjectId, arity: nat, uses: UseMap, inst: TemplateInst): Option<Use> {
    if inst in uses then Some(Entry(uses[inst]))
    else if inst.target == owner && inst.args == OwnVars(arity) then Some(Self)
    else None
  }

  function AddUse(owner: ObjectId, arity: nat, uses: UseMap, inst: TemplateInst): UseMap
    decreases inst.args, 1
  {
    if GetUse(owner, arity, uses, inst).Some? then uses
    else AddNested(owner, arity, uses[inst := |uses|], inst.args)
  }

  function AddNested(owner: ObjectId, arity: nat, uses: UseMap, args: seq<Type>): UseMap
    decreases args, 0
  {
    if args == [] then uses
    else AddNested(owner, arity, AddNestedArg(owner, arity, uses, args[0]), args[1..])
  }

  predicate NeedsUse(arg: Type) {
    arg.Object? && arg.args != []
  }

  function AddNestedArg(owner: ObjectId, arity: nat, uses: UseMap, arg: Type): UseMap
    decreases arg, 2
  {
    if NeedsUse(arg) then AddUse(owner, arity, uses, InstOf(arg)) else uses
  }

  function InstOf(arg: Type): TemplateInst
    requires arg.Object?
  {
    TemplateInst(arg.target, arg.args)
  }

  // ----- What the table keeps -----

  /** The ids are exactly the numbers below the size of the table, each used once. */
  ghost predicate Dense(uses: UseMap) {
    && (forall inst :: inst in uses ==> uses[inst] < |uses|)
    && (forall a, b :: a in uses && b in uses && uses[a] == uses[b] ==> a == b)
    && (forall id :: 0 <= id < |uses| ==> id in uses.Values)
  }

  /** No id is lost or changed. */
  ghost predicate Extends(uses: UseMap, uses': UseMap) {
    forall inst :: inst in uses ==> inst in uses' && uses'[inst] == uses[inst]
  }

  ghost predicate Recorded(owner: ObjectId, arity: nat, uses: UseMap, inst: TemplateInst) {
    GetUse(owner, arity, uses, inst).Some?
  }

  ghost predicate ArgsRecorded(owner: ObjectId, arity: nat, uses: UseMap, args: seq<Type>) {
    forall i :: 0 <= i < |args| && NeedsUse(args[i]) ==> Recorded(owner, arity, uses, InstOf(args[i]))
  }

  /** Every nested templated argument of a recorded use is itself recorded or the self use. */
  ghost predicate Closed(owner: ObjectId, arity: nat, uses: UseMap) {
    forall inst {:trigger ArgsRecorded(owner, arity, uses, inst.args)} ::
      inst in uses ==> ArgsRecorded(owner, arity, uses, inst.args)
  }

  /** Closed for the entries that `before` does not have. */
  ghost predicate ClosedSince(owner: ObjectId, arity: nat, before: UseMap, uses: UseMap) {
    forall inst {:trigger ArgsRecorded(owner, arity, uses, inst.args)} ::
      inst in uses && inst !in before ==> ArgsRecorded(owner, arity, uses, inst.args)
  }

  lemma DenseInsert(uses: UseMap, inst: TemplateInst)
    requires Dense(uses) && inst !in uses
    ensures Dense(uses[inst := |uses|])
  {
    var uses' := uses[inst := |uses|];
    forall id | 0 <= id < |uses'|
      ensures id in uses'.Values
    {
      if id == |uses| {
        assert uses'[inst] == id;
      } else {
        assert id in uses.Values;
        var other :| other in uses && uses[other] == id;
        assert uses'[other] == id;
      }
    }
  }

  lemma {:induction false} AddUseKeeps(owner: ObjectId, arity: nat, uses: UseMap, inst: TemplateInst)
    requires Dense(uses)
    ensures var uses' := AddUse(owner, arity, uses, inst);
      && Dense(uses') && Extends(uses, uses')
      && Recorded(owner, arity, uses', inst) && ClosedSince(owner, arity, uses, uses')
    decreases inst.args, 1
  {
    if !GetUse(owner, arity, uses, inst).Some? {
      DenseInsert(uses, inst);
      var middle := uses[inst := |uses|];
      AddNestedKeeps(owner, arity, middle, inst.args);
    }
  }

  lemma {:induction false} AddNestedKeeps(owner: ObjectId, arity: nat, uses: UseMap, args: seq<Type>)
    requires Dense(uses)
    ensures var uses' := AddNested(owner, arity, uses, args);
      && Dense(uses') && Extends(uses, uses')
      && ArgsRecorded(owner, arity, uses', args) && ClosedSince(owner, arity, uses, uses')
    decreases args, 0
  {
    hide Dense, Extends, ArgsRecorded, ClosedSince, Recorded;
    if args == [] {
      NothingAdded(owner, arity, uses);
    } else {
      AddNestedArgKeeps(owner, arity, uses, args[0]);
      var middle := AddNestedArg(owner, arity, uses, args[0]);
      AddNestedKeeps(owner, arity, middle, args[1..]);
      var uses' := AddNested(owner, arity, middle, args[1..]);
      ClosedSinceTransitive(owner, arity, uses, middle, uses');
      RecordedFirst(owner, arity, middle, uses', args);
    }
  }

  lemma AddNestedArgKeeps(owner: ObjectId, arity: nat, uses: UseMap, arg: Type)
    requires Dense(uses)
    ensures var uses' := AddNestedArg(owner, arity, uses, arg);
      && Dense(uses') && Extends(uses, uses') && ClosedSince(owner, arity, uses, uses')
      && (NeedsUse(arg) ==> Recorded(owner, arity, uses', InstOf(arg)))
    decreases arg, 2
  {
    hide Dense, Extends, ClosedSince, Recorded;
    if NeedsUse(arg) {
      AddUseKeeps(owner, arity, uses, InstOf(arg));
    } else {
      NothingAdded(owner, arity, uses);
    }
  }

  lemma NothingAdded(owner: ObjectId, arity: nat, uses: UseMap)
    ensures Extends(uses, uses) && ClosedSince(owner, arity, uses, uses)
    ensures ArgsRecorded(owner, arity, uses, [])
  {}

  lemma ClosedSinceTransitive(owner: ObjectId, arity: nat, a: UseMap, b: UseMap, c: UseMap)
    requires Extends(a, b) && Extends(b, c)
    requires ClosedSince(owner, arity, a, b) && ClosedSince(owner, arity, b, c)
    ensures Extends(a, c) && ClosedSince(owner, arity, a, c)
  {
    forall inst | inst in c && inst !in a
      ensures ArgsRecorded(owner, arity, c, inst.args)
    {
      if inst in b {
        assert ArgsRecorded(owner, arity, b, inst.args);
        StaysRecorded(owner, arity, b, c, inst.args);
      }
    }
  }

  lemma StaysRecorded(owner: ObjectId, arity: nat, uses: UseMap, uses': UseMap, args: seq<Type>)
    requires Extends(uses, uses') && ArgsRecorded(owner, arity, uses, args)
    ensures ArgsRecorded(owner, arity, uses', args)
  {
    forall i | 0 <= i < |args| && NeedsUse(args[i])
      ensures Recorded(owner, arity, uses', InstOf(args[i]))
    {
      assert Recorded(owner, arity, uses, InstOf(args[i]));
    }
  }

  lemma RecordedFirst(owner: ObjectId, arity: nat, middle: UseMap, uses: UseMap, args: seq<Type>)
    requires args != [] && Extends(middle, uses)
    requires NeedsUse(args[0]) ==> Recorded(owner, arity, middle, InstOf(args[0]))
    requires ArgsRecorded(owner, arity, uses, args[1..])
    ensures ArgsRecorded(owner, arity, uses, args)
  {
    forall i | 0 <= i < |args| && NeedsUse(args[i])
      ensures Recorded(owner, arity, uses, InstOf(args[i]))
    {
      if i > 0 {
        assert args[i] == args[1..][i - 1];
      }
    }
  }

  /** The table after adding uses in some order. */
  function AddAll(owner: ObjectId, arity: nat, insts: seq<TemplateInst>): UseMap {
    if insts == [] then map[]
    else AddUse(owner, arity, AddAll(owner, arity, insts[..|insts| - 1]), insts[|insts| - 1])
  }

  lemma EmptyTable(owner: ObjectId, arity: nat)
    ensures Dense(map[]) && Closed(owner, arity, map[])
  {}

  lemma StaysClosed(owner: ObjectId, arity: nat, uses: UseMap, uses': UseMap)
    requires Closed(owner, arity, uses) && Extends(uses, uses') && ClosedSince(owner, arity, uses, uses')
    ensures Closed(owner, arity, uses')
    ensures forall inst :: Recorded(owner, arity, uses, inst) ==> Recorded(owner, arity, uses', inst)
  {
    forall inst | inst in uses'
      ensures ArgsRecorded(owner, arity, uses', inst.args)
    {
      if inst in uses {
        assert ArgsRecorded(owner, arity, uses, inst.args);
        StaysRecorded(owner, arity, uses, uses', inst.args);
      }
    }
  }

  /** After any sequence of added uses: ids are dense and distinct, nested arguments are recorded too. */
  lemma {:induction false} TableAlwaysClosed(owner: ObjectId, arity: nat, insts: seq<TemplateInst>)
    ensures var uses := AddAll(owner, arity, insts);
      && Dense(uses) && Closed(owner, arity, uses)
      && forall inst :: inst in insts ==> Recorded(owner, arity, uses, inst)
  {
    hide AddUse, Dense, Closed, ClosedSince, Extends, GetUse;
    if insts == [] {
      EmptyTable(owner, arity);
    } else {
      var earlier := insts[..|insts| - 1];
      var last := insts[|insts| - 1];
      TableAlwaysClosed(owner, arity, earlier);
      AddUseKeeps(owner, arity, AddAll(owner, arity, earlier), last);
      StaysClosed(owner, arity, AddAll(owner, arity, earlier), AddAll(owner, arity, insts));
      assert insts == earlier + [last];
    }
  }

  /** An id, once given, is never changed by later uses. */
  lemma {:induction false} IdsNeverChange(owner: ObjectId, arity: nat, insts: seq<TemplateInst>, more: seq<TemplateInst>)
    ensures Extends(AddAll(owner, arity, insts), AddAll(owner, arity, insts + more))
    decreases |more|
  {
    hide Dense, Closed, AddUse, Recorded;
    if more == [] {
      assert insts + more == insts;
    } else {
      var fewer := more[..|more| - 1];
      IdsNeverChange(owner, arity, insts, fewer);
      var all := insts + more;
      assert all[..|all| - 1] == insts + fewer;
      TableAlwaysClosed(owner, arity, insts + fewer);
      AddUseKeeps(owner, arity, AddAll(owner, arity, insts + fewer), all[|all| - 1]);
    }
  }

  // ----- The builder -----

  /** A generated shift whose width operand is patched later. */
  class ShiftInstruction {
    var width: nat

    constructor (garbage: nat)
      ensures width == garbage
    {
      width := garbage;
    }
  }

  class TemplateBuilder {
    const owner: ObjectId
    const arity: nat
    var templateUseMap: UseMap
    var instructions: seq<ShiftInstruction>

    constructor (owner: ObjectId, arity: nat)
      ensures this.owner == owner && this.arity == arity
      ensures templateUseMap == map[] && instructions == []
    {
      this.owner := owner;
      this.arity := arity;
      templateUseMap := map[];
      instructions := [];
    }

    method FindUse(inst: TemplateInst) returns (use: Option<Use>)
      ensures use == GetUse(owner, arity, templateUseMap, inst)
    {
      if inst in templateUseMap {
        return Some(Entry(templateUseMap[inst]));
      }
      if inst.target == owner {
        var isSelf := AllArgumentsAreOwnVars(inst);
        if isSelf {
          return Some(Self);
        }
      }
      return None;
    }

    method AllArgumentsAreOwnVars(inst: TemplateInst) returns (all: bool)
      ensures all <==> inst.args == OwnVars(arity)
    {
      if |inst.args| != arity {
        return false;
      }
      for i := 0 to |inst.args|
        invariant forall j :: 0 <= j < i ==> inst.args[j] == Var(j)
      {
        if inst.args[i] != Var(i) {
          return false;
        }
      }
      return true;
    }

    method Add(inst: TemplateInst) returns (use: Use)
      modifies this`templateUseMap
      ensures templateUseMap == AddUse(owner, arity, old(templateUseMap), inst)
      ensures GetUse(owner, arity, templateUseMap, inst) == Some(use)
      decreases inst.args
    {
      var existing := FindUse(inst);
      if existing.Some? {
        return existing.value;
      }
      var nextId := |templateUseMap|;
      templateUseMap := templateUseMap[inst := nextId];
      ghost var inserted := templateUseMap;
      for i := 0 to |inst.args|
        invariant AddNested(owner, arity, templateUseMap, inst.args[i..])
          == AddNested(owner, arity, inserted, inst.args)
        invariant inst in templateUseMap && templateUseMap[inst] == nextId
      {
        var arg := inst.args[i];
        assert inst.args[i..][0] == arg && inst.args[i..][1..] == inst.args[i + 1..];
        ghost var before := templateUseMap;
        if arg.Object? && arg.args != [] {
          var _ := Add(InstOf(arg));
          AddUseStable(owner, arity, before, InstOf(arg), inst);
        }
      }
      use := Entry(nextId);
    }

    method BitsRequiredNow() returns (bits: nat)
      requires |templateUseMap| <= Pow2(32)
      ensures bits == BitsRequired(|templateUseMap|)
    {
      if |templateUseMap| == 0 {
        return 0;
      }
      if |templateUseMap| == 1 {
        return 1;
      }
      SmallIsRight(|templateUseMap|);
      RightExactlyWithoutGap(|templateUseMap|);
      bits := GetNextPowerOfTwo(|templateUseMap|);
    }

    method AddInstruction(instruction: ShiftInstruction)
      modifies this`instructions
      ensures instructions == old(instructions) + [instruction]
    {
      instructions := instructions + [instruction];
    }

    /** Every recorded shift ends up with the final width. */
    method UpdateAllInstructions()
      requires |templateUseMap| <= Pow2(32)
      modifies instructions
      ensures forall i :: 0 <= i < |instructions| ==> instructions[i].width == BitsRequired(|templateUseMap|)
    {
      for i := 0 to |instructions|
        invariant forall j :: 0 <= j < i ==> instructions[j].width == BitsRequired(|templateUseMap|)
      {
        var bits := BitsRequiredNow();
        instructions[i].width := bits;
      }
    }
  }

  lemma {:induction false} AddUseStable(owner: ObjectId, arity: nat, uses: UseMap, inst: TemplateInst, known: TemplateInst)
    requires known in uses
    ensures var uses' := AddUse(owner, arity, uses, inst); known in uses' && uses'[known] == uses[known]
    decreases inst.args, 1
  {
    if !GetUse(owner, arity, uses, inst).Some? {
      AddNestedStable(owner, arity, uses[inst := |uses|], inst.args, known);
    }
  }

  lemma {:induction false} AddNestedStable(owner: ObjectId, arity: nat, uses: UseMap, args: seq<Type>, known: TemplateInst)
    requires known in uses
    ensures var uses' := AddNested(owner, arity, uses, args); known in uses' && uses'[known] == uses[known]
    decreases args, 0
  {
    if args != [] {
      if NeedsUse(args[0]) {
        AddUseStable(owner, arity, uses, InstOf(args[0]), known);
      }
      AddNestedStable(owner, arity, AddNestedArg(owner, arity, uses, args[0]), args[1..], known);
    }
  }
}

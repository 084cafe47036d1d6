/**
 Template generators: a ground instantiation at run time is a root function and a 64-bit path. The
 root function stores the statically known arguments; the chain of intermediate functions follows
 the path, replacing the arguments by those of one template use after another.
 */
module TemplateGenerator {
  import opened Bits
  import opened TemplatePath
  import opened TemplateUses

  datatype Kind = InterfaceObject | PrimitiveObject | OrdinaryObject

  /** A templated object, with the table of the uses made inside it. */
  datatype ObjectInfo = ObjectInfo(kind: Kind, arity: nat, uses: UseMap)

  type World = map<ObjectId, ObjectInfo>

  const TYPE_INFO_ARRAY_SIZE := 8

  /** A root function is identified by the instantiation it was generated for. */
  datatype Generator = Null | Generator(root: TemplateInst, path: nat)

  /** What is known about a type at run time: its virtual table and the generator of its arguments. */
  datatype TypeInfo = Undefined | TypeInfo(vtable: ObjectId, generator: Generator)

  predicate IsInterface(world: World, target: ObjectId) {
    target in world && world[target].kind.InterfaceObject?
  }

  predicate IsPrimitive(world: World, target: ObjectId) {
    target in world && world[target].kind.PrimitiveObject?
  }

  function Width(world: World, target: ObjectId): nat
    requires target in world
  {
    BitsRequired(|world[target].uses|)
  }

  // ----- Substitution, the meaning of instantiation -----

  function Subst(t: Type, args: seq<Type>): Type {
    match t
    case Var(index) => if index < |args| then args[index] else t
    case Object(target, inner) => Object(target, SubstAll(inner, args))
  }

  function SubstAll(types: seq<Type>, args: seq<Type>): (r: seq<Type>)
    ensures |r| == |types|
    ensures forall i :: 0 <= i < |types| ==> r[i] == Subst(types[i], args)
  {
    if types == [] then [] else [Subst(types[0], args)] + SubstAll(types[1..], args)
  }

  // ----- Encoding -----

  /** A type that is statically known; interfaces do not look at their arguments. */
  predicate IsRootType(world: World, t: Type) {
    match t
    case Var(_) => false
    case Object(target, args) => IsInterface(world, target) || IsRootList(world, args)
  }

  predicate IsRootList(world: World, types: seq<Type>) {
    forall i :: 0 <= i < |types| ==> IsRootType(world, types[i])
  }

  /** The generator for a use of a template inside `owner`, whose own generator is `parent`. */
  function ComputeTemplateGenerator(world: World, owner: ObjectId, parent: Generator, inst: TemplateInst): Generator
    requires owner in world
  {
    if inst.args == [] || IsInterface(world, inst.target) then Null
    else if IsRootList(world, inst.args) then Generator(inst, 1)
    else
      match GetUse(owner, world[owner].arity, world[owner].uses, inst)
      case None => Null
      case Some(Self) => parent
      case Some(Entry(id)) =>
        if parent.Generator? then Generator(parent.root, Append(parent.path, Width(world, owner), id)) else Null
  }

  // ----- Decoding -----

  function RootGenerator(world: World, inst: TemplateInst): Generator {
    if inst.args == [] || IsInterface(world, inst.target) then Null else Generator(inst, 1)
  }

  function RootInfo(world: World, arg: Type): TypeInfo {
    if arg.Object? then TypeInfo(arg.target, RootGenerator(world, InstOf(arg))) else Undefined
  }

  /** The array filled in by a root function; the other slots are never written. */
  function RootTypes(world: World, args: seq<Type>): (r: seq<TypeInfo>)
    ensures |r| == TYPE_INFO_ARRAY_SIZE
  {
    seq(TYPE_INFO_ARRAY_SIZE, (i: nat) => if i < |args| then RootInfo(world, args[i]) else Undefined)
  }

  /** Clears the last component of a path. */
  function ClearLast(path: nat, width: nat): nat {
    if Mask(width) < Pow2(WORD) then BitAnd(path, BitNot(Mask(width))) else 0
  }

  /** The generator for a templated argument of a use: same root, last component replaced or dropped. */
  function ArgGenerator(world: World, owner: ObjectId, inst: TemplateInst, root: TemplateInst, subPath: nat): Generator
    requires owner in world
  {
    match GetUse(owner, world[owner].arity, world[owner].uses, inst)
    case None => Null
    case Some(Self) => Generator(root, LShr(subPath, Width(world, owner)))
    case Some(Entry(id)) => Generator(root, BitOr(ClearLast(subPath, Width(world, owner)), id))
  }

  function ArgInfo(world: World, owner: ObjectId, arg: Type, types: seq<TypeInfo>, root: TemplateInst, subPath: nat): TypeInfo
    requires owner in world
  {
    match arg
    case Var(index) => if index < |types| then types[index] else Undefined
    case Object(target, args) =>
      TypeInfo(target, if args == [] then Null else ArgGenerator(world, owner, InstOf(arg), root, subPath))
  }

  /** The array after the case of one template use has rewritten it. */
  function UseTypes(world: World, owner: ObjectId, args: seq<Type>, types: seq<TypeInfo>, root: TemplateInst,
                    subPath: nat): (r: seq<TypeInfo>)
    requires owner in world
    ensures |r| == |types|
  {
    seq(|types|, i requires 0 <= i < |types| =>
      if i < |args| then ArgInfo(world, owner, args[i], types, root, subPath) else types[i])
  }

  ghost function UseWithId(uses: UseMap, id: nat): Option<TemplateInst> {
    if inst :| inst in uses && uses[inst] == id then Some(inst) else None
  }

  datatype Landing = Landing(target: ObjectId, types: seq<TypeInfo>, position: nat)

  /** The chain of intermediate functions from `target` on, with `position` bits of the path left. */
  ghost function Follow(world: World, root: TemplateInst, path: nat, types: seq<TypeInfo>, target: ObjectId,
                        position: nat): Option<Landing>
    decreases position
  {
    if target !in world then None
    else if |world[target].uses| == 0 || position == 0 then Some(Landing(target, types, position))
    else if position < Width(world, target) then None
    else
      var position' := position - Width(world, target);
      match UseWithId(world[target].uses, ComponentAt(path, position', Width(world, target)))
      case None => None
      case Some(inst) =>
        var types' := UseTypes(world, target, inst.args, types, root, LShr(path, position'));
        if IsPrimitive(world, inst.target) then Some(Landing(inst.target, types', position'))
        else Follow(world, root, path, types', inst.target, position')
  }

  ghost function RunRoot(world: World, root: TemplateInst, path: nat): Option<Landing> {
    if IsPrimitive(world, root.target)
    then Some(Landing(root.target, RootTypes(world, root.args), StartPosition(path)))
    else Follow(world, root, path, RootTypes(world, root.args), root.target, StartPosition(path))
  }

  // ----- What a generator denotes -----

  /** The run-time information describes this ground type. */
  ghost predicate Represents(world: World, t: Type, info: TypeInfo)
    decreases t, 1
  {
    t.Object? && info.TypeInfo? && info.vtable == t.target && Denotes(world, info.generator, t.target, t.args)
  }

  /** Running the generator produces the ground arguments; nothing is asked for interfaces. */
  ghost predicate Denotes(world: World, generator: Generator, target: ObjectId, args: seq<Type>)
    decreases args, 0
  {
    if IsInterface(world, target) then true
    else if args == [] then generator.Null?
    else
      && generator.Generator?
      && RunRoot(world, generator.root, generator.path).Some?
      && var types := RunRoot(world, generator.root, generator.path).value.types;
      && |args| <= |types|
      && forall i :: 0 <= i < |args| ==> Represents(world, args[i], types[i])
  }

  ghost predicate RepresentsAll(world: World, args: seq<Type>, types: seq<TypeInfo>) {
    && |args| <= |types| == TYPE_INFO_ARRAY_SIZE
    && forall i :: 0 <= i < |args| ==> Represents(world, args[i], types[i])
  }

  /** The path leads from the root exactly to `target`, arriving with the ground arguments. */
  ghost predicate Lands(world: World, generator: Generator, target: ObjectId, args: seq<Type>) {
    && generator.Generator? && generator.path > 0
    && RunRoot(world, generator.root, generator.path).Some?
    && var landing := RunRoot(world, generator.root, generator.path).value;
    && landing.target == target && landing.position == 0
    && RepresentsAll(world, args, landing.types)
  }

  // ----- Well-formed programs -----

  predicate TypeOk(world: World, arity: nat, t: Type) {
    match t
    case Var(index) => index < arity
    case Object(target, args) =>
      target in world && |args| == world[target].arity && forall i :: 0 <= i < |args| ==> TypeOk(world, arity, args[i])
  }

  predicate InstOk(world: World, arity: nat, inst: TemplateInst) {
    TypeOk(world, arity, Object(inst.target, inst.args))
  }

  /**
   The tables are those that adding uses produces; at most 8 arguments fit the array, and the mask
   of a component is computed in a 32-bit integer.
   */
  ghost predicate ObjectOk(world: World, owner: ObjectId)
    requires owner in world
  {
    var info := world[owner];
    && info.arity <= TYPE_INFO_ARRAY_SIZE && |info.uses| <= Pow2(30)
    && Dense(info.uses) && Closed(owner, info.arity, info.uses)
    && (forall inst {:trigger InstOk(world, info.arity, inst)} :: inst in info.uses ==> InstOk(world, info.arity, inst))
    && (info.kind.PrimitiveObject? ==> |info.uses| == 0)
  }

  ghost predicate WellFormed(world: World) {
    forall owner {:trigger ObjectOk(world, owner)} :: owner in world ==> ObjectOk(world, owner)
  }

  ghost predicate UsesOk(world: World, arity: nat, uses: UseMap) {
    forall inst {:trigger InstOk(world, arity, inst)} :: inst in uses ==> InstOk(world, arity, inst)
  }

  lemma {:induction false} AddUseOk(world: World, owner: ObjectId, arity: nat, uses: UseMap, inst: TemplateInst)
    requires UsesOk(world, arity, uses) && InstOk(world, arity, inst)
    ensures UsesOk(world, arity, AddUse(owner, arity, uses, inst))
    decreases inst.args, 1
  {
    if !GetUse(owner, arity, uses, inst).Some? {
      AddNestedOk(world, owner, arity, uses[inst := |uses|], inst.args);
    }
  }

  lemma {:induction false} AddNestedOk(world: World, owner: ObjectId, arity: nat, uses: UseMap, args: seq<Type>)
    requires UsesOk(world, arity, uses)
    requires forall i :: 0 <= i < |args| ==> TypeOk(world, arity, args[i])
    ensures UsesOk(world, arity, AddNested(owner, arity, uses, args))
    decreases args, 0
  {
    hide UsesOk, TypeOk, AddUse;
    if args != [] {
      if NeedsUse(args[0]) {
        SameType(args[0]);
        AddUseOk(world, owner, arity, uses, InstOf(args[0]));
      }
      AddNestedOk(world, owner, arity, AddNestedArg(owner, arity, uses, args[0]), args[1..]);
    }
  }

  lemma SameType(t: Type)
    requires t.Object?
    ensures Object(InstOf(t).target, InstOf(t).args) == t
  {}

  /** A table built by adding uses, in any order, is what the translation needs. */
  lemma {:induction false} BuiltTableOk(world: World, owner: ObjectId, insts: seq<TemplateInst>)
    requires owner in world
    requires forall k :: 0 <= k < |insts| ==> InstOk(world, world[owner].arity, insts[k])
    requires world[owner].uses == AddAll(owner, world[owner].arity, insts)
    requires world[owner].arity <= TYPE_INFO_ARRAY_SIZE && |world[owner].uses| <= Pow2(30)
    requires !world[owner].kind.PrimitiveObject?
    ensures ObjectOk(world, owner)
  {
    hide Dense, Closed, InstOk, Recorded;
    TableAlwaysClosed(owner, world[owner].arity, insts);
    AddAllOk(world, owner, world[owner].arity, insts);
  }

  lemma {:induction false} AddAllOk(world: World, owner: ObjectId, arity: nat, insts: seq<TemplateInst>)
    requires forall k :: 0 <= k < |insts| ==> InstOk(world, arity, insts[k])
    ensures UsesOk(world, arity, AddAll(owner, arity, insts))
  {
    hide InstOk;
    if insts != [] {
      AddAllOk(world, owner, arity, insts[..|insts| - 1]);
      AddUseOk(world, owner, arity, AddAll(owner, arity, insts[..|insts| - 1]), insts[|insts| - 1]);
    }
  }

  // ----- The path of a use extends the path of its owner -----

  /** The component is found again in the table. */
  lemma UseFound(uses: UseMap, inst: TemplateInst)
    requires Dense(uses) && inst in uses
    ensures UseWithId(uses, uses[inst]) == Some(inst)
  {}

  /** With one more component at the end, the chain goes through the same steps with the same arrays. */
  lemma {:induction false} SameSteps(world: World, root: TemplateInst, path: nat, width: nat, id: nat,
      types: seq<TypeInfo>, target: ObjectId, position: nat, owner: ObjectId, types': seq<TypeInfo>)
    requires path > 0 && HighestBit(path) + width < WORD && id < Pow2(width)
    requires !IsPrimitive(world, owner)
    requires Follow(world, root, path, types, target, position) == Some(Landing(owner, types', 0))
    ensures var longer := Append(path, width, id);
      Follow(world, root, longer, types, target, position + width) == Follow(world, root, longer, types', owner, width)
    decreases position
  {
    hide Append, LShr, BitAnd, HighestBit, UseTypes, UseWithId, BitsRequired;
    if |world[target].uses| > 0 && position > 0 {
      IdsFit(|world[target].uses|, 0);
      var position' := position - Width(world, target);
      ReadAbove(path, width, id, position');
      var inst := UseWithId(world[target].uses, ComponentAt(path, position', Width(world, target))).value;
      var middle := UseTypes(world, target, inst.args, types, root, LShr(path, position'));
      SameSteps(world, root, path, width, id, middle, inst.target, position', owner, types');
    }
  }

  /** The last step takes the case of the appended use and stops. */
  lemma LastStep(world: World, root: TemplateInst, path: nat, types: seq<TypeInfo>, owner: ObjectId, inst: TemplateInst)
    requires WellFormed(world) && owner in world && inst in world[owner].uses && inst.target in world
    requires path > 0 && HighestBit(path) + Width(world, owner) < WORD
    ensures var longer := Append(path, Width(world, owner), world[owner].uses[inst]);
      Follow(world, root, longer, types, owner, Width(world, owner))
        == Some(Landing(inst.target, UseTypes(world, owner, inst.args, types, root, longer), 0))
  {
    hide Append, LShr, BitAnd, HighestBit, UseTypes, UseWithId, BitsRequired, InstOk, Closed, Mask;
    var uses := world[owner].uses;
    var longer := Append(path, Width(world, owner), uses[inst]);
    assert ObjectOk(world, owner);
    IdsFit(|uses|, uses[inst]);
    ReadLast(path, Width(world, owner), uses[inst]);
    UseFound(uses, inst);
    assert Follow(world, root, longer, UseTypes(world, owner, inst.args, types, root, longer), inst.target, 0)
        == Some(Landing(inst.target, UseTypes(world, owner, inst.args, types, root, longer), 0));
  }

  /** Running the extended path. */
  lemma RunExtended(world: World, parent: Generator, owner: ObjectId, args: seq<Type>, inst: TemplateInst)
    requires WellFormed(world) && owner in world && inst in world[owner].uses && inst.target in world
    requires Lands(world, parent, owner, args) && HighestBit(parent.path) + Width(world, owner) < WORD
    ensures var types := RunRoot(world, parent.root, parent.path).value.types;
      var longer := Append(parent.path, Width(world, owner), world[owner].uses[inst]);
      RunRoot(world, parent.root, longer)
        == Some(Landing(inst.target, UseTypes(world, owner, inst.args, types, parent.root, longer), 0))
    ensures Append(parent.path, Width(world, owner), world[owner].uses[inst]) > 0
  {
    hide Append, LShr, BitAnd, HighestBit, UseTypes, UseWithId, BitsRequired, InstOk, Closed, Mask, Represents, Follow;
    var root, path := parent.root, parent.path;
    var uses := world[owner].uses;
    var width, id := Width(world, owner), uses[inst];
    assert ObjectOk(world, owner);
    assert !IsPrimitive(world, owner);
    IdsFit(|uses|, id);
    AppendExact(path, width, id);
    if IsPrimitive(world, root.target) {
      assert false;
    }
    var types := RunRoot(world, root, path).value.types;
    SameSteps(world, root, path, width, id, RootTypes(world, root.args), root.target, HighestBit(path), owner, types);
    LastStep(world, root, path, types, owner, inst);
  }

  // ----- Translation preserves substitution -----

  /** The generator that an argument of a use gets in the array is the one computed for that argument as a use. */
  lemma ArgPaths(world: World, owner: ObjectId, arg: TemplateInst, parent: Generator, id: nat)
    requires owner in world && parent.Generator? && parent.path > 0
    requires HighestBit(parent.path) + Width(world, owner) < WORD && id < Pow2(Width(world, owner))
    requires Dense(world[owner].uses)
    ensures var generator := ArgGenerator(world, owner, arg, parent.root, Append(parent.path, Width(world, owner), id));
      match GetUse(owner, world[owner].arity, world[owner].uses, arg)
      case None => true
      case Some(Self) => generator == parent
      case Some(Entry(other)) => generator == Generator(parent.root, Append(parent.path, Width(world, owner), other))
  {
    hide Append, LShr, BitAnd, BitOr, HighestBit, BitsRequired, Mask, BitNot;
    var width := Width(world, owner);
    ReadLast(parent.path, width, id);
    var use := GetUse(owner, world[owner].arity, world[owner].uses, arg);
    if use.Some? && use.value.Entry? {
      IdsFit(|world[owner].uses|, use.value.id);
      ReplaceLast(parent.path, width, id, use.value.id);
    }
  }

  lemma SubstOwnVars(args: seq<Type>)
    ensures SubstAll(OwnVars(|args|), args) == args
  {
    assert forall i :: 0 <= i < |args| ==> SubstAll(OwnVars(|args|), args)[i] == args[i];
  }

  lemma LandsDenotes(world: World, generator: Generator, target: ObjectId, args: seq<Type>)
    requires Lands(world, generator, target, args) && args != []
    ensures Denotes(world, generator, target, args)
  {
    hide RunRoot;
  }

  /**
   The generator of a recorded use: if the owner's generator leads to the owner with ground
   arguments, the extended path leads to the used object with those arguments substituted,
   including all nested templated arguments.
   */
  lemma {:induction false} UseLands(world: World, owner: ObjectId, parent: Generator, args: seq<Type>, inst: TemplateInst)
    requires WellFormed(world) && owner in world && inst in world[owner].uses
    requires |args| == world[owner].arity && Lands(world, parent, owner, args)
    requires HighestBit(parent.path) + Width(world, owner) < WORD
    ensures Lands(world, Generator(parent.root, Append(parent.path, Width(world, owner), world[owner].uses[inst])),
                  inst.target, SubstAll(inst.args, args))
    decreases inst.args
  {
    hide Append, LShr, BitAnd, HighestBit, RunRoot, Represents, Closed, TypeOk, BitsRequired;
    UseInWorld(world, owner, inst);
    RunExtended(world, parent, owner, args, inst);
    var types := RunRoot(world, parent.root, parent.path).value.types;
    var longer := Append(parent.path, Width(world, owner), world[owner].uses[inst]);
    var types' := UseTypes(world, owner, inst.args, types, parent.root, longer);
    forall i | 0 <= i < |inst.args|
      ensures Represents(world, SubstAll(inst.args, args)[i], types'[i])
    {
      ArgRepresented(world, owner, parent, args, inst, i, types);
    }
  }

  /** One argument of a recorded use. */
  lemma {:induction false} ArgRepresented(world: World, owner: ObjectId, parent: Generator, args: seq<Type>, inst: TemplateInst,
      i: nat, types: seq<TypeInfo>)
    requires WellFormed(world) && owner in world && inst in world[owner].uses && i < |inst.args|
    requires |args| == world[owner].arity && Lands(world, parent, owner, args)
    requires HighestBit(parent.path) + Width(world, owner) < WORD
    requires types == RunRoot(world, parent.root, parent.path).value.types
    ensures var longer := Append(parent.path, Width(world, owner), world[owner].uses[inst]);
      Represents(world, Subst(inst.args[i], args), ArgInfo(world, owner, inst.args[i], types, parent.root, longer))
    decreases inst.args[i], 0
  {
    hide Append, LShr, BitAnd, HighestBit, RunRoot, Denotes, TypeOk, BitsRequired, ArgGenerator;
    UseInWorld(world, owner, inst);
    var arg := inst.args[i];
    if arg.Object? && arg.args != [] {
      var nested := InstOf(arg);
      ArgRecorded(world, owner, inst, i);
      IdsFit(|world[owner].uses|, world[owner].uses[inst]);
      ArgPaths(world, owner, nested, parent, world[owner].uses[inst]);
      if nested in world[owner].uses {
        UseLands(world, owner, parent, args, nested);
        LandsDenotes(world, Generator(parent.root, Append(parent.path, Width(world, owner), world[owner].uses[nested])),
          nested.target, SubstAll(nested.args, args));
      } else {
        SubstOwnVars(args);
        LandsDenotes(world, parent, owner, args);
      }
    } else if arg.Object? {
      assert Denotes(world, Null, arg.target, []) by { NothingDenoted(world, arg.target); }
    }
  }

  lemma NothingDenoted(world: World, target: ObjectId)
    ensures Denotes(world, Null, target, [])
  {}

  lemma UseInWorld(world: World, owner: ObjectId, inst: TemplateInst)
    requires WellFormed(world) && owner in world && inst in world[owner].uses
    ensures inst.target in world && |inst.args| == world[inst.target].arity <= TYPE_INFO_ARRAY_SIZE
    ensures world[owner].arity <= TYPE_INFO_ARRAY_SIZE && Dense(world[owner].uses)
    ensures forall i :: 0 <= i < |inst.args| && inst.args[i].Var? ==> inst.args[i].index < world[owner].arity
  {
    hide Dense, Closed;
    assert ObjectOk(world, owner);
    assert InstOk(world, world[owner].arity, inst);
    assert ObjectOk(world, inst.target);
    forall i | 0 <= i < |inst.args| && inst.args[i].Var?
      ensures inst.args[i].index < world[owner].arity
    {
      assert TypeOk(world, world[owner].arity, inst.args[i]);
    }
  }

  /** The lookup of a templated argument's component cannot fail. */
  lemma ArgRecorded(world: World, owner: ObjectId, inst: TemplateInst, i: nat)
    requires WellFormed(world) && owner in world && inst in world[owner].uses && i < |inst.args|
    requires NeedsUse(inst.args[i])
    ensures GetUse(owner, world[owner].arity, world[owner].uses, InstOf(inst.args[i])).Some?
  {
    hide Dense, InstOk;
    assert ObjectOk(world, owner);
    assert ArgsRecorded(owner, world[owner].arity, world[owner].uses, inst.args);
    assert Recorded(owner, world[owner].arity, world[owner].uses, InstOf(inst.args[i]));
  }

  // ----- Statically known arguments -----

  /** A root function with path 1 stores the arguments and stops at once. */
  lemma {:induction false} RootLands(world: World, arity: nat, inst: TemplateInst, args: seq<Type>)
    requires WellFormed(world) && InstOk(world, arity, inst) && IsRootList(world, inst.args)
    ensures Lands(world, Generator(inst, 1), inst.target, SubstAll(inst.args, args))
    decreases inst.args, 1
  {
    hide Represents, Denotes, WellFormed, RootInfo, IsRootType, TypeOk;
    RootArity(world, arity, inst);
    forall i | 0 <= i < |inst.args|
      ensures Represents(world, SubstAll(inst.args, args)[i], RootTypes(world, inst.args)[i])
    {
      RootRepresents(world, arity, inst.args[i], args);
    }
    assert HighestBit(1) == 0;
  }

  /** Types without variables are statically known, at every depth. */
  lemma {:induction false} GroundIsRoot(world: World, t: Type)
    requires TypeOk(world, 0, t)
    ensures IsRootType(world, t)
    decreases t
  {
    forall i | 0 <= i < |t.args| ensures IsRootType(world, t.args[i]) {
      GroundIsRoot(world, t.args[i]);
    }
  }

  lemma RootArity(world: World, arity: nat, inst: TemplateInst)
    requires WellFormed(world) && InstOk(world, arity, inst)
    ensures inst.target in world && |inst.args| == world[inst.target].arity <= TYPE_INFO_ARRAY_SIZE
    ensures forall i :: 0 <= i < |inst.args| ==> TypeOk(world, arity, inst.args[i])
  {
    hide Dense, Closed;
    assert ObjectOk(world, inst.target);
  }

  lemma {:induction false} RootRepresents(world: World, arity: nat, t: Type, args: seq<Type>)
    requires WellFormed(world) && TypeOk(world, arity, t) && IsRootType(world, t)
    ensures Represents(world, Subst(t, args), RootInfo(world, t))
    decreases t, 0
  {
    hide WellFormed, RunRoot, IsRootList, Lands;
    if t.args == [] {
      NothingDenoted(world, t.target);
    } else if !IsInterface(world, t.target) {
      RootLands(world, arity, InstOf(t), args);
      LandsDenotes(world, Generator(InstOf(t), 1), t.target, SubstAll(t.args, args));
    }
  }

  // ----- The main result -----

  /** The use needs a component of its own in the path. */
  ghost predicate TakesEntry(world: World, owner: ObjectId, inst: TemplateInst)
    requires owner in world
  {
    inst in world[owner].uses
  }

  ghost predicate IsStatic(world: World, inst: TemplateInst) {
    inst.args == [] || IsInterface(world, inst.target) || IsRootList(world, inst.args)
  }

  /**
   Generating code for a use inside `owner` is substitution: whenever the owner was instantiated with
   `args`, the computed generator leads to the used object with `args` substituted into the use.
   */
  lemma GeneratorSubstitutes(world: World, owner: ObjectId, parent: Generator, args: seq<Type>, inst: TemplateInst)
    requires WellFormed(world) && owner in world && |args| == world[owner].arity
    requires InstOk(world, world[owner].arity, inst) && inst.args != [] && !IsInterface(world, inst.target)
    requires !IsStatic(world, inst) ==> Lands(world, parent, owner, args)
    requires !IsStatic(world, inst) ==> GetUse(owner, world[owner].arity, world[owner].uses, inst).Some?
    requires !IsStatic(world, inst) && TakesEntry(world, owner, inst)
      ==> HighestBit(parent.path) + Width(world, owner) < WORD
    ensures Lands(world, ComputeTemplateGenerator(world, owner, parent, inst), inst.target, SubstAll(inst.args, args))
  {
    hide WellFormed, Lands, IsRootList, Append, BitsRequired, InstOk, HighestBit;
    if IsRootList(world, inst.args) {
      RootLands(world, world[owner].arity, inst, args);
    } else if inst in world[owner].uses {
      assert parent.Generator? by { LandsIsGenerator(world, parent, owner, args); }
      UseLands(world, owner, parent, args, inst);
    } else {
      SubstOwnVars(args);
    }
  }

  lemma LandsIsGenerator(world: World, generator: Generator, target: ObjectId, args: seq<Type>)
    requires Lands(world, generator, target, args)
    ensures generator.Generator? && generator.path > 0
  {}

  /** The same for every use, also of interfaces and of types without arguments, for what the generator denotes. */
  lemma GeneratorDenotesSubstitution(world: World, owner: ObjectId, parent: Generator, args: seq<Type>, inst: TemplateInst)
    requires WellFormed(world) && owner in world && |args| == world[owner].arity
    requires InstOk(world, world[owner].arity, inst)
    requires !IsStatic(world, inst) ==> Lands(world, parent, owner, args)
    requires !IsStatic(world, inst) ==> GetUse(owner, world[owner].arity, world[owner].uses, inst).Some?
    requires !IsStatic(world, inst) && TakesEntry(world, owner, inst)
      ==> HighestBit(parent.path) + Width(world, owner) < WORD
    ensures Denotes(world, ComputeTemplateGenerator(world, owner, parent, inst), inst.target, SubstAll(inst.args, args))
  {
    hide WellFormed, Lands, IsRootList, Append, BitsRequired, InstOk, HighestBit, RunRoot;
    if inst.args != [] && !IsInterface(world, inst.target) {
      GeneratorSubstitutes(world, owner, parent, args, inst);
      LandsDenotes(world, ComputeTemplateGenerator(world, owner, parent, inst), inst.target, SubstAll(inst.args, args));
    }
  }

  // ----- Chains of calls -----

  /** Every instantiation is a use made inside the target of the one before it. */
  ghost predicate IsChain(world: World, chain: seq<TemplateInst>) {
    && |chain| > 0
    && (forall k :: 0 <= k < |chain| ==>
      && chain[k].target in world && chain[k].args != [] && !IsInterface(world, chain[k].target))
    && InstOk(world, 0, chain[0])
    && forall k :: 0 < k < |chain| ==> IsCall(world, chain[k - 1].target, chain[k])
  }

  ghost predicate IsCall(world: World, owner: ObjectId, inst: TemplateInst)
    requires owner in world
  {
    && InstOk(world, world[owner].arity, inst)
    && (!IsStatic(world, inst) ==> GetUse(owner, world[owner].arity, world[owner].uses, inst).Some?)
  }

  /** The generator handed along the chain. */
  function ChainGenerator(world: World, chain: seq<TemplateInst>): Generator
    requires |chain| > 0 && forall k :: 0 <= k < |chain| ==> chain[k].target in world
  {
    if |chain| == 1 then Generator(chain[0], 1)
    else
      var n := |chain| - 1;
      ComputeTemplateGenerator(world, chain[n - 1].target, ChainGenerator(world, chain[..n]), chain[n])
  }

  /** The ground arguments at the end of the chain, by substitution alone. */
  function ChainArgs(chain: seq<TemplateInst>): seq<Type>
    requires |chain| > 0
  {
    if |chain| == 1 then SubstAll(chain[0].args, [])
    else SubstAll(chain[|chain| - 1].args, ChainArgs(chain[..|chain| - 1]))
  }

  /** The path bits in use at the end of the chain: statically known arguments start afresh, the self use is free. */
  ghost function ChainWidth(world: World, chain: seq<TemplateInst>): nat
    requires |chain| > 0 && forall k :: 0 <= k < |chain| ==> chain[k].target in world
  {
    if |chain| == 1 then 0
    else
      var n := |chain| - 1;
      var own := if TakesEntry(world, chain[n - 1].target, chain[n]) then Width(world, chain[n - 1].target) else 0;
      if IsStatic(world, chain[n]) then 0 else ChainWidth(world, chain[..n]) + own
  }

  lemma ChainPrefix(world: World, chain: seq<TemplateInst>)
    requires IsChain(world, chain) && |chain| > 1
    ensures IsChain(world, chain[..|chain| - 1])
    ensures IsCall(world, chain[|chain| - 2].target, chain[|chain| - 1])
  {
    hide IsCall, InstOk, IsRootList, IsInterface;
  }

  lemma ChainArity(world: World, chain: seq<TemplateInst>)
    requires WellFormed(world) && IsChain(world, chain)
    ensures |ChainArgs(chain)| == world[chain[|chain| - 1].target].arity
  {
    hide WellFormed, IsStatic, GetUse, IsRootList;
    var n := |chain| - 1;
    if n == 0 {
      RootArity(world, 0, chain[0]);
    } else {
      ChainPrefix(world, chain);
      RootArity(world, world[chain[n - 1].target].arity, chain[n]);
    }
  }

  /**
   Along any chain of templated calls whose path, with its leading 1, fits 64 bits at every step, the
   generator passed to the last object leads to it with the arguments that substitution gives.
   */
  lemma {:induction false} ChainSubstitutes(world: World, chain: seq<TemplateInst>)
    requires WellFormed(world) && IsChain(world, chain)
    requires forall k :: 0 < k <= |chain| ==> 1 + ChainWidth(world, chain[..k]) <= WORD
    ensures Lands(world, ChainGenerator(world, chain), chain[|chain| - 1].target, ChainArgs(chain))
    ensures StartPosition(ChainGenerator(world, chain).path) == ChainWidth(world, chain)
    decreases |chain|
  {
    hide WellFormed, IsCall, InstOk, IsRootList, Lands, Append, HighestBit, Width, BitsRequired, IsInterface;
    hide StartPosition;
    var n := |chain| - 1;
    if n == 0 {
      FirstInChain(world, chain);
    } else {
      ChainPrefix(world, chain);
      var before := chain[..n];
      assert forall k :: 0 < k <= |before| ==> before[..k] == chain[..k];
      assert chain[..|chain|] == chain;
      ChainSubstitutes(world, before);
      ChainArity(world, before);
      ChainStep(world, before, chain);
    }
  }

  lemma FirstInChain(world: World, chain: seq<TemplateInst>)
    requires WellFormed(world) && IsChain(world, chain) && |chain| == 1
    ensures Lands(world, ChainGenerator(world, chain), chain[0].target, ChainArgs(chain))
    ensures StartPosition(ChainGenerator(world, chain).path) == 0
  {
    hide WellFormed, Lands;
    forall i | 0 <= i < |chain[0].args| ensures IsRootType(world, chain[0].args[i]) {
      GroundIsRoot(world, chain[0].args[i]);
    }
    RootLands(world, 0, chain[0], []);
    assert HighestBit(1) == 0;
  }

  lemma ChainStep(world: World, before: seq<TemplateInst>, chain: seq<TemplateInst>)
    requires WellFormed(world) && IsChain(world, chain) && |chain| > 1 && before == chain[..|chain| - 1]
    requires 1 + ChainWidth(world, chain) <= WORD
    requires |ChainArgs(before)| == world[chain[|chain| - 2].target].arity
    requires Lands(world, ChainGenerator(world, before), chain[|chain| - 2].target, ChainArgs(before))
    requires StartPosition(ChainGenerator(world, before).path) == ChainWidth(world, before)
    ensures Lands(world, ChainGenerator(world, chain), chain[|chain| - 1].target, ChainArgs(chain))
    ensures StartPosition(ChainGenerator(world, chain).path) == ChainWidth(world, chain)
  {
    hide WellFormed, InstOk, IsRootList, Lands, Append, HighestBit, BitsRequired, IsInterface;
    ChainPrefix(world, chain);
    var n := |chain| - 1;
    var owner, inst, parent := chain[n - 1].target, chain[n], ChainGenerator(world, before);
    GeneratorSubstitutes(world, owner, parent, ChainArgs(before), inst);
    if IsRootList(world, inst.args) {
      assert HighestBit(1) == 0 by { HighestBitUnique(1, 0); }
    } else if inst in world[owner].uses {
      LandsIsGenerator(world, parent, owner, ChainArgs(before));
      UseInWorld(world, owner, inst);
      IdsFit(|world[owner].uses|, world[owner].uses[inst]);
      AppendExact(parent.path, Width(world, owner), world[owner].uses[inst]);
    }
  }
}

/**
 Which arguments are statically known, in terms of substitution, and what that gives for uses without
 variables: their generators need nothing from the object they are used in.
 */
module TemplateGround {
  import opened TemplateUses
  import opened TemplateGenerator

  /** What code generation looks at: everything but the arguments of interfaces. */
  function Visible(world: World, t: Type): Type {
    match t
    case Var(_) => t
    case Object(target, args) => Object(target, if IsInterface(world, target) then [] else VisibleAll(world, args))
  }

  function VisibleAll(world: World, types: seq<Type>): (r: seq<Type>)
    ensures |r| == |types|
    ensures forall i :: 0 <= i < |types| ==> r[i] == Visible(world, types[i])
  {
    if types == [] then [] else [Visible(world, types[0])] + VisibleAll(world, types[1..])
  }

  /** No arguments for the variables change what code generation looks at. */
  ghost predicate IsFixed(world: World, arity: nat, t: Type) {
    forall args | |args| == arity :: Visible(world, Subst(t, args)) == Visible(world, t)
  }

  lemma {:induction false} RootIsFixed(world: World, t: Type, args: seq<Type>)
    requires IsRootType(world, t)
    ensures Visible(world, Subst(t, args)) == Visible(world, t)
    decreases t
  {
    if !IsInterface(world, t.target) {
      forall i | 0 <= i < |t.args|
        ensures Visible(world, Subst(t.args[i], args)) == Visible(world, t.args[i])
      {
        RootIsFixed(world, t.args[i], args);
      }
      assert VisibleAll(world, SubstAll(t.args, args)) == VisibleAll(world, t.args);
    }
  }

  lemma {:induction false} OtherIsNotFixed(world: World, arity: nat, t: Type, args: seq<Type>)
    requires TypeOk(world, arity, t) && !IsRootType(world, t)
    requires |args| == arity && forall i :: 0 <= i < |args| ==> args[i].Object?
    ensures Visible(world, Subst(t, args)) != Visible(world, t)
    decreases t
  {
    if t.Object? {
      var i :| 0 <= i < |t.args| && !IsRootType(world, t.args[i]);
      OtherIsNotFixed(world, arity, t.args[i], args);
      assert VisibleAll(world, SubstAll(t.args, args))[i] != VisibleAll(world, t.args)[i];
    }
  }

  /** A type is statically known exactly if what code generation looks at does not depend on the variables. */
  lemma RootExactlyWhenFixed(world: World, arity: nat, t: Type)
    requires TypeOk(world, arity, t)
    ensures IsRootType(world, t) <==> IsFixed(world, arity, t)
  {
    if IsRootType(world, t) {
      forall args | |args| == arity ensures Visible(world, Subst(t, args)) == Visible(world, t) {
        RootIsFixed(world, t, args);
      }
    } else {
      OtherIsNotFixed(world, arity, t, seq(arity, _ => Object(0, [])));
    }
  }

  lemma {:induction false} GroundSubst(world: World, t: Type, args: seq<Type>)
    requires TypeOk(world, 0, t)
    ensures Subst(t, args) == t
    decreases t
  {
    forall i | 0 <= i < |t.args| ensures Subst(t.args[i], args) == t.args[i] {
      GroundSubst(world, t.args[i], args);
    }
    assert SubstAll(t.args, args) == t.args;
  }

  /**
   A use without variables gets all its type information, wherever it is made: nothing is asked of the
   owner's generator, nor of the uses it has recorded.
   */
  lemma GroundUseLands(world: World, owner: ObjectId, parent: Generator, inst: TemplateInst)
    requires WellFormed(world) && owner in world && InstOk(world, 0, inst)
    requires inst.args != [] && !IsInterface(world, inst.target)
    ensures Lands(world, ComputeTemplateGenerator(world, owner, parent, inst), inst.target, inst.args)
  {
    hide WellFormed, Lands, Subst;
    var t := Object(inst.target, inst.args);
    forall i | 0 <= i < |inst.args|
      ensures IsRootType(world, inst.args[i]) && Subst(inst.args[i], []) == inst.args[i]
    {
      GroundIsRoot(world, inst.args[i]);
      GroundSubst(world, inst.args[i], []);
    }
    assert SubstAll(inst.args, []) == inst.args;
    RootLands(world, 0, inst, []);
  }

  /** Types without arguments and interfaces have no generator. */
  lemma NothingToGenerate(world: World, owner: ObjectId, parent: Generator, inst: TemplateInst)
    requires owner in world && (inst.args == [] || IsInterface(world, inst.target))
    ensures ComputeTemplateGenerator(world, owner, parent, inst) == Null
    ensures RootInfo(world, Object(inst.target, inst.args)) == TypeInfo(inst.target, Null)
  {}
}

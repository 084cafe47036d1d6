/**
 What predicates say about types: for any domain of types, any meaning of objects and of satisfaction, and
 any values of the variables. Substitution and dependence are described without looking at how they are done.
 */
module PredicateMeaning {
  import opened Predicate

  /** What objects make of their arguments, and which types satisfy which requirements. */
  datatype Interpretation<!D> = Interpretation(make: (nat, seq<D>) -> D, satisfies: (D, D) -> bool)

  /** What the variables stand for, and whether the reference to the object itself is const. */
  datatype Environment<!D> = Environment(types: TemplateVar -> D, predicates: TemplateVar -> bool, selfconst: bool)

  function TypeMeaning<D>(t: Type, i: Interpretation<D>, env: Environment<D>): D {
    match t
    case VarType(v) => env.types(v)
    case Object(name, args) =>
      i.make(name, seq(|args|, k requires 0 <= k < |args| => TypeMeaning(args[k], i, env)))
  }

  predicate Holds<D>(p: Predicate, i: Interpretation<D>, env: Environment<D>) {
    match p
    case True => true
    case False => false
    case SelfConst => env.selfconst
    case And(l, r) => Holds(l, i, env) && Holds(r, i, env)
    case Or(l, r) => Holds(l, i, env) || Holds(r, i, env)
    case Satisfies(t, r) => i.satisfies(TypeMeaning(t, i, env), TypeMeaning(r, i, env))
    case Variable(v) => env.predicates(v)
  }

  // ----- Models -----

  /** The atoms that hold. */
  ghost function ModelOf<D(!new)>(i: Interpretation<D>, env: Environment<D>): Model {
    iset p | IsAtom(p) && Holds(p, i, env)
  }

  /** Truth in the model of an environment is truth in the environment. */
  lemma {:induction false} EvalIsHolds<D(!new)>(p: Predicate, i: Interpretation<D>, env: Environment<D>)
    ensures Eval(p, ModelOf(i, env)) <==> Holds(p, i, env)
  {
    if p.And? || p.Or? {
      EvalIsHolds(p.left, i, env);
      EvalIsHolds(p.right, i, env);
    }
  }

  // ----- Substitution -----

  /** The environment in which the assigned variables stand for what their values mean. */
  function Assigned<D>(env: Environment<D>, i: Interpretation<D>, assignments: TemplateVarMap,
          selfconst: Predicate): Environment<D> {
    Environment(
      (v: TemplateVar) => if v in assignments && assignments[v].TypeValue? then TypeMeaning(assignments[v].typeRef, i, env) else env.types(v),
      (v: TemplateVar) => if v in assignments && assignments[v].PredicateValue? then Holds(assignments[v].predicateValue, i, env)
           else env.predicates(v),
      Holds(selfconst, i, env))
  }

  lemma {:induction false} SubstituteTypeMeans<D>(t: Type, i: Interpretation<D>, env: Environment<D>, assignments: TemplateVarMap,
                                                  selfconst: Predicate)
    requires TypeMatches(t, assignments)
    ensures TypeMeaning(SubstituteType(t, assignments), i, env) == TypeMeaning(t, i, Assigned(env, i, assignments, selfconst))
  {
    if t.Object? {
      var env' := Assigned(env, i, assignments, selfconst);
      var args, args' := t.arguments, SubstituteType(t, assignments).arguments;
      forall k | 0 <= k < |args|
        ensures TypeMeaning(args'[k], i, env) == TypeMeaning(args[k], i, env')
      {
        SubstituteTypeMeans(args[k], i, env, assignments, selfconst);
      }
      assert seq(|args'|, k requires 0 <= k < |args'| => TypeMeaning(args'[k], i, env))
        == seq(|args|, k requires 0 <= k < |args| => TypeMeaning(args[k], i, env'));
    }
  }

  lemma CopyHolds<D(!new)>(p: Predicate, i: Interpretation<D>, env: Environment<D>)
    ensures Holds(Copy(p), i, env) <==> Holds(p, i, env)
  {
    EvalIsHolds(p, i, env);
    EvalIsHolds(Copy(p), i, env);
    CopyKeepsMeaning(p, ModelOf(i, env));
  }

  /** A substituted predicate says what the original says with each variable standing for its value. */
  lemma {:induction false} SubstituteMeans<D(!new)>(p: Predicate, i: Interpretation<D>, env: Environment<D>,
                                                    assignments: TemplateVarMap, selfconst: Predicate)
    requires Matches(p, assignments)
    ensures Holds(Substitute(p, assignments, selfconst), i, env) <==> Holds(p, i, Assigned(env, i, assignments, selfconst))
  {
    match p
    case SelfConst => CopyHolds(selfconst, i, env);
    case Satisfies(t, r) =>
      SubstituteTypeMeans(t, i, env, assignments, selfconst);
      SubstituteTypeMeans(r, i, env, assignments, selfconst);
    case Variable(v) =>
      if v in assignments {
        CopyHolds(assignments[v].predicateValue, i, env);
      }
    case And(l, r) =>
      SubstituteMeans(l, i, env, assignments, selfconst);
      SubstituteMeans(r, i, env, assignments, selfconst);
      MakeHolds(Substitute(l, assignments, selfconst), Substitute(r, assignments, selfconst), i, env);
    case Or(l, r) =>
      SubstituteMeans(l, i, env, assignments, selfconst);
      SubstituteMeans(r, i, env, assignments, selfconst);
      MakeHolds(Substitute(l, assignments, selfconst), Substitute(r, assignments, selfconst), i, env);
    case _ =>
  }

  lemma MakeHolds<D(!new)>(l: Predicate, r: Predicate, i: Interpretation<D>, env: Environment<D>)
    ensures Holds(MakeAnd(l, r), i, env) <==> Holds(l, i, env) && Holds(r, i, env)
    ensures Holds(MakeOr(l, r), i, env) <==> Holds(l, i, env) || Holds(r, i, env)
  {
    var m := ModelOf(i, env);
    MakeAndMeansAnd(l, r, m);
    MakeOrMeansOr(l, r, m);
    EvalIsHolds(l, i, env);
    EvalIsHolds(r, i, env);
    EvalIsHolds(MakeAnd(l, r), i, env);
    EvalIsHolds(MakeOr(l, r), i, env);
  }

  // ----- Dependence -----

  ghost predicate AgreeOn<D(!new)>(e1: Environment<D>, e2: Environment<D>, vars: seq<TemplateVar>) {
    && (forall v <- vars :: e1.types(v) == e2.types(v) && e1.predicates(v) == e2.predicates(v))
    && e1.selfconst == e2.selfconst
  }

  lemma {:induction false} TypeDependence<D(!new)>(t: Type, vars: seq<TemplateVar>, i: Interpretation<D>,
          e1: Environment<D>, e2: Environment<D>)
    requires TypeDependsOnOnly(t, vars) && AgreeOn(e1, e2, vars)
    ensures TypeMeaning(t, i, e1) == TypeMeaning(t, i, e2)
  {
    if t.Object? {
      var args := t.arguments;
      forall k | 0 <= k < |args| ensures TypeMeaning(args[k], i, e1) == TypeMeaning(args[k], i, e2) {
        TypeDependence(args[k], vars, i, e1, e2);
      }
      assert seq(|args|, k requires 0 <= k < |args| => TypeMeaning(args[k], i, e1))
        == seq(|args|, k requires 0 <= k < |args| => TypeMeaning(args[k], i, e2));
    }
  }

  /** A predicate that depends on the given variables only has the same truth wherever they have the same values. */
  lemma {:induction false} Dependence<D(!new)>(p: Predicate, vars: seq<TemplateVar>, i: Interpretation<D>,
          e1: Environment<D>, e2: Environment<D>)
    requires DependsOnOnly(p, vars) && AgreeOn(e1, e2, vars)
    ensures Holds(p, i, e1) <==> Holds(p, i, e2)
  {
    match p
    case And(l, r) =>
      Dependence(l, vars, i, e1, e2);
      Dependence(r, vars, i, e1, e2);
    case Or(l, r) =>
      Dependence(l, vars, i, e1, e2);
      Dependence(r, vars, i, e1, e2);
    case Satisfies(t, r) =>
      TypeDependence(t, vars, i, e1, e2);
      TypeDependence(r, vars, i, e1, e2);
    case _ =>
  }

  /** Types as they are written, each satisfying just the one requirement. */
  ghost function Written(t: Type, r: Type): Interpretation<Type> {
    Interpretation((name, args) => Object(name, args), (x, y) => x == t && y == r)
  }

  /** Variables standing for themselves, those not given for something else or for the contrary. */
  function Standing(vars: seq<TemplateVar>, given: bool): Environment<Type> {
    Environment((v: TemplateVar) => if v in vars || given then VarType(v) else Object(v, []), (v: TemplateVar) => v in vars || given, true)
  }

  lemma {:induction false} StandsForItself(t: Type, i: Interpretation<Type>, vars: seq<TemplateVar>)
    requires forall name, args :: i.make(name, args) == Object(name, args)
    ensures TypeMeaning(t, i, Standing(vars, true)) == t
    ensures TypeMeaning(t, i, Standing(vars, false)) == t ==> TypeDependsOnOnly(t, vars)
  {
    if t.Object? {
      var args := t.arguments;
      var e1, e2 := Standing(vars, true), Standing(vars, false);
      forall k | 0 <= k < |args|
        ensures TypeMeaning(args[k], i, e1) == args[k]
        ensures TypeMeaning(args[k], i, e2) == args[k] ==> TypeDependsOnOnly(args[k], vars)
      {
        StandsForItself(args[k], i, vars);
      }
      assert seq(|args|, k requires 0 <= k < |args| => TypeMeaning(args[k], i, e1)) == args;
      var args' := seq(|args|, k requires 0 <= k < |args| => TypeMeaning(args[k], i, e2));
      if args' == args {
        forall k | 0 <= k < |args| ensures TypeDependsOnOnly(args[k], vars) {
          assert args'[k] == args[k];
        }
      }
    }
  }

  /** An atom depends on the given variables only exactly if nothing else can change its truth. */
  lemma DependsExactly(p: Predicate, vars: seq<TemplateVar>)
    requires IsAtom(p)
    ensures DependsOnOnly(p, vars) <==>
      forall i: Interpretation<Type>, e1, e2 | AgreeOn(e1, e2, vars) :: Holds(p, i, e1) == Holds(p, i, e2)
  {
    if DependsOnOnly(p, vars) {
      forall i: Interpretation<Type>, e1, e2 | AgreeOn(e1, e2, vars) ensures Holds(p, i, e1) == Holds(p, i, e2) {
        Dependence(p, vars, i, e1, e2);
      }
    } else {
      var t, r := if p.Satisfies? then p.checkType else VarType(0), if p.Satisfies? then p.requirement else VarType(0);
      var i := Written(t, r);
      var e1, e2 := Standing(vars, true), Standing(vars, false);
      assert AgreeOn(e1, e2, vars);
      StandsForItself(t, i, vars);
      StandsForItself(r, i, vars);
      assert Holds(p, i, e1) != Holds(p, i, e2);
      assert exists i: Interpretation<Type>, e1, e2 :: AgreeOn(e1, e2, vars) && Holds(p, i, e1) != Holds(p, i, e2);
    }
  }
}

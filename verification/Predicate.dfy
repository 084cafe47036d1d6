/**
 Compile-time predicates: the conditions under which a function is noexcept, a method is
 available or a reference is const.
 */
module Predicate {

  type TemplateVar = nat

  /** Types as far as predicates look at them: a template variable, or an object and its arguments. */
  datatype Type = VarType(templateVar: TemplateVar) | Object(name: nat, arguments: seq<Type>)

  datatype Predicate =
    | True
    | False
    | SelfConst
    | And(left: Predicate, right: Predicate)
    | Or(left: Predicate, right: Predicate)
    | Satisfies(checkType: Type, requirement: Type)
    | Variable(templateVar: TemplateVar)

  // ----- The simplifying constructors -----

  function MakeAnd(left: Predicate, right: Predicate): Predicate {
    if left.False? || right.False? then False
    else if left.True? then right
    else if right.True? then left
    else if left == right then left
    else if left.And? && (left.left == right || left.right == right) then left
    else if right.And? && (right.left == left || right.right == left) then right
    else And(left, right)
  }

  function MakeOr(left: Predicate, right: Predicate): Predicate {
    if left.True? || right.True? then True
    else if left.False? then right
    else if right.False? then left
    else if left == right then left
    else if left.Or? && (left.left == right || left.right == right) then left
    else if right.Or? && (right.left == left || right.right == left) then right
    else Or(left, right)
  }

  function FromBool(b: bool): Predicate {
    if b then True else False
  }

  function Copy(p: Predicate): Predicate {
    match p
    case And(l, r) => MakeAnd(Copy(l), Copy(r))
    case Or(l, r) => MakeOr(Copy(l), Copy(r))
    case _ => p
  }

  // ----- Meaning -----

  /** A model is the set of atoms that hold in it. */
  type Model = iset<Predicate>

  ghost predicate Eval(p: Predicate, m: Model) {
    match p
    case True => true
    case False => false
    case And(l, r) => Eval(l, m) && Eval(r, m)
    case Or(l, r) => Eval(l, m) || Eval(r, m)
    case SelfConst => p in m
    case Satisfies(_, _) => p in m
    case Variable(_) => p in m
  }

  predicate IsAtom(p: Predicate) {
    p.SelfConst? || p.Satisfies? || p.Variable?
  }

  /** The atoms of one model are atoms of the other. */
  ghost predicate Below(m: Model, more: Model) {
    forall a :: IsAtom(a) && a in m ==> a in more
  }

  /** There is no negation: more atoms make more predicates hold. */
  lemma {:induction false} EvalMonotone(p: Predicate, m: Model, more: Model)
    requires Below(m, more) && Eval(p, m)
    ensures Eval(p, more)
  {
    if p.And? || p.Or? {
      if Eval(p.left, m) {
        EvalMonotone(p.left, m, more);
      }
      if Eval(p.right, m) {
        EvalMonotone(p.right, m, more);
      }
    }
  }

  lemma MakeAndMeansAnd(left: Predicate, right: Predicate, m: Model)
    ensures Eval(MakeAnd(left, right), m) <==> Eval(left, m) && Eval(right, m)
  {}

  lemma MakeOrMeansOr(left: Predicate, right: Predicate, m: Model)
    ensures Eval(MakeOr(left, right), m) <==> Eval(left, m) || Eval(right, m)
  {}

  /** The predicates that the constructors can build. */
  predicate Built(p: Predicate) {
    match p
    case And(l, r) => Built(l) && Built(r) && MakeAnd(l, r) == p
    case Or(l, r) => Built(l) && Built(r) && MakeOr(l, r) == p
    case _ => true
  }

  lemma MakeIsBuilt(left: Predicate, right: Predicate)
    requires Built(left) && Built(right)
    ensures Built(MakeAnd(left, right)) && Built(MakeOr(left, right))
  {}

  predicate IsConstant(p: Predicate) {
    p.True? || p.False?
  }

  /** No constant and no immediate repetition is left inside. */
  predicate Simplified(p: Predicate) {
    match p
    case And(l, r) =>
      && Simplified(l) && Simplified(r) && !IsConstant(l) && !IsConstant(r) && l != r
      && !(l.And? && (r == l.left || r == l.right)) && !(r.And? && (l == r.left || l == r.right))
    case Or(l, r) =>
      && Simplified(l) && Simplified(r) && !IsConstant(l) && !IsConstant(r) && l != r
      && !(l.Or? && (r == l.left || r == l.right)) && !(r.Or? && (l == r.left || l == r.right))
    case _ => true
  }

  /** The constructors build exactly the simplified predicates. */
  lemma {:induction false} BuiltIsSimplified(p: Predicate)
    ensures Built(p) <==> Simplified(p)
  {
    if p.And? || p.Or? {
      BuiltIsSimplified(p.left);
      BuiltIsSimplified(p.right);
    }
  }

  /** Copying rebuilds a predicate; it is the identity on exactly what the constructors can build. */
  lemma {:induction false} CopyIsIdentityOnBuilt(p: Predicate)
    ensures Built(Copy(p))
    ensures Copy(p) == p <==> Built(p)
  {
    if p.And? || p.Or? {
      CopyIsIdentityOnBuilt(p.left);
      CopyIsIdentityOnBuilt(p.right);
      MakeIsBuilt(Copy(p.left), Copy(p.right));
    }
  }

  lemma {:induction false} CopyKeepsMeaning(p: Predicate, m: Model)
    ensures Eval(Copy(p), m) <==> Eval(p, m)
  {
    if p.And? || p.Or? {
      CopyKeepsMeaning(p.left, m);
      CopyKeepsMeaning(p.right, m);
      MakeAndMeansAnd(Copy(p.left), Copy(p.right), m);
      MakeOrMeansOr(Copy(p.left), Copy(p.right), m);
    }
  }

  // ----- Substitution -----

  datatype TemplateValue = TypeValue(typeRef: Type) | PredicateValue(predicateValue: Predicate)

  type TemplateVarMap = map<TemplateVar, TemplateValue>

  /** The variables of a type stand for types. */
  predicate TypeMatches(t: Type, assignments: TemplateVarMap) {
    match t
    case VarType(v) => v in assignments ==> assignments[v].TypeValue?
    case Object(_, args) => forall i :: 0 <= i < |args| ==> TypeMatches(args[i], assignments)
  }

  function SubstituteType(t: Type, assignments: TemplateVarMap): Type
    requires TypeMatches(t, assignments)
  {
    match t
    case VarType(v) => if v in assignments then assignments[v].typeRef else t
    case Object(name, args) =>
      Object(name, seq(|args|, i requires 0 <= i < |args| => SubstituteType(args[i], assignments)))
  }

  /** The variables of a predicate stand for predicates, and those of its types for types. */
  predicate Matches(p: Predicate, assignments: TemplateVarMap) {
    match p
    case And(l, r) => Matches(l, assignments) && Matches(r, assignments)
    case Or(l, r) => Matches(l, assignments) && Matches(r, assignments)
    case Satisfies(t, r) => TypeMatches(t, assignments) && TypeMatches(r, assignments)
    case Variable(v) => v in assignments ==> assignments[v].PredicateValue?
    case _ => true
  }

  function Substitute(p: Predicate, assignments: TemplateVarMap, selfconst: Predicate): Predicate
    requires Matches(p, assignments)
  {
    match p
    case SelfConst => Copy(selfconst)
    case And(l, r) => MakeAnd(Substitute(l, assignments, selfconst), Substitute(r, assignments, selfconst))
    case Or(l, r) => MakeOr(Substitute(l, assignments, selfconst), Substitute(r, assignments, selfconst))
    case Satisfies(t, r) => Satisfies(SubstituteType(t, assignments), SubstituteType(r, assignments))
    case Variable(v) => if v in assignments then Copy(assignments[v].predicateValue) else p
    case _ => p
  }

  /** The model in which each atom means what its substitute means in `m`. */
  ghost function Pulled(m: Model, assignments: TemplateVarMap, selfconst: Predicate): Model {
    iset p | IsAtom(p) && Matches(p, assignments) && Eval(Substitute(p, assignments, selfconst), m)
  }

  /** Substituting and then evaluating is evaluating under the substituted meanings. */
  lemma {:induction false} SubstituteCommutes(p: Predicate, assignments: TemplateVarMap, selfconst: Predicate, m: Model)
    requires Matches(p, assignments)
    ensures Eval(Substitute(p, assignments, selfconst), m) <==> Eval(p, Pulled(m, assignments, selfconst))
  {
    if p.And? || p.Or? {
      SubstituteCommutes(p.left, assignments, selfconst, m);
      SubstituteCommutes(p.right, assignments, selfconst, m);
      var l, r := Substitute(p.left, assignments, selfconst), Substitute(p.right, assignments, selfconst);
      MakeAndMeansAnd(l, r, m);
      MakeOrMeansOr(l, r, m);
    }
  }

  // ----- Dependencies -----

  predicate TypeDependsOnOnly(t: Type, vars: seq<TemplateVar>) {
    match t
    case VarType(v) => v in vars
    case Object(_, args) => forall i :: 0 <= i < |args| ==> TypeDependsOnOnly(args[i], vars)
  }

  predicate DependsOnOnly(p: Predicate, vars: seq<TemplateVar>) {
    match p
    case And(l, r) => DependsOnOnly(l, vars) && DependsOnOnly(r, vars)
    case Or(l, r) => DependsOnOnly(l, vars) && DependsOnOnly(r, vars)
    case Satisfies(t, r) => TypeDependsOnOnly(t, vars) && TypeDependsOnOnly(r, vars)
    case Variable(v) => v in vars
    case _ => true
  }

  function ReduceToDependencies(p: Predicate, vars: seq<TemplateVar>, conservativeDefault: bool): Predicate {
    match p
    case And(l, r) => MakeAnd(ReduceToDependencies(l, vars, conservativeDefault), ReduceToDependencies(r, vars, conservativeDefault))
    case Or(l, r) => MakeOr(ReduceToDependencies(l, vars, conservativeDefault), ReduceToDependencies(r, vars, conservativeDefault))
    case Satisfies(t, r) =>
      if TypeDependsOnOnly(t, vars) && TypeDependsOnOnly(r, vars) then Copy(p) else FromBool(conservativeDefault)
    case Variable(v) => if v in vars then Copy(p) else FromBool(conservativeDefault)
    case _ => Copy(p)
  }

  /**
   The reduced predicate is over the given variables only; it is implied by the original when the
   default is true, implies it when the default is false, and is the original when that already
   depends on nothing else.
   */
  lemma {:induction false} ReduceIsConservative(p: Predicate, vars: seq<TemplateVar>, conservativeDefault: bool, m: Model)
    ensures var reduced := ReduceToDependencies(p, vars, conservativeDefault);
      && DependsOnOnly(reduced, vars)
      && (conservativeDefault ==> Eval(p, m) ==> Eval(reduced, m))
      && (!conservativeDefault ==> Eval(reduced, m) ==> Eval(p, m))
      && (DependsOnOnly(p, vars) ==> reduced == Copy(p))
  {
    if p.And? || p.Or? {
      ReduceIsConservative(p.left, vars, conservativeDefault, m);
      ReduceIsConservative(p.right, vars, conservativeDefault, m);
      var l, r := ReduceToDependencies(p.left, vars, conservativeDefault), ReduceToDependencies(p.right, vars, conservativeDefault);
      MakeAndMeansAnd(l, r, m);
      MakeOrMeansOr(l, r, m);
    }
  }

  /** The model with the atoms over the given variables as they are, and all others set to the default. */
  ghost function Filled(m: Model, vars: seq<TemplateVar>, conservativeDefault: bool): Model {
    iset a | IsAtom(a) && if DependsOnOnly(a, vars) then a in m else conservativeDefault
  }

  lemma {:induction false} ReducedIsFilled(p: Predicate, vars: seq<TemplateVar>, conservativeDefault: bool, m: Model)
    ensures Eval(ReduceToDependencies(p, vars, conservativeDefault), m) <==> Eval(p, Filled(m, vars, conservativeDefault))
  {
    if p.And? || p.Or? {
      ReducedIsFilled(p.left, vars, conservativeDefault, m);
      ReducedIsFilled(p.right, vars, conservativeDefault, m);
      var l, r := ReduceToDependencies(p.left, vars, conservativeDefault), ReduceToDependencies(p.right, vars, conservativeDefault);
      MakeAndMeansAnd(l, r, m);
      MakeOrMeansOr(l, r, m);
    }
  }

  /** The models agree on the atoms over the given variables. */
  ghost predicate Agree(m: Model, other: Model, vars: seq<TemplateVar>) {
    forall a :: IsAtom(a) && DependsOnOnly(a, vars) ==> (a in m <==> a in other)
  }

  /**
   Nothing is lost beyond what must be: with the default true the reduced predicate holds exactly where some
   choice for the other atoms makes the original hold, with the default false where every choice does.
   */
  lemma ReduceIsExact(p: Predicate, vars: seq<TemplateVar>, m: Model)
    ensures Eval(ReduceToDependencies(p, vars, true), m) <==> exists other :: Agree(m, other, vars) && Eval(p, other)
    ensures Eval(ReduceToDependencies(p, vars, false), m) <==> forall other :: Agree(m, other, vars) ==> Eval(p, other)
  {
    var most, least := Filled(m, vars, true), Filled(m, vars, false);
    ReducedIsFilled(p, vars, true, m);
    ReducedIsFilled(p, vars, false, m);
    assert Agree(m, most, vars) && Agree(m, least, vars);
    forall other | Agree(m, other, vars)
      ensures Eval(p, least) ==> Eval(p, other)
      ensures Eval(p, other) ==> Eval(p, most)
    {
      if Eval(p, least) {
        EvalMonotone(p, least, other);
      }
      if Eval(p, other) {
        EvalMonotone(p, other, most);
      }
    }
  }

  // ----- Implication -----

  function Size(p: Predicate): nat {
    match p
    case And(l, r) => 1 + Size(l) + Size(r)
    case Or(l, r) => 1 + Size(l) + Size(r)
    case _ => 1
  }

  predicate SameKind(p: Predicate, other: Predicate) {
    match p
    case True => other.True?
    case False => other.False?
    case SelfConst => other.SelfConst?
    case And(_, _) => other.And?
    case Or(_, _) => other.Or?
    case Satisfies(_, _) => other.Satisfies?
    case Variable(_) => other.Variable?
  }

  /** The prover.  Its unreachable default is unreachable: only atoms get as far as the last match. */
  predicate Implies(p: Predicate, other: Predicate)
    decreases Size(p) + Size(other)
  {
    if p.False? || other.True? then true
    else if p.Or? then Implies(p.left, other) && Implies(p.right, other)
    else if other.And? then Implies(p, other.left) && Implies(p, other.right)
    else if p.And? then Implies(p.left, other) || Implies(p.right, other)
    else if other.Or? then Implies(p, other.left) || Implies(p, other.right)
    else if !SameKind(p, other) then false
    else
      match p
      case SelfConst => true
      case Satisfies(t, r) => t == other.checkType && r == other.requirement
      case Variable(v) => v == other.templateVar
      case _ => assert false; false
  }

  /** What the prover claims holds in every model. */
  lemma {:induction false} ImpliesIsSound(p: Predicate, other: Predicate, m: Model)
    requires Implies(p, other) && Eval(p, m)
    ensures Eval(other, m)
    decreases Size(p) + Size(other)
  {
    if !(p.False? || other.True?) {
      if p.Or? {
        ImpliesIsSound(if Eval(p.left, m) then p.left else p.right, other, m);
      } else if other.And? {
        ImpliesIsSound(p, other.left, m);
        ImpliesIsSound(p, other.right, m);
      } else if p.And? {
        ImpliesIsSound(if Implies(p.left, other) then p.left else p.right, other, m);
      } else if other.Or? {
        ImpliesIsSound(p, if Implies(p, other.left) then other.left else other.right, m);
      }
    }
  }

  ghost predicate Entails(p: Predicate, other: Predicate) {
    forall m :: Eval(p, m) ==> Eval(other, m)
  }

  // ----- Exactly what the prover finds -----

  const NO_ATOMS: Model := iset{}

  /** The atoms that, alone, do not make the predicate hold. */
  ghost function AloneNot(other: Predicate): Model {
    iset a | IsAtom(a) && !Eval(other, iset{a})
  }

  /**
   What the prover finds, in terms of models: for every conjunct of the right side, the left side does
   not hold in the model of all atoms that alone are not enough for the conjunct.
   */
  ghost predicate Proves(p: Predicate, other: Predicate) {
    if other.And? then Proves(p, other.left) && Proves(p, other.right)
    else Eval(other, NO_ATOMS) || !Eval(p, AloneNot(other))
  }

  predicate IsLeaf(p: Predicate) {
    !p.And? && !p.Or?
  }

  /** The least model of a leaf. */
  ghost function Least(p: Predicate): Model {
    if IsAtom(p) then iset{p} else NO_ATOMS
  }

  lemma {:induction false} LeafProves(p: Predicate, other: Predicate)
    requires IsLeaf(p) && !p.False?
    ensures Proves(p, other) <==> Eval(other, Least(p))
  {
    if other.And? {
      LeafProves(p, other.left);
      LeafProves(p, other.right);
    } else if Eval(other, NO_ATOMS) {
      EvalMonotone(other, NO_ATOMS, Least(p));
    }
  }

  lemma {:induction false} ProvesEither(p: Predicate, q: Predicate, other: Predicate)
    ensures Proves(Or(p, q), other) <==> Proves(p, other) && Proves(q, other)
    ensures !other.And? ==> (Proves(And(p, q), other) <==> Proves(p, other) || Proves(q, other))
    ensures Proves(False, other)
  {
    if other.And? {
      ProvesEither(p, q, other.left);
      ProvesEither(p, q, other.right);
    }
  }

  /** The rules of the prover add up to exactly this. */
  lemma {:induction false} ImpliesIsProves(p: Predicate, other: Predicate)
    ensures Implies(p, other) <==> Proves(p, other)
    decreases Size(p) + Size(other)
  {
    if p.False? {
      ProvesEither(True, True, other);
    } else if other.True? {
    } else if p.Or? {
      ImpliesIsProves(p.left, other);
      ImpliesIsProves(p.right, other);
      ProvesEither(p.left, p.right, other);
    } else if other.And? {
      ImpliesIsProves(p, other.left);
      ImpliesIsProves(p, other.right);
    } else if p.And? {
      ImpliesIsProves(p.left, other);
      ImpliesIsProves(p.right, other);
    } else {
      LeafProves(p, other);
      if other.Or? {
        ImpliesIsProves(p, other.left);
        ImpliesIsProves(p, other.right);
        LeafProves(p, other.left);
        LeafProves(p, other.right);
      }
    }
  }

  lemma {:induction false} ProvesFromEntails(p: Predicate, q: Predicate, other: Predicate)
    requires Entails(p, q) && Proves(q, other)
    ensures Proves(p, other)
  {
    if other.And? {
      ProvesFromEntails(p, q, other.left);
      ProvesFromEntails(p, q, other.right);
    }
  }

  /**
   On the left only the meaning counts: what is proved of a predicate is proved of all that entail it.
   In particular the prover is transitive, and does not depend on how the left side is written.
   */
  lemma ImpliesOfStronger(p: Predicate, q: Predicate, other: Predicate)
    requires Entails(p, q) && Implies(q, other)
    ensures Implies(p, other)
  {
    ImpliesIsProves(q, other);
    ProvesFromEntails(p, q, other);
    ImpliesIsProves(p, other);
  }

  ghost predicate DecidesFor(other: Predicate) {
    forall p :: Implies(p, other) <==> Entails(p, other)
  }

  /** The prover decides entailment of a predicate, by any other, exactly if it finds that it implies itself. */
  lemma DecidesExactlyWhenReflexive(other: Predicate)
    ensures DecidesFor(other) <==> Implies(other, other)
  {
    assert Entails(other, other);
    if Implies(other, other) {
      forall p ensures Implies(p, other) <==> Entails(p, other) {
        if Entails(p, other) {
          ImpliesOfStronger(p, other, other);
        }
        ImpliesEntails(p, other);
      }
    }
  }

  lemma ImpliesEntails(p: Predicate, other: Predicate)
    ensures Implies(p, other) ==> Entails(p, other)
  {
    if Implies(p, other) {
      forall m | Eval(p, m) ensures Eval(other, m) {
        ImpliesIsSound(p, other, m);
      }
    }
  }

  /** Where the prover gives up on such a predicate, a model tells the two apart. */
  lemma Countermodel(p: Predicate, other: Predicate) returns (m: Model)
    requires Implies(other, other) && !Implies(p, other)
    ensures Eval(p, m) && !Eval(other, m)
  {
    ImpliesIsProves(p, other);
    ImpliesIsProves(other, other);
    m := FailingConjunct(p, other, other);
  }

  lemma {:induction false} FailingConjunct(p: Predicate, q: Predicate, other: Predicate) returns (m: Model)
    requires Proves(q, other) && !Proves(p, other)
    ensures Eval(p, m) && !Eval(q, m)
  {
    if other.And? {
      m := FailingConjunct(p, q, if Proves(p, other.left) then other.right else other.left);
    } else {
      m := AloneNot(other);
    }
  }

  // ----- Predicates for which that is so -----

  predicate IsDisjunction(p: Predicate) {
    IsLeaf(p) || (p.Or? && IsDisjunction(p.left) && IsDisjunction(p.right))
  }

  predicate IsConjunctionOfDisjunctions(p: Predicate) {
    IsDisjunction(p) || (p.And? && IsConjunctionOfDisjunctions(p.left) && IsConjunctionOfDisjunctions(p.right))
  }

  /** A disjunction holds where one of its atoms does, or everywhere. */
  lemma {:induction false} DisjunctionFails(p: Predicate, m: Model)
    requires IsDisjunction(p) && !Eval(p, NO_ATOMS)
    requires forall a <- m :: IsAtom(a) ==> !Eval(p, iset{a})
    ensures !Eval(p, m)
  {
    if p.Or? {
      DisjunctionFails(p.left, m);
      DisjunctionFails(p.right, m);
    } else if p in m {
      assert !IsAtom(p) || Eval(p, iset{p});
    }
  }

  lemma {:induction false} ConjunctsProved(p: Predicate, other: Predicate)
    requires IsConjunctionOfDisjunctions(other) && Entails(p, other)
    ensures Proves(p, other)
  {
    if other.And? {
      ConjunctsProved(p, other.left);
      ConjunctsProved(p, other.right);
    } else if !Eval(other, NO_ATOMS) {
      DisjunctionFails(other, AloneNot(other));
    }
  }

  /** Every conjunction of disjunctions implies itself; its entailment is decided, whatever the left side. */
  lemma ImpliesDecidesNormalForms(p: Predicate, other: Predicate)
    requires IsConjunctionOfDisjunctions(other)
    ensures Implies(other, other)
    ensures Implies(p, other) <==> Entails(p, other)
  {
    ConjunctsProved(other, other);
    ImpliesIsProves(other, other);
    DecidesExactlyWhenReflexive(other);
  }

  // ----- The same for left sides -----

  ghost predicate DecidesFrom(p: Predicate) {
    forall other :: Implies(p, other) <==> Entails(p, other)
  }

  lemma {:induction false} ProvedFromDisjunction(p: Predicate, other: Predicate)
    requires Entails(p, other) && (Eval(p, NO_ATOMS) || !Eval(p, AloneNot(p)))
    ensures Proves(p, other)
  {
    if other.And? {
      ProvedFromDisjunction(p, other.left);
      ProvedFromDisjunction(p, other.right);
    } else if Eval(p, AloneNot(other)) && !Eval(other, NO_ATOMS) {
      EvalMonotone(p, AloneNot(other), AloneNot(p));
    }
  }

  /**
   The prover decides everything that a predicate entails exactly if it finds that the predicate implies
   itself in a disjunction, where it may not be taken apart as a conjunction: in meaning the predicate is
   a disjunction.
   */
  lemma DecidesFromExactlyDisjunctions(p: Predicate)
    ensures DecidesFrom(p) <==> Implies(p, Or(p, False))
    ensures IsDisjunction(p) ==> DecidesFrom(p)
  {
    var weaker := Or(p, False);
    ImpliesIsProves(p, weaker);
    assert Entails(p, weaker);
    SameAlone(p);
    if IsDisjunction(p) && !Eval(p, NO_ATOMS) {
      DisjunctionFails(p, AloneNot(p));
    }
    if Implies(p, weaker) {
      forall other ensures Implies(p, other) <==> Entails(p, other) {
        ImpliesEntails(p, other);
        ImpliesIsProves(p, other);
        if Entails(p, other) {
          ProvedFromDisjunction(p, other);
        }
      }
    }
  }

  lemma SameAlone(p: Predicate)
    ensures AloneNot(Or(p, False)) == AloneNot(p) && Eval(Or(p, False), NO_ATOMS) == Eval(p, NO_ATOMS)
  {
    forall a ensures a in AloneNot(Or(p, False)) <==> a in AloneNot(p) {
      assert Eval(Or(p, False), iset{a}) == Eval(p, iset{a});
    }
  }

  /** The prover does not find everything: not even that a predicate implies itself. */
  lemma ImpliesIsNotReflexive()
    ensures var p := Or(And(Variable(0), Variable(1)), Variable(2));
      Built(p) && Entails(p, p) && !Implies(p, p)
  {
    var a, b, c := Variable(0), Variable(1), Variable(2);
    var conj := And(a, b);
    var p := Or(conj, c);
    assert !Implies(a, c) && !Implies(b, c);
    assert !Implies(a, conj) && !Implies(b, conj);
    assert !Implies(a, p) && !Implies(b, p);
    assert !Implies(conj, p);
  }
}

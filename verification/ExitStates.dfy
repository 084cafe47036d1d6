/**
 The ways a statement or value can be exited, and the condition under which it does not throw.
 */
module ExitStates {
  import P = Predicate

  datatype Exit = Normal | Return | Break | Continue | Throw | Rethrow

  /** A set of exits; `noexcept` is the predicate under which the throw exit is not taken. */
  datatype ExitStates = ExitStates(states: set<Exit>, noexcept: P.Predicate) {

    function Intersect(other: ExitStates): ExitStates {
      ExitStates(states * other.states, P.MakeOr(P.Copy(noexcept), P.Copy(other.noexcept)))
    }

    function Add(other: ExitStates): ExitStates {
      ExitStates(states + other.states, P.MakeAnd(P.Copy(noexcept), P.Copy(other.noexcept)))
    }

    function Remove(other: ExitStates): ExitStates {
      ExitStates(states - other.states, if Throw in states && Throw in other.states then P.True else noexcept)
    }

    predicate Has(exit: Exit) {
      exit in states
    }

    predicate OnlyHasStates(other: ExitStates) {
      states <= other.states
    }

    predicate HasAnyNonThrowingStates() {
      !OnlyHasStates(AllThrowing())
    }

    predicate OnlyHasNormalOrThrowingStates() {
      OnlyHasStates(AllThrowing().Add(Only(Normal)))
    }

    function ThrowingStates(): ExitStates {
      Intersect(AllThrowing())
    }
  }

  const NO_EXITS := ExitStates({}, P.True)

  function Only(exit: Exit): ExitStates {
    ExitStates({exit}, P.True)
  }

  function ThrowUnless(noexcept: P.Predicate): ExitStates {
    ExitStates({Throw}, noexcept)
  }

  function ThrowAlways(): ExitStates {
    ThrowUnless(P.False)
  }

  function AllThrowing(): ExitStates {
    ThrowAlways().Add(Only(Rethrow))
  }

  function AllNonThrowing(): ExitStates {
    Only(Normal).Add(Only(Return)).Add(Only(Break)).Add(Only(Continue))
  }

  predicate IsThrowing(exit: Exit) {
    exit == Throw || exit == Rethrow
  }

  /** The exit can happen in model `m`. */
  ghost predicate Allows(exits: ExitStates, exit: Exit, m: P.Model) {
    exit in exits.states && (exit == Throw ==> !P.Eval(exits.noexcept, m))
  }

  /** Exit states without a throw come with the predicate that holds always. */
  predicate Proper(exits: ExitStates) {
    Throw !in exits.states ==> exits.noexcept == P.True
  }

  /** Adding two sets keeps their exits, and brings no others as long as both are proper. */
  lemma AddAllows(a: ExitStates, b: ExitStates, exit: Exit, m: P.Model)
    ensures Allows(a, exit, m) || Allows(b, exit, m) ==> Allows(a.Add(b), exit, m)
    ensures Proper(a) && Proper(b) ==> (Allows(a.Add(b), exit, m) <==> Allows(a, exit, m) || Allows(b, exit, m))
  {
    P.CopyKeepsMeaning(a.noexcept, m);
    P.CopyKeepsMeaning(b.noexcept, m);
    P.MakeAndMeansAnd(P.Copy(a.noexcept), P.Copy(b.noexcept), m);
  }

  /** Otherwise a predicate that belongs to no throw can make a throw possible that neither set allows. */
  lemma ImproperAdds(m: P.Model)
    ensures var a, b := ExitStates({Throw}, P.True), ExitStates({}, P.False);
      !Proper(b) && !Allows(a, Throw, m) && !Allows(b, Throw, m) && Allows(a.Add(b), Throw, m)
  {}

  /** Exactly the removed exits are taken away. */
  lemma RemoveAllows(a: ExitStates, b: ExitStates, exit: Exit, m: P.Model)
    ensures Allows(a.Remove(b), exit, m) <==> Allows(a, exit, m) && exit !in b.states
  {}

  /** Whatever is built from proper sets is proper. */
  lemma StaysProper(a: ExitStates, b: ExitStates)
    requires Proper(a) && Proper(b)
    ensures Proper(a.Add(b)) && Proper(a.Remove(b)) && Proper(a.ThrowingStates())
  {
    AllStates();
  }

  lemma BasicsProper(exit: Exit, noexcept: P.Predicate)
    ensures Proper(NO_EXITS) && Proper(Only(exit)) && Proper(ThrowUnless(noexcept))
    ensures Proper(AllThrowing()) && Proper(AllNonThrowing())
  {
    AllStates();
  }

  lemma AllStates()
    ensures AllThrowing().states == {Throw, Rethrow}
    ensures AllThrowing().noexcept == P.False
    ensures AllNonThrowing().states == {Normal, Return, Break, Continue}
    ensures AllNonThrowing().noexcept == P.True
  {}

  /** An intersection has the exits of both sets; it throws where neither predicate holds. */
  lemma IntersectAllows(a: ExitStates, b: ExitStates, exit: Exit, m: P.Model)
    ensures Allows(a.Intersect(b), exit, m) <==> Allows(a, exit, m) && Allows(b, exit, m)
  {
    P.CopyKeepsMeaning(a.noexcept, m);
    P.CopyKeepsMeaning(b.noexcept, m);
    P.MakeOrMeansOr(P.Copy(a.noexcept), P.Copy(b.noexcept), m);
  }

  /** The throwing states are the throw and the rethrow, each under the same condition as before. */
  lemma ThrowingAllows(a: ExitStates, exit: Exit, m: P.Model)
    ensures Allows(a.ThrowingStates(), exit, m) <==> Allows(a, exit, m) && IsThrowing(exit)
  {
    AllStates();
    IntersectAllows(a, AllThrowing(), exit, m);
  }
}

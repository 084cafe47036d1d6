/**
 What unwinding means in terms of the language: which entries control runs on its way out, and where each
 way of leaving ends. Nothing here looks at how entries declare themselves active or shared.
 */
module UnwindMeaning {
  import opened UnwindAction
  import opened UnwindCode
  import opened UnwindRefinement
  import opened UnwindHistories
  import opened UnwindPads
  import E = ExitStates
  import S = Statements
  import X = ExitSoundness

  function LanguageExit(st: UnwindState): E.Exit {
    match st
    case Normal => E.Normal
    case Return => E.Return
    case Break => E.Break
    case Continue => E.Continue
    case Throw => E.Throw
    case Rethrow => E.Rethrow
  }

  function LanguageState(when: ScopeExitState): S.ScopeExitState {
    match when
    case Always => S.OnExit
    case Success => S.OnSuccess
    case Failure => S.OnFailure
  }

  /**
   What control runs as it passes: destructors, the scope exits that apply to the way it leaves, and, for a
   throw, the destruction of an exception that was caught.
   */
  predicate RunsWhenPassed(kind: Kind, st: UnwindState) {
    || kind.Destructor?
    || (kind.ScopeExit? && X.AppliesTo(LanguageState(kind.state), LanguageExit(st)))
    || (kind.DestroyException? && st == Throw)
  }

  /** Where each way of leaving ends. */
  predicate EndsBy(kind: Kind, st: UnwindState, exit: Exit) {
    match st
    case Normal => kind.ScopeMarker? && exit == ToScopeEnd(kind.scopeEnd)
    case Return => kind.FunctionMarker? && exit == ReturnSaved
    case Break => kind.ControlFlow? && exit == ToBreak(kind.breakTarget)
    case Continue => kind.ControlFlow? && exit == ToContinue(kind.continueTarget)
    case Throw => (kind.Catch? && exit == ToCatch(kind.catchTarget)) || (kind.FunctionMarker? && exit == Resume)
    case Rethrow => kind.RethrowScope? && exit == EnterThrow
  }

  ghost predicate Ends(kind: Kind, st: UnwindState) {
    exists exit :: EndsBy(kind, st, exit)
  }

  /** The entries that run, from the top down. */
  function Passed(kinds: seq<Kind>, st: UnwindState): seq<Kind> {
    if kinds == [] then []
    else
      var top, rest := kinds[|kinds| - 1], kinds[..|kinds| - 1];
      (if RunsWhenPassed(top, st) then [top] else []) + Passed(rest, st)
  }

  /** Control leaves at the topmost entry that ends this way of leaving, after running what it passes. */
  ghost predicate LeavesAt(kinds: seq<Kind>, st: UnwindState, trace: seq<Kind>, exit: Exit, p: nat) {
    && p < |kinds| && EndsBy(kinds[p], st, exit)
    && (forall q :: p < q < |kinds| ==> !Ends(kinds[q], st))
    && trace == Passed(kinds[p + 1..], st)
  }

  ghost predicate IsMeaning(kinds: seq<Kind>, st: UnwindState, outcome: Outcome) {
    match outcome
    case Done(trace, exit) => exists p: nat :: LeavesAt(kinds, st, trace, exit, p)
    case NoTerminator => forall q :: 0 <= q < |kinds| ==> !Ends(kinds[q], st)
  }

  /** An entry is active exactly if it runs or ends the unwind. */
  lemma ActiveMeans(kind: Kind, st: UnwindState)
    ensures IsActive(kind, st) && !IsTerminator(kind) <==> RunsWhenPassed(kind, st)
    ensures IsActive(kind, st) && IsTerminator(kind) <==> Ends(kind, st)
    ensures forall exit :: EndsBy(kind, st, exit) <==> IsActive(kind, st) && IsTerminator(kind) && exit == ExitOf(kind, st)
  {
    if IsActive(kind, st) && IsTerminator(kind) {
      assert EndsBy(kind, st, ExitOf(kind, st));
    }
  }

  /** An entry on top that does not end the unwind runs first, if it runs. */
  lemma LeavesBelow(kinds: seq<Kind>, st: UnwindState, trace: seq<Kind>, exit: Exit, p: nat)
    requires kinds != [] && LeavesAt(kinds[..|kinds| - 1], st, trace, exit, p) && !Ends(kinds[|kinds| - 1], st)
    ensures var top := kinds[|kinds| - 1];
      LeavesAt(kinds, st, (if RunsWhenPassed(top, st) then [top] else []) + trace, exit, p)
  {
    hide EndsBy, RunsWhenPassed;
    var rest, above := kinds[..|kinds| - 1], kinds[p + 1..];
    assert above[|above| - 1] == kinds[|kinds| - 1];
    assert above[..|above| - 1] == rest[p + 1..];
    assert forall q :: p < q < |rest| ==> kinds[q] == rest[q];
  }

  /** The outcome of an unwind is what leaving means, for every stack and state. */
  lemma {:induction false} UnwindMeans(kinds: seq<Kind>, st: UnwindState)
    ensures IsMeaning(kinds, st, Unwind(kinds, st))
  {
    hide EndsBy, RunsWhenPassed, IsActive, IsTerminator, ExitOf, LeavesAt, Ends;
    if kinds != [] {
      var top, rest := kinds[|kinds| - 1], kinds[..|kinds| - 1];
      ActiveMeans(top, st);
      if IsActive(top, st) && IsTerminator(top) {
        EndsAtTop(kinds, st);
      } else {
        UnwindMeans(rest, st);
        var outcome := Unwind(rest, st);
        if outcome.Done? {
          var p: nat :| LeavesAt(rest, st, outcome.trace, outcome.exit, p);
          LeavesBelow(kinds, st, outcome.trace, outcome.exit, p);
          assert [] + outcome.trace == outcome.trace;
        } else {
          assert forall q :: 0 <= q < |rest| ==> kinds[q] == rest[q];
        }
      }
    }
  }

  lemma EndsAtTop(kinds: seq<Kind>, st: UnwindState)
    requires kinds != [] && IsActive(kinds[|kinds| - 1], st) && IsTerminator(kinds[|kinds| - 1])
    ensures LeavesAt(kinds, st, [], ExitOf(kinds[|kinds| - 1], st), |kinds| - 1)
  {
    hide EndsBy, RunsWhenPassed, ExitOf;
    ActiveMeans(kinds[|kinds| - 1], st);
    assert kinds[|kinds|..] == [];
  }

  /** Outcomes have one meaning only. */
  lemma MeaningIsUnique(kinds: seq<Kind>, st: UnwindState, o1: Outcome, o2: Outcome)
    requires IsMeaning(kinds, st, o1) && IsMeaning(kinds, st, o2)
    ensures o1 == o2
  {
    hide RunsWhenPassed, Passed;
    if o1.Done? && o2.Done? {
      var p1: nat :| LeavesAt(kinds, st, o1.trace, o1.exit, p1);
      var p2: nat :| LeavesAt(kinds, st, o2.trace, o2.exit, p2);
      assert Ends(kinds[p1], st) && Ends(kinds[p2], st);
      assert p1 == p2;
    }
  }

  lemma {:induction false} PassedMembers(kinds: seq<Kind>, st: UnwindState, kind: Kind)
    ensures kind in Passed(kinds, st) <==> kind in kinds && RunsWhenPassed(kind, st)
  {
    hide RunsWhenPassed;
    if kinds != [] {
      var top, rest := kinds[|kinds| - 1], kinds[..|kinds| - 1];
      assert kinds == rest + [top];
      PassedMembers(rest, st, kind);
    }
  }

  /**
   A scope(success) does not run for a throw or rethrow and a scope(failure) for nothing else; above the entry
   where the unwind ends everything else runs that has to.
   */
  lemma ScopeExitsRunAsWritten(kinds: seq<Kind>, st: UnwindState, kind: Kind)
    requires Unwind(kinds, st).Done?
    ensures kind in Unwind(kinds, st).trace && kind.ScopeExit? ==>
      kind.state == (if IsExceptionState(st) then Failure else Success) || kind.state == Always
    ensures exists p: nat :: p < |kinds| && Ends(kinds[p], st) && (kind in Unwind(kinds, st).trace <==>
      kind in kinds[p + 1..] &&
      match kind
      case Destructor(_, _) => true
      case ScopeExit(Always, _) => true
      case ScopeExit(Success, _) => st != Throw && st != Rethrow
      case ScopeExit(Failure, _) => st == Throw || st == Rethrow
      case DestroyException(_) => st == Throw
      case _ => false)
  {
    hide Unwind, EndsBy, IsActive, Passed;
    UnwindMeans(kinds, st);
    var outcome := Unwind(kinds, st);
    var p: nat :| LeavesAt(kinds, st, outcome.trace, outcome.exit, p);
    PassedMembers(kinds[p + 1..], st, kind);
    assert Ends(kinds[p], st);
  }

  /** What is generated for a stack, after any history and before any later steps, runs as leaving means. */
  lemma GeneratedMeans(code: Code, st: UnwindState, n: nat)
    requires Reachable(code) && HasTerminator(code.stack, st)
    requires 2 * |code.stack| + 1 <= n
    ensures var (code', entry) := GenUnwindBlock(code, st);
      exists outcome :: IsMeaning(Kinds(code.stack), st, outcome)
        && forall later :: Leads(code', later) ==> Performs(later.blocks, entry, st, outcome, n)
  {
    hide IsMeaning, GenUnwindBlock, Performs, Reachable, HasTerminator, Leads;
    UnwindRefined(code, st, n);
    UnwindMeans(Kinds(code.stack), st);
  }

  /**
   What a landing pad in use does, after any history in which pads for rethrows were guarded: it lists the types of
   all catches on the stack, from the top down, it is flagged for clean-up exactly if leaving runs something, and
   where it goes on, with the state it has set, leaving runs as it means.
   */
  lemma PadMeans(steps: seq<Step>, st: UnwindState, n: nat) returns (outcome: Outcome, target: BlockId)
    requires IsCode(INITIAL) && CanRun(INITIAL, steps) && CanStep(ApplyAll(INITIAL, steps), GenPad(st))
    requires LatestLandingPad(ApplyAll(INITIAL, steps).stack, st).At?
    requires st == Rethrow ==> Guarded(Kinds(ApplyAll(INITIAL, steps).stack))
    requires st == Rethrow ==> forall request <- Asked(INITIAL, steps) :: request.1 == Rethrow ==> Guarded(request.0)
    requires 2 * |ApplyAll(INITIAL, steps).stack| + 1 <= n
    ensures var code := ApplyAll(INITIAL, steps);
      var kinds, pad := Kinds(code.stack), LatestLandingPad(code.stack, st).pos;
      && IsMeaning(kinds, st, outcome) && outcome.Done?
      && pad < |code.blocks| && code.blocks[pad].term == Pad(KindTypes(kinds), outcome.trace != [], st, target)
      && forall later :: Leads(GenUnwindBlock(code, st).0, later) ==> Performs(later.blocks, target, st, outcome, n)
  {
    hide CanRun, ApplyAll, Asked, Guarded, KindTypes, GenUnwindBlock, GenLandingPad, LatestLandingPad;
    hide AnyUnwindCleanupActions;
    hide IsMeaning, Unwind, Kinds, IsCode, CatchTypes, IsStack, HasTerminator, Performs;
    var code := ApplyAll(INITIAL, steps);
    CachedPadIsFresh(steps, st);
    var at, p := FoundPad(steps, st);
    assert Leads(INITIAL, code);
    UnwindRefined(code, st, n);
    UnwindMeans(Kinds(code.stack), st);
    CodeIsStack(code);
    CleanupMeansWork(code.stack, st);
    TypesOfKinds(code.stack);
    outcome := Unwind(Kinds(code.stack), st);
    target := GenUnwindBlock(code, st).1;
  }

  /** A pad asked for is the pad in use afterwards. */
  lemma PadIsUsed(code: Code, st: UnwindState)
    requires IsCode(code) && IsExceptionState(st) && HasTerminator(code.stack, st)
    ensures var (code', pad) := GenLandingPad(code, st);
      LatestLandingPad(code'.stack, st) == At(pad)
  {
    hide IsCode, GenUnwindBlock, LatestLandingPad, SetLatestLandingPad, CatchTypes, HasTerminator;
    hide AnyUnwindCleanupActions;
    if !LatestLandingPad(code.stack, st).At? {
      OpenBlockKeepsCode(code);
      var code1 := GenUnwindBlock(code.(blocks := code.blocks + [Block([], Open)]), st).0;
      CodeIsStack(code);
      StoredIsFound(code1.stack, st, |code.blocks|);
    }
  }

  lemma {:induction false} StoredIsFound(stack: seq<Action>, st: UnwindState, pad: BlockId)
    requires stack != []
    ensures LatestLandingPad(SetLatestLandingPad(stack, st, pad), st) == At(pad)
  {}

  lemma CodeIsStack(code: Code)
    requires IsCode(code)
    ensures IsStack(code.stack)
  {}

  /** Between states that run an entry blocks are shared exactly as far as possible. */
  lemma SharedExactly(kind: Kind, st: UnwindState, other: UnwindState)
    requires IsActive(kind, st) && IsActive(kind, other)
    ensures CanSetActionBlock(kind, st)
    ensures other in SharingStates(kind, st) <==>
      other == st || (!IsTerminator(kind) && IsExceptionState(other) == IsExceptionState(st))
  {}
}

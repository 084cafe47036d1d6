/**
 A big-step semantics of statements, and the soundness of the exit-state analysis for it.
 The semantics lets a value take any exit its own exit states allow.
 */
module ExitSoundness {
  import P = Predicate
  import opened ExitStates
  import opened Statements

  // ----- How statements can be exited -----

  ghost predicate Evaluates(value: Value, exit: Exit, m: P.Model) {
    Allows(value.exitStates, exit, m)
  }

  /**
   How a statement can be left.  The code for `assert noexcept` is that of its scope; in a trusted program
   the scope does not throw.
   */
  ghost predicate Exec(s: Statement, exit: Exit, m: P.Model, trusted: bool)
    decreases s, 2
  {
    match s
    case ValueStmt(value) => Evaluates(value, exit, m)
    case ScopeStmt(scope) => ExecScope(scope.statements, exit, m, trusted)
    case Initialise(value) => Evaluates(value, exit, m)
    case Assign(lvalue, rvalue) =>
      // The right-hand side is evaluated first.
      exists e :: Evaluates(rvalue, e, m) && if e == Normal then Evaluates(lvalue, exit, m) else exit == e
    case If(clauses, elseScope) => ExecIf(s, 0, exit, m, trusted)
    case Switch(value, cases, defaultCase) =>
      exists e :: Evaluates(value, e, m) &&
        if e != Normal then exit == e
        else
          || (exists i :: 0 <= i < |cases| && ExecScope(cases[i].statements, exit, m, trusted))
          || (defaultCase.Default? && ExecScope(defaultCase.scope.statements, exit, m, trusted))
    case Loop(_, _, _) => exists n: nat :: ExecLoop(s, n, exit, m, trusted)
    case For(init, _) =>
      exists e :: Evaluates(init, e, m) && if e == Normal then exists n: nat :: ExecFor(s, n, exit, m, trusted) else exit == e
    case Try(scope, catches) =>
      exists e :: ExecScope(scope.statements, e, m, trusted) &&
        (exit == e || (e == Throw && exists i :: 0 <= i < |catches| && ExecCatch(catches, i, exit, m, trusted)))
    case ScopeExit(_, _) => exit == Normal
    case ReturnVoid => exit == Return
    case ReturnValue(value) => exists e :: Evaluates(value, e, m) && exit == if e == Normal then Return else e
    case ThrowStmt(value) => exit == Throw
    case RethrowStmt => exit == Rethrow
    case BreakStmt => exit == Break
    case ContinueStmt => exit == Continue
    case Assert(value) => Evaluates(value, exit, m)
    case AssertNoExcept(scope) => ExecScope(scope.statements, exit, m, trusted) && (trusted ==> !IsThrowing(exit))
    case Unreachable => false
  }

  /** The clauses of the if statement `s` from the `i`th on, then its else scope. */
  ghost predicate ExecIf(s: Statement, i: nat, exit: Exit, m: P.Model, trusted: bool)
    requires s.If? && i <= |s.clauses|
    decreases s, 1, |s.clauses| - i
  {
    if i == |s.clauses| then ExecScope(s.elseScope.statements, exit, m, trusted)
    else
      var clause := s.clauses[i];
      assert clause.scope < clause && clause < s;
      exists e :: Evaluates(clause.condition, e, m) &&
        if e == Normal then ExecScope(clause.scope.statements, exit, m, trusted) || ExecIf(s, i + 1, exit, m, trusted)
        else exit == e
  }

  /** The loop from its condition on, with at most `n` more iterations. */
  ghost predicate ExecLoop(s: Statement, n: nat, exit: Exit, m: P.Model, trusted: bool)
    requires s.Loop?
    decreases s, 1, n, 1
  {
    exists e :: Evaluates(s.condition, e, m) &&
      if e == Normal then exit == Normal || (n > 0 && ExecIteration(s, n, exit, m, trusted)) else exit == e
  }

  ghost predicate ExecIteration(s: Statement, n: nat, exit: Exit, m: P.Model, trusted: bool)
    requires s.Loop? && n > 0
    decreases s, 1, n, 0
  {
    exists b :: ExecScope(s.iterationScope.statements, b, m, trusted) &&
      if b == Break then exit == Normal
      else if b != Normal && b != Continue then exit == b
      else
        exists a :: ExecScope(s.advanceScope.statements, a, m, trusted) &&
          if a == Normal then ExecLoop(s, n - 1, exit, m, trusted) else exit == a
  }

  /** The for loop from its emptiness test on; testing, reading and advancing the range do not throw. */
  ghost predicate ExecFor(s: Statement, n: nat, exit: Exit, m: P.Model, trusted: bool)
    requires s.For?
    decreases s, 1, n, 1
  {
    exit == Normal || (n > 0 && ExecForIteration(s, n, exit, m, trusted))
  }

  ghost predicate ExecForIteration(s: Statement, n: nat, exit: Exit, m: P.Model, trusted: bool)
    requires s.For? && n > 0
    decreases s, 1, n, 0
  {
    exists b :: ExecScope(s.scope.statements, b, m, trusted) &&
      if b == Break then exit == Normal
      else if b == Normal || b == Continue then ExecFor(s, n - 1, exit, m, trusted)
      else exit == b
  }

  /** A catch clause; leaving it by a rethrow throws from the try statement. */
  ghost predicate ExecCatch(catches: seq<Scope>, i: nat, exit: Exit, m: P.Model, trusted: bool)
    requires i < |catches|
    decreases catches, 1
  {
    exists e :: ExecScope(catches[i].statements, e, m, trusted) && exit == if e == Rethrow then Throw else e
  }

  /**
   A scope runs its statements in order.  A scope exit does nothing when reached, but its body runs
   once the rest of the scope has been left by an exit it applies to.
   */
  ghost predicate ExecScope(statements: seq<Statement>, exit: Exit, m: P.Model, trusted: bool)
    decreases statements, 0
  {
    if statements == [] then exit == Normal
    else
      var s, rest := statements[0], statements[1..];
      if s.ScopeExit? then exists e :: ExecScope(rest, e, m, trusted) && RunScopeExit(s, e, exit, m, trusted)
      else exists e :: Exec(s, e, m, trusted) && if e == Normal then ExecScope(rest, exit, m, trusted) else exit == e
  }

  predicate AppliesTo(state: ScopeExitState, exit: Exit) {
    match state
    case OnExit => true
    case OnSuccess => !IsThrowing(exit)
    case OnFailure => IsThrowing(exit)
  }

  /** Leaving by `e` past the scope exit `s`: a body that itself exits abnormally replaces the exit. */
  ghost predicate RunScopeExit(s: Statement, e: Exit, exit: Exit, m: P.Model, trusted: bool)
    requires s.ScopeExit?
    decreases s, 1
  {
    if !AppliesTo(s.state, e) then exit == e
    else exists b :: ExecScope(s.scope.statements, b, m, trusted) && exit == if b == Normal then e else b
  }

  // ----- What the rest of the compiler makes sure of -----

  predicate ValueOK(value: Value) {
    value.exitStates.OnlyHasNormalOrThrowingStates()
  }

  /** A for loop whose rule covers the exit of an empty range. */
  predicate ForCovered(s: Statement)
    requires s.For?
  {
    s.init.exitStates.Has(Normal) ==> ScopeExits(s.scope).Has(Normal) || ScopeExits(s.scope).Has(Break)
  }

  /** What is checked of the body of a scope exit: nothing rejects a bare return. */
  predicate BodyAccepted(state: ScopeExitState, exits: set<Exit>) {
    exits <= if state == OnSuccess then {Normal, Return, Throw, Rethrow} else {Normal, Return}
  }

  /** The exits that stay inside a function. */
  predicate StaysInside(exit: Exit) {
    exit == Normal || exit == Break || exit == Continue
  }

  /** In a trusted program the bodies of scope exits do not return. */
  predicate WellFormed(s: Statement, trusted: bool)
    decreases s, 1
  {
    match s
    case ValueStmt(value) => ValueOK(value)
    case ScopeStmt(scope) => ScopeOK(scope.statements, trusted)
    case Initialise(value) => ValueOK(value)
    case Assign(lvalue, rvalue) => ValueOK(lvalue) && ValueOK(rvalue)
    case If(clauses, elseScope) =>
      && (forall i :: 0 <= i < |clauses| ==> ClauseOK(clauses, i, trusted))
      && ScopeOK(elseScope.statements, trusted)
    case Switch(value, cases, defaultCase) =>
      && ValueOK(value)
      && (forall i :: 0 <= i < |cases| ==> ScopeOK(cases[i].statements, trusted))
      && (defaultCase.Default? ==> ScopeOK(defaultCase.scope.statements, trusted))
    case Loop(condition, iterationScope, advanceScope) =>
      && ValueOK(condition) && ScopeOK(iterationScope.statements, trusted) && ScopeOK(advanceScope.statements, trusted)
      && !ScopeExits(advanceScope).Has(Break) && !ScopeExits(advanceScope).Has(Continue)
    case For(init, scope) => ValueOK(init) && ScopeOK(scope.statements, trusted) && ForCovered(s)
    case Try(scope, catches) =>
      ScopeOK(scope.statements, trusted) && forall i :: 0 <= i < |catches| ==> ScopeOK(catches[i].statements, trusted)
    case ScopeExit(state, scope) =>
      && ScopeOK(scope.statements, trusted) && BodyAccepted(state, ScopeExits(scope).states)
      && (trusted ==> !ScopeExits(scope).Has(Return))
    case ReturnValue(value) => ValueOK(value)
    case ThrowStmt(value) => ValueOK(value)
    case Assert(value) => ValueOK(value)
    case AssertNoExcept(scope) => ScopeOK(scope.statements, trusted)
    case _ => true
  }

  predicate ClauseOK(clauses: seq<IfClause>, i: nat, trusted: bool)
    requires i < |clauses|
    decreases clauses, 0
  {
    var clause := clauses[i];
    assert clause.scope < clause && clause in clauses;
    ValueOK(clause.condition) && ScopeOK(clause.scope.statements, trusted)
  }

  predicate ScopeOK(statements: seq<Statement>, trusted: bool)
    decreases statements, 0
  {
    forall i :: 0 <= i < |statements| ==> WellFormed(statements[i], trusted)
  }

  // ----- Accumulating exits only adds to them -----

  lemma {:induction false} ScopesExitsGrow(scopes: seq<Scope>, exits: ExitStates, exit: Exit, m: P.Model)
    requires Allows(exits, exit, m)
    ensures Allows(ScopesExits(scopes, exits), exit, m)
  {
    if scopes != [] {
      AddAllows(exits, ScopeExits(scopes[0]), exit, m);
      ScopesExitsGrow(scopes[1..], exits.Add(ScopeExits(scopes[0])), exit, m);
    }
  }

  lemma {:induction false} ScopesExitsCover(scopes: seq<Scope>, exits: ExitStates, i: nat, exit: Exit, m: P.Model)
    requires i < |scopes| && Allows(ScopeExits(scopes[i]), exit, m)
    ensures Allows(ScopesExits(scopes, exits), exit, m)
  {
    var exits' := exits.Add(ScopeExits(scopes[0]));
    if i == 0 {
      AddAllows(exits, ScopeExits(scopes[0]), exit, m);
      ScopesExitsGrow(scopes[1..], exits', exit, m);
    } else {
      ScopesExitsCover(scopes[1..], exits', i - 1, exit, m);
    }
  }

  lemma CatchExitsGrow(exits: ExitStates, catchExits: ExitStates, exit: Exit, m: P.Model)
    requires Allows(exits, exit, m)
    ensures Allows(CatchExits(exits, catchExits), exit, m)
  {
    AddAllows(exits, catchExits, exit, m);
    AddAllows(exits, ThrowAlways(), exit, m);
    AddAllows(exits.Add(ThrowAlways()), catchExits.Remove(Only(Rethrow)), exit, m);
  }

  lemma CatchExitsCover(exits: ExitStates, catchExits: ExitStates, e: Exit, m: P.Model)
    requires Allows(catchExits, e, m)
    ensures Allows(CatchExits(exits, catchExits), if e == Rethrow then Throw else e, m)
  {
    AddAllows(exits, catchExits, e, m);
    AddAllows(exits, ThrowAlways(), Throw, m);
    AddAllows(exits.Add(ThrowAlways()), catchExits.Remove(Only(Rethrow)), Throw, m);
    if e != Rethrow {
      RemoveAllows(catchExits, Only(Rethrow), e, m);
      AddAllows(exits.Add(ThrowAlways()), catchExits.Remove(Only(Rethrow)), e, m);
    }
  }

  lemma {:induction false} CatchesExitsGrow(catches: seq<Scope>, exits: ExitStates, exit: Exit, m: P.Model)
    requires Allows(exits, exit, m)
    ensures Allows(CatchesExits(catches, exits), exit, m)
  {
    if catches != [] {
      CatchExitsGrow(exits, ScopeExits(catches[0]), exit, m);
      CatchesExitsGrow(catches[1..], CatchExits(exits, ScopeExits(catches[0])), exit, m);
    }
  }

  lemma {:induction false} CatchesExitsCover(catches: seq<Scope>, exits: ExitStates, i: nat, e: Exit, m: P.Model)
    requires i < |catches| && Allows(ScopeExits(catches[i]), e, m)
    ensures Allows(CatchesExits(catches, exits), if e == Rethrow then Throw else e, m)
  {
    var exits' := CatchExits(exits, ScopeExits(catches[0]));
    if i == 0 {
      CatchExitsCover(exits, ScopeExits(catches[0]), e, m);
      CatchesExitsGrow(catches[1..], exits', if e == Rethrow then Throw else e, m);
    } else {
      CatchesExitsCover(catches[1..], exits', i - 1, e, m);
    }
  }

  lemma {:induction false} IfExitsGrow(clauses: seq<IfClause>, exits: ExitStates, exit: Exit, m: P.Model)
    requires Allows(exits, exit, m)
    ensures Allows(IfExits(clauses, exits), exit, m)
  {
    if clauses != [] {
      var conditionThrows := clauses[0].condition.exitStates.ThrowingStates();
      AddAllows(exits, conditionThrows, exit, m);
      AddAllows(exits.Add(conditionThrows), ScopeExits(clauses[0].scope), exit, m);
      IfExitsGrow(clauses[1..], exits.Add(conditionThrows).Add(ScopeExits(clauses[0].scope)), exit, m);
    }
  }

  lemma LoopExitsGrow(before: ExitStates, iteration: ExitStates, exit: Exit, m: P.Model)
    requires Allows(before, exit, m)
    ensures Allows(LoopExits(before, iteration), exit, m)
  {
    var body := iteration.Remove(Only(Continue));
    AddAllows(before, body, exit, m);
    AddAllows(before, Only(Normal), exit, m);
    AddAllows(before.Add(Only(Normal)), body.Remove(Only(Break)), exit, m);
  }

  /** A loop's exits cover a break of the body, as a normal exit, and its exits other than continue. */
  lemma LoopExitsCover(before: ExitStates, iteration: ExitStates, b: Exit, m: P.Model)
    requires Allows(iteration, b, m) && b != Continue
    ensures Allows(LoopExits(before, iteration), if b == Break then Normal else b, m)
  {
    var body := iteration.Remove(Only(Continue));
    RemoveAllows(iteration, Only(Continue), b, m);
    AddAllows(before, body, b, m);
    AddAllows(before, Only(Normal), Normal, m);
    AddAllows(before.Add(Only(Normal)), body.Remove(Only(Break)), Normal, m);
    if b != Break {
      RemoveAllows(body, Only(Break), b, m);
      AddAllows(before.Add(Only(Normal)), body.Remove(Only(Break)), b, m);
    }
  }

  lemma ScanExitsGrow(scan: Scan, exits: ExitStates, exit: Exit, m: P.Model)
    requires Allows(scan.exits, exit, m)
    ensures Allows(ScanExits(scan, exits).exits, exit, m)
  {
    var leaving := exits.Remove(Only(Normal));
    var kept := if scan.blocked then leaving.Remove(AllNonThrowing()) else leaving;
    AddAllows(scan.exits, scan.pending, exit, m);
    AddAllows(scan.exits, kept, exit, m);
    AddAllows(scan.exits.Add(scan.pending), kept, exit, m);
  }

  lemma {:induction false} ScanAllGrows(scan: Scan, statements: seq<Statement>, exit: Exit, m: P.Model)
    requires statements != [] && Allows(scan.exits, exit, m)
    ensures Allows(ScanAll(scan, statements).0.exits, exit, m)
    decreases |statements|
  {
    ScanExitsGrow(scan, StatementExits(statements[0]), exit, m);
    if StatementExits(statements[0]).Has(Normal) && |statements| > 1 {
      ScanAllGrows(ScanStatement(scan, statements[0]), statements[1..], exit, m);
    }
  }

  lemma FinishGrows(scan: Scan, last: ExitStates, exit: Exit, m: P.Model)
    requires Allows(scan.exits, exit, m)
    ensures Allows(FinishScan(scan, last), exit, m)
  {
    var kept := if scan.blocked then last.Remove(AllNonThrowing()) else last;
    AddAllows(scan.exits, scan.pending, exit, m);
    AddAllows(scan.exits, kept, exit, m);
    AddAllows(scan.exits.Add(scan.pending), kept, exit, m);
  }

  // ----- Soundness -----

  /**
   Every exit of a well-formed statement is among its exit states, as long as asserted scopes do not throw
   and the bodies of scope exits do not return; if they may, this still holds of the exits that stay
   inside the function.
   */
  lemma {:induction false} StatementSound(s: Statement, exit: Exit, m: P.Model, trusted: bool)
    requires trusted || StaysInside(exit)
    requires WellFormed(s, trusted) && Exec(s, exit, m, trusted)
    ensures Allows(StatementExits(s), exit, m)
    decreases s, 3
  {
    match s
    case ValueStmt(_) =>
    case ScopeStmt(scope) => ScopeSound(scope, exit, m, trusted);
    case Initialise(_) =>
    case Assign(lvalue, rvalue) => AssignSound(s, exit, m, trusted);
    case If(_, _) => IfSound(s, 0, NO_EXITS, exit, m, trusted); assert s.clauses[0..] == s.clauses;
    case Switch(_, _, _) => SwitchSound(s, exit, m, trusted);
    case Loop(_, _, _) =>
      var n: nat :| ExecLoop(s, n, exit, m, trusted);
      LoopSound(s, n, exit, m, trusted);
    case For(_, _) => ForSound(s, exit, m, trusted);
    case Try(_, _) => TrySound(s, exit, m, trusted);
    case ScopeExit(_, _) =>
    case ReturnValue(value) =>
      var e :| Evaluates(value, e, m) && exit == if e == Normal then Return else e;
      ValueThrows(value, e, m);
      AddAllows(Only(Return), value.exitStates.ThrowingStates(), exit, m);
    case Assert(_) =>
    case AssertNoExcept(scope) =>
      ScopeSound(scope, exit, m, trusted);
      AllStates();
      RemoveAllows(ScopeExits(scope), AllThrowing(), exit, m);
    case _ =>
  }

  /** A value exits normally or by one of its throwing exits. */
  lemma ValueThrows(value: Value, e: Exit, m: P.Model)
    requires ValueOK(value) && Evaluates(value, e, m)
    ensures e != Normal ==> IsThrowing(e) && Allows(value.exitStates.ThrowingStates(), e, m)
  {
    AllStates();
    if e != Normal {
      ThrowingAllows(value.exitStates, e, m);
    }
  }

  lemma AssignSound(s: Statement, exit: Exit, m: P.Model, trusted: bool)
    requires trusted || StaysInside(exit)
    requires s.Assign? && WellFormed(s, trusted) && Exec(s, exit, m, trusted)
    ensures Allows(StatementExits(s), exit, m)
  {
    var e :| Evaluates(s.rvalue, e, m) && if e == Normal then Evaluates(s.lvalue, exit, m) else exit == e;
    ValueThrows(s.rvalue, e, m);
    var throws := s.rvalue.exitStates.ThrowingStates();
    if e != Normal {
      AddAllows(NO_EXITS, throws, exit, m);
    }
    AddAllows(NO_EXITS.Add(throws), s.lvalue.exitStates, exit, m);
  }

  lemma {:induction false} IfSound(s: Statement, i: nat, exits: ExitStates, exit: Exit, m: P.Model, trusted: bool)
    requires trusted || StaysInside(exit)
    requires s.If? && WellFormed(s, trusted) && i <= |s.clauses| && ExecIf(s, i, exit, m, trusted)
    ensures Allows(IfExits(s.clauses[i..], exits).Add(ScopeExits(s.elseScope)), exit, m)
    decreases s, 2, |s.clauses| - i
  {
    var rest := s.clauses[i..];
    if i == |s.clauses| {
      ScopeSound(s.elseScope, exit, m, trusted);
    } else {
      var clause := s.clauses[i];
      assert clause.scope < clause && clause < s;
      assert ClauseOK(s.clauses, i, trusted);
      var throws := clause.condition.exitStates.ThrowingStates();
      var exits' := exits.Add(throws).Add(ScopeExits(clause.scope));
      assert rest[0] == clause && rest[1..] == s.clauses[i + 1..];
      var e :| Evaluates(clause.condition, e, m) &&
        if e == Normal then ExecScope(clause.scope.statements, exit, m, trusted) || ExecIf(s, i + 1, exit, m, trusted) else exit == e;
      ValueThrows(clause.condition, e, m);
      if e == Normal && ExecIf(s, i + 1, exit, m, trusted) {
        IfSound(s, i + 1, exits', exit, m, trusted);
        return;
      }
      if e == Normal {
        ScopeSound(clause.scope, exit, m, trusted);
      } else {
        AddAllows(exits, throws, exit, m);
      }
      AddAllows(exits.Add(throws), ScopeExits(clause.scope), exit, m);
      IfExitsGrow(rest[1..], exits', exit, m);
    }
    AddAllows(IfExits(rest, exits), ScopeExits(s.elseScope), exit, m);
  }

  lemma {:induction false} SwitchSound(s: Statement, exit: Exit, m: P.Model, trusted: bool)
    requires trusted || StaysInside(exit)
    requires s.Switch? && WellFormed(s, trusted) && Exec(s, exit, m, trusted)
    ensures Allows(StatementExits(s), exit, m)
    decreases s, 2
  {
    var value, cases, defaultCase := s.value, s.cases, s.defaultCase;
    var e :| Evaluates(value, e, m) &&
      if e != Normal then exit == e
      else
        || (exists i :: 0 <= i < |cases| && ExecScope(cases[i].statements, exit, m, trusted))
        || (defaultCase.Default? && ExecScope(defaultCase.scope.statements, exit, m, trusted));
    var start := NO_EXITS.Add(value.exitStates.ThrowingStates());
    var exits := ScopesExits(cases, start);
    ValueThrows(value, e, m);
    if e != Normal {
      AddAllows(NO_EXITS, value.exitStates.ThrowingStates(), exit, m);
      ScopesExitsGrow(cases, start, exit, m);
    } else if i :| 0 <= i < |cases| && ExecScope(cases[i].statements, exit, m, trusted) {
      assert cases[i] < s;
      ScopeSound(cases[i], exit, m, trusted);
      ScopesExitsCover(cases, start, i, exit, m);
    } else {
      assert defaultCase.scope < s;
      ScopeSound(defaultCase.scope, exit, m, trusted);
    }
    if defaultCase.Default? {
      AddAllows(exits, ScopeExits(defaultCase.scope), exit, m);
    }
  }

  lemma {:induction false} LoopSound(s: Statement, n: nat, exit: Exit, m: P.Model, trusted: bool)
    requires trusted || StaysInside(exit)
    requires s.Loop? && WellFormed(s, trusted) && ExecLoop(s, n, exit, m, trusted)
    ensures Allows(StatementExits(s), exit, m)
    decreases s, 2, n
  {
    var condition, iteration, advance := s.condition.exitStates, ScopeExits(s.iterationScope), ScopeExits(s.advanceScope);
    var looping := LoopExits(condition, iteration);
    var advancing := advance.Remove(Only(Normal));
    var e :| Evaluates(s.condition, e, m) &&
      if e == Normal then exit == Normal || (n > 0 && ExecIteration(s, n, exit, m, trusted)) else exit == e;
    if e != Normal || exit == Normal {
      LoopExitsGrow(condition, iteration, exit, m);
    } else {
      assert ExecIteration(s, n, exit, m, trusted);
      var b :| ExecScope(s.iterationScope.statements, b, m, trusted) &&
        if b == Break then exit == Normal
        else if b != Normal && b != Continue then exit == b
        else
          exists a :: ExecScope(s.advanceScope.statements, a, m, trusted) &&
            if a == Normal then ExecLoop(s, n - 1, exit, m, trusted) else exit == a;
      ScopeSound(s.iterationScope, b, m, trusted);
      if b != Normal && b != Continue {
        LoopExitsCover(condition, iteration, b, m);
      } else {
        var a :| ExecScope(s.advanceScope.statements, a, m, trusted) &&
          if a == Normal then ExecLoop(s, n - 1, exit, m, trusted) else exit == a;
        if a == Normal {
          LoopSound(s, n - 1, exit, m, trusted);
          return;
        }
        ScopeSound(s.advanceScope, a, m, trusted);
        RemoveAllows(advance, Only(Normal), a, m);
      }
    }
    AddAllows(looping, advancing, exit, m);
  }

  lemma {:induction false} ForSound(s: Statement, exit: Exit, m: P.Model, trusted: bool)
    requires trusted || StaysInside(exit)
    requires s.For? && WellFormed(s, trusted) && Exec(s, exit, m, trusted)
    ensures Allows(StatementExits(s), exit, m)
    decreases s, 2
  {
    var e :| Evaluates(s.init, e, m) && if e == Normal then exists n: nat :: ExecFor(s, n, exit, m, trusted) else exit == e;
    if e == Normal {
      var n: nat :| ExecFor(s, n, exit, m, trusted);
      ForIterationsSound(s, n, exit, m, trusted);
    } else {
      RemoveAllows(s.init.exitStates, Only(Normal), e, m);
      LoopExitsGrow(s.init.exitStates.Remove(Only(Normal)), ScopeExits(s.scope), exit, m);
    }
  }

  lemma {:induction false} ForIterationsSound(s: Statement, n: nat, exit: Exit, m: P.Model, trusted: bool)
    requires trusted || StaysInside(exit)
    requires s.For? && WellFormed(s, trusted) && s.init.exitStates.Has(Normal) && ExecFor(s, n, exit, m, trusted)
    ensures Allows(StatementExits(s), exit, m)
    decreases s, 1, n
  {
    var before, body := s.init.exitStates.Remove(Only(Normal)), ScopeExits(s.scope);
    if exit == Normal {
      LoopExitsCover(before, body, if body.Has(Break) then Break else Normal, m);
    } else {
      var b :| ExecScope(s.scope.statements, b, m, trusted) &&
        if b == Break then exit == Normal
        else if b == Normal || b == Continue then ExecFor(s, n - 1, exit, m, trusted)
        else exit == b;
      if b == Normal || b == Continue {
        ForIterationsSound(s, n - 1, exit, m, trusted);
      } else {
        ScopeSound(s.scope, b, m, trusted);
        LoopExitsCover(before, body, b, m);
      }
    }
  }

  lemma {:induction false} TrySound(s: Statement, exit: Exit, m: P.Model, trusted: bool)
    requires trusted || StaysInside(exit)
    requires s.Try? && WellFormed(s, trusted) && Exec(s, exit, m, trusted)
    ensures Allows(StatementExits(s), exit, m)
    decreases s, 2
  {
    var catches := s.catches;
    var e :| ExecScope(s.scope.statements, e, m, trusted) &&
      (exit == e || (e == Throw && exists i :: 0 <= i < |catches| && ExecCatch(catches, i, exit, m, trusted)));
    var start := NO_EXITS.Add(ScopeExits(s.scope));
    if exit == e {
      ScopeSound(s.scope, e, m, trusted);
      AddAllows(NO_EXITS, ScopeExits(s.scope), exit, m);
      CatchesExitsGrow(catches, start, exit, m);
    } else {
      var i :| 0 <= i < |catches| && ExecCatch(catches, i, exit, m, trusted);
      var c :| ExecScope(catches[i].statements, c, m, trusted) && exit == if c == Rethrow then Throw else c;
      assert catches[i] < s;
      ScopeSound(catches[i], c, m, trusted);
      CatchesExitsCover(catches, start, i, c, m);
    }
  }

  /**
   What scope exits further out can make of the exit `e` of the rest of a scope: a throwing exit is
   left alone, and any other may become a pending throw, or stay unless it is blocked.
   */
  ghost predicate Transfers(scan: Scan, e: Exit, exit: Exit, m: P.Model) {
    if IsThrowing(e) then exit == e
    else (IsThrowing(exit) && Allows(scan.pending, exit, m)) || (!scan.blocked && exit == e)
  }

  /** Every exit of a scope is among its exit states, including throws from scope(success) bodies. */
  lemma {:induction false} ScopeSound(scope: Scope, exit: Exit, m: P.Model, trusted: bool)
    requires trusted || StaysInside(exit)
    requires ScopeOK(scope.statements, trusted) && ExecScope(scope.statements, exit, m, trusted)
    ensures Allows(ScopeExits(scope), exit, m)
    decreases scope, 3
  {
    if scope.statements != [] {
      ScanSound(NEW_SCAN, scope.statements, exit, exit, m, trusted);
    }
  }

  lemma {:induction false} ScanSound(scan: Scan, statements: seq<Statement>, e: Exit, exit: Exit, m: P.Model, trusted: bool)
    requires trusted || StaysInside(exit)
    requires statements != [] && ScopeOK(statements, trusted)
    requires ExecScope(statements, e, m, trusted) && Transfers(scan, e, exit, m)
    ensures var (scan', last) := ScanAll(scan, statements);
      Allows(FinishScan(scan', last), exit, m)
    decreases statements, 3
  {
    var s, rest := statements[0], statements[1..];
    assert WellFormed(s, trusted) && ScopeOK(rest, trusted);
    var exits, scan1 := StatementExits(s), ScanStatement(scan, s);
    if s.ScopeExit? {
      var e1 :| ExecScope(rest, e1, m, trusted) && RunScopeExit(s, e1, e, m, trusted);
      ScopeExitTransfers(scan, s, e1, e, exit, m, trusted);
      if rest == [] {
        FinishCovers(scan1, exits, e1, exit, m);
      } else {
        ScanSound(scan1, rest, e1, exit, m, trusted);
      }
    } else {
      var e0 :| Exec(s, e0, m, trusted) && if e0 == Normal then ExecScope(rest, e, m, trusted) else e == e0;
      StatementSound(s, e0, m, trusted);
      if e0 != Normal {
        ScanCovers(scan, exits, e0, exit, m);
        if exits.Has(Normal) && rest != [] {
          ScanAllGrows(scan1, rest, exit, m);
        }
        var (scan', last) := ScanAll(scan, statements);
        FinishGrows(scan', last, exit, m);
      } else if rest == [] {
        FinishCovers(scan1, exits, e, exit, m);
      } else {
        ScanSound(scan1, rest, e, exit, m, trusted);
      }
    }
  }

  /** Leaving from a statement other than normally is recorded by the scan of the statement. */
  lemma ScanCovers(scan: Scan, exits: ExitStates, e: Exit, exit: Exit, m: P.Model)
    requires Allows(exits, e, m) && e != Normal && Transfers(scan, e, exit, m)
    ensures Allows(ScanExits(scan, exits).exits, exit, m)
  {
    AllStates();
    var leaving := exits.Remove(Only(Normal));
    RemoveAllows(exits, Only(Normal), e, m);
    var keeps := if scan.blocked then leaving.Remove(AllNonThrowing()) else leaving;
    var found := if leaving.OnlyHasStates(AllThrowing().Add(Only(Normal))) then scan.exits else scan.exits.Add(scan.pending);
    if exit == e && (IsThrowing(e) || !scan.blocked) {
      if scan.blocked {
        RemoveAllows(leaving, AllNonThrowing(), e, m);
      }
    } else {
      AddAllows(scan.exits, scan.pending, exit, m);
    }
    AddAllows(found, keeps, exit, m);
  }

  /** Leaving after the last statement normally is recorded at the end of the scan. */
  lemma FinishCovers(scan: Scan, last: ExitStates, e: Exit, exit: Exit, m: P.Model)
    requires Allows(last, e, m) && e == Normal && Transfers(scan, e, exit, m)
    ensures Allows(FinishScan(scan, last), exit, m)
  {
    AllStates();
    assert last.HasAnyNonThrowingStates();
    var kept := if scan.blocked then last.Remove(AllNonThrowing()) else last;
    if IsThrowing(exit) {
      AddAllows(scan.exits, scan.pending, exit, m);
    }
    AddAllows(scan.exits.Add(scan.pending), kept, exit, m);
  }

  /** What a scope exit makes of an exit, the scan after it accounts for. */
  lemma {:induction false} ScopeExitTransfers(scan: Scan, s: Statement, e1: Exit, e: Exit, exit: Exit, m: P.Model,
          trusted: bool)
    requires trusted || StaysInside(exit)
    requires s.ScopeExit? && WellFormed(s, trusted) && RunScopeExit(s, e1, e, m, trusted) && Transfers(scan, e, exit, m)
    ensures Transfers(ScanStatement(scan, s), e1, exit, m)
    decreases s, 2
  {
    AllStates();
    if AppliesTo(s.state, e1) {
      var body := ScopeExits(s.scope);
      var b :| ExecScope(s.scope.statements, b, m, trusted) && e == if b == Normal then e1 else b;
      ScopeSound(s.scope, b, m, trusted);
      if s.state == OnSuccess {
        var pending := if !body.Has(Normal) then NO_EXITS else scan.pending;
        if b != Normal {
          ThrowingAllows(body, b, m);
          AddAllows(pending, body.ThrowingStates(), b, m);
        } else if IsThrowing(exit) {
          AddAllows(pending, body.ThrowingStates(), exit, m);
        }
      }
    } else if s.state == OnFailure {
      assert ScanStatement(scan, s).pending == scan.pending;
    }
  }

  // ----- Consequences -----

  /** The self-loop emitted after a scope that cannot be exited normally is never reached. */
  lemma SelfLoopIsDead(scope: Scope, m: P.Model)
    requires ScopeOK(scope.statements, false) && !ScopeExits(scope).Has(Normal)
    ensures !ExecScope(scope.statements, Normal, m, false)
  {
    if ExecScope(scope.statements, Normal, m, false) {
      ScopeSound(scope, Normal, m, false);
    }
  }

  /** A throw out of an assertion that does not hold is not listed. */
  lemma AssertedThrow(value: Value, m: P.Model)
    ensures var s := AssertNoExcept(Scope([ThrowStmt(value)]));
      Exec(s, Throw, m, false) && !Exec(s, Throw, m, true) && !Allows(StatementExits(s), Throw, m)
  {
    var scope := Scope([ThrowStmt(value)]);
    assert Exec(ThrowStmt(value), Throw, m, false);
    assert ExecScope(scope.statements, Throw, m, false);
  }

  /** A scope whose noexcept predicate holds does not throw. */
  lemma NoexceptScopeDoesNotThrow(scope: Scope, m: P.Model)
    requires ScopeOK(scope.statements, true)
    requires P.Eval(ScopeExits(scope).noexcept, m) || !ScopeExits(scope).Has(Throw)
    ensures !ExecScope(scope.statements, Throw, m, true)
  {
    if ExecScope(scope.statements, Throw, m, true) {
      ScopeSound(scope, Throw, m, true);
    }
  }

  /**
   The rule for a for loop covers its exits exactly when its range cannot be reached, or its body
   can be exited normally or by a break: otherwise it misses the exit past an empty range.
   */
  lemma ForRuleIsSoundExactlyWhenCovered(s: Statement, m: P.Model)
    requires s.For? && ValueOK(s.init) && ScopeOK(s.scope.statements, true)
    ensures (forall exit :: Exec(s, exit, m, true) ==> Allows(StatementExits(s), exit, m)) <==> ForCovered(s)
  {
    if ForCovered(s) {
      forall exit | Exec(s, exit, m, true) ensures Allows(StatementExits(s), exit, m) {
        StatementSound(s, exit, m, true);
      }
    } else {
      assert Evaluates(s.init, Normal, m) && ExecFor(s, 0, Normal, m, true);
      assert Exec(s, Normal, m, true);
      assert Normal !in StatementExits(s).states;
    }
  }

  /** A for statement over a range whose body always returns; with an empty range it is left normally. */
  lemma ForNotCovered(m: P.Model)
    ensures var s := For(Value(Only(Normal)), Scope([ReturnVoid]));
      ValueOK(s.init) && ScopeOK(s.scope.statements, true) && !ForCovered(s)
      && Exec(s, Normal, m, true) && !Allows(StatementExits(s), Normal, m)
  {
    var s := For(Value(Only(Normal)), Scope([ReturnVoid]));
    ScopeExitsAreExact(s.scope);
    assert ReferenceStates([ReturnVoid]) == {Return};
    assert Evaluates(s.init, Normal, m) && ExecFor(s, 0, Normal, m, true);
  }

  // ----- Returns in the bodies of scope exits -----

  /** The rule for a scope exit covers what its scope can be left by, whatever the body is, as long as it has these exits. */
  ghost predicate ScopeExitRuleSound(state: ScopeExitState, exits: set<Exit>) {
    forall body: Scope, rest: seq<Statement>, exit, m: P.Model ::
      ScopeOK(body.statements, true) && ScopeExits(body).states == exits && ScopeOK(rest, true)
      && ExecScope([ScopeExit(state, body)] + rest, exit, m, true) ==>
        Allows(ScopeExits(Scope([ScopeExit(state, body)] + rest)), exit, m)
  }

  /** A body that returns on one way, and has the other exits on another. */
  function ReturningBody(exits: set<Exit>): Scope {
    Scope([If([IfClause(Value(Only(Normal)), Scope([ReturnVoid]))], Scope([ValueStmt(Value(ExitStates(exits - {Return}, P.False)))]))])
  }

  lemma SimpleScope(s: Statement)
    requires !s.ScopeExit?
    ensures ScopeExits(Scope([s])).states == StatementExits(s).states
  {
    ScopeExitsAreExact(Scope([s]));
    assert [s][1..] == [];
    if Normal in StatementExits(s).states {
      assert StatementExits(s).states - {Normal} + {Normal} == StatementExits(s).states;
    }
  }

  lemma ReturningBodyExits(exits: set<Exit>)
    requires Return in exits
    ensures ScopeExits(ReturningBody(exits)).states == exits
  {
    hide ScopeExits;
    var value := ValueStmt(Value(ExitStates(exits - {Return}, P.False)));
    var clause := IfClause(Value(Only(Normal)), Scope([ReturnVoid]));
    var s := If([clause], Scope([value]));
    SimpleScope(ReturnVoid);
    SimpleScope(value);
    SimpleScope(s);
    AllStates();
    var exits0 := NO_EXITS.Add(clause.condition.exitStates.ThrowingStates()).Add(ScopeExits(clause.scope));
    assert clause.condition.exitStates.ThrowingStates().states == {};
    assert [clause][1..] == [];
    assert IfExits([], exits0) == exits0 == IfExits([clause], NO_EXITS);
    assert StatementExits(s).states == {} + {} + {Return} + (exits - {Return});
  }

  lemma ReturningBodyReturns(exits: set<Exit>, m: P.Model)
    requires BodyAccepted(OnSuccess, exits)
    ensures ScopeOK(ReturningBody(exits).statements, true) && ExecScope(ReturningBody(exits).statements, Return, m, true)
  {
    var s := ReturningBody(exits).statements[0];
    AllStates();
    assert AllThrowing().Add(Only(Normal)).states == {Throw, Rethrow, Normal};
    assert WellFormed(ReturnVoid, true) && WellFormed(s.elseScope.statements[0], true);
    assert ClauseOK(s.clauses, 0, true);
    assert WellFormed(s, true);
    assert Evaluates(s.clauses[0].condition, Normal, m);
    assert Exec(ReturnVoid, Return, m, true) && ExecScope([ReturnVoid], Return, m, true);
    assert ExecIf(s, 0, Return, m, true);
    assert Exec(s, Return, m, true);
  }

  /** With that body, a scope that cannot return by its exit states does. */
  lemma ReturnGoesMissing(state: ScopeExitState, exits: set<Exit>, m: P.Model)
    requires Return in exits && BodyAccepted(state, exits)
    ensures !ScopeExitRuleSound(state, exits)
  {
    hide ReturningBody, ScopeExits;
    var body := ReturningBody(exits);
    ReturningBodyExits(exits);
    ReturningBodyReturns(exits, m);
    var s := ScopeExit(state, body);
    var rest := if state == OnFailure then [ThrowStmt(Value(Only(Normal)))] else [];
    assert Evaluates(Value(Only(Normal)), Normal, m);
    var e := if state == OnFailure then Throw else Normal;
    assert rest != [] ==> Exec(rest[0], Throw, m, true);
    assert ExecScope(rest, e, m, true);
    assert RunScopeExit(s, e, Return, m, true);
    var statements := [s] + rest;
    assert statements[0] == s && statements[1..] == rest;
    assert ExecScope(statements, Return, m, true);
    ScopeExitsAreExact(Scope(statements));
    NoReturnListed(s, rest);
    assert ScopeOK(rest, true);
    assert !Allows(ScopeExits(Scope(statements)), Return, m);
  }

  lemma NoReturnListed(s: Statement, rest: seq<Statement>)
    requires s.ScopeExit? && Return !in ReferenceStates(rest)
    ensures Return !in ReferenceStates([s] + rest)
  {
    assert ([s] + rest)[0] == s && ([s] + rest)[1..] == rest;
  }

  /** Of the accepted bodies, the rule for scope exits is sound exactly for those whose exits do not have a return. */
  lemma ScopeExitRuleIsSoundExactlyWithoutReturn(state: ScopeExitState, exits: set<Exit>, m: P.Model)
    requires BodyAccepted(state, exits)
    ensures ScopeExitRuleSound(state, exits) <==> Return !in exits
  {
    if Return in exits {
      ReturnGoesMissing(state, exits, m);
    } else {
      forall body: Scope, rest: seq<Statement>, exit, m: P.Model | ScopeOK(body.statements, true) && ScopeExits(body).states == exits
        && ScopeOK(rest, true) && ExecScope([ScopeExit(state, body)] + rest, exit, m, true)
        ensures Allows(ScopeExits(Scope([ScopeExit(state, body)] + rest)), exit, m)
      {
        ScopeSound(Scope([ScopeExit(state, body)] + rest), exit, m, true);
      }
    }
  }

  /** The shortest case: a scope whose only statement is a scope exit with a bare return. */
  lemma ReturnInScopeExit(m: P.Model)
    ensures var statements := [ScopeExit(OnExit, Scope([ReturnVoid]))];
      ExecScope(statements, Return, m, true) && !Allows(ScopeExits(Scope(statements)), Return, m)
  {
    var s := ScopeExit(OnExit, Scope([ReturnVoid]));
    assert [s][1..] == [];
    assert Exec(ReturnVoid, Return, m, true) && ExecScope([ReturnVoid], Return, m, true);
    assert RunScopeExit(s, Normal, Return, m, true);
    hide ExecScope, ScopeExits;
    ScopeExitsAreExact(Scope([s]));
    NoReturnListed(s, []);
    assert [s] + [] == [s];
  }

  const RETURNING := ScopeStmt(Scope([ScopeExit(OnExit, Scope([ReturnVoid]))]))

  function PastReturning(value: Value): seq<Statement> {
    [ScopeExit(OnSuccess, Scope([ThrowStmt(value)])), RETURNING, Unreachable]
  }

  lemma PastReturningThrows(value: Value, m: P.Model)
    ensures ExecScope(PastReturning(value), Throw, m, true)
  {
    var statements := PastReturning(value);
    var s, body := statements[0], [ThrowStmt(value)];
    assert s.scope.statements == body;
    assert body[1..] == [] && statements[1..] == [RETURNING, Unreachable];
    ReturnInScopeExit(m);
    assert Exec(RETURNING, Return, m, true);
    assert ExecScope([RETURNING, Unreachable], Return, m, true);
    assert Exec(body[0], Throw, m, true);
    assert ExecScope(body, Throw, m, true);
    assert RunScopeExit(s, Return, Throw, m, true);
  }

  lemma NothingAfterReturning()
    ensures ReferenceStates([RETURNING, Unreachable]) == {}
  {
    hide ScopeExits;
    var s := ScopeExit(OnExit, Scope([ReturnVoid]));
    ScopeExitsAreExact(RETURNING.scope);
    assert [s][1..] == [] && StatementExits(s).states == {Normal};
    assert ReferenceStates([s]) == {Normal};
    assert StatementExits(RETURNING).states == {Normal};
    assert [RETURNING, Unreachable][1..] == [Unreachable];
    assert ReferenceStates([Unreachable]) == {};
  }

  /**
   A missing return can hide a throw: the scope(success) it passes is taken not to run.  So a scope without a throw
   among its exits can throw if the body of a scope exit in it returns.
   */
  lemma ReturnHidesThrow(value: Value, m: P.Model)
    ensures ExecScope(PastReturning(value), Throw, m, true) && !ScopeExits(Scope(PastReturning(value))).Has(Throw)
  {
    hide ExecScope, ScopeExits;
    PastReturningThrows(value, m);
    NothingAfterReturning();
    var statements := PastReturning(value);
    ScopeExitsAreExact(Scope(statements));
    assert statements[1..] == [RETURNING, Unreachable];
    assert ReferenceStates(statements) == {};
  }

  // ----- The scan of a scope is exact for its statements' exit states -----

  /** The exits that get past a scope(success) whose body has exits `success`. */
  function PastSuccess(success: set<Exit>, exits: set<Exit>): set<Exit> {
    var throwing := {Throw, Rethrow};
    if exits <= throwing then exits
    else (exits * throwing) + (success * throwing) + (if Normal in success then exits - throwing else {})
  }

  /** The exits of a scope read off from the back, one statement at a time. */
  function ReferenceStates(statements: seq<Statement>): set<Exit> {
    if statements == [] then {Normal}
    else
      var s, rest := statements[0], ReferenceStates(statements[1..]);
      if s.ScopeExit? && s.state == OnSuccess then PastSuccess(ScopeExits(s.scope).states, rest)
      else
        var exits := StatementExits(s).states;
        if Normal in exits then (exits - {Normal}) + rest else exits
  }

  /** What the scan makes of exits found later: it adds to what it has, and lets these through. */
  function Through(scan: Scan, exits: set<Exit>): set<Exit> {
    var throwing := {Throw, Rethrow};
    scan.exits.states +
    if exits <= throwing then exits
    else (exits * throwing) + scan.pending.states + (if scan.blocked then {} else exits - throwing)
  }

  lemma SplitStates(exits: set<Exit>)
    ensures exits - {Normal, Return, Break, Continue} == exits * {Throw, Rethrow}
    ensures exits <= {Throw, Rethrow} ==> exits * {Throw, Rethrow} == exits
    ensures exits * {Throw, Rethrow} + (exits - {Throw, Rethrow}) == exits
  {
    forall x <- exits ensures x in {Normal, Return, Break, Continue} + {Throw, Rethrow} {
      assert x.Normal? || x.Return? || x.Break? || x.Continue? || x.Throw? || x.Rethrow?;
    }
  }

  lemma ScanExitsStates(scan: Scan, exits: ExitStates)
    ensures ScanExits(scan, exits).exits.states == Through(scan, exits.states - {Normal})
    ensures ScanExits(scan, exits).pending == scan.pending && ScanExits(scan, exits).blocked == scan.blocked
  {
    AllStates();
    SplitStates(exits.states - {Normal});
    assert AllThrowing().Add(Only(Normal)).states == {Throw, Rethrow, Normal};
    assert exits.states - {Normal} <= {Throw, Rethrow, Normal} <==> exits.states - {Normal} <= {Throw, Rethrow};
  }

  lemma FinishStates(scan: Scan, last: ExitStates)
    ensures FinishScan(scan, last).states == Through(scan, last.states)
  {
    AllStates();
    SplitStates(last.states);
  }

  /** The forward scan, with its pending and blocked exits, finds exactly the reference exits. */
  lemma {:induction false} ScanIsExact(scan: Scan, statements: seq<Statement>)
    requires statements != []
    ensures var (scan', last) := ScanAll(scan, statements);
      FinishScan(scan', last).states == Through(scan, ReferenceStates(statements))
    decreases |statements|
  {
    hide Through, FinishScan, ScanExits, ScanSuccess, StatementExits, ScopeExits, PastSuccess;
    var s, rest := statements[0], statements[1..];
    var exits, scan1 := StatementExits(s), ScanStatement(scan, s);
    var scanned := ScanExits(scan, exits);
    ScanExitsStates(scan, exits);
    if exits.Has(Normal) && rest != [] {
      ScanIsExact(scan1, rest);
    } else {
      FinishStates(scan1, exits);
    }
    if s.ScopeExit? && s.state == OnSuccess {
      ExitsOfScopeExit(s);
      SuccessStates(scan, ScopeExits(s.scope), ReferenceStates(rest));
      NothingThrough(scan, scanned);
      SuccessFromScanned(scan, scanned, ScopeExits(s.scope), ReferenceStates(rest));
    } else if exits.Has(Normal) && rest != [] {
      ThroughUnion(scan, scanned, exits.states - {Normal}, ReferenceStates(rest));
    } else if exits.Has(Normal) {
      assert exits.states - {Normal} + exits.states == exits.states - {Normal} + {Normal};
      ThroughUnion(scan, scanned, exits.states - {Normal}, exits.states);
    } else {
      assert exits.states - {Normal} == exits.states;
      ThroughUnion(scan, scanned, exits.states, exits.states);
      assert exits.states + exits.states == exits.states;
    }
  }

  lemma ExitsOfScopeExit(s: Statement)
    requires s.ScopeExit?
    ensures StatementExits(s).states == {Normal}
    ensures StatementExits(s).states - {Normal} == {}
  {}

  lemma NothingThrough(scan: Scan, scanned: Scan)
    requires scanned.exits.states == Through(scan, {})
    ensures scanned.exits.states == scan.exits.states
  {}

  lemma SuccessFromScanned(scan: Scan, scanned: Scan, success: ExitStates, exits: set<Exit>)
    requires scanned.exits.states == scan.exits.states && scanned.pending == scan.pending && scanned.blocked == scan.blocked
    ensures Through(ScanSuccess(scanned, success), exits) == Through(ScanSuccess(scan, success), exits)
  {}

  /** Exits can be let through one after the other. */
  lemma ThroughUnion(scan: Scan, scan1: Scan, exits: set<Exit>, more: set<Exit>)
    requires scan1.exits.states == Through(scan, exits)
    requires scan1.pending.states == scan.pending.states && scan1.blocked == scan.blocked
    ensures Through(scan1, more) == Through(scan, exits + more)
  {}

  lemma SuccessStates(scan: Scan, success: ExitStates, exits: set<Exit>)
    ensures Through(ScanSuccess(scan, success), exits) == Through(scan, PastSuccess(success.states, exits))
  {
    AllStates();
  }

  /** Relative to the exit states of its statements, a scope has no exit that its statements do not give it. */
  lemma ScopeExitsAreExact(scope: Scope)
    ensures ScopeExits(scope).states == ReferenceStates(scope.statements)
  {
    if scope.statements != [] {
      ScanIsExact(NEW_SCAN, scope.statements);
    }
  }
}

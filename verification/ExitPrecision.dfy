/**
 The analysis of exits is not only sound: where every part of a program can be reached it lists nothing that
 cannot happen.
 */
module ExitPrecision {
  import P = Predicate
  import opened ExitStates
  import opened Statements
  import opened ExitSoundness

  // ----- Programs without parts that cannot be reached -----

  /** Values are opaque; they can be anything that is written with a predicate only where it can throw. */
  predicate Reaches(value: Value) {
    Proper(value.exitStates) && value.exitStates.Has(Normal)
  }

  /** Control can get to every part of the statement. Only executions are asked about, not what the analysis says. */
  ghost predicate Live(s: Statement, m: P.Model)
    decreases s, 1
  {
    match s
    case ValueStmt(value) => Proper(value.exitStates)
    case ScopeStmt(scope) => LiveScope(scope.statements, m)
    case Initialise(value) => Proper(value.exitStates)
    case Assign(lvalue, rvalue) => Proper(lvalue.exitStates) && Reaches(rvalue)
    case If(clauses, elseScope) =>
      && (forall i :: 0 <= i < |clauses| ==> LiveClause(clauses, i, m))
      && LiveScope(elseScope.statements, m)
    case Switch(value, cases, defaultCase) =>
      && Reaches(value)
      && (forall i :: 0 <= i < |cases| ==> LiveScope(cases[i].statements, m))
      && (defaultCase.Default? ==> LiveScope(defaultCase.scope.statements, m))
    case Loop(condition, iterationScope, advanceScope) =>
      && Reaches(condition) && LiveScope(iterationScope.statements, m) && LiveScope(advanceScope.statements, m)
      && ((forall a :: ExecScope(advanceScope.statements, a, m, true) ==> a == Normal)
          || ExecScope(iterationScope.statements, Normal, m, true) || ExecScope(iterationScope.statements, Continue, m, true))
    case For(init, scope) => Reaches(init) && LiveScope(scope.statements, m)
    case Try(scope, catches) =>
      && LiveScope(scope.statements, m)
      && (forall i :: 0 <= i < |catches| ==> LiveScope(catches[i].statements, m))
      && (catches != [] ==> ExecScope(scope.statements, Throw, m, true))
    case ScopeExit(state, scope) =>
      LiveScope(scope.statements, m) && (state != OnSuccess ==> ExecScope(scope.statements, Normal, m, true))
    case ReturnValue(value) => Reaches(value)
    case Assert(value) => Proper(value.exitStates)
    case AssertNoExcept(scope) => LiveScope(scope.statements, m)
    case _ => true
  }

  ghost predicate LiveClause(clauses: seq<IfClause>, i: nat, m: P.Model)
    requires i < |clauses|
    decreases clauses, 0
  {
    var clause := clauses[i];
    assert clause.scope < clause && clause in clauses;
    Reaches(clause.condition) && LiveScope(clause.scope.statements, m)
  }

  /** Statements behind one that does not end normally may be anything. */
  ghost predicate LiveScope(statements: seq<Statement>, m: P.Model)
    decreases statements, 0
  {
    statements == []
    || (Live(statements[0], m) && (Exec(statements[0], Normal, m, true) ==> LiveScope(statements[1..], m)))
  }

  // ----- Predicates come with throws only -----

  lemma {:induction false} StatementProper(s: Statement, m: P.Model)
    requires WellFormed(s, true) && Live(s, m)
    ensures Proper(StatementExits(s))
    decreases s, 2
  {
    hide ScopeExits;
    match s
    case ScopeStmt(scope) => ScopeProper(scope.statements, m);
    case Assign(lvalue, rvalue) =>
      StaysProper(rvalue.exitStates, lvalue.exitStates);
      StaysProper(NO_EXITS, rvalue.exitStates.ThrowingStates());
      StaysProper(NO_EXITS.Add(rvalue.exitStates.ThrowingStates()), lvalue.exitStates);
    case If(clauses, elseScope) =>
      assert clauses[0..] == clauses;
      IfProper(s, 0, NO_EXITS, m);
      ScopeProper(elseScope.statements, m);
      StaysProper(IfExits(clauses, NO_EXITS), ScopeExits(elseScope));
    case Switch(value, cases, defaultCase) =>
      StaysProper(value.exitStates, NO_EXITS);
      StaysProper(NO_EXITS, value.exitStates.ThrowingStates());
      forall i | 0 <= i < |cases| ensures Proper(ScopeExits(cases[i])) {
        assert cases[i] < s;
        ScopeProper(cases[i].statements, m);
      }
      ScopesProper(cases, NO_EXITS.Add(value.exitStates.ThrowingStates()));
      if defaultCase.Default? {
        assert defaultCase.scope < s;
        ScopeProper(defaultCase.scope.statements, m);
        StaysProper(ScopesExits(cases, NO_EXITS.Add(value.exitStates.ThrowingStates())), ScopeExits(defaultCase.scope));
      }
    case Loop(condition, iterationScope, advanceScope) =>
      ScopeProper(iterationScope.statements, m);
      ScopeProper(advanceScope.statements, m);
      LoopProper(condition.exitStates, ScopeExits(iterationScope));
      StaysProper(ScopeExits(advanceScope), Only(Normal));
      StaysProper(LoopExits(condition.exitStates, ScopeExits(iterationScope)), ScopeExits(advanceScope).Remove(Only(Normal)));
    case For(init, scope) =>
      ScopeProper(scope.statements, m);
      StaysProper(init.exitStates, Only(Normal));
      LoopProper(init.exitStates.Remove(Only(Normal)), ScopeExits(scope));
    case Try(scope, catches) =>
      ScopeProper(scope.statements, m);
      StaysProper(NO_EXITS, ScopeExits(scope));
      forall i | 0 <= i < |catches| ensures Proper(ScopeExits(catches[i])) {
        assert catches[i] < s;
        ScopeProper(catches[i].statements, m);
      }
      CatchesProper(catches, NO_EXITS.Add(ScopeExits(scope)));
    case ReturnValue(value) =>
      StaysProper(value.exitStates, NO_EXITS);
      StaysProper(Only(Return), value.exitStates.ThrowingStates());
    case AssertNoExcept(scope) =>
      ScopeProper(scope.statements, m);
      BasicsProper(Normal, P.True);
      StaysProper(ScopeExits(scope), AllThrowing());
    case _ =>
  }

  lemma {:induction false} IfProper(s: Statement, i: nat, exits: ExitStates, m: P.Model)
    requires s.If? && WellFormed(s, true) && Live(s, m) && i <= |s.clauses| && Proper(exits)
    ensures Proper(IfExits(s.clauses[i..], exits))
    decreases s, 1, |s.clauses| - i
  {
    hide ScopeExits;
    if i < |s.clauses| {
      var clause, rest := s.clauses[i], s.clauses[i..];
      assert ClauseOK(s.clauses, i, true) && LiveClause(s.clauses, i, m);
      assert clause.scope < clause && clause < s;
      assert rest[0] == clause && rest[1..] == s.clauses[i + 1..];
      ScopeProper(clause.scope.statements, m);
      StaysProper(clause.condition.exitStates, NO_EXITS);
      var throws := clause.condition.exitStates.ThrowingStates();
      StaysProper(exits, throws);
      StaysProper(exits.Add(throws), ScopeExits(clause.scope));
      IfProper(s, i + 1, exits.Add(throws).Add(ScopeExits(clause.scope)), m);
    }
  }

  lemma {:induction false} ScopesProper(scopes: seq<Scope>, exits: ExitStates)
    requires Proper(exits) && forall i :: 0 <= i < |scopes| ==> Proper(ScopeExits(scopes[i]))
    ensures Proper(ScopesExits(scopes, exits))
  {
    hide ScopeExits;
    if scopes != [] {
      StaysProper(exits, ScopeExits(scopes[0]));
      ScopesProper(scopes[1..], exits.Add(ScopeExits(scopes[0])));
    }
  }

  lemma CatchProper(exits: ExitStates, catchExits: ExitStates)
    requires Proper(exits) && Proper(catchExits)
    ensures Proper(CatchExits(exits, catchExits))
  {
    StaysProper(exits, catchExits);
    StaysProper(catchExits, Only(Rethrow));
    StaysProper(exits, ThrowAlways());
    StaysProper(exits.Add(ThrowAlways()), catchExits.Remove(Only(Rethrow)));
  }

  lemma {:induction false} CatchesProper(catches: seq<Scope>, exits: ExitStates)
    requires Proper(exits) && forall i :: 0 <= i < |catches| ==> Proper(ScopeExits(catches[i]))
    ensures Proper(CatchesExits(catches, exits))
  {
    hide ScopeExits, CatchExits;
    if catches != [] {
      CatchProper(exits, ScopeExits(catches[0]));
      CatchesProper(catches[1..], CatchExits(exits, ScopeExits(catches[0])));
    }
  }

  lemma LoopProper(before: ExitStates, iteration: ExitStates)
    requires Proper(before) && Proper(iteration)
    ensures Proper(LoopExits(before, iteration))
  {
    var body := iteration.Remove(Only(Continue));
    StaysProper(iteration, Only(Continue));
    StaysProper(before, body);
    StaysProper(before, Only(Normal));
    StaysProper(body, Only(Break));
    StaysProper(before.Add(Only(Normal)), body.Remove(Only(Break)));
  }

  /** What a scan carries is proper, and only throws are pending. */
  predicate ScanProper(scan: Scan) {
    Proper(scan.exits) && Proper(scan.pending) && scan.pending.states <= {Throw, Rethrow}
  }

  lemma ScanExitsProper(scan: Scan, exits: ExitStates)
    requires ScanProper(scan) && Proper(exits)
    ensures ScanProper(ScanExits(scan, exits))
  {
    var leaving := exits.Remove(Only(Normal));
    StaysProper(exits, Only(Normal));
    BasicsProper(Normal, P.True);
    StaysProper(leaving, AllNonThrowing());
    StaysProper(scan.exits, scan.pending);
    var found := if leaving.OnlyHasStates(AllThrowing().Add(Only(Normal))) then scan.exits else scan.exits.Add(scan.pending);
    StaysProper(found, if scan.blocked then leaving.Remove(AllNonThrowing()) else leaving);
  }

  lemma ScanSuccessProper(scan: Scan, success: ExitStates)
    requires ScanProper(scan) && Proper(success)
    ensures ScanProper(ScanSuccess(scan, success))
  {
    AllStates();
    StaysProper(success, NO_EXITS);
    StaysProper(if !success.Has(Normal) then NO_EXITS else scan.pending, success.ThrowingStates());
  }

  lemma {:induction false} ScanStatementProper(scan: Scan, s: Statement, m: P.Model)
    requires ScanProper(scan) && WellFormed(s, true) && Live(s, m)
    ensures ScanProper(ScanStatement(scan, s)) && Proper(StatementExits(s))
    decreases s, 3
  {
    hide StatementExits, ScopeExits, ScanExits, ScanSuccess;
    StatementProper(s, m);
    ScanExitsProper(scan, StatementExits(s));
    if s.ScopeExit? {
      ScopeProper(s.scope.statements, m);
      ScanSuccessProper(ScanExits(scan, StatementExits(s)), ScopeExits(s.scope));
    }
  }

  lemma {:induction false} ScanAllProper(scan: Scan, statements: seq<Statement>, m: P.Model)
    requires statements != [] && ScanProper(scan) && ScopeOK(statements, true) && LiveScope(statements, m)
    ensures var (scan', last) := ScanAll(scan, statements);
      ScanProper(scan') && Proper(last)
    decreases statements, 3
  {
    hide StatementExits, ScanStatement;
    var s, rest := statements[0], statements[1..];
    assert WellFormed(s, true) && ScopeOK(rest, true);
    ScanStatementProper(scan, s, m);
    if StatementExits(s).Has(Normal) && rest != [] {
      StatementPrecise(s, Normal, m);
      ScanAllProper(ScanStatement(scan, s), rest, m);
    }
  }

  lemma FinishProper(scan: Scan, last: ExitStates)
    requires ScanProper(scan) && Proper(last)
    ensures Proper(FinishScan(scan, last))
  {
    BasicsProper(Normal, P.True);
    StaysProper(scan.exits, scan.pending);
    StaysProper(last, AllNonThrowing());
    var found := if last.HasAnyNonThrowingStates() then scan.exits.Add(scan.pending) else scan.exits;
    StaysProper(found, if scan.blocked then last.Remove(AllNonThrowing()) else last);
  }

  lemma {:induction false} ScopeProper(statements: seq<Statement>, m: P.Model)
    requires ScopeOK(statements, true) && LiveScope(statements, m)
    ensures Proper(ScopeExits(Scope(statements)))
    decreases statements, 4
  {
    hide FinishScan, ScanAll;
    if statements != [] {
      ScanAllProper(NEW_SCAN, statements, m);
      var (scan, last) := ScanAll(NEW_SCAN, statements);
      FinishProper(scan, last);
    }
  }

  // ----- Nothing is listed that cannot happen -----

  /** In a program whose parts can all be reached, every exit that is listed is one that can be taken. */
  lemma {:induction false} StatementPrecise(s: Statement, exit: Exit, m: P.Model)
    requires WellFormed(s, true) && Live(s, m) && Allows(StatementExits(s), exit, m)
    ensures Exec(s, exit, m, true)
    decreases s, 3
  {
    hide Exec, StatementExits, WellFormed, Live;
    match s
    case ScopeStmt(_) => NestedPrecise(s, exit, m);
    case AssertNoExcept(_) => NestedPrecise(s, exit, m);
    case Assign(_, _) => AssignPrecise(s, exit, m);
    case If(clauses, _) =>
      assert clauses[0..] == clauses;
      IfStatesFrom(s);
      IfPrecise(s, 0, NO_EXITS, exit, m);
    case Switch(_, _, _) => SwitchPrecise(s, exit, m);
    case Loop(_, _, _) => LoopPrecise(s, exit, m);
    case For(_, _) => ForPrecise(s, exit, m);
    case Try(_, _) => TryPrecise(s, exit, m);
    case ReturnValue(_) => ReturnPrecise(s, exit, m);
    case _ => SimplePrecise(s, exit, m);
  }

  lemma IfStatesFrom(s: Statement)
    requires s.If?
    ensures StatementExits(s) == IfExits(s.clauses, NO_EXITS).Add(ScopeExits(s.elseScope))
    ensures forall exit, m :: Exec(s, exit, m, true) <==> ExecIf(s, 0, exit, m, true)
  {
    hide ScopeExits, IfExits, ExecIf;
  }

  lemma {:induction false} NestedPrecise(s: Statement, exit: Exit, m: P.Model)
    requires s.ScopeStmt? || s.AssertNoExcept?
    requires WellFormed(s, true) && Live(s, m) && Allows(StatementExits(s), exit, m)
    ensures Exec(s, exit, m, true)
    decreases s, 2
  {
    hide ScopeExits, ExecScope;
    AllStates();
    RemoveAllows(ScopeExits(s.scope), AllThrowing(), exit, m);
    ScopePrecise(s.scope.statements, exit, m);
  }

  lemma SimplePrecise(s: Statement, exit: Exit, m: P.Model)
    requires s.ValueStmt? || s.Initialise? || s.ScopeExit? || s.ReturnVoid? || s.ThrowStmt? || s.RethrowStmt? || s.BreakStmt?
      || s.ContinueStmt? || s.Assert? || s.Unreachable?
    requires Allows(StatementExits(s), exit, m)
    ensures Exec(s, exit, m, true)
  {}

  lemma ReturnPrecise(s: Statement, exit: Exit, m: P.Model)
    requires s.ReturnValue? && Live(s, m) && Allows(StatementExits(s), exit, m)
    ensures Exec(s, exit, m, true)
  {
    StaysProper(s.value.exitStates, NO_EXITS);
    AddAllows(Only(Return), s.value.exitStates.ThrowingStates(), exit, m);
    ThrowingAllows(s.value.exitStates, exit, m);
    assert Evaluates(s.value, if exit == Return then Normal else exit, m);
  }

  lemma AssignPrecise(s: Statement, exit: Exit, m: P.Model)
    requires s.Assign? && WellFormed(s, true) && Live(s, m) && Allows(StatementExits(s), exit, m)
    ensures Exec(s, exit, m, true)
  {
    var throws := s.rvalue.exitStates.ThrowingStates();
    StaysProper(s.rvalue.exitStates, NO_EXITS);
    StaysProper(NO_EXITS, throws);
    AddAllows(NO_EXITS.Add(throws), s.lvalue.exitStates, exit, m);
    AddAllows(NO_EXITS, throws, exit, m);
    ThrowingAllows(s.rvalue.exitStates, exit, m);
    if Allows(s.lvalue.exitStates, exit, m) {
      assert Evaluates(s.rvalue, Normal, m);
    } else {
      assert Evaluates(s.rvalue, exit, m);
    }
  }

  lemma {:induction false} IfPrecise(s: Statement, i: nat, exits: ExitStates, exit: Exit, m: P.Model)
    requires s.If? && WellFormed(s, true) && Live(s, m) && i <= |s.clauses| && Proper(exits)
    requires Allows(IfExits(s.clauses[i..], exits).Add(ScopeExits(s.elseScope)), exit, m)
    ensures Allows(exits, exit, m) || ExecIf(s, i, exit, m, true)
    decreases s, 2, |s.clauses| - i
  {
    hide ScopeExits;
    if i == |s.clauses| {
      ScopeProper(s.elseScope.statements, m);
      AddAllows(exits, ScopeExits(s.elseScope), exit, m);
      if Allows(ScopeExits(s.elseScope), exit, m) {
        ScopePrecise(s.elseScope.statements, exit, m);
      }
    } else {
      var clause, rest := s.clauses[i], s.clauses[i..];
      assert ClauseOK(s.clauses, i, true) && LiveClause(s.clauses, i, m);
      assert clause.scope < clause && clause < s;
      assert rest[0] == clause && rest[1..] == s.clauses[i + 1..];
      var throws := clause.condition.exitStates.ThrowingStates();
      ScopeProper(clause.scope.statements, m);
      StaysProper(clause.condition.exitStates, NO_EXITS);
      StaysProper(exits, throws);
      StaysProper(exits.Add(throws), ScopeExits(clause.scope));
      IfPrecise(s, i + 1, exits.Add(throws).Add(ScopeExits(clause.scope)), exit, m);
      assert Evaluates(clause.condition, Normal, m);
      if !ExecIf(s, i + 1, exit, m, true) {
        AddAllows(exits.Add(throws), ScopeExits(clause.scope), exit, m);
        AddAllows(exits, throws, exit, m);
        ThrowingAllows(clause.condition.exitStates, exit, m);
        if Allows(ScopeExits(clause.scope), exit, m) {
          ScopePrecise(clause.scope.statements, exit, m);
        } else if !Allows(exits, exit, m) {
          assert Evaluates(clause.condition, exit, m);
        }
      }
    }
  }

  lemma {:induction false} ScopesPrecise(scopes: seq<Scope>, exits: ExitStates, exit: Exit, m: P.Model)
    requires Proper(exits) && forall i :: 0 <= i < |scopes| ==> Proper(ScopeExits(scopes[i]))
    requires Allows(ScopesExits(scopes, exits), exit, m)
    ensures Allows(exits, exit, m) || exists i :: 0 <= i < |scopes| && Allows(ScopeExits(scopes[i]), exit, m)
  {
    hide ScopeExits;
    if scopes != [] {
      StaysProper(exits, ScopeExits(scopes[0]));
      AddAllows(exits, ScopeExits(scopes[0]), exit, m);
      ScopesPrecise(scopes[1..], exits.Add(ScopeExits(scopes[0])), exit, m);
    }
  }

  lemma {:induction false} SwitchPrecise(s: Statement, exit: Exit, m: P.Model)
    requires s.Switch? && WellFormed(s, true) && Live(s, m) && Allows(StatementExits(s), exit, m)
    ensures Exec(s, exit, m, true)
    decreases s, 2
  {
    hide ScopeExits, ScopesExits, ExecScope;
    var value, cases, defaultCase := s.value, s.cases, s.defaultCase;
    var throws := value.exitStates.ThrowingStates();
    var start := NO_EXITS.Add(throws);
    StaysProper(value.exitStates, NO_EXITS);
    StaysProper(NO_EXITS, throws);
    forall i | 0 <= i < |cases| ensures Proper(ScopeExits(cases[i])) {
      assert cases[i] < s;
      ScopeProper(cases[i].statements, m);
    }
    ScopesProper(cases, start);
    assert Evaluates(value, Normal, m);
    if defaultCase.Default? {
      assert defaultCase.scope < s;
      ScopeProper(defaultCase.scope.statements, m);
      AddAllows(ScopesExits(cases, start), ScopeExits(defaultCase.scope), exit, m);
    }
    if defaultCase.Default? && Allows(ScopeExits(defaultCase.scope), exit, m) {
      ScopePrecise(defaultCase.scope.statements, exit, m);
    } else {
      ScopesPrecise(cases, start, exit, m);
      if i :| 0 <= i < |cases| && Allows(ScopeExits(cases[i]), exit, m) {
        assert cases[i] < s;
        ScopePrecise(cases[i].statements, exit, m);
      } else {
        AddAllows(NO_EXITS, throws, exit, m);
        ThrowingAllows(value.exitStates, exit, m);
        assert Evaluates(value, exit, m);
      }
    }
  }

  /** A loop has the exits before it, and those of its body but for continues, with breaks made normal. */
  lemma LoopExitsPrecise(before: ExitStates, iteration: ExitStates, exit: Exit, m: P.Model)
    requires Proper(before) && Proper(iteration) && Allows(LoopExits(before, iteration), exit, m)
    ensures Allows(before, exit, m) || (exit == Normal && iteration.Has(Break))
      || (Allows(iteration, exit, m) && exit != Break && exit != Continue)
  {
    var body := iteration.Remove(Only(Continue));
    StaysProper(iteration, Only(Continue));
    StaysProper(body, Only(Break));
    StaysProper(before, Only(Normal));
    RemoveAllows(iteration, Only(Continue), exit, m);
    RemoveAllows(body, Only(Break), exit, m);
    AddAllows(before, body, exit, m);
    AddAllows(before, Only(Normal), exit, m);
    AddAllows(before.Add(Only(Normal)), body.Remove(Only(Break)), exit, m);
  }

  lemma {:induction false} LoopPrecise(s: Statement, exit: Exit, m: P.Model)
    requires s.Loop? && WellFormed(s, true) && Live(s, m) && Allows(StatementExits(s), exit, m)
    ensures Exec(s, exit, m, true)
    decreases s, 2
  {
    hide ScopeExits, ExecScope, LoopExits;
    var condition, iteration, advance := s.condition.exitStates, ScopeExits(s.iterationScope), ScopeExits(s.advanceScope);
    ScopeProper(s.iterationScope.statements, m);
    ScopeProper(s.advanceScope.statements, m);
    LoopProper(condition, iteration);
    StaysProper(advance, Only(Normal));
    AddAllows(LoopExits(condition, iteration), advance.Remove(Only(Normal)), exit, m);
    RemoveAllows(advance, Only(Normal), exit, m);
    assert Evaluates(s.condition, Normal, m);
    if exit == Normal || Allows(condition, exit, m) {
      assert Evaluates(s.condition, exit, m);
      assert ExecLoop(s, 0, exit, m, true);
    } else {
      if Allows(LoopExits(condition, iteration), exit, m) {
        LoopExitsPrecise(condition, iteration, exit, m);
        ScopePrecise(s.iterationScope.statements, exit, m);
      } else {
        ScopePrecise(s.advanceScope.statements, exit, m);
      }
      assert ExecIteration(s, 1, exit, m, true);
      assert ExecLoop(s, 1, exit, m, true);
    }
  }

  lemma {:induction false} ForPrecise(s: Statement, exit: Exit, m: P.Model)
    requires s.For? && WellFormed(s, true) && Live(s, m) && Allows(StatementExits(s), exit, m)
    ensures Exec(s, exit, m, true)
    decreases s, 2
  {
    hide ScopeExits, ExecScope, LoopExits;
    var before, body := s.init.exitStates.Remove(Only(Normal)), ScopeExits(s.scope);
    ScopeProper(s.scope.statements, m);
    StaysProper(s.init.exitStates, Only(Normal));
    LoopExitsPrecise(before, body, exit, m);
    RemoveAllows(s.init.exitStates, Only(Normal), exit, m);
    assert Evaluates(s.init, Normal, m);
    if exit == Normal {
      assert ExecFor(s, 0, exit, m, true);
    } else if Allows(before, exit, m) {
      assert Evaluates(s.init, exit, m);
    } else {
      ScopePrecise(s.scope.statements, exit, m);
      assert ExecForIteration(s, 1, exit, m, true);
      assert ExecFor(s, 1, exit, m, true);
    }
  }

  /** A catch clause with these exits gives the exit; its rethrow is a throw. */
  ghost predicate Caught(catchExits: ExitStates, exit: Exit, m: P.Model) {
    exists c :: Allows(catchExits, c, m) && exit == if c == Rethrow then Throw else c
  }

  lemma CatchPrecise(exits: ExitStates, catchExits: ExitStates, exit: Exit, m: P.Model)
    requires Proper(exits) && Proper(catchExits) && Allows(CatchExits(exits, catchExits), exit, m)
    ensures Allows(exits, exit, m) || Caught(catchExits, exit, m)
  {
    var kept := catchExits.Remove(Only(Rethrow));
    StaysProper(catchExits, Only(Rethrow));
    StaysProper(exits, ThrowAlways());
    RemoveAllows(catchExits, Only(Rethrow), exit, m);
    AddAllows(exits, catchExits, exit, m);
    AddAllows(exits, ThrowAlways(), exit, m);
    AddAllows(exits.Add(ThrowAlways()), kept, exit, m);
    assert catchExits.Has(Rethrow) ==> Allows(catchExits, Rethrow, m);
    assert Allows(catchExits, exit, m) && exit != Rethrow ==> Caught(catchExits, exit, m);
  }

  lemma {:induction false} CatchesPrecise(catches: seq<Scope>, exits: ExitStates, exit: Exit, m: P.Model)
    requires Proper(exits) && forall i :: 0 <= i < |catches| ==> Proper(ScopeExits(catches[i]))
    requires Allows(CatchesExits(catches, exits), exit, m)
    ensures Allows(exits, exit, m) || exists i :: 0 <= i < |catches| && Caught(ScopeExits(catches[i]), exit, m)
  {
    hide ScopeExits, CatchExits;
    if catches != [] {
      CatchProper(exits, ScopeExits(catches[0]));
      CatchesPrecise(catches[1..], CatchExits(exits, ScopeExits(catches[0])), exit, m);
      if Allows(CatchExits(exits, ScopeExits(catches[0])), exit, m) {
        CatchPrecise(exits, ScopeExits(catches[0]), exit, m);
        if !Allows(exits, exit, m) {
          assert Caught(ScopeExits(catches[0]), exit, m);
        }
      } else {
        var i :| 0 <= i < |catches| - 1 && Caught(ScopeExits(catches[1..][i]), exit, m);
        assert catches[i + 1] == catches[1..][i];
      }
    }
  }

  lemma {:induction false} TryPrecise(s: Statement, exit: Exit, m: P.Model)
    requires s.Try? && WellFormed(s, true) && Live(s, m) && Allows(StatementExits(s), exit, m)
    ensures Exec(s, exit, m, true)
    decreases s, 2
  {
    hide ScopeExits, CatchesExits, ExecScope;
    var catches := s.catches;
    ScopeProper(s.scope.statements, m);
    forall i | 0 <= i < |catches| ensures Proper(ScopeExits(catches[i])) {
      assert catches[i] < s;
      ScopeProper(catches[i].statements, m);
    }
    StaysProper(NO_EXITS, ScopeExits(s.scope));
    AddAllows(NO_EXITS, ScopeExits(s.scope), exit, m);
    CatchesPrecise(catches, NO_EXITS.Add(ScopeExits(s.scope)), exit, m);
    if Allows(ScopeExits(s.scope), exit, m) {
      ScopePrecise(s.scope.statements, exit, m);
    } else {
      var i :| 0 <= i < |catches| && Caught(ScopeExits(catches[i]), exit, m);
      var c :| Allows(ScopeExits(catches[i]), c, m) && exit == if c == Rethrow then Throw else c;
      assert catches[i] < s;
      ScopePrecise(catches[i].statements, c, m);
      assert ExecCatch(catches, i, exit, m, true);
    }
  }

  // ----- Scopes -----

  /** What the scan of a statement adds comes from a way to leave it. */
  lemma ScanExitsPrecise(scan: Scan, exits: ExitStates, exit: Exit, m: P.Model) returns (e: Exit)
    requires ScanProper(scan) && Proper(exits) && Allows(ScanExits(scan, exits).exits, exit, m)
    ensures Allows(scan.exits, exit, m) || (e != Normal && Allows(exits, e, m) && Transfers(scan, e, exit, m))
  {
    AllStates();
    var leaving := exits.Remove(Only(Normal));
    var kept := if scan.blocked then leaving.Remove(AllNonThrowing()) else leaving;
    StaysProper(exits, Only(Normal));
    BasicsProper(Normal, P.True);
    StaysProper(leaving, AllNonThrowing());
    StaysProper(scan.exits, scan.pending);
    RemoveAllows(exits, Only(Normal), exit, m);
    RemoveAllows(leaving, AllNonThrowing(), exit, m);
    AddAllows(scan.exits, scan.pending, exit, m);
    e := exit;
    if leaving.OnlyHasStates(AllThrowing().Add(Only(Normal))) {
      AddAllows(scan.exits, kept, exit, m);
    } else {
      AddAllows(scan.exits.Add(scan.pending), kept, exit, m);
      if !Allows(scan.exits, exit, m) && !Allows(kept, exit, m) {
        e :| e in leaving.states && e !in {Throw, Rethrow, Normal};
      }
    }
  }

  /** So does what is added at the end. */
  lemma FinishPrecise(scan: Scan, last: ExitStates, exit: Exit, m: P.Model) returns (e: Exit)
    requires ScanProper(scan) && Proper(last) && Allows(FinishScan(scan, last), exit, m)
    ensures Allows(scan.exits, exit, m) || (Allows(last, e, m) && Transfers(scan, e, exit, m))
  {
    AllStates();
    var kept := if scan.blocked then last.Remove(AllNonThrowing()) else last;
    BasicsProper(Normal, P.True);
    StaysProper(last, AllNonThrowing());
    StaysProper(scan.exits, scan.pending);
    RemoveAllows(last, AllNonThrowing(), exit, m);
    AddAllows(scan.exits, scan.pending, exit, m);
    e := exit;
    if last.HasAnyNonThrowingStates() {
      AddAllows(scan.exits.Add(scan.pending), kept, exit, m);
      if !Allows(scan.exits, exit, m) && !Allows(kept, exit, m) {
        e :| e in last.states && e !in {Throw, Rethrow};
      }
    } else {
      AddAllows(scan.exits, kept, exit, m);
    }
  }

  /** What the scan takes a scope exit to make of an exit, running it can make of it. */
  lemma {:induction false} ScopeExitPrecise(scan: Scan, s: Statement, e: Exit, exit: Exit, m: P.Model) returns (e': Exit)
    requires s.ScopeExit? && WellFormed(s, true) && Live(s, m) && ScanProper(scan)
    requires Transfers(ScanStatement(scan, s), e, exit, m)
    ensures RunScopeExit(s, e, e', m, true) && Transfers(scan, e', exit, m)
    decreases s, 4
  {
    hide ScopeExits, ExecScope;
    AllStates();
    var body := ScopeExits(s.scope);
    e' := e;
    if body.Has(Normal) {
      ScopePrecise(s.scope.statements, Normal, m);
    }
    if s.state == OnSuccess && !IsThrowing(e) {
      var pending := if !body.Has(Normal) then NO_EXITS else scan.pending;
      ScopeProper(s.scope.statements, m);
      StaysProper(body, NO_EXITS);
      AddAllows(pending, body.ThrowingStates(), exit, m);
      ThrowingAllows(body, exit, m);
      if IsThrowing(exit) && Allows(body, exit, m) {
        ScopePrecise(s.scope.statements, exit, m);
        e' := exit;
      }
    }
  }

  /** Every exit that the scan of the rest of a scope adds comes from a way to leave the rest. */
  lemma {:induction false} ScanPrecise(scan: Scan, statements: seq<Statement>, exit: Exit, m: P.Model) returns (e: Exit)
    requires statements != [] && ScopeOK(statements, true) && LiveScope(statements, m) && ScanProper(scan)
    requires var (scan', last) := ScanAll(scan, statements);
      Allows(FinishScan(scan', last), exit, m)
    ensures Allows(scan.exits, exit, m) || (ExecScope(statements, e, m, true) && Transfers(scan, e, exit, m))
    decreases statements, 3
  {
    hide StatementExits, FinishScan, ScanExits, Transfers, RunScopeExit, Exec, ExecScope, ScanStatement;
    var s, rest := statements[0], statements[1..];
    var exits, scan1 := StatementExits(s), ScanStatement(scan, s);
    assert WellFormed(s, true) && ScopeOK(rest, true);
    ScanStatementProper(scan, s, m);
    if exits.Has(Normal) && rest != [] {
      StatementPrecise(s, Normal, m);
      e := ScanPrecise(scan1, rest, exit, m);
    } else {
      e := FinishPrecise(scan1, exits, exit, m);
    }
    if s.ScopeExit? {
      ScopeExitIsNormal(s);
      e := PastScopeExit(scan, statements, e, exit, m);
    } else {
      e := PastStatement(scan, statements, e, exit, m);
    }
  }

  lemma ScopeExitIsNormal(s: Statement)
    requires s.ScopeExit?
    ensures StatementExits(s) == Only(Normal)
  {}

  lemma {:induction false} PastScopeExit(scan: Scan, statements: seq<Statement>, e: Exit, exit: Exit,
          m: P.Model) returns (e': Exit)
    requires statements != [] && ScanProper(scan)
    requires var s := statements[0];
      s.ScopeExit? && WellFormed(s, true) && Live(s, m)
    requires var scan1, rest := ScanStatement(scan, statements[0]), statements[1..];
      Allows(scan1.exits, exit, m)
      || (Transfers(scan1, e, exit, m) && if rest == [] then Allows(Only(Normal), e, m) else ExecScope(rest, e, m, true))
    ensures Allows(scan.exits, exit, m) || (ExecScope(statements, e', m, true) && Transfers(scan, e', exit, m))
    decreases statements, 1
  {
    hide ScopeExits, Transfers, RunScopeExit;
    var s, rest := statements[0], statements[1..];
    BasicsProper(Normal, P.True);
    if Allows(ScanStatement(scan, s).exits, exit, m) {
      e' := ScanExitsPrecise(scan, Only(Normal), exit, m);
    } else {
      e' := ScopeExitPrecise(scan, s, e, exit, m);
      assert ExecScope(rest, e, m, true);
    }
  }

  lemma {:induction false} PastStatement(scan: Scan, statements: seq<Statement>, e: Exit, exit: Exit,
          m: P.Model) returns (e': Exit)
    requires statements != [] && ScanProper(scan)
    requires var s := statements[0];
      !s.ScopeExit? && WellFormed(s, true) && Live(s, m) && Proper(StatementExits(s))
    requires var s, scan1, rest := statements[0], ScanStatement(scan, statements[0]), statements[1..];
      Allows(scan1.exits, exit, m)
      || (Transfers(scan1, e, exit, m) &&
          if StatementExits(s).Has(Normal) && rest != [] then ExecScope(rest, e, m, true) else Allows(StatementExits(s), e, m))
    ensures Allows(scan.exits, exit, m) || (ExecScope(statements, e', m, true) && Transfers(scan, e', exit, m))
    decreases statements, 1
  {
    hide StatementExits, Exec;
    var s, rest := statements[0], statements[1..];
    var exits := StatementExits(s);
    if exits.Has(Normal) {
      StatementPrecise(s, Normal, m);
    }
    if Allows(ScanStatement(scan, s).exits, exit, m) {
      e' := ScanExitsPrecise(scan, exits, exit, m);
      if !Allows(scan.exits, exit, m) {
        StatementPrecise(s, e', m);
      }
    } else {
      e' := e;
      if !exits.Has(Normal) || rest == [] {
        StatementPrecise(s, e, m);
      }
      assert rest == [] ==> ExecScope(rest, Normal, m, true);
      assert ExecScope(statements, e, m, true);
    }
  }

  lemma {:induction false} ScopePrecise(statements: seq<Statement>, exit: Exit, m: P.Model)
    requires ScopeOK(statements, true) && LiveScope(statements, m) && Allows(ScopeExits(Scope(statements)), exit, m)
    ensures ExecScope(statements, exit, m, true)
    decreases statements, 4
  {
    hide ScanAll, FinishScan;
    if statements != [] {
      var e := ScanPrecise(NEW_SCAN, statements, exit, m);
    }
  }

  /**
   The main result: where every part of a well-formed statement can be reached, its exit states are exactly
   its exits, throws in exactly the models in which the noexcept predicate does not hold.
   */
  lemma ExitsAreExact(s: Statement, exit: Exit, m: P.Model)
    requires WellFormed(s, true) && Live(s, m)
    ensures Exec(s, exit, m, true) <==> Allows(StatementExits(s), exit, m)
  {
    if Exec(s, exit, m, true) {
      StatementSound(s, exit, m, true);
    }
    if Allows(StatementExits(s), exit, m) {
      StatementPrecise(s, exit, m);
    }
  }

  // ----- What holds of all statements -----

  /** A try statement can be left by a rethrow exactly if its own scope can: the catch clauses rethrow as throws. */
  lemma TryRethrows(scope: Scope, catches: seq<Scope>)
    ensures Rethrow in StatementExits(Try(scope, catches)).states <==> Rethrow in ScopeExits(scope).states
  {
    hide ScopeExits;
    CatchesRethrow(catches, NO_EXITS.Add(ScopeExits(scope)));
  }

  lemma {:induction false} CatchesRethrow(catches: seq<Scope>, exits: ExitStates)
    ensures Rethrow in CatchesExits(catches, exits).states <==> Rethrow in exits.states
  {
    hide ScopeExits;
    if catches != [] {
      CatchesRethrow(catches[1..], CatchExits(exits, ScopeExits(catches[0])));
    }
  }

  /** Breaks and continues of its body do not leave a loop. */
  lemma LoopsKeepBreaks(condition: Value, iterationScope: Scope, advanceScope: Scope, exit: Exit)
    requires exit == Break || exit == Continue
    ensures exit in StatementExits(Loop(condition, iterationScope, advanceScope)).states <==>
      exit in condition.exitStates.states || exit in ScopeExits(advanceScope).states
    ensures exit in StatementExits(For(condition, iterationScope)).states <==> exit in condition.exitStates.states
  {
    hide ScopeExits;
  }

  /** A loop ends normally by its condition, past a normal end of its body, or by a break; its advance only leads back. */
  lemma LoopEndsNormally(condition: Value, iterationScope: Scope, advanceScope: Scope)
    ensures Normal in StatementExits(Loop(condition, iterationScope, advanceScope)).states <==>
      condition.exitStates.Has(Normal) || ScopeExits(iterationScope).Has(Normal) || ScopeExits(iterationScope).Has(Break)
    ensures Normal in StatementExits(For(condition, iterationScope)).states <==>
      ScopeExits(iterationScope).Has(Normal) || ScopeExits(iterationScope).Has(Break)
  {
    hide ScopeExits;
  }
}

/**
 Statements and scopes, and the analysis of how they can be exited.
 */
module Statements {
  import opened ExitStates

  /** Values are opaque apart from how evaluating them can be exited. */
  datatype Value = Value(exitStates: ExitStates)

  datatype ScopeExitState = OnExit | OnSuccess | OnFailure

  datatype IfClause = IfClause(condition: Value, scope: Scope)

  datatype DefaultCase = NoDefault | Default(scope: Scope)

  datatype Scope = Scope(statements: seq<Statement>)

  datatype Statement =
    | ValueStmt(value: Value)
    | ScopeStmt(scope: Scope)
    | Initialise(value: Value)
    | Assign(lvalue: Value, rvalue: Value)
    | If(clauses: seq<IfClause>, elseScope: Scope)
    | Switch(value: Value, cases: seq<Scope>, defaultCase: DefaultCase)
    | Loop(condition: Value, iterationScope: Scope, advanceScope: Scope)
    | For(init: Value, scope: Scope)
    | Try(scope: Scope, catches: seq<Scope>)
    | ScopeExit(state: ScopeExitState, scope: Scope)
    | ReturnVoid
    | ReturnValue(value: Value)
    | ThrowStmt(value: Value)
    | RethrowStmt
    | BreakStmt
    | ContinueStmt
    | Assert(value: Value)
    | AssertNoExcept(scope: Scope)
    | Unreachable

  // ----- The analysis -----

  function StatementExits(s: Statement): ExitStates
    decreases s, 2
  {
    match s
    case ValueStmt(value) => value.exitStates
    case ScopeStmt(scope) => ScopeExits(scope)
    case Initialise(value) => value.exitStates
    case Assign(lvalue, rvalue) => NO_EXITS.Add(rvalue.exitStates.ThrowingStates()).Add(lvalue.exitStates)
    case If(clauses, elseScope) => IfExits(clauses, NO_EXITS).Add(ScopeExits(elseScope))
    case Switch(value, cases, defaultCase) =>
      var exits := ScopesExits(cases, NO_EXITS.Add(value.exitStates.ThrowingStates()));
      if defaultCase.Default? then exits.Add(ScopeExits(defaultCase.scope)) else exits
    case Loop(condition, iterationScope, advanceScope) =>
      LoopExits(condition.exitStates, ScopeExits(iterationScope))
        .Add(ScopeExits(advanceScope).Remove(Only(Normal)))
    case For(init, scope) => LoopExits(init.exitStates.Remove(Only(Normal)), ScopeExits(scope))
    case Try(scope, catches) => CatchesExits(catches, NO_EXITS.Add(ScopeExits(scope)))
    case ScopeExit(_, _) => Only(Normal)
    case ReturnVoid => Only(Return)
    case ReturnValue(value) => Only(Return).Add(value.exitStates.ThrowingStates())
    case ThrowStmt(_) => ThrowAlways()
    case RethrowStmt => Only(Rethrow)
    case BreakStmt => Only(Break)
    case ContinueStmt => Only(Continue)
    case Assert(value) => value.exitStates
    case AssertNoExcept(scope) => ScopeExits(scope).Remove(AllThrowing())
    case Unreachable => NO_EXITS
  }

  /** The exits of the if clauses, added to those found before. */
  function IfExits(clauses: seq<IfClause>, exits: ExitStates): ExitStates
    decreases clauses, 1
  {
    if clauses == [] then exits
    else
      var clause := clauses[0];
      assert clause.scope < clause && clause in clauses;
      IfExits(clauses[1..], exits.Add(clause.condition.exitStates.ThrowingStates()).Add(ScopeExits(clause.scope)))
  }

  function ScopesExits(scopes: seq<Scope>, exits: ExitStates): ExitStates
    decreases scopes, 1
  {
    if scopes == [] then exits else ScopesExits(scopes[1..], exits.Add(ScopeExits(scopes[0])))
  }

  /** A catch clause turns a rethrow into a throw. */
  function CatchExits(exits: ExitStates, catchExits: ExitStates): ExitStates {
    if catchExits.Has(Rethrow) then exits.Add(ThrowAlways()).Add(catchExits.Remove(Only(Rethrow)))
    else exits.Add(catchExits)
  }

  function CatchesExits(catches: seq<Scope>, exits: ExitStates): ExitStates
    decreases catches, 1
  {
    if catches == [] then exits else CatchesExits(catches[1..], CatchExits(exits, ScopeExits(catches[0])))
  }

  /** A loop stops a continue, and a break leaves it normally. */
  function LoopExits(before: ExitStates, iteration: ExitStates): ExitStates {
    var body := iteration.Remove(Only(Continue));
    if body.Has(Break) then before.Add(Only(Normal)).Add(body.Remove(Only(Break))) else before.Add(body)
  }

  /** What the scan of a scope carries from statement to statement. */
  datatype Scan = Scan(exits: ExitStates, pending: ExitStates, blocked: bool)

  const NEW_SCAN := Scan(NO_EXITS, NO_EXITS, false)

  /** The effect of a statement with exits `exits` that is not a scope(success). */
  function ScanExits(scan: Scan, exits: ExitStates): Scan {
    var leaving := exits.Remove(Only(Normal));
    var found := if leaving.OnlyHasStates(AllThrowing().Add(Only(Normal))) then scan.exits else scan.exits.Add(scan.pending);
    var kept := if scan.blocked then leaving.Remove(AllNonThrowing()) else leaving;
    scan.(exits := found.Add(kept))
  }

  /** A scope(success) is pending for later exits; one that always throws hides those before it. */
  function ScanSuccess(scan: Scan, success: ExitStates): Scan {
    var always := !success.Has(Normal);
    Scan(scan.exits,
         (if always then NO_EXITS else scan.pending).Add(success.ThrowingStates()),
         scan.blocked || always)
  }

  function ScanStatement(scan: Scan, s: Statement): Scan
    decreases s, 3
  {
    var scanned := ScanExits(scan, StatementExits(s));
    if s.ScopeExit? && s.state == OnSuccess then ScanSuccess(scanned, ScopeExits(s.scope)) else scanned
  }

  /** Scans up to the first statement that cannot be exited normally; `last` are the exits of the last one scanned. */
  function ScanAll(scan: Scan, statements: seq<Statement>): (r: (Scan, ExitStates))
    requires statements != []
    decreases statements, 4
  {
    var exits := StatementExits(statements[0]);
    var scan' := ScanStatement(scan, statements[0]);
    if !exits.Has(Normal) || |statements| == 1 then (scan', exits) else ScanAll(scan', statements[1..])
  }

  function FinishScan(scan: Scan, last: ExitStates): ExitStates {
    var found := if last.HasAnyNonThrowingStates() then scan.exits.Add(scan.pending) else scan.exits;
    found.Add(if scan.blocked then last.Remove(AllNonThrowing()) else last)
  }

  function ScopeExits(scope: Scope): ExitStates
    decreases scope, 5
  {
    if scope.statements == [] then Only(Normal)
    else
      var (scan, last) := ScanAll(NEW_SCAN, scope.statements);
      FinishScan(scan, last)
  }

  // ----- The same as loops -----

  method ComputeIfExits(clauses: seq<IfClause>, elseScope: Scope) returns (exits: ExitStates)
    ensures exits == StatementExits(If(clauses, elseScope))
  {
    exits := NO_EXITS;
    for i := 0 to |clauses|
      invariant IfExits(clauses, NO_EXITS) == IfExits(clauses[i..], exits)
    {
      assert clauses[i..][1..] == clauses[i + 1..];
      exits := exits.Add(clauses[i].condition.exitStates.ThrowingStates());
      exits := exits.Add(ScopeExits(clauses[i].scope));
    }
    exits := exits.Add(ScopeExits(elseScope));
  }

  method ComputeSwitchExits(value: Value, cases: seq<Scope>, defaultCase: DefaultCase) returns (exits: ExitStates)
    ensures exits == StatementExits(Switch(value, cases, defaultCase))
  {
    exits := NO_EXITS;
    exits := exits.Add(value.exitStates.ThrowingStates());
    ghost var start := exits;
    for i := 0 to |cases|
      invariant ScopesExits(cases, start) == ScopesExits(cases[i..], exits)
    {
      assert cases[i..][1..] == cases[i + 1..];
      exits := exits.Add(ScopeExits(cases[i]));
    }
    if defaultCase.Default? {
      exits := exits.Add(ScopeExits(defaultCase.scope));
    }
  }

  method ComputeTryExits(scope: Scope, catches: seq<Scope>) returns (exits: ExitStates)
    ensures exits == StatementExits(Try(scope, catches))
  {
    exits := NO_EXITS;
    exits := exits.Add(ScopeExits(scope));
    ghost var start := exits;
    for i := 0 to |catches|
      invariant CatchesExits(catches, start) == CatchesExits(catches[i..], exits)
    {
      assert catches[i..][1..] == catches[i + 1..];
      var catchExits := ScopeExits(catches[i]);
      if catchExits.Has(Rethrow) {
        exits := exits.Add(ThrowAlways());
        catchExits := catchExits.Remove(Only(Rethrow));
      }
      exits := exits.Add(catchExits);
    }
  }

  /** `Scope::exitStates`, with its flags and running sets. */
  method ComputeScopeExits(scope: Scope) returns (exits: ExitStates)
    ensures exits == ScopeExits(scope)
  {
    var statements := scope.statements;
    if statements == [] {
      return Only(Normal);
    }
    exits := NO_EXITS;
    var isBlocked := false;
    var pending := NO_EXITS;
    var isNormalBlocked := false;
    var last := statements[|statements| - 1];
    ghost var (scan, lastExits) := ScanAll(NEW_SCAN, statements);
    var i := 0;
    while i < |statements| && !isNormalBlocked
      invariant 0 <= i <= |statements|
      invariant !isNormalBlocked && i < |statements| ==>
        (scan, lastExits) == ScanAll(Scan(exits, pending, isBlocked), statements[i..])
      invariant !isNormalBlocked ==> last == statements[|statements| - 1]
      invariant isNormalBlocked || i == |statements| ==>
        scan == Scan(exits, pending, isBlocked) && lastExits == StatementExits(last)
      decreases |statements| - i
    {
      var statement := statements[i];
      assert statements[i..][0] == statement && statements[i..][1..] == statements[i + 1..];
      var leaving := StatementExits(statement);
      if !leaving.Has(Normal) {
        isNormalBlocked := true;
        last := statement;
      }
      // The normal exit is held back until the end of the scope.
      leaving := leaving.Remove(Only(Normal));
      if !leaving.OnlyHasStates(AllThrowing().Add(Only(Normal))) {
        exits := exits.Add(pending);
      }
      if isBlocked {
        leaving := leaving.Remove(AllNonThrowing());
      }
      exits := exits.Add(leaving);
      if statement.ScopeExit? && statement.state == OnSuccess {
        var success := ScopeExits(statement.scope);
        if !success.Has(Normal) {
          isBlocked := true;
          pending := NO_EXITS;
        }
        pending := pending.Add(success.ThrowingStates());
      }
      i := i + 1;
    }
    var final := StatementExits(last);
    if final.HasAnyNonThrowingStates() {
      exits := exits.Add(pending);
    }
    if isBlocked {
      final := final.Remove(AllNonThrowing());
    }
    exits := exits.Add(final);
  }
}

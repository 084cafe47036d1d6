/**
 Whole unwinds.  A rethrow scope's block branches into the throw unwind of the stack below it and
 stores nothing, so the state variable still holds rethrow there.  When the variable does not hold
 the state of the unwind, blocks shared between throws and rethrows may take the other's successor;
 this is harmless exactly as long as throws and rethrows mean the same from there on.
 */
module UnwindWhole {
  import opened UnwindAction
  import opened UnwindCode
  import opened UnwindRefinement
  import opened UnwindHistories

  // ----- Meaning and running, past rethrow scopes -----

  /** As `Unwind`, but a rethrow goes on as a throw below its rethrow scope. */
  function WholeUnwind(stack: seq<Kind>, st: UnwindState): Outcome {
    if stack == [] then NoTerminator
    else
      var top, rest := stack[|stack| - 1], stack[..|stack| - 1];
      if !IsActive(top, st) then WholeUnwind(rest, st)
      else if top == RethrowScope then WholeUnwind(rest, Throw)
      else if IsTerminator(top) then Done([], ExitOf(top, st))
      else Prepend([top], WholeUnwind(rest, st))
  }

  /** As `Run`, but following the branch out of a rethrow scope. */
  function RunOn(blocks: seq<Block>, b: BlockId, v: UnwindState, steps: nat): RunResult
    decreases steps
  {
    if steps == 0 then OutOfSteps
    else if b >= |blocks| then Stuck
    else
      match blocks[b].term
      case Leave(exit) => Finished(blocks[b].events, exit)
      case ThrowFrom(target) => After(blocks[b].events, RunOn(blocks, target, v, steps - 1))
      case Open => Stuck
      case Pad(_, _, _, _) => Stuck
      case Br(target) => After(blocks[b].events, RunOn(blocks, target, v, steps - 1))
      case Switch(default, cases) => After(blocks[b].events, RunOn(blocks, Lookup(cases, default, v), v, steps - 1))
  }

  predicate RunsAs(blocks: seq<Block>, b: BlockId, v: UnwindState, outcome: Outcome, steps: nat) {
    outcome.Done? && RunOn(blocks, b, v, steps) == Finished(outcome.trace, outcome.exit)
  }

  /** Only a rethrow goes on past its first terminator. */
  lemma {:induction false} WholeIsUnwind(kinds: seq<Kind>, st: UnwindState)
    requires st != Rethrow
    ensures WholeUnwind(kinds, st) == Unwind(kinds, st)
    ensures Unwind(kinds, st).Done? ==> Unwind(kinds, st).exit != EnterThrow
  {
    if kinds != [] {
      WholeIsUnwind(kinds[..|kinds| - 1], st);
    }
  }

  /** The stack below the topmost rethrow scope. */
  function BelowScope(kinds: seq<Kind>): seq<Kind> {
    if kinds == [] then []
    else
      var top, rest := kinds[|kinds| - 1], kinds[..|kinds| - 1];
      if top == RethrowScope then rest else BelowScope(rest)
  }

  /** A whole rethrow is the rethrow up to the scope followed by the throw below it. */
  lemma {:induction false} WholeSplits(kinds: seq<Kind>)
    ensures var toScope := Unwind(kinds, Rethrow);
      if toScope.Done? then
        toScope.exit == EnterThrow && WholeUnwind(kinds, Rethrow) == Prepend(toScope.trace, Unwind(BelowScope(kinds), Throw))
      else WholeUnwind(kinds, Rethrow).NoTerminator?
  {
    if kinds != [] {
      var top, rest := kinds[|kinds| - 1], kinds[..|kinds| - 1];
      if top == RethrowScope {
        WholeIsUnwind(rest, Throw);
        PrependNothing(Unwind(rest, Throw));
      } else {
        WholeSplits(rest);
        if IsActive(top, Rethrow) && Unwind(rest, Rethrow).Done? {
          PrependTwice([top], Unwind(rest, Rethrow).trace, Unwind(BelowScope(rest), Throw));
        }
      }
    }
  }

  lemma PrependTwice(first: seq<Kind>, second: seq<Kind>, outcome: Outcome)
    ensures Prepend(first, Prepend(second, outcome)) == Prepend(first + second, outcome)
  {
    if outcome.Done? {
      assert first + (second + outcome.trace) == (first + second) + outcome.trace;
    }
  }

  /** A run that does not end at a rethrow scope is a whole run. */
  lemma {:induction false} RunIsWhole(blocks: seq<Block>, b: BlockId, v: UnwindState, steps: nat)
    requires Run(blocks, b, v, steps).Finished? && Run(blocks, b, v, steps).exit != EnterThrow
    ensures RunOn(blocks, b, v, steps) == Run(blocks, b, v, steps)
    decreases steps
  {
    if Jumps(blocks[b].term) {
      RunIsWhole(blocks, Successor(blocks[b].term, v), v, steps - 1);
    }
  }

  // ----- Where a throw may be taken for a rethrow -----

  /** Entries that end or take part in a throw but not in a rethrow. */
  predicate ThrowOnly(kind: Kind) {
    IsActive(kind, Throw) && !IsActive(kind, Rethrow)
  }

  /** Entries whose blocks throws and rethrows share. */
  predicate SharesBlocks(kind: Kind) {
    !IsTerminator(kind) && IsActive(kind, Throw) && IsActive(kind, Rethrow)
  }

  predicate HasScope(kinds: seq<Kind>) {
    RethrowScope in kinds
  }

  /** Above the topmost rethrow scope there is an entry that only throws take notice of. */
  predicate Differs(kinds: seq<Kind>) {
    if kinds == [] || kinds[|kinds| - 1] == RethrowScope then false
    else if ThrowOnly(kinds[|kinds| - 1]) then HasScope(kinds[..|kinds| - 1])
    else Differs(kinds[..|kinds| - 1])
  }

  /** A throw passes an entry that shares its blocks with rethrows, and below it the two differ. */
  predicate Shadowed(kinds: seq<Kind>) {
    if kinds == [] then false
    else
      var top, rest := kinds[|kinds| - 1], kinds[..|kinds| - 1];
      if IsTerminator(top) && IsActive(top, Throw) then false
      else (SharesBlocks(top) && Differs(rest)) || Shadowed(rest)
  }

  lemma {:induction false} SkipsMeans(prefix: seq<Kind>, kinds: seq<Kind>, st: UnwindState)
    requires Skips(prefix, kinds, st)
    ensures Unwind(kinds, st) == Unwind(prefix, st)
    ensures WholeUnwind(kinds, st) == WholeUnwind(prefix, st)
    ensures st == Throw ==> Shadowed(kinds) == Shadowed(prefix)
    ensures st == Rethrow ==> BelowScope(kinds) == BelowScope(prefix)
    ensures st == Rethrow && HasScope(prefix) && !Differs(kinds) ==> Skips(prefix, kinds, Throw) && !Differs(prefix)
    decreases |kinds|
  {
    if prefix != kinds {
      var rest := kinds[..|kinds| - 1];
      assert !IsActive(kinds[|kinds| - 1], st);
      assert prefix <= rest;
      SkipsMeans(prefix, rest, st);
    }
  }

  lemma {:induction false} RethrowNeedsScope(kinds: seq<Kind>)
    requires Unwind(kinds, Rethrow).Done?
    ensures HasScope(kinds)
  {
    if kinds[|kinds| - 1] != RethrowScope {
      RethrowNeedsScope(kinds[..|kinds| - 1]);
    }
  }

  // ----- Running with the variable holding anything -----

  predicate ThrowBound(role: Role) {
    !Shadowed(role.prefix) && (role.Rest? ==> !Differs(role.prefix))
  }

  /** Wherever a planned exceptional block jumps to, it does so for a planned throw or rethrow. */
  lemma JumpsForPlanned(code: Code, g: Ledger, b: BlockId, v: UnwindState) returns (st: UnwindState)
    requires Inv(code, g) && |g.role| == |code.blocks| && b < |code.blocks| && Jumps(code.blocks[b].term)
    requires g.role[b].exceptional
    ensures IsExceptionState(st) && (b, st) in g.planned
    ensures Follows(code.blocks, g, b, st, Successor(code.blocks[b].term, v))
  {
    var term := code.blocks[b].term;
    LookupIsCaseOrDefault(CasesOf(term), DefaultOf(term), v);
    assert CasesOK(code.blocks, g, b);
    if HasCase(term, v) {
      st := v;
      assert CaseOK(code.blocks, g, b, (v, Successor(term, v)));
    } else {
      st :| (b, st) in g.planned && Follows(code.blocks, g, b, st, DefaultOf(term));
    }
    PlannedIsWired(code, g, b, st);
  }

  /** What going on from `b` to `t` for a throw or rethrow means for the throw that goes on there. */
  lemma StaysThrow(blocks: seq<Block>, g: Ledger, b: BlockId, st: UnwindState, t: BlockId)
    requires |g.role| == |blocks| && b < |blocks| && IsExceptionState(st) && Follows(blocks, g, b, st, t)
    requires ThrowBound(g.role[b])
    requires st == Rethrow ==> HasScope(g.role[t].prefix)
    ensures ThrowBound(g.role[t])
    ensures st == Rethrow ==> !Differs(g.role[t].prefix)
    ensures Unwind(g.role[b].prefix, Throw) == Prepend(blocks[b].events, Unwind(g.role[t].prefix, Throw))
  {
    var kinds, left, next := g.role[b].prefix, LeftOver(g.role[b]), g.role[t].prefix;
    assert !Shadowed(left);
    assert st == Rethrow || g.role[t].Rest? ==> !Differs(left);
    SkipsMeans(next, left, st);
    if st == Rethrow {
      SkipsMeans(next, left, Throw);
    }
    PrependNothing(Unwind(next, Throw));
  }

  lemma PlannedHasScope(code: Code, g: Ledger, b: BlockId)
    requires Inv(code, g) && |g.role| == |code.blocks| && b < |code.blocks| && (b, Rethrow) in g.planned
    ensures HasScope(g.role[b].prefix)
  {
    PlannedIsWired(code, g, b, Rethrow);
    RunFromPlanned(code, g, b, Rethrow, Rank(g.role[b]));
    RethrowNeedsScope(g.role[b].prefix);
  }

  lemma ThrowsOn(kinds: seq<Kind>, next: seq<Kind>)
    requires |kinds| > 0 && kinds[|kinds| - 1] == RethrowScope && Skips(next, kinds[..|kinds| - 1], Throw)
    ensures Shadowed(next) == Shadowed(kinds)
    ensures Unwind(next, Throw) == Unwind(kinds, Throw)
    ensures Prepend([], Unwind(next, Throw)) == Unwind(next, Throw)
  {
    SkipsMeans(next, kinds[..|kinds| - 1], Throw);
    PrependNothing(Unwind(next, Throw));
  }

  /** A planned block that leaves is no rethrow's: those end at their scope. */
  lemma PlannedLeaves(blocks: seq<Block>, g: Ledger, b: BlockId, st: UnwindState)
    requires |g.role| == |blocks| && Wired(blocks, g, b, st) && !Jumps(blocks[b].term) && !blocks[b].term.ThrowFrom?
    ensures st != Rethrow && blocks[b].events == [] && blocks[b].term.Leave?
    ensures Unwind(g.role[b].prefix, st) == Done([], blocks[b].term.exit)
  {
    if st == Rethrow {
      WholeSplits(g.role[b].prefix);
    }
  }

  /**
   A block relied on by a throw runs as the throw whatever the variable holds, where the throw is not
   shadowed; so does a block relied on by a rethrow, where the two mean the same.
   */
  lemma {:induction false} RunsAsThrow(code: Code, g: Ledger, b: BlockId, st: UnwindState, v: UnwindState, steps: nat)
    requires Inv(code, g) && |g.role| == |code.blocks| && (b, st) in g.planned && IsExceptionState(st)
    requires b < |code.blocks| && ThrowBound(g.role[b]) && Rank(g.role[b]) <= steps
    requires st == Rethrow ==> !Differs(g.role[b].prefix)
    ensures RunsAs(code.blocks, b, v, Unwind(g.role[b].prefix, Throw), steps)
    decreases Rank(g.role[b])
  {
    hide Inv, Unwind, Shadowed, Differs;
    PlannedIsWired(code, g, b, st);
    var term := code.blocks[b].term;
    if Jumps(term) {
      var t := Successor(term, v);
      var st1 := JumpsForPlanned(code, g, b, v);
      PlannedIsWired(code, g, t, st1);
      if st1 == Rethrow {
        PlannedHasScope(code, g, t);
      }
      StaysThrow(code.blocks, g, b, st1, t);
      RunsAsThrow(code, g, t, st1, v, steps - 1);
    } else if term.ThrowFrom? {
      var t := term.throwTarget;
      PlannedIsWired(code, g, t, Throw);
      ThrowsOn(g.role[b].prefix, g.role[t].prefix);
      RunsAsThrow(code, g, t, Throw, v, steps - 1);
    } else {
      PlannedLeaves(code.blocks, g, b, st);
    }
  }

  /** A rethrow, once stored, runs right as long as the throw below its scope is not shadowed. */
  lemma {:induction false} RunsAsRethrow(code: Code, g: Ledger, b: BlockId, steps: nat)
    requires Inv(code, g) && |g.role| == |code.blocks| && (b, Rethrow) in g.planned && b < |code.blocks|
    requires !Shadowed(BelowScope(g.role[b].prefix)) && Rank(g.role[b]) <= steps
    ensures RunsAs(code.blocks, b, Rethrow, WholeUnwind(g.role[b].prefix, Rethrow), steps)
    decreases Rank(g.role[b])
  {
    hide Inv, Unwind, WholeUnwind, BelowScope, Shadowed;
    PlannedIsWired(code, g, b, Rethrow);
    var term := code.blocks[b].term;
    if Jumps(term) {
      var t := Successor(term, Rethrow);
      PlannedIsWired(code, g, t, Rethrow);
      StaysRethrow(code.blocks, g, b, t);
      RunsAsRethrow(code, g, t, steps - 1);
    } else if term.ThrowFrom? {
      RethrowGoesOn(code, g, b, steps);
    } else {
      PlannedLeaves(code.blocks, g, b, Rethrow);
    }
  }

  /** At its scope the rethrow goes on as a throw. */
  lemma RethrowGoesOn(code: Code, g: Ledger, b: BlockId, steps: nat)
    requires Inv(code, g) && |g.role| == |code.blocks| && (b, Rethrow) in g.planned && b < |code.blocks|
    requires !Shadowed(BelowScope(g.role[b].prefix)) && Rank(g.role[b]) <= steps
    requires code.blocks[b].term.ThrowFrom?
    ensures RunsAs(code.blocks, b, Rethrow, WholeUnwind(g.role[b].prefix, Rethrow), steps)
  {
    hide Inv, Unwind, Shadowed, Jumps;
    var t, kinds := code.blocks[b].term.throwTarget, g.role[b].prefix;
    PlannedIsWired(code, g, b, Rethrow);
    PlannedIsWired(code, g, t, Throw);
    SkipsMeans(g.role[t].prefix, kinds[..|kinds| - 1], Throw);
    RunsAsThrow(code, g, t, Throw, Rethrow, steps - 1);
    WholeIsUnwind(kinds[..|kinds| - 1], Throw);
  }

  lemma StaysRethrow(blocks: seq<Block>, g: Ledger, b: BlockId, t: BlockId)
    requires |g.role| == |blocks| && b < |blocks| && Follows(blocks, g, b, Rethrow, t)
    ensures BelowScope(g.role[t].prefix) == BelowScope(g.role[b].prefix)
    ensures WholeUnwind(g.role[b].prefix, Rethrow) == Prepend(blocks[b].events, WholeUnwind(g.role[t].prefix, Rethrow))
  {
    SkipsMeans(g.role[t].prefix, LeftOver(g.role[b]), Rethrow);
    PrependNothing(WholeUnwind(g.role[t].prefix, Rethrow));
  }

  // ----- When a generated unwind is right -----

  /** What the variable holds once an unwind for `st` has started, if it held `v` before. */
  function VariableAfter(st: UnwindState, v: UnwindState): UnwindState {
    if st != Normal && st != Throw then st else v
  }

  /** The unwind generated next does the right thing when the variable held `v`, now and later. */
  ghost predicate RightAfter(code: Code, st: UnwindState, v: UnwindState)
    requires IsCode(code) && HasTerminator(code.stack, st)
  {
    var (code', entry) := GenUnwindBlock(code, st);
    forall later :: Leads(code', later) ==>
      RunsAs(later.blocks, entry, VariableAfter(st, v), WholeUnwind(Kinds(code.stack), st), 2 * |code.stack| + 1)
  }

  /** Unwinding starts with something to clean up. */
  predicate Cleans(kinds: seq<Kind>, st: UnwindState) {
    if kinds == [] then false
    else if IsActive(kinds[|kinds| - 1], st) then !IsTerminator(kinds[|kinds| - 1])
    else Cleans(kinds[..|kinds| - 1], st)
  }

  /** The stacks on which an unwind does not depend on what the variable held. */
  predicate Safe(kinds: seq<Kind>, st: UnwindState) {
    match st
    case Normal => !Cleans(kinds, Normal)
    case Throw => !Shadowed(kinds)
    case Rethrow => !Shadowed(BelowScope(kinds))
    case _ => true
  }

  /** On safe stacks, and when the variable holds the state anyway, unwinds are right. */
  lemma SafeIsRight(code: Code, st: UnwindState, v: UnwindState)
    requires Reachable(code) && HasTerminator(code.stack, st)
    requires Safe(Kinds(code.stack), st) || (st != Rethrow && VariableAfter(st, v) == st)
    ensures RightAfter(code, st, v)
  {
    hide Inv, GenUnwindBlock, RunsAs, Safe, Extends, Ready, Grows, IsCode, Stands, HasTerminator, WholeUnwind;
    var g := ReachableInv(code);
    var (code', entry) := GenUnwindBlock(code, st);
    var g' := GenUnwindKeeps(code, g, st);
    forall later | Leads(code', later)
      ensures RunsAs(later.blocks, entry, VariableAfter(st, v), WholeUnwind(Kinds(code.stack), st), 2 * |code.stack| + 1)
    {
      var steps :| CanRun(code', steps) && ApplyAll(code', steps) == later;
      var g'' := HistoryKeeps(code', g', steps);
      EntryRuns(code, code', g', later, g'', st, v, entry);
    }
  }

  /** An unwind is right when the variable holds its state once it starts; a rethrow also needs its scope. */
  lemma RightWhenVariableMatches(code: Code, st: UnwindState, v: UnwindState)
    requires Reachable(code) && HasTerminator(code.stack, st) && VariableAfter(st, v) == st
    requires st == Rethrow ==> !Shadowed(BelowScope(Kinds(code.stack)))
    ensures RightAfter(code, st, v)
  {
    hide RightAfter;
    SafeIsRight(code, st, v);
  }

  lemma EntryRuns(code: Code, code': Code, g: Ledger, later: Code, g': Ledger, st: UnwindState, v: UnwindState, entry: BlockId)
    requires |g.role| == |code'.blocks| && Inv(later, g') && |g'.role| == |later.blocks|
    requires Stands(code'.blocks, g, later.blocks, g')
    requires Kinds(code'.stack) == Kinds(code.stack) && |code'.stack| == |code.stack|
    requires Ready(code', g, |code.stack|, st, entry)
    requires Safe(Kinds(code.stack), st) || (st != Rethrow && VariableAfter(st, v) == st)
    ensures RunsAs(later.blocks, entry, VariableAfter(st, v), WholeUnwind(Kinds(code.stack), st), 2 * |code.stack| + 1)
  {
    hide Inv, Unwind, WholeUnwind, Skips, Wired;
    var kinds, n, w := Kinds(code.stack), 2 * |code.stack| + 1, VariableAfter(st, v);
    assert kinds[..|kinds|] == kinds;
    assert g'.role[entry] == g.role[entry];
    SkipsMeans(g.role[entry].prefix, kinds, st);
    if st == Rethrow {
      RunsAsRethrow(later, g', entry, n);
    } else {
      WholeIsUnwind(kinds, st);
      PlannedIsWired(later, g', entry, st);
      if w == st {
        RunFromPlanned(later, g', entry, st, n);
        RunIsWhole(later.blocks, entry, st, n);
      } else if st == Throw {
        RunsAsThrow(later, g', entry, Throw, w, n);
      } else {
        NothingToRun(later.blocks, g', entry, kinds);
      }
    }
  }

  /** Without anything to clean up, the end of a scope is reached at once. */
  lemma NothingToRun(blocks: seq<Block>, g: Ledger, b: BlockId, kinds: seq<Kind>)
    requires |g.role| == |blocks| && Wired(blocks, g, b, Normal) && !g.role[b].Rest?
    requires Skips(g.role[b].prefix, kinds, Normal) && !Cleans(kinds, Normal)
    ensures blocks[b].term.Leave? && blocks[b].events == [] && Unwind(kinds, Normal) == Done([], blocks[b].term.exit)
  {
    SkipsMeans(g.role[b].prefix, kinds, Normal);
    CleansSkips(g.role[b].prefix, kinds, Normal);
    assert !Jumps(blocks[b].term);
  }

  lemma {:induction false} CleansSkips(prefix: seq<Kind>, kinds: seq<Kind>, st: UnwindState)
    requires Skips(prefix, kinds, st)
    ensures Cleans(kinds, st) == Cleans(prefix, st)
    decreases |kinds|
  {
    if prefix != kinds {
      var rest := kinds[..|kinds| - 1];
      assert !IsActive(kinds[|kinds| - 1], st);
      assert prefix <= rest;
      CleansSkips(prefix, rest, st);
    }
  }
}

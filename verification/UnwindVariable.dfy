/**
 The run-time unwind-state variable.  Starting an unwind stores the state in it, except for
 normal and throw unwinds: those rely on what the variable happens to hold.  For every stack,
 unwinds are right after all histories exactly when the stack is safe.
 */
module UnwindVariable {
  import opened UnwindAction
  import opened UnwindCode
  import opened UnwindRefinement
  import opened UnwindHistories
  import opened UnwindPads
  import opened UnwindWhole

  // ----- Runs that end -----

  ghost predicate EndsAs(blocks: seq<Block>, b: BlockId, v: UnwindState, outcome: Outcome) {
    exists n: nat :: RunsAs(blocks, b, v, outcome, n)
  }

  /** Whatever the variable holds. */
  ghost predicate AlwaysEndsAs(blocks: seq<Block>, b: BlockId, outcome: Outcome) {
    forall v :: EndsAs(blocks, b, v, outcome)
  }

  /** Runs with the variable holding `v` take the same way through both graphs. */
  predicate SameWay(blocks: seq<Block>, blocks': seq<Block>, v: UnwindState) {
    && |blocks| <= |blocks'|
    && forall b :: 0 <= b < |blocks| ==>
         && blocks'[b].events == blocks[b].events
         && if Jumps(blocks[b].term)
            then Jumps(blocks'[b].term) && Successor(blocks'[b].term, v) == Successor(blocks[b].term, v)
            else blocks'[b].term == blocks[b].term
  }

  lemma {:induction false} SameRun(blocks: seq<Block>, blocks': seq<Block>, b: BlockId, v: UnwindState,
          outcome: Outcome, n: nat, m: nat)
    requires SameWay(blocks, blocks', v) && RunsAs(blocks, b, v, outcome, n) && n <= m
    ensures RunsAs(blocks', b, v, outcome, m)
    decreases n
  {
    hide Successor;
    var term := blocks[b].term;
    if Jumps(term) || term.ThrowFrom? {
      var t := NextBlock(blocks, b, v, n);
      var rest := RunOn(blocks, t, v, n - 1);
      assert NextBlock(blocks', b, v, m) == t;
      SameRun(blocks, blocks', t, v, Done(rest.trace, rest.exit), n - 1, m - 1);
    }
  }

  /** Where a run goes next from a block that jumps or throws. */
  function NextBlock(blocks: seq<Block>, b: BlockId, v: UnwindState, n: nat): (t: BlockId)
    requires b < |blocks| && n > 0 && (Jumps(blocks[b].term) || blocks[b].term.ThrowFrom?)
    ensures RunOn(blocks, b, v, n) == After(blocks[b].events, RunOn(blocks, t, v, n - 1))
  {
    if Jumps(blocks[b].term) then Successor(blocks[b].term, v) else blocks[b].term.throwTarget
  }

  lemma EndsSame(blocks: seq<Block>, blocks': seq<Block>, b: BlockId, v: UnwindState, outcome: Outcome)
    requires SameWay(blocks, blocks', v) && EndsAs(blocks, b, v, outcome)
    ensures EndsAs(blocks', b, v, outcome)
  {
    var n: nat :| RunsAs(blocks, b, v, outcome, n);
    SameRun(blocks, blocks', b, v, outcome, n, n);
  }

  lemma EndsOnce(blocks: seq<Block>, b: BlockId, v: UnwindState, outcome: Outcome, outcome': Outcome)
    requires EndsAs(blocks, b, v, outcome) && EndsAs(blocks, b, v, outcome')
    ensures outcome == outcome'
  {
    var n: nat :| RunsAs(blocks, b, v, outcome, n);
    var m: nat :| RunsAs(blocks, b, v, outcome', m);
    SameWayRefl(blocks, v);
    SameRun(blocks, blocks, b, v, outcome, n, n + m);
    SameRun(blocks, blocks, b, v, outcome', m, n + m);
  }

  lemma SameWayRefl(blocks: seq<Block>, v: UnwindState)
    ensures SameWay(blocks, blocks, v)
  {}

  lemma SameWayTransitive(b0: seq<Block>, b1: seq<Block>, b2: seq<Block>, v: UnwindState)
    requires SameWay(b0, b1, v) && SameWay(b1, b2, v)
    ensures SameWay(b0, b2, v)
  {}

  lemma EndsOn(blocks: seq<Block>, b: BlockId, v: UnwindState, outcome: Outcome)
    requires b < |blocks| && (Jumps(blocks[b].term) || blocks[b].term.ThrowFrom?)
    requires EndsAs(blocks, if Jumps(blocks[b].term) then Successor(blocks[b].term, v) else blocks[b].term.throwTarget, v, outcome)
    ensures EndsAs(blocks, b, v, Prepend(blocks[b].events, outcome))
  {
    var t := NextBlock(blocks, b, v, 1);
    var n: nat :| RunsAs(blocks, t, v, outcome, n);
    assert NextBlock(blocks, b, v, n + 1) == t;
    assert RunsAs(blocks, b, v, Prepend(blocks[b].events, outcome), n + 1);
  }

  // ----- Generating blocks for entries that have none -----

  /** What the active entries from `i` upwards perform, from the top down. */
  function Above(kinds: seq<Kind>, i: nat, st: UnwindState): seq<Kind>
    requires i <= |kinds|
    decreases |kinds| - i
  {
    if i == |kinds| then []
    else Above(kinds, i + 1, st) + if IsActive(kinds[i], st) then [kinds[i]] else []
  }

  lemma {:induction false} WholeFrom(kinds: seq<Kind>, i: nat, st: UnwindState)
    requires i <= |kinds|
    requires forall k :: i <= k < |kinds| ==> !(IsActive(kinds[k], st) && IsTerminator(kinds[k]))
    ensures WholeUnwind(kinds, st) == Prepend(Above(kinds, i, st), WholeUnwind(kinds[..i], st))
    decreases |kinds| - i
  {
    if i == |kinds| {
      assert kinds[..i] == kinds;
      PrependNothing(WholeUnwind(kinds, st));
    } else {
      WholeFrom(kinds, i + 1, st);
      assert kinds[..i + 1][..i] == kinds[..i];
      var last := if IsActive(kinds[i], st) then [kinds[i]] else [];
      PrependNothing(WholeUnwind(kinds[..i], st));
      assert WholeUnwind(kinds[..i + 1], st) == Prepend(last, WholeUnwind(kinds[..i], st));
      PrependTwice(Above(kinds, i + 1, st), last, WholeUnwind(kinds[..i], st));
    }
  }

  /** The blocks stored for all states that share them with `st` start at `e`. */
  predicate SharedCached(action: Action, st: UnwindState, e: BlockId) {
    && CanSetActionBlock(action.kind, st)
    && forall s <- SharingStates(action.kind, st) :: s in action.actionBlock && action.actionBlock[s].start == e
  }

  lemma LinkNewEnds(code: Code, i: nat, st: UnwindState, next: BlockId, v: UnwindState, outcome: Outcome)
    requires IsCode(code) && i < |code.stack| && IsActive(code.stack[i].kind, st) && !IsTerminator(code.stack[i].kind)
    requires st !in code.stack[i].actionBlock && EndsAs(code.blocks, next, v, outcome)
    ensures var (code', next') := LinkAction(code, i, st, next);
      && code.blocks <= code'.blocks && |code'.stack| == |code.stack|
      && (forall k :: 0 <= k < |code.stack| && k != i ==> code'.stack[k] == code.stack[k])
      && SharedCached(code'.stack[i], st, next')
      && EndsAs(code'.blocks, next', v, Prepend([code.stack[i].kind], outcome))
  {
    hide EndsAs, IsCode, IsActive;
    var kind, n := code.stack[i].kind, |code.blocks|;
    ActiveCanSet(kind, st);
    var code' := LinkAction(code, i, st, next).0;
    var (added, range) := NewActionBlocks(kind, n, next);
    assert code'.blocks == code.blocks + added;
    EndsSame(code.blocks, code'.blocks, next, v, outcome);
    if kind.ScopeExit? {
      assert code'.blocks[n + 1] == Block([], Br(next));
      EndsOn(code'.blocks, n + 1, v, outcome);
      PrependNothing(outcome);
    }
    assert code'.blocks[n].events == [kind];
    EndsOn(code'.blocks, n, v, outcome);
  }

  /** One turn of the loop, at an active entry. */
  lemma LinkTurns(code: Code, i: nat, st: UnwindState, next: BlockId)
    requires IsCode(code) && i < |code.stack| && IsActive(code.stack[i].kind, st)
    requires forall k :: i <= k < |code.stack| ==> !TerminatesAt(code.stack, k, st)
    ensures !IsTerminator(code.stack[i].kind)
    ensures var (code', next') := LinkAction(code, i, st, next);
      && IsCode(code') && Kinds(code'.stack) == Kinds(code.stack) && |code'.stack| == |code.stack|
      && code'.stack[|code.stack| - 1].kind == code.stack[|code.stack| - 1].kind
      && (forall k :: i + 1 <= k < |code'.stack| ==> !TerminatesAt(code'.stack, k, st))
      && LinkActions(code, i, st, next) == LinkActions(code', i + 1, st, next')
  {
    hide IsCode, LinkAction, Kinds, IsActive;
    assert !TerminatesAt(code.stack, i, st);
    SameKindsSameTerminators(code.stack, LinkAction(code, i, st, next).0.stack, st);
  }

  /** Linking entries without blocks makes a way for the state that does not depend on the variable. */
  lemma {:induction false} FreshLink(code: Code, i: nat, st: UnwindState, next: BlockId, v: UnwindState, outcome: Outcome)
    requires IsCode(code) && i <= |code.stack| && FreshFrom(code.stack, i)
    requires forall k :: i <= k < |code.stack| ==> !TerminatesAt(code.stack, k, st)
    requires EndsAs(code.blocks, next, v, outcome)
    ensures var (code', entry) := LinkActions(code, i, st, next);
      && code.blocks <= code'.blocks && |code'.stack| == |code.stack|
      && (forall k :: 0 <= k < i ==> code'.stack[k] == code.stack[k])
      && EndsAs(code'.blocks, entry, v, Prepend(Above(Kinds(code.stack), i, st), outcome))
      && (i < |code.stack| && IsActive(code.stack[|code.stack| - 1].kind, st) ==>
            SharedCached(code'.stack[|code.stack| - 1], st, entry))
    decreases |code.stack| - i
  {
    hide IsCode, EndsAs, SharedCached, IsActive, LinkActions, LinkAction, Kinds, CanSetActionBlock, CacheInRange;
    var kinds := Kinds(code.stack);
    if i < |code.stack| {
      assert kinds[i] == code.stack[i].kind;
    }
    if i == |code.stack| {
      LinkSkips(code, i, st, next);
      PrependNothing(outcome);
    } else if !IsActive(code.stack[i].kind, st) {
      LinkSkips(code, i, st, next);
      assert Above(kinds, i, st) == Above(kinds, i + 1, st);
      FreshLink(code, i + 1, st, next, v, outcome);
    } else {
      assert !TerminatesAt(code.stack, i, st);
      LinkNewEnds(code, i, st, next, v, outcome);
      var (code1, next1) := LinkAction(code, i, st, next);
      LinkTurns(code, i, st, next);
      if i + 1 == |code.stack| {
        LinkSkips(code1, i + 1, st, next1);
      }
      FreshLink(code1, i + 1, st, next1, v, Prepend([kinds[i]], outcome));
      PrependTwice(Above(kinds, i + 1, st), [kinds[i]], outcome);
    }
  }

  /** A terminator without blocks, other than a rethrow scope. */
  lemma TopIsFresh(code: Code, pos: nat, st: UnwindState, v: UnwindState)
    requires IsCode(code) && pos < |code.stack| && TerminatesAt(code.stack, pos, st)
    requires st != Rethrow && code.stack[pos].actionBlock == map[]
    ensures var (code', next) := GenTopUnwindAction(code, pos, st);
      && code.blocks <= code'.blocks
      && EndsAs(code'.blocks, next, v, Done([], ExitOf(code.stack[pos].kind, st)))
  {
    hide IsCode;
    var (code', next) := GenTopUnwindAction(code, pos, st);
    assert RunsAs(code'.blocks, next, v, Done([], ExitOf(code.stack[pos].kind, st)), 1);
  }

  /** A rethrow scope without blocks goes on as the throw below it, which leaves the stack alone. */
  lemma TopIsRethrow(code: Code, pos: nat, v: UnwindState, outcome: Outcome)
    requires IsCode(code) && pos < |code.stack| && TerminatesAt(code.stack, pos, Rethrow)
    requires code.stack[pos].actionBlock == map[]
    requires 0 < pos && HasTerminator(BelowRethrow(code, pos).stack, Throw)
    requires var (inner, target) := GenUnwindBlock(BelowRethrow(code, pos), Throw);
      SameWay(BelowRethrow(code, pos).blocks, inner.blocks, v) && EndsAs(inner.blocks, target, v, outcome)
    ensures var (code', next) := GenTopUnwindAction(code, pos, Rethrow);
      EndsAs(code'.blocks, next, v, outcome)
  {
    hide IsCode, GenUnwindBlock, EndsAs;
    var (inner, target) := GenUnwindBlock(BelowRethrow(code, pos), Throw);
    var top := |code.blocks|;
    assert BelowRethrow(code, pos).blocks[top] == Block([], Open);
    assert inner.blocks[top].term == Open && inner.blocks[top].events == [];
    var blocks := inner.blocks[top := Block([], ThrowFrom(target))];
    FilledEnds(inner.blocks, top, target, v, outcome);
    PrependNothing(outcome);
    EndsOn(blocks, top, v, outcome);
  }

  /** Filling in an open block changes no run that ends. */
  lemma FilledEnds(blocks: seq<Block>, top: BlockId, target: BlockId, v: UnwindState, outcome: Outcome)
    requires top < |blocks| && blocks[top] == Block([], Open) && EndsAs(blocks, target, v, outcome)
    ensures EndsAs(blocks[top := Block([], ThrowFrom(target))], target, v, outcome)
  {
    var n: nat :| RunsAs(blocks, target, v, outcome, n);
    FilledRuns(blocks, top, target, target, v, outcome, n);
  }

  lemma {:induction false} FilledRuns(blocks: seq<Block>, top: BlockId, target: BlockId, b: BlockId, v: UnwindState,
          outcome: Outcome, n: nat)
    requires top < |blocks| && blocks[top] == Block([], Open) && RunsAs(blocks, b, v, outcome, n)
    ensures RunsAs(blocks[top := Block([], ThrowFrom(target))], b, v, outcome, n)
    decreases n
  {
    var blocks' := blocks[top := Block([], ThrowFrom(target))];
    if Jumps(blocks[b].term) || blocks[b].term.ThrowFrom? {
      var t := NextBlock(blocks, b, v, n);
      var rest := RunOn(blocks, t, v, n - 1);
      assert NextBlock(blocks', b, v, n) == t;
      FilledRuns(blocks, top, target, t, v, Done(rest.trace, rest.exit), n - 1);
    }
  }

  lemma Prefixed(blocks: seq<Block>, blocks': seq<Block>, v: UnwindState)
    requires blocks <= blocks'
    ensures SameWay(blocks, blocks', v)
  {}

  /** The terminator's block of a stack without any blocks yet. */
  lemma {:induction false} FreshTop(code: Code, pos: nat, st: UnwindState, v: UnwindState)
    requires IsCode(code) && FreshFrom(code.stack, 0) && pos < |code.stack| && TerminatesAt(code.stack, pos, st)
    ensures var (code', next) := GenTopUnwindAction(code, pos, st);
      && |code'.stack| == |code.stack|
      && (forall k :: 0 <= k < |code.stack| && k != pos ==> code'.stack[k] == code.stack[k])
      && (st != Rethrow ==> code.blocks <= code'.blocks)
      && EndsAs(code'.blocks, next, v, WholeUnwind(Kinds(code.stack)[..pos + 1], st))
    decreases |code.stack|, 0
  {
    hide GenUnwindBlock, GenTopUnwindAction, EndsAs, SharedCached, IsCode, WholeUnwind, Kinds;
    GenTopTouchesOne(code, pos, st);
    KindAt(code.stack, pos);
    TopOutcome(Kinds(code.stack), pos, st);
    if st == Rethrow {
      ScopeIsRethrow(code, pos);
      var below := BelowRethrow(code, pos);
      FreshGen(below, Throw, v);
      assert Kinds(below.stack) == Kinds(code.stack)[..pos];
      Prefixed(below.blocks, GenUnwindBlock(below, Throw).0.blocks, v);
      TopIsRethrow(code, pos, v, WholeUnwind(Kinds(code.stack)[..pos + 1], st));
    } else {
      TopIsFresh(code, pos, st, v);
    }
  }

  /** Without any blocks yet, a generated unwind is right whatever the variable holds. */
  lemma {:induction false} FreshGen(code: Code, st: UnwindState, v: UnwindState)
    requires IsCode(code) && HasTerminator(code.stack, st) && FreshFrom(code.stack, 0)
    ensures var (code', entry) := GenUnwindBlock(code, st);
      && |code'.stack| == |code.stack|
      && EndsAs(code'.blocks, entry, v, WholeUnwind(Kinds(code.stack), st))
      && (st != Rethrow ==> code.blocks <= code'.blocks)
      && (IsActive(code.stack[|code.stack| - 1].kind, st) && !IsTerminator(code.stack[|code.stack| - 1].kind) ==>
            SharedCached(code'.stack[|code.stack| - 1], st, entry))
    decreases |code.stack|, 1
  {
    hide GenUnwindBlock, GenTopUnwindAction, LinkActions, EndsAs, SharedCached, IsCode, WholeUnwind, Kinds, IsActive;
    hide UnwindStartPosition, HasTerminator, IsTerminator, Above, IsStack;
    var start, kinds := UnwindStartPosition(code.stack, st), Kinds(code.stack);
    GenIs(code, st, start);
    FreshTop(code, start, st, v);
    var (code1, next) := GenTopUnwindAction(code, start, st);
    FreshLink(code1, start + 1, st, next, v, WholeUnwind(kinds[..start + 1], st));
    assert forall k :: start < k < |kinds| ==> !TerminatesAt(code.stack, k, st) && kinds[k] == code.stack[k].kind;
    WholeFrom(kinds, start + 1, st);
  }

  lemma ScopeIsRethrow(code: Code, pos: nat)
    requires IsCode(code) && pos < |code.stack| && TerminatesAt(code.stack, pos, Rethrow)
    ensures 0 < pos && code.stack[pos].kind == RethrowScope
    ensures HasTerminator(BelowRethrow(code, pos).stack, Throw)
  {
    assert TerminatesAt(BelowRethrow(code, pos).stack, 0, Throw);
  }

  lemma TopOutcome(kinds: seq<Kind>, pos: nat, st: UnwindState)
    requires pos < |kinds| && IsActive(kinds[pos], st) && IsTerminator(kinds[pos])
    ensures st == Rethrow ==> kinds[pos] == RethrowScope && WholeUnwind(kinds[..pos + 1], st) == WholeUnwind(kinds[..pos], Throw)
    ensures st != Rethrow ==> WholeUnwind(kinds[..pos + 1], st) == Done([], ExitOf(kinds[pos], st))
  {
    assert kinds[..pos + 1][..pos] == kinds[..pos];
  }

  // ----- Reusing blocks that were generated for another state -----

  /** Linking a cached entry for one state leaves the way of every other state alone. */
  lemma LinkCachedSame(code: Code, i: nat, st: UnwindState, next: BlockId, v: UnwindState)
    requires IsCode(code) && i < |code.stack| && IsActive(code.stack[i].kind, st) && !IsTerminator(code.stack[i].kind)
    requires v != st
    ensures var (code', next') := LinkAction(code, i, st, next);
      && SameWay(code.blocks, code'.blocks, v)
      && |code'.stack| == |code.stack|
      && (forall k :: 0 <= k < |code.stack| && k != i ==> code'.stack[k] == code.stack[k])
      && (st in code.stack[i].actionBlock ==>
            code'.stack[i] == code.stack[i] && next' == code.stack[i].actionBlock[st].start)
  {
    hide Successor, Jumps, CasesOf, DefaultOf;
    if st in code.stack[i].actionBlock {
      var range := code.stack[i].actionBlock[st];
      assert CacheInRange(|code.blocks|, code.stack[i]);
      LinkSame(code.blocks[range.end].term, st, next, v);
    } else {
      ActiveCanSet(code.stack[i].kind, st);
    }
  }

  lemma LinkSame(term: Terminator, st: UnwindState, next: BlockId, v: UnwindState)
    requires v != st
    ensures Jumps(term) ==> Jumps(Link(term, st, next)) && Successor(Link(term, st, next), v) == Successor(term, v)
    ensures !Jumps(term) ==> Link(term, st, next) == term
  {
    if Jumps(term) {
      LinkMoves(term, st, next, v);
    }
  }

  /**
   The loop meets an entry at `p` whose blocks were generated for another state.  With the variable
   holding neither, those blocks still go where they went.
   */
  lemma {:induction false} DetourLink(code: Code, i: nat, st: UnwindState, next: BlockId, v: UnwindState, p: nat,
          e: BlockId, outcome: Outcome)
    requires IsCode(code) && i <= p < |code.stack| && v != st
    requires forall k :: i <= k < |code.stack| ==> !TerminatesAt(code.stack, k, st)
    requires IsActive(code.stack[p].kind, st) && st in code.stack[p].actionBlock && code.stack[p].actionBlock[st].start == e
    requires FreshFrom(code.stack, p + 1) && EndsAs(code.blocks, e, v, outcome)
    ensures var (code', entry) := LinkActions(code, i, st, next);
      && SameWay(code.blocks, code'.blocks, v)
      && EndsAs(code'.blocks, entry, v, Prepend(Above(Kinds(code.stack), p + 1, st), outcome))
    decreases p - i
  {
    hide IsCode, EndsAs, SameWay, IsActive, LinkActions, LinkAction, Kinds, CacheInRange, SharedCached;
    if !IsActive(code.stack[i].kind, st) {
      LinkSkips(code, i, st, next);
      DetourLink(code, i + 1, st, next, v, p, e, outcome);
    } else {
      assert !TerminatesAt(code.stack, i, st);
      LinkCachedSame(code, i, st, next, v);
      LinkTurns(code, i, st, next);
      var (code1, next1) := LinkAction(code, i, st, next);
      EndsSame(code.blocks, code1.blocks, e, v, outcome);
      var code' := LinkActions(code1, i + 1, st, next1).0;
      if i < p {
        DetourLink(code1, i + 1, st, next1, v, p, e, outcome);
      } else {
        FreshLink(code1, i + 1, st, next1, v, outcome);
        Prefixed(code1.blocks, code'.blocks, v);
      }
      SameWayTransitive(code.blocks, code1.blocks, code'.blocks, v);
    }
  }

  lemma DetourGen(code: Code, st: UnwindState, v: UnwindState, p: nat, e: BlockId, outcome: Outcome)
    requires IsCode(code) && HasTerminator(code.stack, st) && p < |code.stack| && st != Rethrow && v != st
    requires forall k :: p <= k < |code.stack| ==> !TerminatesAt(code.stack, k, st)
    requires IsActive(code.stack[p].kind, st) && st in code.stack[p].actionBlock && code.stack[p].actionBlock[st].start == e
    requires FreshFrom(code.stack, p + 1) && EndsAs(code.blocks, e, v, outcome)
    ensures var (code', entry) := GenUnwindBlock(code, st);
      && SameWay(code.blocks, code'.blocks, v)
      && EndsAs(code'.blocks, entry, v, Prepend(Above(Kinds(code.stack), p + 1, st), outcome))
  {
    hide GenUnwindBlock, GenTopUnwindAction, LinkActions, EndsAs, SameWay, IsCode, Kinds, IsActive;
    var start := UnwindStartPosition(code.stack, st);
    assert start < p;
    GenIs(code, st, start);
    GenTopTouchesOne(code, start, st);
    TopSame(code, start, st, v);
    var (code1, next) := GenTopUnwindAction(code, start, st);
    EndsSame(code.blocks, code1.blocks, e, v, outcome);
    DetourLink(code1, start + 1, st, next, v, p, e, outcome);
    SameWayTransitive(code.blocks, code1.blocks, LinkActions(code1, start + 1, st, next).0.blocks, v);
  }

  lemma TopSame(code: Code, pos: nat, st: UnwindState, v: UnwindState)
    requires IsCode(code) && pos < |code.stack| && TerminatesAt(code.stack, pos, st) && st != Rethrow
    ensures SameWay(code.blocks, GenTopUnwindAction(code, pos, st).0.blocks, v)
  {
    hide IsCode, Successor;
  }

  /** The same in the throw below a rethrow scope, generated on a copy of the stack. */
  lemma DetourBelow(code: Code, scope: nat, p: nat, e: BlockId, outcome: Outcome)
    requires IsCode(code) && p < scope < |code.stack| && TerminatesAt(code.stack, scope, Rethrow)
    requires FreshFrom(code.stack, p + 1)
    requires forall k :: p <= k < scope ==> !TerminatesAt(code.stack, k, Throw)
    requires IsActive(code.stack[p].kind, Throw) && Throw in code.stack[p].actionBlock && code.stack[p].actionBlock[Throw].start == e
    requires EndsAs(code.blocks, e, Rethrow, outcome)
    ensures HasTerminator(BelowRethrow(code, scope).stack, Throw)
    ensures var (inner, target) := GenUnwindBlock(BelowRethrow(code, scope), Throw);
      && SameWay(BelowRethrow(code, scope).blocks, inner.blocks, Rethrow)
      && EndsAs(inner.blocks, target, Rethrow, Prepend(Above(Kinds(code.stack)[..scope], p + 1, Throw), outcome))
  {
    hide GenUnwindBlock, EndsAs, SameWay, IsCode, Kinds, IsActive, IsTerminator, HasTerminator, Above;
    ScopeIsRethrow(code, scope);
    var below := BelowRethrow(code, scope);
    KindsOfPrefix(code.stack, scope);
    Prefixed(code.blocks, below.blocks, Rethrow);
    EndsSame(code.blocks, below.blocks, e, Rethrow, outcome);
    assert forall k :: p <= k < scope ==> TerminatesAt(below.stack, k, Throw) == TerminatesAt(code.stack, k, Throw);
    DetourGen(below, Throw, Rethrow, p, e, outcome);
  }

  /** The same inside a rethrow: the detour is in the throw below the rethrow scope at `scope`. */
  lemma DetourRethrow(code: Code, scope: nat, p: nat, e: BlockId, outcome: Outcome)
    requires IsCode(code) && HasTerminator(code.stack, Rethrow) && p < scope < |code.stack|
    requires code.stack[scope].kind == RethrowScope && FreshFrom(code.stack, p + 1)
    requires forall k :: scope < k < |code.stack| ==> !TerminatesAt(code.stack, k, Rethrow)
    requires forall k :: p <= k < scope ==> !TerminatesAt(code.stack, k, Throw)
    requires IsActive(code.stack[p].kind, Throw) && Throw in code.stack[p].actionBlock && code.stack[p].actionBlock[Throw].start == e
    requires EndsAs(code.blocks, e, Rethrow, outcome)
    ensures var (code', entry) := GenUnwindBlock(code, Rethrow);
      EndsAs(code'.blocks, entry, Rethrow,
             Prepend(Above(Kinds(code.stack), scope + 1, Rethrow), Prepend(Above(Kinds(code.stack)[..scope], p + 1, Throw), outcome)))
  {
    hide GenUnwindBlock, GenTopUnwindAction, LinkActions, EndsAs, SameWay, IsCode, Kinds, IsActive, IsTerminator;
    hide SharedCached;
    hide HasTerminator, Above, Prepend;
    RethrowEndsAtScope();
    assert TerminatesAt(code.stack, scope, Rethrow);
    GenIs(code, Rethrow, scope);
    DetourBelow(code, scope, p, e, outcome);
    var wrong := Prepend(Above(Kinds(code.stack)[..scope], p + 1, Throw), outcome);
    TopIsRethrow(code, scope, Rethrow, wrong);
    GenTopTouchesOne(code, scope, Rethrow);
    var (code1, next) := GenTopUnwindAction(code, scope, Rethrow);
    FreshLink(code1, scope + 1, Rethrow, next, Rethrow, wrong);
  }

  lemma RethrowEndsAtScope()
    ensures IsActive(RethrowScope, Rethrow) && IsTerminator(RethrowScope)
  {}

  // ----- Throws and rethrows that mean different things -----

  /** Catches on the two sides of a rethrow scope are of different try statements. */
  predicate HandlersApart(kinds: seq<Kind>) {
    forall i, r, j :: 0 <= i < r < j < |kinds| && kinds[i].Catch? && kinds[r] == RethrowScope && kinds[j].Catch? ==>
      kinds[i].catchTarget != kinds[j].catchTarget
  }

  /** A throw ends in a catch that is on the stack, or leaves the function. */
  lemma {:induction false} ThrowEndsIn(kinds: seq<Kind>)
    requires IsKinds(kinds)
    ensures Unwind(kinds, Throw).Done?
    ensures var exit := Unwind(kinds, Throw).exit;
      exit == Resume || exists i :: 0 <= i < |kinds| && kinds[i].Catch? && exit == ToCatch(kinds[i].catchTarget)
  {
    var top, rest := kinds[|kinds| - 1], kinds[..|kinds| - 1];
    if |kinds| > 1 && !top.Catch? {
      ThrowEndsIn(rest);
    }
  }

  /** So does a whole rethrow, in a catch below the topmost rethrow scope. */
  lemma {:induction false} RethrowEndsIn(kinds: seq<Kind>)
    requires IsKinds(kinds) && HasScope(kinds)
    ensures WholeUnwind(kinds, Rethrow).Done?
    ensures var exit := WholeUnwind(kinds, Rethrow).exit;
      exit == Resume || exists i, r :: 0 <= i < r < |kinds| && kinds[i].Catch? && kinds[r] == RethrowScope && exit == ToCatch(kinds[i].catchTarget)
  {
    var top, rest := kinds[|kinds| - 1], kinds[..|kinds| - 1];
    if top == RethrowScope {
      ThrowEndsIn(rest);
      WholeIsUnwind(rest, Throw);
    } else {
      RethrowEndsIn(rest);
    }
  }

  /** The throw and the rethrow differ in their exits, or the throw performs more. */
  predicate ThrowDoesMore(throw: Outcome, rethrow: Outcome) {
    throw.Done? && rethrow.Done? && (throw.exit != rethrow.exit || |throw.trace| > |rethrow.trace|)
  }

  lemma {:induction false} DiffersMeans(kinds: seq<Kind>)
    requires IsKinds(kinds) && HasScope(kinds) && HandlersApart(kinds)
    ensures if Differs(kinds) then ThrowDoesMore(Unwind(kinds, Throw), WholeUnwind(kinds, Rethrow))
            else WholeUnwind(kinds, Rethrow) == Unwind(kinds, Throw)
  {
    var top, rest := kinds[|kinds| - 1], kinds[..|kinds| - 1];
    RethrowEndsIn(kinds);
    ThrowEndsIn(kinds);
    if top == RethrowScope {
      WholeIsUnwind(rest, Throw);
    } else {
      assert HasScope(rest);
      DiffersMeans(rest);
      if top.Catch? {
        assert WholeUnwind(kinds, Rethrow).exit != ToCatch(top.catchTarget);
      }
    }
  }

  /** The entry at which a shadowed throw goes wrong. */
  function ShadowAt(kinds: seq<Kind>): (p: nat)
    requires Shadowed(kinds)
    ensures p < |kinds| && SharesBlocks(kinds[p]) && Differs(kinds[..p])
    ensures forall k :: p <= k < |kinds| ==> !(IsActive(kinds[k], Throw) && IsTerminator(kinds[k]))
  {
    var rest := kinds[..|kinds| - 1];
    if SharesBlocks(kinds[|kinds| - 1]) && Differs(rest) then |kinds| - 1
    else
      var p := ShadowAt(rest);
      assert rest[..p] == kinds[..p];
      p
  }

  lemma {:induction false} DiffersHasScope(kinds: seq<Kind>)
    requires Differs(kinds)
    ensures HasScope(kinds)
  {
    if !ThrowOnly(kinds[|kinds| - 1]) {
      DiffersHasScope(kinds[..|kinds| - 1]);
    }
  }

  // ----- Histories -----

  /** Generates an unwind for `st` while the entry at `p` is on top, and then pushes the rest. */
  function DetourSteps(kinds: seq<Kind>, p: nat, st: UnwindState): seq<Step>
    requires 0 < p < |kinds|
  {
    Pushes(kinds[1..p + 1]) + ([Gen(st)] + Pushes(kinds[p + 1..]))
  }

  /** With the entry at `p` on top of the stack. */
  lemma Pushed(start: Code, kinds: seq<Kind>, p: nat, st: UnwindState) returns (code: Code)
    requires IsCode(start) && start.stack == [NewAction(FunctionMarker)] && IsKinds(kinds)
    requires 0 < p < |kinds| && Terminates(kinds[..p], st)
    ensures CanRun(start, Pushes(kinds[1..p + 1])) && ApplyAll(start, Pushes(kinds[1..p + 1])) == code
    ensures Kinds(code.stack) == kinds[..p + 1] && FreshFrom(code.stack, 0) && |code.stack| == p + 1 && code.blocks == start.blocks
    ensures code.stack[p].kind == kinds[p] && HasTerminator(code.stack, st)
  {
    hide IsCode, CanRun, ApplyAll, Pushes, HasTerminator, Terminates;
    PushAll(start, kinds[1..p + 1]);
    code := Code(start.blocks, start.stack + NewActions(kinds[1..p + 1]));
    NewKinds(start.stack, kinds[1..p + 1]);
    OneKind(start.stack);
    assert Kinds(code.stack) == kinds[..p + 1];
    TerminatesHigher(kinds, p, st);
    KindsTerminate(code.stack, st);
  }

  /** Generating there, and pushing the rest. */
  lemma GeneratedAndPushed(code: Code, st: UnwindState, above: seq<Kind>) returns (code': Code, e: BlockId)
    requires IsCode(code) && HasTerminator(code.stack, st) && FreshFrom(code.stack, 0) && FunctionMarker !in above
    requires var top := code.stack[|code.stack| - 1].kind; IsActive(top, st) && !IsTerminator(top)
    ensures CanRun(code, [Gen(st)] + Pushes(above)) && ApplyAll(code, [Gen(st)] + Pushes(above)) == code'
    ensures Kinds(code'.stack) == Kinds(code.stack) + above && FreshFrom(code'.stack, |code.stack|)
    ensures SharedCached(code'.stack[|code.stack| - 1], st, e)
    ensures AlwaysEndsAs(code'.blocks, e, WholeUnwind(Kinds(code.stack), st))
  {
    hide IsCode, GenUnwindBlock, EndsAs, WholeUnwind, IsActive, SharedCached, Pushes, CanRun, ApplyAll, Kinds;
    hide CanStep, HasTerminator, FreshFrom;
    var (code1, entry) := GenUnwindBlock(code, st);
    e := entry;
    forall v ensures EndsAs(code1.blocks, e, v, WholeUnwind(Kinds(code.stack), st)) {
      FreshGen(code, st, v);
    }
    FreshGen(code, st, Normal);
    GenIsStep(code, st);
    RunOne(code, Gen(st));
    PushAll(code1, above);
    RunConcat(code, [Gen(st)], Pushes(above));
    NewKinds(code1.stack, above);
    code' := Code(code1.blocks, code1.stack + NewActions(above));
  }

  /** After the detour, the entry at `p` keeps blocks that run as the unwind for `st`. */
  lemma Detour(start: Code, kinds: seq<Kind>, p: nat, st: UnwindState) returns (code: Code, e: BlockId)
    requires IsCode(start) && start.stack == [NewAction(FunctionMarker)] && IsKinds(kinds)
    requires 0 < p < |kinds| && IsActive(kinds[p], st) && !IsTerminator(kinds[p]) && Terminates(kinds[..p], st)
    ensures CanRun(start, DetourSteps(kinds, p, st)) && code == ApplyAll(start, DetourSteps(kinds, p, st))
    ensures Kinds(code.stack) == kinds && |code.stack| == |kinds| && FreshFrom(code.stack, p + 1)
    ensures SharedCached(code.stack[p], st, e)
    ensures AlwaysEndsAs(code.blocks, e, WholeUnwind(kinds[..p + 1], st))
  {
    hide IsCode, GenUnwindBlock, EndsAs, WholeUnwind, IsActive, IsTerminator, SharedCached, Pushes, CanRun, ApplyAll;
    hide HasTerminator, Terminates, FreshFrom, Kinds;
    var code1 := Pushed(start, kinds, p, st);
    code, e := GeneratedAndPushed(code1, st, kinds[p + 1..]);
    RunConcat(start, Pushes(kinds[1..p + 1]), [Gen(st)] + Pushes(kinds[p + 1..]));
    assert kinds == kinds[..p + 1] + kinds[p + 1..];
    assert |Kinds(code.stack)| == |code.stack|;
  }

  lemma TerminatesHigher(kinds: seq<Kind>, p: nat, st: UnwindState)
    requires p < |kinds| && Terminates(kinds[..p], st)
    ensures Terminates(kinds[..p + 1], st)
  {
    var k :| 0 <= k < p && IsActive(kinds[..p][k], st) && IsTerminator(kinds[..p][k]);
    assert kinds[..p + 1][k] == kinds[..p][k];
  }

  lemma GenIsStep(code: Code, st: UnwindState)
    requires IsCode(code) && HasTerminator(code.stack, st)
    ensures CanStep(code, Gen(st)) && Apply(code, Gen(st)) == GenUnwindBlock(code, st).0
  {
    hide IsCode, GenUnwindBlock;
  }

  // ----- What the variable can hold -----

  /** The history starts a rethrow that a catch of this function handles; it stays in the variable. */
  predicate CatchesRethrow(steps: seq<Step>, n: nat)
    requires n < |steps|
  {
    && (steps[n] == Gen(Rethrow) || steps[n] == GenPad(Rethrow))
    && IsCode(INITIAL) && CanRun(INITIAL, steps[..n])
    && var outcome := WholeUnwind(Kinds(ApplyAll(INITIAL, steps[..n]).stack), Rethrow);
    outcome.Done? && outcome.exit.ToCatch?
  }

  /**
   The values the variable can have when an unwind starts: its initial value, to which breaks and
   continues set it back, or a rethrow that has been caught.
   */
  predicate CanHold(steps: seq<Step>, v: UnwindState) {
    v == Normal || (v == Rethrow && exists n :: 0 <= n < |steps| && CatchesRethrow(steps, n))
  }

  // ----- Histories that go wrong -----

  /** A run that ends otherwise is not right. */
  lemma WrongWay(code: Code, st: UnwindState, v: UnwindState, wrong: Outcome)
    requires IsCode(code) && HasTerminator(code.stack, st)
    requires var (code', entry) := GenUnwindBlock(code, st);
      EndsAs(code'.blocks, entry, VariableAfter(st, v), wrong)
    requires wrong != WholeUnwind(Kinds(code.stack), st)
    ensures !RightAfter(code, st, v)
  {
    hide IsCode, GenUnwindBlock, WholeUnwind, Kinds, RunsAs, HasTerminator;
    var (code', entry) := GenUnwindBlock(code, st);
    if RightAfter(code, st, v) {
      assert CanRun(code', []) && ApplyAll(code', []) == code';
      assert Leads(code', code');
      EndsOnce(code'.blocks, entry, VariableAfter(st, v), wrong, WholeUnwind(Kinds(code.stack), st));
    }
  }

  lemma SamePrefix(events: seq<Kind>, x: Outcome, y: Outcome)
    requires x != y
    ensures Prepend(events, x) != Prepend(events, y)
  {
    if Prepend(events, x) == Prepend(events, y) {
      SamePrefixed(events, x, y);
    }
  }

  /** Where a shadowed throw takes the rethrow's way, the outcome is another one. */
  lemma ShadowOutcome(kinds: seq<Kind>, p: nat)
    requires IsKinds(kinds) && HandlersApart(kinds) && p < |kinds| && SharesBlocks(kinds[p]) && Differs(kinds[..p])
    ensures 0 < p && WholeUnwind(kinds[..p + 1], Rethrow) != Unwind(kinds[..p + 1], Throw)
    ensures Terminates(kinds[..p], Rethrow) && Terminates(kinds[..p], Throw)
  {
    DiffersHasScope(kinds[..p]);
    var r :| 0 <= r < p && kinds[..p][r] == RethrowScope;
    assert IsActive(kinds[..p][r], Rethrow);
    assert IsActive(kinds[..p][0], Throw);
    DiffersMeans(kinds[..p]);
    assert kinds[..p + 1][..p] == kinds[..p];
    SamePrefix([kinds[p]], WholeUnwind(kinds[..p], Rethrow), Unwind(kinds[..p], Throw));
  }

  /** On a shadowed stack there is a history after which a throw takes the way of a rethrow. */
  lemma ShadowedThrowGoesWrong(kinds: seq<Kind>) returns (code: Code, steps: seq<Step>)
    requires IsKinds(kinds) && HandlersApart(kinds) && Shadowed(kinds)
    ensures IsCode(INITIAL) && CanRun(INITIAL, steps) && ApplyAll(INITIAL, steps) == code
    ensures Kinds(code.stack) == kinds && HasTerminator(code.stack, Throw)
    ensures !RightAfter(code, Throw, Normal)
  {
    hide IsCode, GenUnwindBlock, EndsAs, WholeUnwind, Unwind, Differs, Shadowed, Kinds, HandlersApart, DetourSteps;
    hide CanRun, ApplyAll, HasTerminator, RightAfter;
    InitialInv();
    var p, e := ShadowAt(kinds), 0;
    ShadowOutcome(kinds, p);
    steps := DetourSteps(kinds, p, Rethrow);
    code, e := Detour(INITIAL, kinds, p, Rethrow);
    TerminatesPrefix(kinds, p, Throw);
    KindsTerminate(code.stack, Throw);
    KindAt(code.stack, p);
    NoTerminatorsAbove(code.stack, kinds, p, Throw);
    var wrong, right := WholeUnwind(kinds[..p + 1], Rethrow), WholeUnwind(kinds[..p + 1], Throw);
    DetourGen(code, Throw, Normal, p, e, wrong);
    WholeIsUnwind(kinds[..p + 1], Throw);
    WholeFrom(kinds, p + 1, Throw);
    SamePrefix(Above(kinds, p + 1, Throw), wrong, right);
    WrongWay(code, Throw, Normal, Prepend(Above(kinds, p + 1, Throw), wrong));
  }

  lemma NoTerminatorsAbove(stack: seq<Action>, kinds: seq<Kind>, p: nat, st: UnwindState)
    requires Kinds(stack) == kinds
    requires forall k :: p <= k < |kinds| ==> !(IsActive(kinds[k], st) && IsTerminator(kinds[k]))
    ensures |stack| == |kinds|
    ensures forall k :: p <= k < |stack| ==> !TerminatesAt(stack, k, st)
    ensures forall k :: 0 <= k < |stack| ==> stack[k].kind == kinds[k]
  {
    assert |Kinds(stack)| == |stack|;
    assert forall k :: 0 <= k < |stack| ==> Kinds(stack)[k] == stack[k].kind;
  }

  /** What running past the scope at the shadowing entry makes of a rethrow is not what it means. */
  lemma ShadowedRethrowOutcome(kinds: seq<Kind>)
    requires IsKinds(kinds) && HandlersApart(kinds) && Shadowed(BelowScope(kinds))
    ensures var below := BelowScope(kinds);
      var p := ShadowAt(below);
      && |below| < |kinds| && below == kinds[..|below|]
      && Prepend(Above(kinds, |below| + 1, Rethrow), Prepend(Above(below, p + 1, Throw), WholeUnwind(kinds[..p + 1], Rethrow)))
           != WholeUnwind(kinds, Rethrow)
  {
    hide WholeUnwind, Unwind, Differs, Shadowed, HandlersApart, BelowScope, IsKinds, Prepend;
    var below := BelowScope(kinds);
    var p, scope := ShadowAt(below), |below|;
    ScopeFound(kinds);
    ShadowOutcome(below, p);
    assert below[..p + 1] == kinds[..p + 1];
    WholeIsUnwind(below[..p + 1], Throw);
    WholeFrom(below, p + 1, Throw);
    SamePrefix(Above(below, p + 1, Throw), WholeUnwind(below[..p + 1], Rethrow), WholeUnwind(below[..p + 1], Throw));
    RethrowEndsAtScope();
    TopOutcome(kinds, scope, Rethrow);
    WholeFrom(kinds, scope + 1, Rethrow);
    SamePrefix(Above(kinds, scope + 1, Rethrow),
               Prepend(Above(below, p + 1, Throw), WholeUnwind(below[..p + 1], Rethrow)), WholeUnwind(below, Throw));
  }

  /** On a stack with a shadowed throw below its rethrow scope, the same happens to a rethrow. */
  lemma ShadowedRethrowGoesWrong(kinds: seq<Kind>) returns (code: Code, steps: seq<Step>)
    requires IsKinds(kinds) && HandlersApart(kinds) && Shadowed(BelowScope(kinds))
    ensures IsCode(INITIAL) && CanRun(INITIAL, steps) && ApplyAll(INITIAL, steps) == code
    ensures Kinds(code.stack) == kinds && HasTerminator(code.stack, Rethrow)
    ensures !RightAfter(code, Rethrow, Normal)
  {
    hide IsCode, GenUnwindBlock, EndsAs, WholeUnwind, Unwind, Differs, Shadowed, Kinds, HandlersApart, DetourSteps;
    hide CanRun, ApplyAll, HasTerminator, RightAfter, BelowScope, Above, IsActive;
    hide IsTerminator, SharedCached, FreshFrom, Terminates, IsStack, Prepend;
    InitialInv();
    var below := BelowScope(kinds);
    var p, e, scope := ShadowAt(below), 0, |below|;
    ScopeFound(kinds);
    ShadowOutcome(below, p);
    assert below[..p] == kinds[..p] && below[p] == kinds[p];
    TerminatesPrefix(kinds, p, Rethrow);
    steps := DetourSteps(kinds, p, Rethrow);
    code, e := Detour(INITIAL, kinds, p, Rethrow);
    KindsTerminate(code.stack, Rethrow);
    NoTerminatorsAbove(code.stack, kinds, scope + 1, Rethrow);
    NoThrowEnds(code.stack, kinds, below, p);
    CachedForThrow(code.stack[p], e);
    KindAt(code.stack, scope);
    DetourRethrow(code, scope, p, e, WholeUnwind(kinds[..p + 1], Rethrow));
    ShadowedRethrowOutcome(kinds);
    WrongWay(code, Rethrow, Normal,
             Prepend(Above(kinds, scope + 1, Rethrow), Prepend(Above(below, p + 1, Throw), WholeUnwind(kinds[..p + 1], Rethrow))));
  }

  lemma NoThrowEnds(stack: seq<Action>, kinds: seq<Kind>, below: seq<Kind>, p: nat)
    requires Kinds(stack) == kinds && |below| <= |kinds| && below == kinds[..|below|]
    requires forall k :: p <= k < |below| ==> !(IsActive(below[k], Throw) && IsTerminator(below[k]))
    ensures |stack| == |kinds| && forall k :: p <= k < |below| ==> !TerminatesAt(stack, k, Throw)
  {
    assert |Kinds(stack)| == |stack|;
    forall k | p <= k < |below| ensures !TerminatesAt(stack, k, Throw) {
      assert kinds[k] == Kinds(stack)[k] == stack[k].kind && below[k] == kinds[k];
    }
  }

  lemma CachedForThrow(action: Action, e: BlockId)
    requires SharesBlocks(action.kind) && SharedCached(action, Rethrow, e)
    ensures Throw in action.actionBlock && action.actionBlock[Throw].start == e
  {}

  lemma {:induction false} ScopeFound(kinds: seq<Kind>)
    requires IsKinds(kinds) && BelowScope(kinds) != []
    ensures var below := BelowScope(kinds);
      && |below| < |kinds| && below == kinds[..|below|] && kinds[|below|] == RethrowScope
      && IsKinds(below) && (HandlersApart(kinds) ==> HandlersApart(below))
      && forall k :: |below| < k < |kinds| ==> !(IsActive(kinds[k], Rethrow) && IsTerminator(kinds[k]))
  {
    var top, rest := kinds[|kinds| - 1], kinds[..|kinds| - 1];
    if top != RethrowScope {
      ScopeFound(rest);
    }
  }

  // ----- Normal unwinds -----

  /** A rethrow that is caught in the function; the function's stack is then back where it was. */
  const CAUGHT_RETHROW := [Push(Catch(5, 77)), Push(RethrowScope), Gen(Rethrow), Pop, Pop]

  /** The topmost entry to clean up. */
  function CleanAt(kinds: seq<Kind>, st: UnwindState): (p: nat)
    requires Cleans(kinds, st)
    ensures p < |kinds| && IsActive(kinds[p], st) && !IsTerminator(kinds[p])
    ensures forall k :: p < k < |kinds| ==> !IsActive(kinds[k], st)
  {
    if IsActive(kinds[|kinds| - 1], st) then |kinds| - 1 else CleanAt(kinds[..|kinds| - 1], st)
  }

  /** Entries below where the unwind ends are not touched. */
  lemma {:induction false} LinkTouchesAbove(code: Code, i: nat, st: UnwindState, next: BlockId)
    requires IsCode(code) && i <= |code.stack|
    requires forall k :: i <= k < |code.stack| ==> !TerminatesAt(code.stack, k, st)
    ensures var code' := LinkActions(code, i, st, next).0;
      |code'.stack| == |code.stack| && forall k :: 0 <= k < i ==> code'.stack[k] == code.stack[k]
    decreases |code.stack| - i
  {
    hide IsCode, LinkAction, LinkActions, IsActive;
    if i == |code.stack| || !IsActive(code.stack[i].kind, st) {
      LinkSkips(code, i, st, next);
      if i < |code.stack| {
        LinkTouchesAbove(code, i + 1, st, next);
      }
    } else {
      LinkTurns(code, i, st, next);
      LinkTouchesOne(code, i, st, next);
      var (code1, next1) := LinkAction(code, i, st, next);
      LinkTouchesAbove(code1, i + 1, st, next1);
    }
  }

  lemma LinkTouchesOne(code: Code, i: nat, st: UnwindState, next: BlockId)
    requires IsCode(code) && i < |code.stack| && !IsTerminator(code.stack[i].kind)
    ensures var code' := LinkAction(code, i, st, next).0;
      |code'.stack| == |code.stack| && forall k :: 0 <= k < |code.stack| && k != i ==> code'.stack[k] == code.stack[k]
  {
    if IsActive(code.stack[i].kind, st) {
      ActiveCanSet(code.stack[i].kind, st);
    }
  }

  lemma GenTouchesAbove(code: Code, st: UnwindState)
    requires IsCode(code) && HasTerminator(code.stack, st)
    ensures var code' := GenUnwindBlock(code, st).0;
      && |code'.stack| == |code.stack|
      && forall k :: 0 <= k < UnwindStartPosition(code.stack, st) ==> code'.stack[k] == code.stack[k]
  {
    hide IsCode, GenUnwindBlock, GenTopUnwindAction, LinkActions, Kinds;
    var start := UnwindStartPosition(code.stack, st);
    GenIs(code, st, start);
    GenTopTouchesOne(code, start, st);
    var (code1, next) := GenTopUnwindAction(code, start, st);
    LinkTouchesAbove(code1, start + 1, st, next);
  }

  const CATCH_STACK := [NewAction(FunctionMarker), NewAction(Catch(5, 77)), NewAction(RethrowScope)]

  lemma RethrowCaught() returns (code: Code)
    ensures IsCode(INITIAL) && CanRun(INITIAL, CAUGHT_RETHROW) && code == ApplyAll(INITIAL, CAUGHT_RETHROW)
    ensures code.stack == [NewAction(FunctionMarker)]
    ensures CatchesRethrow(CAUGHT_RETHROW, 2)
  {
    hide IsCode, GenUnwindBlock, HasTerminator, CanRun, ApplyAll, UnwindStartPosition;
    InitialInv();
    var steps, kinds := CAUGHT_RETHROW, [Catch(5, 77), RethrowScope];
    PushAll(INITIAL, kinds);
    assert kinds[1..] == [RethrowScope] && kinds[1..][1..] == [];
    assert Pushes(kinds) == steps[..2];
    var code1 := Code([], INITIAL.stack + NewActions(kinds));
    assert code1.stack == CATCH_STACK;
    assert TerminatesAt(CATCH_STACK, 2, Rethrow);
    StartIs(CATCH_STACK, Rethrow, 2);
    CaughtOutcome();
    GenIsStep(code1, Rethrow);
    GenTouchesAbove(code1, Rethrow);
    var code2 := GenUnwindBlock(code1, Rethrow).0;
    var code3 := Apply(code2, Pop);
    code := Apply(code3, Pop);
    RunOne(code1, Gen(Rethrow));
    RunOne(code2, Pop);
    RunOne(code3, Pop);
    RunConcat(code2, [Pop], [Pop]);
    RunConcat(code1, [Gen(Rethrow)], [Pop] + [Pop]);
    RunConcat(INITIAL, steps[..2], [Gen(Rethrow)] + ([Pop] + [Pop]));
    assert steps == steps[..2] + ([Gen(Rethrow)] + ([Pop] + [Pop]));
  }

  lemma CaughtOutcome()
    ensures WholeUnwind(Kinds(CATCH_STACK), Rethrow) == Done([], ToCatch(5))
  {
    var kinds := Kinds(CATCH_STACK);
    assert kinds == [FunctionMarker, Catch(5, 77), RethrowScope];
    assert kinds[..2] == [FunctionMarker, Catch(5, 77)];
  }

  /**
   Where there is something to clean up there is a history, with a caught rethrow in the variable, after
   which reaching the end of a scope takes the way of a return.
   */
  lemma CleaningGoesWrong(kinds: seq<Kind>) returns (code: Code, steps: seq<Step>)
    requires IsKinds(kinds) && Terminates(kinds, Normal) && Cleans(kinds, Normal)
    ensures IsCode(INITIAL) && CanRun(INITIAL, steps) && ApplyAll(INITIAL, steps) == code
    ensures Kinds(code.stack) == kinds && HasTerminator(code.stack, Normal)
    ensures CanHold(steps, Rethrow) && !RightAfter(code, Normal, Rethrow)
  {
    hide IsCode, GenUnwindBlock, EndsAs, WholeUnwind, Unwind, Cleans, Kinds, DetourSteps, CanRun, ApplyAll;
    hide HasTerminator, RightAfter, CatchesRethrow;
    var start := RethrowCaught();
    var p, e := CleanAt(kinds, Normal), 0;
    CleanShares(kinds, p);
    code, e := Detour(start, kinds, p, Return);
    var detour := DetourSteps(kinds, p, Return);
    steps := CAUGHT_RETHROW + detour;
    RunConcat(INITIAL, CAUGHT_RETHROW, detour);
    StillCatches(CAUGHT_RETHROW, detour, 2);
    KindsTerminate(code.stack, Normal);
    NoTerminatorsAbove(code.stack, kinds, p, Normal);
    var wrong := WholeUnwind(kinds[..p + 1], Return);
    DetourGen(code, Normal, Rethrow, p, e, wrong);
    ReturnLeaves(kinds[..p + 1]);
    NormalLeaves(kinds);
    WrongWay(code, Normal, Rethrow, Prepend(Above(kinds, p + 1, Normal), wrong));
  }

  lemma CleanShares(kinds: seq<Kind>, p: nat)
    requires IsKinds(kinds) && p < |kinds| && IsActive(kinds[p], Normal) && !IsTerminator(kinds[p])
    ensures 0 < p && IsActive(kinds[p], Return) && Terminates(kinds[..p], Return)
    ensures CanSetActionBlock(kinds[p], Return) && Normal in SharingStates(kinds[p], Return)
  {
    assert IsActive(kinds[..p][0], Return) by { assert kinds[..p][0] == FunctionMarker; }
  }

  lemma StillCatches(first: seq<Step>, second: seq<Step>, n: nat)
    requires n < |first| && CatchesRethrow(first, n)
    ensures CatchesRethrow(first + second, n)
  {
    assert (first + second)[..n] == first[..n];
  }

  lemma {:induction false} ReturnLeaves(kinds: seq<Kind>)
    requires IsKinds(kinds)
    ensures WholeUnwind(kinds, Return).Done? && WholeUnwind(kinds, Return).exit == ReturnSaved
  {
    if |kinds| > 1 {
      ReturnLeaves(kinds[..|kinds| - 1]);
    }
  }

  lemma {:induction false} NormalLeaves(kinds: seq<Kind>)
    ensures WholeUnwind(kinds, Normal).Done? ==> WholeUnwind(kinds, Normal).exit.ToScopeEnd?
  {
    if kinds != [] {
      NormalLeaves(kinds[..|kinds| - 1]);
    }
  }

  // ----- Exactly which unwinds may rely on the generator alone -----

  /** For a stack: unwinds are right after every history, with whatever the variable can hold. */
  ghost predicate AlwaysRight(kinds: seq<Kind>, st: UnwindState) {
    IsCode(INITIAL) && forall steps, v ::
      CanRun(INITIAL, steps) && Kinds(ApplyAll(INITIAL, steps).stack) == kinds && CanHold(steps, v)
      && HasTerminator(ApplyAll(INITIAL, steps).stack, st) ==>
        RightAfter(ApplyAll(INITIAL, steps), st, v)
  }

  /**
   Returns, breaks and continues are right on every stack.  The end of a scope is reached by the right
   way, whatever the history, exactly if there is nothing to clean up; throws and rethrows exactly if
   the throw is not shadowed by what a rethrow would do.
   */
  lemma RightExactlyWhenSafe(kinds: seq<Kind>, st: UnwindState)
    requires IsKinds(kinds) && HandlersApart(kinds) && Terminates(kinds, st)
    ensures AlwaysRight(kinds, st) <==> Safe(kinds, st)
  {
    hide IsCode, CanRun, ApplyAll, RightAfter, HandlersApart, Shadowed, Cleans, HasTerminator, CatchesRethrow, Kinds;
    InitialInv();
    if Safe(kinds, st) {
      forall steps, v | CanRun(INITIAL, steps) && Kinds(ApplyAll(INITIAL, steps).stack) == kinds && CanHold(steps, v)
        && HasTerminator(ApplyAll(INITIAL, steps).stack, st)
        ensures RightAfter(ApplyAll(INITIAL, steps), st, v)
      {
        assert Leads(INITIAL, ApplyAll(INITIAL, steps));
        SafeIsRight(ApplyAll(INITIAL, steps), st, v);
      }
    } else {
      var code, steps;
      if st == Throw {
        code, steps := ShadowedThrowGoesWrong(kinds);
        assert CanHold(steps, Normal);
      } else if st == Rethrow {
        code, steps := ShadowedRethrowGoesWrong(kinds);
        assert CanHold(steps, Normal);
      } else {
        code, steps := CleaningGoesWrong(kinds);
      }
    }
  }

  // ----- The three kinds of stack -----

  /** In a catch block under which a destructor of the catch block is to run. */
  const IN_CATCH := [FunctionMarker, RethrowScope, DestroyException(7), Destructor(0, 1)]

  /** In a catch block nested in that catch block. */
  const IN_NESTED_CATCH := IN_CATCH + [RethrowScope, DestroyException(8)]

  const IN_SCOPE := [FunctionMarker, ScopeMarker(9), Destructor(0, 1)]

  lemma ThrowUnsafe()
    ensures IsKinds(IN_CATCH) && HandlersApart(IN_CATCH) && Terminates(IN_CATCH, Throw) && !Safe(IN_CATCH, Throw)
  {
    assert IN_CATCH[..3] == [FunctionMarker, RethrowScope, DestroyException(7)];
    assert IN_CATCH[..3][..2][1] == RethrowScope;
    assert Differs(IN_CATCH[..3]);
    assert IsActive(IN_CATCH[0], Throw);
  }

  lemma RethrowUnsafe()
    ensures IsKinds(IN_NESTED_CATCH) && HandlersApart(IN_NESTED_CATCH)
    ensures Terminates(IN_NESTED_CATCH, Rethrow) && !Safe(IN_NESTED_CATCH, Rethrow)
  {
    hide Shadowed;
    ThrowUnsafe();
    assert IsActive(IN_NESTED_CATCH[4], Rethrow);
    assert IN_NESTED_CATCH[..5][..4] == IN_CATCH;
    assert BelowScope(IN_NESTED_CATCH[..5]) == IN_CATCH;
  }

  lemma NormalUnsafe()
    ensures IsKinds(IN_SCOPE) && HandlersApart(IN_SCOPE) && Terminates(IN_SCOPE, Normal) && !Safe(IN_SCOPE, Normal)
  {
    assert IsActive(IN_SCOPE[1], Normal);
  }

  /** Only the states that are stored, and end where they were stored for, are right on all stacks. */
  lemma StoredStatesAreAlwaysRight(st: UnwindState)
    ensures (forall kinds :: IsKinds(kinds) && HandlersApart(kinds) && Terminates(kinds, st) ==> AlwaysRight(kinds, st))
      <==> st in {Return, Break, Continue}
  {
    hide AlwaysRight, Shadowed, Cleans, HandlersApart, IsKinds, Terminates, BelowScope;
    ThrowUnsafe();
    RethrowUnsafe();
    NormalUnsafe();
    if st in {Return, Break, Continue} {
      forall kinds | IsKinds(kinds) && HandlersApart(kinds) && Terminates(kinds, st) ensures AlwaysRight(kinds, st) {
        RightExactlyWhenSafe(kinds, st);
      }
    } else {
      var kinds := if st == Normal then IN_SCOPE else if st == Throw then IN_CATCH else IN_NESTED_CATCH;
      RightExactlyWhenSafe(kinds, st);
    }
  }
}

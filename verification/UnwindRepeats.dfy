/**
 Repeated cases.  Linking gives a switch another case whether or not it has one for the state, so a
 switch can get two.  Exactly which generated unwinds do that.
 */
module UnwindRepeats {
  import opened UnwindAction
  import opened UnwindCode
  import opened UnwindRefinement
  import opened UnwindHistories
  import opened UnwindPads
  import opened UnwindWhole
  import opened UnwindVariable

  /** No switch has two cases for one state. */
  predicate NoRepeats(blocks: seq<Block>) {
    forall b, st :: 0 <= b < |blocks| && blocks[b].term.Switch? ==> CaseCount(blocks[b].term.cases, st) <= 1
  }

  /** The entry is active and its blocks end in a switch that has a case for the state. */
  predicate HasCaseAt(code: Code, k: nat, st: UnwindState)
    requires k < |code.stack|
  {
    && IsActive(code.stack[k].kind, st)
    && st in code.stack[k].actionBlock
    && var range := code.stack[k].actionBlock[st];
    range.Blocks? && range.end < |code.blocks| && Jumps(code.blocks[range.end].term) && HasCase(code.blocks[range.end].term, st)
  }

  predicate MeetsCaseFrom(code: Code, i: nat, st: UnwindState) {
    exists k :: i <= k < |code.stack| && HasCaseAt(code, k, st)
  }

  /** The unwind passes such an entry, or the throw generated for a new rethrow scope does. */
  predicate MeetsCase(code: Code, st: UnwindState)
    requires IsCode(code) && HasTerminator(code.stack, st)
  {
    var start := UnwindStartPosition(code.stack, st);
    || MeetsCaseFrom(code, start + 1, st)
    || (st == Rethrow && st !in code.stack[start].actionBlock && MeetsCaseBelow(code, start))
  }

  predicate MeetsCaseBelow(code: Code, scope: nat)
    requires IsCode(code) && scope < |code.stack| && TerminatesAt(code.stack, scope, Rethrow)
  {
    ScopeIsRethrow(code, scope);
    var below := BelowRethrow(code, scope);
    MeetsCaseFrom(below, UnwindStartPosition(below.stack, Throw) + 1, Throw)
  }

  // ----- One turn of the loop -----

  predicate EndsAt(action: Action, b: BlockId) {
    exists st :: st in action.actionBlock && action.actionBlock[st].Blocks? && action.actionBlock[st].end == b
  }

  /** Different entries have different last blocks. */
  ghost predicate EndsDistinct(stack: seq<Action>) {
    forall i, j, b :: 0 <= i < j < |stack| && EndsAt(stack[i], b) ==> !EndsAt(stack[j], b)
  }

  lemma RepeatsStay(blocks: seq<Block>, blocks': seq<Block>, b: BlockId)
    requires b < |blocks| && b < |blocks'| && blocks[b].term.Switch? && blocks'[b].term.Switch?
    requires blocks[b].term.cases <= blocks'[b].term.cases && NoRepeats(blocks')
    ensures forall st :: CaseCount(blocks[b].term.cases, st) <= 1
  {
    forall st ensures CaseCount(blocks[b].term.cases, st) <= 1 {
      CaseCountPrefix(blocks[b].term.cases, blocks'[b].term.cases, st);
    }
  }

  lemma {:induction false} CaseCountPrefix(cases: seq<(UnwindState, BlockId)>, more: seq<(UnwindState, BlockId)>, st: UnwindState)
    requires cases <= more
    ensures CaseCount(cases, st) <= CaseCount(more, st)
  {
    if cases != [] {
      CaseCountPrefix(cases[1..], more[1..], st);
    }
  }

  /** Linking one block makes a repeated case exactly if the block has a case already. */
  lemma LinkBlockRepeats(blocks: seq<Block>, e: BlockId, st: UnwindState, next: BlockId)
    requires e < |blocks| && Jumps(blocks[e].term)
    ensures NoRepeats(LinkBlock(blocks, e, st, next)) <==> NoRepeats(blocks) && !HasCase(blocks[e].term, st)
  {
    hide CaseCount;
    var blocks' := LinkBlock(blocks, e, st, next);
    var term, term' := blocks[e].term, blocks'[e].term;
    SecondCaseExactly(term, st, next);
    LinkMoves(term, st, next, st);
    forall s | s != st ensures term'.Switch? ==> CaseCount(CasesOf(term'), s) == CaseCount(CasesOf(term), s) {
      CaseCountAppend(CasesOf(term), (st, next), s);
    }
    NoCases(term, st);
    if NoRepeats(blocks') {
      forall b, s | 0 <= b < |blocks| && blocks[b].term.Switch? ensures CaseCount(blocks[b].term.cases, s) <= 1 {
        if b == e {
          RepeatsStay(blocks, blocks', e);
        } else {
          assert blocks'[b] == blocks[b];
        }
      }
      assert term'.Switch? ==> CaseCount(term'.cases, st) <= 1;
    } else {
      var b, s :| 0 <= b < |blocks'| && blocks'[b].term.Switch? && CaseCount(blocks'[b].term.cases, s) > 1;
      if b != e {
        assert blocks'[b] == blocks[b];
      } else if s != st {
        assert CaseCount(CasesOf(term), s) > 1;
      }
    }
  }

  /** A branch has no cases. */
  lemma NoCases(term: Terminator, st: UnwindState)
    requires Jumps(term)
    ensures term.Br? ==> CaseCount(CasesOf(term), st) == 0 && forall s :: CaseCount(CasesOf(term), s) == 0
  {}

  lemma AppendedRepeats(blocks: seq<Block>, added: seq<Block>)
    requires forall block <- added :: !block.term.Switch?
    ensures NoRepeats(blocks + added) <==> NoRepeats(blocks)
  {
    hide CaseCount;
    var blocks' := blocks + added;
    assert forall b :: 0 <= b < |blocks| ==> blocks'[b] == blocks[b];
    assert forall b :: |blocks| <= b < |blocks'| ==> blocks'[b] in added;
  }

  /** What one turn changes: the last block of the entry, or new blocks at the end. */
  lemma TurnChanges(code: Code, i: nat, st: UnwindState, next: BlockId)
    requires IsCode(code) && i < |code.stack| && IsActive(code.stack[i].kind, st) && !IsTerminator(code.stack[i].kind)
    requires EndsDistinct(code.stack)
    requires st in code.stack[i].actionBlock ==> HasJump(code, i, st)
    ensures var code' := LinkAction(code, i, st, next).0;
      && |code'.stack| == |code.stack| && |code.blocks| <= |code'.blocks|
      && EndsDistinct(code'.stack)
      && (forall k :: 0 <= k < |code.stack| && k != i ==> code'.stack[k] == code.stack[k])
      && (forall b :: 0 <= b < |code.blocks| && !EndsAt(code.stack[i], b) ==> code'.blocks[b] == code.blocks[b])
      && (forall b: BlockId :: EndsAt(code'.stack[i], b) ==> EndsAt(code.stack[i], b) || b >= |code.blocks|)
      && (NoRepeats(code'.blocks) <==> NoRepeats(code.blocks) && !HasCaseAt(code, i, st))
  {
    hide NoRepeats;
    LinkTouchesOne(code, i, st, next);
    var code' := LinkAction(code, i, st, next).0;
    if st in code.stack[i].actionBlock {
      var range := code.stack[i].actionBlock[st];
      LinkBlockRepeats(code.blocks, range.end, st, next);
      assert EndsAt(code.stack[i], range.end);
    } else {
      ActiveCanSet(code.stack[i].kind, st);
      var (added, range) := NewActionBlocks(code.stack[i].kind, |code.blocks|, next);
      AppendedRepeats(code.blocks, added);
      NewEnds(code.stack[i], st, range);
      EndsStayDistinct(code, code'.stack, i);
    }
  }

  predicate HasJump(code: Code, k: nat, st: UnwindState)
    requires k < |code.stack|
  {
    && st in code.stack[k].actionBlock
    && var range := code.stack[k].actionBlock[st];
    range.Blocks? && range.end < |code.blocks| && Jumps(code.blocks[range.end].term)
  }

  lemma NewEnds(action: Action, st: UnwindState, range: BlockRange)
    requires CanSetActionBlock(action.kind, st) && range.Blocks?
    ensures forall b :: EndsAt(SetActionBlock(action, st, range), b) ==> EndsAt(action, b) || b == range.end
  {
    hide SharingStates, CanSetActionBlock;
    forall b | EndsAt(SetActionBlock(action, st, range), b) ensures EndsAt(action, b) || b == range.end {
      var s :| s in SetActionBlock(action, st, range).actionBlock && SetActionBlock(action, st, range).actionBlock[s].Blocks?
        && SetActionBlock(action, st, range).actionBlock[s].end == b;
    }
  }

  lemma EndsStayDistinct(code: Code, stack': seq<Action>, i: nat)
    requires IsCode(code) && EndsDistinct(code.stack) && |stack'| == |code.stack| && i < |code.stack|
    requires forall k :: 0 <= k < |code.stack| && k != i ==> stack'[k] == code.stack[k]
    requires forall b: BlockId :: EndsAt(stack'[i], b) ==> EndsAt(code.stack[i], b) || b >= |code.blocks|
    ensures EndsDistinct(stack')
  {
    hide IsStack;
    forall k, b: BlockId | 0 <= k < |code.stack| && EndsAt(code.stack[k], b) ensures b < |code.blocks| {
      assert CacheInRange(|code.blocks|, code.stack[k]);
    }
  }

  // ----- The loop and the whole unwind -----

  /** Every active cached entry from `i` upwards has blocks that end in a jump. */
  predicate JumpsFrom(code: Code, i: nat, st: UnwindState) {
    forall k | i <= k < |code.stack| && IsActive(code.stack[k].kind, st) && !IsTerminator(code.stack[k].kind) ::
      st in code.stack[k].actionBlock ==> HasJump(code, k, st)
  }

  /** What an unwind leaves alone: all blocks but the last ones of entries it may pass. */
  ghost predicate KeepsOthers(code: Code, code': Code, i: nat) {
    && |code'.stack| == |code.stack| && |code.blocks| <= |code'.blocks|
    && forall b :: 0 <= b < |code.blocks| && (forall k :: i <= k < |code.stack| ==> !EndsAt(code.stack[k], b)) ==>
         code'.blocks[b] == code.blocks[b]
  }

  /** Entries whose caches and last blocks are the same meet the same cases. */
  lemma SameCases(code: Code, code': Code, i: nat, st: UnwindState)
    requires |code'.stack| == |code.stack| && |code.blocks| <= |code'.blocks|
    requires forall k :: i <= k < |code.stack| ==> code'.stack[k] == code.stack[k] && CacheInRange(|code.blocks|, code.stack[k])
    requires forall k, b :: i <= k < |code.stack| && 0 <= b < |code.blocks| && EndsAt(code.stack[k], b) ==> code'.blocks[b] == code.blocks[b]
    ensures MeetsCaseFrom(code', i, st) <==> MeetsCaseFrom(code, i, st)
    ensures JumpsFrom(code, i, st) ==> JumpsFrom(code', i, st)
  {
    hide HasCase;
    forall k | i <= k < |code.stack| ensures HasCaseAt(code', k, st) <==> HasCaseAt(code, k, st)
      ensures HasJump(code, k, st) ==> HasJump(code', k, st)
    {
      if st in code.stack[k].actionBlock && code.stack[k].actionBlock[st].Blocks? {
        assert CacheInRange(|code.blocks|, code.stack[k]);
        assert EndsAt(code.stack[k], code.stack[k].actionBlock[st].end);
      }
    }
  }

  lemma InRange(code: Code)
    requires IsCode(code)
    ensures forall k :: 0 <= k < |code.stack| ==> CacheInRange(|code.blocks|, code.stack[k])
  {}

  lemma {:induction false} LinkRepeats(code: Code, i: nat, st: UnwindState, next: BlockId)
    requires IsCode(code) && i <= |code.stack| && EndsDistinct(code.stack) && JumpsFrom(code, i, st)
    requires forall k :: i <= k < |code.stack| ==> !TerminatesAt(code.stack, k, st)
    ensures var code' := LinkActions(code, i, st, next).0;
      && KeepsOthers(code, code', i)
      && (NoRepeats(code'.blocks) <==> NoRepeats(code.blocks) && !MeetsCaseFrom(code, i, st))
    decreases |code.stack| - i
  {
    hide IsCode, NoRepeats, LinkAction, LinkActions, IsActive, EndsAt, EndsDistinct, HasJump, HasCaseAt, CacheInRange;
    if i == |code.stack| {
      LinkSkips(code, i, st, next);
    } else if !IsActive(code.stack[i].kind, st) {
      LinkSkips(code, i, st, next);
      LinkRepeats(code, i + 1, st, next);
      NotActiveNoCase(code, i, st);
      CaseStep(code, i, st);
    } else {
      LinkTurns(code, i, st, next);
      TurnChanges(code, i, st, next);
      var (code1, next1) := LinkAction(code, i, st, next);
      InRange(code);
      OthersKeepEnds(code, i);
      SameCases(code, code1, i + 1, st);
      LinkRepeats(code1, i + 1, st, next1);
      CaseStep(code, i, st);
      var code' := LinkActions(code1, i + 1, st, next1).0;
      forall b | 0 <= b < |code.blocks| && (forall k :: i <= k < |code.stack| ==> !EndsAt(code.stack[k], b))
        ensures code'.blocks[b] == code.blocks[b]
      {
        assert !EndsAt(code.stack[i], b);
      }
    }
  }

  lemma NotActiveNoCase(code: Code, i: nat, st: UnwindState)
    requires i < |code.stack| && !IsActive(code.stack[i].kind, st)
    ensures !HasCaseAt(code, i, st)
  {}

  lemma CaseStep(code: Code, i: nat, st: UnwindState)
    requires i < |code.stack|
    ensures MeetsCaseFrom(code, i, st) <==> HasCaseAt(code, i, st) || MeetsCaseFrom(code, i + 1, st)
  {}

  lemma OthersKeepEnds(code: Code, i: nat)
    requires EndsDistinct(code.stack) && i < |code.stack|
    ensures forall k, b :: i + 1 <= k < |code.stack| && EndsAt(code.stack[k], b) ==> !EndsAt(code.stack[i], b)
  {}

  lemma TopRepeats(code: Code, pos: nat, st: UnwindState)
    requires IsCode(code) && pos < |code.stack| && TerminatesAt(code.stack, pos, st) && EndsDistinct(code.stack)
    requires st != Rethrow || st in code.stack[pos].actionBlock
    ensures var code' := GenTopUnwindAction(code, pos, st).0;
      && code.blocks <= code'.blocks && EndsDistinct(code'.stack)
      && (NoRepeats(code'.blocks) <==> NoRepeats(code.blocks))
  {
    hide IsCode, NoRepeats;
    GenTopTouchesOne(code, pos, st);
    if st !in code.stack[pos].actionBlock {
      ActiveCanSet(code.stack[pos].kind, st);
      AppendedRepeats(code.blocks, [TopBlockFor(code.stack[pos].kind, st)]);
      TopEnds(code.stack[pos], st, TopBlock(|code.blocks|));
      EndsStayDistinct(code, GenTopUnwindAction(code, pos, st).0.stack, pos);
    }
  }

  lemma TopEnds(action: Action, st: UnwindState, range: BlockRange)
    requires CanSetActionBlock(action.kind, st) && range.TopBlock?
    ensures forall b :: EndsAt(SetActionBlock(action, st, range), b) ==> EndsAt(action, b)
  {
    hide SharingStates, CanSetActionBlock;
    var action' := SetActionBlock(action, st, range);
    forall b | EndsAt(action', b) ensures EndsAt(action, b) {
      var s :| s in action'.actionBlock && action'.actionBlock[s].Blocks? && action'.actionBlock[s].end == b;
      assert s in action.actionBlock && action.actionBlock[s] == action'.actionBlock[s];
    }
  }

  /** An unwind other than a rethrow for a new scope. */
  lemma PlainRepeats(code: Code, st: UnwindState, start: nat)
    requires IsCode(code) && start < |code.stack| && TerminatesAt(code.stack, start, st)
    requires forall k :: start < k < |code.stack| ==> !TerminatesAt(code.stack, k, st)
    requires EndsDistinct(code.stack) && JumpsFrom(code, start + 1, st)
    requires st != Rethrow || st in code.stack[start].actionBlock
    ensures HasTerminator(code.stack, st)
    ensures var code' := GenUnwindBlock(code, st).0;
      && KeepsOthers(code, code', start + 1)
      && (NoRepeats(code'.blocks) <==> NoRepeats(code.blocks) && !MeetsCaseFrom(code, start + 1, st))
  {
    hide IsCode, NoRepeats, GenTopUnwindAction, LinkActions, GenUnwindBlock, HasJump, HasCaseAt, EndsAt, EndsDistinct;
    hide IsActive, CacheInRange;
    StartIs(code.stack, st, start);
    GenIs(code, st, start);
    TopRepeats(code, start, st);
    GenTopTouchesOne(code, start, st);
    var (code1, next) := GenTopUnwindAction(code, start, st);
    InRange(code);
    SameCases(code, code1, start + 1, st);
    LinkRepeats(code1, start + 1, st, next);
    KeepsFromPrefix(code, code1, GenUnwindBlock(code, st).0, start);
  }

  lemma KeepsFromPrefix(code: Code, code1: Code, code': Code, start: nat)
    requires code.blocks <= code1.blocks && |code1.stack| == |code.stack|
    requires forall k :: start < k < |code.stack| ==> code1.stack[k] == code.stack[k]
    requires KeepsOthers(code1, code', start + 1)
    ensures KeepsOthers(code, code', start + 1)
  {
    hide EndsAt;
    assert forall b :: 0 <= b < |code.blocks| ==> code1.blocks[b] == code.blocks[b];
  }

  /** The copy below a rethrow scope. */
  lemma BelowFacts(code: Code, scope: nat)
    requires IsCode(code) && 0 < scope < |code.stack| && EndsDistinct(code.stack) && JumpsFrom(code, 0, Throw)
    ensures var below := BelowRethrow(code, scope);
      && EndsDistinct(below.stack) && JumpsFrom(below, 0, Throw) && HasTerminator(below.stack, Throw)
      && (NoRepeats(below.blocks) <==> NoRepeats(code.blocks))
  {
    hide EndsAt, NoRepeats;
    var below := BelowRethrow(code, scope);
    AppendedRepeats(code.blocks, [Block([], Open)]);
    assert TerminatesAt(below.stack, 0, Throw);
    forall k | 0 <= k < scope && IsActive(below.stack[k].kind, Throw) && !IsTerminator(below.stack[k].kind)
      && Throw in below.stack[k].actionBlock
      ensures HasJump(below, k, Throw)
    {
      assert HasJump(code, k, Throw);
    }
  }

  /** The throw generated on the copy. */
  lemma CopyRepeats(code: Code, scope: nat)
    requires IsCode(code) && 0 < scope < |code.stack| && EndsDistinct(code.stack) && JumpsFrom(code, 0, Throw)
    requires TerminatesAt(code.stack, scope, Rethrow)
    ensures HasTerminator(BelowRethrow(code, scope).stack, Throw)
    ensures var inner := GenUnwindBlock(BelowRethrow(code, scope), Throw).0;
      && |code.blocks| < |inner.blocks| && inner.blocks[|code.blocks|] == Block([], Open)
      && (forall b :: 0 <= b < |code.blocks| && (forall k :: 0 <= k < scope ==> !EndsAt(code.stack[k], b)) ==>
            inner.blocks[b] == code.blocks[b])
      && (NoRepeats(inner.blocks) <==> NoRepeats(code.blocks) && !MeetsCaseBelow(code, scope))
  {
    hide IsCode, NoRepeats, GenUnwindBlock, EndsAt, EndsDistinct, JumpsFrom, MeetsCaseFrom, IsActive, HasTerminator;
    hide UnwindStartPosition;
    BelowFacts(code, scope);
    var below, top := BelowRethrow(code, scope), |code.blocks|;
    var start := UnwindStartPosition(below.stack, Throw);
    JumpsHigher(below, 0, start + 1, Throw);
    PlainRepeats(below, Throw, start);
    OpenIsNoEnd(code, top);
    assert below.blocks[top] == Block([], Open);
    assert forall b :: 0 <= b < top ==> below.blocks[b] == code.blocks[b];
  }

  /** A new block for a rethrow scope adds the repeats of the throw below it. */
  lemma ScopeRepeats(code: Code, scope: nat)
    requires IsCode(code) && scope < |code.stack| && TerminatesAt(code.stack, scope, Rethrow) && EndsDistinct(code.stack)
    requires Rethrow !in code.stack[scope].actionBlock && JumpsFrom(code, 0, Throw)
    ensures var code' := GenTopUnwindAction(code, scope, Rethrow).0;
      && |code.blocks| <= |code'.blocks| && EndsDistinct(code'.stack)
      && (forall b :: 0 <= b < |code.blocks| && (forall k :: 0 <= k < scope ==> !EndsAt(code.stack[k], b)) ==>
            code'.blocks[b] == code.blocks[b])
      && (NoRepeats(code'.blocks) <==> NoRepeats(code.blocks) && !MeetsCaseBelow(code, scope))
  {
    hide IsCode, NoRepeats, GenUnwindBlock, EndsAt, EndsDistinct, JumpsFrom, MeetsCaseBelow, IsActive, HasTerminator;
    ScopeIsRethrow(code, scope);
    CopyRepeats(code, scope);
    var top := |code.blocks|;
    var (inner, target) := GenUnwindBlock(BelowRethrow(code, scope), Throw);
    FillRepeats(inner.blocks, top, ThrowFrom(target));
    GenTopTouchesOne(code, scope, Rethrow);
    var code' := GenTopUnwindAction(code, scope, Rethrow).0;
    assert code'.blocks == inner.blocks[top := Block([], ThrowFrom(target))];
    RethrowSettable(code.stack[scope].kind);
    TopEnds(code.stack[scope], Rethrow, TopBlock(top));
    EndsStayDistinct(code, code'.stack, scope);
  }

  lemma RethrowSettable(kind: Kind)
    requires kind == RethrowScope
    ensures CanSetActionBlock(kind, Rethrow)
  {}

  lemma JumpsHigher(code: Code, i: nat, j: nat, st: UnwindState)
    requires JumpsFrom(code, i, st) && i <= j
    ensures JumpsFrom(code, j, st)
  {}

  lemma OpenIsNoEnd(code: Code, b: BlockId)
    requires IsCode(code) && b >= |code.blocks|
    ensures forall k :: 0 <= k < |code.stack| ==> !EndsAt(code.stack[k], b)
  {
    forall k | 0 <= k < |code.stack| ensures !EndsAt(code.stack[k], b) {
      assert CacheInRange(|code.blocks|, code.stack[k]);
    }
  }

  lemma FillRepeats(blocks: seq<Block>, b: BlockId, term: Terminator)
    requires b < |blocks| && !blocks[b].term.Switch? && !term.Switch?
    ensures NoRepeats(blocks[b := Block([], term)]) <==> NoRepeats(blocks)
  {
    hide CaseCount;
    var blocks' := blocks[b := Block([], term)];
    assert forall c :: 0 <= c < |blocks| && c != b ==> blocks'[c] == blocks[c];
  }

  lemma GenRepeats(code: Code, st: UnwindState)
    requires IsCode(code) && HasTerminator(code.stack, st) && EndsDistinct(code.stack)
    requires JumpsFrom(code, 0, st) && JumpsFrom(code, 0, Throw)
    ensures NoRepeats(GenUnwindBlock(code, st).0.blocks) <==> NoRepeats(code.blocks) && !MeetsCase(code, st)
  {
    hide IsCode, NoRepeats, GenUnwindBlock, GenTopUnwindAction, LinkActions, EndsAt, EndsDistinct, JumpsFrom;
    hide MeetsCaseFrom, MeetsCaseBelow, IsActive, CacheInRange;
    var start := UnwindStartPosition(code.stack, st);
    JumpsHigher(code, 0, start + 1, st);
    if st == Rethrow && st !in code.stack[start].actionBlock {
      GenIs(code, st, start);
      ScopeRepeats(code, start);
      GenTopTouchesOne(code, start, st);
      var (code1, next) := GenTopUnwindAction(code, start, st);
      InRange(code);
      EndsApartAbove(code, start);
      SameCases(code, code1, start + 1, st);
      LinkRepeats(code1, start + 1, st, next);
    } else {
      PlainRepeats(code, st, start);
    }
  }

  lemma EndsApartAbove(code: Code, pos: nat)
    requires EndsDistinct(code.stack) && pos < |code.stack|
    ensures forall j, b :: pos < j < |code.stack| && EndsAt(code.stack[j], b) ==> forall k :: 0 <= k < pos ==> !EndsAt(code.stack[k], b)
  {}

  // ----- In reachable graphs -----

  lemma ReachableEnds(code: Code, g: Ledger)
    requires Inv(code, g)
    ensures EndsDistinct(code.stack) && forall st :: JumpsFrom(code, 0, st)
  {
    hide Inv, RangeOK, Unwind;
    InvSizes(code, g);
    forall i, j, b | 0 <= i < j < |code.stack| && EndsAt(code.stack[i], b) ensures !EndsAt(code.stack[j], b) {
      if EndsAt(code.stack[j], b) {
        OneEnd(code, g, i, j, b);
      }
    }
    forall st, k | 0 <= k < |code.stack| && IsActive(code.stack[k].kind, st) && !IsTerminator(code.stack[k].kind)
      && st in code.stack[k].actionBlock
      ensures HasJump(code, k, st)
    {
      EntryFacts(code, g, k, st);
      EndOfRange(code, g, k, st);
    }
  }

  lemma OneEnd(code: Code, g: Ledger, i: nat, j: nat, b: BlockId)
    requires Inv(code, g) && i < |code.stack| && j < |code.stack|
    requires EndsAt(code.stack[i], b) && EndsAt(code.stack[j], b)
    ensures i == j
  {
    hide Inv, RangeOK;
    var s :| s in code.stack[i].actionBlock && code.stack[i].actionBlock[s].Blocks? && code.stack[i].actionBlock[s].end == b;
    var s' :| s' in code.stack[j].actionBlock && code.stack[j].actionBlock[s'].Blocks? && code.stack[j].actionBlock[s'].end == b;
    EntryFacts(code, g, i, s);
    EntryFacts(code, g, j, s');
    EndsApart(code, g, i, s, j, s');
  }

  /** After any history, an unwind makes the first repeated case exactly if it meets a case for its state. */
  lemma RepeatsExactly(code: Code, st: UnwindState)
    requires Reachable(code) && HasTerminator(code.stack, st)
    ensures NoRepeats(GenUnwindBlock(code, st).0.blocks) <==> NoRepeats(code.blocks) && !MeetsCase(code, st)
  {
    hide NoRepeats, GenUnwindBlock, MeetsCase, Inv, EndsDistinct, JumpsFrom;
    var g := ReachableInv(code);
    ReachableEnds(code, g);
    GenRepeats(code, st);
  }
}

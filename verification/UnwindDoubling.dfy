/**
 On which stacks generating an unwind can repeat a case, over all histories.
 */
module UnwindDoubling {
  import opened UnwindAction
  import opened UnwindCode
  import opened UnwindRefinement
  import opened UnwindHistories
  import opened UnwindPads
  import opened UnwindWhole
  import opened UnwindVariable
  import opened UnwindRepeats

  // ----- On which stacks -----

  /** Another state of the same class passes the top entry on its way to a terminator. */
  predicate TopDoubled(kinds: seq<Kind>, st: UnwindState)
    requires |kinds| > 0
  {
    var top := kinds[|kinds| - 1];
    && IsActive(top, st) && !IsTerminator(top)
    && exists other :: DoubledBy(kinds, st, other)
  }

  predicate DoubledBy(kinds: seq<Kind>, st: UnwindState, other: UnwindState)
    requires |kinds| > 0
  {
    && other != st && IsExceptionState(other) == IsExceptionState(st)
    && IsActive(kinds[|kinds| - 1], other) && Terminates(kinds[..|kinds| - 1], other)
  }

  /** The entries that an unwind passes are passed by no other state of its class. */
  predicate PathSingle(kinds: seq<Kind>, st: UnwindState) {
    if kinds == [] || (IsActive(kinds[|kinds| - 1], st) && IsTerminator(kinds[|kinds| - 1])) then true
    else !TopDoubled(kinds, st) && PathSingle(kinds[..|kinds| - 1], st)
  }

  /** The stacks on which no unwind for the state makes a repeated case. */
  predicate Single(kinds: seq<Kind>, st: UnwindState) {
    PathSingle(kinds, st) && (st == Rethrow ==> PathSingle(BelowScope(kinds), Throw))
  }

  lemma {:induction false} PathAt(kinds: seq<Kind>, st: UnwindState, p: nat)
    requires p < |kinds| && PathSingle(kinds, st)
    requires forall k :: p <= k < |kinds| ==> !(IsActive(kinds[k], st) && IsTerminator(kinds[k]))
    ensures !TopDoubled(kinds[..p + 1], st)
  {
    if p == |kinds| - 1 {
      assert kinds[..p + 1] == kinds;
    } else {
      PathAt(kinds[..|kinds| - 1], st, p);
      assert kinds[..|kinds| - 1][..p + 1] == kinds[..p + 1];
    }
  }

  lemma {:induction false} DoneTerminates(kinds: seq<Kind>, st: UnwindState)
    requires Unwind(kinds, st).Done?
    ensures Terminates(kinds, st)
  {
    var top := kinds[|kinds| - 1];
    if !(IsActive(top, st) && IsTerminator(top)) {
      DoneTerminates(kinds[..|kinds| - 1], st);
      TerminatesPrefix(kinds, |kinds| - 1, st);
    }
  }

  /** A switch at the end of an entry has been made for two states that pass the entry. */
  lemma CaseMeansDoubled(code: Code, g: Ledger, k: nat, st: UnwindState)
    requires Inv(code, g) && k < |code.stack| && HasCaseAt(code, k, st)
    ensures TopDoubled(Kinds(code.stack)[..k + 1], st)
  {
    hide Inv, Unwind, Kinds, Terminates, IsTerminator;
    EntryFacts(code, g, k, st);
    EndOfRange(code, g, k, st);
    KindAt(code.stack, k);
    var e := code.stack[k].actionBlock[st].end;
    var term := code.blocks[e].term;
    var c :| c in CasesOf(term) && c.0 == st;
    assert CaseOK(code.blocks, g, e, c);
    var s, s' :| s != s' && (e, s) in g.planned && (e, s') in g.planned;
    var other := if s == st then s' else s;
    PlannedIsWired(code, g, e, st);
    PlannedPasses(code, g, k, st, other);
    assert Kinds(code.stack)[..k + 1][..k] == Kinds(code.stack)[..k];
    assert DoubledBy(Kinds(code.stack)[..k + 1], st, other);
  }

  /** A state planned at the end of an entry is active there and terminates below. */
  lemma PlannedPasses(code: Code, g: Ledger, k: nat, st: UnwindState, other: UnwindState)
    requires Inv(code, g) && |g.role| == |code.blocks| && k < |code.stack| && EntryOK(code, g, k, st)
    requires !IsTerminator(code.stack[k].kind) && IsActive(code.stack[k].kind, st)
    requires code.stack[k].actionBlock[st].Blocks? && (code.stack[k].actionBlock[st].end, other) in g.planned
    ensures IsExceptionState(other) == IsExceptionState(st)
    ensures IsActive(code.stack[k].kind, other) && Terminates(Kinds(code.stack)[..k], other)
  {
    hide Inv, Unwind, CachedBelow, Prepend, FallsThrough, CasesOK;
    EndOfRange(code, g, k, st);
    KindAt(code.stack, k);
    var e, kinds := code.stack[k].actionBlock[st].end, Kinds(code.stack);
    PlannedIsWired(code, g, e, other);
    RunFromPlanned(code, g, e, other, Rank(g.role[e]));
    DoneTerminates(g.role[e].prefix, other);
    if g.role[e].Whole? {
      var t :| 0 <= t < k + 1 && IsActive(kinds[..k + 1][t], other) && IsTerminator(kinds[..k + 1][t]);
      assert kinds[..k][t] == kinds[..k + 1][t];
    } else {
      assert kinds[..k + 1][..k] == kinds[..k];
    }
  }

  lemma BelowScopeIs(kinds: seq<Kind>, pos: nat)
    requires pos < |kinds| && kinds[pos] == RethrowScope
    requires forall k :: pos < k < |kinds| ==> kinds[k] != RethrowScope
    ensures BelowScope(kinds) == kinds[..pos]
    decreases |kinds|
  {
    if pos < |kinds| - 1 {
      BelowScopeIs(kinds[..|kinds| - 1], pos);
      assert kinds[..|kinds| - 1][..pos] == kinds[..pos];
    }
  }

  /** On such stacks no case for the state is met, whatever was generated before. */
  lemma SingleMeetsNone(code: Code, g: Ledger, st: UnwindState)
    requires Inv(code, g) && IsCode(code) && HasTerminator(code.stack, st) && Single(Kinds(code.stack), st)
    ensures !MeetsCase(code, st)
  {
    hide Inv, PathSingle, TopDoubled, Kinds, IsCode, HasCaseAt, BelowScope;
    var start, kinds := UnwindStartPosition(code.stack, st), Kinds(code.stack);
    NoTerminatorsAbove(code.stack, kinds, |kinds|, st);
    if MeetsCaseFrom(code, start + 1, st) {
      var k :| start + 1 <= k < |code.stack| && HasCaseAt(code, k, st);
      CaseMeansDoubled(code, g, k, st);
      assert forall i :: k <= i < |kinds| ==> !TerminatesAt(code.stack, i, st) && kinds[i] == code.stack[i].kind;
      PathAt(kinds, st, k);
    }
    if st == Rethrow && st !in code.stack[start].actionBlock && MeetsCaseBelow(code, start) {
      ScopeIsRethrow(code, start);
      var below := BelowRethrow(code, start);
      var low := UnwindStartPosition(below.stack, Throw);
      var k :| low + 1 <= k < |below.stack| && HasCaseAt(below, k, Throw);
      CaseInCopy(code, start, k);
      CaseMeansDoubled(code, g, k, Throw);
      TopmostScope(code.stack, kinds, start);
      BelowScopeIs(kinds, start);
      assert kinds[..start][..k + 1] == kinds[..k + 1];
      assert forall i :: k <= i < start ==> !TerminatesAt(below.stack, i, Throw) && kinds[..start][i] == code.stack[i].kind;
      PathAt(kinds[..start], Throw, k);
    }
  }

  lemma TopmostScope(stack: seq<Action>, kinds: seq<Kind>, pos: nat)
    requires Kinds(stack) == kinds && pos < |stack| && TerminatesAt(stack, pos, Rethrow)
    requires forall k :: pos < k < |stack| ==> !TerminatesAt(stack, k, Rethrow)
    ensures |kinds| == |stack| && kinds[pos] == RethrowScope
    ensures forall k :: pos < k < |kinds| ==> kinds[k] != RethrowScope
  {
    NoTerminatorsAbove(stack, kinds, |kinds|, Rethrow);
    forall k | pos < k < |kinds| ensures kinds[k] != RethrowScope {
      assert !TerminatesAt(stack, k, Rethrow) && kinds[k] == stack[k].kind;
    }
  }

  /** The copy below a scope has the same switches. */
  lemma CaseInCopy(code: Code, scope: nat, k: nat)
    requires IsCode(code) && 0 < scope < |code.stack| && k < scope
    ensures HasCaseAt(BelowRethrow(code, scope), k, Throw) <==> HasCaseAt(code, k, Throw)
  {
    assert CacheInRange(|code.blocks|, code.stack[k]);
  }

  // ----- On all other stacks -----

  predicate NoSwitches(blocks: seq<Block>) {
    forall b :: 0 <= b < |blocks| ==> !blocks[b].term.Switch?
  }

  lemma {:induction false} FreshLinkNoSwitch(code: Code, i: nat, st: UnwindState, next: BlockId)
    requires IsCode(code) && i <= |code.stack| && FreshFrom(code.stack, i) && NoSwitches(code.blocks)
    requires forall k :: i <= k < |code.stack| ==> !TerminatesAt(code.stack, k, st)
    ensures NoSwitches(LinkActions(code, i, st, next).0.blocks)
    decreases |code.stack| - i
  {
    hide IsCode, LinkActions, IsActive;
    if i == |code.stack| || !IsActive(code.stack[i].kind, st) {
      LinkSkips(code, i, st, next);
      if i < |code.stack| {
        FreshLinkNoSwitch(code, i + 1, st, next);
      }
    } else {
      LinkTurns(code, i, st, next);
      LinkTouchesOne(code, i, st, next);
      var (code1, next1) := LinkAction(code, i, st, next);
      FreshLinkNoSwitch(code1, i + 1, st, next1);
    }
  }

  lemma {:induction false} FreshTopNoSwitch(code: Code, pos: nat, st: UnwindState)
    requires IsCode(code) && FreshFrom(code.stack, 0) && NoSwitches(code.blocks)
    requires pos < |code.stack| && TerminatesAt(code.stack, pos, st)
    ensures NoSwitches(GenTopUnwindAction(code, pos, st).0.blocks)
    decreases |code.stack|, 0
  {
    hide IsCode, GenUnwindBlock;
    if st == Rethrow {
      ScopeIsRethrow(code, pos);
      FreshNoSwitch(BelowRethrow(code, pos), Throw);
    }
  }

  /** Without any blocks yet, only branches are generated. */
  lemma {:induction false} FreshNoSwitch(code: Code, st: UnwindState)
    requires IsCode(code) && HasTerminator(code.stack, st) && FreshFrom(code.stack, 0) && NoSwitches(code.blocks)
    ensures NoSwitches(GenUnwindBlock(code, st).0.blocks)
    decreases |code.stack|, 1
  {
    hide IsCode, GenUnwindBlock, GenTopUnwindAction, LinkActions, Kinds, IsActive, UnwindStartPosition, HasTerminator;
    var start := UnwindStartPosition(code.stack, st);
    GenIs(code, st, start);
    FreshTopNoSwitch(code, start, st);
    GenTopTouchesOne(code, start, st);
    var (code1, next) := GenTopUnwindAction(code, start, st);
    FreshLinkNoSwitch(code1, start + 1, st, next);
  }

  lemma NoSwitchNoCase(code: Code, st: UnwindState)
    requires IsCode(code) && HasTerminator(code.stack, st) && NoSwitches(code.blocks)
    ensures NoRepeats(code.blocks) && !MeetsCase(code, st)
  {
    hide IsCode, UnwindStartPosition, HasTerminator, TerminatesAt;
    assert forall i, s :: !MeetsCaseFrom(code, i, s);
  }

  /** Entries with the same block for two states of one class are not where those states end. */
  lemma StartsDiffer(code: Code, g: Ledger, i: nat, st: UnwindState, other: UnwindState, b: BlockId)
    requires Inv(code, g) && i <= |code.stack| && st != other && IsExceptionState(st) == IsExceptionState(other)
    requires CachedBelow(code.stack, i, st, b) && CachedBelow(code.stack, i, other, b)
    ensures TopActive(code.stack[..i], st, 0) == TopActive(code.stack[..i], other, 0)
    ensures !IsTerminator(code.stack[TopActive(code.stack[..i], st, 0).pos].kind)
  {
    hide Inv, FallsThrough, CasesOK, Unwind, TopActive, Kinds, IsStack;
    var q, q' := TopActive(code.stack[..i], st, 0).pos, TopActive(code.stack[..i], other, 0).pos;
    assert code.stack[..i][q] == code.stack[q] && code.stack[..i][q'] == code.stack[q'];
    EntryFacts(code, g, q, st);
    EntryFacts(code, g, q', other);
    KindAt(code.stack, q);
    KindAt(code.stack, q');
    assert |g.role[b].prefix| == q + 1 == q' + 1;
    if IsTerminator(code.stack[q].kind) {
      OneExit(code, g, q, st, other);
    }
  }

  /** A terminator's block ends one state only. */
  lemma OneExit(code: Code, g: Ledger, q: nat, st: UnwindState, other: UnwindState)
    requires Inv(code, g) && q < |code.stack| && st != other && IsTerminator(code.stack[q].kind)
    requires IsActive(code.stack[q].kind, st) && IsActive(code.stack[q].kind, other)
    requires IsExceptionState(st) == IsExceptionState(other)
    requires st in code.stack[q].actionBlock && other in code.stack[q].actionBlock
    ensures code.stack[q].actionBlock[st].start != code.stack[q].actionBlock[other].start
  {
    hide Inv, FallsThrough, CasesOK;
    EntryFacts(code, g, q, st);
    EntryFacts(code, g, q, other);
    KindAt(code.stack, q);
    PlannedIsWired(code, g, code.stack[q].actionBlock[st].start, st);
    PlannedIsWired(code, g, code.stack[q].actionBlock[other].start, other);
  }

  /** The two states do not have a common next entry that both pass. */
  predicate Parts(stack: seq<Action>, st: UnwindState, other: UnwindState) {
    var q := TopActive(stack, st, 0);
    q.At? && TopActive(stack, other, 0) == q ==> IsTerminator(stack[q.pos].kind)
  }

  /** The top entry has blocks that `st` can use, and that go on by default to what is next for `other`. */
  ghost predicate MadeFor(code: Code, p: nat, st: UnwindState, other: UnwindState) {
    && p < |code.stack| && HasJump(code, p, st)
    && CachedBelow(code.stack, p, other, DefaultOf(code.blocks[code.stack[p].actionBlock[st].end].term))
  }

  /** Both states pass the entry, and part there. */
  ghost predicate PartAt(stack: seq<Action>, p: nat, st: UnwindState, other: UnwindState) {
    && p < |stack| && other != st && IsExceptionState(other) == IsExceptionState(st)
    && !IsTerminator(stack[p].kind) && IsActive(stack[p].kind, st) && IsActive(stack[p].kind, other)
    && Parts(stack[..p], st, other)
  }

  lemma AfterFirst(code: Code, g: Ledger, st: UnwindState, other: UnwindState) returns (g': Ledger)
    requires Inv(code, g) && IsCode(code) && |g.role| == |code.blocks| && |code.stack| > 0
    requires FreshFrom(code.stack, 0) && NoSwitches(code.blocks) && HasTerminator(code.stack, other)
    requires PartAt(code.stack, |code.stack| - 1, st, other)
    ensures var code' := GenUnwindBlock(code, other).0;
      && Inv(code', g') && |g'.role| == |code'.blocks| && |code'.stack| == |code.stack|
      && NoSwitches(code'.blocks) && MadeFor(code', |code.stack| - 1, st, other)
  {
    hide Inv, GenUnwindBlock, Extends, RangeOK, Unwind, CasesOK, IsStack, IsCode, Parts, Kinds, Grows, CachedBelow;
    hide Ready, HasTerminator;
    var p := |code.stack| - 1;
    var (code', entry) := GenUnwindBlock(code, other);
    g' := GenUnwindKeeps(code, g, other);
    FreshNoSwitch(code, other);
    SameKindsSameTerminators(code.stack, code'.stack, st);
    TopReadyIsPlanned(code', g', other, entry);
    SharedWith(code', g', p, other, st);
    FallsFact(code', g', p, other);
  }

  lemma AfterSecond(code: Code, g: Ledger, st: UnwindState, other: UnwindState)
    requires Inv(code, g) && IsCode(code) && |g.role| == |code.blocks| && |code.stack| > 0 && HasTerminator(code.stack, st)
    requires PartAt(code.stack, |code.stack| - 1, st, other) && MadeFor(code, |code.stack| - 1, st, other)
    ensures var code' := GenUnwindBlock(code, st).0;
      |code'.stack| == |code.stack| && HasCaseAt(code', |code.stack| - 1, st)
  {
    hide Inv, GenUnwindBlock, Extends, RangeOK, Unwind, CasesOK, IsStack, HasCase, IsCode, Parts, Kinds, CachedBelow;
    hide Ready, HasTerminator;
    var p := |code.stack| - 1;
    var (code', entry) := GenUnwindBlock(code, st);
    var g' := GenUnwindKeeps(code, g, st);
    SameKindsSameTerminators(code.stack, code'.stack, st);
    TopReadyIsPlanned(code', g', st, entry);
    FallsFact(code', g', p, st);
    var e := code.stack[p].actionBlock[st].end;
    var d := DefaultOf(code.blocks[e].term);
    KeptDefault(code, g, code', g', |code.stack|, e);
    CachedBelowKept(code.stack, code'.stack, |code.blocks|, p, other, d);
    PartsSame(code.stack, code'.stack, p, st, other);
    if CachedBelow(code'.stack, p, st, d) {
      StartsDiffer(code', g', p, st, other, d);
      NotParting(code'.stack, p, st, other);
    }
  }

  lemma NotParting(stack: seq<Action>, p: nat, st: UnwindState, other: UnwindState)
    requires p <= |stack| && TopActive(stack[..p], st, 0).At?
    requires TopActive(stack[..p], st, 0) == TopActive(stack[..p], other, 0)
    requires !IsTerminator(stack[TopActive(stack[..p], st, 0).pos].kind)
    ensures !Parts(stack[..p], st, other)
  {}

  /** Generated for two states in turn, the top entry has a case for the second if they part there. */
  lemma SecondIsCase(code: Code, g: Ledger, st: UnwindState, other: UnwindState)
    requires Inv(code, g) && IsCode(code) && |g.role| == |code.blocks| && |code.stack| > 0
    requires FreshFrom(code.stack, 0) && NoSwitches(code.blocks)
    requires HasTerminator(code.stack, other) && HasTerminator(code.stack, st)
    requires PartAt(code.stack, |code.stack| - 1, st, other)
    ensures var code1 := GenUnwindBlock(code, other).0;
      && NoSwitches(code1.blocks) && HasTerminator(code1.stack, st)
      && var code2 := GenUnwindBlock(code1, st).0;
      && |code2.stack| == |code.stack| && HasCaseAt(code2, |code.stack| - 1, st)
  {
    hide Inv, GenUnwindBlock, IsStack, HasCaseAt, IsCode, Parts, Kinds, MadeFor, HasTerminator;
    var code1 := GenUnwindBlock(code, other).0;
    var g1 := AfterFirst(code, g, st, other);
    SameKindsSameTerminators(code.stack, code1.stack, st);
    KindsTerminate(code.stack, st);
    KindsTerminate(code1.stack, st);
    PartsSame(code.stack, code1.stack, |code.stack| - 1, st, other);
    AfterSecond(code1, g1, st, other);
  }

  lemma PartsSame(stack: seq<Action>, stack': seq<Action>, p: nat, st: UnwindState, other: UnwindState)
    requires Kinds(stack') == Kinds(stack) && p <= |stack| && p <= |stack'|
    ensures Parts(stack[..p], st, other) <==> Parts(stack'[..p], st, other)
  {
    SameKindsSameTerminators(stack, stack', st);
    assert Kinds(stack[..p]) == Kinds(stack)[..p] == Kinds(stack')[..p] == Kinds(stack'[..p]);
    TopActiveSameKinds(stack[..p], stack'[..p], st, 0);
    TopActiveSameKinds(stack[..p], stack'[..p], other, 0);
  }

  /** The blocks of an active top entry are planned, from the first to the last. */
  lemma TopReadyIsPlanned(code: Code, g: Ledger, st: UnwindState, entry: BlockId)
    requires Inv(code, g) && |g.role| == |code.blocks| && |code.stack| > 0 && Ready(code, g, |code.stack|, st, entry)
    requires var top := code.stack[|code.stack| - 1].kind; IsActive(top, st) && !IsTerminator(top)
    ensures var action := code.stack[|code.stack| - 1];
      && st in action.actionBlock && action.actionBlock[st].Blocks? && (action.actionBlock[st].end, st) in g.planned
      && action.actionBlock[st].end < |code.blocks| && Jumps(code.blocks[action.actionBlock[st].end].term)
  {
    hide Inv, Unwind, FallsThrough, CasesOK;
    var p := |code.stack| - 1;
    assert code.stack[..|code.stack|] == code.stack;
    assert TopActive(code.stack, st, 0) == At(p);
    EntryFacts(code, g, p, st);
    EndOfRange(code, g, p, st);
    var range := code.stack[p].actionBlock[st];
    if range.start != range.end {
      PlannedIsWired(code, g, range.start, st);
    }
  }

  lemma SharedWith(code: Code, g: Ledger, p: nat, other: UnwindState, st: UnwindState)
    requires Inv(code, g) && p < |code.stack| && other in code.stack[p].actionBlock
    requires !IsTerminator(code.stack[p].kind) && IsActive(code.stack[p].kind, st) && IsActive(code.stack[p].kind, other)
    requires IsExceptionState(other) == IsExceptionState(st)
    ensures st in code.stack[p].actionBlock && code.stack[p].actionBlock[st] == code.stack[p].actionBlock[other]
  {
    hide Inv, RangeOK;
    ActionFacts(code, g, p);
    BothShare(code.stack[p].kind, other, st);
  }

  lemma BothShare(kind: Kind, other: UnwindState, st: UnwindState)
    requires !IsTerminator(kind) && IsActive(kind, st) && IsActive(kind, other) && IsExceptionState(other) == IsExceptionState(st)
    ensures CanSetActionBlock(kind, other) && st in SharingStates(kind, other)
  {}

  lemma KeptDefault(code: Code, g: Ledger, code': Code, g': Ledger, height: nat, e: BlockId)
    requires |g.role| == |code.blocks| && |g'.role| == |code'.blocks| && Extends(code.blocks, g, code'.blocks, g', height)
    requires e < |code.blocks| && Jumps(code.blocks[e].term)
    ensures e < |code'.blocks| && Jumps(code'.blocks[e].term)
    ensures DefaultOf(code'.blocks[e].term) == DefaultOf(code.blocks[e].term)
  {
    assert code'.blocks[e] == code.blocks[e] || JumpsKept(code.blocks[e].term, code'.blocks[e].term);
  }

  lemma PartsOfKinds(stack: seq<Action>, kinds: seq<Kind>, st: UnwindState, other: UnwindState)
    requires Kinds(stack) == kinds
    ensures Parts(stack, st, other) <==> Parts(NewActions(kinds), st, other)
  {
    var made := NewActions(kinds);
    assert Kinds(made) == kinds;
    SameKindsSameTerminators(stack, made, st);
    TopActiveSameKinds(stack, made, st, 0);
    TopActiveSameKinds(stack, made, other, 0);
  }

  /** The two states pass the entry at `p`, and part there. */
  ghost predicate KindsPartAt(kinds: seq<Kind>, p: nat, st: UnwindState, other: UnwindState) {
    && p < |kinds| && other != st && IsExceptionState(other) == IsExceptionState(st)
    && !IsTerminator(kinds[p]) && IsActive(kinds[p], st) && IsActive(kinds[p], other)
    && Terminates(kinds[..p], other)
    && Parts(NewActions(kinds[..p]), st, other)
  }

  /** Below an entry that two states pass, down to where the unwind ends, there is one at which they part. */
  lemma {:induction false} LowestDoubled(kinds: seq<Kind>, st: UnwindState, start: nat, p: nat) returns (q: nat,
          other: UnwindState)
    requires start < p < |kinds| && IsActive(kinds[start], st) && IsTerminator(kinds[start])
    requires TopDoubled(kinds[..p + 1], st)
    ensures start < q <= p && KindsPartAt(kinds, q, st, other)
    decreases p
  {
    hide Terminates, TopActive, IsActive, IsTerminator;
    assert kinds[..p + 1][..p] == kinds[..p];
    other :| DoubledBy(kinds[..p + 1], st, other);
    if Parts(NewActions(kinds[..p]), st, other) {
      q := p;
    } else {
      var made := NewActions(kinds[..p]);
      var q0 := TopActive(made, st, 0).pos;
      assert made[start].kind == kinds[start] && made[q0].kind == kinds[q0];
      EndsLower(kinds, p, q0, other);
      assert kinds[..q0 + 1][..q0] == kinds[..q0];
      assert DoubledBy(kinds[..q0 + 1], st, other);
      q, other := LowestDoubled(kinds, st, start, q0);
    }
  }

  lemma EndsLower(kinds: seq<Kind>, p: nat, q: nat, other: UnwindState)
    requires q < p <= |kinds| && Terminates(kinds[..p], other) && !IsTerminator(kinds[q])
    requires forall k :: q < k < p ==> !IsActive(kinds[k], other)
    ensures Terminates(kinds[..q], other)
  {
    var t :| 0 <= t < p && IsActive(kinds[..p][t], other) && IsTerminator(kinds[..p][t]);
    assert t < q && kinds[..q][t] == kinds[..p][t];
  }

  /** Generates for both states while the entry at `p` is on top, and then pushes the rest. */
  function DoublingSteps(kinds: seq<Kind>, p: nat, st: UnwindState, other: UnwindState): seq<Step>
    requires 0 < p < |kinds|
  {
    Pushes(kinds[1..p + 1]) + ([Gen(other)] + ([Gen(st)] + Pushes(kinds[p + 1..])))
  }

  lemma ReachedBy(steps: seq<Step>)
    requires IsCode(INITIAL) && CanRun(INITIAL, steps)
    ensures Reachable(ApplyAll(INITIAL, steps))
  {
    assert Leads(INITIAL, ApplyAll(INITIAL, steps));
  }

  lemma Doubled(kinds: seq<Kind>, p: nat, st: UnwindState, other: UnwindState) returns (code: Code)
    requires IsKinds(kinds) && 0 < p < |kinds| && KindsPartAt(kinds, p, st, other) && Terminates(kinds[..p], st)
    ensures IsCode(INITIAL) && CanRun(INITIAL, Pushes(kinds[1..p + 1]) + ([Gen(other)] + [Gen(st)]))
    ensures code == ApplyAll(INITIAL, Pushes(kinds[1..p + 1]) + ([Gen(other)] + [Gen(st)]))
    ensures |code.stack| == p + 1 && Kinds(code.stack) == kinds[..p + 1]
    ensures NoRepeats(code.blocks) && HasCaseAt(code, p, st)
  {
    hide IsCode, GenUnwindBlock, CanRun, ApplyAll, HasTerminator, Kinds, Parts, Terminates, IsActive, IsTerminator;
    hide HasCaseAt, NoRepeats;
    hide Pushes, MeetsCase, Inv, Reachable, IsStack;
    InitialInv();
    var pushes := Pushes(kinds[1..p + 1]);
    var code1 := Pushed(INITIAL, kinds, p, other);
    TerminatesHigher(kinds, p, st);
    KindsTerminate(code1.stack, st);
    assert KindsOf(code1.stack, kinds, p) by { KindsOfPrefix(code1.stack, p); }
    PartsOfKinds(code1.stack[..p], kinds[..p], st, other);
    ReachedBy(pushes);
    var g := ReachableInv(code1);
    SecondIsCase(code1, g, st, other);
    var code2 := GenUnwindBlock(code1, other).0;
    code := GenUnwindBlock(code2, st).0;
    GenIsStep(code1, other);
    RunOne(code1, Gen(other));
    RunConcat(INITIAL, pushes, [Gen(other)]);
    ReachedBy(pushes + [Gen(other)]);
    NoSwitchNoCase(code2, st);
    RepeatsExactly(code2, st);
    GenIsStep(code2, st);
    RunOne(code2, Gen(st));
    RunConcat(code1, [Gen(other)], [Gen(st)]);
    RunConcat(INITIAL, pushes, [Gen(other)] + [Gen(st)]);
  }

  predicate KindsOf(stack: seq<Action>, kinds: seq<Kind>, p: nat) {
    p <= |stack| && p <= |kinds| && Kinds(stack[..p]) == kinds[..p]
  }

  /** With the rest of the stack pushed. */
  lemma DoubledAndPushed(kinds: seq<Kind>, p: nat, st: UnwindState, other: UnwindState) returns (code: Code, steps: seq<Step>)
    requires IsKinds(kinds) && 0 < p < |kinds| && KindsPartAt(kinds, p, st, other) && Terminates(kinds[..p], st)
    ensures IsCode(INITIAL) && CanRun(INITIAL, steps) && code == ApplyAll(INITIAL, steps)
    ensures |code.stack| == |kinds| && Kinds(code.stack) == kinds && FreshFrom(code.stack, p + 1)
    ensures NoRepeats(code.blocks) && HasCaseAt(code, p, st)
  {
    hide IsCode, CanRun, ApplyAll, Kinds, KindsPartAt, Terminates, NoRepeats, Pushes;
    var above := kinds[p + 1..];
    var code1 := Doubled(kinds, p, st, other);
    var first := Pushes(kinds[1..p + 1]) + ([Gen(other)] + [Gen(st)]);
    PushAll(code1, above);
    code := Code(code1.blocks, code1.stack + NewActions(above));
    RunConcat(INITIAL, first, Pushes(above));
    steps := first + Pushes(above);
    NewKinds(code1.stack, above);
    assert kinds == kinds[..p + 1] + above;
  }

  /** No unwind for the state makes the first repeated case on this stack, whatever was generated before. */
  ghost predicate NeverRepeats(kinds: seq<Kind>, st: UnwindState) {
    IsCode(INITIAL) && forall steps | CanRun(INITIAL, steps) && Kinds(ApplyAll(INITIAL, steps).stack) == kinds ::
      HasTerminator(ApplyAll(INITIAL, steps).stack, st) && NoRepeats(ApplyAll(INITIAL, steps).blocks) ==>
        NoRepeats(GenUnwindBlock(ApplyAll(INITIAL, steps), st).0.blocks)
  }

  lemma {:induction false} FindDoubled(kinds: seq<Kind>, st: UnwindState) returns (p: nat)
    requires !PathSingle(kinds, st)
    ensures p < |kinds| && TopDoubled(kinds[..p + 1], st)
    ensures forall k :: p <= k < |kinds| ==> !(IsActive(kinds[k], st) && IsTerminator(kinds[k]))
  {
    if TopDoubled(kinds, st) {
      p := |kinds| - 1;
      assert kinds[..p + 1] == kinds;
    } else {
      p := FindDoubled(kinds[..|kinds| - 1], st);
      assert kinds[..|kinds| - 1][..p + 1] == kinds[..p + 1];
    }
  }

  /** Where the unwind passes an entry that another state passes, there is one at which they part. */
  lemma PartingEntry(kinds: seq<Kind>, st: UnwindState) returns (q: nat, other: UnwindState)
    requires !PathSingle(kinds, st) && Terminates(kinds, st)
    ensures 0 < q < |kinds| && KindsPartAt(kinds, q, st, other) && Terminates(kinds[..q], st)
    ensures forall k :: q <= k < |kinds| ==> !(IsActive(kinds[k], st) && IsTerminator(kinds[k]))
  {
    hide PathSingle, TopDoubled, KindsPartAt;
    var p := FindDoubled(kinds, st);
    var made := NewActions(kinds);
    assert Kinds(made) == kinds;
    KindsTerminate(made, st);
    var start := UnwindStartPosition(made, st);
    assert forall k :: 0 <= k < |kinds| ==> made[k].kind == kinds[k];
    assert start < p;
    q, other := LowestDoubled(kinds, st, start, p);
    assert kinds[..q][start] == kinds[start];
    forall k | q <= k < |kinds| ensures !(IsActive(kinds[k], st) && IsTerminator(kinds[k])) {
      assert !TerminatesAt(made, k, st);
    }
  }

  lemma MeetsAt(code: Code, kinds: seq<Kind>, q: nat, st: UnwindState)
    requires Kinds(code.stack) == kinds && HasTerminator(code.stack, st) && q < |code.stack| == |kinds|
    requires forall k :: q <= k < |kinds| ==> !(IsActive(kinds[k], st) && IsTerminator(kinds[k]))
    requires HasCaseAt(code, q, st)
    ensures MeetsCaseFrom(code, UnwindStartPosition(code.stack, st) + 1, st)
  {
    hide HasCaseAt;
    NoTerminatorsAbove(code.stack, kinds, q, st);
    assert UnwindStartPosition(code.stack, st) < q;
  }

  lemma PathRepeats(kinds: seq<Kind>, st: UnwindState)
    requires IsKinds(kinds) && !PathSingle(kinds, st) && Terminates(kinds, st)
    ensures !NeverRepeats(kinds, st)
  {
    hide IsCode, CanRun, ApplyAll, Kinds, KindsPartAt, Terminates, NoRepeats, PathSingle, HasCaseAt, HasTerminator;
    hide MeetsCaseFrom, GenUnwindBlock, Reachable;
    var q, other := PartingEntry(kinds, st);
    var code, steps := DoubledAndPushed(kinds, q, st, other);
    KindsTerminate(code.stack, st);
    MeetsAt(code, kinds, q, st);
    ReachedBy(steps);
    RepeatsExactly(code, st);
  }

  lemma ScopePathRepeats(kinds: seq<Kind>)
    requires IsKinds(kinds) && !PathSingle(BelowScope(kinds), Throw) && Terminates(kinds, Rethrow)
    ensures !NeverRepeats(kinds, Rethrow)
  {
    hide IsCode, CanRun, ApplyAll, Kinds, Terminates, NoRepeats, PathSingle, HasCaseAt, HasTerminator, MeetsCaseFrom;
    hide GenUnwindBlock, Reachable, BelowScope, IsActive;
    EmptyIsSingle();
    ScopeFound(kinds);
    var below := BelowScope(kinds);
    MarkerEndsThrow(below);
    var q, other := PartingEntry(below, Throw);
    assert below[..q] == kinds[..q] && below[q] == kinds[q];
    var code, steps := DoubledAndPushed(kinds, q, Throw, other);
    KindsTerminate(code.stack, Rethrow);
    ReachedBy(steps);
    NewScopeMeets(code, kinds, q);
    RepeatsExactly(code, Rethrow);
  }

  lemma EmptyIsSingle()
    ensures PathSingle([], Throw)
  {}

  lemma MarkerEndsThrow(kinds: seq<Kind>)
    requires IsKinds(kinds)
    ensures Terminates(kinds, Throw)
  {
    assert IsActive(kinds[0], Throw);
  }

  lemma NewScopeMeets(code: Code, kinds: seq<Kind>, q: nat)
    requires IsCode(code) && IsKinds(kinds) && Kinds(code.stack) == kinds && |code.stack| == |kinds|
    requires q < |BelowScope(kinds)| && q < |code.stack| && HasCaseAt(code, q, Throw) && FreshFrom(code.stack, q + 1)
    requires var below := BelowScope(kinds);
      forall k :: q <= k < |below| ==> !(IsActive(below[k], Throw) && IsTerminator(below[k]))
    requires HasTerminator(code.stack, Rethrow)
    ensures MeetsCase(code, Rethrow)
  {
    hide IsCode, Kinds, HasCaseAt, BelowScope, MeetsCaseFrom;
    ScopeFound(kinds);
    var scope := |BelowScope(kinds)|;
    NoTerminatorsAbove(code.stack, kinds, scope + 1, Rethrow);
    RethrowEndsAtScope();
    StartIs(code.stack, Rethrow, scope);
    ScopeIsRethrow(code, scope);
    CaseInCopy(code, scope, q);
    KindsOfPrefix(code.stack, scope);
    MeetsAt(BelowRethrow(code, scope), BelowScope(kinds), q, Throw);
  }

  /**
   On which stacks a case is ever repeated: exactly where the unwind, or the throw that a rethrow goes on
   as, passes an entry that another state of its class passes too on the way to a terminator.
   */
  lemma NeverRepeatsExactly(kinds: seq<Kind>, st: UnwindState)
    requires IsKinds(kinds) && Terminates(kinds, st)
    ensures NeverRepeats(kinds, st) <==> Single(kinds, st)
  {
    hide IsCode, CanRun, ApplyAll, Kinds, Terminates, NoRepeats, PathSingle, HasTerminator, GenUnwindBlock, Reachable;
    hide BelowScope, Inv, MeetsCase;
    InitialInv();
    if Single(kinds, st) {
      forall steps | CanRun(INITIAL, steps) && Kinds(ApplyAll(INITIAL, steps).stack) == kinds
        ensures HasTerminator(ApplyAll(INITIAL, steps).stack, st) && NoRepeats(ApplyAll(INITIAL, steps).blocks) ==>
          NoRepeats(GenUnwindBlock(ApplyAll(INITIAL, steps), st).0.blocks)
      {
        var code := ApplyAll(INITIAL, steps);
        if HasTerminator(code.stack, st) {
          ReachedBy(steps);
          var g := ReachableInv(code);
          SingleMeetsNone(code, g, st);
          RepeatsExactly(code, st);
        }
      }
    } else if !PathSingle(kinds, st) {
      PathRepeats(kinds, st);
    } else {
      ScopePathRepeats(kinds);
    }
  }

  const IN_LOOP := [FunctionMarker, ControlFlow(1, 2), Destructor(0, 1)]

  /** In a loop with something to destroy, a break after a return and another break. */
  lemma RepeatedCase() returns (code: Code)
    ensures Reachable(code) && !NoRepeats(code.blocks)
  {
    hide IsCode, CanRun, ApplyAll, NoRepeats, GenUnwindBlock, Reachable, NeverRepeats, TopDoubled;
    LoopIsDoubled();
    NeverRepeatsExactly(IN_LOOP, Break);
    var steps := RepeatingSteps(IN_LOOP, Break);
    GenIsStep(ApplyAll(INITIAL, steps), Break);
    RunOne(ApplyAll(INITIAL, steps), Gen(Break));
    RunConcat(INITIAL, steps, [Gen(Break)]);
    ReachedBy(steps + [Gen(Break)]);
    code := ApplyAll(INITIAL, steps + [Gen(Break)]);
  }

  lemma RepeatingSteps(kinds: seq<Kind>, st: UnwindState) returns (steps: seq<Step>)
    requires !NeverRepeats(kinds, st)
    ensures IsCode(INITIAL) && CanRun(INITIAL, steps) && HasTerminator(ApplyAll(INITIAL, steps).stack, st)
    ensures !NoRepeats(GenUnwindBlock(ApplyAll(INITIAL, steps), st).0.blocks)
  {
    hide CanRun, ApplyAll, NoRepeats, GenUnwindBlock, Kinds, HasTerminator, IsCode;
    InitialInv();
    steps :| CanRun(INITIAL, steps) && Kinds(ApplyAll(INITIAL, steps).stack) == kinds
      && HasTerminator(ApplyAll(INITIAL, steps).stack, st)
      && !NoRepeats(GenUnwindBlock(ApplyAll(INITIAL, steps), st).0.blocks);
  }

  lemma LoopIsDoubled()
    ensures IsKinds(IN_LOOP) && Terminates(IN_LOOP, Break) && !Single(IN_LOOP, Break)
  {
    assert IsActive(IN_LOOP[1], Break);
    assert IN_LOOP[..2] == [FunctionMarker, ControlFlow(1, 2)];
    assert IsActive(IN_LOOP[..2][0], Return);
    assert DoubledBy(IN_LOOP, Break, Return);
  }
}

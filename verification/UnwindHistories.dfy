/**
 What holds after every history of pushes, pops, unwinds and landing pads: the generated
 code performs the simple meaning of unwinding, now and after everything generated later.
 */
module UnwindHistories {
  import opened UnwindAction
  import opened UnwindCode
  import opened UnwindRefinement

  // ----- Every step keeps the ledger's promises -----

  lemma PushKeeps(code: Code, g: Ledger, kind: Kind)
    requires Inv(code, g) && CanStep(code, Push(kind))
    ensures Inv(code.(stack := code.stack + [NewAction(kind)]), g)
  {
    hide RangeOK, Wired, CasesOK;
    var code' := code.(stack := code.stack + [NewAction(kind)]);
    assert forall i :: 0 <= i < |code.stack| ==> code'.stack[i] == code.stack[i];
    forall i | 0 <= i < |code'.stack|
      ensures CacheInRange(|code'.blocks|, code'.stack[i])
      ensures ActionOK(code'.blocks, g, Kinds(code'.stack)[..i + 1], code'.stack[i])
    {
      if i < |code.stack| {
        assert CacheInRange(|code.blocks|, code.stack[i]);
        assert ActionOK(code.blocks, g, Kinds(code.stack)[..i + 1], code.stack[i]);
        assert Kinds(code'.stack)[..i + 1] == Kinds(code.stack)[..i + 1];
      }
    }
    forall i, s | 0 <= i < |code'.stack| ensures FallsThrough(code', g, i, s) {
      if i < |code.stack| {
        assert FallsThrough(code, g, i, s);
        assert code'.stack[..i] == code.stack[..i];
      }
    }
  }

  /** Landing pads are no part of the invariant. */
  lemma InvIgnoresPads(code: Code, g: Ledger, stack': seq<Action>)
    requires Inv(code, g) && Kinds(stack') == Kinds(code.stack)
    requires forall i :: 0 <= i < |code.stack| && i < |stack'| ==> stack'[i].actionBlock == code.stack[i].actionBlock
    ensures Inv(Code(code.blocks, stack'), g)
  {
    hide Inv, RangeOK;
    InvSizes(code, g);
    var code' := Code(code.blocks, stack');
    SameKindsSameTerminators(code.stack, stack', Normal);
    forall i | 0 <= i < |stack'|
      ensures CacheInRange(|code'.blocks|, stack'[i])
      ensures ActionOK(code'.blocks, g, Kinds(code.stack)[..i + 1], stack'[i])
    {
      assert CacheInRange(|code.blocks|, code.stack[i]);
      ActionFacts(code, g, i);
    }
    forall i, s | 0 <= i < |stack'| ensures FallsThrough(code', g, i, s) {
      FallsFact(code, g, i, s);
      PadsDoNotMoveCaches(code.stack, stack', i, s);
    }
    InvAfterCaching(code, g, code');
  }

  lemma PadsDoNotMoveCaches(stack: seq<Action>, stack': seq<Action>, i: nat, s: UnwindState)
    requires Kinds(stack') == Kinds(stack) && i <= |stack| && i <= |stack'|
    requires forall j :: 0 <= j < |stack| && j < |stack'| ==> stack'[j].actionBlock == stack[j].actionBlock
    ensures forall b :: CachedBelow(stack, i, s, b) ==> CachedBelow(stack', i, s, b)
  {
    SameKindsSameTerminators(stack, stack', s);
    assert Kinds(stack[..i]) == Kinds(stack)[..i] == Kinds(stack')[..i] == Kinds(stack'[..i]);
    TopActiveSameKinds(stack[..i], stack'[..i], s, 0);
  }

  /** Generating a landing pad, up to storing it in the stack. */
  lemma PadBlockKeeps(code: Code, g: Ledger, st: UnwindState, content: Terminator) returns (g': Ledger)
    requires Inv(code, g) && |g.role| == |code.blocks| && IsCode(code) && HasTerminator(code.stack, st) && !Jumps(content)
    ensures IsCode(code.(blocks := code.blocks + [Block([], Open)]))
    ensures var (code', target) := GenUnwindBlock(code.(blocks := code.blocks + [Block([], Open)]), st);
      var blocks' := code'.blocks[|code.blocks| := Block([], content)];
      && Inv(Code(blocks', code'.stack), g') && |g'.role| == |blocks'|
      && Keeps(code.blocks, g, blocks', g')
      && |code'.stack| == |code.stack| && Grows(code.stack, code'.stack, 0)
      && Ready(Code(blocks', code'.stack), g', |code.stack|, st, target)
  {
    hide Inv, Keeps, Extends, Ready;
    var pad := |code.blocks|;
    var roles := [Other([], false)];
    AppendKeepsInv(code, g, [Block([], Open)], roles, {});
    var code1 := code.(blocks := code.blocks + [Block([], Open)]);
    var g1 := WithBlocks(g, roles, {});
    InvSizes(code1, g1);
    var (code', target) := GenUnwindBlock(code1, st);
    g' := GenUnwindKeeps(code1, g1, st);
    OpenStaysOpen(code1.blocks, g1, code'.blocks, g', |code.stack|, pad);
    FillKeepsInv(code', g', pad, content);
    KeepsBeyond(code.blocks, g, code1.blocks, g1, code'.blocks, g', |code.stack|, pad, Block([], content));
    var blocks' := code'.blocks[pad := Block([], content)];
    ReadyIgnoresBlocks(code', g', blocks', st, target);
  }

  lemma ReadyIgnoresBlocks(code: Code, g: Ledger, blocks': seq<Block>, st: UnwindState, target: BlockId)
    requires |g.role| == |code.blocks| == |blocks'| && Ready(code, g, |code.stack|, st, target)
    ensures Ready(Code(blocks', code.stack), g, |code.stack|, st, target)
  {}

  lemma OpenStaysOpen(blocks: seq<Block>, g: Ledger, blocks': seq<Block>, g': Ledger, height: nat, b: BlockId)
    requires |g.role| == |blocks| && |g'.role| == |blocks'| && Extends(blocks, g, blocks', g', height)
    requires b < |blocks| && blocks[b].term.Open?
    ensures b < |blocks'| && blocks'[b] == blocks[b]
  {}

  lemma KeepsBeyond(b0: seq<Block>, g0: Ledger, b1: seq<Block>, g1: Ledger, b2: seq<Block>, g2: Ledger, height: nat,
          top: BlockId, block: Block)
    requires |g0.role| == |b0| && |g1.role| == |b1| && |g2.role| == |b2|
    requires Extends(b0, g0, b1, g1, 0) && Extends(b1, g1, b2, g2, height) && |b0| <= top < |b2|
    ensures Keeps(b0, g0, b2[top := block], g2)
  {
    ExtendsHigher(b0, g0, b1, g1, 0, height);
    ExtendsTransitive(b0, g0, b1, g1, b2, g2, height);
  }

  lemma ExtendsKeeps(blocks: seq<Block>, g: Ledger, blocks': seq<Block>, g': Ledger, height: nat)
    requires |g.role| == |blocks| && |g'.role| == |blocks'| && Extends(blocks, g, blocks', g', height)
    ensures Keeps(blocks, g, blocks', g')
  {}

  lemma KeepsSelf(blocks: seq<Block>, g: Ledger)
    requires |g.role| == |blocks|
    ensures Keeps(blocks, g, blocks, g)
  {}

  lemma GenPadKeeps(code: Code, g: Ledger, st: UnwindState) returns (g': Ledger)
    requires Inv(code, g) && IsCode(code) && |g.role| == |code.blocks| && CanStep(code, GenPad(st))
    ensures var code' := GenLandingPad(code, st).0;
      Inv(code', g') && |g'.role| == |code'.blocks| && Keeps(code.blocks, g, code'.blocks, g')
  {
    hide Inv, Keeps, Ready;
    g' := g;
    if LatestLandingPad(code.stack, st).None? {
      var (code1, target) := GenUnwindBlock(code.(blocks := code.blocks + [Block([], Open)]), st);
      var content := Pad(CatchTypes(code.stack), AnyUnwindCleanupActions(code.stack, st), st, target);
      g' := PadBlockKeeps(code, g, st, content);
      var blocks' := code1.blocks[|code.blocks| := Block([], content)];
      InvIgnoresPads(Code(blocks', code1.stack), g', SetLatestLandingPad(code1.stack, st, |code.blocks|));
    } else {
      KeepsSelf(code.blocks, g);
    }
  }

  lemma StepKeeps(code: Code, g: Ledger, step: Step) returns (g': Ledger)
    requires Inv(code, g) && IsCode(code) && |g.role| == |code.blocks| && CanStep(code, step)
    ensures var code' := Apply(code, step);
      Inv(code', g') && |g'.role| == |code'.blocks| && Keeps(code.blocks, g, code'.blocks, g')
  {
    hide Inv, Keeps, Extends, Ready;
    match step
    case Push(kind) =>
      g' := g;
      PushKeeps(code, g, kind);
      KeepsSelf(code.blocks, g);
    case Pop =>
      g' := g;
      InvOfPrefix(code, g, |code.stack| - 1);
      KeepsSelf(code.blocks, g);
    case Gen(st) =>
      g' := GenUnwindKeeps(code, g, st);
      ExtendsKeeps(code.blocks, g, GenUnwindBlock(code, st).0.blocks, g', |code.stack|);
    case GenPad(st) =>
      g' := GenPadKeeps(code, g, st);
  }

  /** Promises pass through any number of steps. */
  predicate Stands(blocks: seq<Block>, g: Ledger, blocks': seq<Block>, g': Ledger)
    requires |g.role| == |blocks| && |g'.role| == |blocks'|
  {
    && |blocks| <= |blocks'| && g.role <= g'.role && g.planned <= g'.planned
    && (forall b :: 0 <= b < |blocks| && !blocks[b].term.Open? && !Jumps(blocks[b].term) ==>
          blocks'[b].term == blocks[b].term)
    && forall p <- g.planned ::
         p.0 < |blocks| && Jumps(blocks[p.0].term) ==>
           Jumps(blocks'[p.0].term) && Successor(blocks'[p.0].term, p.1) == Successor(blocks[p.0].term, p.1)
  }

  lemma KeepsStands(blocks: seq<Block>, g: Ledger, blocks': seq<Block>, g': Ledger)
    requires |g.role| == |blocks| && |g'.role| == |blocks'| && Keeps(blocks, g, blocks', g')
    ensures Stands(blocks, g, blocks', g')
  {
    forall p <- g.planned | p.0 < |blocks| && Jumps(blocks[p.0].term)
      ensures Jumps(blocks'[p.0].term) && Successor(blocks'[p.0].term, p.1) == Successor(blocks[p.0].term, p.1)
    {
      assert blocks'[p.0] == blocks[p.0] || JumpsKept(blocks[p.0].term, blocks'[p.0].term);
    }
  }

  lemma {:induction false} HistoryKeeps(code: Code, g: Ledger, steps: seq<Step>) returns (g': Ledger)
    requires Inv(code, g) && IsCode(code) && |g.role| == |code.blocks| && CanRun(code, steps)
    ensures var code' := ApplyAll(code, steps);
      Inv(code', g') && |g'.role| == |code'.blocks| && Stands(code.blocks, g, code'.blocks, g')
    decreases |steps|
  {
    hide Inv, Keeps;
    if steps == [] {
      g' := g;
    } else {
      var g1 := StepKeeps(code, g, steps[0]);
      KeepsStands(code.blocks, g, Apply(code, steps[0]).blocks, g1);
      g' := HistoryKeeps(Apply(code, steps[0]), g1, steps[1..]);
    }
  }

  const NO_PROMISES := Ledger([], {})

  lemma InitialInv()
    ensures IsCode(INITIAL) && Inv(INITIAL, NO_PROMISES)
  {
    assert CacheInRange(0, NewAction(FunctionMarker));
  }

  // ----- The theorems -----

  /** `code'` comes about from `code` by some further steps. */
  ghost predicate Leads(code: Code, code': Code)
    requires IsCode(code)
  {
    exists steps :: CanRun(code, steps) && ApplyAll(code, steps) == code'
  }

  /** The states of the generator, over all histories of a function. */
  ghost predicate Reachable(code: Code) {
    IsCode(code) && IsCode(INITIAL) && Leads(INITIAL, code)
  }

  lemma ReachableInv(code: Code) returns (g: Ledger)
    requires Reachable(code)
    ensures Inv(code, g) && |g.role| == |code.blocks|
  {
    InitialInv();
    var steps :| CanRun(INITIAL, steps) && ApplyAll(INITIAL, steps) == code;
    g := HistoryKeeps(INITIAL, NO_PROMISES, steps);
  }

  /**
   Incremental linking is safe.  Whatever has been generated, there is a record of the block and
   state pairs that generated unwinds rely on such that no later step moves where a recorded pair
   goes, and every case a switch has is for a recorded pair.
   */
  lemma LinkingIsSafe(code: Code, code': Code) returns (before: Ledger, after: Ledger)
    requires Reachable(code) && Leads(code, code')
    ensures |before.role| == |code.blocks| && |after.role| == |code'.blocks|
    ensures Inv(code, before) && Inv(code', after)
    ensures Stands(code.blocks, before, code'.blocks, after)
  {
    before := ReachableInv(code);
    var steps :| CanRun(code, steps) && ApplyAll(code, steps) == code';
    after := HistoryKeeps(code, before, steps);
  }

  /** A state that a switch has a case for goes where it went, whatever is generated later. */
  lemma LinkedStatesNeverMove(code: Code, later: Code, b: BlockId, c: (UnwindState, BlockId))
    requires Reachable(code) && Leads(code, later)
    requires b < |code.blocks| && code.blocks[b].term.Switch? && c in code.blocks[b].term.cases
    ensures b < |later.blocks| && Jumps(later.blocks[b].term)
    ensures Successor(later.blocks[b].term, c.0) == Successor(code.blocks[b].term, c.0)
  {
    hide Unwind, ActionOK, FallsThrough, IsCode, Wired;
    var before, after := LinkingIsSafe(code, later);
    assert CasesOK(code.blocks, before, b);
    assert CaseOK(code.blocks, before, b, c);
  }

  /** The blocks visited from `b` on with the state variable holding `v`. */
  function Visited(blocks: seq<Block>, b: BlockId, v: UnwindState, steps: nat): seq<BlockId>
    decreases steps
  {
    if steps == 0 || b >= |blocks| then []
    else if !Jumps(blocks[b].term) then [b]
    else [b] + Visited(blocks, Successor(blocks[b].term, v), v, steps - 1)
  }

  /** Nothing generated later changes the way through the graph from a generated entry. */
  lemma WayNeverChanges(code: Code, st: UnwindState, n: nat)
    requires Reachable(code) && HasTerminator(code.stack, st)
    ensures var (code', entry) := GenUnwindBlock(code, st);
      forall later :: Leads(code', later) ==>
        Visited(later.blocks, entry, st, n) == Visited(code'.blocks, entry, st, n)
  {
    hide Inv, Extends, Unwind, Visited, IsCode;
    var (code', entry) := GenUnwindBlock(code, st);
    var g := ReachableInv(code);
    var g' := GenUnwindKeeps(code, g, st);
    forall later | Leads(code', later)
      ensures Visited(later.blocks, entry, st, n) == Visited(code'.blocks, entry, st, n)
    {
      var steps :| CanRun(code', steps) && ApplyAll(code', steps) == later;
      var g'' := HistoryKeeps(code', g', steps);
      WayStands(code', g', later, g'', entry, st, n);
    }
  }

  lemma {:induction false} WayStands(code: Code, g: Ledger, later: Code, g': Ledger, b: BlockId, st: UnwindState, n: nat)
    requires Inv(code, g) && |g.role| == |code.blocks| && Inv(later, g') && |g'.role| == |later.blocks|
    requires Stands(code.blocks, g, later.blocks, g') && (b, st) in g.planned
    ensures Visited(later.blocks, b, st, n) == Visited(code.blocks, b, st, n)
    decreases n
  {
    hide Inv, Unwind;
    PlannedIsWired(code, g, b, st);
    PlannedIsWired(later, g', b, st);
    if n > 0 && Jumps(code.blocks[b].term) {
      var t := Successor(code.blocks[b].term, st);
      assert Follows(code.blocks, g, b, st, t);
      WayStands(code, g, later, g', t, st, n - 1);
    }
  }

  predicate Performs(blocks: seq<Block>, b: BlockId, v: UnwindState, outcome: Outcome, steps: nat) {
    outcome.Done? && Run(blocks, b, v, steps) == Finished(outcome.trace, outcome.exit)
  }

  /**
   Unwind refinement.  After any history, the block returned for state `st`, run with the state
   variable equal to `st`, performs exactly the active entries of the stack from the top down to
   the first active terminator, and it still does after anything generated later.
   */
  lemma UnwindRefined(code: Code, st: UnwindState, n: nat)
    requires Reachable(code) && HasTerminator(code.stack, st)
    requires 2 * |code.stack| + 1 <= n
    ensures var (code', entry) := GenUnwindBlock(code, st);
      && Performs(code'.blocks, entry, st, Unwind(Kinds(code.stack), st), n)
      && forall later :: Leads(code', later) ==> Performs(later.blocks, entry, st, Unwind(Kinds(code.stack), st), n)
  {
    hide Inv, GenUnwindBlock, Performs;
    var g := ReachableInv(code);
    var (code', entry) := GenUnwindBlock(code, st);
    assert CanRun(code', []) && ApplyAll(code', []) == code';
    EntryPerforms(code, g, st, [], n);
    forall later | Leads(code', later)
      ensures Performs(later.blocks, entry, st, Unwind(Kinds(code.stack), st), n)
    {
      var steps :| CanRun(code', steps) && ApplyAll(code', steps) == later;
      EntryPerforms(code, g, st, steps, n);
    }
  }

  lemma EntryPerforms(code: Code, g: Ledger, st: UnwindState, later: seq<Step>, n: nat)
    requires Inv(code, g) && IsCode(code) && |g.role| == |code.blocks| && HasTerminator(code.stack, st)
    requires CanRun(GenUnwindBlock(code, st).0, later) && 2 * |code.stack| + 1 <= n
    ensures var (code', entry) := GenUnwindBlock(code, st);
      && Performs(code'.blocks, entry, st, Unwind(Kinds(code.stack), st), n)
      && Performs(ApplyAll(code', later).blocks, entry, st, Unwind(Kinds(code.stack), st), n)
  {
    hide Inv, Extends;
    var (code', entry) := GenUnwindBlock(code, st);
    var g' := GenUnwindKeeps(code, g, st);
    ReadyPerforms(code', g', st, entry, n);
    var g'' := HistoryKeeps(code', g', later);
    var code'' := ApplyAll(code', later);
    assert g''.role[entry] == g'.role[entry];
    PlannedPerforms(code'', g'', entry, st, n);
  }

  lemma PlannedPerforms(code: Code, g: Ledger, b: BlockId, st: UnwindState, n: nat)
    requires Inv(code, g) && (b, st) in g.planned
    ensures |g.role| == |code.blocks| && b < |code.blocks|
    ensures Rank(g.role[b]) <= n ==> Performs(code.blocks, b, st, Unwind(g.role[b].prefix, st), n)
  {
    assert Wired(code.blocks, g, b, st);
    if Rank(g.role[b]) <= n {
      RunFromPlanned(code, g, b, st, n);
    }
  }

  lemma ReadyPerforms(code: Code, g: Ledger, st: UnwindState, entry: BlockId, n: nat)
    requires Inv(code, g) && |g.role| == |code.blocks| && Ready(code, g, |code.stack|, st, entry)
    requires 2 * |code.stack| + 1 <= n
    ensures Performs(code.blocks, entry, st, Unwind(Kinds(code.stack), st), n)
    ensures Unwind(g.role[entry].prefix, st) == Unwind(Kinds(code.stack), st) && Rank(g.role[entry]) <= n
  {
    assert Kinds(code.stack)[..|code.stack|] == Kinds(code.stack);
    PlannedPerforms(code, g, entry, st, n);
  }

  /** Repeated cases for one state agree: in any reachable graph they all perform the same unwind. */
  lemma RepeatedLinksAgree(code: Code, b: BlockId, c: (UnwindState, BlockId)) returns (outcome: Outcome, bound: nat)
    requires Reachable(code)
    requires b < |code.blocks| && code.blocks[b].term.Switch? && c in code.blocks[b].term.cases
    ensures forall n :: bound <= n ==>
      && Performs(code.blocks, c.1, c.0, outcome, n)
      && Performs(code.blocks, Successor(code.blocks[b].term, c.0), c.0, outcome, n)
  {
    var g := ReachableInv(code);
    assert CasesOK(code.blocks, g, b);
    assert CaseOK(code.blocks, g, b, c);
    var first := Successor(code.blocks[b].term, c.0);
    outcome := Unwind(g.role[c.1].prefix, c.0);
    assert (first, c.0) in g.planned by {
      assert Wired(code.blocks, g, b, c.0);
    }
    bound := Rank(g.role[c.1]) + Rank(g.role[first]);
    forall n | bound <= n
      ensures Performs(code.blocks, c.1, c.0, outcome, n) && Performs(code.blocks, first, c.0, outcome, n)
    {
      PlannedPerforms(code, g, c.1, c.0, n);
      PlannedPerforms(code, g, first, c.0, n);
    }
  }

  /** How many cases a switch has for one state. */
  function CaseCount(cases: seq<(UnwindState, BlockId)>, st: UnwindState): nat {
    if cases == [] then 0 else CaseCount(cases[1..], st) + if cases[0].0 == st then 1 else 0
  }

  lemma {:induction false} CaseCountAppend(cases: seq<(UnwindState, BlockId)>, c: (UnwindState, BlockId), st: UnwindState)
    ensures CaseCount(cases + [c], st) == CaseCount(cases, st) + if c.0 == st then 1 else 0
  {
    if cases == [] {
      assert cases + [c] == [c] && [c][1..] == [];
    } else {
      assert (cases + [c])[1..] == cases[1..] + [c];
      CaseCountAppend(cases[1..], c, st);
    }
  }

  lemma {:induction false} CaseCountPositive(cases: seq<(UnwindState, BlockId)>, st: UnwindState)
    ensures CaseCount(cases, st) > 0 <==> CaseFor(cases, st)
  {
    if cases != [] {
      CaseCountPositive(cases[1..], st);
      assert CaseFor(cases, st) <==> cases[0].0 == st || CaseFor(cases[1..], st) by {
        forall c <- cases ensures c == cases[0] || c in cases[1..] {}
      }
    }
  }

  /**
   Linking repeats a case exactly if the block has a case for the state already: a switch gets another
   one whatever its cases are.  Only a plain branch is left alone, if it goes to the right place.
   */
  lemma SecondCaseExactly(term: Terminator, st: UnwindState, next: BlockId)
    requires Jumps(term)
    ensures var term' := Link(term, st, next);
      && Jumps(term')
      && (CaseCount(CasesOf(term'), st) > 1 <==> HasCase(term, st))
      && CaseCount(CasesOf(term'), st) == CaseCount(CasesOf(term), st) + if term == Br(next) then 0 else 1
  {
    CaseCountPositive(CasesOf(term), st);
    CaseCountAppend(CasesOf(term), (st, next), st);
  }

  // ----- Building histories -----

  function Pushes(kinds: seq<Kind>): seq<Step> {
    if kinds == [] then [] else [Push(kinds[0])] + Pushes(kinds[1..])
  }

  function NewActions(kinds: seq<Kind>): (stack: seq<Action>)
    ensures |stack| == |kinds|
    ensures forall k :: 0 <= k < |kinds| ==> stack[k] == NewAction(kinds[k])
  {
    seq(|kinds|, k requires 0 <= k < |kinds| => NewAction(kinds[k]))
  }

  lemma {:induction false} RunConcat(code: Code, first: seq<Step>, second: seq<Step>)
    requires IsCode(code) && CanRun(code, first) && CanRun(ApplyAll(code, first), second)
    ensures CanRun(code, first + second)
    ensures ApplyAll(code, first + second) == ApplyAll(ApplyAll(code, first), second)
    decreases |first|
  {
    hide IsCode, Apply, CanStep;
    var steps := first + second;
    if first == [] {
      assert steps == second;
    } else {
      assert steps[0] == first[0] && steps[1..] == first[1..] + second;
      RunConcat(Apply(code, first[0]), first[1..], second);
    }
  }

  lemma RunNone(code: Code)
    requires IsCode(code)
    ensures CanRun(code, []) && ApplyAll(code, []) == code
  {}

  lemma RunOne(code: Code, step: Step)
    requires IsCode(code) && CanStep(code, step)
    ensures CanRun(code, [step]) && ApplyAll(code, [step]) == Apply(code, step)
  {
    hide IsCode, Apply, CanStep;
    assert [step][1..] == [];
    assert CanRun(Apply(code, step), []);
  }

  lemma {:induction false} PushAll(code: Code, kinds: seq<Kind>)
    requires IsCode(code) && FunctionMarker !in kinds
    ensures CanRun(code, Pushes(kinds))
    ensures ApplyAll(code, Pushes(kinds)) == Code(code.blocks, code.stack + NewActions(kinds))
    decreases |kinds|
  {
    hide IsCode, CanRun, ApplyAll;
    if kinds == [] {
      RunNone(code);
      assert code.stack + NewActions(kinds) == code.stack;
    } else {
      var code1 := Apply(code, Push(kinds[0]));
      RunOne(code, Push(kinds[0]));
      PushAll(code1, kinds[1..]);
      RunConcat(code, [Push(kinds[0])], Pushes(kinds[1..]));
      assert code1.stack + NewActions(kinds[1..]) == code.stack + NewActions(kinds);
    }
  }

  /** A function's stack: its function marker at the bottom and nowhere else. */
  predicate IsKinds(kinds: seq<Kind>) {
    && |kinds| > 0 && kinds[0] == FunctionMarker
    && forall i :: 1 <= i < |kinds| ==> kinds[i] != FunctionMarker
  }

  predicate FreshFrom(stack: seq<Action>, i: nat) {
    forall k :: i <= k < |stack| ==> stack[k].actionBlock == map[]
  }

  predicate Terminates(kinds: seq<Kind>, st: UnwindState) {
    exists k :: 0 <= k < |kinds| && IsActive(kinds[k], st) && IsTerminator(kinds[k])
  }

  lemma KindsTerminate(stack: seq<Action>, st: UnwindState)
    ensures HasTerminator(stack, st) <==> Terminates(Kinds(stack), st)
  {
    if HasTerminator(stack, st) {
      var k :| 0 <= k < |stack| && TerminatesAt(stack, k, st);
      assert IsActive(Kinds(stack)[k], st);
    }
    if Terminates(Kinds(stack), st) {
      var k :| 0 <= k < |stack| && IsActive(Kinds(stack)[k], st) && IsTerminator(Kinds(stack)[k]);
      assert TerminatesAt(stack, k, st);
    }
  }

  lemma NewKinds(stack: seq<Action>, kinds: seq<Kind>)
    ensures Kinds(stack + NewActions(kinds)) == Kinds(stack) + kinds
    ensures FreshFrom(stack + NewActions(kinds), |stack|)
  {}

  lemma OneKind(stack: seq<Action>)
    requires stack == [NewAction(FunctionMarker)]
    ensures Kinds(stack) == [FunctionMarker] && FreshFrom(stack, 0)
  {}

  lemma KindsOfPrefix(stack: seq<Action>, n: nat)
    requires n <= |stack|
    ensures Kinds(stack[..n]) == Kinds(stack)[..n]
  {}

  lemma TerminatesPrefix(kinds: seq<Kind>, p: nat, st: UnwindState)
    requires p <= |kinds| && Terminates(kinds[..p], st)
    ensures Terminates(kinds, st)
  {
    var k :| 0 <= k < p && IsActive(kinds[..p][k], st) && IsTerminator(kinds[..p][k]);
    assert kinds[k] == kinds[..p][k];
  }
}

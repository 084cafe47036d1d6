/**
 The shared, incrementally rewritten graph refines the simple meaning of unwinding.

 A ledger gives every block the stack prefix whose unwinding it performs, and records the
 (block, state) pairs that some generated unwind relies on.  Every step of the generator
 keeps the ledger's promises and never takes one back.
 */
module UnwindRefinement {
  import opened UnwindAction
  import opened UnwindCode

  /**
   What a block is for.  `Whole` performs the top of its prefix and the rest; `Enter` is the
   first block of a scope-exit body and `Rest` the last one, with only the rest to do; `Top`
   performs a terminator; `Other` blocks are landing pads and blocks not yet filled in.
   An `exceptional` block is for the throw and rethrow states, any other for the rest.
   */
  datatype Role =
    | Top(prefix: seq<Kind>, exceptional: bool)
    | Whole(prefix: seq<Kind>, exceptional: bool)
    | Enter(prefix: seq<Kind>, exceptional: bool)
    | Rest(prefix: seq<Kind>, exceptional: bool)
    | Other(prefix: seq<Kind>, exceptional: bool)

  datatype Ledger = Ledger(role: seq<Role>, planned: set<(BlockId, UnwindState)>)

  function Rank(role: Role): nat {
    2 * |role.prefix| + if role.Rest? then 2 else 1
  }

  predicate Linkable(role: Role) {
    role.Whole? || role.Rest?
  }

  /** `prefix` is `kinds` without some entries on top that are not active. */
  predicate Skips(prefix: seq<Kind>, kinds: seq<Kind>, st: UnwindState) {
    prefix <= kinds && forall k :: |prefix| <= k < |kinds| ==> !IsActive(kinds[k], st)
  }

  /** The entries that are left once a block with this role has run. */
  function LeftOver(role: Role): seq<Kind> {
    if role.Rest? || role.prefix == [] then role.prefix else role.prefix[..|role.prefix| - 1]
  }

  /** The block runs the top entry of its prefix, unless the entry has run already. */
  predicate RunsTop(role: Role, events: seq<Kind>, st: UnwindState) {
    if role.Rest? then events == []
    else
      && |role.prefix| > 0
      && var top := role.prefix[|role.prefix| - 1];
      && events == [top] && IsActive(top, st) && !IsTerminator(top)
  }

  /** What is left to do of a scope exit is only reached from the block that enters its body. */
  predicate EntersRest(role: Role, next: Role) {
    next.Rest? ==>
      role.Enter? && next.prefix == LeftOver(role) && |role.prefix| > 0 && role.prefix[|role.prefix| - 1].ScopeExit?
  }

  /** Going from `b` to `t` in state `st` performs what is left to do. */
  predicate Follows(blocks: seq<Block>, g: Ledger, b: BlockId, st: UnwindState, t: BlockId)
    requires |g.role| == |blocks| && b < |blocks|
  {
    && t < |blocks|
    && (t, st) in g.planned
    && Rank(g.role[t]) < Rank(g.role[b])
    && RunsTop(g.role[b], blocks[b].events, st)
    && Skips(g.role[t].prefix, LeftOver(g.role[b]), st)
    && EntersRest(g.role[b], g.role[t])
    && Unwind(g.role[b].prefix, st) == Prepend(blocks[b].events, Unwind(g.role[t].prefix, st))
  }

  /** A rethrow scope's block goes on with the throw unwind of the stack below the scope. */
  predicate ContinuesThrow(g: Ledger, prefix: seq<Kind>, t: BlockId) {
    && t < |g.role| && !g.role[t].Rest?
    && (t, Throw) in g.planned
    && |prefix| > 0 && prefix[|prefix| - 1] == RethrowScope
    && Skips(g.role[t].prefix, prefix[..|prefix| - 1], Throw)
    && Unwind(g.role[t].prefix, Throw) == Unwind(prefix[..|prefix| - 1], Throw)
  }

  predicate Wired(blocks: seq<Block>, g: Ledger, b: BlockId, st: UnwindState)
    requires |g.role| == |blocks|
  {
    && b < |blocks|
    && g.role[b].exceptional == IsExceptionState(st)
    && match blocks[b].term
       case Leave(exit) =>
         blocks[b].events == [] && exit != EnterThrow && Unwind(g.role[b].prefix, st) == Done([], exit)
       case ThrowFrom(t) =>
         && st == Rethrow
         && blocks[b].events == []
         && Unwind(g.role[b].prefix, st) == Done([], EnterThrow)
         && ContinuesThrow(g, g.role[b].prefix, t)
       case Br(t) => Follows(blocks, g, b, st, t)
       case Switch(default, cases) => Follows(blocks, g, b, st, Lookup(cases, default, st))
       case Open => false
       case Pad(_, _, _, _) => false
  }

  /** Each case of a switch was added for a planned state, and repeated cases agree on the outcome. */
  predicate CaseOK(blocks: seq<Block>, g: Ledger, b: BlockId, c: (UnwindState, BlockId))
    requires |g.role| == |blocks| && b < |blocks| && Jumps(blocks[b].term)
  {
    var first := Successor(blocks[b].term, c.0);
    && (b, c.0) in g.planned
    && c.1 < |blocks| && first < |blocks|
    && (c.1, c.0) in g.planned
    && Unwind(g.role[c.1].prefix, c.0) == Unwind(g.role[first].prefix, c.0)
  }

  /** The default was made for a planned state. */
  predicate DefaultOK(blocks: seq<Block>, g: Ledger, b: BlockId)
    requires |g.role| == |blocks| && b < |blocks|
  {
    Jumps(blocks[b].term) ==>
      exists s :: (b, s) in g.planned && Follows(blocks, g, b, s, DefaultOf(blocks[b].term))
  }

  /** A branch is only made a switch for the sake of a second planned state. */
  predicate SwitchOK(blocks: seq<Block>, g: Ledger, b: BlockId)
    requires |g.role| == |blocks| && b < |blocks|
  {
    blocks[b].term.Switch? ==> exists s, s' :: s != s' && (b, s) in g.planned && (b, s') in g.planned
  }

  predicate CasesOK(blocks: seq<Block>, g: Ledger, b: BlockId)
    requires |g.role| == |blocks| && b < |blocks|
  {
    && (blocks[b].term.Switch? ==> forall c <- blocks[b].term.cases :: CaseOK(blocks, g, b, c))
    && DefaultOK(blocks, g, b)
    && SwitchOK(blocks, g, b)
  }

  /** The cached blocks of the top entry of `kinds` perform it. */
  predicate RangeOK(blocks: seq<Block>, g: Ledger, kinds: seq<Kind>, st: UnwindState, range: BlockRange)
    requires |g.role| == |blocks| && |kinds| > 0
  {
    var top := kinds[|kinds| - 1];
    && range.start < |blocks|
    && match range
       case TopBlock(start) =>
         && g.role[start] == Top(kinds, IsExceptionState(st))
         && (IsActive(top, st) ==> (start, st) in g.planned)
       case Blocks(start, end) =>
         && end < |blocks|
         && blocks[start].events == [top]
         && Jumps(blocks[end].term)
         && if start == end then g.role[start] == Whole(kinds, IsExceptionState(st))
            else
              && top.ScopeExit?
              && g.role[start] == Enter(kinds, IsExceptionState(st)) && blocks[start].term == Br(end)
              && g.role[end] == Rest(kinds[..|kinds| - 1], IsExceptionState(st)) && blocks[end].events == []
  }

  predicate SharesCache(action: Action) {
    && (forall s <- action.actionBlock :: CanSetActionBlock(action.kind, s))
    && forall s <- action.actionBlock, s' <- SharingStates(action.kind, s) ::
         s' in action.actionBlock && action.actionBlock[s'] == action.actionBlock[s]
  }

  predicate ActionOK(blocks: seq<Block>, g: Ledger, kinds: seq<Kind>, action: Action)
    requires |g.role| == |blocks| && |kinds| > 0
  {
    && SharesCache(action)
    && forall s <- action.actionBlock :: RangeOK(blocks, g, kinds, s, action.actionBlock[s])
  }

  /** The next active entry below `i` has its blocks starting at `b`. */
  predicate CachedBelow(stack: seq<Action>, i: nat, st: UnwindState, b: BlockId)
    requires i <= |stack|
  {
    var p := TopActive(stack[..i], st, 0);
    p.At? && st in stack[p.pos].actionBlock && stack[p.pos].actionBlock[st].start == b
  }

  predicate CaseFor(cases: seq<(UnwindState, BlockId)>, st: UnwindState) {
    exists c <- cases :: c.0 == st
  }

  predicate HasCase(term: Terminator, st: UnwindState)
    requires Jumps(term)
  {
    CaseFor(CasesOf(term), st)
  }

  /** A planned state without a case of its own falls through to the next active entry. */
  predicate FallsThrough(code: Code, g: Ledger, i: nat, st: UnwindState)
    requires |g.role| == |code.blocks| && i < |code.stack|
  {
    st in code.stack[i].actionBlock ==>
      var range := code.stack[i].actionBlock[st];
      range.Blocks? && range.end < |code.blocks| && (range.end, st) in g.planned && Jumps(code.blocks[range.end].term) ==>
        var term := code.blocks[range.end].term;
        HasCase(term, st) || CachedBelow(code.stack, i, st, DefaultOf(term))
  }

  ghost predicate Inv(code: Code, g: Ledger) {
    && IsCode(code)
    && |g.role| == |code.blocks|
    && (forall b, s :: (b, s) in g.planned ==> Wired(code.blocks, g, b, s))
    && (forall b :: 0 <= b < |code.blocks| ==> CasesOK(code.blocks, g, b))
    && (forall b :: 0 <= b < |code.blocks| && Jumps(code.blocks[b].term) ==> DefaultOf(code.blocks[b].term) < |code.blocks|)
    && (forall i :: 0 <= i < |code.stack| ==> ActionOK(code.blocks, g, Kinds(code.stack)[..i + 1], code.stack[i]))
    && (forall i, s :: 0 <= i < |code.stack| ==> FallsThrough(code, g, i, s))
  }

  // ----- Running a planned block -----

  lemma PlannedIsWired(code: Code, g: Ledger, b: BlockId, st: UnwindState)
    requires Inv(code, g) && (b, st) in g.planned
    ensures |g.role| == |code.blocks| && Wired(code.blocks, g, b, st)
  {}

  /** From a planned pair, running performs exactly the unwinding of the block's prefix. */
  lemma {:induction false} RunFromPlanned(code: Code, g: Ledger, b: BlockId, st: UnwindState, steps: nat)
    requires Inv(code, g) && (b, st) in g.planned
    requires Wired(code.blocks, g, b, st) && Rank(g.role[b]) <= steps
    ensures Unwind(g.role[b].prefix, st).Done?
    ensures var outcome := Unwind(g.role[b].prefix, st);
      Run(code.blocks, b, st, steps) == Finished(outcome.trace, outcome.exit)
    decreases Rank(g.role[b])
  {
    hide Inv, Unwind;
    PlannedIsWired(code, g, b, st);
    var term := code.blocks[b].term;
    if Jumps(term) {
      var t := Successor(term, st);
      assert Follows(code.blocks, g, b, st, t);
      PlannedIsWired(code, g, t, st);
      RunFromPlanned(code, g, t, st, steps - 1);
    }
  }

  // ----- What a step never takes back -----

  /** A jump keeps its default and its cases, and gains cases at the end. */
  predicate JumpsKept(term: Terminator, term': Terminator) {
    Jumps(term) && Jumps(term') && DefaultOf(term') == DefaultOf(term) && CasesOf(term) <= CasesOf(term')
  }

  /** Every promise made before still stands; blocks not filled in before may have been. */
  ghost predicate Keeps(blocks: seq<Block>, g: Ledger, blocks': seq<Block>, g': Ledger)
    requires |g.role| == |blocks| && |g'.role| == |blocks'|
  {
    && |blocks| <= |blocks'|
    && g.role <= g'.role
    && g.planned <= g'.planned
    && (forall b :: 0 <= b < |blocks| && !blocks[b].term.Open? ==>
          && blocks'[b].events == blocks[b].events
          && (!Linkable(g.role[b]) ==> blocks'[b] == blocks[b])
          && (blocks'[b] == blocks[b] || JumpsKept(blocks[b].term, blocks'[b].term)))
    && (forall b, s :: (b, s) in g.planned && b < |blocks| && JumpsKept(blocks[b].term, blocks'[b].term) ==>
          Successor(blocks'[b].term, s) == Successor(blocks[b].term, s))
  }

  /** Old promises stay, and only blocks of prefixes up to `height` get new ones. */
  ghost predicate Extends(blocks: seq<Block>, g: Ledger, blocks': seq<Block>, g': Ledger, height: nat)
    requires |g.role| == |blocks| && |g'.role| == |blocks'|
  {
    && Keeps(blocks, g, blocks', g')
    && (forall b :: 0 <= b < |blocks| && blocks[b].term.Open? ==> blocks'[b] == blocks[b])
    && (forall b, s :: (b, s) in g'.planned && (b, s) !in g.planned && b < |blocks| ==> |g.role[b].prefix| <= height)
  }

  /** The stack keeps its entries and their caches, and new caches hold new blocks. */
  ghost predicate Grows(stack: seq<Action>, stack': seq<Action>, n: nat) {
    && Kinds(stack') == Kinds(stack)
    && forall i, s :: 0 <= i < |stack| ==>
         && (s in stack[i].actionBlock ==>
               s in stack'[i].actionBlock && stack'[i].actionBlock[s] == stack[i].actionBlock[s])
         && (s in stack'[i].actionBlock && s !in stack[i].actionBlock ==> stack'[i].actionBlock[s].start >= n)
  }

  lemma WiredKept(blocks: seq<Block>, g: Ledger, blocks': seq<Block>, g': Ledger, b: BlockId, st: UnwindState)
    requires |g.role| == |blocks| && |g'.role| == |blocks'|
    requires Keeps(blocks, g, blocks', g')
    requires (b, st) in g.planned && Wired(blocks, g, b, st)
    ensures Wired(blocks', g', b, st)
  {
    if Jumps(blocks[b].term) {
      var t := Successor(blocks[b].term, st);
      assert Follows(blocks, g, b, st, t);
      assert Jumps(blocks'[b].term) && Successor(blocks'[b].term, st) == t;
      assert Follows(blocks', g', b, st, t);
    }
  }

  lemma CasesKept(blocks: seq<Block>, g: Ledger, blocks': seq<Block>, g': Ledger, b: BlockId)
    requires |g.role| == |blocks| && |g'.role| == |blocks'|
    requires Keeps(blocks, g, blocks', g')
    requires b < |blocks| && blocks'[b] == blocks[b] && CasesOK(blocks, g, b)
    ensures CasesOK(blocks', g', b)
  {
    if blocks[b].term.Switch? {
      forall c <- blocks[b].term.cases ensures CaseOK(blocks', g', b, c) {
        assert CaseOK(blocks, g, b, c);
      }
    }
    if Jumps(blocks[b].term) {
      DefaultKept(blocks, g, blocks', g', b);
    }
  }

  lemma DefaultKept(blocks: seq<Block>, g: Ledger, blocks': seq<Block>, g': Ledger, b: BlockId)
    requires |g.role| == |blocks| && |g'.role| == |blocks'| && b < |blocks| <= |blocks'|
    requires g.role <= g'.role && g.planned <= g'.planned
    requires DefaultOK(blocks, g, b) && Jumps(blocks[b].term)
    requires JumpsKept(blocks[b].term, blocks'[b].term) && blocks'[b].events == blocks[b].events
    ensures DefaultOK(blocks', g', b)
  {
    hide Unwind, Skips, RunsTop, EntersRest;
    var s :| (b, s) in g.planned && Follows(blocks, g, b, s, DefaultOf(blocks[b].term));
    assert Follows(blocks', g', b, s, DefaultOf(blocks'[b].term));
  }

  lemma ActionKept(blocks: seq<Block>, g: Ledger, blocks': seq<Block>, g': Ledger, kinds: seq<Kind>, action: Action)
    requires |g.role| == |blocks| && |g'.role| == |blocks'| && |kinds| > 0
    requires Keeps(blocks, g, blocks', g') && ActionOK(blocks, g, kinds, action)
    ensures ActionOK(blocks', g', kinds, action)
  {
    forall s <- action.actionBlock ensures RangeOK(blocks', g', kinds, s, action.actionBlock[s]) {
      var range := action.actionBlock[s];
      assert RangeOK(blocks, g, kinds, s, range);
      assert g'.role[range.start] == g.role[range.start];
      if range.Blocks? {
        assert g'.role[range.end] == g.role[range.end];
        assert Jumps(blocks'[range.end].term);
      }
    }
  }

  lemma {:induction false} LookupAppend(cases: seq<(UnwindState, BlockId)>, default: BlockId, st: UnwindState,
          next: BlockId, s: UnwindState)
    ensures Lookup(cases + [(st, next)], default, s)
      == if s == st && !CaseFor(cases, st) then next else Lookup(cases, default, s)
  {
    var cases' := cases + [(st, next)];
    if cases != [] {
      assert cases'[1..] == cases[1..] + [(st, next)];
      LookupAppend(cases[1..], default, st, next, s);
    }
  }

  lemma {:induction false} LookupIsCaseOrDefault(cases: seq<(UnwindState, BlockId)>, default: BlockId, st: UnwindState)
    ensures if CaseFor(cases, st) then (st, Lookup(cases, default, st)) in cases else Lookup(cases, default, st) == default
  {
    if cases != [] && cases[0].0 != st {
      LookupIsCaseOrDefault(cases[1..], default, st);
    }
  }

  /** Linking gives `st` a way to `next` unless it has a case already, and moves no other state. */
  lemma LinkMoves(term: Terminator, st: UnwindState, next: BlockId, s: UnwindState)
    requires Jumps(term)
    ensures var term' := Link(term, st, next);
      && JumpsKept(term, term')
      && (CasesOf(term') == CasesOf(term) || CasesOf(term') == CasesOf(term) + [(st, next)])
      && Successor(term', s) == if s == st && !HasCase(term, st) then next else Successor(term, s)
  {
    LookupAppend(CasesOf(term), DefaultOf(term), st, next, s);
    if term.Switch? {
      LookupIsCaseOrDefault(term.cases, term.default, st);
    }
  }

  // ----- Linking one stack entry -----

  /** `next` is where the entries below position `i` begin for state `st`. */
  predicate Ready(code: Code, g: Ledger, i: nat, st: UnwindState, next: BlockId)
    requires |g.role| == |code.blocks| && i <= |code.stack|
  {
    && next < |code.blocks|
    && (next, st) in g.planned
    && Rank(g.role[next]) <= 2 * i + 1
    && !g.role[next].Rest?
    && Skips(g.role[next].prefix, Kinds(code.stack)[..i], st)
    && Unwind(g.role[next].prefix, st) == Unwind(Kinds(code.stack)[..i], st)
    && CachedBelow(code.stack, i, st, next)
  }

  lemma UnwindActive(kinds: seq<Kind>, st: UnwindState)
    requires |kinds| > 0 && IsActive(kinds[|kinds| - 1], st) && !IsTerminator(kinds[|kinds| - 1])
    ensures Unwind(kinds, st) == Prepend([kinds[|kinds| - 1]], Unwind(kinds[..|kinds| - 1], st))
    ensures Unwind(kinds, st) == Prepend([], Unwind(kinds, st))
  {}

  lemma UnwindInactive(kinds: seq<Kind>, st: UnwindState)
    requires |kinds| > 0 && !IsActive(kinds[|kinds| - 1], st)
    ensures Unwind(kinds, st) == Unwind(kinds[..|kinds| - 1], st)
  {}

  lemma PrependNothing(outcome: Outcome)
    ensures Prepend([], outcome) == outcome
  {}

  /** What the invariant says about one cached entry. */
  predicate EntryOK(code: Code, g: Ledger, i: nat, st: UnwindState)
    requires |g.role| == |code.blocks| && i < |code.stack|
  {
    && st in code.stack[i].actionBlock
    && var range := code.stack[i].actionBlock[st];
    && RangeOK(code.blocks, g, Kinds(code.stack)[..i + 1], st, range)
    && (range.Blocks? <==> !IsTerminator(code.stack[i].kind))
    && FallsThrough(code, g, i, st)
    && (range.Blocks? ==>
          && CasesOK(code.blocks, g, range.end)
          && ((range.end, st) in g.planned ==> Wired(code.blocks, g, range.end, st)))
  }

  lemma EntryFacts(code: Code, g: Ledger, i: nat, st: UnwindState)
    requires Inv(code, g) && i < |code.stack| && st in code.stack[i].actionBlock
    ensures |g.role| == |code.blocks| && EntryOK(code, g, i, st)
  {
    assert CacheInRange(|code.blocks|, code.stack[i]);
    assert ActionOK(code.blocks, g, Kinds(code.stack)[..i + 1], code.stack[i]);
  }

  /** A cached entry's last block, its role and what is left to do there. */
  lemma EndOfRange(code: Code, g: Ledger, i: nat, st: UnwindState)
    requires |g.role| == |code.blocks| && i < |code.stack| && EntryOK(code, g, i, st)
    requires !IsTerminator(code.stack[i].kind)
    ensures var range := code.stack[i].actionBlock[st];
      && range.Blocks? && range.end < |code.blocks| && range.start < |code.blocks|
      && Jumps(code.blocks[range.end].term)
      && Linkable(g.role[range.end])
      && |g.role[range.end].prefix| == (if range.start == range.end then i + 1 else i)
      && |g.role[range.start].prefix| == i + 1
      && (range.start == range.end <==> g.role[range.end].Whole?)
  {}

  function PlanBoth(g: Ledger, end: BlockId, start: BlockId, st: UnwindState): Ledger {
    g.(planned := g.planned + {(end, st), (start, st)})
  }

  function LinkBlock(blocks: seq<Block>, e: BlockId, st: UnwindState, next: BlockId): (blocks': seq<Block>)
    requires e < |blocks|
    ensures |blocks'| == |blocks|
  {
    blocks[e := blocks[e].(term := Link(blocks[e].term, st, next))]
  }

  lemma LinkBlockExtends(blocks: seq<Block>, g: Ledger, e: BlockId, start: BlockId, st: UnwindState, next: BlockId, height: nat)
    requires |g.role| == |blocks| && e < |blocks| && start < |blocks|
    requires Jumps(blocks[e].term) && Linkable(g.role[e])
    requires |g.role[e].prefix| <= height && |g.role[start].prefix| <= height
    requires (e, st) in g.planned && !HasCase(blocks[e].term, st) ==> DefaultOf(blocks[e].term) == next
    ensures Extends(blocks, g, LinkBlock(blocks, e, st, next), PlanBoth(g, e, start, st), height)
  {
    hide Link, Lookup;
    var term := blocks[e].term;
    var blocks' := LinkBlock(blocks, e, st, next);
    LinkMoves(term, st, next, st);
    forall s ensures Successor(Link(term, st, next), s) == (if s == st && !HasCase(term, st) then next else Successor(term, s)) {
      LinkMoves(term, st, next, s);
    }
    LookupIsCaseOrDefault(CasesOf(term), DefaultOf(term), st);
    assert JumpsKept(term, blocks'[e].term);
    assert forall b :: 0 <= b < |blocks| && b != e ==> blocks'[b] == blocks[b];
    assert forall b, s :: (b, s) in g.planned && b < |blocks| && JumpsKept(blocks[b].term, blocks'[b].term) ==>
      Successor(blocks'[b].term, s) == Successor(blocks[b].term, s);
  }

  /** What linking needs to know about the block `e` it extends. */
  predicate CanLink(blocks: seq<Block>, g: Ledger, e: BlockId, st: UnwindState, next: BlockId)
    requires |g.role| == |blocks|
  {
    && e < |blocks| && next < |blocks|
    && Jumps(blocks[e].term) && Linkable(g.role[e])
    && (next, st) in g.planned
    && Rank(g.role[next]) < Rank(g.role[e])
    && g.role[e].exceptional == IsExceptionState(st)
    && RunsTop(g.role[e], blocks[e].events, st)
    && Skips(g.role[next].prefix, LeftOver(g.role[e]), st)
    && !g.role[next].Rest?
    && Unwind(g.role[e].prefix, st) == Prepend(blocks[e].events, Unwind(g.role[next].prefix, st))
    && ((e, st) in g.planned ==> Wired(blocks, g, e, st))
    && ((e, st) in g.planned && !HasCase(blocks[e].term, st) ==> DefaultOf(blocks[e].term) == next)
    && CasesOK(blocks, g, e)
  }

  lemma LinkBlockWired(blocks: seq<Block>, g: Ledger, e: BlockId, start: BlockId, st: UnwindState, next: BlockId)
    requires |g.role| == |blocks| && start < |blocks| && CanLink(blocks, g, e, st, next)
    ensures Wired(LinkBlock(blocks, e, st, next), PlanBoth(g, e, start, st), e, st)
    ensures CasesOK(LinkBlock(blocks, e, st, next), PlanBoth(g, e, start, st), e)
  {
    var term := blocks[e].term;
    var blocks' := LinkBlock(blocks, e, st, next);
    var g' := PlanBoth(g, e, start, st);
    LinkMoves(term, st, next, st);
    LookupIsCaseOrDefault(CasesOf(term), DefaultOf(term), st);
    if HasCase(term, st) {
      var c :| c in CasesOf(term) && c.0 == st;
      assert CaseOK(blocks, g, e, c);
      assert Follows(blocks, g, e, st, Successor(term, st));
    }
    var first := Successor(blocks'[e].term, st);
    assert Follows(blocks', g', e, st, first);
    if blocks'[e].term.Switch? {
      forall c <- blocks'[e].term.cases ensures CaseOK(blocks', g', e, c) {
        LinkMoves(term, st, next, c.0);
        if c in CasesOf(term) {
          assert CaseOK(blocks, g, e, c);
        } else {
          assert c == (st, next);
          SamePrefixed(blocks[e].events, Unwind(g.role[next].prefix, st), Unwind(g.role[first].prefix, st));
        }
      }
    }
  }

  lemma SamePrefixed(events: seq<Kind>, x: Outcome, y: Outcome)
    requires Prepend(events, x) == Prepend(events, y)
    ensures x == y
  {
    if x.Done? && y.Done? {
      assert (events + x.trace)[|events|..] == x.trace;
      assert (events + y.trace)[|events|..] == y.trace;
    }
  }

  // ----- Putting the invariant back together -----

  lemma {:induction false} TopActiveSameKinds(stack: seq<Action>, stack': seq<Action>, st: UnwindState, low: nat)
    requires Kinds(stack) == Kinds(stack') && low <= |stack|
    ensures |stack| == |stack'| && TopActive(stack, st, low) == TopActive(stack', st, low)
  {
    SameKindsSameTerminators(stack, stack', st);
    if |stack| > low {
      var rest, rest' := stack[..|stack| - 1], stack'[..|stack| - 1];
      assert Kinds(rest) == Kinds(stack)[..|stack| - 1];
      assert Kinds(rest') == Kinds(stack')[..|stack| - 1];
      TopActiveSameKinds(rest, rest', st, low);
    }
  }

  lemma CachedBelowKept(stack: seq<Action>, stack': seq<Action>, n: nat, i: nat, st: UnwindState, b: BlockId)
    requires Grows(stack, stack', n) && i <= |stack| && CachedBelow(stack, i, st, b)
    ensures i <= |stack'| && CachedBelow(stack', i, st, b)
  {
    SameKindsSameTerminators(stack, stack', st);
    assert Kinds(stack[..i]) == Kinds(stack)[..i] == Kinds(stack')[..i] == Kinds(stack'[..i]);
    TopActiveSameKinds(stack[..i], stack'[..i], st, 0);
  }

  /** A state that fell through keeps falling through to the same place. */
  lemma FallsKept(code: Code, g: Ledger, code': Code, g': Ledger, i: nat, st: UnwindState)
    requires |g.role| == |code.blocks| && |g'.role| == |code'.blocks|
    requires Keeps(code.blocks, g, code'.blocks, g')
    requires Grows(code.stack, code'.stack, |code.blocks|)
    requires i < |code.stack| && i < |code'.stack| && st in code.stack[i].actionBlock
    requires code.stack[i].actionBlock[st].Blocks? ==> (code.stack[i].actionBlock[st].end, st) in g.planned
    requires code.stack[i].actionBlock[st].Blocks? ==> code.stack[i].actionBlock[st].end < |code.blocks|
    requires code.stack[i].actionBlock[st].Blocks? ==> Jumps(code.blocks[code.stack[i].actionBlock[st].end].term)
    requires FallsThrough(code, g, i, st)
    ensures FallsThrough(code', g', i, st)
  {
    var range := code.stack[i].actionBlock[st];
    assert code'.stack[i].actionBlock[st] == range;
    if range.Blocks? {
      var term, term' := code.blocks[range.end].term, code'.blocks[range.end].term;
      assert term' == term || JumpsKept(term, term');
      if HasCase(term, st) {
        var c :| c in CasesOf(term) && c.0 == st;
        assert c in CasesOf(term');
      } else {
        CachedBelowKept(code.stack, code'.stack, |code.blocks|, i, st, DefaultOf(term));
      }
    }
  }

  /** The invariant survives a step that extends the ledger and wires up what it adds. */
  lemma InvAfter(code: Code, g: Ledger, code': Code, g': Ledger)
    requires Inv(code, g) && IsCode(code') && |g'.role| == |code'.blocks|
    requires Keeps(code.blocks, g, code'.blocks, g')
    requires Kinds(code'.stack) == Kinds(code.stack)
    requires forall b, s :: (b, s) in g'.planned && (b, s) !in g.planned ==> Wired(code'.blocks, g', b, s)
    requires forall b :: 0 <= b < |code'.blocks| && (b >= |code.blocks| || code'.blocks[b] != code.blocks[b]) ==>
      CasesOK(code'.blocks, g', b) && (Jumps(code'.blocks[b].term) ==> DefaultOf(code'.blocks[b].term) < |code'.blocks|)
    requires forall i :: 0 <= i < |code'.stack| ==>
      i < |code.stack| && (code'.stack[i] == code.stack[i] || ActionOK(code'.blocks, g', Kinds(code.stack)[..i + 1], code'.stack[i]))
    requires forall i, s :: 0 <= i < |code'.stack| ==> FallsThrough(code', g', i, s)
    ensures Inv(code', g')
  {
    forall b, s | (b, s) in g'.planned ensures Wired(code'.blocks, g', b, s) {
      if (b, s) in g.planned {
        assert Wired(code.blocks, g, b, s);
        WiredKept(code.blocks, g, code'.blocks, g', b, s);
      }
    }
    forall b | 0 <= b < |code'.blocks| ensures CasesOK(code'.blocks, g', b) {
      if b < |code.blocks| && code'.blocks[b] == code.blocks[b] {
        assert CasesOK(code.blocks, g, b);
        CasesKept(code.blocks, g, code'.blocks, g', b);
      }
    }
    forall i | 0 <= i < |code'.stack| ensures ActionOK(code'.blocks, g', Kinds(code'.stack)[..i + 1], code'.stack[i]) {
      if code'.stack[i] == code.stack[i] {
        assert ActionOK(code.blocks, g, Kinds(code.stack)[..i + 1], code.stack[i]);
        ActionKept(code.blocks, g, code'.blocks, g', Kinds(code.stack)[..i + 1], code.stack[i]);
      }
    }
  }

  /** Two cached entries at different positions never share their last block. */
  lemma EndsApart(code: Code, g: Ledger, i: nat, st: UnwindState, j: nat, s: UnwindState)
    requires |g.role| == |code.blocks| && i < |code.stack| && j < |code.stack|
    requires EntryOK(code, g, i, st) && EntryOK(code, g, j, s)
    requires !IsTerminator(code.stack[i].kind) && !IsTerminator(code.stack[j].kind)
    requires code.stack[i].actionBlock[st].end == code.stack[j].actionBlock[s].end
      || code.stack[i].actionBlock[st].start == code.stack[j].actionBlock[s].end
    ensures i == j
  {
    EndOfRange(code, g, i, st);
    EndOfRange(code, g, j, s);
  }

  /** What the last block of a cached entry does, and what it leaves to do. */
  lemma EndDoes(code: Code, g: Ledger, i: nat, st: UnwindState)
    requires |g.role| == |code.blocks| && i < |code.stack| && EntryOK(code, g, i, st)
    requires IsActive(code.stack[i].kind, st) && !IsTerminator(code.stack[i].kind)
    ensures var range := code.stack[i].actionBlock[st];
      && range.Blocks? && range.end < |code.blocks|
      && var role, events := g.role[range.end], code.blocks[range.end].events;
      && role.exceptional == IsExceptionState(st) && RunsTop(role, events, st)
      && LeftOver(role) == Kinds(code.stack)[..i]
      && Unwind(role.prefix, st) == Prepend(events, Unwind(LeftOver(role), st))
  {
    hide FallsThrough, CasesOK, Wired, Unwind, IsActive, IsTerminator, Kinds;
    KindAt(code.stack, i);
    var kinds := Kinds(code.stack)[..i + 1];
    assert kinds[..i] == Kinds(code.stack)[..i];
    UnwindActive(kinds, st);
    PrependNothing(Unwind(kinds[..i], st));
  }

  /** A planned state without a case falls through to what is ready. */
  lemma FallsToReady(code: Code, g: Ledger, i: nat, st: UnwindState, next: BlockId)
    requires |g.role| == |code.blocks| && i < |code.stack| && st in code.stack[i].actionBlock
    requires FallsThrough(code, g, i, st) && CachedBelow(code.stack, i, st, next)
    ensures var range := code.stack[i].actionBlock[st];
      range.Blocks? && range.end < |code.blocks| && (range.end, st) in g.planned && Jumps(code.blocks[range.end].term) ==>
        HasCase(code.blocks[range.end].term, st) || DefaultOf(code.blocks[range.end].term) == next
  {
    hide TopActive, HasCase;
  }

  /** The block at the end of a cached entry can be linked to what is ready below the entry. */
  lemma CachedCanLink(code: Code, g: Ledger, i: nat, st: UnwindState, next: BlockId)
    requires |g.role| == |code.blocks| && i < |code.stack| && EntryOK(code, g, i, st)
    requires IsActive(code.stack[i].kind, st) && !IsTerminator(code.stack[i].kind)
    requires Ready(code, g, i, st, next)
    ensures code.stack[i].actionBlock[st].Blocks?
    ensures CanLink(code.blocks, g, code.stack[i].actionBlock[st].end, st, next)
  {
    hide RangeOK, FallsThrough, CachedBelow, CasesOK, Wired, Unwind, Prepend, Skips, RunsTop, HasCase, IsActive;
    hide IsTerminator, Kinds, LeftOver;
    EndOfRange(code, g, i, st);
    EndDoes(code, g, i, st);
    FallsToReady(code, g, i, st, next);
  }

  /** Linking an entry whose blocks exist already. */
  lemma LinkExisting(code: Code, g: Ledger, i: nat, st: UnwindState, next: BlockId) returns (g': Ledger)
    requires Inv(code, g) && i < |code.stack| && st in code.stack[i].actionBlock
    requires IsActive(code.stack[i].kind, st) && !IsTerminator(code.stack[i].kind)
    requires Ready(code, g, i, st, next)
    ensures var (code', next') := LinkAction(code, i, st, next);
      && Inv(code', g')
      && Extends(code.blocks, g, code'.blocks, g', i + 1)
      && Grows(code.stack, code'.stack, |code.blocks|)
      && Ready(code', g', i + 1, st, next')
  {
    hide Inv;
    var range := code.stack[i].actionBlock[st];
    InvSizes(code, g);
    EntryFacts(code, g, i, st);
    EndOfRange(code, g, i, st);
    var code' := LinkAction(code, i, st, next).0;
    g' := PlanBoth(g, range.end, range.start, st);
    LinkExistingBlocks(code, g, i, st, next);
    forall j, s | 0 <= j < |code'.stack| ensures FallsThrough(code', g', j, s) {
      if s in code.stack[j].actionBlock {
        EntryFacts(code, g, j, s);
        LinkExistingFalls(code, g, i, st, next, j, s);
      }
    }
    InvAfterLink(code, g, i, st, next);
    ReadyAtActive(code', g', i, st);
  }

  lemma InvSizes(code: Code, g: Ledger)
    requires Inv(code, g)
    ensures IsCode(code) && |g.role| == |code.blocks|
    ensures forall b, s :: (b, s) in g.planned ==> b < |code.blocks|
  {
    forall b, s | (b, s) in g.planned ensures b < |code.blocks| {
      assert Wired(code.blocks, g, b, s);
    }
  }

  lemma LinkExistingBlocks(code: Code, g: Ledger, i: nat, st: UnwindState, next: BlockId)
    requires IsCode(code) && |g.role| == |code.blocks| && i < |code.stack| && EntryOK(code, g, i, st)
    requires IsActive(code.stack[i].kind, st) && !IsTerminator(code.stack[i].kind)
    requires Ready(code, g, i, st, next)
    ensures var range := code.stack[i].actionBlock[st];
      && range.Blocks?
      && var blocks' := LinkAction(code, i, st, next).0.blocks;
      && var g' := PlanBoth(g, range.end, range.start, st);
      && range.end < |code.blocks| && blocks' == LinkBlock(code.blocks, range.end, st, next)
      && Extends(code.blocks, g, blocks', g', i + 1)
      && Wired(blocks', g', range.end, st) && Wired(blocks', g', range.start, st)
      && CasesOK(blocks', g', range.end)
      && (Jumps(blocks'[range.end].term) && Jumps(code.blocks[range.end].term))
      && DefaultOf(blocks'[range.end].term) == DefaultOf(code.blocks[range.end].term)
  {
    hide Extends, IsCode, CasesOK, CachedBelow, FallsThrough, CanLink, Unwind, IsActive, IsTerminator, Prepend;
    hide HasCase, RangeOK;
    var range := code.stack[i].actionBlock[st];
    EndOfRange(code, g, i, st);
    CachedCanLink(code, g, i, st, next);
    FallsToReady(code, g, i, st, next);
    LinkBlockExtends(code.blocks, g, range.end, range.start, st, next, i + 1);
    LinkBlockWired(code.blocks, g, range.end, range.start, st, next);
    LinkMoves(code.blocks[range.end].term, st, next, st);
    if range.start != range.end {
      StartEnters(code, g, i, st, next);
    }
  }

  /** The first block of a scope-exit body still leads to its last one once that is linked. */
  lemma StartEnters(code: Code, g: Ledger, i: nat, st: UnwindState, next: BlockId)
    requires |g.role| == |code.blocks| && i < |code.stack| && EntryOK(code, g, i, st)
    requires IsActive(code.stack[i].kind, st) && !IsTerminator(code.stack[i].kind)
    requires var range := code.stack[i].actionBlock[st]; range.Blocks? && range.start != range.end
    ensures var range := code.stack[i].actionBlock[st];
      Wired(LinkBlock(code.blocks, range.end, st, next), PlanBoth(g, range.end, range.start, st), range.start, st)
  {
    hide CasesOK, CachedBelow, FallsThrough, Unwind, IsActive, IsTerminator, Prepend, HasCase, Link, Kinds;
    KindAt(code.stack, i);
    var kinds, range := Kinds(code.stack)[..i + 1], code.stack[i].actionBlock[st];
    UnwindActive(kinds, st);
    var blocks' := LinkBlock(code.blocks, range.end, st, next);
    assert Follows(blocks', PlanBoth(g, range.end, range.start, st), range.start, st, range.end);
  }

  lemma InvAfterLink(code: Code, g: Ledger, i: nat, st: UnwindState, next: BlockId)
    requires Inv(code, g) && i < |code.stack| && st in code.stack[i].actionBlock && EntryOK(code, g, i, st)
    requires IsActive(code.stack[i].kind, st) && !IsTerminator(code.stack[i].kind)
    requires Ready(code, g, i, st, next)
    requires var range := code.stack[i].actionBlock[st];
      && range.Blocks?
      && var code' := LinkAction(code, i, st, next).0;
      && forall j, s :: 0 <= j < |code'.stack| ==> FallsThrough(code', PlanBoth(g, range.end, range.start, st), j, s)
    ensures var range := code.stack[i].actionBlock[st];
      Inv(LinkAction(code, i, st, next).0, PlanBoth(g, range.end, range.start, st))
  {
    hide Inv, Keeps, FallsThrough, Wired, CasesOK, ActionOK, EntryOK, Ready;
    InvSizes(code, g);
    var range := code.stack[i].actionBlock[st];
    var code' := LinkAction(code, i, st, next).0;
    var g' := PlanBoth(g, range.end, range.start, st);
    LinkExistingBlocks(code, g, i, st, next);
    DefaultInRange(code, g, range.end);
    InvAfter(code, g, code', g');
  }

  lemma DefaultInRange(code: Code, g: Ledger, b: BlockId)
    requires Inv(code, g) && b < |code.blocks| && Jumps(code.blocks[b].term)
    ensures DefaultOf(code.blocks[b].term) < |code.blocks|
  {}

  lemma LinkExistingFalls(code: Code, g: Ledger, i: nat, st: UnwindState, next: BlockId, j: nat, s: UnwindState)
    requires IsCode(code) && |g.role| == |code.blocks| && i < |code.stack| && j < |code.stack|
    requires EntryOK(code, g, i, st) && EntryOK(code, g, j, s)
    requires IsActive(code.stack[i].kind, st) && !IsTerminator(code.stack[i].kind)
    requires Ready(code, g, i, st, next)
    ensures var range := code.stack[i].actionBlock[st];
      range.Blocks? && FallsThrough(LinkAction(code, i, st, next).0, PlanBoth(g, range.end, range.start, st), j, s)
  {
    hide IsCode, Wired, CasesOK, RangeOK, Unwind, Keeps;
    var range := code.stack[i].actionBlock[st];
    var code' := LinkAction(code, i, st, next).0;
    var g' := PlanBoth(g, range.end, range.start, st);
    EndOfRange(code, g, i, st);
    LinkExistingBlocks(code, g, i, st, next);
    var there := code.stack[j].actionBlock[s];
    if there.Blocks? {
      EndOfRange(code, g, j, s);
      if (there.end, s) in g.planned {
        FallsKept(code, g, code', g', j, s);
      } else if (there.end, s) in g'.planned {
        EndsApart(code, g, i, st, j, s);
        LinkMoves(code.blocks[range.end].term, st, next, st);
      }
    }
  }

  /** Just above an active entry with cached, planned blocks, those blocks are where to begin. */
  lemma ReadyAtActive(code: Code, g: Ledger, i: nat, st: UnwindState)
    requires Inv(code, g) && i < |code.stack| && IsActive(code.stack[i].kind, st)
    requires st in code.stack[i].actionBlock && (code.stack[i].actionBlock[st].start, st) in g.planned
    ensures |g.role| == |code.blocks| && Ready(code, g, i + 1, st, code.stack[i].actionBlock[st].start)
  {
    hide Inv, Unwind, IsActive, Kinds, SharesCache;
    ActionFacts(code, g, i);
    KindAt(code.stack, i);
    assert RangeOK(code.blocks, g, Kinds(code.stack)[..i + 1], st, code.stack[i].actionBlock[st]);
    assert code.stack[..i + 1][..i] == code.stack[..i];
  }

  lemma KindAt(stack: seq<Action>, i: nat)
    requires i < |stack|
    ensures |Kinds(stack)| == |stack| && Kinds(stack)[..i + 1][i] == stack[i].kind
  {}

  // ----- Adding blocks and caching them -----

  lemma SharingIsSymmetric(kind: Kind, st: UnwindState, s: UnwindState)
    requires CanSetActionBlock(kind, st) && s in SharingStates(kind, st)
    ensures CanSetActionBlock(kind, s) && SharingStates(kind, s) == SharingStates(kind, st) && st in SharingStates(kind, s)
  {}

  lemma SharedSameClass(kind: Kind, st: UnwindState, s: UnwindState)
    requires CanSetActionBlock(kind, st) && s in SharingStates(kind, st)
    ensures IsExceptionState(s) == IsExceptionState(st)
  {}

  function WithBlocks(g: Ledger, roles: seq<Role>, planned: set<(BlockId, UnwindState)>): Ledger {
    Ledger(g.role + roles, g.planned + planned)
  }

  /** New blocks, with the pairs newly planned on them, extend the ledger. */
  lemma AddedExtends(blocks: seq<Block>, g: Ledger, added: seq<Block>, roles: seq<Role>, planned: set<(BlockId, UnwindState)>)
    requires |g.role| == |blocks| && |added| == |roles|
    requires forall p <- planned :: p in g.planned || p.0 >= |blocks|
    ensures Extends(blocks, g, blocks + added, WithBlocks(g, roles, planned), 0)
  {}

  /** Storing a range for `st` fills slots that were empty, for all states sharing it. */
  lemma StoreFillsEmpty(action: Action, st: UnwindState, range: BlockRange)
    requires SharesCache(action) && CanSetActionBlock(action.kind, st) && st !in action.actionBlock
    ensures var action' := SetActionBlock(action, st, range);
      && SharesCache(action')
      && (forall s <- action.actionBlock :: s in action'.actionBlock && action'.actionBlock[s] == action.actionBlock[s])
      && (forall s <- action'.actionBlock :: s in action.actionBlock || (s in SharingStates(action.kind, st) && action'.actionBlock[s] == range))
  {
    hide SharingStates, CanSetActionBlock;
    SharingIncludesSelf(action.kind, st);
    var action' := SetActionBlock(action, st, range);
    forall s <- SharingStates(action.kind, st) ensures s !in action.actionBlock {
      SharingIsSymmetric(action.kind, st, s);
    }
    forall s <- action'.actionBlock
      ensures CanSetActionBlock(action.kind, s)
      ensures forall s' <- SharingStates(action.kind, s) :: s' in action'.actionBlock && action'.actionBlock[s'] == action'.actionBlock[s]
    {
      if s in SharingStates(action.kind, st) {
        SharingIsSymmetric(action.kind, st, s);
      } else {
        forall s' <- SharingStates(action.kind, s) ensures s' !in SharingStates(action.kind, st) {
          SharingIsSymmetric(action.kind, s, s');
          if s' in SharingStates(action.kind, st) {
            SharingIsSymmetric(action.kind, st, s');
          }
        }
      }
    }
  }

  /** What must hold of a range cached at `i`, in the new state of the graph. */
  predicate Cacheable(code: Code, g: Ledger, i: nat, st: UnwindState, range: BlockRange)
    requires |g.role| == |code.blocks| && i < |code.stack|
  {
    && CanSetActionBlock(code.stack[i].kind, st)
    && (range.Blocks? <==> !IsTerminator(code.stack[i].kind))
    && forall s <- SharingStates(code.stack[i].kind, st) ::
         && RangeOK(code.blocks, g, Kinds(code.stack)[..i + 1], s, range)
         && (range.Blocks? && (range.end, s) in g.planned && Jumps(code.blocks[range.end].term) ==>
               HasCase(code.blocks[range.end].term, s) || CachedBelow(code.stack, i, s, DefaultOf(code.blocks[range.end].term)))
  }

  function Cached(code: Code, i: nat, st: UnwindState, range: BlockRange): Code
    requires i < |code.stack| && CanSetActionBlock(code.stack[i].kind, st)
  {
    code.(stack := code.stack[i := SetActionBlock(code.stack[i], st, range)])
  }

  /** The entry with the range stored, and the stack around it. */
  lemma CachedAction(code: Code, g: Ledger, i: nat, st: UnwindState, range: BlockRange)
    requires IsCode(code) && |g.role| == |code.blocks| && i < |code.stack| && st !in code.stack[i].actionBlock
    requires ActionOK(code.blocks, g, Kinds(code.stack)[..i + 1], code.stack[i])
    requires Cacheable(code, g, i, st, range)
    ensures var code' := Cached(code, i, st, range);
      && IsCode(code') && Kinds(code'.stack) == Kinds(code.stack)
      && ActionOK(code.blocks, g, Kinds(code.stack)[..i + 1], code'.stack[i])
      && Grows(code.stack, code'.stack, range.start)
      && (forall s <- code'.stack[i].actionBlock :: s in code.stack[i].actionBlock ||
            (s in SharingStates(code.stack[i].kind, st) && code'.stack[i].actionBlock[s] == range))
  {
    SharingIncludesSelf(code.stack[i].kind, st);
    assert RangeOK(code.blocks, g, Kinds(code.stack)[..i + 1], st, range);
    CachingKeepsCode(code, code.blocks, i, st, range);
    StoreFillsEmpty(code.stack[i], st, range);
  }

  lemma CachedFalls(code: Code, g: Ledger, i: nat, st: UnwindState, range: BlockRange, j: nat, s: UnwindState)
    requires IsCode(code) && |g.role| == |code.blocks| && i < |code.stack| && j < |code.stack|
    requires st !in code.stack[i].actionBlock && Cacheable(code, g, i, st, range)
    requires ActionOK(code.blocks, g, Kinds(code.stack)[..i + 1], code.stack[i])
    requires s in code.stack[j].actionBlock ==> EntryOK(code, g, j, s)
    ensures FallsThrough(Cached(code, i, st, range), g, j, s)
  {
    hide RangeOK;
    var code' := Cached(code, i, st, range);
    CachedAction(code, g, i, st, range);
    if s in code.stack[j].actionBlock {
      FallsGrown(code, g, code', j, s);
    } else if s in code'.stack[j].actionBlock {
      CachedBelowGrown(code, code', range, i, s);
    }
  }

  /** Caching the blocks of an entry keeps the invariant. */
  lemma CacheKeepsInv(code: Code, g: Ledger, i: nat, st: UnwindState, range: BlockRange)
    requires Inv(code, g) && i < |code.stack| && st !in code.stack[i].actionBlock
    requires |g.role| == |code.blocks| && Cacheable(code, g, i, st, range)
    ensures Inv(Cached(code, i, st, range), g)
    ensures Grows(code.stack, Cached(code, i, st, range).stack, range.start)
  {
    hide Inv, RangeOK, FallsThrough, ActionOK, EntryOK, Grows;
    InvSizes(code, g);
    ActionFacts(code, g, i);
    var code' := Cached(code, i, st, range);
    CachedAction(code, g, i, st, range);
    forall j, s | 0 <= j < |code'.stack| ensures FallsThrough(code', g, j, s) {
      if s in code.stack[j].actionBlock {
        EntryFacts(code, g, j, s);
      }
      CachedFalls(code, g, i, st, range, j, s);
    }
    InvAfterCaching(code, g, code');
  }

  lemma SharingIncludesSelf(kind: Kind, st: UnwindState)
    requires CanSetActionBlock(kind, st)
    ensures st in SharingStates(kind, st)
  {}

  lemma ActionFacts(code: Code, g: Ledger, i: nat)
    requires Inv(code, g) && i < |code.stack|
    ensures |g.role| == |code.blocks| && ActionOK(code.blocks, g, Kinds(code.stack)[..i + 1], code.stack[i])
  {}

  lemma SameBlocksExtends(blocks: seq<Block>, g: Ledger)
    requires |g.role| == |blocks|
    ensures Extends(blocks, g, blocks, g, 0)
  {}

  lemma FallsGrown(code: Code, g: Ledger, code': Code, j: nat, s: UnwindState)
    requires |g.role| == |code.blocks| && code'.blocks == code.blocks
    requires Grows(code.stack, code'.stack, 0) && j < |code.stack| && j < |code'.stack|
    requires EntryOK(code, g, j, s)
    ensures FallsThrough(code', g, j, s)
  {
    var there := code.stack[j].actionBlock[s];
    if there.Blocks? && (there.end, s) in g.planned {
      EndOfRange(code, g, j, s);
      var term := code.blocks[there.end].term;
      if !HasCase(term, s) {
        CachedBelowKept(code.stack, code'.stack, 0, j, s, DefaultOf(term));
      }
    }
  }

  lemma CachedBelowGrown(code: Code, code': Code, range: BlockRange, i: nat, s: UnwindState)
    requires Grows(code.stack, code'.stack, 0) && i <= |code.stack| && i <= |code'.stack|
    ensures forall b :: CachedBelow(code.stack, i, s, b) ==> CachedBelow(code'.stack, i, s, b)
  {
    forall b | CachedBelow(code.stack, i, s, b) ensures CachedBelow(code'.stack, i, s, b) {
      CachedBelowKept(code.stack, code'.stack, 0, i, s, b);
    }
  }

  lemma InvAfterCaching(code: Code, g: Ledger, code': Code)
    requires Inv(code, g) && IsCode(code') && code'.blocks == code.blocks && Kinds(code'.stack) == Kinds(code.stack)
    requires forall i :: 0 <= i < |code'.stack| ==>
      i < |code.stack| && (code'.stack[i] == code.stack[i] || ActionOK(code'.blocks, g, Kinds(code.stack)[..i + 1], code'.stack[i]))
    requires forall j, s :: 0 <= j < |code'.stack| ==> FallsThrough(code', g, j, s)
    ensures Inv(code', g)
  {
    SameBlocksExtends(code.blocks, g);
    InvAfter(code, g, code', g);
  }

  /** Appending wired blocks, none of them a switch, keeps the invariant. */
  lemma AppendKeepsInv(code: Code, g: Ledger, added: seq<Block>, roles: seq<Role>, planned: set<(BlockId, UnwindState)>)
    requires Inv(code, g) && |g.role| == |code.blocks| && |added| == |roles|
    requires forall p <- planned :: p.0 >= |code.blocks|
    requires forall p <- planned :: Wired(code.blocks + added, WithBlocks(g, roles, planned), p.0, p.1)
    requires forall block <- added :: !block.term.Switch? && (block.term.Br? ==> block.term.target < |code.blocks| + |added|)
    requires forall b :: |code.blocks| <= b < |code.blocks| + |added| ==> DefaultOK(code.blocks + added, WithBlocks(g, roles, planned), b)
    ensures Inv(Code(code.blocks + added, code.stack), WithBlocks(g, roles, planned))
    ensures Extends(code.blocks, g, code.blocks + added, WithBlocks(g, roles, planned), 0)
  {
    hide Inv, FallsThrough, ActionOK, Wired;
    var code' := Code(code.blocks + added, code.stack);
    var g' := WithBlocks(g, roles, planned);
    InvSizes(code, g);
    AddedExtends(code.blocks, g, added, roles, planned);
    forall i | 0 <= i < |code.stack| ensures CacheInRange(|code'.blocks|, code.stack[i]) {
      assert CacheInRange(|code.blocks|, code.stack[i]);
    }
    forall j, s | 0 <= j < |code'.stack| ensures FallsThrough(code', g', j, s) {
      AppendedFalls(code, g, added, roles, planned, j, s);
    }
    InvAfterAppending(code, g, code', g');
  }

  lemma AppendedFalls(code: Code, g: Ledger, added: seq<Block>, roles: seq<Role>,
          planned: set<(BlockId, UnwindState)>, j: nat, s: UnwindState)
    requires Inv(code, g) && |g.role| == |code.blocks| && |added| == |roles| && j < |code.stack|
    requires forall p <- planned :: p.0 >= |code.blocks|
    ensures FallsThrough(Code(code.blocks + added, code.stack), WithBlocks(g, roles, planned), j, s)
  {
    hide Inv;
    if s in code.stack[j].actionBlock {
      EntryFacts(code, g, j, s);
      var range := code.stack[j].actionBlock[s];
      if range.Blocks? {
        EndOfRange(code, g, j, s);
      }
    }
  }

  lemma InvAfterAppending(code: Code, g: Ledger, code': Code, g': Ledger)
    requires Inv(code, g) && IsCode(code') && |g.role| == |code.blocks| && |g'.role| == |code'.blocks|
    requires code.blocks <= code'.blocks && code'.stack == code.stack
    requires Extends(code.blocks, g, code'.blocks, g', 0)
    requires forall b, s :: (b, s) in g'.planned && (b, s) !in g.planned ==> Wired(code'.blocks, g', b, s)
    requires forall b :: |code.blocks| <= b < |code'.blocks| ==>
      !code'.blocks[b].term.Switch? && (code'.blocks[b].term.Br? ==> code'.blocks[b].term.target < |code'.blocks|)
    requires forall b :: |code.blocks| <= b < |code'.blocks| ==> DefaultOK(code'.blocks, g', b)
    requires forall j, s :: 0 <= j < |code'.stack| ==> FallsThrough(code', g', j, s)
    ensures Inv(code', g')
  {
    hide Inv, Keeps, FallsThrough, ActionOK, Wired;
    InvAfter(code, g, code', g');
  }

  // ----- Generating the blocks of one stack entry -----

  function NewActionRoles(kinds: seq<Kind>, exceptional: bool): seq<Role>
    requires |kinds| > 0
  {
    if kinds[|kinds| - 1].ScopeExit? then [Enter(kinds, exceptional), Rest(kinds[..|kinds| - 1], exceptional)]
    else [Whole(kinds, exceptional)]
  }

  /** New blocks for the entry at `i` are wired for the state they were generated for. */
  lemma NewBlocksWired(code: Code, g: Ledger, i: nat, st: UnwindState, next: BlockId)
    requires |g.role| == |code.blocks| && i < |code.stack|
    requires IsActive(code.stack[i].kind, st) && !IsTerminator(code.stack[i].kind)
    requires Ready(code, g, i, st, next)
    ensures var kinds := Kinds(code.stack)[..i + 1];
      var (added, range) := NewActionBlocks(code.stack[i].kind, |code.blocks|, next);
      var planned := {(range.start, st), (range.end, st)};
      var g' := WithBlocks(g, NewActionRoles(kinds, IsExceptionState(st)), planned);
      && |added| == |NewActionRoles(kinds, IsExceptionState(st))|
      && range.Blocks? && range.start == |code.blocks| && range.end < |code.blocks| + |added|
      && Wired(code.blocks + added, g', range.start, st) && Wired(code.blocks + added, g', range.end, st)
      && (code.blocks + added)[range.end].term == Br(next)
      && DefaultOK(code.blocks + added, g', range.start) && DefaultOK(code.blocks + added, g', range.end)
      && forall s :: IsExceptionState(s) == IsExceptionState(st) ==> RangeOK(code.blocks + added, g', kinds, s, range)
  {
    hide Unwind, IsActive, IsTerminator, CachedBelow, Kinds, Prepend;
    KindAt(code.stack, i);
    var kinds := Kinds(code.stack)[..i + 1];
    assert kinds[..i] == Kinds(code.stack)[..i];
    var (added, range) := NewActionBlocks(code.stack[i].kind, |code.blocks|, next);
    var g' := WithBlocks(g, NewActionRoles(kinds, IsExceptionState(st)), {(range.start, st), (range.end, st)});
    var blocks' := code.blocks + added;
    UnwindActive(kinds, st);
    PrependNothing(Unwind(g.role[next].prefix, st));
    assert g'.role[next] == g.role[next];
    assert Follows(blocks', g', range.end, st, next);
    if range.start != range.end {
      assert Follows(blocks', g', range.start, st, range.end);
    }
  }

  lemma ReadyBelow(code: Code, g: Ledger, i: nat, st: UnwindState, next: BlockId)
    requires |g.role| == |code.blocks| && i <= |code.stack| && Ready(code, g, i, st, next)
    ensures CachedBelow(code.stack, i, st, next) && next < |code.blocks|
  {}

  /** Generating the blocks of an entry that has none for the state. */
  lemma LinkNew(code: Code, g: Ledger, i: nat, st: UnwindState, next: BlockId) returns (g': Ledger)
    requires Inv(code, g) && i < |code.stack| && st !in code.stack[i].actionBlock
    requires IsActive(code.stack[i].kind, st) && !IsTerminator(code.stack[i].kind)
    requires |g.role| == |code.blocks| && Ready(code, g, i, st, next)
    ensures IsCode(code)
    ensures var (code', next') := LinkAction(code, i, st, next);
      && Inv(code', g') && |g'.role| == |code'.blocks|
      && Extends(code.blocks, g, code'.blocks, g', i + 1)
      && Grows(code.stack, code'.stack, |code.blocks|)
      && Ready(code', g', i + 1, st, next')
  {
    hide Inv, RangeOK, Wired, FallsThrough, Extends, Grows, Ready, Unwind, DefaultOK, CacheInRange, CachedBelow;
    hide IsActive;
    InvSizes(code, g);
    ReadyBelow(code, g, i, st, next);
    var kinds := Kinds(code.stack)[..i + 1];
    var (added, range) := NewActionBlocks(code.stack[i].kind, |code.blocks|, next);
    var planned := {(range.start, st), (range.end, st)};
    ActiveCanSet(code.stack[i].kind, st);
    NewBlocksWired(code, g, i, st, next);
    AppendKeepsInv(code, g, added, NewActionRoles(kinds, IsExceptionState(st)), planned);
    g' := WithBlocks(g, NewActionRoles(kinds, IsExceptionState(st)), planned);
    var code1 := Code(code.blocks + added, code.stack);
    forall s <- SharingStates(code.stack[i].kind, st)
      ensures RangeOK(code1.blocks, g', kinds, s, range)
      ensures (range.end, s) in g'.planned ==> CachedBelow(code1.stack, i, s, next)
    {
      SharedSameClass(code.stack[i].kind, st, s);
      assert (range.end, s) in g'.planned ==> s == st;
    }
    assert Cacheable(code1, g', i, st, range);
    CacheKeepsInv(code1, g', i, st, range);
    var code' := LinkAction(code, i, st, next).0;
    assert code' == Cached(code1, i, st, range);
    SharingIncludesSelf(code.stack[i].kind, st);
    ReadyAtActive(code', g', i, st);
    ExtendsHigher(code.blocks, g, code'.blocks, g', 0, i + 1);
  }

  lemma ExtendsHigher(blocks: seq<Block>, g: Ledger, blocks': seq<Block>, g': Ledger, low: nat, high: nat)
    requires |g.role| == |blocks| && |g'.role| == |blocks'| && low <= high
    requires Extends(blocks, g, blocks', g', low)
    ensures Extends(blocks, g, blocks', g', high)
  {}

  lemma ExtendsTransitive(b0: seq<Block>, g0: Ledger, b1: seq<Block>, g1: Ledger, b2: seq<Block>, g2: Ledger, height: nat)
    requires |g0.role| == |b0| && |g1.role| == |b1| && |g2.role| == |b2|
    requires Extends(b0, g0, b1, g1, height) && Extends(b1, g1, b2, g2, height)
    ensures Extends(b0, g0, b2, g2, height)
  {
    assert forall b :: 0 <= b < |b0| ==> g1.role[b] == g0.role[b];
    forall b, s | (b, s) in g0.planned && b < |b0| && JumpsKept(b0[b].term, b2[b].term)
      ensures Successor(b2[b].term, s) == Successor(b0[b].term, s)
    {
      assert JumpsKept(b0[b].term, b1[b].term);
      assert JumpsKept(b1[b].term, b2[b].term);
    }
  }

  lemma GrowsTransitive(s0: seq<Action>, s1: seq<Action>, s2: seq<Action>, n: nat, m: nat)
    requires Grows(s0, s1, n) && Grows(s1, s2, m) && n <= m
    ensures Grows(s0, s2, n)
  {
    SameKindsSameTerminators(s0, s1, Normal);
  }

  /** The rest of the stack, cut off at `pos`, is a stack of its own with the same graph. */
  lemma InvOfPrefix(code: Code, g: Ledger, pos: nat)
    requires Inv(code, g) && 0 < pos <= |code.stack|
    ensures Inv(Code(code.blocks, code.stack[..pos]), g)
  {
    var cut := Code(code.blocks, code.stack[..pos]);
    forall i | 0 <= i < pos ensures ActionOK(cut.blocks, g, Kinds(cut.stack)[..i + 1], cut.stack[i]) {
      assert ActionOK(code.blocks, g, Kinds(code.stack)[..i + 1], code.stack[i]);
      assert Kinds(cut.stack)[..i + 1] == Kinds(code.stack)[..i + 1];
    }
    forall i, s | 0 <= i < pos ensures FallsThrough(cut, g, i, s) {
      assert FallsThrough(code, g, i, s);
      assert code.stack[..pos][..i] == code.stack[..i];
    }
    assert forall i :: 0 <= i < pos ==> CacheInRange(|cut.blocks|, cut.stack[i]);
  }

  /** A block below is cached in the longer-lived stack if it was there before the copy was made. */
  lemma CachedBelowRestored(stack: seq<Action>, copy: seq<Action>, pos: nat, n: nat, j: nat, s: UnwindState, b: BlockId)
    requires pos <= |stack| && j <= pos && Grows(stack[..pos], copy, n) && |copy| == pos
    requires CachedBelow(copy, j, s, b) && b < n
    ensures CachedBelow(stack, j, s, b)
  {
    SameKindsSameTerminators(stack[..pos], copy, s);
    assert stack[..pos][..j] == stack[..j];
    assert Kinds(stack[..j]) == Kinds(stack[..pos])[..j] == Kinds(copy)[..j] == Kinds(copy[..j]);
    TopActiveSameKinds(stack[..j], copy[..j], s, 0);
  }

  lemma RestoredFalls(code: Code, g: Ledger, inner: Code, g': Ledger, pos: nat, j: nat, s: UnwindState)
    requires |g.role| == |code.blocks| && |g'.role| == |inner.blocks| && IsCode(code)
    requires 0 < pos < |code.stack| && IsTerminator(code.stack[pos].kind) && |inner.stack| == pos && j < |code.stack|
    requires Extends(code.blocks, g, inner.blocks, g', pos)
    requires Grows(code.stack[..pos], inner.stack, |code.blocks|)
    requires s in code.stack[j].actionBlock ==> EntryOK(code, g, j, s)
    requires j < pos && s in code.stack[j].actionBlock ==> FallsThrough(inner, g', j, s)
    requires s in code.stack[j].actionBlock && code.stack[j].actionBlock[s].Blocks? ==>
      var e := code.stack[j].actionBlock[s].end;
      e < |code.blocks| && (Jumps(code.blocks[e].term) ==> DefaultOf(code.blocks[e].term) < |code.blocks|)
    ensures FallsThrough(Code(inner.blocks, code.stack), g', j, s)
  {
    var code' := Code(inner.blocks, code.stack);
    if s in code.stack[j].actionBlock && code.stack[j].actionBlock[s].Blocks? {
      var range := code.stack[j].actionBlock[s];
      EndOfRange(code, g, j, s);
      if (range.end, s) in g.planned {
        FallsKept(code, g, code', g', j, s);
      } else if (range.end, s) in g'.planned {
        assert |g.role[range.end].prefix| <= pos;
        assert j < pos;
        assert code.stack[..pos][j] == code.stack[j];
        assert inner.stack[j].actionBlock[s] == range;
        var term, term' := code.blocks[range.end].term, inner.blocks[range.end].term;
        if !HasCase(term', s) {
          CachedBelowRestored(code.stack, inner.stack, pos, |code.blocks|, j, s, DefaultOf(term));
        }
      }
    }
  }

  /** Dropping a copy of the stack keeps what was generated with it. */
  lemma RestoreKeepsInv(code: Code, g: Ledger, inner: Code, g': Ledger, pos: nat)
    requires Inv(code, g) && Inv(inner, g')
    requires |g.role| == |code.blocks| && |g'.role| == |inner.blocks|
    requires 0 < pos < |code.stack| && IsTerminator(code.stack[pos].kind)
    requires Extends(code.blocks, g, inner.blocks, g', pos)
    requires Grows(code.stack[..pos], inner.stack, |code.blocks|)
    ensures Inv(Code(inner.blocks, code.stack), g')
  {
    hide Inv, FallsThrough, EntryOK, ActionOK, Wired;
    InvSizes(code, g);
    InvSizes(inner, g');
    SameKindsSameTerminators(code.stack[..pos], inner.stack, Throw);
    var code' := Code(inner.blocks, code.stack);
    forall j, s | 0 <= j < |code'.stack| ensures FallsThrough(code', g', j, s) {
      if s in code.stack[j].actionBlock {
        EntryFacts(code, g, j, s);
        assert CacheInRange(|code.blocks|, code.stack[j]);
        if code.stack[j].actionBlock[s].Blocks? && Jumps(code.blocks[code.stack[j].actionBlock[s].end].term) {
          DefaultInRange(code, g, code.stack[j].actionBlock[s].end);
        }
      }
      if j < pos {
        FallsFact(inner, g', j, s);
      }
      RestoredFalls(code, g, inner, g', pos, j, s);
    }
    InvAfterRestore(code, g, inner, g');
  }

  lemma FallsFact(code: Code, g: Ledger, j: nat, s: UnwindState)
    requires Inv(code, g) && j < |code.stack|
    ensures |g.role| == |code.blocks| && FallsThrough(code, g, j, s)
  {}

  lemma InvAfterRestore(code: Code, g: Ledger, inner: Code, g': Ledger)
    requires Inv(code, g) && Inv(inner, g')
    requires |g.role| == |code.blocks| && |g'.role| == |inner.blocks| && Keeps(code.blocks, g, inner.blocks, g')
    requires var code' := Code(inner.blocks, code.stack);
      forall j, s :: 0 <= j < |code'.stack| ==> FallsThrough(code', g', j, s)
    ensures Inv(Code(inner.blocks, code.stack), g')
  {
    hide FallsThrough, Keeps;
    var code' := Code(inner.blocks, code.stack);
    forall i | 0 <= i < |code.stack| ensures CacheInRange(|inner.blocks|, code.stack[i]) {
      assert CacheInRange(|code.blocks|, code.stack[i]);
      LongerWhenKept(code.blocks, g, inner.blocks, g');
    }
    InvAfter(code, g, code', g');
  }

  lemma LongerWhenKept(blocks: seq<Block>, g: Ledger, blocks': seq<Block>, g': Ledger)
    requires |g.role| == |blocks| && |g'.role| == |blocks'| && Keeps(blocks, g, blocks', g')
    ensures |blocks| <= |blocks'|
  {}

  // ----- Terminators -----

  /** Filling in an open block with something that is not a jump keeps the invariant. */
  lemma FillKeepsInv(code: Code, g: Ledger, b: BlockId, term: Terminator)
    requires Inv(code, g) && b < |code.blocks| && code.blocks[b] == Block([], Open) && !Jumps(term)
    ensures |g.role| == |code.blocks|
    ensures forall s :: (b, s) !in g.planned
    ensures Inv(Code(code.blocks[b := Block([], term)], code.stack), g)
  {
    hide Inv, FallsThrough, ActionOK, CasesOK;
    InvSizes(code, g);
    var code' := Code(code.blocks[b := Block([], term)], code.stack);
    forall s ensures (b, s) !in g.planned {
      OpenIsUnplanned(code, g, b, s);
    }
    assert Keeps(code.blocks, g, code'.blocks, g);
    forall i | 0 <= i < |code.stack| ensures CacheInRange(|code'.blocks|, code.stack[i]) {
      assert CacheInRange(|code.blocks|, code.stack[i]);
    }
    forall j, s | 0 <= j < |code'.stack| ensures FallsThrough(code', g, j, s) {
      FilledFalls(code, g, b, term, j, s);
    }
    InvAfterFill(code, g, code', b);
  }

  lemma OpenIsUnplanned(code: Code, g: Ledger, b: BlockId, s: UnwindState)
    requires Inv(code, g) && b < |code.blocks| && code.blocks[b].term.Open?
    ensures (b, s) !in g.planned
  {}

  lemma FilledFalls(code: Code, g: Ledger, b: BlockId, term: Terminator, j: nat, s: UnwindState)
    requires Inv(code, g) && b < |code.blocks| && code.blocks[b] == Block([], Open) && !Jumps(term) && j < |code.stack|
    ensures |g.role| == |code.blocks|
    ensures FallsThrough(Code(code.blocks[b := Block([], term)], code.stack), g, j, s)
  {
    hide Inv;
    InvSizes(code, g);
    if s in code.stack[j].actionBlock {
      EntryFacts(code, g, j, s);
      var range := code.stack[j].actionBlock[s];
      if range.Blocks? {
        EndOfRange(code, g, j, s);
      }
    }
  }

  lemma InvAfterFill(code: Code, g: Ledger, code': Code, b: BlockId)
    requires Inv(code, g) && IsCode(code') && |g.role| == |code.blocks| && |code'.blocks| == |code.blocks|
    requires code'.stack == code.stack && b < |code.blocks| && !Jumps(code'.blocks[b].term)
    requires forall c :: 0 <= c < |code.blocks| && c != b ==> code'.blocks[c] == code.blocks[c]
    requires Keeps(code.blocks, g, code'.blocks, g)
    requires forall j, s :: 0 <= j < |code'.stack| ==> FallsThrough(code', g, j, s)
    ensures Inv(code', g)
  {
    hide Inv, FallsThrough, ActionOK, Keeps, Wired;
    InvAfter(code, g, code', g);
  }

  /** Planning a wired block that ends the unwind keeps the invariant. */
  lemma PlanKeepsInv(code: Code, g: Ledger, b: BlockId, st: UnwindState)
    requires Inv(code, g) && |g.role| == |code.blocks| && b < |code.blocks| && !Jumps(code.blocks[b].term)
    requires Wired(code.blocks, WithBlocks(g, [], {(b, st)}), b, st)
    ensures Inv(code, WithBlocks(g, [], {(b, st)}))
  {
    hide Inv, FallsThrough, ActionOK, Wired;
    var g' := WithBlocks(g, [], {(b, st)});
    InvSizes(code, g);
    assert Keeps(code.blocks, g, code.blocks, g');
    forall j, s | 0 <= j < |code.stack| ensures FallsThrough(code, g', j, s) {
      PlannedFalls(code, g, b, st, j, s);
    }
    InvAfter(code, g, code, g');
  }

  lemma PlannedFalls(code: Code, g: Ledger, b: BlockId, st: UnwindState, j: nat, s: UnwindState)
    requires Inv(code, g) && |g.role| == |code.blocks| && b < |code.blocks| && !Jumps(code.blocks[b].term)
    requires j < |code.stack|
    ensures FallsThrough(code, WithBlocks(g, [], {(b, st)}), j, s)
  {
    FallsFact(code, g, j, s);
  }

  /** The terminator's block, new or cached, is where to begin just above it. */
  predicate TopReady(code: Code, g: Ledger, pos: nat, st: UnwindState, code': Code, g': Ledger, next: BlockId)
    requires |g.role| == |code.blocks| && pos < |code.stack|
  {
    && |g'.role| == |code'.blocks|
    && pos + 1 <= |code'.stack|
    && Ready(code', g', pos + 1, st, next)
  }

  lemma GenTopCached(code: Code, g: Ledger, pos: nat, st: UnwindState)
    requires Inv(code, g) && pos < |code.stack| && TerminatesAt(code.stack, pos, st)
    requires st in code.stack[pos].actionBlock
    ensures IsCode(code) && |g.role| == |code.blocks|
    ensures TopReady(code, g, pos, st, code, g, code.stack[pos].actionBlock[st].start)
  {
    hide Inv;
    EntryFacts(code, g, pos, st);
    InvSizes(code, g);
    ReadyAtActive(code, g, pos, st);
  }

  /** A planned block with the terminator's role can be cached for it. */
  lemma CacheTop(code: Code, g: Ledger, pos: nat, st: UnwindState, top: BlockId)
    requires Inv(code, g) && pos < |code.stack| && TerminatesAt(code.stack, pos, st)
    requires st !in code.stack[pos].actionBlock
    requires |g.role| == |code.blocks| && top < |code.blocks|
    requires g.role[top] == Top(Kinds(code.stack)[..pos + 1], IsExceptionState(st)) && (top, st) in g.planned
    requires CanSetActionBlock(code.stack[pos].kind, st)
    ensures var code' := Cached(code, pos, st, TopBlock(top));
      && Inv(code', g)
      && Grows(code.stack, code'.stack, top)
      && TopReady(code, g, pos, st, code', g, top)
  {
    hide Inv;
    var kind := code.stack[pos].kind;
    forall s <- SharingStates(kind, st) ensures RangeOK(code.blocks, g, Kinds(code.stack)[..pos + 1], s, TopBlock(top)) {
      SharedStatesRunSameAction(kind, st, s);
    }
    CacheKeepsInv(code, g, pos, st, TopBlock(top));
    SharingIncludesSelf(kind, st);
    ReadyAtActive(Cached(code, pos, st, TopBlock(top)), g, pos, st);
  }

  lemma TopWired(blocks: seq<Block>, g: Ledger, kinds: seq<Kind>, st: UnwindState)
    requires |g.role| == |blocks| && |kinds| > 0
    requires var top := kinds[|kinds| - 1]; IsActive(top, st) && IsTerminator(top) && top != RethrowScope
    ensures Wired(blocks + [TopBlockFor(kinds[|kinds| - 1], st)],
                  WithBlocks(g, [Top(kinds, IsExceptionState(st))], {(|blocks|, st)}), |blocks|, st)
  {}

  lemma GenTopPlain(code: Code, g: Ledger, pos: nat, st: UnwindState) returns (g': Ledger)
    requires Inv(code, g) && pos < |code.stack| && TerminatesAt(code.stack, pos, st)
    requires st !in code.stack[pos].actionBlock && code.stack[pos].kind != RethrowScope
    ensures IsCode(code) && |g.role| == |code.blocks|
    ensures var (code', next) := GenTopUnwindAction(code, pos, st);
      && Inv(code', g') && |g'.role| == |code'.blocks|
      && Extends(code.blocks, g, code'.blocks, g', pos + 1)
      && Grows(code.stack, code'.stack, |code.blocks|)
      && TopReady(code, g, pos, st, code', g', next)
  {
    hide Inv, Extends, Grows, Wired, Unwind, Ready;
    InvSizes(code, g);
    KindAt(code.stack, pos);
    var top, kinds := |code.blocks|, Kinds(code.stack)[..pos + 1];
    var added := [TopBlockFor(code.stack[pos].kind, st)];
    ActiveCanSet(code.stack[pos].kind, st);
    g' := WithBlocks(g, [Top(kinds, IsExceptionState(st))], {(top, st)});
    TopWired(code.blocks, g, kinds, st);
    AppendKeepsInv(code, g, added, [Top(kinds, IsExceptionState(st))], {(top, st)});
    var code1 := Code(code.blocks + added, code.stack);
    CacheTop(code1, g', pos, st, top);
    assert GenTopUnwindAction(code, pos, st) == (Cached(code1, pos, st, TopBlock(top)), top);
    ExtendsHigher(code.blocks, g, code1.blocks, g', 0, pos + 1);
  }

  // ----- The generator -----

  lemma ReadyPastInactive(code: Code, g: Ledger, i: nat, st: UnwindState, next: BlockId)
    requires |g.role| == |code.blocks| && i < |code.stack| && !IsActive(code.stack[i].kind, st)
    requires Ready(code, g, i, st, next)
    ensures Ready(code, g, i + 1, st, next)
  {
    hide Unwind, IsActive, Kinds;
    KindAt(code.stack, i);
    UnwindInactive(Kinds(code.stack)[..i + 1], st);
    assert Kinds(code.stack)[..i + 1][..i] == Kinds(code.stack)[..i];
    assert code.stack[..i + 1][..i] == code.stack[..i];
  }

  lemma {:induction false} LinkActionsKeep(code: Code, g: Ledger, i: nat, st: UnwindState, next: BlockId) returns (g': Ledger)
    requires Inv(code, g) && IsCode(code) && |g.role| == |code.blocks| && i <= |code.stack|
    requires forall k :: i <= k < |code.stack| ==> !TerminatesAt(code.stack, k, st)
    requires Ready(code, g, i, st, next)
    ensures var (code', entry) := LinkActions(code, i, st, next);
      && Inv(code', g') && |g'.role| == |code'.blocks|
      && Extends(code.blocks, g, code'.blocks, g', |code.stack|)
      && Grows(code.stack, code'.stack, |code.blocks|)
      && |code'.stack| == |code.stack|
      && Ready(code', g', |code.stack|, st, entry)
    decreases |code.stack| - i
  {
    hide Inv, Extends, Grows, Ready;
    if i == |code.stack| {
      g' := g;
      ExtendsSelf(code, g, |code.stack|);
    } else if !IsActive(code.stack[i].kind, st) {
      ReadyPastInactive(code, g, i, st, next);
      g' := LinkActionsKeep(code, g, i + 1, st, next);
    } else {
      assert !TerminatesAt(code.stack, i, st);
      var (code1, next1) := LinkAction(code, i, st, next);
      var g1 := LinkOne(code, g, i, st, next);
      SameKindsSameTerminators(code.stack, code1.stack, st);
      g' := LinkActionsKeep(code1, g1, i + 1, st, next1);
      var code' := LinkActions(code, i, st, next).0;
      ExtendsHigher(code.blocks, g, code1.blocks, g1, i + 1, |code.stack|);
      ExtendsTransitive(code.blocks, g, code1.blocks, g1, code'.blocks, g', |code.stack|);
      GrowsTransitive(code.stack, code1.stack, code'.stack, |code.blocks|, |code1.blocks|);
    }
  }

  lemma ExtendsSelf(code: Code, g: Ledger, height: nat)
    requires |g.role| == |code.blocks|
    ensures Extends(code.blocks, g, code.blocks, g, height)
    ensures Grows(code.stack, code.stack, |code.blocks|)
  {}

  lemma LinkOne(code: Code, g: Ledger, i: nat, st: UnwindState, next: BlockId) returns (g': Ledger)
    requires Inv(code, g) && IsCode(code) && |g.role| == |code.blocks| && i < |code.stack|
    requires IsActive(code.stack[i].kind, st) && !IsTerminator(code.stack[i].kind)
    requires Ready(code, g, i, st, next)
    ensures var (code', next') := LinkAction(code, i, st, next);
      && Inv(code', g') && |g'.role| == |code'.blocks|
      && Extends(code.blocks, g, code'.blocks, g', i + 1)
      && Grows(code.stack, code'.stack, |code.blocks|)
      && i + 1 <= |code'.stack|
      && Ready(code', g', i + 1, st, next')
  {
    hide Inv, Extends, Grows, Ready;
    if st in code.stack[i].actionBlock {
      g' := LinkExisting(code, g, i, st, next);
      InvSizes(LinkAction(code, i, st, next).0, g');
    } else {
      g' := LinkNew(code, g, i, st, next);
    }
    SameKindsSameTerminators(code.stack, LinkAction(code, i, st, next).0.stack, st);
  }

  /** Filling in and planning a block newer than `b0` does not disturb what extended it. */
  lemma ExtendsBeyond(b0: seq<Block>, g0: Ledger, b1: seq<Block>, g1: Ledger, top: BlockId, block: Block,
          st: UnwindState, height: nat)
    requires |g0.role| == |b0| && |g1.role| == |b1| && |b0| <= top < |b1|
    requires Extends(b0, g0, b1, g1, height)
    ensures Extends(b0, g0, b1[top := block], WithBlocks(g1, [], {(top, st)}), height)
  {}

  /** A rethrow scope's block: a throw unwind generated on a copy of the stack below. */
  lemma {:induction false} GenTopRethrow(code: Code, g: Ledger, pos: nat) returns (g': Ledger)
    requires Inv(code, g) && IsCode(code) && |g.role| == |code.blocks|
    requires pos < |code.stack| && TerminatesAt(code.stack, pos, Rethrow)
    requires Rethrow !in code.stack[pos].actionBlock && code.stack[pos].kind == RethrowScope
    ensures var (code', next) := GenTopUnwindAction(code, pos, Rethrow);
      && Inv(code', g') && |g'.role| == |code'.blocks|
      && Extends(code.blocks, g, code'.blocks, g', pos + 1)
      && Grows(code.stack, code'.stack, |code.blocks|)
      && TopReady(code, g, pos, Rethrow, code', g', next)
    decreases |code.stack|, 0
  {
    hide Inv, Extends, Grows, Ready, GenUnwindBlock, Unwind, Wired, Skips;
    var top, kinds := |code.blocks|, Kinds(code.stack)[..pos + 1];
    // The scope's own block is open while the copy is in use.
    var code1 := Code(code.blocks + [Block([], Open)], code.stack);
    var g1 := WithBlocks(g, [Top(kinds, true)], {});
    AppendKeepsInv(code, g, [Block([], Open)], [Top(kinds, true)], {});
    InvOfPrefix(code1, g1, pos);
    // The throw unwind of the copy.
    var below := BelowRethrow(code, pos);
    var (inner, target) := GenUnwindBlock(below, Throw);
    var g2 := GenUnwindKeeps(below, g1, Throw);
    RestoreKeepsInv(code1, g1, inner, g2, pos);
    var code2 := Code(inner.blocks, code.stack);
    // Back on the stack itself, the scope's block is filled in, planned and cached.
    RethrowPlanned(code1, g1, inner, g2, pos, top, target);
    FillKeepsInv(code2, g2, top, ThrowFrom(target));
    var code3 := Code(inner.blocks[top := Block([], ThrowFrom(target))], code.stack);
    g' := WithBlocks(g2, [], {(top, Rethrow)});
    PlanKeepsInv(code3, g2, top, Rethrow);
    CacheTop(code3, g', pos, Rethrow, top);
    ExtendsHigher(code.blocks, g, code1.blocks, g1, 0, pos);
    ExtendsTransitive(code.blocks, g, code1.blocks, g1, inner.blocks, g2, pos);
    ExtendsBeyond(code.blocks, g, inner.blocks, g2, top, Block([], ThrowFrom(target)), Rethrow, pos);
    ExtendsHigher(code.blocks, g, code3.blocks, g', pos, pos + 1);
    assert GenTopUnwindAction(code, pos, Rethrow) == (Cached(code3, pos, Rethrow, TopBlock(top)), top);
  }

  lemma RethrowPlanned(code1: Code, g1: Ledger, inner: Code, g2: Ledger, pos: nat, top: BlockId, target: BlockId)
    requires |g1.role| == |code1.blocks| && |g2.role| == |inner.blocks|
    requires pos < |code1.stack| && code1.stack[pos].kind == RethrowScope
    requires top < |code1.blocks| && code1.blocks[top] == Block([], Open)
    requires g1.role[top] == Top(Kinds(code1.stack)[..pos + 1], true)
    requires Extends(code1.blocks, g1, inner.blocks, g2, pos)
    requires Kinds(inner.stack) == Kinds(code1.stack[..pos]) && |inner.stack| == pos && Ready(inner, g2, pos, Throw, target)
    ensures top < |inner.blocks| && inner.blocks[top] == Block([], Open)
    ensures g2.role[top] == Top(Kinds(code1.stack)[..pos + 1], true)
    ensures Wired(inner.blocks[top := Block([], ThrowFrom(target))], WithBlocks(g2, [], {(top, Rethrow)}), top, Rethrow)
  {
    var kinds := Kinds(code1.stack)[..pos + 1];
    assert kinds[..pos] == Kinds(inner.stack)[..pos];
    assert Unwind(kinds, Rethrow) == Done([], EnterThrow);
  }

  lemma {:induction false} GenTopKeeps(code: Code, g: Ledger, pos: nat, st: UnwindState) returns (g': Ledger)
    requires Inv(code, g) && IsCode(code) && |g.role| == |code.blocks|
    requires pos < |code.stack| && TerminatesAt(code.stack, pos, st)
    ensures var (code', next) := GenTopUnwindAction(code, pos, st);
      && Inv(code', g') && |g'.role| == |code'.blocks|
      && Extends(code.blocks, g, code'.blocks, g', pos + 1)
      && Grows(code.stack, code'.stack, |code.blocks|)
      && TopReady(code, g, pos, st, code', g', next)
    decreases |code.stack|, 1
  {
    hide Inv, Extends, Grows, Ready;
    if st in code.stack[pos].actionBlock {
      g' := g;
      GenTopCached(code, g, pos, st);
      ExtendsSelf(code, g, pos + 1);
    } else if code.stack[pos].kind == RethrowScope {
      g' := GenTopRethrow(code, g, pos);
    } else {
      g' := GenTopPlain(code, g, pos, st);
    }
  }

  /** Generating an unwind keeps every promise and adds the one for the block it returns. */
  lemma {:induction false} GenUnwindKeeps(code: Code, g: Ledger, st: UnwindState) returns (g': Ledger)
    requires Inv(code, g) && IsCode(code) && |g.role| == |code.blocks| && HasTerminator(code.stack, st)
    ensures var (code', entry) := GenUnwindBlock(code, st);
      && Inv(code', g') && |g'.role| == |code'.blocks|
      && Extends(code.blocks, g, code'.blocks, g', |code.stack|)
      && Grows(code.stack, code'.stack, |code.blocks|)
      && |code'.stack| == |code.stack|
      && Ready(code', g', |code.stack|, st, entry)
    decreases |code.stack|, 2
  {
    hide Inv, Extends, Grows, Ready;
    var start := UnwindStartPosition(code.stack, st);
    var (code1, next) := GenTopUnwindAction(code, start, st);
    var g1 := GenTopKeeps(code, g, start, st);
    SameKindsSameTerminators(code.stack, code1.stack, st);
    g' := LinkActionsKeep(code1, g1, start + 1, st, next);
    var code' := GenUnwindBlock(code, st).0;
    ExtendsHigher(code.blocks, g, code1.blocks, g1, start + 1, |code.stack|);
    ExtendsTransitive(code.blocks, g, code1.blocks, g1, code'.blocks, g', |code.stack|);
    GrowsTransitive(code.stack, code1.stack, code'.stack, |code.blocks|, |code1.blocks|);
  }
}

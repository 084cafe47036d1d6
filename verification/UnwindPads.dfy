/**
 The queries on the unwind stack mean what their callers take them to mean, and a landing
 pad found in the stack's cache is the pad that would be generated afresh.
 */
module UnwindPads {
  import opened UnwindAction
  import opened UnwindCode
  import opened UnwindRefinement
  import opened UnwindHistories

  // ----- Queries -----

  /** Entries that are not active have no part in an unwind. */
  lemma {:induction false} UnwindSkips(kinds: seq<Kind>, st: UnwindState, low: nat)
    requires low <= |kinds|
    requires forall i :: low <= i < |kinds| ==> !IsActive(kinds[i], st)
    ensures Unwind(kinds, st) == Unwind(kinds[..low], st)
  {
    if |kinds| == low {
      assert kinds[..low] == kinds;
    } else {
      UnwindSkips(kinds[..|kinds| - 1], st, low);
      assert kinds[..|kinds| - 1][..low] == kinds[..low];
    }
  }

  /** An unwind of a stack with an active terminator ends. */
  lemma {:induction false} UnwindEnds(kinds: seq<Kind>, st: UnwindState, pos: nat)
    requires pos < |kinds| && IsActive(kinds[pos], st) && IsTerminator(kinds[pos])
    ensures Unwind(kinds, st).Done?
  {
    if pos < |kinds| - 1 {
      UnwindEnds(kinds[..|kinds| - 1], st, pos);
    }
  }

  lemma TopActiveUnwinds(stack: seq<Action>, st: UnwindState)
    requires IsStack(stack) && HasTerminator(stack, st)
    ensures Unwind(Kinds(stack), st).Done?
    ensures var p := TopActive(stack, st, 1);
      && (p.At? ==> Unwind(Kinds(stack), st) == Unwind(Kinds(stack)[..p.pos + 1], st))
      && (p.None? ==> IsActive(FunctionMarker, st) && Unwind(Kinds(stack), st) == Done([], ExitOf(FunctionMarker, st)))
  {
    var kinds := Kinds(stack);
    var t :| 0 <= t < |stack| && TerminatesAt(stack, t, st);
    UnwindEnds(kinds, st, t);
    var p := TopActive(stack, st, 1);
    if p.At? {
      UnwindSkips(kinds, st, p.pos + 1);
    } else {
      assert t == 0;
      UnwindSkips(kinds, st, 1);
      assert kinds[..1] == [FunctionMarker];
    }
  }

  /** The cleanup flag of a landing pad says whether unwinding performs anything. */
  lemma CleanupMeansWork(stack: seq<Action>, st: UnwindState)
    requires IsStack(stack) && HasTerminator(stack, st)
    ensures Unwind(Kinds(stack), st).Done?
    ensures AnyUnwindCleanupActions(stack, st) <==> Unwind(Kinds(stack), st).trace != []
  {
    TopActiveUnwinds(stack, st);
    var p := TopActive(stack, st, 1);
    if p.At? {
      UnwindPrefixDone(stack, st, p.pos);
    }
  }

  lemma UnwindPrefixDone(stack: seq<Action>, st: UnwindState, p: nat)
    requires p < |stack| && IsActive(stack[p].kind, st)
    requires Unwind(Kinds(stack)[..p + 1], st).Done?
    ensures IsTerminator(stack[p].kind) ==> Unwind(Kinds(stack)[..p + 1], st) == Done([], ExitOf(stack[p].kind, st))
    ensures !IsTerminator(stack[p].kind) ==> Unwind(Kinds(stack)[..p + 1], st).trace != []
  {}

  /** Leaving a function directly is right exactly when no unwind actions are reported. */
  lemma NoActionsMeansDirectExit(stack: seq<Action>, st: UnwindState)
    requires IsStack(stack) && IsActive(FunctionMarker, st)
    ensures !AnyUnwindActions(stack, st) <==> Unwind(Kinds(stack), st) == Done([], ExitOf(FunctionMarker, st))
  {
    assert TerminatesAt(stack, 0, st);
    TopActiveUnwinds(stack, st);
    var p := TopActive(stack, st, 1);
    if p.At? {
      UnwindPrefixDone(stack, st, p.pos);
    }
  }

  /**
   A rethrow needs no landing pad exactly when neither the rethrow up to its rethrow scope nor the
   throw that goes on below the scope performs or catches anything.
   */
  lemma RethrowActionsMeanWork(stack: seq<Action>)
    requires IsStack(stack) && HasTerminator(stack, Rethrow)
    ensures var scope := UnwindStartPosition(stack, Rethrow);
      && stack[scope].kind == RethrowScope
      && (!AnyUnwindRethrowActions(stack) <==>
            Unwind(Kinds(stack), Rethrow) == Done([], EnterThrow) &&
            Unwind(Kinds(stack)[..scope], Throw) == Done([], Resume))
  {
    hide Unwind, UnwindStartPosition, TopActive, Kinds;
    var scope := UnwindStartPosition(stack, Rethrow);
    TopActiveUnwinds(stack, Rethrow);
    var p := TopActive(stack, Rethrow, 1);
    assert TerminatesAt(stack, scope, Rethrow);
    assert p.At? && scope <= p.pos;
    UnwindPrefixDone(stack, Rethrow, p.pos);
    if IsTerminator(stack[p.pos].kind) {
      assert TerminatesAt(stack, p.pos, Rethrow);
      assert scope == p.pos;
      var below := stack[..scope];
      assert Kinds(below) == Kinds(stack)[..scope];
      NoActionsMeansDirectExit(below, Throw);
    }
  }

  // ----- The landing pad cache -----

  /** Once the topmost active entry's blocks are cached, generating again returns them. */
  lemma {:induction false} LinkReturnsCached(code: Code, i: nat, st: UnwindState, next: BlockId, p: nat)
    requires IsCode(code) && i <= p < |code.stack|
    requires forall k :: i <= k < |code.stack| ==> !TerminatesAt(code.stack, k, st)
    requires IsActive(code.stack[p].kind, st) && st in code.stack[p].actionBlock
    requires forall k :: p < k < |code.stack| ==> !IsActive(code.stack[k].kind, st)
    ensures LinkActions(code, i, st, next).1 == code.stack[p].actionBlock[st].start
    decreases p - i
  {
    hide IsCode, Kinds, CacheInRange;
    assert !TerminatesAt(code.stack, i, st);
    if IsActive(code.stack[i].kind, st) {
      var (code', next') := LinkAction(code, i, st, next);
      SameKindsSameTerminators(code.stack, code'.stack, st);
      if i == p {
        LinkPastInactive(code', i + 1, st, next');
      } else {
        LinkReturnsCached(code', i + 1, st, next', p);
      }
    } else {
      LinkReturnsCached(code, i + 1, st, next, p);
    }
  }

  lemma {:induction false} LinkPastInactive(code: Code, i: nat, st: UnwindState, next: BlockId)
    requires IsCode(code) && i <= |code.stack|
    requires forall k :: i <= k < |code.stack| ==> !IsActive(code.stack[k].kind, st)
    ensures LinkActions(code, i, st, next) == (code, next)
    decreases |code.stack| - i
  {
    if i < |code.stack| {
      LinkPastInactive(code, i + 1, st, next);
    }
  }

  /** Generating a terminator's block touches no other entry, and caches the block it returns. */
  lemma GenTopTouchesOne(code: Code, pos: nat, st: UnwindState)
    requires IsCode(code) && pos < |code.stack| && TerminatesAt(code.stack, pos, st)
    ensures var (code', next) := GenTopUnwindAction(code, pos, st);
      && |code'.stack| == |code.stack|
      && (forall k :: 0 <= k < |code.stack| && k != pos ==> code'.stack[k] == code.stack[k])
      && (st in code.stack[pos].actionBlock ==> next == code.stack[pos].actionBlock[st].start)
  {}

  lemma GenReturnsCached(code: Code, st: UnwindState, b: BlockId)
    requires IsCode(code) && HasTerminator(code.stack, st) && CachedBelow(code.stack, |code.stack|, st, b)
    ensures GenUnwindBlock(code, st).1 == b
  {
    hide GenTopUnwindAction, CacheInRange, IsStack, LinkActions, Kinds, IsActive, IsTerminator, UnwindStartPosition;
    hide TopActive;
    assert code.stack[..|code.stack|] == code.stack;
    var p := TopActive(code.stack, st, 0).pos;
    var start := UnwindStartPosition(code.stack, st);
    assert start <= p;
    var (code', next) := GenTopUnwindAction(code, start, st);
    GenTopTouchesOne(code, start, st);
    SameKindsSameTerminators(code.stack, code'.stack, st);
    if p == start {
      LinkPastInactive(code', start + 1, st, next);
    } else {
      LinkReturnsCached(code', start + 1, st, next, p);
    }
  }

  // ----- What a stored pad is -----

  /** The catch types of a stack, from the top down. */
  function KindTypes(kinds: seq<Kind>): seq<nat> {
    if kinds == [] then []
    else
      var top, rest := kinds[|kinds| - 1], KindTypes(kinds[..|kinds| - 1]);
      if top.Catch? then [top.typeInfo] + rest else rest
  }

  lemma {:induction false} TypesOfKinds(stack: seq<Action>)
    ensures CatchTypes(stack) == KindTypes(Kinds(stack))
  {
    if stack != [] {
      TypesOfKinds(stack[..|stack| - 1]);
      assert Kinds(stack[..|stack| - 1]) == Kinds(stack)[..|stack| - 1];
    }
  }

  /** Both stacks have the same entries up to position `p`, and nothing active above it. */
  predicate SameUpTo(at: seq<Kind>, kinds: seq<Kind>, p: nat, st: UnwindState) {
    && p < |at| && p < |kinds| && at[..p + 1] == kinds[..p + 1]
    && (forall i :: p < i < |at| ==> !IsActive(at[i], st))
    && (forall i :: p < i < |kinds| ==> !IsActive(kinds[i], st))
  }

  /** A pad that was made for the stack `at`, seen from a stack with the same topmost active entry. */
  predicate IsPadFor(blocks: seq<Block>, stack: seq<Action>, st: UnwindState, pad: BlockId, at: seq<Kind>)
    requires |stack| > 0
  {
    var top := TopActive(stack, st, 0);
    && top.At? && SameUpTo(at, Kinds(stack), top.pos, st)
    && pad < |blocks|
    && blocks[pad].term.Pad?
    && blocks[pad].term == Pad(KindTypes(at), AnyUnwindCleanupActions(stack, st), st, blocks[pad].term.padTarget)
    && CachedBelow(stack, |stack|, st, blocks[pad].term.padTarget)
  }

  /** The stacks and states that landing pads were asked for. */
  type Requests = set<(seq<Kind>, UnwindState)>

  ghost predicate PadOK(blocks: seq<Block>, stack: seq<Action>, st: UnwindState, pad: BlockId, asked: Requests)
    requires |stack| > 0
  {
    exists at :: (at, st) in asked && IsPadFor(blocks, stack, st, pad, at)
  }

  ghost predicate AllPadsOK(blocks: seq<Block>, stack: seq<Action>, pads: map<UnwindState, BlockId>, asked: Requests)
    requires |stack| > 0
  {
    forall st <- pads :: PadOK(blocks, stack, st, pads[st], asked)
  }

  /** Each pad in the stack was asked for, seen from the stack up to the entry that holds it. */
  ghost predicate PadsOK(code: Code, asked: Requests) {
    forall i, st :: 0 <= i < |code.stack| && st in code.stack[i].landingPad ==>
      PadOK(code.blocks, code.stack[..i + 1], st, code.stack[i].landingPad[st], asked)
  }

  /** An entry that is not active changes nothing about a pad. */
  lemma PadPastInactive(blocks: seq<Block>, stack: seq<Action>, st: UnwindState, pad: BlockId, at: seq<Kind>)
    requires IsStack(stack) && |stack| > 1 && !IsActive(stack[|stack| - 1].kind, st)
    ensures IsPadFor(blocks, stack, st, pad, at) <==> IsPadFor(blocks, stack[..|stack| - 1], st, pad, at)
  {
    hide KindTypes, SameUpTo, CachedBelow, AnyUnwindCleanupActions, Kinds, IsStack;
    var rest := stack[..|stack| - 1];
    PastInactive(stack, st);
    var top := TopActive(rest, st, 0);
    if top.At? {
      SamePastInactive(at, stack, top.pos, st);
    }
  }

  lemma PastInactive(stack: seq<Action>, st: UnwindState)
    requires |stack| > 1 && !IsActive(stack[|stack| - 1].kind, st)
    ensures var rest := stack[..|stack| - 1];
      && TopActive(stack, st, 0) == TopActive(rest, st, 0)
      && AnyUnwindCleanupActions(stack, st) == AnyUnwindCleanupActions(rest, st)
      && forall b :: CachedBelow(stack, |stack|, st, b) == CachedBelow(rest, |rest|, st, b)
  {
    var rest := stack[..|stack| - 1];
    assert stack[..|stack|] == stack && rest[..|rest|] == rest;
  }

  lemma SamePastInactive(at: seq<Kind>, stack: seq<Action>, p: nat, st: UnwindState)
    requires p < |stack| - 1 && !IsActive(stack[|stack| - 1].kind, st)
    ensures SameUpTo(at, Kinds(stack), p, st) <==> SameUpTo(at, Kinds(stack[..|stack| - 1]), p, st)
  {
    var rest := stack[..|stack| - 1];
    assert Kinds(rest) == Kinds(stack)[..|rest|];
    assert Kinds(rest)[..p + 1] == Kinds(stack)[..p + 1];
  }

  /** Growing graphs and caches keep a pad what it was. */
  lemma PadKept(blocks: seq<Block>, g: Ledger, blocks': seq<Block>, g': Ledger, stack: seq<Action>,
          stack': seq<Action>, st: UnwindState, pad: BlockId, at: seq<Kind>)
    requires |g.role| == |blocks| && |g'.role| == |blocks'| && Keeps(blocks, g, blocks', g')
    requires |stack| > 0 && Grows(stack, stack', 0) && IsPadFor(blocks, stack, st, pad, at)
    ensures |stack'| > 0 && IsPadFor(blocks', stack', st, pad, at)
  {
    hide KindTypes;
    SameKindsSameTerminators(stack, stack', Throw);
    TopActiveSameKinds(stack, stack', st, 0);
    TopActiveSameKinds(stack, stack', st, 1);
    CachedBelowKept(stack, stack', 0, |stack|, st, blocks[pad].term.padTarget);
  }

  lemma GrowsPrefix(stack: seq<Action>, stack': seq<Action>, n: nat, i: nat)
    requires Grows(stack, stack', n) && i <= |stack|
    ensures i <= |stack'| && Grows(stack[..i], stack'[..i], 0)
  {
    SameKindsSameTerminators(stack, stack', Throw);
    assert Kinds(stack[..i]) == Kinds(stack)[..i] == Kinds(stack')[..i] == Kinds(stack'[..i]);
  }

  lemma PadsKept(code: Code, g: Ledger, code': Code, g': Ledger, n: nat, asked: Requests)
    requires |g.role| == |code.blocks| && |g'.role| == |code'.blocks| && Keeps(code.blocks, g, code'.blocks, g')
    requires Grows(code.stack, code'.stack, n) && SamePads(code.stack, code'.stack) && PadsOK(code, asked)
    ensures PadsOK(code', asked)
  {
    hide Keeps, Grows, IsPadFor;
    forall i, st | 0 <= i < |code'.stack| && st in code'.stack[i].landingPad
      ensures PadOK(code'.blocks, code'.stack[..i + 1], st, code'.stack[i].landingPad[st], asked)
    {
      var pad := code.stack[i].landingPad[st];
      assert PadOK(code.blocks, code.stack[..i + 1], st, pad, asked);
      var at :| (at, st) in asked && IsPadFor(code.blocks, code.stack[..i + 1], st, pad, at);
      GrowsPrefix(code.stack, code'.stack, n, i + 1);
      PadKept(code.blocks, g, code'.blocks, g', code.stack[..i + 1], code'.stack[..i + 1], st, pad, at);
    }
  }

  lemma PrefixPadsOK(blocks: seq<Block>, stack: seq<Action>, n: nat, asked: Requests)
    requires PadsOK(Code(blocks, stack), asked) && n <= |stack|
    ensures PadsOK(Code(blocks, stack[..n]), asked)
  {
    hide PadOK;
    var cut := stack[..n];
    forall i, st | 0 <= i < n && st in cut[i].landingPad
      ensures PadOK(blocks, cut[..i + 1], st, cut[i].landingPad[st], asked)
    {
      assert cut[..i + 1] == stack[..i + 1] && cut[i] == stack[i];
    }
  }

  /** The pads of a stack are right if those below the top are and the top's are. */
  lemma PadsOKFromTop(blocks: seq<Block>, stack: seq<Action>, asked: Requests)
    requires |stack| > 0 && PadsOK(Code(blocks, stack[..|stack| - 1]), asked)
    requires AllPadsOK(blocks, stack, stack[|stack| - 1].landingPad, asked)
    ensures PadsOK(Code(blocks, stack), asked)
  {
    hide PadOK;
    var rest := stack[..|stack| - 1];
    forall i, st | 0 <= i < |stack| && st in stack[i].landingPad
      ensures PadOK(blocks, stack[..i + 1], st, stack[i].landingPad[st], asked)
    {
      if i < |rest| {
        assert rest[..i + 1] == stack[..i + 1] && rest[i] == stack[i];
      } else {
        assert stack[..i + 1] == stack;
      }
    }
  }

  /** Pads say nothing about other pads. */
  lemma PadIgnoresPads(blocks: seq<Block>, stack: seq<Action>, stack': seq<Action>, st: UnwindState, pad: BlockId,
          asked: Requests)
    requires Kinds(stack') == Kinds(stack) && |stack| == |stack'| && |stack| > 0
    requires forall k :: 0 <= k < |stack| ==> stack'[k].actionBlock == stack[k].actionBlock
    requires PadOK(blocks, stack, st, pad, asked)
    ensures PadOK(blocks, stack', st, pad, asked)
  {
    hide KindTypes;
    var at :| (at, st) in asked && IsPadFor(blocks, stack, st, pad, at);
    TopActiveSameKinds(stack, stack', st, 0);
    TopActiveSameKinds(stack, stack', st, 1);
    PadsDoNotMoveCaches(stack, stack', |stack|, st);
    assert IsPadFor(blocks, stack', st, pad, at);
  }

  /** Storing a pad that is right for the whole stack keeps every stored pad right. */
  lemma {:induction false} StoredPadsOK(blocks: seq<Block>, stack: seq<Action>, st: UnwindState, pad: BlockId,
          at: seq<Kind>, asked: Requests)
    requires IsStack(stack) && PadsOK(Code(blocks, stack), asked) && (at, st) in asked && IsPadFor(blocks, stack, st, pad, at)
    requires IsExceptionState(st)
    ensures PadsOK(Code(blocks, SetLatestLandingPad(stack, st, pad)), asked)
  {
    hide IsPadFor, PadsOK, PadOK;
    var top, rest := stack[|stack| - 1], stack[..|stack| - 1];
    var stack' := SetLatestLandingPad(stack, st, pad);
    assert stack == rest + [top];
    SameKindsSameTerminators(stack, stack', st);
    PrefixPadsOK(blocks, stack, |rest|, asked);
    TopPadsOK(blocks, stack, stack', st, pad, at, asked);
    if IsActive(top.kind, st) {
      assert stack'[..|stack'| - 1] == rest;
    } else {
      if rest == [] {
        OnlyMarker(blocks, stack, st, pad, at);
      }
      PadPastInactive(blocks, stack, st, pad, at);
      StoredPadsOK(blocks, rest, st, pad, at, asked);
      assert stack'[..|stack'| - 1] == SetLatestLandingPad(rest, st, pad);
    }
    PadsOKFromTop(blocks, stack', asked);
  }

  lemma OnlyMarker(blocks: seq<Block>, stack: seq<Action>, st: UnwindState, pad: BlockId, at: seq<Kind>)
    requires |stack| == 1 && IsPadFor(blocks, stack, st, pad, at)
    ensures IsActive(stack[0].kind, st)
  {}

  lemma TopPadsOK(blocks: seq<Block>, stack: seq<Action>, stack': seq<Action>, st: UnwindState, pad: BlockId,
          at: seq<Kind>, asked: Requests)
    requires |stack| > 0 && PadsOK(Code(blocks, stack), asked) && (at, st) in asked && IsPadFor(blocks, stack, st, pad, at)
    requires |stack'| == |stack| && Kinds(stack') == Kinds(stack)
    requires forall k :: 0 <= k < |stack| ==> stack'[k].actionBlock == stack[k].actionBlock
    requires stack'[|stack| - 1].landingPad == stack[|stack| - 1].landingPad[st := pad]
    ensures AllPadsOK(blocks, stack', stack'[|stack| - 1].landingPad, asked)
  {
    hide IsPadFor;
    assert stack[..|stack|] == stack;
    var pads := stack'[|stack| - 1].landingPad;
    forall s <- pads ensures PadOK(blocks, stack', s, pads[s], asked) {
      if s == st {
        assert PadOK(blocks, stack, st, pad, asked);
      } else {
        assert PadOK(blocks, stack[..|stack| - 1 + 1], s, stack[|stack| - 1].landingPad[s], asked);
      }
      PadIgnoresPads(blocks, stack, stack', s, pads[s], asked);
    }
  }

  lemma PushedPadsOK(code: Code, kind: Kind, asked: Requests)
    requires PadsOK(code, asked)
    ensures PadsOK(code.(stack := code.stack + [NewAction(kind)]), asked)
  {
    hide PadOK;
    var stack' := code.stack + [NewAction(kind)];
    assert stack'[..|stack'| - 1] == code.stack;
    PadsOKFromTop(code.blocks, stack', asked);
  }

  lemma GeneratedPadsOK(code: Code, g: Ledger, st: UnwindState, asked: Requests)
    requires Inv(code, g) && IsCode(code) && |g.role| == |code.blocks| && HasTerminator(code.stack, st) && PadsOK(code, asked)
    ensures PadsOK(GenUnwindBlock(code, st).0, asked)
  {
    hide Inv, Extends, Ready, PadsOK;
    var code' := GenUnwindBlock(code, st).0;
    var g' := GenUnwindKeeps(code, g, st);
    ExtendsKeeps(code.blocks, g, code'.blocks, g', |code.stack|);
    PadsKept(code, g, code', g', |code.blocks|, asked);
  }

  /** A freshly generated pad is right for the stack it was generated for. */
  lemma FreshPad(code: Code, code': Code, blocks': seq<Block>, st: UnwindState, target: BlockId, pad: BlockId)
    requires |code.stack| > 0 && Kinds(code'.stack) == Kinds(code.stack) && pad < |blocks'|
    requires blocks'[pad].term == Pad(CatchTypes(code.stack), AnyUnwindCleanupActions(code.stack, st), st, target)
    requires |code'.stack| == |code.stack| && CachedBelow(code'.stack, |code'.stack|, st, target)
    ensures IsPadFor(blocks', code'.stack, st, pad, Kinds(code.stack))
  {
    hide KindTypes;
    TypesOfKinds(code.stack);
    TopActiveSameKinds(code.stack, code'.stack, st, 1);
    SameKindsSameTerminators(code.stack, code'.stack, st);
    assert code'.stack[..|code'.stack|] == code'.stack;
  }

  lemma CodeNotEmpty(code: Code)
    requires IsCode(code)
    ensures |code.stack| > 0
  {}

  lemma MoreAsked(code: Code, asked: Requests, more: Requests)
    requires PadsOK(code, asked) && asked <= more
    ensures PadsOK(code, more)
  {
    hide IsPadFor;
    forall i, st | 0 <= i < |code.stack| && st in code.stack[i].landingPad
      ensures PadOK(code.blocks, code.stack[..i + 1], st, code.stack[i].landingPad[st], more)
    {
      assert PadOK(code.blocks, code.stack[..i + 1], st, code.stack[i].landingPad[st], asked);
    }
  }

  lemma GenPadPadsOK(code: Code, g: Ledger, st: UnwindState, asked: Requests)
    requires Inv(code, g) && IsCode(code) && |g.role| == |code.blocks| && CanStep(code, GenPad(st)) && PadsOK(code, asked)
    ensures PadsOK(GenLandingPad(code, st).0, asked + {(Kinds(code.stack), st)})
  {
    hide Inv, Keeps, IsPadFor, PadsOK, GenUnwindBlock, IsCode, CatchTypes, AnyUnwindCleanupActions, HasTerminator;
    hide LatestLandingPad, SetLatestLandingPad, Kinds;
    var asked' := asked + {(Kinds(code.stack), st)};
    if LatestLandingPad(code.stack, st).None? {
      OpenBlockKeepsCode(code);
      CodeNotEmpty(code);
      var pad := |code.blocks|;
      var (code1, target) := GenUnwindBlock(code.(blocks := code.blocks + [Block([], Open)]), st);
      var content := Pad(CatchTypes(code.stack), AnyUnwindCleanupActions(code.stack, st), st, target);
      var g' := PadBlockKeeps(code, g, st, content);
      var blocks' := code1.blocks[pad := Block([], content)];
      PadsKept(code, g, Code(blocks', code1.stack), g', 0, asked);
      FreshPad(code, code1, blocks', st, target, pad);
      SameKindsSameTerminators(code.stack, code1.stack, Throw);
      MoreAsked(Code(blocks', code1.stack), asked, asked');
      StoredPadsOK(blocks', code1.stack, st, pad, Kinds(code.stack), asked');
    } else {
      MoreAsked(code, asked, asked');
    }
  }

  /** What pads were asked for in the course of a history. */
  function Asked(code: Code, steps: seq<Step>): Requests
    requires IsCode(code) && CanRun(code, steps)
    decreases |steps|
  {
    if steps == [] then {}
    else
      (if steps[0].GenPad? then {(Kinds(code.stack), steps[0].padState)} else {}) + Asked(Apply(code, steps[0]), steps[1..])
  }

  lemma {:induction false} HistoryPadsOK(code: Code, g: Ledger, steps: seq<Step>, asked: Requests)
    requires Inv(code, g) && IsCode(code) && |g.role| == |code.blocks| && CanRun(code, steps) && PadsOK(code, asked)
    ensures PadsOK(ApplyAll(code, steps), asked + Asked(code, steps))
    decreases |steps|
  {
    hide Inv, Keeps, PadsOK;
    if steps == [] {
      assert asked + Asked(code, steps) == asked;
    } else {
      var code1 := Apply(code, steps[0]);
      var g1 := StepKeeps(code, g, steps[0]);
      var asked1 := if steps[0].GenPad? then asked + {(Kinds(code.stack), steps[0].padState)} else asked;
      match steps[0] {
        case Push(kind) => PushedPadsOK(code, kind, asked);
        case Pop => PrefixPadsOK(code.blocks, code.stack, |code.stack| - 1, asked);
        case Gen(st) => GeneratedPadsOK(code, g, st, asked);
        case GenPad(st) => GenPadPadsOK(code, g, st, asked);
      }
      HistoryPadsOK(code1, g1, steps[1..], asked1);
      assert asked + Asked(code, steps) == asked1 + Asked(code1, steps[1..]);
    }
  }

  /** The search down the stack finds a pad that is right for the whole stack. */
  lemma {:induction false} LatestIsPadFor(code: Code, st: UnwindState, asked: Requests) returns (at: seq<Kind>)
    requires IsStack(code.stack) && PadsOK(code, asked) && LatestLandingPad(code.stack, st).At?
    ensures (at, st) in asked && IsPadFor(code.blocks, code.stack, st, LatestLandingPad(code.stack, st).pos, at)
    decreases |code.stack|
  {
    hide IsPadFor;
    var stack := code.stack;
    var top := stack[|stack| - 1];
    assert stack[..|stack|] == stack;
    if st in top.landingPad {
      assert PadOK(code.blocks, stack[..|stack| - 1 + 1], st, top.landingPad[st], asked);
      at :| (at, st) in asked && IsPadFor(code.blocks, stack, st, top.landingPad[st], at);
    } else {
      var rest := stack[..|stack| - 1];
      PrefixPadsOK(code.blocks, stack, |rest|, asked);
      at := LatestIsPadFor(Code(code.blocks, rest), st, asked);
      PadPastInactive(code.blocks, stack, st, LatestLandingPad(rest, st).pos, at);
    }
  }

  // ----- When a pad that is found is the pad that would be generated -----

  /** The content of a pad generated now. */
  function FreshContent(code: Code, st: UnwindState): Terminator
    requires IsCode(code) && HasTerminator(code.stack, st)
  {
    OpenBlockKeepsCode(code);
    Pad(CatchTypes(code.stack), AnyUnwindCleanupActions(code.stack, st), st,
        GenUnwindBlock(code.(blocks := code.blocks + [Block([], Open)]), st).1)
  }

  /**
   A pad found in the stack was made for a stack that a pad was asked for, equal to the present one up
   to its topmost active entry.  It has the fresh flag and target and the clauses of that stack; it
   is what a fresh pad would be exactly if the catches above that entry are of the same types.
   */
  lemma FoundPad(steps: seq<Step>, st: UnwindState) returns (at: seq<Kind>, p: nat)
    requires IsCode(INITIAL) && CanRun(INITIAL, steps) && CanStep(ApplyAll(INITIAL, steps), GenPad(st))
    requires LatestLandingPad(ApplyAll(INITIAL, steps).stack, st).At?
    ensures var code := ApplyAll(INITIAL, steps);
      var pad := LatestLandingPad(code.stack, st).pos;
      && GenLandingPad(code, st) == (code, pad) && pad < |code.blocks|
      && (at, st) in Asked(INITIAL, steps) && SameUpTo(at, Kinds(code.stack), p, st) && IsActive(at[p], st)
      && code.blocks[pad].term == FreshContent(code, st).(clauses := KindTypes(at))
      && (code.blocks[pad].term == FreshContent(code, st) <==>
            KindTypes(at[p + 1..]) == KindTypes(Kinds(code.stack)[p + 1..]))
      && GenUnwindBlock(code, st).1 == code.blocks[pad].term.padTarget
  {
    hide Inv, PadsOK, CanRun, ApplyAll, Asked, GenUnwindBlock, Kinds, KindTypes, CatchTypes, LatestLandingPad;
    var code := ApplyAll(INITIAL, steps);
    InitialInv();
    NothingStored();
    HistoryPadsOK(INITIAL, NO_PROMISES, steps, {});
    assert {} + Asked(INITIAL, steps) == Asked(INITIAL, steps);
    at := LatestIsPadFor(code, st, Asked(INITIAL, steps));
    p := TopActive(code.stack, st, 0).pos;
    var pad := LatestLandingPad(code.stack, st).pos;
    OpenBlockKeepsCode(code);
    GenReturnsCached(code.(blocks := code.blocks + [Block([], Open)]), st, code.blocks[pad].term.padTarget);
    GenReturnsCached(code, st, code.blocks[pad].term.padTarget);
    TypesOfKinds(code.stack);
    KindAt(code.stack, p);
    SameTypesAbove(at, Kinds(code.stack), p);
  }

  lemma NothingStored()
    ensures PadsOK(INITIAL, {})
  {}

  lemma {:induction false} TypesSplit(kinds: seq<Kind>, n: nat)
    requires n <= |kinds|
    ensures KindTypes(kinds) == KindTypes(kinds[n..]) + KindTypes(kinds[..n])
    decreases |kinds|
  {
    if |kinds| == n {
      assert kinds[..n] == kinds && kinds[n..] == [];
    } else {
      var rest := kinds[..|kinds| - 1];
      TypesSplit(rest, n);
      assert rest[..n] == kinds[..n];
      assert kinds[n..][..|kinds| - n - 1] == rest[n..];
      assert kinds[n..][|kinds| - n - 1] == kinds[|kinds| - 1];
    }
  }

  lemma SameTypesAbove(at: seq<Kind>, kinds: seq<Kind>, p: nat)
    requires p < |at| && p < |kinds| && at[..p + 1] == kinds[..p + 1]
    ensures KindTypes(at) == KindTypes(kinds) <==> KindTypes(at[p + 1..]) == KindTypes(kinds[p + 1..])
  {
    hide KindTypes;
    TypesSplit(at, p + 1);
    TypesSplit(kinds, p + 1);
    if KindTypes(at) == KindTypes(kinds) {
      SameFront(KindTypes(at[p + 1..]), KindTypes(kinds[p + 1..]), KindTypes(at[..p + 1]));
    }
  }

  lemma SameFront(first: seq<nat>, second: seq<nat>, back: seq<nat>)
    requires first + back == second + back
    ensures first == second
  {
    assert |first| == |first + back| - |back| == |second|;
    assert first == (first + back)[..|first|] == (second + back)[..|second|] == second;
  }

  /** No catch above the topmost rethrow scope: the rethrow statement is not inside a further try. */
  predicate Guarded(kinds: seq<Kind>) {
    if kinds == [] || kinds[|kinds| - 1] == RethrowScope then true
    else !kinds[|kinds| - 1].Catch? && Guarded(kinds[..|kinds| - 1])
  }

  lemma {:induction false} NoCatchAbove(kinds: seq<Kind>, n: nat)
    requires n <= |kinds| && Guarded(kinds)
    requires forall i :: n <= i < |kinds| ==> kinds[i] != RethrowScope
    ensures forall i :: n <= i < |kinds| ==> !kinds[i].Catch?
  {
    if n < |kinds| {
      NoCatchAbove(kinds[..|kinds| - 1], n);
    }
  }

  lemma {:induction false} NoCatchNoTypes(kinds: seq<Kind>)
    requires forall i :: 0 <= i < |kinds| ==> !kinds[i].Catch?
    ensures KindTypes(kinds) == []
  {
    if kinds != [] {
      NoCatchNoTypes(kinds[..|kinds| - 1]);
    }
  }

  /** With nothing active above `p`, a catch there can only matter to an unguarded rethrow. */
  lemma NoTypesAbove(kinds: seq<Kind>, p: nat, st: UnwindState)
    requires p < |kinds| && IsExceptionState(st) && (st == Rethrow ==> Guarded(kinds))
    requires forall i :: p < i < |kinds| ==> !IsActive(kinds[i], st)
    ensures KindTypes(kinds[p + 1..]) == []
  {
    if st == Rethrow {
      NoCatchAbove(kinds, p + 1);
    }
    NoCatchNoTypes(kinds[p + 1..]);
  }

  /**
   The landing pad cache is transparent.  After any history, a pad found in the stack is what generating
   a fresh pad now would give: for a throw always, for a rethrow if pads for rethrows are only asked for
   where no catch is above the topmost rethrow scope.
   */
  lemma CachedPadIsFresh(steps: seq<Step>, st: UnwindState)
    requires IsCode(INITIAL) && CanRun(INITIAL, steps) && CanStep(ApplyAll(INITIAL, steps), GenPad(st))
    requires LatestLandingPad(ApplyAll(INITIAL, steps).stack, st).At?
    requires st == Rethrow ==> Guarded(Kinds(ApplyAll(INITIAL, steps).stack))
    requires st == Rethrow ==> forall request <- Asked(INITIAL, steps) :: request.1 == Rethrow ==> Guarded(request.0)
    ensures var code := ApplyAll(INITIAL, steps);
      var pad := LatestLandingPad(code.stack, st).pos;
      GenLandingPad(code, st) == (code, pad) && pad < |code.blocks| && code.blocks[pad].term == FreshContent(code, st)
  {
    hide CanRun, ApplyAll, Asked, Guarded, KindTypes, FreshContent, GenLandingPad;
    var at, p := FoundPad(steps, st);
    NoTypesAbove(at, p, st);
    NoTypesAbove(Kinds(ApplyAll(INITIAL, steps).stack), p, st);
  }

  // ----- The guard is needed -----

  predicate NoPads(stack: seq<Action>) {
    forall k :: 0 <= k < |stack| ==> stack[k].landingPad == map[]
  }

  lemma {:induction false} NoneFound(stack: seq<Action>, st: UnwindState)
    requires NoPads(stack)
    ensures LatestLandingPad(stack, st).None?
  {
    if stack != [] {
      assert stack[|stack| - 1].landingPad == map[];
      NoneFound(stack[..|stack| - 1], st);
    }
  }

  /** The search passes entries that are not active and hold no pad. */
  lemma {:induction false} FoundAt(stack: seq<Action>, p: nat, st: UnwindState)
    requires p < |stack| && st in stack[p].landingPad
    requires forall k :: p < k < |stack| ==> stack[k].landingPad == map[] && !IsActive(stack[k].kind, st)
    ensures LatestLandingPad(stack, st) == At(stack[p].landingPad[st])
  {
    if p < |stack| - 1 {
      assert stack[|stack| - 1].landingPad == map[];
      FoundAt(stack[..|stack| - 1], p, st);
    }
  }

  lemma CatchPushed(code: Code, catcher: Kind) returns (code': Code)
    requires IsCode(code) && HasTerminator(code.stack, Rethrow) && NoPads(code.stack) && catcher.Catch?
    ensures CanStep(code, Push(catcher)) && code' == Apply(code, Push(catcher))
    ensures IsCode(code') && code'.stack == code.stack + [NewAction(catcher)]
    ensures HasTerminator(code'.stack, Rethrow) && LatestLandingPad(code'.stack, Rethrow).None?
    ensures CatchTypes(code'.stack) == [catcher.typeInfo] + CatchTypes(code.stack)
  {
    hide IsCode, GenUnwindBlock, GenLandingPad, LatestLandingPad;
    code' := Apply(code, Push(catcher));
    var k :| 0 <= k < |code.stack| && TerminatesAt(code.stack, k, Rethrow);
    assert TerminatesAt(code'.stack, k, Rethrow);
    NoneFound(code'.stack, Rethrow);
    assert code'.stack[..|code.stack|] == code.stack;
  }

  lemma RunThree(code: Code, first: Step, second: Step, third: Step)
    requires IsCode(code) && CanStep(code, first) && CanStep(Apply(code, first), second)
    requires CanStep(Apply(Apply(code, first), second), third)
    ensures CanRun(code, [first, second, third])
    ensures ApplyAll(code, [first, second, third]) == Apply(Apply(Apply(code, first), second), third)
  {
    hide IsCode, CanRun, ApplyAll, Apply, CanStep;
    var code1 := Apply(code, first);
    RunOne(code, first);
    RunOne(code1, second);
    RunOne(Apply(code1, second), third);
    RunConcat(code1, [second], [third]);
    RunConcat(code, [first], [second] + [third]);
    assert [first, second, third] == [first] + ([second] + [third]);
  }

  lemma PadIsStep(code: Code, st: UnwindState)
    requires IsCode(code) && IsExceptionState(st) && HasTerminator(code.stack, st)
    ensures CanStep(code, GenPad(st)) && Apply(code, GenPad(st)) == GenLandingPad(code, st).0
  {
    hide IsCode, GenLandingPad;
  }

  /** A pad asked for with a catch above the topmost active entry is stored in that entry too. */
  lemma PadBelowCatch(code: Code, catcher: Kind) returns (code': Code, pad: BlockId)
    requires IsCode(code) && HasTerminator(code.stack, Rethrow) && NoPads(code.stack) && catcher.Catch?
    requires |code.stack| > 0 && IsActive(code.stack[|code.stack| - 1].kind, Rethrow)
    ensures var steps := [Push(catcher), GenPad(Rethrow), Pop];
      CanRun(code, steps) && code' == ApplyAll(code, steps)
    ensures Kinds(code'.stack) == Kinds(code.stack) && |code'.stack| == |code.stack|
    ensures Rethrow in code'.stack[|code.stack| - 1].landingPad && code'.stack[|code.stack| - 1].landingPad[Rethrow] == pad
    ensures pad < |code'.blocks| && code'.blocks[pad].term.Pad?
    ensures code'.blocks[pad].term.clauses == [catcher.typeInfo] + CatchTypes(code.stack)
  {
    hide IsCode, GenLandingPad, CanRun, ApplyAll, HasTerminator, Kinds, IsStack, CatchTypes, LatestLandingPad, NoPads;
    hide IsActive;
    var code1 := CatchPushed(code, catcher);
    assert code1.stack[..|code.stack|] == code.stack;
    var code2: Code;
    code2, pad := GenLandingPad(code1, Rethrow).0, GenLandingPad(code1, Rethrow).1;
    PadStored(code1);
    PadIsStep(code1, Rethrow);
    code' := Apply(code2, Pop);
    KindsOfPrefix(code1.stack, |code.stack|);
    KindsOfPrefix(code2.stack, |code.stack|);
    RunThree(code, Push(catcher), GenPad(Rethrow), Pop);
  }

  lemma PadStored(code: Code)
    requires IsCode(code) && HasTerminator(code.stack, Rethrow) && LatestLandingPad(code.stack, Rethrow).None?
    requires |code.stack| > 1 && code.stack[|code.stack| - 1].kind.Catch? && IsActive(code.stack[|code.stack| - 2].kind, Rethrow)
    ensures var (code', pad) := GenLandingPad(code, Rethrow);
      && |code'.stack| == |code.stack| && Kinds(code'.stack) == Kinds(code.stack)
      && pad < |code'.blocks| && code'.blocks[pad].term.Pad?
      && code'.blocks[pad].term.clauses == CatchTypes(code.stack)
      && Rethrow in code'.stack[|code.stack| - 2].landingPad && code'.stack[|code.stack| - 2].landingPad[Rethrow] == pad
  {
    hide IsCode, GenUnwindBlock, CatchTypes, HasTerminator, IsStack, AnyUnwindCleanupActions;
    OpenBlockKeepsCode(code);
    var pad, n := |code.blocks|, |code.stack|;
    var code1 := GenUnwindBlock(code.(blocks := code.blocks + [Block([], Open)]), Rethrow).0;
    SameKindsSameTerminators(code.stack, code1.stack, Rethrow);
    var stack' := SetLatestLandingPad(code1.stack, Rethrow, pad);
    SameKindsSameTerminators(code1.stack, stack', Rethrow);
    var rest := code1.stack[..n - 1];
    assert code1.stack[n - 1].kind == code.stack[n - 1].kind && rest[n - 2].kind == code.stack[n - 2].kind;
    assert SetLatestLandingPad(rest, Rethrow, pad) == rest[..n - 2] + [SetLandingPad(rest[n - 2], Rethrow, pad)];
    assert stack' == SetLatestLandingPad(rest, Rethrow, pad) + [SetLandingPad(code1.stack[n - 1], Rethrow, pad)];
    assert GenLandingPad(code, Rethrow).0.stack == stack';
  }

  function TopRethrow(kinds: seq<Kind>): (p: nat)
    requires Terminates(kinds, Rethrow)
    ensures p < |kinds| && IsActive(kinds[p], Rethrow) && Terminates(kinds[..p + 1], Rethrow)
    ensures forall k :: p < k < |kinds| ==> !IsActive(kinds[k], Rethrow)
  {
    var rest := kinds[..|kinds| - 1];
    if IsActive(kinds[|kinds| - 1], Rethrow) then
      assert kinds[..|kinds|] == kinds;
      |kinds| - 1
    else
      assert Terminates(rest, Rethrow) by {
        var k :| 0 <= k < |kinds| && IsActive(kinds[k], Rethrow) && IsTerminator(kinds[k]);
        assert rest[k] == kinds[k];
      }
      var p := TopRethrow(rest);
      assert rest[..p + 1] == kinds[..p + 1];
      p
  }

  /** Asks for the pad with a catch pushed above the entry at `p`, pops it, and pushes the rest. */
  function StaleSteps(kinds: seq<Kind>, p: nat, typeInfo: nat): seq<Step>
    requires p < |kinds|
  {
    Pushes(kinds[1..p + 1]) + ([Push(Catch(0, typeInfo)), GenPad(Rethrow), Pop] + Pushes(kinds[p + 1..]))
  }

  lemma StaleHistory(kinds: seq<Kind>, p: nat, typeInfo: nat) returns (code: Code, pad: BlockId)
    requires IsKinds(kinds) && 0 < p < |kinds| && IsActive(kinds[p], Rethrow) && Terminates(kinds[..p + 1], Rethrow)
    ensures IsCode(INITIAL) && CanRun(INITIAL, StaleSteps(kinds, p, typeInfo))
    ensures code == ApplyAll(INITIAL, StaleSteps(kinds, p, typeInfo))
    ensures Kinds(code.stack) == kinds && p < |code.stack| == |kinds|
    ensures Rethrow in code.stack[p].landingPad && code.stack[p].landingPad[Rethrow] == pad
    ensures forall k :: p < k < |code.stack| ==> code.stack[k] == NewAction(kinds[k])
    ensures pad < |code.blocks| && code.blocks[pad].term.Pad?
    ensures code.blocks[pad].term.clauses == [typeInfo] + KindTypes(kinds[..p + 1])
  {
    hide IsCode, CanRun, ApplyAll, HasTerminator, Kinds, IsStack, KindTypes, CatchTypes, Terminates, Pushes, IsActive;
    hide NoPads;
    var below, above, asking := kinds[1..p + 1], kinds[p + 1..], [Push(Catch(0, typeInfo)), GenPad(Rethrow), Pop];
    var code1 := PushedUpTo(kinds, p);
    var code2: Code;
    code2, pad := PadBelowCatch(code1, Catch(0, typeInfo));
    PushAll(code2, above);
    code := Code(code2.blocks, code2.stack + NewActions(above));
    NewKinds(code2.stack, above);
    RunConcat(code1, asking, Pushes(above));
    RunConcat(INITIAL, Pushes(below), asking + Pushes(above));
    assert kinds == kinds[..p + 1] + above;
    TypesOfKinds(code1.stack);
    assert forall k :: p < k < |kinds| ==> above[k - p - 1] == kinds[k];
  }

  /**
   For every stack with a rethrow scope there is a history, with one pad asked for below a catch that is
   popped again, after which the pad found for a rethrow lists other clauses than a fresh pad would.
   */
  lemma UnguardedGoesStale(kinds: seq<Kind>) returns (steps: seq<Step>)
    requires IsKinds(kinds) && Terminates(kinds, Rethrow)
    ensures IsCode(INITIAL) && CanRun(INITIAL, steps)
    ensures var code := ApplyAll(INITIAL, steps);
      && Kinds(code.stack) == kinds && HasTerminator(code.stack, Rethrow)
      && var pad := LatestLandingPad(code.stack, Rethrow);
      pad.At? && pad.pos < |code.blocks| && code.blocks[pad.pos].term != FreshContent(code, Rethrow)
  {
    hide IsCode, GenUnwindBlock, CanRun, ApplyAll, HasTerminator, Kinds, LatestLandingPad, KindTypes, CatchTypes;
    hide Terminates, StaleSteps, IsActive;
    var p := TopRethrow(kinds);
    assert p > 0 by { MarkerNoRethrow(); }
    var typeInfo := if KindTypes(kinds[p + 1..]) == [0] then 1 else 0;
    var code, pad := StaleHistory(kinds, p, typeInfo);
    steps := StaleSteps(kinds, p, typeInfo);
    KindsTerminate(code.stack, Rethrow);
    FoundAt(code.stack, p, Rethrow);
    TypesOfKinds(code.stack);
    OtherTypes(kinds, p + 1, typeInfo);
  }

  lemma PushedUpTo(kinds: seq<Kind>, p: nat) returns (code: Code)
    requires IsKinds(kinds) && 0 < p < |kinds| && IsActive(kinds[p], Rethrow) && Terminates(kinds[..p + 1], Rethrow)
    ensures IsCode(INITIAL) && CanRun(INITIAL, Pushes(kinds[1..p + 1])) && code == ApplyAll(INITIAL, Pushes(kinds[1..p + 1]))
    ensures Kinds(code.stack) == kinds[..p + 1] && |code.stack| == p + 1 && NoPads(code.stack)
    ensures HasTerminator(code.stack, Rethrow) && IsActive(code.stack[p].kind, Rethrow)
  {
    hide IsCode, CanRun, ApplyAll, HasTerminator, Kinds, IsStack, Terminates, Pushes, IsActive;
    InitialInv();
    var below := kinds[1..p + 1];
    PushAll(INITIAL, below);
    code := Code([], INITIAL.stack + NewActions(below));
    NewKinds(INITIAL.stack, below);
    OneKind(INITIAL.stack);
    assert Kinds(code.stack) == kinds[..p + 1];
    KindsTerminate(code.stack, Rethrow);
  }

  lemma MarkerNoRethrow()
    ensures !IsActive(FunctionMarker, Rethrow)
  {}

  lemma OtherTypes(kinds: seq<Kind>, n: nat, typeInfo: nat)
    requires n <= |kinds| && KindTypes(kinds[n..]) != [typeInfo]
    ensures KindTypes(kinds) != [typeInfo] + KindTypes(kinds[..n])
  {
    hide KindTypes;
    TypesSplit(kinds, n);
    if KindTypes(kinds) == [typeInfo] + KindTypes(kinds[..n]) {
      SameFront(KindTypes(kinds[n..]), [typeInfo], KindTypes(kinds[..n]));
    }
  }
}

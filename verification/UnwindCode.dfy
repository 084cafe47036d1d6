/**
 The control-flow graph that unwinding is compiled to, what running it does, and the
 generator as functions from one state of the graph and the stack to the next.
 The imperative form of the same generator is the class `UnwindEmitter.FunctionCode`.
 */
module UnwindCode {
  import opened UnwindAction

  // ----- What unwinding means -----

  /** Where control ends up when the unwind reaches a terminator. */
  datatype Exit =
    | ToCatch(handler: nat)
    | ToScopeEnd(end: nat)
    | Resume
    | ReturnSaved
    | ToBreak(after: nat)
    | ToContinue(advance: nat)
    | EnterThrow

  /** The actions performed, in order, and the exit taken after them. */
  datatype Outcome = Done(trace: seq<Kind>, exit: Exit) | NoTerminator

  /** The exit of a terminator that is active for `st`. */
  function ExitOf(kind: Kind, st: UnwindState): Exit
    requires IsTerminator(kind) && IsActive(kind, st)
  {
    match kind
    case Catch(handler, _) => ToCatch(handler)
    case ScopeMarker(end) => ToScopeEnd(end)
    case FunctionMarker => if st == Throw then Resume else ReturnSaved
    case ControlFlow(after, advance) => if st == Break then ToBreak(after) else ToContinue(advance)
    case RethrowScope => EnterThrow
  }

  function Prepend(events: seq<Kind>, outcome: Outcome): Outcome {
    match outcome
    case Done(trace, exit) => Done(events + trace, exit)
    case NoTerminator => NoTerminator
  }

  /** The simple meaning: perform the active entries from the top down to the first active terminator. */
  function Unwind(stack: seq<Kind>, st: UnwindState): Outcome {
    if stack == [] then NoTerminator
    else
      var top, rest := stack[|stack| - 1], stack[..|stack| - 1];
      if !IsActive(top, st) then Unwind(rest, st)
      else if IsTerminator(top) then Done([], ExitOf(top, st))
      else Prepend([top], Unwind(rest, st))
  }

  // ----- The generated graph -----

  datatype Terminator =
    | Open                                                         // not terminated yet
    | Br(target: BlockId)
    | Switch(default: BlockId, cases: seq<(UnwindState, BlockId)>) // on the unwind-state variable
    | Leave(exit: Exit)
    | ThrowFrom(throwTarget: BlockId)                              // branch from a rethrow scope into a throw unwind
    | Pad(clauses: seq<nat>, cleanup: bool, padState: UnwindState, padTarget: BlockId)

  datatype Block = Block(events: seq<Kind>, term: Terminator)

  /** A switch goes to the first case for the value, or else to its default. */
  function Lookup(cases: seq<(UnwindState, BlockId)>, default: BlockId, st: UnwindState): BlockId {
    if cases == [] then default
    else if cases[0].0 == st then cases[0].1
    else Lookup(cases[1..], default, st)
  }

  predicate Jumps(term: Terminator) {
    term.Br? || term.Switch?
  }

  function DefaultOf(term: Terminator): BlockId
    requires Jumps(term)
  {
    if term.Br? then term.target else term.default
  }

  function CasesOf(term: Terminator): seq<(UnwindState, BlockId)>
    requires Jumps(term)
  {
    if term.Br? then [] else term.cases
  }

  /** Where a branch or switch goes when the state variable holds `st`. */
  function Successor(term: Terminator, st: UnwindState): BlockId
    requires Jumps(term)
  {
    Lookup(CasesOf(term), DefaultOf(term), st)
  }

  datatype RunResult = Finished(trace: seq<Kind>, exit: Exit) | Stuck | OutOfSteps

  /**
   Runs the graph from block `b` with the unwind-state variable holding `v`, for at most `steps` blocks
   or up to the block of a rethrow scope; `UnwindWhole.RunOn` goes on from there.
   */
  function Run(blocks: seq<Block>, b: BlockId, v: UnwindState, steps: nat): RunResult
    decreases steps
  {
    if steps == 0 then OutOfSteps
    else if b >= |blocks| then Stuck
    else
      match blocks[b].term
      case Leave(exit) => Finished(blocks[b].events, exit)
      case ThrowFrom(_) => Finished(blocks[b].events, EnterThrow)
      case Open => Stuck
      case Pad(_, _, _, _) => Stuck
      case Br(target) => After(blocks[b].events, Run(blocks, target, v, steps - 1))
      case Switch(default, cases) => After(blocks[b].events, Run(blocks, Lookup(cases, default, v), v, steps - 1))
  }

  function After(events: seq<Kind>, result: RunResult): RunResult {
    match result
    case Finished(trace, exit) => Finished(events + trace, exit)
    case Stuck => Stuck
    case OutOfSteps => OutOfSteps
  }

  // ----- Queries on the stack -----

  datatype Code = Code(blocks: seq<Block>, stack: seq<Action>)

  function Kinds(stack: seq<Action>): (kinds: seq<Kind>)
    ensures |kinds| == |stack|
    ensures forall i :: 0 <= i < |stack| ==> kinds[i] == stack[i].kind
  {
    seq(|stack|, i requires 0 <= i < |stack| => stack[i].kind)
  }

  predicate SamePads(stack: seq<Action>, stack': seq<Action>) {
    && |stack| == |stack'|
    && forall i :: 0 <= i < |stack| ==> stack'[i].landingPad == stack[i].landingPad
  }

  /** Every function's stack starts with its function marker. */
  predicate IsStack(stack: seq<Action>) {
    && |stack| > 0
    && stack[0].kind == FunctionMarker
    && (forall i :: 1 <= i < |stack| ==> stack[i].kind != FunctionMarker)
  }

  predicate TerminatesAt(stack: seq<Action>, pos: nat, st: UnwindState)
    requires pos < |stack|
  {
    IsActive(stack[pos].kind, st) && IsTerminator(stack[pos].kind)
  }

  predicate HasTerminator(stack: seq<Action>, st: UnwindState) {
    exists pos :: 0 <= pos < |stack| && TerminatesAt(stack, pos, st)
  }

  /** The position of the topmost active terminator. */
  function UnwindStartPosition(stack: seq<Action>, st: UnwindState): (pos: nat)
    requires HasTerminator(stack, st)
    ensures pos < |stack| && TerminatesAt(stack, pos, st)
    ensures forall i :: pos < i < |stack| ==> !TerminatesAt(stack, i, st)
    decreases |stack|
  {
    var top := |stack| - 1;
    if TerminatesAt(stack, top, st) then top
    else
      assert HasTerminator(stack[..top], st) by {
        var pos :| 0 <= pos < |stack| && TerminatesAt(stack, pos, st);
        assert TerminatesAt(stack[..top], pos, st);
      }
      var pos := UnwindStartPosition(stack[..top], st);
      assert TerminatesAt(stack[..top], pos, st);
      assert forall i :: pos < i < top ==> TerminatesAt(stack, i, st) == TerminatesAt(stack[..top], i, st);
      pos
  }

  /** The topmost position whose entry is active, if there is one at or above `low`. */
  datatype Position = None | At(pos: nat)

  function TopActive(stack: seq<Action>, st: UnwindState, low: nat): (p: Position)
    requires low <= |stack|
    ensures p.At? ==> low <= p.pos < |stack| && IsActive(stack[p.pos].kind, st)
    ensures p.At? ==> forall i :: p.pos < i < |stack| ==> !IsActive(stack[i].kind, st)
    ensures p.None? ==> forall i :: low <= i < |stack| ==> !IsActive(stack[i].kind, st)
  {
    if |stack| == low then None
    else if IsActive(stack[|stack| - 1].kind, st) then At(|stack| - 1)
    else TopActive(stack[..|stack| - 1], st, low)
  }

  /** Position 0, the function marker, is ignored by these three queries. */
  predicate AnyUnwindActions(stack: seq<Action>, st: UnwindState)
    requires |stack| > 0
  {
    TopActive(stack, st, 1).At?
  }

  predicate AnyUnwindCleanupActions(stack: seq<Action>, st: UnwindState)
    requires |stack| > 0
  {
    var p := TopActive(stack, st, 1);
    p.At? && !IsTerminator(stack[p.pos].kind)
  }

  predicate AnyUnwindRethrowActions(stack: seq<Action>)
    requires |stack| > 0
  {
    var p := TopActive(stack, Rethrow, 1);
    p.At? && (!IsTerminator(stack[p.pos].kind) || TopActive(stack[..p.pos], Throw, 1).At?)
  }

  // ----- Generating unwind blocks -----

  /** The cached blocks of an entry exist, and have an end just when the entry lets the unwind go on. */
  predicate CacheInRange(blocks: nat, action: Action) {
    forall s <- action.actionBlock ::
      var range := action.actionBlock[s];
      && range.start < blocks
      && (range.Blocks? <==> !IsTerminator(action.kind))
      && (range.Blocks? ==> range.end < blocks)
  }

  predicate IsCode(code: Code) {
    && IsStack(code.stack)
    && forall i :: 0 <= i < |code.stack| ==> CacheInRange(|code.blocks|, code.stack[i])
  }

  /** Caching a range at `i` keeps the kinds of the stack and the range of its caches. */
  lemma CachingKeepsCode(code: Code, blocks: seq<Block>, i: nat, st: UnwindState, range: BlockRange)
    requires IsCode(code) && i < |code.stack| && |code.blocks| <= |blocks|
    requires CanSetActionBlock(code.stack[i].kind, st)
    requires range.start < |blocks| && (range.Blocks? <==> !IsTerminator(code.stack[i].kind))
    requires range.Blocks? ==> range.end < |blocks|
    ensures var code' := Code(blocks, code.stack[i := SetActionBlock(code.stack[i], st, range)]);
      IsCode(code') && Kinds(code'.stack) == Kinds(code.stack)
  {
    var action' := SetActionBlock(code.stack[i], st, range);
    assert CacheInRange(|code.blocks|, code.stack[i]);
    assert CacheInRange(|blocks|, action');
  }

  /** The copy of the stack below a rethrow scope, while the scope's own block is still open. */
  function BelowRethrow(code: Code, pos: nat): (below: Code)
    requires IsCode(code) && 0 < pos < |code.stack|
    ensures IsCode(below) && TerminatesAt(below.stack, 0, Throw)
  {
    var below := Code(code.blocks + [Block([], Open)], code.stack[..pos]);
    assert forall i :: 0 <= i < pos ==> CacheInRange(|code.blocks|, below.stack[i]);
    below
  }

  /** What the block of a terminator other than a rethrow scope does. */
  function TopBlockFor(kind: Kind, st: UnwindState): Block
    requires IsTerminator(kind) && IsActive(kind, st) && kind != RethrowScope
  {
    Block([], Leave(ExitOf(kind, st)))
  }

  /**
   The block for the terminator at `pos`.  A rethrow scope's block continues with the throw
   unwind of a copy of the stack below it; what the copy caches is lost with the copy.
   */
  function GenTopUnwindAction(code: Code, pos: nat, st: UnwindState): (r: (Code, BlockId))
    requires IsCode(code) && pos < |code.stack| && TerminatesAt(code.stack, pos, st)
    ensures Kinds(r.0.stack) == Kinds(code.stack)
    ensures SamePads(code.stack, r.0.stack)
    ensures IsCode(r.0) && |code.blocks| <= |r.0.blocks|
    decreases |code.stack|, 0
  {
    var action := code.stack[pos];
    if st in action.actionBlock then (code, action.actionBlock[st].start)
    else
      var top := |code.blocks|;
      var blocks :=
        if action.kind == RethrowScope then
          var (inner, target) := GenUnwindBlock(BelowRethrow(code, pos), Throw);
          inner.blocks[top := Block([], ThrowFrom(target))]
        else
          code.blocks + [TopBlockFor(action.kind, st)];
      CachingKeepsCode(code, blocks, pos, st, TopBlock(top));
      (Code(blocks, code.stack[pos := SetActionBlock(action, st, TopBlock(top))]), top)
  }

  /** Makes the block end with a way to `next` for state `st`, keeping what it already has. */
  function Link(term: Terminator, st: UnwindState, next: BlockId): Terminator {
    match term
    case Br(target) => if target == next then term else Switch(target, [(st, next)])
    case Switch(default, cases) => Switch(default, cases + [(st, next)])
    case _ => term
  }

  /**
   The blocks performing an entry: a scope-exit body starts and ends in different blocks, the
   other actions are a single call.
   */
  function NewActionBlocks(kind: Kind, first: BlockId, next: BlockId): (r: (seq<Block>, BlockRange))
    requires !IsTerminator(kind)
  {
    match kind
    case ScopeExit(_, _) =>
      ([Block([kind], Br(first + 1)), Block([], Br(next))], Blocks(first, first + 1))
    case _ => ([Block([kind], Br(next))], Blocks(first, first))
  }

  /** One turn of the loop of `GenUnwindBlock`, at stack position `i`. */
  function LinkAction(code: Code, i: nat, st: UnwindState, next: BlockId): (r: (Code, BlockId))
    requires IsCode(code) && i < |code.stack| && !IsTerminator(code.stack[i].kind)
    ensures Kinds(r.0.stack) == Kinds(code.stack)
    ensures SamePads(code.stack, r.0.stack)
    ensures IsCode(r.0) && |code.blocks| <= |r.0.blocks|
  {
    var action := code.stack[i];
    if !IsActive(action.kind, st) then (code, next)
    else if st in action.actionBlock then
      var range := action.actionBlock[st];
      var block := code.blocks[range.end];
      (Code(code.blocks[range.end := block.(term := Link(block.term, st, next))], code.stack), range.start)
    else
      ActiveCanSet(action.kind, st);
      var (blocks, range) := NewActionBlocks(action.kind, |code.blocks|, next);
      CachingKeepsCode(code, code.blocks + blocks, i, st, range);
      (Code(code.blocks + blocks, code.stack[i := SetActionBlock(action, st, range)]), range.start)
  }

  /** The loop of `GenUnwindBlock`, from stack position `i` upwards. */
  function LinkActions(code: Code, i: nat, st: UnwindState, next: BlockId): (r: (Code, BlockId))
    requires IsCode(code) && i <= |code.stack|
    requires forall k :: i <= k < |code.stack| ==> !TerminatesAt(code.stack, k, st)
    ensures Kinds(r.0.stack) == Kinds(code.stack)
    ensures SamePads(code.stack, r.0.stack)
    ensures IsCode(r.0) && |code.blocks| <= |r.0.blocks|
    decreases |code.stack| - i
  {
    if i == |code.stack| then (code, next)
    else if !IsActive(code.stack[i].kind, st) then LinkActions(code, i + 1, st, next)
    else
      assert !TerminatesAt(code.stack, i, st);
      var (code', next') := LinkAction(code, i, st, next);
      SameKindsSameTerminators(code.stack, code'.stack, st);
      LinkActions(code', i + 1, st, next')
  }

  lemma SameKindsSameTerminators(stack: seq<Action>, stack': seq<Action>, st: UnwindState)
    requires Kinds(stack) == Kinds(stack')
    ensures |stack| == |stack'|
    ensures forall k :: 0 <= k < |stack| ==> stack[k].kind == stack'[k].kind
    ensures forall k :: 0 <= k < |stack| ==> (TerminatesAt(stack, k, st) <==> TerminatesAt(stack', k, st))
    ensures IsStack(stack) <==> IsStack(stack')
  {
    assert |Kinds(stack)| == |Kinds(stack')|;
    assert forall k :: 0 <= k < |stack| ==> Kinds(stack)[k] == Kinds(stack')[k];
  }

  /** The entry block of an unwind in state `st`, with the graph and caches it leaves behind. */
  function GenUnwindBlock(code: Code, st: UnwindState): (r: (Code, BlockId))
    requires IsCode(code) && HasTerminator(code.stack, st)
    ensures Kinds(r.0.stack) == Kinds(code.stack)
    ensures SamePads(code.stack, r.0.stack)
    ensures IsCode(r.0) && |code.blocks| <= |r.0.blocks|
    decreases |code.stack|, 1
  {
    var start := UnwindStartPosition(code.stack, st);
    var (code', next) := GenTopUnwindAction(code, start, st);
    SameKindsSameTerminators(code.stack, code'.stack, st);
    LinkActions(code', start + 1, st, next)
  }

  // ----- The generator, one step at a time -----

  lemma GenIs(code: Code, st: UnwindState, start: nat)
    requires IsCode(code) && HasTerminator(code.stack, st)
    requires start < |code.stack| && TerminatesAt(code.stack, start, st)
    requires forall k :: start < k < |code.stack| ==> !TerminatesAt(code.stack, k, st)
    ensures var (code1, next) := GenTopUnwindAction(code, start, st);
      && IsCode(code1) && |code1.stack| == |code.stack|
      && (forall k :: 0 <= k < |code.stack| ==> code1.stack[k].kind == code.stack[k].kind)
      && (forall k :: start < k < |code.stack| ==> !TerminatesAt(code1.stack, k, st))
      && GenUnwindBlock(code, st) == LinkActions(code1, start + 1, st, next)
  {
    hide GenTopUnwindAction, LinkActions, IsCode, UnwindStartPosition, Kinds, HasTerminator, TerminatesAt, IsStack;
    StartIs(code.stack, st, start);
    SameKindsSameTerminators(code.stack, GenTopUnwindAction(code, start, st).0.stack, st);
  }

  lemma StartIs(stack: seq<Action>, st: UnwindState, start: nat)
    requires start < |stack| && TerminatesAt(stack, start, st)
    requires forall k :: start < k < |stack| ==> !TerminatesAt(stack, k, st)
    ensures HasTerminator(stack, st) && UnwindStartPosition(stack, st) == start
  {}

  lemma LinkSkips(code: Code, i: nat, st: UnwindState, next: BlockId)
    requires IsCode(code) && i <= |code.stack|
    requires forall k :: i <= k < |code.stack| ==> !TerminatesAt(code.stack, k, st)
    ensures i == |code.stack| ==> LinkActions(code, i, st, next) == (code, next)
    ensures i < |code.stack| && !IsActive(code.stack[i].kind, st) ==>
      LinkActions(code, i, st, next) == LinkActions(code, i + 1, st, next)
  {
    hide IsCode, LinkAction;
  }

  // ----- Landing pads -----

  /** The catch types on the stack, from the top down. */
  function CatchTypes(stack: seq<Action>): seq<nat> {
    if stack == [] then []
    else
      var top, rest := stack[|stack| - 1], CatchTypes(stack[..|stack| - 1]);
      if top.kind.Catch? then [top.kind.typeInfo] + rest else rest
  }

  /** The pad found by searching down to the topmost active entry. */
  function LatestLandingPad(stack: seq<Action>, st: UnwindState): Position {
    if stack == [] then None
    else
      var top := stack[|stack| - 1];
      if st in top.landingPad then At(top.landingPad[st])
      else if IsActive(top.kind, st) then None
      else LatestLandingPad(stack[..|stack| - 1], st)
  }

  /** Stores the pad in every entry down to the topmost active one. */
  function SetLatestLandingPad(stack: seq<Action>, st: UnwindState, pad: BlockId): (stack': seq<Action>)
    ensures Kinds(stack') == Kinds(stack)
    ensures forall i :: 0 <= i < |stack| ==> stack'[i].actionBlock == stack[i].actionBlock
  {
    if stack == [] then []
    else
      var top, rest := stack[|stack| - 1], stack[..|stack| - 1];
      assert stack == rest + [top];
      if IsActive(top.kind, st) then rest + [SetLandingPad(top, st, pad)]
      else SetLatestLandingPad(rest, st, pad) + [SetLandingPad(top, st, pad)]
  }

  lemma OpenBlockKeepsCode(code: Code)
    requires IsCode(code)
    ensures IsCode(code.(blocks := code.blocks + [Block([], Open)]))
  {
    assert forall i :: 0 <= i < |code.stack| ==> CacheInRange(|code.blocks|, code.stack[i]);
  }

  lemma StoringKeepsCode(code: Code, blocks: seq<Block>, st: UnwindState, pad: BlockId)
    requires IsCode(code) && |blocks| == |code.blocks|
    ensures var stack' := SetLatestLandingPad(code.stack, st, pad);
      IsCode(Code(blocks, stack')) && Kinds(stack') == Kinds(code.stack)
  {
    var stack' := SetLatestLandingPad(code.stack, st, pad);
    SameKindsSameTerminators(code.stack, stack', st);
    forall i | 0 <= i < |stack'|
      ensures CacheInRange(|blocks|, stack'[i])
    {
      assert CacheInRange(|code.blocks|, code.stack[i]);
    }
  }

  function GenLandingPad(code: Code, st: UnwindState): (r: (Code, BlockId))
    requires IsCode(code) && IsExceptionState(st) && HasTerminator(code.stack, st)
    ensures Kinds(r.0.stack) == Kinds(code.stack)
    ensures IsCode(r.0) && |code.blocks| <= |r.0.blocks|
  {
    var latest := LatestLandingPad(code.stack, st);
    if latest.At? then (code, latest.pos)
    else
      OpenBlockKeepsCode(code);
      var pad := |code.blocks|;
      var (code', target) := GenUnwindBlock(code.(blocks := code.blocks + [Block([], Open)]), st);
      var content := Pad(CatchTypes(code.stack), AnyUnwindCleanupActions(code.stack, st), st, target);
      StoringKeepsCode(code', code'.blocks[pad := Block([], content)], st, pad);
      (Code(code'.blocks[pad := Block([], content)], SetLatestLandingPad(code'.stack, st, pad)), pad)
  }

  // ----- Histories -----

  datatype Step =
    | Push(kind: Kind)
    | Pop
    | Gen(state: UnwindState)
    | GenPad(padState: UnwindState)

  const INITIAL := Code([], [NewAction(FunctionMarker)])

  /** What a caller may ask of the generator next. */
  predicate CanStep(code: Code, step: Step) {
    match step
    case Push(kind) => kind != FunctionMarker
    case Pop => |code.stack| > 1
    case Gen(st) => HasTerminator(code.stack, st)
    case GenPad(st) => IsExceptionState(st) && HasTerminator(code.stack, st)
  }

  function Apply(code: Code, step: Step): (code': Code)
    requires IsCode(code) && CanStep(code, step)
    ensures IsCode(code')
  {
    match step
    case Push(kind) => code.(stack := code.stack + [NewAction(kind)])
    case Pop => code.(stack := code.stack[..|code.stack| - 1])
    case Gen(st) =>
      var code' := GenUnwindBlock(code, st).0;
      SameKindsSameTerminators(code.stack, code'.stack, st);
      code'
    case GenPad(st) =>
      var code' := GenLandingPad(code, st).0;
      SameKindsSameTerminators(code.stack, code'.stack, st);
      code'
  }

  predicate CanRun(code: Code, steps: seq<Step>)
    requires IsCode(code)
    decreases |steps|
  {
    steps == [] || (CanStep(code, steps[0]) && CanRun(Apply(code, steps[0]), steps[1..]))
  }

  function ApplyAll(code: Code, steps: seq<Step>): (code': Code)
    requires IsCode(code) && CanRun(code, steps)
    ensures IsCode(code')
    decreases |steps|
  {
    if steps == [] then code else ApplyAll(Apply(code, steps[0]), steps[1..])
  }
}

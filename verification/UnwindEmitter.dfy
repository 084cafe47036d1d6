/**
 The generator as it works: loops over an unwind stack and a graph that are updated in place.
 Each method is proved against the function of the same name in `UnwindCode`.
 */
module UnwindEmitter {
  import opened UnwindAction
  import opened UnwindCode

  /** An entry that is not active for a rethrow does not change the answer. */
  lemma RethrowSkips(rest: seq<Action>)
    requires |rest| > 1 && !IsActive(rest[|rest| - 1].kind, Rethrow)
    ensures AnyUnwindRethrowActions(rest) == AnyUnwindRethrowActions(rest[..|rest| - 1])
  {
    var cut := rest[..|rest| - 1];
    var p := TopActive(cut, Rethrow, 1);
    assert p.At? ==> cut[..p.pos] == rest[..p.pos];
  }

  lemma SetPadEmpty(st: UnwindState, pad: BlockId)
    ensures SetLatestLandingPad([], st, pad) == []
  {}

  lemma SetPadStep(stack: seq<Action>, st: UnwindState, pad: BlockId)
    requires |stack| > 0
    ensures var top, rest := stack[|stack| - 1], stack[..|stack| - 1];
      SetLatestLandingPad(stack, st, pad) ==
        (if IsActive(top.kind, st) then rest else SetLatestLandingPad(rest, st, pad)) + [SetLandingPad(top, st, pad)]
  {}

  /** One turn of storing a pad, at position `pos`, with the entries above done. */
  lemma StoreStep(before: seq<Action>, pos: nat, st: UnwindState, pad: BlockId, done: seq<Action>)
    requires pos < |before|
    ensures var stack := before[..pos + 1] + done;
      var action := SetLandingPad(before[pos], st, pad);
      && stack[pos] == before[pos]
      && stack[pos := action] == before[..pos] + ([action] + done)
      && SetLatestLandingPad(before[..pos + 1], st, pad) + done ==
           (if IsActive(action.kind, st) then before[..pos] else SetLatestLandingPad(before[..pos], st, pad)) + ([action] + done)
  {
    hide SetLatestLandingPad;
    var rest := before[..pos + 1];
    SetPadStep(rest, st, pad);
    assert rest[..pos] == before[..pos];
    assert rest[pos] == before[pos];
  }

  /** One turn of the linking loop. */
  lemma LinkStep(code: Code, i: nat, st: UnwindState, next: BlockId)
    requires IsCode(code) && i < |code.stack|
    requires IsActive(code.stack[i].kind, st) && !IsTerminator(code.stack[i].kind)
    requires forall k :: i <= k < |code.stack| ==> !TerminatesAt(code.stack, k, st)
    ensures var (code', next') := LinkAction(code, i, st, next);
      && |code'.stack| == |code.stack|
      && (forall k :: i < k < |code'.stack| ==> !TerminatesAt(code'.stack, k, st))
      && LinkActions(code, i, st, next) == LinkActions(code', i + 1, st, next')
  {
    hide IsCode, LinkAction;
    SameKindsSameTerminators(code.stack, LinkAction(code, i, st, next).0.stack, st);
  }

  /** The function being generated: its blocks and its current unwind stack. */
  class FunctionCode {
    var blocks: seq<Block>
    var stack: seq<Action>

    function State(): Code
      reads this
    {
      Code(blocks, stack)
    }

    constructor ()
      ensures State() == INITIAL
    {
      blocks := [];
      stack := [NewAction(FunctionMarker)];
    }

    method PushUnwindAction(kind: Kind)
      requires IsCode(State()) && CanStep(State(), Push(kind))
      modifies this
      ensures IsCode(old(State())) && CanStep(old(State()), Push(kind)) && State() == Apply(old(State()), Push(kind))
    {
      stack := stack + [NewAction(kind)];
    }

    method PopUnwindAction()
      requires IsCode(State()) && CanStep(State(), Pop)
      modifies this
      ensures IsCode(old(State())) && CanStep(old(State()), Pop) && State() == Apply(old(State()), Pop)
    {
      stack := stack[..|stack| - 1];
    }

    // ----- Queries -----

    method FindTopActive(st: UnwindState, low: nat) returns (p: Position)
      requires low <= |stack|
      ensures p == TopActive(stack, st, low)
    {
      assert stack[..|stack|] == stack;
      var i := 0;
      while i < |stack| - low
        invariant 0 <= i <= |stack| - low
        invariant TopActive(stack, st, low) == TopActive(stack[..|stack| - i], st, low)
      {
        var pos := |stack| - i - 1;
        var rest := stack[..|stack| - i];
        if IsActive(stack[pos].kind, st) {
          return At(pos);
        }
        assert rest[..pos] == stack[..pos];
        i := i + 1;
      }
      p := None;
    }

    method ComputeAnyUnwindActions(st: UnwindState) returns (any: bool)
      requires |stack| > 0
      ensures any == AnyUnwindActions(stack, st)
    {
      var p := FindTopActive(st, 1);
      any := p.At?;
    }

    method ComputeAnyUnwindCleanupActions(st: UnwindState) returns (any: bool)
      requires |stack| > 0
      ensures any == AnyUnwindCleanupActions(stack, st)
    {
      var p := FindTopActive(st, 1);
      any := p.At? && !IsTerminator(stack[p.pos].kind);
    }

    /** Looks for rethrow actions, and for throw actions once past the rethrow scope. */
    method ComputeAnyUnwindRethrowActions() returns (any: bool)
      requires |stack| > 0
      ensures any == AnyUnwindRethrowActions(stack)
    {
      assert stack[..|stack|] == stack;
      var st := Rethrow;
      var i := 0;
      while i < |stack| - 1
        invariant 0 <= i <= |stack| - 1
        invariant st == Rethrow || st == Throw
        invariant AnyUnwindRethrowActions(stack) ==
          var rest := stack[..|stack| - i];
          if st == Rethrow then AnyUnwindRethrowActions(rest) else TopActive(rest, Throw, 1).At?
      {
        var pos := |stack| - i - 1;
        ghost var rest := stack[..|stack| - i];
        assert rest[..pos] == stack[..pos];
        if IsActive(stack[pos].kind, st) {
          if IsTerminator(stack[pos].kind) && st == Rethrow {
            st := Throw;
          } else {
            return true;
          }
        } else if st == Rethrow {
          RethrowSkips(rest);
        }
        i := i + 1;
      }
      any := false;
    }

    method FindUnwindStartPosition(st: UnwindState) returns (pos: nat)
      requires HasTerminator(stack, st)
      ensures pos == UnwindStartPosition(stack, st)
    {
      assert UnwindStartPosition(stack, st) < |stack|;
      var i := 0;
      while true
        invariant 0 <= i < |stack|
        invariant UnwindStartPosition(stack, st) <= |stack| - i - 1
        decreases |stack| - i
      {
        pos := |stack| - i - 1;
        if IsActive(stack[pos].kind, st) && IsTerminator(stack[pos].kind) {
          assert TerminatesAt(stack, pos, st);
          return;
        }
        assert !TerminatesAt(stack, pos, st);
        i := i + 1;
      }
    }

    // ----- Generating -----

    method GenTop(position: nat, st: UnwindState) returns (top: BlockId)
      requires IsCode(State()) && position < |stack| && TerminatesAt(stack, position, st)
      modifies this
      ensures IsCode(old(State())) && TerminatesAt(old(stack), position, st)
      ensures (State(), top) == GenTopUnwindAction(old(State()), position, st)
      decreases |stack|, 0
    {
      var action := stack[position];
      if st in action.actionBlock {
        return action.actionBlock[st].start;
      }
      ghost var before := State();
      top := |blocks|;
      blocks := blocks + [Block([], Open)];
      if action.kind == RethrowScope {
        // The scope continues as a throw, generated with a copy of the stack below it.
        var saved := stack;
        stack := stack[..position];
        assert State() == BelowRethrow(before, position);
        assert TerminatesAt(stack, 0, Throw);
        var target := GenBlock(Throw);
        stack := saved;
        blocks := blocks[top := Block([], ThrowFrom(target))];
      } else {
        blocks := blocks[top := TopBlockFor(action.kind, st)];
        assert blocks == before.blocks + [TopBlockFor(action.kind, st)];
      }
      ActiveCanSet(action.kind, st);
      stack := stack[position := SetActionBlock(action, st, TopBlock(top))];
    }

    method GenBlock(st: UnwindState) returns (nextBlock: BlockId)
      requires IsCode(State()) && HasTerminator(stack, st)
      modifies this
      ensures IsCode(old(State())) && HasTerminator(old(stack), st)
      ensures (State(), nextBlock) == GenUnwindBlock(old(State()), st)
      decreases |stack|, 1
    {
      ghost var before := State();
      hide GenUnwindBlock, GenTopUnwindAction, LinkActions, LinkAction, IsCode, UnwindStartPosition;
      var startPosition := FindUnwindStartPosition(st);
      assert TerminatesAt(stack, startPosition, st);
      nextBlock := GenTop(startPosition, st);
      GenIs(before, st, startPosition);
      var i := startPosition + 1;
      while i < |stack|
        invariant startPosition < i <= |stack| == |before.stack|
        invariant IsCode(State())
        invariant forall k :: i <= k < |stack| ==> !TerminatesAt(stack, k, st)
        invariant GenUnwindBlock(before, st) == LinkActions(State(), i, st, nextBlock)
      {
        assert !TerminatesAt(stack, i, st);
        LinkSkips(State(), i, st, nextBlock);
        if IsActive(stack[i].kind, st) {
          nextBlock := GenAction(i, st, nextBlock);
        }
        i := i + 1;
      }
      LinkSkips(State(), i, st, nextBlock);
    }

    /** Links the blocks of an active entry to `next`, generating them if there are none. */
    method GenAction(i: nat, st: UnwindState, next: BlockId) returns (start: BlockId)
      requires IsCode(State()) && i < |stack|
      requires IsActive(stack[i].kind, st) && !IsTerminator(stack[i].kind)
      requires forall k :: i <= k < |stack| ==> !TerminatesAt(stack, k, st)
      modifies this
      ensures IsCode(State()) && |stack| == old(|stack|)
      ensures forall k :: i < k < |stack| ==> !TerminatesAt(stack, k, st)
      ensures IsCode(old(State())) && forall k :: i <= k < |old(stack)| ==> !TerminatesAt(old(stack), k, st)
      ensures (State(), start) == LinkAction(old(State()), i, st, next)
      ensures LinkActions(old(State()), i, st, next) == LinkActions(State(), i + 1, st, start)
    {
      hide LinkActions;
      ghost var before := State();
      LinkStep(before, i, st, next);
      var action := stack[i];
      if st in action.actionBlock {
        var range := action.actionBlock[st];
        assert CacheInRange(|blocks|, action);
        var last := blocks[range.end];
        match last.term {
          case Br(target) =>
            // Only rewritten if it does not go to the right place already.
            if target != next {
              blocks := blocks[range.end := last.(term := Switch(target, [(st, next)]))];
            }
          case Switch(default, cases) =>
            blocks := blocks[range.end := last.(term := Switch(default, cases + [(st, next)]))];
          case _ =>
        }
        assert blocks == before.blocks[range.end := last.(term := Link(last.term, st, next))];
        start := range.start;
      } else {
        ActiveCanSet(action.kind, st);
        var (added, range) := NewActionBlocks(action.kind, |blocks|, next);
        blocks := blocks + added;
        stack := stack[i := SetActionBlock(action, st, range)];
        start := range.start;
      }
      SameKindsSameTerminators(before.stack, stack, st);
    }

    // ----- Landing pads -----

    method FindLatestLandingPad(st: UnwindState) returns (pad: Position)
      ensures pad == LatestLandingPad(stack, st)
    {
      assert stack[..|stack|] == stack;
      var i := 0;
      while i < |stack|
        invariant 0 <= i <= |stack|
        invariant LatestLandingPad(stack, st) == LatestLandingPad(stack[..|stack| - i], st)
      {
        var pos := |stack| - i - 1;
        assert stack[..|stack| - i][..pos] == stack[..pos];
        if st in stack[pos].landingPad {
          return At(stack[pos].landingPad[st]);
        }
        if IsActive(stack[pos].kind, st) {
          return None;
        }
        i := i + 1;
      }
      pad := None;
    }

    method StoreLatestLandingPad(st: UnwindState, pad: BlockId)
      modifies this`stack
      ensures stack == SetLatestLandingPad(old(stack), st, pad)
    {
      hide SetLatestLandingPad, IsActive;
      ghost var before, done := stack, [];
      assert before[..|before|] == before && before[..|before|] + done == before;
      SetPadEmpty(st, pad);
      var i := 0;
      while i < |stack|
        invariant 0 <= i <= |stack| == |before|
        invariant stack == before[..|before| - i] + done
        invariant SetLatestLandingPad(before, st, pad) == SetLatestLandingPad(before[..|before| - i], st, pad) + done
      {
        var pos := |stack| - i - 1;
        var action := SetLandingPad(stack[pos], st, pad);
        StoreStep(before, pos, st, pad, done);
        stack := stack[pos := action];
        done := [action] + done;
        if IsActive(action.kind, st) {
          return;
        }
        i := i + 1;
      }
    }

    method CollectCatchTypes() returns (catchTypes: seq<nat>)
      ensures catchTypes == CatchTypes(stack)
    {
      assert stack[..|stack|] == stack;
      catchTypes := [];
      var i := 0;
      while i < |stack|
        invariant 0 <= i <= |stack|
        invariant CatchTypes(stack) == catchTypes + CatchTypes(stack[..|stack| - i])
      {
        var pos := |stack| - i - 1;
        assert stack[..|stack| - i][..pos] == stack[..pos];
        if stack[pos].kind.Catch? {
          catchTypes := catchTypes + [stack[pos].kind.typeInfo];
        }
        i := i + 1;
      }
    }

    method GenPadBlock(st: UnwindState) returns (pad: BlockId)
      requires IsCode(State()) && CanStep(State(), GenPad(st))
      modifies this
      ensures IsCode(old(State())) && CanStep(old(State()), GenPad(st))
      ensures (State(), pad) == GenLandingPad(old(State()), st)
    {
      var latest := FindLatestLandingPad(st);
      if latest.At? {
        return latest.pos;
      }
      ghost var before := State();
      var catchTypes := CollectCatchTypes();
      var cleanup := ComputeAnyUnwindCleanupActions(st);
      pad := |blocks|;
      blocks := blocks + [Block([], Open)];
      forall i | 0 <= i < |stack| ensures CacheInRange(|blocks|, stack[i]) {
        assert CacheInRange(|before.blocks|, before.stack[i]);
      }
      var target := GenBlock(st);
      blocks := blocks[pad := Block([], Pad(catchTypes, cleanup, st, target))];
      StoreLatestLandingPad(st, pad);
    }
  }
}

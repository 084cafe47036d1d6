/**
 The entries of the unwind stack.  An entry says what to do when control leaves the
 region of code it guards, and remembers the basic blocks and landing pads already
 generated for it.
 */
module UnwindAction {

  /** How control is leaving; the run-time unwind-state variable holds one of these. */
  datatype UnwindState = Normal | Return | Break | Continue | Throw | Rethrow

  datatype ScopeExitState = Always | Success | Failure

  type BlockId = nat

  /** What an entry stands for.  Values, types, scopes and the blocks an entry leads to are opaque. */
  datatype Kind =
    | Destructor(destructorType: nat, value: nat)
    | Catch(catchTarget: nat, typeInfo: nat)
    | ScopeMarker(scopeEnd: nat)
    | FunctionMarker
    | ControlFlow(breakTarget: nat, continueTarget: nat)
    | ScopeExit(state: ScopeExitState, scope: nat)
    | RethrowScope
    | DestroyException(exceptionValue: nat)

  predicate IsExceptionState(st: UnwindState) {
    st == Throw || st == Rethrow
  }

  /** Terminators end an unwind; the other entries run and let the unwind go on. */
  predicate IsTerminator(kind: Kind) {
    match kind
    case Catch(_, _) => true
    case ScopeMarker(_) => true
    case ControlFlow(_, _) => true
    case FunctionMarker => true
    case RethrowScope => true
    case Destructor(_, _) => false
    case ScopeExit(_, _) => false
    case DestroyException(_) => false
  }

  predicate IsActive(kind: Kind, st: UnwindState) {
    match kind
    case Destructor(_, _) => true
    case Catch(_, _) => st == Throw
    case ScopeMarker(_) => st == Normal
    case FunctionMarker => st == Throw || st == Return
    case ControlFlow(_, _) => st == Break || st == Continue
    case ScopeExit(when, _) =>
      (IsExceptionState(st) && when != Success) || (!IsExceptionState(st) && when != Failure)
    case RethrowScope => st == Rethrow
    case DestroyException(_) => st == Throw
  }

  /** The blocks generated for an entry: a terminator has a start and no end. */
  datatype BlockRange = TopBlock(start: BlockId) | Blocks(start: BlockId, end: BlockId)

  /** A stack entry with its caches; a state missing from a map is a null slot. */
  datatype Action = Action(
    kind: Kind,
    actionBlock: map<UnwindState, BlockRange>,
    landingPad: map<UnwindState, BlockId>)

  function NewAction(kind: Kind): Action {
    Action(kind, map[], map[])
  }

  /** The states for which `SetActionBlock` accepts a block range. */
  predicate CanSetActionBlock(kind: Kind, st: UnwindState) {
    match kind
    case Destructor(_, _) => true
    case ScopeExit(_, _) => true
    case Catch(_, _) => IsExceptionState(st)
    case ScopeMarker(_) => st == Normal
    case FunctionMarker => st == Throw || st == Return
    case ControlFlow(_, _) => st == Break || st == Continue
    case RethrowScope => st == Rethrow
    case DestroyException(_) => st != Rethrow
  }

  /** The states that share the block range generated for `st`. */
  function SharingStates(kind: Kind, st: UnwindState): set<UnwindState>
    requires CanSetActionBlock(kind, st)
  {
    match kind
    case Destructor(_, _) => if IsExceptionState(st) then {Throw, Rethrow} else {Normal, Return, Break, Continue}
    case ScopeExit(_, _) => if IsExceptionState(st) then {Throw, Rethrow} else {Normal, Return, Break, Continue}
    case Catch(_, _) => {Throw, Rethrow}
    case ScopeMarker(_) => {Normal}
    case FunctionMarker => if st == Throw then {Throw} else {Return}
    case ControlFlow(_, _) => if st == Break then {Break} else {Continue}
    case RethrowScope => {Rethrow}
    case DestroyException(_) => if st == Throw then {Throw} else {Normal, Return, Break, Continue}
  }

  function SetActionBlock(action: Action, st: UnwindState, range: BlockRange): Action
    requires CanSetActionBlock(action.kind, st)
  {
    action.(actionBlock := map s | s in action.actionBlock.Keys + SharingStates(action.kind, st) ::
                             if s in SharingStates(action.kind, st) then range else action.actionBlock[s])
  }

  function SetLandingPad(action: Action, st: UnwindState, pad: BlockId): Action {
    action.(landingPad := action.landingPad[st := pad])
  }

  /** Every state that can reach an entry's action can store a block for it. */
  lemma ActiveCanSet(kind: Kind, st: UnwindState)
    requires IsActive(kind, st)
    ensures CanSetActionBlock(kind, st)
  {}

  /**
   Sharing is sound between the states that reach an entry: a block generated for one state
   is only ever handed to states that run the same action.
   */
  lemma SharedStatesRunSameAction(kind: Kind, st: UnwindState, other: UnwindState)
    requires CanSetActionBlock(kind, st) && other in SharingStates(kind, st)
    ensures IsActive(kind, st) && IsActive(kind, other) && IsTerminator(kind) ==> st == other
    ensures !IsTerminator(kind) ==> (IsActive(kind, st) <==> IsActive(kind, other))
  {}
}

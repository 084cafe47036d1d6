/**
 Which handler runs: exception types compile to tables of names, the personality function searches the
 clauses of a landing pad in order, and catch blocks compare the selector it found.
 */
module Handlers {
  import opened UnwindAction
  import opened UnwindCode

  // ----- Exception types and their tables -----

  /** An exception type with its chain of parents. */
  datatype ExceptionType = Base(name: string) | Derived(name: string, parent: ExceptionType)

  /** What a catch clause is compiled to; the null pointer catches everything. */
  datatype CatchInfo = CatchAll | CatchInfo(offset: nat, name: string)

  /** The names from the root ancestor down to the thrown type. */
  type ThrowInfo = seq<string>

  ghost predicate IsSelfOrAncestor(a: ExceptionType, t: ExceptionType) {
    a == t || (t.Derived? && IsSelfOrAncestor(a, t.parent))
  }

  function Depth(t: ExceptionType): nat {
    if t.Derived? then 1 + Depth(t.parent) else 0
  }

  function NamesUp(t: ExceptionType): seq<string> {
    [t.name] + if t.Derived? then NamesUp(t.parent) else []
  }

  function NamesDown(t: ExceptionType): seq<string> {
    (if t.Derived? then NamesDown(t.parent) else []) + [t.name]
  }

  function Reverse<T>(s: seq<T>): (r: seq<T>)
    ensures |r| == |s|
    ensures forall i :: 0 <= i < |s| ==> r[i] == s[|s| - 1 - i]
  {
    seq(|s|, i requires 0 <= i < |s| => s[|s| - 1 - i])
  }

  lemma {:induction false} NamesReversed(t: ExceptionType)
    ensures Reverse(NamesUp(t)) == NamesDown(t)
  {
    if t.Derived? {
      NamesReversed(t.parent);
      assert Reverse(NamesUp(t)) == Reverse(NamesUp(t.parent)) + [t.name];
    }
  }

  predicate CanCatch(catchInfo: CatchInfo, throwInfo: ThrowInfo) {
    if catchInfo.CatchAll? then true
    else if catchInfo.offset >= |throwInfo| then false
    else catchInfo.name == throwInfo[catchInfo.offset]
  }

  /** Counts the parents. */
  method GenCatchInfo(t: ExceptionType) returns (info: CatchInfo)
    ensures info == CatchInfo(Depth(t), t.name)
  {
    var offset, current := 0, t;
    while current.Derived?
      invariant offset + Depth(current) == Depth(t)
      decreases current
    {
      offset := offset + 1;
      current := current.parent;
    }
    info := CatchInfo(offset, t.name);
  }

  /** Collects the names upwards, then reverses them. */
  method GenThrowInfo(t: ExceptionType) returns (info: ThrowInfo)
    ensures info == NamesDown(t)
  {
    var names, current := [t.name], t;
    while current.Derived?
      invariant names + (if current.Derived? then NamesUp(current.parent) else []) == NamesUp(t)
      decreases current
    {
      current := current.parent;
      names := names + [current.name];
    }
    NamesReversed(t);
    info := Reverse(names);
  }

  /** The ancestor of a type at a depth. */
  function AncestorAt(t: ExceptionType, depth: nat): ExceptionType
    requires depth <= Depth(t)
  {
    if Depth(t) == depth then t else AncestorAt(t.parent, depth)
  }

  lemma {:induction false} NameAt(t: ExceptionType, depth: nat)
    requires depth <= Depth(t)
    ensures |NamesDown(t)| == Depth(t) + 1 && NamesDown(t)[depth] == AncestorAt(t, depth).name
    ensures IsSelfOrAncestor(AncestorAt(t, depth), t) && Depth(AncestorAt(t, depth)) == depth
  {
    if t.Derived? {
      NameAt(t.parent, if depth < Depth(t) then depth else 0);
    }
  }

  lemma {:induction false} AncestorUnique(a: ExceptionType, t: ExceptionType)
    requires IsSelfOrAncestor(a, t)
    ensures Depth(a) <= Depth(t) && AncestorAt(t, Depth(a)) == a
  {
    if a != t {
      AncestorUnique(a, t.parent);
    }
  }

  /** Full names identify types: no ancestor of the thrown type is another type of the same name. */
  ghost predicate NameIsUnique(c: ExceptionType, t: ExceptionType) {
    forall a :: IsSelfOrAncestor(a, t) && a.name == c.name ==> a == c
  }

  /** A clause matches exactly the thrown type's own type and its ancestors. */
  lemma CatchesExactlyAncestors(c: ExceptionType, t: ExceptionType)
    requires NameIsUnique(c, t)
    ensures CanCatch(CatchInfo(Depth(c), c.name), NamesDown(t)) <==> IsSelfOrAncestor(c, t)
  {
    hide IsSelfOrAncestor;
    NameAt(t, 0);
    if Depth(c) <= Depth(t) {
      NameAt(t, Depth(c));
    }
    if IsSelfOrAncestor(c, t) {
      AncestorUnique(c, t);
    }
  }

  // ----- Try scopes on the unwind stack -----

  /** What is nested: a try with its catch block and clauses, or another guard. */
  datatype Layer = InTry(block: nat, clauses: seq<nat>) | Guard(kind: Kind)

  ghost predicate ValidLayer(layer: Layer) {
    match layer
    case InTry(_, clauses) => clauses != []
    case Guard(kind) => !kind.Catch? && !kind.FunctionMarker?
  }

  ghost predicate ValidLayers(layers: seq<Layer>) {
    forall i :: 0 <= i < |layers| ==> ValidLayer(layers[i])
  }

  function CatchActions(block: nat, clauses: seq<nat>): (r: seq<Action>)
    ensures |r| == |clauses|
    ensures forall i :: 0 <= i < |r| ==> r[i] == NewAction(Catch(block, clauses[|clauses| - 1 - i]))
  {
    seq(|clauses|, i requires 0 <= i < |clauses| => NewAction(Catch(block, clauses[|clauses| - 1 - i])))
  }

  /** The stack inside the layers, the outermost first. */
  function StackOf(layers: seq<Layer>): seq<Action> {
    if layers == [] then [NewAction(FunctionMarker)]
    else
      var last := layers[|layers| - 1];
      StackOf(layers[..|layers| - 1])
        + (match last case InTry(block, clauses) => CatchActions(block, clauses) case Guard(kind) => [NewAction(kind)])
  }

  /** Entering a try pushes its clauses in reverse. */
  method EnterTry(stack: seq<Action>, catchBlock: nat, catchTypeList: seq<nat>) returns (stack': seq<Action>)
    requires catchTypeList != []
    ensures stack' == stack + CatchActions(catchBlock, catchTypeList)
  {
    stack' := stack;
    for i := 0 to |catchTypeList|
      invariant stack' == stack + CatchActions(catchBlock, catchTypeList)[..i]
    {
      var catchType := catchTypeList[|catchTypeList| - i - 1];
      stack' := stack' + [NewAction(Catch(catchBlock, catchType))];
    }
  }

  /** Leaving it pops as many entries, all of them catches. */
  method LeaveTry(stack: seq<Action>, ghost before: seq<Action>, ghost catchBlock: nat, catchTypeList: seq<nat>)
    returns (stack': seq<Action>)
    requires stack == before + CatchActions(catchBlock, catchTypeList)
    ensures stack' == before
  {
    stack' := stack;
    for i := 0 to |catchTypeList|
      invariant stack' == before + CatchActions(catchBlock, catchTypeList)[..|catchTypeList| - i]
    {
      ghost var left := CatchActions(catchBlock, catchTypeList)[..|catchTypeList| - i];
      assert stack'[|stack'| - 1] == left[|left| - 1];
      assert stack'[|stack'| - 1].kind.Catch?;
      stack' := stack'[..|stack'| - 1];
    }
  }

  /** The clauses in the order they are meant to be tried: innermost try first, in source order. */
  function ClauseOrder(layers: seq<Layer>): seq<nat> {
    if layers == [] then []
    else
      var last := layers[|layers| - 1];
      (if last.InTry? then last.clauses else []) + ClauseOrder(layers[..|layers| - 1])
  }

  lemma {:induction false} CatchTypesAppend(stack: seq<Action>, block: nat, clauses: seq<nat>)
    ensures CatchTypes(stack + CatchActions(block, clauses)) == clauses + CatchTypes(stack)
  {
    var all := stack + CatchActions(block, clauses);
    if clauses == [] {
      assert all == stack;
    } else {
      assert all[|all| - 1] == NewAction(Catch(block, clauses[0]));
      assert all[..|all| - 1] == stack + CatchActions(block, clauses[1..]);
      CatchTypesAppend(stack, block, clauses[1..]);
      assert [clauses[0]] + (clauses[1..] + CatchTypes(stack)) == clauses + CatchTypes(stack);
    }
  }

  /** A landing pad generated inside the layers lists the clauses in that order. */
  lemma {:induction false} PadListsClausesInOrder(layers: seq<Layer>)
    requires ValidLayers(layers)
    ensures CatchTypes(StackOf(layers)) == ClauseOrder(layers)
  {
    if layers == [] {
      assert StackOf(layers)[..0] == [];
    } else {
      var before, last := layers[..|layers| - 1], layers[|layers| - 1];
      PadListsClausesInOrder(before);
      assert ValidLayer(last);
      match last
      case InTry(block, clauses) => CatchTypesAppend(StackOf(before), block, clauses);
      case Guard(kind) =>
        var all := StackOf(layers);
        assert all[..|all| - 1] == StackOf(before);
    }
  }

  // ----- Where a throw goes next -----

  function NextExit(layers: seq<Layer>): Exit {
    if layers == [] then Resume
    else
      var last := layers[|layers| - 1];
      if last.InTry? then ToCatch(last.block) else NextExit(layers[..|layers| - 1])
  }

  /** Unwinding for a throw ends at the catch block of the innermost try, whatever its clauses are. */
  lemma {:induction false} ThrowReachesInnermostTry(layers: seq<Layer>)
    requires ValidLayers(layers)
    ensures Unwind(Kinds(StackOf(layers)), Throw).Done?
    ensures Unwind(Kinds(StackOf(layers)), Throw).exit == NextExit(layers)
  {
    hide Unwind;
    if layers == [] {
      MarkerResumes();
    } else {
      var before, last := layers[..|layers| - 1], layers[|layers| - 1];
      assert ValidLayer(last);
      match last
      case InTry(block, clauses) =>
        CatchStops(StackOf(before), block, clauses);
      case Guard(kind) =>
        ThrowReachesInnermostTry(before);
        GuardPasses(StackOf(before), kind);
    }
  }

  lemma MarkerResumes()
    ensures Unwind(Kinds([NewAction(FunctionMarker)]), Throw) == Done([], Resume)
  {
    assert Kinds([NewAction(FunctionMarker)]) == [FunctionMarker];
  }

  lemma CatchStops(stack: seq<Action>, block: nat, clauses: seq<nat>)
    requires clauses != []
    ensures Unwind(Kinds(stack + CatchActions(block, clauses)), Throw) == Done([], ToCatch(block))
  {
    var kinds := Kinds(stack + CatchActions(block, clauses));
    assert kinds[|kinds| - 1] == Catch(block, clauses[0]);
  }

  lemma GuardPasses(stack: seq<Action>, kind: Kind)
    requires !kind.Catch? && !kind.FunctionMarker? && Unwind(Kinds(stack), Throw).Done?
    ensures var outcome := Unwind(Kinds(stack + [NewAction(kind)]), Throw);
      outcome.Done? && outcome.exit == Unwind(Kinds(stack), Throw).exit
  {
    var kinds := Kinds(stack + [NewAction(kind)]);
    assert kinds[..|kinds| - 1] == Kinds(stack) && kinds[|kinds| - 1] == kind;
  }

  // ----- Selecting a handler -----

  /** The clause found, by its try's catch block and its number there. */
  datatype Handler = NoHandler | Handler(block: nat, index: nat)

  type ClauseTypes = map<nat, ExceptionType>

  ghost predicate Known(types: ClauseTypes, layers: seq<Layer>) {
    forall id :: id in ClauseOrder(layers) ==> id in types
  }

  ghost predicate IsFirstCatching(clauses: seq<nat>, infos: map<nat, CatchInfo>, throwInfo: ThrowInfo, selector: nat)
    requires forall id :: id in clauses ==> id in infos
  {
    exists k ::
      && 0 <= k < |clauses| && clauses[k] == selector && CanCatch(infos[selector], throwInfo)
      && forall j :: 0 <= j < k ==> !CanCatch(infos[clauses[j]], throwInfo)
  }

  /** The personality function's search through the actions of a call site; 0 stands for clean-up only. */
  method HandleAction(clauses: seq<nat>, infos: map<nat, CatchInfo>, throwInfo: ThrowInfo) returns (selector: nat)
    requires forall id :: id in clauses ==> id in infos && id > 0
    ensures selector == 0 <==> forall id :: id in clauses ==> !CanCatch(infos[id], throwInfo)
    ensures selector != 0 ==> IsFirstCatching(clauses, infos, throwInfo, selector)
  {
    for k := 0 to |clauses|
      invariant forall j :: 0 <= j < k ==> !CanCatch(infos[clauses[j]], throwInfo)
    {
      if CanCatch(infos[clauses[k]], throwInfo) {
        return clauses[k];
      }
    }
    return 0;
  }

  /** The first clause of a list for which a type matches. */
  ghost function FirstMatch(types: ClauseTypes, clauses: seq<nat>, t: ExceptionType): nat
    requires forall id :: id in clauses ==> id in types
  {
    if clauses == [] then 0
    else if IsSelfOrAncestor(types[clauses[0]], t) then clauses[0]
    else FirstMatch(types, clauses[1..], t)
  }

  /** The position of an id in a list, or its length. */
  function IndexOf(clauses: seq<nat>, id: nat): (k: nat)
    ensures k <= |clauses|
    ensures k < |clauses| ==> clauses[k] == id
    ensures k == |clauses| ==> id !in clauses
  {
    if clauses == [] then 0
    else if clauses[0] == id then 0
    else 1 + IndexOf(clauses[1..], id)
  }

  /** A catch block compares the selector with its clauses in turn; without a match the throw goes on outwards. */
  function Dispatch(layers: seq<Layer>, selector: nat): Handler {
    if layers == [] then NoHandler
    else
      var last := layers[|layers| - 1];
      if last.InTry? && selector in last.clauses then Handler(last.block, IndexOf(last.clauses, selector))
      else Dispatch(layers[..|layers| - 1], selector)
  }

  /** The handler the language prescribes: the first clause, innermost try first, for the type or an ancestor. */
  ghost function Prescribed(types: ClauseTypes, layers: seq<Layer>, t: ExceptionType): Handler
    requires Known(types, layers)
  {
    if layers == [] then NoHandler
    else
      var last := layers[|layers| - 1];
      assert forall id :: id in ClauseOrder(layers[..|layers| - 1]) ==> id in ClauseOrder(layers);
      if last.InTry? && exists k :: 0 <= k < |last.clauses| && IsSelfOrAncestor(types[last.clauses[k]], t)
      then Handler(last.block, IndexOf(last.clauses, FirstMatch(types, last.clauses, t)))
      else Prescribed(types, layers[..|layers| - 1], t)
  }

  // ----- The right handler runs -----

  lemma {:induction false} FirstMatchAppend(types: ClauseTypes, a: seq<nat>, b: seq<nat>, t: ExceptionType)
    requires forall id :: id in a + b ==> id in types
    requires 0 !in a
    ensures forall id :: id in a ==> id in types
    ensures forall id :: id in b ==> id in types
    ensures FirstMatch(types, a + b, t)
      == if exists k :: 0 <= k < |a| && IsSelfOrAncestor(types[a[k]], t) then FirstMatch(types, a, t)
         else FirstMatch(types, b, t)
  {
    hide IsSelfOrAncestor;
    assert forall id :: id in a ==> id in a + b;
    assert forall id :: id in b ==> id in a + b;
    if a == [] {
      assert a + b == b;
    } else {
      assert (a + b)[1..] == a[1..] + b;
      FirstMatchAppend(types, a[1..], b, t);
      if k :| 0 <= k < |a| && IsSelfOrAncestor(types[a[k]], t) {
        if k > 0 {
          assert a[1..][k - 1] == a[k];
        }
      }
    }
  }

  lemma {:induction false} FirstMatchIs(types: ClauseTypes, clauses: seq<nat>, t: ExceptionType)
    requires forall id :: id in clauses ==> id in types
    requires 0 !in clauses
    ensures var id := FirstMatch(types, clauses, t); id == 0 || id in clauses
    ensures (exists k :: 0 <= k < |clauses| && IsSelfOrAncestor(types[clauses[k]], t)) ==> FirstMatch(types, clauses, t) != 0
  {
    hide IsSelfOrAncestor;
    if clauses != [] {
      FirstMatchIs(types, clauses[1..], t);
      if k :| 0 <= k < |clauses| && IsSelfOrAncestor(types[clauses[k]], t) {
        if k > 0 {
          assert clauses[1..][k - 1] == clauses[k];
        }
      }
    }
  }

  /** Every clause was compiled to a table of its own. */
  ghost predicate Distinct(ids: seq<nat>) {
    0 !in ids && forall i, j :: 0 <= i < j < |ids| ==> ids[i] != ids[j]
  }

  lemma DistinctParts(a: seq<nat>, b: seq<nat>)
    requires Distinct(a + b)
    ensures Distinct(a) && Distinct(b) && forall id :: id in a ==> id !in b
  {
    var c := a + b;
    assert forall i :: 0 <= i < |b| ==> b[i] == c[|a| + i];
    assert forall i :: 0 <= i < |a| ==> a[i] == c[i];
  }

  /** Comparing selectors in the nested catch blocks finds the clause that the search selected. */
  lemma {:induction false} DispatchFindsSelected(types: ClauseTypes, layers: seq<Layer>, t: ExceptionType)
    requires Known(types, layers) && Distinct(ClauseOrder(layers))
    ensures Dispatch(layers, FirstMatch(types, ClauseOrder(layers), t)) == Prescribed(types, layers, t)
  {
    hide IsSelfOrAncestor, FirstMatch, Distinct;
    if layers != [] {
      var before, last := layers[..|layers| - 1], layers[|layers| - 1];
      var own, rest := if last.InTry? then last.clauses else [], ClauseOrder(before);
      DistinctParts(own, rest);
      NoZero(own);
      NoZero(rest);
      FirstMatchAppend(types, own, rest, t);
      FirstMatchIs(types, own, t);
      FirstMatchIs(types, rest, t);
      DispatchFindsSelected(types, before, t);
    }
  }

  lemma NoZero(ids: seq<nat>)
    requires Distinct(ids)
    ensures 0 !in ids
  {}

  /** The tables agree with the types. */
  ghost predicate Compiled(types: ClauseTypes, infos: map<nat, CatchInfo>) {
    forall id :: id in types ==> id in infos && infos[id] == CatchInfo(Depth(types[id]), types[id].name)
  }

  lemma {:induction false} SelectedIsFirst(types: ClauseTypes, infos: map<nat, CatchInfo>, clauses: seq<nat>,
      t: ExceptionType, selector: nat)
    requires Compiled(types, infos) && 0 !in clauses
    requires forall id :: id in clauses ==> id in types && NameIsUnique(types[id], t)
    requires selector == 0 <==> forall id :: id in clauses ==> !CanCatch(infos[id], NamesDown(t))
    requires selector != 0 ==> IsFirstCatching(clauses, infos, NamesDown(t), selector)
    ensures selector == FirstMatch(types, clauses, t)
  {
    hide IsSelfOrAncestor, NameIsUnique, CanCatch;
    if clauses != [] {
      CatchesExactlyAncestors(types[clauses[0]], t);
      if !CanCatch(infos[clauses[0]], NamesDown(t)) {
        if selector != 0 {
          var k :| 0 <= k < |clauses| && clauses[k] == selector && CanCatch(infos[selector], NamesDown(t))
            && forall j :: 0 <= j < k ==> !CanCatch(infos[clauses[j]], NamesDown(t));
          assert clauses[1..][k - 1] == clauses[k];
          assert forall j :: 0 <= j < k - 1 ==> clauses[1..][j] == clauses[j + 1];
        }
        SelectedIsFirst(types, infos, clauses[1..], t, selector);
      }
    }
  }

  /**
   The handler that runs for an exception thrown inside the layers is the prescribed one: the first
   clause, innermost try first and in source order, for its type or an ancestor.
   */
  method SelectHandler(types: ClauseTypes, infos: map<nat, CatchInfo>, layers: seq<Layer>, t: ExceptionType)
    returns (handler: Handler)
    requires ValidLayers(layers) && Known(types, layers) && Distinct(ClauseOrder(layers)) && Compiled(types, infos)
    requires forall id :: id in types ==> NameIsUnique(types[id], t)
    ensures handler == Prescribed(types, layers, t)
  {
    hide NameIsUnique, CanCatch;
    PadListsClausesInOrder(layers);
    NoZero(ClauseOrder(layers));
    var throwInfo := GenThrowInfo(t);
    var selector := HandleAction(CatchTypes(StackOf(layers)), infos, throwInfo);
    SelectedIsFirst(types, infos, ClauseOrder(layers), t, selector);
    DispatchFindsSelected(types, layers, t);
    handler := Dispatch(layers, selector);
  }
}

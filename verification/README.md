# Loci compiler core

The Loci compiler turns a language with destructors, scope exits, exceptions, templates and modules
into low-level code. In several places a clever encoding or a cache has to agree with a simple meaning.
This project models those places and proves the agreement.

**Unwinding** (`UnwindAction`, `UnwindCode`, `UnwindMeaning`, `UnwindRefinement`, `UnwindHistories`,
`UnwindPads`, `UnwindWhole`, `UnwindVariable`, `UnwindRepeats`, `UnwindDoubling`, `UnwindEmitter`). Leaving a
region of code performs the entries of a stack: destructors, scope exits, catches and markers. They are
compiled lazily into blocks that are shared between the ways of leaving; a plain branch is rewritten into a
switch on a state variable when a second way needs another successor. `Unwind` is the simple meaning, and
`UnwindMeaning` says it once more in terms of the language. The main theorem holds for every history of
pushes, pops and generated unwinds and landing pads, by an invariant that assigns every block the stack prefix
whose unwinding it performs. A second theorem follows unwinds past rethrow scopes and says for which stacks
they do not depend on what the state variable held before. `FunctionCode` is the generator in imperative form.

**Templates** (`Rounding`, `TemplateUses`, `TemplatePath`, `TemplateGenerator`, `TemplateGround`,
`TypeArrayMapper`). A ground instantiation is a root function and a 64-bit path. The ids of template uses are
appended to the path, and a chain of intermediate functions reads them back. The main theorem says that this
is substitution.

**Exit states** (`Predicate`, `PredicateMeaning`, `ExitStates`, `Statements`, `ExitSoundness`,
`ExitPrecision`). A static analysis of how statements can be left is proved sound for a big-step semantics,
and exact where every part of a program can be reached; its one-pass scan of a scope is exact. Substitution in
predicates is right for every interpretation of types.

**Objects in memory** (`Bits`, `Layout`, `LayoutExact`, `ObjectLife`, `ObjectAlignment`, `ObjectFrames`,
`ObjectConservation`, `ObjectSuffix`, `ObjectRuntime`). Offsets, sizes, liveness bytes and variant tags are
laid out in bytes; moves and destructors work on memory. The main theorem is conservation of custom destructor
calls.

**Smaller cores.** `Md5Words`, `Md5Transform`, `Md5`, `BitVectors` and `Md5Vector` (streaming hash equals
one-shot hash, and the digest of the empty message is that of the standard), `Handlers` (the handler that runs
is the prescribed one), `Mangling` (symbols can be read back in only one way), `Keywords` and
`IdentifierLexer` (nested switches over characters are maximal munch and a table lookup; the source's
functions for the prefixes are one data structure here, their cases in the order of the characters).

## What does not hold in general

- `genUnwind` stores the state only for return, break, continue and rethrow; a rethrow scope goes on as a
  throw and stores nothing. Where the variable holds something else, shared blocks may take another way's
  successor. `UnwindVariable.RightExactlyWhenSafe` says on which stacks this is harmless, whatever was
  generated before: a throw, and the part of a rethrow below its scope, must not pass a destructor or scope
  exit between which and the topmost rethrow scope below it there is an entry that only throws take notice
  of (an exception to destroy, or a catch); the end of a scope is reached by the right way exactly if there
  is nothing to clean up. For every other stack there is a history that goes wrong, with the variable at
  its initial value or at a rethrow that was caught. A rethrow out of a catch block, after which a nested
  catch block under the same destructor rethrows, is one: the outer exception is not destroyed.
- A switch can get several cases for one state (`UnwindDoubling.RepeatedCase`): linking adds a case whenever
  the block ends in a switch, so generating an unwind repeats one exactly if it passes an entry whose switch
  has a case for the state already (`UnwindRepeats.RepeatsExactly`), for instance when it is generated again.
  No history makes one on exactly those stacks where the entries that the unwind passes are passed by no
  other state of its class (`UnwindDoubling.NeverRepeatsExactly`). The model takes the first case;
  `UnwindHistories.RepeatedLinksAgree` shows that the choice does not matter. LLVM would not accept such a
  switch.
- A landing pad stored for a rethrow lists the catch clauses of the stack it was asked for
  (`UnwindPads.FoundPad`). It is right if pads for rethrows are asked for only where no catch is above the
  topmost rethrow scope. The semantic analysis rejects a rethrow statement inside a try inside a catch
  clause, but not if an `assert noexcept` is in between; then, for every stack, the pad can list a clause
  that has been popped (`UnwindPads.UnguardedGoesStale`).
- A bare return in the body of a scope exit is accepted by the semantic analysis, but the exit states of the
  scope do not have it (`ExitSoundness.ReturnInScopeExit`). Of the accepted bodies the rule is sound exactly
  for those without a return among their exits (`ExitSoundness.ScopeExitRuleIsSoundExactlyWithoutReturn`).
  The missing return can also hide a throw (`ExitSoundness.ReturnHidesThrow`).
- `assert noexcept` emits its scope and nothing else, and a throw inside only draws a warning. Exits that stay
  inside the function are listed whether such assertions hold or not; a throw past one is not
  (`ExitSoundness.AssertedThrow`).
- The exit rule of the for statement misses the exit past an empty range
  (`ExitSoundness.ForRuleIsSoundExactlyWhenCovered`, `ExitSoundness.ForNotCovered`).
- The suffix byte that marks a class object as live can lie just past the computed size when a member of
  unknown size ends the search for a gap (`Layout.SuffixFitsExactly`, `Layout.SuffixCanMissTheObject`).
  Destructor calls are conserved next to every object of a class exactly if that does not happen
  (`ObjectSuffix.ConservesExactlyInside`); the theorems about object life ask for it in `ObjectLife.WellFormed`.
- The 32-bit sum in the loop over MD5 blocks can wrap for a piece of 2^32 - 64 bytes or more
  (`Md5.GuardExact`).
- The implication prover is not reflexive (`Predicate.ImpliesIsNotReflexive`). It decides entailment of a
  predicate, from any other, exactly if it finds that the predicate implies itself; among these are all
  conjunctions of disjunctions (`Predicate.DecidesExactlyWhenReflexive`, `Predicate.ImpliesDecidesNormalForms`).
  It decides what a predicate entails exactly if that predicate means a disjunction
  (`Predicate.DecidesFromExactlyDisjunctions`). An incomplete answer is always a refusal.
- Names with a component that starts with a digit cannot be read back (`Mangling.NameRestored`) and can
  collide (`Mangling.DigitsCollide`).
- Rounding up to a power of two smears by 16 bits at most. In 64 bits it is right exactly for arguments up to
  2^63 whose predecessor has no 32 zero bits in a row below its highest bit (`Rounding.RightExactlyWithoutGap`);
  2^33 + 1 gives 2^34 - 3 (`Rounding.FallsShort`). Above 2^63 it can wrap to 0 (`Rounding.ZeroExactly`), and
  then the loop that counts halvings never ends (`Rounding.HalvingEndsExactly`).
- A path of more than 63 bits loses its leading 1 (`TemplatePath.PathRoundTrip`); the compiler does not
  check for it.

## Model

| member | source | states |
|---|---|---|
| UnwindHistories.UnwindRefined | lib/CodeGen/ScopeExitActions.cpp:218-327 | After any history of pushes, pops and generated unwinds and landing pads, the block returned for a state, run with the state variable holding that state, performs exactly the active entries of the stack from the top down to the first active terminator and leaves by that terminator; it still does so after anything generated later |
| UnwindMeaning.UnwindMeans | lib/CodeGen/UnwindAction.cpp:158-194 | For every stack and state: the unwind ends at the topmost entry that ends this way of leaving (a break at the break block of a control-flow entry, a continue at its continue block, a throw at a catch or by resuming, and so on), and runs exactly what it passes, from the top down: destructors, the scope exits that apply to this exit in the semantics of statements, and for throws the destruction of caught exceptions |
| UnwindMeaning.ScopeExitsRunAsWritten | lib/CodeGen/UnwindAction.cpp:176-183 | Above where the unwind ends, a scope(success) runs exactly if it is no throw or rethrow, a scope(failure) exactly if it is one, and destructors and other scope exits always |
| UnwindMeaning.GeneratedMeans | lib/CodeGen/ScopeExitActions.cpp:218-327 | After any history, what is generated for a stack runs as leaving means, now and after all later steps |
| UnwindMeaning.PadMeans | lib/CodeGen/Exception.cpp:163-221 | A landing pad in use lists the types of all catches on the stack, is flagged for clean-up exactly if leaving runs something, and goes on, with its state set, where leaving runs as it means |
| UnwindMeaning.PadIsUsed | lib/CodeGen/Exception.cpp:123-161 | A landing pad asked for is the one in use afterwards |
| UnwindMeaning.SharedExactly | lib/CodeGen/UnwindAction.cpp:196-275 | Of two states that run an entry, one gets the blocks of the other exactly if they are the same or both or neither are exception states and the entry is no terminator |
| UnwindHistories.LinkingIsSafe | lib/CodeGen/ScopeExitActions.cpp:267-322 | Turning branches into switches and adding cases keeps an invariant: every block stands for a stack prefix whose unwinding it performs for the states that rely on it, and no later step takes such a promise back |
| UnwindHistories.LinkedStatesNeverMove | lib/CodeGen/ScopeExitActions.cpp:279-305 | A state that a switch has a case for goes, after any further steps, to the same block as before |
| UnwindHistories.WayNeverChanges | lib/CodeGen/ScopeExitActions.cpp:267-322 | The whole sequence of blocks visited from a generated entry stays the same whatever is generated later |
| UnwindHistories.RepeatedLinksAgree | lib/CodeGen/ScopeExitActions.cpp:298-303 | In every reachable graph, all targets of repeated cases for one state perform the same unwinding |
| UnwindRepeats.RepeatsExactly | lib/CodeGen/ScopeExitActions.cpp:234-305 | On every reachable graph, generating an unwind leaves no repeated case if and only if there was none and it links no entry whose blocks end in a switch with a case for the state, counting the throw generated below a new rethrow scope |
| UnwindDoubling.NeverRepeatsExactly | lib/CodeGen/ScopeExitActions.cpp:234-305 | For every stack: no history makes the next unwind for a state repeat a case if and only if the entries it passes, and those the throw below its rethrow scope passes, are passed by no other state of the same class |
| UnwindDoubling.RepeatedCase | lib/CodeGen/ScopeExitActions.cpp:279-305 | A reachable graph with a repeated case: a return and two breaks out of a loop with something to destroy |
| UnwindRefinement.GenUnwindKeeps | lib/CodeGen/ScopeExitActions.cpp:256-327 | One generated unwind keeps the invariant of graph and stack, changes no earlier promise, and returns a block that performs the unwinding of the whole stack |
| UnwindRefinement.RunFromPlanned | lib/CodeGen/ScopeExitActions.cpp:234-327 | From a block relied on for a state, running the graph performs the unwinding of its stack prefix and finishes |
| UnwindAction.SharedStatesRunSameAction | lib/CodeGen/UnwindAction.cpp:200-275 | The states that share a cached block are states for which the entry performs the same action |
| UnwindVariable.RightExactlyWhenSafe | lib/CodeGen/ScopeExitActions.cpp:218-335 | For every stack: unwinds followed past rethrow scopes are right after all histories, with whatever the variable can hold then, now and after later steps, if and only if the stack is safe. Safe is every stack for return, break and continue; one on which the throw is not shadowed, for throws; one below whose rethrow scope it is not, for rethrows; and one with nothing to clean up for the end of a scope. Catches on two sides of a rethrow scope have different blocks, as emitted |
| UnwindVariable.StoredStatesAreAlwaysRight | lib/CodeGen/ScopeExitActions.cpp:329-335 | Only returns, breaks and continues are right on all stacks |
| UnwindWhole.SafeIsRight | lib/CodeGen/ScopeExitActions.cpp:218-335 | On safe stacks, after any history and whatever the variable held, the whole run from the generated entry is the whole meaning, and it still is after anything generated later |
| UnwindWhole.RunsAsThrow | lib/CodeGen/ScopeExitActions.cpp:279-305 | Whatever the variable holds, a block that a throw relies on runs as the throw if it is not shadowed: a successor made for a rethrow is only taken where both mean the same |
| UnwindWhole.RunsAsRethrow | lib/CodeGen/ScopeExitActions.cpp:123-128 | With rethrow in the variable, a rethrow runs to its scope and then as the throw below it, if that is not shadowed |
| UnwindWhole.WholeSplits | lib/CodeGen/ScopeExitActions.cpp:123-128 | The whole meaning of a rethrow is the rethrow up to its scope, followed by the throw of the stack below |
| UnwindWhole.RightWhenVariableMatches | lib/CodeGen/ScopeExitActions.cpp:329-335 | An unwind is right when the variable holds its state once it starts; a rethrow also needs the throw below its scope not to be shadowed, since there the variable does not match |
| UnwindVariable.ShadowedThrowGoesWrong | lib/CodeGen/ScopeExitActions.cpp:329-335 | For every stack with a shadowed throw there is a history after which a throw, with the variable at its initial value, takes the way of a rethrow and ends otherwise |
| UnwindVariable.ShadowedRethrowGoesWrong | lib/CodeGen/ScopeExitActions.cpp:123-128 | For every stack with a shadowed throw below its rethrow scope there is a history after which a rethrow does not do what it means below the scope |
| UnwindVariable.CleaningGoesWrong | lib/CodeGen/ScopeExitActions.cpp:339-363 | For every stack on which the end of a scope has something to clean up there is a history, with a rethrow caught in the function left in the variable, after which reaching the end returns from the function |
| UnwindVariable.DiffersMeans | lib/CodeGen/ScopeExitActions.cpp:123-128 | A throw and a whole rethrow mean the same if no entry above the topmost rethrow scope is for throws only; otherwise their exits differ or the throw performs more |
| UnwindVariable.FreshGen | lib/CodeGen/ScopeExitActions.cpp:256-327 | On a stack for which nothing has been generated, an unwind is right whatever the variable holds |
| UnwindPads.CachedPadIsFresh | lib/CodeGen/Exception.cpp:125-223 | After any history, a landing pad found in the stack has the clause list, clean-up flag and unwind target that a pad generated now would have: for a throw always, for a rethrow if such pads were and are asked for only with no catch above the topmost rethrow scope |
| UnwindPads.FoundPad | lib/CodeGen/Exception.cpp:125-223 | After any history, for either exception state, a pad found was made for a stack that a pad was asked for, which agrees with the present one up to the topmost active entry; it has the fresh flag and target and the clauses of that stack, and is fresh if and only if the catches above that entry are of the same types |
| UnwindPads.UnguardedGoesStale | lib/SemanticAnalysis/ConvertStatement.cpp:804-838 | For every stack with a rethrow scope, one pad asked for below a catch, as an assert noexcept inside a try inside a catch clause permits, makes a pad found later list other clauses than a fresh one |
| UnwindPads.CleanupMeansWork | lib/CodeGen/ScopeExitActions.cpp:150-167 | The clean-up query is true exactly when unwinding performs some action before its exit |
| UnwindPads.NoActionsMeansDirectExit | lib/CodeGen/ScopeExitActions.cpp:199-216 | The any-action query is false exactly when unwinding goes straight to the function marker |
| UnwindPads.RethrowActionsMeanWork | lib/CodeGen/ScopeExitActions.cpp:169-197 | The rethrow query is false exactly when a rethrow does nothing on the way to its scope and the throw below the scope leaves the function directly |
| UnwindEmitter.FunctionCode.constructor | lib/CodeGen/Function.cpp:42-45 | A function starts without unwind blocks and with its function marker on the stack |
| UnwindEmitter.FunctionCode.PushUnwindAction | lib/CodeGen/Function.cpp:311-313 | A pushed entry has no cached blocks and no landing pads |
| UnwindEmitter.FunctionCode.PopUnwindAction | lib/CodeGen/Function.cpp:315-317 | Popping drops the top entry with all it caches, and keeps the graph |
| UnwindEmitter.FunctionCode.GenBlock | lib/CodeGen/ScopeExitActions.cpp:256-327 | The loop over the stack with its in-place rewriting of blocks and caches leaves exactly the graph, stack and entry of the specification |
| UnwindEmitter.FunctionCode.GenAction | lib/CodeGen/ScopeExitActions.cpp:270-321 | One turn of that loop: the branch or switch of an existing block is extended, or new blocks are made and cached |
| UnwindEmitter.FunctionCode.GenTop | lib/CodeGen/ScopeExitActions.cpp:234-254 | The block of a terminator is found in its cache or generated and cached; a rethrow scope continues with the throw unwind of the stack below it |
| UnwindEmitter.FunctionCode.FindUnwindStartPosition | lib/CodeGen/ScopeExitActions.cpp:218-232 | The loop finds the topmost active terminator |
| UnwindEmitter.FunctionCode.ComputeAnyUnwindActions | lib/CodeGen/ScopeExitActions.cpp:199-216 | The loop answers the any-action query |
| UnwindEmitter.FunctionCode.ComputeAnyUnwindCleanupActions | lib/CodeGen/ScopeExitActions.cpp:150-167 | The loop answers the clean-up query |
| UnwindEmitter.FunctionCode.ComputeAnyUnwindRethrowActions | lib/CodeGen/ScopeExitActions.cpp:169-197 | The loop answers the rethrow query, including the switch to the throw state on the way down |
| UnwindEmitter.FunctionCode.FindLatestLandingPad | lib/CodeGen/Exception.cpp:125-144 | The search down the stack for a stored pad stops at the topmost active entry |
| UnwindEmitter.FunctionCode.StoreLatestLandingPad | lib/CodeGen/Exception.cpp:146-161 | The pad is stored in every entry down to the topmost active one |
| UnwindEmitter.FunctionCode.CollectCatchTypes | lib/CodeGen/Exception.cpp:185-195 | The loop lists the catch types from the top of the stack down |
| UnwindEmitter.FunctionCode.GenPadBlock | lib/CodeGen/Exception.cpp:163-223 | A stored pad is returned, otherwise a new one is generated with its clauses, flag and unwind, and stored |
| TemplateGenerator.GeneratorSubstitutes | lib/CodeGen/Template.cpp:173-234 | If the generator of the enclosing object leads to it with some ground arguments, the generator computed for a use inside it leads to the used object with those arguments substituted into the use: for static arguments, for the self use and for uses appended to the path |
| TemplateGround.GroundUseLands | lib/CodeGen/Template.cpp:172-199 | A use without variables gets all its type information, to any depth, wherever it is made: nothing is asked of the generator or the recorded uses of its owner |
| TemplateGround.NothingToGenerate | lib/CodeGen/Template.cpp:180-186 | Types without arguments and interfaces get a null generator |
| TemplateGround.RootExactlyWhenFixed | lib/CodeGen/Template.cpp:37-75 | A type counts as statically known if and only if no arguments for its variables change what code generation looks at, which is everything but the arguments of interfaces |
| TemplateGenerator.GroundIsRoot | lib/CodeGen/Template.cpp:37-75 | Types without variables are statically known, at every depth |
| TemplateGenerator.GeneratorDenotesSubstitution | lib/CodeGen/Template.cpp:173-234 | The same for all uses, including those without arguments and of interfaces: running the computed generator gives type information that describes the substituted arguments, at every nesting depth |
| TemplateGenerator.ChainSubstitutes | lib/CodeGen/Template.cpp:173-234 | Along any chain of templated calls whose path with its leading 1 fits 64 bits at every step, the generator handed over leads to the last object with the arguments that substitution alone gives, and decoding starts at the sum of the widths |
| TemplateGenerator.UseLands | lib/CodeGen/Template.cpp:502-652 | Decoding an extended path: the intermediate functions go through the same steps as for the shorter path, then take the case of the appended use, and every nested templated argument gets a path that decodes to its own substituted arguments |
| TemplateGenerator.SameSteps | lib/CodeGen/Template.cpp:537-563 | With a component appended, the chain of intermediate functions passes through the same objects with the same arrays up to the last step |
| TemplateGenerator.ArgPaths | lib/CodeGen/Template.cpp:604-626 | Replacing the last component, or dropping it for the self use, gives exactly the path that using the argument directly would give |
| TemplateGenerator.RootLands | lib/CodeGen/Template.cpp:291-373 | A root function run with path 1 stores information for the statically known arguments, at every nesting depth, and stops at once |
| TemplateGenerator.ArgRecorded | lib/CodeGen/Template.cpp:608-609 | The lookup of the component of a templated argument cannot fail |
| TemplateGenerator.BuiltTableOk | lib/CodeGen/TemplateBuilder.cpp:58-97 | A table built by adding well-formed uses in any order is what the translation relies on |
| TemplateUses.TableAlwaysClosed | lib/CodeGen/TemplateBuilder.cpp:40-97 | After any sequence of added uses the ids are exactly the numbers below the size of the table, each used once, every use added is recorded, and every nested templated argument of a recorded use is recorded or is the self use |
| TemplateUses.IdsNeverChange | lib/CodeGen/TemplateBuilder.cpp:58-97 | An id, once given, stays through all later uses |
| TemplateUses.AddUseKeeps | lib/CodeGen/TemplateBuilder.cpp:58-97 | Adding one use, with its nested arguments, keeps the ids dense and distinct and closes the table for the entries it adds |
| TemplateUses.IdsFit | lib/CodeGen/TemplateBuilder.cpp:104-119 | Every id fits the component width, and no narrower positive width would do |
| Rounding.RoundUpToPowerOf2 | lib/CodeGen/TemplateBuilder.cpp:12-21 | In 64-bit words, smearing the bits by 1, 2, 4, 8 and 16 gives the least power of two not below its argument if and only if the argument is at most 2^63 and its predecessor has no 32 zero bits in a row below its highest bit |
| Rounding.RightExactlyWithoutGap | lib/CodeGen/TemplateBuilder.cpp:12-21 | The same condition, for the rounded value as a function |
| Rounding.ZeroExactly | lib/CodeGen/TemplateBuilder.cpp:12-21 | The result wraps to 0 exactly for 0 and for arguments above 2^63 without such a gap |
| Rounding.FallsShort | lib/CodeGen/TemplateBuilder.cpp:12-21 | 2^33 + 1 is rounded to 2^34 - 3 |
| Rounding.SmallIsRight | lib/CodeGen/TemplateBuilder.cpp:12-21 | Up to 2^32 the result is right |
| Rounding.HalvingEndsExactly | lib/CodeGen/TemplateBuilder.cpp:29-32 | Halving reaches 1 if and only if the word is not 0: the loop never ends where rounding has wrapped to 0 |
| Rounding.GetNextPowerOfTwo | lib/CodeGen/TemplateBuilder.cpp:23-34 | For every 64-bit argument for which it ends, the loop gives the exponent of the least power of two not below it, and one less exactly where there is a gap of 32 zero bits |
| Rounding.SmearStep | lib/CodeGen/TemplateBuilder.cpp:14-18 | If every bit of a value tells whether the original has a bit within n places above, OR-ing the value with itself shifted by n does so for 2n |
| TemplateUses.TemplateBuilder.constructor | lib/CodeGen/TemplateBuilder.cpp:36-38 | A new builder has no uses and no instructions |
| TemplateUses.TemplateBuilder.FindUse | lib/CodeGen/TemplateBuilder.cpp:40-56 | The map is searched before the self use is recognised |
| TemplateUses.TemplateBuilder.AllArgumentsAreOwnVars | lib/CodeGen/TemplatedObject.cpp:177-205 | The loop recognises the own variables in order, and nothing else |
| TemplateUses.TemplateBuilder.Add | lib/CodeGen/TemplateBuilder.cpp:58-97 | The recursive insertion with its loop over the arguments updates the map as specified and returns the id |
| TemplateUses.TemplateBuilder.BitsRequiredNow | lib/CodeGen/TemplateBuilder.cpp:104-119 | The width for the current number of uses |
| TemplateUses.TemplateBuilder.AddInstruction | lib/CodeGen/TemplateBuilder.cpp:125-127 | The shift is recorded after those already there |
| TemplateUses.TemplateBuilder.UpdateAllInstructions | lib/CodeGen/TemplateBuilder.cpp:125-133 | Every recorded shift gets the final width, whatever width it was created with |
| TemplatePath.PathRoundTrip | lib/CodeGen/Template.cpp:210-225 | The decoder starting at the highest set bit recovers the ids in order and stops at position 0 if and only if 1 plus the sum of the widths is at most 64 |
| TemplatePath.StartsRightExactlyWhenItFits | lib/CodeGen/Template.cpp:356-359 | 63 minus the number of leading zeros is the sum of the widths if and only if the path fits |
| TemplatePath.PrefixPath | lib/CodeGen/Template.cpp:537-540 | Shifting the later components away leaves the path of the earlier ones |
| TemplatePath.ReplaceLast | lib/CodeGen/Template.cpp:613-624 | Masking the last component out and OR-ing another one in is appending the other one to the path before it |
| TypeArrayMapper.GenUseCase | lib/CodeGen/Template.cpp:565-635 | Scheduling moves and assignments and then emitting them rewrites the array, in place, into the arguments of the use, also when arguments are permuted |
| TypeArrayMapper.Mapper.EmitActions | lib/CodeGen/Template.cpp:453-483 | All moved slots are loaded before any is stored; assignments come last |
| TypeArrayMapper.GenRootTypes | lib/CodeGen/Template.cpp:318-344 | The loop of a root function fills the array with the static arguments and leaves the other slots alone |
| ExitSoundness.StatementSound | lib/AST/Statement.cpp:23-244 | Every exit that executing a well-formed statement can take is among its exit states, with the noexcept predicate deciding about throws, if no body of a scope exit returns and no asserted scope throws; otherwise this still holds of normal exits, breaks and continues |
| ExitPrecision.ExitsAreExact | lib/AST/Statement.cpp:23-244 | Where executions get to every part of a well-formed statement, its exit states are exactly its exits, with throws in exactly the models in which the noexcept predicate fails |
| ExitPrecision.StatementPrecise | lib/AST/Statement.cpp:23-244 | Nothing is listed for such a statement that cannot happen |
| ExitPrecision.ScopePrecise | lib/AST/Scope.cpp:37-140 | Nor for its scopes, with pending throws of scope(success) bodies and blocked exits |
| ExitPrecision.TryRethrows | lib/AST/Statement.cpp:160-181 | For every try statement: a rethrow is listed if and only if its own scope can rethrow, since catch clauses rethrow as throws |
| ExitPrecision.LoopsKeepBreaks | lib/AST/Statement.cpp:105-158 | For every loop: breaks and continues of its body are not listed |
| ExitPrecision.LoopEndsNormally | lib/AST/Statement.cpp:96-158 | For every loop: a normal exit is listed if and only if the condition, the body or a break of the body gives it, never for the advance scope or the initial value |
| ExitSoundness.ScopeSound | lib/AST/Scope.cpp:37-140 | Every exit of a scope, including throws out of scope(success) bodies that replace another exit, is among its exit states |
| ExitSoundness.ScopeExitsAreExact | lib/AST/Scope.cpp:37-140 | The single pass with its pending states and blocked flag computes the same set as reading the statements off from the back |
| ExitSoundness.ScanIsExact | lib/AST/Scope.cpp:60-140 | The same for a scan in progress, for any statements that follow |
| ExitSoundness.SelfLoopIsDead | lib/CodeGen/ScopeEmitter.cpp:28-35 | The loop emitted after a scope without a normal exit is never reached, also when bodies of scope exits return and asserted scopes throw |
| ExitSoundness.ScopeExitRuleIsSoundExactlyWithoutReturn | lib/SemanticAnalysis/ConvertStatement.cpp:624-646 | For each set of exits that an accepted body can have, scopes with such a body are left only by their exit states, whatever follows in the scope, if and only if return is not in the set |
| ExitSoundness.ReturnInScopeExit | lib/SemanticAnalysis/ConvertStatement.cpp:730-738 | A scope with nothing but a scope exit that returns can return, and its exit states do not have it |
| ExitSoundness.ReturnHidesThrow | lib/AST/Scope.cpp:37-140 | A scope with a scope(success) that throws, a scope exit that returns and an unreachable statement can throw, and its exit states do not have it |
| ExitSoundness.AssertedThrow | lib/CodeGen/StatementEmitter.cpp:863-866 | A throw in an asserted scope leaves it, and is not among its exit states |
| ExitSoundness.NoexceptScopeDoesNotThrow | lib/AST/Scope.cpp:37-140 | A scope whose noexcept predicate holds, or without a throw exit, does not throw, given that no body of a scope exit in it returns; ExitSoundness.ReturnHidesThrow shows that this is needed |
| ExitSoundness.ForRuleIsSoundExactlyWhenCovered | lib/AST/Statement.cpp:130-158 | The rule of the for statement covers all its exits if and only if the range cannot be reached or the body can be left normally or by a break: otherwise it misses the exit past an empty range |
| ExitSoundness.ForNotCovered | lib/AST/Statement.cpp:130-158 | A for statement whose body always returns is left normally past an empty range, against its exit states |
| Statements.ComputeScopeExits | lib/AST/Scope.cpp:37-140 | The loop over the statements with its flags and running sets, proved equal to the scan |
| Statements.ComputeIfExits | lib/AST/Statement.cpp:53-72 | The accumulating loop of the if rule |
| Statements.ComputeSwitchExits | lib/AST/Statement.cpp:74-94 | The accumulating loop of the switch rule |
| Statements.ComputeTryExits | lib/AST/Statement.cpp:160-181 | The loop over the catch clauses gives the exit states of the try statement, which ExitPrecision.TryRethrows and ExitPrecision.ExitsAreExact describe |
| ExitStates.AddAllows | include/locic/AST/ExitStates.hpp:167-177 | A union allows every exit that one of its parts allows, and, for parts that have a predicate only along with a throw, no other |
| ExitStates.StaysProper | include/locic/AST/ExitStates.hpp:167-185 | Union, removal and restriction to throws keep predicates with throws only |
| ExitStates.RemoveAllows | include/locic/AST/ExitStates.hpp:179-185 | What is left allows an exit if and only if the original does and the exit is not one of the removed |
| ExitStates.IntersectAllows | include/locic/AST/ExitStates.hpp:159-166 | An intersection allows exactly what both sets allow |
| ExitStates.ThrowingAllows | include/locic/AST/ExitStates.hpp:155-157 | The throwing states are the throw and the rethrow, under the same condition as before |
| Predicate.CopyIsIdentityOnBuilt | lib/AST/Predicate.cpp:96-129 | Copying is the identity on exactly the predicates that the constructors can build, and yields one of them |
| Predicate.BuiltIsSimplified | lib/AST/Predicate.cpp:38-80 | What the constructors build is exactly what has no constant and no immediate repetition inside |
| Predicate.CopyKeepsMeaning | lib/AST/Predicate.cpp:96-129 | Copying any predicate keeps its truth |
| PredicateMeaning.SubstituteMeans | lib/AST/Predicate.cpp:131-181 | For every domain of types, meaning of objects, satisfaction relation and values of variables: a substituted predicate says what the original says with each assigned variable standing for the meaning of its value, and selfconst for the given predicate |
| PredicateMeaning.SubstituteTypeMeans | lib/AST/Predicate.cpp:160-166 | The same for the types inside it, at every depth |
| PredicateMeaning.DependsExactly | lib/AST/Predicate.cpp:219-248 | An atom depends on the given variables only if and only if nothing else can change its truth |
| PredicateMeaning.Dependence | lib/AST/Predicate.cpp:219-248 | A predicate that depends on the given variables only has the same truth wherever they have the same values |
| Predicate.SubstituteCommutes | lib/AST/Predicate.cpp:131-181 | In particular substitution commutes with evaluation in models of atoms |
| Predicate.ReduceIsExact | lib/AST/Predicate.cpp:250-285 | With the default true the reduced predicate holds where some choice for the atoms that go makes the original hold, with the default false where every choice does, and nowhere else |
| Predicate.ReduceIsConservative | lib/AST/Predicate.cpp:250-285 | Reduction gives a predicate over the given variables only, implied by the original or implying it according to the default, and the original itself when nothing had to go |
| Predicate.ImpliesIsSound | lib/AST/Predicate.cpp:287-329 | What the prover claims holds in every model; it terminates and never reaches its unreachable default |
| Predicate.ImpliesDecidesNormalForms | lib/AST/Predicate.cpp:287-329 | Every conjunction of disjunctions is found to imply itself, and for it on the right and any predicate on the left the prover decides entailment |
| Predicate.DecidesExactlyWhenReflexive | lib/AST/Predicate.cpp:287-329 | The prover decides entailment of a predicate from every other if and only if it finds that the predicate implies itself |
| Predicate.DecidesFromExactlyDisjunctions | lib/AST/Predicate.cpp:287-329 | The prover decides all that a predicate entails if and only if it derives the predicate from itself without taking it apart as a conjunction; so it does for every disjunction |
| Predicate.ImpliesIsProves | lib/AST/Predicate.cpp:287-329 | All rules together find exactly this: for every conjunct of the right side, either it always holds, or the left side does not hold where just those atoms hold that alone are not enough for the conjunct |
| Predicate.ImpliesOfStronger | lib/AST/Predicate.cpp:287-329 | On the left only the meaning counts, however it is written; in particular the prover is transitive |
| Predicate.Countermodel | lib/AST/Predicate.cpp:287-329 | Where the prover gives up on a right side that it finds to imply itself, there is a model that tells the two predicates apart |
| Predicate.ImpliesIsNotReflexive | lib/AST/Predicate.cpp:287-329 | In general the prover does not even find that a predicate implies itself |
| Layout.MakeAlignedIsLeast | lib/CodeGen/SizeOf.cpp:200-204 | Adding the mask and clearing its bits, in 64-bit words, gives the least aligned value not below the input |
| Layout.AlignedIsMultiple | include/locic/Support/Utils.hpp:14-17 | Having the lowest bits clear is being a multiple of the power of two |
| Layout.AlignUpLeast | include/locic/Support/Utils.hpp:14-17 | No smaller aligned value is large enough |
| Layout.MembersDisjoint | lib/CodeGen/SizeOf.cpp:245-271 | Members follow each other without overlap |
| Layout.MembersInsideObject | lib/CodeGen/DefaultMethodEmitter.cpp:533-573 | Every member ends inside the object, with or without the extra byte of a suffix |
| LayoutExact.OffsetsAreLeast | lib/CodeGen/SizeOf.cpp:245-271 | Every member is put as early as its alignment allows behind the one before it |
| LayoutExact.SizeIsLeast | lib/CodeGen/DefaultMethodEmitter.cpp:533-573 | The size of an object is the least aligned value that holds its members, a suffix byte behind them unless a gap swallows it, and for a class one byte |
| LayoutExact.SuffixIsLeast | lib/CodeGen/SizeOf.cpp:276-303 | The place for a suffix byte is the least aligned one behind the members |
| ObjectAlignment.AlignedExactly | lib/CodeGen/DefaultMethodEmitter.cpp:457-495 | An address is aligned for a type if and only if every primitive inside the object, at any depth, is then at an aligned address |
| ObjectAlignment.VariantSizeIsLeast | lib/CodeGen/DefaultMethodEmitter.cpp:497-531 | A variant is the least aligned block that holds its tag and, at the first aligned place behind it, its largest case |
| ObjectAlignment.PlainSizeIsLeast | lib/CodeGen/DefaultMethodEmitter.cpp:533-573 | A record without a liveness byte is the least aligned block that holds its members, a class at least one byte |
| Layout.GapByteIsSafe | lib/CodeGen/LivenessInfo.cpp:69-95 | A byte put in front of a gap lies inside the object and in none of its members |
| Layout.SuffixFitsExactly | lib/CodeGen/SizeOf.cpp:276-303 | The suffix byte lies after every member, and strictly inside the computed object size if and only if no gap is as large as all alignments before it |
| Layout.SuffixFitsWithoutGaps | lib/CodeGen/SizeOf.cpp:276-303 | When no member leaves a gap the suffix byte is inside the object |
| Layout.SuffixCanMissTheObject | lib/CodeGen/SizeOf.cpp:276-303 | For a byte followed by a member of unknown size the suffix byte is chosen, and when that member is instantiated with size and alignment 4 it lies just past the end of the object |
| Layout.ExtraByte | lib/CodeGen/DefaultMethodEmitter.cpp:533-573 | Starting the sum of sizes at 1 instead of 0 pushes its end by exactly the largest alignment, unless a gap swallows the byte and both sums agree |
| LayoutExact.LivenessByteExactly | lib/CodeGen/LivenessInfo.cpp:69-126 | The byte goes in front of the first gap if every member up to the one behind it has a known size, and otherwise it is a suffix byte |
| LayoutExact.UnknownSizesDoNotMatter | lib/CodeGen/LivenessInfo.cpp:73-77 | Members of unknown size do not influence the choice: all instances of a class have the same |
| Layout.LivenessByteIs | lib/CodeGen/LivenessInfo.cpp:97-126 | In particular a gap byte is one in front of a gap, and with all sizes known a suffix byte means that there is no gap |
| Layout.FindGapByte | lib/CodeGen/LivenessInfo.cpp:69-95 | The search loop with its running offset makes the choice that LayoutExact.LivenessByteExactly describes |
| Layout.GenMemberOffset | lib/CodeGen/SizeOf.cpp:305-338 | The static loop gives the offset of the member |
| Layout.MemberOffsetFunction | lib/CodeGen/SizeOf.cpp:245-271 | The generated function, which compares the requested index with each member in turn, gives the same offset |
| Layout.GenAlignMask | lib/CodeGen/DefaultMethodEmitter.cpp:457-470 | OR-ing the masks of the members gives the mask of the largest alignment |
| Layout.GenSuffixByteOffset | lib/CodeGen/SizeOf.cpp:276-303 | The loop that sums sizes and ORs masks gives the suffix offset |
| Layout.EmitSizeOf | lib/CodeGen/DefaultMethodEmitter.cpp:533-573 | The loop that starts at 1 for a suffix byte, keeps classes from being empty and aligns at the end gives the object size |
| ObjectConservation.CallsConserved | lib/CodeGen/DefaultMethodEmitter.cpp:203-430 | Over any run of moves and destructions on separate places, the calls made together with the calls still pending stay the same: none is lost, invented or made twice |
| ObjectConservation.EveryCallOnce | lib/CodeGen/DefaultMethodEmitter.cpp:203-430 | When nothing is pending at the end, every call pending at the start was made exactly once |
| ObjectConservation.DestroyRuns | lib/CodeGen/DefaultMethodEmitter.cpp:203-281 | Destroying an object makes exactly its pending custom destructor calls, its own first and then those of its members in reverse order, and leaves none pending |
| ObjectConservation.DestroyTwice | lib/CodeGen/DefaultMethodEmitter.cpp:203-281 | A second destruction makes no call |
| ObjectConservation.MoveTransfers | lib/CodeGen/DefaultMethodEmitter.cpp:294-430 | A move gives the destination the abstract value of the source, dead or live, and leaves nothing pending in the source |
| ObjectConservation.SkippedExactly | lib/CodeGen/TypeInfo.cpp:114-162 | The destructor call is left out for exactly the types of which no value has a custom destructor call pending |
| ObjectSuffix.ConservesExactlyInside | lib/CodeGen/LivenessEmitter.cpp:26-45 | Destroying an object of a class keeps the calls made and pending of it and every separate object the same if and only if its suffix byte, if it has one, is inside the object |
| ObjectSuffix.OutsideLosesCalls | lib/CodeGen/LivenessEmitter.cpp:26-45 | With the suffix byte outside, clearing it changes the value that an object right behind is destroyed with |
| ObjectSuffix.SuchAClass | lib/CodeGen/LivenessInfo.cpp:69-126 | The class of a byte and a member of unknown size that turns out to have size and alignment 4 does not conserve calls |
| ObjectFrames.ReadFrame | lib/CodeGen/DefaultMethodEmitter.cpp:633-683 | The abstract value of an object depends on the bytes of the object only, its liveness byte and tags included |
| ObjectLife.LiveExactly | lib/CodeGen/DefaultMethodEmitter.cpp:633-683 | A record with a liveness byte holds live members if and only if the byte is 1 |
| ObjectFrames.DestroyFrame | lib/CodeGen/DefaultMethodEmitter.cpp:203-281 | Destroying changes no byte outside the object |
| ObjectFrames.MoveFrame | lib/CodeGen/DefaultMethodEmitter.cpp:294-430 | Moving changes no byte outside source and destination |
| ObjectLife.ByteInside | lib/CodeGen/LivenessEmitter.cpp:26-45 | The liveness byte lies inside its object |
| ObjectLife.ByteOutsideFields | lib/CodeGen/LivenessEmitter.cpp:26-45 | The liveness byte lies outside all members |
| ObjectRuntime.Runtime.CallDestructor | lib/CodeGen/IREmitter.cpp:664-688 | Destruction as it happens: memory and log are updated as specified |
| ObjectRuntime.Runtime.OuterDestructor | lib/CodeGen/DefaultMethodEmitter.cpp:203-281 | The liveness check, the own destructor, the members and the dead mark; or the switch on the tag |
| ObjectRuntime.Runtime.DestroyMembers | lib/CodeGen/DefaultMethodEmitter.cpp:258-270 | The loop over the members from the last to the first |
| ObjectRuntime.Runtime.MoveObject | lib/CodeGen/DefaultMethodEmitter.cpp:294-430 | Moving as it happens updates memory as specified |
| ObjectRuntime.Runtime.MoveRecord | lib/CodeGen/DefaultMethodEmitter.cpp:294-356 | The liveness check of the source and the marks set on both sides |
| ObjectRuntime.Runtime.MoveVariant | lib/CodeGen/DefaultMethodEmitter.cpp:375-416 | The tag is copied, the old one zeroed, and the value moved by a switch on the copy |
| ObjectRuntime.Runtime.MoveMembers | lib/CodeGen/DefaultMethodEmitter.cpp:418-426 | The loop over the members |
| ObjectRuntime.Runtime.IsLiveCall | lib/CodeGen/DefaultMethodEmitter.cpp:633-683 | An object is live if it has no indicator or its byte is 1 |
| ObjectRuntime.Runtime.SetLivenessByte | lib/CodeGen/DefaultMethodEmitter.cpp:577-630 | The byte of a gap or suffix indicator is stored; other objects are left alone |
| Md5.Md5.Update | lib/CodeGen/md5.cpp:250-286 | After any piece, the state covers the whole blocks of the message so far, the buffer begins with the leftover bytes and the two words hold the number of bits modulo 2^64 |
| Md5.Md5.Finalize | lib/CodeGen/md5.cpp:297-328 | The digest is that of the padded message, and a second call changes nothing |
| Md5.Md5.TransformChunks | lib/CodeGen/md5.cpp:273-276 | The loop over whole blocks, with its sum computed in 32 bits, folds the block function over the input |
| Md5.Md5.AddToCount | lib/CodeGen/md5.cpp:255-260 | The carry found by comparing the sum with a summand keeps the 64-bit count |
| Md5.HashPieces | lib/CodeGen/md5.cpp:250-328 | For any split of a message into pieces the digest is that of the whole message |
| Md5Vector.EmptyDigest | lib/CodeGen/md5.cpp:64-328 | The digest of the empty message is d41d8cd98f00b204e9800998ecf8427e, as the test suite of the standard has it: tables, order of steps, addition of the old state, initial state, padding and byte order together |
| Md5.GuardExact | lib/CodeGen/md5.cpp:274-274 | The 32-bit guard of that loop is right at every position it passes if and only if the sum does not wrap where the loop ends |
| Md5.GuardAffectsHugePiecesOnly | lib/CodeGen/md5.cpp:274-274 | Pieces of fewer than 2^32 - 64 bytes are never affected, and one of that size is |
| Md5.PadEndsBlock | lib/CodeGen/md5.cpp:309-315 | The padded message ends on a block boundary and is longer than the message by at most 72 bytes |
| Md5.PadInjective | lib/CodeGen/md5.cpp:304-315 | Different messages of fewer than 2^61 bytes are padded differently |
| Md5.FoldAppend | lib/CodeGen/md5.cpp:266-276 | Folding over a concatenation is folding over its parts when the first ends on a block boundary |
| Md5.CountBytes | lib/CodeGen/md5.cpp:304-307 | The two count words, encoded, are the eight little-endian bytes of the number of bits |
| Md5.Decode | lib/CodeGen/md5.cpp:139-143 | Shifting and OR-ing the bytes gives the little-endian words |
| Md5.Encode | lib/CodeGen/md5.cpp:149-156 | Shifting and masking the words gives their little-endian bytes |
| Md5Transform.Transform | lib/CodeGen/md5.cpp:161-241 | The 64 calls of straight-line code do the steps of the table-driven description, with its index formulas, shifts and rotation of registers |
| Md5Transform.FourSteps | lib/CodeGen/md5.cpp:166-169 | After four steps every register is back in its place |
| Md5Words.FChooses | lib/CodeGen/md5.cpp:66-68 | Every bit of F is a bit of its second or third argument, as the first chooses |
| Md5Words.GChooses | lib/CodeGen/md5.cpp:70-72 | Every bit of G is a bit of its first or second argument, as the third chooses |
| Md5Words.HIsParity | lib/CodeGen/md5.cpp:74-76 | Every bit of H is the parity of the bits of its arguments |
| Md5Words.IDiffers | lib/CodeGen/md5.cpp:78-80 | Every bit of I tells the second argument from the first or the complement of the third |
| Md5Words.RotateMovesBits | lib/CodeGen/md5.cpp:83-85 | Rotation moves every bit of a word, the highest ones round to the lowest places |
| Handlers.SelectHandler | runtime/exception.cpp:310-357 | The handler that runs for a thrown type is the prescribed one: the first clause, innermost try first and in source order, for that type or an ancestor; none if there is no such clause |
| Handlers.CatchesExactlyAncestors | runtime/exception.cpp:60-73 | A clause matches a thrown type if and only if its type is that type or an ancestor, given that full names are unique |
| Handlers.PadListsClausesInOrder | lib/CodeGen/Exception.cpp:309-317 | A landing pad generated inside nested tries lists their clauses innermost try first, each in source order |
| Handlers.ThrowReachesInnermostTry | lib/CodeGen/ScopeExitActions.cpp:218-327 | Unwinding for a throw ends at the catch block of the innermost try, or leaves the function |
| Handlers.DispatchFindsSelected | lib/CodeGen/StatementEmitter.cpp:623-689 | Comparing the selector clause by clause, and going on outwards without a match, finds the clause that was selected |
| Handlers.HandleAction | runtime/exception.cpp:310-357 | The search returns the first catching clause, or 0 for clean-up only |
| Handlers.GenCatchInfo | lib/CodeGen/Exception.cpp:239-265 | Counting parents gives the depth of the type |
| Handlers.GenThrowInfo | lib/CodeGen/Exception.cpp:267-307 | Collecting the names upwards and reversing them lists them from the root ancestor down |
| Handlers.EnterTry | lib/CodeGen/Exception.cpp:309-317 | The loop pushes the clauses in reverse |
| Handlers.LeaveTry | lib/CodeGen/Exception.cpp:319-325 | The loop pops exactly those entries |
| Mangling.NameRestored | lib/CodeGen/Mangling.cpp:50-74 | A mangled name is read back, whatever follows it that is not a digit, if and only if no component starts with a digit |
| Mangling.SizedRestored | lib/CodeGen/Mangling.cpp:65-69 | A component with its length is read back if and only if no digit follows the length |
| Mangling.MethodRestored | lib/CodeGen/Mangling.cpp:85-91 | A mangled method is read back if and only if neither its name nor a component of its type's starts with a digit |
| Mangling.ModuleScopeRestored | lib/CodeGen/Mangling.cpp:102-113 | A named module scope with its version can be read off the front of a symbol |
| Mangling.MethodSymbolsDiffer | lib/CodeGen/Mangling.cpp:85-113 | Methods of named modules have the same symbol only if scope, version, type and method are the same |
| Mangling.DigitsCollide | lib/CodeGen/Mangling.cpp:50-74 | Without the condition on digits two different names can have one symbol |
| Mangling.DecimalRestored | lib/CodeGen/Mangling.cpp:16-48 | A printed number is read back if and only if what follows does not start with a digit |
| Mangling.UintToString | lib/CodeGen/Mangling.cpp:16-48 | The fast path for small numbers and the general one both print ordinary decimals |
| Mangling.Mangler.Mangle | lib/CodeGen/Mangling.cpp:50-74 | The loop appends the components and the cache is kept consistent |
| Mangling.Mangler.MangleMethod | lib/CodeGen/Mangling.cpp:85-91 | A method symbol, through the cache |
| Mangling.Mangler.MangleModuleScope | lib/CodeGen/Mangling.cpp:102-113 | A module scope with its version, through the cache; empty for an empty name |
| Keywords.DecideIsLookup | lib/Lex/IdentifierLexer.cpp:92-675 | For every word, following the nested switches gives the keyword that is written like the whole word in the table of keywords, and a name if there is none |
| Keywords.DecidesFirst | lib/Lex/IdentifierLexer.cpp:92-675 | For any well-placed switches at all: what they decide is what looking the word up among their words gives |
| Keywords.RootWords | lib/Lex/IdentifierLexer.cpp:92-675 | The words of the switches are exactly the keywords in the table, each below the characters it begins with |
| IdentifierLexer.Lexer.LexIdentifier | lib/Lex/IdentifierLexer.cpp:87-90 | Exactly the longest run of identifier characters is consumed, whatever the text, and the token is that of the whole run in the table |
| IdentifierLexer.Lexer.LexNode | lib/Lex/IdentifierLexer.cpp:92-675 | Reading through the switches below a node consumes the rest of the word and decides as they do |
| IdentifierLexer.Lexer.LexPossibleKeyword | lib/Lex/IdentifierLexer.cpp:48-67 | The loop returns the keyword if the whole word is its name, and otherwise the word as a name |
| IdentifierLexer.Lexer.LexCommonPrefix | lib/Lex/IdentifierLexer.cpp:31-46 | The loop tells whether the whole word begins with the prefix, and has then read just the prefix |
| IdentifierLexer.Lexer.LexGeneralIdentifier | lib/Lex/IdentifierLexer.cpp:69-85 | The loop consumes the rest of the word and returns all of it as a name |
| IdentifierLexer.Lexer.Get | lib/Lex/IdentifierLexer.cpp:20-29 | One character of the word is read and saved; at its end the result is zero and nothing is consumed |
| IdentifierLexer.RunIsLongest | lib/Lex/IdentifierLexer.cpp:20-29 | The run read is the longest prefix of identifier characters |
| IdentifierLexer.WordCharsAre | include/locic/Lex/Character.hpp:22-58 | Identifier characters are the 26 lower-case and 26 upper-case letters, the ten digits and the underscore |

## Left out

- UnwindHistories.UnwindRefined: bodies of destructors and scope exits are opaque actions that finish normally and leave the state variable alone (a loop with a break inside a scope exit would set it back); the copies of the stack made while generating scope-exit bodies are not modelled, those made for rethrow scopes are.
- ExitSoundness.StatementSound: for exits that leave the function, `assert noexcept` counts as an assumption that its scope does not throw; the range operations of for statements do not throw; the two rules that can miss an exit are excluded by well-formedness, a for statement that its rule does not cover and, except for exits that stay inside the function, a return in the body of a scope exit.
- TemplateGenerator.GeneratorSubstitutes: template arguments are object types or template variables; type aliases, which the source resolves first, and value arguments other than variables, which it ignores, are not modelled; an object has at most 8 arguments; nothing is asked of generators for interfaces, whose arguments are ignored in code generation.
- TemplateUses.TemplateBuilder.BitsRequiredNow: tables have at most 2^30 entries in the translation, since the component mask is computed in a 32-bit integer, and at most 2^32 here.
- The pass-through optimisation of template builders: a flag that the modelled code does not read.
- Layout.EmitSizeOf: sums stay below 2^63, as the source assumes when it marks them as not overflowing; the layout that the ABI library gives to the struct of a known-size class is not compared with these sums.
- ObjectConservation.MoveTransfers: user-written moves, custom liveness methods and members with invalid states are not modelled; custom destructors are events that leave memory alone; enums and unions are blocks of bytes without destructors; template variables are instantiated.
- Md5.Md5.Update: a precondition excludes exactly the pieces for which the 32-bit loop guard goes wrong.
- Md5Transform.Transform: the step constants are the source's own; their derivation from sines is not modelled.
- Handlers.SelectHandler: the language-specific data area and pointer encodings are not parsed; the actions of a call site are a list; exceptions of other languages are left out.
- Mangling.NameRestored: function names of one component, kept as they are for C, and unnamed module scopes are left out.
- Predicate.SubstituteCommutes: const predicates on types are left out of the types that occur in predicates.
- The main loop of the lexer, which chooses between identifiers, numbers, strings and symbols; positions in the source text.
- LLVM instruction building, debug information, linkage, the JIT, parsers, diagnostics, method sets and virtual tables.
- Memo maps for root functions, sizes and offsets: lookups by key of values computed as modelled.

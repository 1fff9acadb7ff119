# Dacelo: a verified model of the type checker, the counting back end and its runtime

This project models three parts of the Dacelo compiler and proves what they are
for.

* **Type inference** (`gen4-infer-dc/infer.dc`, `g4_check.dc`): unification over
  triangular substitutions, Algorithm W, definition groups, type declarations,
  and the walk that normalises the environment and throws the substitution away
  after every item. Beside it stands Damas and Milner's declarative system. The
  checker is sound and complete for it: `CheckExact` says in one equivalence
  which programs are accepted. The in-place unifier of the first generation
  (`gen0-interp-rs/src/infer.rs`) and the trial-and-rollback unifier of the
  fifth (`gen5/g5_infer.dc`) are modelled too.
* **Reference counting** (`gen5/rt5.c`): counts, the iterative drop, reuse
  tokens, partial application, the global table, shutdown, and underneath them
  the block allocator, all updated in place. The allocator and the counting
  runtime are put together in `Process.dfy`.
* **Code generation** (`gen5/g5_oir.dc`, `g5_cg.dc`, `g5_cgdriver.dc`): the
  ownership IR with its interpreter over a counted heap, an ownership judgement
  that makes every run safe, the assembly generator, a semantics for the
  assembly, and the proof that the emitted text computes what the interpreter
  computes, from one operand up to a whole program with its start-up code.

Code made of expressions is modelled by functions; `Links.Infer`,
`RcRuntime.Runtime`, `Allocator.Heap`, `Process.Process` and `Encoder.CodeBuf`
are classes because their originals change their state in place.

## How the parts fit

`Types` and `Unification` hold types, substitutions and the unifier; `Links`
refines them to mutable cells. `AlgorithmW`, `Frames` (what a step may touch),
`Declarative`, `Soundness` and `Completeness` treat expressions; `Items`,
`ItemSoundness` and `ItemCompleteness` treat programs. The rules share no
function with the checker that reads a written type, looks up a name or numbers
a parameter. They give a constructor pattern any number of fields; `Full` is the
arity condition the checker puts beside them, with its own message. `Trial` is
the fifth-generation unifier with its histories, `TrialExact` and `TrialFits` say
what its answers mean where no records are involved, and `Renumber` shows that it
never looks at the numbers of fresh variables. `Signatures` is the check of
declared types and `SignatureMeaning` what it accepts.

`RcHeap` is the theory of counted heaps on values: a heap is `Exact` for a
multiset of roots when every unsaturated count is the number of references to
the block. `RcRuntime`, `SizeClass`, `Allocator` and `Process` are the runtime.
`Trampoline` and the `Curried*` modules treat partial application of
constructors, functions and built-ins; `Values` says what words stand for.

`Oir` interprets the IR with a bound on call depth; a run is `Done`, or stops
with a reason, among them `Corrupt` for a dead block touched. `Ownership*` give
the judgement `WellOwned` and its soundness; `OwnershipExample` is a program
that meets it. `Machine` gives the emitted
instructions their meaning, `Literals` and `Codegen` are the generator, and the
`Code*` modules prove it. `StartSteps` holds the start-up steps and their
interpreter; `StartUpTable` says what they leave in the global table, with
`ArityTable` for the constructor table, and `CodeWhole` puts the emitted text and
ownership together. `JoinLines` joins the output; `Encoder` is the second
generation's machine-code buffer.

A `Prog` value carries what the two sides share: addresses of routines and
static data, constructor tables, slots of globals, and three policies that stand
for what is outside of the model (the address a new block gets, what a built-in
answers, what a fresh frame holds). Every theorem holds for all of them.

## Model

| member | source | states |
|---|---|---|
| Unification.Chase | gen4-infer-dc/infer.dc:74-82 | chasing ends, and its result means the same as the type it started from and is never a bound variable |
| Unification.Apply | gen4-infer-dc/infer.dc:83-93 | resolving by chasing at every node equals the reference meaning of the substitution, which replaces one binding after the other |
| Unification.Occurs | gen4-infer-dc/infer.dc:94-104 | the occurs check answers exactly whether the variable is free in the resolved type |
| Unification.UnifyExact | gen4-infer-dc/infer.dc:172-222 | the assignments that solve the result are exactly those that solve the input and equate the two types; on failure there is none |
| Unification.UnifySound | gen4-infer-dc/infer.dc:172-222 | on success the result is well formed, extends the input, and the two types resolve to the same type |
| Unification.UnifyMostGeneral | gen4-infer-dc/infer.dc:172-222 | if some solution of the input equates the types then unification succeeds, and that solution factors through the result |
| Unification.UnifyFailsOnlyWhenImpossible | gen4-infer-dc/infer.dc:172-222 | unification fails if and only if no solution of the input equates the two types |
| Links.Infer.Prune | gen0-interp-rs/src/infer.rs:60-71 | following links reads as chasing in the substitution the cells spell out, and ends at no bound cell |
| Links.Infer.Occurs | gen0-interp-rs/src/infer.rs:172-181 | the occurs check over cells is the one over the substitution |
| Links.Infer.Unify | gen0-interp-rs/src/infer.rs:182-221 | after success the cells spell out exactly the substitution the pure unifier returns; it fails exactly when the pure one fails, and links only ever get added |
| AlgorithmW.FreeChase | gen4-infer-dc/infer.dc:241-250 | the accumulated list holds exactly the free variables of the resolved type and what was there before |
| AlgorithmW.EnvFree | gen4-infer-dc/infer.dc:252-262 | exactly the variables free, once resolved, in some scheme of the environment and not quantified there |
| AlgorithmW.Generalize | gen4-infer-dc/infer.dc:264-266 | quantified are exactly the free variables of the resolved type that are not free in the environment |
| Declarative.ResolveExact | gen4-infer-dc/infer.dc:287-312 | a written type resolves to a type exactly when it denotes it by the rules' own relation, which reads annotations and declarations in the declarative system |
| Frames.InstMeans | gen4-infer-dc/infer.dc:224-240 | instantiating and then resolving is renaming the quantified variables in the resolved type |
| Frames.UnifyFrame | gen4-infer-dc/infer.dc:172-222 | unification leaves alone every unbound variable that neither resolved type mentions: it stays unbound and enters no other meaning |
| Soundness.PatSound | gen4-infer-dc/infer.dc:391-427 | a pattern the checker types matches values of that type under the declarative rules, with the bindings it reports, for every solution |
| Soundness.BinopSound | gen4-infer-dc/infer.dc:429-494 | for every solution of the final substitution the operator's declarative rule holds of operands and result |
| Soundness.RhsInstance | gen4-infer-dc/infer.dc:539-554 | a let-bound definition has every instance of its generalised scheme as a type, recursive definitions included |
| Soundness.Sound | gen4-infer-dc/infer.dc:495-584 | whatever is inferred holds declaratively under every solution of the final substitution, in the environment as that solution reads it |
| Soundness.InferenceSound | gen4-infer-dc/infer.dc:495-584 | the resolved type is a type of the expression under the resolved environment |
| Completeness.PatComplete | gen4-infer-dc/infer.dc:391-427 | a cased pattern with full constructors that matches a type declaratively is accepted at it, and the solution continues to one that gives the same bindings |
| Completeness.BinopComplete | gen4-infer-dc/infer.dc:429-494 | whenever an operator's rule holds under a solution, the operator check succeeds and the solution continues to the result type |
| Completeness.InstanceOf | gen4-infer-dc/infer.dc:252-266 | every type a let-bound definition can have is an instance of the one scheme that generalisation makes |
| Completeness.Complete | gen4-infer-dc/infer.dc:495-584 | if the declarative rules give an expression with full constructor patterns a type, inference succeeds and the solution at hand continues to one that turns the inferred type into that type |
| Completeness.AcceptsExactly | gen4-infer-dc/infer.dc:495-584 | of the typeable expressions, exactly those whose constructor patterns are full are accepted |
| Completeness.TypesExactly | gen4-infer-dc/infer.dc:495-584 | the types of an accepted expression are exactly the values of the inferred type under the continuations of the solution |
| Completeness.PrincipalScheme | gen4-infer-dc/infer.dc:264-266 | under an environment without free variables, the inferred type generalised is a principal scheme: its instances are all the expression's types and nothing else |
| ItemSoundness.NormTransparent | gen4-infer-dc/infer.dc:268-282 | a scheme that is closed once resolved means the same before and after normalisation, with any substitution or none |
| ItemSoundness.CtorExact | gen4-infer-dc/infer.dc:335-345 | a declared constructor's scheme has exactly the types as instances that take what its fields denote, in order, to the declared type, whatever its parameters stand for |
| ItemSoundness.TydefSound | gen4-infer-dc/infer.dc:352-366 | an accepted declaration brings exactly its constructors at their declared types and leaves only closed schemes |
| ItemSoundness.TyNameExact | gen4-infer-dc/infer.dc:314-325 | a declaration's name is refused exactly when it is predefined or declared already |
| ItemSoundness.InitMeans | gen4-infer-dc/infer.dc:655-680 | the initial environment offers every predefined name at exactly the types its written type denotes |
| ItemSoundness.GroupTop | gen4-infer-dc/infer.dc:646-651 | after a group all schemes are closed and the earlier ones unchanged, so the substitution may be dropped |
| ItemSoundness.GroupMembers | gen4-infer-dc/infer.dc:598-651 | for every solution, all members' bodies have their types with the recursive members seen at theirs |
| ItemSoundness.GroupSound | gen4-infer-dc/infer.dc:598-651 | every instance of every scheme a group gets is part of one typing of the whole group |
| ItemSoundness.ProgramSound | gen4-infer-dc/g4_check.dc:28-57 | an accepted list of items is typed item by item, and the environment at the end is the declarative one |
| ItemSoundness.CheckSound | gen4-infer-dc/g4_check.dc:59-63 | an accepted program is typed by the rules, which start from the predefined names at the types one would write for them |
| ItemCompleteness.GroupComplete | gen4-infer-dc/infer.dc:598-651 | a group the rules type is accepted, at schemes that have all the instances of the declarative ones |
| ItemCompleteness.SchemesComplete | gen4-infer-dc/infer.dc:335-366 | if every declared constructor has a type at all, the declaration's schemes are built |
| ItemCompleteness.ProgramComplete | gen4-infer-dc/g4_check.dc:28-57 | a program typed by the rules, with well-formed groups and full constructor patterns, is accepted |
| ItemCompleteness.CheckExact | gen4-infer-dc/g4_check.dc:28-63 | a program whose binders are variables and whose pattern heads are constructors is accepted if and only if the rules type it from the predefined names, no two members of a group share a name, a group of several members is recursive throughout, and every constructor pattern is full |
| Trial.UnifyTidy | gen5/g5_infer.dc:574-723 | whatever its outcome, unification only prepends bindings of unbound variables and rows, draws rows, and leaves the error context and the holes alone |
| Trial.TrialUndone | gen5/g5_infer.dc:532-544 | rolling back to the snapshot after any unification, failed half way or not, restores the state except for used-up row numbers |
| TrialExact.UnifyRead | gen5/g5_infer.dc:574-628 | on types without records an attempt that is not cut short succeeds exactly when the pure unifier does and then holds the same bindings |
| TrialExact.UnifyExact | gen5/g5_infer.dc:574-628 | on types without records it succeeds only if some solution of the state equates the types; its state then has just those solutions and resolves both types alike, and on failure there is no such solution |
| TrialExact.UnifyAnswers | gen5/g5_infer.dc:574-628 | from some depth on every such attempt gives one and the same answer |
| Trial.CandsIndependent | gen5/g5_infer.dc:1468-1492 | the candidates found for a hole are those that fit when each is tried alone from the starting state |
| Trial.SearchUndone | gen5/g5_infer.dc:1468-1492 | and the search leaves nothing but advanced counters |
| Trial.RefilterIsPrefix | gen5/g5_infer.dc:1848-1868 | refiltering keeps the first twelve candidates that still fit, in order, and says whether there were more |
| Renumber.UnifyMoves | gen5/g5_infer.dc:574-723 | moving all variables and rows from given ones on upwards renumbers the outcome of unification and changes nothing else |
| Renumber.FitsAnywhere | gen5/g5_infer.dc:1468-1492 | whatever the counters have reached, an entry fits a hole exactly when it fits from the start, at the same type up to fresh numbers |
| Renumber.CandsAlone | gen5/g5_infer.dc:1468-1492 | the candidates a search finds are exactly the entries that fit alone in the starting state, in order, whatever was tried before each |
| TrialFits.FitsExact | gen5/g5_infer.dc:1468-1492 | without records, an entry fits a hole exactly when no hole is left in its scheme and some solution of the state makes the hole's type an instance of it; the type shown with it is what the hole's type then resolves to |
| Signatures.SigLeavesNoTrace | gen5/g5_infer.dc:1571-1586 | checking a signature, from its skolems to the rollback, leaves nothing but advanced counters, whether it is malformed, refused or met |
| Signatures.DeclaredExact | gen5/g5_infer.dc:1597-1660 | a signature's type resolves if and only if it is well formed, its variables are quantified, and its first quantified row, if any, is quantified twice |
| Signatures.RowsRefused | gen5/g5_infer.dc:1624-1634 | so a signature that quantifies every variable once and mentions a row is always refused |
| Signatures.OpenRecordRefused | gen5/g5_infer.dc:1624-1634 | the signature of a function on records with at least a field x is refused |
| SignatureMeaning.SkolemsApart | gen5/g5_infer.dc:901-908 | different quantified variables stand for different constants |
| SignatureMeaning.SigExact | gen5/g5_infer.dc:1571-1586 | without records, a closed scheme meets a signature if and only if the declared type is well formed, its variables are quantified, and every type it denotes, whatever they stand for, is an instance of the scheme |
| Trial.ExtendsGet | gen5/g5_infer.dc:532-544 | a key bound at the snapshot keeps its binding through whatever is prepended |
| RcHeap.DropExact | gen5/rt5.c:302-318 | dropping one owed reference never faults, leaves exact counts for the remaining roots, and only frees blocks or lowers counts |
| RcHeap.ExactUnique | gen5/rt5.c:260-292 | two results of giving up references from the same heap with exact counts for the same roots are equal, whatever the order of work |
| RcHeap.GarbageFree | gen5/rt5.c:260-318 | with exact counts and no cycles every counted block is reachable from a root |
| RcRuntime.Runtime.DcDup | gen5/rt5.c:293-301 | counts stay exact with one root more; immediates, static and saturated blocks are left as they are |
| RcRuntime.Runtime.ReleaseChildren | gen5/rt5.c:260-283 | a dead block's references are given up once each, with the last ones queued, so that counts are exact apart from the block itself |
| RcRuntime.Runtime.WlDrain | gen5/rt5.c:284-292 | draining ends with an empty list and exact counts for what the caller holds |
| RcRuntime.Runtime.DcDrop | gen5/rt5.c:302-318 | the worklist computes the recursive definition of dropping |
| RcRuntime.Runtime.DcDropReuse | gen5/rt5.c:319-331 | a unique block loses its children and comes back as raw memory of its size; anything else is dropped and no token comes back |
| RcRuntime.Runtime.DcReuseOrAlloc | gen5/rt5.c:332-343 | a token of the size is the new block; another is freed and a new block allocated |
| RcRuntime.Runtime.DcGset | gen5/rt5.c:387-393 | the table takes over the caller's reference and drops the entry it held |
| RcRuntime.Runtime.DcMkPartialCtor | gen5/rt5.c:437-448 | a fresh closure without arguments, owned by the caller |
| RcRuntime.Runtime.DcCtorStep | gen5/rt5.c:416-436 | the new block holds copies of the closure's arguments and then the new one; the caller's argument moves in |
| RcRuntime.Runtime.DcRtShutdown | gen5/rt5.c:815-831 | the whole table is dropped; a leak is reported if and only if a block is live, and without outside references and saturated counts there is none |
| RcRuntime.ReuseUnobservable | gen5/rt5.c:319-343 | giving up a value with reuse and then asking for a block leaves what dropping and allocating leaves, up to the new block's address |
| RcRuntime.NothingLeaks | gen5/rt5.c:815-831 | without roots, with childless static data and no saturated count, every block handed out was freed |
| Process.Process.LiveIs | gen5/rt5.c:206-292 | between operations the allocator's live blocks are exactly the counted blocks, each of the block's size |
| Process.Process.BlocksApart | gen5/rt5.c:206-226 | two counted blocks never share a word of memory |
| Process.Process.Alloc | gen5/rt5.c:206-226 | whatever the allocator answers is an address the heap does not have; a request beyond the header's size field is fatal and nothing else is |
| Process.Process.Drop | gen5/rt5.c:250-318 | dropping computes the recursive definition, and every block freed on the way is back in the allocator, in the order it was freed |
| Process.Process.DropReuse | gen5/rt5.c:319-331 | the same for dropping with reuse; a token stays the program's |
| Process.Process.ReuseOrAlloc | gen5/rt5.c:332-343 | the same for taking a block with a token, whose memory may be the allocator's answer |
| Process.Process.Gset | gen5/rt5.c:387-393 | the same for storing a global |
| Process.Process.StepCtor | gen5/rt5.c:416-436 | one constructor step on the allocator: the new block's address is not in the heap, and the step is the one the pure definition makes |
| Process.Process.Turn | gen5/rt5.c:414-436 | a step followed by the drop of the closure it used leaves the heap with the old closure gone, the new block in its place and every other count as before, even when the allocator answers with memory freed a turn earlier |
| Process.Process.Shutdown | gen5/rt5.c:815-831 | no leak is reported exactly when no block of the allocator is live, and then all memory obtained is free, unused or an abandoned single word |
| SizeClass.ClassOrder | gen5/rt5.c:119-130 | every size of a higher class is larger |
| SizeClass.ClassRange | gen5/rt5.c:119-130 | big sizes up to the limit have one of the 256 classes |
| SizeClass.RoundedBase | gen5/rt5.c:119-130 | rounding gives the least size of a class, and less than an eighth too much |
| SizeClass.RoundedServed | gen5/rt5.c:173-188 | any block of its class serves a rounded request |
| Allocator.Heap.PushFree | gen5/rt5.c:147-156 | the block goes to the front of the list of its size or class, and lists, heads, links and bitmap stay consistent |
| Allocator.Heap.Carve | gen5/rt5.c:167-172 | the front is cut off; a rest of two words or more is freed, a single word abandoned |
| Allocator.Heap.FirstNonempty | gen5/rt5.c:137-146 | the lowest class from the given one on whose list is not empty, or none |
| Allocator.Heap.BigAlloc | gen5/rt5.c:173-188 | the block comes from the lowest non-empty higher class or is the first of its own class that is large enough; on failure there is neither, and if the request is rounded no free block is large enough at all |
| Allocator.Heap.BumpAlloc | gen5/rt5.c:189-203 | the block comes from the chunk, or from a new one after the rest of the old one is recycled; only then does the memory obtained grow |
| Allocator.Heap.DcAllocRc | gen5/rt5.c:206-226 | the block is new, has the requested size, and every live block is as it was; a small request takes the head of the list of its size, else the front of a block of the lowest big class, a big one what BigAlloc finds; memory never freed before is used only when every free block is useless for the request; failure is exactly a size beyond the header's field |
| Allocator.Heap.FreeBlock | gen5/rt5.c:250-254 | the block leaves the live set and is at the front of its list |
| Allocator.Heap.Conserved | gen5/rt5.c:189-226 | every word obtained is live, free, still unused or abandoned |
| Allocator.Heap.NoOverlap | gen5/rt5.c:147-226 | no two blocks share a word, and none reaches into the unused rest of the chunk |
| Allocator.WordsSuffice | gen5/rt5.c:206-209 | the words computed hold the bytes asked for if and only if rounding up did not wrap around 64 bits |
| Trampoline.StepMoves | gen5/rt5.c:414-436 | copying the arguments into a new block and dropping the old closure moves them: all other counts are as before |
| Trampoline.TurnMoves | gen5/rt5.c:414-436 | the same for one constructor step and the drop of the closure it used |
| Trampoline.PartialApplication | gen5/rt5.c:414-448 | applying a constructor to its arguments one at a time gives exactly the block of all of them in order, every closure in between freed and its address free to come back |
| Trampoline.SharedApplication | gen5/rt5.c:414-448 | the same from a closure that others own too, which stays as it was |
| CurriedCtors.CtorCurried | gen5/rt5.c:414-448 | the same for the interpreter's calls of an owned closure, with the arity that was registered |
| CurriedCtors.CtorShared | gen5/rt5.c:414-448 | and for its calls of a closure that stays, such as the one in the global table |
| CurriedCtors.DirectCtor | gen5/g5_oir.dc:12-50 | the direct construction puts the same block at the allocator's address |
| OwnershipSteps.EqSafe | gen5/rt5.c:584-621 | structural equality of live values touches no dead block |
| Values.ReadsOne | gen5/rt5.c:584-621 | a word reads as at most one finite value |
| Values.EqMeans | gen5/rt5.c:584-621 | structural equality of two words that read as finite values answers whether the values are equal, constructors, field by field, and texts byte by byte |
| Values.TruncExact | gen0-interp-rs/src/eval.rs:634-648 | the quotient is the one integer that leaves a remainder smaller than the divisor and of the dividend's sign |
| OwnershipSteps.MatchSafe | gen5/g5_cg.dc:264-336 | matching a live value touches no dead block and binds values that stay reachable |
| OwnershipSteps.BuiltinOwned | gen5/rt5.c:725-780 | a built-in gives up none of its borrowed arguments and returns one owned value |
| CurriedBuiltins.SameArity | gen5/rt5.c:749-755 | the runtime's arity of a built-in, by number, is the generator's, by name |
| CurriedBuiltins.BuiltinCurried | gen5/rt5.c:757-785 | applying a built-in's owned closure to its arguments one at a time is the direct call of its name on them in order, the closures in between freed |
| CurriedBuiltins.BuiltinShared | gen5/rt5.c:757-785 | the same from a closure that stays, such as the one in the global table |
| OwnershipSteps.CtorStepOwned | gen5/rt5.c:416-436 | one step of a partial constructor spends the argument and returns one owned value |
| OwnershipRun.ExprOwned | gen5/g5_oir.dc:12-50 | every run of a well-owned expression touches no dead block and, if it ends, leaves exact counts with exactly the result added and everything reachable from the other roots as it was |
| OwnershipRun.ClosureOwned | gen5/g5_oir.dc:12-50 | the same for calling any closure, whether lambda, level of a curried function, built-in or partial constructor |
| OwnershipWhole.ProgramSafe | gen5/g5_cgdriver.dc:202-270 | no run of a well-owned program from static data and an empty table touches a dead block; at its end the table holds all that is left |
| OwnershipWhole.ProgramClean | gen5/rt5.c:815-831 | dropping the table afterwards leaves the static data alone unless a count saturated |
| Literals.TagLitExact | gen5/g5_cg.dc:36-39 | of the 62-bit integers exactly those in [-2^59, 2^59) are emitted as themselves |
| Literals.TagLitWraps | gen5/g5_cg.dc:36-39 | 2^59 is emitted as the word of its negative |
| CodeSteps.LoadConstRuns | gen3-dcc-dc/dcc.dc:1345-1374 | the move sequence leaves the constant, in 64 bits, in its register and changes nothing else |
| CodeOperands.LiteralExact | gen5/g5_cg.dc:149-176 | the text of a literal operand loads that literal if and only if it is in range |
| CodeOperands.AtomRuns | gen5/g5_cg.dc:149-176 | the text of an operand leaves its value in the register and the world as it was |
| CodeOperands.OperandsRun | gen5/g5_cg.dc:177-203 | the text of an operand list leaves the interpreter's values, globals duplicated where consumed, in consecutive registers |
| CodeOperands.AllocRuns | gen5/g5_cg.dc:223-231 | the allocation text does what the runtime's allocation or reuse does and writes the header |
| CodePatterns.CmRuns | gen5/g5_cg.dc:264-336 | the text of a pattern falls through with the interpreter's bindings in slots if the value matches and jumps to the failure label if not |
| CodePatterns.ParamsRun | gen5/g5_cg.dc:338-349 | the same for the parameters of a definition |
| CodeBlocks.OpRuns | gen5/g5_cg.dc:350-398 | the text of every operator computes it, tagged arithmetic wrapping at 62 bits included, short of a zero divisor |
| CodeBlocks.DivByZero | gen5/g5_cg.dc:362-370 | with a zero divisor the emitted division goes on, the quotient being zero and the remainder the dividend |
| CodeBlocks.DivisionExact | gen5/g5_cg.dc:362-370 | the emitted text gives what the language means by the operation, a result or an error, if and only if the divisor is not zero |
| CodeBlocks.ClosureRuns | gen5/g5_cg.dc:232-252 | the text builds the closure over the given slots |
| CodeRun.CeRuns | gen5/g5_cg.dc:403-454 | the text of an expression reaches its end label with the interpreter's value and world, or stops for the interpreter's reason |
| CodeRun.CasesRun | gen5/g5_cg.dc:455-466 | the same for the branches of a case, tried in order |
| CodeRun.PrimRuns | gen5/g5_cg.dc:467-523 | the same for every primitive, calls included |
| CodeRun.LamAgrees | gen5/g5_cg.dc:524-541 | running a lambda's routine is calling the lambda |
| CodeRun.DirectAgrees | gen5/g5_cgdriver.dc:126-140 | running the direct entry is calling the function with all arguments |
| CodeRun.LevelAgrees | gen5/g5_cgdriver.dc:151-182 | running a level's routine is applying the closure of that level |
| CodeRun.CallCodeAgrees | gen5/g5_cg.dc:467-523 | a call through a closure's code word is the interpreter's closure call |
| CodeLink.EmittedLinked | gen5/g5_cgdriver.dc:186-200 | every routine the program refers to is found in the emitted text at its label |
| CodeLink.ThunkAgrees | gen5/g5_cgdriver.dc:99-116 | running a definition's thunk computes its start-up value |
| CodeWhole.EmittedOwned | gen5/g5_cgdriver.dc:186-200 | a call of emitted well-owned code gives the interpreter's result, touches no dead block and leaves exact counts |
| CodeMain.StartUpNarrow | gen5/g5_cgdriver.dc:202-253 | the start-up steps the generator makes have operands that fit their instructions |
| StartSteps.Registered | gen5/g5_cgdriver.dc:201-207 | the registrations at the head of start-up give every constructor its declared arity in the table and touch nothing else |
| ArityTable.EvKeeps | gen5/rt5.c:404-411 | no run of an expression changes the table of constructor arities |
| StartUpTable.BuiltinIndex | gen3-dcc-dc/dcc.dc:718-722 | the generator's list of built-ins is in the order of the runtime's numbers |
| StartUpTable.LayoutApart | gen5/g5_cgdriver.dc:31-50 | the layout gives every name a slot of its own exactly when no two names are equal |
| StartUpTable.StartUpFills | gen5/g5_cgdriver.dc:201-248 | start-up ends with every arity registered and a full table: the slot of built-in i holds its closure, that of a constructor with fields its closure, that of a function the closure of its first level, each without arguments, and that of any other definition what its body evaluates to in the table left by the names before it; or the body of such a definition stops in that table, and nothing else can go wrong |
| CodeWhole.EmittedStartUp | gen5/g5_cgdriver.dc:186-248 | the same of the emitted start-up text |
| StartUpTable.MainFilled | gen5/g5_cgdriver.dc:201-270 | a program of functions only fills its table, and the slot of main holds the closure of its first level |
| StartUpTable.BuiltinFromTable | gen5/rt5.c:757-785 | what start-up left in a built-in's slot, applied to arguments one at a time, makes the direct call of that built-in's name |
| StartUpTable.CtorFromTable | gen5/rt5.c:414-448 | and what it left in a constructor's slot builds the block of all arguments in order |
| CodeMain.ProgramRuns | gen5/g5_cgdriver.dc:201-270 | the start-up text followed by the main routine runs as the interpreter runs the steps and the last definition |
| CodeWhole.EmittedProgramClean | gen5/g5_cgdriver.dc:186-296 | the text emitted for a well-owned program with its own start-up code runs as the interpreter does, touches no dead block, and dropping the table at the end frees all that was allocated unless a count saturated |
| Curried.ApplyAllOwned | gen5/g5_cgdriver.dc:141-182 | applying any closure to its arguments one at a time spends the closure and one reference of each argument and nothing else |
| Curried.CurriedIsDirect | gen5/g5_cgdriver.dc:126-182 | applying a function's owned first closure to all arguments in turn is the direct entry on them, the closures in between freed |
| Curried.SharedOwned | gen5/g5_cgdriver.dc:141-182 | the same count for a first closure that is only borrowed, whatever it is and however many own it |
| Curried.SharedIsDirect | gen5/g5_cgdriver.dc:126-182 | applying a borrowed closure of any level, such as the one in the global table, to the remaining arguments is the direct entry on all of them in order; the borrowed closure stays as it was |
| Curried.DirectSpends | gen5/g5_cgdriver.dc:126-140 | a direct call followed by dropping the lent arguments spends one reference of each argument as well |
| JoinLines.JoinedIsLinear | gen5/g5_cgdriver.dc:297-310 | the balanced join is the lines in order, each with its line feed |
| Encoder.EncodeDecodes | gen2-dcc-rs/src/encoder.rs:367-392 | a patched branch word decodes to the branch asked for if and only if the offset fits the field |
| Encoder.CheckAdmitsOne | gen2-dcc-rs/src/encoder.rs:379-382 | of the offsets that pass the conditional branch's check exactly one, 2^20, comes out wrong |
| Encoder.BranchLands | gen2-dcc-rs/src/encoder.rs:367-392 | a finished branch lands on its label if and only if the label is within reach |
| Encoder.CodeBuf.Finish | gen2-dcc-rs/src/encoder.rs:367-392 | it succeeds exactly when every hole's label is bound and in range; then every hole holds its branch and every other byte is as it was |
| Encoder.CodeBuf.LoadConst | gen2-dcc-rs/src/encoder.rs:184-194 | exactly the move words of the constant are appended |
| Encoder.ConstRuns | gen2-dcc-rs/src/encoder.rs:184-194 | and as the processor reads them they leave the constant in its register and every other register as it was |

## Findings

Properties that do not hold of the code as it stands, with the input that shows
it and the exact condition under which they hold.

| property | where | failing input | exact condition |
|---|---|---|---|
| integer literals are preserved | gen5/g5_cg.dc:36-39, 149-176, 264-336 | the literal 2^59 becomes -2^59 (`Literals.TagLitWraps`) | literals in [-2^59, 2^59) (`Literals.TagLitExact`, `CodeOperands.LiteralExact`); the comment in the source asks for it and nothing checks it, so the preservation theorems carry it as a hypothesis on the program |
| the range check of conditional branches keeps them correct | gen2-dcc-rs/src/encoder.rs:380 | the offset +2^20 passes and is encoded as -2^20 | `Reaches`: from -2^20 up to but not including 2^20 (`Encoder.EncodeDecodes`); of what the check admits that is all but one offset (`Encoder.CheckAdmitsOne`) |
| a signature may quantify over a row | gen5/g5_infer.dc:164-167, 910-915, 1629-1634 | `sig f : forall r .` with a function type from the record of `x: Int` open in `r` to `Int` (`Signatures.OpenRecordRefused`): the first rigid row is numbered -1, which the lookup also answers for a missing name, so every signature with a row is refused as unbound (`Signatures.RowsRefused`) | no row, or the first quantified row is quantified twice (`Signatures.DeclaredExact`) |
| division by zero is an error | gen5/g5_cg.dc:362-370, against gen0-interp-rs/src/eval.rs:634-648 | 1 / 0 is 0 and 1 % 0 is 1 (`CodeBlocks.DivByZero`): the text is a bare `sdiv`, the runtime's `dc_div_check` is never called | the divisor is not zero (`CodeBlocks.DivisionExact`); the preservation theorems therefore compare the runs that do not divide by zero |

## Left out

- CodeRun.CeRuns: compares runs that end with a value or with an error other than a division by zero, for which see the findings; likewise the theorems built on it.
- Ill-typed runs: an interpreter step that the type checker excludes stops with `Stuck`, and such a run is not compared with the emitted code. Stuck as well are the empty tuple primitive, a letrec whose closure captures itself twice, and patterns with more than 2^32 fields, none of which the earlier passes produce.
- Call depth: the interpreter and the machine bound call depth and the depth of structural equality by the same number, and the theorems hold for every bound. Divergence and the native stack limit are not modelled. The same goes for the recursion of the fifth-generation unifier in `Trial`.
- Saturation: a count that reaches the immortal value stays there, as in the source; theorems about single counts require that it does not get there, theorems about whole programs say what follows when one did.
- Trampoline.PartialApplication: requires counts to stay clear of saturation on the way, and so do `Trampoline.SharedApplication` and `Process.Process.Turn`; a saturated argument is not lost but its count says nothing.
- Policies: the address of a new block in the interpreter, the answers of built-ins, and the initial content of a frame are parameters. `Process` connects the counting runtime with the allocator; the interpreter and the emitted text run with the address policy and are not run on the allocator itself. The memory a new chunk gets is a parameter that lies outside of all blocks and static data.
- Strings: the contents of literals are static data that the theorems take as given; equality of texts is byte by byte, and the showing of values is an opaque built-in.
- Values.EqMeans: speaks of words that read as the same kind of finite value, tuples of one length and constructors of one number of fields for one id, as well-typed operands are; comparing functions stops the run.
- Error messages, context texts and counters that only feed them, in all generations of the checker.
- The ownership pass itself (`gen5/g5_own.dc`): its output is what the judgement `WellOwned` describes; that the pass always produces such output is not proved.
- Records and rows in `gen5/g5_infer.dc` beyond what trials, rollback and signatures do to them; its inference proper is not modelled. `TrialExact`, `TrialFits` and `SignatureMeaning` speak of types without records.
- SignatureMeaning.SigExact: requires that the scheme is closed and mentions no constant whose name starts with the sign the check's own constants start with, which no declared type has.
- Renumber.CandsAlone: takes it that all variables and rows in use are below the counters, as drawing them from the counters makes them.
- The other operators and methods of `gen0-interp-rs/src/infer.rs` beside cells, occurs check and unification.
- Dependency ordering of items before the checker's walk (`g4_order`), and the parser; the checker's theorems take the items in their order and assume that binders are variables and pattern heads constructors, which the parser's casing rule ensures.
- Assembly text: instructions are a datatype, labels carry a number drawn from the same counter, and jumps go forward only, as the generator emits them. Prologue and epilogue are one instruction each. Object file, relocation and symbol details are not part of this model.
- The runtime's aborts (no branch matches, functions compared, size limit, exit) end a run with a reason that the emitted code is shown to end with as well; what the process prints then is not modelled.
- A constructor id past the 4096 entries of the arity table: registering it ends the run as stuck.
- StartUpTable.StartUpFills: takes it that all names with a slot have different ones; `StartUpTable.LayoutApart` and `StartUpTable.CtorsNumbered` derive this, and the numbering of constructors, from the generator's layout when the names are distinct.
- `Allocator.Heap`: the header and link words of free blocks are maps, not memory cells, so that a write into a freed block by other code is outside of the model.

// What is emitted for a well-owned program: its calls, its start-up and its
// whole run compute what the interpreter computes and keep the counts exact.
module CodeWhole {
  import opened Types
  import opened RcHeap
  import opened Oir
  import opened HeapSteps
  import opened Machine
  import opened Codegen
  import opened Literals
  import opened CodeOperands
  import opened CodeBlocks
  import opened CodeSound
  import opened CodeRun
  import opened CodeLink
  import opened CodeMain
  import opened OwnershipFrame
  import opened OwnershipSteps
  import opened OwnershipSound
  import opened OwnershipRun
  import opened OwnershipWhole
  import opened StartSteps
  import opened StartUpTable

  // The image is that of the definitions, whose text is emitted.
  ghost predicate Compiled(P: Prog, defs: Defs) {
    && EmitDefs(P, 0, defs).Some? && Image(P, defs) && TablesOk(P) && ProgLits(P)
    && forall f :: f in P.defs && AtKey(P.defs, f).direct ==> AtKey(P.defs, f).params != []
  }

  // ---------- ownership of what is emitted ----------

  // A call of emitted well-owned code that is not ill-typed: it touches no dead
  // block, its result is the interpreter's, and afterwards the roots are joined
  // by exactly that result.
  lemma {:induction false} EmittedOwned(P: Prog, defs: Defs, n: nat, K: multiset<Word>, w: World, clo: Word, arg: Word)
    requires Compiled(P, defs) && Setting(P) && HeapOk(w.heap)
    requires WorldOk(P, K, w) && Good(w.heap, K + multiset{arg})
    requires LiveVal(w.heap, arg) && Under(w.heap, K, clo)
    requires IsRef(clo) && clo in w.heap && IsClosure(AtKey(w.heap, clo))
    ensures var T := The(EmitDefs(P, 0, defs)).code;
            var r := EvClosure(P, n, w, clo, arg);
            r.Done? || Compared(r.why) ==>
              CallCode(P, T, n, AtIndex(AtKey(w.heap, clo).words, 0), clo, arg, w) == r && Owned(K, w, r)
  {
    hide EmitDefs, Image, EvClosure, CallCode, Linked, HeapOk, WorldOk, Good;
    var T := EmitDefs(P, 0, defs).value.code;
    EmittedLinked(P, defs);
    CallCodeAgrees(P, T, n, w, clo, arg);
    ClosureOwned(P, n, K, w, clo, arg);
  }

  // ---------- start-up ----------

  ghost predicate Started(P: Prog, n: nat, builtins: seq<string>, ctors: seq<string>, defs: Defs, o: Out) {
    || (o.Fall? && TableFull(P, n, builtins, ctors, defs, o.s.w))
    || exists j, why :: BodyStops(P, n, builtins, ctors, defs, j, why) && (Compared(why) ==> o == Halt(why))
  }

  // The emitted start-up, from static data and an empty table: it runs to its
  // end with the table full, or the body of a definition that is no function
  // stops. When that is an error a well-typed run can end in, so does the text.
  lemma {:induction false} EmittedStartUp(P: Prog, builtins: seq<string>, ctors: seq<string>, defs: Defs, n: nat,
                                          s: MState)
    requires Compiled(P, defs) && Setting(P) && ImageHas(P, ctors, defs) && |builtins| < 0x1_0000
    requires SlotsApart(P, SlotNames(P, builtins, ctors, defs), |s.w.globs|)
    requires HeapOk(s.w.heap) && Statics(P, s.w.heap) && Only(s.w, [])
    ensures StartUp(P, builtins, ctors, defs).Some?
    ensures var T, steps := The(EmitDefs(P, 0, defs)).code, The(StartUp(P, builtins, ctors, defs));
            Started(P, n, builtins, ctors, defs, Exec(P, T, n + 1, InitCode(steps), s))
  {
    hide EmitDefs, Image, Linked, HeapOk, Statics, Exec, RunInit, InitCode, Thunked, StartUp, ProgLits, ImageHas;
    hide SlotsApart, TableFull, BodyStops, Settled;
    StartSettled(P, s.w);
    StartUpFills(P, n, s.w, builtins, ctors, defs);
    var T, steps := EmitDefs(P, 0, defs).value.code, StartUp(P, builtins, ctors, defs).value;
    StartUpNarrow(P, builtins, ctors, defs);
    EmittedLinked(P, defs);
    EmittedThunked(P, defs);
    InitRuns(P, T, n, s, steps);
    var r := RunInit(P, n, s.w, steps);
    if r.Halted? {
      var j :| BodyStops(P, n, builtins, ctors, defs, j, r.why);
    }
  }

  // ---------- the whole run ----------

  // From definitions to exit: the text emitted for a well-owned program, with
  // the generator's own start-up steps, started on static data and an empty
  // table, runs as the interpreter does and touches no dead block; when it
  // ends every count is exact, and dropping the table leaves the static data
  // alone unless a count saturated.
  lemma {:induction false} EmittedProgramClean(P: Prog, builtins: seq<string>, ctors: seq<string>, defs: Defs, n: nat,
                                               s: MState)
    requires Compiled(P, defs) && Setting(P) && HeapOk(s.w.heap) && Statics(P, s.w.heap) && Only(s.w, [])
    requires |builtins| < 0x1_0000 && StartUp(P, builtins, ctors, defs).Some?
    ensures var T, steps := The(EmitDefs(P, 0, defs)).code, The(StartUp(P, builtins, ctors, defs));
            var r, o := RunProgram(P, n, s.w, steps), Exec(P, T, n + 1, InitCode(steps) + MainCode(P), s);
            && RunAgrees(r, o) && RunOk(P, s.w, r)
            && (r.Ran? ==>
                  var d := DropAll(o.s.w.heap, o.s.w.globs);
                  && d.Ok?
                  && ((forall p :: p in d.heap && d.heap[p].rc == RC_IMMORTAL ==> p in s.w.heap) ==>
                     d.heap.Keys == s.w.heap.Keys))
  {
    hide EmitDefs, Image, Linked, HeapOk, Statics, Exec, RunProgram, InitCode, MainCode, Thunked, DropAll;
    hide RunOk, StartUp, ProgLits;
    var T, steps := EmitDefs(P, 0, defs).value.code, StartUp(P, builtins, ctors, defs).value;
    StartUpNarrow(P, builtins, ctors, defs);
    EmittedLinked(P, defs);
    EmittedThunked(P, defs);
    ProgramRuns(P, T, n, s, steps);
    ProgramSafe(P, n, s.w, steps);
    if RunProgram(P, n, s.w, steps).Ran? { ProgramClean(P, n, s.w, steps); }
  }
}

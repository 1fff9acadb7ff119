// The whole program of gen5/g5_cgdriver.dc: start-up fills the global table,
// then main is applied to unit. The emitted text runs as the interpreter does,
// and a well-owned program leaves no block behind.
module CodeMain {
  import opened Types
  import opened RcHeap
  import opened Trampoline
  import opened Oir
  import opened Machine
  import opened Codegen
  import opened CodeSteps
  import opened CodeOperands
  import opened CodeBlocks
  import opened CodeHeap
  import opened CodeSound
  import opened CodeRun
  import opened CodeLink
  import opened StartSteps

  // ---------- emitted text ----------

  // The value in x0 goes to the table.
  function StoreCode(slot: nat): Code { [MovRR(1, 0)] + LoadConst(0, slot) + [BlRt(DcGset)] }

  function ValueCode(s: Init): Code {
    match s
    case IRegister(cid, arity) => LoadConst(0, cid) + LoadConst(1, arity) + [BlRt(DcRegisterCtor)]
    case IBuiltin(idx, _) => LoadConst(0, idx) + [BlRt(DcMkPartialBuiltin)]
    case ICtor(cid, _) => LoadConst(0, cid) + [BlRt(DcMkPartialCtor)]
    case IThunk(f, _) => [Bl(ThunkOf(f))]
  }

  function StepCode(s: Init): Code { if s.IRegister? then ValueCode(s) else ValueCode(s) + StoreCode(s.slot) }

  // _dc_init between its prologue and epilogue.
  function InitCode(steps: seq<Init>): Code {
    if steps == [] then [] else StepCode(steps[0]) + InitCode(steps[1..])
  }

  // _dc_user_main, likewise.
  function MainCode(P: Prog): Code {
    if "main" !in P.slots then []
    else LoadConst(0, P.slots["main"]) + [BlRt(DcGget), Got(1, SUnit), LdrOff(9, 0, 8), Blr(9), BlRt(DcDrop)]
  }

  // ---------- start-up ----------

  // Table indices, as the generator numbers them.
  predicate Narrow(s: Init) {
    match s
    case IRegister(cid, arity) => cid < 0x1_0000 && arity < 0x1_0000
    case IBuiltin(idx, slot) => idx < 0x1_0000 && slot < 0x1_0000
    case ICtor(cid, slot) => cid < 0x1_0000 && slot < 0x1_0000
    case IThunk(_, slot) => slot < 0x1_0000
  }

  predicate AllNarrow(r: Option<seq<Init>>) { r.Some? ==> forall i :: 0 <= i < |r.value| ==> Narrow(r.value[i]) }

  // The generator's own steps are in range.
  lemma {:induction false} StartUpNarrow(P: Prog, builtins: seq<string>, ctors: seq<string>, defs: Defs)
    requires TablesOk(P) && |builtins| < 0x1_0000
    ensures AllNarrow(StartUp(P, builtins, ctors, defs))
  {
    hide Narrow;
    RegistersNarrow(P, ctors);
    BuiltinsNarrow(P, builtins, 0);
    CtorsNarrow(P, ctors);
    ThunksNarrow(P, defs);
  }

  lemma {:induction false} RegistersNarrow(P: Prog, names: seq<string>)
    requires TablesOk(P)
    ensures AllNarrow(RegisterSteps(P, names))
  {
    if names != [] { RegistersNarrow(P, names[1..]); }
  }

  lemma {:induction false} BuiltinsNarrow(P: Prog, names: seq<string>, i: nat)
    requires TablesOk(P) && i + |names| < 0x1_0000
    ensures AllNarrow(BuiltinSteps(P, names, i))
  {
    if names != [] { BuiltinsNarrow(P, names[1..], i + 1); }
  }

  lemma {:induction false} CtorsNarrow(P: Prog, names: seq<string>)
    requires TablesOk(P)
    ensures AllNarrow(CtorSteps(P, names))
  {
    if names != [] { CtorsNarrow(P, names[1..]); }
  }

  lemma {:induction false} ThunksNarrow(P: Prog, defs: Defs)
    requires TablesOk(P)
    ensures AllNarrow(ThunkSteps(P, defs))
  {
    if defs != [] { ThunksNarrow(P, defs[1..]); }
  }

  ghost predicate Thunked(P: Prog, T: Code) {
    forall n: nat, x: Regs, w: World, f {:trigger RunFn(P, T, n, ThunkOf(f), x, w)} :: f in P.defs && HeapOk(w.heap) ==>
      Agree(Thunk(P, n, w, f), RunFn(P, T, n, ThunkOf(f), x, w))
  }

  ghost predicate RunAgrees(r: Run, o: Out) {
    match r
    case Ran(w) => o.Fall? && o.s.w == w && HeapOk(w.heap)
    case Halted(why) => Compared(why) ==> o == Halt(why)
  }

  ghost predicate ValueAgrees(r: Res, o: Out) {
    match r
    case Done(v, w) => o.Fall? && o.s.w == w && 0 in o.s.regs && o.s.regs[0] == v && HeapOk(w.heap)
    case Stop(why) => Compared(why) ==> o == Halt(why)
  }

  lemma {:induction false} ConstThenRt(P: Prog, T: Code, n: nat, s: MState, v: nat, rt: Rt)
    requires v < 0x1_0000
    ensures Exec(P, T, n, LoadConst(0, v) + [BlRt(rt)], s) == Exec(P, T, n, [BlRt(rt)], SetReg(s, 0, v))
  {
    hide Exec, LoadConst;
    LoadConstRuns(P, T, n, 0, v, s);
    WrapSmall(v);
    SeqFall(P, T, n, LoadConst(0, v), [BlRt(rt)], s, SetReg(s, 0, v));
  }

  lemma {:induction false} ValueRuns(P: Prog, T: Code, n: nat, s: MState, i: Init)
    requires Thunked(P, T) && HeapOk(s.w.heap) && Narrow(i) && !i.IRegister?
    ensures ValueAgrees(InitValue(P, n, s.w, i), Exec(P, T, n + 1, ValueCode(i), s))
  {
    hide Exec, LoadConst, Build, HeapOk, Thunk, RunFn;
    match i
    case IBuiltin(idx, _) =>
      ConstThenRt(P, T, n + 1, s, idx, DcMkPartialBuiltin);
      OneRt(P, T, n + 1, DcMkPartialBuiltin, SetReg(s, 0, idx));
      BuildHeap(P, s.w, T_CLOSURE, BiStepWords(idx, []));
    case ICtor(cid, _) =>
      ConstThenRt(P, T, n + 1, s, cid, DcMkPartialCtor);
      OneRt(P, T, n + 1, DcMkPartialCtor, SetReg(s, 0, cid));
      BuildHeap(P, s.w, T_CLOSURE, StepWords(cid, []));
    case IThunk(f, _) =>
      CallRuns(P, T, n, s, ThunkOf(f));
      if f in P.defs {
        assert Agree(Thunk(P, n, s.w, f), RunFn(P, T, n, ThunkOf(f), s.regs, s.w));
      } else {
        NoThunk(P, n, s.w, f);
      }
  }

  lemma {:induction false} NoThunk(P: Prog, n: nat, w: World, f: string)
    requires f !in P.defs
    ensures Thunk(P, n, w, f) == Stop(Stuck)
  {
  }

  lemma {:induction false} CallRuns(P: Prog, T: Code, n: nat, s: MState, l: Label)
    ensures Exec(P, T, n + 1, [Bl(l)], s) ==
      match RunFn(P, T, n, l, s.regs, s.w) case Stop(why) => Halt(why) case Done(v, w) => Fall(After(s, v, w))
  {
    hide RunFn;
    assert [Bl(l)][1..] == [];
    var r := RunFn(P, T, n, l, s.regs, s.w);
    if r.Done? { ExecNone(P, T, n + 1, After(s, r.v, r.w)); }
  }

  lemma {:induction false} StoreRuns(P: Prog, T: Code, n: nat, s: MState, slot: nat)
    requires 0 in s.regs && slot < 0x1_0000 && slot < |s.w.globs| && HeapOk(s.w.heap)
    ensures RunAgrees(Gset(s.w, slot, s.regs[0]), Exec(P, T, n, StoreCode(slot), s))
  {
    hide Exec, LoadConst, HeapOk, Drop;
    var s1 := SetReg(s, 1, s.regs[0]);
    assert [MovRR(1, 0)] + LoadConst(0, slot) + [BlRt(DcGset)] == [MovRR(1, 0)] + (LoadConst(0, slot) + [BlRt(DcGset)]);
    Front(P, T, n, MovRR(1, 0), LoadConst(0, slot) + [BlRt(DcGset)], s);
    ConstThenRt(P, T, n, s1, slot, DcGset);
    OneRt(P, T, n, DcGset, SetReg(s1, 0, slot));
    DropHeap(s.w.heap, s.w.globs[slot]);
  }

  // dc_register_ctor with its arguments.
  lemma {:induction false} RegisterRuns(P: Prog, T: Code, n: nat, s: MState, cid: nat, arity: nat)
    requires cid < 0x1_0000 && arity < 0x1_0000 && HeapOk(s.w.heap)
    ensures RunAgrees(RunStep(P, n, s.w, IRegister(cid, arity)), Exec(P, T, n + 1, ValueCode(IRegister(cid, arity)), s))
  {
    hide Exec, LoadConst, HeapOk;
    var s1 := SetReg(s, 0, cid);
    var s2, a, b := SetReg(s1, 1, arity), LoadConst(0, cid), LoadConst(1, arity);
    WrapSmall(cid);
    WrapSmall(arity);
    LoadConstRuns(P, T, n + 1, 0, cid, s);
    LoadConstRuns(P, T, n + 1, 1, arity, s1);
    SeqFall(P, T, n + 1, a, b, s, s1);
    SeqFall(P, T, n + 1, a + b, [BlRt(DcRegisterCtor)], s, s2);
    OneRt(P, T, n + 1, DcRegisterCtor, s2);
  }

  lemma {:induction false} StepRuns(P: Prog, T: Code, n: nat, s: MState, i: Init)
    requires Thunked(P, T) && HeapOk(s.w.heap) && Narrow(i)
    ensures RunAgrees(RunStep(P, n, s.w, i), Exec(P, T, n + 1, StepCode(i), s))
  {
    hide Exec, HeapOk, InitValue, Gset, ValueCode, StoreCode, Thunked;
    if i.IRegister? {
      RegisterRuns(P, T, n, s, i.cid, i.arity);
    } else if i.slot < |s.w.globs| {
      var a, b := ValueCode(i), StoreCode(i.slot);
      ValueRuns(P, T, n, s, i);
      var o := Exec(P, T, n + 1, a, s);
      match InitValue(P, n, s.w, i)
      case Stop(why) => if Compared(why) { SeqHalt(P, T, n + 1, a, b, s); }
      case Done(v, w1) =>
        SeqFall(P, T, n + 1, a, b, s, o.s);
        if i.slot < |w1.globs| { StoreRuns(P, T, n + 1, o.s, i.slot); }
    }
  }

  lemma {:induction false} InitRuns(P: Prog, T: Code, n: nat, s: MState, steps: seq<Init>)
    requires Thunked(P, T) && HeapOk(s.w.heap) && forall i :: 0 <= i < |steps| ==> Narrow(steps[i])
    ensures RunAgrees(RunInit(P, n, s.w, steps), Exec(P, T, n + 1, InitCode(steps), s))
    decreases |steps|
  {
    hide Exec, HeapOk, RunStep, StepCode, Narrow, Thunked;
    if steps == [] {
      ExecNone(P, T, n + 1, s);
    } else {
      var a, b := StepCode(steps[0]), InitCode(steps[1..]);
      StepRuns(P, T, n, s, steps[0]);
      var r, o := RunStep(P, n, s.w, steps[0]), Exec(P, T, n + 1, a, s);
      if r.Ran? {
        SeqFall(P, T, n + 1, a, b, s, o.s);
        InitRuns(P, T, n, o.s, steps[1..]);
      } else if Compared(r.why) {
        SeqHalt(P, T, n + 1, a, b, s);
      }
    }
  }

  // ---------- main ----------

  lemma {:induction false} MainRuns(P: Prog, T: Code, n: nat, s: MState)
    requires Ready(P, T) && HeapOk(s.w.heap)
    ensures RunAgrees(RunMain(P, n, s.w), Exec(P, T, n + 1, MainCode(P), s))
  {
    hide Exec, HeapOk, Ready, LoadConst, EvClosure, Drop;
    if "main" !in P.slots {
      ExecNone(P, T, n + 1, s);
    } else if P.slots["main"] < |s.w.globs| && SUnit in P.addr {
      var slot := P.slots["main"];
      var clo := s.w.globs[slot];
      MainSlot(P, T);
      var load, rest := LoadConst(0, slot) + [BlRt(DcGget)], [Got(1, SUnit), LdrOff(9, 0, 8), Blr(9), BlRt(DcDrop)];
      assert LoadConst(0, slot) + [BlRt(DcGget), Got(1, SUnit), LdrOff(9, 0, 8), Blr(9), BlRt(DcDrop)] == load + rest;
      ConstThenRt(P, T, n + 1, s, slot, DcGget);
      OneRt(P, T, n + 1, DcGget, SetReg(s, 0, slot));
      var s1 := After(SetReg(s, 0, slot), clo, s.w);
      SeqFall(P, T, n + 1, load, rest, s, s1);
      Applied(P, T, n, s1, clo);
    }
  }

  lemma {:induction false} MainSlot(P: Prog, T: Code)
    requires Ready(P, T)
    ensures forall g :: g in P.slots ==> P.slots[g] < 0x1_0000
  {
    hide Linked;
  }

  // The closure in x0 is applied to unit and the result dropped.
  lemma {:induction false} Applied(P: Prog, T: Code, n: nat, s: MState, clo: Word)
    requires Ready(P, T) && HeapOk(s.w.heap) && SUnit in P.addr && 0 in s.regs && s.regs[0] == clo
    ensures var o := Exec(P, T, n + 1, [Got(1, SUnit), LdrOff(9, 0, 8), Blr(9), BlRt(DcDrop)], s);
            match EvClosure(P, n, s.w, clo, P.addr[SUnit])
            case Stop(why) => Compared(why) ==> o == Halt(why)
            case Done(v, w1) => RunAgrees(match RtDrop(w1, v) case None => Halted(Corrupt) case Some(w2) => Ran(w2), o)
  {
    hide Exec, HeapOk, Ready, CallCode, IsRef, Drop, EvLam, EvLevel, RtCtorStep, RtBuiltinStep;
    var unit := P.addr[SUnit];
    var s1 := SetReg(s, 1, unit);
    var rest: Code := [Blr(9), BlRt(DcDrop)];
    assert [Got(1, SUnit), LdrOff(9, 0, 8), Blr(9), BlRt(DcDrop)] == [Got(1, SUnit)] + ([LdrOff(9, 0, 8)] + rest);
    Front(P, T, n + 1, Got(1, SUnit), [LdrOff(9, 0, 8)] + rest, s);
    Front(P, T, n + 1, LdrOff(9, 0, 8), rest, s1);
    if IsRef(clo) && clo in s.w.heap && IsClosure(s.w.heap[clo]) {
      var c := s.w.heap[clo].words[0];
      var s2 := SetReg(s1, 9, c);
      CallCodeAgrees(P, T, n, s.w, clo, unit);
      var r := EvClosure(P, n, s.w, clo, unit);
      BlrDrops(P, T, n, s2, c, clo, unit);
      if r.Done? { DropHeap(r.w.heap, r.v); }
    }
  }

  lemma {:induction false} BlrDrops(P: Prog, T: Code, n: nat, s: MState, c: Word, clo: Word, arg: Word)
    requires 9 in s.regs && 0 in s.regs && 1 in s.regs && s.regs[9] == c && s.regs[0] == clo && s.regs[1] == arg
    ensures Exec(P, T, n + 1, [Blr(9), BlRt(DcDrop)], s) ==
      match CallCode(P, T, n, c, clo, arg, s.w)
      case Stop(why) => Halt(why)
      case Done(v, w1) =>
        match RtDrop(w1, v)
        case None => Halt(Corrupt)
        case Some(w2) => Fall(AfterVoid(After(s, v, w1), w2))
  {
    hide CallCode, Drop;
    var code: Code := [Blr(9), BlRt(DcDrop)];
    assert code[1..] == [BlRt(DcDrop)];
    var r := CallCode(P, T, n, c, clo, arg, s.w);
    if r.Done? { OneRt(P, T, n + 1, DcDrop, After(s, r.v, r.w)); }
  }

  // ---------- the program ----------

  // The emitted start-up and main run as the interpreter does.
  lemma {:induction false} ProgramRuns(P: Prog, T: Code, n: nat, s: MState, steps: seq<Init>)
    requires Ready(P, T) && Thunked(P, T) && HeapOk(s.w.heap) && forall i :: 0 <= i < |steps| ==> Narrow(steps[i])
    ensures RunAgrees(RunProgram(P, n, s.w, steps), Exec(P, T, n + 1, InitCode(steps) + MainCode(P), s))
  {
    hide Exec, HeapOk, Ready, Thunked, RunInit, RunMain, InitCode, MainCode;
    InitRuns(P, T, n, s, steps);
    var r, o := RunInit(P, n, s.w, steps), Exec(P, T, n + 1, InitCode(steps), s);
    if r.Ran? {
      SeqFall(P, T, n + 1, InitCode(steps), MainCode(P), s, o.s);
      MainRuns(P, T, n, o.s);
    } else if Compared(r.why) {
      SeqHalt(P, T, n + 1, InitCode(steps), MainCode(P), s);
    }
  }

  lemma {:induction false} EmittedThunked(P: Prog, defs: Defs)
    requires EmitDefs(P, 0, defs).Some? && Image(P, defs) && Ready(P, The(EmitDefs(P, 0, defs)).code)
    ensures Thunked(P, The(EmitDefs(P, 0, defs)).code)
  {
    hide EmitDefs, Image, Ready, HeapOk, Thunk, RunFn, Agree;
    var T := EmitDefs(P, 0, defs).value.code;
    forall n: nat, x: Regs, w: World, f | f in P.defs && HeapOk(w.heap)
      ensures Agree(Thunk(P, n, w, f), RunFn(P, T, n, ThunkOf(f), x, w))
    {
      ThunkAgrees(P, defs, n, x, w, f);
    }
  }
}

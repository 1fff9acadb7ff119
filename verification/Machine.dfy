// The ARM64 subset the code generator of gen5/g5_cg.dc emits, one constructor
// for each ts_*/a_* helper of gen3-dcc-dc/dcc.dc, and its execution. Every
// emitted branch goes forward, so a run reads the text from left to right.
module Machine {
  import opened Types
  import opened RcHeap
  import opened Trampoline
  import opened Oir

  // ---------- instructions ----------

  datatype Kind = KLam | KSkip | KFail | KEnd | KElse | KNext | KTrue | KDone | KShort | KBlock

  // Numbered labels are unique by kind and number; the others name routines.
  datatype Label =
    | Loc(kind: Kind, id: int)
    | Direct(fn: string)
    | Level(fn: string, i: int)
    | ThunkOf(fn: string)

  datatype Cond = Eq | Ne | Lt | Gt | Le | Ge

  datatype Rt =
    | DcAllocRc
    | DcReuseOrAlloc
    | DcDup
    | DcDrop
    | DcDropReuse
    | DcGget
    | DcGset
    | DcValEq
    | DcMatchFail
    | DcBi(name: string)
    | DcMkPartialBuiltin
    | DcMkPartialCtor
    | DcRegisterCtor

  datatype Instr =
    | MovImm(rd: int, v: int)
    | MovN(rd: int, v: int)
    | MovZ(rd: int, v: int)
    | MovK(rd: int, v: int, shift: int)
    | StrSlot(rs: int, slot: int)
    | LdrSlot(rd: int, slot: int)
    | LdrOff(rd: int, base: int, off: int)
    | StrOff(rs: int, base: int, off: int)
    | MovRR(rd: int, rn: int)
    | CmpImm(rn: int, imm: int)
    | CmpReg(rn: int, rm: int)
    | AddImm(rd: int, rn: int, imm: int)
    | SubImm(rd: int, rn: int, imm: int)
    | AddRR(rd: int, rn: int, rm: int)
    | SubRR(rd: int, rn: int, rm: int)
    | MulRR(rd: int, rn: int, rm: int)
    | Sdiv(rd: int, rn: int, rm: int)
    | Msub(rd: int, rn: int, rm: int, ra: int)
    | Asr2(rd: int, rn: int)             // asr rd, rn, #2
    | Lsl2(rd: int)                      // add rd, xzr, rd, lsl #2
    | EorImm4(rd: int)                   // eor rd, rd, #4
    | Mask40(rd: int)                    // and rd, rd, #0xffffffffff
    | Got(rd: int, sym: Sym)             // adrp/ldr pair
    | B(l: Label)
    | BCond(cond: Cond, l: Label)
    | Lbl(l: Label)
    | Bl(l: Label)
    | Blr(rn: int)
    | BlRt(rt: Rt)
    | Lit(id: int, text: string)         // a string literal in the data section
    | Prologue
    | Epilogue

  type Code = seq<Instr>

  // ---------- state ----------

  const SLOTS: nat := 504

  type Regs = map<int, Word>

  // A register a call may have clobbered has no value.
  datatype MState = MState(regs: Regs, slots: seq<Word>, cmp: Option<(Word, Word)>, w: World)

  datatype Out = Fall(s: MState) | Goto(l: Label, s: MState) | Return(v: Word, w: World) | Halt(why: Why)

  // ---------- arithmetic ----------

  const W64: int := 0x1_0000_0000_0000_0000

  // 64-bit words are read as signed integers.
  function Wrap(x: int): int { (x + W64 / 2) % W64 - W64 / 2 }

  // x without its 16 bits at shift, plus v there (movk).
  function Insert16(x: Word, v: int, shift: int): Word {
    var p := if shift == 16 then 0x1_0000 else if shift == 32 then 0x1_0000_0000 else 0x1_0000_0000_0000;
    Wrap(x - (x / p % 0x1_0000) * p + v * p)
  }

  predicate Holds(c: Cond, a: Word, b: Word) {
    match c
    case Eq => a == b
    case Ne => a != b
    case Lt => a < b
    case Gt => a > b
    case Le => a <= b
    case Ge => a >= b
  }

  // sdiv: truncates, and divides by zero to zero.
  function Quot(a: Word, b: Word): Word { if b == 0 then 0 else Wrap(TruncDiv(a, b)) }

  function FlipBit2(x: Word): Word { if x / 4 % 2 == 0 then x + 4 else x - 4 }

  // ---------- memory ----------

  const RC_ONE: int := 0x100_0000_0000   // 1 << 40

  function Header(b: Block): Word { b.rc * RC_ONE + SizeOf(b) * 256 + b.tag }

  datatype Mem = Got1(v: Word) | Bad(why: Why)

  function Read(h: Heap, a: Word, off: int): Mem {
    if !IsRef(a) then Bad(Stuck)
    else if a !in h then Bad(Corrupt)
    else if off < 0 || off % 8 != 0 || off / 8 > |h[a].words| then Bad(Stuck)
    else if off == 0 then Got1(Header(h[a]))
    else Got1(h[a].words[off / 8 - 1])
  }

  // Writing a header changes count and tag; its size must be the block's.
  function Write(h: Heap, a: Word, off: int, v: Word): Option<Heap> {
    if !IsRef(a) || a !in h || off < 0 || off % 8 != 0 || off / 8 > |h[a].words| then None
    else if off == 0 then
      if v >= 0 && v / 256 % 0x1_0000_0000 == SizeOf(h[a]) then
        Some(h[a := Block(v / RC_ONE, v % 256, h[a].words)])
      else None
    else Some(h[a := h[a].(words := h[a].words[off / 8 - 1 := v])])
  }

  // ---------- straight-line instructions ----------

  // The value of a register that has one.
  ghost function Reg(s: MState, r: int): Word { AtKey(s.regs, r) }

  function SetReg(s: MState, rd: int, v: Word): MState { s.(regs := s.regs[rd := v]) }

  // One instruction that neither branches nor calls; None when it reads
  // something that has no value.
  function Step(P: Prog, i: Instr, s: MState): Out {
    var x := s.regs;
    match i
    case MovImm(rd, v) => Fall(SetReg(s, rd, v))
    case MovN(rd, v) => Fall(SetReg(s, rd, -v - 1))
    case MovZ(rd, v) => Fall(SetReg(s, rd, v))
    case MovK(rd, v, sh) => if rd in x then Fall(SetReg(s, rd, Insert16(x[rd], v, sh))) else Halt(Stuck)
    case StrSlot(rs, slot) =>
      if rs in x && 0 <= slot < |s.slots| then Fall(s.(slots := s.slots[slot := x[rs]])) else Halt(Stuck)
    case LdrSlot(rd, slot) => if 0 <= slot < |s.slots| then Fall(SetReg(s, rd, s.slots[slot])) else Halt(Stuck)
    case LdrOff(rd, base, off) =>
      if base !in x then Halt(Stuck)
      else (match Read(s.w.heap, x[base], off) case Bad(why) => Halt(why) case Got1(v) => Fall(SetReg(s, rd, v)))
    case StrOff(rs, base, off) =>
      if rs !in x || base !in x then Halt(Stuck)
      else (match Write(s.w.heap, x[base], off, x[rs])
            case None => Halt(Stuck)
            case Some(h) => Fall(s.(w := s.w.(heap := h))))
    case MovRR(rd, rn) => if rn in x then Fall(SetReg(s, rd, x[rn])) else Halt(Stuck)
    case CmpImm(rn, imm) => if rn in x then Fall(s.(cmp := Some((x[rn], imm)))) else Halt(Stuck)
    case CmpReg(rn, rm) => if rn in x && rm in x then Fall(s.(cmp := Some((x[rn], x[rm])))) else Halt(Stuck)
    case AddImm(rd, rn, imm) => if rn in x then Fall(SetReg(s, rd, Wrap(x[rn] + imm))) else Halt(Stuck)
    case SubImm(rd, rn, imm) => if rn in x then Fall(SetReg(s, rd, Wrap(x[rn] - imm))) else Halt(Stuck)
    case AddRR(rd, rn, rm) => if rn in x && rm in x then Fall(SetReg(s, rd, Wrap(x[rn] + x[rm]))) else Halt(Stuck)
    case SubRR(rd, rn, rm) => if rn in x && rm in x then Fall(SetReg(s, rd, Wrap(x[rn] - x[rm]))) else Halt(Stuck)
    case MulRR(rd, rn, rm) => if rn in x && rm in x then Fall(SetReg(s, rd, Wrap(x[rn] * x[rm]))) else Halt(Stuck)
    case Sdiv(rd, rn, rm) => if rn in x && rm in x then Fall(SetReg(s, rd, Quot(x[rn], x[rm]))) else Halt(Stuck)
    case Msub(rd, rn, rm, ra) =>
      if rn in x && rm in x && ra in x then Fall(SetReg(s, rd, Wrap(x[ra] - x[rn] * x[rm]))) else Halt(Stuck)
    case Asr2(rd, rn) => if rn in x then Fall(SetReg(s, rd, x[rn] / 4)) else Halt(Stuck)
    case Lsl2(rd) => if rd in x then Fall(SetReg(s, rd, Wrap(x[rd] * 4))) else Halt(Stuck)
    case EorImm4(rd) => if rd in x then Fall(SetReg(s, rd, FlipBit2(x[rd]))) else Halt(Stuck)
    case Mask40(rd) => if rd in x then Fall(SetReg(s, rd, x[rd] % RC_ONE)) else Halt(Stuck)
    case Got(rd, sym) => if sym in P.addr then Fall(SetReg(s, rd, P.addr[sym])) else Halt(Stuck)
    case _ => Fall(s)   // labels, data and the prologue
  }

  predicate Transfers(i: Instr) { i.B? || i.BCond? || i.Bl? || i.Blr? || i.BlRt? || i.Epilogue? }

  // ---------- calls into the runtime ----------

  datatype RtOut = RtVal(v: Word, w: World) | RtVoid(w: World) | RtStop(why: Why)

  function OfRes(r: Res): RtOut { match r case Done(v, w) => RtVal(v, w) case Stop(why) => RtStop(why) }

  // Bytes to words as dc_alloc_rc rounds them; a negative length is huge.
  function WordsFor(nbytes: Word): (n: nat)
    ensures n >= 2
  {
    if nbytes < 0 then MAX_WORDS + 1
    else
      var n := (nbytes + 7) / 8;
      if n < 2 then 2 else n
  }

  function ArgRegs(x: Regs, k: nat): seq<Word> { seq(k, j requires 0 <= j < k => if j in x then x[j] else 0) }

  ghost function RtCall(P: Prog, n: nat, rt: Rt, x: Regs, w: World): RtOut {
    match rt
    case DcAllocRc => if 0 in x then OfRes(RtAlloc(P, w, WordsFor(x[0]))) else RtStop(Stuck)
    case DcReuseOrAlloc =>
      if 0 in x && 1 in x then OfRes(RtReuseOrAlloc(P, w, x[0], WordsFor(x[1]))) else RtStop(Stuck)
    case DcDup =>
      if 0 !in x then RtStop(Stuck)
      else (match RtDup(w, x[0]) case None => RtStop(Corrupt) case Some(w1) => RtVoid(w1))
    case DcDrop =>
      if 0 !in x then RtStop(Stuck)
      else (match RtDrop(w, x[0]) case None => RtStop(Corrupt) case Some(w1) => RtVoid(w1))
    case DcDropReuse => if 0 in x then OfRes(RtDropReuse(w, x[0])) else RtStop(Stuck)
    case DcGget => if 0 in x && 0 <= x[0] < |w.globs| then RtVal(w.globs[x[0]], w) else RtStop(Stuck)
    case DcValEq =>
      if 0 !in x || 1 !in x then RtStop(Stuck)
      else (match ValEq(w.heap, x[0], x[1], n) case EqStop(why) => RtStop(why) case Same(eq) => RtVal(BoolWord(eq), w))
    case DcGset =>
      if 0 in x && 1 in x && 0 <= x[0] < |w.globs| then
        (match RtGset(w, x[0], x[1]) case None => RtStop(Corrupt) case Some(w1) => RtVoid(w1))
      else RtStop(Stuck)
    case DcMkPartialBuiltin => if 0 in x then OfRes(Build(P, w, T_CLOSURE, BiStepWords(x[0], []))) else RtStop(Stuck)
    case DcMkPartialCtor =>
      if 0 in x && x[0] >= 0 then OfRes(Build(P, w, T_CLOSURE, StepWords(x[0], []))) else RtStop(Stuck)
    case DcRegisterCtor =>
      if 0 !in x || 1 !in x then RtStop(Stuck)
      else (match RtRegister(w, x[0], x[1]) case None => RtStop(Stuck) case Some(w1) => RtVoid(w1))
    case DcMatchFail => RtStop(NoMatch)
    case DcBi(name) =>
      if forall j :: 0 <= j < BiArgs(name) ==> j in x then OfRes(RtBuiltin(P, w, name, ArgRegs(x, BiArgs(name))))
      else RtStop(Stuck)
  }

  // x0 to x18 do not survive a call (AAPCS64 section 6.1.1).
  function Clobber(x: Regs): Regs { map r | r in x && r > 18 :: x[r] }

  function After(s: MState, v: Word, w: World): MState { MState(Clobber(s.regs)[0 := v], s.slots, None, w) }
  function AfterVoid(s: MState, w: World): MState { MState(Clobber(s.regs), s.slots, None, w) }

  // ---------- execution ----------

  // The text behind a label.
  function Seek(code: Code, l: Label): (r: Option<Code>)
    ensures r.Some? ==> |r.value| < |code|
  {
    if code == [] then None
    else if code[0] == Lbl(l) then Some(code[1..])
    else Seek(code[1..], l)
  }

  // What a new frame's slots happen to hold.
  function Junk(P: Prog, w: World): seq<Word> {
    var j := P.junk(w.tick);
    seq(SLOTS, i requires 0 <= i < SLOTS => if i < |j| then j[i] else 0)
  }

  // Run code in a routine of the whole text T; n bounds the depth of calls.
  ghost function Exec(P: Prog, T: Code, n: nat, code: Code, s: MState): Out
    decreases n, 0, |code|
  {
    if code == [] then Fall(s)
    else
      var i, rest := code[0], code[1..];
      match i
      case B(l) => Land(P, T, n, rest, l, s)
      case BCond(c, l) =>
        if s.cmp.None? then Halt(Stuck)
        else if Holds(c, s.cmp.value.0, s.cmp.value.1) then Land(P, T, n, rest, l, s)
        else Exec(P, T, n, rest, s)
      case BlRt(rt) =>
        (match RtCall(P, n, rt, s.regs, s.w)
         case RtStop(why) => Halt(why)
         case RtVal(v, w) => Exec(P, T, n, rest, After(s, v, w))
         case RtVoid(w) => Exec(P, T, n, rest, AfterVoid(s, w)))
      case Bl(l) =>
        if n == 0 then Halt(OutOfFuel)
        else (match RunFn(P, T, n - 1, l, s.regs, s.w)
              case Stop(why) => Halt(why)
              case Done(v, w) => Exec(P, T, n, rest, After(s, v, w)))
      case Blr(r) =>
        if r !in s.regs || 0 !in s.regs || 1 !in s.regs then Halt(Stuck)
        else if n == 0 then Halt(OutOfFuel)
        else (match CallCode(P, T, n - 1, s.regs[r], s.regs[0], s.regs[1], s.w)
              case Stop(why) => Halt(why)
              case Done(v, w) => Exec(P, T, n, rest, After(s, v, w)))
      case Epilogue => if 0 in s.regs then Return(s.regs[0], s.w) else Halt(Stuck)
      case _ =>
        match Step(P, i, s)
        case Fall(s1) => Exec(P, T, n, rest, s1)
        case _ => Step(P, i, s)
  }

  // A branch to l, with rest the text that follows.
  ghost function Land(P: Prog, T: Code, n: nat, rest: Code, l: Label, s: MState): Out
    decreases n, 0, |rest|
  {
    match Seek(rest, l)
    case Some(code) => Exec(P, T, n, code, s)
    case None => Goto(l, s)
  }

  // A call of the routine at l: a fresh frame, arguments in registers.
  ghost function RunFn(P: Prog, T: Code, n: nat, l: Label, x: Regs, w: World): Res
    decreases n, 1
  {
    match Seek(T, l)
    case None => Stop(Stuck)
    case Some(code) =>
      match Exec(P, T, n, code, MState(x, Junk(P, w), None, w))
      case Return(v, w1) => Done(v, w1)
      case Halt(why) => Stop(why)
      case _ => Stop(Stuck)
  }

  // A call of the code address c with a closure and an argument.
  ghost function CallCode(P: Prog, T: Code, n: nat, c: Word, clo: Word, arg: Word, w: World): Res
    decreases n, 2
  {
    if !IsRef(clo) then Stop(Stuck)
    else if clo !in w.heap then Stop(Corrupt)
    else if c == CTOR_STEP then RtCtorStep(P, w, w.heap[clo].words, arg)
    else if c == BI_STEP then RtBuiltinStep(P, w, w.heap[clo].words, arg)
    else
      match CodeAt(P, c)
      case Some(SLam(id)) => RunFn(P, T, n, Loc(KLam, id), map[0 := clo, 1 := arg], w)
      case Some(SLevel(f, i)) => RunFn(P, T, n, Level(f, i), map[0 := clo, 1 := arg], w)
      case _ => Stop(Stuck)
  }

  // ---------- composition ----------

  lemma {:induction false} SeekNone(code: Code, l: Label)
    ensures Seek(code, l).None? <==> Lbl(l) !in code
  {
    if code != [] {
      SeekNone(code[1..], l);
      assert code == [code[0]] + code[1..];
    }
  }

  lemma {:induction false} SeekSeq(a: Code, b: Code, l: Label)
    ensures Seek(a + b, l) == match Seek(a, l) case Some(c) => Some(c + b) case None => Seek(b, l)
  {
    if a == [] {
      assert a + b == b;
    } else {
      assert (a + b)[1..] == a[1..] + b;
      SeekSeq(a[1..], b, l);
    }
  }

  // What follows an outcome of the text before it.
  ghost function Continue(P: Prog, T: Code, n: nat, o: Out, b: Code): Out {
    match o
    case Fall(s) => Exec(P, T, n, b, s)
    case Goto(l, s) => Land(P, T, n, b, l, s)
    case _ => o
  }

  // Text runs in sequence: the second part goes on where the first fell
  // through, or where it branched to.
  lemma {:induction false} ExecSeq(P: Prog, T: Code, n: nat, a: Code, b: Code, s: MState)
    ensures Exec(P, T, n, a + b, s) == Continue(P, T, n, Exec(P, T, n, a, s), b)
    decreases |a|, 1
  {
    hide Step, Exec, Land, Continue;
    if a == [] {
      assert a + b == b;
      FromEmpty(P, T, n, b, s);
    } else {
      var i, rest := a[0], a[1..];
      assert a == [i] + rest && a + b == [i] + (rest + b);
      if i.B? || i.BCond? {
        BranchSeq(P, T, n, i, rest, b, s);
      } else if i.BlRt? || i.Bl? || i.Blr? {
        CallSeq(P, T, n, i, rest, b, s);
      } else {
        PlainSeq(P, T, n, i, rest, b, s);
      }
    }
  }

  lemma {:induction false} FromEmpty(P: Prog, T: Code, n: nat, b: Code, s: MState)
    ensures Exec(P, T, n, b, s) == Continue(P, T, n, Exec(P, T, n, [], s), b)
  {
  }

  lemma {:induction false} BranchSeq(P: Prog, T: Code, n: nat, i: Instr, rest: Code, b: Code, s: MState)
    requires i.B? || i.BCond?
    ensures Exec(P, T, n, [i] + (rest + b), s) == Continue(P, T, n, Exec(P, T, n, [i] + rest, s), b)
    decreases |rest| + 1, 0
  {
    hide Land;
    assert ([i] + (rest + b))[1..] == rest + b && ([i] + rest)[1..] == rest;
    LandSeq(P, T, n, rest, b, i.l, s);
    ExecSeq(P, T, n, rest, b, s);
  }

  // What a call leaves: the value in x0, or nothing, or a stop.
  ghost function Called(P: Prog, T: Code, n: nat, i: Instr, s: MState): Out
    requires i.BlRt? || i.Bl? || i.Blr?
  {
    match i
    case BlRt(rt) =>
      (match RtCall(P, n, rt, s.regs, s.w)
       case RtStop(why) => Halt(why)
       case RtVal(v, w) => Fall(After(s, v, w))
       case RtVoid(w) => Fall(AfterVoid(s, w)))
    case Bl(l) =>
      if n == 0 then Halt(OutOfFuel)
      else (match RunFn(P, T, n - 1, l, s.regs, s.w) case Stop(why) => Halt(why)
          case Done(v, w) => Fall(After(s, v, w)))
    case Blr(r) =>
      if r !in s.regs || 0 !in s.regs || 1 !in s.regs then Halt(Stuck)
      else if n == 0 then Halt(OutOfFuel)
      else (match CallCode(P, T, n - 1, s.regs[r], s.regs[0], s.regs[1], s.w)
            case Stop(why) => Halt(why)
            case Done(v, w) => Fall(After(s, v, w)))
  }

  lemma {:induction false} CallIs(P: Prog, T: Code, n: nat, i: Instr, rest: Code, s: MState)
    requires i.BlRt? || i.Bl? || i.Blr?
    ensures Exec(P, T, n, [i] + rest, s) == match Called(P, T, n, i, s) case Fall(s1) => Exec(P, T, n, rest, s1)
        case o => o
  {
    hide RtCall, CallCode, RunFn;
    assert ([i] + rest)[1..] == rest;
  }

  lemma {:induction false} CallSeq(P: Prog, T: Code, n: nat, i: Instr, rest: Code, b: Code, s: MState)
    requires i.BlRt? || i.Bl? || i.Blr?
    ensures Exec(P, T, n, [i] + (rest + b), s) == Continue(P, T, n, Exec(P, T, n, [i] + rest, s), b)
    decreases |rest| + 1, 0
  {
    hide Exec, Called, Land;
    CallIs(P, T, n, i, rest + b, s);
    CallIs(P, T, n, i, rest, s);
    CalledOut(P, T, n, i, s);
    var o := Called(P, T, n, i, s);
    if o.Fall? { ExecSeq(P, T, n, rest, b, o.s); }
  }

  lemma {:induction false} CalledOut(P: Prog, T: Code, n: nat, i: Instr, s: MState)
    requires i.BlRt? || i.Bl? || i.Blr?
    ensures var o := Called(P, T, n, i, s); o.Fall? || o.Halt?
  {
    hide RtCall, CallCode, RunFn;
  }

  lemma {:induction false} PlainSeq(P: Prog, T: Code, n: nat, i: Instr, rest: Code, b: Code, s: MState)
    requires !(i.B? || i.BCond? || i.BlRt? || i.Bl? || i.Blr?)
    ensures Exec(P, T, n, [i] + (rest + b), s) == Continue(P, T, n, Exec(P, T, n, [i] + rest, s), b)
    decreases |rest| + 1, 0
  {
    hide Step, Land;
    assert ([i] + (rest + b))[1..] == rest + b && ([i] + rest)[1..] == rest;
    StepOut(P, i, s);
    var o := Step(P, i, s);
    if o.Fall? { ExecSeq(P, T, n, rest, b, o.s); }
  }

  lemma {:induction false} StepOut(P: Prog, i: Instr, s: MState)
    ensures Step(P, i, s).Fall? || Step(P, i, s).Halt?
  {
  }

  lemma {:induction false} LandSeq(P: Prog, T: Code, n: nat, rest: Code, b: Code, l: Label, s: MState)
    ensures Land(P, T, n, rest + b, l, s) == Continue(P, T, n, Land(P, T, n, rest, l, s), b)
    decreases |rest|, 2
  {
    hide Exec;
    SeekSeq(rest, b, l);
    var r := Seek(rest, l);
    if r.Some? { ExecSeq(P, T, n, r.value, b, s); }
  }
}

// Running short stretches of emitted text: sequencing, constants, tagged
// arithmetic, labels.
module CodeSteps {
  import opened Types
  import opened Syntax
  import opened RcHeap
  import opened Oir
  import opened Machine
  import opened Codegen
  import opened Literals

  // ---------- sequencing ----------

  lemma {:induction false} SeqFall(P: Prog, T: Code, n: nat, a: Code, b: Code, s: MState, s1: MState)
    requires Exec(P, T, n, a, s) == Fall(s1)
    ensures Exec(P, T, n, a + b, s) == Exec(P, T, n, b, s1)
  {
    hide Exec, Land;
    ExecSeq(P, T, n, a, b, s);
  }

  lemma {:induction false} SeqHalt(P: Prog, T: Code, n: nat, a: Code, b: Code, s: MState)
    requires var o := Exec(P, T, n, a, s); o.Halt? || o.Return?
    ensures Exec(P, T, n, a + b, s) == Exec(P, T, n, a, s)
  {
    hide Exec, Land;
    ExecSeq(P, T, n, a, b, s);
  }

  // A branch to a label that does not follow leaves the text.
  lemma {:induction false} SeqGoto(P: Prog, T: Code, n: nat, a: Code, b: Code, s: MState)
    requires var o := Exec(P, T, n, a, s); o.Goto? && Lbl(o.l) !in b
    ensures Exec(P, T, n, a + b, s) == Exec(P, T, n, a, s)
  {
    hide Exec;
    ExecSeq(P, T, n, a, b, s);
    SeekNone(b, Exec(P, T, n, a, s).l);
  }

  // A branch to a label that ends the text falls out of it.
  lemma {:induction false} SeqLand(P: Prog, T: Code, n: nat, a: Code, s: MState, l: Label, b: Code)
    requires var o := Exec(P, T, n, a, s); o.Goto? && o.l == l
    ensures Exec(P, T, n, a + [Lbl(l)] + b, s) == Exec(P, T, n, b, Exec(P, T, n, a, s).s)
  {
    hide Exec;
    ExecSeq(P, T, n, a, [Lbl(l)] + b, s);
    assert a + [Lbl(l)] + b == a + ([Lbl(l)] + b);
    assert ([Lbl(l)] + b)[1..] == b;
    assert Seek([Lbl(l)] + b, l) == Some(b);
  }

  lemma {:induction false} ExecNone(P: Prog, T: Code, n: nat, s: MState)
    ensures Exec(P, T, n, [], s) == Fall(s)
  {
  }

  // One plain instruction.
  lemma {:induction false} One(P: Prog, T: Code, n: nat, i: Instr, s: MState)
    requires !Transfers(i)
    ensures Exec(P, T, n, [i], s) == Step(P, i, s)
  {
    hide Step;
    StepOut(P, i, s);
    assert [i][1..] == [];
    var o := Step(P, i, s);
    if o.Fall? { ExecNone(P, T, n, o.s); }
  }

  // A plain instruction in front.
  lemma {:induction false} Front(P: Prog, T: Code, n: nat, i: Instr, rest: Code, s: MState)
    requires !Transfers(i)
    ensures Exec(P, T, n, [i] + rest, s) == match Step(P, i, s) case Fall(s1) => Exec(P, T, n, rest, s1)
        case _ => Step(P, i, s)
  {
    hide Step;
    StepOut(P, i, s);
    assert ([i] + rest)[1..] == rest;
  }

  lemma {:induction false} OneRt(P: Prog, T: Code, n: nat, rt: Rt, s: MState)
    ensures Exec(P, T, n, [BlRt(rt)], s) ==
      match RtCall(P, n, rt, s.regs, s.w)
      case RtStop(why) => Halt(why)
      case RtVal(v, w) => Fall(After(s, v, w))
      case RtVoid(w) => Fall(AfterVoid(s, w))
  {
    hide RtCall;
    assert [BlRt(rt)][1..] == [];
    var r := RtCall(P, n, rt, s.regs, s.w);
    if r.RtVal? { ExecNone(P, T, n, After(s, r.v, r.w)); }
    if r.RtVoid? { ExecNone(P, T, n, AfterVoid(s, r.w)); }
  }

  lemma {:induction false} OneB(P: Prog, T: Code, n: nat, l: Label, s: MState)
    ensures Exec(P, T, n, [B(l)], s) == Goto(l, s)
  {
    assert [B(l)][1..] == [];
    assert Seek([], l) == None;
  }

  lemma {:induction false} OneBCond(P: Prog, T: Code, n: nat, c: Cond, l: Label, s: MState)
    requires s.cmp.Some?
    ensures Exec(P, T, n, [BCond(c, l)], s)
         == if Holds(c, The(s.cmp).0, The(s.cmp).1) then Goto(l, s) else Fall(s)
  {
    hide Holds;
    assert [BCond(c, l)][1..] == [];
    assert Seek([], l) == None;
    ExecNone(P, T, n, s);
  }

  // ---------- 64-bit words ----------

  lemma {:induction false} WrapSame(x: int, y: int, k: int)
    requires x == y + W64 * k
    ensures Wrap(x) == Wrap(y)
  {
    ModShift(y + W64 / 2, k);
  }

  lemma {:induction false} ModShift(y: int, k: int)
    ensures (y + W64 * k) % W64 == y % W64
  {
    var q, r := y / W64, y % W64;
    assert y + W64 * k == W64 * (q + k) + r;
    DivUnique(y + W64 * k, q + k, r);
  }

  lemma {:induction false} DivUnique(y: int, q: int, r: int)
    requires y == W64 * q + r && 0 <= r < W64
    ensures y % W64 == r && y / W64 == q
  {
  }

  // How far wrapping moved x.
  function Turns(x: int): int { -((x + W64 / 2) / W64) }

  lemma {:induction false} WrapIs(x: int)
    ensures Wrap(x) == x + W64 * Turns(x) && -W64 / 2 <= Wrap(x) < W64 / 2
  {
  }

  lemma {:induction false} WrapSmall(x: int)
    requires -W64 / 2 <= x < W64 / 2
    ensures Wrap(x) == x
  {
  }

  // Wrapping a sum or product once is enough.
  lemma {:induction false} WrapAdd(x: int, y: int)
    ensures Wrap(Wrap(x) + y) == Wrap(x + y)
  {
    WrapIs(x);
    WrapSame(Wrap(x) + y, x + y, Turns(x));
  }

  lemma {:induction false} WrapTimes(x: int, y: int)
    ensures Wrap(Wrap(x) * y) == Wrap(x * y)
  {
    hide Wrap, Turns;
    WrapIs(x);
    var k := Turns(x);
    assert (x + W64 * k) * y == x * y + W64 * (k * y) by { Distribute(x, k, y); }
    WrapSame(Wrap(x) * y, x * y, k * y);
  }

  lemma {:induction false} Distribute(x: int, k: int, y: int)
    ensures (x + W64 * k) * y == x * y + W64 * (k * y)
  {
  }

  // The tagged word of any integer is the 62-bit wrapped integer's.
  lemma {:induction false} TagWrap(m: int)
    ensures Wrap(m * 4 + 1) == IntWord(m)
  {
    var q := (m + W62 / 2) / W62;
    assert Wrap62(m) == m - W62 * q;
    assert W64 == 4 * W62;
    WrapSame(m * 4 + 1, 4 * (m - W62 * q) + 1, q);
    WrapSmall(4 * (m - W62 * q) + 1);
  }

  // Shifting left by two and setting the tag.
  lemma {:induction false} Retag(x: int)
    ensures Wrap(Wrap(Wrap(x) * 4) + 1) == IntWord(x)
  {
    hide Wrap, IntWord;
    WrapTimes(x, 4);
    WrapAdd(x * 4, 1);
    TagWrap(x);
  }

  // ---------- constants ----------

  lemma {:induction false} Limbs(v: int)
    ensures var r0 := v % 65536; var w1 := (v - r0) / 65536; var r1 := w1 % 65536;
            var w2 := (w1 - r1) / 65536; var r2 := w2 % 65536; var w3 := (w2 - r2) / 65536; var r3 := w3 % 65536;
            var x1 := r0 + r1 * 0x1_0000; var x2 := x1 + r2 * 0x1_0000_0000;
            && 0 <= r0 < 0x1_0000 && 0 <= x1 < 0x1_0000_0000 && 0 <= x2 < 0x1_0000_0000_0000
            && 0 <= r1 < 0x1_0000 && 0 <= r2 < 0x1_0000 && 0 <= r3 < 0x1_0000
            && v == x2 + r3 * 0x1_0000_0000_0000 + W64 * (w3 / 65536)
  {
    var r0 := v % 65536;
    var w1 := (v - r0) / 65536;
    assert v == r0 + 65536 * w1;
    var r1 := w1 % 65536;
    var w2 := (w1 - r1) / 65536;
    assert w1 == r1 + 65536 * w2;
    var r2 := w2 % 65536;
    var w3 := (w2 - r2) / 65536;
    assert w2 == r2 + 65536 * w3;
    assert w3 == w3 % 65536 + 65536 * (w3 / 65536);
  }

  lemma {:induction false} InsertLimb(x: Word, v: int, shift: int, p: int)
    requires p == if shift == 16 then 0x1_0000 else if shift == 32 then 0x1_0000_0000 else 0x1_0000_0000_0000
    requires 0 <= x < p && 0 <= v < 0x1_0000
    ensures Insert16(x, v, shift) == Wrap(x + v * p)
  {
    assert x / p == 0;
  }

  // movz/movk/movn build the two's-complement word of any integer.
  function Limb(rd: int, r: int, shift: int): Code { if r != 0 then [MovK(rd, r, shift)] else [] }

  lemma {:induction false} ConstParts(rd: int, v: int) returns (r0: int, r1: int, r2: int, r3: int, k: int)
    requires v < -65536 || v > 65535
    ensures LoadConst(rd, v) == [MovZ(rd, r0)] + Limb(rd, r1, 16) + Limb(rd, r2, 32) + Limb(rd, r3, 48)
    ensures 0 <= r0 < 0x1_0000 && 0 <= r1 < 0x1_0000 && 0 <= r2 < 0x1_0000 && 0 <= r3 < 0x1_0000
    ensures v == r0 + r1 * 0x1_0000 + r2 * 0x1_0000_0000 + r3 * 0x1_0000_0000_0000 + W64 * k
  {
    Limbs(v);
    r0 := v % 65536;
    var w1 := (v - r0) / 65536;
    r1 := w1 % 65536;
    var w2 := (w1 - r1) / 65536;
    r2 := w2 % 65536;
    var w3 := (w2 - r2) / 65536;
    r3, k := w3 % 65536, w3 / 65536;
  }

  lemma {:induction false} LoadConstRuns(P: Prog, T: Code, n: nat, rd: int, v: int, s: MState)
    ensures Exec(P, T, n, LoadConst(rd, v), s) == Fall(SetReg(s, rd, Wrap(v)))
  {
    hide Exec, Wrap;
    if 0 <= v <= 65535 {
      WrapSmall(v);
      One(P, T, n, MovImm(rd, v), s);
    } else if -65536 <= v < 0 {
      WrapSmall(v);
      One(P, T, n, MovN(rd, -v - 1), s);
    } else {
      WideRuns(P, T, n, rd, v, s);
    }
  }

  lemma {:induction false} WideRuns(P: Prog, T: Code, n: nat, rd: int, v: int, s: MState)
    requires v < -65536 || v > 65535
    ensures Exec(P, T, n, LoadConst(rd, v), s) == Fall(SetReg(s, rd, Wrap(v)))
  {
    hide Exec, Wrap, LoadConst, Limb;
    var r0, r1, r2, r3, k := ConstParts(rd, v);
    var x1, x2 := r0 + r1 * 0x1_0000, r0 + r1 * 0x1_0000 + r2 * 0x1_0000_0000;
    var c0, c1, c2, c3 := [MovZ(rd, r0)], Limb(rd, r1, 16), Limb(rd, r2, 32), Limb(rd, r3, 48);
    One(P, T, n, MovZ(rd, r0), s);
    LimbRuns(P, T, n, rd, s, r0, r1, 16, 0x1_0000);
    SeqFall(P, T, n, c0, c1, s, SetReg(s, rd, r0));
    WrapSmall(x1);
    LimbRuns(P, T, n, rd, s, x1, r2, 32, 0x1_0000_0000);
    SeqFall(P, T, n, c0 + c1, c2, s, SetReg(s, rd, x1));
    WrapSmall(x2);
    LimbRuns(P, T, n, rd, s, x2, r3, 48, 0x1_0000_0000_0000);
    SeqFall(P, T, n, c0 + c1 + c2, c3, s, SetReg(s, rd, x2));
    WrapSame(v, x2 + r3 * 0x1_0000_0000_0000, k);
  }

  lemma {:induction false} LimbRuns(P: Prog, T: Code, n: nat, rd: int, s: MState, x: int, r: int, shift: int, p: int)
    requires p == if shift == 16 then 0x1_0000 else if shift == 32 then 0x1_0000_0000 else 0x1_0000_0000_0000
    requires 0 <= x < p && 0 <= r < 0x1_0000
    ensures Exec(P, T, n, Limb(rd, r, shift), SetReg(s, rd, x)) == Fall(SetReg(s, rd, Wrap(x + r * p)))
  {
    hide Exec, Wrap, Insert16;
    if r != 0 {
      One(P, T, n, MovK(rd, r, shift), SetReg(s, rd, x));
      InsertLimb(x, r, shift, p);
      assert SetReg(SetReg(s, rd, x), rd, Wrap(x + r * p)) == SetReg(s, rd, Wrap(x + r * p));
    } else {
      ExecNone(P, T, n, SetReg(s, rd, x));
      WrapSmall(x);
    }
  }

  // ---------- labels ----------

  // All labels in the text are numbered from lo up to hi.
  ghost predicate Within(code: Code, lo: int, hi: int) {
    forall l :: Lbl(l) in code ==> l.Loc? && lo <= l.id < hi
  }

  ghost predicate Numbered(r: Option<Gen>, lo: int) { r.Some? ==> Within(r.value.code, lo, r.value.id) }

  ghost predicate NoLabels(code: Code) { forall l :: Lbl(l) !in code }

  lemma {:induction false} LoadConstLabels(rd: int, v: int)
    ensures NoLabels(LoadConst(rd, v))
  {
  }

  lemma {:induction false} LdAtomLabels(P: Prog, id: int, sc: Scope, reg: int, a: OAtom)
    ensures var r := LdAtom(P, id, sc, reg, a); r.Some? ==> NoLabels(The(r).code)
  {
    hide LoadConst;
    match a
    case AInt(k) => LoadConstLabels(reg, TagLit(k));
    case ABool(b) => LoadConstLabels(reg, BoolWord(b));
    case AGlob(g) => if g in P.slots { LoadConstLabels(0, P.slots[g]); }
    case _ =>
  }

  lemma {:induction false} PreGlobsLabels(P: Prog, sc: Scope, ns: nat, atoms: seq<OAtom>, flags: seq<bool>)
    ensures var r := PreGlobs(P, sc, ns, atoms, flags); r.Some? ==> NoLabels(The(r).code)
    decreases |atoms|
  {
    hide LdAtom;
    if atoms != [] {
      LdAtomLabels(P, 0, sc, 0, atoms[0]);
      PreGlobsLabels(P, sc, ns + 1, atoms[1..], Later(flags));
      PreGlobsLabels(P, sc, ns, atoms[1..], Later(flags));
    }
  }

  lemma {:induction false} LdRegsLabels(P: Prog, id: int, sc: Scope, srcs: seq<Src>, reg: int)
    ensures var r := LdRegs(P, id, sc, srcs, reg); r.Some? ==> NoLabels(r.value.code)
    decreases |srcs|
  {
    hide LdAtom;
    if srcs != [] {
      if srcs[0].Plain? { LdAtomLabels(P, id, sc, reg, srcs[0].a); }
      var g := LdSrc(P, id, sc, reg, srcs[0]);
      if g.Some? { LdRegsLabels(P, g.value.id, sc, srcs[1..], reg + 1); }
    }
  }

  lemma {:induction false} StFieldsLabels(P: Prog, id: int, sc: Scope, srcs: seq<Src>, off: int)
    ensures var r := StFields(P, id, sc, srcs, off); r.Some? ==> NoLabels(The(r).code)
    decreases |srcs|
  {
    hide LdAtom;
    if srcs != [] {
      if srcs[0].Plain? { LdAtomLabels(P, id, sc, 9, srcs[0].a); }
      var g := LdSrc(P, id, sc, 9, srcs[0]);
      if g.Some? { StFieldsLabels(P, g.value.id, sc, srcs[1..], off + 8); }
    }
  }

  lemma {:induction false} OperandsLabels(P: Prog, id: int, sc: Scope, ns: nat, atoms: seq<OAtom>, flags: seq<bool>)
    ensures var r := Operands(P, id, sc, ns, atoms, flags); r.Some? ==> NoLabels(The(r).code)
  {
    hide PreGlobs, LdRegs;
    PreGlobsLabels(P, sc, ns, atoms, flags);
    var pre := PreGlobs(P, sc, ns, atoms, flags);
    if pre.Some? { LdRegsLabels(P, id, sc, pre.value.srcs, 0); }
  }

  lemma {:induction false} AllocLabels(sc: Scope, tok: string, size: nat, tag: int)
    ensures var r := Alloc(sc, tok, size, tag); r.Some? ==> NoLabels(r.value)
  {
    hide LoadConst;
    LoadConstLabels(0, size * 8);
    LoadConstLabels(1, size * 8);
    LoadConstLabels(9, HeaderWord(size, tag));
  }

  lemma {:induction false} CopyEnvLabels(j: nat, slots: seq<nat>)
    ensures NoLabels(CopyEnv(j, slots))
    decreases |slots|
  {
    if slots != [] { CopyEnvLabels(j + 1, slots[1..]); }
  }

  lemma {:induction false} MkClosureLabels(sym: Sym, slots: seq<nat>)
    ensures NoLabels(MkClosureCode(sym, slots))
  {
    hide LoadConst, CopyEnv;
    LoadConstLabels(0, (3 + |slots|) * 8);
    LoadConstLabels(9, HeaderWord(3 + |slots|, T_CLOSURE));
    LoadConstLabels(9, |slots|);
    CopyEnvLabels(0, slots);
  }

  lemma {:induction false} LdEnvLabels(j: nat, n: nat)
    ensures var r := LdEnv(j, n); r.Some? ==> NoLabels(r.value)
    decreases n - j
  {
    if j < n { LdEnvLabels(j + 1, n); }
  }

  lemma {:induction false} HeaderTestLabels(slot: nat, want: int, fl: Label)
    ensures NoLabels(HeaderTest(slot, want, fl))
  {
    hide LoadConst;
    LoadConstLabels(10, want);
  }

  lemma {:induction false} CmLabels(P: Prog, id: int, sc: Scope, ns: nat, pat: Pat, reg: int, fl: Label)
    ensures var r := Cm(P, id, sc, ns, pat, reg, fl); r.Some? ==> NoLabels(The(r).code)
    decreases pat
  {
    hide LoadConst, HeaderTest;
    match pat
    case PInt(k) => LoadConstLabels(10, TagLit(k));
    case PBool(b) => LoadConstLabels(10, BoolWord(b));
    case PTup(ps) =>
      HeaderTestLabels(ns, 256 * (1 + |ps|) + T_TUPLE, fl);
      CmFieldsLabels(P, id, sc, ns + 1, ps, ns, 8, fl);
    case PCtor(_, _) => CmCtorLabels(P, id, sc, ns, pat, reg, fl);
    case _ =>
  }

  lemma {:induction false} CmCtorLabels(P: Prog, id: int, sc: Scope, ns: nat, pat: Pat, reg: int, fl: Label)
    requires pat.PCtor?
    ensures var r := Cm(P, id, sc, ns, pat, reg, fl); r.Some? ==> NoLabels(The(r).code)
    decreases pat, 0
  {
    hide LoadConst, HeaderTest;
    HeaderTestLabels(ns, 256 * (2 + |pat.args|) + T_ADT, fl);
    if pat.ctor in P.cid { LoadConstLabels(10, P.cid[pat.ctor]); }
    CmFieldsLabels(P, id, sc, ns + 1, pat.args, ns, 16, fl);
  }

  lemma {:induction false} CmFieldsLabels(P: Prog, id: int, sc: Scope, ns: nat, ps: seq<Pat>, sv: nat, off: int,
                                          fl: Label)
    ensures var r := CmFields(P, id, sc, ns, ps, sv, off, fl); r.Some? ==> NoLabels(The(r).code)
    decreases ps
  {
    hide Cm;
    if ps != [] {
      CmLabels(P, id, sc, ns, ps[0], 9, fl);
      var m := Cm(P, id, sc, ns, ps[0], 9, fl);
      if m.Some? { CmFieldsLabels(P, m.value.id, m.value.sc, m.value.ns, ps[1..], sv, off + 8, fl); }
    }
  }

  lemma {:induction false} BindParamsLabels(P: Prog, id: int, sc: Scope, ns: nat, ps: seq<Pat>, i: nat, fl: Label)
    ensures var r := BindParams(P, id, sc, ns, ps, i, fl); r.Some? ==> NoLabels(The(r).code)
    decreases ps
  {
    hide Cm;
    if ps != [] {
      if ps[0].PVar? {
        BindParamsLabels(P, id, [(ps[0].name, i)] + sc, ns, ps[1..], i + 1, fl);
      } else if ps[0].PWild? {
        BindParamsLabels(P, id, sc, ns, ps[1..], i + 1, fl);
      } else {
        CmLabels(P, id, sc, ns, ps[0], 0, fl);
        var m := Cm(P, id, sc, ns, ps[0], 0, fl);
        if m.Some? { BindParamsLabels(P, m.value.id, m.value.sc, m.value.ns, ps[1..], i + 1, fl); }
      }
    }
  }

  lemma {:induction false} OpLabels(op: string, id: int)
    ensures var r := OpCode(op, id); r.Some? ==> Within(r.value.code, id, r.value.id)
  {
    hide LoadConst;
    LoadConstLabels(0, FALSE);
    LoadConstLabels(0, TRUE);
  }

  lemma {:induction false} PrimLabels(P: Prog, id: int, sc: Scope, ns: nat, p: OPrim)
    ensures Numbered(Prim(P, id, sc, ns, p), id)
    decreases p, 2
  {
    hide Operands, LamCode, Ce, StFields, PreGlobs, Alloc, LoadConst, OpCode;
    match p
    case PAtom(a) => OperandsLabels(P, id, sc, ns, [a], [true]);
    case PApp(f, a) => OperandsLabels(P, id, sc, ns, [f, a], [false, true]);
    case PCall(f, args) => if f in P.defs { OperandsLabels(P, id, sc, ns, args, P.defs[f].modes); }
    case PBi(_, args) => OperandsLabels(P, id, sc, ns, args, []);
    case PMkCtor(c, args, tok) =>
      PreGlobsLabels(P, sc, ns, args, Trues(|args|));
      AllocLabels(sc, tok, 2 + |args|, T_ADT);
      if c in P.cid { LoadConstLabels(9, P.cid[c]); }
      var pre := PreGlobs(P, sc, ns, args, Trues(|args|));
      if pre.Some? { StFieldsLabels(P, id, sc, pre.value.srcs, 16); }
    case PMkTup(args, tok) =>
      PreGlobsLabels(P, sc, ns, args, Trues(|args|));
      AllocLabels(sc, tok, 1 + |args|, T_TUPLE);
      var pre := PreGlobs(P, sc, ns, args, Trues(|args|));
      if pre.Some? { StFieldsLabels(P, id, sc, pre.value.srcs, 8); }
    case PLam(_, _, _) => LamLabels(P, id, sc, p);
    case PBin(op, a, b) =>
      OperandsLabels(P, id, sc, ns, [a, b], []);
      var g := Operands(P, id, sc, ns, [a, b], []);
      if g.Some? { OpLabels(op, g.value.id); }
    case PBlock(e) => CeLabels(P, id + 1, sc, ns, Loc(KBlock, id), e);
  }

  lemma {:induction false} LamLabels(P: Prog, id: int, sc: Scope, p: OPrim)
    requires p.PLam?
    ensures Numbered(LamCode(P, id, sc, p), id)
    decreases p, 1
  {
    hide LamBody, MkClosureCode;
    LamBodyLabels(P, id, p.pat, p.body, p.caps);
    var slots := SlotsOf(sc, p.caps);
    if slots.Some? { MkClosureLabels(SLam(id), slots.value); }
  }

  // A routine does not define the labels around it.
  ghost predicate Inside(code: Code, id: int) { Lbl(Loc(KSkip, id)) !in code && Lbl(Loc(KLam, id)) !in code }

  lemma {:induction false} LamBodyLabels(P: Prog, id: int, pat: Pat, body: OExpr, caps: seq<string>)
    ensures Numbered(LamBody(P, id, pat, body, caps), id)
    ensures var r := LamBody(P, id, pat, body, caps); r.Some? ==> Inside(The(r).code, id)
    decreases body, 1
  {
    hide Cm, Ce, LdEnv, Within, NoLabels;
    LdEnvLabels(0, |caps|);
    CmLabels(P, id + 1, ZipSlots(caps, 0), |caps|, pat, 1, Loc(KFail, id));
    var env, m := LdEnv(0, |caps|), Cm(P, id + 1, ZipSlots(caps, 0), |caps|, pat, 1, Loc(KFail, id));
    if env.Some? && m.Some? {
      CeLabels(P, m.value.id, m.value.sc, m.value.ns, Loc(KEnd, id), body);
      var g := Ce(P, m.value.id, m.value.sc, m.value.ns, Loc(KEnd, id), body);
      if g.Some? { RoutineLabels(env.value, m.value.code, g.value.code, id, m.value.id, g.value.id); }
    }
  }

  lemma {:induction false} RoutineLabels(env: Code, m: Code, g: Code, id: int, lo: int, hi: int)
    requires NoLabels(env) && NoLabels(m) && Within(g, lo, hi) && id < lo <= hi
    ensures var code := [Prologue] + env + m + g + [Lbl(Loc(KEnd, id)), Epilogue]
        + [Lbl(Loc(KFail, id)), BlRt(DcMatchFail)];
            Within(code, id, hi) && Inside(code, id)
  {
  }

  lemma {:induction false} CeLabels(P: Prog, id: int, sc: Scope, ns: nat, endl: Label, e: OExpr)
    ensures Numbered(Ce(P, id, sc, ns, endl, e), id)
    decreases e, 0
  {
    hide Operands, LamCode, LdAtom, Prim, Cases;
    match e
    case ORet(a) => OperandsLabels(P, id, sc, ns, [a], [true]);
    case OLet(_, _, _) => LetLabels(P, id, sc, ns, endl, e);
    case OLetRec(_, _, _) => LetRecLabels(P, id, sc, ns, endl, e);
    case OIf(_, _, _) => IfLabels(P, id, sc, ns, endl, e);
    case OCase(_, _) => CaseLabels(P, id, sc, ns, endl, e);
    case ODup(x, rest) => CeLabels(P, id, sc, ns, endl, rest);
    case ODrop(x, rest) => CeLabels(P, id, sc, ns, endl, rest);
    case ODropReuse(x, tok, rest) => CeLabels(P, id, [(tok, ns)] + sc, ns + 1, endl, rest);
  }

  lemma {:induction false} LetLabels(P: Prog, id: int, sc: Scope, ns: nat, endl: Label, e: OExpr)
    requires e.OLet?
    ensures Numbered(Ce(P, id, sc, ns, endl, e), id)
    decreases e, 0, 0
  {
    hide Prim;
    var x, p, rest := e.x, e.prim, e.rest;
    if p.PAtom? && p.a.AVar? {
      var i := SlotOf(sc, p.a.x);
      if i.Some? { CeLabels(P, id, [(x, i.value)] + sc, ns, endl, rest); }
    } else {
      PrimLabels(P, id, sc, ns, p);
      var g := Prim(P, id, sc, ns, p);
      if g.Some? { CeLabels(P, g.value.id, [(x, ns)] + sc, ns + 1, endl, rest); }
    }
  }

  lemma {:induction false} CaseLabels(P: Prog, id: int, sc: Scope, ns: nat, endl: Label, e: OExpr)
    requires e.OCase?
    ensures Numbered(Ce(P, id, sc, ns, endl, e), id)
    decreases e, 0, 0
  {
    hide LdAtom, Cases;
    LdAtomLabels(P, id, sc, 0, e.scrut);
    var s := AtomSlot(P, id, sc, ns, e.scrut);
    if s.Some? { CasesLabels(P, s.value.id, sc, s.value.ns, s.value.slot, e.brs, endl); }
  }

  lemma {:induction false} LetRecLabels(P: Prog, id: int, sc: Scope, ns: nat, endl: Label, e: OExpr)
    requires e.OLetRec?
    ensures Numbered(Ce(P, id, sc, ns, endl, e), id)
    decreases e, 0, 0
  {
    hide LamCode;
    if e.prim.PLam? {
      var sc1 := [(e.x, ns)] + sc;
      LamLabels(P, id, sc1, e.prim);
      var g := LamCode(P, id, sc1, e.prim);
      if g.Some? { CeLabels(P, g.value.id, sc1, ns + 1, endl, e.rest); }
    }
  }

  lemma {:induction false} IfLabels(P: Prog, id: int, sc: Scope, ns: nat, endl: Label, e: OExpr)
    requires e.OIf?
    ensures Numbered(Ce(P, id, sc, ns, endl, e), id)
    decreases e, 0, 0
  {
    hide LdAtom, Within, NoLabels;
    LdAtomLabels(P, id + 1, sc, 0, e.cond);
    var ld := LdAtom(P, id + 1, sc, 0, e.cond);
    if ld.Some? {
      CeLabels(P, ld.value.id, sc, ns, endl, e.thn);
      var g1 := Ce(P, ld.value.id, sc, ns, endl, e.thn);
      if g1.Some? {
        CeLabels(P, g1.value.id, sc, ns, endl, e.els);
        var g2 := Ce(P, g1.value.id, sc, ns, endl, e.els);
        if g2.Some? {
          ArmsLabels(ld.value.code, g1.value.code, g2.value.code, id, ld.value.id, g1.value.id, g2.value.id);
        }
      }
    }
  }

  lemma {:induction false} ArmsLabels(ld: Code, g1: Code, g2: Code, id: int, lo: int, mid: int, hi: int)
    requires NoLabels(ld) && Within(g1, lo, mid) && Within(g2, mid, hi) && id < lo <= mid <= hi
    ensures Within(ld + [CmpImm(0, 7), BCond(Ne, Loc(KElse, id))] + g1 + [Lbl(Loc(KElse, id))] + g2, id, hi)
  {
  }

  lemma {:induction false} CasesLabels(P: Prog, id: int, sc: Scope, ns: nat, base: nat, brs: seq<OBranch>, endl: Label)
    ensures Numbered(Cases(P, id, sc, ns, base, brs, endl), id)
    decreases brs, 0
  {
    hide Cm, Ce;
    if brs != [] {
      var br := brs[0];
      assert brs decreases to br;
      CmLabels(P, id + 1, sc, ns, br.pat, 0, Loc(KNext, id));
      var m := Cm(P, id + 1, sc, ns, br.pat, 0, Loc(KNext, id));
      if m.Some? {
        CeLabels(P, m.value.id, m.value.sc, m.value.ns, endl, br.body);
        var b := Ce(P, m.value.id, m.value.sc, m.value.ns, endl, br.body);
        if b.Some? { CasesLabels(P, b.value.id, sc, ns, base, brs[1..], endl); }
      }
    }
  }
}

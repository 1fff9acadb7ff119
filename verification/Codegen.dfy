// The code generator of gen5/g5_cg.dc. Its emitters only ever append to the
// text they are given, so each is modelled by what it appends and by the id
// counter it threads; None is a compile-time error.
module Codegen {
  import opened Types
  import opened Syntax
  import opened RcHeap
  import opened Oir
  import opened Machine
  import opened Literals

  datatype Gen = Gen(code: Code, id: int)

  // Variables to slots, newest first.
  type Scope = seq<(string, nat)>

  function SlotOf(sc: Scope, x: string): Option<nat> {
    if sc == [] then None else if sc[0].0 == x then Some(sc[0].1) else SlotOf(sc[1..], x)
  }

  function SlotsOf(sc: Scope, xs: seq<string>): Option<seq<nat>> {
    if xs == [] then Some([])
    else
      var i :- SlotOf(sc, xs[0]);
      var rest :- SlotsOf(sc, xs[1..]);
      Some([i] + rest)
  }

  // ---------- small emitters ----------

  // ts_load_const: movz and movk limbs of the two's complement.
  function LoadConst(rd: int, v: int): Code {
    if 0 <= v <= 65535 then [MovImm(rd, v)]
    else if -65536 <= v < 0 then [MovN(rd, -v - 1)]
    else
      var r0 := v % 65536;
      var w1 := (v - r0) / 65536;
      var r1 := w1 % 65536;
      var w2 := (w1 - r1) / 65536;
      var r2 := w2 % 65536;
      var w3 := (w2 - r2) / 65536;
      var r3 := w3 % 65536;
      [MovZ(rd, r0)] + (if r1 != 0 then [MovK(rd, r1, 16)] else []) + (if r2 != 0 then [MovK(rd, r2, 32)] else [])
      + (if r3 != 0 then [MovK(rd, r3, 48)] else [])
  }

  // g5cg_sts: running out of slots is an error.
  function Sts(reg: int, slot: int): Option<Code> { if slot >= SLOTS then None else Some([StrSlot(reg, slot)]) }

  function HeaderWord(size: nat, tag: int): int { RC_ONE + size * 256 + tag }

  // ---------- atoms ----------

  // g5cg_ld_atom.
  function LdAtom(P: Prog, id: int, sc: Scope, reg: int, a: OAtom): (r: Option<Gen>)
    ensures r.Some? ==> r.value.id == id + AtomIds(a)
  {
    match a
    case AVar(x) =>
      var i :- SlotOf(sc, x);
      Some(Gen([LdrSlot(reg, i)], id))
    case AInt(n) => Some(Gen(LoadConst(reg, TagLit(n)), id))
    case ABool(b) => Some(Gen(LoadConst(reg, BoolWord(b)), id))
    case AStr(t) => Some(Gen([Lit(id, t), Got(reg, SStr(id))], id + 1))
    case AUnit => Some(Gen([Got(reg, SUnit)], id))
    case AGlob(g) =>
      var i :- Find(P.slots, g);
      Some(Gen(LoadConst(0, i) + [BlRt(DcGget)] + (if reg == 0 then [] else [MovRR(reg, 0)]), id))
    case ANull(c) => if c in P.ar && P.ar[c] == 0 then Some(Gen([Got(reg, SNull(c))], id)) else None
  }

  // An operand after g5cg_pre_globs: globals have moved to temporary slots.
  datatype Src = Plain(a: OAtom) | Tmp(slot: nat)

  datatype Pre = Pre(code: Code, srcs: seq<Src>, ns: nat)

  function SrcIds(srcs: seq<Src>): nat {
    if srcs == [] then 0 else (if srcs[0].Plain? then AtomIds(srcs[0].a) else 0) + SrcIds(srcs[1..])
  }

  // g5cg_pre_globs: a consumed global is dup'd, the table only lends it.
  function PreGlobs(P: Prog, sc: Scope, ns: nat, atoms: seq<OAtom>, flags: seq<bool>): (r: Option<Pre>)
    ensures r.Some? ==> r.value.ns >= ns && |r.value.srcs| == |atoms| && SrcIds(r.value.srcs) == AtomsIds(atoms)
    decreases |atoms|
  {
    if atoms == [] then Some(Pre([], [], ns))
    else if atoms[0].AGlob? then
      var ld :- LdAtom(P, 0, sc, 0, atoms[0]);
      var st :- Sts(0, ns);
      var rest :- PreGlobs(P, sc, ns + 1, atoms[1..], Later(flags));
      Some(Pre(ld.code + st + (if Flag(flags) then [BlRt(DcDup)] else []) + rest.code, [Tmp(ns)] + rest.srcs, rest.ns))
    else
      var rest :- PreGlobs(P, sc, ns, atoms[1..], Later(flags));
      Some(rest.(srcs := [Plain(atoms[0])] + rest.srcs))
  }

  function LdSrc(P: Prog, id: int, sc: Scope, reg: int, src: Src): (r: Option<Gen>)
    ensures r.Some? ==> r.value.id == id + SrcIds([src])
  {
    match src
    case Tmp(i) => Some(Gen([LdrSlot(reg, i)], id))
    case Plain(a) => if a.AGlob? then None else LdAtom(P, id, sc, reg, a)
  }

  // g5cg_ld_regs: operands to registers reg, reg + 1, ...
  function LdRegs(P: Prog, id: int, sc: Scope, srcs: seq<Src>, reg: int): (r: Option<Gen>)
    ensures r.Some? ==> r.value.id == id + SrcIds(srcs)
    decreases |srcs|
  {
    if srcs == [] then Some(Gen([], id))
    else
      var g :- LdSrc(P, id, sc, reg, srcs[0]);
      var rest :- LdRegs(P, g.id, sc, srcs[1..], reg + 1);
      Some(Gen(g.code + rest.code, rest.id))
  }

  // g5cg_st_fields: operands to consecutive words of the block in x0.
  function StFields(P: Prog, id: int, sc: Scope, srcs: seq<Src>, off: int): (r: Option<Gen>)
    ensures r.Some? ==> r.value.id == id + SrcIds(srcs)
    decreases |srcs|
  {
    if srcs == [] then Some(Gen([], id))
    else
      var g :- LdSrc(P, id, sc, 9, srcs[0]);
      var rest :- StFields(P, g.id, sc, srcs[1..], off + 8);
      Some(Gen(g.code + [StrOff(9, 0, off)] + rest.code, rest.id))
  }

  // Operands evaluated and loaded into x0, x1, ...
  function Operands(P: Prog, id: int, sc: Scope, ns: nat, atoms: seq<OAtom>, flags: seq<bool>): (r: Option<Gen>)
    ensures r.Some? ==> r.value.id == id + AtomsIds(atoms)
  {
    var pre :- PreGlobs(P, sc, ns, atoms, flags);
    var ld :- LdRegs(P, id, sc, pre.srcs, 0);
    Some(Gen(pre.code + ld.code, ld.id))
  }

  datatype AtSlot = AtSlot(code: Code, id: int, slot: nat, ns: nat)

  // g5cg_atom_slot.
  function AtomSlot(P: Prog, id: int, sc: Scope, ns: nat, a: OAtom): Option<AtSlot> {
    if a.AVar? then
      var i :- SlotOf(sc, a.x);
      Some(AtSlot([], id, i, ns))
    else
      var g :- LdAtom(P, id, sc, 0, a);
      var st :- Sts(0, ns);
      Some(AtSlot(g.code + st, g.id, ns, ns + 1))
  }

  // ---------- allocation ----------

  // g5cg_alloc: the block in x0, its header written.
  function Alloc(sc: Scope, tok: string, size: nat, tag: int): Option<Code> {
    if tok == "" then Some(LoadConst(0, size * 8) + [BlRt(DcAllocRc)] + LoadConst(9, HeaderWord(size, tag))
        + [StrOff(9, 0, 0)])
    else
      var i :- SlotOf(sc, tok);
      Some([LdrSlot(0, i)] + LoadConst(1, size * 8) + [BlRt(DcReuseOrAlloc)]
           + LoadConst(9, HeaderWord(size, tag)) + [StrOff(9, 0, 0)])
  }

  function CopyEnv(j: nat, slots: seq<nat>): Code
    decreases |slots|
  {
    if slots == [] then [] else [LdrSlot(9, slots[0]), StrOff(9, 0, 24 + 8 * j)] + CopyEnv(j + 1, slots[1..])
  }

  // g5cg_mk_closure.
  function MkClosureCode(sym: Sym, slots: seq<nat>): Code {
    var n := |slots|;
    LoadConst(0, (3 + n) * 8) + [BlRt(DcAllocRc)] + LoadConst(9, HeaderWord(3 + n, T_CLOSURE)) + [StrOff(9, 0, 0)]
    + [Got(9, sym), StrOff(9, 0, 8)] + LoadConst(9, n) + [StrOff(9, 0, 16)] + CopyEnv(0, slots)
  }

  // g5cg_ld_env: env words j.. of the closure in x0 to slots j..n-1.
  function LdEnv(j: int, n: int): Option<Code>
    decreases n - j
  {
    if j >= n then Some([])
    else
      var st :- Sts(9, j);
      var rest :- LdEnv(j + 1, n);
      Some([LdrOff(9, 0, 24 + 8 * j)] + st + rest)
  }

  // ---------- patterns ----------

  datatype Match = Match(code: Code, id: int, sc: Scope, ns: nat)

  // g5cg_cm: falls through with the bindings, or goes to fl.
  function Cm(P: Prog, id: int, sc: Scope, ns: nat, pat: Pat, reg: int, fl: Label): (r: Option<Match>)
    ensures r.Some? ==> r.value.ns >= ns && r.value.id == id + PatIds(pat)
    decreases pat
  {
    match pat
    case PWild => Some(Match([], id, sc, ns))
    case PVar(x) =>
      var st :- Sts(reg, ns);
      Some(Match(st, id, [(x, ns)] + sc, ns + 1))
    case PInt(k) => Some(Match(LoadConst(10, TagLit(k)) + [CmpReg(reg, 10), BCond(Ne, fl)], id, sc, ns))
    case PBool(b) => Some(Match(LoadConst(10, BoolWord(b)) + [CmpReg(reg, 10), BCond(Ne, fl)], id, sc, ns))
    case PStr(t) =>
      var st :- Sts(reg, ns);
      Some(Match([Lit(id, t)] + st + [Got(0, SStr(id)), LdrSlot(1, ns), BlRt(DcValEq), CmpImm(0, 7), BCond(Ne, fl)],
                 id + 1, sc, ns))
    case PUnit => Some(Match([Got(10, SUnit), CmpReg(reg, 10), BCond(Ne, fl)], id, sc, ns))
    case PTup(ps) =>
      var st :- Sts(reg, ns);
      var fs :- CmFields(P, id, sc, ns + 1, ps, ns, 8, fl);
      Some(fs.(code := st + HeaderTest(ns, 256 * (1 + |ps|) + T_TUPLE, fl) + fs.code))
    case PCtor(c, ps) =>
      if c !in P.ar || P.ar[c] != |ps| then None
      else if |ps| == 0 then Some(Match([Got(10, SNull(c)), CmpReg(reg, 10), BCond(Ne, fl)], id, sc, ns))
      else if c !in P.cid then None
      else
        var st :- Sts(reg, ns);
        var fs :- CmFields(P, id, sc, ns + 1, ps, ns, 16, fl);
        Some(fs.(code := st + HeaderTest(ns, 256 * (2 + |ps|) + T_ADT, fl)
                         + [LdrSlot(9, ns), LdrOff(9, 9, 8)] + LoadConst(10, P.cid[c]) + [CmpReg(9, 10), BCond(Ne, fl)]
                         + fs.code))
  }

  // Compare (size << 8) | tag of the block at a slot.
  function HeaderTest(slot: nat, want: int, fl: Label): Code {
    [LdrSlot(9, slot), LdrOff(9, 9, 0), Mask40(9)] + LoadConst(10, want) + [CmpReg(9, 10), BCond(Ne, fl)]
  }

  // g5cg_cm_fields: fields of the block at slot sv from byte offset off.
  function CmFields(P: Prog, id: int, sc: Scope, ns: nat, ps: seq<Pat>, sv: nat, off: int,
                    fl: Label): (r: Option<Match>)
    ensures r.Some? ==> r.value.ns >= ns && r.value.id == id + PatsIds(ps)
    decreases ps
  {
    if ps == [] then Some(Match([], id, sc, ns))
    else
      var m :- Cm(P, id, sc, ns, ps[0], 9, fl);
      var rest :- CmFields(P, m.id, m.sc, m.ns, ps[1..], sv, off + 8, fl);
      Some(rest.(code := [LdrSlot(9, sv), LdrOff(9, 9, off)] + m.code + rest.code))
  }

  // g5cg_bind_params: parameter i is in slot i.
  function BindParams(P: Prog, id: int, sc: Scope, ns: nat, ps: seq<Pat>, i: nat, fl: Label): (r: Option<Match>)
    ensures r.Some? ==> r.value.ns >= ns && r.value.id == id + PatsIds(ps)
    decreases ps
  {
    if ps == [] then Some(Match([], id, sc, ns))
    else if ps[0].PVar? then BindParams(P, id, [(ps[0].name, i)] + sc, ns, ps[1..], i + 1, fl)
    else if ps[0].PWild? then BindParams(P, id, sc, ns, ps[1..], i + 1, fl)
    else
      var m :- Cm(P, id, sc, ns, ps[0], 0, fl);
      var rest :- BindParams(P, m.id, m.sc, m.ns, ps[1..], i + 1, fl);
      Some(rest.(code := [LdrSlot(0, i)] + m.code + rest.code))
  }

  // ---------- operators ----------

  function CondOf(op: string): Cond {
    if op == "<" then Lt else if op == ">" then Gt else if op == "<=" then Le else Ge
  }

  // g5cg_binop after the operands were loaded into x0 and x1.
  function OpCode(op: string, id: int): (r: Option<Gen>)
    ensures r.Some? ==> r.value.id == id + if Branching(op) then 1 else 0
  {
    if op == "+" then Some(Gen([AddRR(0, 0, 1), SubImm(0, 0, 1)], id))
    else if op == "-" then Some(Gen([SubRR(0, 0, 1), AddImm(0, 0, 1)], id))
    else if op == "*" then Some(Gen([Asr2(0, 0), Asr2(1, 1), MulRR(0, 0, 1), Lsl2(0), AddImm(0, 0, 1)], id))
    else if op == "/" then Some(Gen([Asr2(0, 0), Asr2(1, 1), Sdiv(0, 0, 1), Lsl2(0), AddImm(0, 0, 1)], id))
    else if op == "%" then
      Some(Gen([Asr2(0, 0), Asr2(1, 1), Sdiv(9, 0, 1), Msub(0, 9, 1, 0), Lsl2(0), AddImm(0, 0, 1)], id))
    else if op in ["<", ">", "<=", ">="] then
      Some(Gen([CmpReg(0, 1), BCond(CondOf(op), Loc(KTrue, id))] + LoadConst(0, FALSE)
          + [B(Loc(KDone, id)), Lbl(Loc(KTrue, id))]
               + LoadConst(0, TRUE) + [Lbl(Loc(KDone, id))], id + 1))
    else if op == "==" then Some(Gen([BlRt(DcValEq)], id))
    else if op == "!=" then Some(Gen([BlRt(DcValEq), EorImm4(0)], id))
    else if op == "++" then Some(Gen([BlRt(DcBi("str_concat"))], id))
    else if op == "&&" || op == "||" then
      Some(Gen([CmpImm(0, 7), BCond(if op == "&&" then Ne else Eq, Loc(KShort, id)), MovRR(0, 1),
          Lbl(Loc(KShort, id))], id + 1))
    else None
  }

  // ---------- expressions ----------

  predicate Known(name: string) { exists i :: 0 <= i < 18 && BiName(i) == Some(name) }

  // Constructor and tuple blocks.
  function CtorCode(P: Prog, id: int, sc: Scope, ns: nat, c: string, args: seq<OAtom>, tok: string): (r: Option<Gen>)
    ensures r.Some? ==> r.value.id == id + AtomsIds(args)
  {
    if c !in P.ar || P.ar[c] != |args| then None
    else if |args| == 0 then if tok == "" then Some(Gen([Got(0, SNull(c))], id)) else None
    else if c !in P.cid then None
    else
      var pre :- PreGlobs(P, sc, ns, args, Trues(|args|));
      var al :- Alloc(sc, tok, 2 + |args|, T_ADT);
      var fs :- StFields(P, id, sc, pre.srcs, 16);
      Some(Gen(pre.code + al + LoadConst(9, P.cid[c]) + [StrOff(9, 0, 8)] + fs.code, fs.id))
  }

  function TupleCode(P: Prog, id: int, sc: Scope, ns: nat, args: seq<OAtom>, tok: string): (r: Option<Gen>)
    ensures r.Some? ==> r.value.id == id + AtomsIds(args)
  {
    var pre :- PreGlobs(P, sc, ns, args, Trues(|args|));
    var al :- Alloc(sc, tok, 1 + |args|, T_TUPLE);
    var fs :- StFields(P, id, sc, pre.srcs, 8);
    Some(Gen(pre.code + al + fs.code, fs.id))
  }

  // Code with a tail that draws no id.
  function Then(g: Option<Gen>, tail: Code): (r: Option<Gen>)
    ensures r.Some? <==> g.Some?
    ensures r.Some? ==> r.value.id == g.value.id
  {
    var g0 :- g;
    Some(Gen(g0.code + tail, g0.id))
  }

  // g5cg_binop.
  function BinCode(P: Prog, id: int, sc: Scope, ns: nat, op: string, a: OAtom, b: OAtom): (r: Option<Gen>)
    ensures r.Some? ==> r.value.id == id + AtomsIds([a, b]) + if Branching(op) then 1 else 0
  {
    var g :- Operands(P, id, sc, ns, [a, b], []);
    var o :- OpCode(op, g.id);
    Some(Gen(g.code + o.code, o.id))
  }

  // g5cg_prim: the result in x0.
  function Prim(P: Prog, id: int, sc: Scope, ns: nat, p: OPrim): (r: Option<Gen>)
    ensures r.Some? ==> r.value.id == id + PrimIds(p)
    decreases p, 2
  {
    match p
    case PAtom(a) => Operands(P, id, sc, ns, [a], [true])
    case PApp(f, a) =>
      Then(Operands(P, id, sc, ns, [f, a], [false, true]), [LdrOff(9, 0, 8), Blr(9)])
    case PCall(f, args) =>
      if f !in P.defs || !P.defs[f].direct || |P.defs[f].modes| != |args| || |args| > 8 then None
      else Then(Operands(P, id, sc, ns, args, P.defs[f].modes), [Bl(Direct(f))])
    case PBi(name, args) =>
      if !Known(name) then None
      else Then(Operands(P, id, sc, ns, args, []), [BlRt(DcBi(name))])
    case PMkCtor(c, args, tok) => CtorCode(P, id, sc, ns, c, args, tok)
    case PMkTup(args, tok) => TupleCode(P, id, sc, ns, args, tok)
    case PLam(pat, body, caps) => LamCode(P, id, sc, p)
    case PBin(op, a, b) =>
      BinCode(P, id, sc, ns, op, a, b)
    case PBlock(e) =>
      var g :- Ce(P, id + 1, sc, ns, Loc(KBlock, id), e);
      Some(Gen(g.code + [Lbl(Loc(KBlock, id))], g.id))
  }

  // The routine of a lambda, from its label on.
  function LamBody(P: Prog, id: int, pat: Pat, body: OExpr, caps: seq<string>): (r: Option<Gen>)
    ensures r.Some? ==> r.value.id == id + 1 + PatIds(pat) + ExprIds(body)
    decreases body, 1
  {
    var env :- LdEnv(0, |caps|);
    var m :- Cm(P, id + 1, ZipSlots(caps, 0), |caps|, pat, 1, Loc(KFail, id));
    var g :- Ce(P, m.id, m.sc, m.ns, Loc(KEnd, id), body);
    Some(Gen([Prologue] + env + m.code + g.code + [Lbl(Loc(KEnd, id)), Epilogue]
             + [Lbl(Loc(KFail, id)), BlRt(DcMatchFail)], g.id))
  }

  function ZipSlots(xs: seq<string>, i: nat): Scope {
    if xs == [] then [] else [(xs[0], i)] + ZipSlots(xs[1..], i + 1)
  }

  // g5cg_lam: the routine out of line, then the closure.
  function LamCode(P: Prog, id: int, sc: Scope, p: OPrim): (r: Option<Gen>)
    ensures r.Some? ==> p.PLam? && r.value.id == id + PrimIds(p)
    decreases p, 1
  {
    if !p.PLam? then None
    else
      var slots :- SlotsOf(sc, p.caps);
      var g :- LamBody(P, id, p.pat, p.body, p.caps);
      Some(Gen([B(Loc(KSkip, id)), Lbl(Loc(KLam, id))] + g.code + [Lbl(Loc(KSkip, id))]
          + MkClosureCode(SLam(id), slots), g.id))
  }

  function FindIdx(x: string, xs: seq<string>, i: nat): Option<nat> {
    if xs == [] then None else if xs[0] == x then Some(i) else FindIdx(x, xs[1..], i + 1)
  }

  // g5cg_ce: every path ends at endl with the value in x0.
  function Ce(P: Prog, id: int, sc: Scope, ns: nat, endl: Label, e: OExpr): (r: Option<Gen>)
    ensures r.Some? ==> r.value.id == id + ExprIds(e)
    decreases e, 0
  {
    match e
    case ORet(a) =>
      var g :- Operands(P, id, sc, ns, [a], [true]);
      Some(Gen(g.code + [B(endl)], g.id))
    case OLet(x, p, rest) =>
      if p.PAtom? && p.a.AVar? then
        var i :- SlotOf(sc, p.a.x);
        assert AtomsIds([p.a]) == 0;
        Ce(P, id, [(x, i)] + sc, ns, endl, rest)
      else
        var g :- Prim(P, id, sc, ns, p);
        var st :- Sts(0, ns);
        var b :- Ce(P, g.id, [(x, ns)] + sc, ns + 1, endl, rest);
        Some(Gen(g.code + st + b.code, b.id))
    case OLetRec(x, p, rest) =>
      if !p.PLam? then None
      else
        var sc1 := [(x, ns)] + sc;
        var g :- LamCode(P, id, sc1, p);
        var st :- Sts(0, ns);
        var patch := match FindIdx(x, p.caps, 0)
          case None => []
          case Some(j) => [LdrSlot(9, ns), StrOff(9, 0, 24 + 8 * j)];
        var b :- Ce(P, g.id, sc1, ns + 1, endl, rest);
        Some(Gen(g.code + st + patch + b.code, b.id))
    case OIf(a, e1, e2) =>
      var ld :- LdAtom(P, id + 1, sc, 0, a);
      var g1 :- Ce(P, ld.id, sc, ns, endl, e1);
      var g2 :- Ce(P, g1.id, sc, ns, endl, e2);
      Some(Gen(ld.code + [CmpImm(0, 7), BCond(Ne, Loc(KElse, id))] + g1.code + [Lbl(Loc(KElse, id))] + g2.code, g2.id))
    case OCase(a, brs) =>
      var s :- AtomSlot(P, id, sc, ns, a);
      var g :- Cases(P, s.id, sc, s.ns, s.slot, brs, endl);
      Some(Gen(s.code + g.code, g.id))
    case ODup(x, rest) =>
      var i :- SlotOf(sc, x);
      var g :- Ce(P, id, sc, ns, endl, rest);
      Some(Gen([LdrSlot(0, i), BlRt(DcDup)] + g.code, g.id))
    case ODrop(x, rest) =>
      var i :- SlotOf(sc, x);
      var g :- Ce(P, id, sc, ns, endl, rest);
      Some(Gen([LdrSlot(0, i), BlRt(DcDrop)] + g.code, g.id))
    case ODropReuse(x, tok, rest) =>
      var i :- SlotOf(sc, x);
      var st :- Sts(0, ns);
      var g :- Ce(P, id, [(tok, ns)] + sc, ns + 1, endl, rest);
      Some(Gen([LdrSlot(0, i), BlRt(DcDropReuse)] + st + g.code, g.id))
  }

  // g5cg_cases: the scrutinee stays in slot base.
  function Cases(P: Prog, id: int, sc: Scope, ns: nat, base: nat, brs: seq<OBranch>, endl: Label): (r: Option<Gen>)
    ensures r.Some? ==> r.value.id == id + BrsIds(brs)
    decreases brs, 0
  {
    if brs == [] then Some(Gen([LdrSlot(0, base), BlRt(DcMatchFail)], id))
    else
      var br := brs[0];
      assert brs decreases to br;
      var m :- Cm(P, id + 1, sc, ns, br.pat, 0, Loc(KNext, id));
      var b :- Ce(P, m.id, m.sc, m.ns, endl, br.body);
      var rest :- Cases(P, b.id, sc, ns, base, brs[1..], endl);
      Some(Gen([LdrSlot(0, base)] + m.code + b.code + [Lbl(Loc(KNext, id))] + rest.code, rest.id))
  }

  // ---------- definitions (gen5/g5_cgdriver.dc) ----------

  function StoreArgs(i: int, k: int): Option<Code>
    decreases k - i
  {
    if i >= k then Some([])
    else
      var st :- Sts(i, i);
      var rest :- StoreArgs(i + 1, k);
      Some(st + rest)
  }

  function LdArgRegs(i: int, k: int): Code
    decreases k - i
  {
    if i >= k then [] else [LdrSlot(i, i)] + LdArgRegs(i + 1, k)
  }

  // g5cg_emit_fnn: the direct entry, arguments in x0, x1, ...
  function FnnCode(P: Prog, id: int, d: ODef): (r: Option<Gen>)
    ensures r.Some? ==> r.value.id == id + 1 + PatsIds(d.params) + ExprIds(d.body)
  {
    var k := |d.params|;
    var args :- StoreArgs(0, k);
    var m :- BindParams(P, id + 1, [], k, d.params, 0, Loc(KFail, id));
    var g :- Ce(P, m.id, m.sc, m.ns, Loc(KEnd, id), d.body);
    Some(Gen([Prologue] + args + m.code + g.code + [Lbl(Loc(KEnd, id)), Epilogue]
        + [Lbl(Loc(KFail, id)), BlRt(DcMatchFail)], g.id))
  }

  // dc_dup the values in slots j..n-1.
  function DupSlots(j: int, n: int): Code
    decreases n - j
  {
    if j >= n then [] else [LdrSlot(0, j), BlRt(DcDup)] + DupSlots(j + 1, n)
  }

  // Of those, the ones whose parameter is owned.
  function DupOwnedSlots(modes: seq<bool>, j: int, n: int): Code
    decreases n - j
  {
    if j >= n then []
    else (if Mode(modes, j) then [LdrSlot(0, j), BlRt(DcDup)] else []) + DupOwnedSlots(modes, j + 1, n)
  }

  function SeqSlots(i: nat, n: int): seq<nat>
    decreases n - i
  {
    if i >= n then [] else [i] + SeqSlots(i + 1, n)
  }

  // g5cg_emit_level: curried level i of definition f.
  function LevelCode(P: Prog, id: int, f: string, d: ODef, i: int): Option<Gen> {
    var k := |d.params|;
    var env :- LdEnv(0, i - 1);
    var st :- Sts(1, i - 1);
    if i < k then
      Some(Gen([Prologue] + env + st + DupSlots(0, i - 1) + MkClosureCode(SLevel(f, i + 1), SeqSlots(0, i))
          + [Epilogue], id + 1))
    else
      var head := [Prologue] + env + st + DupOwnedSlots(d.modes, 0, k - 1);
      var drop :- if Mode(d.modes, k - 1) then Some([])
        else var sv :- Sts(0, k); Some(sv + [LdrSlot(0, k - 1), BlRt(DcDrop), LdrSlot(0, k)]);
      if d.direct then Some(Gen(head + (LdArgRegs(0, k) + [Bl(Direct(f))]) + drop + [Epilogue], id + 1))
      else
        var m :- BindParams(P, id + 1, [], k, d.params, 0, Loc(KFail, id));
        var g :- Ce(P, m.id, m.sc, m.ns, Loc(KEnd, id), d.body);
        Some(Gen(head + (m.code + g.code + [Lbl(Loc(KEnd, id))]) + drop + [Epilogue]
            + [Lbl(Loc(KFail, id)), BlRt(DcMatchFail)], g.id))
  }

  // Levels i..k, each behind its label.
  function EmitLevels(P: Prog, id: int, f: string, d: ODef, i: int): Option<Gen>
    decreases |d.params| - i
  {
    if i > |d.params| then Some(Gen([], id))
    else
      var g :- LevelCode(P, id, f, d, i);
      var rest :- EmitLevels(P, g.id, f, d, i + 1);
      Some(Gen([Lbl(Level(f, i))] + g.code + rest.code, rest.id))
  }

  // One definition: thunk, direct entry, curried levels.
  function EmitDef(P: Prog, id: int, f: string, d: ODef): Option<Gen> {
    if d.params == [] then
      var g :- Ce(P, id + 1, [], 0, Loc(KEnd, id), d.body);
      Some(Gen([Lbl(ThunkOf(f)), Prologue] + g.code + [Lbl(Loc(KEnd, id)), Epilogue], g.id))
    else if d.direct && |d.params| > 8 then None
    else
      var thunk := [Lbl(ThunkOf(f)), Prologue] + MkClosureCode(SLevel(f, 1), []) + [Epilogue];
      if d.direct then
        var fn :- FnnCode(P, id, d);
        var lv :- EmitLevels(P, fn.id, f, d, 1);
        Some(Gen(thunk + ([Lbl(Direct(f))] + fn.code) + lv.code, lv.id))
      else
        var lv :- EmitLevels(P, id, f, d, 1);
        Some(Gen(thunk + lv.code, lv.id))
  }

  function EmitDefs(P: Prog, id: int, defs: seq<(string, ODef)>): Option<Gen>
    decreases |defs|
  {
    if defs == [] then Some(Gen([], id))
    else
      var g :- EmitDef(P, id, defs[0].0, defs[0].1);
      var rest :- EmitDefs(P, g.id, defs[1..]);
      Some(Gen(g.code + rest.code, rest.id))
  }
}

// Operands, stores and allocation: the emitted text computes what the
// ownership IR says, in the same order of heap effects.
module CodeOperands {
  import opened Types
  import opened RcHeap
  import opened Oir
  import opened Machine
  import opened Codegen
  import opened Literals
  import opened CodeSteps

  // ---------- scopes and slots ----------

  // Every variable of the environment is in its slot, below ns.
  ghost predicate ScopeOk(sc: Scope, ns: int, env: Env, slots: seq<Word>) {
    && |slots| == SLOTS && ns <= SLOTS
    && forall x :: (x in env <==> SlotOf(sc, x).Some?) &&
                   (x in env ==> SlotOf(sc, x).value < ns && slots[SlotOf(sc, x).value] == env[x])
  }

  // Slots below ns are as they were.
  predicate Below(a: seq<Word>, b: seq<Word>, ns: int) {
    |a| == |b| && forall i :: 0 <= i < ns && i < |a| ==> a[i] == b[i]
  }

  lemma {:induction false} ScopeBelow(sc: Scope, ns: nat, env: Env, slots: seq<Word>, slots1: seq<Word>)
    requires ScopeOk(sc, ns, env, slots) && Below(slots1, slots, ns)
    ensures ScopeOk(sc, ns, env, slots1)
  {
    hide SlotOf;
  }

  lemma {:induction false} ScopeBind(sc: Scope, ns: nat, env: Env, slots: seq<Word>, x: string, v: Word)
    requires ScopeOk(sc, ns, env, slots) && ns < SLOTS
    ensures ScopeOk([(x, ns)] + sc, ns + 1, env[x := v], slots[ns := v]) && Below(slots[ns := v], slots, ns)
  {
    var sc1 := [(x, ns)] + sc;
    assert sc1[1..] == sc;
    forall y ensures SlotOf(sc1, y) == if y == x then Some(ns) else SlotOf(sc, y) { }
    hide SlotOf;
  }

  lemma {:induction false} ScopeAlias(sc: Scope, ns: nat, env: Env, slots: seq<Word>, x: string, i: nat)
    requires ScopeOk(sc, ns, env, slots) && i < ns
    ensures ScopeOk([(x, i)] + sc, ns, env[x := slots[i]], slots)
  {
    var sc1 := [(x, i)] + sc;
    assert sc1[1..] == sc;
    forall y ensures SlotOf(sc1, y) == if y == x then Some(i) else SlotOf(sc, y) { }
    hide SlotOf;
  }

  // Numbers in the tables are table indices.
  ghost predicate TablesOk(P: Prog) {
    && (forall c :: c in P.cid ==> P.cid[c] < 0x1_0000)
    && (forall g :: g in P.slots ==> P.slots[g] < 0x1_0000)
    && (forall c :: c in P.ar ==> P.ar[c] < 0x1_0000)
  }

  ghost predicate ImageOk(P: Prog) { TablesOk(P) && AllocatorOk(P) }

  // ---------- atoms ----------

  lemma {:induction false} LitWord(n: int)
    requires LitOk(n)
    ensures Wrap(TagLit(n)) == IntWord(n)
  {
    TagLitExact(n);
    WrapSmall(IntWord(n));
  }

  // A literal's text leaves the literal in the register exactly when it is in
  // range; any other integer of the language is miscompiled.
  lemma {:induction false} LiteralExact(P: Prog, T: Code, n: nat, id: int, sc: Scope, reg: int, k: int, s: MState)
    requires -W62 / 2 <= k < W62 / 2
    ensures Exec(P, T, n, LdAtom(P, id, sc, reg, AInt(k)).value.code, s) == Fall(SetReg(s, reg, IntWord(k)))
        <==> LitOk(k)
  {
    hide Exec, LoadConst;
    LoadConstRuns(P, T, n, reg, TagLit(k), s);
    WrapSmall(TagLit(k));
    TagLitExact(k);
    assert SetReg(s, reg, TagLit(k)).regs[reg] == TagLit(k) && SetReg(s, reg, IntWord(k)).regs[reg] == IntWord(k);
  }

  predicate SrcLits(src: Src) { src.Plain? ==> AtomLits(src.a) }

  predicate SrcsLits(srcs: seq<Src>) { forall src :: src in srcs ==> SrcLits(src) }

  // Operands keep their literals.
  lemma {:induction false} PreLits(P: Prog, sc: Scope, ns: nat, atoms: seq<OAtom>, flags: seq<bool>)
    requires AtomsLits(atoms) && PreGlobs(P, sc, ns, atoms, flags).Some?
    ensures SrcsLits(The(PreGlobs(P, sc, ns, atoms, flags)).srcs)
    decreases |atoms|
  {
    hide LdAtom;
    if atoms != [] {
      assert AtomLits(atoms[0]);
      PreLits(P, sc, if atoms[0].AGlob? then ns + 1 else ns, atoms[1..], Later(flags));
    }
  }

  lemma {:induction false} AtomRuns(P: Prog, T: Code, n: nat, id: int, sc: Scope, ns: nat, env: Env, s: MState,
                                    reg: int, a: OAtom, v: Word)
    requires AtomLits(a)
    requires ImageOk(P) && ScopeOk(sc, ns, env, s.slots)
    requires LdAtom(P, id, sc, reg, a).Some? && AtomVal(P, id, env, s.w, a) == Some(v)
    ensures var o := Exec(P, T, n, LdAtom(P, id, sc, reg, a).value.code, s);
            && o.Fall? && o.s.w == s.w && o.s.slots == s.slots && reg in o.s.regs && o.s.regs[reg] == v
            && (!a.AGlob? ==> o.s == SetReg(s, reg, v))
  {
    hide Exec, LoadConst, Wrap, IntWord, SlotOf, AllocatorOk, TagLit;
    match a
    case AVar(x) => One(P, T, n, LdrSlot(reg, SlotOf(sc, x).value), s);
    case AInt(k) => LoadConstRuns(P, T, n, reg, TagLit(k), s); LitWord(k);
    case ABool(b) => LoadConstRuns(P, T, n, reg, BoolWord(b), s); WrapSmall(BoolWord(b));
    case AStr(t) =>
      Front(P, T, n, Lit(id, t), [Got(reg, SStr(id))], s);
      assert [Lit(id, t)] + [Got(reg, SStr(id))] == [Lit(id, t), Got(reg, SStr(id))];
      One(P, T, n, Got(reg, SStr(id)), s);
    case AUnit => One(P, T, n, Got(reg, SUnit), s);
    case AGlob(g) => GlobRuns(P, T, n, s, reg, P.slots[g]);
    case ANull(c) => One(P, T, n, Got(reg, SNull(c)), s);
  }

  lemma {:induction false} GlobRuns(P: Prog, T: Code, n: nat, s: MState, reg: int, i: nat)
    requires i < |s.w.globs| && i < 0x1_0000
    ensures var o := Exec(P, T, n, LoadConst(0, i) + [BlRt(DcGget)] + (if reg == 0 then [] else [MovRR(reg, 0)]), s);
            && o.Fall? && o.s.w == s.w && o.s.slots == s.slots && reg in o.s.regs && o.s.regs[reg] == s.w.globs[i]
  {
    hide Exec, LoadConst, Wrap;
    LoadConstRuns(P, T, n, 0, i, s);
    WrapSmall(i);
    var s1 := SetReg(s, 0, i);
    SeqFall(P, T, n, LoadConst(0, i), [BlRt(DcGget)], s, s1);
    OneRt(P, T, n, DcGget, s1);
    var s2 := After(s1, s.w.globs[i], s.w);
    var tail := if reg == 0 then [] else [MovRR(reg, 0)];
    SeqFall(P, T, n, LoadConst(0, i) + [BlRt(DcGget)], tail, s, s2);
    if reg == 0 { ExecNone(P, T, n, s2); } else { One(P, T, n, MovRR(reg, 0), s2); }
  }

  // ---------- operands ----------

  function SrcVal(P: Prog, id: int, env: Env, slots: seq<Word>, src: Src): Option<Word> {
    match src
    case Tmp(i) => if i < |slots| then Some(slots[i]) else None
    case Plain(a) => if a.AGlob? then None else AtomVal(P, id, env, World(map[], [], 0, map[]), a)
  }

  predicate SrcsHold(P: Prog, id: int, env: Env, slots: seq<Word>, srcs: seq<Src>, vs: seq<Word>)
    decreases |srcs|
  {
    if srcs == [] || vs == [] then srcs == [] && vs == []
    else
      && SrcVal(P, id, env, slots, srcs[0]) == Some(vs[0])
      && SrcsHold(P, id + SrcIds([srcs[0]]), env, slots, srcs[1..], vs[1..])
  }

  ghost predicate PreOk(P: Prog, id: int, env: Env, s: MState, ns: int, pre: Pre, r: Vals, o: Out) {
    match r
    case Vals(vs, w1) =>
      && o.Fall? && o.s.w == w1 && Below(o.s.slots, s.slots, ns) && pre.ns <= SLOTS
      && SrcsHold(P, id, env, o.s.slots, pre.srcs, vs)
    case VStop(why) => why != Stuck ==> o == Halt(why)
  }

  lemma {:induction false} PreRuns(P: Prog, T: Code, n: nat, id: int, sc: Scope, ns: nat, env: Env, s: MState,
                                   atoms: seq<OAtom>, flags: seq<bool>)
    requires ImageOk(P) && ScopeOk(sc, ns, env, s.slots) && PreGlobs(P, sc, ns, atoms, flags).Some?
    ensures var pre := The(PreGlobs(P, sc, ns, atoms, flags));
            PreOk(P, id, env, s, ns, pre, EvAtoms(P, id, env, s.w, atoms, flags), Exec(P, T, n, pre.code, s))
    decreases |atoms|
  {
    hide Exec, ImageOk, ScopeOk, LdAtom, SrcVal, RtDup;
    if atoms == [] {
      ExecNone(P, T, n, s);
      ScopeSize(sc, ns, env, s.slots);
    } else if AtomVal(P, id, env, s.w, atoms[0]).Some? {
      if atoms[0].AGlob? {
        PreGlob(P, T, n, id, sc, ns, env, s, atoms, flags);
      } else {
        var pre1 := PreGlobs(P, sc, ns, atoms[1..], Later(flags)).value;
        PreRuns(P, T, n, id + AtomIds(atoms[0]), sc, ns, env, s, atoms[1..], Later(flags));
        PrePlain(P, id, env, s, ns, pre1, atoms, flags, Exec(P, T, n, pre1.code, s));
      }
    }
  }

  lemma {:induction false} ScopeSize(sc: Scope, ns: nat, env: Env, slots: seq<Word>)
    requires ScopeOk(sc, ns, env, slots)
    ensures |slots| == SLOTS && ns <= SLOTS
  {
  }

  lemma {:induction false} PlainVal(P: Prog, id: int, env: Env, w: World, slots: seq<Word>, a: OAtom)
    requires !a.AGlob?
    ensures SrcVal(P, id, env, slots, Plain(a)) == AtomVal(P, id, env, w, a) && SrcIds([Plain(a)]) == AtomIds(a)
  {
    assert [Plain(a)][1..] == [];
  }

  lemma {:induction false} PrePlain(P: Prog, id: int, env: Env, s: MState, ns: nat, pre1: Pre, atoms: seq<OAtom>,
                                    flags: seq<bool>, o: Out)
    requires atoms != [] && !atoms[0].AGlob? && AtomVal(P, id, env, s.w, atoms[0]).Some?
    requires PreOk(P, id + AtomIds(atoms[0]), env, s, ns, pre1,
                   EvAtoms(P, id + AtomIds(atoms[0]), env, s.w, atoms[1..], Later(flags)), o)
    ensures PreOk(P, id, env, s, ns, pre1.(srcs := [Plain(atoms[0])] + pre1.srcs),
        EvAtoms(P, id, env, s.w, atoms, flags), o)
  {
    hide SrcVal, AtomVal, RtDup;
    var r1 := EvAtoms(P, id + AtomIds(atoms[0]), env, s.w, atoms[1..], Later(flags));
    if r1.Vals? {
      var v := AtomVal(P, id, env, s.w, atoms[0]).value;
      PlainVal(P, id, env, s.w, o.s.slots, atoms[0]);
      var srcs := [Plain(atoms[0])] + pre1.srcs;
      assert srcs[1..] == pre1.srcs && ([v] + r1.vs)[1..] == r1.vs;
    }
  }

  // A global goes through a temporary slot.
  lemma {:induction false} PreGlob(P: Prog, T: Code, n: nat, id: int, sc: Scope, ns: nat, env: Env, s: MState,
                                   atoms: seq<OAtom>, flags: seq<bool>)
    requires ImageOk(P) && ScopeOk(sc, ns, env, s.slots) && PreGlobs(P, sc, ns, atoms, flags).Some?
    requires atoms != [] && AtIndex(atoms, 0).AGlob? && AtomVal(P, id, env, s.w, AtIndex(atoms, 0)).Some?
    ensures var pre := The(PreGlobs(P, sc, ns, atoms, flags));
            PreOk(P, id, env, s, ns, pre, EvAtoms(P, id, env, s.w, atoms, flags), Exec(P, T, n, pre.code, s))
    decreases |atoms|, 0
  {
    hide Exec, ImageOk, ScopeOk, LdAtom, SrcVal, AtomVal, RtDup, PreOk;
    var a, v := atoms[0], AtomVal(P, id, env, s.w, atoms[0]).value;
    var ld := LdAtom(P, 0, sc, 0, a).value;
    var dup := if Flag(flags) then [BlRt(DcDup)] else [];
    var rest := PreGlobs(P, sc, ns + 1, atoms[1..], Later(flags)).value;
    GlobLoad(P, id, 0, sc, env, s.w, a);
    AtomRuns(P, T, n, 0, sc, ns, env, s, 0, a, v);
    var s1 := Exec(P, T, n, ld.code, s).s;
    var head := ld.code + [StrSlot(0, ns)];
    SeqFall(P, T, n, ld.code, [StrSlot(0, ns)], s, s1);
    ScopeSize(sc, ns, env, s.slots);
    One(P, T, n, StrSlot(0, ns), s1);
    var s2 := s1.(slots := s1.slots[ns := v]);
    SeqFall(P, T, n, head, dup, s, s2);
    DupRuns(P, T, n, s2, Flag(flags), v);
    if Flag(flags) && RtDup(s.w, v).None? {
      SeqHalt(P, T, n, head + dup, rest.code, s);
      GlobStops(P, id, env, s, ns, atoms, flags, PreGlobs(P, sc, ns, atoms, flags).value);
    } else {
      var s3 := Exec(P, T, n, dup, s2).s;
      SeqFall(P, T, n, head + dup, rest.code, s, s3);
      ScopeTmp(sc, ns, env, s.slots, v);
      PreRuns(P, T, n, id, sc, ns + 1, env, s3, atoms[1..], Later(flags));
      GlobGoes(P, id, env, s, s3, ns, rest, atoms, flags, v, Exec(P, T, n, rest.code, s3),
          PreGlobs(P, sc, ns, atoms, flags).value);
    }
  }

  lemma {:induction false} ScopeTmp(sc: Scope, ns: nat, env: Env, slots: seq<Word>, v: Word)
    requires ScopeOk(sc, ns, env, slots) && ns < SLOTS
    ensures ScopeOk(sc, ns + 1, env, slots[ns := v])
  {
    hide SlotOf;
  }

  lemma {:induction false} GlobLoad(P: Prog, id: int, id1: int, sc: Scope, env: Env, w: World, a: OAtom)
    requires a.AGlob?
    ensures AtomVal(P, id, env, w, a) == AtomVal(P, id1, env, w, a)
  {
  }

  lemma {:induction false} DupRuns(P: Prog, T: Code, n: nat, s: MState, flag: bool, v: Word)
    requires 0 in s.regs && Reg(s, 0) == v
    ensures var o := Exec(P, T, n, if flag then [BlRt(DcDup)] else [], s);
            if !flag then o == Fall(s)
            else match RtDup(s.w, v) case None => o == Halt(Corrupt) case Some(w1) => o == Fall(AfterVoid(s, w1))
  {
    hide Exec, RtDup;
    if flag { OneRt(P, T, n, DcDup, s); } else { ExecNone(P, T, n, s); }
  }

  lemma {:induction false} GlobStops(P: Prog, id: int, env: Env, s: MState, ns: nat, atoms: seq<OAtom>,
                                     flags: seq<bool>, pre: Pre)
    requires atoms != [] && AtIndex(atoms, 0).AGlob? && Flag(flags) && AtomVal(P, id, env, s.w, AtIndex(atoms, 0)).Some?
    requires RtDup(s.w, The(AtomVal(P, id, env, s.w, AtIndex(atoms, 0)))).None?
    ensures PreOk(P, id, env, s, ns, pre, EvAtoms(P, id, env, s.w, atoms, flags), Halt(Corrupt))
  {
    hide AtomVal, RtDup;
  }

  lemma {:induction false} GlobGoes(P: Prog, id: int, env: Env, s: MState, s3: MState, ns: nat, rest: Pre,
                                    atoms: seq<OAtom>, flags: seq<bool>, v: Word, o: Out, pre: Pre)
    requires atoms != [] && atoms[0].AGlob? && AtomVal(P, id, env, s.w, atoms[0]) == Some(v)
    requires (if Flag(flags) then RtDup(s.w, v) else Some(s.w)) == Some(s3.w)
    requires |s.slots| == SLOTS && ns < SLOTS && s3.slots == s.slots[ns := v]
    requires PreOk(P, id, env, s3, ns + 1, rest, EvAtoms(P, id, env, s3.w, atoms[1..], Later(flags)), o)
    requires pre.srcs == [Tmp(ns)] + rest.srcs && pre.ns == rest.ns
    ensures PreOk(P, id, env, s, ns, pre, EvAtoms(P, id, env, s.w, atoms, flags), o)
  {
    hide AtomVal, RtDup;
    var r1 := EvAtoms(P, id, env, s3.w, atoms[1..], Later(flags));
    if r1.Vals? {
      assert pre.srcs[1..] == rest.srcs && ([v] + r1.vs)[1..] == r1.vs;
      assert o.s.slots[ns] == v;
      assert [Tmp(ns)][1..] == [] && SrcIds([Tmp(ns)]) == 0;
    }
  }

  function SetRegs(x: Regs, reg: int, vs: seq<Word>): Regs
    decreases |vs|
  {
    if vs == [] then x else SetRegs(x[reg := vs[0]], reg + 1, vs[1..])
  }

  lemma {:induction false} SetRegsAt(x: Regs, reg: int, vs: seq<Word>, r: int)
    ensures reg <= r < reg + |vs| ==> r in SetRegs(x, reg, vs) && SetRegs(x, reg, vs)[r] == vs[r - reg]
    ensures !(reg <= r < reg + |vs|) ==> (r in SetRegs(x, reg, vs) <==> r in x)
    ensures !(reg <= r < reg + |vs|) ==> (r in x ==> SetRegs(x, reg, vs)[r] == x[r])
    decreases |vs|
  {
    if vs != [] { SetRegsAt(x[reg := vs[0]], reg + 1, vs[1..], r); }
  }

  lemma {:induction false} SrcRuns(P: Prog, T: Code, n: nat, id: int, sc: Scope, ns: nat, env: Env, s: MState, reg: int,
                                   src: Src, v: Word)
    requires SrcLits(src)
    requires ImageOk(P) && ScopeOk(sc, ns, env, s.slots)
    requires LdSrc(P, id, sc, reg, src).Some? && SrcVal(P, id, env, s.slots, src) == Some(v)
    ensures Exec(P, T, n, The(LdSrc(P, id, sc, reg, src)).code, s) == Fall(SetReg(s, reg, v))
  {
    hide Exec, ScopeOk, ImageOk, LdAtom, AtomVal;
    match src
    case Tmp(i) => One(P, T, n, LdrSlot(reg, i), s);
    case Plain(a) =>
      PlainVal(P, id, env, s.w, s.slots, a);
      AtomRuns(P, T, n, id, sc, ns, env, s, reg, a, v);
  }

  lemma {:induction false} LoadsRun(P: Prog, T: Code, n: nat, id: int, sc: Scope, ns: nat, env: Env, s: MState,
                                    srcs: seq<Src>, vs: seq<Word>, reg: int)
    requires SrcsLits(srcs)
    requires ImageOk(P) && ScopeOk(sc, ns, env, s.slots)
    requires LdRegs(P, id, sc, srcs, reg).Some? && SrcsHold(P, id, env, s.slots, srcs, vs)
    ensures Exec(P, T, n, The(LdRegs(P, id, sc, srcs, reg)).code, s) == Fall(s.(regs := SetRegs(s.regs, reg, vs)))
    decreases |srcs|
  {
    hide Exec, ScopeOk, ImageOk, SrcVal, LdSrc, SrcIds;
    if srcs == [] {
      ExecNone(P, T, n, s);
    } else {
      var g := LdSrc(P, id, sc, reg, srcs[0]).value;
      SrcRuns(P, T, n, id, sc, ns, env, s, reg, srcs[0], vs[0]);
      var s1 := SetReg(s, reg, vs[0]);
      LoadsRun(P, T, n, g.id, sc, ns, env, s1, srcs[1..], vs[1..], reg + 1);
      SeqFall(P, T, n, g.code, LdRegs(P, g.id, sc, srcs[1..], reg + 1).value.code, s, s1);
    }
  }

  // Operands end up in x0, x1, ... with their effects done.
  ghost predicate OperandsOk(s: MState, ns: nat, r: Vals, o: Out) {
    match r
    case Vals(vs, w1) =>
      && o.Fall? && o.s.w == w1 && Below(o.s.slots, s.slots, ns)
      && forall i :: 0 <= i < |vs| ==> i in o.s.regs && o.s.regs[i] == vs[i]
    case VStop(why) => why != Stuck ==> o == Halt(why)
  }

  lemma {:induction false} OperandsRun(P: Prog, T: Code, n: nat, id: int, sc: Scope, ns: nat, env: Env, s: MState,
                                       atoms: seq<OAtom>, flags: seq<bool>)
    requires AtomsLits(atoms)
    requires ImageOk(P) && ScopeOk(sc, ns, env, s.slots) && Operands(P, id, sc, ns, atoms, flags).Some?
    ensures OperandsOk(s, ns, EvAtoms(P, id, env, s.w, atoms, flags),
        Exec(P, T, n, The(Operands(P, id, sc, ns, atoms, flags)).code, s))
  {
    hide Exec, ImageOk, ScopeOk, PreGlobs, LdRegs, EvAtoms, SrcsHold;
    var pre := PreGlobs(P, sc, ns, atoms, flags).value;
    var ld := LdRegs(P, id, sc, pre.srcs, 0).value;
    var r, o := EvAtoms(P, id, env, s.w, atoms, flags), Exec(P, T, n, pre.code, s);
    PreRuns(P, T, n, id, sc, ns, env, s, atoms, flags);
    PreLits(P, sc, ns, atoms, flags);
    match r
    case VStop(why) => if why != Stuck { SeqHalt(P, T, n, pre.code, ld.code, s); }
    case Vals(vs, w1) =>
      ScopeBelow(sc, ns, env, s.slots, o.s.slots);
      LoadsRun(P, T, n, id, sc, ns, env, o.s, pre.srcs, vs, 0);
      SeqFall(P, T, n, pre.code, ld.code, s, o.s);
      forall i | 0 <= i < |vs| ensures i in SetRegs(o.s.regs, 0, vs) && SetRegs(o.s.regs, 0, vs)[i] == vs[i] {
        SetRegsAt(o.s.regs, 0, vs, i);
      }
  }

  // ---------- writing blocks ----------

  // ws with vs written over it from index i.
  function Splice(ws: seq<Word>, i: nat, vs: seq<Word>): seq<Word>
    requires i + |vs| <= |ws|
  {
    ws[..i] + vs + ws[i + |vs|..]
  }

  lemma {:induction false} SpliceStep(ws: seq<Word>, i: nat, v: Word, vs: seq<Word>)
    requires i + 1 + |vs| <= |ws|
    ensures Splice(ws[i := v], i + 1, vs) == Splice(ws, i, [v] + vs)
  {
  }

  lemma {:induction false} SpliceNone(ws: seq<Word>, i: nat)
    requires i <= |ws|
    ensures Splice(ws, i, []) == ws
  {
  }

  // x0 holds a live block.
  predicate AtBlock(s: MState, p: Word) { 0 in s.regs && s.regs[0] == p && IsRef(p) && p in s.w.heap }

  function SetWords(s: MState, p: Word, ws: seq<Word>): World
    requires p in s.w.heap
  {
    s.w.(heap := s.w.heap[p := s.w.heap[p].(words := ws)])
  }

  lemma {:induction false} StoreRuns(P: Prog, T: Code, n: nat, s: MState, p: Word, off: int, v: Word)
    requires AtBlock(s, p) && 9 in s.regs && s.regs[9] == v && off % 8 == 0 && 8 <= off
    requires off / 8 <= |s.w.heap[p].words|
    ensures Exec(P, T, n, [StrOff(9, 0, off)], s) == Fall(s.(w := SetWords(s, p, s.w.heap[p].words[off / 8 - 1 := v])))
  {
    hide Exec;
    One(P, T, n, StrOff(9, 0, off), s);
  }

  lemma {:induction false} FieldsRun(P: Prog, T: Code, n: nat, id: int, sc: Scope, ns: nat, env: Env, s: MState,
                                     srcs: seq<Src>, vs: seq<Word>, off: int, p: Word)
    requires SrcsLits(srcs)
    requires ImageOk(P) && ScopeOk(sc, ns, env, s.slots)
    requires StFields(P, id, sc, srcs, off).Some? && SrcsHold(P, id, env, s.slots, srcs, vs)
    requires AtBlock(s, p) && off % 8 == 0 && 8 <= off && off / 8 - 1 + |vs| <= |s.w.heap[p].words|
    ensures var o := Exec(P, T, n, StFields(P, id, sc, srcs, off).value.code, s);
            && o.Fall? && o.s.slots == s.slots && AtBlock(o.s, p)
            && o.s.w == SetWords(s, p, Splice(s.w.heap[p].words, off / 8 - 1, vs))
    decreases |srcs|
  {
    hide Exec, ScopeOk, ImageOk, SrcVal, LdSrc, SrcIds, Splice;
    if srcs == [] {
      ExecNone(P, T, n, s);
      SpliceNone(s.w.heap[p].words, off / 8 - 1);
    } else {
      var g := LdSrc(P, id, sc, 9, srcs[0]).value;
      var rest := StFields(P, g.id, sc, srcs[1..], off + 8).value;
      SrcRuns(P, T, n, id, sc, ns, env, s, 9, srcs[0], vs[0]);
      var s1 := SetReg(s, 9, vs[0]);
      SeqFall(P, T, n, g.code, [StrOff(9, 0, off)], s, s1);
      StoreRuns(P, T, n, s1, p, off, vs[0]);
      var ws1 := s.w.heap[p].words[off / 8 - 1 := vs[0]];
      var s2 := s1.(w := SetWords(s1, p, ws1));
      SeqFall(P, T, n, g.code + [StrOff(9, 0, off)], rest.code, s, s2);
      FieldsRun(P, T, n, g.id, sc, ns, env, s2, srcs[1..], vs[1..], off + 8, p);
      SpliceStep(s.w.heap[p].words, off / 8 - 1, vs[0], vs[1..]);
      assert vs == [vs[0]] + vs[1..];
    }
  }

  // ---------- allocation ----------

  ghost function Allocated(P: Prog, w: World, tok: Option<Word>, size: nat): Res
    requires size >= 2
  {
    match tok case None => RtAlloc(P, w, size) case Some(t) => RtReuseOrAlloc(P, w, t, size)
  }

  lemma {:induction false} AllocatedAt(P: Prog, w: World, tok: Option<Word>, size: nat)
    requires ImageOk(P) && size >= 2 && Allocated(P, w, tok, size).Done?
    ensures var r := Allocated(P, w, tok, size); IsRef(r.v) && r.v in r.w.heap && SizeOf(r.w.heap[r.v]) == size
    ensures size <= MAX_WORDS || (tok.Some? && tok.value in w.heap && SizeOf(w.heap[tok.value]) == size)
  {
  }

  // Blocks are below the size limit, tags within a byte.
  predicate HeapOk(h: Heap) { forall p :: p in h ==> SizeOf(h[p]) <= MAX_WORDS && 0 <= h[p].tag < 128 }

  lemma {:induction false} SizeBytes(size: nat)
    requires 2 <= size < 0x1000_0000_0000
    ensures WordsFor(Wrap(size * 8)) == size
  {
    WrapSmall(size * 8);
    assert (size * 8 + 7) / 8 == size;
  }

  // dc_alloc_rc or dc_reuse_or_alloc, then the header.
  lemma {:induction false} AllocRuns(P: Prog, T: Code, n: nat, sc: Scope, ns: nat, env: Env, s: MState, tok: string,
                                     t: Option<Word>, size: nat, tag: int)
    requires ImageOk(P) && ScopeOk(sc, ns, env, s.slots) && HeapOk(s.w.heap) && Alloc(sc, tok, size, tag).Some?
    requires TokOf(env, tok) == Some(t) && 2 <= size < 0x1000_0000_0000 && 0 <= tag < 128
    ensures var r := Allocated(P, s.w, t, size); var o := Exec(P, T, n, Alloc(sc, tok, size, tag).value, s);
            match r
            case Stop(why) => o == Halt(why)
            case Done(p, w1) =>
              && o.Fall? && o.s.slots == s.slots && IsRef(p) && p in w1.heap && AtBlock(o.s, p)
              && o.s.w == w1.(heap := w1.heap[p := Block(1, tag, w1.heap[p].words)]) && SizeOf(w1.heap[p]) == size
  {
    hide Exec, ScopeOk, LoadConst, Wrap, RtAlloc, RtReuseOrAlloc, HeapOk, ImageOk;
    var r := Allocated(P, s.w, t, size);
    SizeBytes(size);
    var s1 := AllocArgs(P, T, n, sc, ns, env, s, tok, t, size);
    var rt := if tok == "" then DcAllocRc else DcReuseOrAlloc;
    var call := AllocCall(sc, tok, size);
    var head := LoadConst(9, HeaderWord(size, tag));
    OneRt(P, T, n, rt, s1);
    SeqFall(P, T, n, call, [BlRt(rt)], s, s1);
    match r
    case Stop(why) =>
      SeqHalt(P, T, n, call + [BlRt(rt)], head, s);
      SeqHalt(P, T, n, call + [BlRt(rt)] + head, [StrOff(9, 0, 0)], s);
    case Done(p, w1) =>
      AllocatedAt(P, s.w, t, size);
      var s2 := After(s1, p, w1);
      SeqFall(P, T, n, call + [BlRt(rt)], head, s, s2);
      LoadConstRuns(P, T, n, 9, HeaderWord(size, tag), s2);
      AllocSize(P, s.w, t, size);
      HeaderFits(size, tag);
      var s3 := SetReg(s2, 9, HeaderWord(size, tag));
      SeqFall(P, T, n, call + [BlRt(rt)] + head, [StrOff(9, 0, 0)], s, s3);
      HeaderWrites(P, T, n, s3, p, size, tag);
  }

  lemma {:induction false} AllocSize(P: Prog, w: World, t: Option<Word>, size: nat)
    requires size >= 2 && HeapOk(w.heap) && Allocated(P, w, t, size).Done?
    ensures size <= MAX_WORDS
  {
  }

  function AllocCall(sc: Scope, tok: string, size: nat): Code {
    if tok == "" then LoadConst(0, size * 8)
    else match SlotOf(sc, tok) case None => [] case Some(i) => [LdrSlot(0, i)] + LoadConst(1, size * 8)
  }

  lemma {:induction false} AllocArgs(P: Prog, T: Code, n: nat, sc: Scope, ns: nat, env: Env, s: MState, tok: string,
                                     t: Option<Word>, size: nat) returns (s1: MState)
    requires ScopeOk(sc, ns, env, s.slots) && TokOf(env, tok) == Some(t) && (tok != "" ==> SlotOf(sc, tok).Some?)
    ensures Exec(P, T, n, AllocCall(sc, tok, size), s) == Fall(s1) && s1.slots == s.slots && s1.w == s.w
    ensures if t.None? then tok == "" && 0 in s1.regs && Reg(s1, 0) == Wrap(size * 8)
            else tok != "" && 0 in s1.regs && 1 in s1.regs && Reg(s1, 0) == The(t) && Reg(s1, 1) == Wrap(size * 8)
  {
    hide Exec, LoadConst, Wrap, SlotOf;
    if tok == "" {
      LoadConstRuns(P, T, n, 0, size * 8, s);
      s1 := SetReg(s, 0, Wrap(size * 8));
    } else {
      var i := SlotOf(sc, tok).value;
      One(P, T, n, LdrSlot(0, i), s);
      var s0 := SetReg(s, 0, t.value);
      SeqFall(P, T, n, [LdrSlot(0, i)], LoadConst(1, size * 8), s, s0);
      LoadConstRuns(P, T, n, 1, size * 8, s0);
      s1 := SetReg(s0, 1, Wrap(size * 8));
    }
  }

  lemma {:induction false} HeaderFits(size: nat, tag: int)
    requires size < 0x1000_0000_0000 && 0 <= tag < 128
    ensures Wrap(HeaderWord(size, tag)) == HeaderWord(size, tag)
  {
    WrapSmall(HeaderWord(size, tag));
  }

  lemma {:induction false} HeaderFields(size: nat, tag: int)
    requires size <= MAX_WORDS && 0 <= tag < 128
    ensures var v := HeaderWord(size, tag);
            v >= 0 && v / RC_ONE == 1 && v % 256 == tag && v / 256 % 0x1_0000_0000 == size
  {
    var v := HeaderWord(size, tag);
    assert v / 256 == 0x1_0000_0000 + size;
  }

  lemma {:induction false} HeaderWrites(P: Prog, T: Code, n: nat, s: MState, p: Word, size: nat, tag: int)
    requires AtBlock(s, p) && SizeOf(s.w.heap[p]) == size && size <= MAX_WORDS && 0 <= tag < 128
    requires 9 in s.regs && s.regs[9] == HeaderWord(size, tag)
    ensures var o := Exec(P, T, n, [StrOff(9, 0, 0)], s);
            && o.Fall? && o.s.slots == s.slots && AtBlock(o.s, p)
            && o.s.w == s.w.(heap := s.w.heap[p := Block(1, tag, s.w.heap[p].words)])
  {
    hide Exec, HeaderWord, IsRef;
    HeaderFields(size, tag);
    One(P, T, n, StrOff(9, 0, 0), s);
  }
}

// Code generation preserves meaning: the text emitted for an expression reaches
// its end label with the expression's value in x0 and the same heap, leaving
// every slot below the next free one as it was; a routine of the text returns
// what the called function returns.
module CodeSound {
  import opened Types
  import opened Syntax
  import opened RcHeap
  import opened Oir
  import opened Machine
  import opened Codegen
  import opened Literals
  import opened CodeSteps
  import opened CodeOperands
  import opened CodeBlocks
  import opened CodeHeap

  // ---------- what is claimed ----------

  // The text behind label l begins with body.
  ghost predicate Placed(T: Code, l: Label, body: Code) { exists rest: Code :: Seek(T, l) == Some(body + rest) }

  ghost predicate LamPlaced(P: Prog, T: Code, id: int) {
    var lam := AtKey(P.lams, id);
    var g := LamBody(P, id, lam.pat, lam.body, lam.caps);
    g.Some? && Placed(T, Loc(KLam, id), g.value.code)
  }

  ghost predicate LevelPlaced(P: Prog, T: Code, f: string, i: int) {
    var g := LevelCode(P, AtKey(P.base, f), f, AtKey(P.defs, f), i);
    g.Some? && Placed(T, Level(f, i), g.value.code)
  }

  ghost predicate DefPlaced(P: Prog, T: Code, f: string) {
    var d := AtKey(P.defs, f);
    && f in P.base
    && (d.direct ==> FnnCode(P, P.base[f], d).Some? && Placed(T, Direct(f), FnnCode(P, P.base[f], d).value.code))
    && (forall i :: 1 <= i <= |d.params| ==> LevelPlaced(P, T, f, i))
  }

  // The text holds every routine of the image.
  ghost predicate Linked(P: Prog, T: Code) {
    && (forall id :: id in P.lams ==> LamPlaced(P, T, id))
    && (forall f :: f in P.defs ==> DefPlaced(P, T, f))
  }

  ghost predicate Ready(P: Prog, T: Code) { ImageOk(P) && Linked(P, T) && ProgLits(P) }

  // An expression's text against its evaluation.
  ghost predicate ExprOk(s: MState, ns: nat, endl: Label, r: Res, o: Out) {
    match r
    case Done(v, w1) =>
      && o.Goto? && o.l == endl && o.s.w == w1 && Below(o.s.slots, s.slots, ns) && 0 in o.s.regs && o.s.regs[0] == v
      && HeapOk(w1.heap)
    case Stop(why) => Compared(why) ==> o == Halt(why)
  }

  ghost predicate PrimOk(s: MState, ns: nat, r: Res, o: Out) { ValueOk(s, ns, r, o) && Small(r) }

  // A routine's run against the function's evaluation.
  ghost predicate Agree(r: Res, q: Res) { ((r.Done? || Compared(r.why)) ==> q == r) && Small(r) }

  ghost predicate Start(P: Prog, T: Code, sc: Scope, ns: int, env: Env, s: MState) {
    Ready(P, T) && HeapOk(s.w.heap) && ScopeOk(sc, ns, env, s.slots)
  }

  predicate Older(l: Label, id: int) { l.Loc? && l.id < id }

  // ---------- gluing ----------

  lemma {:induction false} ExprAfter(P: Prog, T: Code, n: nat, a: Code, b: Code, s: MState, s1: MState, ns: nat,
                                     ns1: nat, endl: Label, r: Res)
    requires Exec(P, T, n, a, s) == Fall(s1) && ExprOk(s1, ns1, endl, r, Exec(P, T, n, b, s1))
    requires Below(s1.slots, s.slots, ns) && ns <= ns1
    ensures ExprOk(s, ns, endl, r, Exec(P, T, n, a + b, s))
  {
    hide Exec, HeapOk;
    SeqFall(P, T, n, a, b, s, s1);
  }

  lemma {:induction false} ExprSkip(P: Prog, T: Code, n: nat, a: Code, b: Code, s: MState, ns: nat, endl: Label, r: Res)
    requires ExprOk(s, ns, endl, r, Exec(P, T, n, a, s)) && Lbl(endl) !in b
    ensures ExprOk(s, ns, endl, r, Exec(P, T, n, a + b, s))
  {
    hide Exec, HeapOk;
    if r.Done? { SeqGoto(P, T, n, a, b, s); } else if Compared(r.why) { SeqHalt(P, T, n, a, b, s); }
  }

  // The value of a first part that halted is the whole's.
  lemma {:induction false} ExprHalts(P: Prog, T: Code, n: nat, a: Code, b: Code, s: MState, ns: nat, endl: Label,
                                     why: Why)
    requires Compared(why) ==> Exec(P, T, n, a, s) == Halt(why)
    ensures ExprOk(s, ns, endl, Stop(why), Exec(P, T, n, a + b, s))
  {
    hide Exec;
    if Compared(why) { SeqHalt(P, T, n, a, b, s); }
  }

  lemma {:induction false} StuckExpr(s: MState, ns: nat, endl: Label, o: Out)
    ensures ExprOk(s, ns, endl, Stop(Stuck), o)
  {
  }

  lemma {:induction false} StuckPrim(s: MState, ns: nat, o: Out)
    ensures PrimOk(s, ns, Stop(Stuck), o)
  {
  }

  lemma {:induction false} StartFacts(P: Prog, T: Code, sc: Scope, ns: nat, env: Env, s: MState)
    requires Start(P, T, sc, ns, env, s)
    ensures Ready(P, T) && ImageOk(P) && Linked(P, T) && HeapOk(s.w.heap) && ScopeOk(sc, ns, env, s.slots)
    ensures |s.slots| == SLOTS && ns <= SLOTS
  {
  }

  // Slots, heap and scope after a step that kept the slots below ns.
  lemma {:induction false} StartAfter(P: Prog, T: Code, sc: Scope, ns: nat, env: Env, s: MState, s1: MState)
    requires Start(P, T, sc, ns, env, s) && Below(s1.slots, s.slots, ns) && HeapOk(s1.w.heap)
    ensures Start(P, T, sc, ns, env, s1)
  {
    hide Linked, ImageOk, HeapOk, ScopeOk;
    ScopeBelow(sc, ns, env, s.slots, s1.slots);
  }

  // Storing x0 to the next free slot binds a variable.
  lemma {:induction false} BindRuns(P: Prog, T: Code, n: nat, sc: Scope, ns: nat, env: Env, s: MState, x: string)
    requires Start(P, T, sc, ns, env, s) && 0 in s.regs && ns < SLOTS
    ensures var s1 := s.(slots := s.slots[ns := s.regs[0]]);
            && Exec(P, T, n, [StrSlot(0, ns)], s) == Fall(s1)
            && Start(P, T, [(x, ns)] + sc, ns + 1, env[x := s.regs[0]], s1) && Below(s1.slots, s.slots, ns)
  {
    hide Exec, Linked, ImageOk, HeapOk, SlotOf;
    One(P, T, n, StrSlot(0, ns), s);
    ScopeBind(sc, ns, env, s.slots, x, s.regs[0]);
  }

  // ---------- primitives without calls ----------

  lemma {:induction false} SlotsBelow(s: MState, ns: nat, r: Res, o: Out)
    requires ValueOk(s, SLOTS, r, o) && |s.slots| == SLOTS
    ensures ValueOk(s, ns, r, o)
  {
  }

  // A part after operands.
  lemma {:induction false} ValueAfter(P: Prog, T: Code, n: nat, a: Code, b: Code, s: MState, s1: MState, ns: nat,
                                      r: Res)
    requires Exec(P, T, n, a, s) == Fall(s1) && Below(s1.slots, s.slots, ns) && |s.slots| == SLOTS
    requires ValueOk(s1, SLOTS, r, Exec(P, T, n, b, s1))
    ensures ValueOk(s, ns, r, Exec(P, T, n, a + b, s))
  {
    hide Exec;
    SeqFall(P, T, n, a, b, s, s1);
  }

  lemma {:induction false} ValueHalts(P: Prog, T: Code, n: nat, a: Code, b: Code, s: MState, ns: nat, why: Why)
    requires why != Stuck ==> Exec(P, T, n, a, s) == Halt(why)
    ensures ValueOk(s, ns, Stop(why), Exec(P, T, n, a + b, s))
  {
    hide Exec;
    if why != Stuck { SeqHalt(P, T, n, a, b, s); }
  }

  lemma {:induction false} AtomPrimRuns(P: Prog, T: Code, n: nat, id: int, sc: Scope, ns: nat, env: Env, s: MState,
                                        a: OAtom)
    requires AtomLits(a)
    requires Start(P, T, sc, ns, env, s) && Operands(P, id, sc, ns, [a], [true]).Some?
    ensures PrimOk(s, ns, EvPrim(P, n, id, env, s.w, PAtom(a)),
        Exec(P, T, n, The(Operands(P, id, sc, ns, [a], [true])).code, s))
  {
    hide Exec, Linked, HeapOk, ScopeOk, Operands, EvAtoms;
    OperandsRun(P, T, n, id, sc, ns, env, s, [a], [true]);
    AtomsHeap(P, id, env, s.w, [a], [true]);
  }

  lemma {:induction false} BiPrimRuns(P: Prog, T: Code, n: nat, id: int, sc: Scope, ns: nat, env: Env, s: MState,
                                      name: string, args: seq<OAtom>)
    requires AtomsLits(args)
    requires Start(P, T, sc, ns, env, s) && Operands(P, id, sc, ns, args, []).Some?
    ensures PrimOk(s, ns, EvPrim(P, n, id, env, s.w, PBi(name, args)),
                   Exec(P, T, n, The(Operands(P, id, sc, ns, args, [])).code + [BlRt(DcBi(name))], s))
  {
    hide Exec, Linked, HeapOk, ScopeOk, Operands, EvAtoms, RtBuiltin, BiArgs, ValueOk;
    var code, call := Operands(P, id, sc, ns, args, []).value.code, [BlRt(DcBi(name))];
    OperandsRun(P, T, n, id, sc, ns, env, s, args, []);
    AtomsHeap(P, id, env, s.w, args, []);
    var r := EvAtoms(P, id, env, s.w, args, []);
    StartFacts(P, T, sc, ns, env, s);
    match r
    case VStop(why) => ValueHalts(P, T, n, code, call, s, ns, why);
    case Vals(vs, w1) =>
      var s1 := Exec(P, T, n, code, s).s;
      if |vs| == BiArgs(name) {
        BuiltinRuns(P, T, n, s1, name, vs);
        BuiltinHeap(P, w1, name, vs);
        ValueAfter(P, T, n, code, call, s, s1, ns, RtBuiltin(P, w1, name, vs));
      } else {
        StuckPrim(s, ns, Exec(P, T, n, code + call, s));
      }
  }

  lemma {:induction false} BinPrimRuns(P: Prog, T: Code, n: nat, id: int, sc: Scope, ns: nat, env: Env, s: MState,
                                       op: string, a: OAtom, b: OAtom)
    requires AtomLits(a) && AtomLits(b)
    requires Start(P, T, sc, ns, env, s) && Prim(P, id, sc, ns, PBin(op, a, b)).Some?
    ensures PrimOk(s, ns, EvPrim(P, n, id, env, s.w, PBin(op, a, b)),
                   Exec(P, T, n, The(Prim(P, id, sc, ns, PBin(op, a, b))).code, s))
  {
    hide Exec, Linked, HeapOk, ScopeOk, Operands, EvAtoms, EvBin, ValueOk, OpCode;
    var g := Operands(P, id, sc, ns, [a, b], []).value;
    var code, call := g.code, OpCode(op, g.id).value.code;
    OperandsRun(P, T, n, id, sc, ns, env, s, [a, b], []);
    AtomsHeap(P, id, env, s.w, [a, b], []);
    var r := EvAtoms(P, id, env, s.w, [a, b], []);
    StartFacts(P, T, sc, ns, env, s);
    match r
    case VStop(why) => ValueHalts(P, T, n, code, call, s, ns, why);
    case Vals(vs, w1) =>
      var s1 := Exec(P, T, n, code, s).s;
      if |vs| == 2 {
        OpRuns(P, T, n, g.id, op, s1, vs[0], vs[1]);
        BinHeap(P, n, w1, op, vs[0], vs[1]);
        ValueAfter(P, T, n, code, call, s, s1, ns, EvBin(P, n, w1, op, vs[0], vs[1]));
      } else {
        StuckPrim(s, ns, Exec(P, T, n, code + call, s));
      }
  }

  lemma {:induction false} TupPrimRuns(P: Prog, T: Code, n: nat, id: int, sc: Scope, ns: nat, env: Env, s: MState,
                                       args: seq<OAtom>, tok: string)
    requires AtomsLits(args) && Short(args)
    requires Start(P, T, sc, ns, env, s) && Prim(P, id, sc, ns, PMkTup(args, tok)).Some?
    ensures PrimOk(s, ns, EvPrim(P, n, id, env, s.w, PMkTup(args, tok)),
                   Exec(P, T, n, The(Prim(P, id, sc, ns, PMkTup(args, tok))).code, s))
  {
    hide Exec, Linked, HeapOk, ScopeOk, PreGlobs, Alloc, StFields, EvAtoms, BuildWith, ValueOk, SrcsHold;
    var flags := Trues(|args|);
    var pre := PreGlobs(P, sc, ns, args, flags).value;
    var al := Alloc(sc, tok, 1 + |args|, T_TUPLE).value;
    var fs := StFields(P, id, sc, pre.srcs, 8).value;
    assert pre.code + al + fs.code == pre.code + (al + fs.code);
    PreRuns(P, T, n, id, sc, ns, env, s, args, flags);
    AtomsHeap(P, id, env, s.w, args, flags);
    StartFacts(P, T, sc, ns, env, s);
    var r := EvAtoms(P, id, env, s.w, args, flags);
    match r
    case VStop(why) => ValueHalts(P, T, n, pre.code, al + fs.code, s, ns, why);
    case Vals(vs, w1) =>
      AtomsCount(P, id, env, s.w, args, flags);
      var s1 := Exec(P, T, n, pre.code, s).s;
      PreLits(P, sc, ns, args, flags);
      if TokOf(env, tok).Some? && vs != [] {
        StartAfter(P, T, sc, ns, env, s, s1);
        var t := TokOf(env, tok).value;
        TupleRuns(P, T, n, id, sc, ns, env, s1, pre.srcs, vs, tok, t);
        BuildWithHeap(P, w1, t, T_TUPLE, vs);
        ValueAfter(P, T, n, pre.code, al + fs.code, s, s1, ns, BuildWith(P, w1, t, T_TUPLE, vs));
      } else {
        StuckPrim(s, ns, Exec(P, T, n, pre.code + (al + fs.code), s));
      }
  }

  lemma {:induction false} AtomsCount(P: Prog, pt: int, env: Env, w: World, atoms: seq<OAtom>, flags: seq<bool>)
    ensures var r := EvAtoms(P, pt, env, w, atoms, flags); r.Vals? ==> |r.vs| == |atoms|
    decreases |atoms|
  {
    hide AtomVal, RtDup;
    if atoms != [] {
      var v := AtomVal(P, pt, env, w, atoms[0]);
      if v.Some? {
        var w1 := if atoms[0].AGlob? && Flag(flags) then RtDup(w, v.value) else Some(w);
        if w1.Some? { AtomsCount(P, pt + AtomIds(atoms[0]), env, w1.value, atoms[1..], Later(flags)); }
      }
    }
  }

  lemma {:induction false} CtorPrimRuns(P: Prog, T: Code, n: nat, id: int, sc: Scope, ns: nat, env: Env, s: MState,
                                        c: string, args: seq<OAtom>, tok: string)
    requires AtomsLits(args)
    requires Start(P, T, sc, ns, env, s) && Prim(P, id, sc, ns, PMkCtor(c, args, tok)).Some?
    ensures PrimOk(s, ns, EvPrim(P, n, id, env, s.w, PMkCtor(c, args, tok)),
                   Exec(P, T, n, The(Prim(P, id, sc, ns, PMkCtor(c, args, tok))).code, s))
  {
    hide Exec, Linked, HeapOk, ScopeOk, PreGlobs, Alloc, StFields, EvAtoms, BuildWith, ValueOk, SrcsHold, LoadConst;
    var o := Exec(P, T, n, Prim(P, id, sc, ns, PMkCtor(c, args, tok)).value.code, s);
    StuckPrim(s, ns, o);
    if |args| == 0 {
      if SNull(c) in P.addr { NullaryRuns(P, T, n, s, ns, c, HeapOk(s.w.heap)); }
    } else if c in P.cid {
      var flags := Trues(|args|);
      var pre := PreGlobs(P, sc, ns, args, flags).value;
      var al := Alloc(sc, tok, 2 + |args|, T_ADT).value;
      var fs := StFields(P, id, sc, pre.srcs, 16).value;
      var mid := LoadConst(9, P.cid[c]) + [StrOff(9, 0, 8)];
      var tail := al + mid + fs.code;
      assert pre.code + al + LoadConst(9, P.cid[c]) + [StrOff(9, 0, 8)] + fs.code == pre.code + tail;
      PreRuns(P, T, n, id, sc, ns, env, s, args, flags);
      AtomsHeap(P, id, env, s.w, args, flags);
      StartFacts(P, T, sc, ns, env, s);
      var r := EvAtoms(P, id, env, s.w, args, flags);
      match r
      case VStop(why) => ValueHalts(P, T, n, pre.code, tail, s, ns, why);
      case Vals(vs, w1) =>
        AtomsCount(P, id, env, s.w, args, flags);
        var s1 := Exec(P, T, n, pre.code, s).s;
        PreLits(P, sc, ns, args, flags);
        if TokOf(env, tok).Some? {
          StartAfter(P, T, sc, ns, env, s, s1);
          var t := TokOf(env, tok).value;
          CtorBlockRuns(P, T, n, id, sc, ns, env, s1, pre.srcs, vs, tok, t, P.cid[c]);
          BuildWithHeap(P, w1, t, T_ADT, [P.cid[c]] + vs);
          ValueAfter(P, T, n, pre.code, tail, s, s1, ns, BuildWith(P, w1, t, T_ADT, [P.cid[c]] + vs));
        }
    }
  }

  lemma {:induction false} NullaryRuns(P: Prog, T: Code, n: nat, s: MState, ns: nat, c: string, small: bool)
    requires SNull(c) in P.addr
    ensures ValueOk(s, ns, Done(AtKey(P.addr, SNull(c)), s.w), Exec(P, T, n, [Got(0, SNull(c))], s))
  {
    hide Exec;
    One(P, T, n, Got(0, SNull(c)), s);
  }

  // ---------- closures ----------

  lemma {:induction false} SlotsLookup(sc: Scope, ns: nat, env: Env, slots: seq<Word>, xs: seq<string>)
    requires ScopeOk(sc, ns, env, slots) && SlotsOf(sc, xs).Some?
    ensures var idx := SlotsOf(sc, xs).value;
            && |idx| == |xs| && (forall j :: 0 <= j < |idx| ==> idx[j] < ns)
               && (forall j :: 0 <= j < |idx| ==> idx[j] < |slots|)
            && Lookups(env, xs) == Some(SlotVals(slots, idx))
    decreases |xs|
  {
    hide SlotOf;
    if xs != [] { SlotsLookup(sc, ns, env, slots, xs[1..]); }
  }

  // The routine text is jumped over.
  lemma {:induction false} SkipBody(P: Prog, T: Code, n: nat, id: int, s: MState, body: Code, rest: Code)
    requires Lbl(Loc(KSkip, id)) !in body
    ensures Exec(P, T, n, [B(Loc(KSkip, id)), Lbl(Loc(KLam, id))] + body + [Lbl(Loc(KSkip, id))] + rest, s)
        == Exec(P, T, n, rest, s)
  {
    hide Exec;
    var l := Loc(KSkip, id);
    var a := [B(l)] + ([Lbl(Loc(KLam, id))] + body);
    assert [B(l), Lbl(Loc(KLam, id))] + body == a;
    OneB(P, T, n, l, s);
    SeqGoto(P, T, n, [B(l)], [Lbl(Loc(KLam, id))] + body, s);
    SeqLand(P, T, n, a, s, l, rest);
  }

  lemma {:induction false} EnvShort(j: nat, n: nat)
    requires LdEnv(j, n).Some? && j <= SLOTS
    ensures n <= SLOTS || n <= j
    decreases n - j
  {
    if j < n { EnvShort(j + 1, n); }
  }

  // A lambda's environment fits its frame.
  lemma {:induction false} CapsShort(P: Prog, id: int, pat: Pat, body: OExpr, caps: seq<string>)
    requires LamBody(P, id, pat, body, caps).Some?
    ensures |caps| <= SLOTS
  {
    hide LdEnv;
    EnvShort(0, |caps|);
  }

  lemma {:induction false} LamPrimRuns(P: Prog, T: Code, n: nat, id: int, sc: Scope, ns: nat, env: Env, s: MState,
                                       p: OPrim)
    requires Start(P, T, sc, ns, env, s) && p.PLam? && LamCode(P, id, sc, p).Some?
    ensures PrimOk(s, ns, EvPrim(P, n, id, env, s.w, p), Exec(P, T, n, The(LamCode(P, id, sc, p)).code, s))
  {
    hide Exec, Linked, HeapOk, ScopeOk, LamBody, MkClosureCode, Build, SlotsOf, Lookups, SlotVals, ValueOk;
    var idx := SlotsOf(sc, p.caps).value;
    var g := LamBody(P, id, p.pat, p.body, p.caps).value;
    CapsShort(P, id, p.pat, p.body, p.caps);
    LamBodyLabels(P, id, p.pat, p.body, p.caps);
    SkipBody(P, T, n, id, s, g.code, MkClosureCode(SLam(id), idx));
    StartFacts(P, T, sc, ns, env, s);
    SlotsLookup(sc, ns, env, s.slots, p.caps);
    StuckPrim(s, ns, Exec(P, T, n, LamCode(P, id, sc, p).value.code, s));
    if SLam(id) in P.addr {
      ClosureRuns(P, T, n, s, SLam(id), idx);
      ClosureHeap(P, id, env, s.w, Lam(p.pat, p.body, p.caps), None);
      SlotsBelow(s, ns, Build(P, s.w, T_CLOSURE, [P.addr[SLam(id)], |idx|] + SlotVals(s.slots, idx)),
                 Exec(P, T, n, MkClosureCode(SLam(id), idx), s));
    }
  }

  function Patched(vs: seq<Word>, j: Option<nat>, p: Word): seq<Word> {
    match j case None => vs case Some(i) => if i < |vs| then vs[i := p] else vs
  }

  // The captured values, with the recursive one stale until it is patched.
  lemma {:induction false} StaleVals(sc: Scope, ns: nat, env: Env, slots: seq<Word>, x: string, p: Word,
                                     xs: seq<string>)
    requires ScopeOk(sc, ns, env, slots) && ns < SLOTS && SlotsOf([(x, ns)] + sc, xs).Some? && Occurs(x, xs) <= 1
    ensures var idx := SlotsOf([(x, ns)] + sc, xs).value;
            && |idx| == |xs| && (forall j :: 0 <= j < |idx| ==> idx[j] < SLOTS) && |SlotVals(slots, idx)| == |xs|
            && Lookups(env[x := p], xs) == Some(Patched(SlotVals(slots, idx), FindIdx(x, xs, 0), p))
    ensures FindIdx(x, xs, 0).Some? ==> FindIdx(x, xs, 0).value < |xs|
    decreases |xs|
  {
    hide SlotOf, Patched, FindIdx;
    FindStep(x, xs);
    if xs == [] {
      PatchNone([], p);
    } else {
      SlotOfFront(sc, ns, x, xs[0]);
      OccursRest(x, xs);
      StaleVals(sc, ns, env, slots, x, p, xs[1..]);
      var idx := SlotsOf([(x, ns)] + sc, xs).value;
      PatchStep(slots[idx[0]], SlotVals(slots, idx[1..]), FindIdx(x, xs[1..], 0), p, xs[0] == x);
    }
  }

  lemma {:induction false} OccursRest(x: string, xs: seq<string>)
    requires xs != []
    ensures Occurs(x, xs) == Occurs(x, xs[1..]) + if xs[0] == x then 1 else 0
  {
    assert xs == [xs[0]] + xs[1..];
  }

  lemma {:induction false} FindStep(x: string, xs: seq<string>)
    ensures FindIdx(x, xs, 0) ==
      if xs == [] then None
      else if xs[0] == x then Some(0)
      else match FindIdx(x, xs[1..], 0) case None => None case Some(j) => Some(j + 1)
    ensures xs != [] && xs[0] == x && Occurs(x, xs) <= 1 ==> FindIdx(x, xs[1..], 0) == None
  {
    if xs != [] {
      IdxShift(x, xs[1..], 0);
      OccursRest(x, xs);
      if Occurs(x, xs[1..]) == 0 { NoIdx(x, xs[1..], 0); }
    }
  }

  lemma {:induction false} PatchNone(vs: seq<Word>, p: Word)
    ensures Patched(vs, None, p) == vs
  {
  }

  lemma {:induction false} PatchStep(v: Word, vs: seq<Word>, j: Option<nat>, p: Word, here: bool)
    requires here ==> j.None?
    ensures Patched([v] + vs, if here then Some(0) else match j case None => None case Some(i) => Some(i + 1), p)
         == [if here then p else v] + Patched(vs, j, p)
  {
  }

  lemma {:induction false} IdxShift(x: string, xs: seq<string>, i: nat)
    ensures FindIdx(x, xs, i + 1) == match FindIdx(x, xs, i) case None => None case Some(j) => Some(j + 1)
    decreases |xs|
  {
    if xs != [] { IdxShift(x, xs[1..], i + 1); }
  }

  lemma {:induction false} SlotOfFront(sc: Scope, ns: nat, x: string, y: string)
    ensures SlotOf([(x, ns)] + sc, y) == if y == x then Some(ns) else SlotOf(sc, y)
  {
    assert ([(x, ns)] + sc)[1..] == sc;
  }

  lemma {:induction false} NoIdx(x: string, xs: seq<string>, i: nat)
    requires Occurs(x, xs) == 0
    ensures FindIdx(x, xs, i) == None
    decreases |xs|
  {
    if xs != [] {
      assert xs == [xs[0]] + xs[1..];
      NoIdx(x, xs[1..], i + 1);
    }
  }

  // The stored closure's own word is patched from its slot.
  lemma {:induction false} PatchRuns(P: Prog, T: Code, n: nat, s: MState, ns: nat, p: Word, j: Option<nat>)
    requires AtBlock(s, p) && ns < |s.slots| && s.slots[ns] == p && (j.Some? ==> 3 + j.value <= |s.w.heap[p].words|)
    ensures var o := Exec(P, T, n, match j case None => []
        case Some(i) => [LdrSlot(9, ns), StrOff(9, 0, 24 + 8 * i)], s);
            && o.Fall? && o.s.slots == s.slots
            && o.s.w == match j case None => s.w case Some(i) => SetWords(s, p, s.w.heap[p].words[2 + i := p])
  {
    hide Exec;
    match j
    case None => ExecNone(P, T, n, s);
    case Some(i) =>
      Front(P, T, n, LdrSlot(9, ns), [StrOff(9, 0, 24 + 8 * i)], s);
      assert [LdrSlot(9, ns)] + [StrOff(9, 0, 24 + 8 * i)] == [LdrSlot(9, ns), StrOff(9, 0, 24 + 8 * i)];
      StoreRuns(P, T, n, SetReg(s, 9, p), p, 24 + 8 * i, p);
  }
}

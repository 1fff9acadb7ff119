// The induction over runs for generated code: expressions, case branches,
// lambdas, direct entries, curried levels and closure calls.
module CodeRun {
  import opened Types
  import opened Syntax
  import opened RcHeap
  import opened Oir
  import opened Machine
  import opened Codegen
  import opened Literals
  import opened CodeSteps
  import opened CodeOperands
  import opened CodePatterns
  import opened CodeBlocks
  import opened CodeHeap
  import opened CodeSound

  // ---------- recursive closures ----------

  lemma {:induction false} BuildIs(P: Prog, w: World, tag: int, words: seq<Word>)
    requires words != []
    ensures Build(P, w, tag, words) ==
      if |words| + 1 > MAX_WORDS then Stop(TooLarge)
      else
        var p := P.newAt(w.tick, w.heap);
        Done(p, w.(heap := w.heap[p := Block(1, tag, words)], tick := w.tick + 1))
  {
    if |words| + 1 <= MAX_WORDS {
      var p := P.newAt(w.tick, w.heap);
      assert w.heap[p := RawBlock(|words| + 1)][p := Block(1, tag, words)] == w.heap[p := Block(1, tag, words)];
    }
  }

  function LetRecCode(g: Code, ns: nat, j: Option<nat>): Code {
    g + [StrSlot(0, ns)] + match j case None => [] case Some(i) => [LdrSlot(9, ns), StrOff(9, 0, 24 + 8 * i)]
  }

  ghost predicate RecOk(P: Prog, T: Code, sc: Scope, ns: nat, env: Env, s: MState, x: string, r: Res, o: Out) {
    match r
    case Done(v, w1) =>
      && o.Fall? && o.s.w == w1 && Below(o.s.slots, s.slots, ns) && HeapOk(w1.heap)
      && Start(P, T, [(x, ns)] + sc, ns + 1, env[x := v], o.s)
    case Stop(why) => !Compared(why)
  }

  lemma {:induction false} LetRecRuns(P: Prog, T: Code, n: nat, id: int, sc: Scope, ns: nat, env: Env, s: MState,
                                      x: string, p: OPrim)
    requires Start(P, T, sc, ns, env, s) && p.PLam? && ns < SLOTS && Occurs(x, p.caps) <= 1
    requires LamCode(P, id, [(x, ns)] + sc, p).Some?
    ensures var r := MkClosure(P, id, env, s.w, Lam(p.pat, p.body, p.caps), Some(x));
            var o := Exec(P, T, n, LetRecCode(LamCode(P, id, [(x, ns)] + sc, p).value.code, ns,
                FindIdx(x, p.caps, 0)), s);
            RecOk(P, T, sc, ns, env, s, x, r, o)
  {
    hide Exec, Linked, HeapOk, ScopeOk, LamBody, MkClosureCode, Build, SlotsOf, Lookups, SlotVals, FindIdx, IsRef;
    var sc1 := [(x, ns)] + sc;
    StartFacts(P, T, sc, ns, env, s);
    var self := P.newAt(s.w.tick, s.w.heap);
    StaleVals(sc, ns, env, s.slots, x, self, p.caps);
    var idx, j := SlotsOf(sc1, p.caps).value, FindIdx(x, p.caps, 0);
    var stale := SlotVals(s.slots, idx);
    var lam := Lam(p.pat, p.body, p.caps);
    var r := MkClosure(P, id, env, s.w, lam, Some(x));
    if SLam(id) in P.addr && id in P.lams && P.lams[id] == lam {
      CapsShort(P, id, p.pat, p.body, p.caps);
      var words0 := [P.addr[SLam(id)], |idx|] + stale;
      var words := [P.addr[SLam(id)], |idx|] + Patched(stale, j, self);
      BuildIs(P, s.w, T_CLOSURE, words0);
      BuildIs(P, s.w, T_CLOSURE, words);
      if r.Done? {
        var g := LamBody(P, id, p.pat, p.body, p.caps).value;
        LamBodyLabels(P, id, p.pat, p.body, p.caps);
        SkipBody(P, T, n, id, s, g.code, MkClosureCode(SLam(id), idx));
        ClosureRuns(P, T, n, s, SLam(id), idx);
        ClosureHeap(P, id, env, s.w, lam, Some(x));
        BuildHeap(P, s.w, T_CLOSURE, words0);
        StaleStart(P, T, sc, ns, env, s, x, self, Exec(P, T, n, MkClosureCode(SLam(id), idx), s));
        LetRecTail(P, T, n, sc, ns, env, s, x, self, LamCode(P, id, sc1, p).value.code, words0, j, r.w);
      }
    }
  }

  // The closure just made, still stale, is live in x0.
  lemma {:induction false} StaleStart(P: Prog, T: Code, sc: Scope, ns: nat, env: Env, s: MState, x: string, p: Word,
                                      o: Out)
    requires Start(P, T, sc, ns, env, s) && o.Fall? && o.s.slots == s.slots && HeapOk(o.s.w.heap) && AtBlock(o.s, p)
    ensures Start(P, T, sc, ns, env, o.s) && 0 in o.s.regs && o.s.regs[0] == p
  {
    hide Linked, HeapOk, ImageOk, ScopeOk;
  }

  lemma {:induction false} LetRecTail(P: Prog, T: Code, n: nat, sc: Scope, ns: nat, env: Env, s: MState, x: string,
                                      p: Word, g: Code, words0: seq<Word>, j: Option<nat>, w1: World)
    requires var o := Exec(P, T, n, g, s);
             && o.Fall? && Start(P, T, sc, ns, env, o.s) && o.s.slots == s.slots && AtBlock(o.s, p)
             && o.s.w == s.w.(heap := s.w.heap[p := Block(1, T_CLOSURE, words0)], tick := s.w.tick + 1)
    requires ns < SLOTS && |words0| >= 2 && (j.Some? ==> j.value + 2 < |words0|) && HeapOk(w1.heap)
    requires w1 == s.w.(heap := s.w.heap[p := Block(1, T_CLOSURE, words0[..2] + Patched(words0[2..], j, p))],
        tick := s.w.tick + 1)
    ensures var o := Exec(P, T, n, LetRecCode(g, ns, j), s);
            && o.Fall? && o.s.w == w1 && Below(o.s.slots, s.slots, ns)
               && Start(P, T, [(x, ns)] + sc, ns + 1, env[x := p], o.s)
  {
    hide Exec, Linked, HeapOk, ScopeOk, ImageOk, IsRef;
    var s1 := Exec(P, T, n, g, s).s;
    SeqFall(P, T, n, g, [StrSlot(0, ns)], s, s1);
    StartFacts(P, T, sc, ns, env, s1);
    BindRuns(P, T, n, sc, ns, env, s1, x);
    var s2 := s1.(slots := s1.slots[ns := p]);
    var patch := match j case None => [] case Some(i) => [LdrSlot(9, ns), StrOff(9, 0, 24 + 8 * i)];
    SeqFall(P, T, n, g + [StrSlot(0, ns)], patch, s, s2);
    PatchRuns(P, T, n, s2, ns, p, j);
    var s3 := Exec(P, T, n, patch, s2).s;
    PatchedWords(words0, j, p);
    assert s3.w == w1;
    StartAfter(P, T, [(x, ns)] + sc, ns + 1, env[x := p], s2, s3);
  }

  lemma {:induction false} PatchedWords(words0: seq<Word>, j: Option<nat>, p: Word)
    requires |words0| >= 2 && (j.Some? ==> j.value + 2 < |words0|)
    ensures words0[..2] + Patched(words0[2..], j, p) == match j case None => words0 case Some(i) => words0[2 + i := p]
  {
  }

  // ---------- expressions ----------

  lemma {:induction false} CeRuns(P: Prog, T: Code, n: nat, id: int, sc: Scope, ns: nat, env: Env, s: MState,
                                  endl: Label, e: OExpr)
    requires ExprLits(e)
    requires Start(P, T, sc, ns, env, s) && Ce(P, id, sc, ns, endl, e).Some? && Older(endl, id)
    ensures ExprOk(s, ns, endl, Ev(P, n, id, env, s.w, e), Exec(P, T, n, The(Ce(P, id, sc, ns, endl, e)).code, s))
    decreases n, 1, e, 2
  {
    hide Exec, Start, Ce, Ev, ExprOk, Older;
    match e
    case ORet(a) => RetRuns(P, T, n, id, sc, ns, env, s, endl, a);
    case OLet(_, _, _) => LetRuns(P, T, n, id, sc, ns, env, s, endl, e);
    case OLetRec(_, _, _) => RecRuns(P, T, n, id, sc, ns, env, s, endl, e);
    case OIf(_, _, _) => IfRuns(P, T, n, id, sc, ns, env, s, endl, e);
    case OCase(_, _) => CaseRuns(P, T, n, id, sc, ns, env, s, endl, e);
    case ODup(_, _) => CountRuns(P, T, n, id, sc, ns, env, s, endl, e);
    case ODrop(_, _) => CountRuns(P, T, n, id, sc, ns, env, s, endl, e);
    case ODropReuse(_, _, _) => ReuseRuns(P, T, n, id, sc, ns, env, s, endl, e);
  }

  lemma {:induction false} RetRuns(P: Prog, T: Code, n: nat, id: int, sc: Scope, ns: nat, env: Env, s: MState,
                                   endl: Label, a: OAtom)
    requires AtomLits(a)
    requires Start(P, T, sc, ns, env, s) && Ce(P, id, sc, ns, endl, ORet(a)).Some?
    ensures ExprOk(s, ns, endl, Ev(P, n, id, env, s.w, ORet(a)),
        Exec(P, T, n, The(Ce(P, id, sc, ns, endl, ORet(a))).code, s))
  {
    hide Exec, Start, Operands, EvAtoms, HeapOk;
    AtomPrimRuns(P, T, n, id, sc, ns, env, s, a);
    var r, code := EvPrim(P, n, id, env, s.w, PAtom(a)), Operands(P, id, sc, ns, [a], [true]).value.code;
    match r
    case Done(v, w1) =>
      var s1 := Exec(P, T, n, code, s).s;
      SeqFall(P, T, n, code, [B(endl)], s, s1);
      OneB(P, T, n, endl, s1);
    case Stop(why) => ExprHalts(P, T, n, code, [B(endl)], s, ns, endl, why);
  }

  lemma {:induction false} LetParts(P: Prog, id: int, sc: Scope, ns: nat, endl: Label, e: OExpr)
    returns (g: Gen, b: Gen)
    requires Ce(P, id, sc, ns, endl, e).Some? && e.OLet? && !(e.prim.PAtom? && e.prim.a.AVar?)
    ensures Prim(P, id, sc, ns, e.prim) == Some(g) && ns < SLOTS
    ensures Ce(P, g.id, [(e.x, ns)] + sc, ns + 1, endl, e.rest) == Some(b)
    ensures Ce(P, id, sc, ns, endl, e).value.code == g.code + [StrSlot(0, ns)] + b.code && g.id == id + PrimIds(e.prim)
  {
    hide Prim;
    g := Prim(P, id, sc, ns, e.prim).value;
    b := Ce(P, g.id, [(e.x, ns)] + sc, ns + 1, endl, e.rest).value;
  }

  lemma {:induction false} LetEv(P: Prog, n: nat, id: int, env: Env, w: World, e: OExpr)
    requires e.OLet?
    ensures Ev(P, n, id, env, w, e) == match EvPrim(P, n, id, env, w, e.prim)
      case Stop(why) => Stop(why)
      case Done(v, w1) => Ev(P, n, id + PrimIds(e.prim), env[e.x := v], w1, e.rest)
  {
    hide EvPrim;
  }

  lemma {:induction false} LetRuns(P: Prog, T: Code, n: nat, id: int, sc: Scope, ns: nat, env: Env, s: MState,
                                   endl: Label, e: OExpr)
    requires ExprLits(e)
    requires Start(P, T, sc, ns, env, s) && Ce(P, id, sc, ns, endl, e).Some? && Older(endl, id) && e.OLet?
    ensures ExprOk(s, ns, endl, Ev(P, n, id, env, s.w, e), Exec(P, T, n, The(Ce(P, id, sc, ns, endl, e)).code, s))
    decreases n, 1, e, 1
  {
    hide Exec, Start, Prim, EvPrim, HeapOk, ExprOk, ValueOk, Ce, Ev;
    var x, p, rest := e.x, e.prim, e.rest;
    if p.PAtom? && p.a.AVar? {
      AliasRuns(P, T, n, id, sc, ns, env, s, endl, e);
    } else {
      var g, b := LetParts(P, id, sc, ns, endl, e);
      LetEv(P, n, id, env, s.w, e);
      PrimRuns(P, T, n, id, sc, ns, env, s, p);
      var r := EvPrim(P, n, id, env, s.w, p);
      match r
      case Stop(why) => LetStops(P, T, n, s, ns, endl, g.code, [StrSlot(0, ns)], b.code, why);
      case Done(v, w1) =>
        var s2 := LetBinds(P, T, n, sc, ns, env, s, x, g.code, v, w1);
        CeRuns(P, T, n, g.id, [(x, ns)] + sc, ns + 1, env[x := v], s2, endl, rest);
        ExprAfter(P, T, n, g.code + [StrSlot(0, ns)], b.code, s, s2, ns, ns + 1, endl,
            Ev(P, n, g.id, env[x := v], w1, rest));
    }
  }

  lemma {:induction false} LetStops(P: Prog, T: Code, n: nat, s: MState, ns: nat, endl: Label, g: Code, st: Code,
                                    b: Code, why: Why)
    requires ValueOk(s, ns, Stop(why), Exec(P, T, n, g, s))
    ensures ExprOk(s, ns, endl, Stop(why), Exec(P, T, n, g + st + b, s))
  {
    hide Exec;
    if Compared(why) { SeqHalt(P, T, n, g, st, s); }
    ExprHalts(P, T, n, g + st, b, s, ns, endl, why);
  }

  lemma {:induction false} LetBinds(P: Prog, T: Code, n: nat, sc: Scope, ns: nat, env: Env, s: MState, x: string,
                                    g: Code, v: Word, w1: World) returns (s2: MState)
    requires Start(P, T, sc, ns, env, s) && PrimOk(s, ns, Done(v, w1), Exec(P, T, n, g, s)) && ns < SLOTS
    ensures Exec(P, T, n, g + [StrSlot(0, ns)], s) == Fall(s2) && Start(P, T, [(x, ns)] + sc, ns + 1, env[x := v], s2)
    ensures s2.w == w1 && Below(s2.slots, s.slots, ns)
  {
    hide Exec, Start, HeapOk;
    var s1 := Exec(P, T, n, g, s).s;
    StartAfter(P, T, sc, ns, env, s, s1);
    StartFacts(P, T, sc, ns, env, s);
    SeqFall(P, T, n, g, [StrSlot(0, ns)], s, s1);
    BindRuns(P, T, n, sc, ns, env, s1, x);
    s2 := s1.(slots := s1.slots[ns := v]);
  }

  lemma {:induction false} AliasParts(P: Prog, id: int, sc: Scope, ns: nat, endl: Label, e: OExpr)
    requires Ce(P, id, sc, ns, endl, e).Some? && e.OLet? && e.prim.PAtom? && e.prim.a.AVar?
    ensures var y := SlotOf(sc, e.prim.a.x);
            y.Some? && Ce(P, id, sc, ns, endl, e) == Ce(P, id, [(e.x, y.value)] + sc, ns, endl, e.rest)
  {
    hide SlotOf;
  }

  lemma {:induction false} AliasEv(P: Prog, n: nat, id: int, env: Env, w: World, e: OExpr)
    requires e.OLet? && e.prim.PAtom? && e.prim.a.AVar? && e.prim.a.x in env
    ensures Ev(P, n, id, env, w, e) == Ev(P, n, id, env[e.x := env[e.prim.a.x]], w, e.rest)
  {
    hide EvPrim;
    VarPrim(P, n, id, env, w, e.prim.a.x);
  }

  lemma {:induction false} AliasRuns(P: Prog, T: Code, n: nat, id: int, sc: Scope, ns: nat, env: Env, s: MState,
                                     endl: Label, e: OExpr)
    requires ExprLits(e)
    requires Start(P, T, sc, ns, env, s) && Ce(P, id, sc, ns, endl, e).Some? && Older(endl, id)
    requires e.OLet? && e.prim.PAtom? && e.prim.a.AVar?
    ensures ExprOk(s, ns, endl, Ev(P, n, id, env, s.w, e), Exec(P, T, n, Ce(P, id, sc, ns, endl, e).value.code, s))
    decreases n, 1, e, 0
  {
    hide Exec, Linked, HeapOk, ExprOk, SlotOf, ImageOk, Ce, Ev;
    var x, y := e.x, e.prim.a.x;
    AliasParts(P, id, sc, ns, endl, e);
    var i := SlotOf(sc, y).value;
    assert y in env && s.slots[i] == env[y];
    AliasEv(P, n, id, env, s.w, e);
    ScopeAlias(sc, ns, env, s.slots, x, i);
    CeRuns(P, T, n, id, [(x, i)] + sc, ns, env[x := env[y]], s, endl, e.rest);
  }

  lemma {:induction false} VarPrim(P: Prog, n: nat, pt: int, env: Env, w: World, y: string)
    requires y in env
    ensures EvPrim(P, n, pt, env, w, PAtom(AVar(y))) == Done(AtKey(env, y), w) && PrimIds(PAtom(AVar(y))) == 0
  {
    assert [AVar(y)][1..] == [];
    assert EvAtoms(P, pt + AtomIds(AVar(y)), env, w, [], Later([true])) == Vals([], w);
    assert EvAtoms(P, pt, env, w, [AVar(y)], [true]) == Vals([env[y]], w);
    assert AtomsIds([AVar(y)]) == 0;
  }

  lemma {:induction false} RecRuns(P: Prog, T: Code, n: nat, id: int, sc: Scope, ns: nat, env: Env, s: MState,
                                   endl: Label, e: OExpr)
    requires ExprLits(e)
    requires Start(P, T, sc, ns, env, s) && Ce(P, id, sc, ns, endl, e).Some? && Older(endl, id) && e.OLetRec?
    ensures ExprOk(s, ns, endl, Ev(P, n, id, env, s.w, e), Exec(P, T, n, The(Ce(P, id, sc, ns, endl, e)).code, s))
    decreases n, 1, e, 1
  {
    hide Exec, Start, LamCode, MkClosure, HeapOk, ExprOk, Ce, Ev, Older, LetRecCode;
    var x, p, rest := e.x, e.prim, e.rest;
    var sc1 := [(x, ns)] + sc;
    var g, b := RecParts(P, id, sc, ns, endl, e);
    var head := LetRecCode(g.code, ns, FindIdx(x, p.caps, 0));
    RecEv(P, n, id, env, s.w, e);
    StuckExpr(s, ns, endl, Exec(P, T, n, head + b.code, s));
    if Occurs(x, p.caps) <= 1 {
      LetRecRuns(P, T, n, id, sc, ns, env, s, x, p);
      var r := MkClosure(P, id, env, s.w, Lam(p.pat, p.body, p.caps), Some(x));
      match r
      case Stop(why) => ExprHalts(P, T, n, head, b.code, s, ns, endl, why);
      case Done(v, w1) =>
        var s1 := Exec(P, T, n, head, s).s;
        OlderMore(endl, id, g.id);
        CeRuns(P, T, n, g.id, sc1, ns + 1, env[x := v], s1, endl, rest);
        ExprAfter(P, T, n, head, b.code, s, s1, ns, ns + 1, endl, Ev(P, n, g.id, env[x := v], w1, rest));
    }
  }

  lemma {:induction false} RecParts(P: Prog, id: int, sc: Scope, ns: nat, endl: Label, e: OExpr)
    returns (g: Gen, b: Gen)
    requires e.OLetRec? && Ce(P, id, sc, ns, endl, e).Some?
    ensures e.prim.PLam? && ns < SLOTS && LamCode(P, id, [(e.x, ns)] + sc, e.prim) == Some(g)
    ensures Ce(P, g.id, [(e.x, ns)] + sc, ns + 1, endl, e.rest) == Some(b) && g.id == id + PrimIds(e.prim)
    ensures Ce(P, id, sc, ns, endl, e).value.code == LetRecCode(g.code, ns, FindIdx(e.x, e.prim.caps, 0)) + b.code
  {
    hide LamCode;
    g := LamCode(P, id, [(e.x, ns)] + sc, e.prim).value;
    b := Ce(P, g.id, [(e.x, ns)] + sc, ns + 1, endl, e.rest).value;
  }

  lemma {:induction false} RecEv(P: Prog, n: nat, pt: int, env: Env, w: World, e: OExpr)
    requires e.OLetRec? && e.prim.PLam?
    ensures Ev(P, n, pt, env, w, e) ==
      if Occurs(e.x, e.prim.caps) > 1 then Stop(Stuck)
      else match MkClosure(P, pt, env, w, Lam(e.prim.pat, e.prim.body, e.prim.caps), Some(e.x))
        case Stop(why) => Stop(why)
        case Done(v, w1) => Ev(P, n, pt + PrimIds(e.prim), env[e.x := v], w1, e.rest)
  {
    hide MkClosure;
  }

  lemma {:induction false} IfRuns(P: Prog, T: Code, n: nat, id: int, sc: Scope, ns: nat, env: Env, s: MState,
                                  endl: Label, e: OExpr)
    requires ExprLits(e)
    requires Start(P, T, sc, ns, env, s) && Ce(P, id, sc, ns, endl, e).Some? && Older(endl, id) && e.OIf?
    ensures ExprOk(s, ns, endl, Ev(P, n, id, env, s.w, e), Exec(P, T, n, The(Ce(P, id, sc, ns, endl, e)).code, s))
    decreases n, 1, e, 1
  {
    hide Exec, Start, LdAtom, AtomVal, HeapOk, ExprOk, Ce, Ev, Older, Below, Numbered;
    var a, e1, e2 := e.cond, e.thn, e.els;
    var ld, g1, g2 := IfParts(P, id, sc, ns, endl, e);
    var l, test := Loc(KElse, id), [CmpImm(0, 7), BCond(Ne, Loc(KElse, id))];
    IfEv(P, n, id, env, s.w, e);
    StuckExpr(s, ns, endl, Exec(P, T, n, Ce(P, id, sc, ns, endl, e).value.code, s));
    if AtomVal(P, id + 1, env, s.w, a).Some? {
      var v := AtomVal(P, id + 1, env, s.w, a).value;
      var s1 := CondRuns(P, T, n, id, sc, ns, env, s, a, v, l);
      CeLabels(P, ld.id, sc, ns, endl, e1);
      CeLabels(P, g1.id, sc, ns, endl, e2);
      OlderMore(endl, id, ld.id);
      OlderMore(endl, id, g1.id);
      if v == TRUE {
        CeRuns(P, T, n, ld.id, sc, ns, env, s1, endl, e1);
        ThenPart(P, T, n, s, s1, ns, endl, id, ld.code + test, g1, g2, Ev(P, n, ld.id, env, s1.w, e1));
      } else {
        CeRuns(P, T, n, g1.id, sc, ns, env, s1, endl, e2);
        ElsePart(P, T, n, s, s1, ns, endl, id, ld.id, ld.code + test, g1, g2, Ev(P, n, g1.id, env, s1.w, e2));
      }
    }
  }

  lemma {:induction false} OlderMore(l: Label, id: int, id1: int)
    requires Older(l, id) && id <= id1
    ensures Older(l, id1)
  {
  }

  lemma {:induction false} IfParts(P: Prog, id: int, sc: Scope, ns: nat, endl: Label, e: OExpr)
    returns (ld: Gen, g1: Gen, g2: Gen)
    requires e.OIf? && Ce(P, id, sc, ns, endl, e).Some?
    ensures LdAtom(P, id + 1, sc, 0, e.cond) == Some(ld) && Ce(P, ld.id, sc, ns, endl, e.thn) == Some(g1)
    ensures Ce(P, g1.id, sc, ns, endl, e.els) == Some(g2)
    ensures Ce(P, id, sc, ns, endl, e).value.code
         == ld.code + [CmpImm(0, 7), BCond(Ne, Loc(KElse, id))] + g1.code + [Lbl(Loc(KElse, id))] + g2.code
    ensures ld.id == id + 1 + AtomIds(e.cond) && g1.id == ld.id + ExprIds(e.thn)
  {
    hide LdAtom;
    ld := LdAtom(P, id + 1, sc, 0, e.cond).value;
    g1 := Ce(P, ld.id, sc, ns, endl, e.thn).value;
    g2 := Ce(P, g1.id, sc, ns, endl, e.els).value;
  }

  lemma {:induction false} IfEv(P: Prog, n: nat, pt: int, env: Env, w: World, e: OExpr)
    requires e.OIf?
    ensures Ev(P, n, pt, env, w, e) ==
      match AtomVal(P, pt + 1, env, w, e.cond)
      case None => Stop(Stuck)
      case Some(v) =>
        var pt1 := pt + 1 + AtomIds(e.cond);
        if v == TRUE then Ev(P, n, pt1, env, w, e.thn) else Ev(P, n, pt1 + ExprIds(e.thn), env, w, e.els)
  {
    hide AtomVal;
  }

  lemma {:induction false} ThenPart(P: Prog, T: Code, n: nat, s: MState, s1: MState, ns: nat, endl: Label, id: int,
                                    pre: Code, g1: Gen, g2: Gen, r: Res)
    requires Exec(P, T, n, pre, s) == Fall(s1) && ExprOk(s1, ns, endl, r, Exec(P, T, n, g1.code, s1))
    requires Below(s1.slots, s.slots, ns)
    requires Numbered(Some(g2), g1.id) && Older(endl, id) && id <= g1.id
    ensures ExprOk(s, ns, endl, r, Exec(P, T, n, pre + g1.code + [Lbl(Loc(KElse, id))] + g2.code, s))
  {
    hide Exec, ExprOk, Older, Numbered;
    var l := Loc(KElse, id);
    ExprAfter(P, T, n, pre, g1.code, s, s1, ns, ns, endl, r);
    ElseNot(l, g2.code, g1.id, g2.id, endl, id);
    assert pre + g1.code + [Lbl(l)] + g2.code == pre + g1.code + ([Lbl(l)] + g2.code);
    ExprSkip(P, T, n, pre + g1.code, [Lbl(l)] + g2.code, s, ns, endl, r);
  }

  lemma {:induction false} ElsePart(P: Prog, T: Code, n: nat, s: MState, s1: MState, ns: nat, endl: Label, id: int,
                                    id1: int, pre: Code, g1: Gen, g2: Gen, r: Res)
    requires Exec(P, T, n, pre, s) == Goto(Loc(KElse, id), s1) && ExprOk(s1, ns, endl, r, Exec(P, T, n, g2.code, s1))
    requires Below(s1.slots, s.slots, ns) && Numbered(Some(g1), id1) && id < id1
    ensures ExprOk(s, ns, endl, r, Exec(P, T, n, pre + g1.code + [Lbl(Loc(KElse, id))] + g2.code, s))
  {
    hide Exec, ExprOk, Numbered;
    var l := Loc(KElse, id);
    NotOwnLabel(g1.code, id1, g1.id, l);
    SeqGoto(P, T, n, pre, g1.code, s);
    SeqLand(P, T, n, pre + g1.code, s, l, g2.code);
    ExprMoved(s, s1, ns, endl, r, Exec(P, T, n, g2.code, s1));
  }

  lemma {:induction false} ElseNot(l: Label, code: Code, lo: int, hi: int, endl: Label, id: int)
    requires Numbered(Some(Gen(code, hi)), lo) && Older(endl, id) && id <= lo && l.Loc? && l.id == id
    ensures Lbl(endl) !in [Lbl(l)] + code
  {
  }

  lemma {:induction false} NotOwnLabel(code: Code, lo: int, hi: int, l: Label)
    requires Numbered(Some(Gen(code, hi)), lo) && l.Loc? && l.id < lo
    ensures Lbl(l) !in code
  {
  }

  lemma {:induction false} ExprMoved(s: MState, s1: MState, ns: nat, endl: Label, r: Res, o: Out)
    requires ExprOk(s1, ns, endl, r, o) && Below(s1.slots, s.slots, ns)
    ensures ExprOk(s, ns, endl, r, o)
  {
    hide HeapOk;
  }

  // The condition in x0, compared with true.
  lemma {:induction false} CondRuns(P: Prog, T: Code, n: nat, id: int, sc: Scope, ns: nat, env: Env, s: MState,
                                    a: OAtom, v: Word, l: Label) returns (s1: MState)
    requires AtomLits(a)
    requires Start(P, T, sc, ns, env, s) && LdAtom(P, id + 1, sc, 0, a).Some?
    requires AtomVal(P, id + 1, env, s.w, a) == Some(v)
    ensures Start(P, T, sc, ns, env, s1) && s1.w == s.w && s1.slots == s.slots && Below(s1.slots, s.slots, ns)
    ensures Exec(P, T, n, The(LdAtom(P, id + 1, sc, 0, a)).code + [CmpImm(0, 7), BCond(Ne, l)], s)
         == if v == TRUE then Fall(s1) else Goto(l, s1)
  {
    hide Exec, Start, LdAtom, AtomVal, HeapOk;
    StartFacts(P, T, sc, ns, env, s);
    AtomRuns(P, T, n, id + 1, sc, ns, env, s, 0, a, v);
    var code := LdAtom(P, id + 1, sc, 0, a).value.code;
    var s0 := Exec(P, T, n, code, s).s;
    s1 := s0.(cmp := Some((v, 7)));
    SeqFall(P, T, n, code, [CmpImm(0, 7), BCond(Ne, l)], s, s0);
    Front(P, T, n, CmpImm(0, 7), [BCond(Ne, l)], s0);
    assert [CmpImm(0, 7)] + [BCond(Ne, l)] == [CmpImm(0, 7), BCond(Ne, l)];
    OneBCond(P, T, n, Ne, l, s1);
    StartAfter(P, T, sc, ns, env, s, s1);
  }

  lemma {:induction false} CountParts(P: Prog, id: int, sc: Scope, ns: nat, endl: Label, e: OExpr)
    returns (i: nat, g: Gen)
    requires Ce(P, id, sc, ns, endl, e).Some? && (e.ODup? || e.ODrop?)
    ensures SlotOf(sc, e.x) == Some(i) && Ce(P, id, sc, ns, endl, e.rest) == Some(g)
    ensures Ce(P, id, sc, ns, endl, e).value.code == [LdrSlot(0, i), BlRt(if e.ODup? then DcDup else DcDrop)] + g.code
  {
    hide SlotOf;
    i := SlotOf(sc, e.x).value;
    g := Ce(P, id, sc, ns, endl, e.rest).value;
  }

  lemma {:induction false} CountEv(P: Prog, n: nat, id: int, env: Env, w: World, e: OExpr)
    requires e.ODup? || e.ODrop?
    ensures Ev(P, n, id, env, w, e) ==
      if e.x !in env then Stop(Stuck)
      else match if e.ODup? then RtDup(w, env[e.x]) else RtDrop(w, env[e.x])
        case None => Stop(Corrupt)
        case Some(w1) => Ev(P, n, id, env, w1, e.rest)
  {
    hide Dup, Drop;
  }

  lemma {:induction false} CountRuns(P: Prog, T: Code, n: nat, id: int, sc: Scope, ns: nat, env: Env, s: MState,
                                     endl: Label, e: OExpr)
    requires ExprLits(e)
    requires Start(P, T, sc, ns, env, s) && Ce(P, id, sc, ns, endl, e).Some? && Older(endl, id) && (e.ODup? || e.ODrop?)
    ensures ExprOk(s, ns, endl, Ev(P, n, id, env, s.w, e), Exec(P, T, n, The(Ce(P, id, sc, ns, endl, e)).code, s))
    decreases n, 1, e, 1
  {
    hide Exec, Start, HeapOk, ExprOk, SlotOf, Dup, Drop, Ce, Ev;
    var x := e.x;
    var i, g := CountParts(P, id, sc, ns, endl, e);
    CountEv(P, n, id, env, s.w, e);
    var rt := if e.ODup? then DcDup else DcDrop;
    var head := [LdrSlot(0, i), BlRt(rt)];
    StuckExpr(s, ns, endl, Exec(P, T, n, head + g.code, s));
    if x in env {
      var v, w1 := env[x], if e.ODup? then RtDup(s.w, env[x]) else RtDrop(s.w, env[x]);
      VarInSlot(P, T, sc, ns, env, s, x);
      CallOn(P, T, n, s, i, rt);
      StartFacts(P, T, sc, ns, env, s);
      if w1.None? {
        ExprHalts(P, T, n, head, g.code, s, ns, endl, Corrupt);
      } else {
        DupHeap(s.w.heap, v);
        DropHeap(s.w.heap, v);
        var s1 := Exec(P, T, n, head, s).s;
        StartAfter(P, T, sc, ns, env, s, s1);
        CeRuns(P, T, n, id, sc, ns, env, s1, endl, e.rest);
        ExprAfter(P, T, n, head, g.code, s, s1, ns, ns, endl, Ev(P, n, id, env, s1.w, e.rest));
      }
    }
  }

  lemma {:induction false} VarInSlot(P: Prog, T: Code, sc: Scope, ns: nat, env: Env, s: MState, x: string)
    requires Start(P, T, sc, ns, env, s) && x in env
    ensures SlotOf(sc, x).Some? && The(SlotOf(sc, x)) < |s.slots| && The(SlotOf(sc, x)) < ns
    ensures AtIndex(s.slots, The(SlotOf(sc, x))) == AtKey(env, x)
  {
    hide Linked, SlotOf, HeapOk;
  }

  // A runtime call on the variable in slot i.
  lemma {:induction false} CallOn(P: Prog, T: Code, n: nat, s: MState, i: nat, rt: Rt)
    requires i < |s.slots|
    ensures var s1 := SetReg(s, 0, AtIndex(s.slots, i));
            Exec(P, T, n, [LdrSlot(0, i), BlRt(rt)], s) ==
              match RtCall(P, n, rt, s1.regs, s1.w)
              case RtStop(why) => Halt(why)
              case RtVal(v, w) => Fall(After(s1, v, w))
              case RtVoid(w) => Fall(AfterVoid(s1, w))
  {
    hide Exec, RtCall;
    Front(P, T, n, LdrSlot(0, i), [BlRt(rt)], s);
    assert [LdrSlot(0, i)] + [BlRt(rt)] == [LdrSlot(0, i), BlRt(rt)];
    OneRt(P, T, n, rt, SetReg(s, 0, s.slots[i]));
  }

  lemma {:induction false} ReuseParts(P: Prog, id: int, sc: Scope, ns: nat, endl: Label, e: OExpr)
    returns (i: nat, g: Gen)
    requires Ce(P, id, sc, ns, endl, e).Some? && e.ODropReuse?
    ensures SlotOf(sc, e.x) == Some(i) && ns < SLOTS && Ce(P, id, [(e.tok, ns)] + sc, ns + 1, endl, e.rest) == Some(g)
    ensures Ce(P, id, sc, ns, endl, e).value.code == [LdrSlot(0, i), BlRt(DcDropReuse)] + [StrSlot(0, ns)] + g.code
  {
    hide SlotOf;
    i := SlotOf(sc, e.x).value;
    g := Ce(P, id, [(e.tok, ns)] + sc, ns + 1, endl, e.rest).value;
  }

  lemma {:induction false} ReuseEv(P: Prog, n: nat, id: int, env: Env, w: World, e: OExpr)
    requires e.ODropReuse?
    ensures Ev(P, n, id, env, w, e) ==
      if e.x !in env then Stop(Stuck)
      else match RtDropReuse(w, env[e.x])
        case Stop(why) => Stop(why)
        case Done(t, w1) => Ev(P, n, id, env[e.tok := t], w1, e.rest)
  {
    hide RtDropReuse;
  }

  lemma {:induction false} ReuseRuns(P: Prog, T: Code, n: nat, id: int, sc: Scope, ns: nat, env: Env, s: MState,
                                     endl: Label, e: OExpr)
    requires ExprLits(e)
    requires Start(P, T, sc, ns, env, s) && Ce(P, id, sc, ns, endl, e).Some? && Older(endl, id) && e.ODropReuse?
    ensures ExprOk(s, ns, endl, Ev(P, n, id, env, s.w, e), Exec(P, T, n, The(Ce(P, id, sc, ns, endl, e)).code, s))
    decreases n, 1, e, 1
  {
    hide Exec, Start, HeapOk, ExprOk, SlotOf, RtDropReuse, Ce, Ev;
    var x, tok := e.x, e.tok;
    var sc1 := [(tok, ns)] + sc;
    var i, g := ReuseParts(P, id, sc, ns, endl, e);
    ReuseEv(P, n, id, env, s.w, e);
    var head := [LdrSlot(0, i), BlRt(DcDropReuse)];
    StuckExpr(s, ns, endl, Exec(P, T, n, head + [StrSlot(0, ns)] + g.code, s));
    if x in env {
      VarInSlot(P, T, sc, ns, env, s, x);
      CallOn(P, T, n, s, i, DcDropReuse);
      StartFacts(P, T, sc, ns, env, s);
      var r := RtDropReuse(s.w, env[x]);
      DropReuseHeap(s.w, env[x]);
      match r
      case Stop(why) =>
        SeqHalt(P, T, n, head, [StrSlot(0, ns)], s);
        ExprHalts(P, T, n, head + [StrSlot(0, ns)], g.code, s, ns, endl, why);
      case Done(t, w1) =>
        var s2 := LetBinds(P, T, n, sc, ns, env, s, tok, head, t, w1);
        CeRuns(P, T, n, id, sc1, ns + 1, env[tok := t], s2, endl, e.rest);
        ExprAfter(P, T, n, head + [StrSlot(0, ns)], g.code, s, s2, ns, ns + 1, endl,
            Ev(P, n, id, env[tok := t], w1, e.rest));
    }
  }

  // ---------- case ----------

  lemma {:induction false} CaseParts(P: Prog, id: int, sc: Scope, ns: nat, endl: Label, e: OExpr)
    returns (at: AtSlot, g: Gen)
    requires Ce(P, id, sc, ns, endl, e).Some? && e.OCase?
    ensures AtomSlot(P, id, sc, ns, e.scrut) == Some(at) && Cases(P, at.id, sc, at.ns, at.slot, e.brs, endl) == Some(g)
    ensures Ce(P, id, sc, ns, endl, e) == Some(Gen(at.code + g.code, g.id))
  {
    hide AtomSlot, Cases;
    at := AtomSlot(P, id, sc, ns, e.scrut).value;
    g := Cases(P, at.id, sc, at.ns, at.slot, e.brs, endl).value;
  }

  lemma {:induction false} CaseEv(P: Prog, n: nat, id: int, env: Env, w: World, e: OExpr)
    requires e.OCase?
    ensures Ev(P, n, id, env, w, e) == match AtomVal(P, id, env, w, e.scrut)
      case None => Stop(Stuck)
      case Some(v) => EvBrs(P, n, id + AtomIds(e.scrut), env, w, v, e.brs)
  {
    hide AtomVal, EvBrs;
  }

  lemma {:induction false} CaseRuns(P: Prog, T: Code, n: nat, id: int, sc: Scope, ns: nat, env: Env, s: MState,
                                    endl: Label, e: OExpr)
    requires ExprLits(e)
    requires Start(P, T, sc, ns, env, s) && Ce(P, id, sc, ns, endl, e).Some? && Older(endl, id) && e.OCase?
    ensures ExprOk(s, ns, endl, Ev(P, n, id, env, s.w, e), Exec(P, T, n, The(Ce(P, id, sc, ns, endl, e)).code, s))
    decreases n, 1, e, 1
  {
    hide Exec, Start, HeapOk, ExprOk, AtomVal, AtomSlot, Ce, Ev, Cases, EvBrs, AtomLits;
    var a, brs := e.scrut, e.brs;
    var at, g := CaseParts(P, id, sc, ns, endl, e);
    CaseEv(P, n, id, env, s.w, e);
    StuckExpr(s, ns, endl, Exec(P, T, n, at.code + g.code, s));
    if AtomVal(P, id, env, s.w, a).Some? {
      var v := AtomVal(P, id, env, s.w, a).value;
      var s1 := ScrutRuns(P, T, n, id, sc, ns, env, s, a, v);
      CasesRun(P, T, n, at.id, sc, at.ns, at.slot, env, s1, v, brs, endl);
      ExprAfter(P, T, n, at.code, g.code, s, s1, ns, at.ns, endl, EvBrs(P, n, at.id, env, s1.w, v, brs));
    }
  }

  lemma {:induction false} ScrutRuns(P: Prog, T: Code, n: nat, id: int, sc: Scope, ns: nat, env: Env, s: MState,
                                     a: OAtom, v: Word)
    returns (s1: MState)
    requires AtomLits(a)
    requires Start(P, T, sc, ns, env, s) && AtomSlot(P, id, sc, ns, a).Some? && AtomVal(P, id, env, s.w, a) == Some(v)
    ensures var at := The(AtomSlot(P, id, sc, ns, a));
            && Exec(P, T, n, at.code, s) == Fall(s1) && s1.w == s.w && Below(s1.slots, s.slots, ns)
               && at.id == id + AtomIds(a)
            && Start(P, T, sc, at.ns, env, s1) && at.slot < at.ns && ns <= at.ns && at.slot < |s1.slots|
               && AtIndex(s1.slots, at.slot) == v
  {
    hide Exec, HeapOk, Linked, ImageOk, SlotOf, LdAtom;
    if a.AVar? {
      s1 := s;
      ExecNone(P, T, n, s);
    } else {
      var g := LdAtom(P, id, sc, 0, a).value;
      AtomRuns(P, T, n, id, sc, ns, env, s, 0, a, v);
      var s0 := Exec(P, T, n, g.code, s).s;
      SeqFall(P, T, n, g.code, [StrSlot(0, ns)], s, s0);
      One(P, T, n, StrSlot(0, ns), s0);
      s1 := s0.(slots := s0.slots[ns := v]);
      ScopeTmp(sc, ns, env, s.slots, v);
    }
  }

  lemma {:induction false} CasesRun(P: Prog, T: Code, n: nat, id: int, sc: Scope, ns: nat, base: nat, env: Env,
                                    s: MState, v: Word, brs: seq<OBranch>, endl: Label)
    requires BrsLits(brs)
    requires Start(P, T, sc, ns, env, s) && Cases(P, id, sc, ns, base, brs, endl).Some? && Older(endl, id)
    requires base < ns && base < |s.slots| && AtIndex(s.slots, base) == v
    ensures ExprOk(s, ns, endl, EvBrs(P, n, id, env, s.w, v, brs),
        Exec(P, T, n, The(Cases(P, id, sc, ns, base, brs, endl)).code, s))
    decreases n, 1, brs, 1
  {
    hide Exec, Start, HeapOk, ExprOk, Ce, Ev;
    if brs == [] {
      CallOn(P, T, n, s, base, DcMatchFail);
      FailOk(s, ns, endl);
    } else {
      BranchRuns(P, T, n, id, sc, ns, base, env, s, v, brs, endl);
    }
  }

  lemma {:induction false} FailOk(s: MState, ns: nat, endl: Label)
    ensures ExprOk(s, ns, endl, Stop(NoMatch), Halt(NoMatch))
  {
  }

  lemma {:induction false} BranchRuns(P: Prog, T: Code, n: nat, id: int, sc: Scope, ns: nat, base: nat, env: Env,
                                      s: MState, v: Word, brs: seq<OBranch>, endl: Label)
    requires BrsLits(brs)
    requires Start(P, T, sc, ns, env, s) && Cases(P, id, sc, ns, base, brs, endl).Some? && Older(endl, id) && brs != []
    requires base < ns && base < |s.slots| && AtIndex(s.slots, base) == v
    ensures ExprOk(s, ns, endl, EvBrs(P, n, id, env, s.w, v, brs),
        Exec(P, T, n, The(Cases(P, id, sc, ns, base, brs, endl)).code, s))
    decreases n, 1, brs, 0
  {
    hide Exec, Start, HeapOk, ExprOk, Ce, Ev, EvBrs, Cm, MatchPat, Cases, CmOk;
    var br := brs[0];
    assert brs decreases to br;
    var l := Loc(KNext, id);
    var m, b, rest := CasesParts(P, id, sc, ns, base, brs, endl);
    var pre, tail := [LdrSlot(0, base)] + m.code, [Lbl(l)] + rest.code;
    var code := pre + b.code + [Lbl(l)] + rest.code;
    assert code == pre + b.code + tail;
    BranchEv(P, n, id, env, s.w, v, brs);
    HeadRuns(P, T, n, id, sc, ns, base, env, s, v, br.pat, l);
    CeLabels(P, m.id, m.sc, m.ns, endl, br.body);
    CasesLabels(P, b.id, sc, ns, base, brs[1..], endl);
    var r := MatchPat(P, n, id + 1, env, s.w.heap, br.pat, v);
    match r
    case Yes(env1) =>
      var s1 := HeadFalls(P, T, n, sc, ns, env, s, m, l, env1, Exec(P, T, n, pre, s));
      CeRuns(P, T, n, m.id, m.sc, m.ns, env1, s1, endl, br.body);
      var q := Ev(P, n, m.id, env1, s1.w, br.body);
      ExprAfter(P, T, n, pre, b.code, s, s1, ns, m.ns, endl, q);
      ElseNot(l, rest.code, b.id, rest.id, endl, id);
      ExprSkip(P, T, n, pre + b.code, tail, s, ns, endl, q);
    case No =>
      var s1 := HeadFails(P, T, n, sc, ns, env, s, m, l, Exec(P, T, n, pre, s));
      NotOwnLabel(b.code, m.id, b.id, l);
      SeqGoto(P, T, n, pre, b.code, s);
      SeqLand(P, T, n, pre + b.code, s, l, rest.code);
      BaseKept(s1, s, ns, base);
      CasesRun(P, T, n, b.id, sc, ns, base, env, s1, v, brs[1..], endl);
      ExprMoved(s, s1, ns, endl, EvBrs(P, n, b.id, env, s1.w, v, brs[1..]), Exec(P, T, n, rest.code, s1));
    case MStop(why) =>
      HeadStops(s, ns, m, l, why, Exec(P, T, n, pre, s));
      if Compared(why) { SeqHalt(P, T, n, pre, b.code, s); }
      ExprHalts(P, T, n, pre + b.code, tail, s, ns, endl, why);
  }

  lemma {:induction false} CasesParts(P: Prog, id: int, sc: Scope, ns: nat, base: nat, brs: seq<OBranch>, endl: Label)
    returns (m: Match, b: Gen, rest: Gen)
    requires Cases(P, id, sc, ns, base, brs, endl).Some? && brs != []
    ensures Cm(P, id + 1, sc, ns, brs[0].pat, 0, Loc(KNext, id)) == Some(m)
    ensures Ce(P, m.id, m.sc, m.ns, endl, brs[0].body) == Some(b)
    ensures Cases(P, b.id, sc, ns, base, brs[1..], endl) == Some(rest)
    ensures Cases(P, id, sc, ns, base, brs, endl).value.code
         == [LdrSlot(0, base)] + m.code + b.code + [Lbl(Loc(KNext, id))] + rest.code
    ensures m.id == id + 1 + PatIds(brs[0].pat) && b.id == m.id + ExprIds(brs[0].body) && m.ns >= ns
  {
    hide Cm, Ce;
    m := Cm(P, id + 1, sc, ns, brs[0].pat, 0, Loc(KNext, id)).value;
    b := Ce(P, m.id, m.sc, m.ns, endl, brs[0].body).value;
    rest := Cases(P, b.id, sc, ns, base, brs[1..], endl).value;
  }

  lemma {:induction false} BranchEv(P: Prog, n: nat, pt: int, env: Env, w: World, v: Word, brs: seq<OBranch>)
    requires brs != []
    ensures EvBrs(P, n, pt, env, w, v, brs) ==
      match MatchPat(P, n, pt + 1, env, w.heap, brs[0].pat, v)
      case Yes(env1) => Ev(P, n, pt + 1 + PatIds(brs[0].pat), env1, w, brs[0].body)
      case No => EvBrs(P, n, pt + 1 + PatIds(brs[0].pat) + ExprIds(brs[0].body), env, w, v, brs[1..])
      case MStop(why) => Stop(why)
  {
    hide MatchPat, Ev;
  }

  // The scrutinee reloaded and matched.
  lemma {:induction false} HeadRuns(P: Prog, T: Code, n: nat, id: int, sc: Scope, ns: nat, base: nat, env: Env,
                                    s: MState, v: Word, pat: Pat, l: Label)
    requires PatLits(pat)
    requires Start(P, T, sc, ns, env, s) && base < |s.slots| && AtIndex(s.slots, base) == v
    requires Cm(P, id + 1, sc, ns, pat, 0, l).Some?
    ensures var m := The(Cm(P, id + 1, sc, ns, pat, 0, l));
            CmOk(s, ns, m.sc, m.ns, l, MatchPat(P, n, id + 1, env, s.w.heap, pat, v),
                Exec(P, T, n, [LdrSlot(0, base)] + m.code, s))
  {
    hide Exec, Start, HeapOk, Cm, MatchPat, ScopeOk;
    StartFacts(P, T, sc, ns, env, s);
    var m := Cm(P, id + 1, sc, ns, pat, 0, l).value;
    var s1 := SetReg(s, 0, v);
    One(P, T, n, LdrSlot(0, base), s);
    SeqFall(P, T, n, [LdrSlot(0, base)], m.code, s, s1);
    CmRuns(P, T, n, id + 1, sc, ns, env, s1, pat, 0, v, l);
    CmWeaken(s, s1, ns, ns, m.sc, m.ns, l, MatchPat(P, n, id + 1, env, s.w.heap, pat, v), Exec(P, T, n, m.code, s1));
  }

  lemma {:induction false} HeadFalls(P: Prog, T: Code, n: nat, sc: Scope, ns: nat, env: Env, s: MState, m: Match,
                                     l: Label, env1: Env, o: Out) returns (s1: MState)
    requires Start(P, T, sc, ns, env, s) && CmOk(s, ns, m.sc, m.ns, l, Yes(env1), o)
    ensures o == Fall(s1) && Start(P, T, m.sc, m.ns, env1, s1) && s1.w == s.w && Below(s1.slots, s.slots, ns)
  {
    hide HeapOk, Linked, ImageOk, ScopeOk;
    s1 := o.s;
  }

  lemma {:induction false} HeadFails(P: Prog, T: Code, n: nat, sc: Scope, ns: nat, env: Env, s: MState, m: Match,
                                     l: Label, o: Out)
    returns (s1: MState)
    requires Start(P, T, sc, ns, env, s) && CmOk(s, ns, m.sc, m.ns, l, No, o)
    ensures o == Goto(l, s1) && Start(P, T, sc, ns, env, s1) && s1.w == s.w && Below(s1.slots, s.slots, ns)
  {
    hide Start, HeapOk;
    s1 := o.s;
    StartFacts(P, T, sc, ns, env, s);
    StartAfter(P, T, sc, ns, env, s, s1);
  }

  lemma {:induction false} BaseKept(s1: MState, s: MState, ns: nat, base: nat)
    requires Below(s1.slots, s.slots, ns) && base < ns && base < |s.slots|
    ensures base < |s1.slots| && s1.slots[base] == s.slots[base]
  {
  }

  lemma {:induction false} HeadStops(s: MState, ns: nat, m: Match, l: Label, why: Why, o: Out)
    requires CmOk(s, ns, m.sc, m.ns, l, MStop(why), o)
    ensures Compared(why) ==> o == Halt(why)
  {
  }

  // ---------- primitives ----------

  lemma {:induction false} PrimRuns(P: Prog, T: Code, n: nat, id: int, sc: Scope, ns: nat, env: Env, s: MState,
                                    p: OPrim)
    requires PrimLits(p)
    requires Start(P, T, sc, ns, env, s) && Prim(P, id, sc, ns, p).Some?
    ensures PrimOk(s, ns, EvPrim(P, n, id, env, s.w, p), Exec(P, T, n, The(Prim(P, id, sc, ns, p)).code, s))
    decreases n, 1, p, 1
  {
    hide Exec, Start, PrimOk, Operands, LamCode, EvAtoms, BuildWith, MkClosure, Ce, Ev;
    match p
    case PAtom(a) => AtomPrimRuns(P, T, n, id, sc, ns, env, s, a);
    case PApp(f, a) => AppRuns(P, T, n, id, sc, ns, env, s, f, a);
    case PCall(f, args) => DirectCallRuns(P, T, n, id, sc, ns, env, s, f, args);
    case PBi(name, args) => BiPrimRuns(P, T, n, id, sc, ns, env, s, name, args);
    case PMkCtor(c, args, tok) => CtorPrimRuns(P, T, n, id, sc, ns, env, s, c, args, tok);
    case PMkTup(args, tok) => TupPrimRuns(P, T, n, id, sc, ns, env, s, args, tok);
    case PLam(_, _, _) => LamPrimRuns(P, T, n, id, sc, ns, env, s, p);
    case PBin(op, a, b) => BinPrimRuns(P, T, n, id, sc, ns, env, s, op, a, b);
    case PBlock(e) => BlockRuns(P, T, n, id, sc, ns, env, s, e);
  }

  lemma {:induction false} BlockRuns(P: Prog, T: Code, n: nat, id: int, sc: Scope, ns: nat, env: Env, s: MState,
                                     e: OExpr)
    requires ExprLits(e)
    requires Start(P, T, sc, ns, env, s) && Prim(P, id, sc, ns, PBlock(e)).Some?
    ensures PrimOk(s, ns, EvPrim(P, n, id, env, s.w, PBlock(e)),
        Exec(P, T, n, The(Prim(P, id, sc, ns, PBlock(e))).code, s))
    decreases n, 1, PBlock(e), 0
  {
    hide Exec, Start, Ce, Ev, HeapOk;
    var l := Loc(KBlock, id);
    var g := Ce(P, id + 1, sc, ns, l, e).value;
    CeRuns(P, T, n, id + 1, sc, ns, env, s, l, e);
    var r := Ev(P, n, id + 1, env, s.w, e);
    assert g.code + [Lbl(l)] + [] == g.code + [Lbl(l)];
    if r.Done? {
      SeqLand(P, T, n, g.code, s, l, []);
      ExecNone(P, T, n, Exec(P, T, n, g.code, s).s);
    } else if Compared(r.why) {
      SeqHalt(P, T, n, g.code, [Lbl(l)], s);
    }
  }

  lemma {:induction false} PairLits(a: OAtom, b: OAtom)
    ensures AtomsLits([a, b]) <==> AtomLits(a) && AtomLits(b)
  {
    assert AtomsLits([a, b]) ==> a in [a, b] && b in [a, b];
  }

  lemma {:induction false} AppRuns(P: Prog, T: Code, n: nat, id: int, sc: Scope, ns: nat, env: Env, s: MState,
                                   f: OAtom, a: OAtom)
    requires AtomLits(f) && AtomLits(a)
    requires Start(P, T, sc, ns, env, s) && Prim(P, id, sc, ns, PApp(f, a)).Some?
    ensures PrimOk(s, ns, EvPrim(P, n, id, env, s.w, PApp(f, a)),
        Exec(P, T, n, The(Prim(P, id, sc, ns, PApp(f, a))).code, s))
    decreases n, 1, PApp(f, a), 0
  {
    hide Exec, Start, Operands, EvAtoms, HeapOk, EvClosure, ValueOk, Ready, AtomsLits, Below, ScopeOk;
    var code, call := Operands(P, id, sc, ns, [f, a], [false, true]).value.code, [LdrOff(9, 0, 8), Blr(9)];
    StartFacts(P, T, sc, ns, env, s);
    PairLits(f, a);
    OperandsRun(P, T, n, id, sc, ns, env, s, [f, a], [false, true]);
    AtomsHeap(P, id, env, s.w, [f, a], [false, true]);
    var r := EvAtoms(P, id, env, s.w, [f, a], [false, true]);
    match r
    case VStop(why) => ValueHalts(P, T, n, code, call, s, ns, why);
    case Vals(vs, w1) =>
      AtomsCount(P, id, env, s.w, [f, a], [false, true]);
      var s1 := Exec(P, T, n, code, s).s;
      StartAfter(P, T, sc, ns, env, s, s1);
      StartFacts(P, T, sc, ns, env, s1);
      BlrRuns(P, T, n, s1, vs[0], vs[1]);
      SlotsKeep(s, s1, ns);
      ValueAfter(P, T, n, code, call, s, s1, ns, Applied(P, n, w1, vs[0], vs[1]));
  }

  lemma {:induction false} SlotsKeep(s: MState, s1: MState, ns: nat)
    requires Below(s1.slots, s.slots, ns)
    ensures |s1.slots| == |s.slots|
  {
  }

  // What PApp does with its operands.
  ghost function Applied(P: Prog, n: nat, w: World, clo: Word, arg: Word): Res {
    if !IsRef(clo) then Stop(Stuck)
    else if clo !in w.heap then Stop(Corrupt)
    else if !IsClosure(w.heap[clo]) then Stop(Stuck)
    else if n == 0 then Stop(OutOfFuel)
    else EvClosure(P, n - 1, w, clo, arg)
  }

  lemma {:induction false} BlrRuns(P: Prog, T: Code, n: nat, s: MState, clo: Word, arg: Word)
    requires Ready(P, T) && HeapOk(s.w.heap) && |s.slots| == SLOTS
    requires 0 in s.regs && 1 in s.regs && Reg(s, 0) == clo && Reg(s, 1) == arg
    ensures PrimOk(s, SLOTS, Applied(P, n, s.w, clo, arg), Exec(P, T, n, [LdrOff(9, 0, 8), Blr(9)], s))
    decreases n, 0
  {
    hide Ready, HeapOk, EvClosure, CallCode, Exec;
    var r := Applied(P, n, s.w, clo, arg);
    assert [LdrOff(9, 0, 8)] + [Blr(9)] == [LdrOff(9, 0, 8), Blr(9)];
    Front(P, T, n, LdrOff(9, 0, 8), [Blr(9)], s);
    if IsRef(clo) && clo in s.w.heap && IsClosure(s.w.heap[clo]) {
      var c := s.w.heap[clo].words[0];
      var s1 := SetReg(s, 9, c);
      assert [Blr(9)] + [] == [Blr(9)];
      CallIs(P, T, n, Blr(9), [], s1);
      if n > 0 {
        CallCodeAgrees(P, T, n - 1, s.w, clo, arg);
        if r.Done? { ExecNone(P, T, n, After(s1, r.v, r.w)); }
      }
    }
  }

  lemma {:induction false} DirectCallRuns(P: Prog, T: Code, n: nat, id: int, sc: Scope, ns: nat, env: Env, s: MState,
                                          f: string, args: seq<OAtom>)
    requires AtomsLits(args)
    requires Start(P, T, sc, ns, env, s) && Prim(P, id, sc, ns, PCall(f, args)).Some?
    ensures PrimOk(s, ns, EvPrim(P, n, id, env, s.w, PCall(f, args)),
        Exec(P, T, n, The(Prim(P, id, sc, ns, PCall(f, args))).code, s))
    decreases n, 1, PCall(f, args), 0
  {
    hide Exec, Start, Operands, EvAtoms, HeapOk, EvDirect, ValueOk, Ready, AtomsLits, Below, ScopeOk;
    var modes := P.defs[f].modes;
    var code, call := Operands(P, id, sc, ns, args, modes).value.code, [Bl(Direct(f))];
    StartFacts(P, T, sc, ns, env, s);
    OperandsRun(P, T, n, id, sc, ns, env, s, args, modes);
    AtomsHeap(P, id, env, s.w, args, modes);
    var r := EvAtoms(P, id, env, s.w, args, modes);
    match r
    case VStop(why) => ValueHalts(P, T, n, code, call, s, ns, why);
    case Vals(vs, w1) =>
      var s1 := Exec(P, T, n, code, s).s;
      StartAfter(P, T, sc, ns, env, s, s1);
      StartFacts(P, T, sc, ns, env, s1);
      BlRuns(P, T, n, s1, f, vs);
      SlotsKeep(s, s1, ns);
      ValueAfter(P, T, n, code, call, s, s1, ns, if n == 0 then Stop(OutOfFuel) else EvDirect(P, n - 1, w1, f, vs));
  }

  lemma {:induction false} BlRuns(P: Prog, T: Code, n: nat, s: MState, f: string, vs: seq<Word>)
    requires Ready(P, T) && HeapOk(s.w.heap) && |s.slots| == SLOTS && f in P.defs && P.defs[f].direct
    requires forall i :: 0 <= i < |vs| ==> i in s.regs && s.regs[i] == vs[i]
    ensures PrimOk(s, SLOTS, if n == 0 then Stop(OutOfFuel)
        else EvDirect(P, n - 1, s.w, f, vs), Exec(P, T, n, [Bl(Direct(f))], s))
    decreases n, 0
  {
    hide Ready, HeapOk, EvDirect, RunFn;
    assert [Bl(Direct(f))][1..] == [];
    if n > 0 {
      DirectAgrees(P, T, n - 1, s.regs, s.w, f, vs);
      var r := EvDirect(P, n - 1, s.w, f, vs);
      if r.Done? { ExecNone(P, T, n, After(s, r.v, r.w)); }
    }
  }

  // ---------- routines ----------

  // From a body's outcome to the routine's result: the end label leads to the
  // epilogue, the failure label to dc_match_fail.
  lemma {:induction false} BodyReturns(P: Prog, T: Code, n: nat, pre: Code, body: Code, id: int, rest: Code,
                                       s: MState, s1: MState, ns: nat, r: Res)
    requires Exec(P, T, n, pre, s) == Fall(s1) && ExprOk(s1, ns, Loc(KEnd, id), r, Exec(P, T, n, body, s1))
    ensures var o := Exec(P, T, n, pre + body + [Lbl(Loc(KEnd, id)), Epilogue] + rest, s);
            match r case Done(v, w1) => o == Return(v, w1) case Stop(why) => Compared(why) ==> o == Halt(why)
  {
    hide Exec, HeapOk;
    var l := Loc(KEnd, id);
    SeqFall(P, T, n, pre, body, s, s1);
    var a := pre + body;
    assert a + [Lbl(l), Epilogue] + rest == a + [Lbl(l)] + ([Epilogue] + rest);
    if r.Done? {
      SeqLand(P, T, n, a, s, l, [Epilogue] + rest);
      EpilogueReturns(P, T, n, Exec(P, T, n, a, s).s, rest);
    } else if Compared(r.why) {
      SeqHalt(P, T, n, a, [Lbl(l)] + ([Epilogue] + rest), s);
      assert a + ([Lbl(l)] + ([Epilogue] + rest)) == a + [Lbl(l)] + ([Epilogue] + rest);
    }
  }

  lemma {:induction false} EpilogueReturns(P: Prog, T: Code, n: nat, s: MState, rest: Code)
    requires 0 in s.regs
    ensures Exec(P, T, n, [Epilogue] + rest, s) == Return(Reg(s, 0), s.w)
  {
    assert ([Epilogue] + rest)[0] == Epilogue;
  }

  lemma {:induction false} FailHalts(P: Prog, T: Code, n: nat, a: Code, id: int, rest: Code, s: MState)
    requires var o := Exec(P, T, n, a, s); o.Goto? && o.l == Loc(KFail, id)
    ensures Exec(P, T, n, a + [Lbl(Loc(KFail, id)), BlRt(DcMatchFail)] + rest, s) == Halt(NoMatch)
  {
    hide Exec;
    var l := Loc(KFail, id);
    var s1 := Exec(P, T, n, a, s).s;
    assert a + [Lbl(l), BlRt(DcMatchFail)] + rest == a + [Lbl(l)] + ([BlRt(DcMatchFail)] + rest);
    SeqLand(P, T, n, a, s, l, [BlRt(DcMatchFail)] + rest);
    OneRt(P, T, n, DcMatchFail, s1);
    SeqHalt(P, T, n, [BlRt(DcMatchFail)], rest, s1);
  }

  // A matched parameter list or pattern, then a body, as both kinds of routine
  // end.
  lemma {:induction false} BodyRuns(P: Prog, T: Code, n: nat, id: int, env: Env, s: MState, pre: Code, m: Match,
                                    ns: nat, mr: MatchRes, body: OExpr, rest: Code)
    requires ExprLits(body)
    requires Ready(P, T) && HeapOk(s.w.heap) && CmOk(s, ns, m.sc, m.ns, Loc(KFail, id), mr, Exec(P, T, n, pre, s))
    requires id < m.id && Ce(P, m.id, m.sc, m.ns, Loc(KEnd, id), body).Some?
    ensures var g := The(Ce(P, m.id, m.sc, m.ns, Loc(KEnd, id), body));
            var o := Exec(P, T, n, pre + g.code + [Lbl(Loc(KEnd, id)), Epilogue]
                + [Lbl(Loc(KFail, id)), BlRt(DcMatchFail)] + rest, s);
            var r := match mr case Yes(env1) => Ev(P, n, m.id, env1, s.w, body) case No => Stop(NoMatch)
                case MStop(why) => Stop(why);
            && (match r case Done(v, w1) => o == Return(v, w1) case Stop(why) => Compared(why) ==> o == Halt(why))
            && Small(r)
    decreases n, 1, body, 3
  {
    hide Exec, HeapOk, Ready, ScopeOk, Ce, Ev, Small;
    var g := Ce(P, m.id, m.sc, m.ns, Loc(KEnd, id), body).value;
    var e2 := [Lbl(Loc(KFail, id)), BlRt(DcMatchFail)];
    match mr
    case Yes(env1) =>
      var s1 := Exec(P, T, n, pre, s).s;
      assert Start(P, T, m.sc, m.ns, env1, s1);
      CeRuns(P, T, n, m.id, m.sc, m.ns, env1, s1, Loc(KEnd, id), body);
      var r := Ev(P, n, m.id, env1, s1.w, body);
      BodyReturns(P, T, n, pre, g.code, id, e2 + rest, s, s1, m.ns, r);
      assert pre + g.code + [Lbl(Loc(KEnd, id)), Epilogue] + (e2 + rest)
          == pre + g.code + [Lbl(Loc(KEnd, id)), Epilogue] + e2 + rest;
      SmallExpr(s1, m.ns, Loc(KEnd, id), r, Exec(P, T, n, g.code, s1));
    case No =>
      CeLabels(P, m.id, m.sc, m.ns, Loc(KEnd, id), body);
      NotOwnLabel(g.code, m.id, g.id, Loc(KFail, id));
      SeqGoto(P, T, n, pre, g.code, s);
      SeqGoto(P, T, n, pre + g.code, [Lbl(Loc(KEnd, id)), Epilogue], s);
      FailHalts(P, T, n, pre + g.code + [Lbl(Loc(KEnd, id)), Epilogue], id, rest, s);
      SmallStop(NoMatch);
    case MStop(why) =>
      SmallStop(why);
      if Compared(why) {
        SeqHalt(P, T, n, pre, g.code, s);
        SeqHalt(P, T, n, pre + g.code, [Lbl(Loc(KEnd, id)), Epilogue], s);
        SeqHalt(P, T, n, pre + g.code + [Lbl(Loc(KEnd, id)), Epilogue], e2, s);
        SeqHalt(P, T, n, pre + g.code + [Lbl(Loc(KEnd, id)), Epilogue] + e2, rest, s);
      }
  }

  lemma {:induction false} SmallExpr(s: MState, ns: nat, endl: Label, r: Res, o: Out)
    requires ExprOk(s, ns, endl, r, o)
    ensures Small(r)
  {
  }

  lemma {:induction false} SmallStop(why: Why)
    ensures Small(Stop(why))
  {
  }

  // ---------- lambdas ----------

  lemma {:induction false} ZipScope(xs: seq<string>, vs: seq<Word>, i: nat, slots: seq<Word>)
    requires |xs| == |vs| && i + |xs| <= SLOTS == |slots| && slots[i..i + |xs|] == vs
    ensures forall x :: (x in Zip(xs, vs) <==> SlotOf(ZipSlots(xs, i), x).Some?) &&
                        (x in Zip(xs, vs) ==> SlotOf(ZipSlots(xs, i), x).value < i + |xs|
                                              && slots[SlotOf(ZipSlots(xs, i), x).value] == Zip(xs, vs)[x])
    decreases |xs|
  {
    if xs != [] {
      assert slots[i + 1..i + |xs|] == vs[1..];
      ZipScope(xs[1..], vs[1..], i + 1, slots);
      assert ZipSlots(xs, i)[1..] == ZipSlots(xs[1..], i + 1);
      assert slots[i] == vs[0];
    }
  }

  lemma {:induction false} PlacedAt(P: Prog, T: Code, n: nat, l: Label, body: Code, x: Regs, w: World)
    returns (rest: Code)
    requires Placed(T, l, body)
    ensures RunFn(P, T, n, l, x, w) == match Exec(P, T, n, body + rest, MState(x, Junk(P, w), None, w))
      case Return(v, w1) => Done(v, w1)
      case Halt(why) => Stop(why)
      case _ => Stop(Stuck)
  {
    hide Exec;
    rest :| Seek(T, l) == Some(body + rest);
  }

  lemma {:induction false} LamAgrees(P: Prog, T: Code, n: nat, w: World, id: int, clo: Word, arg: Word)
    requires Ready(P, T) && HeapOk(w.heap) && IsRef(clo) && clo in w.heap && IsClosure(w.heap[clo])
    ensures Agree(EvLam(P, n, w, id, w.heap[clo].words[2..], arg),
        RunFn(P, T, n, Loc(KLam, id), map[0 := clo, 1 := arg], w))
    decreases n, 2
  {
    hide Exec, HeapOk, Ready, ScopeOk, Ce, Ev, Cm, MatchPat, CmOk, RunFn, LdEnv, IsRef;
    var captured := w.heap[clo].words[2..];
    SmallStop(Stuck);
    if id in P.lams && |P.lams[id].caps| == |captured| {
      var lam := P.lams[id];
      LamLinked(P, T, id);
      var k := |lam.caps|;
      var env := LdEnv(0, k).value;
      var m := Cm(P, id + 1, ZipSlots(lam.caps, 0), k, lam.pat, 1, Loc(KFail, id)).value;
      var rest := PlacedAt(P, T, n, Loc(KLam, id), LamBody(P, id, lam.pat, lam.body, lam.caps).value.code,
          map[0 := clo, 1 := arg], w);
      var s := MState(map[0 := clo, 1 := arg], Junk(P, w), None, w);
      var s1 := LamEnters(P, T, n, w, id, lam, clo, arg, s);
      var pre := [Prologue] + env + m.code;
      SeqFall(P, T, n, [Prologue] + env, m.code, s, s1);
      ReadyImage(P, T);
      CmRuns(P, T, n, id + 1, ZipSlots(lam.caps, 0), k, Zip(lam.caps, captured), s1, lam.pat, 1, arg, Loc(KFail, id));
      var mr := MatchPat(P, n, id + 1, Zip(lam.caps, captured), w.heap, lam.pat, arg);
      CmFrom0(s, s1, k, m, Loc(KFail, id), mr, Exec(P, T, n, pre, s));
      BodyRuns(P, T, n, id, Zip(lam.caps, captured), s, pre, m, 0, mr, lam.body, rest);
    }
  }

  lemma {:induction false} ReadyImage(P: Prog, T: Code)
    requires Ready(P, T)
    ensures ImageOk(P)
  {
  }

  lemma {:induction false} DefReady(P: Prog, T: Code, f: string)
    requires Ready(P, T) && f in P.defs
    ensures DefLits(AtKey(P.defs, f))
  {
    hide ImageOk, Linked, DefLits;
  }

  lemma {:induction false} LamLinked(P: Prog, T: Code, id: int)
    requires Ready(P, T) && id in P.lams
    ensures var lam := AtKey(P.lams, id); var g := LamBody(P, id, lam.pat, lam.body, lam.caps);
            g.Some? && Placed(T, Loc(KLam, id), The(g).code) && LamLits(lam)
  {
    hide LamBody, Placed, ImageOk, DefPlaced, LamLits;
    assert LamPlaced(P, T, id);
  }

  // No slot is promised to the caller.
  lemma {:induction false} CmFrom0(s: MState, s1: MState, ns: nat, m: Match, fl: Label, mr: MatchRes, o: Out)
    requires CmOk(s1, ns, m.sc, m.ns, fl, mr, o) && s1.w == s.w && |s1.slots| == |s.slots|
    ensures CmOk(s, 0, m.sc, m.ns, fl, mr, o)
  {
    hide ScopeOk;
  }

  lemma {:induction false} JunkSize(P: Prog, w: World)
    ensures |Junk(P, w)| == SLOTS
  {
  }

  // The prologue and the copy of the environment.
  lemma {:induction false} LamEnters(P: Prog, T: Code, n: nat, w: World, id: int, lam: Lam, clo: Word, arg: Word,
                                     s: MState)
    returns (s1: MState)
    requires IsRef(clo) && clo in w.heap && IsClosure(w.heap[clo]) && |lam.caps| == |w.heap[clo].words[2..]|
    requires s == MState(map[0 := clo, 1 := arg], Junk(P, w), None, w) && LdEnv(0, |lam.caps|).Some?
    ensures Exec(P, T, n, [Prologue] + LdEnv(0, |lam.caps|).value, s) == Fall(s1) && s1.w == w && |s1.slots| == SLOTS
    ensures 1 in s1.regs && s1.regs[1] == arg
    ensures ScopeOk(ZipSlots(lam.caps, 0), |lam.caps|, Zip(lam.caps, w.heap[clo].words[2..]), s1.slots)
  {
    hide Exec, LdEnv, IsRef, ZipSlots, Zip;
    var k, captured := |lam.caps|, w.heap[clo].words[2..];
    JunkSize(P, w);
    Front(P, T, n, Prologue, LdEnv(0, k).value, s);
    EnvRuns(P, T, n, s, 0, k, clo);
    s1 := Exec(P, T, n, LdEnv(0, k).value, s).s;
    assert s1.slots[0..0 + k] == captured;
    ZipScope(lam.caps, captured, 0, s1.slots);
  }

  // ---------- direct entries ----------

  // Register arguments to the first slots.
  lemma {:induction false} StoresRun(P: Prog, T: Code, n: nat, s: MState, i: nat, vs: seq<Word>)
    requires StoreArgs(i, |vs|).Some? && |s.slots| == SLOTS
    requires forall j :: 0 <= j < |vs| ==> j in s.regs && s.regs[j] == vs[j]
    ensures var o := Exec(P, T, n, StoreArgs(i, |vs|).value, s);
            && o.Fall? && o.s.w == s.w && |o.s.slots| == SLOTS
            && (forall j :: i <= j < |vs| && j < SLOTS ==> o.s.slots[j] == vs[j])
            && (forall j :: 0 <= j < i && j < SLOTS ==> o.s.slots[j] == s.slots[j])
    ensures i < |vs| ==> |vs| <= SLOTS
    decreases |vs| - i
  {
    hide Exec;
    if i >= |vs| {
      ExecNone(P, T, n, s);
    } else {
      One(P, T, n, StrSlot(i, i), s);
      var s1 := s.(slots := s.slots[i := vs[i]]);
      SeqFall(P, T, n, [StrSlot(i, i)], StoreArgs(i + 1, |vs|).value, s, s1);
      StoresRun(P, T, n, s1, i + 1, vs);
    }
  }

  lemma {:induction false} EmptyScope(ns: nat, slots: seq<Word>)
    requires |slots| == SLOTS && ns <= SLOTS
    ensures ScopeOk([], ns, map[], slots)
  {
  }

  // The prologue and the spill of the arguments.
  lemma {:induction false} DirectEnters(P: Prog, T: Code, n: nat, x: Regs, w: World, vs: seq<Word>) returns (s1: MState)
    requires StoreArgs(0, |vs|).Some? && forall i :: 0 <= i < |vs| ==> i in x && x[i] == vs[i]
    ensures Exec(P, T, n, [Prologue] + StoreArgs(0, |vs|).value, MState(x, Junk(P, w), None, w)) == Fall(s1)
    ensures s1.w == w && |s1.slots| == SLOTS && |vs| <= SLOTS && s1.slots[..|vs|] == vs
    ensures ScopeOk([], |vs|, map[], s1.slots)
  {
    hide Exec, ScopeOk, StoreArgs;
    var s := MState(x, Junk(P, w), None, w);
    JunkSize(P, w);
    var args := StoreArgs(0, |vs|).value;
    Front(P, T, n, Prologue, args, s);
    StoresRun(P, T, n, s, 0, vs);
    s1 := Exec(P, T, n, args, s).s;
    EmptyScope(|vs|, s1.slots);
  }

  lemma {:induction false} DirectAgrees(P: Prog, T: Code, n: nat, x: Regs, w: World, f: string, vs: seq<Word>)
    requires Ready(P, T) && HeapOk(w.heap) && f in P.defs && P.defs[f].direct
    requires forall i :: 0 <= i < |vs| ==> i in x && x[i] == vs[i]
    ensures Agree(EvDirect(P, n, w, f, vs), RunFn(P, T, n, Direct(f), x, w))
    decreases n, 2
  {
    hide Exec, HeapOk, Ready, ScopeOk, Ce, Ev, BindParams, MatchPats, CmOk, RunFn, StoreArgs;
    SmallStop(Stuck);
    if f in P.base && |P.defs[f].params| == |vs| {
      var d, id := P.defs[f], P.base[f];
      DirectLinked(P, T, f);
      DefReady(P, T, f);
      var m := BindParams(P, id + 1, [], |vs|, d.params, 0, Loc(KFail, id)).value;
      var rest := PlacedAt(P, T, n, Direct(f), FnnCode(P, id, d).value.code, x, w);
      var s := MState(x, Junk(P, w), None, w);
      var args := StoreArgs(0, |vs|).value;
      var s1 := DirectEnters(P, T, n, x, w, vs);
      var pre := [Prologue] + args + m.code;
      SeqFall(P, T, n, [Prologue] + args, m.code, s, s1);
      ReadyImage(P, T);
      assert s1.slots[0..0 + |vs|] == vs;
      ParamsRun(P, T, n, id + 1, [], |vs|, map[], s1, d.params, 0, vs, Loc(KFail, id));
      var mr := MatchPats(P, n, id + 1, map[], w.heap, d.params, vs);
      CmFrom0(s, s1, |vs|, m, Loc(KFail, id), mr, Exec(P, T, n, pre, s));
      BodyRuns(P, T, n, id, map[], s, pre, m, 0, mr, d.body, rest);
    }
  }

  lemma {:induction false} DirectLinked(P: Prog, T: Code, f: string)
    requires Ready(P, T) && f in P.defs && AtKey(P.defs, f).direct
    ensures f in P.base && FnnCode(P, AtKey(P.base, f), AtKey(P.defs, f)).Some?
    ensures Placed(T, Direct(f), The(FnnCode(P, AtKey(P.base, f), AtKey(P.defs, f))).code)
  {
    hide FnnCode, Placed, ImageOk, LamPlaced, LevelPlaced;
    assert DefPlaced(P, T, f);
  }

  lemma {:induction false} LevelLinked(P: Prog, T: Code, f: string, i: nat)
    requires Ready(P, T) && f in P.defs && 1 <= i <= |P.defs[f].params|
    ensures f in P.base && LevelCode(P, P.base[f], f, P.defs[f], i).Some?
    ensures Placed(T, Level(f, i), LevelCode(P, P.base[f], f, P.defs[f], i).value.code)
  {
    hide LevelCode, Placed, ImageOk, LamPlaced, FnnCode;
    assert DefPlaced(P, T, f);
    assert LevelPlaced(P, T, f, i);
  }

  // ---------- curried levels ----------

  // dc_dup on consecutive slots.
  lemma {:induction false} DupSlotsRun(P: Prog, T: Code, n: nat, s: MState, j: nat, vs: seq<Word>)
    requires j + |vs| <= |s.slots| && s.slots[j..j + |vs|] == vs
    ensures var o := Exec(P, T, n, DupSlots(j, j + |vs|), s);
            match DupAll(s.w.heap, vs)
            case Fault => o == Halt(Corrupt)
            case Ok(h) => o.Fall? && o.s.slots == s.slots && o.s.w == s.w.(heap := h)
    decreases |vs|
  {
    hide Exec, Dup;
    if vs == [] {
      ExecNone(P, T, n, s);
    } else {
      assert s.slots[j] == vs[0] && s.slots[j + 1..j + |vs|] == vs[1..];
      var head, rest := [LdrSlot(0, j), BlRt(DcDup)], DupSlots(j + 1, j + |vs|);
      CallOn(P, T, n, s, j, DcDup);
      match Dup(s.w.heap, vs[0])
      case Fault => SeqHalt(P, T, n, head, rest, s);
      case Ok(h1) =>
        var s1 := Exec(P, T, n, head, s).s;
        SeqFall(P, T, n, head, rest, s, s1);
        DupSlotsRun(P, T, n, s1, j + 1, vs[1..]);
    }
  }

  lemma {:induction false} DupOwnedRun(P: Prog, T: Code, n: nat, s: MState, modes: seq<bool>, j: nat, vs: seq<Word>)
    requires j <= |vs| <= |s.slots| && s.slots[..|vs|] == vs
    ensures var o := Exec(P, T, n, DupOwnedSlots(modes, j, |vs|), s);
            match DupOwned(s.w.heap, vs, modes, j)
            case Fault => o == Halt(Corrupt)
            case Ok(h) => o.Fall? && o.s.slots == s.slots && o.s.w == s.w.(heap := h)
    decreases |vs| - j
  {
    hide Exec, Dup;
    if j == |vs| {
      ExecNone(P, T, n, s);
    } else {
      assert s.slots[j] == vs[j];
      var head, rest := [LdrSlot(0, j), BlRt(DcDup)], DupOwnedSlots(modes, j + 1, |vs|);
      if Mode(modes, j) {
        CallOn(P, T, n, s, j, DcDup);
        match Dup(s.w.heap, vs[j])
        case Fault => SeqHalt(P, T, n, head, rest, s);
        case Ok(h1) =>
          var s1 := Exec(P, T, n, head, s).s;
          SeqFall(P, T, n, head, rest, s, s1);
          DupOwnedRun(P, T, n, s1, modes, j + 1, vs);
      } else {
        assert [] + rest == rest;
        DupOwnedRun(P, T, n, s, modes, j + 1, vs);
      }
    }
  }

  // Prologue, copied environment, the new argument behind it.
  lemma {:induction false} LevelEnters(P: Prog, T: Code, n: nat, s: MState, i: nat, clo: Word, arg: Word)
    returns (s1: MState)
    requires AtBlock(s, clo) && 1 in s.regs && s.regs[1] == arg && |s.slots| == SLOTS
    requires LdEnv(0, i).Some? && i < SLOTS && |s.w.heap[clo].words| == 2 + i
    ensures Exec(P, T, n, [Prologue] + LdEnv(0, i).value + [StrSlot(1, i)], s) == Fall(s1)
    ensures s1.w == s.w && |s1.slots| == SLOTS && s1.slots[..i] == s.w.heap[clo].words[2..] && s1.slots[i] == arg
  {
    hide Exec, LdEnv, IsRef;
    var env := LdEnv(0, i).value;
    Front(P, T, n, Prologue, env, s);
    EnvRuns(P, T, n, s, 0, i, clo);
    var s0 := Exec(P, T, n, env, s).s;
    SeqFall(P, T, n, [Prologue] + env, [StrSlot(1, i)], s, s0);
    One(P, T, n, StrSlot(1, i), s0);
    s1 := s0.(slots := s0.slots[i := arg]);
    assert s1.slots[..i] == s.w.heap[clo].words[2..];
  }

  lemma {:induction false} SeqSlotVals(slots: seq<Word>, i: nat, k: nat)
    requires i <= k <= |slots|
    ensures |SeqSlots(i, k)| == k - i && (forall j :: 0 <= j < k - i ==> SeqSlots(i, k)[j] == i + j)
    ensures (forall j :: 0 <= j < |SeqSlots(i, k)| ==> SeqSlots(i, k)[j] < |slots|)
    ensures SlotVals(slots, SeqSlots(i, k)) == slots[i..k]
    decreases k - i
  {
    if i < k { SeqSlotVals(slots, i + 1, k); }
  }

  lemma {:induction false} LevelAgrees(P: Prog, T: Code, n: nat, w: World, f: string, i: int, clo: Word, arg: Word)
    requires Ready(P, T) && HeapOk(w.heap) && IsRef(clo) && clo in w.heap && IsClosure(w.heap[clo])
    ensures Agree(EvLevel(P, n, w, f, i, w.heap[clo].words[2..], arg),
        RunFn(P, T, n, Level(f, i), map[0 := clo, 1 := arg], w))
    decreases n, 4
  {
    hide Exec, HeapOk, Ready, RunFn, LevelCode, IsRef, DupAll, DupOwned, Build, LastLevel, Drop;
    var held := w.heap[clo].words[2..];
    SmallStop(Stuck);
    if f in P.defs && 1 <= i <= |P.defs[f].params| && |held| == i - 1 {
      var d, x := P.defs[f], map[0 := clo, 1 := arg];
      LevelLinked(P, T, f, i);
      var code := LevelCode(P, P.base[f], f, d, i).value.code;
      var rest := PlacedAt(P, T, n, Level(f, i), code, x, w);
      var s := MState(x, Junk(P, w), None, w);
      JunkSize(P, w);
      LevelHead(P, P.base[f], f, d, i);
      var s1 := LevelEnters(P, T, n, s, i - 1, clo, arg);
      if i < |d.params| {
        NextLevelRuns(P, T, n, s, s1, f, d, i, held, arg, rest);
      } else {
        LastLevelRuns(P, T, n, s, s1, f, d, held, arg, rest);
      }
    }
  }

  lemma {:induction false} LevelHead(P: Prog, id: int, f: string, d: ODef, i: nat)
    requires 1 <= i <= |d.params| && LevelCode(P, id, f, d, i).Some?
    ensures LdEnv(0, i - 1).Some? && i - 1 < SLOTS
  {
  }

  lemma {:induction false} NextLevelRuns(P: Prog, T: Code, n: nat, s: MState, s1: MState, f: string, d: ODef, i: nat,
                                         held: seq<Word>, arg: Word, rest: Code)
    requires Ready(P, T) && HeapOk(s.w.heap) && f in P.defs && P.defs[f] == d && 1 <= i < |d.params|
    requires |held| == i - 1 && i - 1 < SLOTS
    requires f in P.base && LevelCode(P, P.base[f], f, d, i).Some? && LdEnv(0, i - 1).Some?
    requires Exec(P, T, n, [Prologue] + LdEnv(0, i - 1).value + [StrSlot(1, i - 1)], s) == Fall(s1)
    requires s1.w == s.w && |s1.slots| == SLOTS && s1.slots[..i - 1] == held && s1.slots[i - 1] == arg
    ensures var r := EvLevel(P, n, s.w, f, i, held, arg);
            var o := Exec(P, T, n, LevelCode(P, P.base[f], f, d, i).value.code + rest, s);
            && (match r case Done(v, w1) => o == Return(v, w1) case Stop(why) => Compared(why) ==> o == Halt(why))
               && Small(r)
  {
    hide Exec, HeapOk, LdEnv, DupAll, Build, MkClosureCode, DupSlots, LastLevel;
    var head := [Prologue] + LdEnv(0, i - 1).value + [StrSlot(1, i - 1)];
    var dups, mk := DupSlots(0, i - 1), MkClosureCode(SLevel(f, i + 1), SeqSlots(0, i));
    assert LevelCode(P, P.base[f], f, d, i).value.code + rest == head + dups + mk + ([Epilogue] + rest);
    if SLevel(f, i + 1) in P.addr {
      SeqFall(P, T, n, head, dups, s, s1);
      assert s1.slots[0..0 + |held|] == held;
      DupSlotsRun(P, T, n, s1, 0, held);
      match DupAll(s.w.heap, held)
      case Fault =>
        SeqHalt(P, T, n, head + dups, mk, s);
        SeqHalt(P, T, n, head + dups + mk, [Epilogue] + rest, s);
      case Ok(h) =>
        DupAllHeap(s.w.heap, held);
        var s2 := Exec(P, T, n, dups, s1).s;
        SeqFall(P, T, n, head + dups, mk, s, s2);
        SeqSlotVals(s2.slots, 0, i);
        assert s2.slots[0..i] == held + [arg];
        assert [P.addr[SLevel(f, i + 1)], i] + held + [arg] == [P.addr[SLevel(f, i + 1)], i] + (held + [arg]);
        ReadyImage(P, T);
        ClosureRuns(P, T, n, s2, SLevel(f, i + 1), SeqSlots(0, i));
        BuildHeap(P, s2.w, T_CLOSURE, [P.addr[SLevel(f, i + 1)], i] + (held + [arg]));
        MadeReturns(P, T, n, s, head + dups + mk, rest,
            Build(P, s2.w, T_CLOSURE, [P.addr[SLevel(f, i + 1)], i] + (held + [arg])),
                    Exec(P, T, n, mk, s2));
    }
  }

  lemma {:induction false} MadeReturns(P: Prog, T: Code, n: nat, s: MState, a: Code, rest: Code, r: Res, o: Out)
    requires Exec(P, T, n, a, s) == o
    requires match r
             case Done(v, w1) => o.Fall? && o.s.w == w1 && 0 in o.s.regs && o.s.regs[0] == v
             case Stop(why) => Compared(why) ==> o == Halt(why)
    ensures var q := Exec(P, T, n, a + ([Epilogue] + rest), s);
            match r case Done(v, w1) => q == Return(v, w1) case Stop(why) => Compared(why) ==> q == Halt(why)
  {
    hide Exec;
    if r.Done? {
      SeqFall(P, T, n, a, [Epilogue] + rest, s, o.s);
      EpilogueReturns(P, T, n, o.s, rest);
    } else if Compared(r.why) {
      SeqHalt(P, T, n, a, [Epilogue] + rest, s);
    }
  }

  // What the last level does between its dups and the drop of its argument.
  function LastMid(P: Prog, id: int, f: string, d: ODef): Option<Code> {
    var k := |d.params|;
    if d.direct then Some(LdArgRegs(0, k) + [Bl(Direct(f))])
    else
      var m :- BindParams(P, id + 1, [], k, d.params, 0, Loc(KFail, id));
      var g :- Ce(P, m.id, m.sc, m.ns, Loc(KEnd, id), d.body);
      Some(m.code + g.code + [Lbl(Loc(KEnd, id))])
  }

  // A failed parameter match leaves for the failure label behind the epilogue.
  ghost predicate MidOk(s: MState, k: int, fl: Label, r: Res, o: Out) {
    match r
    case Done(v, w1) =>
      o.Fall? && o.s.w == w1 && Below(o.s.slots, s.slots, k) && 0 in o.s.regs && o.s.regs[0] == v && HeapOk(w1.heap)
    case Stop(why) => Compared(why) ==> o == Halt(why) || (why == NoMatch && o.Goto? && o.l == fl)
  }

  lemma {:induction false} LoadArgs(P: Prog, T: Code, n: nat, s: MState, i: nat, k: nat)
    requires i <= k <= |s.slots|
    ensures var o := Exec(P, T, n, LdArgRegs(i, k), s);
            && o.Fall? && o.s.w == s.w && o.s.slots == s.slots
            && (forall j :: i <= j < k ==> j in o.s.regs && o.s.regs[j] == s.slots[j])
            && (forall j :: j < i && j in s.regs ==> j in o.s.regs && o.s.regs[j] == s.regs[j])
    decreases k - i
  {
    hide Exec;
    if i == k {
      ExecNone(P, T, n, s);
    } else {
      var s1 := SetReg(s, i, s.slots[i]);
      One(P, T, n, LdrSlot(i, i), s);
      SeqFall(P, T, n, [LdrSlot(i, i)], LdArgRegs(i + 1, k), s, s1);
      LoadArgs(P, T, n, s1, i + 1, k);
    }
  }

  lemma {:induction false} MidRuns(P: Prog, T: Code, n: nat, s: MState, f: string, vs: seq<Word>)
    requires Ready(P, T) && HeapOk(s.w.heap) && f in P.defs && f in P.base && |s.slots| == SLOTS
    requires |vs| == |P.defs[f].params| <= SLOTS && s.slots[..|vs|] == vs
    requires LastMid(P, P.base[f], f, P.defs[f]).Some?
    ensures var r := LastLevel(P, n, s.w, f, vs); var o := Exec(P, T, n, LastMid(P, P.base[f], f, P.defs[f]).value, s);
            MidOk(s, |vs|, Loc(KFail, P.base[f]), r, o)
                && (P.defs[f].direct && r.Stop? && Compared(r.why) ==> o == Halt(r.why))
    decreases n, 3, 0
  {
    hide Exec, Ready, EvDirect, HeapOk;
    var d := P.defs[f];
    if d.direct {
      var ld, call := LdArgRegs(0, |vs|), [Bl(Direct(f))];
      LoadArgs(P, T, n, s, 0, |vs|);
      var s1 := Exec(P, T, n, ld, s).s;
      SeqFall(P, T, n, ld, call, s, s1);
      BlRuns(P, T, n, s1, f, vs);
    } else {
      InlineRuns(P, T, n, s, f, vs);
    }
  }

  lemma {:induction false} InlineRuns(P: Prog, T: Code, n: nat, s: MState, f: string, vs: seq<Word>)
    requires Ready(P, T) && HeapOk(s.w.heap) && f in P.defs && f in P.base && |s.slots| == SLOTS && !P.defs[f].direct
    requires |vs| == |P.defs[f].params| <= SLOTS && s.slots[..|vs|] == vs
    requires LastMid(P, P.base[f], f, P.defs[f]).Some?
    ensures MidOk(s, |vs|, Loc(KFail, P.base[f]), EvDirect(P, n, s.w, f, vs),
                  Exec(P, T, n, LastMid(P, P.base[f], f, P.defs[f]).value, s))
    decreases n, 2
  {
    hide Exec, Ready, HeapOk, BindParams, Ce, Ev, MatchPats, ScopeOk;
    var d, id, k := P.defs[f], P.base[f], |vs|;
    var fl, el := Loc(KFail, id), Loc(KEnd, id);
    var m := BindParams(P, id + 1, [], k, d.params, 0, fl).value;
    var g := Ce(P, m.id, m.sc, m.ns, el, d.body).value;
    ReadyImage(P, T);
    DefReady(P, T, f);
    EmptyScope(k, s.slots);
    assert s.slots[0..0 + k] == vs;
    ParamsRun(P, T, n, id + 1, [], k, map[], s, d.params, 0, vs, fl);
    CeLabels(P, m.id, m.sc, m.ns, el, d.body);
    var mr := MatchPats(P, n, id + 1, map[], s.w.heap, d.params, vs);
    match mr
    case Yes(env1) =>
      var s1 := Exec(P, T, n, m.code, s).s;
      assert Start(P, T, m.sc, m.ns, env1, s1);
      CeRuns(P, T, n, m.id, m.sc, m.ns, env1, s1, el, d.body);
      var r := Ev(P, n, m.id, env1, s1.w, d.body);
      ExprAfter(P, T, n, m.code, g.code, s, s1, k, m.ns, el, r);
      InlineEnds(P, T, n, m.code + g.code, s, k, id, r);
    case No =>
      NotOwnLabel(g.code, m.id, g.id, fl);
      SeqGoto(P, T, n, m.code, g.code, s);
      SeqGoto(P, T, n, m.code + g.code, [Lbl(el)], s);
    case MStop(why) =>
      if Compared(why) {
        SeqHalt(P, T, n, m.code, g.code, s);
        SeqHalt(P, T, n, m.code + g.code, [Lbl(el)], s);
      }
  }

  lemma {:induction false} InlineEnds(P: Prog, T: Code, n: nat, a: Code, s: MState, k: nat, id: int, r: Res)
    requires ExprOk(s, k, Loc(KEnd, id), r, Exec(P, T, n, a, s))
    ensures MidOk(s, k, Loc(KFail, id), r, Exec(P, T, n, a + [Lbl(Loc(KEnd, id))], s))
  {
    hide Exec, HeapOk;
    var l := Loc(KEnd, id);
    assert a + [Lbl(l)] + [] == a + [Lbl(l)];
    if r.Done? {
      SeqLand(P, T, n, a, s, l, []);
      ExecNone(P, T, n, Exec(P, T, n, a, s).s);
    } else if Compared(r.why) {
      SeqHalt(P, T, n, a, [Lbl(l)], s);
    }
  }

  function LastDrop(modes: seq<bool>, k: nat): Code
    requires k > 0
  {
    if Mode(modes, k - 1) then [] else [StrSlot(0, k), LdrSlot(0, k - 1), BlRt(DcDrop), LdrSlot(0, k)]
  }

  // A borrowed last argument is dropped, the result kept in a slot meanwhile.
  lemma {:induction false} LastDropRuns(P: Prog, T: Code, n: nat, s: MState, modes: seq<bool>, k: nat, v: Word,
                                        arg: Word)
    requires 0 < k && |s.slots| == SLOTS && 0 in s.regs && s.regs[0] == v && (!Mode(modes, k - 1) ==> k < SLOTS)
    requires k <= SLOTS && s.slots[k - 1] == arg && HeapOk(s.w.heap)
    ensures var r := if Mode(modes, k - 1) then Done(v, s.w) else match RtDrop(s.w, arg) case None => Stop(Corrupt)
        case Some(w2) => Done(v, w2);
            var o := Exec(P, T, n, LastDrop(modes, k), s);
            && Small(r)
            && match r case Done(u, w1) => o.Fall? && o.s.w == w1 && 0 in o.s.regs
               && o.s.regs[0] == u case Stop(why) => o == Halt(why)
  {
    hide Exec, HeapOk, Drop;
    if Mode(modes, k - 1) {
      ExecNone(P, T, n, s);
    } else {
      var c1, c2, c3 := [StrSlot(0, k)], [LdrSlot(0, k - 1), BlRt(DcDrop)], [LdrSlot(0, k)];
      assert LastDrop(modes, k) == c1 + c2 + c3;
      One(P, T, n, StrSlot(0, k), s);
      var s1 := s.(slots := s.slots[k := v]);
      SeqFall(P, T, n, c1, c2, s, s1);
      CallOn(P, T, n, s1, k - 1, DcDrop);
      DropHeap(s.w.heap, arg);
      if RtDrop(s.w, arg).None? {
        SeqHalt(P, T, n, c1 + c2, c3, s);
      } else {
        var s2 := Exec(P, T, n, c2, s1).s;
        SeqFall(P, T, n, c1 + c2, c3, s, s2);
        One(P, T, n, LdrSlot(0, k), s2);
      }
    }
  }

  lemma {:induction false} LastParts(P: Prog, id: int, f: string, d: ODef, rest: Code) returns (tail: Code)
    requires |d.params| > 0 && LevelCode(P, id, f, d, |d.params|).Some?
    ensures LdEnv(0, |d.params| - 1).Some? && LastMid(P, id, f, d).Some? && |d.params| <= SLOTS
    ensures !Mode(d.modes, |d.params| - 1) ==> |d.params| < SLOTS
    ensures var k := |d.params|;
            LevelCode(P, id, f, d, k).value.code + rest
            == [Prologue] + LdEnv(0, k - 1).value + [StrSlot(1, k - 1)] + DupOwnedSlots(d.modes, 0, k - 1)
               + LastMid(P, id, f, d).value + LastDrop(d.modes, k) + ([Epilogue] + tail)
    ensures tail == if d.direct then rest else [Lbl(Loc(KFail, id)), BlRt(DcMatchFail)] + rest
  {
    hide LdEnv, BindParams, Ce, DupOwnedSlots, LdArgRegs;
    tail := if d.direct then rest else [Lbl(Loc(KFail, id)), BlRt(DcMatchFail)] + rest;
  }

  lemma {:induction false} LastLevelRuns(P: Prog, T: Code, n: nat, s: MState, s1: MState, f: string, d: ODef,
                                         held: seq<Word>, arg: Word, rest: Code)
    requires Ready(P, T) && HeapOk(s.w.heap) && f in P.defs && P.defs[f] == d && |d.params| > 0
    requires |held| == |d.params| - 1
    requires f in P.base && LevelCode(P, P.base[f], f, d, |d.params|).Some? && LdEnv(0, |held|).Some? && |held| < SLOTS
    requires Exec(P, T, n, [Prologue] + LdEnv(0, |held|).value + [StrSlot(1, |held|)], s) == Fall(s1)
    requires s1.w == s.w && |s1.slots| == SLOTS && s1.slots[..|held|] == held && s1.slots[|held|] == arg
    ensures var r := EvLevel(P, n, s.w, f, |d.params|, held, arg);
            var o := Exec(P, T, n, LevelCode(P, P.base[f], f, d, |d.params|).value.code + rest, s);
            && (match r case Done(v, w1) => o == Return(v, w1) case Stop(why) => Compared(why) ==> o == Halt(why))
               && Small(r)
    decreases n, 3, 1
  {
    hide Exec, HeapOk, LdEnv, DupOwned, LevelCode, DupOwnedSlots, LastMid, LastDrop, LastLevel, Drop, MidOk, Ready;
    var k, id, vs := |d.params|, P.base[f], held + [arg];
    var tail := LastParts(P, id, f, d, rest);
    var head := [Prologue] + LdEnv(0, k - 1).value + [StrSlot(1, k - 1)];
    var dups, mid, drop := DupOwnedSlots(d.modes, 0, k - 1), LastMid(P, id, f, d).value, LastDrop(d.modes, k);
    SeqFall(P, T, n, head, dups, s, s1);
    DupOwnedRun(P, T, n, s1, d.modes, 0, held);
    match DupOwned(s.w.heap, held, d.modes, 0)
    case Fault =>
      SeqHalt(P, T, n, head + dups, mid, s);
      SeqHalt(P, T, n, head + dups + mid, drop, s);
      SeqHalt(P, T, n, head + dups + mid + drop, [Epilogue] + tail, s);
    case Ok(h) =>
      DupOwnedHeap(s.w.heap, held, d.modes, 0);
      var s2 := Exec(P, T, n, dups, s1).s;
      SeqFall(P, T, n, head + dups, mid, s, s2);
      assert s2.slots[..k] == vs;
      MidRuns(P, T, n, s2, f, vs);
      LastEnds(P, T, n, s, s2, head + dups, mid, d, id, k, arg, tail, rest, LastLevel(P, n, s2.w, f, vs));
  }

  lemma {:induction false} LastEnds(P: Prog, T: Code, n: nat, s: MState, s2: MState, a: Code, mid: Code, d: ODef,
                                    id: int, k: nat, arg: Word, tail: Code, rest: Code, r: Res)
    requires Exec(P, T, n, a, s) == Fall(s2) && MidOk(s2, k, Loc(KFail, id), r, Exec(P, T, n, mid, s2))
    requires 0 < k <= SLOTS && |s2.slots| == SLOTS && s2.slots[k - 1] == arg && (!Mode(d.modes, k - 1) ==> k < SLOTS)
    requires tail == if d.direct then rest else [Lbl(Loc(KFail, id)), BlRt(DcMatchFail)] + rest
    requires d.direct && r.Stop? && Compared(r.why) ==> Exec(P, T, n, mid, s2) == Halt(r.why)
    ensures var q := match r
              case Stop(why) => Stop(why)
              case Done(v, w1) =>
                if Mode(d.modes, k - 1) then Done(v, w1)
                else match RtDrop(w1, arg) case None => Stop(Corrupt) case Some(w2) => Done(v, w2);
            var o := Exec(P, T, n, a + mid + LastDrop(d.modes, k) + ([Epilogue] + tail), s);
            && (match q case Done(v, w1) => o == Return(v, w1) case Stop(why) => Compared(why) ==> o == Halt(why))
               && Small(q)
  {
    hide Exec, HeapOk, LastDrop, Drop;
    var drop := LastDrop(d.modes, k);
    SeqFall(P, T, n, a, mid, s, s2);
    match r
    case Done(v, w1) =>
      var s3 := Exec(P, T, n, mid, s2).s;
      SeqFall(P, T, n, a + mid, drop, s, s3);
      LastDropRuns(P, T, n, s3, d.modes, k, v, arg);
      MadeReturns(P, T, n, s, a + mid + drop, tail,
                  if Mode(d.modes, k - 1) then Done(v, w1)
                  else match RtDrop(w1, arg) case None => Stop(Corrupt) case Some(w2) => Done(v, w2),
                  Exec(P, T, n, drop, s3));
    case Stop(why) =>
      if Compared(why) {
        DropLabels(d.modes, k);
        if Exec(P, T, n, mid, s2).Halt? {
          SeqHalt(P, T, n, a + mid, drop, s);
          SeqHalt(P, T, n, a + mid + drop, [Epilogue] + tail, s);
        } else {
          SeqGoto(P, T, n, a + mid, drop, s);
          SeqGoto(P, T, n, a + mid + drop, [Epilogue], s);
          FailHalts(P, T, n, a + mid + drop + [Epilogue], id, rest, s);
          assert a + mid + drop + ([Epilogue] + tail)
              == a + mid + drop + [Epilogue] + [Lbl(Loc(KFail, id)), BlRt(DcMatchFail)] + rest;
        }
      }
  }

  lemma {:induction false} DropLabels(modes: seq<bool>, k: nat)
    requires k > 0
    ensures NoLabels(LastDrop(modes, k))
  {
  }

  // ---------- closure calls ----------

  lemma {:induction false} CallCodeAgrees(P: Prog, T: Code, n: nat, w: World, clo: Word, arg: Word)
    requires Ready(P, T) && HeapOk(w.heap) && IsRef(clo) && clo in w.heap && IsClosure(AtKey(w.heap, clo))
    ensures Agree(EvClosure(P, n, w, clo, arg), CallCode(P, T, n, AtIndex(AtKey(w.heap, clo).words, 0), clo, arg, w))
    decreases n, 5
  {
    hide HeapOk, Ready, RunFn, EvLam, EvLevel, RtCtorStep, RtBuiltinStep, CodeAt, IsRef;
    SmallStop(Stuck);
    var words := w.heap[clo].words;
    CtorStepHeap(P, w, words, arg);
    BuiltinStepHeap(P, w, words, arg);
    match CodeAt(P, words[0])
    case Some(SLam(id)) => LamAgrees(P, T, n, w, id, clo, arg);
    case Some(SLevel(f, i)) => LevelAgrees(P, T, n, w, f, i, clo, arg);
    case _ =>
  }
}

// The constructor table: only a registration changes it, so a run finds every
// arity that was registered before it.
module ArityTable {
  import opened Types
  import opened Syntax
  import opened RcHeap
  import opened Trampoline
  import opened Oir

  // A result that left the table alone.
  predicate Keeps(ctors: map<int, nat>, r: Res) { r.Done? ==> r.w.ctors == ctors }

  lemma {:induction false} BuildKeeps(P: Prog, w: World, tag: int, words: seq<Word>)
    requires words != []
    ensures Keeps(w.ctors, Build(P, w, tag, words))
  {
  }

  lemma {:induction false} BuildWithKeeps(P: Prog, w: World, tok: Option<Word>, tag: int, words: seq<Word>)
    requires words != []
    ensures Keeps(w.ctors, BuildWith(P, w, tok, tag, words))
  {
  }

  lemma {:induction false} BuiltinKeeps(P: Prog, w: World, name: string, args: seq<Word>)
    ensures Keeps(w.ctors, RtBuiltin(P, w, name, args))
  {
    hide Build;
    match P.bi(w.tick, name, args, w.heap)
    case BStr(ws) => if ws != [] { BuildKeeps(P, w.(tick := w.tick + 1), T_STRING, ws); }
    case _ =>
  }

  lemma {:induction false} BinKeeps(P: Prog, n: nat, w: World, op: string, a: Word, b: Word)
    ensures Keeps(w.ctors, EvBin(P, n, w, op, a, b))
  {
    hide RtBuiltin, ValEq, IntOp;
    BuiltinKeeps(P, w, "str_concat", [a, b]);
  }

  lemma {:induction false} ClosureKeeps(P: Prog, pt: int, env: Env, w: World, lam: Lam, self: Option<string>)
    ensures Keeps(w.ctors, MkClosure(P, pt, env, w, lam, self))
  {
    hide Build, Lookups;
    var env1 := match self case None => env case Some(x) => env[x := P.newAt(w.tick, w.heap)];
    if SLam(pt) in P.addr && Lookups(env1, lam.caps).Some? {
      var vs := Lookups(env1, lam.caps).value;
      BuildKeeps(P, w, T_CLOSURE, [P.addr[SLam(pt)], |vs|] + vs);
    }
  }

  lemma {:induction false} AtomsKeep(P: Prog, pt: int, env: Env, w: World, atoms: seq<OAtom>, flags: seq<bool>)
    ensures var r := EvAtoms(P, pt, env, w, atoms, flags); r.Vals? ==> r.w.ctors == w.ctors
    decreases |atoms|
  {
    hide AtomVal, Dup;
    if atoms != [] {
      match AtomVal(P, pt, env, w, atoms[0])
      case None =>
      case Some(v) =>
        var r := if atoms[0].AGlob? && Flag(flags) then RtDup(w, v) else Some(w);
        if r.Some? { AtomsKeep(P, pt + AtomIds(atoms[0]), env, r.value, atoms[1..], Later(flags)); }
    }
  }

  lemma {:induction false} DropKeeps(w: World, v: Word)
    ensures RtDrop(w, v).Some? ==> The(RtDrop(w, v)).ctors == w.ctors
    ensures RtDup(w, v).Some? ==> The(RtDup(w, v)).ctors == w.ctors
    ensures Keeps(w.ctors, RtDropReuse(w, v))
  {
    hide Drop, Dup;
  }

  lemma {:induction false} CtorStepKeeps(P: Prog, w: World, words: seq<Word>, arg: Word)
    ensures Keeps(w.ctors, RtCtorStep(P, w, words, arg))
  {
  }

  lemma {:induction false} BuiltinStepKeeps(P: Prog, w: World, words: seq<Word>, arg: Word)
    ensures Keeps(w.ctors, RtBuiltinStep(P, w, words, arg))
  {
    hide RtBuiltin, Build, Drop, DupAll, BiArity, BiName;
    if |words| >= 4 {
      var idx, args := IntOf(words[2]), words[4..];
      if BiName(idx).Some? { BuiltinKeeps(P, w, BiName(idx).value, args + [arg]); }
      if DupAll(w.heap, args).Ok? {
        BuildKeeps(P, w.(heap := DupAll(w.heap, args).heap), T_CLOSURE, BiStepWords(idx, args + [arg]));
      }
    }
  }

  // No run of an expression changes the table.
  lemma {:induction false} EvKeeps(P: Prog, n: nat, pt: int, env: Env, w: World, e: OExpr)
    ensures Keeps(w.ctors, Ev(P, n, pt, env, w, e))
    decreases n, 0, e
  {
    hide EvAtoms, MkClosure, RtDup, RtDrop, RtDropReuse, AtomVal, EvPrim, EvBrs;
    match e
    case ORet(a) => AtomsKeep(P, pt, env, w, [a], [true]);
    case OLet(x, p, rest) =>
      PrimKeeps(P, n, pt, env, w, p);
      var r := EvPrim(P, n, pt, env, w, p);
      if r.Done? { EvKeeps(P, n, pt + PrimIds(p), env[x := r.v], r.w, rest); }
    case OLetRec(x, p, rest) =>
      if p.PLam? {
        ClosureKeeps(P, pt, env, w, Lam(p.pat, p.body, p.caps), Some(x));
        var r := MkClosure(P, pt, env, w, Lam(p.pat, p.body, p.caps), Some(x));
        if r.Done? { EvKeeps(P, n, pt + PrimIds(p), env[x := r.v], r.w, rest); }
      }
    case OIf(a, e1, e2) =>
      var pt1 := pt + 1 + AtomIds(a);
      EvKeeps(P, n, pt1, env, w, e1);
      EvKeeps(P, n, pt1 + ExprIds(e1), env, w, e2);
    case OCase(a, brs) =>
      var v := AtomVal(P, pt, env, w, a);
      if v.Some? { BrsKeep(P, n, pt + AtomIds(a), env, w, v.value, brs); }
    case ODup(x, rest) =>
      if x in env {
        DropKeeps(w, env[x]);
        if RtDup(w, env[x]).Some? { EvKeeps(P, n, pt, env, RtDup(w, env[x]).value, rest); }
      }
    case ODrop(x, rest) =>
      if x in env {
        DropKeeps(w, env[x]);
        if RtDrop(w, env[x]).Some? { EvKeeps(P, n, pt, env, RtDrop(w, env[x]).value, rest); }
      }
    case ODropReuse(x, tok, rest) =>
      if x in env {
        DropKeeps(w, env[x]);
        var r := RtDropReuse(w, env[x]);
        if r.Done? { EvKeeps(P, n, pt, env[tok := r.v], r.w, rest); }
      }
  }

  lemma {:induction false} BrsKeep(P: Prog, n: nat, pt: int, env: Env, w: World, v: Word, brs: seq<OBranch>)
    ensures Keeps(w.ctors, EvBrs(P, n, pt, env, w, v, brs))
    decreases n, 0, brs
  {
    hide Ev, MatchPat;
    if brs != [] {
      var br := brs[0];
      assert brs decreases to br;
      match MatchPat(P, n, pt + 1, env, w.heap, br.pat, v)
      case Yes(env1) => EvKeeps(P, n, pt + 1 + PatIds(br.pat), env1, w, br.body);
      case No => BrsKeep(P, n, pt + 1 + PatIds(br.pat) + ExprIds(br.body), env, w, v, brs[1..]);
      case MStop(_) =>
    }
  }

  lemma {:induction false} PrimKeeps(P: Prog, n: nat, pt: int, env: Env, w: World, p: OPrim)
    ensures Keeps(w.ctors, EvPrim(P, n, pt, env, w, p))
    decreases n, 0, p
  {
    hide EvAtoms, MkClosure, RtBuiltin, BuildWith, EvBin, EvClosure, EvDirect, Ev, BiArgs;
    match p
    case PAtom(a) => AtomsKeep(P, pt, env, w, [a], [true]);
    case PApp(f, a) =>
      AtomsKeep(P, pt, env, w, [f, a], [false, true]);
      var r := EvAtoms(P, pt, env, w, [f, a], [false, true]);
      if r.Vals? && |r.vs| == 2 && n > 0 { CallKeeps(P, n - 1, r.w, r.vs[0], r.vs[1]); }
    case PCall(f, args) =>
      if f in P.defs {
        AtomsKeep(P, pt, env, w, args, P.defs[f].modes);
        var r := EvAtoms(P, pt, env, w, args, P.defs[f].modes);
        if r.Vals? && n > 0 { DirectKeeps(P, n - 1, r.w, f, r.vs); }
      }
    case PBi(name, args) =>
      AtomsKeep(P, pt, env, w, args, []);
      var r := EvAtoms(P, pt, env, w, args, []);
      if r.Vals? { BuiltinKeeps(P, r.w, name, r.vs); }
    case PMkCtor(c, args, tok) =>
      AtomsKeep(P, pt, env, w, args, Trues(|args|));
      var r := EvAtoms(P, pt, env, w, args, Trues(|args|));
      if r.Vals? && c in P.cid && TokOf(env, tok).Some? {
        BuildWithKeeps(P, r.w, TokOf(env, tok).value, T_ADT, [P.cid[c]] + r.vs);
      }
    case PMkTup(args, tok) =>
      AtomsKeep(P, pt, env, w, args, Trues(|args|));
      var r := EvAtoms(P, pt, env, w, args, Trues(|args|));
      if r.Vals? && r.vs != [] && TokOf(env, tok).Some? {
        BuildWithKeeps(P, r.w, TokOf(env, tok).value, T_TUPLE, r.vs);
      }
    case PLam(pat, body, caps) => ClosureKeeps(P, pt, env, w, Lam(pat, body, caps), None);
    case PBin(op, a, b) =>
      AtomsKeep(P, pt, env, w, [a, b], []);
      var r := EvAtoms(P, pt, env, w, [a, b], []);
      if r.Vals? && |r.vs| == 2 { BinKeeps(P, n, r.w, op, r.vs[0], r.vs[1]); }
    case PBlock(e) => EvKeeps(P, n, pt + 1, env, w, e);
  }

  lemma {:induction false} DirectKeeps(P: Prog, n: nat, w: World, f: string, vs: seq<Word>)
    ensures Keeps(w.ctors, EvDirect(P, n, w, f, vs))
    decreases n, 1
  {
    hide Ev, MatchPats;
    if f in P.defs && f in P.base && |P.defs[f].params| == |vs| {
      var m := MatchPats(P, n, P.base[f] + 1, map[], w.heap, P.defs[f].params, vs);
      if m.Yes? { EvKeeps(P, n, BodyPt(P, f), m.env, w, P.defs[f].body); }
    }
  }

  lemma {:induction false} LevelKeeps(P: Prog, n: nat, w: World, f: string, i: int, held: seq<Word>, arg: Word)
    ensures Keeps(w.ctors, EvLevel(P, n, w, f, i, held, arg))
    decreases n, 3
  {
    hide EvDirect, Build, DupAll, DupOwned, RtDrop, Mode;
    if f in P.defs {
      var d := P.defs[f];
      if SLevel(f, i + 1) in P.addr && DupAll(w.heap, held).Ok? {
        BuildKeeps(P, w.(heap := DupAll(w.heap, held).heap), T_CLOSURE, [P.addr[SLevel(f, i + 1)], i] + held + [arg]);
      }
      if DupOwned(w.heap, held, d.modes, 0).Ok? {
        var w1 := w.(heap := DupOwned(w.heap, held, d.modes, 0).heap);
        if d.direct && n > 0 {
          DirectKeeps(P, n - 1, w1, f, held + [arg]);
        } else {
          DirectKeeps(P, n, w1, f, held + [arg]);
        }
        var r := LastLevel(P, n, w1, f, held + [arg]);
        if r.Done? { DropKeeps(r.w, arg); }
      }
    }
  }

  lemma {:induction false} CallKeeps(P: Prog, n: nat, w: World, clo: Word, arg: Word)
    ensures Keeps(w.ctors, EvClosure(P, n, w, clo, arg))
    decreases n, 4
  {
    hide EvLam, EvLevel, RtCtorStep, RtBuiltinStep, CodeAt;
    if IsRef(clo) && clo in w.heap && IsClosure(w.heap[clo]) {
      var b := w.heap[clo];
      CtorStepKeeps(P, w, b.words, arg);
      BuiltinStepKeeps(P, w, b.words, arg);
      match CodeAt(P, b.words[0])
      case Some(SLam(id)) => LamKeeps(P, n, w, id, b.words[2..], arg);
      case Some(SLevel(f, i)) => LevelKeeps(P, n, w, f, i, b.words[2..], arg);
      case _ =>
    }
  }

  lemma {:induction false} LamKeeps(P: Prog, n: nat, w: World, id: int, captured: seq<Word>, arg: Word)
    ensures Keeps(w.ctors, EvLam(P, n, w, id, captured, arg))
    decreases n, 1
  {
    hide Ev, MatchPat, Zip;
    if id in P.lams && |P.lams[id].caps| == |captured| {
      var lam := P.lams[id];
      var m := MatchPat(P, n, id + 1, Zip(lam.caps, captured), w.heap, lam.pat, arg);
      if m.Yes? { EvKeeps(P, n, id + 1 + PatIds(lam.pat), m.env, w, lam.body); }
    }
  }
}

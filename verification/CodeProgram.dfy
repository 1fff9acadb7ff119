// The text of a whole program: every routine is found behind its label, so the
// results about runs hold for what is emitted; and with well-owned code, the
// emitted routines keep the counts exact.
module CodeProgram {
  import opened Types
  import opened Syntax
  import opened Oir
  import opened Machine
  import opened Codegen
  import opened CodeSteps
  import opened CodeSound
  import opened CodeRun

  // ---------- the lambdas of a piece of code ----------

  function LamsE(id: int, e: OExpr): map<int, Lam>
    decreases e, 0
  {
    match e
    case ORet(_) => map[]
    case OLet(_, p, rest) => LamsP(id, p) + LamsE(id + PrimIds(p), rest)
    case OLetRec(_, p, rest) => LamsP(id, p) + LamsE(id + PrimIds(p), rest)
    case OIf(a, e1, e2) =>
      LamsE(id + 1 + AtomIds(a), e1) + LamsE(id + 1 + AtomIds(a) + ExprIds(e1), e2)
    case OCase(a, brs) => LamsB(id + AtomIds(a), brs)
    case ODup(_, rest) => LamsE(id, rest)
    case ODrop(_, rest) => LamsE(id, rest)
    case ODropReuse(_, _, rest) => LamsE(id, rest)
  }

  function LamsP(id: int, p: OPrim): map<int, Lam>
    decreases p, 0
  {
    match p
    case PLam(pat, body, caps) => map[id := Lam(pat, body, caps)] + LamsE(id + 1 + PatIds(pat), body)
    case PBlock(e) => LamsE(id + 1, e)
    case _ => map[]
  }

  function LamsB(id: int, brs: seq<OBranch>): map<int, Lam>
    decreases brs, 0
  {
    if brs == [] then map[]
    else
      var br := brs[0];
      assert brs decreases to br;
      var id1 := id + 1 + PatIds(br.pat);
      LamsE(id1, br.body) + LamsB(id1 + ExprIds(br.body), brs[1..])
  }

  // Keys numbered from lo up to hi.
  predicate Keyed(m: map<int, Lam>, lo: int, hi: int) { forall k :: k in m ==> lo <= k < hi }

  lemma {:induction false} LamsEKeyed(id: int, e: OExpr)
    ensures Keyed(LamsE(id, e), id, id + ExprIds(e))
    decreases e, 0
  {
    match e
    case ORet(_) =>
    case OLet(_, p, rest) => LamsPKeyed(id, p); LamsEKeyed(id + PrimIds(p), rest);
    case OLetRec(_, p, rest) => LamsPKeyed(id, p); LamsEKeyed(id + PrimIds(p), rest);
    case OIf(a, e1, e2) =>
      LamsEKeyed(id + 1 + AtomIds(a), e1);
      LamsEKeyed(id + 1 + AtomIds(a) + ExprIds(e1), e2);
    case OCase(a, brs) => LamsBKeyed(id + AtomIds(a), brs);
    case ODup(_, rest) => LamsEKeyed(id, rest);
    case ODrop(_, rest) => LamsEKeyed(id, rest);
    case ODropReuse(_, _, rest) => LamsEKeyed(id, rest);
  }

  lemma {:induction false} LamsPKeyed(id: int, p: OPrim)
    ensures Keyed(LamsP(id, p), id, id + PrimIds(p))
    decreases p, 0
  {
    match p
    case PLam(pat, body, caps) => LamsEKeyed(id + 1 + PatIds(pat), body);
    case PBlock(e) => LamsEKeyed(id + 1, e);
    case _ =>
  }

  lemma {:induction false} LamsBKeyed(id: int, brs: seq<OBranch>)
    ensures Keyed(LamsB(id, brs), id, id + BrsIds(brs))
    decreases brs, 0
  {
    if brs != [] {
      var br := brs[0];
      assert brs decreases to br;
      var id1 := id + 1 + PatIds(br.pat);
      LamsEKeyed(id1, br.body);
      LamsBKeyed(id1 + ExprIds(br.body), brs[1..]);
    }
  }

  // ---------- placement ----------

  ghost predicate LamIn(P: Prog, k: int, lam: Lam, code: Code) {
    var g := LamBody(P, k, lam.pat, lam.body, lam.caps);
    g.Some? && Placed(code, Loc(KLam, k), g.value.code)
  }

  ghost predicate AllIn(P: Prog, m: map<int, Lam>, code: Code) { forall k :: k in m ==> LamIn(P, k, m[k], code) }

  lemma {:induction false} PlacedLeft(a: Code, b: Code, l: Label, body: Code)
    requires Placed(a, l, body)
    ensures Placed(a + b, l, body)
  {
    var rest :| Seek(a, l) == Some(body + rest);
    SeekSeq(a, b, l);
    assert body + rest + b == body + (rest + b);
  }

  lemma {:induction false} PlacedRight(a: Code, b: Code, l: Label, body: Code)
    requires Placed(b, l, body) && Lbl(l) !in a
    ensures Placed(a + b, l, body)
  {
    var rest :| Seek(b, l) == Some(body + rest);
    SeekSeq(a, b, l);
    SeekNone(a, l);
  }

  lemma {:induction false} PlacedHere(l: Label, body: Code, rest: Code)
    ensures Placed([Lbl(l)] + body + rest, l, body)
  {
    assert ([Lbl(l)] + body + rest)[1..] == body + rest;
    assert Seek([Lbl(l)] + body + rest, l) == Some(body + rest);
  }

  lemma {:induction false} AllLeft(P: Prog, m: map<int, Lam>, a: Code, b: Code)
    requires AllIn(P, m, a)
    ensures AllIn(P, m, a + b)
  {
    hide LamBody, Placed;
    forall k | k in m ensures LamIn(P, k, m[k], a + b) {
      assert LamIn(P, k, m[k], a);
      PlacedLeft(a, b, Loc(KLam, k), LamBody(P, k, m[k].pat, m[k].body, m[k].caps).value.code);
    }
  }

  lemma {:induction false} AllRight(P: Prog, m: map<int, Lam>, a: Code, b: Code)
    requires AllIn(P, m, b) && forall k :: k in m ==> Lbl(Loc(KLam, k)) !in a
    ensures AllIn(P, m, a + b)
  {
    hide LamBody, Placed;
    forall k | k in m ensures LamIn(P, k, m[k], a + b) {
      assert LamIn(P, k, m[k], b);
      PlacedRight(a, b, Loc(KLam, k), LamBody(P, k, m[k].pat, m[k].body, m[k].caps).value.code);
    }
  }

  // The lambdas of a part stand in the whole, when what precedes has lower
  // numbers.
  lemma {:induction false} AllAfter(P: Prog, m: map<int, Lam>, a: Code, b: Code, c: Code, lo: int, hi: int)
    requires AllIn(P, m, b) && Keyed(m, lo, hi) && forall k :: k >= lo ==> Lbl(Loc(KLam, k)) !in a
    ensures AllIn(P, m, a + b + c)
  {
    hide LamIn;
    AllRight(P, m, a, b);
    AllLeft(P, m, a + b, c);
  }

  lemma {:induction false} AllBoth(P: Prog, m: map<int, Lam>, m1: map<int, Lam>, code: Code)
    requires AllIn(P, m, code) && AllIn(P, m1, code)
    ensures AllIn(P, m + m1, code)
  {
    hide LamIn;
  }

  lemma {:induction false} NoneIn(P: Prog, code: Code)
    ensures AllIn(P, map[], code)
  {
  }

  lemma {:induction false} GenLow(g: Gen, lo: int)
    requires Numbered(Some(g), lo)
    ensures forall k :: k >= g.id ==> Lbl(Loc(KLam, k)) !in g.code
  {
  }

  // ---------- expressions hold their lambdas ----------

  lemma {:induction false} CeHolds(P: Prog, id: int, sc: Scope, ns: nat, endl: Label, e: OExpr)
    requires Ce(P, id, sc, ns, endl, e).Some?
    ensures AllIn(P, LamsE(id, e), The(Ce(P, id, sc, ns, endl, e)).code)
    decreases e, 2
  {
    hide Ce, LamsE, AllIn;
    match e
    case ORet(a) => RetHolds(P, id, sc, ns, endl, e);
    case OLet(_, _, _) => LetHolds(P, id, sc, ns, endl, e);
    case OLetRec(_, _, _) => RecHolds(P, id, sc, ns, endl, e);
    case OIf(_, _, _) => IfHolds(P, id, sc, ns, endl, e);
    case OCase(_, _) => CaseHolds(P, id, sc, ns, endl, e);
    case ODup(_, _) => CountHolds(P, id, sc, ns, endl, e);
    case ODrop(_, _) => CountHolds(P, id, sc, ns, endl, e);
    case ODropReuse(_, _, _) => CountHolds(P, id, sc, ns, endl, e);
  }

  lemma {:induction false} RetHolds(P: Prog, id: int, sc: Scope, ns: nat, endl: Label, e: OExpr)
    requires Ce(P, id, sc, ns, endl, e).Some? && e.ORet?
    ensures AllIn(P, LamsE(id, e), The(Ce(P, id, sc, ns, endl, e)).code)
  {
    NoneIn(P, Ce(P, id, sc, ns, endl, e).value.code);
  }

  // Two parts in sequence, with their lambdas.
  lemma {:induction false} SeqHolds(P: Prog, m: map<int, Lam>, a: Code, mid: Code, m1: map<int, Lam>, b: Code,
                                    lo: int, hi: int)
    requires AllIn(P, m, a) && AllIn(P, m1, b) && Keyed(m1, lo, hi)
    requires (forall k :: k >= lo ==> Lbl(Loc(KLam, k)) !in a) && (forall k :: k >= lo ==> Lbl(Loc(KLam, k)) !in mid)
    ensures AllIn(P, m + m1, a + mid + b)
  {
    hide LamIn;
    AllLeft(P, m, a, mid);
    AllLeft(P, m, a + mid, b);
    AllRight(P, m1, a + mid, b);
    AllBoth(P, m, m1, a + mid + b);
  }

  lemma {:induction false} LetHolds(P: Prog, id: int, sc: Scope, ns: nat, endl: Label, e: OExpr)
    requires Ce(P, id, sc, ns, endl, e).Some? && e.OLet?
    ensures AllIn(P, LamsE(id, e), The(Ce(P, id, sc, ns, endl, e)).code)
    decreases e, 1
  {
    hide Prim, AllIn, LamsP, LamsE;
    var x, p, rest := e.x, e.prim, e.rest;
    LamsLet(id, e);
    if p.PAtom? && p.a.AVar? {
      var i := SlotOf(sc, p.a.x).value;
      CeHolds(P, id, [(x, i)] + sc, ns, endl, rest);
      assert AtomsIds([p.a]) == 0;
      AtomLams(id, p, LamsE(id, rest));
    } else {
      hide Ce;
      var g, b := LetParts(P, id, sc, ns, endl, e);
      PrimHolds(P, id, sc, ns, p);
      CeHolds(P, g.id, [(x, ns)] + sc, ns + 1, endl, rest);
      PrimLabels(P, id, sc, ns, p);
      GenLow(g, id);
      LamsEKeyed(g.id, rest);
      SeqHolds(P, LamsP(id, p), g.code, [StrSlot(0, ns)], LamsE(g.id, rest), b.code, g.id, g.id + ExprIds(rest));
    }
  }

  lemma {:induction false} AtomLams(id: int, p: OPrim, m: map<int, Lam>)
    requires p.PAtom?
    ensures LamsP(id, p) + m == m
  {
  }

  lemma {:induction false} RecHolds(P: Prog, id: int, sc: Scope, ns: nat, endl: Label, e: OExpr)
    requires Ce(P, id, sc, ns, endl, e).Some? && e.OLetRec?
    ensures AllIn(P, LamsE(id, e), The(Ce(P, id, sc, ns, endl, e)).code)
    decreases e, 1
  {
    hide LamCode, AllIn, LamsP, LamsE, Ce, FindIdx;
    var x, p, rest := e.x, e.prim, e.rest;
    var sc1 := [(x, ns)] + sc;
    var g, b := RecParts(P, id, sc, ns, endl, e);
    LamsLet(id, e);
    var patch := match FindIdx(x, p.caps, 0) case None => [] case Some(j) => [LdrSlot(9, ns), StrOff(9, 0, 24 + 8 * j)];
    LamHolds(P, id, sc1, p);
    CeHolds(P, g.id, sc1, ns + 1, endl, rest);
    LamLabels(P, id, sc1, p);
    GenLow(g, id);
    LamsEKeyed(g.id, rest);
    assert g.code + [StrSlot(0, ns)] + patch == g.code + ([StrSlot(0, ns)] + patch);
    SeqHolds(P, LamsP(id, p), g.code, [StrSlot(0, ns)] + patch, LamsE(g.id, rest), b.code, g.id, g.id + ExprIds(rest));
  }

  lemma {:induction false} LamsLet(id: int, e: OExpr)
    requires e.OLet? || e.OLetRec?
    ensures LamsE(id, e) == LamsP(id, e.prim) + LamsE(id + PrimIds(e.prim), e.rest)
  {
    hide LamsP;
  }

  lemma {:induction false} IfHolds(P: Prog, id: int, sc: Scope, ns: nat, endl: Label, e: OExpr)
    requires Ce(P, id, sc, ns, endl, e).Some? && e.OIf?
    ensures AllIn(P, LamsE(id, e), The(Ce(P, id, sc, ns, endl, e)).code)
    decreases e, 1
  {
    hide Ce, AllIn, LdAtom;
    var ld, g1, g2 := IfParts(P, id, sc, ns, endl, e);
    var pre, l := ld.code + [CmpImm(0, 7), BCond(Ne, Loc(KElse, id))], [Lbl(Loc(KElse, id))];
    CeHolds(P, ld.id, sc, ns, endl, e.thn);
    CeHolds(P, g1.id, sc, ns, endl, e.els);
    CeLabels(P, ld.id, sc, ns, endl, e.thn);
    LdAtomLabels(P, id + 1, sc, 0, e.cond);
    GenLow(g1, ld.id);
    LamsEKeyed(ld.id, e.thn);
    LamsEKeyed(g1.id, e.els);
    var m1, m2 := LamsE(ld.id, e.thn), LamsE(g1.id, e.els);
    SeqHolds(P, m1, g1.code, l, m2, g2.code, g1.id, g1.id + ExprIds(e.els));
    AllRight(P, m1 + m2, pre, g1.code + l + g2.code);
    assert pre + (g1.code + l + g2.code) == pre + g1.code + l + g2.code;
  }

  lemma {:induction false} CountHolds(P: Prog, id: int, sc: Scope, ns: nat, endl: Label, e: OExpr)
    requires Ce(P, id, sc, ns, endl, e).Some? && (e.ODup? || e.ODrop? || e.ODropReuse?)
    ensures AllIn(P, LamsE(id, e), The(Ce(P, id, sc, ns, endl, e)).code)
    decreases e, 1
  {
    hide AllIn;
    var i := SlotOf(sc, e.x).value;
    if e.ODropReuse? {
      var g := Ce(P, id, [(e.tok, ns)] + sc, ns + 1, endl, e.rest).value;
      CeHolds(P, id, [(e.tok, ns)] + sc, ns + 1, endl, e.rest);
      AllRight(P, LamsE(id, e.rest), [LdrSlot(0, i), BlRt(DcDropReuse)] + [StrSlot(0, ns)], g.code);
    } else {
      var g := Ce(P, id, sc, ns, endl, e.rest).value;
      CeHolds(P, id, sc, ns, endl, e.rest);
      AllRight(P, LamsE(id, e.rest), [LdrSlot(0, i), BlRt(if e.ODup? then DcDup else DcDrop)], g.code);
    }
  }

  lemma {:induction false} CaseHolds(P: Prog, id: int, sc: Scope, ns: nat, endl: Label, e: OExpr)
    requires Ce(P, id, sc, ns, endl, e).Some? && e.OCase?
    ensures AllIn(P, LamsE(id, e), The(Ce(P, id, sc, ns, endl, e)).code)
    decreases e, 1
  {
    hide AllIn, Cases, LdAtom;
    LdAtomLabels(P, id, sc, 0, e.scrut);
    var at := AtomSlot(P, id, sc, ns, e.scrut).value;
    var g := Cases(P, at.id, sc, at.ns, at.slot, e.brs, endl).value;
    CasesHold(P, at.id, sc, at.ns, at.slot, e.brs, endl);
    AllRight(P, LamsB(at.id, e.brs), at.code, g.code);
  }

  lemma {:induction false} CasesHold(P: Prog, id: int, sc: Scope, ns: nat, base: nat, brs: seq<OBranch>, endl: Label)
    requires Cases(P, id, sc, ns, base, brs, endl).Some?
    ensures AllIn(P, LamsB(id, brs), The(Cases(P, id, sc, ns, base, brs, endl)).code)
    decreases brs, 2
  {
    hide AllIn, Ce, Cm, Cases, LamsE, LamsB, Keyed;
    LamsBStep(id, brs);
    if brs == [] {
      NoneIn(P, Cases(P, id, sc, ns, base, brs, endl).value.code);
    } else {
      var br := brs[0];
      assert brs decreases to br;
      var m, b, rest := CasesParts(P, id, sc, ns, base, brs, endl);
      CeHolds(P, m.id, m.sc, m.ns, endl, br.body);
      CasesHold(P, b.id, sc, ns, base, brs[1..], endl);
      CmLabels(P, id + 1, sc, ns, br.pat, 0, Loc(KNext, id));
      CeLabels(P, m.id, m.sc, m.ns, endl, br.body);
      GenLow(b, m.id);
      LamsEKeyed(m.id, br.body);
      LamsBKeyed(b.id, brs[1..]);
      var pre, l := [LdrSlot(0, base)] + m.code, [Lbl(Loc(KNext, id))];
      var m1, m2 := LamsE(m.id, br.body), LamsB(b.id, brs[1..]);
      SeqHolds(P, m1, b.code, l, m2, rest.code, b.id, b.id + BrsIds(brs[1..]));
      AllRight(P, m1 + m2, pre, b.code + l + rest.code);
      assert pre + (b.code + l + rest.code) == pre + b.code + l + rest.code;
    }
  }

  lemma {:induction false} LamsBStep(id: int, brs: seq<OBranch>)
    ensures brs == [] ==> LamsB(id, brs) == map[]
    ensures brs != [] ==>
              var id1 := id + 1 + PatIds(brs[0].pat);
              LamsB(id, brs) == LamsE(id1, brs[0].body) + LamsB(id1 + ExprIds(brs[0].body), brs[1..])
  {
    hide LamsE;
  }

  lemma {:induction false} PrimHolds(P: Prog, id: int, sc: Scope, ns: nat, p: OPrim)
    requires Prim(P, id, sc, ns, p).Some?
    ensures AllIn(P, LamsP(id, p), The(Prim(P, id, sc, ns, p)).code)
    decreases p, 2
  {
    hide AllIn, Ce, LamCode;
    match p
    case PLam(_, _, _) => LamHolds(P, id, sc, p);
    case PBlock(e) =>
      var g := Ce(P, id + 1, sc, ns, Loc(KBlock, id), e).value;
      CeHolds(P, id + 1, sc, ns, Loc(KBlock, id), e);
      AllLeft(P, LamsE(id + 1, e), g.code, [Lbl(Loc(KBlock, id))]);
    case _ => NoneIn(P, Prim(P, id, sc, ns, p).value.code);
  }

  lemma {:induction false} LamHolds(P: Prog, id: int, sc: Scope, p: OPrim)
    requires p.PLam? && LamCode(P, id, sc, p).Some?
    ensures AllIn(P, LamsP(id, p), The(LamCode(P, id, sc, p)).code)
    decreases p, 1
  {
    hide AllIn, LamBody, MkClosureCode;
    var g := LamBody(P, id, p.pat, p.body, p.caps).value;
    var slots := SlotsOf(sc, p.caps).value;
    var lam, b, tail := Lam(p.pat, p.body, p.caps), [B(Loc(KSkip, id))],
        [Lbl(Loc(KSkip, id))] + MkClosureCode(SLam(id), slots);
    var here := [Lbl(Loc(KLam, id))] + g.code + tail;
    assert LamCode(P, id, sc, p).value.code == b + here;
    PlacedHere(Loc(KLam, id), g.code, tail);
    OneIn(P, id, lam, here);
    AllRight(P, map[id := lam], b, here);
    LamBodyHolds(P, id, p.pat, p.body, p.caps);
    LamsEKeyed(id + 1 + PatIds(p.pat), p.body);
    var m := LamsE(id + 1 + PatIds(p.pat), p.body);
    var head := b + [Lbl(Loc(KLam, id))];
    AllAfter(P, m, head, g.code, tail, id + 1, id + 1 + PatIds(p.pat) + ExprIds(p.body));
    assert head + g.code + tail == b + here;
    AllBoth(P, map[id := lam], m, b + here);
  }

  lemma {:induction false} OneIn(P: Prog, id: int, lam: Lam, code: Code)
    requires LamIn(P, id, lam, code)
    ensures AllIn(P, map[id := lam], code)
  {
    hide LamIn;
  }

  lemma {:induction false} LamBodyHolds(P: Prog, id: int, pat: Pat, body: OExpr, caps: seq<string>)
    requires LamBody(P, id, pat, body, caps).Some?
    ensures AllIn(P, LamsE(id + 1 + PatIds(pat), body), The(LamBody(P, id, pat, body, caps)).code)
    decreases body, 3
  {
    hide AllIn, Ce, Cm, LdEnv;
    var env := LdEnv(0, |caps|).value;
    var m := Cm(P, id + 1, ZipSlots(caps, 0), |caps|, pat, 1, Loc(KFail, id)).value;
    var g := Ce(P, m.id, m.sc, m.ns, Loc(KEnd, id), body).value;
    CeHolds(P, m.id, m.sc, m.ns, Loc(KEnd, id), body);
    LdEnvLabels(0, |caps|);
    CmLabels(P, id + 1, ZipSlots(caps, 0), |caps|, pat, 1, Loc(KFail, id));
    LamsEKeyed(m.id, body);
    var pre, e1, e2 := [Prologue] + env + m.code, [Lbl(Loc(KEnd, id)), Epilogue],
        [Lbl(Loc(KFail, id)), BlRt(DcMatchFail)];
    AllAfter(P, LamsE(m.id, body), pre, g.code, e1 + e2, m.id, m.id + ExprIds(body));
    assert pre + g.code + (e1 + e2) == pre + g.code + e1 + e2;
  }
}

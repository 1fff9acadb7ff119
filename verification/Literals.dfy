// The integer literals gen5/g5_cg.dc can compile: it tags a literal in its own
// 62-bit arithmetic before the constant is emitted.
module Literals {
  import opened Syntax
  import opened Oir

  // The constant emitted for the literal n.
  function TagLit(n: int): int { Wrap62(n * 4 + 1) }

  predicate LitOk(n: int) { -0x800_0000_0000_0000 <= n < 0x800_0000_0000_0000 }

  // Of the integers of the language, exactly those below 2^59 in size come out
  // as themselves.
  lemma {:induction false} TagLitExact(n: int)
    requires -W62 / 2 <= n < W62 / 2
    ensures TagLit(n) == IntWord(n) <==> LitOk(n)
  {
  }

  // The first literal that does not is emitted as its negative.
  lemma {:induction false} TagLitWraps()
    ensures TagLit(0x800_0000_0000_0000) == IntWord(-0x800_0000_0000_0000) != IntWord(0x800_0000_0000_0000)
  {
  }

  // ---------- literals in range, throughout ----------

  predicate AtomLits(a: OAtom) { a.AInt? ==> LitOk(a.n) }

  predicate AtomsLits(atoms: seq<OAtom>) { forall a :: a in atoms ==> AtomLits(a) }

  predicate PatLits(p: Pat) {
    match p
    case PInt(k) => LitOk(k)
    case PTup(ps) => PatsLits(ps)
    case PCtor(_, ps) => PatsLits(ps)
    case _ => true
  }

  predicate PatsLits(ps: seq<Pat>) { ps == [] || (PatLits(ps[0]) && PatsLits(ps[1..])) }

  // The byte count of a block of so many fields is formed exactly.
  predicate Short<T>(xs: seq<T>) { |xs| < 0x100_0000_0000 }

  predicate PrimLits(p: OPrim) {
    match p
    case PAtom(a) => AtomLits(a)
    case PApp(f, a) => AtomsLits([f, a])
    case PCall(_, args) => AtomsLits(args)
    case PBi(_, args) => AtomsLits(args)
    case PMkCtor(_, args, _) => AtomsLits(args)
    case PMkTup(args, _) => AtomsLits(args) && Short(args)
    case PLam(pat, body, _) => PatLits(pat) && ExprLits(body)
    case PBin(_, a, b) => AtomsLits([a, b])
    case PBlock(e) => ExprLits(e)
  }

  predicate ExprLits(e: OExpr) {
    match e
    case ORet(a) => AtomLits(a)
    case OLet(_, p, rest) => PrimLits(p) && ExprLits(rest)
    case OLetRec(_, p, rest) => PrimLits(p) && ExprLits(rest)
    case OIf(a, e1, e2) => AtomLits(a) && ExprLits(e1) && ExprLits(e2)
    case OCase(a, brs) => AtomLits(a) && BrsLits(brs)
    case ODup(_, rest) => ExprLits(rest)
    case ODrop(_, rest) => ExprLits(rest)
    case ODropReuse(_, _, rest) => ExprLits(rest)
  }

  predicate BrsLits(brs: seq<OBranch>) {
    brs == [] || (
      var br := brs[0];
      assert brs decreases to br;
      PatLits(br.pat) && ExprLits(br.body) && BrsLits(brs[1..]))
  }

  predicate LamLits(lam: Lam) { PatLits(lam.pat) && ExprLits(lam.body) }

  predicate DefLits(d: ODef) { PatsLits(d.params) && ExprLits(d.body) }

  ghost predicate ProgLits(P: Prog) {
    && (forall k :: k in P.lams ==> LamLits(P.lams[k]))
    && (forall f :: f in P.defs ==> DefLits(P.defs[f]))
  }
}

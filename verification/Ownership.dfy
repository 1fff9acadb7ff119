// Which ownership programs are well owned (the positions of gen5/g5_oir.dc):
// every owned variable consumed exactly once on every path, every borrowed
// variable used only while its owner is owned.
module Ownership {
  import opened Types
  import opened Syntax
  import opened Oir

  // own: references this scope must give up, with multiplicity. bor: variables
  // lent by an owned variable, or by someone outside the scope (owner "").
  // toks: reuse tokens not used yet.
  datatype Ctx = Ctx(own: multiset<string>, bor: map<string, string>, toks: set<string>)

  predicate Unused(c: Ctx, x: string) {
    x != "" && x !in c.own && x !in c.bor && x !in c.toks && forall y :: y in c.bor ==> c.bor[y] != x
  }

  predicate Usable(c: Ctx, a: OAtom) { a.AVar? ==> a.x in c.own || a.x in c.bor }

  // Loans end with the last reference of their owner.
  function Standing(own: multiset<string>, bor: map<string, string>): map<string, string> {
    map y | y in bor && (bor[y] == "" || bor[y] in own) :: bor[y]
  }

  function Consume(c: Ctx, x: string): Ctx
    requires x in c.own
  {
    var own := c.own - multiset{x};
    Ctx(own, Standing(own, c.bor), c.toks)
  }

  function Gain(c: Ctx, x: string): Ctx { c.(own := c.own + multiset{x}) }

  // Consume the variables in consumed positions, left to right.
  function Take(c: Ctx, atoms: seq<OAtom>, flags: seq<bool>): Option<Ctx>
    decreases |atoms|
  {
    if atoms == [] then Some(c)
    else if atoms[0].AVar? && Flag(flags) then
      if atoms[0].x in c.own then Take(Consume(c, atoms[0].x), atoms[1..], Later(flags)) else None
    else Take(c, atoms[1..], Later(flags))
  }

  // The variables in borrowed positions must outlive that.
  predicate Lent(c: Ctx, atoms: seq<OAtom>, flags: seq<bool>)
    decreases |atoms|
  {
    atoms != [] ==> (Flag(flags) || Usable(c, atoms[0])) && Lent(c, atoms[1..], Later(flags))
  }

  function Use(c: Ctx, atoms: seq<OAtom>, flags: seq<bool>): Option<Ctx> {
    var c1 :- Take(c, atoms, flags);
    if Lent(c1, atoms, flags) then Some(c1) else None
  }

  function VarAtoms(xs: seq<string>): seq<OAtom> {
    if xs == [] then [] else [AVar(xs[0])] + VarAtoms(xs[1..])
  }

  function Without(x: string, xs: seq<string>): seq<string> {
    if xs == [] then [] else if xs[0] == x then Without(x, xs[1..]) else [xs[0]] + Without(x, xs[1..])
  }

  function UseToken(c: Ctx, tok: string): Option<Ctx> {
    if tok == "" then Some(c) else if tok in c.toks then Some(c.(toks := c.toks - {tok})) else None
  }

  // The scope after a primitive; a block is split off separately.
  function PrimCtx(P: Prog, c: Ctx, p: OPrim): Option<Ctx> {
    match p
    case PAtom(a) => Use(c, [a], [true])
    case PApp(f, a) => Use(c, [f, a], [false, true])
    case PCall(f, args) => if f in P.defs then Use(c, args, P.defs[f].modes) else None
    case PBi(_, args) => Use(c, args, [])
    case PMkCtor(_, args, tok) =>
      var c1 :- Use(c, args, Trues(|args|));
      UseToken(c1, tok)
    case PMkTup(args, tok) =>
      var c1 :- Use(c, args, Trues(|args|));
      UseToken(c1, tok)
    case PLam(_, _, caps) => Take(c, VarAtoms(caps), Trues(|caps|))
    case PBin(_, a, b) => Use(c, [a, b], [])
    case PBlock(_) => None
  }

  // Inside a block that consumes inner: everything else is lent by outside.
  function BlockCtx(c: Ctx, inner: multiset<string>): Ctx {
    Ctx(inner, BlockLoans(c, c.own - inner, inner), {})
  }

  function BlockLoans(c: Ctx, rest: multiset<string>, inner: multiset<string>): map<string, string> {
    map y | y in c.bor.Keys + (set z | z in rest) ::
      if y in rest || c.bor[y] == "" || c.bor[y] in rest then "" else c.bor[y]
  }

  function Leave(c: Ctx, inner: multiset<string>): Ctx {
    var own := c.own - inner;
    Ctx(own, Standing(own, c.bor), c.toks)
  }

  // x takes over y's reference, and what y lent.
  function Move(c: Ctx, y: string, x: string): Ctx
    requires y in c.own
  {
    var own := c.own - multiset{y};
    if y in own then Ctx(own + multiset{x}, c.bor, c.toks)
    else Ctx(own + multiset{x}, map z | z in c.bor :: if c.bor[z] == y then x else c.bor[z], c.toks)
  }

  function PatVars(p: Pat): set<string> {
    match p
    case PVar(x) => {x}
    case PTup(ps) => PatsVars(ps)
    case PCtor(_, ps) => PatsVars(ps)
    case _ => {}
  }

  function PatsVars(ps: seq<Pat>): set<string> {
    if ps == [] then {} else PatVars(ps[0]) + PatsVars(ps[1..])
  }

  // Who lends the parts of a matched value.
  function OwnerOf(c: Ctx, a: OAtom): string {
    if a.AVar? then (if a.x in c.bor then c.bor[a.x] else a.x) else ""
  }

  function Lend(c: Ctx, owner: string, xs: set<string>): Ctx {
    c.(bor := map y | y in c.bor.Keys + xs :: if y in xs then owner else c.bor[y])
  }

  // ---------- the judgement ----------

  ghost predicate WellOwned(P: Prog, c: Ctx, e: OExpr)
    decreases e, 1
  {
    match e
    case ORet(a) =>
      var c1 := Use(c, [a], [true]);
      c1.Some? && c1.value.own == multiset{} && c.toks == {}
    case OLet(x, p, rest) =>
      Unused(c, x) &&
      (match p
       case PBlock(_) => BlockOwned(P, c, e)
       case PAtom(AVar(y)) => y in c.own && WellOwned(P, Move(c, y, x), rest)
       case _ => PrimCtx(P, c, p).Some? && WellOwned(P, Gain(PrimCtx(P, c, p).value, x), rest))
    case OLetRec(x, p, rest) =>
      Unused(c, x) && p.PLam? &&
      (var caps := Without(x, p.caps);
       var c1 := Take(c, VarAtoms(caps), Trues(|caps|));
       c1.Some? && WellOwned(P, Gain(c1.value, x), rest))
    case OIf(a, e1, e2) => Usable(c, a) && WellOwned(P, c, e1) && WellOwned(P, c, e2)
    case OCase(a, brs) => Usable(c, a) && BranchesOwned(P, c, OwnerOf(c, a), brs)
    case ODup(x, rest) => x != "" && Usable(c, AVar(x)) && WellOwned(P, Gain(c, x), rest)
    case ODrop(x, rest) => x in c.own && WellOwned(P, Consume(c, x), rest)
    case ODropReuse(x, tok, rest) =>
      x in c.own && Unused(c, tok) &&
      (var c1 := Consume(c, x);
       WellOwned(P, c1.(toks := c1.toks + {tok}), rest))
  }

  // Some part of the owned variables is what the block consumes.
  ghost predicate BlockOwned(P: Prog, c: Ctx, e: OExpr)
    requires e.OLet? && e.prim.PBlock?
    decreases e, 0
  {
    exists inner ::
      inner <= c.own && WellOwned(P, BlockCtx(c, inner), e.prim.blk) && WellOwned(P, Gain(Leave(c, inner), e.x), e.rest)
  }

  ghost predicate BranchesOwned(P: Prog, c: Ctx, owner: string, brs: seq<OBranch>)
    decreases brs, 0
  {
    brs != [] ==>
      var br := brs[0];
      assert brs decreases to br;
      && (forall y :: y in PatVars(br.pat) ==> Unused(c, y))
      && WellOwned(P, Lend(c, owner, PatVars(br.pat)), br.body)
      && BranchesOwned(P, c, owner, brs[1..])
  }

  function AllLent(xs: seq<string>): map<string, string> { map y | y in xs :: "" }

  // A lambda owns its parameter and borrows its captures.
  ghost predicate LamOwned(P: Prog, lam: Lam) {
    && lam.pat.PVar? && lam.pat.name != "" && lam.pat.name !in lam.caps
    && WellOwned(P, Ctx(multiset{lam.pat.name}, AllLent(lam.caps), {}), lam.body)
  }

  function ParamNames(ps: seq<Pat>): seq<string>
    requires forall p :: p in ps ==> p.PVar?
  {
    if ps == [] then [] else [ps[0].name] + ParamNames(ps[1..])
  }

  // Names whose mode is the given one.
  function OfMode(xs: seq<string>, modes: seq<bool>, mode: bool): seq<string>
    requires |xs| == |modes|
  {
    if xs == [] then []
    else (if modes[0] == mode then [xs[0]] else []) + OfMode(xs[1..], modes[1..], mode)
  }

  predicate Distinct(xs: seq<string>) { forall i, j :: 0 <= i < j < |xs| ==> xs[i] != xs[j] }

  ghost predicate DefOwned(P: Prog, d: ODef) {
    && |d.params| == |d.modes| && (forall p :: p in d.params ==> p.PVar? && p.name != "")
    && var xs := ParamNames(d.params);
    && |xs| == |d.modes| && Distinct(xs)
    && WellOwned(P, Ctx(multiset(OfMode(xs, d.modes, true)), AllLent(OfMode(xs, d.modes, false)), {}), d.body)
  }

  ghost predicate ProgOwned(P: Prog) {
    && (forall k :: k in P.lams ==> LamOwned(P, P.lams[k]))
    && (forall f :: f in P.defs ==> DefOwned(P, P.defs[f]))
  }
}

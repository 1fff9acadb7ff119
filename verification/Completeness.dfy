// Algorithm W is complete and principal: whenever the declarative rules give an
// expression a type, inference succeeds and what it reports has that type among
// its instances. Constructor patterns must be full, as the checker demands with
// a message of its own.
module Completeness {
  import opened Types
  import opened Unification
  import opened Syntax
  import opened AlgorithmW
  import opened Frames
  import opened Declarative
  import opened Soundness

  // ---------- assignments that agree on what is in use ----------

  ghost predicate AgreeBelow(f: Assign, g: Assign, n: int) {
    forall x :: x < n ==> f(x) == g(x)
  }

  lemma {:induction false} AgreeTy(f: Assign, g: Assign, n: int, t: Ty)
    requires AgreeBelow(f, g, n) && Below(t, n)
    ensures Map(f, t) == Map(g, t)
  {
    MapExt(f, g, t);
  }

  lemma {:induction false} AgreeSolves(f: Assign, g: Assign, n: int, s: Sub)
    requires AgreeBelow(f, g, n) && Solves(g, s) && forall x :: x in SubVars(s) ==> x < n
    ensures Solves(f, s)
  {
    match s
    case Empty =>
    case Bind(v, u, r) =>
      assert {v} + FV(u) + SubVars(r) == SubVars(s);
      assert v in SubVars(s);
      MapExt(f, g, u);
      AgreeSolves(f, g, n, r);
  }

  // Assignments that agree on a type agree on its variables.
  lemma {:induction false} MapInjective(f: Assign, g: Assign, t: Ty, x: int)
    requires Map(f, t) == Map(g, t) && x in FV(t)
    ensures f(x) == g(x)
  {
    match t
    case TVI(_) =>
    case TAr(a, b) => if x in FV(a) { MapInjective(f, g, a, x); } else { MapInjective(f, g, b, x); }
    case TTup(ts) => MapsInjective(f, g, ts, x);
    case TApp(_, ts) => MapsInjective(f, g, ts, x);
  }

  lemma {:induction false} MapsInjective(f: Assign, g: Assign, ts: Tys, x: int)
    requires Maps(f, ts) == Maps(g, ts) && x in FVs(ts)
    ensures f(x) == g(x)
  {
    match ts
    case Cons(h, r) => if x in FV(h) { MapInjective(f, g, h, x); } else { MapsInjective(f, g, r, x); }
  }

  function At(th: Assign, x: int, t: Ty): Assign { y => if y == x then t else th(y) }

  // A fresh variable may stand for anything.
  lemma {:induction false} AtFresh(th: Assign, s: TIS, t: Ty)
    requires StOk(s) && Solves(th, s.sub)
    ensures Solves(At(th, s.ctr, t), s.sub) && AgreeBelow(At(th, s.ctr, t), th, s.ctr)
  {
    AgreeSolves(At(th, s.ctr, t), th, s.ctr, s.sub);
  }

  // The environment's meaning depends on the variables in use only.
  lemma {:induction false} SemBelow(f: Assign, g: Assign, env: Env, s: TIS)
    requires StOk(s) && EnvBelow(env, s.ctr) && AgreeBelow(f, g, s.ctr)
    ensures Sem(f, s.sub, env) == Sem(g, s.sub, env)
  {
    hide Sem;
    forall x | Active(x, env, s.sub) ensures f(x) == g(x) {
      var b :| b in env && Free(x, b.sch, s.sub);
      ApVars(s.sub, b.sch.ty);
    }
    SemAgree(f, g, s.sub, env);
  }

  // A step keeps the meaning of the environment under a later solution.
  lemma {:induction false} SemMoves(th: Assign, th1: Assign, env: Env, s: TIS, s1: TIS, t: Ty)
    requires EnvOk(env, s) && AllStep(s, s1, t, env) && Solves(th1, s1.sub) && AgreeBelow(th1, th, s.ctr)
    ensures Sem(th1, s1.sub, env) == Sem(th, s.sub, env) && EnvOk(env, s1)
  {
    hide Sem, Step, Inert;
    Stable(th1, env, s, s1, t);
    SemBelow(th1, th, env, s);
  }

  lemma {:induction false} UnifyComplete(a: Ty, b: Ty, s: TIS, th: Assign)
    requires Solves(th, s.sub) && Map(th, a) == Map(th, b)
    ensures UnifyS(a, b, s).Some? && Solves(th, The(UnifyS(a, b, s)).sub)
  {
    UnifyExact(th, a, b, s.sub);
  }

  // ---------- constructor names and types ----------

  // What the lexer makes a constructor of.
  predicate Upper(name: string) { name != "" && 'A' <= name[0] <= 'Z' }

  function Arity(t: Ty): nat {
    match t case TAr(_, b) => 1 + Arity(b) case _ => 0
  }

  // A function type down to a result that is neither function nor variable.
  predicate Solid(t: Ty) {
    match t case TAr(_, b) => Solid(b) case TVI(_) => false case _ => true
  }

  // Constructors in scope have solid types, of the arities ar.
  ghost predicate CtorsAt(env: Env, ar: string -> nat) {
    forall n :: Upper(n) && Has(env, n) ==> Solid(Find(env, n).ty) && Arity(Find(env, n).ty) == ar(n)
  }

  // Binders are variables and patterns' heads are constructors, as the parser
  // leaves them.
  predicate PatCased(p: Pat) {
    match p
    case PVar(n) => !Upper(n)
    case PTup(ps) => PatsCased(ps)
    case PCtor(n, ps) => Upper(n) && PatsCased(ps)
    case _ => true
  }

  predicate PatsCased(ps: seq<Pat>) { ps == [] || (PatCased(ps[0]) && PatsCased(ps[1..])) }

  predicate Cased(e: Expr)
    decreases e
  {
    match e
    case ELam(p, b) => PatCased(p) && Cased(b)
    case EApp(f, a) => Cased(f) && Cased(a)
    case EBin(_, l, r) => Cased(l) && Cased(r)
    case EIf(c, t, f) => Cased(c) && Cased(t) && Cased(f)
    case ECase(x, brs) => Cased(x) && BranchesCased(brs)
    case ELet(_, n, r, b) => !Upper(n) && Cased(r) && Cased(b)
    case ETup(es) => AllCased(es)
    case EAnn(x, _) => Cased(x)
    case _ => true
  }

  predicate AllCased(es: seq<Expr>) { es == [] || (Cased(es[0]) && AllCased(es[1..])) }

  predicate BranchesCased(brs: seq<Branch>) {
    if brs == [] then true
    else
      var br := brs[0];
      assert brs decreases to br;
      PatCased(br.pat) && Cased(br.body) && BranchesCased(brs[1..])
  }

  // Every constructor pattern has as many fields as its constructor.
  predicate PatFull(p: Pat, ar: string -> nat) {
    match p
    case PTup(ps) => PatsFull(ps, ar)
    case PCtor(n, ps) => |ps| == ar(n) && PatsFull(ps, ar)
    case _ => true
  }

  predicate PatsFull(ps: seq<Pat>, ar: string -> nat) { ps == [] || (PatFull(ps[0], ar) && PatsFull(ps[1..], ar)) }

  predicate Full(e: Expr, ar: string -> nat)
    decreases e
  {
    match e
    case ELam(p, b) => PatFull(p, ar) && Full(b, ar)
    case EApp(f, a) => Full(f, ar) && Full(a, ar)
    case EBin(_, l, r) => Full(l, ar) && Full(r, ar)
    case EIf(c, t, f) => Full(c, ar) && Full(t, ar) && Full(f, ar)
    case ECase(x, brs) => Full(x, ar) && BranchesFull(brs, ar)
    case ELet(_, _, r, b) => Full(r, ar) && Full(b, ar)
    case ETup(es) => AllFull(es, ar)
    case EAnn(x, _) => Full(x, ar)
    case _ => true
  }

  predicate AllFull(es: seq<Expr>, ar: string -> nat) { es == [] || (Full(es[0], ar) && AllFull(es[1..], ar)) }

  predicate BranchesFull(brs: seq<Branch>, ar: string -> nat) {
    if brs == [] then true
    else
      var br := brs[0];
      assert brs decreases to br;
      PatFull(br.pat, ar) && Full(br.body, ar) && BranchesFull(brs[1..], ar)
  }

  // An instantiated solid type splits at its arity.
  lemma {:induction false} DecompSolid(t: Ty, mp: seq<(int, int)>, s: Sub)
    requires WF(s) && Solid(t)
    ensures Length(DecompArgs(InstRewrite(t, mp, s), s).0) == Arity(t)
    decreases t
  {
    if t.TAr? { DecompSolid(t.cod, mp, s); }
  }

  lemma {:induction false} ArrowsInjective(a: Tys, x: Ty, b: Tys, y: Ty)
    requires MkArrows(a, x) == MkArrows(b, y) && Length(a) == Length(b)
    ensures a == b && x == y
  {
    match a
    case Nil =>
    case Cons(_, r) => ArrowsInjective(r, x, b.tl, y);
  }

  // Variables in front do not hide constructors.
  lemma {:induction false} CtorsBind(bs: Env, env: Env, ar: string -> nat)
    requires CtorsAt(env, ar) && forall b :: b in bs ==> !Upper(b.name)
    ensures CtorsAt(bs + env, ar)
  {
    if bs == [] {
      assert bs + env == env;
    } else {
      assert (bs + env)[1..] == bs[1..] + env && (bs + env)[0] == bs[0];
      assert bs[0] in bs;
      CtorsBind(bs[1..], env, ar);
      forall n | Upper(n) && Has(bs + env, n)
        ensures Solid(Find(bs + env, n).ty) && Arity(Find(bs + env, n).ty) == ar(n)
      {
        assert Has(bs[1..] + env, n) && Find(bs + env, n) == Find(bs[1..] + env, n);
      }
    }
  }

  // ---------- instances ----------

  // The fresh copies of qs from base on stand for what rho makes of them.
  function Renewed(th: Assign, base: int, qs: seq<int>, rho: Assign): Assign {
    x => if base <= x < base + |qs| then rho(qs[x - base]) else th(x)
  }

  lemma {:induction false} RenewedAt(th: Assign, base: int, qs: seq<int>, rho: Assign, x: int)
    requires x < base
    ensures Over(th, qs, rho)(x) == Map(Renewed(th, base, qs, rho), Ren(ZipIds(qs, base))(x))
  {
    hide FindInt, ZipIds;
    FindZip(qs, base, x);
    if x in qs { ZipAt(qs, base, x); }
  }

  // Every meaning of a scheme is reached by instantiating it afresh.
  lemma {:induction false} InstComplete(sch: Sch, s: TIS, th: Assign, t: Ty) returns (th1: Assign)
    requires StOk(s) && Below(sch.ty, s.ctr) && Solves(th, s.sub) && t in SemInst(th, s.sub, sch)
    ensures Solves(th1, s.sub) && AgreeBelow(th1, th, s.ctr) && Map(th1, Instantiate(sch, s).1) == t
  {
    hide InstRewrite, Solves, WF, ZipIds, Map, Over, Ren, Ap;
    var rho: Assign :| t == Map(Over(th, sch.qs, rho), Ap(s.sub, sch.ty));
    var ity := Instantiate(sch, s).1;
    th1 := Renewed(th, s.ctr, sch.qs, rho);
    DomVars(s.sub);
    AgreeSolves(th1, th, s.ctr, s.sub);
    InstMeans(sch.ty, sch.qs, s.ctr, s.sub);
    MapAp(th1, s.sub, ity);
    ApVars(s.sub, sch.ty);
    forall x | x in FV(Ap(s.sub, sch.ty)) ensures Over(th, sch.qs, rho)(x) == Map(th1, Ren(ZipIds(sch.qs, s.ctr))(x)) {
      RenewedAt(th, s.ctr, sch.qs, rho, x);
    }
    MapMap(th1, Ren(ZipIds(sch.qs, s.ctr)), Over(th, sch.qs, rho), Ap(s.sub, sch.ty));
  }

  lemma {:induction false} ZipAt(qs: seq<int>, base: int, x: int)
    requires x in qs
    ensures var y := FindInt(ZipIds(qs, base), x); base <= y < base + |qs| && qs[y - base] == x
  {
    var zs := ZipIds(qs, base);
    assert zs[0] == (qs[0], base) && zs[1..] == ZipIds(qs[1..], base + 1);
    if qs[0] != x { ZipAt(qs[1..], base + 1, x); }
  }

  // A name usable at t is bound, to a scheme with t among its meanings.
  lemma {:induction false} UsableFind(th: Assign, s: Sub, env: Env, name: string, t: Ty)
    requires UsableAt(Sem(th, s, env), name, t)
    ensures Has(env, name) && t in SemInst(th, s, Find(env, name))
  {
    hide SemInst;
    if env != [] && env[0].name != name { UsableFind(th, s, env[1..], name, t); }
  }

  lemma {:induction false} VarComplete(name: string, env: Env, s: TIS, th: Assign, t: Ty) returns (th1: Assign)
    requires EnvOk(env, s) && Solves(th, s.sub) && UsableAt(Sem(th, s.sub, env), name, t)
    ensures Has(env, name) && Solves(th1, s.sub) && AgreeBelow(th1, th, s.ctr)
    ensures Map(th1, Instantiate(Find(env, name), s).1) == t
  {
    hide Sem, SemInst, Instantiate, Inert;
    UsableFind(th, s.sub, env, name, t);
    FindIn(env, name);
    th1 := InstComplete(Find(env, name), s, th, t);
  }

  // ---------- patterns ----------

  function ElemAt(ts: Tys, i: nat): Ty
    requires i < Length(ts)
  {
    if i == 0 then ts.hd else ElemAt(ts.tl, i - 1)
  }

  // Fresh variables base, base + 1, ... for the types ts.
  function Spread(th: Assign, base: int, ts: Tys): Assign {
    x => if base <= x < base + Length(ts) then ElemAt(ts, x - base) else th(x)
  }

  lemma {:induction false} SpreadTvis(base: int, ts: Tys, f: Assign)
    requires forall i :: 0 <= i < Length(ts) ==> f(base + i) == ElemAt(ts, i)
    ensures Maps(f, MkTvis(base, Length(ts))) == ts
    decreases ts
  {
    match ts
    case Nil =>
    case Cons(h, r) =>
      assert f(base + 0) == ElemAt(ts, 0);
      forall i | 0 <= i < Length(r) ensures f(base + 1 + i) == ElemAt(r, i) {
        assert f(base + (i + 1)) == ElemAt(ts, i + 1);
      }
      SpreadTvis(base + 1, r, f);
  }

  lemma {:induction false} PatsLength(g: Ctx, ps: seq<Pat>, ts: Tys, b0: Ctx, b1: Ctx)
    requires PatsTy(g, ps, ts, b0, b1)
    ensures Length(ts) == |ps|
  {
    hide PatTy;
    if ps != [] {
      var b :| PatTy(g, ps[0], ts.hd, b0, b) && PatsTy(g, ps[1..], ts.tl, b, b1);
      PatsLength(g, ps[1..], ts.tl, b, b1);
    }
  }

  lemma {:induction false} MonoBelow(f: Assign, g: Assign, n: int, binds: Env)
    requires AgreeBelow(f, g, n) && EnvBelow(binds, n)
    ensures MonoCtx(f, binds) == MonoCtx(g, binds)
  {
    if binds != [] {
      assert binds[0] in binds;
      AgreeTy(f, g, n, binds[0].sch.ty);
      assert forall b :: b in binds[1..] ==> b in binds;
      MonoBelow(f, g, n, binds[1..]);
    }
  }

  // Something that kept a pattern's promises kept the environment's meaning.
  lemma {:induction false} PatMoves(th: Assign, th1: Assign, ty1: Ty, binds: Env, b1: Env, env: Env, s: TIS, s1: TIS)
    requires EnvOk(env, s) && PatKept(ty1, binds, b1, env, s, s1) && Solves(th1, s1.sub) && AgreeBelow(th1, th, s.ctr)
    ensures Sem(th1, s1.sub, env) == Sem(th, s.sub, env)
  {
    hide Sem, Untouched;
    forall q | Quant(q, env) ensures q !in Dom(s.sub) { InertUnbound(q, env, s); }
    SemStable(th1, s, s1, env);
    SemBelow(th1, th, env, s);
  }

  lemma {:induction false} PatComplete(pat: Pat, ty: Ty, binds: Env, env: Env, s: TIS, th: Assign, ar: string -> nat,
                                       b1: Ctx)
    returns (th1: Assign)
    requires PatReady(ty, binds, env, s) && Solves(th, s.sub) && CtorsAt(env, ar) && PatCased(pat) && PatFull(pat, ar)
    requires PatTy(Sem(th, s.sub, env), pat, Map(th, ty), MonoCtx(th, binds), b1)
    ensures InferPat(pat, ty, binds, env, s).Some?
    ensures var (s1, bs) := The(InferPat(pat, ty, binds, env, s));
            Solves(th1, s1.sub) && AgreeBelow(th1, th, s.ctr) && b1 == MonoCtx(th1, bs)
    decreases pat, 1
  {
    hide Unify, Ap, Sem, Inert, CtorsAt;
    th1 := th;
    match pat
    case PTup(ps) => th1 := TupComplete(ps, ty, binds, env, s, th, ar, b1);
    case PCtor(name, ps) => th1 := CtorComplete(name, ps, ty, binds, env, s, th, ar, b1);
    case PVar(n) =>
    case PWild =>
    case PInt(_) => UnifyComplete(ty, TC("Int"), s, th);
    case PBool(_) => UnifyComplete(ty, TC("Bool"), s, th);
    case PStr(_) => UnifyComplete(ty, TC("String"), s, th);
    case PUnit => UnifyComplete(ty, TC("Unit"), s, th);
  }

  // After the unification of a tuple pattern its elements may be typed.
  lemma {:induction false} TupKept(n: nat, ty: Ty, binds: Env, env: Env, s: TIS, s1: TIS)
    requires PatReady(ty, binds, env, s) && UnifyS(ty, TTup(MkTvis(s.ctr, n)), s.(ctr := s.ctr + n)) == Some(s1)
    ensures PatKept(TTup(MkTvis(s.ctr, n)), binds, binds, env, s, s1) && Length(MkTvis(s.ctr, n)) == n
  {
    hide Unify, Chase, Extends, Untouched, Inert, MkTvis;
    TupMid(ty, n, binds, env, s, s1, 0);
    forall q | Quant(q, env)
      ensures Untouched(q, s.sub, s1.sub) && Inert(q, binds + env, s1) && Inert(q, env, s1)
           && q !in FV(Ap(s1.sub, TTup(MkTvis(s.ctr, n))))
    {
      TupMid(ty, n, binds, env, s, s1, q);
      InertOuter(q, binds, env, s1);
    }
  }

  lemma {:induction false} TupComplete(ps: seq<Pat>, ty: Ty, binds: Env, env: Env, s: TIS, th: Assign,
                                       ar: string -> nat, b1: Ctx)
    returns (th1: Assign)
    requires PatReady(ty, binds, env, s) && Solves(th, s.sub) && CtorsAt(env, ar) && PatsCased(ps) && PatsFull(ps, ar)
    requires PatTy(Sem(th, s.sub, env), PTup(ps), Map(th, ty), MonoCtx(th, binds), b1)
    ensures InferPat(PTup(ps), ty, binds, env, s).Some?
    ensures var (s1, bs) := The(InferPat(PTup(ps), ty, binds, env, s));
            Solves(th1, s1.sub) && AgreeBelow(th1, th, s.ctr) && b1 == MonoCtx(th1, bs)
    decreases ps, 1
  {
    hide Unify, Sem, Inert, CtorsAt, MkTvis, InferPats, PatsTy, Untouched, MonoCtx, UnifyS, PatCased, PatFull, Below;
    hide SubVars, Ap, FV, Instantiate;
    var g := Sem(th, s.sub, env);
    var ts: Tys :| Map(th, ty) == TTup(ts) && PatsTy(g, ps, ts, MonoCtx(th, binds), b1);
    PatsLength(g, ps, ts, MonoCtx(th, binds), b1);
    var tvs, s0 := MkTvis(s.ctr, |ps|), s.(ctr := s.ctr + |ps|);
    var th0 := Spread(th, s.ctr, ts);
    AgreeSolves(th0, th, s.ctr, s.sub);
    SpreadTvis(s.ctr, ts, th0);
    AgreeTy(th0, th, s.ctr, ty);
    assert Map(th0, TTup(tvs)) == TTup(Maps(th0, tvs));
    UnifyComplete(ty, TTup(tvs), s0, th0);
    var s1 := UnifyS(ty, TTup(tvs), s0).value;
    TupKept(|ps|, ty, binds, env, s, s1);
    PatMoves(th, th0, TTup(tvs), binds, binds, env, s, s1);
    MonoBelow(th0, th, s.ctr, binds);
    th1 := PatsComplete(ps, tvs, binds, env, s1, th0, ar, b1);
  }

  lemma {:induction false} CtorKept(name: string, ty: Ty, binds: Env, env: Env, s: TIS, s1: TIS)
    requires PatReady(ty, binds, env, s) && Has(env, name)
    requires var (s0, ity) := Instantiate(Find(env, name), s); UnifyS(ty, DecompArgs(ity, s0.sub).1, s0) == Some(s1)
    ensures var (s0, ity) := Instantiate(Find(env, name), s);
            PatKept(TTup(DecompArgs(ity, s0.sub).0), binds, binds, env, s, s1)
  {
    hide Unify, Chase, Extends, Untouched, Inert, InstRewrite, DecompArgs, FV;
    var (s0, ity) := Instantiate(Find(env, name), s);
    var (args, res) := DecompArgs(ity, s0.sub);
    CtorMid(name, ty, binds, env, s, args, res, s1, 0);
    forall q | Quant(q, env)
      ensures Untouched(q, s.sub, s1.sub) && Inert(q, binds + env, s1) && Inert(q, env, s1)
      ensures q !in FV(Ap(s1.sub, TTup(args)))
    {
      CtorMid(name, ty, binds, env, s, args, res, s1, q);
      InertOuter(q, binds, env, s1);
    }
  }

  // The constructor's type, instantiated for a use at ts -> t.
  lemma {:induction false} CtorUse(name: string, env: Env, s: TIS, th: Assign, ar: string -> nat, ts: Tys, t: Ty)
    returns (th1: Assign)
    requires EnvOk(env, s) && Solves(th, s.sub) && CtorsAt(env, ar) && Upper(name) && Length(ts) == ar(name)
    requires UsableAt(Sem(th, s.sub, env), name, MkArrows(ts, t))
    ensures Has(env, name) && Solves(th1, s.sub) && AgreeBelow(th1, th, s.ctr)
    ensures var (args, res) := DecompArgs(Instantiate(Find(env, name), s).1, s.sub);
            Length(args) == ar(name) && Maps(th1, args) == ts && Map(th1, res) == t
  {
    hide Sem, InstRewrite, DecompArgs, Inert, MkArrows;
    th1 := VarComplete(name, env, s, th, MkArrows(ts, t));
    var sch := Find(env, name);
    var ity := Instantiate(sch, s).1;
    var (args, res) := DecompArgs(ity, s.sub);
    DecompSolid(sch.ty, ZipIds(sch.qs, s.ctr), s.sub);
    CtorInst(ity, s.sub, th1);
    MapsLength(th1, args);
    ArrowsInjective(ts, t, Maps(th1, args), Map(th1, res));
  }

  lemma {:induction false} MapsLength(th: Assign, ts: Tys)
    ensures Length(Maps(th, ts)) == Length(ts)
  {
    if ts.Cons? { MapsLength(th, ts.tl); }
  }

  lemma {:induction false} CtorComplete(name: string, ps: seq<Pat>, ty: Ty, binds: Env, env: Env, s: TIS, th: Assign,
                                        ar: string -> nat, b1: Ctx)
    returns (th1: Assign)
    requires PatReady(ty, binds, env, s) && Solves(th, s.sub) && CtorsAt(env, ar)
    requires Upper(name) && |ps| == ar(name) && PatsCased(ps) && PatsFull(ps, ar)
    requires PatTy(Sem(th, s.sub, env), PCtor(name, ps), Map(th, ty), MonoCtx(th, binds), b1)
    ensures InferPat(PCtor(name, ps), ty, binds, env, s).Some?
    ensures var (s1, bs) := The(InferPat(PCtor(name, ps), ty, binds, env, s));
            Solves(th1, s1.sub) && AgreeBelow(th1, th, s.ctr) && b1 == MonoCtx(th1, bs)
    decreases ps, 1
  {
    hide Unify, Sem, Inert, CtorsAt, InstRewrite, DecompArgs, InferPats, PatsTy, Untouched, MonoCtx, MkArrows, UsableAt;
    var g := Sem(th, s.sub, env);
    var ts: Tys :| UsableAt(g, name, MkArrows(ts, Map(th, ty))) && PatsTy(g, ps, ts, MonoCtx(th, binds), b1);
    PatsLength(g, ps, ts, MonoCtx(th, binds), b1);
    var th0 := CtorUse(name, env, s, th, ar, ts, Map(th, ty));
    var (s0, ity) := Instantiate(Find(env, name), s);
    var (args, res) := DecompArgs(ity, s0.sub);
    AgreeTy(th0, th, s.ctr, ty);
    UnifyComplete(ty, res, s0, th0);
    var s1 := UnifyS(ty, res, s0).value;
    CtorKept(name, ty, binds, env, s, s1);
    PatMoves(th, th0, TTup(args), binds, binds, env, s, s1);
    MonoBelow(th0, th, s.ctr, binds);
    th1 := PatsComplete(ps, args, binds, env, s1, th0, ar, b1);
  }

  lemma {:induction false} PatsComplete(ps: seq<Pat>, ts: Tys, binds: Env, env: Env, s: TIS, th: Assign,
                                        ar: string -> nat, b1: Ctx)
    returns (th1: Assign)
    requires PatReady(TTup(ts), binds, env, s) && Length(ts) == |ps| && Solves(th, s.sub)
    requires CtorsAt(env, ar) && PatsCased(ps) && PatsFull(ps, ar)
    requires PatsTy(Sem(th, s.sub, env), ps, Maps(th, ts), MonoCtx(th, binds), b1)
    ensures InferPats(ps, ts, binds, env, s).Some?
    ensures var (s1, bs) := The(InferPats(ps, ts, binds, env, s));
            Solves(th1, s1.sub) && AgreeBelow(th1, th, s.ctr) && b1 == MonoCtx(th1, bs)
    decreases ps, 0
  {
    hide InferPat, Extends, WF, Sem, Untouched, Inert, PatTy, Ap, CtorsAt, MonoCtx;
    th1 := th;
    if ps != [] {
      var g := Sem(th, s.sub, env);
      var b :| PatTy(g, ps[0], Map(th, ts.hd), MonoCtx(th, binds), b) && PatsTy(g, ps[1..], Maps(th, ts.tl), b, b1);
      PairVars(s.sub, ts.hd, ts.tl);
      var th0 := PatComplete(ps[0], ts.hd, binds, env, s, th, ar, b);
      var (s1, bs) := InferPat(ps[0], ts.hd, binds, env, s).value;
      PatKeeps(ps[0], ts.hd, TTup(ts.tl), binds, env, s);
      PatMoves(th, th0, TTup(ts.tl), binds, bs, env, s, s1);
      AgreeTy(th0, th, s.ctr, TTup(ts.tl));
      th1 := PatsComplete(ps[1..], ts.tl, bs, env, s1, th0, ar, b1);
    }
  }

  // ---------- more general contexts ----------

  ghost predicate CtxLe(g: Ctx, g1: Ctx) {
    |g| == |g1| && forall i :: 0 <= i < |g| ==> g[i].name == g1[i].name && g[i].insts <= g1[i].insts
  }

  lemma {:induction false} UsableLe(g: Ctx, g1: Ctx, name: string, t: Ty)
    requires CtxLe(g, g1) && UsableAt(g, name, t)
    ensures UsableAt(g1, name, t)
  {
    if g[0].name != name { UsableLe(g[1..], g1[1..], name, t); }
  }

  lemma {:induction false} PatLe(g: Ctx, g1: Ctx, p: Pat, t: Ty, b0: Ctx, b1: Ctx)
    requires CtxLe(g, g1) && PatTy(g, p, t, b0, b1)
    ensures PatTy(g1, p, t, b0, b1)
    decreases p
  {
    hide CtxLe, UsableAt, MkArrows;
    match p
    case PTup(ps) =>
      var ts: Tys :| t == TTup(ts) && PatsTy(g, ps, ts, b0, b1);
      PatsLe(g, g1, ps, ts, b0, b1);
    case PCtor(name, ps) =>
      var ts: Tys :| UsableAt(g, name, MkArrows(ts, t)) && PatsTy(g, ps, ts, b0, b1);
      UsableLe(g, g1, name, MkArrows(ts, t));
      PatsLe(g, g1, ps, ts, b0, b1);
    case _ =>
  }

  lemma {:induction false} PatsLe(g: Ctx, g1: Ctx, ps: seq<Pat>, ts: Tys, b0: Ctx, b1: Ctx)
    requires CtxLe(g, g1) && PatsTy(g, ps, ts, b0, b1)
    ensures PatsTy(g1, ps, ts, b0, b1)
    decreases ps
  {
    hide CtxLe, PatTy;
    if ps != [] {
      var b :| PatTy(g, ps[0], ts.hd, b0, b) && PatsTy(g, ps[1..], ts.tl, b, b1);
      PatLe(g, g1, ps[0], ts.hd, b0, b);
      PatsLe(g, g1, ps[1..], ts.tl, b, b1);
    }
  }

  lemma {:induction false} LeFront(b: Ctx, g: Ctx, g1: Ctx)
    requires CtxLe(g, g1)
    ensures CtxLe(b + g, b + g1)
  {
  }

  // A name usable at more types types no less.
  lemma {:induction false} Weaken(td: TyDefs, g: Ctx, g1: Ctx, e: Expr, t: Ty)
    requires CtxLe(g, g1) && HasTy(td, g, e, t)
    ensures HasTy(td, g1, e, t)
    decreases e, 1
  {
    hide CtxLe, UsableAt, PatTy, Resolve, BinTy, RhsTy, BranchesTy, ElemsTy, Insts;
    match e
    case EVar(n) => UsableLe(g, g1, n, t);
    case ECtor(n) => UsableLe(g, g1, n, t);
    case ELam(p, body) =>
      var b :| PatTy(g, p, t.dom, [], b) && HasTy(td, b + g, body, t.cod);
      PatLe(g, g1, p, t.dom, [], b);
      LeFront(b, g, g1);
      Weaken(td, b + g, b + g1, body, t.cod);
    case EApp(f, a) =>
      var tx :| HasTy(td, g, f, TAr(tx, t)) && HasTy(td, g, a, tx);
      Weaken(td, g, g1, f, TAr(tx, t));
      Weaken(td, g, g1, a, tx);
    case EBin(op, l, r) =>
      var tl, tr :| HasTy(td, g, l, tl) && HasTy(td, g, r, tr) && BinTy(op, tl, tr, t);
      Weaken(td, g, g1, l, tl);
      Weaken(td, g, g1, r, tr);
    case EIf(c, th, el) =>
      Weaken(td, g, g1, c, TC("Bool"));
      Weaken(td, g, g1, th, t);
      Weaken(td, g, g1, el, t);
    case ECase(scrut, brs) =>
      var st :| HasTy(td, g, scrut, st) && BranchesTy(td, g, brs, st, t);
      Weaken(td, g, g1, scrut, st);
      WeakenBranches(td, g, g1, brs, st, t);
    case ELet(isRec, name, rhs, body) => WeakenLet(td, g, g1, isRec, name, rhs, body, t);
    case ETup(es) =>
      var ts :| t == TTup(ts) && ElemsTy(td, g, es, ts);
      WeakenElems(td, g, g1, es, ts);
    case EAnn(inner, _) => Weaken(td, g, g1, inner, t);
    case _ =>
  }

  lemma {:induction false} WeakenLet(td: TyDefs, g: Ctx, g1: Ctx, isRec: bool, name: string, rhs: Expr, body: Expr,
                                     t: Ty)
    requires CtxLe(g, g1) && HasTy(td, g, ELet(isRec, name, rhs, body), t)
    ensures HasTy(td, g1, ELet(isRec, name, rhs, body), t)
    decreases ELet(isRec, name, rhs, body), 0
  {
    hide CtxLe, Insts;
    if !isRec && name == "_" {
      Weaken(td, g, g1, rhs, TC("Unit"));
      Weaken(td, g, g1, body, t);
    } else {
      var sch :| RhsTy(td, g, isRec, name, rhs, sch) && HasTy(td, [Assumption(name, Insts(sch))] + g, body, t);
      LeFront([Assumption(name, Insts(sch))], g, g1);
      Weaken(td, [Assumption(name, Insts(sch))] + g, [Assumption(name, Insts(sch))] + g1, body, t);
      forall u | u in Insts(sch) ensures HasTy(td, if isRec then [Assumption(name, iset{u})] + g1 else g1, rhs, u) {
        LeFront([Assumption(name, iset{u})], g, g1);
        Weaken(td, if isRec then [Assumption(name, iset{u})] + g
            else g, if isRec then [Assumption(name, iset{u})] + g1 else g1, rhs, u);
      }
      LetIntro(td, g1, isRec, name, rhs, body, sch, t);
    }
  }

  lemma {:induction false} WeakenElems(td: TyDefs, g: Ctx, g1: Ctx, es: seq<Expr>, ts: Tys)
    requires CtxLe(g, g1) && ElemsTy(td, g, es, ts)
    ensures ElemsTy(td, g1, es, ts)
    decreases es, 0
  {
    hide CtxLe, HasTy;
    if es != [] {
      Weaken(td, g, g1, es[0], ts.hd);
      WeakenElems(td, g, g1, es[1..], ts.tl);
    }
  }

  lemma {:induction false} WeakenBranches(td: TyDefs, g: Ctx, g1: Ctx, brs: seq<Branch>, st: Ty, t: Ty)
    requires CtxLe(g, g1) && BranchesTy(td, g, brs, st, t)
    ensures BranchesTy(td, g1, brs, st, t)
    decreases brs, 0
  {
    hide CtxLe, HasTy, PatTy;
    if brs != [] {
      var br := brs[0];
      assert brs decreases to br;
      var b :| PatTy(g, br.pat, st, [], b) && HasTy(td, b + g, br.body, t);
      PatLe(g, g1, br.pat, st, [], b);
      LeFront(b, g, g1);
      Weaken(td, b + g, b + g1, br.body, t);
      WeakenBranches(td, g, g1, brs[1..], st, t);
    }
  }

  // ---------- annotations ----------

  lemma {:induction false} AnnVarsAll(ta: TyAst, acc: seq<string>)
    ensures forall v :: v in AnnVars(ta, acc) <==> v in acc || v in TyVars(ta)
    decreases ta
  {
    match ta
    case TTVar(v) =>
    case TTCon(_, args) => AnnListAll(args, acc);
    case TTArr(a, b) => AnnVarsAll(a, acc); AnnVarsAll(b, AnnVars(a, acc));
    case TTTup(ts) => AnnListAll(ts, acc);
  }

  lemma {:induction false} AnnListAll(ts: seq<TyAst>, acc: seq<string>)
    ensures forall v :: v in AnnVarList(ts, acc) <==> v in acc || v in TyVarsList(ts)
    decreases ts
  {
    if ts != [] {
      AnnVarsAll(ts[0], acc);
      AnnListAll(ts[1..], AnnVars(ts[0], acc));
    }
  }

  // An annotation that resolves needs a type for each of its variables.
  lemma {:induction false} ResolveNeeds(ta: TyAst, f: string -> Option<Ty>, td: TyDefs, v: string)
    requires Resolve(ta, f, td).Some? && v in TyVars(ta)
    ensures f(v).Some?
    decreases ta
  {
    match ta
    case TTVar(_) =>
    case TTCon(n, args) =>
      if n == "List" {
        assert args[1..] == [] && TyVarsList(args) == TyVars(args[0]) + TyVarsList([]);
        ResolveNeeds(args[0], f, td, v);
      } else if n !in ["Int", "Bool", "String", "Unit"] {
        ResolveListNeeds(args, f, td, v);
      }
    case TTArr(a, b) => if v in TyVars(a) { ResolveNeeds(a, f, td, v); } else { ResolveNeeds(b, f, td, v); }
    case TTTup(ts) => ResolveListNeeds(ts, f, td, v);
  }

  lemma {:induction false} ResolveListNeeds(ts: seq<TyAst>, f: string -> Option<Ty>, td: TyDefs, v: string)
    requires ResolveList(ts, f, td).Some? && v in TyVarsList(ts)
    ensures f(v).Some?
    decreases ts
  {
    if v in TyVars(ts[0]) { ResolveNeeds(ts[0], f, td, v); } else { ResolveListNeeds(ts[1..], f, td, v); }
  }

  // Resolving succeeds whatever its variables stand for, as long as they do.
  lemma {:induction false} ResolveAny(ta: TyAst, f: string -> Option<Ty>, g: string -> Option<Ty>, td: TyDefs)
    requires Resolve(ta, f, td).Some? && forall v :: v in TyVars(ta) ==> g(v).Some?
    ensures Resolve(ta, g, td).Some?
    decreases ta
  {
    match ta
    case TTVar(v) =>
    case TTCon(n, args) =>
      if n == "List" {
        assert args[1..] == [] && TyVars(args[0]) <= TyVarsList(args);
        ResolveAny(args[0], f, g, td);
      } else if n !in ["Int", "Bool", "String", "Unit"] {
        ResolveListAny(args, f, g, td);
      }
    case TTArr(a, b) => ResolveAny(a, f, g, td); ResolveAny(b, f, g, td);
    case TTTup(ts) => ResolveListAny(ts, f, g, td);
  }

  lemma {:induction false} ResolveListAny(ts: seq<TyAst>, f: string -> Option<Ty>, g: string -> Option<Ty>, td: TyDefs)
    requires ResolveList(ts, f, td).Some? && forall v :: v in TyVarsList(ts) ==> g(v).Some?
    ensures ResolveList(ts, g, td).Some?
    decreases ts
  {
    if ts != [] {
      ResolveAny(ts[0], f, g, td);
      ResolveListAny(ts[1..], f, g, td);
    }
  }

  lemma {:induction false} IndexOfAt(names: seq<string>, v: string)
    ensures IndexOf(names, v).Some? <==> v in names
    ensures IndexOf(names, v).Some? ==> names[IndexOf(names, v).value] == v
  {
    if names != [] && names[0] != v { IndexOfAt(names[1..], v); }
  }

  // What the fresh variables of an annotation are to stand for.
  function AnnAssign(names: seq<string>, asg: string -> Option<Ty>, base: int, th: Assign): Assign {
    x => if base <= x < base + |names| && asg(names[x - base]).Some? then asg(names[x - base]).value else th(x)
  }

  // An annotation's fresh variables may stand for what asg makes of its names.
  lemma {:induction false} AnnComplete(ann: TyAst, asg: string -> Option<Ty>, s: TIS, th: Assign, t: Ty)
    returns (th1: Assign)
    requires StOk(s) && Solves(th, s.sub) && Resolve(ann, asg, s.tydefs) == Some(t)
    ensures var sc := ScopeOf(AnnVars(ann, []), s.ctr);
            Resolve(ann, sc, s.tydefs).Some? && Map(th1, The(Resolve(ann, sc, s.tydefs))) == t
    ensures Solves(th1, s.sub) && AgreeBelow(th1, th, s.ctr)
  {
    hide Resolve, Solves, ScopeOf, TyVars, AnnVars, After;
    var names := AnnVars(ann, []);
    var sc := ScopeOf(names, s.ctr);
    th1 := AnnAssign(names, asg, s.ctr, th);
    forall v | v in TyVars(ann) ensures asg(v).Some? && sc(v).Some? && After(th1, sc)(v) == asg(v) {
      ResolveNeeds(ann, asg, s.tydefs, v);
      AnnVarsAll(ann, []);
      ScopeStands(names, asg, s.ctr, th, v);
    }
    AgreeSolves(th1, th, s.ctr, s.sub);
    ResolveAny(ann, asg, sc, s.tydefs);
    ResolveMaps(ann, sc, th1, s.tydefs);
    ResolveSame(ann, After(th1, sc), asg, s.tydefs);
  }

  lemma {:induction false} ScopeStands(names: seq<string>, asg: string -> Option<Ty>, base: int, th: Assign, v: string)
    requires v in names && asg(v).Some?
    ensures var sc := ScopeOf(names, base); sc(v).Some? && After(AnnAssign(names, asg, base, th), sc)(v) == asg(v)
  {
    IndexOfAt(names, v);
  }

  // ---------- operators ----------

  lemma {:induction false} ShapeComplete(t: Ty, want: string, s: TIS, th: Assign)
    requires Solves(th, s.sub) && Map(th, t) == TC(want)
    ensures BinShape(t, want, s.sub)
  {
    MapAp(th, s.sub, t);
    MapAp(th, s.sub, Chase(s.sub, t));
  }

  lemma {:induction false} BinCheckComplete(tl: Ty, tr: Ty, want: string, ret: string, s: TIS, th: Assign)
    requires Solves(th, s.sub) && Map(th, tl) == Map(th, tr) == TC(want)
    ensures BinCheck(tl, tr, want, ret, s).Some?
    ensures var (s1, t) := The(BinCheck(tl, tr, want, ret, s)); Solves(th, s1.sub) && t == TC(ret)
  {
    hide Unify, Chase;
    ShapeComplete(tl, want, s, th);
    ShapeComplete(tr, want, s, th);
    UnifyComplete(tl, TC(want), s, th);
    UnifyComplete(tr, TC(want), UnifyS(tl, TC(want), s).value, th);
  }

  lemma {:induction false} BinopComplete(op: string, tl: Ty, tr: Ty, s: TIS, th: Assign, t: Ty) returns (th1: Assign)
    requires StOk(s) && Below(tl, s.ctr) && Below(tr, s.ctr) && Solves(th, s.sub)
    requires BinTy(op, Map(th, tl), Map(th, tr), t)
    ensures Binop(op, tl, tr, s).Some?
    ensures var (s1, t1) := The(Binop(op, tl, tr, s));
            Solves(th1, s1.sub) && AgreeBelow(th1, th, s.ctr) && Map(th1, t1) == t
  {
    hide Unify, BinCheck, Solves, UnifyS;
    th1 := th;
    if op in ["+", "-", "*", "/", "%"] { BinCheckComplete(tl, tr, "Int", "Int", s, th); }
    else if op == "++" { BinCheckComplete(tl, tr, "String", "String", s, th); }
    else if op == "::" { th1 := ConsComplete(tl, tr, s, th, t); }
    else if op == "==" || op == "!=" { UnifyComplete(tl, tr, s, th); }
    else if op in ["<", ">", "<=", ">="] { BinCheckComplete(tl, tr, "Int", "Bool", s, th); }
    else { BinCheckComplete(tl, tr, "Bool", "Bool", s, th); }
  }

  lemma {:induction false} ConsComplete(tl: Ty, tr: Ty, s: TIS, th: Assign, t: Ty) returns (th1: Assign)
    requires StOk(s) && Below(tl, s.ctr) && Below(tr, s.ctr) && Solves(th, s.sub)
    requires BinTy("::", Map(th, tl), Map(th, tr), t)
    ensures Binop("::", tl, tr, s).Some?
    ensures var (s1, t1) := The(Binop("::", tl, tr, s));
            Solves(th1, s1.sub) && AgreeBelow(th1, th, s.ctr) && Map(th1, t1) == t
  {
    hide Unify, BinCheck, Solves;
    var a := TVI(s.ctr);
    var s0 := s.(ctr := s.ctr + 1);
    th1 := At(th, s.ctr, Map(th, tl));
    AtFresh(th, s, Map(th, tl));
    AgreeTy(th1, th, s.ctr, tl);
    AgreeTy(th1, th, s.ctr, tr);
    UnifyComplete(tl, a, s0, th1);
    assert Maps(th1, Cons(a, Nil)) == Cons(Map(th1, a), Maps(th1, Nil));
    UnifyComplete(tr, TApp("List", Cons(a, Nil)), UnifyS(tl, a, s0).value, th1);
  }

  // ---------- expressions ----------

  // From th at s, the step to s1 may be continued so that t1 stands for t.
  ghost predicate Reached(th: Assign, s: TIS, th1: Assign, s1: TIS, t1: Ty, t: Ty) {
    Solves(th1, s1.sub) && AgreeBelow(th1, th, s.ctr) && Map(th1, t1) == t
  }

  lemma {:induction false} StepBelow(env: Env, s: TIS, s1: TIS, t: Ty)
    requires AllStep(s, s1, t, env)
    ensures StOk(s1) && s.ctr <= s1.ctr && s1.tydefs == s.tydefs && Below(t, s1.ctr)
  {
    assert Step(s, s1, t, env, 0);
  }

  lemma {:induction false} Complete(e: Expr, env: Env, s: TIS, th: Assign, ar: string -> nat, t: Ty)
    returns (th1: Assign)
    requires EnvOk(env, s) && Solves(th, s.sub) && CtorsAt(env, ar) && Cased(e) && Full(e, ar)
    requires HasTy(s.tydefs, Sem(th, s.sub, env), e, t)
    ensures InferE(e, env, s).Some?
    ensures var (s1, t1) := The(InferE(e, env, s)); Reached(th, s, th1, s1, t1, t)
    decreases e, 1
  {
    hide Sem, Unify, InferPat, Binop, Generalize, Resolve, InferTup, InferBranches, Inert, CtorsAt, Solves, UsableAt;
    th1 := th;
    match e
    case EInt(_) =>
    case EBool(_) =>
    case EStr(_) =>
    case EUnit =>
    case EVar(n) => th1 := VarComplete(n, env, s, th, t);
    case ECtor(n) => th1 := VarComplete(n, env, s, th, t);
    case ELam(p, body) => th1 := LamComplete(p, body, env, s, th, ar, t);
    case EApp(fe, ae) => th1 := AppComplete(fe, ae, env, s, th, ar, t);
    case EBin(op, l, r) => th1 := BinComplete(op, l, r, env, s, th, ar, t);
    case EIf(c, a, b) => th1 := IfComplete(c, a, b, env, s, th, ar, t);
    case ECase(scrut, brs) => th1 := CaseComplete(scrut, brs, env, s, th, ar, t);
    case ELet(isRec, name, rhs, body) => th1 := LetComplete(isRec, name, rhs, body, env, s, th, ar, t);
    case ETup(es) =>
      var ts :| t == TTup(ts) && ElemsTy(s.tydefs, Sem(th, s.sub, env), es, ts);
      th1 := TupleComplete(es, env, s, th, ar, ts);
    case EAnn(inner, ann) => th1 := AnnotComplete(inner, ann, env, s, th, ar, t);
  }

  // The same for an expression typed after a step.
  lemma {:induction false} CompleteLater(e: Expr, env: Env, s: TIS, s1: TIS, u: Ty, th: Assign, th1: Assign,
                                         ar: string -> nat, t: Ty)
    returns (th2: Assign)
    requires EnvOk(env, s) && AllStep(s, s1, u, env) && Solves(th1, s1.sub) && AgreeBelow(th1, th, s.ctr)
    requires CtorsAt(env, ar) && Cased(e) && Full(e, ar) && HasTy(s.tydefs, Sem(th, s.sub, env), e, t)
    ensures InferE(e, env, s1).Some?
    ensures var (s2, t2) := The(InferE(e, env, s1));
            && Reached(th1, s1, th2, s2, t2, t) && Map(th2, u) == Map(th1, u) && AgreeBelow(th2, th, s.ctr)
            && AllStep(s, s2, u, env) && AllStep(s, s2, t2, env)
    decreases e, 2
  {
    hide Sem, InferE, Step, HasTy, Inert, CtorsAt, Cased, Full, Solves;
    SemMoves(th, th1, env, s, s1, u);
    StepBelow(env, s, s1, u);
    th2 := Complete(e, env, s1, th1, ar, t);
    AgreeTy(th2, th1, s1.ctr, u);
    LaterAll(e, env, s, s1, u);
  }

  lemma {:induction false} LamComplete(p: Pat, body: Expr, env: Env, s: TIS, th: Assign, ar: string -> nat, t: Ty)
    returns (th1: Assign)
    requires EnvOk(env, s) && Solves(th, s.sub) && CtorsAt(env, ar)
    requires PatCased(p) && Cased(body) && PatFull(p, ar) && Full(body, ar)
    requires HasTy(s.tydefs, Sem(th, s.sub, env), ELam(p, body), t)
    ensures InferE(ELam(p, body), env, s).Some?
    ensures var (s1, t1) := The(InferE(ELam(p, body), env, s)); Reached(th, s, th1, s1, t1, t)
    decreases body, 3, 1
  {
    hide Sem, Inert, PatTy, CtorsAt, Cased, Full, Solves, InferE, InferPat;
    var g := Sem(th, s.sub, env);
    var b :| PatTy(g, p, t.dom, [], b) && HasTy(s.tydefs, b + g, body, t.cod);
    var a, s0, th0 := TVI(s.ctr), s.(ctr := s.ctr + 1), At(th, s.ctr, t.dom);
    AtFresh(th, s, t.dom);
    SemBelow(th0, th, env, s);
    LamReady(a, env, s);
    var thp := PatComplete(p, a, [], env, s0, th0, ar, b);
    var (s1, bs) := InferPat(p, a, [], env, s0).value;
    assert thp(s.ctr) == th0(s.ctr) == t.dom;
    th1 := ScopeComplete(p, a, body, env, s0, th0, thp, ar, g, t.cod);
    LamFold(p, body, env, s);
    assert th1(s.ctr) == thp(s.ctr);
    var (s2, bt) := InferE(body, bs + env, s1).value;
    assert Map(th1, TAr(a, bt)) == TAr(Map(th1, a), Map(th1, bt)) == t;
    assert AgreeBelow(th1, th, s.ctr);
  }

  lemma {:induction false} LamFold(p: Pat, body: Expr, env: Env, s: TIS)
    requires InferPat(p, TVI(s.ctr), [], env, s.(ctr := s.ctr + 1)).Some?
    requires var (s1, bs) := The(InferPat(p, TVI(s.ctr), [], env, s.(ctr := s.ctr + 1)));
             InferE(body, bs + env, s1).Some?
    ensures var (s1, bs) := The(InferPat(p, TVI(s.ctr), [], env, s.(ctr := s.ctr + 1)));
            var (s2, bt) := The(InferE(body, bs + env, s1));
            InferE(ELam(p, body), env, s) == Some((s2, TAr(TVI(s.ctr), bt)))
  {
    hide AnnVars, ScopeOf, Resolve;
    hide UnifyS, InferVar, InferPat, Binop, InferTup, InferBranches, Generalize, WF;
  }

  // What stands in the scope of a pattern that was typed at ty.
  lemma {:induction false} ScopeComplete(p: Pat, ty: Ty, body: Expr, env: Env, s: TIS, th: Assign, thp: Assign,
                                         ar: string -> nat, g: Ctx, t: Ty)
    returns (th1: Assign)
    requires PatReady(ty, [], env, s) && InferPat(p, ty, [], env, s).Some?
    requires CtorsAt(env, ar) && PatCased(p) && Cased(body) && Full(body, ar) && g == Sem(th, s.sub, env)
    requires var (s1, bs) := The(InferPat(p, ty, [], env, s));
             && Solves(thp, s1.sub) && AgreeBelow(thp, th, s.ctr) && HasTy(s.tydefs, MonoCtx(thp, bs) + g, body, t)
    ensures var (s1, bs) := The(InferPat(p, ty, [], env, s));
            && InferE(body, bs + env, s1).Some? && s.ctr <= s1.ctr && AgreeBelow(th1, thp, s1.ctr)
            && Reached(th, s, th1, The(InferE(body, bs + env, s1)).0, The(InferE(body, bs + env, s1)).1, t)
    decreases body, 3, 0
  {
    hide Sem, InferPat, InferE, Inert, CtorsAt, Cased, Full, Solves, Untouched, MonoCtx, HasTy;
    var (s1, bs) := InferPat(p, ty, [], env, s).value;
    PatKeeps(p, ty, ty, [], env, s);
    ScopeOk(bs, env, s1);
    ScopeSem(ty, ty, bs, env, s, s1, thp);
    SemBelow(thp, th, env, s);
    PatNames(p, ty, [], env, s);
    CtorsBind(bs, env, ar);
    th1 := Complete(body, bs + env, s1, thp, ar, t);
  }

  // What a pattern binds are variables.
  lemma {:induction false} PatNames(p: Pat, ty: Ty, binds: Env, env: Env, s: TIS)
    requires PatCased(p) && InferPat(p, ty, binds, env, s).Some?
    ensures forall b :: b in The(InferPat(p, ty, binds, env, s)).1 ==> b in binds || !Upper(b.name)
    decreases p
  {
    hide UnifyS, InstRewrite, DecompArgs, Upper;
    match p
    case PTup(ps) =>
      var tvs := MkTvis(s.ctr, |ps|);
      PatsNames(ps, tvs, binds, env, UnifyS(ty, TTup(tvs), s.(ctr := s.ctr + |ps|)).value);
    case PCtor(n, ps) =>
      var (s1, ity) := Instantiate(Find(env, n), s);
      var (args, res) := DecompArgs(ity, s1.sub);
      PatsNames(ps, args, binds, env, UnifyS(ty, res, s1).value);
    case _ =>
  }

  lemma {:induction false} PatsNames(ps: seq<Pat>, ts: Tys, binds: Env, env: Env, s: TIS)
    requires PatsCased(ps) && InferPats(ps, ts, binds, env, s).Some?
    ensures forall b :: b in The(InferPats(ps, ts, binds, env, s)).1 ==> b in binds || !Upper(b.name)
    decreases ps
  {
    hide InferPat, Upper;
    if ps != [] && ts != Nil {
      PatNames(ps[0], ts.hd, binds, env, s);
      var (s1, bs) := InferPat(ps[0], ts.hd, binds, env, s).value;
      PatsNames(ps[1..], ts.tl, bs, env, s1);
    }
  }

  lemma {:induction false} AppComplete(fe: Expr, ae: Expr, env: Env, s: TIS, th: Assign, ar: string -> nat, t: Ty)
    returns (th1: Assign)
    requires EnvOk(env, s) && Solves(th, s.sub) && CtorsAt(env, ar) && Cased(fe) && Cased(ae) && Full(fe, ar)
    requires Full(ae, ar)
    requires HasTy(s.tydefs, Sem(th, s.sub, env), EApp(fe, ae), t)
    ensures InferE(EApp(fe, ae), env, s).Some?
    ensures var (s1, t1) := The(InferE(EApp(fe, ae), env, s)); Reached(th, s, th1, s1, t1, t)
    decreases EApp(fe, ae), 0
  {
    hide InferVar, InferPat, Binop, InferTup, InferBranches, Generalize, UnifyS, AnnVars, ScopeOf, Resolve;
    hide Sem, Inert, Step, CtorsAt, Cased, Full, Solves, Unify;
    var tx :| HasTy(s.tydefs, Sem(th, s.sub, env), fe, TAr(tx, t)) && HasTy(s.tydefs, Sem(th, s.sub, env), ae, tx);
    var th0 := Complete(fe, env, s, th, ar, TAr(tx, t));
    var (s1, tf) := InferE(fe, env, s).value;
    EAll(fe, env, s);
    var th2 := CompleteLater(ae, env, s, s1, tf, th, th0, ar, tx);
    var (s2, ta) := InferE(ae, env, s1).value;
    StepBelow(env, s, s2, tf);
    StepBelow(env, s, s2, ta);
    th1 := At(th2, s2.ctr, t);
    AtFresh(th2, s2, t);
    AgreeTy(th1, th2, s2.ctr, tf);
    AgreeTy(th1, th2, s2.ctr, ta);
    UnifyComplete(tf, TAr(ta, TVI(s2.ctr)), s2.(ctr := s2.ctr + 1), th1);
  }

  lemma {:induction false} BinComplete(op: string, l: Expr, r: Expr, env: Env, s: TIS, th: Assign, ar: string -> nat,
                                       t: Ty)
    returns (th1: Assign)
    requires EnvOk(env, s) && Solves(th, s.sub) && CtorsAt(env, ar) && Cased(l) && Cased(r) && Full(l, ar)
    requires Full(r, ar)
    requires HasTy(s.tydefs, Sem(th, s.sub, env), EBin(op, l, r), t)
    ensures InferE(EBin(op, l, r), env, s).Some?
    ensures var (s1, t1) := The(InferE(EBin(op, l, r), env, s)); Reached(th, s, th1, s1, t1, t)
    decreases EBin(op, l, r), 0
  {
    hide Sem, Inert, Step, CtorsAt, Cased, Full, Solves, Binop, BinTy, InferE, HasTy;
    var tl, tr := BinParts(s.tydefs, Sem(th, s.sub, env), op, l, r, t);
    var th0 := Complete(l, env, s, th, ar, tl);
    var (s1, ul) := InferE(l, env, s).value;
    EAll(l, env, s);
    var th2 := CompleteLater(r, env, s, s1, ul, th, th0, ar, tr);
    var (s2, ur) := InferE(r, env, s1).value;
    StepBelow(env, s, s2, ul);
    StepBelow(env, s, s2, ur);
    th1 := BinopComplete(op, ul, ur, s2, th2, t);
    BinFold(op, l, r, env, s);
  }

  lemma {:induction false} BinParts(td: TyDefs, g: Ctx, op: string, l: Expr, r: Expr, t: Ty) returns (tl: Ty, tr: Ty)
    requires HasTy(td, g, EBin(op, l, r), t)
    ensures HasTy(td, g, l, tl) && HasTy(td, g, r, tr) && BinTy(op, tl, tr, t)
  {
    hide BinTy;
    tl, tr :| HasTy(td, g, l, tl) && HasTy(td, g, r, tr) && BinTy(op, tl, tr, t);
  }

  lemma {:induction false} BinFold(op: string, l: Expr, r: Expr, env: Env, s: TIS)
    requires InferE(l, env, s).Some? && InferE(r, env, The(InferE(l, env, s)).0).Some?
    ensures var (s1, tl) := The(InferE(l, env, s));
            var (s2, tr) := The(InferE(r, env, s1));
            InferE(EBin(op, l, r), env, s) == Binop(op, tl, tr, s2)
  {
    hide AnnVars, ScopeOf, Resolve;
    hide UnifyS, InferVar, InferPat, Binop, InferTup, InferBranches, Generalize, WF;
  }

  lemma {:induction false} IfComplete(c: Expr, a: Expr, b: Expr, env: Env, s: TIS, th: Assign, ar: string -> nat, t: Ty)
    returns (th1: Assign)
    requires EnvOk(env, s) && Solves(th, s.sub) && CtorsAt(env, ar)
    requires Cased(c) && Cased(a) && Cased(b) && Full(c, ar) && Full(a, ar) && Full(b, ar)
    requires HasTy(s.tydefs, Sem(th, s.sub, env), EIf(c, a, b), t)
    ensures InferE(EIf(c, a, b), env, s).Some?
    ensures var (s1, t1) := The(InferE(EIf(c, a, b), env, s)); Reached(th, s, th1, s1, t1, t)
    decreases EIf(c, a, b), 0
  {
    hide Sem, Inert, Step, CtorsAt, Cased, Full, Solves, Unify, InferE, HasTy;
    IfParts(s.tydefs, Sem(th, s.sub, env), c, a, b, t);
    var th0 := Complete(c, env, s, th, ar, TC("Bool"));
    var (s1, tc) := InferE(c, env, s).value;
    EAll(c, env, s);
    UnifyComplete(tc, TC("Bool"), s1, th0);
    ConstAll(s, s1, tc, TC("Bool"), env);
    UnifyAll(tc, TC("Bool"), env, s, s1);
    var s2 := UnifyS(tc, TC("Bool"), s1).value;
    var th2 := CompleteLater(a, env, s, s2, tc, th, th0, ar, t);
    var (s3, ta) := InferE(a, env, s2).value;
    th1 := CompleteLater(b, env, s, s3, ta, th, th2, ar, t);
    var (s4, tb) := InferE(b, env, s3).value;
    UnifyComplete(ta, tb, s4, th1);
    IfFold(c, a, b, env, s);
  }

  lemma {:induction false} IfParts(td: TyDefs, g: Ctx, c: Expr, a: Expr, b: Expr, t: Ty)
    requires HasTy(td, g, EIf(c, a, b), t)
    ensures HasTy(td, g, c, TC("Bool")) && HasTy(td, g, a, t) && HasTy(td, g, b, t)
  {
  }

  lemma {:induction false} IfFold(c: Expr, a: Expr, b: Expr, env: Env, s: TIS)
    requires InferE(c, env, s).Some?
    requires var (s1, tc) := The(InferE(c, env, s)); UnifyS(tc, TC("Bool"), s1).Some?
    requires var (s1, tc) := The(InferE(c, env, s)); InferE(a, env, The(UnifyS(tc, TC("Bool"), s1))).Some?
    requires var (s1, tc) := The(InferE(c, env, s));
             InferE(b, env, The(InferE(a, env, The(UnifyS(tc, TC("Bool"), s1)))).0).Some?
    ensures var (s1, tc) := The(InferE(c, env, s));
            var (s3, ta) := The(InferE(a, env, The(UnifyS(tc, TC("Bool"), s1))));
            var (s4, tb) := The(InferE(b, env, s3));
            UnifyS(ta, tb, s4).Some? ==> InferE(EIf(c, a, b), env, s) == Some((The(UnifyS(ta, tb, s4)), ta))
  {
    hide AnnVars, ScopeOf, Resolve;
    hide UnifyS, InferVar, InferPat, Binop, InferTup, InferBranches, Generalize, WF;
  }

  lemma {:induction false} TupleComplete(es: seq<Expr>, env: Env, s: TIS, th: Assign, ar: string -> nat, ts: Tys)
    returns (th1: Assign)
    requires EnvOk(env, s) && Solves(th, s.sub) && CtorsAt(env, ar) && AllCased(es) && AllFull(es, ar)
    requires ElemsTy(s.tydefs, Sem(th, s.sub, env), es, ts)
    ensures InferTup(es, env, s).Some?
    ensures var (s1, us) := The(InferTup(es, env, s));
            Solves(th1, s1.sub) && AgreeBelow(th1, th, s.ctr) && Maps(th1, us) == ts
    decreases es, 0
  {
    hide Sem, InferE, Step, Inert, HasTy, CtorsAt, Cased, Full, Solves;
    th1 := th;
    if es != [] {
      var th0 := Complete(es[0], env, s, th, ar, ts.hd);
      var (s1, h) := InferE(es[0], env, s).value;
      EAll(es[0], env, s);
      StepBelow(env, s, s1, h);
      SemMoves(th, th0, env, s, s1, h);
      th1 := TupleComplete(es[1..], env, s1, th0, ar, ts.tl);
      AgreeTy(th1, th0, s1.ctr, h);
    }
  }

  lemma {:induction false} AnnotComplete(inner: Expr, ann: TyAst, env: Env, s: TIS, th: Assign, ar: string -> nat,
                                         t: Ty)
    returns (th1: Assign)
    requires EnvOk(env, s) && Solves(th, s.sub) && CtorsAt(env, ar) && Cased(inner) && Full(inner, ar)
    requires HasTy(s.tydefs, Sem(th, s.sub, env), EAnn(inner, ann), t)
    ensures InferE(EAnn(inner, ann), env, s).Some?
    ensures var (s1, t1) := The(InferE(EAnn(inner, ann), env, s)); Reached(th, s, th1, s1, t1, t)
    decreases inner, 3
  {
    hide Sem, Inert, Step, CtorsAt, Cased, Full, Solves, Unify, Resolve, InferE, HasTy, AnnVars;
    var asg := AnnParts(s.tydefs, Sem(th, s.sub, env), inner, ann, t);
    var th0 := AnnComplete(ann, asg, s, th, t);
    var names := AnnVars(ann, []);
    var rt := Resolve(ann, ScopeOf(names, s.ctr), s.tydefs).value;
    var s0 := s.(ctr := s.ctr + |names|);
    AnnFresh(ann, env, s);
    th1 := CompleteLater(inner, env, s, s0, rt, th, th0, ar, t);
    var (s1, et) := InferE(inner, env, s0).value;
    UnifyComplete(et, rt, s1, th1);
    AnnFold(inner, ann, env, s);
  }

  lemma {:induction false} AnnParts(td: TyDefs, g: Ctx, inner: Expr, ann: TyAst, t: Ty)
    returns (asg: string -> Option<Ty>)
    requires HasTy(td, g, EAnn(inner, ann), t)
    ensures HasTy(td, g, inner, t) && Resolve(ann, asg, td) == Some(t)
  {
    hide Resolve, Denotes;
    asg :| Denotes(td, asg, ann, t);
    ResolveExact(td, asg, ann, t);
  }

  lemma {:induction false} AnnFold(inner: Expr, ann: TyAst, env: Env, s: TIS)
    requires Resolve(ann, ScopeOf(AnnVars(ann, []), s.ctr), s.tydefs).Some?
    requires InferE(inner, env, s.(ctr := s.ctr + |AnnVars(ann, [])|)).Some?
    ensures var rt := The(Resolve(ann, ScopeOf(AnnVars(ann, []), s.ctr), s.tydefs));
            var (s1, et) := The(InferE(inner, env, s.(ctr := s.ctr + |AnnVars(ann, [])|)));
            UnifyS(et, rt, s1).Some? ==> InferE(EAnn(inner, ann), env, s) == Some((The(UnifyS(et, rt, s1)), rt))
  {
    hide UnifyS, InferVar, InferPat, Binop, InferTup, InferBranches, Generalize, WF, Resolve, AnnVars, ScopeOf;
  }

  lemma {:induction false} CaseComplete(scrut: Expr, brs: seq<Branch>, env: Env, s: TIS, th: Assign,
                                        ar: string -> nat, t: Ty)
    returns (th1: Assign)
    requires EnvOk(env, s) && Solves(th, s.sub) && CtorsAt(env, ar) && Cased(scrut) && Full(scrut, ar)
    requires BranchesCased(brs) && BranchesFull(brs, ar) && HasTy(s.tydefs, Sem(th, s.sub, env), ECase(scrut, brs), t)
    ensures InferE(ECase(scrut, brs), env, s).Some?
    ensures var (s1, t1) := The(InferE(ECase(scrut, brs), env, s)); Reached(th, s, th1, s1, t1, t)
    decreases ECase(scrut, brs), 0
  {
    hide Sem, Inert, Step, CtorsAt, Cased, Full, Solves, InferBranches, BranchesTy, BranchesCased, BranchesFull;
    hide InferE, HasTy;
    var st := CaseParts(s.tydefs, Sem(th, s.sub, env), scrut, brs, t);
    var th0 := Complete(scrut, env, s, th, ar, st);
    var (s1, u) := InferE(scrut, env, s).value;
    EAll(scrut, env, s);
    StepBelow(env, s, s1, u);
    var s2, rv := s1.(ctr := s1.ctr + 1), TVI(s1.ctr);
    forall v ensures Step(s, s2, u, env, v) && Step(s, s2, rv, env, v) {
      assert Step(s, s1, u, env, v);
      FreshVarStep(s, s1, u, env, v);
    }
    var th2 := At(th0, s1.ctr, t);
    AtFresh(th0, s1, t);
    AgreeTy(th2, th0, s1.ctr, u);
    th1 := BranchesComplete(brs, u, rv, env, s, s2, th, th2, ar);
    CaseFold(scrut, brs, env, s);
  }

  lemma {:induction false} CaseParts(td: TyDefs, g: Ctx, scrut: Expr, brs: seq<Branch>, t: Ty) returns (st: Ty)
    requires HasTy(td, g, ECase(scrut, brs), t)
    ensures HasTy(td, g, scrut, st) && BranchesTy(td, g, brs, st, t)
  {
    st :| HasTy(td, g, scrut, st) && BranchesTy(td, g, brs, st, t);
  }

  lemma {:induction false} CaseFold(scrut: Expr, brs: seq<Branch>, env: Env, s: TIS)
    requires InferE(scrut, env, s).Some?
    ensures var (s1, u) := The(InferE(scrut, env, s));
            var r := InferBranches(brs, u, TVI(s1.ctr), env, s1.(ctr := s1.ctr + 1));
            r.Some? ==> InferE(ECase(scrut, brs), env, s) == Some((The(r), TVI(s1.ctr)))
  {
    hide AnnVars, ScopeOf, Resolve;
    hide UnifyS, InferVar, InferPat, Binop, InferTup, InferBranches, Generalize, WF;
  }

  lemma {:induction false} BranchesComplete(brs: seq<Branch>, st: Ty, res: Ty, env: Env, s: TIS, s1: TIS, th: Assign,
                                            th1: Assign, ar: string -> nat)
    returns (th2: Assign)
    requires EnvOk(env, s) && AllStep(s, s1, st, env) && AllStep(s, s1, res, env) && Solves(th1, s1.sub)
    requires AgreeBelow(th1, th, s.ctr)
    requires CtorsAt(env, ar) && BranchesCased(brs) && BranchesFull(brs, ar)
    requires BranchesTy(s.tydefs, Sem(th, s.sub, env), brs, Map(th1, st), Map(th1, res))
    ensures s.ctr <= s1.ctr && InferBranches(brs, st, res, env, s1).Some?
    ensures var (s2, t2) := (The(InferBranches(brs, st, res, env, s1)), res); Reached(th, s, th2, s2, t2, Map(th1, res))
    decreases brs, 1
  {
    hide Sem, InferBranch, BranchTy, Step, Inert, CtorsAt, PatCased, Cased, PatFull, Full, Solves;
    StepBelow(env, s, s1, st);
    th2 := th1;
    if brs != [] {
      var thb := BranchComplete(brs[0], st, res, env, s, s1, th, th1, ar);
      var s2 := InferBranch(brs[0], st, res, env, s1).value;
      forall v ensures Step(s, s2, st, env, v) && Step(s, s2, res, env, v) {
        assert Step(s, s1, st, env, v) && Step(s, s1, res, env, v);
        BranchStep(brs[0], st, res, env, s, s1, v);
      }
      th2 := BranchesComplete(brs[1..], st, res, env, s, s2, th, thb, ar);
    }
  }

  lemma {:induction false} BranchComplete(br: Branch, st: Ty, res: Ty, env: Env, s: TIS, s1: TIS, th: Assign,
                                          th1: Assign, ar: string -> nat)
    returns (th2: Assign)
    requires EnvOk(env, s) && AllStep(s, s1, st, env) && AllStep(s, s1, res, env) && Solves(th1, s1.sub)
    requires AgreeBelow(th1, th, s.ctr)
    requires CtorsAt(env, ar) && PatCased(br.pat) && Cased(br.body) && PatFull(br.pat, ar) && Full(br.body, ar)
    requires BranchTy(s.tydefs, Sem(th, s.sub, env), br, Map(th1, st), Map(th1, res))
    ensures InferBranch(br, st, res, env, s1).Some?
    ensures Solves(th2, The(InferBranch(br, st, res, env, s1)).sub) && AgreeBelow(th2, th, s.ctr)
    ensures Map(th2, st) == Map(th1, st) && Map(th2, res) == Map(th1, res)
    decreases br, 0
  {
    hide Sem, Unify, InferPat, InferE, Untouched, Inert, Extends, WF, PatTy, HasTy, CtorsAt, Cased, Full, Solves, Step;
    var g := Sem(th, s.sub, env);
    var b :| PatTy(g, br.pat, Map(th1, st), [], b) && HasTy(s.tydefs, b + g, br.body, Map(th1, res));
    SemMoves(th, th1, env, s, s1, st);
    StepBelow(env, s, s1, st);
    StepBelow(env, s, s1, res);
    ScrutReady(st, env, s, s1);
    var thp := PatComplete(br.pat, st, [], env, s1, th1, ar, b);
    var (s2, bs) := InferPat(br.pat, st, [], env, s1).value;
    th2 := ScopeComplete(br.pat, st, br.body, env, s1, th1, thp, ar, g, Map(th1, res));
    var (s3, bt) := InferE(br.body, bs + env, s2).value;
    AgreeTy(th2, th1, s1.ctr, st);
    AgreeTy(th2, th1, s1.ctr, res);
    UnifyComplete(bt, res, s3, th2);
  }

  // ---------- let ----------

  lemma {:induction false} LetComplete(isRec: bool, name: string, rhs: Expr, body: Expr, env: Env, s: TIS, th: Assign,
                                       ar: string -> nat, t: Ty)
    returns (th1: Assign)
    requires EnvOk(env, s) && Solves(th, s.sub) && CtorsAt(env, ar) && !Upper(name)
    requires Cased(rhs) && Cased(body) && Full(rhs, ar) && Full(body, ar)
    requires HasTy(s.tydefs, Sem(th, s.sub, env), ELet(isRec, name, rhs, body), t)
    ensures InferE(ELet(isRec, name, rhs, body), env, s).Some?
    ensures var (s1, t1) := The(InferE(ELet(isRec, name, rhs, body), env, s)); Reached(th, s, th1, s1, t1, t)
    decreases ELet(isRec, name, rhs, body), 0
  {
    hide Sem, Inert, Step, CtorsAt, Cased, Full, Solves, Unify, Generalize, RhsTy, Insts, InferE, HasTy;
    if !isRec && name == "_" {
      SeqParts(s.tydefs, Sem(th, s.sub, env), rhs, body, t);
      var th0 := Complete(rhs, env, s, th, ar, TC("Unit"));
      var (s1, lt) := InferE(rhs, env, s).value;
      EAll(rhs, env, s);
      UnifyComplete(lt, TC("Unit"), s1, th0);
      ConstAll(s, s1, lt, TC("Unit"), env);
      UnifyAll(lt, TC("Unit"), env, s, s1);
      th1 := CompleteLater(body, env, s, UnifyS(lt, TC("Unit"), s1).value, lt, th, th0, ar, t);
      SeqFold(rhs, body, env, s);
    } else {
      th1 := LetPolyComplete(isRec, name, rhs, body, env, s, th, ar, t);
    }
  }

  lemma {:induction false} SeqParts(td: TyDefs, g: Ctx, rhs: Expr, body: Expr, t: Ty)
    requires HasTy(td, g, ELet(false, "_", rhs, body), t)
    ensures HasTy(td, g, rhs, TC("Unit")) && HasTy(td, g, body, t)
  {
  }

  lemma {:induction false} SeqFold(rhs: Expr, body: Expr, env: Env, s: TIS)
    requires InferE(rhs, env, s).Some?
    requires var (s1, rt) := The(InferE(rhs, env, s)); UnifyS(rt, TC("Unit"), s1).Some?
    ensures var (s1, rt) := The(InferE(rhs, env, s));
            InferE(ELet(false, "_", rhs, body), env, s) == InferE(body, env, The(UnifyS(rt, TC("Unit"), s1)))
  {
    hide AnnVars, ScopeOf, Resolve;
    hide UnifyS, InferVar, InferPat, Binop, InferTup, InferBranches, Generalize, WF;
  }

  // Typing the definition at u.
  lemma {:induction false} RhsComplete(isRec: bool, name: string, rhs: Expr, env: Env, s: TIS, th: Assign,
                                       ar: string -> nat, u: Ty)
    returns (th1: Assign)
    requires EnvOk(env, s) && Solves(th, s.sub) && CtorsAt(env, ar) && !Upper(name) && Cased(rhs) && Full(rhs, ar)
    requires var g := Sem(th, s.sub, env); HasTy(s.tydefs, if isRec then [Assumption(name, iset{u})] + g else g, rhs, u)
    ensures RhsOf(isRec, name, rhs, env, s).Some?
    ensures var (s1, rt) := The(RhsOf(isRec, name, rhs, env, s)); Reached(th, s, th1, s1, rt, u)
    decreases rhs, 3
  {
    hide Sem, Inert, CtorsAt, Cased, Full, Solves, Unify, HasTy, InferE;
    if !isRec {
      th1 := Complete(rhs, env, s, th, ar, u);
    } else {
      var a, s0, th0 := TVI(s.ctr), s.(ctr := s.ctr + 1), At(th, s.ctr, u);
      var env1 := [Binding(name, Sch([], a))] + env;
      AtFresh(th, s, u);
      SemBelow(th0, th, env, s);
      LamReady(a, env, s);
      SemCons(th0, s0.sub, name, Sch([], a), env);
      MonoSem(th0, s0.sub, a);
      CtorsBind([Binding(name, Sch([], a))], env, ar);
      th1 := Complete(rhs, env1, s0, th0, ar, u);
      var (s1, rt) := InferE(rhs, env1, s0).value;
      assert th1(s.ctr) == th0(s.ctr) == u;
      UnifyComplete(a, rt, s1, th1);
    }
  }

  // Two ways of reaching types of the definition differ on generalised
  // variables only, so both types are instances of the generalised scheme.
  lemma {:induction false} InstanceOf(env: Env, s: TIS, s1: TIS, rt: Ty, th: Assign, th1: Assign, thu: Assign, u1: Ty,
                                      u: Ty)
    requires StOk(s) && StOk(s1) && EnvBelow(env, s.ctr)
    requires Reached(th, s, th1, s1, rt, u1) && Reached(th, s, thu, s1, rt, u)
    ensures u in SemInst(th1, s1.sub, Generalize(env, rt, s1.sub))
  {
    var sch, v := Generalize(env, rt, s1.sub), Ap(s1.sub, rt);
    MapAp(thu, s1.sub, rt);
    forall x | x in FV(v) ensures Over(th1, sch.qs, thu)(x) == thu(x) {
      if x !in sch.qs {
        var b :| b in env && Free(x, b.sch, s1.sub);
        MapAp(th1, s1.sub, b.sch.ty);
        MapAp(thu, s1.sub, b.sch.ty);
        AgreeTy(th1, th, s.ctr, b.sch.ty);
        AgreeTy(thu, th, s.ctr, b.sch.ty);
        MapInjective(th1, thu, Ap(s1.sub, b.sch.ty), x);
      }
    }
    MapExt(Over(th1, sch.qs, thu), thu, v);
    assert IsSemInst(th1, s1.sub, sch, u);
  }

  lemma {:induction false} LetPolyComplete(isRec: bool, name: string, rhs: Expr, body: Expr, env: Env, s: TIS,
                                           th: Assign, ar: string -> nat, t: Ty)
    returns (th1: Assign)
    requires EnvOk(env, s) && Solves(th, s.sub) && CtorsAt(env, ar) && !Upper(name) && (isRec || name != "_")
    requires Cased(rhs) && Cased(body) && Full(rhs, ar) && Full(body, ar)
    requires HasTy(s.tydefs, Sem(th, s.sub, env), ELet(isRec, name, rhs, body), t)
    ensures InferE(ELet(isRec, name, rhs, body), env, s).Some?
    ensures var (s1, t1) := The(InferE(ELet(isRec, name, rhs, body), env, s)); Reached(th, s, th1, s1, t1, t)
    decreases ELet(isRec, name, rhs, body), 0, 0
  {
    hide Sem, Inert, Step, CtorsAt, Cased, Full, Generalize, RhsTy, Insts, InferE, RhsOf, Reached, CtxLe;
    var g := Sem(th, s.sub, env);
    var sch :| RhsTy(s.tydefs, g, isRec, name, rhs, sch)
        && HasTy(s.tydefs, [Assumption(name, Insts(sch))] + g, body, t);
    var th0 := SomeInstance(isRec, name, rhs, env, s, th, ar, sch);
    var (s1, rt) := RhsOf(isRec, name, rhs, env, s).value;
    var gen := Generalize(env, rt, s1.sub);
    RhsAll(isRec, name, rhs, env, s);
    AllInstances(isRec, name, rhs, env, s, th, th0, ar, sch);
    GenOk(name, env, s, s1, rt);
    var env1 := [Binding(name, gen)] + env;
    SemOfRhs(th, th0, env, s, s1, rt);
    SemCons(th0, s1.sub, name, gen, env);
    assert CtxLe([Assumption(name, Insts(sch))] + g, [Assumption(name, SemInst(th0, s1.sub, gen))] + g) by {
      FrontLe(name, Insts(sch), SemInst(th0, s1.sub, gen), g);
    }
    Weaken(s.tydefs, [Assumption(name, Insts(sch))] + g, Sem(th0, s1.sub, env1), body, t);
    CtorsBind([Binding(name, gen)], env, ar);
    th1 := Complete(body, env1, s1, th0, ar, t);
    LetFold(isRec, name, rhs, body, env, s);
    ReachedTwice(th, s, th0, s1, rt, th1, InferE(body, env1, s1).value.0, InferE(body, env1, s1).value.1, t);
  }

  lemma {:induction false} SemOfRhs(th: Assign, th0: Assign, env: Env, s: TIS, s1: TIS, rt: Ty)
    requires EnvOk(env, s) && AllStep(s, s1, rt, env) && exists u :: Reached(th, s, th0, s1, rt, u)
    ensures Sem(th0, s1.sub, env) == Sem(th, s.sub, env) && s1.tydefs == s.tydefs && Solves(th0, s1.sub)
    ensures s.ctr <= s1.ctr
  {
    hide Sem, Step, Inert;
    SemMoves(th, th0, env, s, s1, rt);
    StepBelow(env, s, s1, rt);
  }

  lemma {:induction false} ReachedTwice(th: Assign, s: TIS, th0: Assign, s1: TIS, rt: Ty, th1: Assign, s2: TIS,
                                        t2: Ty, t: Ty)
    requires (exists u :: Reached(th, s, th0, s1, rt, u)) && Reached(th0, s1, th1, s2, t2, t) && s.ctr <= s1.ctr
    ensures Reached(th, s, th1, s2, t2, t)
  {
  }

  lemma {:induction false} FrontLe(name: string, a: iset<Ty>, b: iset<Ty>, g: Ctx)
    requires a <= b
    ensures CtxLe([Assumption(name, a)] + g, [Assumption(name, b)] + g)
  {
  }

  lemma {:induction false} LetFold(isRec: bool, name: string, rhs: Expr, body: Expr, env: Env, s: TIS)
    requires (isRec || name != "_") && RhsOf(isRec, name, rhs, env, s).Some?
    ensures var (s1, rt) := RhsOf(isRec, name, rhs, env, s).value;
            InferE(ELet(isRec, name, rhs, body), env, s)
            == InferE(body, [Binding(name, Generalize(env, rt, s1.sub))] + env, s1)
  {
    hide AnnVars, ScopeOf, Resolve;
    hide UnifyS, InferVar, InferPat, Binop, InferTup, InferBranches, Generalize, WF;
  }

  // The scheme has an instance, and the definition can be typed at it.
  lemma {:induction false} SomeInstance(isRec: bool, name: string, rhs: Expr, env: Env, s: TIS, th: Assign,
                                        ar: string -> nat, sch: Sch)
    returns (th1: Assign)
    requires EnvOk(env, s) && Solves(th, s.sub) && CtorsAt(env, ar) && !Upper(name) && Cased(rhs) && Full(rhs, ar)
    requires RhsTy(s.tydefs, Sem(th, s.sub, env), isRec, name, rhs, sch)
    ensures RhsOf(isRec, name, rhs, env, s).Some?
    ensures var (s1, rt) := The(RhsOf(isRec, name, rhs, env, s)); exists u :: Reached(th, s, th1, s1, rt, u)
    decreases rhs, 4
  {
    hide Sem, Inert, CtorsAt, Cased, Full, HasTy, RhsOf, Reached, EnvOk;
    var u := Map(Subst(sch.qs, IdAssign()), sch.ty);
    assert IsInst(sch, u);
    assert u in Insts(sch);
    th1 := RhsComplete(isRec, name, rhs, env, s, th, ar, u);
  }

  lemma {:induction false} AllInstances(isRec: bool, name: string, rhs: Expr, env: Env, s: TIS, th: Assign, th0: Assign,
                                        ar: string -> nat, sch: Sch)
    requires EnvOk(env, s) && Solves(th, s.sub) && CtorsAt(env, ar) && !Upper(name) && Cased(rhs) && Full(rhs, ar)
    requires RhsTy(s.tydefs, Sem(th, s.sub, env), isRec, name, rhs, sch) && RhsOf(isRec, name, rhs, env, s).Some?
    requires var (s1, rt) := RhsOf(isRec, name, rhs, env, s).value; exists u :: Reached(th, s, th0, s1, rt, u)
    ensures var (s1, rt) := RhsOf(isRec, name, rhs, env, s).value;
            Insts(sch) <= SemInst(th0, s1.sub, Generalize(env, rt, s1.sub))
    decreases rhs, 4
  {
    hide Sem, Inert, CtorsAt, Cased, Full, HasTy, RhsOf, Reached, Generalize, Step, SemInst, Insts;
    var (s1, rt) := RhsOf(isRec, name, rhs, env, s).value;
    var u1 :| Reached(th, s, th0, s1, rt, u1);
    RhsAll(isRec, name, rhs, env, s);
    StepBelow(env, s, s1, rt);
    forall u | u in Insts(sch) ensures u in SemInst(th0, s1.sub, Generalize(env, rt, s1.sub)) {
      var thu := RhsComplete(isRec, name, rhs, env, s, th, ar, u);
      InstanceOf(env, s, s1, rt, th, th0, thu, u1, u);
    }
  }

  // ---------- main theorems ----------

  // What inference accepts has full constructor patterns.
  lemma {:induction false} PatAccepted(p: Pat, ty: Ty, binds: Env, env: Env, s: TIS, ar: string -> nat)
    requires CtorsAt(env, ar) && PatCased(p) && InferPat(p, ty, binds, env, s).Some?
    ensures PatFull(p, ar)
    decreases p
  {
    hide UnifyS, InstRewrite, DecompArgs, Upper;
    match p
    case PTup(ps) =>
      var tvs := MkTvis(s.ctr, |ps|);
      TvisLength(s.ctr, |ps|);
      PatsAccepted(ps, tvs, binds, env, UnifyS(ty, TTup(tvs), s.(ctr := s.ctr + |ps|)).value, ar);
    case PCtor(n, ps) =>
      var sch := Find(env, n);
      var (s1, ity) := Instantiate(sch, s);
      var (args, res) := DecompArgs(ity, s1.sub);
      DecompSolid(sch.ty, ZipIds(sch.qs, s.ctr), s.sub);
      PatsAccepted(ps, args, binds, env, UnifyS(ty, res, s1).value, ar);
    case _ =>
  }

  lemma {:induction false} TvisLength(base: int, n: nat)
    ensures Length(MkTvis(base, n)) == n
    decreases n
  {
    if n > 0 { TvisLength(base + 1, n - 1); }
  }

  lemma {:induction false} PatsAccepted(ps: seq<Pat>, ts: Tys, binds: Env, env: Env, s: TIS, ar: string -> nat)
    requires CtorsAt(env, ar) && PatsCased(ps) && Length(ts) == |ps| && InferPats(ps, ts, binds, env, s).Some?
    ensures PatsFull(ps, ar)
    decreases ps
  {
    hide InferPat, CtorsAt;
    if ps != [] {
      PatAccepted(ps[0], ts.hd, binds, env, s, ar);
      var (s1, bs) := InferPat(ps[0], ts.hd, binds, env, s).value;
      PatsAccepted(ps[1..], ts.tl, bs, env, s1, ar);
    }
  }

  lemma {:induction false} Accepted(e: Expr, env: Env, s: TIS, ar: string -> nat)
    requires CtorsAt(env, ar) && Cased(e) && InferE(e, env, s).Some?
    ensures Full(e, ar)
    decreases e
  {
    hide UnifyS, InferPat, Binop, Generalize, CtorsAt, Resolve, PatCased, PatFull, InferVar;
    match e
    case ELam(p, body) =>
      var s0 := s.(ctr := s.ctr + 1);
      var (s1, bs) := InferPat(p, TVI(s.ctr), [], env, s0).value;
      PatAccepted(p, TVI(s.ctr), [], env, s0, ar);
      PatNames(p, TVI(s.ctr), [], env, s0);
      CtorsBind(bs, env, ar);
      Accepted(body, bs + env, s1, ar);
    case EApp(f, a) => Accepted(f, env, s, ar); Accepted(a, env, InferE(f, env, s).value.0, ar);
    case EBin(_, l, r) => Accepted(l, env, s, ar); Accepted(r, env, InferE(l, env, s).value.0, ar);
    case EIf(c, a, b) =>
      Accepted(c, env, s, ar);
      var (s1, tc) := InferE(c, env, s).value;
      var s2 := UnifyS(tc, TC("Bool"), s1).value;
      Accepted(a, env, s2, ar);
      Accepted(b, env, InferE(a, env, s2).value.0, ar);
    case ECase(x, brs) =>
      Accepted(x, env, s, ar);
      var (s1, st) := InferE(x, env, s).value;
      BranchesAccepted(brs, st, TVI(s1.ctr), env, s1.(ctr := s1.ctr + 1), ar);
    case ELet(isRec, name, rhs, body) => LetAccepted(isRec, name, rhs, body, env, s, ar);
    case ETup(es) => AllAccepted(es, env, s, ar);
    case EAnn(x, ann) => Accepted(x, env, s.(ctr := s.ctr + |AnnVars(ann, [])|), ar);
    case _ =>
  }

  lemma {:induction false} LetAccepted(isRec: bool, name: string, rhs: Expr, body: Expr, env: Env, s: TIS,
                                       ar: string -> nat)
    requires CtorsAt(env, ar) && !Upper(name) && Cased(rhs) && Cased(body)
    requires InferE(ELet(isRec, name, rhs, body), env, s).Some?
    ensures Full(rhs, ar) && Full(body, ar)
    decreases ELet(isRec, name, rhs, body), 0
  {
    hide InferE, CtorsAt, Full, Cased, Upper, Generalize, UnifyS, WF;
    if !isRec && name == "_" {
      SeqUnfold(rhs, body, env, s);
      var (s1, rt) := InferE(rhs, env, s).value;
      Accepted(rhs, env, s, ar);
      Accepted(body, env, UnifyS(rt, TC("Unit"), s1).value, ar);
    } else {
      LetUnfold(isRec, name, rhs, body, env, s);
      var (s1, rt) := RhsOf(isRec, name, rhs, env, s).value;
      var b0, b1 := Binding(name, Sch([], TVI(s.ctr))), Binding(name, Generalize(env, rt, s1.sub));
      CtorsBind([b0], env, ar);
      if isRec { Accepted(rhs, [b0] + env, s.(ctr := s.ctr + 1), ar); } else { Accepted(rhs, env, s, ar); }
      CtorsBind([b1], env, ar);
      Accepted(body, [b1] + env, s1, ar);
    }
  }

  lemma {:induction false} SeqUnfold(rhs: Expr, body: Expr, env: Env, s: TIS)
    requires InferE(ELet(false, "_", rhs, body), env, s).Some?
    ensures InferE(rhs, env, s).Some?
    ensures var (s1, rt) := The(InferE(rhs, env, s));
            UnifyS(rt, TC("Unit"), s1).Some? && InferE(body, env, The(UnifyS(rt, TC("Unit"), s1))).Some?
  {
    hide AnnVars, ScopeOf, Resolve;
    hide UnifyS, InferVar, InferPat, Binop, InferTup, InferBranches, Generalize, WF;
  }

  lemma {:induction false} AllAccepted(es: seq<Expr>, env: Env, s: TIS, ar: string -> nat)
    requires CtorsAt(env, ar) && AllCased(es) && InferTup(es, env, s).Some?
    ensures AllFull(es, ar)
    decreases es
  {
    hide InferE, CtorsAt, Cased, Full;
    if es != [] {
      Accepted(es[0], env, s, ar);
      AllAccepted(es[1..], env, InferE(es[0], env, s).value.0, ar);
    }
  }

  lemma {:induction false} BranchesAccepted(brs: seq<Branch>, st: Ty, res: Ty, env: Env, s: TIS, ar: string -> nat)
    requires CtorsAt(env, ar) && BranchesCased(brs) && InferBranches(brs, st, res, env, s).Some?
    ensures BranchesFull(brs, ar)
    decreases brs
  {
    hide InferE, InferPat, UnifyS, CtorsAt, Cased, Full, PatCased, PatFull;
    if brs != [] {
      var br := brs[0];
      assert brs decreases to br;
      var (s1, bs) := InferPat(br.pat, st, [], env, s).value;
      PatAccepted(br.pat, st, [], env, s, ar);
      PatNames(br.pat, st, [], env, s);
      CtorsBind(bs, env, ar);
      Accepted(br.body, bs + env, s1, ar);
      BranchesAccepted(brs[1..], st, res, env, InferBranch(br, st, res, env, s).value, ar);
    }
  }

  ghost predicate Typeable(td: TyDefs, g: Ctx, e: Expr) { exists t :: HasTy(td, g, e, t) }

  // Of the expressions the rules can type, inference accepts exactly those
  // whose constructor patterns are full.
  lemma {:induction false} AcceptsExactly(e: Expr, env: Env, s: TIS, th: Assign, ar: string -> nat)
    requires EnvOk(env, s) && Solves(th, s.sub) && CtorsAt(env, ar) && Cased(e)
    requires Typeable(s.tydefs, Sem(th, s.sub, env), e)
    ensures InferE(e, env, s).Some? <==> Full(e, ar)
  {
    hide Sem, InferE, HasTy, CtorsAt, Cased, Full, Inert;
    if Full(e, ar) {
      var t :| HasTy(s.tydefs, Sem(th, s.sub, env), e, t);
      var th1 := Complete(e, env, s, th, ar, t);
    }
    if InferE(e, env, s).Some? { Accepted(e, env, s, ar); }
  }

  // The types of e are exactly what the inferred type stands for, over the
  // continuations of th that solve the final substitution.
  lemma {:induction false} TypesExactly(e: Expr, env: Env, s: TIS, th: Assign, ar: string -> nat, t: Ty)
    requires EnvOk(env, s) && Solves(th, s.sub) && CtorsAt(env, ar) && Cased(e) && InferE(e, env, s).Some?
    ensures var (s1, t1) := The(InferE(e, env, s));
            HasTy(s.tydefs, Sem(th, s.sub, env), e, t) <==> exists th1 :: Reached(th, s, th1, s1, t1, t)
  {
    hide Sem, InferE, HasTy, CtorsAt, Cased, Full, Inert, Reached;
    var (s1, t1) := InferE(e, env, s).value;
    if HasTy(s.tydefs, Sem(th, s.sub, env), e, t) {
      Accepted(e, env, s, ar);
      var th1 := Complete(e, env, s, th, ar, t);
    }
    if exists th1 :: Reached(th, s, th1, s1, t1, t) {
      var th1 :| Reached(th, s, th1, s1, t1, t);
      ReachedTyped(e, env, s, th, th1, t);
    }
  }

  lemma {:induction false} ReachedTyped(e: Expr, env: Env, s: TIS, th: Assign, th1: Assign, t: Ty)
    requires EnvOk(env, s) && InferE(e, env, s).Some?
    requires var (s1, t1) := The(InferE(e, env, s)); Reached(th, s, th1, s1, t1, t)
    ensures HasTy(s.tydefs, Sem(th, s.sub, env), e, t)
  {
    hide Sem, InferE, HasTy, Inert;
    Sound(e, env, s, th1);
    SemBelow(th1, th, env, s);
  }

  // Steps leave an environment without free variables without free variables.
  lemma {:induction false} StillClosed(env: Env, s: TIS, s1: TIS, t: Ty, x: int)
    requires EnvOk(env, s) && AllStep(s, s1, t, env) && forall y :: !Active(y, env, s.sub)
    ensures !Active(x, env, s1.sub)
  {
    hide Extends;
    if Active(x, env, s1.sub) {
      var b :| b in env && Free(x, b.sch, s1.sub);
      var u := Ap(s.sub, b.sch.ty);
      assert Step(s, s1, t, env, 0);
      forall y | y in FV(u) ensures y !in Dom(s1.sub) && y in b.sch.qs {
        assert !Active(y, env, s.sub);
        assert !Free(y, b.sch, s.sub);
        assert Quant(y, env);
        assert Step(s, s1, t, env, y);
      }
      SelfSolves(s1.sub, s.sub);
      MapAp(Meaning(s1.sub), s.sub, b.sch.ty);
      MapMeaning(s1.sub, u);
      MapMeaning(s1.sub, b.sch.ty);
      ApFixed(s1.sub, u);
    }
  }

  lemma {:induction false} ClosedInstance(env: Env, s1: TIS, t1: Ty, th1: Assign, t: Ty)
    requires Solves(th1, s1.sub) && Map(th1, t1) == t && forall x :: !Active(x, env, s1.sub)
    ensures t in Insts(Sch(Generalize(env, t1, s1.sub).qs, Ap(s1.sub, t1)))
  {
    var u, qs := Ap(s1.sub, t1), Generalize(env, t1, s1.sub).qs;
    MapAp(th1, s1.sub, t1);
    MapExt(th1, Subst(qs, th1), u);
    assert IsInst(Sch(qs, u), t);
  }

  lemma {:induction false} ClosedTyped(e: Expr, env: Env, s: TIS, th: Assign, qs: seq<int>, t: Ty)
    requires EnvOk(env, s) && Solves(th, s.sub) && InferE(e, env, s).Some? && forall x :: !Active(x, env, s.sub)
    requires var (s1, t1) := The(InferE(e, env, s)); t in Insts(Sch(qs, Ap(s1.sub, t1)))
    ensures HasTy(s.tydefs, Sem(th, s.sub, env), e, t)
  {
    hide Sem, InferE, HasTy, Inert;
    var (s1, t1) := InferE(e, env, s).value;
    var rho: Assign :| t == Map(Subst(qs, rho), Ap(s1.sub, t1));
    var f := Subst(qs, rho);
    ThroughSolves(s1.sub, s1.sub, f);
    MapThrough(s1.sub, f, t1);
    Sound(e, env, s, Through(s1.sub, f));
    SemAgree(Through(s1.sub, f), th, s.sub, env);
  }

  // Under an environment without free variables the reported type, closed over
  // its variables, is the principal scheme: e's types are its instances.
  lemma {:induction false} PrincipalScheme(e: Expr, env: Env, s: TIS, ar: string -> nat, t: Ty)
    requires EnvOk(env, s) && CtorsAt(env, ar) && Cased(e) && InferE(e, env, s).Some?
    requires forall x :: !Active(x, env, s.sub)
    ensures var (s1, t1) := InferE(e, env, s).value;
            HasTy(s.tydefs, CtxOf(EnvAt(s.sub, env)), e, t)
            <==> t in Insts(Sch(Generalize(env, t1, s1.sub).qs, Apply(s1.sub, t1)))
  {
    hide Sem, InferE, HasTy, CtorsAt, Cased, Full, Inert, Generalize, Step, Insts, Active, Untouched;
    var (s1, t1) := InferE(e, env, s).value;
    var th, qs := Meaning(s.sub), Generalize(env, t1, s1.sub).qs;
    SelfSolves(s.sub, s.sub);
    SemIsCtx(s.sub, env);
    if HasTy(s.tydefs, Sem(th, s.sub, env), e, t) {
      TypesExactly(e, env, s, th, ar, t);
      var th1 :| Reached(th, s, th1, s1, t1, t);
      EAll(e, env, s);
      StepBelow(env, s, s1, t1);
      forall x ensures !Active(x, env, s1.sub) { StillClosed(env, s, s1, t1, x); }
      ClosedInstance(env, s1, t1, th1, t);
    }
    if t in Insts(Sch(qs, Ap(s1.sub, t1))) { ClosedTyped(e, env, s, th, qs, t); }
  }
}

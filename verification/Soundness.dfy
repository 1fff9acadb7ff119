// Algorithm W is sound: what it accepts has, for every solution of the final
// substitution, the type it reports under the declarative rules.
module Soundness {
  import opened Types
  import opened Unification
  import opened Syntax
  import opened AlgorithmW
  import opened Frames
  import opened Declarative

  // ---------- assignments ----------

  lemma {:induction false} MapMap(f: Assign, g: Assign, h: Assign, t: Ty)
    requires forall x :: x in FV(t) ==> h(x) == Map(f, g(x))
    ensures Map(f, Map(g, t)) == Map(h, t)
  {
    match t
    case TVI(x) => assert x in FV(t);
    case TC(_) =>
    case TAr(a, b) => MapMap(f, g, h, a); MapMap(f, g, h, b);
    case TTup(ts) => MapsMaps(f, g, h, ts);
    case TApp(_, ts) => MapsMaps(f, g, h, ts);
  }

  lemma {:induction false} MapsMaps(f: Assign, g: Assign, h: Assign, ts: Tys)
    requires forall x :: x in FVs(ts) ==> h(x) == Map(f, g(x))
    ensures Maps(f, Maps(g, ts)) == Maps(h, ts)
  {
    match ts
    case Nil =>
    case Cons(a, r) => MapMap(f, g, h, a); MapsMaps(f, g, h, r);
  }

  function IdAssign(): Assign { x => TVI(x) }

  lemma {:induction false} MapId(t: Ty)
    ensures Map(IdAssign(), t) == t
  {
    match t
    case TVI(_) =>
    case TC(_) =>
    case TAr(a, b) => MapId(a); MapId(b);
    case TTup(ts) => MapsId(ts);
    case TApp(_, ts) => MapsId(ts);
  }

  lemma {:induction false} MapsId(ts: Tys)
    ensures Maps(IdAssign(), ts) == ts
  {
    match ts
    case Nil =>
    case Cons(a, r) => MapId(a); MapsId(r);
  }

  lemma {:induction false} MapExt(f: Assign, g: Assign, t: Ty)
    requires forall x :: x in FV(t) ==> f(x) == g(x)
    ensures Map(f, t) == Map(g, t)
  {
    MapId(t);
    MapMap(f, IdAssign(), g, t);
  }

  // Assigning through a resolved substitution: f after the meaning of s.
  function Through(s: Sub, f: Assign): Assign { x => Map(f, Img(s, x)) }

  lemma {:induction false} MapThrough(s: Sub, f: Assign, t: Ty)
    ensures Map(Through(s, f), t) == Map(f, Ap(s, t))
  {
    MapMeaning(s, t);
    MapMap(f, Meaning(s), Through(s, f), t);
  }

  lemma {:induction false} ThroughSolves(o: Sub, s: Sub, f: Assign)
    requires WF(o) && WF(s) && Extends(o, s)
    ensures Solves(Through(o, f), s)
  {
    match s
    case Empty =>
    case Bind(v, u, r) =>
      ExtendsTrans(o, s, r);
      ThroughSolves(o, r, f);
      ExtendsLookup(o, s, v);
      ApLookup(o, v, u);
      MapThrough(o, f, u);
  }

  // ---------- what an environment means under an assignment ----------

  function Over(th: Assign, qs: seq<int>, rho: Assign): Assign { x => if x in qs then rho(x) else th(x) }

  ghost predicate IsSemInst(th: Assign, s: Sub, sch: Sch, t: Ty) {
    exists rho: Assign :: t == Map(Over(th, sch.qs, rho), Ap(s, sch.ty))
  }

  // The types a scheme stands for at state s under th: its free variables are
  // fixed by th, its quantified ones are not.
  ghost function SemInst(th: Assign, s: Sub, sch: Sch): iset<Ty> {
    iset t: Ty | IsSemInst(th, s, sch, t)
  }

  ghost function Sem(th: Assign, s: Sub, env: Env): Ctx {
    if env == [] then [] else [Assumption(env[0].name, SemInst(th, s, env[0].sch))] + Sem(th, s, env[1..])
  }

  lemma {:induction false} SemAppend(th: Assign, s: Sub, a: Env, b: Env)
    ensures Sem(th, s, a + b) == Sem(th, s, a) + Sem(th, s, b)
  {
    hide SemInst;
    if a == [] {
      assert a + b == b;
    } else {
      assert (a + b)[1..] == a[1..] + b;
      SemAppend(th, s, a[1..], b);
    }
  }

  ghost predicate Quant(q: int, env: Env) {
    exists b :: b in env && q in b.sch.qs
  }

  // Quantified variables are unbound and free nowhere in the environment.
  ghost predicate EnvOk(env: Env, s: TIS) {
    && StOk(s) && EnvBelow(env, s.ctr)
    && forall q :: Quant(q, env) ==> Inert(q, env, s)
  }

  // s1 solved by th says the same about a scheme as s, provided its quantified
  // variables were left alone.
  lemma {:induction false} InstStable(th: Assign, s: Sub, s1: Sub, sch: Sch)
    requires WF(s) && WF(s1) && Extends(s1, s) && Solves(th, s1)
    requires forall q :: q in sch.qs ==> q !in Dom(s) && Untouched(q, s, s1)
    ensures SemInst(th, s1, sch) == SemInst(th, s, sch)
  {
    forall rho: Assign
      ensures Map(Over(th, sch.qs, rho), Ap(s1, sch.ty)) == Map(Over(th, sch.qs, rho), Ap(s, sch.ty))
    {
      OverStable(th, s, s1, sch, rho);
    }
    assert forall t :: t in SemInst(th, s1, sch) <==> t in SemInst(th, s, sch);
  }

  lemma {:induction false} OverStable(th: Assign, s: Sub, s1: Sub, sch: Sch, rho: Assign)
    requires WF(s) && WF(s1) && Extends(s1, s) && Solves(th, s1)
    requires forall q :: q in sch.qs ==> q !in Dom(s) && Untouched(q, s, s1)
    ensures Map(Over(th, sch.qs, rho), Ap(s1, sch.ty)) == Map(Over(th, sch.qs, rho), Ap(s, sch.ty))
  {
    var f, u := Over(th, sch.qs, rho), Ap(s, sch.ty);
    // resolving u further through s1 is resolving the type itself
    SelfSolves(s1, s);
    MapAp(Meaning(s1), s, sch.ty);
    MapMeaning(s1, u);
    MapMeaning(s1, sch.ty);
    ApNoDom(s, sch.ty);
    forall x | x in FV(u) ensures f(x) == Map(f, Img(s1, x)) {
      ImgUnbound(s, x);
      if x in sch.qs {
        ImgUnbound(s1, x);
      } else {
        assert forall y :: y in FV(Img(s1, x)) ==> y !in sch.qs;
        MapExt(f, th, Img(s1, x));
        MapAp(th, s1, TVI(x));
      }
    }
    MapMap(f, Meaning(s1), f, u);
  }

  lemma {:induction false} SemStable(th: Assign, s: TIS, s1: TIS, env: Env)
    requires Grows(s, s1) && Solves(th, s1.sub)
    requires forall q :: Quant(q, env) ==> q !in Dom(s.sub) && Untouched(q, s.sub, s1.sub)
    ensures Sem(th, s1.sub, env) == Sem(th, s.sub, env)
  {
    hide SemInst, Untouched;
    if env != [] {
      forall q | q in env[0].sch.qs ensures q !in Dom(s.sub) && Untouched(q, s.sub, s1.sub) {
        assert env[0] in env;
        assert Quant(q, env);
      }
      InstStable(th, s.sub, s1.sub, env[0].sch);
      forall q | Quant(q, env[1..]) ensures Quant(q, env) {
        var b :| b in env[1..] && q in b.sch.qs;
        assert b in env;
      }
      SemStable(th, s, s1, env[1..]);
    }
  }

  // ---------- steps, for every variable at once ----------

  ghost predicate AllStep(s: TIS, s1: TIS, t: Ty, env: Env) {
    forall v :: Step(s, s1, t, env, v)
  }

  lemma {:induction false} EAll(e: Expr, env: Env, s: TIS)
    requires StOk(s) && EnvBelow(env, s.ctr) && InferE(e, env, s).Some?
    ensures var (s1, t) := The(InferE(e, env, s)); AllStep(s, s1, t, env)
  {
    hide InferE, Step;
    forall v { EStep(e, env, s, v); }
  }

  lemma {:induction false} Stable(th: Assign, env: Env, s: TIS, s1: TIS, t: Ty)
    requires EnvOk(env, s) && AllStep(s, s1, t, env) && Solves(th, s1.sub)
    ensures EnvOk(env, s1) && Sem(th, s1.sub, env) == Sem(th, s.sub, env) && Solves(th, s.sub)
  {
    StableOk(env, s, s1, t);
    forall q | Quant(q, env) ensures q !in Dom(s.sub) && Untouched(q, s.sub, s1.sub) {
      assert Step(s, s1, t, env, q);
    }
    assert Step(s, s1, t, env, 0);
    SemStable(th, s, s1, env);
    SolvesSuffix(th, s1.sub, s.sub);
  }

  lemma {:induction false} StableOk(env: Env, s: TIS, s1: TIS, t: Ty)
    requires EnvOk(env, s) && AllStep(s, s1, t, env)
    ensures EnvOk(env, s1) && StOk(s1) && EnvBelow(env, s1.ctr) && s1.tydefs == s.tydefs
  {
    assert Step(s, s1, t, env, 0);
    forall q | Quant(q, env) ensures Inert(q, env, s1) {
      assert Step(s, s1, t, env, q);
    }
  }

  lemma {:induction false} UnifySolves(a: Ty, b: Ty, s: TIS, th: Assign)
    requires UnifyS(a, b, s).Some? && Solves(th, UnifyS(a, b, s).value.sub)
    ensures Solves(th, s.sub) && Map(th, a) == Map(th, b)
  {
    UnifyExact(th, a, b, s.sub);
  }

  // ---------- variables and patterns ----------

  lemma {:induction false} InstSound(sch: Sch, s: TIS, th: Assign)
    requires StOk(s) && Solves(th, s.sub)
    ensures Map(th, Instantiate(sch, s).1) in SemInst(th, s.sub, sch)
  {
    var mp := ZipIds(sch.qs, s.ctr);
    var ity := Instantiate(sch, s).1;
    var rho: Assign := x => th(FindInt(mp, x));
    DomVars(s.sub);
    InstMeans(sch.ty, sch.qs, s.ctr, s.sub);
    MapAp(th, s.sub, ity);
    forall x ensures Over(th, sch.qs, rho)(x) == Map(th, Ren(mp)(x)) { FindZip(sch.qs, s.ctr, x); }
    MapMap(th, Ren(mp), Over(th, sch.qs, rho), Ap(s.sub, sch.ty));
  }

  lemma {:induction false} VarSound(name: string, env: Env, s: TIS, th: Assign)
    requires StOk(s) && Solves(th, s.sub) && Has(env, name)
    ensures UsableAt(Sem(th, s.sub, env), name, Map(th, Instantiate(Find(env, name), s).1))
  {
    hide SemInst, Instantiate;
    if env[0].name == name {
      InstSound(env[0].sch, s, th);
    } else {
      VarSoundAt(name, env[1..], s, th, Find(env, name));
    }
  }

  lemma {:induction false} VarSoundAt(name: string, env: Env, s: TIS, th: Assign, sch: Sch)
    requires StOk(s) && Solves(th, s.sub) && Has(env, name) && sch == Find(env, name)
    ensures UsableAt(Sem(th, s.sub, env), name, Map(th, Instantiate(sch, s).1))
  {
    hide SemInst, Instantiate;
    if env[0].name == name { InstSound(sch, s, th); } else { VarSoundAt(name, env[1..], s, th, sch); }
  }

  // Monomorphic bindings mean one type each.
  ghost function MonoCtx(th: Assign, binds: Env): Ctx {
    if binds == [] then [] else [Assumption(binds[0].name, iset{Map(th, binds[0].sch.ty)})] + MonoCtx(th, binds[1..])
  }

  lemma {:induction false} MonoSem(th: Assign, s: Sub, ty: Ty)
    requires Solves(th, s)
    ensures SemInst(th, s, Sch([], ty)) == iset{Map(th, ty)}
  {
    MapAp(th, s, ty);
    forall rho: Assign ensures Map(Over(th, [], rho), Ap(s, ty)) == Map(th, ty) {
      MapExt(Over(th, [], rho), th, Ap(s, ty));
    }
    assert Map(Over(th, [], th), Ap(s, ty)) == Map(th, ty);
  }

  lemma {:induction false} MonoCtxSem(th: Assign, s: Sub, binds: Env)
    requires Solves(th, s) && Mono(binds)
    ensures Sem(th, s, binds) == MonoCtx(th, binds)
  {
    hide SemInst;
    if binds != [] {
      assert binds[0] in binds;
      assert binds[0].sch == Sch([], binds[0].sch.ty);
      MonoSem(th, s, binds[0].sch.ty);
      assert forall b :: b in binds[1..] ==> b in binds;
      MonoCtxSem(th, s, binds[1..]);
    }
  }

  // A pattern may be typed at ty: nothing quantified occurs in ty or in the
  // bindings collected so far.
  ghost predicate PatReady(ty: Ty, binds: Env, env: Env, s: TIS) {
    && EnvOk(env, s) && EnvBelow(binds, s.ctr) && Mono(binds) && Below(ty, s.ctr)
    && forall q :: Quant(q, env) ==> Inert(q, binds + env, s) && q !in FV(Ap(s.sub, ty))
  }

  // A step from s to s1 left everything quantified alone and readies ty1.
  ghost predicate PatKept(ty1: Ty, binds: Env, b1: Env, env: Env, s: TIS, s1: TIS) {
    && Grows(s, s1) && PatReady(ty1, b1, env, s1)
    && forall q :: Quant(q, env) ==> Untouched(q, s.sub, s1.sub)
  }

  lemma {:induction false} InertOuter(q: int, binds: Env, env: Env, s: TIS)
    requires Inert(q, binds + env, s)
    ensures Inert(q, env, s)
  {
    assert forall b :: b in env ==> b in binds + env;
  }

  lemma {:induction false} PatKeeps(pat: Pat, ty: Ty, rest: Ty, binds: Env, env: Env, s: TIS)
    requires PatReady(ty, binds, env, s) && PatReady(rest, binds, env, s) && InferPat(pat, ty, binds, env, s).Some?
    ensures var (s1, b1) := The(InferPat(pat, ty, binds, env, s)); PatKept(rest, binds, b1, env, s, s1)
  {
    hide InferPat, Untouched, Inert, Extends, WF;
    var (s1, b1) := InferPat(pat, ty, binds, env, s).value;
    PatStep(pat, ty, binds, env, s, 0);
    forall q | Quant(q, env)
      ensures Untouched(q, s.sub, s1.sub) && Inert(q, b1 + env, s1) && Inert(q, env, s1) && q !in FV(Ap(s1.sub, rest))
    {
      PatStep(pat, ty, binds, env, s, q);
      InertOuter(q, b1, env, s1);
      UntouchedTy(q, s.sub, s1.sub, rest);
    }
  }

  lemma {:induction false} PatSound(pat: Pat, ty: Ty, binds: Env, env: Env, s: TIS, th: Assign)
    requires PatReady(ty, binds, env, s) && InferPat(pat, ty, binds, env, s).Some?
    requires Solves(th, The(InferPat(pat, ty, binds, env, s)).0.sub)
    ensures var (s1, b1) := The(InferPat(pat, ty, binds, env, s));
            && PatTy(Sem(th, s.sub, env), pat, Map(th, ty), MonoCtx(th, binds), MonoCtx(th, b1))
            && Solves(th, s.sub)
    decreases pat, 1
  {
    hide Unify, Ap, Chase, InstRewrite, DecompArgs, Extends, WF, Sem;
    match pat
    case PTup(ps) => TupSound(ps, ty, binds, env, s, th);
    case PCtor(name, ps) => CtorSound(name, ps, ty, binds, env, s, th);
    case PVar(n) =>
    case PWild =>
    case PInt(_) => UnifySolves(ty, TC("Int"), s, th);
    case PBool(_) => UnifySolves(ty, TC("Bool"), s, th);
    case PStr(_) => UnifySolves(ty, TC("String"), s, th);
    case PUnit => UnifySolves(ty, TC("Unit"), s, th);
  }

  lemma {:induction false} TupSound(ps: seq<Pat>, ty: Ty, binds: Env, env: Env, s: TIS, th: Assign)
    requires PatReady(ty, binds, env, s) && InferPat(PTup(ps), ty, binds, env, s).Some?
    requires Solves(th, The(InferPat(PTup(ps), ty, binds, env, s)).0.sub)
    ensures var (s1, b1) := The(InferPat(PTup(ps), ty, binds, env, s));
            && PatTy(Sem(th, s.sub, env), PTup(ps), Map(th, ty), MonoCtx(th, binds), MonoCtx(th, b1))
            && Solves(th, s.sub)
    decreases ps, 1
  {
    hide Unify, Chase, Extends, Sem, Untouched, Inert, MkTvis;
    var tvs := MkTvis(s.ctr, |ps|);
    var s0 := s.(ctr := s.ctr + |ps|);
    var s1 := UnifyS(ty, TTup(tvs), s0).value;
    TupMid(ty, |ps|, binds, env, s, s1, 0);
    forall q | Quant(q, env)
      ensures Untouched(q, s.sub, s1.sub) && Inert(q, binds + env, s1) && Inert(q, env, s1)
           && q !in FV(Ap(s1.sub, TTup(tvs))) && q !in Dom(s.sub)
    {
      TupMid(ty, |ps|, binds, env, s, s1, q);
      InertOuter(q, binds, env, s1);
      InertUnbound(q, binds + env, s);
    }
    PatsSound(ps, tvs, binds, env, s1, th);
    UnifySolves(ty, TTup(tvs), s0, th);
    SemStable(th, s, s1, env);
    assert Map(th, ty) == TTup(Maps(th, tvs));
  }

  lemma {:induction false} InertUnbound(q: int, env: Env, s: TIS)
    requires Inert(q, env, s)
    ensures q !in Dom(s.sub)
  {
  }

  lemma {:induction false} CtorSound(name: string, ps: seq<Pat>, ty: Ty, binds: Env, env: Env, s: TIS, th: Assign)
    requires PatReady(ty, binds, env, s) && InferPat(PCtor(name, ps), ty, binds, env, s).Some?
    requires Solves(th, The(InferPat(PCtor(name, ps), ty, binds, env, s)).0.sub)
    ensures var (s1, b1) := The(InferPat(PCtor(name, ps), ty, binds, env, s));
            && PatTy(Sem(th, s.sub, env), PCtor(name, ps), Map(th, ty), MonoCtx(th, binds), MonoCtx(th, b1))
            && Solves(th, s.sub)
    decreases ps, 1
  {
    hide Unify, Chase, Extends, Sem, Untouched, Inert, InstRewrite, DecompArgs, WF, FV;
    var (s0, ity) := Instantiate(Find(env, name), s);
    var (args, res) := DecompArgs(ity, s0.sub);
    var s1 := UnifyS(ty, res, s0).value;
    CtorMid(name, ty, binds, env, s, args, res, s1, 0);
    forall q | Quant(q, env)
      ensures Untouched(q, s.sub, s1.sub) && Inert(q, binds + env, s1) && Inert(q, env, s1)
           && q !in FV(Ap(s1.sub, TTup(args))) && q !in Dom(s.sub)
    {
      CtorMid(name, ty, binds, env, s, args, res, s1, q);
      InertOuter(q, binds, env, s1);
      InertUnbound(q, binds + env, s);
    }
    PatsSound(ps, args, binds, env, s1, th);
    UnifySolves(ty, res, s0, th);
    SemStable(th, s, s1, env);
    VarSound(name, env, s, th);
    CtorInst(ity, s.sub, th);
  }

  // An instantiated constructor type, assigned, is the arrow from its assigned
  // argument types to its assigned result.
  lemma {:induction false} CtorInst(t: Ty, s: Sub, th: Assign)
    requires WF(s) && Solves(th, s)
    ensures var (args, res) := DecompArgs(t, s); Map(th, t) == MkArrows(Maps(th, args), Map(th, res))
  {
    var (args, res) := DecompArgs(t, s);
    DecompMeans(t, s);
    MapAp(th, s, t);
    MapArrows(th, Aps(s, args), Ap(s, res));
    MapsAp(th, s, args);
    MapAp(th, s, res);
  }

  lemma {:induction false} MapArrows(th: Assign, args: Tys, res: Ty)
    ensures Map(th, MkArrows(args, res)) == MkArrows(Maps(th, args), Map(th, res))
  {
    match args
    case Nil =>
    case Cons(_, r) => MapArrows(th, r, res);
  }

  lemma {:induction false} PatsSound(ps: seq<Pat>, ts: Tys, binds: Env, env: Env, s: TIS, th: Assign)
    requires PatReady(TTup(ts), binds, env, s) && Length(ts) == |ps| && InferPats(ps, ts, binds, env, s).Some?
    requires Solves(th, The(InferPats(ps, ts, binds, env, s)).0.sub)
    ensures var (s1, b1) := The(InferPats(ps, ts, binds, env, s));
            && PatsTy(Sem(th, s.sub, env), ps, Maps(th, ts), MonoCtx(th, binds), MonoCtx(th, b1))
            && Solves(th, s.sub)
    decreases ps, 0
  {
    hide InferPat, Extends, WF, Sem, Untouched, Inert, PatTy, Ap, FV;
    if ps != [] {
      var (s1, b1) := InferPat(ps[0], ts.hd, binds, env, s).value;
      PairVars(s.sub, ts.hd, ts.tl);
      PatKeeps(ps[0], ts.hd, TTup(ts.tl), binds, env, s);
      PatsSound(ps[1..], ts.tl, b1, env, s1, th);
      PatSound(ps[0], ts.hd, binds, env, s, th);
      forall q | Quant(q, env) ensures q !in Dom(s.sub) { InertUnbound(q, env, s); }
      SemStable(th, s, s1, env);
    }
  }

  // ---------- let ----------

  lemma {:induction false} GenOk(name: string, env: Env, s: TIS, s1: TIS, rt: Ty)
    requires EnvOk(env, s) && AllStep(s, s1, rt, env)
    ensures EnvOk([Binding(name, Generalize(env, rt, s1.sub))] + env, s1)
  {
    hide Generalize, Untouched, Extends;
    var sch := Generalize(env, rt, s1.sub);
    var env1 := [Binding(name, sch)] + env;
    assert Step(s, s1, rt, env, 0);
    assert forall b :: b in env1 <==> b == env1[0] || b in env;
    ApNoDom(s1.sub, rt);
    ApVars(s1.sub, rt);
    forall q | Quant(q, env1) ensures Inert(q, env1, s1) {
      if q !in sch.qs {
        assert Quant(q, env);
        assert Step(s, s1, rt, env, q);
      }
    }
  }

  // Assignments that agree on what is free in env give it the same meaning.
  lemma {:induction false} SemAgree(f: Assign, g: Assign, s: Sub, env: Env)
    requires forall x :: Active(x, env, s) ==> f(x) == g(x)
    ensures Sem(f, s, env) == Sem(g, s, env)
  {
    hide SemInst, Free;
    if env != [] {
      forall x | Free(x, env[0].sch, s) ensures f(x) == g(x) {
        assert env[0] in env;
        assert Active(x, env, s);
      }
      InstAgree(f, g, s, env[0].sch);
      forall x | Active(x, env[1..], s) ensures Active(x, env, s) {
        var b :| b in env[1..] && Free(x, b.sch, s);
        assert b in env;
      }
      SemAgree(f, g, s, env[1..]);
    }
  }

  lemma {:induction false} InstAgree(f: Assign, g: Assign, s: Sub, sch: Sch)
    requires forall x :: Free(x, sch, s) ==> f(x) == g(x)
    ensures SemInst(f, s, sch) == SemInst(g, s, sch)
  {
    forall rho: Assign
      ensures Map(Over(f, sch.qs, rho), Ap(s, sch.ty)) == Map(Over(g, sch.qs, rho), Ap(s, sch.ty))
    {
      assert forall x :: x in FV(Ap(s, sch.ty)) && x !in sch.qs ==> Free(x, sch, s);
      MapExt(Over(f, sch.qs, rho), Over(g, sch.qs, rho), Ap(s, sch.ty));
    }
    assert forall t :: IsSemInst(f, s, sch, t) <==> IsSemInst(g, s, sch, t);
  }

  // ---------- a scheme's meaning is that of a closed-over syntactic scheme ----------

  lemma {:induction false} Bound(xs: set<int>) returns (m: int)
    ensures forall x :: x in xs ==> -m < x < m
  {
    if exists x :: x in xs {
      var x :| x in xs;
      var n := Bound(xs - {x});
      m := (if x < 0 then 1 - x else x + 1);
      m := if m < n then n else m;
      assert forall y :: y in xs ==> y == x || y in xs - {x};
    } else {
      m := 0;
    }
  }

  function RangeVars(th: Assign, u: Ty): set<int> { set x, y | x in FV(u) && y in FV(th(x)) :: y }

  function SetOf(qs: seq<int>): set<int> { set q | q in qs }

  function Shift(qs: seq<int>, n: int): seq<int> { seq(|qs|, i requires 0 <= i < |qs| => qs[i] + n) }

  function Renamer(th: Assign, qs: seq<int>, n: int): Assign { x => if x in qs then TVI(x + n) else th(x) }

  // Renaming the quantified variables out of the way makes th's types part of
  // the scheme without capture.
  lemma {:induction false} Rename(th: Assign, s: Sub, sch: Sch) returns (r: Sch)
    ensures Insts(r) == SemInst(th, s, sch)
  {
    var u := Ap(s, sch.ty);
    var a := Bound(RangeVars(th, u));
    var b := Bound(SetOf(sch.qs));
    var m := if a < b then b else a;
    forall x, y | x in FV(u) && y in FV(th(x)) ensures -m < y < m { assert y in RangeVars(th, u); }
    forall q | q in sch.qs ensures -m < q < m { assert q in SetOf(sch.qs); }
    var n := 2 * m;
    var ren := Renamer(th, sch.qs, n);
    r := Sch(Shift(sch.qs, n), Map(ren, u));
    forall t ensures IsInst(r, t) <==> IsSemInst(th, s, sch, t) {
      if IsInst(r, t) {
        var rho: Assign :| t == Map(Subst(r.qs, rho), r.ty);
        var rho1: Assign := x => rho(x + n);
        RenameAgree(th, sch.qs, n, u, m, rho, rho1);
        MapMap(Subst(r.qs, rho), ren, Over(th, sch.qs, rho1), u);
      }
      if IsSemInst(th, s, sch, t) {
        var rho1: Assign :| t == Map(Over(th, sch.qs, rho1), u);
        var rho: Assign := y => rho1(y - n);
        RenameAgree(th, sch.qs, n, u, m, rho, rho1);
        MapMap(Subst(r.qs, rho), ren, Over(th, sch.qs, rho1), u);
      }
    }
  }

  lemma {:induction false} RenameAgree(th: Assign, qs: seq<int>, n: int, u: Ty, m: int, rho: Assign, rho1: Assign)
    requires forall x, y :: x in FV(u) && y in FV(th(x)) ==> -m < y < m
    requires n == 2 * m && forall q :: q in qs ==> -m < q < m
    requires forall q :: q in qs ==> rho1(q) == rho(q + n)
    ensures forall x :: x in FV(u) ==> Over(th, qs, rho1)(x) == Map(Subst(Shift(qs, n), rho), Renamer(th, qs, n)(x))
  {
    forall x | x in FV(u)
      ensures Over(th, qs, rho1)(x) == Map(Subst(Shift(qs, n), rho), Renamer(th, qs, n)(x))
    {
      if x in qs {
        var i :| 0 <= i < |qs| && qs[i] == x;
        assert Shift(qs, n)[i] == x + n;
      } else {
        forall y | y in FV(th(x)) ensures Subst(Shift(qs, n), rho)(y) == IdAssign()(y) {
          if y in Shift(qs, n) {
            var i :| 0 <= i < |qs| && Shift(qs, n)[i] == y;
            assert qs[i] in qs;
          }
        }
        MapExt(Subst(Shift(qs, n), rho), IdAssign(), th(x));
        MapId(th(x));
      }
    }
  }

  // ---------- expressions ----------

  lemma {:induction false} UnifyAll(a: Ty, b: Ty, env: Env, s: TIS, s1: TIS)
    requires AllStep(s, s1, a, env) && AllStep(s, s1, b, env) && UnifyS(a, b, s1).Some?
    ensures var s2 := UnifyS(a, b, s1).value; AllStep(s, s2, a, env) && AllStep(s, s2, b, env)
  {
    hide Step, UnifyS;
    forall v ensures var s2 := UnifyS(a, b, s1).value; Step(s, s2, a, env, v) && Step(s, s2, b, env, v) {
      assert Step(s, s1, a, env, v) && Step(s, s1, b, env, v);
      ThenUnify(s, s1, a, b, env, v);
    }
  }

  lemma {:induction false} Sound(e: Expr, env: Env, s: TIS, th: Assign)
    requires EnvOk(env, s) && InferE(e, env, s).Some? && Solves(th, The(InferE(e, env, s)).0.sub)
    ensures HasTy(s.tydefs, Sem(th, s.sub, env), e, Map(th, The(InferE(e, env, s)).1))
    ensures Solves(th, s.sub)
    decreases e, 1
  {
    hide Sem, Unify, InferPat, Binop, Generalize, Resolve, InferTup, InferBranches, Untouched, Inert, FV, Step, Extends;
    match e
    case EInt(_) =>
    case EBool(_) =>
    case EStr(_) =>
    case EUnit =>
    case EVar(n) => VarSound(n, env, s, th);
    case ECtor(n) => VarSound(n, env, s, th);
    case ELam(p, body) => LamSound(p, body, env, s, th);
    case EApp(fe, ae) => AppSound(fe, ae, env, s, th);
    case EBin(op, l, r) => BinSound(op, l, r, env, s, th);
    case EIf(c, t, f) => IfSound(c, t, f, env, s, th);
    case ECase(scrut, brs) => CaseSound(scrut, brs, env, s, th);
    case ELet(isRec, name, rhs, body) => LetSound(isRec, name, rhs, body, env, s, th);
    case ETup(es) => TupleSound(es, env, s, th);
    case EAnn(inner, ann) => AnnSound(inner, ann, env, s, th);
  }

  // A later expression, typed after a step that kept env's meaning.
  lemma {:induction false} SoundLater(e: Expr, env: Env, s: TIS, s1: TIS, t: Ty, th: Assign)
    requires EnvOk(env, s) && AllStep(s, s1, t, env) && StOk(s1)
    requires InferE(e, env, s1).Some? && Solves(th, The(InferE(e, env, s1)).0.sub)
    ensures HasTy(s.tydefs, Sem(th, s.sub, env), e, Map(th, The(InferE(e, env, s1)).1))
    ensures Solves(th, s1.sub) && EnvOk(env, s1)
    decreases e, 2
  {
    hide Sem, InferE, Step, HasTy, Inert;
    StableOk(env, s, s1, t);
    Sound(e, env, s1, th);
    Stable(th, env, s, s1, t);
  }

  lemma {:induction false} LamSound(p: Pat, body: Expr, env: Env, s: TIS, th: Assign)
    requires EnvOk(env, s) && InferE(ELam(p, body), env, s).Some?
    requires Solves(th, The(InferE(ELam(p, body), env, s)).0.sub)
    ensures HasTy(s.tydefs, Sem(th, s.sub, env), ELam(p, body), Map(th, The(InferE(ELam(p, body), env, s)).1))
    ensures Solves(th, s.sub)
    decreases body, 3
  {
    hide InferVar, Binop, InferTup, InferBranches, Generalize, UnifyS, AnnVars, ScopeOf, Resolve;
    hide Sem, Unify, InferPat, Untouched, Inert, Extends, SubVars, WF, PatTy;
    var a := TVI(s.ctr);
    var s0 := s.(ctr := s.ctr + 1);
    var (s1, bs) := InferPat(p, a, [], env, s0).value;
    LamReady(a, env, s);
    PatKeeps(p, a, a, [], env, s0);
    ScopeOk(bs, env, s1);
    Sound(body, bs + env, s1, th);
    PatSound(p, a, [], env, s0, th);
    ScopeSem(a, a, bs, env, s0, s1, th);
  }

  lemma {:induction false} LamReady(a: Ty, env: Env, s: TIS)
    requires EnvOk(env, s) && a == TVI(s.ctr)
    ensures var s0 := s.(ctr := s.ctr + 1); EnvOk(env, s0) && PatReady(a, [], env, s0)
    ensures EnvOk([Binding("", Sch([], a))] + env, s.(ctr := s.ctr + 1))
    ensures forall n :: EnvOk([Binding(n, Sch([], a))] + env, s.(ctr := s.ctr + 1))
  {
    var s0 := s.(ctr := s.ctr + 1);
    FreshStep(s, 1, s.ctr);
    assert [] + env == env;
    forall n ensures EnvOk([Binding(n, Sch([], a))] + env, s0) {
      var env1 := [Binding(n, Sch([], a))] + env;
      assert forall b :: b in env1 <==> b == env1[0] || b in env;
      forall q | Quant(q, env1) ensures Inert(q, env1, s0) {
        assert Quant(q, env);
      }
    }
  }

  // Pattern bindings put in front of the environment.
  lemma {:induction false} ScopeOk(bs: Env, env: Env, s: TIS)
    requires EnvOk(env, s) && EnvBelow(bs, s.ctr) && Mono(bs)
    requires forall q :: Quant(q, env) ==> Inert(q, bs + env, s)
    ensures EnvOk(bs + env, s)
  {
    assert forall b :: b in bs + env <==> b in bs || b in env;
    forall q | Quant(q, bs + env) ensures Inert(q, bs + env, s) {
      assert Quant(q, env);
    }
  }

  lemma {:induction false} ScopeSem(ty: Ty, rest: Ty, bs: Env, env: Env, s: TIS, s1: TIS, th: Assign)
    requires EnvOk(env, s) && PatKept(rest, [], bs, env, s, s1) && Solves(th, s1.sub)
    ensures Sem(th, s1.sub, bs + env) == MonoCtx(th, bs) + Sem(th, s.sub, env)
  {
    hide Sem, MonoCtx, Untouched;
    SemAppend(th, s1.sub, bs, env);
    MonoCtxSem(th, s1.sub, bs);
    SemStable(th, s, s1, env);
  }

  lemma {:induction false} AppSound(fe: Expr, ae: Expr, env: Env, s: TIS, th: Assign)
    requires EnvOk(env, s) && InferE(EApp(fe, ae), env, s).Some?
    requires Solves(th, The(InferE(EApp(fe, ae), env, s)).0.sub)
    ensures HasTy(s.tydefs, Sem(th, s.sub, env), EApp(fe, ae), Map(th, The(InferE(EApp(fe, ae), env, s)).1))
    ensures Solves(th, s.sub)
    decreases EApp(fe, ae), 0
  {
    hide InferVar, InferPat, Binop, InferTup, InferBranches, Generalize, UnifyS, AnnVars, ScopeOf, Resolve;
    hide Sem, Unify, Untouched, Inert, Extends, SubVars, Step, HasTy, Solves;
    var (s1, tf) := InferE(fe, env, s).value;
    var (s2, tx) := InferE(ae, env, s1).value;
    var r := TVI(s2.ctr);
    UnifySolves(tf, TAr(tx, r), s2.(ctr := s2.ctr + 1), th);
    EAll(fe, env, s);
    StableOk(env, s, s1, tf);
    SoundLater(ae, env, s, s1, tf, th);
    Sound(fe, env, s, th);
    assert Map(th, TAr(tx, r)) == TAr(Map(th, tx), th(s2.ctr)) && Map(th, r) == th(s2.ctr);
    AppIntro(s.tydefs, Sem(th, s.sub, env), fe, ae, Map(th, tx), th(s2.ctr));
  }

  lemma {:induction false} AppIntro(td: TyDefs, g: Ctx, fe: Expr, ae: Expr, tx: Ty, t: Ty)
    requires HasTy(td, g, fe, TAr(tx, t)) && HasTy(td, g, ae, tx)
    ensures HasTy(td, g, EApp(fe, ae), t)
  {
  }

  lemma {:induction false} BinSound(op: string, l: Expr, r: Expr, env: Env, s: TIS, th: Assign)
    requires EnvOk(env, s) && InferE(EBin(op, l, r), env, s).Some?
    requires Solves(th, The(InferE(EBin(op, l, r), env, s)).0.sub)
    ensures HasTy(s.tydefs, Sem(th, s.sub, env), EBin(op, l, r), Map(th, The(InferE(EBin(op, l, r), env, s)).1))
    ensures Solves(th, s.sub)
    decreases EBin(op, l, r), 0
  {
    hide InferVar, InferPat, InferTup, InferBranches, Generalize, UnifyS, AnnVars, ScopeOf, Resolve;
    hide Sem, Unify, Untouched, Inert, Extends, SubVars, Step, Binop, BinTy;
    var (s1, tl) := InferE(l, env, s).value;
    var (s2, tr) := InferE(r, env, s1).value;
    BinopSound(op, tl, tr, s2, th);
    EAll(l, env, s);
    StableOk(env, s, s1, tl);
    SoundLater(r, env, s, s1, tl, th);
    Sound(l, env, s, th);
  }

  lemma {:induction false} BinopSound(op: string, tl: Ty, tr: Ty, s: TIS, th: Assign)
    requires Binop(op, tl, tr, s).Some? && Solves(th, The(Binop(op, tl, tr, s)).0.sub)
    ensures BinTy(op, Map(th, tl), Map(th, tr), Map(th, The(Binop(op, tl, tr, s)).1))
    ensures Solves(th, s.sub)
  {
    hide Unify, BinCheck;
    if op in ["+", "-", "*", "/", "%"] { BinCheckSound(tl, tr, "Int", "Int", s, th); }
    else if op == "++" { BinCheckSound(tl, tr, "String", "String", s, th); }
    else if op == "::" {
      var a := TVI(s.ctr);
      var s0 := s.(ctr := s.ctr + 1);
      var s1 := UnifyS(tl, a, s0).value;
      UnifySolves(tr, TApp("List", Cons(a, Nil)), s1, th);
      UnifySolves(tl, a, s0, th);
      assert Maps(th, Cons(a, Nil)) == Cons(Map(th, a), Maps(th, Nil));
    }
    else if op == "==" || op == "!=" { UnifySolves(tl, tr, s, th); }
    else if op in ["<", ">", "<=", ">="] { BinCheckSound(tl, tr, "Int", "Bool", s, th); }
    else { BinCheckSound(tl, tr, "Bool", "Bool", s, th); }
  }

  lemma {:induction false} BinCheckSound(tl: Ty, tr: Ty, want: string, ret: string, s: TIS, th: Assign)
    requires BinCheck(tl, tr, want, ret, s).Some?
    requires Solves(th, BinCheck(tl, tr, want, ret, s).value.0.sub)
    ensures Map(th, tl) == Map(th, tr) == TC(want) && BinCheck(tl, tr, want, ret, s).value.1 == TC(ret)
    ensures Solves(th, s.sub)
  {
    var s1 := UnifyS(tl, TC(want), s).value;
    UnifySolves(tr, TC(want), s1, th);
    UnifySolves(tl, TC(want), s, th);
  }

  lemma {:induction false} IfSound(c: Expr, t: Expr, f: Expr, env: Env, s: TIS, th: Assign)
    requires EnvOk(env, s) && InferE(EIf(c, t, f), env, s).Some?
    requires Solves(th, The(InferE(EIf(c, t, f), env, s)).0.sub)
    ensures HasTy(s.tydefs, Sem(th, s.sub, env), EIf(c, t, f), Map(th, The(InferE(EIf(c, t, f), env, s)).1))
    ensures Solves(th, s.sub)
    decreases EIf(c, t, f), 0
  {
    hide InferVar, InferPat, Binop, InferTup, InferBranches, Generalize, AnnVars, ScopeOf, Resolve;
    hide Sem, Unify, Untouched, Inert, Extends, SubVars, Step, HasTy, Solves;
    var (s1, tc) := InferE(c, env, s).value;
    var s2 := UnifyS(tc, TC("Bool"), s1).value;
    var (s3, tt) := InferE(t, env, s2).value;
    var (s4, te) := InferE(f, env, s3).value;
    EAll(c, env, s);
    ConstAll(s, s1, tc, TC("Bool"), env);
    UnifyAll(tc, TC("Bool"), env, s, s1);
    StableOk(env, s, s2, tc);
    LaterAll(t, env, s, s2, tc);
    StableOk(env, s, s3, tt);
    UnifySolves(tt, te, s4, th);
    SoundLater(f, env, s, s3, tt, th);
    SoundLater(t, env, s, s2, tc, th);
    UnifySolves(tc, TC("Bool"), s1, th);
    Sound(c, env, s, th);
    assert Map(th, TC("Bool")) == TC("Bool");
    IfIntro(s.tydefs, Sem(th, s.sub, env), c, t, f, Map(th, tt));
  }

  lemma {:induction false} IfIntro(td: TyDefs, g: Ctx, c: Expr, t: Expr, f: Expr, ty: Ty)
    requires HasTy(td, g, c, TC("Bool")) && HasTy(td, g, t, ty) && HasTy(td, g, f, ty)
    ensures HasTy(td, g, EIf(c, t, f), ty)
  {
  }

  lemma {:induction false} ConstAll(s: TIS, s1: TIS, u: Ty, t: Ty, env: Env)
    requires AllStep(s, s1, u, env) && StOk(s) && t.TC?
    ensures AllStep(s, s1, t, env)
  {
    hide Step;
    forall v ensures Step(s, s1, t, env, v) {
      assert Step(s, s1, u, env, v);
      ConstStep(s, s1, t, env, v);
    }
  }

  lemma {:induction false} LaterAll(e: Expr, env: Env, s: TIS, s1: TIS, t: Ty)
    requires AllStep(s, s1, t, env) && EnvBelow(env, s.ctr) && StOk(s1) && InferE(e, env, s1).Some?
    ensures var (s2, t2) := The(InferE(e, env, s1)); AllStep(s, s2, t, env) && AllStep(s, s2, t2, env)
  {
    hide InferE, Step;
    var (s2, t2) := InferE(e, env, s1).value;
    forall v ensures Step(s, s2, t, env, v) && Step(s, s2, t2, env, v) {
      assert Step(s, s1, t, env, v);
      EStepLater(e, env, s, s1, t, v);
    }
  }

  lemma {:induction false} CaseSound(scrut: Expr, brs: seq<Branch>, env: Env, s: TIS, th: Assign)
    requires EnvOk(env, s) && InferE(ECase(scrut, brs), env, s).Some?
    requires Solves(th, The(InferE(ECase(scrut, brs), env, s)).0.sub)
    ensures HasTy(s.tydefs, Sem(th, s.sub, env), ECase(scrut, brs), Map(th, The(InferE(ECase(scrut, brs), env, s)).1))
    ensures Solves(th, s.sub)
    decreases ECase(scrut, brs), 0
  {
    hide InferVar, InferPat, Binop, InferTup, Generalize, UnifyS, AnnVars, ScopeOf, Resolve;
    hide Sem, Unify, Untouched, Inert, Extends, SubVars, Step, InferBranches, HasTy, BranchesTy, Solves;
    var (s1, st) := InferE(scrut, env, s).value;
    var s2 := s1.(ctr := s1.ctr + 1);
    EAll(scrut, env, s);
    forall v ensures Step(s, s2, st, env, v) && Step(s, s2, TVI(s1.ctr), env, v) {
      assert Step(s, s1, st, env, v);
      FreshVarStep(s, s1, st, env, v);
    }
    BranchesSound(brs, st, TVI(s1.ctr), env, s, s2, th);
    Sound(scrut, env, s, th);
    CaseIntro(s.tydefs, Sem(th, s.sub, env), scrut, brs, Map(th, st), Map(th, TVI(s1.ctr)));
  }

  lemma {:induction false} CaseIntro(td: TyDefs, g: Ctx, scrut: Expr, brs: seq<Branch>, st: Ty, t: Ty)
    requires HasTy(td, g, scrut, st) && BranchesTy(td, g, brs, st, t)
    ensures HasTy(td, g, ECase(scrut, brs), t)
  {
    hide BranchesTy;
  }

  lemma {:induction false} BranchesSound(brs: seq<Branch>, st: Ty, res: Ty, env: Env, s: TIS, s1: TIS, th: Assign)
    requires EnvOk(env, s) && AllStep(s, s1, st, env) && AllStep(s, s1, res, env)
    requires InferBranches(brs, st, res, env, s1).Some?
    requires Solves(th, The(InferBranches(brs, st, res, env, s1)).sub)
    ensures BranchesTy(s.tydefs, Sem(th, s.sub, env), brs, Map(th, st), Map(th, res))
    ensures Solves(th, s1.sub)
    decreases brs, 1
  {
    hide Sem, InferBranch, BranchTy, Step, Inert;
    if brs != [] {
      var s2 := InferBranch(brs[0], st, res, env, s1).value;
      forall v ensures Step(s, s2, st, env, v) && Step(s, s2, res, env, v) {
        assert Step(s, s1, st, env, v) && Step(s, s1, res, env, v);
        BranchStep(brs[0], st, res, env, s, s1, v);
      }
      BranchesSound(brs[1..], st, res, env, s, s2, th);
      BranchSound(brs[0], st, res, env, s, s1, th);
    }
  }

  lemma {:induction false} BranchSound(br: Branch, st: Ty, res: Ty, env: Env, s: TIS, s1: TIS, th: Assign)
    requires EnvOk(env, s) && AllStep(s, s1, st, env) && AllStep(s, s1, res, env)
    requires InferBranch(br, st, res, env, s1).Some?
    requires Solves(th, The(InferBranch(br, st, res, env, s1)).sub)
    ensures BranchTy(s.tydefs, Sem(th, s.sub, env), br, Map(th, st), Map(th, res))
    ensures Solves(th, s1.sub)
    decreases br, 0
  {
    hide Sem, Unify, InferPat, InferE, Untouched, Inert, Extends, SubVars, WF, PatTy, HasTy;
    StableOk(env, s, s1, st);
    ScrutReady(st, env, s, s1);
    var (s2, bs) := InferPat(br.pat, st, [], env, s1).value;
    var (s3, bt) := InferE(br.body, bs + env, s2).value;
    PatKeeps(br.pat, st, st, [], env, s1);
    ScopeOk(bs, env, s2);
    UnifySolves(bt, res, s3, th);
    Sound(br.body, bs + env, s2, th);
    PatSound(br.pat, st, [], env, s1, th);
    ScopeSem(st, st, bs, env, s1, s2, th);
    Stable(th, env, s, s1, st);
  }

  lemma {:induction false} ScrutReady(st: Ty, env: Env, s: TIS, s1: TIS)
    requires EnvOk(env, s) && AllStep(s, s1, st, env)
    ensures PatReady(st, [], env, s1)
  {
    hide Untouched, Extends;
    StableOk(env, s, s1, st);
    assert [] + env == env;
    assert Step(s, s1, st, env, 0);
    forall q | Quant(q, env) ensures q !in FV(Ap(s1.sub, st)) {
      assert Step(s, s1, st, env, q);
    }
  }

  lemma {:induction false} TupleSound(es: seq<Expr>, env: Env, s: TIS, th: Assign)
    requires EnvOk(env, s) && InferTup(es, env, s).Some? && Solves(th, The(InferTup(es, env, s)).0.sub)
    ensures ElemsTy(s.tydefs, Sem(th, s.sub, env), es, Maps(th, The(InferTup(es, env, s)).1))
    ensures Solves(th, s.sub)
    decreases es, 0
  {
    hide Sem, InferE, Step, Inert, HasTy;
    if es != [] {
      var (s1, h) := InferE(es[0], env, s).value;
      EAll(es[0], env, s);
      StableOk(env, s, s1, h);
      TupleSound(es[1..], env, s1, th);
      Stable(th, env, s, s1, h);
      Sound(es[0], env, s, th);
    }
  }

  lemma {:induction false} AnnSound(inner: Expr, ann: TyAst, env: Env, s: TIS, th: Assign)
    requires EnvOk(env, s) && InferE(EAnn(inner, ann), env, s).Some?
    requires Solves(th, The(InferE(EAnn(inner, ann), env, s)).0.sub)
    ensures HasTy(s.tydefs, Sem(th, s.sub, env), EAnn(inner, ann), Map(th, The(InferE(EAnn(inner, ann), env, s)).1))
    ensures Solves(th, s.sub)
    decreases inner, 3
  {
    hide InferVar, InferPat, Binop, InferTup, InferBranches, Generalize, UnifyS;
    hide Sem, Unify, Untouched, Inert, Extends, SubVars, Step, Resolve, HasTy, Solves, ScopeOf, AnnVars, AllStep;
    var names := AnnVars(ann, []);
    var rt := Resolve(ann, ScopeOf(names, s.ctr), s.tydefs).value;
    var s0 := s.(ctr := s.ctr + |names|);
    var (s1, et) := InferE(inner, env, s0).value;
    AnnFresh(ann, env, s);
    StableOk(env, s, s0, rt);
    UnifySolves(et, rt, s1, th);
    SoundLater(inner, env, s, s0, rt, th);
    AnnIntro(s.tydefs, Sem(th, s.sub, env), inner, ann, ScopeOf(names, s.ctr), rt, th);
  }

  // An annotation's variables are fresh.
  lemma {:induction false} AnnFresh(ann: TyAst, env: Env, s: TIS)
    requires StOk(s) && Resolve(ann, ScopeOf(AnnVars(ann, []), s.ctr), s.tydefs).Some?
    ensures var names := AnnVars(ann, []);
            AllStep(s, s.(ctr := s.ctr + |names|), The(Resolve(ann, ScopeOf(names, s.ctr), s.tydefs)), env)
  {
    hide Step, Resolve, ScopeOf, AnnVars;
    var names := AnnVars(ann, []);
    var rt, s0 := Resolve(ann, ScopeOf(names, s.ctr), s.tydefs).value, s.(ctr := s.ctr + |names|);
    ResolveVars(ann, names, s.ctr, s.tydefs);
    forall v ensures Step(s, s0, rt, env, v) { ThenFresh(s, |names|, rt, env, v); }
  }

  lemma {:induction false} AnnIntro(td: TyDefs, g: Ctx, inner: Expr, ann: TyAst, sc: string -> Option<Ty>, t: Ty,
                                    th: Assign)
    requires Resolve(ann, sc, td) == Some(t) && HasTy(td, g, inner, Map(th, t))
    ensures HasTy(td, g, EAnn(inner, ann), Map(th, t))
  {
    hide Resolve, Denotes;
    ResolveMaps(ann, sc, th, td);
    ResolveExact(td, After(th, sc), ann, Map(th, t));
  }

  function After(th: Assign, asg: string -> Option<Ty>): string -> Option<Ty> {
    v => match asg(v) case None => None case Some(t) => Some(Map(th, t))
  }

  lemma {:induction false} ResolveMaps(ta: TyAst, asg: string -> Option<Ty>, th: Assign, td: TyDefs)
    requires Resolve(ta, asg, td).Some?
    ensures Resolve(ta, After(th, asg), td) == Some(Map(th, Resolve(ta, asg, td).value))
    decreases ta
  {
    match ta
    case TTVar(_) =>
    case TTCon(n, args) =>
      if n == "List" {
        ResolveMaps(args[0], asg, th, td);
        var e := Resolve(args[0], asg, td).value;
        assert Maps(th, Cons(e, Nil)) == Cons(Map(th, e), Maps(th, Nil));
      } else if n !in ["Int", "Bool", "String", "Unit"] {
        ResolveListMaps(args, asg, th, td);
      }
    case TTArr(a, b) => ResolveMaps(a, asg, th, td); ResolveMaps(b, asg, th, td);
    case TTTup(ts) => ResolveListMaps(ts, asg, th, td);
  }

  lemma {:induction false} ResolveListMaps(ts: seq<TyAst>, asg: string -> Option<Ty>, th: Assign, td: TyDefs)
    requires ResolveList(ts, asg, td).Some?
    ensures ResolveList(ts, After(th, asg), td) == Some(Maps(th, ResolveList(ts, asg, td).value))
    decreases ts
  {
    if ts != [] {
      ResolveMaps(ts[0], asg, th, td);
      ResolveListMaps(ts[1..], asg, th, td);
    }
  }

  function TyVars(ta: TyAst): set<string> {
    match ta
    case TTVar(v) => {v}
    case TTCon(_, args) => TyVarsList(args)
    case TTArr(a, b) => TyVars(a) + TyVars(b)
    case TTTup(ts) => TyVarsList(ts)
  }

  function TyVarsList(ts: seq<TyAst>): set<string> {
    if ts == [] then {} else TyVars(ts[0]) + TyVarsList(ts[1..])
  }

  // What an annotation resolves to depends on its variables' types only.
  lemma {:induction false} ResolveSame(ta: TyAst, f: string -> Option<Ty>, g: string -> Option<Ty>, td: TyDefs)
    requires forall v :: v in TyVars(ta) ==> f(v) == g(v)
    ensures Resolve(ta, f, td) == Resolve(ta, g, td)
    decreases ta
  {
    match ta
    case TTVar(v) =>
    case TTCon(n, args) =>
      if n == "List" && |args| == 1 {
        assert args[1..] == [] && TyVars(args[0]) <= TyVarsList(args);
        ResolveSame(args[0], f, g, td);
      } else {
        ResolveListSame(args, f, g, td);
      }
    case TTArr(a, b) => ResolveSame(a, f, g, td); ResolveSame(b, f, g, td);
    case TTTup(ts) => ResolveListSame(ts, f, g, td);
  }

  lemma {:induction false} ResolveListSame(ts: seq<TyAst>, f: string -> Option<Ty>, g: string -> Option<Ty>, td: TyDefs)
    requires forall v :: v in TyVarsList(ts) ==> f(v) == g(v)
    ensures ResolveList(ts, f, td) == ResolveList(ts, g, td)
    decreases ts
  {
    if ts != [] {
      ResolveSame(ts[0], f, g, td);
      ResolveListSame(ts[1..], f, g, td);
    }
  }

  lemma {:induction false} LetSound(isRec: bool, name: string, rhs: Expr, body: Expr, env: Env, s: TIS, th: Assign)
    requires EnvOk(env, s) && InferE(ELet(isRec, name, rhs, body), env, s).Some?
    requires Solves(th, The(InferE(ELet(isRec, name, rhs, body), env, s)).0.sub)
    ensures HasTy(s.tydefs, Sem(th, s.sub, env), ELet(isRec, name, rhs, body),
                  Map(th, The(InferE(ELet(isRec, name, rhs, body), env, s)).1))
    ensures Solves(th, s.sub)
    decreases ELet(isRec, name, rhs, body), 0
  {
    hide InferVar, InferPat, Binop, InferTup, InferBranches, AnnVars, ScopeOf, Resolve;
    hide Sem, Unify, Untouched, Inert, Extends, SubVars, Step, Generalize, RhsTy, Insts;
    if !isRec && name == "_" {
      var (s1, lt) := InferE(rhs, env, s).value;
      EAll(rhs, env, s);
      ConstAll(s, s1, lt, TC("Unit"), env);
      UnifyAll(lt, TC("Unit"), env, s, s1);
      var s2 := UnifyS(lt, TC("Unit"), s1).value;
      StableOk(env, s, s2, lt);
      SoundLater(body, env, s, s2, lt, th);
      UnifySolves(lt, TC("Unit"), s1, th);
      Sound(rhs, env, s, th);
    } else {
      LetPolySound(isRec, name, rhs, body, env, s, th);
    }
  }

  lemma {:induction false} LetPolySound(isRec: bool, name: string, rhs: Expr, body: Expr, env: Env, s: TIS, th: Assign)
    requires EnvOk(env, s) && InferE(ELet(isRec, name, rhs, body), env, s).Some? && (isRec || name != "_")
    requires Solves(th, The(InferE(ELet(isRec, name, rhs, body), env, s)).0.sub)
    ensures HasTy(s.tydefs, Sem(th, s.sub, env), ELet(isRec, name, rhs, body),
                  Map(th, The(InferE(ELet(isRec, name, rhs, body), env, s)).1))
    ensures Solves(th, s.sub)
    decreases ELet(isRec, name, rhs, body), 0, 0
  {
    LetUnfold(isRec, name, rhs, body, env, s);
    hide Sem, Unify, Untouched, Inert, Extends, SubVars, Step, Generalize, RhsTy, Insts, InferE, HasTy, RhsOf;
    var (s1, rt) := RhsOf(isRec, name, rhs, env, s).value;
    var g := Sem(th, s.sub, env);
    RhsAll(isRec, name, rhs, env, s);
    var sch := Generalize(env, rt, s1.sub);
    var env1 := [Binding(name, sch)] + env;
    GenOk(name, env, s, s1, rt);
    var t := Map(th, InferE(body, env1, s1).value.1);
    Sound(body, env1, s1, th);
    Stable(th, env, s, s1, rt);
    StableOk(env, s, s1, rt);
    var sch1 := Rename(th, s1.sub, sch);
    SemCons(th, s1.sub, name, sch, env);
    forall u | u in Insts(sch1)
      ensures HasTy(s.tydefs, if isRec then [Assumption(name, iset{u})] + g else g, rhs, u)
    {
      RhsInstance(isRec, name, rhs, env, s, th, u);
    }
    LetIntro(s.tydefs, g, isRec, name, rhs, body, sch1, t);
  }

  lemma {:induction false} LetUnfold(isRec: bool, name: string, rhs: Expr, body: Expr, env: Env, s: TIS)
    requires InferE(ELet(isRec, name, rhs, body), env, s).Some? && (isRec || name != "_")
    ensures RhsOf(isRec, name, rhs, env, s).Some?
    ensures var (s1, rt) := RhsOf(isRec, name, rhs, env, s).value;
            InferE(ELet(isRec, name, rhs, body), env, s)
            == InferE(body, [Binding(name, Generalize(env, rt, s1.sub))] + env, s1)
  {
    hide InferVar, InferPat, Binop, InferTup, InferBranches, AnnVars, ScopeOf, Resolve;
    hide UnifyS, Generalize;
  }

  lemma {:induction false} SemCons(th: Assign, s: Sub, name: string, sch: Sch, env: Env)
    ensures Sem(th, s, [Binding(name, sch)] + env) == [Assumption(name, SemInst(th, s, sch))] + Sem(th, s, env)
  {
    assert ([Binding(name, sch)] + env)[1..] == env;
  }

  lemma {:induction false} LetIntro(td: TyDefs, g: Ctx, isRec: bool, name: string, rhs: Expr, body: Expr, sch: Sch,
                                    t: Ty)
    requires isRec || name != "_"
    requires forall u :: u in Insts(sch) ==> HasTy(td, if isRec then [Assumption(name, iset{u})] + g else g, rhs, u)
    requires HasTy(td, [Assumption(name, Insts(sch))] + g, body, t)
    ensures HasTy(td, g, ELet(isRec, name, rhs, body), t)
  {
    assert RhsTy(td, g, isRec, name, rhs, sch);
  }

  function RhsOf(isRec: bool, name: string, rhs: Expr, env: Env, s: TIS): (r: Option<(TIS, Ty)>)
  {
    if isRec then LetRec(name, rhs, env, s) else InferE(rhs, env, s)
  }

  lemma {:induction false} RhsAll(isRec: bool, name: string, rhs: Expr, env: Env, s: TIS)
    requires EnvOk(env, s) && RhsOf(isRec, name, rhs, env, s).Some?
    ensures var (s1, rt) := The(RhsOf(isRec, name, rhs, env, s)); AllStep(s, s1, rt, env)
  {
    hide InferE, LetRec, Step;
    var (s1, rt) := RhsOf(isRec, name, rhs, env, s).value;
    forall v ensures Step(s, s1, rt, env, v) {
      if isRec { LetRecRhs(name, rhs, env, s, v); } else { EStep(rhs, env, s, v); }
    }
  }

  // The definition has every instance of the generalised scheme as a type.
  lemma {:induction false} RhsInstance(isRec: bool, name: string, rhs: Expr, env: Env, s: TIS, th: Assign, u: Ty)
    requires EnvOk(env, s) && RhsOf(isRec, name, rhs, env, s).Some?
    requires var (s1, rt) := RhsOf(isRec, name, rhs, env, s).value;
             Solves(th, s1.sub) && IsSemInst(th, s1.sub, Generalize(env, rt, s1.sub), u)
    ensures HasTy(s.tydefs, if isRec then [Assumption(name, iset{u})] + Sem(th, s.sub, env)
        else Sem(th, s.sub, env), rhs, u)
    decreases rhs, 3
  {
    hide Sem, Unify, Untouched, Inert, Extends, SubVars, Step, InferE, HasTy, FV;
    var (s1, rt) := RhsOf(isRec, name, rhs, env, s).value;
    var sch := Generalize(env, rt, s1.sub);
    RhsAll(isRec, name, rhs, env, s);
    var rho: Assign :| u == Map(Over(th, sch.qs, rho), Ap(s1.sub, rt));
    var f := Over(th, sch.qs, rho);
    var th1 := Through(s1.sub, f);
    assert StOk(s1) by { StableOk(env, s, s1, rt); }
    ThroughSolves(s1.sub, s1.sub, f);
    MapThrough(s1.sub, f, rt);
    Stable(th, env, s, s1, rt);
    Stable(th1, env, s, s1, rt);
    forall x | Active(x, env, s1.sub) ensures th(x) == th1(x) {
      ActiveUnbound(x, env, s1.sub);
      ImgUnbound(s1.sub, x);
    }
    SemAgree(th, th1, s1.sub, env);
    if isRec {
      RecSound(name, rhs, env, s, th1);
    } else {
      Sound(rhs, env, s, th1);
    }
  }

  lemma {:induction false} ActiveUnbound(x: int, env: Env, s: Sub)
    requires WF(s) && Active(x, env, s)
    ensures x !in Dom(s)
  {
    var b :| b in env && Free(x, b.sch, s);
    ApNoDom(s, b.sch.ty);
  }

  lemma {:induction false} RecSound(name: string, rhs: Expr, env: Env, s: TIS, th: Assign)
    requires EnvOk(env, s) && LetRec(name, rhs, env, s).Some? && Solves(th, The(LetRec(name, rhs, env, s)).0.sub)
    ensures var u := Map(th, The(LetRec(name, rhs, env, s)).1);
            HasTy(s.tydefs, [Assumption(name, iset{u})] + Sem(th, s.sub, env), rhs, u)
    decreases rhs, 2
  {
    hide Sem, Unify, Untouched, Inert, Extends, SubVars, Step, InferE, HasTy, FV;
    var a := TVI(s.ctr);
    var s0 := s.(ctr := s.ctr + 1);
    var env1 := [Binding(name, Sch([], a))] + env;
    var (s1, rt) := InferE(rhs, env1, s0).value;
    LamReady(a, env, s);
    UnifySolves(a, rt, s1, th);
    Sound(rhs, env1, s0, th);
    SemCons(th, s0.sub, name, Sch([], a), env);
    MonoSem(th, s0.sub, a);
  }

  // ---------- main theorem ----------

  // The environment, its free variables resolved through s.
  function EnvAt(s: Sub, env: Env): Env {
    if env == [] then [] else [Binding(env[0].name, Sch(env[0].sch.qs, Ap(s, env[0].sch.ty)))] + EnvAt(s, env[1..])
  }

  ghost function CtxOf(env: Env): Ctx {
    if env == [] then [] else [Assumption(env[0].name, Insts(env[0].sch))] + CtxOf(env[1..])
  }

  // In the checker's own terms: e has the resolved type under the resolved
  // environment, each name usable at the instances of its resolved scheme.
  lemma {:induction false} InferenceSound(e: Expr, env: Env, s: TIS)
    requires EnvOk(env, s) && InferE(e, env, s).Some?
    ensures var (s1, t) := InferE(e, env, s).value;
            HasTy(s.tydefs, CtxOf(EnvAt(s1.sub, env)), e, Apply(s1.sub, t))
  {
    hide Sem, InferE, HasTy, Untouched, Inert, Step;
    var (s1, t) := InferE(e, env, s).value;
    EAll(e, env, s);
    StableOk(env, s, s1, t);
    SelfSolves(s1.sub, s1.sub);
    var th := Meaning(s1.sub);
    Sound(e, env, s, th);
    Stable(th, env, s, s1, t);
    MapMeaning(s1.sub, t);
    SemIsCtx(s1.sub, env);
  }

  lemma {:induction false} SemIsCtx(s: Sub, env: Env)
    requires WF(s)
    ensures Sem(Meaning(s), s, env) == CtxOf(EnvAt(s, env))
  {
    hide SemInst, Insts;
    if env != [] {
      SemInstIsInsts(s, env[0].sch);
      SemIsCtx(s, env[1..]);
    }
  }

  lemma {:induction false} SemInstIsInsts(s: Sub, sch: Sch)
    requires WF(s)
    ensures SemInst(Meaning(s), s, sch) == Insts(Sch(sch.qs, Ap(s, sch.ty)))
  {
    var u := Ap(s, sch.ty);
    forall rho: Assign ensures Map(Over(Meaning(s), sch.qs, rho), u) == Map(Subst(sch.qs, rho), u) {
      ApNoDom(s, sch.ty);
      forall x | x in FV(u) ensures Over(Meaning(s), sch.qs, rho)(x) == Subst(sch.qs, rho)(x) { ImgUnbound(s, x); }
      MapExt(Over(Meaning(s), sch.qs, rho), Subst(sch.qs, rho), u);
    }
    assert forall t :: IsSemInst(Meaning(s), s, sch, t) <==> IsInst(Sch(sch.qs, u), t);
  }
}

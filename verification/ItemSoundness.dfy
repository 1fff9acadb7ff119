// Whole programs: normalising and pruning between items loses nothing, and a
// program the checker accepts is typed, item by item, by the declarative rules.
module ItemSoundness {
  import opened Types
  import opened Unification
  import opened Syntax
  import opened AlgorithmW
  import opened Frames
  import opened Declarative
  import opened Soundness
  import opened Completeness
  import opened Items

  // ---------- normalise and prune ----------

  // A scheme that is closed once resolved means its resolved self, whatever the
  // assignment: the substitution is no longer needed to read it.
  lemma {:induction false} NormTransparent(th: Assign, s: Sub, sch: Sch)
    requires forall x :: x in FV(Ap(s, sch.ty)) ==> x in sch.qs
    ensures SemInst(th, s, sch) == Insts(Sch(sch.qs, Ap(s, sch.ty)))
    ensures forall th1: Assign :: SemInst(th1, Empty, Sch(sch.qs, Ap(s, sch.ty))) == SemInst(th, s, sch)
  {
    ClosedInst(th, s, sch);
    ApEmpty(Ap(s, sch.ty));
    forall th1: Assign { ClosedInst(th1, Empty, Sch(sch.qs, Ap(s, sch.ty))); }
  }

  lemma {:induction false} ClosedInst(th: Assign, s: Sub, sch: Sch)
    requires forall x :: x in FV(Ap(s, sch.ty)) ==> x in sch.qs
    ensures SemInst(th, s, sch) == Insts(Sch(sch.qs, Ap(s, sch.ty)))
  {
    var u := Ap(s, sch.ty);
    forall rho: Assign ensures Map(Over(th, sch.qs, rho), u) == Map(Subst(sch.qs, rho), u) {
      MapExt(Over(th, sch.qs, rho), Subst(sch.qs, rho), u);
    }
    assert forall t :: IsSemInst(th, s, sch, t) <==> IsInst(Sch(sch.qs, u), t);
  }

  ghost predicate Closed(sch: Sch) {
    forall x :: x in FV(sch.ty) ==> x in sch.qs
  }

  lemma {:induction false} ClosedFixed(s: Sub, sch: Sch)
    requires WF(s) && Closed(sch) && forall q :: q in sch.qs ==> q !in Dom(s)
    ensures Ap(s, sch.ty) == sch.ty
  {
    forall x | x in FV(sch.ty) ensures x !in Dom(s) {}
    ApFixed(s, sch.ty);
  }

  // Between items: no substitution, every scheme closed.
  ghost predicate TopOk(env: Env, s: TIS) {
    && s.sub == Empty && EnvBelow(env, s.ctr)
    && forall b :: b in env ==> Closed(b.sch) && forall q :: q in b.sch.qs ==> q < s.ctr
  }

  lemma {:induction false} TopEnvOk(env: Env, s: TIS)
    requires TopOk(env, s)
    ensures EnvOk(env, s)
  {
    forall q | Quant(q, env) ensures Inert(q, env, s) {
      forall b | b in env ensures !Free(q, b.sch, s.sub) { ApEmpty(b.sch.ty); }
    }
  }

  // Closed schemes whose quantified variables are still unbound read the same
  // through any later substitution, and normalising leaves them as they are.
  lemma {:induction false} ClosedSem(th: Assign, s: Sub, env: Env)
    requires WF(s) && forall b :: b in env ==> Closed(b.sch) && forall q :: q in b.sch.qs ==> q !in Dom(s)
    ensures Sem(th, s, env) == CtxOf(env) && EnvAt(s, env) == env
  {
    hide SemInst, Insts;
    if env != [] {
      assert env[0] in env;
      ClosedFixed(s, env[0].sch);
      ClosedInst(th, s, env[0].sch);
      assert forall b :: b in env[1..] ==> b in env;
      ClosedSem(th, s, env[1..]);
      assert env == [env[0]] + env[1..];
    }
  }

  lemma {:induction false} EnvAtAppend(s: Sub, a: Env, b: Env)
    ensures EnvAt(s, a + b) == EnvAt(s, a) + EnvAt(s, b)
  {
    if a == [] { assert a + b == b; }
    else {
      assert (a + b)[1..] == a[1..] + b;
      EnvAtAppend(s, a[1..], b);
    }
  }

  lemma {:induction false} CtxAppend(a: Env, b: Env)
    ensures CtxOf(a + b) == CtxOf(a) + CtxOf(b)
  {
    hide Insts;
    if a == [] { assert a + b == b; }
    else {
      assert (a + b)[1..] == a[1..] + b;
      CtxAppend(a[1..], b);
    }
  }

  // ---------- definition groups ----------

  lemma {:induction false} PlaceOk(ds: seq<Def>, env: Env, s: TIS, n: nat)
    requires EnvOk(env, s) && Place(ds, env, s, n).Some?
    ensures var (s1, env1) := Place(ds, env, s, n).value;
            && EnvOk(env1, s1) && Grows(s, s1) && s1.sub == s.sub
            && forall q :: Quant(q, env) ==> Quant(q, env1)
    decreases ds
  {
    hide EnvOk, Inert;
    if ds == [] {
      assert StOk(s) by { EnvOkSt(env, s); }
      SelfGrows(s);
    } else if ds[0].isRec {
      var b := Binding(ds[0].name, Sch([], TVI(s.ctr)));
      var s0 := s.(ctr := s.ctr + 1);
      LamReady(TVI(s.ctr), env, s);
      PlaceOk(ds[1..], [b] + env, s0, n);
      EnvOkSt(env, s);
      FreshStep(s, 1, s.ctr);
      GrowsTrans(s, s0, Place(ds, env, s, n).value.0);
      forall q | Quant(q, env) ensures Quant(q, [b] + env) {
        var c :| c in env && q in c.sch.qs;
        assert c in [b] + env;
      }
    } else {
      PlaceOk(ds[1..], env, s, n);
    }
  }

  lemma {:induction false} EnvOkSt(env: Env, s: TIS)
    requires EnvOk(env, s)
    ensures StOk(s) && EnvBelow(env, s.ctr)
  {
  }

  // A recursive member is looked up at its own placeholder.
  ghost predicate KnotReady(d: Def, env: Env) {
    d.isRec ==> Has(env, d.name) && Find(env, d.name).qs == [] && Find(env, d.name).ty.TVI?
  }

  lemma {:induction false} PlaceFind(ds: seq<Def>, env: Env, s: TIS, n: nat, name: string)
    requires Place(ds, env, s, n).Some? && name !in Names(ds) && Has(env, name)
    ensures var env1 := Place(ds, env, s, n).value.1; Has(env1, name) && Find(env1, name) == Find(env, name)
    decreases ds
  {
    if ds != [] {
      if ds[0].isRec {
        PlaceFind(ds[1..], [Binding(ds[0].name, Sch([], TVI(s.ctr)))] + env, s.(ctr := s.ctr + 1), n, name);
      } else {
        PlaceFind(ds[1..], env, s, n, name);
      }
    }
  }

  lemma {:induction false} PlaceKnots(ds: seq<Def>, env: Env, s: TIS, n: nat)
    requires Distinct(ds) && Place(ds, env, s, n).Some?
    ensures forall d :: d in ds ==> KnotReady(d, Place(ds, env, s, n).value.1)
    decreases ds
  {
    if ds != [] {
      if ds[0].isRec {
        var env0 := [Binding(ds[0].name, Sch([], TVI(s.ctr)))] + env;
        PlaceKnots(ds[1..], env0, s.(ctr := s.ctr + 1), n);
        PlaceFind(ds[1..], env0, s.(ctr := s.ctr + 1), n, ds[0].name);
      } else {
        PlaceKnots(ds[1..], env, s, n);
      }
    }
  }

  // What the members' placeholders stand for under th.
  ghost predicate Knotted(ds: seq<Def>, taus: seq<Ty>, env: Env, th: Assign) {
    |taus| == |ds| && (ds != [] ==>
      && (ds[0].isRec ==> Has(env, ds[0].name) && Map(th, Find(env, ds[0].name).ty) == taus[0])
      && Knotted(ds[1..], taus[1..], env, th))
  }

  lemma {:induction false} PlaceSem(ds: seq<Def>, env: Env, s: TIS, n: nat, taus: seq<Ty>, th: Assign)
    requires Distinct(ds) && Place(ds, env, s, n).Some? && Solves(th, s.sub)
    requires Knotted(ds, taus, Place(ds, env, s, n).value.1, th)
    ensures Sem(th, s.sub, Place(ds, env, s, n).value.1) == PlaceCtx(ds, taus, Sem(th, s.sub, env))
    decreases ds
  {
    hide SemInst, Sem;
    if ds != [] {
      if ds[0].isRec {
        var env0 := [Binding(ds[0].name, Sch([], TVI(s.ctr)))] + env;
        var s0 := s.(ctr := s.ctr + 1);
        PlaceFind(ds[1..], env0, s0, n, ds[0].name);
        SemCons(th, s.sub, ds[0].name, Sch([], TVI(s.ctr)), env);
        MonoSem(th, s.sub, TVI(s.ctr));
        PlaceSem(ds[1..], env0, s0, n, taus[1..], th);
      } else {
        PlaceSem(ds[1..], env, s, n, taus[1..], th);
      }
    }
  }

  // A monomorphic name's type is free in the environment, so a step may use it.
  lemma {:induction false} NameStep(name: string, env: Env, s: TIS, v: int)
    requires StOk(s) && EnvBelow(env, s.ctr) && Has(env, name) && Find(env, name).qs == []
    ensures Step(s, s, Find(env, name).ty, env, v)
  {
    SelfGrows(s);
    FindIn(env, name);
    var b :| b in env && b.sch == Find(env, name);
    if v in FV(Ap(s.sub, b.sch.ty)) { assert Free(v, b.sch, s.sub); }
  }

  lemma {:induction false} BodyStep1(d: Def, env: Env, s: TIS, v: int)
    requires StOk(s) && EnvBelow(env, s.ctr) && KnotReady(d, env) && InferBody(d, env, s).Some?
    ensures var (s1, t) := The(InferBody(d, env, s)); Step(s, s1, t, env, v)
  {
    hide Unify, InferE, Untouched, Inert, Extends, SubVars, Ap, FV;
    var (inner, ann) := PeelAnn(d.body);
    var (s1, bt) := InferE(inner, env, s).value;
    var s2 := TieKnot(d, bt, env, s1).value;
    EStep(inner, env, s, v);
    if d.isRec {
      var p := Find(env, d.name).ty;
      NameStep(d.name, env, s1, v);
      Later(s, s1, s1, bt, p, env, v);
      ThenUnify(s, s1, p, bt, env, v);
    }
    if ann.Some? { AnnThen(ann.value, bt, s, s2, env, v); }
  }

  lemma {:induction false} AnnThen(ann: TyAst, bt: Ty, s: TIS, s1: TIS, env: Env, v: int)
    requires Step(s, s1, bt, env, v) && CheckAnn(Some(ann), bt, s1).Some?
    ensures Step(s, The(CheckAnn(Some(ann), bt, s1)), bt, env, v)
  {
    hide Unify, Untouched, Inert, Extends, SubVars, Ap, FV, Resolve;
    var names := AnnVars(ann, []);
    var rty := Resolve(ann, ScopeOf(names, s1.ctr), s1.tydefs).value;
    var s2 := s1.(ctr := s1.ctr + |names|);
    ResolveVars(ann, names, s1.ctr, s1.tydefs);
    ThenFresh(s1, |names|, rty, env, v);
    Later(s, s1, s2, bt, rty, env, v);
    ThenUnify(s, s2, bt, rty, env, v);
  }

  lemma {:induction false} BodyAll(d: Def, env: Env, s: TIS)
    requires EnvOk(env, s) && KnotReady(d, env) && InferBody(d, env, s).Some?
    ensures var (s1, t) := The(InferBody(d, env, s));
            AllStep(s, s1, t, env) && EnvOk(env, s1) && Grows(s, s1) && Below(t, s1.ctr)
  {
    hide InferBody, Step, Inert;
    var (s1, t) := InferBody(d, env, s).value;
    forall v ensures Step(s, s1, t, env, v) { BodyStep1(d, env, s, v); }
    StableOk(env, s, s1, t);
    StepGrows(s, s1, t, env);
  }

  lemma {:induction false} StepGrows(s: TIS, s1: TIS, t: Ty, env: Env)
    requires AllStep(s, s1, t, env)
    ensures Grows(s, s1) && Below(t, s1.ctr)
  {
    assert Step(s, s1, t, env, 0);
  }

  lemma {:induction false} BodySound(d: Def, env: Env, s: TIS, th: Assign)
    requires EnvOk(env, s) && KnotReady(d, env) && InferBody(d, env, s).Some?
    requires Solves(th, InferBody(d, env, s).value.0.sub)
    ensures var t := Map(th, InferBody(d, env, s).value.1);
            && HasTy(s.tydefs, Sem(th, s.sub, env), d.body, t)
            && (d.isRec ==> Map(th, Find(env, d.name).ty) == t)
    ensures Solves(th, s.sub)
  {
    hide Unify, InferE, Sem, Untouched, Inert, Resolve, Step;
    var (inner, ann) := PeelAnn(d.body);
    var (s1, bt) := InferE(inner, env, s).value;
    var s2 := TieKnot(d, bt, env, s1).value;
    EAll(inner, env, s);
    StepGrows(s, s1, bt, env);
    if d.isRec { UnifyTydefs(Find(env, d.name).ty, bt, s1); }
    if ann.Some? { AnnMeans(ann.value, bt, s2, th); }
    if d.isRec { UnifySolves(Find(env, d.name).ty, bt, s1, th); }
    Sound(inner, env, s, th);
  }

  lemma {:induction false} UnifyTydefs(a: Ty, b: Ty, s: TIS)
    requires UnifyS(a, b, s).Some?
    ensures The(UnifyS(a, b, s)).tydefs == s.tydefs
  {
  }

  lemma {:induction false} AnnMeans(ann: TyAst, bt: Ty, s: TIS, th: Assign)
    requires CheckAnn(Some(ann), bt, s).Some? && Solves(th, The(CheckAnn(Some(ann), bt, s)).sub)
    ensures Solves(th, s.sub) && Written(s.tydefs, ann, Map(th, bt))
  {
    hide Unify, Resolve, Denotes;
    var names := AnnVars(ann, []);
    var asg := ScopeOf(names, s.ctr);
    var rty := Resolve(ann, asg, s.tydefs).value;
    UnifySolves(bt, rty, s.(ctr := s.ctr + |names|), th);
    ResolveMaps(ann, asg, th, s.tydefs);
    ResolveExact(s.tydefs, After(th, asg), ann, Map(th, bt));
  }

  function MapSeq(th: Assign, tys: seq<Ty>): (r: seq<Ty>)
    ensures |r| == |tys| && forall i :: 0 <= i < |tys| ==> r[i] == Map(th, tys[i])
  {
    if tys == [] then [] else [Map(th, tys[0])] + MapSeq(th, tys[1..])
  }

  lemma {:induction false} BodiesSound(ds: seq<Def>, env: Env, s: TIS, th: Assign)
    requires EnvOk(env, s) && (forall d :: d in ds ==> KnotReady(d, env)) && InferBodies(ds, env, s).Some?
    requires Solves(th, The(InferBodies(ds, env, s)).0.sub)
    ensures var taus := MapSeq(th, The(InferBodies(ds, env, s)).1);
            MembersTy(s.tydefs, Sem(th, s.sub, env), ds, taus) && Knotted(ds, taus, env, th)
    ensures Solves(th, s.sub)
  {
    EnvOkSt(env, s);
    hide Sem, InferBody, EnvOk, AllStep, HasTy;
    if ds != [] {
      var (s1, t) := InferBody(ds[0], env, s).value;
      assert ds[0] in ds && forall d :: d in ds[1..] ==> d in ds;
      BodyAll(ds[0], env, s);
      BodiesSound(ds[1..], env, s1, th);
      Stable(th, env, s, s1, t);
      BodySound(ds[0], env, s, th);
    }
  }

  lemma {:induction false} BodiesStep(ds: seq<Def>, env: Env, s: TIS)
    requires EnvOk(env, s) && (forall d :: d in ds ==> KnotReady(d, env)) && InferBodies(ds, env, s).Some?
    ensures var (s1, tys) := The(InferBodies(ds, env, s));
            && EnvOk(env, s1) && Grows(s, s1) && forall t :: t in tys ==> Below(t, s1.ctr)
  {
    EnvOkSt(env, s);
    hide InferBody, EnvOk, AllStep;
    if ds == [] {
      SelfGrows(s);
    } else {
      var (s1, t) := InferBody(ds[0], env, s).value;
      assert ds[0] in ds && forall d :: d in ds[1..] ==> d in ds;
      BodyAll(ds[0], env, s);
      BodiesStep(ds[1..], env, s1);
      GrowsTrans(s, s1, InferBodies(ds, env, s).value.0);
    }
  }

  // The schemes of a group once normalised.
  function NormSchemes(tys: seq<Ty>, env: Env, s: Sub): (r: seq<Sch>)
    requires WF(s)
    ensures |r| == |tys|
    ensures forall i :: 0 <= i < |tys| ==> r[i] == Sch(Generalize(env, tys[i], s).qs, Ap(s, tys[i]))
  {
    if tys == [] then []
    else [Sch(Generalize(env, tys[0], s).qs, Ap(s, tys[0]))] + NormSchemes(tys[1..], env, s)
  }

  lemma {:induction false} GroupCtxNorm(ds: seq<Def>, tys: seq<Ty>, env: Env, s: Sub)
    requires WF(s) && |tys| == |ds|
    ensures CtxOf(EnvAt(s, GenAll(ds, tys, env, s))) == GroupCtx(ds, NormSchemes(tys, env, s))
  {
    hide Generalize, Insts;
    if ds != [] { GroupCtxNorm(ds[1..], tys[1..], env, s); }
  }

  lemma {:induction false} GroupSound(ds: seq<Def>, env: Env, s: TIS)
    requires TopOk(env, s) && InferGroup(ds, env, s).Some?
    ensures var (s1, schs) := InferGroup(ds, env, s).value;
            var env1 := NormEnv(schs + env, s1.sub);
            && TopOk(env1, s1.(sub := Empty)) && s1.tydefs == s.tydefs
            && exists sigma ::
                 GroupTy(s.tydefs, CtxOf(env), ds, sigma) && CtxOf(env1) == GroupCtx(ds, sigma) + CtxOf(env)
  {
    hide GroupBodies, Generalize, Sem, Insts, EnvAt, Inert, EnvOk, GenAll, Distinct, NormSchemes;
    TopEnvOk(env, s);
    var (s1, tys) := GroupBodies(ds, env, s).value;
    var schs := GenAll(ds, tys, env, s1.sub);
    GroupTop(ds, env, s);
    var sigma := NormSchemes(tys, env, s1.sub);
    forall i: nat, u: Ty | i < |ds| && u in Insts(sigma[i])
      ensures MemberUsable(s.tydefs, CtxOf(env), ds, i, u)
    {
      MemberInstance(ds, env, s, i, u);
    }
    EnvAtAppend(s1.sub, schs, env);
    GroupCtxNorm(ds, tys, env, s1.sub);
    CtxAppend(EnvAt(s1.sub, schs), env);
  }

  lemma {:induction false} OldSchemes(env: Env, s: TIS, env0: Env, s1: TIS)
    requires TopOk(env, s) && EnvOk(env0, s1)
    requires forall q :: Quant(q, env) ==> Quant(q, env0)
    ensures forall b :: b in env ==> Closed(b.sch) && forall q :: q in b.sch.qs ==> q !in Dom(s1.sub)
    ensures EnvAt(s1.sub, env) == env
    ensures forall th: Assign :: Sem(th, s1.sub, env) == CtxOf(env)
    ensures forall v :: !Active(v, env, s1.sub)
  {
    forall b, q | b in env && q in b.sch.qs ensures q !in Dom(s1.sub) {
      assert Quant(q, env);
      assert Inert(q, env0, s1);
    }
    forall th: Assign { ClosedSem(th, s1.sub, env); }
    ClosedSem(IdAssign(), s1.sub, env);
    forall v, b | b in env ensures !Free(v, b.sch, s1.sub) { ClosedFixed(s1.sub, b.sch); }
  }

  lemma {:induction false} GenAllIn(ds: seq<Def>, tys: seq<Ty>, env: Env, s: Sub, b: Binding)
    requires WF(s) && |tys| == |ds| && b in GenAll(ds, tys, env, s)
    ensures exists t :: t in tys && b.sch == Generalize(env, t, s)
  {
    hide Generalize;
    if b == GenAll(ds, tys, env, s)[0] { assert tys[0] in tys; }
    else { GenAllIn(ds[1..], tys[1..], env, s, b); }
  }

  lemma {:induction false} EnvAtIn(s: Sub, env: Env, b: Binding)
    requires b in EnvAt(s, env)
    ensures exists c :: c in env && b.sch == Sch(c.sch.qs, Ap(s, c.sch.ty))
  {
    if b == EnvAt(s, env)[0] { assert env[0] in env; }
    else {
      EnvAtIn(s, env[1..], b);
    }
  }

  // Top-level schemes stay closed across the group.
  lemma {:induction false} GroupTop(ds: seq<Def>, env: Env, s: TIS)
    requires TopOk(env, s) && InferGroup(ds, env, s).Some?
    ensures var (s1, schs) := InferGroup(ds, env, s).value;
            && TopOk(NormEnv(schs + env, s1.sub), s1.(sub := Empty)) && s1.tydefs == s.tydefs
            && EnvAt(s1.sub, env) == env && (forall th: Assign :: Sem(th, s1.sub, env) == CtxOf(env))
            && (forall v :: !Active(v, env, s1.sub))
  {
    hide InferBodies, Place, Sem, CtxOf, EnvAt, Inert, GenAll, Extends;
    TopEnvOk(env, s);
    var (s0, env0) := Place(ds, env, s, |ds|).value;
    PlaceOk(ds, env, s, |ds|);
    PlaceKnots(ds, env, s, |ds|);
    var (s1, tys) := InferBodies(ds, env0, s0).value;
    BodiesStep(ds, env0, s0);
    GrowsTrans(s, s0, s1);
    OldSchemes(env, s, env0, s1);
    var schs := GenAll(ds, tys, env, s1.sub);
    EnvAtAppend(s1.sub, schs, env);
    hide Closed, Generalize;
    forall b | b in EnvAt(s1.sub, schs) + env
      ensures Closed(b.sch) && Below(b.sch.ty, s1.ctr) && forall q :: q in b.sch.qs ==> q < s1.ctr
    {
      if b !in env { MemberClosed(ds, tys, env, s1, b); }
    }
  }

  lemma {:induction false} MemberClosed(ds: seq<Def>, tys: seq<Ty>, env: Env, s: TIS, b: Binding)
    requires |tys| == |ds| && StOk(s) && (forall t :: t in tys ==> Below(t, s.ctr))
    requires (forall v :: !Active(v, env, s.sub)) && b in EnvAt(s.sub, GenAll(ds, tys, env, s.sub))
    ensures Closed(b.sch) && Below(b.sch.ty, s.ctr) && forall q :: q in b.sch.qs ==> q < s.ctr
  {
    hide EnvAt, GenAll, Ap, WF, Active;
    var schs := GenAll(ds, tys, env, s.sub);
    EnvAtIn(s.sub, schs, b);
    var c :| c in schs && b.sch == Sch(c.sch.qs, Ap(s.sub, c.sch.ty));
    GenAllIn(ds, tys, env, s.sub, c);
    var t :| t in tys && c.sch == Generalize(env, t, s.sub);
    ApVars(s.sub, t);
  }

  // Any instance of a member's scheme comes with a typing of the whole group.
  lemma {:induction false} MemberInstance(ds: seq<Def>, env: Env, s: TIS, i: nat, u: Ty)
    requires TopOk(env, s) && Distinct(ds) && GroupBodies(ds, env, s).Some? && i < |ds|
    requires var (s1, tys) := GroupBodies(ds, env, s).value; u in Insts(NormSchemes(tys, env, s1.sub)[i])
    ensures MemberUsable(s.tydefs, CtxOf(env), ds, i, u)
  {
    hide GroupBodies, Sem, CtxOf, MembersTy, PlaceCtx, Generalize, TopOk, StOk, Distinct;
    TopSem(IdAssign(), env, s);
    var (s1, tys) := GroupBodies(ds, env, s).value;
    var sch := NormSchemes(tys, env, s1.sub)[i];
    var rho: Assign :| u == Map(Subst(sch.qs, rho), sch.ty);
    var th := Through(s1.sub, Subst(sch.qs, rho));
    ThroughSolves(s1.sub, s1.sub, Subst(sch.qs, rho));
    MapThrough(s1.sub, Subst(sch.qs, rho), tys[i]);
    GroupMembers(ds, env, s, th);
    assert MapSeq(th, tys)[i] == u;
  }

  // One typing of the group, for any solution of its constraints.
  lemma {:induction false} GroupMembers(ds: seq<Def>, env: Env, s: TIS, th: Assign)
    requires TopOk(env, s) && Distinct(ds) && GroupBodies(ds, env, s).Some?
    requires Solves(th, GroupBodies(ds, env, s).value.0.sub)
    ensures var taus := MapSeq(th, GroupBodies(ds, env, s).value.1);
            MembersTy(s.tydefs, PlaceCtx(ds, taus, CtxOf(env)), ds, taus)
  {
    hide InferBodies, Place, Sem, CtxOf, EnvAt, Inert, GenAll, MembersTy, PlaceCtx, Generalize, Knotted, EnvOk;
    hide TopOk, StOk;
    TopEnvOk(env, s);
    TopSem(th, env, s);
    PlaceSub(ds, env, s, |ds|);
    var (s0, env0) := Place(ds, env, s, |ds|).value;
    var taus := MapSeq(th, InferBodies(ds, env0, s0).value.1);
    PlaceOk(ds, env, s, |ds|);
    PlaceKnots(ds, env, s, |ds|);
    BodiesSound(ds, env0, s0, th);
    PlaceSem(ds, env, s, |ds|, taus, th);
  }

  lemma {:induction false} TopSem(th: Assign, env: Env, s: TIS)
    requires TopOk(env, s)
    ensures Sem(th, s.sub, env) == CtxOf(env)
  {
    ClosedSem(th, Empty, env);
  }

  // ---------- type declarations ----------

  // A constructor's scheme has exactly its declared types as instances.
  lemma {:induction false} CtorExact(td: TyDefs, d: TyDecl, cd: CtorDecl, base: int, full: Ty)
    requires ResolveList(cd.fields, ScopeOf(d.params, base), td).Some?
    requires full == MkArrows(ResolveList(cd.fields, ScopeOf(d.params, base), td).value,
        TApp(d.name, MkTvis(base, |d.params|)))
    ensures forall x :: x in FV(full) ==> base <= x < base + |d.params|
    ensures var sch := Sch(Nub([], FreeTy(full, [])), full);
            Closed(sch) && forall t :: t in Insts(sch) <==> IsCtorTy(td, d, cd, t)
  {
    var fields := ResolveList(cd.fields, ScopeOf(d.params, base), td).value;
    var tvs := MkTvis(base, |d.params|);
    var sch := Sch(Nub([], FreeTy(full, [])), full);
    ResolveListVars(cd.fields, d.params, base, td);
    FvArrows(fields, TApp(d.name, tvs));
    TvisBelow(base, |d.params|, Empty, base - 1);
    forall t ensures IsInst(sch, t) <==> IsCtorTy(td, d, cd, t) {
      if IsInst(sch, t) {
        var rho: Assign :| t == Map(Subst(sch.qs, rho), full);
        MapExt(Subst(sch.qs, rho), rho, full);
        CtorAt(td, d, cd, base, rho);
      }
      if IsCtorTy(td, d, cd, t) {
        var args := CtorArgs(td, d, cd, t);
        var rho := FromArgs(base, args);
        MapTvis(base, args);
        CtorAt(td, d, cd, base, rho);
        var asg := ParamsAt(d.params, args);
        FieldsExact(td, asg, cd.fields, TApp(d.name, args), t);
        FieldsExact(td, asg, cd.fields, TApp(d.name, args), Map(rho, full));
        MapExt(Subst(sch.qs, rho), rho, full);
      }
    }
  }

  lemma {:induction false} CtorArgs(td: TyDefs, d: TyDecl, cd: CtorDecl, t: Ty) returns (args: Tys)
    requires IsCtorTy(td, d, cd, t)
    ensures Length(args) == |d.params|
    ensures FieldsTo(td, ParamsAt(d.params, args), cd.fields, TApp(d.name, args), t)
  {
    hide FieldsTo;
    args :| Stands(d.params, args) && FieldsTo(td, ParamsAt(d.params, args), cd.fields, TApp(d.name, args), t);
    StandsLength(d.params, args);
  }

  lemma {:induction false} StandsLength(params: seq<string>, args: Tys)
    ensures Stands(params, args) <==> Length(args) == |params|
    decreases args
  {
    if args.Cons? && params != [] { StandsLength(params[1..], args.tl); }
  }

  // A declared type is the arrows over the resolved fields.
  lemma {:induction false} FieldsExact(td: TyDefs, asg: string -> Option<Ty>, fields: seq<TyAst>, res: Ty, t: Ty)
    ensures FieldsTo(td, asg, fields, res, t)
       <==> ResolveList(fields, asg, td).Some? && t == MkArrows(The(ResolveList(fields, asg, td)), res)
    decreases fields
  {
    hide Denotes, Resolve;
    if fields != [] && t.TAr? {
      ResolveExact(td, asg, fields[0], t.dom);
      FieldsExact(td, asg, fields[1..], res, t.cod);
    }
  }

  function Nth(ts: Tys, i: nat): Option<Ty> {
    match ts case Nil => None case Cons(h, r) => if i == 0 then Some(h) else Nth(r, i - 1)
  }

  function FromArgs(base: int, args: Tys): Assign {
    x => if base <= x then (match Nth(args, x - base) case None => TVI(x) case Some(t) => t) else TVI(x)
  }

  lemma {:induction false} MapTvis(base: int, args: Tys)
    ensures Maps(FromArgs(base, args), MkTvis(base, Length(args))) == args
  {
    TvisNth(base, base, args, args);
  }

  lemma {:induction false} TvisNth(base: int, at: int, all: Tys, rest: Tys)
    requires base <= at && forall k: nat :: Nth(rest, k) == Nth(all, at - base + k)
    ensures Maps(FromArgs(base, all), MkTvis(at, Length(rest))) == rest
    decreases rest
  {
    if rest.Cons? {
      assert Nth(rest, 0) == Some(rest.hd);
      forall k: nat ensures Nth(rest.tl, k) == Nth(all, at + 1 - base + k) {
        assert Nth(rest, k + 1) == Nth(rest.tl, k);
      }
      TvisNth(base, at + 1, all, rest.tl);
    }
  }

  // Assigning types to the fresh parameters is declaring them at those types.
  lemma {:induction false} CtorAt(td: TyDefs, d: TyDecl, cd: CtorDecl, base: int, rho: Assign)
    requires ResolveList(cd.fields, ScopeOf(d.params, base), td).Some?
    ensures var fields := ResolveList(cd.fields, ScopeOf(d.params, base), td).value;
            var tvs := MkTvis(base, |d.params|);
            && Stands(d.params, Maps(rho, tvs))
            && FieldsTo(td, ParamsAt(d.params, Maps(rho, tvs)), cd.fields, TApp(d.name, Maps(rho, tvs)),
                        Map(rho, MkArrows(fields, TApp(d.name, tvs))))
  {
    hide FieldsTo, Stands, ScopeOf, ResolveList, Map, Maps, MkArrows;
    var asg := ScopeOf(d.params, base);
    var tvs := MkTvis(base, |d.params|);
    ResolveListMaps(cd.fields, asg, rho, td);
    var args := Maps(rho, tvs);
    forall v ensures After(rho, asg)(v) == ParamsAt(d.params, args)(v) { ParamIs(d.params, base, rho, v); }
    ResolveListSame(cd.fields, After(rho, asg), ParamsAt(d.params, args), td);
    var fields := ResolveList(cd.fields, asg, td).value;
    MapArrows(rho, fields, TApp(d.name, tvs));
    LengthMaps(base, |d.params|, rho);
    StandsLength(d.params, args);
    AppMaps(rho, d.name, tvs);
    FieldsExact(td, ParamsAt(d.params, args), cd.fields, TApp(d.name, args),
        Map(rho, MkArrows(fields, TApp(d.name, tvs))));
  }

  lemma {:induction false} AppMaps(rho: Assign, name: string, ts: Tys)
    ensures Map(rho, TApp(name, ts)) == TApp(name, Maps(rho, ts))
  {
  }

  lemma {:induction false} LengthMaps(base: int, n: nat, rho: Assign)
    ensures Length(Maps(rho, MkTvis(base, n))) == n
    decreases n
  {
    if n != 0 { LengthMaps(base + 1, n - 1, rho); }
  }

  lemma {:induction false} ParamIs(params: seq<string>, base: int, rho: Assign, v: string)
    ensures ParamAt(params, Maps(rho, MkTvis(base, |params|)), v) == After(rho, ScopeOf(params, base))(v)
    decreases params
  {
    if params != [] && params[0] != v { ParamIs(params[1..], base + 1, rho, v); }
  }

  lemma {:induction false} CtorsStep(cds: seq<CtorDecl>, td: TyDefs, d: TyDecl, base: int) returns (sch: Sch, rest: Env)
    requires cds != [] && CtorSchemes(cds, d.name, d.params, base, td).Some?
    ensures CtorSchemes(cds[1..], d.name, d.params, base, td) == Some(rest)
    ensures CtorSchemes(cds, d.name, d.params, base, td) == Some([Binding(cds[0].name, sch)] + rest)
    ensures Insts(sch) == (iset t: Ty | IsCtorTy(td, d, cds[0], t)) && exists t :: IsCtorTy(td, d, cds[0], t)
    ensures Closed(sch) && Below(sch.ty, base + |d.params|) && forall q :: q in sch.qs ==> q < base + |d.params|
  {
    hide Insts, IsCtorTy, Nub, FreeTy, MkArrows, ResolveList, ScopeOf;
    var cd := cds[0];
    var fields := ResolveList(cd.fields, ScopeOf(d.params, base), td).value;
    var full := MkArrows(fields, TApp(d.name, MkTvis(base, |d.params|)));
    sch := Sch(Nub([], FreeTy(full, [])), full);
    rest := CtorSchemes(cds[1..], d.name, d.params, base, td).value;
    CtorExact(td, d, cd, base, full);
    SelfInst(sch);
    assert IsCtorTy(td, d, cd, full);
  }

  lemma {:induction false} CtorsSound(cds: seq<CtorDecl>, td: TyDefs, d: TyDecl, base: int)
    requires CtorSchemes(cds, d.name, d.params, base, td).Some?
    ensures var env := The(CtorSchemes(cds, d.name, d.params, base, td));
            && CtxOf(env) == CtorCtx(td, d, cds)
            && (forall b :: b in env ==> Closed(b.sch) && Below(b.sch.ty, base + |d.params|)
                                         && forall q :: q in b.sch.qs ==> q < base + |d.params|)
            && forall cd :: cd in cds ==> exists t :: IsCtorTy(td, d, cd, t)
  {
    hide Insts, IsCtorTy, Closed, Below;
    if cds != [] {
      hide CtorSchemes;
      var sch, rest := CtorsStep(cds, td, d, base);
      CtorsSound(cds[1..], td, d, base);
      var b := Binding(cds[0].name, sch);
      assert ([b] + rest)[1..] == rest;
      assert forall c :: c in cds <==> c == cds[0] || c in cds[1..];
      assert forall c :: c in [b] + rest <==> c == b || c in rest;
    }
  }

  lemma {:induction false} SelfInst(sch: Sch)
    ensures sch.ty in Insts(sch)
  {
    MapExt(Subst(sch.qs, IdAssign()), IdAssign(), sch.ty);
    MapId(sch.ty);
  }

  // The name is refused exactly when it is predefined or declared already.
  lemma {:induction false} TyNameExact(name: string, td: TyDefs)
    ensures !BadTyName(name, td) <==> !BaseType(name) && name != "List" && forall k :: (name, k) !in td
  {
    LookupNone(td, name);
  }

  lemma {:induction false} LookupNone(td: TyDefs, name: string)
    ensures LookupStr(td, name) == None <==> forall k :: (name, k) !in td
  {
    if td != [] {
      LookupNone(td[1..], name);
      var (n, m) := td[0];
      assert (n, m) in td;
      forall k ensures (name, k) in td <==> (name == n && k == m) || (name, k) in td[1..] {
        if (name, k) in td && (name, k) != td[0] {
          var i :| 0 < i < |td| && td[i] == (name, k);
          assert td[1..][i - 1] == td[i];
        }
      }
    }
  }

  lemma {:induction false} TydefSound(d: TyDecl, env: Env, s: TIS)
    requires TopOk(env, s) && CheckTydef(d, s).Some?
    ensures var (s1, schs) := CheckTydef(d, s).value;
            var env1 := NormEnv(schs + env, s1.sub);
            && TopOk(env1, s1.(sub := Empty)) && s1.tydefs == [(d.name, |d.params|)] + s.tydefs
            && !BaseType(d.name) && d.name != "List" && (forall k :: (d.name, k) !in s.tydefs)
            && CtxOf(env1) == CtorCtx(s1.tydefs, d, d.ctors) + CtxOf(env)
            && forall cd :: cd in d.ctors ==> exists t :: IsCtorTy(s1.tydefs, d, cd, t)
  {
    hide CtorSchemes, CtorCtx, IsCtorTy, CtxOf, BadTyName;
    TyNameExact(d.name, s.tydefs);
    var (s1, schs) := CheckTydef(d, s).value;
    CtorsSound(d.ctors, s1.tydefs, d, s.ctr);
    assert forall b :: b in schs + env <==> b in schs || b in env;
    ClosedSem(IdAssign(), Empty, schs + env);
    CtxAppend(schs, env);
  }

  // ---------- whole programs ----------

  // An accepted program is typed by the declarative rules, with the types the
  // checker ends up with.
  lemma {:induction false} ProgramSound(items: seq<Item>, env: Env, s: TIS)
    requires TopOk(env, s) && RunOrder(items, env, s).Some?
    ensures var (s1, env1) := The(RunOrder(items, env, s));
            TopOk(env1, s1) && ProgTy(s.tydefs, CtxOf(env), items, CtxOf(env1))
    decreases items
  {
    hide InferGroup, CheckTydef, CtxOf, NormEnv, GroupCtx, CtorCtx, IsCtorTy, EnvBelow, Closed, MemberUsable;
    if items != [] {
      var (s0, b) := InferItem(items[0], env, s).value;
      var env1 := NormEnv(b + env, s0.sub);
      match items[0] {
        case PTy(d) =>
          TydefSound(d, env, s);
          ProgramSound(items[1..], env1, s0.(sub := Empty));
        case PGrp(ds) =>
          GroupSound(ds, env, s);
          ProgramSound(items[1..], env1, s0.(sub := Empty));
          var sigma :| GroupTy(s.tydefs, CtxOf(env), ds, sigma) && CtxOf(env1) == GroupCtx(ds, sigma) + CtxOf(env);
      }
    }
  }

  // ---------- the initial environment ----------

  lemma {:induction false} InitTop()
    ensures var (s, env) := InitEnv(TIS(Empty, 0, [])); TopOk(env, s)
  {
    hide Builtins;
    var (s, env) := InitEnv(TIS(Empty, 0, []));
    PairVars(Empty, TVI(0), Nil);
    PairVars(Empty, TVI(1), Nil);
    forall b | b in env
      ensures Closed(b.sch) && Below(b.sch.ty, s.ctr) && forall q :: q in b.sch.qs ==> q < s.ctr
    {
      assert b in Builtins() || b == env[0] || b == env[1] || b == env[2] || b == env[3];
    }
  }

  // A scheme over what a written type's variables resolve to has exactly the
  // types it denotes as instances.
  lemma {:induction false} WrittenExact(ta: TyAst, names: seq<string>, base: int, sch: Sch)
    requires Resolve(ta, ScopeOf(names, base), []) == Some(sch.ty)
    requires forall x :: x in sch.qs <==> base <= x < base + |names|
    ensures Insts(sch) == iset t: Ty | Written([], ta, t)
  {
    hide Resolve, Denotes, ScopeOf, TyVars, After, Insts;
    var sc := ScopeOf(names, base);
    forall t ensures IsInst(sch, t) <==> Written([], ta, t) {
      if IsInst(sch, t) {
        var rho: Assign :| t == Map(Subst(sch.qs, rho), sch.ty);
        ResolveMaps(ta, sc, Subst(sch.qs, rho), []);
        ResolveExact([], After(Subst(sch.qs, rho), sc), ta, t);
      }
      if Written([], ta, t) {
        var asg: string -> Option<Ty> :| Denotes([], asg, ta, t);
        WrittenInst(ta, names, base, sch, asg, t);
      }
    }
    InstsExt(sch, iset t: Ty | Written([], ta, t));
  }

  lemma {:induction false} InstsExt(sch: Sch, ts: iset<Ty>)
    requires forall t :: IsInst(sch, t) <==> t in ts
    ensures Insts(sch) == ts
  {
    hide IsInst;
  }

  lemma {:induction false} WrittenInst(ta: TyAst, names: seq<string>, base: int, sch: Sch,
                                       asg: string -> Option<Ty>, t: Ty)
    requires Resolve(ta, ScopeOf(names, base), []) == Some(sch.ty) && Denotes([], asg, ta, t)
    requires forall x :: x in sch.qs <==> base <= x < base + |names|
    ensures IsInst(sch, t)
  {
    hide Resolve, Denotes, TyVars, Map;
    var sc := ScopeOf(names, base);
    var rho := AnnAssign(names, asg, base, IdAssign());
    ResolveExact([], asg, ta, t);
    forall v | v in TyVars(ta) ensures After(rho, sc)(v) == asg(v) {
      ResolveNeeds(ta, asg, [], v);
      ResolveNeeds(ta, sc, [], v);
      IndexOfAt(names, v);
      ScopeStands(names, asg, base, IdAssign(), v);
    }
    ResolveSame(ta, After(rho, sc), asg, []);
    ResolveMaps(ta, sc, rho, []);
    forall x ensures Subst(sch.qs, rho)(x) == rho(x) { }
    MapExt(Subst(sch.qs, rho), rho, sch.ty);
    assert t == Map(Subst(sch.qs, rho), sch.ty);
  }

  lemma {:induction false} OneArg(a: string, r: string)
    requires BaseType(a) && BaseType(r)
    ensures Resolve(TTArr(Base(a), Base(r)), ScopeOf([], 0), []) == Some(ConstFn([a], r))
  {
    assert ConstFn([a], r) == TAr(TC(a), TC(r));
  }

  lemma {:induction false} TwoArgs(a: string, b: string, r: string)
    requires BaseType(a) && BaseType(b) && BaseType(r)
    ensures Resolve(TTArr(Base(a), TTArr(Base(b), Base(r))), ScopeOf([], 0), []) == Some(ConstFn([a, b], r))
  {
    OneArg(b, r);
    assert [a, b][1..] == [b];
  }

  lemma {:induction false} ThreeArgs(a: string, b: string, c: string, r: string)
    requires BaseType(a) && BaseType(b) && BaseType(c) && BaseType(r)
    ensures Resolve(TTArr(Base(a), TTArr(Base(b), TTArr(Base(c), Base(r)))), ScopeOf([], 0), [])
         == Some(ConstFn([a, b, c], r))
  {
    TwoArgs(b, c, r);
    assert [a, b, c][1..] == [b, c];
  }

  // A written type over the base types, and the type of a built-in.
  predicate SameFn(ta: TyAst, b: Binding) {
    b.sch.qs == [] && Resolve(ta, ScopeOf([], 0), []) == Some(b.sch.ty)
  }

  lemma {:induction false} FnNames(k: nat)
    requires k < 16
    ensures |Builtins()| == 16 && |BaseFns()| == 16 && BaseFns()[k].0 == Builtins()[k].name
  {
    hide ConstFn, Base;
  }

  lemma {:induction false} FnTypes(k: nat)
    requires k < 16
    ensures |Builtins()| == 16 && |BaseFns()| == 16 && SameFn(BaseFns()[k].1, Builtins()[k])
  {
    hide Resolve, ScopeOf, ConstFn, Base;
    if k in {0, 8} { OneArg("Int", "Unit"); }
    else if k == 1 { OneArg("String", "Unit"); }
    else if k in {2, 9, 14} { OneArg("Int", "String"); }
    else if k == 3 { OneArg("Bool", "String"); }
    else if k in {4, 10, 13, 15} { OneArg("String", "Int"); }
    else if k == 5 { TwoArgs("String", "String", "String"); }
    else if k == 6 { OneArg("String", "String"); }
    else if k == 7 { TwoArgs("String", "String", "Unit"); }
    else if k == 11 { TwoArgs("String", "Int", "Int"); }
    else { ThreeArgs("String", "Int", "Int", "String"); }
  }

  lemma {:induction false} FnAt(k: nat)
    requires k < 16
    ensures |Builtins()| == 16 && |Prelude()| == 20 && Prelude()[k + 4].0 == Builtins()[k].name
    ensures SameFn(Prelude()[k + 4].1, Builtins()[k])
  {
    hide SameFn, Builtins, BaseFns, Base;
    FnNames(k);
    FnTypes(k);
    assert Prelude()[k + 4] == BaseFns()[k];
  }

  lemma {:induction false} PolyAt(k: nat)
    requires k < 4
    ensures var env := InitEnv(TIS(Empty, 0, [])).1;
            && |Prelude()| == 20 && |env| == 20 && Prelude()[k].0 == env[k].name
            && env[k].sch.qs == [k] && Resolve(Prelude()[k].1, ScopeOf(["a"], k), []) == Some(env[k].sch.ty)
  {
    var a, list, ty := TTVar("a"), TTCon("List", [TTVar("a")]), TApp("List", Cons(TVI(k), Nil));
    var sc := ScopeOf(["a"], k);
    assert Resolve(a, sc, []) == Some(TVI(k));
    assert Resolve(list, sc, []) == Some(ty);
    assert Resolve(TTArr(list, list), sc, []) == Some(TAr(ty, ty));
    assert Resolve(TTArr(a, TTArr(list, list)), sc, []) == Some(TAr(TVI(k), TAr(ty, ty)));
    assert Resolve(Base("String"), sc, []) == Some(TC("String"));
    assert Resolve(TTArr(Base("String"), a), sc, []) == Some(TAr(TC("String"), TVI(k)));
    assert Resolve(TTArr(a, Base("String")), sc, []) == Some(TAr(TVI(k), TC("String")));
    hide Resolve, ScopeOf, Builtins, BaseFns;
    assert |Builtins()| == 16 by { FnAt(0); }
  }

  lemma {:induction false} CtxMatches(env: Env, names: seq<(string, TyAst)>)
    requires |env| == |names|
    requires forall i :: 0 <= i < |env| ==>
        env[i].name == names[i].0 && Insts(env[i].sch) == iset t: Ty | Written([], names[i].1, t)
    ensures CtxOf(env) == WrittenCtx(names)
  {
    hide Insts, Written;
    if env != [] {
      assert Insts(env[0].sch) == iset t: Ty | Written([], names[0].1, t);
      CtxMatches(env[1..], names[1..]);
    }
  }

  // The initial environment offers every predefined name at the types one
  // would write for it.
  lemma {:induction false} InitMeans()
    ensures CtxOf(InitEnv(TIS(Empty, 0, [])).1) == WrittenCtx(Prelude())
  {
    hide Insts, Written, Resolve, Prelude, Builtins;
    var env, names := InitEnv(TIS(Empty, 0, [])).1, Prelude();
    FnAt(0);
    forall i | 0 <= i < 20
      ensures env[i].name == names[i].0 && Insts(env[i].sch) == iset t: Ty | Written([], names[i].1, t)
    {
      if i < 4 {
        PolyAt(i);
        WrittenExact(names[i].1, ["a"], i, env[i].sch);
      } else {
        FnAt(i - 4);
        assert env[i] == Builtins()[i - 4];
        WrittenExact(names[i].1, [], 0, env[i].sch);
      }
    }
    CtxMatches(env, names);
  }

  // g4_check: an accepted program is well typed from the initial environment.
  lemma {:induction false} CheckSound(items: seq<Item>)
    requires Check(items).Some?
    ensures ProgTy([], WrittenCtx(Prelude()), items, CtxOf(The(Check(items)).1))
  {
    hide TopOk, RunOrder, ProgTy, CtxOf, WrittenCtx, Prelude;
    var (s, env) := InitEnv(TIS(Empty, 0, []));
    InitMeans();
    InitTop();
    ProgramSound(items, env, s);
  }
}

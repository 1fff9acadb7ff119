// Whole programs, the other way round: the checker accepts every program that
// the declarative rules type, whose groups are well formed and whose constructor
// patterns are full, and no other.
module ItemCompleteness {
  import opened Types
  import opened Unification
  import opened Syntax
  import opened AlgorithmW
  import opened Frames
  import opened Declarative
  import opened Soundness
  import opened Completeness
  import opened Items
  import opened ItemSoundness

  // ---------- placeholders ----------

  // No two members of one name; a group of several is recursive throughout.
  predicate Grouped(ds: seq<Def>) {
    && (forall i, j :: 0 <= i < j < |ds| ==> ds[i].name != ds[j].name)
    && (|ds| > 1 ==> forall d :: d in ds ==> d.isRec)
  }

  lemma {:induction false} GroupedExact(ds: seq<Def>)
    ensures Grouped(ds) <==> Distinct(ds) && (|ds| > 1 ==> AllRec(ds))
  {
    hide Distinct, AllRec;
    DistinctExact(ds);
    AllRecExact(ds);
  }

  lemma {:induction false} DistinctExact(ds: seq<Def>)
    ensures Distinct(ds) <==> forall i, j :: 0 <= i < j < |ds| ==> ds[i].name != ds[j].name
  {
    if ds != [] {
      DistinctExact(ds[1..]);
      NameAmong(ds[1..], ds[0].name);
      assert forall i :: 0 <= i < |ds[1..]| ==> ds[1..][i] == ds[i + 1];
    }
  }

  lemma {:induction false} NameAmong(ds: seq<Def>, n: string)
    ensures n in Names(ds) <==> exists i :: 0 <= i < |ds| && ds[i].name == n
  {
    if ds != [] {
      NameAmong(ds[1..], n);
      assert n in Names(ds) <==> n == ds[0].name || n in Names(ds[1..]);
      assert forall i :: 0 <= i < |ds[1..]| ==> ds[1..][i] == ds[i + 1];
    }
  }

  lemma {:induction false} AllRecExact(ds: seq<Def>)
    ensures AllRec(ds) <==> forall d :: d in ds ==> d.isRec
  {
    if ds != [] {
      AllRecExact(ds[1..]);
      assert ds[0] in ds && forall d :: d in ds <==> d == ds[0] || d in ds[1..];
    }
  }

  predicate AllRec(ds: seq<Def>) { ds == [] || (ds[0].isRec && AllRec(ds[1..])) }

  // The placeholders may stand for any types of the recursive members.
  lemma {:induction false} PlaceComplete(ds: seq<Def>, env: Env, s: TIS, n: nat, taus: seq<Ty>, th: Assign)
    returns (th1: Assign)
    requires StOk(s) && Solves(th, s.sub) && Distinct(ds) && |taus| == |ds| && (n > 1 ==> AllRec(ds))
    ensures Place(ds, env, s, n).Some?
    ensures var (s1, env1) := The(Place(ds, env, s, n));
            Solves(th1, s1.sub) && AgreeBelow(th1, th, s.ctr) && Knotted(ds, taus, env1, th1)
    decreases ds
  {
    hide Solves;
    th1 := th;
    if ds != [] {
      if ds[0].isRec {
        var s0, env0 := s.(ctr := s.ctr + 1), [Binding(ds[0].name, Sch([], TVI(s.ctr)))] + env;
        AtFresh(th, s, taus[0]);
        th1 := PlaceComplete(ds[1..], env0, s0, n, taus[1..], At(th, s.ctr, taus[0]));
        PlaceFind(ds[1..], env0, s0, n, ds[0].name);
        assert th1(s.ctr) == At(th, s.ctr, taus[0])(s.ctr);
      } else {
        th1 := PlaceComplete(ds[1..], env, s, n, taus[1..], th);
      }
    }
  }

  lemma {:induction false} PlaceSome(ds: seq<Def>, env: Env, s: TIS, n: nat)
    requires Place(ds, env, s, n).Some? && n > 1
    ensures AllRec(ds)
    decreases ds
  {
    if ds != [] { PlaceSome(ds[1..], [Binding(ds[0].name, Sch([], TVI(s.ctr)))] + env, s.(ctr := s.ctr + 1), n); }
  }

  lemma {:induction false} PlaceCtors(ds: seq<Def>, env: Env, s: TIS, n: nat, ar: string -> nat)
    requires CtorsAt(env, ar) && DefsCased(ds) && Place(ds, env, s, n).Some?
    ensures CtorsAt(The(Place(ds, env, s, n)).1, ar)
    decreases ds
  {
    hide CtorsAt, Cased, Upper;
    if ds != [] {
      var b := Binding(ds[0].name, Sch([], TVI(s.ctr)));
      if ds[0].isRec {
        CtorsBind([b], env, ar);
        PlaceCtors(ds[1..], [b] + env, s.(ctr := s.ctr + 1), n, ar);
      } else {
        PlaceCtors(ds[1..], env, s, n, ar);
      }
    }
  }

  predicate DefsCased(ds: seq<Def>) { ds == [] || (!Upper(ds[0].name) && Cased(ds[0].body) && DefsCased(ds[1..])) }

  predicate DefsFull(ds: seq<Def>, ar: string -> nat) { ds == [] || (Full(ds[0].body, ar) && DefsFull(ds[1..], ar)) }

  // ---------- bodies ----------

  lemma {:induction false} BodyComplete(d: Def, env: Env, s: TIS, th: Assign, ar: string -> nat, tau: Ty)
    returns (th1: Assign)
    requires EnvOk(env, s) && KnotReady(d, env) && Solves(th, s.sub) && CtorsAt(env, ar) && Cased(d.body)
    requires Full(d.body, ar)
    requires HasTy(s.tydefs, Sem(th, s.sub, env), d.body, tau) && (d.isRec ==> Map(th, Find(env, d.name).ty) == tau)
    ensures InferBody(d, env, s).Some?
    ensures var (s1, t) := InferBody(d, env, s).value; Reached(th, s, th1, s1, t, tau)
  {
    hide Unify, InferE, Sem, Inert, Resolve, Step, CtorsAt, HasTy, Solves, Cased, Full, KnotReady, ScopeOf;
    hide AnnVars, WF, TieKnot, Denotes;
    var (inner, ann) := PeelAnn(d.body);
    PeelTyped(d.body, s.tydefs, Sem(th, s.sub, env), tau, ar);
    th1 := Complete(inner, env, s, th, ar, tau);
    var (s1, bt) := InferE(inner, env, s).value;
    EAll(inner, env, s);
    StepGrows(s, s1, bt, env);
    TieComplete(d, bt, env, s, s1, th, th1, tau);
    var s2 := TieKnot(d, bt, env, s1).value;
    if ann.Some? {
      var asg :| Denotes(s.tydefs, asg, ann.value, tau);
      ResolveExact(s.tydefs, asg, ann.value, tau);
      var th2 := th1;
      th1 := AnnComplete(ann.value, asg, s2, th2, tau);
      AgreeTy(th1, th2, s2.ctr, bt);
      UnifyComplete(bt, Resolve(ann.value, ScopeOf(AnnVars(ann.value, []), s2.ctr), s2.tydefs).value,
                    s2.(ctr := s2.ctr + |AnnVars(ann.value, [])|), th1);
    }
  }

  lemma {:induction false} PeelTyped(e: Expr, td: TyDefs, g: Ctx, t: Ty, ar: string -> nat)
    requires HasTy(td, g, e, t) && Cased(e) && Full(e, ar)
    ensures var (inner, ann) := PeelAnn(e);
            && HasTy(td, g, inner, t) && Cased(inner) && Full(inner, ar)
            && (ann.Some? ==> Written(td, ann.value, t))
  {
    hide Written;
  }

  lemma {:induction false} TieComplete(d: Def, bt: Ty, env: Env, s: TIS, s1: TIS, th: Assign, th1: Assign, tau: Ty)
    requires EnvOk(env, s) && KnotReady(d, env) && Grows(s, s1) && Below(bt, s1.ctr) && Reached(th, s, th1, s1, bt, tau)
    requires d.isRec ==> Map(th, Find(env, d.name).ty) == tau
    ensures TieKnot(d, bt, env, s1).Some?
    ensures var s2 := TieKnot(d, bt, env, s1).value;
            StOk(s2) && Solves(th1, s2.sub) && s2.ctr == s1.ctr && s2.tydefs == s1.tydefs
  {
    hide Inert;
    if d.isRec {
      var p := Find(env, d.name).ty;
      FindIn(env, d.name);
      AgreeTy(th1, th, s.ctr, p);
      UnifyComplete(p, bt, s1, th1);
      UnifyStep(p, bt, s1, 0);
    }
  }

  lemma {:induction false} KnottedBelow(ds: seq<Def>, taus: seq<Ty>, env: Env, n: int, th: Assign, th1: Assign)
    requires Knotted(ds, taus, env, th) && EnvBelow(env, n) && AgreeBelow(th1, th, n)
    ensures Knotted(ds, taus, env, th1)
    decreases ds
  {
    if ds != [] {
      if ds[0].isRec {
        FindIn(env, ds[0].name);
        AgreeTy(th1, th, n, Find(env, ds[0].name).ty);
      }
      KnottedBelow(ds[1..], taus[1..], env, n, th, th1);
    }
  }

  lemma {:induction false} BodiesComplete(ds: seq<Def>, env: Env, s: TIS, th: Assign, ar: string -> nat, taus: seq<Ty>)
    returns (th1: Assign)
    requires EnvOk(env, s) && (forall d :: d in ds ==> KnotReady(d, env)) && Solves(th, s.sub) && CtorsAt(env, ar)
    requires DefsCased(ds) && DefsFull(ds, ar) && MembersTy(s.tydefs, Sem(th, s.sub, env), ds, taus)
    requires Knotted(ds, taus, env, th)
    ensures InferBodies(ds, env, s).Some?
    ensures var (s1, tys) := The(InferBodies(ds, env, s));
            Solves(th1, s1.sub) && AgreeBelow(th1, th, s.ctr) && MapSeq(th1, tys) == taus
    decreases ds
  {
    EnvOkSt(env, s);
    hide Sem, InferBody, EnvOk, AllStep, HasTy, CtorsAt, Solves, Cased, Full, Upper, KnotReady, Map, FV, WF;
    th1 := th;
    if ds != [] {
      hide MapSeq;
      assert ds[0] in ds && forall d :: d in ds[1..] ==> d in ds;
      var th0 := BodyComplete(ds[0], env, s, th, ar, taus[0]);
      var (s1, t) := InferBody(ds[0], env, s).value;
      BodyAll(ds[0], env, s);
      SemMoves(th, th0, env, s, s1, t);
      KnottedBelow(ds[1..], taus[1..], env, s.ctr, th, th0);
      th1 := BodiesComplete(ds[1..], env, s1, th0, ar, taus[1..]);
      AgreeTy(th1, th0, s1.ctr, t);
      MapSeqCons(th1, t, InferBodies(ds[1..], env, s1).value.1);
      assert taus == [taus[0]] + taus[1..];
    }
  }

  lemma {:induction false} MapSeqCons(th: Assign, t: Ty, tys: seq<Ty>)
    ensures MapSeq(th, [t] + tys) == [Map(th, t)] + MapSeq(th, tys)
  {
    assert ([t] + tys)[1..] == tys;
  }

  // ---------- groups ----------

  // A typing of the members is reached by inferring them.
  lemma {:induction false} GroupReach(ds: seq<Def>, env: Env, s: TIS, ar: string -> nat, taus: seq<Ty>)
    returns (th: Assign)
    requires TopOk(env, s) && CtorsAt(env, ar) && Grouped(ds) && DefsCased(ds) && DefsFull(ds, ar) && |taus| == |ds|
    requires MembersTy(s.tydefs, PlaceCtx(ds, taus, CtxOf(env)), ds, taus)
    ensures GroupBodies(ds, env, s).Some?
    ensures var (s1, tys) := GroupBodies(ds, env, s).value; Solves(th, s1.sub) && MapSeq(th, tys) == taus
  {
    hide InferBodies, Place, Sem, CtxOf, Inert, MembersTy, PlaceCtx, Knotted, EnvOk, CtorsAt, DefsCased, DefsFull;
    GroupedExact(ds);
    hide Grouped;
    TopEnvOk(env, s);
    TopSt(env, s);
    var th0 := PlaceComplete(ds, env, s, |ds|, taus, IdAssign());
    PlaceSub(ds, env, s, |ds|);
    var (s0, env0) := Place(ds, env, s, |ds|).value;
    TopSem(th0, env, s);
    PlaceOk(ds, env, s, |ds|);
    PlaceKnots(ds, env, s, |ds|);
    PlaceSem(ds, env, s, |ds|, taus, th0);
    PlaceCtors(ds, env, s, |ds|, ar);
    th := BodiesComplete(ds, env0, s0, th0, ar, taus);
  }

  lemma {:induction false} TopSt(env: Env, s: TIS)
    requires TopOk(env, s)
    ensures StOk(s) && Solves(IdAssign(), s.sub)
  {
  }

  // A group the rules type is accepted, at schemes that are no less general.
  lemma {:induction false} GroupComplete(ds: seq<Def>, env: Env, s: TIS, ar: string -> nat, schs: seq<Sch>)
    requires TopOk(env, s) && CtorsAt(env, ar) && Grouped(ds) && DefsCased(ds) && DefsFull(ds, ar)
    requires GroupTy(s.tydefs, CtxOf(env), ds, schs)
    ensures InferGroup(ds, env, s).Some?
    ensures var (s1, tys) := GroupBodies(ds, env, s).value;
            forall i :: 0 <= i < |ds| ==> Insts(schs[i]) <= Insts(NormSchemes(tys, env, s1.sub)[i])
  {
    hide GroupBodies, CtxOf, MembersTy, PlaceCtx, Generalize, TopOk, CtorsAt, DefsCased, DefsFull, Grouped;
    hide Insts, GenAll;
    GroupedExact(ds);
    TopSt(env, s);
    if ds == [] {
      EmptyGroup(env, s);
    } else {
      SelfInst(schs[0]);
      assert MemberUsable(s.tydefs, CtxOf(env), ds, 0, schs[0].ty);
      var taus: seq<Ty> :| |taus| == |ds| && taus[0] == schs[0].ty
          && MembersTy(s.tydefs, PlaceCtx(ds, taus, CtxOf(env)), ds, taus);
      var th := GroupReach(ds, env, s, ar, taus);
      var (s1, tys) := GroupBodies(ds, env, s).value;
      forall i | 0 <= i < |ds| ensures Insts(schs[i]) <= Insts(NormSchemes(tys, env, s1.sub)[i]) {
        forall u | u in Insts(schs[i]) ensures u in Insts(NormSchemes(tys, env, s1.sub)[i]) {
          MemberReach(ds, env, s, ar, i, u);
        }
      }
    }
  }

  lemma {:induction false} EmptyGroup(env: Env, s: TIS)
    requires TopOk(env, s)
    ensures GroupBodies([], env, s).Some?
  {
  }

  lemma {:induction false} MemberReach(ds: seq<Def>, env: Env, s: TIS, ar: string -> nat, i: nat, u: Ty)
    requires TopOk(env, s) && CtorsAt(env, ar) && Grouped(ds) && DefsCased(ds) && DefsFull(ds, ar) && i < |ds|
    requires GroupBodies(ds, env, s).Some? && MemberUsable(s.tydefs, CtxOf(env), ds, i, u)
    ensures var (s1, tys) := GroupBodies(ds, env, s).value; u in Insts(NormSchemes(tys, env, s1.sub)[i])
  {
    hide GroupBodies, CtxOf, MembersTy, PlaceCtx, Generalize, TopOk, CtorsAt, DefsCased, DefsFull, Insts, GenAll;
    hide Map, Solves;
    GroupedExact(ds);
    hide Grouped;
    TopSt(env, s);
    var taus: seq<Ty> :| |taus| == |ds| && taus[i] == u
        && MembersTy(s.tydefs, PlaceCtx(ds, taus, CtxOf(env)), ds, taus);
    var th := GroupReach(ds, env, s, ar, taus);
    var (s1, tys) := GroupBodies(ds, env, s).value;
    GroupTop(ds, env, s);
    assert MapSeq(th, tys)[i] == u;
    ClosedInstance(env, s1, tys[i], th, u);
  }

  // ---------- more general contexts ----------

  lemma {:induction false} PlaceLe(ds: seq<Def>, taus: seq<Ty>, g: Ctx, g1: Ctx)
    requires |taus| == |ds| && CtxLe(g, g1)
    ensures CtxLe(PlaceCtx(ds, taus, g), PlaceCtx(ds, taus, g1))
    decreases ds
  {
    hide CtxLe;
    if ds != [] {
      LeFront([Assumption(ds[0].name, iset{taus[0]})], g, g1);
      if ds[0].isRec {
        PlaceLe(ds[1..], taus[1..], [Assumption(ds[0].name, iset{taus[0]})] + g,
            [Assumption(ds[0].name, iset{taus[0]})] + g1);
      } else {
        PlaceLe(ds[1..], taus[1..], g, g1);
      }
    }
  }

  lemma {:induction false} MembersLe(td: TyDefs, g: Ctx, g1: Ctx, ds: seq<Def>, taus: seq<Ty>)
    requires CtxLe(g, g1) && MembersTy(td, g, ds, taus)
    ensures MembersTy(td, g1, ds, taus)
    decreases ds
  {
    hide CtxLe, HasTy;
    if ds != [] {
      Weaken(td, g, g1, ds[0].body, taus[0]);
      MembersLe(td, g, g1, ds[1..], taus[1..]);
    }
  }

  lemma {:induction false} GroupLe(td: TyDefs, g: Ctx, g1: Ctx, ds: seq<Def>, schs: seq<Sch>)
    requires CtxLe(g, g1) && GroupTy(td, g, ds, schs)
    ensures GroupTy(td, g1, ds, schs)
  {
    hide CtxLe, MembersTy, PlaceCtx, Insts;
    forall i: nat, u: Ty | i < |ds| && u in Insts(schs[i]) ensures MemberUsable(td, g1, ds, i, u) {
      assert MemberUsable(td, g, ds, i, u);
      var taus: seq<Ty> :| |taus| == |ds| && taus[i] == u && MembersTy(td, PlaceCtx(ds, taus, g), ds, taus);
      PlaceLe(ds, taus, g, g1);
      MembersLe(td, PlaceCtx(ds, taus, g), PlaceCtx(ds, taus, g1), ds, taus);
    }
  }

  ghost predicate Typed(td: TyDefs, g: Ctx, items: seq<Item>) { exists g1 :: ProgTy(td, g, items, g1) }

  lemma {:induction false} TypedLe(td: TyDefs, g: Ctx, g1: Ctx, items: seq<Item>)
    requires CtxLe(g, g1) && Typed(td, g, items)
    ensures Typed(td, g1, items)
    decreases items
  {
    hide CtxLe, MemberUsable, IsCtorTy, CtorCtx;
    if items == [] {
      assert ProgTy(td, g1, items, g1);
    } else {
      var gn :| ProgTy(td, g, items, gn);
      match items[0] {
        case PTy(d) =>
          var td1 := [(d.name, |d.params|)] + td;
          var front := CtorCtx(td1, d, d.ctors);
          assert ProgTy(td1, front + g, items[1..], gn);
          LeFront(front, g, g1);
          TypedLe(td1, front + g, front + g1, items[1..]);
          var gm :| ProgTy(td1, front + g1, items[1..], gm);
          assert ProgTy(td, g1, items, gm);
        case PGrp(ds) =>
          var schs :| GroupTy(td, g, ds, schs) && ProgTy(td, GroupCtx(ds, schs) + g, items[1..], gn);
          var front := GroupCtx(ds, schs);
          assert Typed(td, front + g, items[1..]);
          LeFront(front, g, g1);
          TypedLe(td, front + g, front + g1, items[1..]);
          GroupLe(td, g, g1, ds, schs);
          var gm :| ProgTy(td, front + g1, items[1..], gm);
          assert ProgTy(td, g1, items, gm);
      }
    }
  }

  // ---------- type declarations ----------

  // The arities once a declaration's constructors are in front.
  function CtorArity(cds: seq<CtorDecl>, n: string, ar: string -> nat): nat {
    if cds == [] then ar(n) else if cds[0].name == n then |cds[0].fields| else CtorArity(cds[1..], n, ar)
  }

  function WithCtors(cds: seq<CtorDecl>, ar: string -> nat): string -> nat { n => CtorArity(cds, n, ar) }

  lemma {:induction false} ArrowsArity(args: Tys, name: string, ts: Tys)
    ensures Solid(MkArrows(args, TApp(name, ts))) && Arity(MkArrows(args, TApp(name, ts))) == Length(args)
  {
    if args.Cons? { ArrowsArity(args.tl, name, ts); }
  }

  lemma {:induction false} ResolveLength(ts: seq<TyAst>, asg: string -> Option<Ty>, td: TyDefs)
    requires ResolveList(ts, asg, td).Some?
    ensures Length(ResolveList(ts, asg, td).value) == |ts|
    decreases ts
  {
    hide Resolve;
    if ts != [] { ResolveLength(ts[1..], asg, td); }
  }

  lemma {:induction false} CtorsDeclared(cds: seq<CtorDecl>, name: string, params: seq<string>, base: int, td: TyDefs,
                                         env: Env, ar: string -> nat)
    requires CtorSchemes(cds, name, params, base, td).Some? && CtorsAt(env, ar)
    ensures CtorsAt(The(CtorSchemes(cds, name, params, base, td)) + env, WithCtors(cds, ar))
  {
    hide Upper, MkArrows, Nub, FreeTy;
    var schs := CtorSchemes(cds, name, params, base, td).value;
    if cds == [] {
      assert schs + env == env;
    } else {
      var fields := ResolveList(cds[0].fields, ScopeOf(params, base), td).value;
      ResolveLength(cds[0].fields, ScopeOf(params, base), td);
      ArrowsArity(fields, name, MkTvis(base, |params|));
      CtorsDeclared(cds[1..], name, params, base, td, env, ar);
      var rest := CtorSchemes(cds[1..], name, params, base, td).value;
      assert (schs + env)[0] == schs[0] && (schs + env)[1..] == rest + env;
      forall n | Upper(n) && Has(schs + env, n)
        ensures Solid(Find(schs + env, n).ty) && Arity(Find(schs + env, n).ty) == WithCtors(cds, ar)(n)
      {
        if n != cds[0].name { assert Has(rest + env, n) && Find(schs + env, n) == Find(rest + env, n); }
      }
    }
  }

  lemma {:induction false} ParamNamed(params: seq<string>, args: Tys, v: string)
    requires ParamAt(params, args, v).Some?
    ensures IndexOf(params, v).Some?
    decreases params
  {
    if params[0] != v { ParamNamed(params[1..], args.tl, v); }
  }

  // A constructor that has a type at all has its declared one.
  lemma {:induction false} CtorResolves(td: TyDefs, d: TyDecl, cd: CtorDecl, base: int)
    requires exists t :: IsCtorTy(td, d, cd, t)
    ensures ResolveList(cd.fields, ScopeOf(d.params, base), td).Some?
  {
    hide FieldsTo, Resolve, ResolveList, MkArrows, ParamAt;
    var t :| IsCtorTy(td, d, cd, t);
    var args: Tys :| Stands(d.params, args) && FieldsTo(td, ParamsAt(d.params, args), cd.fields, TApp(d.name, args), t);
    FieldsExact(td, ParamsAt(d.params, args), cd.fields, TApp(d.name, args), t);
    forall v | v in TyVarsList(cd.fields) ensures ScopeOf(d.params, base)(v).Some? {
      ResolveListNeeds(cd.fields, ParamsAt(d.params, args), td, v);
      ParamNamed(d.params, args, v);
    }
    ResolveListAny(cd.fields, ParamsAt(d.params, args), ScopeOf(d.params, base), td);
  }

  lemma {:induction false} SchemesComplete(cds: seq<CtorDecl>, td: TyDefs, d: TyDecl, base: int)
    requires forall cd :: cd in cds ==> exists t :: IsCtorTy(td, d, cd, t)
    ensures CtorSchemes(cds, d.name, d.params, base, td).Some?
  {
    hide IsCtorTy, MkArrows, Nub, FreeTy, ResolveList;
    if cds != [] {
      assert cds[0] in cds && forall cd :: cd in cds[1..] ==> cd in cds;
      CtorResolves(td, d, cds[0], base);
      SchemesComplete(cds[1..], td, d, base);
    }
  }

  // ---------- whole programs ----------

  predicate ItemsCased(items: seq<Item>) {
    items == [] || ((items[0].PGrp? ==> DefsCased(items[0].defs)) && ItemsCased(items[1..]))
  }

  predicate ItemsGrouped(items: seq<Item>) {
    items == [] || ((items[0].PGrp? ==> Grouped(items[0].defs)) && ItemsGrouped(items[1..]))
  }

  // Constructor patterns are full at the arities in force where they stand.
  predicate ItemsFull(items: seq<Item>, ar: string -> nat)
    decreases items
  {
    if items == [] then true
    else match items[0]
      case PTy(d) => ItemsFull(items[1..], WithCtors(d.ctors, ar))
      case PGrp(ds) => DefsFull(ds, ar) && ItemsFull(items[1..], ar)
  }

  lemma {:induction false} GenNames(ds: seq<Def>, tys: seq<Ty>, env: Env, s: Sub)
    requires WF(s) && |tys| == |ds| && DefsCased(ds)
    ensures forall b :: b in EnvAt(s, GenAll(ds, tys, env, s)) ==> !Upper(b.name)
  {
    hide Generalize, Upper, Cased, Ap;
    if ds != [] { GenNames(ds[1..], tys[1..], env, s); }
  }

  // The environment after a group: its names are variables.
  lemma {:induction false} GroupCtors(ds: seq<Def>, env: Env, s: TIS, ar: string -> nat)
    requires TopOk(env, s) && CtorsAt(env, ar) && DefsCased(ds) && InferGroup(ds, env, s).Some?
    ensures var (s1, schs) := InferGroup(ds, env, s).value; CtorsAt(NormEnv(schs + env, s1.sub), ar)
  {
    hide GroupBodies, Generalize, Distinct, GenAll, EnvAt, CtorsAt, TopOk, DefsCased;
    TopSt(env, s);
    var (s1, tys) := GroupBodies(ds, env, s).value;
    var schs := GenAll(ds, tys, env, s1.sub);
    GroupTop(ds, env, s);
    EnvAtAppend(s1.sub, schs, env);
    GenNames(ds, tys, env, s1.sub);
    CtorsBind(EnvAt(s1.sub, schs), env, ar);
  }

  lemma {:induction false} TydefCtors(d: TyDecl, env: Env, s: TIS, ar: string -> nat)
    requires TopOk(env, s) && CtorsAt(env, ar) && CheckTydef(d, s).Some?
    ensures var (s1, schs) := CheckTydef(d, s).value; CtorsAt(NormEnv(schs + env, s1.sub), WithCtors(d.ctors, ar))
  {
    hide CtorSchemes, CtorsAt, Closed, WithCtors;
    var (s1, schs) := CheckTydef(d, s).value;
    CtorsDeclared(d.ctors, d.name, d.params, s.ctr, s1.tydefs, env, ar);
    EnvAtEmpty(schs + env);
  }

  lemma {:induction false} EnvAtEmpty(env: Env)
    ensures EnvAt(Empty, env) == env
  {
    if env != [] {
      ApEmpty(env[0].sch.ty);
      EnvAtEmpty(env[1..]);
      assert env == [env[0]] + env[1..];
    }
  }

  // A typed program with well-formed groups and full patterns is accepted.
  lemma {:induction false} ProgramComplete(items: seq<Item>, env: Env, s: TIS, ar: string -> nat)
    requires TopOk(env, s) && CtorsAt(env, ar) && ItemsCased(items) && ItemsGrouped(items) && ItemsFull(items, ar)
    requires Typed(s.tydefs, CtxOf(env), items)
    ensures RunOrder(items, env, s).Some?
    decreases items
  {
    hide InferGroup, CheckTydef, CtxOf, NormEnv, GroupCtx, CtorCtx, IsCtorTy, EnvBelow, Closed, GroupTy;
    hide CtorsAt, TopOk, WithCtors, DefsCased, Grouped, DefsFull;
    TopSt(env, s);
    if items != [] {
      var gn :| ProgTy(s.tydefs, CtxOf(env), items, gn);
      match items[0] {
        case PTy(d) =>
          TydefComplete(d, env, s, items[1..], gn, ar);
          var (s0, b) := CheckTydef(d, s).value;
          ProgramComplete(items[1..], NormEnv(b + env, s0.sub), s0.(sub := Empty), WithCtors(d.ctors, ar));
        case PGrp(ds) =>
          GroupNext(ds, env, s, items[1..], gn, ar);
          var (s0, b) := InferGroup(ds, env, s).value;
          ProgramComplete(items[1..], NormEnv(b + env, s0.sub), s0.(sub := Empty), ar);
      }
    }
  }

  lemma {:induction false} TydefComplete(d: TyDecl, env: Env, s: TIS, rest: seq<Item>, gn: Ctx, ar: string -> nat)
    requires TopOk(env, s) && CtorsAt(env, ar) && ProgTy(s.tydefs, CtxOf(env), [PTy(d)] + rest, gn)
    ensures CheckTydef(d, s).Some?
    ensures var (s1, schs) := CheckTydef(d, s).value;
            var env1 := NormEnv(schs + env, s1.sub);
            && TopOk(env1, s1.(sub := Empty)) && CtorsAt(env1, WithCtors(d.ctors, ar))
               && Typed(s1.tydefs, CtxOf(env1), rest)
  {
    hide CtorSchemes, CtxOf, NormEnv, CtorCtx, IsCtorTy, EnvBelow, Closed, CtorsAt, TopOk, WithCtors, BadTyName;
    TyNameExact(d.name, s.tydefs);
    var td1 := [(d.name, |d.params|)] + s.tydefs;
    assert ([PTy(d)] + rest)[1..] == rest;
    assert ProgTy(td1, CtorCtx(td1, d, d.ctors) + CtxOf(env), rest, gn);
    SchemesComplete(d.ctors, td1, d, s.ctr);
    TydefSound(d, env, s);
    TydefCtors(d, env, s, ar);
  }

  lemma {:induction false} GroupNext(ds: seq<Def>, env: Env, s: TIS, rest: seq<Item>, gn: Ctx, ar: string -> nat)
    requires TopOk(env, s) && CtorsAt(env, ar) && Grouped(ds) && DefsCased(ds) && DefsFull(ds, ar)
    requires ProgTy(s.tydefs, CtxOf(env), [PGrp(ds)] + rest, gn)
    ensures InferGroup(ds, env, s).Some?
    ensures var (s1, schs) := InferGroup(ds, env, s).value;
            var env1 := NormEnv(schs + env, s1.sub);
            && TopOk(env1, s1.(sub := Empty)) && CtorsAt(env1, ar) && s1.tydefs == s.tydefs
               && Typed(s.tydefs, CtxOf(env1), rest)
  {
    hide GroupBodies, CtxOf, MemberUsable, CtorsAt, TopOk, Grouped, DefsCased, DefsFull, Generalize, Insts;
    hide EnvAt, Distinct;
    TopSt(env, s);
    assert ([PGrp(ds)] + rest)[1..] == rest;
    var schs :| GroupTy(s.tydefs, CtxOf(env), ds, schs) && ProgTy(s.tydefs, GroupCtx(ds, schs) + CtxOf(env), rest, gn);
    assert Typed(s.tydefs, GroupCtx(ds, schs) + CtxOf(env), rest);
    GroupComplete(ds, env, s, ar, schs);
    GroupCtors(ds, env, s, ar);
    var (s1, tys) := GroupBodies(ds, env, s).value;
    var gen, sigma := GenAll(ds, tys, env, s1.sub), NormSchemes(tys, env, s1.sub);
    GroupTop(ds, env, s);
    EnvAtAppend(s1.sub, gen, env);
    GroupCtxNorm(ds, tys, env, s1.sub);
    CtxAppend(EnvAt(s1.sub, gen), env);
    GroupCtxLe(ds, schs, sigma, CtxOf(env));
    TypedLe(s.tydefs, GroupCtx(ds, schs) + CtxOf(env), GroupCtx(ds, sigma) + CtxOf(env), rest);
  }

  lemma {:induction false} GroupCtxLe(ds: seq<Def>, a: seq<Sch>, b: seq<Sch>, g: Ctx)
    requires |a| == |b| == |ds| && forall i :: 0 <= i < |ds| ==> Insts(a[i]) <= Insts(b[i])
    ensures CtxLe(GroupCtx(ds, a) + g, GroupCtx(ds, b) + g)
  {
    hide Insts;
    if ds != [] {
      forall i | 0 <= i < |ds[1..]| ensures Insts(a[1..][i]) <= Insts(b[1..][i]) {
        assert Insts(a[i + 1]) <= Insts(b[i + 1]);
      }
      GroupCtxLe(ds[1..], a[1..], b[1..], g);
      var u, v := GroupCtx(ds[1..], a[1..]) + g, GroupCtx(ds[1..], b[1..]) + g;
      assert GroupCtx(ds, a) + g == [Assumption(ds[0].name, Insts(a[0]))] + u;
      assert GroupCtx(ds, b) + g == [Assumption(ds[0].name, Insts(b[0]))] + v;
    } else {
      assert GroupCtx(ds, a) + g == g && GroupCtx(ds, b) + g == g;
    }
  }

  // ---------- what is accepted is well formed ----------

  lemma {:induction false} BodiesAccepted(ds: seq<Def>, env: Env, s: TIS, ar: string -> nat)
    requires CtorsAt(env, ar) && DefsCased(ds) && InferBodies(ds, env, s).Some?
    ensures DefsFull(ds, ar)
    decreases ds
  {
    hide InferE, TieKnot, CheckAnn, CtorsAt, Upper;
    if ds != [] {
      var (inner, ann) := PeelAnn(ds[0].body);
      Accepted(inner, env, s, ar);
      BodiesAccepted(ds[1..], env, InferBody(ds[0], env, s).value.0, ar);
    }
  }

  lemma {:induction false} GroupAccepted(ds: seq<Def>, env: Env, s: TIS, ar: string -> nat)
    requires CtorsAt(env, ar) && DefsCased(ds) && InferGroup(ds, env, s).Some?
    ensures Grouped(ds) && DefsFull(ds, ar)
  {
    hide InferBodies, CtorsAt, DefsCased, DefsFull, Distinct, GenAll, Place, AllRec;
    var (s0, env0) := Place(ds, env, s, |ds|).value;
    PlaceSub(ds, env, s, |ds|);
    PlaceCtors(ds, env, s, |ds|, ar);
    BodiesAccepted(ds, env0, s0, ar);
    if |ds| > 1 { PlaceSome(ds, env, s, |ds|); }
    GroupedExact(ds);
  }

  lemma {:induction false} ProgramAccepted(items: seq<Item>, env: Env, s: TIS, ar: string -> nat)
    requires TopOk(env, s) && CtorsAt(env, ar) && ItemsCased(items) && RunOrder(items, env, s).Some?
    ensures ItemsGrouped(items) && ItemsFull(items, ar)
    decreases items
  {
    hide InferGroup, CheckTydef, NormEnv, EnvBelow, Closed, CtorsAt, TopOk, WithCtors, DefsCased, Grouped;
    hide DefsFull, CtxOf, CtorCtx, IsCtorTy, GroupTy, GroupCtx;
    TopSt(env, s);
    if items != [] {
      var (s0, b) := InferItem(items[0], env, s).value;
      match items[0] {
        case PTy(d) =>
          TydefSound(d, env, s);
          TydefCtors(d, env, s, ar);
          ProgramAccepted(items[1..], NormEnv(b + env, s0.sub), s0.(sub := Empty), WithCtors(d.ctors, ar));
        case PGrp(ds) =>
          GroupSound(ds, env, s);
          GroupCtors(ds, env, s, ar);
          GroupAccepted(ds, env, s, ar);
          ProgramAccepted(items[1..], NormEnv(b + env, s0.sub), s0.(sub := Empty), ar);
      }
    }
  }

  lemma {:induction false} InitCtors()
    ensures CtorsAt(InitEnv(TIS(Empty, 0, [])).1, ListArity())
  {
    hide Builtins;
    var env := InitEnv(TIS(Empty, 0, [])).1;
    LowerBuiltins();
    assert env[1..][1..][1..][1..] == Builtins();
    assert env[2].name == "error" && env[3].name == "show";
    assert !Upper("error") && !Upper("show") by { assert "error"[0] == 'e' && "show"[0] == 's'; }
    forall n | Upper(n) && Has(env, n) ensures Solid(Find(env, n).ty) && Arity(Find(env, n).ty) == ListArity()(n)
    {
      InitFind(env, n);
      var list := TApp("List", Cons(TVI(1), Nil));
      assert Solid(list) && Solid(TAr(list, list));
    }
  }

  lemma {:induction false} InitFind(env: Env, n: string)
    requires |env| >= 4 && Has(env, n) && n != env[2].name && n != env[3].name && !Has(env[4..], n)
    ensures n == env[0].name || n == env[1].name
    ensures Find(env, n) == if n == env[0].name then env[0].sch else env[1].sch
  {
    assert env[1..][1..] == env[2..] && env[2..][1..] == env[3..] && env[3..][1..] == env[4..];
    assert Has(env, n) <==> env[0].name == n || Has(env[1..], n);
    assert Has(env[1..], n) <==> env[1].name == n || Has(env[2..], n);
    assert Has(env[2..], n) <==> env[2].name == n || Has(env[3..], n);
    assert Has(env[3..], n) <==> env[3].name == n || Has(env[4..], n);
  }

  lemma {:induction false} LowerBuiltins()
    ensures forall n :: Upper(n) ==> !Has(Builtins(), n)
  {
    hide Builtins, Upper, Has;
    forall b | b in Builtins() ensures !Upper(b.name) { LowerBuiltin(b); }
    forall n | Upper(n) ensures !Has(Builtins(), n) { LowerFrom(Builtins(), n); }
  }

  lemma {:induction false} LowerBuiltin(b: Binding)
    requires b in Builtins()
    ensures !Upper(b.name)
  {
    hide Upper, ConstFn;
    var bs := Builtins();
    var i :| 0 <= i < |bs| && bs[i] == b;
    LowerNames(b.name);
  }

  lemma {:induction false} LowerNames(n: string)
    requires n in ["print_int", "print_string", "int_to_string", "bool_to_string", "string_length", "str_concat",
                   "read_file", "write_file", "exit", "chr", "ord", "string_get", "substring", "string_to_int",
                   "argv", "system"]
    ensures !Upper(n)
  {
    assert n[0] in "pibsrweoac";
  }

  lemma {:induction false} LowerFrom(env: Env, n: string)
    requires Upper(n) && forall b :: b in env ==> !Upper(b.name)
    ensures !Has(env, n)
  {
    if env != [] {
      assert env[0] in env;
      LowerFrom(env[1..], n);
    }
  }

  // Nil takes no argument and Cons two.
  function ListArity(): string -> nat { n => if n == "Cons" then 2 else 0 }

  // g4_check accepts exactly the programs that the declarative rules type, whose
  // groups are distinct and recursive if they have several members, and whose
  // constructor patterns are full.
  lemma {:induction false} CheckExact(items: seq<Item>)
    requires ItemsCased(items)
    ensures Check(items).Some?
       <==> Typed([], WrittenCtx(Prelude()), items) && ItemsGrouped(items) && ItemsFull(items, ListArity())
  {
    hide TopOk, RunOrder, ProgTy, CtxOf, ItemsCased, ItemsGrouped, ItemsFull, CtorsAt, WrittenCtx, Prelude;
    var (s, env) := InitEnv(TIS(Empty, 0, []));
    InitTop();
    InitCtors();
    InitMeans();
    if Check(items).Some? {
      CheckSound(items);
      assert Typed([], CtxOf(env), items);
      ProgramAccepted(items, env, s, ListArity());
    }
    if Typed([], CtxOf(env), items) && ItemsGrouped(items) && ItemsFull(items, ListArity()) {
      ProgramComplete(items, env, s, ListArity());
    }
  }
}

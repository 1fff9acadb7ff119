// What a step of Algorithm W can and cannot touch: it only adds bindings, and a
// variable that is neither bound, nor free in the environment, nor handed to
// the step stays unbound and enters no type. This is what protects the
// quantified variables of let-bound schemes.
module Frames {
  import opened Types
  import opened Unification
  import opened Syntax
  import opened AlgorithmW

  // v stays unbound, and no variable's meaning gains v.
  ghost predicate Untouched(v: int, s: Sub, s1: Sub) {
    v !in Dom(s1) && forall x :: v in FV(Img(s1, x)) ==> v in FV(Img(s, x))
  }

  lemma {:induction false} UntouchedTy(v: int, s: Sub, s1: Sub, t: Ty)
    requires Untouched(v, s, s1)
    ensures v in FV(Ap(s1, t)) ==> v in FV(Ap(s, t))
  {
    FvAp(s1, t, v);
    FvAp(s, t, v);
  }

  lemma {:induction false} UntouchedEnv(v: int, s: Sub, s1: Sub, env: Env)
    requires Untouched(v, s, s1)
    ensures Active(v, env, s1) ==> Active(v, env, s)
  {
    if Active(v, env, s1) {
      var b :| b in env && Free(v, b.sch, s1);
      UntouchedTy(v, s, s1, b.sch.ty);
      assert Free(v, b.sch, s);
    }
  }

  // ---------- unification ----------

  lemma {:induction false} BindFrame(v: int, x: int, t: Ty, s: Sub)
    requires WF(s) && v !in Dom(s) && v != x && v !in FV(Ap(s, t)) && x !in Dom(s)
    ensures Untouched(v, s, Bind(x, t, s))
  {
    forall y ensures v in FV(Img(Bind(x, t, s), y)) ==> v in FV(Img(s, y)) {
      FvRepl(x, Ap(s, t), Img(s, y));
    }
  }

  lemma {:induction false} UnifyFrame(v: int, a: Ty, b: Ty, s: Sub)
    requires WF(s) && v !in Dom(s) && v !in FV(Ap(s, a)) && v !in FV(Ap(s, b))
    requires Unify(a, b, s).Some?
    ensures Untouched(v, s, Unify(a, b, s).value)
    decreases |Unbound(FV(a) + FV(b), s)|, Size(Ap(s, a)) + Size(Ap(s, b)), 2
  {
    hide Rank, RankTy, RankTys, WalkFull, UnifyStruct, Grew;
    var ta, tb := Chase(s, a), Chase(s, b);
    if ta.TVI? {
      ImgUnbound(s, ta.id);
      if ta != tb { BindFrame(v, ta.id, tb, s); }
    } else if tb.TVI? {
      ImgUnbound(s, tb.id);
      BindFrame(v, tb.id, ta, s);
    } else {
      SubsetCard(Unbound(FV(ta) + FV(tb), s), Unbound(FV(a) + FV(b), s));
      UnifyStructFrame(v, ta, tb, s);
    }
  }

  lemma {:induction false} UnifyStructFrame(v: int, ta: Ty, tb: Ty, s: Sub)
    requires WF(s) && !ta.TVI? && !tb.TVI?
    requires v !in Dom(s) && v !in FV(Ap(s, ta)) && v !in FV(Ap(s, tb))
    requires UnifyStruct(ta, tb, s).Some?
    ensures Untouched(v, s, UnifyStruct(ta, tb, s).value)
    decreases |Unbound(FV(ta) + FV(tb), s)|, Size(Ap(s, ta)) + Size(Ap(s, tb)), 1
  {
    hide Rank, RankTy, RankTys, WalkFull, UnifyLists, Unify, Chase;
    if ta.TAr? && tb.TAr? {
      var vars := FV(ta) + FV(tb);
      SubsetCard(Unbound(FV(ta.dom) + FV(tb.dom), s), Unbound(vars, s));
      UnifyFrame(v, ta.dom, tb.dom, s);
      var s1 := Unify(ta.dom, tb.dom, s).value;
      UnboundShrinks(vars, s, FV(ta.cod) + FV(tb.cod), s1);
      UntouchedTy(v, s, s1, ta.cod);
      UntouchedTy(v, s, s1, tb.cod);
      UnifyFrame(v, ta.cod, tb.cod, s1);
    } else if ta.TTup? {
      UnifyListsFrame(v, ta.elems, tb.elems, s);
    } else if ta.TApp? {
      UnifyListsFrame(v, ta.args, tb.args, s);
    }
  }

  lemma {:induction false} UnifyListsFrame(v: int, xs: Tys, ys: Tys, s: Sub)
    requires WF(s) && v !in Dom(s) && v !in FVs(Aps(s, xs)) && v !in FVs(Aps(s, ys))
    requires UnifyLists(xs, ys, s).Some?
    ensures Untouched(v, s, UnifyLists(xs, ys, s).value)
    decreases |Unbound(FVs(xs) + FVs(ys), s)|, Sizes(Aps(s, xs)) + Sizes(Aps(s, ys)), 0
  {
    hide Rank, RankTy, RankTys, WalkFull, Unify, Chase;
    if xs.Cons? {
      SubsetCard(Unbound(FV(xs.hd) + FV(ys.hd), s), Unbound(FVs(xs) + FVs(ys), s));
      UnifyFrame(v, xs.hd, ys.hd, s);
      var s1 := Unify(xs.hd, ys.hd, s).value;
      UnboundShrinks(FVs(xs) + FVs(ys), s, FVs(xs.tl) + FVs(ys.tl), s1);
      UntouchedTys(v, s, s1, xs.tl);
      UntouchedTys(v, s, s1, ys.tl);
      UnifyListsFrame(v, xs.tl, ys.tl, s1);
    }
  }

  lemma {:induction false} UntouchedTys(v: int, s: Sub, s1: Sub, ts: Tys)
    requires Untouched(v, s, s1)
    ensures v in FVs(Aps(s1, ts)) ==> v in FVs(Aps(s, ts))
  {
    FvAps(s1, ts, v);
    FvAps(s, ts, v);
  }

  // ---------- the checker's state ----------

  ghost predicate Below(t: Ty, n: int) {
    forall x :: x in FV(t) ==> x < n
  }

  ghost predicate EnvBelow(env: Env, n: int) {
    forall b :: b in env ==> Below(b.sch.ty, n)
  }

  // Every variable in use is below the counter.
  ghost predicate StOk(s: TIS) {
    forall x :: x in SubVars(s.sub) ==> x < s.ctr
  }

  ghost predicate Grows(s: TIS, s1: TIS) {
    StOk(s1) && Extends(s1.sub, s.sub) && s.ctr <= s1.ctr && s1.tydefs == s.tydefs
  }

  // v may be generalised or already is: unbound and not free in env.
  ghost predicate Inert(v: int, env: Env, s: TIS) {
    v < s.ctr && v !in Dom(s.sub) && !Active(v, env, s.sub)
  }

  lemma {:induction false} GrowsTrans(s: TIS, s1: TIS, s2: TIS)
    requires Grows(s, s1) && Grows(s1, s2)
    ensures Grows(s, s2)
  {
    ExtendsTrans(s2.sub, s1.sub, s.sub);
  }

  lemma {:induction false} UntouchedTrans(v: int, s: Sub, s1: Sub, s2: Sub)
    requires Untouched(v, s, s1) && Untouched(v, s1, s2)
    ensures Untouched(v, s, s2)
  {
  }

  lemma {:induction false} InertKeep(v: int, env: Env, s: TIS, s1: TIS)
    requires Inert(v, env, s) && Untouched(v, s.sub, s1.sub) && s.ctr <= s1.ctr
    ensures Inert(v, env, s1)
  {
    UntouchedEnv(v, s.sub, s1.sub, env);
  }

  // Drawing fresh variables disturbs nothing, and they stand for themselves.
  lemma {:induction false} FreshStep(s: TIS, n: nat, x: int)
    requires StOk(s) && x >= s.ctr
    ensures Grows(s, s.(ctr := s.ctr + n)) && Img(s.sub, x) == TVI(x) && x !in Dom(s.sub)
  {
    DomVars(s.sub);
    ImgUnbound(s.sub, x);
  }

  lemma {:induction false} UnifyStep(a: Ty, b: Ty, s: TIS, v: int)
    requires StOk(s) && Below(a, s.ctr) && Below(b, s.ctr) && UnifyS(a, b, s).Some?
    ensures var s1 := The(UnifyS(a, b, s)); Grows(s, s1) && s1.ctr == s.ctr
    ensures v !in Dom(s.sub) && v !in FV(Ap(s.sub, a)) && v !in FV(Ap(s.sub, b)) ==>
              Untouched(v, s.sub, The(UnifyS(a, b, s)).sub)
  {
    hide Unify;
    if v !in Dom(s.sub) && v !in FV(Ap(s.sub, a)) && v !in FV(Ap(s.sub, b)) {
      UnifyFrame(v, a, b, s.sub);
    }
  }

  // ---------- instantiation ----------

  function Ren(mp: seq<(int, int)>): Assign { x => TVI(FindInt(mp, x)) }

  lemma {:induction false} FindZip(qs: seq<int>, base: int, x: int)
    ensures if x in qs then base <= FindInt(ZipIds(qs, base), x) < base + |qs|
            else FindInt(ZipIds(qs, base), x) == x
  {
    if qs != [] { FindZip(qs[1..], base + 1, x); }
  }

  // Instantiating, resolved, is renaming the resolved type.
  lemma {:induction false} InstMeans(t: Ty, qs: seq<int>, base: int, s: Sub)
    requires WF(s) && forall x :: x in Dom(s) ==> x < base
    ensures Ap(s, InstRewrite(t, ZipIds(qs, base), s)) == Map(Ren(ZipIds(qs, base)), Ap(s, t))
    decreases RankTy(s, t), t
  {
    var c := Chase(s, t);
    match c
    case TVI(x) =>
      FindZip(qs, base, x);
      ImgUnbound(s, x);
      ImgUnbound(s, FindInt(ZipIds(qs, base), x));
    case TC(_) =>
    case TAr(a, b) => InstMeans(a, qs, base, s); InstMeans(b, qs, base, s);
    case TTup(ts) => InstsMean(ts, qs, base, s);
    case TApp(_, ts) => InstsMean(ts, qs, base, s);
  }

  lemma {:induction false} InstsMean(ts: Tys, qs: seq<int>, base: int, s: Sub)
    requires WF(s) && forall x :: x in Dom(s) ==> x < base
    ensures Aps(s, InstMap(ts, ZipIds(qs, base), s)) == Maps(Ren(ZipIds(qs, base)), Aps(s, ts))
    decreases RankTys(s, ts), ts
  {
    match ts
    case Nil =>
    case Cons(h, r) => InstMeans(h, qs, base, s); InstsMean(r, qs, base, s);
  }

  lemma {:induction false} InstVars(t: Ty, qs: seq<int>, base: int, s: Sub, x: int)
    requires WF(s) && x in FV(InstRewrite(t, ZipIds(qs, base), s))
    ensures x in FV(t) + SubVars(s) || base <= x < base + |qs|
    decreases RankTy(s, t), t
  {
    var c := Chase(s, t);
    match c
    case TVI(y) => FindZip(qs, base, y);
    case TC(_) =>
    case TAr(a, b) => if x in FV(InstRewrite(a, ZipIds(qs, base), s)) { InstVars(a, qs, base, s, x); }
                      else { InstVars(b, qs, base, s, x); }
    case TTup(ts) => InstsVars(ts, qs, base, s, x);
    case TApp(_, ts) => InstsVars(ts, qs, base, s, x);
  }

  lemma {:induction false} InstsVars(ts: Tys, qs: seq<int>, base: int, s: Sub, x: int)
    requires WF(s) && x in FVs(InstMap(ts, ZipIds(qs, base), s))
    ensures x in FVs(ts) + SubVars(s) || base <= x < base + |qs|
    decreases RankTys(s, ts), ts
  {
    match ts
    case Cons(h, r) => if x in FV(InstRewrite(h, ZipIds(qs, base), s)) { InstVars(h, qs, base, s, x); }
                       else { InstsVars(r, qs, base, s, x); }
  }

  lemma {:induction false} FvMap(th: Assign, t: Ty, y: int)
    ensures y in FV(Map(th, t)) <==> exists x :: x in FV(t) && y in FV(th(x))
  {
    match t
    case TVI(x) => assert x in FV(t);
    case TC(_) =>
    case TAr(a, b) => FvMap(th, a, y); FvMap(th, b, y);
    case TTup(ts) => FvMaps(th, ts, y);
    case TApp(_, ts) => FvMaps(th, ts, y);
  }

  lemma {:induction false} FvMaps(th: Assign, ts: Tys, y: int)
    ensures y in FVs(Maps(th, ts)) <==> exists x :: x in FVs(ts) && y in FV(th(x))
  {
    match ts
    case Nil =>
    case Cons(h, r) => FvMap(th, h, y); FvMaps(th, r, y);
  }

  lemma {:induction false} InstStep(sch: Sch, s: TIS, v: int)
    requires StOk(s) && Below(sch.ty, s.ctr)
    ensures var (s1, ity) := Instantiate(sch, s); Grows(s, s1) && s1.sub == s.sub && Below(ity, s1.ctr)
    ensures v < s.ctr && v in FV(Ap(s.sub, Instantiate(sch, s).1)) ==> Free(v, sch, s.sub)
  {
    var mp := ZipIds(sch.qs, s.ctr);
    var (s1, ity) := Instantiate(sch, s);
    FreshStep(s, |sch.qs|, s.ctr);
    forall x | x in FV(ity) ensures x < s1.ctr {
      InstVars(sch.ty, sch.qs, s.ctr, s.sub, x);
    }
    if v < s.ctr && v in FV(Ap(s.sub, ity)) {
      DomVars(s.sub);
      InstMeans(sch.ty, sch.qs, s.ctr, s.sub);
      FvMap(Ren(mp), Ap(s.sub, sch.ty), v);
      var x :| x in FV(Ap(s.sub, sch.ty)) && v in FV(Ren(mp)(x));
      FindZip(sch.qs, s.ctr, x);
    }
  }

  lemma {:induction false} FindIn(env: Env, name: string)
    requires Has(env, name)
    ensures exists b :: b in env && b.sch == Find(env, name)
  {
    if env[0].name == name {
      assert env[0] in env;
    } else {
      FindIn(env[1..], name);
    }
  }

  lemma {:induction false} VarStep(name: string, env: Env, s: TIS, v: int)
    requires StOk(s) && EnvBelow(env, s.ctr) && Has(env, name)
    ensures var (s1, ity) := Instantiate(Find(env, name), s);
            Grows(s, s1) && s1.sub == s.sub && Below(ity, s1.ctr)
    ensures Inert(v, env, s) ==> v !in FV(Ap(s.sub, Instantiate(Find(env, name), s).1))
  {
    FindIn(env, name);
    InstStep(Find(env, name), s, v);
  }

  // ---------- patterns ----------

  lemma {:induction false} FvArrows(args: Tys, res: Ty)
    ensures FV(MkArrows(args, res)) == FVs(args) + FV(res)
  {
    match args
    case Nil =>
    case Cons(_, r) => FvArrows(r, res);
  }

  lemma {:induction false} DecompMeans(t: Ty, s: Sub)
    requires WF(s)
    ensures var (args, res) := DecompArgs(t, s);
            && Ap(s, t) == MkArrows(Aps(s, args), Ap(s, res))
            && FVs(args) + FV(res) <= FV(t) + SubVars(s)
    decreases RankTy(s, t), t
  {
    var c := Chase(s, t);
    if c.TAr? { DecompMeans(c.cod, s); }
  }

  lemma {:induction false} TvisBelow(base: int, n: nat, s: Sub, v: int)
    requires WF(s) && (forall x :: x in Dom(s) ==> x < base) && v < base
    ensures forall x :: x in FVs(MkTvis(base, n)) ==> base <= x < base + n
    ensures v !in FVs(Aps(s, MkTvis(base, n)))
    ensures Length(MkTvis(base, n)) == n
    decreases n
  {
    if n != 0 {
      ImgUnbound(s, base);
      TvisBelow(base + 1, n - 1, s, v);
    }
  }

  // Pattern variables are monomorphic.
  ghost predicate Mono(binds: Env) {
    forall b :: b in binds ==> b.sch.qs == []
  }

  lemma {:induction false} PatStep(pat: Pat, ty: Ty, binds: Env, env: Env, s: TIS, v: int)
    requires StOk(s) && Below(ty, s.ctr) && EnvBelow(binds, s.ctr) && EnvBelow(env, s.ctr) && Mono(binds)
    requires InferPat(pat, ty, binds, env, s).Some?
    ensures var (s1, b1) := The(InferPat(pat, ty, binds, env, s));
            && Grows(s, s1) && EnvBelow(b1, s1.ctr) && Mono(b1)
            && (Inert(v, binds + env, s) && v !in FV(Ap(s.sub, ty)) ==>
                Untouched(v, s.sub, s1.sub) && Inert(v, b1 + env, s1))
    decreases pat
  {
    hide Unify, Ap, Chase, InstRewrite, DecompArgs, Extends, WF, Grows, Dom, SubVars;
    var (s1, b1) := InferPat(pat, ty, binds, env, s).value;
    match pat
    case PTup(ps) =>
      TupStep(ps, ty, binds, env, s, v);
    case PCtor(name, ps) =>
      CtorStep(name, ps, ty, binds, env, s, v);
    case PVar(n) =>
      SelfGrows(s);
      assert forall b :: b in b1 + env <==> b == b1[0] || b in binds + env;
    case PWild =>
      SelfGrows(s);
    case _ =>
      var want := if pat.PInt? then TC("Int") else if pat.PBool? then TC("Bool")
                  else if pat.PStr? then TC("String") else TC("Unit");
      ApConst(s.sub, want);
      UnifyStep(ty, want, s, v);
      if Inert(v, binds + env, s) && v !in FV(Ap(s.sub, ty)) { InertKeep(v, binds + env, s, s1); }
  }

  lemma {:induction false} SelfGrows(s: TIS)
    requires StOk(s)
    ensures Grows(s, s) && (forall v :: v !in Dom(s.sub) ==> Untouched(v, s.sub, s.sub))
  {
  }

  lemma {:induction false} ApConst(s: Sub, t: Ty)
    requires t.TC?
    ensures Ap(s, t) == t && FV(t) == {}
  {
  }

  // The unification of a tuple pattern, before its elements.
  lemma {:induction false} TupMid(ty: Ty, n: nat, binds: Env, env: Env, s: TIS, s1: TIS, v: int)
    requires StOk(s) && Below(ty, s.ctr)
    requires UnifyS(ty, TTup(MkTvis(s.ctr, n)), s.(ctr := s.ctr + n)) == Some(s1)
    ensures var tvs := MkTvis(s.ctr, n);
            && Grows(s, s1) && Below(TTup(tvs), s1.ctr) && Length(tvs) == n
            && (Inert(v, binds + env, s) && v !in FV(Ap(s.sub, ty)) ==>
                Untouched(v, s.sub, s1.sub) && Inert(v, binds + env, s1) && v !in FV(Ap(s1.sub, TTup(tvs))))
  {
    hide Unify, Chase, Extends, WF, SubVars;
    var s0 := s.(ctr := s.ctr + n);
    var tvs := MkTvis(s.ctr, n);
    FreshStep(s, n, s.ctr);
    DomVars(s.sub);
    TvisBelow(s.ctr, n, s.sub, if v < s.ctr then v else s.ctr - 1);
    assert FV(TTup(tvs)) == FVs(tvs);
    UnifyStep(ty, TTup(tvs), s0, v);
    GrowsTrans(s, s0, s1);
    if Inert(v, binds + env, s) && v !in FV(Ap(s.sub, ty)) {
      InertKeep(v, binds + env, s, s1);
      UntouchedTy(v, s.sub, s1.sub, TTup(tvs));
    }
  }

  lemma {:induction false} TupStep(ps: seq<Pat>, ty: Ty, binds: Env, env: Env, s: TIS, v: int)
    requires StOk(s) && Below(ty, s.ctr) && EnvBelow(binds, s.ctr) && EnvBelow(env, s.ctr) && Mono(binds)
    requires InferPat(PTup(ps), ty, binds, env, s).Some?
    ensures var (s1, b1) := The(InferPat(PTup(ps), ty, binds, env, s));
            && Grows(s, s1) && EnvBelow(b1, s1.ctr) && Mono(b1)
            && (Inert(v, binds + env, s) && v !in FV(Ap(s.sub, ty)) ==>
                Untouched(v, s.sub, s1.sub) && Inert(v, b1 + env, s1))
    decreases ps, 1
  {
    hide Unify, Chase, InstRewrite, DecompArgs, Extends, WF, SubVars, Dom;
    var tvs := MkTvis(s.ctr, |ps|);
    var s1 := UnifyS(ty, TTup(tvs), s.(ctr := s.ctr + |ps|)).value;
    TupMid(ty, |ps|, binds, env, s, s1, v);
    PatsStep(ps, tvs, binds, env, s1, v);
    FinishPat(s, s1, InferPats(ps, tvs, binds, env, s1).value.0, v);
  }

  lemma {:induction false} FinishPat(s: TIS, s1: TIS, s2: TIS, v: int)
    requires Grows(s, s1) && Grows(s1, s2)
    ensures Grows(s, s2)
    ensures Untouched(v, s.sub, s1.sub) && Untouched(v, s1.sub, s2.sub) ==> Untouched(v, s.sub, s2.sub)
  {
    GrowsTrans(s, s1, s2);
  }

  // The unification of a constructor pattern, before its fields.
  lemma {:induction false} CtorMid(name: string, ty: Ty, binds: Env, env: Env, s: TIS, args: Tys, res: Ty, s1: TIS,
                                   v: int)
    requires StOk(s) && Below(ty, s.ctr) && EnvBelow(env, s.ctr) && Has(env, name)
    requires DecompArgs(Instantiate(Find(env, name), s).1, s.sub) == (args, res)
    requires UnifyS(ty, res, Instantiate(Find(env, name), s).0) == Some(s1)
    ensures && Grows(s, s1) && Below(TTup(args), s1.ctr)
            && (Inert(v, binds + env, s) && v !in FV(Ap(s.sub, ty)) ==>
                Untouched(v, s.sub, s1.sub) && Inert(v, binds + env, s1) && v !in FV(Ap(s1.sub, TTup(args))))
  {
    hide Unify, Chase, InstRewrite, DecompArgs, Extends, WF, Dom;
    var (s0, ity) := Instantiate(Find(env, name), s);
    VarStep(name, env, s, v);
    DecompMeans(ity, s0.sub);
    FvArrows(Aps(s0.sub, args), Ap(s0.sub, res));
    UnifyStep(ty, res, s0, v);
    GrowsTrans(s, s0, s1);
    if Inert(v, binds + env, s) && v !in FV(Ap(s.sub, ty)) {
      assert forall b :: b in env ==> b in binds + env;
      InertKeep(v, binds + env, s, s1);
      UntouchedTy(v, s.sub, s1.sub, TTup(args));
    }
  }

  lemma {:induction false} CtorStep(name: string, ps: seq<Pat>, ty: Ty, binds: Env, env: Env, s: TIS, v: int)
    requires StOk(s) && Below(ty, s.ctr) && EnvBelow(binds, s.ctr) && EnvBelow(env, s.ctr) && Mono(binds)
    requires InferPat(PCtor(name, ps), ty, binds, env, s).Some?
    ensures var (s1, b1) := The(InferPat(PCtor(name, ps), ty, binds, env, s));
            && Grows(s, s1) && EnvBelow(b1, s1.ctr) && Mono(b1)
            && (Inert(v, binds + env, s) && v !in FV(Ap(s.sub, ty)) ==>
                Untouched(v, s.sub, s1.sub) && Inert(v, b1 + env, s1))
    decreases ps, 1
  {
    hide Unify, Chase, InstRewrite, DecompArgs, Extends, WF, SubVars, Dom;
    var (s0, ity) := Instantiate(Find(env, name), s);
    var (args, res) := DecompArgs(ity, s0.sub);
    var s1 := UnifyS(ty, res, s0).value;
    CtorMid(name, ty, binds, env, s, args, res, s1, v);
    PatsStep(ps, args, binds, env, s1, v);
    FinishPat(s, s1, InferPats(ps, args, binds, env, s1).value.0, v);
  }

  lemma {:induction false} PatsStep(ps: seq<Pat>, ts: Tys, binds: Env, env: Env, s: TIS, v: int)
    requires StOk(s) && Below(TTup(ts), s.ctr)
    requires EnvBelow(binds, s.ctr) && EnvBelow(env, s.ctr) && Mono(binds)
    requires InferPats(ps, ts, binds, env, s).Some?
    ensures var (s1, b1) := The(InferPats(ps, ts, binds, env, s));
            && Grows(s, s1) && EnvBelow(b1, s1.ctr) && Mono(b1)
            && (Inert(v, binds + env, s) && v !in FV(Ap(s.sub, TTup(ts))) ==>
                Untouched(v, s.sub, s1.sub) && Inert(v, b1 + env, s1))
    decreases ps, 0
  {
    hide InferPat, Extends, WF, Ap, SubVars, Dom;
    SelfGrows(s);
    if ps != [] && ts != Nil {
      PairVars(s.sub, ts.hd, ts.tl);
      var (s1, b1) := InferPat(ps[0], ts.hd, binds, env, s).value;
      PatStep(ps[0], ts.hd, binds, env, s, v);
      PairVars(s.sub, ts.hd, ts.tl);
      if Inert(v, binds + env, s) && v !in FV(Ap(s.sub, TTup(ts))) {
        UntouchedTy(v, s.sub, s1.sub, TTup(ts.tl));
      }
      PatsStep(ps[1..], ts.tl, b1, env, s1, v);
      FinishPat(s, s1, InferPats(ps[1..], ts.tl, b1, env, s1).value.0, v);
    }
  }

  // ---------- expressions ----------

  // A step from s to s1 that yields type t under env.
  ghost predicate Step(s: TIS, s1: TIS, t: Ty, env: Env, v: int) {
    && Grows(s, s1) && Below(t, s1.ctr)
    && (Inert(v, env, s) ==> Untouched(v, s.sub, s1.sub) && Inert(v, env, s1) && v !in FV(Ap(s1.sub, t)))
  }

  // First get from env to env1 (fresh variables, pattern bindings, a let), then
  // step under env1.
  lemma {:induction false} Under(s: TIS, s1: TIS, s2: TIS, t: Ty, env: Env, env1: Env, v: int)
    requires Grows(s, s1) && Step(s1, s2, t, env1, v)
    requires Inert(v, env, s) ==> Untouched(v, s.sub, s1.sub) && Inert(v, env1, s1)
    ensures Step(s, s2, t, env, v)
  {
    GrowsTrans(s, s1, s2);
    if Inert(v, env, s) {
      UntouchedTrans(v, s.sub, s1.sub, s2.sub);
      InertKeep(v, env, s, s2);
    }
  }

  // The type of an earlier step survives a later one.
  lemma {:induction false} Later(s: TIS, s1: TIS, s2: TIS, t: Ty, t2: Ty, env: Env, v: int)
    requires Step(s, s1, t, env, v) && Step(s1, s2, t2, env, v)
    ensures Step(s, s2, t, env, v) && Step(s, s2, t2, env, v)
  {
    GrowsTrans(s, s1, s2);
    if Inert(v, env, s) {
      UntouchedTrans(v, s.sub, s1.sub, s2.sub);
      UntouchedTy(v, s1.sub, s2.sub, t);
    }
  }

  lemma {:induction false} ThenUnify(s: TIS, s1: TIS, a: Ty, b: Ty, env: Env, v: int)
    requires Step(s, s1, a, env, v) && Step(s, s1, b, env, v) && UnifyS(a, b, s1).Some?
    ensures var s2 := The(UnifyS(a, b, s1)); Step(s, s2, a, env, v) && Step(s, s2, b, env, v)
  {
    var s2 := UnifyS(a, b, s1).value;
    UnifyStep(a, b, s1, v);
    GrowsTrans(s, s1, s2);
    if Inert(v, env, s) {
      UntouchedTrans(v, s.sub, s1.sub, s2.sub);
      InertKeep(v, env, s, s2);
      UntouchedTy(v, s1.sub, s2.sub, a);
      UntouchedTy(v, s1.sub, s2.sub, b);
    }
  }

  lemma {:induction false} ThenFresh(s: TIS, n: nat, t: Ty, env: Env, v: int)
    requires StOk(s) && forall x :: x in FV(t) ==> s.ctr <= x < s.ctr + n
    ensures Step(s, s.(ctr := s.ctr + n), t, env, v)
  {
    var s1 := s.(ctr := s.ctr + n);
    FreshStep(s, n, s.ctr);
    if Inert(v, env, s) && v in FV(Ap(s.sub, t)) {
      FvAp(s.sub, t, v);
      var x :| x in FV(t) && v in FV(Img(s.sub, x));
      FreshStep(s, n, x);
    }
  }

  lemma {:induction false} ConstStep(s: TIS, s1: TIS, t: Ty, env: Env, v: int)
    requires t.TC? && StOk(s) && (s1 == s || exists u :: Step(s, s1, u, env, v))
    ensures Step(s, s1, t, env, v)
  {
    ApConst(s1.sub, t);
    SelfGrows(s);
  }

  lemma {:induction false} BinCheckStep(tl: Ty, tr: Ty, want: string, ret: string, s: TIS, s1: TIS, env: Env, v: int)
    requires Step(s, s1, tl, env, v) && Step(s, s1, tr, env, v) && StOk(s)
    requires BinCheck(tl, tr, want, ret, s1).Some?
    ensures var (s2, t) := The(BinCheck(tl, tr, want, ret, s1)); Step(s, s2, t, env, v)
  {
    hide Unify, BinShape, Untouched, Inert, Extends, SubVars, Below;
    var a := UnifyS(tl, TC(want), s1).value;
    ConstStep(s, s1, TC(want), env, v);
    ThenUnify(s, s1, tl, TC(want), env, v);
    KeepUnify(s, s1, tl, TC(want), tr, env, v);
    ThenUnify(s, a, tr, TC(want), env, v);
    ConstStep(s, UnifyS(tr, TC(want), a).value, TC(ret), env, v);
  }

  // A third type also survives a unification.
  lemma {:induction false} KeepUnify(s: TIS, s1: TIS, a: Ty, b: Ty, t: Ty, env: Env, v: int)
    requires Step(s, s1, a, env, v) && Step(s, s1, b, env, v) && Step(s, s1, t, env, v) && UnifyS(a, b, s1).Some?
    ensures Step(s, UnifyS(a, b, s1).value, t, env, v)
  {
    var s2 := UnifyS(a, b, s1).value;
    ThenUnify(s, s1, a, b, env, v);
    UnifyStep(a, b, s1, v);
    if Inert(v, env, s) { UntouchedTy(v, s1.sub, s2.sub, t); }
  }

  lemma {:induction false} FreshVarStep(s: TIS, s1: TIS, t: Ty, env: Env, v: int)
    requires Step(s, s1, t, env, v)
    ensures var s2 := s1.(ctr := s1.ctr + 1); Step(s, s2, t, env, v) && Step(s, s2, TVI(s1.ctr), env, v)
  {
    ThenFresh(s1, 1, TVI(s1.ctr), env, v);
    Later(s, s1, s1.(ctr := s1.ctr + 1), t, TVI(s1.ctr), env, v);
  }

  lemma {:induction false} PairVars(s: Sub, a: Ty, ts: Tys)
    ensures FV(TTup(Cons(a, ts))) == FV(a) + FV(TTup(ts))
    ensures FV(Ap(s, TTup(Cons(a, ts)))) == FV(Ap(s, a)) + FV(Ap(s, TTup(ts)))
    ensures FV(TTup(Nil)) == {} && FV(TApp("List", Cons(a, Nil))) == FV(a)
    ensures FV(Ap(s, TApp("List", Cons(a, Nil)))) == FV(Ap(s, a))
  {
    assert FVs(Nil) == {} && FVs(Aps(s, Nil)) == {};
    assert Aps(s, Cons(a, Nil)) == Cons(Ap(s, a), Aps(s, Nil));
  }

  lemma {:induction false} ConsStep(tl: Ty, tr: Ty, s: TIS, s1: TIS, env: Env, v: int)
    requires Step(s, s1, tl, env, v) && Step(s, s1, tr, env, v)
    requires Binop("::", tl, tr, s1).Some?
    ensures var (s2, t) := The(Binop("::", tl, tr, s1)); Step(s, s2, t, env, v)
  {
    hide Unify, BinShape, Untouched, Inert, Extends, SubVars, FV, Ap;
    var a := TVI(s1.ctr);
    var s2 := s1.(ctr := s1.ctr + 1);
    var s3 := UnifyS(tl, a, s2).value;
    FreshVarStep(s, s1, tl, env, v);
    FreshVarStep(s, s1, tr, env, v);
    ThenUnify(s, s2, tl, a, env, v);
    KeepUnify(s, s2, tl, a, tr, env, v);
    PairVars(s3.sub, a, Nil);
    assert Step(s, s3, TApp("List", Cons(a, Nil)), env, v);
    ThenUnify(s, s3, tr, TApp("List", Cons(a, Nil)), env, v);
  }

  lemma {:induction false} BinopStep(op: string, tl: Ty, tr: Ty, s: TIS, s1: TIS, env: Env, v: int)
    requires Step(s, s1, tl, env, v) && Step(s, s1, tr, env, v) && StOk(s) && Binop(op, tl, tr, s1).Some?
    ensures var (s2, t) := The(Binop(op, tl, tr, s1)); Step(s, s2, t, env, v)
  {
    hide Unify, BinCheck, Untouched, Inert, Extends, SubVars, Below;
    if op in ["+", "-", "*", "/", "%"] { BinCheckStep(tl, tr, "Int", "Int", s, s1, env, v); }
    else if op == "++" { BinCheckStep(tl, tr, "String", "String", s, s1, env, v); }
    else if op == "::" { ConsStep(tl, tr, s, s1, env, v); }
    else if op == "==" || op == "!=" {
      ThenUnify(s, s1, tl, tr, env, v);
      ConstStep(s, UnifyS(tl, tr, s1).value, TC("Bool"), env, v);
    }
    else if op in ["<", ">", "<=", ">="] { BinCheckStep(tl, tr, "Int", "Bool", s, s1, env, v); }
    else { BinCheckStep(tl, tr, "Bool", "Bool", s, s1, env, v); }
  }

  lemma {:induction false} ResolveVars(ta: TyAst, names: seq<string>, base: int, tydefs: seq<(string, int)>)
    requires Resolve(ta, ScopeOf(names, base), tydefs).Some?
    ensures forall x :: x in FV(Resolve(ta, ScopeOf(names, base), tydefs).value) ==> base <= x < base + |names|
    decreases ta
  {
    match ta
    case TTVar(_) =>
    case TTCon(n, args) =>
      if |args| == 1 && n == "List" {
        ResolveVars(args[0], names, base, tydefs);
        PairVars(Empty, Resolve(args[0], ScopeOf(names, base), tydefs).value, Nil);
      }
      else if ResolveList(args, ScopeOf(names, base), tydefs).Some? { ResolveListVars(args, names, base, tydefs); }
    case TTArr(a, b) => ResolveVars(a, names, base, tydefs); ResolveVars(b, names, base, tydefs);
    case TTTup(ts) => ResolveListVars(ts, names, base, tydefs);
  }

  lemma {:induction false} ResolveListVars(ts: seq<TyAst>, names: seq<string>, base: int, tydefs: seq<(string, int)>)
    requires ResolveList(ts, ScopeOf(names, base), tydefs).Some?
    ensures forall x :: x in FVs(ResolveList(ts, ScopeOf(names, base), tydefs).value) ==> base <= x < base + |names|
    decreases ts
  {
    if ts != [] {
      ResolveVars(ts[0], names, base, tydefs);
      ResolveListVars(ts[1..], names, base, tydefs);
    }
  }

  // ---------- main frame lemma ----------

  lemma {:induction false} EStep(e: Expr, env: Env, s: TIS, v: int)
    requires StOk(s) && EnvBelow(env, s.ctr) && InferE(e, env, s).Some?
    ensures var (s1, t) := The(InferE(e, env, s)); Step(s, s1, t, env, v)
    decreases e, 1
  {
    hide Step, Unify, BinCheck, Binop, InferPat, Ap, Img, Generalize, Resolve, InferTup, InferBranches;
    hide Untouched, Inert, FV;
    var (sn, t) := InferE(e, env, s).value;
    match e
    case EInt(_) => ConstStep(s, s, t, env, v);
    case EBool(_) => ConstStep(s, s, t, env, v);
    case EStr(_) => ConstStep(s, s, t, env, v);
    case EUnit => ConstStep(s, s, t, env, v);
    case EVar(n) => VarEStep(n, env, s, v);
    case ECtor(n) => VarEStep(n, env, s, v);
    case ELam(p, body) => LamStep(p, body, env, s, v);
    case EApp(fe, ae) => AppStep(fe, ae, env, s, v);
    case EBin(op, l, r) =>
      var (s1, tl) := InferE(l, env, s).value;
      var (s2, tr) := InferE(r, env, s1).value;
      EStep(l, env, s, v);
      EStepLater(r, env, s, s1, tl, v);
      BinopStep(op, tl, tr, s, s2, env, v);
    case EIf(c, th, el) => IfStep(c, th, el, env, s, v);
    case ECase(scrut, brs) =>
      var (s1, st) := InferE(scrut, env, s).value;
      EStep(scrut, env, s, v);
      FreshVarStep(s, s1, st, env, v);
      BranchesStep(brs, st, TVI(s1.ctr), env, s, s1.(ctr := s1.ctr + 1), v);
    case ELet(isRec, name, rhs, body) => LetStep(isRec, name, rhs, body, env, s, v);
    case ETup(es) => TupleStep(es, env, s, v);
    case EAnn(inner, ann) => AnnStep(inner, ann, env, s, v);
  }

  // A further expression after a step that produced t.
  lemma {:induction false} EStepLater(e: Expr, env: Env, s: TIS, s1: TIS, t: Ty, v: int)
    requires Step(s, s1, t, env, v) && EnvBelow(env, s.ctr) && InferE(e, env, s1).Some?
    ensures var (s2, t2) := The(InferE(e, env, s1));
            EnvBelow(env, s1.ctr) && Step(s, s2, t, env, v) && Step(s, s2, t2, env, v)
    decreases e, 2
  {
    hide InferE;
    EStep(e, env, s1, v);
    var (s2, t2) := InferE(e, env, s1).value;
    Later(s, s1, s2, t, t2, env, v);
  }

  lemma {:induction false} VarEStep(name: string, env: Env, s: TIS, v: int)
    requires StOk(s) && EnvBelow(env, s.ctr) && InferVar(name, env, s).Some?
    ensures var (s1, t) := InferVar(name, env, s).value; Step(s, s1, t, env, v)
  {
    VarStep(name, env, s, v);
  }

  lemma {:induction false} LamStep(p: Pat, body: Expr, env: Env, s: TIS, v: int)
    requires StOk(s) && EnvBelow(env, s.ctr) && InferE(ELam(p, body), env, s).Some?
    ensures var (s1, t) := The(InferE(ELam(p, body), env, s)); Step(s, s1, t, env, v)
    decreases body, 3
  {
    hide InferVar, Binop, InferTup, InferBranches, UnifyS, AnnVars, ScopeOf, Resolve;
    hide Unify, InferPat, Img, Generalize, Untouched, Extends, SubVars, WF;
    var a := TVI(s.ctr);
    var s0 := s.(ctr := s.ctr + 1);
    var (s1, bs) := InferPat(p, a, [], env, s0).value;
    var (s2, bt) := InferE(body, bs + env, s1).value;
    ThenFresh(s, 1, a, env, v);
    assert [] + env == env;
    PatStep(p, a, [], env, s0, v);
    GrowsTrans(s, s0, s1);
    EStep(body, bs + env, s1, v);
    if Inert(v, env, s) {
      UntouchedTrans(v, s.sub, s0.sub, s1.sub);
      UntouchedTrans(v, s.sub, s1.sub, s2.sub);
      UntouchedTy(v, s0.sub, s2.sub, a);
    }
    Under(s, s1, s2, bt, env, bs + env, v);
    assert FV(TAr(a, bt)) == FV(a) + FV(bt);
  }

  lemma {:induction false} AppStep(fe: Expr, ae: Expr, env: Env, s: TIS, v: int)
    requires StOk(s) && EnvBelow(env, s.ctr) && InferE(EApp(fe, ae), env, s).Some?
    ensures var (s1, t) := The(InferE(EApp(fe, ae), env, s)); Step(s, s1, t, env, v)
    decreases EApp(fe, ae), 0
  {
    hide InferVar, InferPat, Binop, InferTup, InferBranches, Generalize, UnifyS, AnnVars, ScopeOf, Resolve;
    hide Unify, Img, Untouched, Extends, SubVars, Inert;
    var (s1, tf) := InferE(fe, env, s).value;
    var (s2, tx) := InferE(ae, env, s1).value;
    EStep(fe, env, s, v);
    EStepLater(ae, env, s, s1, tf, v);
    FreshVarStep(s, s2, tf, env, v);
    FreshVarStep(s, s2, tx, env, v);
    var r := TVI(s2.ctr);
    var s3 := s2.(ctr := s2.ctr + 1);
    assert FV(TAr(tx, r)) == FV(tx) + FV(r);
    assert Ap(s3.sub, TAr(tx, r)) == TAr(Ap(s3.sub, tx), Ap(s3.sub, r));
    assert Step(s, s3, TAr(tx, r), env, v);
    KeepUnify(s, s3, tf, TAr(tx, r), r, env, v);
  }

  lemma {:induction false} IfStep(c: Expr, th: Expr, el: Expr, env: Env, s: TIS, v: int)
    requires StOk(s) && EnvBelow(env, s.ctr) && InferE(EIf(c, th, el), env, s).Some?
    ensures var (s1, t) := The(InferE(EIf(c, th, el), env, s)); Step(s, s1, t, env, v)
    decreases EIf(c, th, el), 0
  {
    hide InferVar, InferPat, Binop, InferTup, InferBranches, Generalize, AnnVars, ScopeOf, Resolve;
    hide Unify, Ap, FV, Untouched, Inert, Extends, SubVars, Below;
    var (s1, tc) := InferE(c, env, s).value;
    EStep(c, env, s, v);
    ConstStep(s, s1, TC("Bool"), env, v);
    ThenUnify(s, s1, tc, TC("Bool"), env, v);
    var s2 := UnifyS(tc, TC("Bool"), s1).value;
    var (s3, tt) := InferE(th, env, s2).value;
    EStepLater(th, env, s, s2, tc, v);
    var (s4, te) := InferE(el, env, s3).value;
    EStepLater(el, env, s, s3, tt, v);
    ThenUnify(s, s4, tt, te, env, v);
  }

  lemma {:induction false} LetStep(isRec: bool, name: string, rhs: Expr, body: Expr, env: Env, s: TIS, v: int)
    requires StOk(s) && EnvBelow(env, s.ctr) && InferE(ELet(isRec, name, rhs, body), env, s).Some?
    ensures var (s1, t) := The(InferE(ELet(isRec, name, rhs, body), env, s)); Step(s, s1, t, env, v)
    decreases ELet(isRec, name, rhs, body), 0
  {
    hide InferVar, InferPat, Binop, InferTup, InferBranches, AnnVars, ScopeOf, Resolve;
    hide Unify, Ap, FV, Generalize, Untouched, Inert, Extends, SubVars, Below;
    if isRec {
      LetRecRhs(name, rhs, env, s, v);
      var (s1, rt) := LetRec(name, rhs, env, s).value;
      BodyStep(name, rt, body, env, s, s1, v);
    } else {
      var (s1, rt) := InferE(rhs, env, s).value;
      EStep(rhs, env, s, v);
      if name == "_" {
        ConstStep(s, s1, TC("Unit"), env, v);
        ThenUnify(s, s1, rt, TC("Unit"), env, v);
        EStepLater(body, env, s, UnifyS(rt, TC("Unit"), s1).value, rt, v);
      } else {
        BodyStep(name, rt, body, env, s, s1, v);
      }
    }
  }

  // The right-hand side of a recursive let, up to generalisation.
  function LetRec(name: string, rhs: Expr, env: Env, s: TIS): (r: Option<(TIS, Ty)>)
  {
    var rt :- InferE(rhs, [Binding(name, Sch([], TVI(s.ctr)))] + env, s.(ctr := s.ctr + 1));
    var s1 :- UnifyS(TVI(s.ctr), rt.1, rt.0);
    Some((s1, rt.1))
  }

  lemma {:induction false} LetRecRhs(name: string, rhs: Expr, env: Env, s: TIS, v: int)
    requires StOk(s) && EnvBelow(env, s.ctr) && LetRec(name, rhs, env, s).Some?
    ensures var (s1, t) := The(LetRec(name, rhs, env, s)); Step(s, s1, t, env, v) && Step(s, s1, TVI(s.ctr), env, v)
    decreases rhs, 3
  {
    hide Unify, Extends, SubVars, WF, InferE, Img;
    var a := TVI(s.ctr);
    var s0 := s.(ctr := s.ctr + 1);
    var env1 := [Binding(name, Sch([], a))] + env;
    var (s1, rt) := InferE(rhs, env1, s0).value;
    ThenFresh(s, 1, a, env, v);
    assert forall b :: b in env1 <==> b == env1[0] || b in env;
    EStep(rhs, env1, s0, v);
    Under(s, s0, s1, rt, env, env1, v);
    if Inert(v, env, s) { UntouchedTy(v, s0.sub, s1.sub, a); }
    ThenUnify(s, s1, a, rt, env, v);
  }

  lemma {:induction false} BodyStep(name: string, rt: Ty, body: Expr, env: Env, s: TIS, s1: TIS, v: int)
    requires StOk(s) && EnvBelow(env, s.ctr) && Step(s, s1, rt, env, v)
    requires InferE(body, [Binding(name, Generalize(env, rt, s1.sub))] + env, s1).Some?
    ensures var (s2, t) := InferE(body, [Binding(name, Generalize(env, rt, s1.sub))] + env, s1).value;
            Step(s, s2, t, env, v)
    decreases body, 3
  {
    hide Unify, Extends, SubVars, WF, InferE, Img;
    var env1 := [Binding(name, Generalize(env, rt, s1.sub))] + env;
    assert forall b :: b in env1 <==> b == env1[0] || b in env;
    EStep(body, env1, s1, v);
    var (s2, t) := InferE(body, env1, s1).value;
    Under(s, s1, s2, t, env, env1, v);
  }

  lemma {:induction false} AnnStep(inner: Expr, ann: TyAst, env: Env, s: TIS, v: int)
    requires StOk(s) && EnvBelow(env, s.ctr) && InferE(EAnn(inner, ann), env, s).Some?
    ensures var (s1, t) := The(InferE(EAnn(inner, ann), env, s)); Step(s, s1, t, env, v)
    decreases inner, 3
  {
    hide InferVar, InferPat, Binop, InferTup, InferBranches, Generalize, UnifyS;
    hide Unify, Ap, FV, Untouched, Inert, Resolve, Extends, SubVars;
    var names := AnnVars(ann, []);
    var rt := Resolve(ann, ScopeOf(names, s.ctr), s.tydefs).value;
    var s0 := s.(ctr := s.ctr + |names|);
    ResolveVars(ann, names, s.ctr, s.tydefs);
    ThenFresh(s, |names|, rt, env, v);
    EStepLater(inner, env, s, s0, rt, v);
    var (s1, et) := InferE(inner, env, s0).value;
    ThenUnify(s, s1, et, rt, env, v);
  }

  lemma {:induction false} TupleStep(es: seq<Expr>, env: Env, s: TIS, v: int)
    requires StOk(s) && EnvBelow(env, s.ctr) && InferTup(es, env, s).Some?
    ensures var (s1, ts) := The(InferTup(es, env, s)); Step(s, s1, TTup(ts), env, v)
    decreases es, 0
  {
    hide InferE, Extends, SubVars, WF, Untouched, Inert, Img, Ap, FV;
    if es == [] {
      PairVars(s.sub, TVI(0), Nil);
      ThenFresh(s, 0, TTup(Nil), env, v);
    } else {
      var (s1, h) := InferE(es[0], env, s).value;
      EStep(es[0], env, s, v);
      TupleStep(es[1..], env, s1, v);
      var (s2, ts) := InferTup(es[1..], env, s1).value;
      Later(s, s1, s2, h, TTup(ts), env, v);
      PairVars(s2.sub, h, ts);
    }
  }

  lemma {:induction false} BranchStep(br: Branch, st: Ty, res: Ty, env: Env, s: TIS, s1: TIS, v: int)
    requires StOk(s) && EnvBelow(env, s.ctr) && Step(s, s1, st, env, v) && Step(s, s1, res, env, v)
    requires InferBranch(br, st, res, env, s1).Some?
    ensures var s2 := The(InferBranch(br, st, res, env, s1)); Step(s, s2, st, env, v) && Step(s, s2, res, env, v)
    decreases br, 0
  {
    hide InferE, InferPat, Unify, Extends, SubVars, WF, Img;
    var (s2, bs) := InferPat(br.pat, st, [], env, s1).value;
    assert [] + env == env;
    PatStep(br.pat, st, [], env, s1, v);
    GrowsTrans(s, s1, s2);
    EStep(br.body, bs + env, s2, v);
    var (s3, bt) := InferE(br.body, bs + env, s2).value;
    if Inert(v, env, s) {
      UntouchedTrans(v, s.sub, s1.sub, s2.sub);
      UntouchedTrans(v, s1.sub, s2.sub, s3.sub);
      UntouchedTy(v, s1.sub, s3.sub, st);
      UntouchedTy(v, s1.sub, s3.sub, res);
    }
    Under(s, s2, s3, bt, env, bs + env, v);
    KeepUnify(s, s3, bt, res, st, env, v);
    ThenUnify(s, s3, bt, res, env, v);
  }

  lemma {:induction false} BranchesStep(brs: seq<Branch>, st: Ty, res: Ty, env: Env, s: TIS, s1: TIS, v: int)
    requires StOk(s) && EnvBelow(env, s.ctr) && Step(s, s1, st, env, v) && Step(s, s1, res, env, v)
    requires InferBranches(brs, st, res, env, s1).Some?
    ensures var s2 := The(InferBranches(brs, st, res, env, s1)); Step(s, s2, res, env, v)
    decreases brs, 1
  {
    hide InferBranch, Untouched, Inert, Extends, SubVars, Img;
    if brs != [] {
      BranchStep(brs[0], st, res, env, s, s1, v);
      BranchesStep(brs[1..], st, res, env, s, InferBranch(brs[0], st, res, env, s1).value, v);
    }
  }
}

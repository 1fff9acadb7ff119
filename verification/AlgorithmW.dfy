// Algorithm W of gen4-infer-dc/infer.dc: schemes, instantiation, generalisation,
// pattern and expression typing. An error aborts, so every step is an Option.
module AlgorithmW {
  import opened Types
  import opened Unification
  import opened Syntax

  datatype Sch = Sch(qs: seq<int>, ty: Ty)
  datatype Binding = Binding(name: string, sch: Sch)
  type Env = seq<Binding>   // newest first

  // A substitution as unification builds it.
  type Triangular = s: Sub | WF(s) witness Empty

  // The threaded state: substitution, next fresh variable, declared type names
  // with their arities.
  datatype TIS = TIS(sub: Triangular, ctr: int, tydefs: seq<(string, int)>)

  // ---------- integer lists ----------

  function Nub(acc: seq<int>, xs: seq<int>): (r: seq<int>)
    ensures forall x :: x in r <==> x in acc || x in xs
    decreases xs
  {
    if xs == [] then acc
    else if xs[0] in acc then Nub(acc, xs[1..])
    else Nub(acc + [xs[0]], xs[1..])
  }

  function Diff(a: seq<int>, b: seq<int>): (r: seq<int>)
    ensures forall x :: x in r <==> x in a && x !in b
  {
    if a == [] then []
    else if a[0] in b then Diff(a[1..], b)
    else [a[0]] + Diff(a[1..], b)
  }

  function UnionNew(xs: seq<int>, acc: seq<int>): (r: seq<int>)
    ensures forall x :: x in r <==> x in xs || x in acc
    decreases xs
  {
    if xs == [] then acc
    else if xs[0] in acc then UnionNew(xs[1..], acc)
    else UnionNew(xs[1..], [xs[0]] + acc)
  }

  function FindInt(mp: seq<(int, int)>, x: int): int {
    if mp == [] then x else if mp[0].0 == x then mp[0].1 else FindInt(mp[1..], x)
  }

  function ZipIds(xs: seq<int>, base: int): seq<(int, int)> {
    if xs == [] then [] else [(xs[0], base)] + ZipIds(xs[1..], base + 1)
  }

  // ---------- instantiation ----------

  // Resolve t and rename its free variables by mp. A type that resolves to a
  // constant is returned as it stands.
  function InstRewrite(t: Ty, mp: seq<(int, int)>, s: Sub): Ty
    requires WF(s)
    decreases RankTy(s, t), t
  {
    var c := Chase(s, t);
    match c
    case TVI(x) => TVI(FindInt(mp, x))
    case TC(_) => t
    case TAr(a, b) => TAr(InstRewrite(a, mp, s), InstRewrite(b, mp, s))
    case TTup(ts) => TTup(InstMap(ts, mp, s))
    case TApp(n, ts) => TApp(n, InstMap(ts, mp, s))
  }

  function InstMap(ts: Tys, mp: seq<(int, int)>, s: Sub): Tys
    requires WF(s)
    decreases RankTys(s, ts), ts
  {
    match ts
    case Nil => Nil
    case Cons(h, r) => Cons(InstRewrite(h, mp, s), InstMap(r, mp, s))
  }

  function Instantiate(sch: Sch, s: TIS): (TIS, Ty)
  {
    (s.(ctr := s.ctr + |sch.qs|), InstRewrite(sch.ty, ZipIds(sch.qs, s.ctr), s.sub))
  }

  // ---------- generalisation ----------

  function FreeChase(t: Ty, s: Sub, acc: seq<int>): (r: seq<int>)
    requires WF(s)
    ensures forall x :: x in r <==> x in FV(Ap(s, t)) || x in acc
    decreases RankTy(s, t), t
  {
    var c := Chase(s, t);
    match c
    case TVI(x) => ImgUnbound(s, x); if x in acc then acc else [x] + acc
    case TC(_) => acc
    case TAr(a, b) => FreeChase(b, s, FreeChase(a, s, acc))
    case TTup(ts) => FreeChaseList(ts, s, acc)
    case TApp(_, ts) => FreeChaseList(ts, s, acc)
  }

  function FreeChaseList(ts: Tys, s: Sub, acc: seq<int>): (r: seq<int>)
    requires WF(s)
    ensures forall x :: x in r <==> x in FVs(Aps(s, ts)) || x in acc
    decreases RankTys(s, ts), ts
  {
    match ts
    case Nil => acc
    case Cons(h, r) => FreeChaseList(r, s, FreeChase(h, s, acc))
  }

  // v is free in a scheme: it occurs, resolved, and is not quantified.
  ghost predicate Free(v: int, sch: Sch, s: Sub) {
    v in FV(Ap(s, sch.ty)) && v !in sch.qs
  }

  ghost predicate Active(v: int, env: Env, s: Sub) {
    exists b :: b in env && Free(v, b.sch, s)
  }

  function EnvFree(env: Env, s: Sub, acc: seq<int>): (r: seq<int>)
    requires WF(s)
    ensures forall x :: x in r <==> Active(x, env, s) || x in acc
    decreases env
  {
    if env == [] then acc
    else
      assert forall b :: b in env <==> b == env[0] || b in env[1..];
      EnvFree(env[1..], s, UnionNew(Diff(FreeChase(env[0].sch.ty, s, []), env[0].sch.qs), acc))
  }

  function Generalize(env: Env, t: Ty, s: Sub): (r: Sch)
    requires WF(s)
    ensures r.ty == t
    ensures forall q :: q in r.qs <==> q in FV(Ap(s, t)) && !Active(q, env, s)
  {
    Sch(Nub([], Diff(FreeChase(t, s, []), EnvFree(env, s, []))), t)
  }

  // ---------- environments ----------

  predicate Has(env: Env, name: string) {
    env != [] && (env[0].name == name || Has(env[1..], name))
  }

  function Find(env: Env, name: string): Sch
    requires Has(env, name)
  {
    if env[0].name == name then env[0].sch else Find(env[1..], name)
  }

  // ---------- source type conversion ----------

  function LookupStr<V>(scope: seq<(string, V)>, v: string): Option<V> {
    if scope == [] then None
    else if scope[0].0 == v then Some(scope[0].1)
    else LookupStr(scope[1..], v)
  }

  // An annotation read with its variables standing for the types asg gives
  // them; None if it names an unknown variable or type or misuses an arity.
  function Resolve(ta: TyAst, asg: string -> Option<Ty>, tydefs: seq<(string, int)>): Option<Ty> {
    match ta
    case TTVar(v) => asg(v)
    case TTCon(n, args) =>
      if n == "Int" || n == "Bool" || n == "String" || n == "Unit" then
        (if args == [] then Some(TC(n)) else None)
      else if n == "List" then
        (if |args| == 1 then var e :- Resolve(args[0], asg, tydefs); Some(TApp("List", Cons(e, Nil))) else None)
      else
        var ar :- LookupStr(tydefs, n);
        if ar == |args| then var ts :- ResolveList(args, asg, tydefs); Some(TApp(n, ts)) else None
    case TTArr(a, b) =>
      var ra :- Resolve(a, asg, tydefs);
      var rb :- Resolve(b, asg, tydefs);
      Some(TAr(ra, rb))
    case TTTup(ts) => var r :- ResolveList(ts, asg, tydefs); Some(TTup(r))
  }

  function ResolveList(ts: seq<TyAst>, asg: string -> Option<Ty>, tydefs: seq<(string, int)>): Option<Tys> {
    if ts == [] then Some(Nil)
    else
      var h :- Resolve(ts[0], asg, tydefs);
      var r :- ResolveList(ts[1..], asg, tydefs);
      Some(Cons(h, r))
  }

  // The type variables of an annotation, in order of first occurrence.
  function AnnVars(ta: TyAst, acc: seq<string>): seq<string> {
    match ta
    case TTVar(v) => if v in acc then acc else acc + [v]
    case TTCon(_, args) => AnnVarList(args, acc)
    case TTArr(a, b) => AnnVars(b, AnnVars(a, acc))
    case TTTup(ts) => AnnVarList(ts, acc)
  }

  function AnnVarList(ts: seq<TyAst>, acc: seq<string>): seq<string> {
    if ts == [] then acc else AnnVarList(ts[1..], AnnVars(ts[0], acc))
  }

  // Each variable of the annotation stands for a fresh unification variable.
  function ScopeOf(names: seq<string>, base: int): string -> Option<Ty> {
    v => match IndexOf(names, v) case None => None case Some(i) => Some(TVI(base + i))
  }

  function IndexOf(names: seq<string>, v: string): (r: Option<nat>)
    ensures r.Some? ==> r.value < |names|
  {
    if names == [] then None
    else if names[0] == v then Some(0)
    else var i :- IndexOf(names[1..], v); Some(i + 1)
  }

  // ---------- patterns ----------

  function UnifyS(a: Ty, b: Ty, s: TIS): (r: Option<TIS>)
  {
    var sub :- Unify(a, b, s.sub);
    Some(s.(sub := sub))
  }

  function MkTvis(base: int, n: nat): Tys
    decreases n
  {
    if n == 0 then Nil else Cons(TVI(base), MkTvis(base + 1, n - 1))
  }

  // Split a type into its argument types and its result.
  function DecompArgs(t: Ty, s: Sub): (Tys, Ty)
    requires WF(s)
    decreases RankTy(s, t), t
  {
    match Chase(s, t)
    case TAr(a, b) => var (args, res) := DecompArgs(b, s); (Cons(a, args), res)
    case _ => (Nil, t)
  }

  function MkArrows(args: Tys, res: Ty): Ty {
    match args case Nil => res case Cons(a, r) => TAr(a, MkArrows(r, res))
  }

  function Length(ts: Tys): nat {
    match ts case Nil => 0 case Cons(_, r) => 1 + Length(r)
  }

  function InferPat(pat: Pat, ty: Ty, binds: Env, env: Env, s: TIS): (r: Option<(TIS, Env)>)
    decreases pat
  {
    match pat
    case PWild => Some((s, binds))
    case PVar(n) => Some((s, [Binding(n, Sch([], ty))] + binds))
    case PInt(_) => var s1 :- UnifyS(ty, TC("Int"), s); Some((s1, binds))
    case PBool(_) => var s1 :- UnifyS(ty, TC("Bool"), s); Some((s1, binds))
    case PStr(_) => var s1 :- UnifyS(ty, TC("String"), s); Some((s1, binds))
    case PUnit => var s1 :- UnifyS(ty, TC("Unit"), s); Some((s1, binds))
    case PTup(ps) =>
      var tvs := MkTvis(s.ctr, |ps|);
      var s1 :- UnifyS(ty, TTup(tvs), s.(ctr := s.ctr + |ps|));
      InferPats(ps, tvs, binds, env, s1)
    case PCtor(name, ps) =>
      if !Has(env, name) then None
      else
        var (s1, ity) := Instantiate(Find(env, name), s);
        var (args, res) := DecompArgs(ity, s1.sub);
        if Length(args) != |ps| then None
        else
          var s2 :- UnifyS(ty, res, s1);
          InferPats(ps, args, binds, env, s2)
  }

  function InferPats(ps: seq<Pat>, ts: Tys, binds: Env, env: Env, s: TIS): (r: Option<(TIS, Env)>)
    decreases ps
  {
    if ps == [] || ts == Nil then Some((s, binds))
    else
      var sb :- InferPat(ps[0], ts.hd, binds, env, s);
      InferPats(ps[1..], ts.tl, sb.1, env, sb.0)
  }

  // ---------- operators ----------

  // An operand must be a variable or already the wanted constant.
  predicate BinShape(t: Ty, want: string, s: Sub)
    requires WF(s)
  {
    var c := Chase(s, t);
    c.TVI? || c == TC(want)
  }

  function BinCheck(tl: Ty, tr: Ty, want: string, ret: string, s: TIS): (r: Option<(TIS, Ty)>)
  {
    if !BinShape(tl, want, s.sub) || !BinShape(tr, want, s.sub) then None
    else
      var s1 :- UnifyS(tl, TC(want), s);
      var s2 :- UnifyS(tr, TC(want), s1);
      Some((s2, TC(ret)))
  }

  function Binop(op: string, tl: Ty, tr: Ty, s: TIS): (r: Option<(TIS, Ty)>)
  {
    if op in ["+", "-", "*", "/", "%"] then BinCheck(tl, tr, "Int", "Int", s)
    else if op == "++" then BinCheck(tl, tr, "String", "String", s)
    else if op == "::" then
      var a := TVI(s.ctr);
      var s1 :- UnifyS(tl, a, s.(ctr := s.ctr + 1));
      var s2 :- UnifyS(tr, TApp("List", Cons(a, Nil)), s1);
      Some((s2, TApp("List", Cons(a, Nil))))
    else if op == "==" || op == "!=" then
      var s1 :- UnifyS(tl, tr, s);
      Some((s1, TC("Bool")))
    else if op in ["<", ">", "<=", ">="] then BinCheck(tl, tr, "Int", "Bool", s)
    else if op == "&&" || op == "||" then BinCheck(tl, tr, "Bool", "Bool", s)
    else None
  }

  // ---------- expressions ----------

  function InferVar(name: string, env: Env, s: TIS): (r: Option<(TIS, Ty)>)
  {
    if Has(env, name) then Some(Instantiate(Find(env, name), s)) else None
  }

  function InferE(e: Expr, env: Env, s: TIS): (r: Option<(TIS, Ty)>)
    decreases e
  {
    match e
    case EInt(_) => Some((s, TC("Int")))
    case EBool(_) => Some((s, TC("Bool")))
    case EStr(_) => Some((s, TC("String")))
    case EUnit => Some((s, TC("Unit")))
    case EVar(n) => InferVar(n, env, s)
    case ECtor(n) => InferVar(n, env, s)
    case ELam(p, body) =>
      var v := TVI(s.ctr);
      var sb :- InferPat(p, v, [], env, s.(ctr := s.ctr + 1));
      var st :- InferE(body, sb.1 + env, sb.0);
      Some((st.0, TAr(v, st.1)))
    case EApp(fe, ae) =>
      var f :- InferE(fe, env, s);
      var x :- InferE(ae, env, f.0);
      var r := TVI(x.0.ctr);
      var s2 :- UnifyS(f.1, TAr(x.1, r), x.0.(ctr := x.0.ctr + 1));
      Some((s2, r))
    case EBin(op, l, r) =>
      var tl :- InferE(l, env, s);
      var tr :- InferE(r, env, tl.0);
      Binop(op, tl.1, tr.1, tr.0)
    case EIf(c, th, el) =>
      var tc :- InferE(c, env, s);
      var s1 :- UnifyS(tc.1, TC("Bool"), tc.0);
      var tt :- InferE(th, env, s1);
      var te :- InferE(el, env, tt.0);
      var s2 :- UnifyS(tt.1, te.1, te.0);
      Some((s2, tt.1))
    case ECase(scrut, brs) =>
      var st :- InferE(scrut, env, s);
      var rv := TVI(st.0.ctr);
      var s1 :- InferBranches(brs, st.1, rv, env, st.0.(ctr := st.0.ctr + 1));
      Some((s1, rv))
    case ELet(isRec, name, rhs, body) =>
      if isRec then
        var v := TVI(s.ctr);
        var rt :- InferE(rhs, [Binding(name, Sch([], v))] + env, s.(ctr := s.ctr + 1));
        var s1 :- UnifyS(v, rt.1, rt.0);
        InferE(body, [Binding(name, Generalize(env, rt.1, s1.sub))] + env, s1)
      else if name == "_" then
        var lt :- InferE(rhs, env, s);
        var s1 :- UnifyS(lt.1, TC("Unit"), lt.0);
        InferE(body, env, s1)
      else
        var rt :- InferE(rhs, env, s);
        InferE(body, [Binding(name, Generalize(env, rt.1, rt.0.sub))] + env, rt.0)
    case ETup(es) =>
      var r :- InferTup(es, env, s);
      Some((r.0, TTup(r.1)))
    case EAnn(inner, ann) =>
      var names := AnnVars(ann, []);
      var rt :- Resolve(ann, ScopeOf(names, s.ctr), s.tydefs);
      var et :- InferE(inner, env, s.(ctr := s.ctr + |names|));
      var s1 :- UnifyS(et.1, rt, et.0);
      Some((s1, rt))
  }

  function InferTup(es: seq<Expr>, env: Env, s: TIS): (r: Option<(TIS, Tys)>)
    decreases es
  {
    if es == [] then Some((s, Nil))
    else
      var h :- InferE(es[0], env, s);
      var r :- InferTup(es[1..], env, h.0);
      Some((r.0, Cons(h.1, r.1)))
  }

  function InferBranch(br: Branch, st: Ty, res: Ty, env: Env, s: TIS): (r: Option<TIS>)
    decreases br, 0
  {
    var sb :- InferPat(br.pat, st, [], env, s);
    var bt :- InferE(br.body, sb.1 + env, sb.0);
    UnifyS(bt.1, res, bt.0)
  }

  function InferBranches(brs: seq<Branch>, st: Ty, res: Ty, env: Env, s: TIS): (r: Option<TIS>)
    decreases brs, 1
  {
    if brs == [] then Some(s)
    else
      var s1 :- InferBranch(brs[0], st, res, env, s);
      InferBranches(brs[1..], st, res, env, s1)
  }
}

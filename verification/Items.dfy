// Top-level items (gen4-infer-dc/infer.dc, g4_check.dc): definition groups, type
// declarations, and the walk that normalises the environment and throws the
// substitution away after every item.
module Items {
  import opened Types
  import opened Unification
  import opened Syntax
  import opened AlgorithmW
  import opened Declarative
  import opened Soundness

  datatype Def = Def(isRec: bool, name: string, body: Expr)
  datatype CtorDecl = CtorDecl(name: string, fields: seq<TyAst>)
  datatype TyDecl = TyDecl(name: string, params: seq<string>, ctors: seq<CtorDecl>)
  datatype Item = PTy(decl: TyDecl) | PGrp(defs: seq<Def>)

  // ---------- the checker ----------

  function Names(ds: seq<Def>): seq<string> {
    if ds == [] then [] else [ds[0].name] + Names(ds[1..])
  }

  predicate Distinct(ds: seq<Def>) {
    ds == [] || (ds[0].name !in Names(ds[1..]) && Distinct(ds[1..]))
  }

  // One monomorphic placeholder per recursive member.
  function Place(ds: seq<Def>, env: Env, s: TIS, n: nat): Option<(TIS, Env)> {
    if ds == [] then Some((s, env))
    else if ds[0].isRec then
      Place(ds[1..], [Binding(ds[0].name, Sch([], TVI(s.ctr)))] + env, s.(ctr := s.ctr + 1), n)
    else if n > 1 then None
    else Place(ds[1..], env, s, n)
  }

  // The body of a definition and the annotation around it, if any.
  function PeelAnn(e: Expr): (Expr, Option<TyAst>) {
    match e
    case EAnn(inner, ann) => (inner, Some(ann))
    case _ => (e, None)
  }

  function TieKnot(d: Def, bt: Ty, env: Env, s: TIS): (r: Option<TIS>)
  {
    if d.isRec && Has(env, d.name) && Find(env, d.name).ty.TVI? then UnifyS(Find(env, d.name).ty, bt, s) else Some(s)
  }

  function CheckAnn(ann: Option<TyAst>, bt: Ty, s: TIS): (r: Option<TIS>)
  {
    match ann
    case None => Some(s)
    case Some(ty) =>
      var names := AnnVars(ty, []);
      var rty :- Resolve(ty, ScopeOf(names, s.ctr), s.tydefs);
      UnifyS(bt, rty, s.(ctr := s.ctr + |names|))
  }

  function InferBody(d: Def, env: Env, s: TIS): (r: Option<(TIS, Ty)>)
  {
    var b :- InferE(PeelAnn(d.body).0, env, s);
    var s1 :- TieKnot(d, b.1, env, b.0);
    var s2 :- CheckAnn(PeelAnn(d.body).1, b.1, s1);
    Some((s2, b.1))
  }

  function InferBodies(ds: seq<Def>, env: Env, s: TIS): (r: Option<(TIS, seq<Ty>)>)
    ensures r.Some? ==> |r.value.1| == |ds|
  {
    if ds == [] then Some((s, []))
    else
      var b :- InferBody(ds[0], env, s);
      var r :- InferBodies(ds[1..], env, b.0);
      Some((r.0, [b.1] + r.1))
  }

  function GenAll(ds: seq<Def>, tys: seq<Ty>, env: Env, s: Sub): (r: Env)
    requires WF(s) && |tys| == |ds|
    ensures |r| == |ds|
  {
    if ds == [] then []
    else [Binding(ds[0].name, Generalize(env, tys[0], s))] + GenAll(ds[1..], tys[1..], env, s)
  }

  // The bodies' types before generalisation.
  function GroupBodies(ds: seq<Def>, env: Env, s: TIS): (r: Option<(TIS, seq<Ty>)>)
    ensures r.Some? ==> |r.value.1| == |ds|
  {
    var p :- Place(ds, env, s, |ds|);
    PlaceSub(ds, env, s, |ds|);
    InferBodies(ds, p.1, p.0)
  }

  function InferGroup(ds: seq<Def>, env: Env, s: TIS): (r: Option<(TIS, Env)>)
  {
    if !Distinct(ds) then None
    else
      var b :- GroupBodies(ds, env, s);
      Some((b.0, GenAll(ds, b.1, env, b.0.sub)))
  }

  lemma {:induction false} PlaceSub(ds: seq<Def>, env: Env, s: TIS, n: nat)
    requires Place(ds, env, s, n).Some?
    ensures The(Place(ds, env, s, n)).0.sub == s.sub
    decreases ds
  {
    if ds != [] {
      if ds[0].isRec {
        PlaceSub(ds[1..], [Binding(ds[0].name, Sch([], TVI(s.ctr)))] + env, s.(ctr := s.ctr + 1), n);
      } else {
        PlaceSub(ds[1..], env, s, n);
      }
    }
  }

  function FreeTy(t: Ty, acc: seq<int>): (r: seq<int>)
    ensures forall x :: x in r <==> x in FV(t) || x in acc
    decreases t
  {
    match t
    case TVI(x) => if x in acc then acc else [x] + acc
    case TC(_) => acc
    case TAr(a, b) => FreeTy(b, FreeTy(a, acc))
    case TTup(ts) => FreeTys(ts, acc)
    case TApp(_, ts) => FreeTys(ts, acc)
  }

  function FreeTys(ts: Tys, acc: seq<int>): (r: seq<int>)
    ensures forall x :: x in r <==> x in FVs(ts) || x in acc
    decreases ts
  {
    match ts
    case Nil => acc
    case Cons(h, r) => FreeTys(r, FreeTy(h, acc))
  }

  function CtorSchemes(cds: seq<CtorDecl>, name: string, params: seq<string>, base: int, td: TyDefs): Option<Env> {
    if cds == [] then Some([])
    else
      var fields :- ResolveList(cds[0].fields, ScopeOf(params, base), td);
      var full := MkArrows(fields, TApp(name, MkTvis(base, |params|)));
      var rest :- CtorSchemes(cds[1..], name, params, base, td);
      Some([Binding(cds[0].name, Sch(Nub([], FreeTy(full, [])), full))] + rest)
  }

  predicate BadTyName(name: string, td: TyDefs) {
    name in ["Int", "Bool", "String", "Unit", "List"] || LookupStr(td, name).Some?
  }

  function CheckTydef(d: TyDecl, s: TIS): (r: Option<(TIS, Env)>)
    ensures r.Some? ==> r.value.0.sub == s.sub
  {
    if BadTyName(d.name, s.tydefs) then None
    else
      var td := [(d.name, |d.params|)] + s.tydefs;
      var schemes :- CtorSchemes(d.ctors, d.name, d.params, s.ctr, td);
      Some((TIS(s.sub, s.ctr + |d.params|, td), schemes))
  }

  // ti_norm_env: rewrite every stored type through the substitution.
  function NormEnv(env: Env, s: Sub): (r: Env)
    requires WF(s)
    ensures r == EnvAt(s, env)
  {
    if env == [] then []
    else [Binding(env[0].name, Sch(env[0].sch.qs, Apply(s, env[0].sch.ty)))] + NormEnv(env[1..], s)
  }

  function InferItem(it: Item, env: Env, s: TIS): (r: Option<(TIS, Env)>)
  {
    match it
    case PTy(d) => CheckTydef(d, s)
    case PGrp(ds) => InferGroup(ds, env, s)
  }

  // g4_run_order: after each item the environment is normalised and the next
  // item starts from the empty substitution.
  function RunOrder(items: seq<Item>, env: Env, s: TIS): Option<(TIS, Env)>
    decreases items
  {
    if items == [] then Some((s, env))
    else
      var r :- InferItem(items[0], env, s);
      RunOrder(items[1..], NormEnv(r.1 + env, r.0.sub), r.0.(sub := Empty))
  }

  function ConstFn(args: seq<string>, res: string): (t: Ty)
    ensures FV(t) == {}
  {
    if args == [] then TC(res) else TAr(TC(args[0]), ConstFn(args[1..], res))
  }

  function Builtin(name: string, args: seq<string>, res: string): (b: Binding)
    ensures b.sch.qs == [] && FV(b.sch.ty) == {}
  {
    Binding(name, Sch([], ConstFn(args, res)))
  }

  function Builtins(): (env: Env)
    ensures forall b :: b in env ==> b.sch.qs == [] && FV(b.sch.ty) == {}
  {
    [Builtin("print_int", ["Int"], "Unit"), Builtin("print_string", ["String"], "Unit"),
     Builtin("int_to_string", ["Int"], "String"), Builtin("bool_to_string", ["Bool"], "String"),
     Builtin("string_length", ["String"], "Int"), Builtin("str_concat", ["String", "String"], "String"),
     Builtin("read_file", ["String"], "String"), Builtin("write_file", ["String", "String"], "Unit"),
     Builtin("exit", ["Int"], "Unit"), Builtin("chr", ["Int"], "String"), Builtin("ord", ["String"], "Int"),
     Builtin("string_get", ["String", "Int"], "Int"), Builtin("substring", ["String", "Int", "Int"], "String"),
     Builtin("string_to_int", ["String"], "Int"), Builtin("argv", ["Int"], "String"),
         Builtin("system", ["String"], "Int")]
  }

  // ti_init_env: the list constructors, error and show are polymorphic.
  function InitEnv(s: TIS): (TIS, Env) {
    var a, b, c, d := s.ctr, s.ctr + 1, s.ctr + 2, s.ctr + 3;
    var list := TApp("List", Cons(TVI(b), Nil));
    (s.(ctr := s.ctr + 4),
     [Binding("Nil", Sch([a], TApp("List", Cons(TVI(a), Nil)))),
      Binding("Cons", Sch([b], TAr(TVI(b), TAr(list, list)))),
      Binding("error", Sch([c], TAr(TC("String"), TVI(c)))),
      Binding("show", Sch([d], TAr(TVI(d), TC("String"))))] + Builtins())
  }

  function Check(items: seq<Item>): Option<(TIS, Env)> {
    var (s, env) := InitEnv(TIS(Empty, 0, []));
    RunOrder(items, env, s)
  }

  // ---------- declarative meaning of a program ----------

  // Each body has its member's type where recursive members are seen at theirs.
  ghost predicate MembersTy(td: TyDefs, g: Ctx, ds: seq<Def>, taus: seq<Ty>) {
    |taus| == |ds| && (ds != [] ==> HasTy(td, g, ds[0].body, taus[0]) && MembersTy(td, g, ds[1..], taus[1..]))
  }

  ghost function PlaceCtx(ds: seq<Def>, taus: seq<Ty>, g: Ctx): Ctx
    requires |taus| == |ds|
    decreases ds
  {
    if ds == [] then g
    else PlaceCtx(ds[1..], taus[1..], if ds[0].isRec then [Assumption(ds[0].name, iset{taus[0]})] + g else g)
  }

  // Any instance of any member's scheme is part of one typing of the group.
  ghost predicate GroupTy(td: TyDefs, g: Ctx, ds: seq<Def>, schs: seq<Sch>) {
    |schs| == |ds| && forall i: nat, u: Ty :: i < |ds| && u in Insts(schs[i]) ==> MemberUsable(td, g, ds, i, u)
  }

  ghost predicate MemberUsable(td: TyDefs, g: Ctx, ds: seq<Def>, i: nat, u: Ty)
    requires i < |ds|
  {
    exists taus: seq<Ty> :: |taus| == |ds| && taus[i] == u && MembersTy(td, PlaceCtx(ds, taus, g), ds, taus)
  }

  ghost function GroupCtx(ds: seq<Def>, schs: seq<Sch>): Ctx
    requires |schs| == |ds|
  {
    if ds == [] then [] else [Assumption(ds[0].name, Insts(schs[0]))] + GroupCtx(ds[1..], schs[1..])
  }

  // The parameters of a declaration standing for the given types, one each.
  ghost predicate Stands(params: seq<string>, args: Tys) {
    if params == [] then args == Nil else args.Cons? && Stands(params[1..], args.tl)
  }

  function ParamAt(params: seq<string>, args: Tys, v: string): Option<Ty> {
    if params == [] || args == Nil then None
    else if params[0] == v then Some(args.hd)
    else ParamAt(params[1..], args.tl, v)
  }

  function ParamsAt(params: seq<string>, args: Tys): string -> Option<Ty> { v => ParamAt(params, args, v) }

  // t takes the fields in turn and ends in res.
  ghost predicate FieldsTo(td: TyDefs, asg: string -> Option<Ty>, fields: seq<TyAst>, res: Ty, t: Ty) {
    if fields == [] then t == res
    else t.TAr? && Denotes(td, asg, fields[0], t.dom) && FieldsTo(td, asg, fields[1..], res, t.cod)
  }

  // A constructor may be used at its declared type with any types for the
  // parameters.
  ghost predicate IsCtorTy(td: TyDefs, d: TyDecl, cd: CtorDecl, t: Ty) {
    exists args: Tys :: Stands(d.params, args)
      && FieldsTo(td, ParamsAt(d.params, args), cd.fields, TApp(d.name, args), t)
  }

  ghost function CtorCtx(td: TyDefs, d: TyDecl, cds: seq<CtorDecl>): Ctx {
    if cds == [] then []
    else [Assumption(cds[0].name, iset t: Ty | IsCtorTy(td, d, cds[0], t))] + CtorCtx(td, d, cds[1..])
  }

  // ---------- the predefined names ----------

  function Base(n: string): TyAst { TTCon(n, []) }

  // The predefined names with the types one would write for them.
  function Prelude(): seq<(string, TyAst)> {
    var s, a := Base("String"), TTVar("a");
    var list := TTCon("List", [a]);
    [("Nil", list), ("Cons", TTArr(a, TTArr(list, list))), ("error", TTArr(s, a)), ("show", TTArr(a, s))] + BaseFns()
  }

  function BaseFns(): seq<(string, TyAst)> {
    var i, s, b, u := Base("Int"), Base("String"), Base("Bool"), Base("Unit");
    [("print_int", TTArr(i, u)), ("print_string", TTArr(s, u)), ("int_to_string", TTArr(i, s)),
     ("bool_to_string", TTArr(b, s)), ("string_length", TTArr(s, i)), ("str_concat", TTArr(s, TTArr(s, s))),
     ("read_file", TTArr(s, s)), ("write_file", TTArr(s, TTArr(s, u))), ("exit", TTArr(i, u)),
     ("chr", TTArr(i, s)), ("ord", TTArr(s, i)), ("string_get", TTArr(s, TTArr(i, i))),
     ("substring", TTArr(s, TTArr(i, TTArr(i, s)))), ("string_to_int", TTArr(s, i)), ("argv", TTArr(i, s)),
     ("system", TTArr(s, i))]
  }

  // Each name at any type its written type denotes.
  ghost function WrittenCtx(names: seq<(string, TyAst)>): Ctx {
    if names == [] then []
    else [Assumption(names[0].0, iset t: Ty | Written([], names[0].1, t))] + WrittenCtx(names[1..])
  }

  // ---------- whole programs ----------

  // The items type-check in order, taking td, g to g1.
  ghost predicate ProgTy(td: TyDefs, g: Ctx, items: seq<Item>, g1: Ctx)
    decreases items
  {
    if items == [] then g1 == g
    else match items[0]
      case PTy(d) =>
        !BaseType(d.name) && d.name != "List" && (forall k :: (d.name, k) !in td)
        && var td1 := [(d.name, |d.params|)] + td;
           && (forall cd :: cd in d.ctors ==> exists t :: IsCtorTy(td1, d, cd, t))
           && ProgTy(td1, CtorCtx(td1, d, d.ctors) + g, items[1..], g1)
      case PGrp(ds) =>
        exists schs :: GroupTy(td, g, ds, schs) && ProgTy(td, GroupCtx(ds, schs) + g, items[1..], g1)
  }
}

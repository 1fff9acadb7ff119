// The declarative typing rules the checker is measured against: Damas and
// Milner's system, a scheme being used at any of its instances and a let-bound
// scheme being allowed when the definition has every instance as a type.
module Declarative {
  import opened Types
  import opened Unification
  import opened Syntax
  import opened AlgorithmW

  // What a name may be used at: the instances of its scheme.
  datatype Assumption = Assumption(name: string, insts: iset<Ty>)
  type Ctx = seq<Assumption>   // newest first
  type TyDefs = seq<(string, int)>

  function Subst(qs: seq<int>, rho: Assign): Assign { x => if x in qs then rho(x) else TVI(x) }

  // The instances of a scheme: its quantified variables replaced by any types.
  ghost predicate IsInst(sch: Sch, t: Ty) {
    exists rho: Assign :: t == Map(Subst(sch.qs, rho), sch.ty)
  }

  ghost function Insts(sch: Sch): iset<Ty> {
    iset t: Ty | IsInst(sch, t)
  }

  ghost predicate UsableAt(g: Ctx, name: string, t: Ty) {
    g != [] && (if g[0].name == name then t in g[0].insts else UsableAt(g[1..], name, t))
  }

  // pat matches values of type t; its variables are added in front of b0.
  ghost predicate PatTy(g: Ctx, pat: Pat, t: Ty, b0: Ctx, b1: Ctx)
    decreases pat
  {
    match pat
    case PWild => b1 == b0
    case PVar(n) => b1 == [Assumption(n, iset{t})] + b0
    case PInt(_) => t == TC("Int") && b1 == b0
    case PBool(_) => t == TC("Bool") && b1 == b0
    case PStr(_) => t == TC("String") && b1 == b0
    case PUnit => t == TC("Unit") && b1 == b0
    case PTup(ps) => exists ts: Tys :: t == TTup(ts) && PatsTy(g, ps, ts, b0, b1)
    case PCtor(name, ps) => exists ts: Tys :: UsableAt(g, name, MkArrows(ts, t)) && PatsTy(g, ps, ts, b0, b1)
  }

  ghost predicate PatsTy(g: Ctx, ps: seq<Pat>, ts: Tys, b0: Ctx, b1: Ctx)
    decreases ps
  {
    if ps == [] then ts == Nil && b1 == b0
    else ts.Cons? && exists b :: PatTy(g, ps[0], ts.hd, b0, b) && PatsTy(g, ps[1..], ts.tl, b, b1)
  }

  predicate BinTy(op: string, tl: Ty, tr: Ty, t: Ty) {
    if op in ["+", "-", "*", "/", "%"] then tl == tr == t == TC("Int")
    else if op == "++" then tl == tr == t == TC("String")
    else if op == "::" then tr == t == TApp("List", Cons(tl, Nil))
    else if op == "==" || op == "!=" then tl == tr && t == TC("Bool")
    else if op in ["<", ">", "<=", ">="] then tl == tr == TC("Int") && t == TC("Bool")
    else (op == "&&" || op == "||") && tl == tr == t == TC("Bool")
  }

  // ---------- what a written type denotes ----------

  predicate BaseType(n: string) { n in {"Int", "Bool", "String", "Unit"} }

  // Type n takes k arguments, by the newest declaration of that name.
  ghost predicate Declares(td: TyDefs, n: string, k: int) {
    exists i :: 0 <= i < |td| && td[i] == (n, k) && forall j :: 0 <= j < i ==> td[j].0 != n
  }

  // ta denotes t when its variables stand for what asg gives them.
  ghost predicate Denotes(td: TyDefs, asg: string -> Option<Ty>, ta: TyAst, t: Ty)
    decreases ta
  {
    match ta
    case TTVar(v) => asg(v) == Some(t)
    case TTCon(n, args) =>
      if BaseType(n) then t == TC(n) && args == []
      else
        && t.TApp? && t.head == n && DenoteAll(td, asg, args, t.args)
        && if n == "List" then |args| == 1 else Declares(td, n, |args|)
    case TTArr(a, b) => t.TAr? && Denotes(td, asg, a, t.dom) && Denotes(td, asg, b, t.cod)
    case TTTup(ts) => t.TTup? && DenoteAll(td, asg, ts, t.elems)
  }

  ghost predicate DenoteAll(td: TyDefs, asg: string -> Option<Ty>, tas: seq<TyAst>, ts: Tys)
    decreases tas
  {
    if tas == [] then ts == Nil
    else ts.Cons? && Denotes(td, asg, tas[0], ts.hd) && DenoteAll(td, asg, tas[1..], ts.tl)
  }

  // ta denotes t for some reading of its variables.
  ghost predicate Written(td: TyDefs, ta: TyAst, t: Ty) {
    exists asg: string -> Option<Ty> :: Denotes(td, asg, ta, t)
  }

  lemma {:induction false} LookupDeclares(td: TyDefs, n: string, k: int)
    ensures LookupStr(td, n) == Some(k) <==> Declares(td, n, k)
  {
    if td != [] {
      LookupDeclares(td[1..], n, k);
      if td[0].0 == n {
        assert td[0].1 == k ==> td[0] == (n, k);
      } else {
        if Declares(td[1..], n, k) {
          var i :| 0 <= i < |td[1..]| && td[1..][i] == (n, k) && forall j :: 0 <= j < i ==> td[1..][j].0 != n;
          assert td[i + 1] == (n, k) && forall j :: 0 <= j < i + 1 ==> td[j].0 != n;
        }
        if Declares(td, n, k) {
          var i :| 0 <= i < |td| && td[i] == (n, k) && forall j :: 0 <= j < i ==> td[j].0 != n;
          assert td[1..][i - 1] == (n, k) && forall j :: 0 <= j < i - 1 ==> td[1..][j].0 == td[j + 1].0;
        }
      }
    }
  }

  // A written type resolves to t exactly when it denotes t.
  lemma {:induction false} ResolveExact(td: TyDefs, asg: string -> Option<Ty>, ta: TyAst, t: Ty)
    ensures Resolve(ta, asg, td) == Some(t) <==> Denotes(td, asg, ta, t)
    decreases ta
  {
    hide Declares, LookupStr;
    match ta
    case TTVar(v) =>
    case TTCon(n, args) =>
      if !BaseType(n) && t.TApp? {
        ResolveAllExact(td, asg, args, t.args);
        LookupDeclares(td, n, |args|);
        if n == "List" && |args| == 1 { assert args[1..] == []; }
      }
    case TTArr(a, b) =>
      if t.TAr? {
        ResolveExact(td, asg, a, t.dom);
        ResolveExact(td, asg, b, t.cod);
      }
    case TTTup(ts) => if t.TTup? { ResolveAllExact(td, asg, ts, t.elems); }
  }

  lemma {:induction false} ResolveAllExact(td: TyDefs, asg: string -> Option<Ty>, tas: seq<TyAst>, ts: Tys)
    ensures ResolveList(tas, asg, td) == Some(ts) <==> DenoteAll(td, asg, tas, ts)
    decreases tas
  {
    hide Resolve, Denotes;
    if tas != [] && ts.Cons? {
      ResolveExact(td, asg, tas[0], ts.hd);
      ResolveAllExact(td, asg, tas[1..], ts.tl);
    }
  }

  // g |- e : t
  ghost predicate HasTy(td: TyDefs, g: Ctx, e: Expr, t: Ty)
    decreases e, 1
  {
    match e
    case EInt(_) => t == TC("Int")
    case EBool(_) => t == TC("Bool")
    case EStr(_) => t == TC("String")
    case EUnit => t == TC("Unit")
    case EVar(n) => UsableAt(g, n, t)
    case ECtor(n) => UsableAt(g, n, t)
    case ELam(p, body) =>
      t.TAr? && exists b :: PatTy(g, p, t.dom, [], b) && HasTy(td, b + g, body, t.cod)
    case EApp(f, a) => exists tx :: HasTy(td, g, f, TAr(tx, t)) && HasTy(td, g, a, tx)
    case EBin(op, l, r) =>
      exists tl, tr :: HasTy(td, g, l, tl) && HasTy(td, g, r, tr) && BinTy(op, tl, tr, t)
    case EIf(c, th, el) => HasTy(td, g, c, TC("Bool")) && HasTy(td, g, th, t) && HasTy(td, g, el, t)
    case ECase(scrut, brs) => exists st :: HasTy(td, g, scrut, st) && BranchesTy(td, g, brs, st, t)
    case ELet(isRec, name, rhs, body) =>
      if !isRec && name == "_" then HasTy(td, g, rhs, TC("Unit")) && HasTy(td, g, body, t)
      else exists sch :: RhsTy(td, g, isRec, name, rhs, sch) && HasTy(td, [Assumption(name, Insts(sch))] + g, body, t)
    case ETup(es) => exists ts :: t == TTup(ts) && ElemsTy(td, g, es, ts)
    case EAnn(inner, ann) => HasTy(td, g, inner, t) && Written(td, ann, t)
  }

  // Every instance of sch is a type of the definition; a recursive definition
  // sees itself at that one type.
  ghost predicate RhsTy(td: TyDefs, g: Ctx, isRec: bool, name: string, rhs: Expr, sch: Sch)
    decreases rhs, 2
  {
    forall u :: u in Insts(sch) ==> HasTy(td, if isRec then [Assumption(name, iset{u})] + g else g, rhs, u)
  }

  ghost predicate ElemsTy(td: TyDefs, g: Ctx, es: seq<Expr>, ts: Tys)
    decreases es, 0
  {
    if es == [] then ts == Nil
    else ts.Cons? && HasTy(td, g, es[0], ts.hd) && ElemsTy(td, g, es[1..], ts.tl)
  }

  ghost predicate BranchTy(td: TyDefs, g: Ctx, br: Branch, st: Ty, t: Ty)
    decreases br, 0
  {
    exists b :: PatTy(g, br.pat, st, [], b) && HasTy(td, b + g, br.body, t)
  }

  ghost predicate BranchesTy(td: TyDefs, g: Ctx, brs: seq<Branch>, st: Ty, t: Ty)
    decreases brs, 1
  {
    brs == [] || (BranchTy(td, g, brs[0], st, t) && BranchesTy(td, g, brs[1..], st, t))
  }
}

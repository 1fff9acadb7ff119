// Source-level syntax shared by the checker and the code generator.
module Syntax {

  datatype Pat =
    | PWild
    | PVar(name: string)
    | PInt(n: int)
    | PBool(b: bool)
    | PStr(s: string)
    | PUnit
    | PTup(elems: seq<Pat>)
    | PCtor(ctor: string, args: seq<Pat>)

  datatype TyAst =
    | TTVar(name: string)
    | TTCon(con: string, args: seq<TyAst>)
    | TTArr(dom: TyAst, cod: TyAst)
    | TTTup(elems: seq<TyAst>)

  datatype Branch = Branch(pat: Pat, body: Expr)

  datatype Expr =
    | EInt(n: int)
    | EBool(b: bool)
    | EStr(s: string)
    | EUnit
    | EVar(name: string)
    | ECtor(name: string)
    | ELam(param: Pat, body: Expr)
    | EApp(fn: Expr, arg: Expr)
    | EBin(op: string, left: Expr, right: Expr)
    | EIf(cond: Expr, thn: Expr, els: Expr)
    | ECase(scrut: Expr, branches: seq<Branch>)
    | ELet(isRec: bool, name: string, rhs: Expr, body: Expr)
    | ETup(elems: seq<Expr>)
    | EAnn(inner: Expr, ann: TyAst)
}

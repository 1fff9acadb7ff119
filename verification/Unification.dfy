// Chasing, applying and unification of gen4-infer-dc/infer.dc, and the theorem
// that unification computes most general unifiers.
module Unification {
  import opened Types

  // ---------- chase, apply, occurs ----------

  // Scan the suffix s of o for v; a hit restarts the chase from the whole list.
  function WalkFull(o: Sub, s: Sub, v: int): (r: Ty)
    requires WF(o) && Lookup(o, v) == Lookup(s, v)
    ensures Ap(o, r) == Img(o, v)
    ensures r.TVI? ==> r.id !in Dom(o)
    ensures r == TVI(v) || RankTy(o, r) < Rank(o, v)
    ensures FV(r) <= {v} + SubVars(o)
    decreases Rank(o, v), 0, s
  {
    LookupDom(o, v);
    match s
    case Empty => TVI(v)
    case Bind(k, t, rest) =>
      if k == v then
        RankEdge(o, v, t); ApLookup(o, v, t);
        Chase(o, t)
      else WalkFull(o, rest, v)
  }

  function Chase(s: Sub, t: Ty): (r: Ty)
    requires WF(s)
    ensures Ap(s, r) == Ap(s, t)
    ensures r.TVI? ==> r.id !in Dom(s)
    ensures r == t || RankTy(s, r) < RankTy(s, t)
    ensures FV(r) <= FV(t) + SubVars(s)
    decreases RankTy(s, t), 1, Empty
  {
    match t
    case TVI(x) => WalkFull(s, s, x)
    case _ => t
  }

  // ti_apply: resolve a type completely by chasing at every node.
  function Apply(s: Sub, t: Ty): (r: Ty)
    requires WF(s)
    ensures r == Ap(s, t)
    decreases RankTy(s, t), t
  {
    var c := Chase(s, t);
    match c
    case TVI(x) => ImgUnbound(s, x); c
    case TC(_) => c
    case TAr(a, b) => TAr(Apply(s, a), Apply(s, b))
    case TTup(ts) => TTup(ApplyList(s, ts))
    case TApp(n, ts) => TApp(n, ApplyList(s, ts))
  }

  function ApplyList(s: Sub, ts: Tys): (r: Tys)
    requires WF(s)
    ensures r == Aps(s, ts)
    decreases RankTys(s, ts), ts
  {
    match ts
    case Nil => Nil
    case Cons(h, r) => Cons(Apply(s, h), ApplyList(s, r))
  }

  // ti_occurs: does v occur in t once t is resolved through s?
  predicate Occurs(v: int, t: Ty, s: Sub)
    requires WF(s)
    ensures Occurs(v, t, s) <==> v in FV(Ap(s, t))
    decreases RankTy(s, t), t
  {
    match Chase(s, t)
    case TVI(x) => ImgUnbound(s, x); x == v
    case TC(_) => false
    case TAr(a, b) => Occurs(v, a, s) || Occurs(v, b, s)
    case TTup(ts) => OccursList(v, ts, s)
    case TApp(_, ts) => OccursList(v, ts, s)
  }

  predicate OccursList(v: int, ts: Tys, s: Sub)
    requires WF(s)
    ensures OccursList(v, ts, s) <==> v in FVs(Aps(s, ts))
    decreases RankTys(s, ts), ts
  {
    match ts
    case Nil => false
    case Cons(h, r) => Occurs(v, h, s) || OccursList(v, r, s)
  }

  // ---------- unification ----------

  // s2 extends s1, mentions only variables of s1 and u, and either is s1 or
  // binds a further variable: the progress that bounds the recursion.
  ghost predicate Grew(s1: Sub, s2: Sub, u: set<int>) {
    && WF(s2) && Extends(s2, s1)
    && SubVars(s2) <= u + SubVars(s1)
    && Dom(s1) <= Dom(s2)
    && (s2 == s1 || Dom(s1) != Dom(s2))
  }

  ghost function Unbound(vars: set<int>, s: Sub): set<int> {
    vars + SubVars(s) - Dom(s)
  }

  lemma {:induction false} DomVars(s: Sub)
    ensures Dom(s) <= SubVars(s)
  {
    match s
    case Empty =>
    case Bind(_, _, r) => DomVars(r);
  }

  lemma {:induction false} SubsetCard(a: set<int>, b: set<int>)
    requires a <= b
    ensures |a| <= |b|
    ensures a != b ==> |a| < |b|
  {
    if exists x :: x in a {
      var x :| x in a;
      SubsetCard(a - {x}, b - {x});
    } else {
      assert a == {};
    }
  }

  // The first component of the unification measure: the number of variables
  // still unbound never grows, and drops when a binding was added.
  lemma {:induction false} UnboundShrinks(vars1: set<int>, s1: Sub, vars2: set<int>, s2: Sub)
    requires Grew(s1, s2, vars1) && vars2 <= vars1
    ensures |Unbound(vars2, s2)| <= |Unbound(vars1, s1)|
    ensures s1 != s2 ==> |Unbound(vars2, s2)| < |Unbound(vars1, s1)|
  {
    SubsetCard(Unbound(vars2, s2), Unbound(vars1, s1));
    if s1 != s2 {
      DomVars(s2);
      if exists x :: x in Dom(s2) && x !in Dom(s1) {
        var x :| x in Dom(s2) && x !in Dom(s1);
        assert x in Unbound(vars1, s1) && x !in Unbound(vars2, s2);
      }
    }
  }

  lemma {:induction false} GrewTrans(s1: Sub, s2: Sub, s3: Sub, u1: set<int>, u2: set<int>, u: set<int>)
    requires Grew(s1, s2, u1) && Grew(s2, s3, u2) && u1 <= u && u2 <= u
    ensures Grew(s1, s3, u)
  {
    ExtendsTrans(s3, s2, s1);
  }

  lemma {:induction false} ExtendsTrans(s3: Sub, s2: Sub, s1: Sub)
    requires Extends(s3, s2) && Extends(s2, s1)
    ensures Extends(s3, s1)
  {
    if s3 != s2 { ExtendsTrans(s3.rest, s2, s1); }
  }

  // ti_bind: the occurs check, then a new newest binding.
  function BindVar(v: int, t: Ty, s: Sub): (r: Option<Sub>)
    requires WF(s) && v !in Dom(s)
    ensures r.Some? ==> r.value == Bind(v, t, s) && Grew(s, r.value, {v} + FV(t))
    ensures r.None? <==> v in FV(Ap(s, t))
  {
    if Occurs(v, t, s) then None else Some(Bind(v, t, s))
  }

  // ti_unify with ti_unify_ap and ti_unify_nv: chase both sides, bind a
  // variable if there is one (the left side first), else compare structure.
  function Unify(a: Ty, b: Ty, s: Sub): (r: Option<Sub>)
    requires WF(s)
    ensures r.Some? ==> Grew(s, r.value, FV(a) + FV(b))
    decreases |Unbound(FV(a) + FV(b), s)|, Size(Ap(s, a)) + Size(Ap(s, b)), 2
  {
    var ta := Chase(s, a);
    var tb := Chase(s, b);
    match (ta, tb)
    case (TVI(x), TVI(y)) => if x == y then Some(s) else BindVar(x, tb, s)
    case (TVI(x), _) => BindVar(x, tb, s)
    case (_, TVI(y)) => BindVar(y, ta, s)
    case _ =>
      SubsetCard(Unbound(FV(ta) + FV(tb), s), Unbound(FV(a) + FV(b), s));
      UnifyStruct(ta, tb, s)
  }

  // ti_unify_struct: both sides are constructors.
  function UnifyStruct(ta: Ty, tb: Ty, s: Sub): (r: Option<Sub>)
    requires WF(s) && !ta.TVI? && !tb.TVI?
    ensures r.Some? ==> Grew(s, r.value, FV(ta) + FV(tb))
    decreases |Unbound(FV(ta) + FV(tb), s)|, Size(Ap(s, ta)) + Size(Ap(s, tb)), 1
  {
    match (ta, tb)
    case (TC(x), TC(y)) => if x == y then Some(s) else None
    case (TAr(a1, a2), TAr(b1, b2)) =>
      SubsetCard(Unbound(FV(a1) + FV(b1), s), Unbound(FV(ta) + FV(tb), s));
      (match Unify(a1, b1, s)
       case None => None
       case Some(s1) =>
         assert Grew(s, s1, FV(ta) + FV(tb));
         UnboundShrinks(FV(ta) + FV(tb), s, FV(a2) + FV(b2), s1);
         var r := Unify(a2, b2, s1);
         if r.Some? then GrewTrans(s, s1, r.value, FV(a1) + FV(b1), FV(a2) + FV(b2), FV(ta) + FV(tb)); r else r)
    case (TTup(xs), TTup(ys)) => UnifyLists(xs, ys, s)
    case (TApp(n1, xs), TApp(n2, ys)) => if n1 == n2 then UnifyLists(xs, ys, s) else None
    case _ => None
  }

  // ti_unify_lists: elementwise; a length mismatch shows only at the end.
  function UnifyLists(xs: Tys, ys: Tys, s: Sub): (r: Option<Sub>)
    requires WF(s)
    ensures r.Some? ==> Grew(s, r.value, FVs(xs) + FVs(ys))
    decreases |Unbound(FVs(xs) + FVs(ys), s)|, Sizes(Aps(s, xs)) + Sizes(Aps(s, ys)), 0
  {
    match (xs, ys)
    case (Nil, Nil) => Some(s)
    case (Cons(x, xr), Cons(y, yr)) =>
      SubsetCard(Unbound(FV(x) + FV(y), s), Unbound(FVs(xs) + FVs(ys), s));
      (match Unify(x, y, s)
       case None => None
       case Some(s1) =>
         assert Grew(s, s1, FVs(xs) + FVs(ys));
         UnboundShrinks(FVs(xs) + FVs(ys), s, FVs(xr) + FVs(yr), s1);
         var r := UnifyLists(xr, yr, s1);
         if r.Some? then GrewTrans(s, s1, r.value, FV(x) + FV(y), FVs(xr) + FVs(yr), FVs(xs) + FVs(ys)); r else r)
    case _ => None
  }

  // ---------- solutions: assignments of types to variables ----------

  type Assign = int -> Ty

  function Map(th: Assign, t: Ty): Ty {
    match t
    case TVI(x) => th(x)
    case TC(_) => t
    case TAr(a, b) => TAr(Map(th, a), Map(th, b))
    case TTup(ts) => TTup(Maps(th, ts))
    case TApp(n, ts) => TApp(n, Maps(th, ts))
  }

  function Maps(th: Assign, ts: Tys): Tys {
    match ts
    case Nil => Nil
    case Cons(h, r) => Cons(Map(th, h), Maps(th, r))
  }

  // th satisfies every binding of s, read as an equation.
  ghost predicate Solves(th: Assign, s: Sub) {
    match s
    case Empty => true
    case Bind(v, u, r) => th(v) == Map(th, u) && Solves(th, r)
  }

  lemma {:induction false} MapRepl(th: Assign, v: int, u: Ty, t: Ty)
    requires th(v) == Map(th, u)
    ensures Map(th, Repl(v, u, t)) == Map(th, t)
  {
    match t
    case TVI(_) =>
    case TC(_) =>
    case TAr(a, b) => MapRepl(th, v, u, a); MapRepl(th, v, u, b);
    case TTup(ts) => MapsRepl(th, v, u, ts);
    case TApp(_, ts) => MapsRepl(th, v, u, ts);
  }

  lemma {:induction false} MapsRepl(th: Assign, v: int, u: Ty, ts: Tys)
    requires th(v) == Map(th, u)
    ensures Maps(th, Repls(v, u, ts)) == Maps(th, ts)
  {
    match ts
    case Nil =>
    case Cons(h, r) => MapRepl(th, v, u, h); MapsRepl(th, v, u, r);
  }

  // Resolving through a solved substitution does not change the meaning.
  lemma {:induction false} MapAp(th: Assign, s: Sub, t: Ty)
    requires Solves(th, s)
    ensures Map(th, Ap(s, t)) == Map(th, t)
    decreases s, t
  {
    match s
    case Empty => ApEmpty(t);
    case Bind(v, u, r) =>
      ApBind(v, u, r, t);
      MapAp(th, r, u);
      MapRepl(th, v, Ap(r, u), Ap(r, t));
      MapAp(th, r, t);
  }

  lemma {:induction false} MapsAp(th: Assign, s: Sub, ts: Tys)
    requires Solves(th, s)
    ensures Maps(th, Aps(s, ts)) == Maps(th, ts)
  {
    match ts
    case Nil =>
    case Cons(h, r) => MapAp(th, s, h); MapsAp(th, s, r);
  }

  lemma {:induction false} ApEmpty(t: Ty)
    ensures Ap(Empty, t) == t
  {
    ApFixed(Empty, t);
  }

  lemma {:induction false} SolvesSuffix(th: Assign, s2: Sub, s1: Sub)
    requires Extends(s2, s1) && Solves(th, s2)
    ensures Solves(th, s1)
  {
    if s2 != s1 { SolvesSuffix(th, s2.rest, s1); }
  }

  // A well-formed substitution solves itself: its own meaning satisfies all its
  // bindings.
  function Meaning(s: Sub): Assign { x => Img(s, x) }

  lemma {:induction false} MapMeaning(s: Sub, t: Ty)
    ensures Map(Meaning(s), t) == Ap(s, t)
  {
    match t
    case TVI(_) =>
    case TC(_) =>
    case TAr(a, b) => MapMeaning(s, a); MapMeaning(s, b);
    case TTup(ts) => MapsMeaning(s, ts);
    case TApp(_, ts) => MapsMeaning(s, ts);
  }

  lemma {:induction false} MapsMeaning(s: Sub, ts: Tys)
    ensures Maps(Meaning(s), ts) == Aps(s, ts)
  {
    match ts
    case Nil =>
    case Cons(h, r) => MapMeaning(s, h); MapsMeaning(s, r);
  }

  lemma {:induction false} SelfSolves(o: Sub, s: Sub)
    requires WF(o) && WF(s) && Extends(o, s)
    ensures Solves(Meaning(o), s)
  {
    match s
    case Empty =>
    case Bind(v, u, r) =>
      ExtendsTrans(o, s, r);
      SelfSolves(o, r);
      ExtendsLookup(o, s, v);
      ApLookup(o, v, u);
      MapMeaning(o, u);
  }

  lemma {:induction false} ExtendsLookup(o: Sub, s: Sub, v: int)
    requires WF(o) && Extends(o, s) && v in Dom(s)
    ensures Lookup(o, v) == Lookup(s, v)
  {
    if o != s {
      ExtendsLookup(o.rest, s, v);
      LookupDom(s, v);
      LookupDom(o.rest, v);
    }
  }

  // ---------- main theorem ----------

  // If v occurs strictly inside t, no assignment equates them.
  lemma {:induction false} OccursSize(th: Assign, v: int, t: Ty)
    requires v in FV(t)
    ensures Size(Map(th, t)) >= Size(th(v))
    ensures !t.TVI? ==> Size(Map(th, t)) > Size(th(v))
  {
    match t
    case TVI(_) =>
    case TC(_) =>
    case TAr(a, b) => if v in FV(a) { OccursSize(th, v, a); } else { OccursSize(th, v, b); }
    case TTup(ts) => OccursSizes(th, v, ts);
    case TApp(_, ts) => OccursSizes(th, v, ts);
  }

  lemma {:induction false} OccursSizes(th: Assign, v: int, ts: Tys)
    requires v in FVs(ts)
    ensures Sizes(Maps(th, ts)) >= Size(th(v))
  {
    match ts
    case Cons(h, r) => if v in FV(h) { OccursSize(th, v, h); } else { OccursSizes(th, v, r); }
  }

  lemma {:induction false} BindVarExact(th: Assign, v: int, t: Ty, s: Sub)
    requires WF(s) && v !in Dom(s) && t != TVI(v) && (t.TVI? ==> t.id !in Dom(s))
    ensures match BindVar(v, t, s)
            case Some(s1) => Solves(th, s1) <==> Solves(th, s) && th(v) == Map(th, t)
            case None => !(Solves(th, s) && th(v) == Map(th, t))
  {
    if BindVar(v, t, s).None? && Solves(th, s) {
      if t.TVI? { ImgUnbound(s, t.id); }
      OccursSize(th, v, Ap(s, t));
      MapAp(th, s, t);
    }
  }

  // The assignments that solve the result are exactly those that solve the
  // input and equate the two types; on failure there is none.
  lemma {:induction false} UnifyExact(th: Assign, a: Ty, b: Ty, s: Sub)
    requires WF(s)
    ensures match Unify(a, b, s)
            case Some(s1) => Solves(th, s1) <==> Solves(th, s) && Map(th, a) == Map(th, b)
            case None => !(Solves(th, s) && Map(th, a) == Map(th, b))
    decreases |Unbound(FV(a) + FV(b), s)|, Size(Ap(s, a)) + Size(Ap(s, b)), 2
  {
    var ta, tb := Chase(s, a), Chase(s, b);
    if Solves(th, s) {
      MapAp(th, s, a); MapAp(th, s, ta);
      MapAp(th, s, b); MapAp(th, s, tb);
    }
    if ta.TVI? {
      if ta != tb { BindVarExact(th, ta.id, tb, s); }
    } else if tb.TVI? {
      BindVarExact(th, tb.id, ta, s);
    } else {
      SubsetCard(Unbound(FV(ta) + FV(tb), s), Unbound(FV(a) + FV(b), s));
      UnifyStructExact(th, ta, tb, s);
    }
    if Unify(a, b, s).Some? && Solves(th, Unify(a, b, s).value) {
      SolvesSuffix(th, Unify(a, b, s).value, s);
    }
  }

  lemma {:induction false} UnifyStructExact(th: Assign, ta: Ty, tb: Ty, s: Sub)
    requires WF(s) && !ta.TVI? && !tb.TVI?
    ensures match UnifyStruct(ta, tb, s)
            case Some(s1) => Solves(th, s1) <==> Solves(th, s) && Map(th, ta) == Map(th, tb)
            case None => !(Solves(th, s) && Map(th, ta) == Map(th, tb))
    decreases |Unbound(FV(ta) + FV(tb), s)|, Size(Ap(s, ta)) + Size(Ap(s, tb)), 1
  {
    hide FV, FVs, Size, Sizes, Ap, Aps, Solves, Unify, UnifyLists, SubVars;
    StructMeasure(s, ta);
    StructMeasure(s, tb);
    if ta.TAr? && tb.TAr? {
      UnifyArrowExact(th, ta, tb, s);
    } else if ta.TTup? && tb.TTup? {
      UnifyListsExact(th, ta.elems, tb.elems, s);
    } else if ta.TApp? && tb.TApp? && ta.head == tb.head {
      UnifyListsExact(th, ta.args, tb.args, s);
    }
  }

  // A tuple or application is larger than its list.
  lemma {:induction false} StructMeasure(s: Sub, t: Ty)
    ensures t.TTup? ==> FV(t) == FVs(t.elems) && Size(Ap(s, t)) > Sizes(Aps(s, t.elems))
    ensures t.TApp? ==> FV(t) == FVs(t.args) && Size(Ap(s, t)) > Sizes(Aps(s, t.args))
  {
    if t.TTup? { assert Ap(s, t) == TTup(Aps(s, t.elems)); }
    if t.TApp? { assert Ap(s, t) == TApp(t.head, Aps(s, t.args)); }
  }

  lemma {:induction false} ArrowSizes(s: Sub, t: Ty)
    requires WF(s) && t.TAr?
    ensures Size(Ap(s, t.dom)) < Size(Ap(s, t)) && Size(Ap(s, t.cod)) < Size(Ap(s, t))
  {
  }

  lemma {:induction false} UnifyArrowExact(th: Assign, ta: Ty, tb: Ty, s: Sub)
    requires WF(s) && ta.TAr? && tb.TAr?
    ensures match UnifyStruct(ta, tb, s)
            case Some(s1) => Solves(th, s1) <==> Solves(th, s) && Map(th, ta) == Map(th, tb)
            case None => !(Solves(th, s) && Map(th, ta) == Map(th, tb))
    decreases |Unbound(FV(ta) + FV(tb), s)|, Size(Ap(s, ta)) + Size(Ap(s, tb)), 0
  {
    var vars := FV(ta) + FV(tb);
    ArrowSizes(s, ta);
    ArrowSizes(s, tb);
    hide Size, Ap;
    SubsetCard(Unbound(FV(ta.dom) + FV(tb.dom), s), Unbound(vars, s));
    UnifyExact(th, ta.dom, tb.dom, s);
    var r1 := Unify(ta.dom, tb.dom, s);
    if r1.Some? {
      UnboundShrinks(vars, s, FV(ta.cod) + FV(tb.cod), r1.value);
      UnifyExact(th, ta.cod, tb.cod, r1.value);
    }
  }

  lemma {:induction false} UnifyListsExact(th: Assign, xs: Tys, ys: Tys, s: Sub)
    requires WF(s)
    ensures match UnifyLists(xs, ys, s)
            case Some(s1) => Solves(th, s1) <==> Solves(th, s) && Maps(th, xs) == Maps(th, ys)
            case None => !(Solves(th, s) && Maps(th, xs) == Maps(th, ys))
    decreases |Unbound(FVs(xs) + FVs(ys), s)|, Sizes(Aps(s, xs)) + Sizes(Aps(s, ys)), 0
  {
    match (xs, ys)
    case (Cons(x, xr), Cons(y, yr)) =>
      SubsetCard(Unbound(FV(x) + FV(y), s), Unbound(FVs(xs) + FVs(ys), s));
      UnifyExact(th, x, y, s);
      if Unify(x, y, s).Some? {
        var s1 := Unify(x, y, s).value;
        assert Grew(s, s1, FVs(xs) + FVs(ys));
        UnboundShrinks(FVs(xs) + FVs(ys), s, FVs(xr) + FVs(yr), s1);
        UnifyListsExact(th, xr, yr, s1);
      }
    case _ =>
  }

  // Soundness: the result equates the two types once applied.
  lemma {:induction false} UnifySound(a: Ty, b: Ty, s: Sub)
    requires WF(s) && Unify(a, b, s).Some?
    ensures var s1 := Unify(a, b, s).value;
            WF(s1) && Extends(s1, s) && Apply(s1, a) == Apply(s1, b)
  {
    var s1 := Unify(a, b, s).value;
    SelfSolves(s1, s1);
    UnifyExact(Meaning(s1), a, b, s);
    MapMeaning(s1, a);
    MapMeaning(s1, b);
  }

  // Most general: any unifier compatible with the input factors through the
  // result, so applying the result first changes nothing.
  lemma {:induction false} UnifyMostGeneral(th: Assign, a: Ty, b: Ty, s: Sub, t: Ty)
    requires WF(s) && Solves(th, s) && Map(th, a) == Map(th, b)
    ensures Unify(a, b, s).Some?
    ensures Map(th, Apply(Unify(a, b, s).value, t)) == Map(th, t)
  {
    UnifyExact(th, a, b, s);
    MapAp(th, Unify(a, b, s).value, t);
  }

  // Failure means that there is no unifier.
  lemma {:induction false} UnifyFailsOnlyWhenImpossible(a: Ty, b: Ty, s: Sub)
    requires WF(s)
    ensures Unify(a, b, s).None? <==> forall th: Assign :: Solves(th, s) ==> Map(th, a) != Map(th, b)
  {
    if Unify(a, b, s).None? {
      forall th: Assign | Solves(th, s) ensures Map(th, a) != Map(th, b) {
        UnifyExact(th, a, b, s);
      }
    } else {
      var s1 := Unify(a, b, s).value;
      SelfSolves(s1, s1);
      UnifyExact(Meaning(s1), a, b, s);
    }
  }
}

// Unification on mutable link cells (gen0-interp-rs/src/infer.rs). The links,
// read together, are the explicit substitution of the pure checker.
module Links {
  import opened Types
  import U = Unification

  class TvCell {
    const id: int
    var link: Option<RTy>

    constructor (id: int)
      ensures this.id == id && link == None
    {
      this.id := id;
      link := None;
    }
  }

  datatype RTy =
    | Con(name: string)
    | Var(tv: TvCell)
    | Arrow(dom: RTy, cod: RTy)
    | Tuple(elems: seq<RTy>)
    | App(head: string, args: seq<RTy>)

  function Cells(t: RTy): set<TvCell>
    decreases t, 1
  {
    match t
    case Con(_) => {}
    case Var(c) => {c}
    case Arrow(a, b) => Cells(a) + Cells(b)
    case Tuple(ts) => CellsOf(ts)
    case App(_, ts) => CellsOf(ts)
  }

  function CellsOf(ts: seq<RTy>): set<TvCell>
    decreases ts, 0
  {
    if ts == [] then {} else Cells(ts[0]) + CellsOf(ts[1..])
  }

  // The pure type a linked type stands for, ignoring what its cells link to.
  function Erase(t: RTy): Ty
    decreases t, 1
  {
    match t
    case Con(n) => TC(n)
    case Var(c) => TVI(c.id)
    case Arrow(a, b) => TAr(Erase(a), Erase(b))
    case Tuple(ts) => TTup(EraseAll(ts))
    case App(n, ts) => TApp(n, EraseAll(ts))
  }

  function EraseAll(ts: seq<RTy>): Tys
    decreases ts, 0
  {
    if ts == [] then Nil else Cons(Erase(ts[0]), EraseAll(ts[1..]))
  }

  // Chasing a bound variable is chasing the type stored for it.
  lemma {:induction false} WalkIsChase(o: Sub, s: Sub, v: int)
    requires WF(o) && Lookup(o, v) == Lookup(s, v)
    ensures U.WalkFull(o, s, v)
         == match Lookup(o, v) case None => TVI(v) case Some(t) => U.Chase(o, t)
  {
    match s
    case Empty =>
    case Bind(k, _, rest) => if k != v { WalkIsChase(o, rest, v); }
  }

  lemma {:induction false} ChaseFixed(s: Sub, t: Ty)
    requires WF(s) && (t.TVI? ==> t.id !in Dom(s))
    ensures U.Chase(s, t) == t
  {
    if t.TVI? { WalkIsChase(s, s, t.id); LookupDom(s, t.id); }
  }

  // The pure unifier by cases on the chased sides.
  lemma {:induction false} UnifyCases(a: Ty, b: Ty, s: Sub)
    requires WF(s)
    ensures U.Chase(s, a).TVI? && U.Chase(s, a) == U.Chase(s, b) ==> U.Unify(a, b, s) == Some(s)
    ensures U.Chase(s, a).TVI? && U.Chase(s, a) != U.Chase(s, b) ==>
              U.Unify(a, b, s) == U.BindVar(U.Chase(s, a).id, U.Chase(s, b), s)
    ensures !U.Chase(s, a).TVI? && U.Chase(s, b).TVI? ==>
              U.Unify(a, b, s) == U.BindVar(U.Chase(s, b).id, U.Chase(s, a), s)
    ensures !U.Chase(s, a).TVI? && !U.Chase(s, b).TVI? ==>
              U.Unify(a, b, s) == U.UnifyStruct(U.Chase(s, a), U.Chase(s, b), s)
  {
  }

  // Elementwise unification can only succeed on lists of one length.
  // With the variable on the right, the sides are swapped and nothing is lost.
  lemma {:induction false} Swapped(a: Ty, b: Ty, s: Sub)
    requires WF(s) && !U.Chase(s, a).TVI? && U.Chase(s, b).TVI?
    ensures var ea, eb := U.Chase(s, a), U.Chase(s, b);
            && U.Unify(eb, ea, s) == U.Unify(a, b, s) && U.Chase(s, eb) == eb && U.Chase(s, ea) == ea
            && FV(eb) + FV(ea) == FV(ea) + FV(eb)
  {
    hide FV, SubVars, U.Unify, U.Chase, WF;
    var ea, eb := U.Chase(s, a), U.Chase(s, b);
    ChaseFixed(s, eb);
    ChaseFixed(s, ea);
    UnifyCases(a, b, s);
    UnifyCases(eb, ea, s);
  }

  lemma {:induction false} UnifyListsLength(xs: seq<RTy>, ys: seq<RTy>, s: Sub)
    requires WF(s) && |xs| != |ys|
    ensures U.UnifyLists(EraseAll(xs), EraseAll(ys), s).None?
  {
    if xs != [] && ys != [] && U.Unify(Erase(xs[0]), Erase(ys[0]), s).Some? {
      UnifyListsLength(xs[1..], ys[1..], U.Unify(Erase(xs[0]), Erase(ys[0]), s).value);
    }
  }

  class Infer {
    var counter: nat
    ghost var cells: set<TvCell>   // every cell handed out
    ghost var sub: Sub             // the links in the order they were made

    // The links are exactly the substitution: a cell is linked iff its id is
    // bound, and then to a type that erases to the one bound.
    ghost predicate Valid()
      reads this, cells
    {
      && WF(sub)
      && (forall c <- cells :: 0 <= c.id < counter)
      && (forall c <- cells, d <- cells :: c.id == d.id ==> c == d)
      && (forall c <- cells :: Linked(c))
      && (forall v <- Dom(sub) :: v < counter)
    }

    ghost predicate Linked(c: TvCell)
      reads this, c
    {
      match c.link
      case None => c.id !in Dom(sub)
      case Some(t) => Lookup(sub, c.id) == Some(Erase(t)) && Cells(t) <= cells
    }

    constructor ()
      ensures Valid() && fresh(cells) && sub == Empty && cells == {}
    {
      counter, cells, sub := 0, {}, Empty;
    }

    method Fresh() returns (c: TvCell)
      requires Valid()
      modifies this
      ensures Valid() && fresh(c) && cells == old(cells) + {c}
      ensures c.id == old(counter) && c.link == None && sub == old(sub)
    {
      c := new TvCell(counter);
      counter := counter + 1;
      cells := cells + {c};
    }

    // prune: follow links to the representative.
    function Prune(t: RTy): (r: RTy)
      requires Valid() && Cells(t) <= cells
      reads this, cells
      ensures Erase(r) == U.Chase(sub, Erase(t))
      ensures Cells(r) <= cells
      ensures r.Var? ==> r.tv.link == None
      decreases RankTy(sub, Erase(t))
    {
      match t
      case Var(c) =>
        assert Linked(c);
        WalkIsChase(sub, sub, c.id);
        LookupDom(sub, c.id);
        (match c.link
         case None => t
         case Some(t2) => RankEdge(sub, c.id, Erase(t2)); Prune(t2))
      case _ => t
    }

    predicate Occurs(id: int, t: RTy)
      requires Valid() && Cells(t) <= cells
      reads this, cells
      ensures Occurs(id, t) <==> U.Occurs(id, Erase(t), sub)
      decreases RankTy(sub, Erase(t)), t, 1
    {
      match Prune(t)
      case Var(c) => c.id == id
      case Con(_) => false
      case Arrow(a, b) => Occurs(id, a) || Occurs(id, b)
      case Tuple(ts) => OccursAny(id, ts)
      case App(_, ts) => OccursAny(id, ts)
    }

    predicate OccursAny(id: int, ts: seq<RTy>)
      requires Valid() && CellsOf(ts) <= cells
      reads this, cells
      ensures OccursAny(id, ts) <==> U.OccursList(id, EraseAll(ts), sub)
      decreases RankTys(sub, EraseAll(ts)), ts, 0
    {
      ts != [] && (Occurs(id, ts[0]) || OccursAny(id, ts[1..]))
    }

    // Infer::unify. On success the links spell out exactly the substitution the
    // pure unifier returns; it fails exactly when the pure one does, keeping
    // the links made so far.
    method Unify(a: RTy, b: RTy) returns (ok: bool)
      requires Valid() && Cells(a) <= cells && Cells(b) <= cells
      modifies this`sub, cells
      ensures Valid() && Extends(sub, old(sub))
      ensures match U.Unify(Erase(a), Erase(b), old(sub))
              case Some(s1) => ok && sub == s1
              case None => !ok
      decreases |U.Unbound(FV(Erase(a)) + FV(Erase(b)), sub)|,
                Size(Ap(sub, Erase(a))) + Size(Ap(sub, Erase(b))), 2,
                if U.Chase(sub, Erase(a)).TVI? then 0 else 1
    {
      hide FV, FVs, Size, Sizes, Ap, Aps, SubVars, U.UnifyStruct, U.UnifyLists, U.Unify, U.Grew, RankTy;
      hide RankTys, Rank, WF, EraseAll, CellsOf;
      var pa, pb := Prune(a), Prune(b);
      ghost var ea, eb := Erase(pa), Erase(pb);
      ghost var want := U.Unify(Erase(a), Erase(b), sub);
      UnifyCases(Erase(a), Erase(b), sub);
      U.SubsetCard(U.Unbound(FV(ea) + FV(eb), sub), U.Unbound(FV(Erase(a)) + FV(Erase(b)), sub));
      if pa.Var? && pb.Var? && pa.tv.id == pb.tv.id {
        assert want == Some(sub);
        ok := true;
      } else if pa.Var? {
        assert want == U.BindVar(pa.tv.id, eb, sub);
        ok := Link(pa.tv, pb);
      } else if pb.Var? {
        Swapped(Erase(a), Erase(b), sub);
        ok := Unify(pb, pa);
      } else {
        assert !ea.TVI? && !eb.TVI?;
        assert want == U.UnifyStruct(ea, eb, sub);
        ok := UnifyStruct(pa, pb);
      }
    }

    // The occurs check, then the link.
    method Link(c: TvCell, t: RTy) returns (ok: bool)
      requires Valid() && c in cells && Cells(t) <= cells && c.link == None
      modifies this`sub, cells
      ensures Valid() && Extends(sub, old(sub))
      ensures assert Linked(c); match U.BindVar(c.id, Erase(t), old(sub))
              case Some(s1) => ok && sub == s1
              case None => !ok
    {
      if Occurs(c.id, t) {
        ok := false;
      } else {
        c.link := Some(t);
        sub := Bind(c.id, Erase(t), sub);
        ok := true;
      }
    }

    method UnifyStruct(a: RTy, b: RTy) returns (ok: bool)
      requires Valid() && Cells(a) <= cells && Cells(b) <= cells && !a.Var? && !b.Var?
      modifies this`sub, cells
      ensures Valid() && Extends(sub, old(sub))
      ensures match U.UnifyStruct(Erase(a), Erase(b), old(sub))
              case Some(s1) => ok && sub == s1
              case None => !ok
      decreases |U.Unbound(FV(Erase(a)) + FV(Erase(b)), sub)|,
                Size(Ap(sub, Erase(a))) + Size(Ap(sub, Erase(b))), 1, 0
    {
      hide U.UnifyLists, U.Unify, U.Grew, Rank, WF, EraseAll, CellsOf;
      ghost var want := U.UnifyStruct(Erase(a), Erase(b), sub);
      if a.Arrow? && b.Arrow? {
        ok := UnifyArrow(a.dom, a.cod, b.dom, b.cod);
      } else if a.Tuple? && b.Tuple? {
        assert want == U.UnifyLists(EraseAll(a.elems), EraseAll(b.elems), sub);
        ok := UnifyAll(a.elems, b.elems);
      } else if a.App? && b.App? && a.head == b.head {
        assert want == U.UnifyLists(EraseAll(a.args), EraseAll(b.args), sub);
        ok := UnifyAll(a.args, b.args);
      } else {
        ok := a.Con? && b.Con? && a.name == b.name;
        assert want == if ok then Some(sub) else None;
      }
    }

    method UnifyArrow(a1: RTy, a2: RTy, b1: RTy, b2: RTy) returns (ok: bool)
      requires Valid() && Cells(a1) + Cells(a2) + Cells(b1) + Cells(b2) <= cells
      modifies this`sub, cells
      ensures Valid() && Extends(sub, old(sub))
      ensures match U.UnifyStruct(TAr(Erase(a1), Erase(a2)), TAr(Erase(b1), Erase(b2)), old(sub))
              case Some(s1) => ok && sub == s1
              case None => !ok
      decreases |U.Unbound(FV(TAr(Erase(a1), Erase(a2))) + FV(TAr(Erase(b1), Erase(b2))), sub)|,
                Size(Ap(sub, TAr(Erase(a1), Erase(a2)))) + Size(Ap(sub, TAr(Erase(b1), Erase(b2)))), 0, 0
    {
      hide U.UnifyLists, U.Unify, Rank, WF, EraseAll, CellsOf, Cells, Erase, Img;
      ghost var vars := FV(TAr(Erase(a1), Erase(a2))) + FV(TAr(Erase(b1), Erase(b2)));
      ghost var s := sub;
      U.SubsetCard(U.Unbound(FV(Erase(a1)) + FV(Erase(b1)), s), U.Unbound(vars, s));
      ok := Unify(a1, b1);
      if ok {
        ghost var s1 := sub;
        U.UnboundShrinks(vars, s, FV(Erase(a2)) + FV(Erase(b2)), s1);
        ok := Unify(a2, b2);
        U.ExtendsTrans(sub, s1, s);
      }
    }

    // The zip loops of the tuple and application cases: the length check comes
    // first here, where the pure code notices a mismatch at the end.
    method UnifyAll(xs: seq<RTy>, ys: seq<RTy>) returns (ok: bool)
      requires Valid() && CellsOf(xs) <= cells && CellsOf(ys) <= cells
      modifies this`sub, cells
      ensures Valid() && Extends(sub, old(sub))
      ensures match U.UnifyLists(EraseAll(xs), EraseAll(ys), old(sub))
              case Some(s1) => ok && sub == s1
              case None => !ok
      decreases |U.Unbound(FVs(EraseAll(xs)) + FVs(EraseAll(ys)), sub)|,
                Sizes(Aps(sub, EraseAll(xs))) + Sizes(Aps(sub, EraseAll(ys))), 0, 0
    {
      hide FV, FVs, Size, Sizes, Ap, Aps, SubVars, U.UnifyStruct, U.UnifyLists, U.Unify, U.Grew, U.Unbound, Rank, WF,
           Erase, Cells, EraseAll, CellsOf, ZipState;
      if |xs| != |ys| {
        UnifyListsLength(xs, ys, sub);
        return false;
      }
      ghost var s0 := sub;
      ZipEnds(xs, ys, s0, s0);
      var i := 0;
      while i < |xs|
        invariant 0 <= i <= |xs|
        invariant Valid() && Extends(sub, s0)
        invariant CellsOf(xs[i..]) <= cells && CellsOf(ys[i..]) <= cells
        invariant ZipState(xs, ys, i, s0, sub)
      {
        ghost var s1 := sub;
        ZipMeasure(xs, ys, i, s0, s1);
        ZipStep(xs, ys, i, s0, s1);
        ok := Unify(xs[i], ys[i]);
        U.ExtendsTrans(sub, s1, s0);
        if !ok { return; }
        i := i + 1;
      }
      ZipEnds(xs, ys, s0, sub);
      ok := true;
    }
  }

  // What the zip loop knows after i pairs: extending s by the remaining pairs
  // gives the result of the whole list.
  ghost predicate ZipState(xs: seq<RTy>, ys: seq<RTy>, i: nat, s0: Sub, s: Sub) {
    && i <= |xs| == |ys| && WF(s0)
    && U.Grew(s0, s, FVs(EraseAll(xs)) + FVs(EraseAll(ys)))
    && FVs(EraseAll(xs[i..])) + FVs(EraseAll(ys[i..])) <= FVs(EraseAll(xs)) + FVs(EraseAll(ys))
    && U.UnifyLists(EraseAll(xs), EraseAll(ys), s0) == U.UnifyLists(EraseAll(xs[i..]), EraseAll(ys[i..]), s)
    && (s == s0 ==> Sizes(Aps(s, EraseAll(xs[i..]))) <= Sizes(Aps(s, EraseAll(xs)))
                    && Sizes(Aps(s, EraseAll(ys[i..]))) <= Sizes(Aps(s, EraseAll(ys))))
  }

  lemma {:induction false} ZipEnds(xs: seq<RTy>, ys: seq<RTy>, s0: Sub, s: Sub)
    requires |xs| == |ys| && WF(s0)
    ensures ZipState(xs, ys, 0, s0, s0) && xs[0..] == xs && ys[0..] == ys && Extends(s0, s0)
    ensures ZipState(xs, ys, |xs|, s0, s) ==> U.UnifyLists(EraseAll(xs), EraseAll(ys), s0) == Some(s)
  {
    hide FV, FVs, Size, Sizes, Ap, Aps, SubVars, U.UnifyStruct, U.Unify, Rank, WF, Erase, Cells;
    assert xs[0..] == xs && ys[0..] == ys && xs[|xs|..] == ys[|ys|..] == [];
  }

  lemma {:induction false} SplitHead(xs: seq<RTy>, i: nat)
    requires i < |xs|
    ensures EraseAll(xs[i..]) == Cons(Erase(xs[i]), EraseAll(xs[i + 1..]))
    ensures CellsOf(xs[i..]) == Cells(xs[i]) + CellsOf(xs[i + 1..])
  {
    hide Erase, Cells;
    var xr := xs[i..];
    assert xr[0] == xs[i] && xr[1..] == xs[i + 1..];
  }

  // One pair of the loop, on the pure side.
  lemma {:induction false} ZipStep(xs: seq<RTy>, ys: seq<RTy>, i: nat, s0: Sub, s: Sub)
    requires ZipState(xs, ys, i, s0, s) && i < |xs|
    ensures CellsOf(xs[i..]) == Cells(xs[i]) + CellsOf(xs[i + 1..])
    ensures CellsOf(ys[i..]) == Cells(ys[i]) + CellsOf(ys[i + 1..])
    ensures match U.Unify(Erase(xs[i]), Erase(ys[i]), s)
            case Some(s1) => ZipState(xs, ys, i + 1, s0, s1)
            case None => U.UnifyLists(EraseAll(xs), EraseAll(ys), s0).None?
  {
    assert WF(s) && U.Grew(s0, s, FVs(EraseAll(xs)) + FVs(EraseAll(ys)));
    hide U.UnifyStruct, U.Unify, Rank, WF, Erase, Cells, FV, Size, Ap, EraseAll, CellsOf, SubVars, U.Grew;
    SplitHead(xs, i);
    SplitHead(ys, i);
    var vars := FVs(EraseAll(xs)) + FVs(EraseAll(ys));
    match U.Unify(Erase(xs[i]), Erase(ys[i]), s)
    case Some(s1) =>
      U.GrewTrans(s0, s, s1, vars, FV(Erase(xs[i])) + FV(Erase(ys[i])), vars);
      if s1 == s0 { GrewBack(s0, s, s1, vars, FV(Erase(xs[i])) + FV(Erase(ys[i]))); }
    case None =>
  }

  lemma {:induction false} GrewBack(s0: Sub, s: Sub, s1: Sub, u: set<int>, v: set<int>)
    requires U.Grew(s0, s, u) && U.Grew(s, s1, v) && s1 == s0
    ensures s == s0
  {
  }

  lemma {:induction false} ZipMeasure(xs: seq<RTy>, ys: seq<RTy>, i: nat, s0: Sub, s: Sub)
    requires ZipState(xs, ys, i, s0, s) && i < |xs|
    ensures var vars := FVs(EraseAll(xs)) + FVs(EraseAll(ys));
            && |U.Unbound(FV(Erase(AtIndex(xs, i))) + FV(Erase(AtIndex(ys, i))), s)| <= |U.Unbound(vars, s0)|
            && (s != s0 ==> |U.Unbound(FV(Erase(AtIndex(xs, i))) + FV(Erase(AtIndex(ys, i))), s)| < |U.Unbound(vars,
               s0)|)
    ensures s == s0 ==> Size(Ap(s, Erase(AtIndex(xs, i)))) + Size(Ap(s, Erase(AtIndex(ys, i))))
                        < Sizes(Aps(s, EraseAll(xs))) + Sizes(Aps(s, EraseAll(ys)))
  {
    hide U.UnifyLists, U.Unify, Rank, WF, Erase, Cells, FV, Size, Ap, EraseAll, CellsOf;
    SplitHead(xs, i);
    SplitHead(ys, i);
    U.UnboundShrinks(FVs(EraseAll(xs)) + FVs(EraseAll(ys)), s0, FV(Erase(xs[i])) + FV(Erase(ys[i])), s);
  }
}

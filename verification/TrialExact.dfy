// The fifth generation's unifier on types without records: it is the pure
// unifier, so its answer is exact. Types and histories are read as those of
// Unification; a state is one whose bindings passed the occurs check.
module TrialExact {
  import opened Types
  import opened Trial
  import U = Unification

  // ---------- reading types and histories ----------

  predicate Plain(t: Ty5)
    decreases t
  {
    match t
    case V(_) => true
    case C(_) => true
    case Ar(a, b) => Plain(a) && Plain(b)
    case Tup(ts) => AllPlain(ts)
    case App(_, ts) => AllPlain(ts)
    case Rec(_, _) => false
  }

  predicate AllPlain(ts: seq<Ty5>)
    decreases ts
  {
    ts == [] || (Plain(ts[0]) && AllPlain(ts[1..]))
  }

  predicate PlainSub(m: seq<(int, Ty5)>) { m == [] || (Plain(m[0].1) && PlainSub(m[1..])) }

  function Read(t: Ty5): Ty
    requires Plain(t)
    decreases t
  {
    match t
    case V(x) => TVI(x)
    case C(n) => TC(n)
    case Ar(a, b) => TAr(Read(a), Read(b))
    case Tup(ts) => TTup(ReadAll(ts))
    case App(n, ts) => TApp(n, ReadAll(ts))
  }

  function ReadAll(ts: seq<Ty5>): Tys
    requires AllPlain(ts)
    decreases ts
  {
    if ts == [] then Nil else Cons(Read(ts[0]), ReadAll(ts[1..]))
  }

  function ReadSub(m: seq<(int, Ty5)>): Sub
    requires PlainSub(m)
  {
    if m == [] then Empty else Bind(m[0].0, Read(m[0].1), ReadSub(m[1..]))
  }

  // The bindings mention no record and each was made after the occurs check.
  ghost predicate Sane(s: St) { PlainSub(s.subst) && WF(ReadSub(s.subst)) }

  ghost function Bindings(s: St): Sub
    requires Sane(s)
  {
    ReadSub(s.subst)
  }

  // ---------- chasing ----------

  // A walk stops at the newest binding and chases on from there.
  lemma {:induction false} WalkGet(o: Sub, m: seq<(int, Ty5)>, k: int)
    requires WF(o) && PlainSub(m) && Lookup(o, k) == Lookup(ReadSub(m), k)
    ensures match Get(m, k)
            case None => U.WalkFull(o, ReadSub(m), k) == TVI(k)
            case Some(u) => Plain(u) && Lookup(o, k) == Some(Read(u))
                            && U.WalkFull(o, ReadSub(m), k) == U.Chase(o, Read(u))
  {
    hide WF;
    if m != [] && m[0].0 != k { WalkGet(o, m[1..], k); }
  }

  lemma {:induction false} ChaseRead(n: nat, s: St, t: Ty5)
    requires Sane(s) && Plain(t) && Chase(n, s.subst, t).Some?
    ensures var u := The(Chase(n, s.subst, t)); Plain(u) && U.Chase(Bindings(s), Read(t)) == Read(u)
  {
    hide WF;
    if t.V? {
      WalkGet(Bindings(s), s.subst, t.id);
      if Get(s.subst, t.id).Some? { ChaseRead(n - 1, s, Get(s.subst, t.id).value); }
    }
  }

  // ---------- the occurs check ----------

  lemma {:induction false} PairRead(a: Ty5, b: Ty5)
    requires Plain(a) && Plain(b)
    ensures AllPlain([a, b]) && ReadAll([a, b]) == Cons(Read(a), Cons(Read(b), Nil))
  {
    assert [a, b][1..] == [b] && [b][1..] == [];
    assert AllPlain([]) && AllPlain([b]);
    assert ReadAll([b]) == Cons(Read(b), ReadAll([]));
  }

  lemma {:induction false} OccursRead(n: nat, v: int, t: Ty5, s: St)
    requires Sane(s) && Plain(t) && Occurs(n, v, t, s).Some?
    ensures The(Occurs(n, v, t, s)) == U.Occurs(v, Read(t), Bindings(s))
    decreases n, 0
  {
    hide WF, PlainSub;
    ChaseRead(n, s, t);
    match Chase(n, s.subst, t).value
    case V(_) =>
    case C(_) =>
    case Ar(a, b) =>
      PairRead(a, b);
      OccursAnyRead(n - 1, v, [a, b], s);
    case Tup(ts) => OccursAnyRead(n - 1, v, ts, s);
    case App(_, ts) => OccursAnyRead(n - 1, v, ts, s);
  }

  lemma {:induction false} OccursAnyRead(n: nat, v: int, ts: seq<Ty5>, s: St)
    requires Sane(s) && AllPlain(ts) && OccursAny(n, v, ts, s).Some?
    ensures The(OccursAny(n, v, ts, s)) == U.OccursList(v, ReadAll(ts), Bindings(s))
    decreases n, 1, |ts|
  {
    hide WF, PlainSub;
    if ts != [] {
      OccursRead(n, v, ts[0], s);
      if !Occurs(n, v, ts[0], s).value { OccursAnyRead(n, v, ts[1..], s); }
    }
  }

  // ---------- unification ----------

  // The attempt and the pure unifier answer alike.
  ghost predicate Alike(r: Att, pure: Option<Sub>) {
    if r.ok then Sane(r.s) && pure == Some(Bindings(r.s)) else pure == None
  }

  lemma {:induction false} BindRead(n: nat, v: int, t: Ty5, s: St)
    requires Sane(s) && Plain(t) && v !in Dom(Bindings(s)) && BindVar(n, v, t, s).Some?
    ensures Alike(The(BindVar(n, v, t, s)), U.BindVar(v, Read(t), Bindings(s)))
  {
    OccursRead(n, v, t, s);
    assert ([(v, t)] + s.subst)[1..] == s.subst;
  }

  lemma {:induction false} UnifyRead(n: nat, a: Ty5, b: Ty5, s: St)
    requires Sane(s) && Plain(a) && Plain(b) && Unify(n, a, b, s).Some?
    ensures Alike(The(Unify(n, a, b, s)), U.Unify(Read(a), Read(b), Bindings(s)))
    decreases n, 0
  {
    hide WF, PlainSub, Chase, BindVar, U.BindVar, UnifyStruct, U.UnifyStruct, U.Chase, Alike;
    ChaseRead(n, s, a);
    ChaseRead(n, s, b);
    var ta, tb := Chase(n, s.subst, a).value, Chase(n, s.subst, b).value;
    if ta.V? {
      if ta == tb { SameAlike(s); } else { BindRead(n, ta.id, tb, s); }
    } else if tb.V? {
      BindRead(n, tb.id, ta, s);
    } else {
      StructRead(n - 1, ta, tb, s);
    }
  }

  lemma {:induction false} SameAlike(s: St)
    requires Sane(s)
    ensures Alike(Att(s, true), Some(Bindings(s)))
  {
  }

  lemma {:induction false} StructRead(n: nat, ta: Ty5, tb: Ty5, s: St)
    requires Sane(s) && Plain(ta) && Plain(tb) && !ta.V? && !tb.V? && UnifyStruct(n, ta, tb, s).Some?
    ensures Alike(The(UnifyStruct(n, ta, tb, s)), U.UnifyStruct(Read(ta), Read(tb), Bindings(s)))
    decreases n, 5
  {
    hide WF, PlainSub, Unify, U.Unify, UnifyLists, U.UnifyLists;
    match (ta, tb)
    case (Ar(a1, a2), Ar(b1, b2)) =>
      UnifyRead(n, a1, b1, s);
      var r := Unify(n, a1, b1, s).value;
      if r.ok { UnifyRead(n, a2, b2, r.s); }
    case (Tup(xs), Tup(ys)) => ListsRead(n, xs, ys, s);
    case (App(c, xs), App(d, ys)) => if c == d { ListsRead(n, xs, ys, s); }
    case _ =>
  }

  lemma {:induction false} ListsRead(n: nat, xs: seq<Ty5>, ys: seq<Ty5>, s: St)
    requires Sane(s) && AllPlain(xs) && AllPlain(ys) && UnifyLists(n, xs, ys, s).Some?
    ensures Alike(The(UnifyLists(n, xs, ys, s)), U.UnifyLists(ReadAll(xs), ReadAll(ys), Bindings(s)))
    decreases n, 1, |xs|
  {
    hide WF, PlainSub, Unify, U.Unify;
    if xs != [] && ys != [] {
      UnifyRead(n, xs[0], ys[0], s);
      var r := Unify(n, xs[0], ys[0], s).value;
      if r.ok { ListsRead(n, xs[1..], ys[1..], r.s); }
    }
  }

  // ---------- enough depth ----------

  lemma {:induction false} ChaseMore(n: nat, m: nat, s: St, t: Ty5)
    requires n <= m && Chase(n, s.subst, t).Some?
    ensures Chase(m, s.subst, t) == Chase(n, s.subst, t)
    decreases n
  {
    if t.V? && Get(s.subst, t.id).Some? { ChaseMore(n - 1, m - 1, s, Get(s.subst, t.id).value); }
  }

  lemma {:induction false} OccursMore(n: nat, m: nat, v: int, t: Ty5, s: St)
    requires Sane(s) && Plain(t) && n <= m && Occurs(n, v, t, s).Some?
    ensures Occurs(m, v, t, s) == Occurs(n, v, t, s)
    decreases n, 0
  {
    hide Sane, Chase;
    ChaseRead(n, s, t);
    ChaseMore(n, m, s, t);
    match Chase(n, s.subst, t).value
    case V(_) =>
    case C(_) =>
    case Ar(a, b) => PairRead(a, b); OccursAnyMore(n - 1, m - 1, v, [a, b], s);
    case Tup(ts) => OccursAnyMore(n - 1, m - 1, v, ts, s);
    case App(_, ts) => OccursAnyMore(n - 1, m - 1, v, ts, s);
  }

  lemma {:induction false} OccursAnyMore(n: nat, m: nat, v: int, ts: seq<Ty5>, s: St)
    requires Sane(s) && AllPlain(ts) && n <= m && OccursAny(n, v, ts, s).Some?
    ensures OccursAny(m, v, ts, s) == OccursAny(n, v, ts, s)
    decreases n, 1, |ts|
  {
    hide Sane;
    if ts != [] {
      OccursMore(n, m, v, ts[0], s);
      if !Occurs(n, v, ts[0], s).value { OccursAnyMore(n, m, v, ts[1..], s); }
    }
  }

  lemma {:induction false} UnifyMore(n: nat, m: nat, a: Ty5, b: Ty5, s: St)
    requires Sane(s) && Plain(a) && Plain(b) && n <= m && Unify(n, a, b, s).Some?
    ensures Unify(m, a, b, s) == Unify(n, a, b, s)
    decreases n, 0
  {
    hide Sane, Chase, Occurs, UnifyStruct;
    ChaseRead(n, s, a);
    ChaseRead(n, s, b);
    ChaseMore(n, m, s, a);
    ChaseMore(n, m, s, b);
    var ta, tb := Chase(n, s.subst, a).value, Chase(n, s.subst, b).value;
    if ta.V? {
      if ta != tb { OccursMore(n, m, ta.id, tb, s); }
    } else if tb.V? {
      OccursMore(n, m, tb.id, ta, s);
    } else {
      StructMore(n - 1, m - 1, ta, tb, s);
    }
  }

  lemma {:induction false} StructMore(n: nat, m: nat, ta: Ty5, tb: Ty5, s: St)
    requires Sane(s) && Plain(ta) && Plain(tb) && n <= m && UnifyStruct(n, ta, tb, s).Some?
    ensures UnifyStruct(m, ta, tb, s) == UnifyStruct(n, ta, tb, s)
    decreases n, 5
  {
    hide Sane, Unify, UnifyLists;
    match (ta, tb)
    case (Ar(a1, a2), Ar(b1, b2)) =>
      UnifyMore(n, m, a1, b1, s);
      var r := Unify(n, a1, b1, s).value;
      if r.ok {
        StaysSane(n, a1, b1, s);
        UnifyMore(n, m, a2, b2, r.s);
      }
    case (Tup(xs), Tup(ys)) => ListsMore(n, m, xs, ys, s);
    case (App(c, xs), App(d, ys)) => if c == d { ListsMore(n, m, xs, ys, s); }
    case _ =>
  }

  lemma {:induction false} ListsMore(n: nat, m: nat, xs: seq<Ty5>, ys: seq<Ty5>, s: St)
    requires Sane(s) && AllPlain(xs) && AllPlain(ys) && n <= m && UnifyLists(n, xs, ys, s).Some?
    ensures UnifyLists(m, xs, ys, s) == UnifyLists(n, xs, ys, s)
    decreases n, 1, |xs|
  {
    hide Sane, Unify;
    if xs != [] && ys != [] {
      UnifyMore(n, m, xs[0], ys[0], s);
      var r := Unify(n, xs[0], ys[0], s).value;
      if r.ok {
        StaysSane(n, xs[0], ys[0], s);
        ListsMore(n, m, xs[1..], ys[1..], r.s);
      }
    }
  }

  lemma {:induction false} StaysSane(n: nat, a: Ty5, b: Ty5, s: St)
    requires Sane(s) && Plain(a) && Plain(b) && Unify(n, a, b, s).Some? && The(Unify(n, a, b, s)).ok
    ensures Sane(The(Unify(n, a, b, s)).s)
    ensures U.Unify(Read(a), Read(b), Bindings(s)) == Some(Bindings(The(Unify(n, a, b, s)).s))
  {
    hide Unify, U.Unify;
    UnifyRead(n, a, b, s);
  }

  function Max(a: nat, b: nat): nat { if a < b then b else a }

  lemma {:induction false} ChaseEnough(s: St, t: Ty5) returns (n: nat)
    requires Sane(s) && Plain(t)
    ensures Chase(n, s.subst, t).Some?
    decreases RankTy(Bindings(s), Read(t))
  {
    n := 0;
    if t.V? && Get(s.subst, t.id).Some? {
      var u := Get(s.subst, t.id).value;
      WalkGet(Bindings(s), s.subst, t.id);
      RankEdge(Bindings(s), t.id, Read(u));
      n := ChaseEnough(s, u);
      n := n + 1;
    }
  }

  lemma {:induction false} PairAnswers(n: nat, v: int, a: Ty5, b: Ty5, s: St)
    requires Sane(s) && Plain(a) && Plain(b) && Occurs(n, v, a, s).Some? && Occurs(n, v, b, s).Some?
    ensures AllPlain([a, b]) && OccursAny(n, v, [a, b], s).Some?
  {
    hide Sane, Occurs;
    PairRead(a, b);
    assert [a, b][1..] == [b] && [b][1..] == [];
    assert OccursAny(n, v, [b], s).Some?;
  }

  lemma {:induction false} OccursEnough(v: int, t: Ty5, s: St) returns (n: nat)
    requires Sane(s) && Plain(t)
    ensures Occurs(n, v, t, s).Some?
    decreases RankTy(Bindings(s), Read(t)), Read(t)
  {
    hide Sane, Chase, U.Chase;
    var c := ChaseEnough(s, t);
    ChaseRead(c, s, t);
    var k: nat := 0;
    var u := Chase(c, s.subst, t).value;
    match u {
      case V(_) =>
      case C(_) =>
      case Ar(a, b) =>
        var ka := OccursEnough(v, a, s);
        var kb := OccursEnough(v, b, s);
        k := Max(ka, kb);
        OccursMore(ka, k, v, a, s);
        OccursMore(kb, k, v, b, s);
        PairAnswers(k, v, a, b, s);
      case Tup(ts) => k := OccursAnyEnough(v, ts, s);
      case App(_, ts) => k := OccursAnyEnough(v, ts, s);
    }
    n := Max(c, k) + 1;
    ChaseMore(c, n, s, t);
    match u {
      case V(_) =>
      case C(_) =>
      case Ar(a, b) => OccursAnyMore(k, n - 1, v, [a, b], s);
      case Tup(ts) => OccursAnyMore(k, n - 1, v, ts, s);
      case App(_, ts) => OccursAnyMore(k, n - 1, v, ts, s);
    }
  }

  lemma {:induction false} OccursAnyEnough(v: int, ts: seq<Ty5>, s: St) returns (n: nat)
    requires Sane(s) && AllPlain(ts)
    ensures OccursAny(n, v, ts, s).Some?
    decreases RankTys(Bindings(s), ReadAll(ts)), ReadAll(ts)
  {
    hide Sane;
    n := 0;
    if ts != [] {
      var k := OccursEnough(v, ts[0], s);
      var l := OccursAnyEnough(v, ts[1..], s);
      n := Max(k, l);
      OccursMore(k, n, v, ts[0], s);
      OccursAnyMore(l, n, v, ts[1..], s);
    }
  }

  // The measures of the pure unifier's recursion.
  ghost function Left(a: Ty, b: Ty, s: St): nat
    requires Sane(s)
  {
    |U.Unbound(FV(a) + FV(b), Bindings(s))|
  }

  ghost function Bulk(a: Ty, b: Ty, o: Sub): nat { Size(Ap(o, a)) + Size(Ap(o, b)) }

  lemma {:induction false} ChasedMeasure(k: nat, l: nat, a: Ty5, b: Ty5, s: St)
    requires Sane(s) && Plain(a) && Plain(b) && Chase(k, s.subst, a).Some? && Chase(l, s.subst, b).Some?
    ensures var ta, tb := The(Chase(k, s.subst, a)), The(Chase(l, s.subst, b));
            && Plain(ta) && Plain(tb)
            && Left(Read(ta), Read(tb), s) <= Left(Read(a), Read(b), s)
            && Bulk(Read(ta), Read(tb), Bindings(s)) == Bulk(Read(a), Read(b), Bindings(s))
  {
    hide WF, PlainSub, Read, Chase, Size, Ap, FV;
    ChaseRead(k, s, a);
    ChaseRead(l, s, b);
    var o, ta, tb := Bindings(s), Chase(k, s.subst, a).value, Chase(l, s.subst, b).value;
    U.SubsetCard(U.Unbound(FV(Read(ta)) + FV(Read(tb)), o), U.Unbound(FV(Read(a)) + FV(Read(b)), o));
  }

  // The parts of two terms have no more variables left and are smaller.
  lemma {:induction false} PartMeasure(a: Ty, b: Ty, a1: Ty, b1: Ty, s: St)
    requires Sane(s) && FV(a1) <= FV(a) && FV(b1) <= FV(b)
    ensures Left(a1, b1, s) <= Left(a, b, s)
  {
    hide Sane, FV, Dom, SubVars;
    var o := Bindings(s);
    U.SubsetCard(U.Unbound(FV(a1) + FV(b1), o), U.Unbound(FV(a) + FV(b), o));
  }

  // After a success, either variables have been used up or nothing changed.
  lemma {:induction false} NextMeasure(n: nat, x: Ty5, y: Ty5, s: St, a: Ty, b: Ty, a2: Ty, b2: Ty)
    requires Sane(s) && Plain(x) && Plain(y) && Unify(n, x, y, s).Some? && The(Unify(n, x, y, s)).ok
    requires FV(Read(x)) <= FV(a) && FV(Read(y)) <= FV(b) && FV(a2) <= FV(a) && FV(b2) <= FV(b)
    ensures var s1 := The(Unify(n, x, y, s)).s;
            && Sane(s1) && Left(a2, b2, s1) <= Left(a, b, s)
            && (Left(a2, b2, s1) == Left(a, b, s) ==> Bindings(s1) == Bindings(s))
  {
    hide Sane, Bindings, Read, Unify, U.Unify, U.Unbound, FV, U.Grew;
    StaysSane(n, x, y, s);
    var o, o1, vars := Bindings(s), Bindings(Unify(n, x, y, s).value.s), FV(a) + FV(b);
    GrewMore(o, o1, FV(Read(x)) + FV(Read(y)), vars);
    U.UnboundShrinks(vars, o, FV(a2) + FV(b2), o1);
  }

  lemma {:induction false} GrewMore(o: Sub, o1: Sub, u: set<int>, vars: set<int>)
    requires U.Grew(o, o1, u) && u <= vars
    ensures U.Grew(o, o1, vars)
  {
    hide WF, Dom, SubVars, Types.Extends;
  }

  // Every attempt answers once it may go deep enough.
  lemma {:induction false} UnifyEnough(a: Ty5, b: Ty5, s: St) returns (n: nat)
    requires Sane(s) && Plain(a) && Plain(b)
    ensures Unify(n, a, b, s).Some?
    decreases Left(Read(a), Read(b), s), Bulk(Read(a), Read(b), Bindings(s)), 2
  {
    hide Sane, Chase, Occurs, UnifyStruct, Left, Bulk, Read, Plain;
    var k := ChaseEnough(s, a);
    var l := ChaseEnough(s, b);
    ChasedMeasure(k, l, a, b, s);
    var ta, tb := Chase(k, s.subst, a).value, Chase(l, s.subst, b).value;
    if ta.V? || tb.V? {
      var v, t := if ta.V? then ta.id else tb.id, if ta.V? then tb else ta;
      var m := OccursEnough(v, t, s);
      n := Max(k, Max(l, m)) + 1;
      OccursMore(m, n, v, t, s);
    } else {
      var m := StructEnough(ta, tb, s);
      n := Max(k, Max(l, m)) + 1;
      StructMore(m, n - 1, ta, tb, s);
    }
    ChaseMore(k, n, s, a);
    ChaseMore(l, n, s, b);
  }

  lemma {:induction false} StructEnough(ta: Ty5, tb: Ty5, s: St) returns (n: nat)
    requires Sane(s) && Plain(ta) && Plain(tb) && !ta.V? && !tb.V?
    ensures UnifyStruct(n, ta, tb, s).Some?
    decreases Left(Read(ta), Read(tb), s), Bulk(Read(ta), Read(tb), Bindings(s)), 1
  {
    hide Sane, Unify, UnifyLists, Left;
    n := 0;
    match (ta, tb) {
      case (Ar(a1, a2), Ar(b1, b2)) =>
        PartMeasure(Read(ta), Read(tb), Read(a1), Read(b1), s);
        n := UnifyEnough(a1, b1, s);
        var r := Unify(n, a1, b1, s).value;
        if r.ok {
          NextMeasure(n, a1, b1, s, Read(ta), Read(tb), Read(a2), Read(b2));
          var m := UnifyEnough(a2, b2, r.s);
          var k := n;
          n := Max(k, m);
          UnifyMore(k, n, a1, b1, s);
          UnifyMore(m, n, a2, b2, r.s);
        }
      case (Tup(xs), Tup(ys)) =>
        PartMeasure(Read(ta), Read(tb), TTup(ReadAll(xs)), TTup(ReadAll(ys)), s);
        n := ListsEnough(xs, ys, s);
      case (App(c, xs), App(d, ys)) =>
        PartMeasure(Read(ta), Read(tb), TTup(ReadAll(xs)), TTup(ReadAll(ys)), s);
        if c == d { n := ListsEnough(xs, ys, s); }
      case _ =>
    }
  }

  lemma {:induction false} ListMeasure(xs: seq<Ty5>, ys: seq<Ty5>, s: St)
    requires Sane(s) && AllPlain(xs) && AllPlain(ys) && xs != [] && ys != []
    ensures Bulk(Read(xs[0]), Read(ys[0]), Bindings(s)) < Bulk(TTup(ReadAll(xs)), TTup(ReadAll(ys)), Bindings(s))
    ensures Bulk(TTup(ReadAll(xs[1..])), TTup(ReadAll(ys[1..])), Bindings(s)) < Bulk(TTup(ReadAll(xs)),
        TTup(ReadAll(ys)), Bindings(s))
  {
    hide Sane, Read;
    ConsBulk(Bindings(s), Read(xs[0]), ReadAll(xs[1..]));
    ConsBulk(Bindings(s), Read(ys[0]), ReadAll(ys[1..]));
  }

  lemma {:induction false} ConsBulk(o: Sub, t: Ty, ts: Tys)
    ensures Size(Ap(o, t)) < Size(Ap(o, TTup(Cons(t, ts)))) && Size(Ap(o, TTup(ts))) < Size(Ap(o, TTup(Cons(t, ts))))
  {
  }

  lemma {:induction false} ListsEnough(xs: seq<Ty5>, ys: seq<Ty5>, s: St) returns (n: nat)
    requires Sane(s) && AllPlain(xs) && AllPlain(ys)
    ensures UnifyLists(n, xs, ys, s).Some?
    decreases Left(TTup(ReadAll(xs)), TTup(ReadAll(ys)), s), Bulk(TTup(ReadAll(xs)), TTup(ReadAll(ys)), Bindings(s)), 0
  {
    hide Sane, Unify, Left, Bulk;
    n := 0;
    if xs != [] && ys != [] {
      ListMeasure(xs, ys, s);
      var xt, yt := TTup(ReadAll(xs)), TTup(ReadAll(ys));
      PartMeasure(xt, yt, Read(xs[0]), Read(ys[0]), s);
      n := UnifyEnough(xs[0], ys[0], s);
      var r := Unify(n, xs[0], ys[0], s).value;
      if r.ok {
        NextMeasure(n, xs[0], ys[0], s, xt, yt, TTup(ReadAll(xs[1..])), TTup(ReadAll(ys[1..])));
        var m := ListsEnough(xs[1..], ys[1..], r.s);
        var k := n;
        n := Max(k, m);
        UnifyMore(k, n, xs[0], ys[0], s);
        ListsMore(m, n, xs[1..], ys[1..], r.s);
      }
    }
  }

  // ---------- exactness ----------

  // An attempt that is not cut short succeeds exactly when some assignment that
  // solves the state equates the types. Its state then has just those solutions
  // and resolves both types alike.
  lemma {:induction false} UnifyExact(n: nat, a: Ty5, b: Ty5, s: St)
    requires Sane(s) && Plain(a) && Plain(b) && Unify(n, a, b, s).Some?
    ensures var r := The(Unify(n, a, b, s));
            if r.ok then
              && Sane(r.s) && U.Apply(Bindings(r.s), Read(a)) == U.Apply(Bindings(r.s), Read(b))
              && forall th: U.Assign :: U.Solves(th, Bindings(r.s))
                   <==> U.Solves(th, Bindings(s)) && U.Map(th, Read(a)) == U.Map(th, Read(b))
            else forall th: U.Assign :: U.Solves(th, Bindings(s)) ==> U.Map(th, Read(a)) != U.Map(th, Read(b))
  {
    hide Unify, U.Unify;
    UnifyRead(n, a, b, s);
    forall th: U.Assign { U.UnifyExact(th, Read(a), Read(b), Bindings(s)); }
    if Unify(n, a, b, s).value.ok { U.UnifySound(Read(a), Read(b), Bindings(s)); }
  }

  // From some depth on every attempt gives one and the same answer.
  lemma {:induction false} UnifyAnswers(a: Ty5, b: Ty5, s: St) returns (n: nat)
    requires Sane(s) && Plain(a) && Plain(b)
    ensures Unify(n, a, b, s).Some? && forall m: nat :: n <= m ==> Unify(m, a, b, s) == Unify(n, a, b, s)
  {
    hide Unify, Sane, Plain;
    n := UnifyEnough(a, b, s);
    forall m: nat | n <= m { UnifyMore(n, m, a, b, s); }
  }
}

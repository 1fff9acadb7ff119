// Unification does not look at numbers: moving all fresh variables and rows up
// renumbers every outcome and changes nothing else. So a hole candidate is one
// whatever was tried before it.
module Renumber {
  import opened Types
  import opened Trial

  // Variables from var0 on move up by dv, rows from row0 on by dr.
  datatype Shift = Shift(var0: int, dv: nat, row0: int, dr: nat)

  function Var(h: Shift, x: int): int { if x < h.var0 then x else x + h.dv }
  function RowId(h: Shift, x: int): int { if x < h.row0 then x else x + h.dr }
  function Tail(h: Shift, r: Row): Row { match r case RClosed => RClosed case ROpen(id) => ROpen(RowId(h, id)) }

  function Ty(h: Shift, t: Ty5): Ty5
    decreases t
  {
    match t
    case V(x) => V(Var(h, x))
    case C(_) => t
    case Ar(a, b) => Ar(Ty(h, a), Ty(h, b))
    case Tup(ts) => Tup(All(h, ts))
    case App(c, ts) => App(c, All(h, ts))
    case Rec(flds, tl) => Rec(Flds(h, flds), Tail(h, tl))
  }

  function All(h: Shift, ts: seq<Ty5>): (us: seq<Ty5>)
    ensures |us| == |ts|
    decreases ts
  {
    if ts == [] then [] else [Ty(h, ts[0])] + All(h, ts[1..])
  }

  function Flds(h: Shift, flds: Fields): (gs: Fields)
    ensures |gs| == |flds|
    decreases flds
  {
    if flds == [] then [] else var f := flds[0]; assert flds decreases to f; [(f.0, Ty(h, f.1))] + Flds(h, flds[1..])
  }

  function Binds(h: Shift, m: seq<(int, Ty5)>): seq<(int, Ty5)> {
    if m == [] then [] else [(Var(h, m[0].0), Ty(h, m[0].1))] + Binds(h, m[1..])
  }

  function Rows(h: Shift, m: seq<(int, RowC)>): seq<(int, RowC)> {
    if m == [] then []
    else [(RowId(h, m[0].0), RowC(Flds(h, m[0].1.flds), Tail(h, m[0].1.tail)))] + Rows(h, m[1..])
  }

  function Vars(h: Shift, xs: seq<int>): seq<int> { if xs == [] then [] else [Var(h, xs[0])] + Vars(h, xs[1..]) }

  function State(h: Shift, s: St): St {
    St(Binds(h, s.subst), Rows(h, s.rowsubst), Vars(h, s.holevars), s.ctr + h.dv, s.rowctr + h.dr, s.ectx)
  }

  function Attempt(h: Shift, r: Option<Att>): Option<Att> {
    match r case None => None case Some(a) => Some(Att(State(h, a.s), a.ok))
  }

  // ---------- lookups ----------

  lemma {:induction false} GetMoves(h: Shift, m: seq<(int, Ty5)>, k: int)
    ensures Get(Binds(h, m), Var(h, k)) == match Get(m, k) case None => None case Some(t) => Some(Ty(h, t))
  {
    hide Ty;
    if m != [] { GetMoves(h, m[1..], k); }
  }

  lemma {:induction false} GetRowMoves(h: Shift, m: seq<(int, RowC)>, k: int)
    ensures Get(Rows(h, m), RowId(h, k))
         == match Get(m, k) case None => None case Some(r) => Some(RowC(Flds(h, r.flds), Tail(h, r.tail)))
  {
    hide Flds, Tail;
    if m != [] { GetRowMoves(h, m[1..], k); }
  }

  lemma {:induction false} ChaseMoves(h: Shift, n: nat, m: seq<(int, Ty5)>, t: Ty5)
    ensures Chase(n, Binds(h, m), Ty(h, t)) == match Chase(n, m, t) case None => None case Some(u) => Some(Ty(h, u))
  {
    hide Get, Binds;
    if t.V? {
      GetMoves(h, m, t.id);
      if Get(m, t.id).Some? && n > 0 { ChaseMoves(h, n - 1, m, Get(m, t.id).value); }
    }
  }

  // ---------- fields and rows ----------

  lemma {:induction false} FieldMoves(h: Shift, flds: Fields, lb: string)
    ensures HasField(Flds(h, flds), lb) == HasField(flds, lb)
    ensures FieldGet(Flds(h, flds), lb) == Ty(h, FieldGet(flds, lb))
    decreases |flds|
  {
    if flds != [] { FieldMoves(h, flds[1..], lb); }
  }

  lemma {:induction false} MergeMoves(h: Shift, a: Fields, b: Fields)
    ensures Merge(Flds(h, a), Flds(h, b)) == Flds(h, Merge(a, b))
    decreases |a|
  {
    hide Ty, HasField;
    if a != [] {
      FieldMoves(h, b, a[0].0);
      MergeMoves(h, a[1..], b);
      assert Flds(h, a)[1..] == Flds(h, a[1..]);
      if !HasField(b, a[0].0) { assert ([a[0]] + Merge(a[1..], b))[1..] == Merge(a[1..], b); }
    }
  }

  lemma {:induction false} SubOnlyMoves(h: Shift, a: Fields, b: Fields)
    ensures SubOnly(Flds(h, a), Flds(h, b)) == Flds(h, SubOnly(a, b))
    decreases |a|
  {
    hide Ty, HasField;
    if a != [] {
      FieldMoves(h, b, a[0].0);
      SubOnlyMoves(h, a[1..], b);
      assert Flds(h, a)[1..] == Flds(h, a[1..]);
      if !HasField(b, a[0].0) { assert ([a[0]] + SubOnly(a[1..], b))[1..] == SubOnly(a[1..], b); }
    }
  }

  lemma {:induction false} TysMove(h: Shift, flds: Fields)
    ensures FieldTys(Flds(h, flds)) == All(h, FieldTys(flds))
    decreases |flds|
  {
    hide Ty;
    if flds != [] {
      TysMove(h, flds[1..]);
      assert Flds(h, flds)[1..] == Flds(h, flds[1..]);
      assert ([flds[0].1] + FieldTys(flds[1..]))[1..] == FieldTys(flds[1..]);
    }
  }

  function Flat(h: Shift, r: Option<(Fields, Row)>): Option<(Fields, Row)> {
    match r case None => None case Some(p) => Some((Flds(h, p.0), Tail(h, p.1)))
  }

  lemma {:induction false} RowChaseMoves(h: Shift, n: nat, rs: seq<(int, RowC)>, tl: Row)
    ensures RowChase(n, Rows(h, rs), Tail(h, tl)) == Flat(h, RowChase(n, rs, tl))
  {
    hide Get, Rows, Merge, Ty;
    if tl.ROpen? {
      GetRowMoves(h, rs, tl.id);
      var r := Get(rs, tl.id);
      if r.Some? && n > 0 {
        RowChaseMoves(h, n - 1, rs, r.value.tail);
        var e := RowChase(n - 1, rs, r.value.tail);
        if e.Some? { MergeMoves(h, r.value.flds, e.value.0); }
      }
    }
  }

  lemma {:induction false} FlatMoves(h: Shift, n: nat, rs: seq<(int, RowC)>, flds: Fields, tl: Row)
    ensures FlatRec(n, Rows(h, rs), Flds(h, flds), Tail(h, tl)) == Flat(h, FlatRec(n, rs, flds, tl))
  {
    hide Rows, Merge, RowChase, Flds, Tail;
    RowChaseMoves(h, n, rs, tl);
    var e := RowChase(n, rs, tl);
    if e.Some? { MergeMoves(h, flds, e.value.0); }
  }

  // ---------- occurs checks ----------

  lemma {:induction false} OccursMoves(h: Shift, n: nat, v: int, t: Ty5, s: St)
    ensures Occurs(n, Var(h, v), Ty(h, t), State(h, s)) == Occurs(n, v, t, s)
    decreases n, 0
  {
    hide Chase, FlatRec, OccursAny, Binds, Rows, FieldTys, Flds, Tail;
    if n > 0 {
      ChaseMoves(h, n, s.subst, t);
      match Chase(n, s.subst, t)
      case None =>
      case Some(V(_)) =>
      case Some(C(_)) =>
      case Some(Ar(a, b)) => OccursAnyMoves(h, n - 1, v, [a, b], s); Two(h, a, b);
      case Some(Tup(ts)) => OccursAnyMoves(h, n - 1, v, ts, s);
      case Some(App(_, ts)) => OccursAnyMoves(h, n - 1, v, ts, s);
      case Some(Rec(flds, tl)) =>
        FlatMoves(h, n, s.rowsubst, flds, tl);
        var m := FlatRec(n, s.rowsubst, flds, tl);
        if m.Some? {
          TysMove(h, m.value.0);
          OccursAnyMoves(h, n - 1, v, FieldTys(m.value.0), s);
        }
    }
  }

  lemma {:induction false} Two(h: Shift, a: Ty5, b: Ty5)
    ensures All(h, [a, b]) == [Ty(h, a), Ty(h, b)]
  {
    hide Ty;
    assert [a, b][1..] == [b] && [b][1..] == [];
    assert All(h, [b]) == [Ty(h, b)] + All(h, []);
  }

  lemma {:induction false} Rest(h: Shift, ts: seq<Ty5>)
    requires ts != []
    ensures All(h, ts)[0] == Ty(h, ts[0]) && All(h, ts)[1..] == All(h, ts[1..])
  {
    hide Ty;
  }

  lemma {:induction false} OccursAnyMoves(h: Shift, n: nat, v: int, ts: seq<Ty5>, s: St)
    ensures OccursAny(n, Var(h, v), All(h, ts), State(h, s)) == OccursAny(n, v, ts, s)
    decreases n, 1, |ts|
  {
    hide Occurs, State, All;
    if ts == [] {
      assert All(h, ts) == [];
    } else {
      Rest(h, ts);
      OccursMoves(h, n, v, ts[0], s);
      OccursAnyMoves(h, n, v, ts[1..], s);
    }
  }

  lemma {:induction false} RowOccursMoves(h: Shift, n: nat, r: int, t: Ty5, s: St)
    ensures RowOccurs(n, RowId(h, r), Ty(h, t), State(h, s)) == RowOccurs(n, r, t, s)
    decreases n, 0
  {
    hide Chase, RowOccursAny, TailOccurs, Binds, Rows, FieldTys, Flds, Tail;
    if n > 0 {
      ChaseMoves(h, n, s.subst, t);
      match Chase(n, s.subst, t)
      case None =>
      case Some(V(_)) =>
      case Some(C(_)) =>
      case Some(Ar(a, b)) => RowOccursAnyMoves(h, n - 1, r, [a, b], s); Two(h, a, b);
      case Some(Tup(ts)) => RowOccursAnyMoves(h, n - 1, r, ts, s);
      case Some(App(_, ts)) => RowOccursAnyMoves(h, n - 1, r, ts, s);
      case Some(Rec(flds, tl)) =>
        TysMove(h, flds);
        RowOccursAnyMoves(h, n - 1, r, FieldTys(flds), s);
        TailOccursMoves(h, n - 1, r, tl, s);
    }
  }

  lemma {:induction false} RowOccursAnyMoves(h: Shift, n: nat, r: int, ts: seq<Ty5>, s: St)
    ensures RowOccursAny(n, RowId(h, r), All(h, ts), State(h, s)) == RowOccursAny(n, r, ts, s)
    decreases n, 1, |ts|
  {
    hide RowOccurs, State, All;
    if ts == [] {
      assert All(h, ts) == [];
    } else {
      Rest(h, ts);
      RowOccursMoves(h, n, r, ts[0], s);
      RowOccursAnyMoves(h, n, r, ts[1..], s);
    }
  }

  lemma {:induction false} TailOccursMoves(h: Shift, n: nat, r: int, tl: Row, s: St)
    ensures TailOccurs(n, RowId(h, r), Tail(h, tl), State(h, s)) == TailOccurs(n, r, tl, s)
    decreases n, 2
  {
    hide RowChase, RowOccursAny, Binds, Rows, FieldTys, Flds;
    RowChaseMoves(h, n, s.rowsubst, tl);
    var e := RowChase(n, s.rowsubst, tl);
    if e.Some? {
      TysMove(h, e.value.0);
      RowOccursAnyMoves(h, n, r, FieldTys(e.value.0), s);
    }
  }

  // ---------- unification ----------

  // Rows drawn later are all fresh ones.
  ghost predicate Rises(s: St, r: Option<Att>) { r.Some? ==> r.value.s.rowctr >= s.rowctr }

  ghost predicate Ready(h: Shift, s: St) { 0 <= h.row0 <= s.rowctr }

  lemma {:induction false} UnifyMoves(h: Shift, n: nat, a: Ty5, b: Ty5, s: St)
    requires Ready(h, s)
    ensures Unify(n, Ty(h, a), Ty(h, b), State(h, s)) == Attempt(h, Unify(n, a, b, s)) && Rises(s, Unify(n, a, b, s))
    decreases n, 0
  {
    hide Chase, BindVar, UnifyStruct, Binds, Rows, All, Flds, Tail;
    if n > 0 {
      ChaseMoves(h, n, s.subst, a);
      ChaseMoves(h, n, s.subst, b);
      var ta, tb := Chase(n, s.subst, a), Chase(n, s.subst, b);
      if ta.Some? && tb.Some? {
        if ta.value.V? {
          BindMoves(h, n, ta.value.id, tb.value, s);
        } else if tb.value.V? {
          BindMoves(h, n, tb.value.id, ta.value, s);
        } else {
          StructMoves(h, n - 1, ta.value, tb.value, s);
        }
      }
    }
  }

  lemma {:induction false} BindMoves(h: Shift, n: nat, v: int, t: Ty5, s: St)
    ensures BindVar(n, Var(h, v), Ty(h, t), State(h, s)) == Attempt(h, BindVar(n, v, t, s))
    ensures Rises(s, BindVar(n, v, t, s))
  {
    hide Occurs, Ty, Rows;
    OccursMoves(h, n, v, t, s);
    assert ([(v, t)] + s.subst)[1..] == s.subst;
  }

  lemma {:induction false} StructMoves(h: Shift, n: nat, ta: Ty5, tb: Ty5, s: St)
    requires Ready(h, s)
    ensures UnifyStruct(n, Ty(h, ta), Ty(h, tb), State(h, s)) == Attempt(h, UnifyStruct(n, ta, tb, s))
    ensures Rises(s, UnifyStruct(n, ta, tb, s))
    decreases n, 5
  {
    hide Unify, UnifyLists, UnifyRecs, State, All, Flds, Tail;
    match (ta, tb)
    case (C(_), C(_)) =>
    case (Ar(a1, a2), Ar(b1, b2)) =>
      UnifyMoves(h, n, a1, b1, s);
      var r := Unify(n, a1, b1, s);
      if r.Some? && r.value.ok { UnifyMoves(h, n, a2, b2, r.value.s); }
    case (Tup(xs), Tup(ys)) => ListsMove(h, n, xs, ys, s);
    case (App(_, xs), App(_, ys)) => ListsMove(h, n, xs, ys, s);
    case (Rec(f1, t1), Rec(f2, t2)) => RecsMove(h, n, f1, t1, f2, t2, s);
    case _ =>
  }

  lemma {:induction false} ListsMove(h: Shift, n: nat, xs: seq<Ty5>, ys: seq<Ty5>, s: St)
    requires Ready(h, s)
    ensures UnifyLists(n, All(h, xs), All(h, ys), State(h, s)) == Attempt(h, UnifyLists(n, xs, ys, s))
    ensures Rises(s, UnifyLists(n, xs, ys, s))
    decreases n, 1, |xs|
  {
    hide Unify, State, All;
    if xs == [] || ys == [] {
      assert All(h, xs) == All(h, ys) <==> xs == ys;
    } else {
      Rest(h, xs);
      Rest(h, ys);
      UnifyMoves(h, n, xs[0], ys[0], s);
      var r := Unify(n, xs[0], ys[0], s);
      if r.Some? && r.value.ok { ListsMove(h, n, xs[1..], ys[1..], r.value.s); }
    }
  }

  lemma {:induction false} RecsMove(h: Shift, n: nat, f1: Fields, t1: Row, f2: Fields, t2: Row, s: St)
    requires Ready(h, s)
    ensures UnifyRecs(n, Flds(h, f1), Tail(h, t1), Flds(h, f2), Tail(h, t2), State(h, s))
         == Attempt(h, UnifyRecs(n, f1, t1, f2, t2, s))
    ensures Rises(s, UnifyRecs(n, f1, t1, f2, t2, s))
    decreases n, 4
  {
    hide FlatRec, UnifyCommon, UnifyTails, SubOnly, Binds, Rows, Flds, Tail;
    FlatMoves(h, n, s.rowsubst, f1, t1);
    FlatMoves(h, n, s.rowsubst, f2, t2);
    var m1, m2 := FlatRec(n, s.rowsubst, f1, t1), FlatRec(n, s.rowsubst, f2, t2);
    if m1.Some? && m2.Some? {
      CommonMoves(h, n, m1.value.0, m2.value.0, s);
      var r := UnifyCommon(n, m1.value.0, m2.value.0, s);
      if r.Some? && r.value.ok {
        var s1 := r.value.s;
        FlatMoves(h, n, s1.rowsubst, f1, t1);
        FlatMoves(h, n, s1.rowsubst, f2, t2);
        var n1, n2 := FlatRec(n, s1.rowsubst, f1, t1), FlatRec(n, s1.rowsubst, f2, t2);
        if n1.Some? && n2.Some? {
          SubOnlyMoves(h, n1.value.0, n2.value.0);
          SubOnlyMoves(h, n2.value.0, n1.value.0);
          TailsMove(h, n, SubOnly(n1.value.0, n2.value.0), SubOnly(n2.value.0, n1.value.0), n1.value.1, n2.value.1, s1);
        }
      }
    }
  }

  lemma {:induction false} CommonMoves(h: Shift, n: nat, m1: Fields, m2: Fields, s: St)
    requires Ready(h, s)
    ensures UnifyCommon(n, Flds(h, m1), Flds(h, m2), State(h, s)) == Attempt(h, UnifyCommon(n, m1, m2, s))
    ensures Rises(s, UnifyCommon(n, m1, m2, s))
    decreases n, 1, |m1|
  {
    hide Unify, Binds, Rows, HasField, FieldGet, Ty;
    if m1 != [] {
      var f := m1[0];
      assert Flds(h, m1)[0] == (f.0, Ty(h, f.1)) && Flds(h, m1)[1..] == Flds(h, m1[1..]);
      FieldMoves(h, m2, f.0);
      if HasField(m2, f.0) {
        var s0 := s.(ectx := s.ectx + "in record field `" + f.0 + "`: ");
        UnifyMoves(h, n, f.1, FieldGet(m2, f.0), s0);
        var r := Unify(n, f.1, FieldGet(m2, f.0), s0);
        if r.Some? && r.value.ok { CommonMoves(h, n, m1[1..], m2, r.value.s.(ectx := s.ectx)); }
      } else {
        CommonMoves(h, n, m1[1..], m2, s);
      }
    }
  }

  lemma {:induction false} TailsMove(h: Shift, n: nat, o1: Fields, o2: Fields, u1: Row, u2: Row, s: St)
    requires Ready(h, s)
    ensures UnifyTails(n, Flds(h, o1), Flds(h, o2), Tail(h, u1), Tail(h, u2), State(h, s))
         == Attempt(h, UnifyTails(n, o1, o2, u1, u2, s))
    ensures Rises(s, UnifyTails(n, o1, o2, u1, u2, s))
    decreases n, 3
  {
    hide BindRow, UnifyOpen, State, Flds;
    match (u1, u2)
    case (RClosed, RClosed) =>
    case (RClosed, ROpen(r2)) => RowMoves(h, n, r2, o1, RClosed, s);
    case (ROpen(r1), RClosed) => RowMoves(h, n, r1, o2, RClosed, s);
    case (ROpen(r1), ROpen(r2)) => OpenMoves(h, n, o1, o2, r1, r2, s);
  }

  lemma {:induction false} OpenMoves(h: Shift, n: nat, o1: Fields, o2: Fields, r1: int, r2: int, s: St)
    requires Ready(h, s)
    ensures UnifyOpen(n, Flds(h, o1), Flds(h, o2), RowId(h, r1), RowId(h, r2), State(h, s))
         == Attempt(h, UnifyOpen(n, o1, o2, r1, r2, s))
    ensures Rises(s, UnifyOpen(n, o1, o2, r1, r2, s))
    decreases n, 2
  {
    hide BindRow, RowOccursAny, State, Flds, FieldTys;
    if r1 == r2 {
    } else if r1 < 0 {
      if r2 >= 0 { RowMoves(h, n, r2, o1, ROpen(r1), s); }
    } else if r2 < 0 {
      RowMoves(h, n, r1, o2, ROpen(r2), s);
    } else {
      TysMove(h, o1);
      TysMove(h, o2);
      RowOccursAnyMoves(h, n, r1, FieldTys(o2), s);
      RowOccursAnyMoves(h, n, r2, FieldTys(o1), s);
      var r3, s1 := s.rowctr, s.(rowctr := s.rowctr + 1);
      DrawMoves(h, s);
      RowMoves(h, n, r1, o2, ROpen(r3), s1);
      var r := BindRow(n, r1, o2, ROpen(r3), s1);
      if r.Some? && r.value.ok { RowMoves(h, n, r2, o1, ROpen(r3), r.value.s); }
    }
  }

  lemma {:induction false} DrawMoves(h: Shift, s: St)
    requires Ready(h, s)
    ensures State(h, s).rowctr == RowId(h, s.rowctr)
    ensures State(h, s.(rowctr := s.rowctr + 1)) == State(h, s).(rowctr := State(h, s).rowctr + 1)
  {
  }

  lemma {:induction false} RowMoves(h: Shift, n: nat, r: int, flds: Fields, tl: Row, s: St)
    requires Ready(h, s)
    ensures BindRow(n, RowId(h, r), Flds(h, flds), Tail(h, tl), State(h, s)) == Attempt(h, BindRow(n, r, flds, tl, s))
    ensures Rises(s, BindRow(n, r, flds, tl, s))
    decreases n, 1
  {
    hide Unify, RowOccursAny, TailOccurs, FieldTys, Flds, Tail, Binds;
    TysMove(h, flds);
    RowOccursAnyMoves(h, n, r, FieldTys(flds), s);
    TailOccursMoves(h, n, r, tl, s);
    GetRowMoves(h, s.rowsubst, r);
    match Get(s.rowsubst, r)
    case Some(row) => UnifyMoves(h, n, Rec(row.flds, row.tail), Rec(flds, tl), s);
    case None => assert ([(r, RowC(flds, tl))] + s.rowsubst)[1..] == s.rowsubst;
  }

  // ---------- reading a type ----------

  lemma {:induction false} RelabelMoves(h: Shift, flds: Fields, ts: seq<Ty5>)
    ensures Relabel(Flds(h, flds), All(h, ts)) == Flds(h, Relabel(flds, ts))
    decreases |flds|
  {
    hide Ty;
    if flds != [] && ts != [] {
      Rest(h, ts);
      RelabelMoves(h, flds[1..], ts[1..]);
      assert Flds(h, flds)[1..] == Flds(h, flds[1..]);
      assert ([(flds[0].0, ts[0])] + Relabel(flds[1..], ts[1..]))[1..] == Relabel(flds[1..], ts[1..]);
    }
  }

  function OptTy(h: Shift, r: Option<Ty5>): Option<Ty5> { match r case None => None case Some(t) => Some(Ty(h, t)) }
  function OptTys(h: Shift, r: Option<seq<Ty5>>): Option<seq<Ty5>> {
    match r case None => None case Some(ts) => Some(All(h, ts))
  }

  lemma {:induction false} ApplyMoves(h: Shift, n: nat, t: Ty5, s: St)
    ensures Apply(n, Ty(h, t), State(h, s)) == OptTy(h, Apply(n, t, s))
    decreases n, 0
  {
    hide Chase, FlatRec, ApplyAll, Binds, Rows, FieldTys, Flds, All, Tail, Relabel;
    if n > 0 {
      ChaseMoves(h, n, s.subst, t);
      match Chase(n, s.subst, t)
      case None =>
      case Some(V(_)) =>
      case Some(C(_)) =>
      case Some(Ar(a, b)) => ApplyMoves(h, n - 1, a, s); ApplyMoves(h, n - 1, b, s);
      case Some(Tup(ts)) => ApplyAllMoves(h, n - 1, ts, s);
      case Some(App(_, ts)) => ApplyAllMoves(h, n - 1, ts, s);
      case Some(Rec(flds, tl)) =>
        FlatMoves(h, n, s.rowsubst, flds, tl);
        var m := FlatRec(n, s.rowsubst, flds, tl);
        if m.Some? {
          TysMove(h, m.value.0);
          ApplyAllMoves(h, n - 1, FieldTys(m.value.0), s);
          var us := ApplyAll(n - 1, FieldTys(m.value.0), s);
          if us.Some? { RelabelMoves(h, m.value.0, us.value); }
        }
    }
  }

  lemma {:induction false} ApplyAllMoves(h: Shift, n: nat, ts: seq<Ty5>, s: St)
    ensures ApplyAll(n, All(h, ts), State(h, s)) == OptTys(h, ApplyAll(n, ts, s))
    decreases n, 1, |ts|
  {
    hide Apply, State, All;
    if ts == [] {
      NoTypes(h);
    } else {
      Rest(h, ts);
      ApplyMoves(h, n, ts[0], s);
      ApplyAllMoves(h, n, ts[1..], s);
      var u, us := Apply(n, ts[0], s), ApplyAll(n, ts[1..], s);
      if u.Some? && us.Some? { Snoc(h, u.value, us.value); }
    }
  }

  lemma {:induction false} NoTypes(h: Shift)
    ensures All(h, []) == []
  {
  }

  lemma {:induction false} Snoc(h: Shift, t: Ty5, ts: seq<Ty5>)
    ensures All(h, [t] + ts) == [Ty(h, t)] + All(h, ts)
  {
    hide Ty;
    assert ([t] + ts)[1..] == ts;
  }

  function VarSet(h: Shift, xs: set<int>): set<int> { set x | x in xs :: Var(h, x) }

  function OptSet(h: Shift, r: Option<set<int>>): Option<set<int>> {
    match r case None => None case Some(xs) => Some(VarSet(h, xs))
  }

  lemma {:induction false} FreeMoves(h: Shift, n: nat, t: Ty5, s: St)
    ensures FreeVars(n, Ty(h, t), State(h, s)) == OptSet(h, FreeVars(n, t, s))
    decreases n, 0
  {
    hide Chase, FlatRec, FreeAll, Binds, Rows, FieldTys, Flds, All, Tail, VarSet;
    if n > 0 {
      ChaseMoves(h, n, s.subst, t);
      match Chase(n, s.subst, t)
      case None =>
      case Some(V(x)) => OneVar(h, x);
      case Some(C(_)) => NoVars(h);
      case Some(Ar(a, b)) => FreeAllMoves(h, n - 1, [a, b], s); Two(h, a, b);
      case Some(Tup(ts)) => FreeAllMoves(h, n - 1, ts, s);
      case Some(App(_, ts)) => FreeAllMoves(h, n - 1, ts, s);
      case Some(Rec(flds, tl)) =>
        FlatMoves(h, n, s.rowsubst, flds, tl);
        var m := FlatRec(n, s.rowsubst, flds, tl);
        if m.Some? {
          TysMove(h, m.value.0);
          FreeAllMoves(h, n - 1, FieldTys(m.value.0), s);
        }
    }
  }

  lemma {:induction false} FreeAllMoves(h: Shift, n: nat, ts: seq<Ty5>, s: St)
    ensures FreeAll(n, All(h, ts), State(h, s)) == OptSet(h, FreeAll(n, ts, s))
    decreases n, 1, |ts|
  {
    hide FreeVars, State, All, VarSet;
    if ts == [] {
      NoTypes(h);
      NoVars(h);
    } else {
      Rest(h, ts);
      FreeMoves(h, n, ts[0], s);
      FreeAllMoves(h, n, ts[1..], s);
      var xs, ys := FreeVars(n, ts[0], s), FreeAll(n, ts[1..], s);
      if xs.Some? && ys.Some? { VarUnion(h, xs.value, ys.value); }
    }
  }

  lemma {:induction false} NoVars(h: Shift)
    ensures VarSet(h, {}) == {}
  {
  }

  lemma {:induction false} OneVar(h: Shift, x: int)
    ensures VarSet(h, {x}) == {Var(h, x)}
  {
    assert forall y :: y in VarSet(h, {x}) <==> y == Var(h, x);
  }

  lemma {:induction false} VarUnion(h: Shift, xs: set<int>, ys: set<int>)
    ensures VarSet(h, xs + ys) == VarSet(h, xs) + VarSet(h, ys)
  {
  }

  lemma {:induction false} HolesMove(h: Shift, xs: set<int>, holes: seq<int>)
    ensures (exists v :: v in VarSet(h, xs) && v in Vars(h, holes)) <==> (exists v :: v in xs && v in holes)
  {
    forall v ensures Var(h, v) in Vars(h, holes) <==> v in holes { VarIn(h, v, holes); }
    if v :| v in xs && v in holes { assert Var(h, v) in VarSet(h, xs) && Var(h, v) in Vars(h, holes); }
    if w :| w in VarSet(h, xs) && w in Vars(h, holes) {
      var v :| v in xs && w == Var(h, v);
      assert v in holes;
    }
  }

  lemma {:induction false} VarIn(h: Shift, v: int, holes: seq<int>)
    ensures Var(h, v) in Vars(h, holes) <==> v in holes
  {
    if holes != [] { VarIn(h, v, holes[1..]); }
  }

  // ---------- instances ----------

  // mp1 renames the moved variables as mp renames the variables.
  ghost predicate Renames(h: Shift, mp: seq<(int, int)>, mp1: seq<(int, int)>, rmp: seq<(int, int)>,
                          rmp1: seq<(int, int)>) {
    && (forall x {:trigger FindInt(mp, x)} :: FindInt(mp1, Var(h, x)) == Var(h, FindInt(mp, x)))
    && (forall x {:trigger FindInt(rmp, x)} :: FindInt(rmp1, RowId(h, x)) == RowId(h, FindInt(rmp, x)))
  }

  lemma {:induction false} RewriteMoves(h: Shift, n: nat, t: Ty5, mp: seq<(int, int)>, mp1: seq<(int, int)>,
                                        rmp: seq<(int, int)>, rmp1: seq<(int, int)>, s: St)
    requires Renames(h, mp, mp1, rmp, rmp1)
    ensures Rewrite(n, Ty(h, t), mp1, rmp1, State(h, s)) == OptTy(h, Rewrite(n, t, mp, rmp, s))
    decreases n, 0
  {
    hide Chase, FlatRec, RewriteAll, Binds, Rows, FieldTys, Flds, All, Relabel;
    if n > 0 {
      ChaseMoves(h, n, s.subst, t);
      match Chase(n, s.subst, t)
      case None =>
      case Some(V(x)) => assert FindInt(mp1, Var(h, x)) == Var(h, FindInt(mp, x));
      case Some(C(_)) =>
      case Some(Ar(a, b)) =>
        RewriteMoves(h, n - 1, a, mp, mp1, rmp, rmp1, s);
        RewriteMoves(h, n - 1, b, mp, mp1, rmp, rmp1, s);
      case Some(Tup(ts)) => RewriteAllMoves(h, n - 1, ts, mp, mp1, rmp, rmp1, s);
      case Some(App(_, ts)) => RewriteAllMoves(h, n - 1, ts, mp, mp1, rmp, rmp1, s);
      case Some(Rec(flds, tl)) =>
        FlatMoves(h, n, s.rowsubst, flds, tl);
        var m := FlatRec(n, s.rowsubst, flds, tl);
        if m.Some? {
          TysMove(h, m.value.0);
          RewriteAllMoves(h, n - 1, FieldTys(m.value.0), mp, mp1, rmp, rmp1, s);
          var us := RewriteAll(n - 1, FieldTys(m.value.0), mp, rmp, s);
          if us.Some? { RelabelMoves(h, m.value.0, us.value); }
        }
    }
  }

  lemma {:induction false} RewriteAllMoves(h: Shift, n: nat, ts: seq<Ty5>, mp: seq<(int, int)>, mp1: seq<(int, int)>,
                                           rmp: seq<(int, int)>, rmp1: seq<(int, int)>, s: St)
    requires Renames(h, mp, mp1, rmp, rmp1)
    ensures RewriteAll(n, All(h, ts), mp1, rmp1, State(h, s)) == OptTys(h, RewriteAll(n, ts, mp, rmp, s))
    decreases n, 1, |ts|
  {
    hide Rewrite, State, All, Renames;
    if ts == [] {
      NoTypes(h);
    } else {
      Rest(h, ts);
      RewriteMoves(h, n, ts[0], mp, mp1, rmp, rmp1, s);
      RewriteAllMoves(h, n, ts[1..], mp, mp1, rmp, rmp1, s);
      var u, us := Rewrite(n, ts[0], mp, rmp, s), RewriteAll(n, ts[1..], mp, rmp, s);
      if u.Some? && us.Some? { Snoc(h, u.value, us.value); }
    }
  }

  lemma {:induction false} GetFirst(k: int, v: int, m: seq<(int, int)>, x: int)
    ensures Get([(k, v)] + m, x) == if k == x then Some(v) else Get(m, x)
  {
  }

  // Fresh numbers from c on; the quantified ones are older.
  lemma {:induction false} ZipGets(qs: seq<int>, c: int, d: nat, x: int)
    ensures Get(ZipIds(qs, c), x).Some? <==> x in qs
    ensures Get(ZipIds(qs, c + d), x) == match Get(ZipIds(qs, c), x) case None => None case Some(v) => Some(v + d)
    ensures Get(ZipIds(qs, c), x).Some? ==> The(Get(ZipIds(qs, c), x)) >= c
  {
    if qs != [] {
      hide Get;
      assert ZipIds(qs, c) == [(qs[0], c)] + ZipIds(qs[1..], c + 1);
      assert ZipIds(qs, c + d) == [(qs[0], c + d)] + ZipIds(qs[1..], c + 1 + d);
      ZipGets(qs[1..], c + 1, d, x);
      GetFirst(qs[0], c, ZipIds(qs[1..], c + 1), x);
      GetFirst(qs[0], c + d, ZipIds(qs[1..], c + 1 + d), x);
    }
  }

  // ---------- a state seen from larger counters ----------

  // Everything in use is older than the counters.
  predicate TyOld(t: Ty5, v: int, r: int)
    decreases t
  {
    match t
    case V(x) => x < v
    case C(_) => true
    case Ar(a, b) => TyOld(a, v, r) && TyOld(b, v, r)
    case Tup(ts) => AllOld(ts, v, r)
    case App(_, ts) => AllOld(ts, v, r)
    case Rec(flds, tl) => FldsOld(flds, v, r) && (tl.ROpen? ==> tl.id < r)
  }

  predicate AllOld(ts: seq<Ty5>, v: int, r: int)
    decreases ts
  {
    ts == [] || (TyOld(ts[0], v, r) && AllOld(ts[1..], v, r))
  }

  predicate FldsOld(flds: Fields, v: int, r: int)
    decreases flds
  {
    flds == [] || (var f := flds[0]; assert flds decreases to f; TyOld(f.1, v, r) && FldsOld(flds[1..], v, r))
  }

  predicate BindsOld(m: seq<(int, Ty5)>, v: int, r: int) {
    m == [] || (m[0].0 < v && TyOld(m[0].1, v, r) && BindsOld(m[1..], v, r))
  }

  predicate RowsOld(m: seq<(int, RowC)>, v: int, r: int) {
    m == [] || (m[0].0 < r && FldsOld(m[0].1.flds, v, r) && (m[0].1.tail.ROpen? ==> m[0].1.tail.id < r)
        && RowsOld(m[1..], v, r))
  }

  predicate StateOld(s: St) {
    && s.rowctr >= 0 && BindsOld(s.subst, s.ctr, s.rowctr) && RowsOld(s.rowsubst, s.ctr, s.rowctr)
    && forall i :: 0 <= i < |s.holevars| ==> s.holevars[i] < s.ctr
  }

  predicate SchOld(sch: Sch5, v: int, r: int) {
    && TyOld(sch.ty, v, r) && (forall i :: 0 <= i < |sch.qvars| ==> sch.qvars[i] < v)
    && (forall i :: 0 <= i < |sch.qrows| ==> sch.qrows[i] < r)
  }

  lemma {:induction false} TyStays(h: Shift, t: Ty5)
    requires TyOld(t, h.var0, h.row0)
    ensures Ty(h, t) == t
    decreases t
  {
    match t
    case V(_) =>
    case C(_) =>
    case Ar(a, b) => TyStays(h, a); TyStays(h, b);
    case Tup(ts) => AllStay(h, ts);
    case App(_, ts) => AllStay(h, ts);
    case Rec(flds, _) => FldsStay(h, flds);
  }

  lemma {:induction false} AllStay(h: Shift, ts: seq<Ty5>)
    requires AllOld(ts, h.var0, h.row0)
    ensures All(h, ts) == ts
    decreases ts
  {
    if ts != [] { TyStays(h, ts[0]); AllStay(h, ts[1..]); }
  }

  lemma {:induction false} FldsStay(h: Shift, flds: Fields)
    requires FldsOld(flds, h.var0, h.row0)
    ensures Flds(h, flds) == flds
    decreases flds
  {
    if flds != [] {
      var f := flds[0];
      assert flds decreases to f;
      TyStays(h, f.1);
      FldsStay(h, flds[1..]);
    }
  }

  lemma {:induction false} BindsStay(h: Shift, m: seq<(int, Ty5)>)
    requires BindsOld(m, h.var0, h.row0)
    ensures Binds(h, m) == m
  {
    hide Ty, TyOld;
    if m != [] { TyStays(h, m[0].1); BindsStay(h, m[1..]); }
  }

  lemma {:induction false} RowsStay(h: Shift, m: seq<(int, RowC)>)
    requires RowsOld(m, h.var0, h.row0)
    ensures Rows(h, m) == m
  {
    hide Flds, FldsOld;
    if m != [] { FldsStay(h, m[0].1.flds); RowsStay(h, m[1..]); }
  }

  lemma {:induction false} VarsStay(h: Shift, xs: seq<int>)
    requires forall i :: 0 <= i < |xs| ==> xs[i] < h.var0
    ensures Vars(h, xs) == xs
  {
    if xs != [] { VarsStay(h, xs[1..]); }
  }

  function Above(s: St, dv: nat, dr: nat): Shift { Shift(s.ctr, dv, s.rowctr, dr) }

  lemma {:induction false} StateStays(s: St, dv: nat, dr: nat)
    requires StateOld(s)
    ensures State(Above(s, dv, dr), s) == s.(ctr := s.ctr + dv, rowctr := s.rowctr + dr)
  {
    var h := Above(s, dv, dr);
    BindsStay(h, s.subst);
    RowsStay(h, s.rowsubst);
    VarsStay(h, s.holevars);
  }

  lemma {:induction false} InstMoves(n: nat, sch: Sch5, s: St, dv: nat, dr: nat)
    requires StateOld(s) && SchOld(sch, s.ctr, s.rowctr)
    ensures Instantiate(n, sch, s.(ctr := s.ctr + dv, rowctr := s.rowctr + dr))
         == match Instantiate(n, sch, s)
            case None => None
            case Some(i) => Some(Inst(State(Above(s, dv, dr), i.s), Ty(Above(s, dv, dr), i.ty)))
  {
    hide Rewrite, Ty, TyOld, BindsOld, RowsOld, Binds, Rows, Vars;
    var h := Above(s, dv, dr);
    StateStays(s, dv, dr);
    TyStays(h, sch.ty);
    var mp, rmp := ZipIds(sch.qvars, s.ctr), ZipIds(sch.qrows, s.rowctr);
    var mp1, rmp1 := ZipIds(sch.qvars, s.ctr + dv), ZipIds(sch.qrows, s.rowctr + dr);
    RenamesFresh(sch, s, dv, dr);
    var s1 := s.(ctr := s.ctr + |sch.qvars|, rowctr := s.rowctr + |sch.qrows|);
    RewriteMoves(h, n, sch.ty, mp, mp1, rmp, rmp1, s1);
  }

  lemma {:induction false} RenamesFresh(sch: Sch5, s: St, dv: nat, dr: nat)
    requires SchOld(sch, s.ctr, s.rowctr)
    ensures Renames(Above(s, dv, dr), ZipIds(sch.qvars, s.ctr), ZipIds(sch.qvars, s.ctr + dv),
                    ZipIds(sch.qrows, s.rowctr), ZipIds(sch.qrows, s.rowctr + dr))
  {
    hide Get, ZipIds, TyOld;
    var h := Above(s, dv, dr);
    forall x ensures FindInt(ZipIds(sch.qvars, s.ctr + dv), Var(h, x)) == Var(h, FindInt(ZipIds(sch.qvars, s.ctr), x)) {
      ZipGets(sch.qvars, s.ctr, dv, x);
      ZipGets(sch.qvars, s.ctr, dv, Var(h, x));
    }
    forall x
      ensures FindInt(ZipIds(sch.qrows, s.rowctr + dr), RowId(h, x))
          == RowId(h, FindInt(ZipIds(sch.qrows, s.rowctr), x))
    {
      ZipGets(sch.qrows, s.rowctr, dr, x);
      ZipGets(sch.qrows, s.rowctr, dr, RowId(h, x));
    }
  }

  // ---------- verdicts ----------

  function Judged(h: Shift, v: Option<Verdict>): Option<Verdict> {
    match v case None => None case Some(u) => Some(Verdict(u.fits, Ty(h, u.ty), u.ctr + h.dv, u.rowctr + h.dr))
  }

  // Whatever the counters have reached, an entry fits if it fits from the
  // start, at the same type up to the numbers of its fresh variables and rows.
  lemma {:induction false} FitsAnywhere(n: nat, sch: Sch5, hty: Ty5, s: St, dv: nat, dr: nat)
    requires StateOld(s) && SchOld(sch, s.ctr, s.rowctr) && TyOld(hty, s.ctr, s.rowctr)
    ensures Fits(n, sch, hty, s.(ctr := s.ctr + dv, rowctr := s.rowctr + dr))
        == Judged(Above(s, dv, dr), Fits(n, sch, hty, s))
  {
    hide Unify, FreeVars, Apply, Rewrite, Ty, StateOld, SchOld, TyOld, ZipIds, Binds, Rows, Vars, VarSet;
    var h := Above(s, dv, dr);
    InstMoves(n, sch, s, dv, dr);
    TyStays(h, hty);
    var i := Instantiate(n, sch, s);
    if i.Some? {
      var s1 := i.value.s;
      assert s.rowctr >= 0 by { OldRows(s); }
      FreeMoves(h, n, i.value.ty, s1);
      var fv := FreeVars(n, i.value.ty, s1);
      if fv.Some? {
        HolesMove(h, fv.value, s1.holevars);
        UnifyMoves(h, n, i.value.ty, hty, s1);
        var r := Unify(n, i.value.ty, hty, s1);
        if r.Some? { ApplyMoves(h, n, i.value.ty, r.value.s); }
      }
    }
  }

  lemma {:induction false} OldRows(s: St)
    requires StateOld(s)
    ensures s.rowctr >= 0
  {
  }

  predicate EnvOld(env: seq<Entry>, v: int, r: int) { env == [] || (SchOld(env[0].1, v, r) && EnvOld(env[1..], v, r)) }

  // The candidates when every entry is tried alone in the starting state.
  function Alone(n: nat, env: seq<Entry>, hty: Ty5, s: St, seen: set<string>): Option<seq<Cand>>
    decreases |env|
  {
    if env == [] then Some([])
    else
      var (nm, sch) := env[0];
      if nm in seen then Alone(n, env[1..], hty, s, seen)
      else if sch.poisoned then Alone(n, env[1..], hty, s, seen + {nm})
      else
        var v :- Fits(n, sch, hty, s);
        var rest :- Alone(n, env[1..], hty, s, seen + {nm});
        Some((if v.fits then [Cand(nm, sch, v.ty)] else []) + rest)
  }

  // The same candidates in order, their types up to fresh numbers.
  ghost predicate Same(s: St, cs: seq<Cand>, ds: seq<Cand>) {
    |cs| == |ds| && forall i :: 0 <= i < |cs| ==> SameCand(s, cs[i], ds[i])
  }

  ghost predicate SameCand(s: St, c: Cand, d: Cand) {
    c.name == d.name && c.sch == d.sch && exists dv: nat, dr: nat :: c.ty == Ty(Above(s, dv, dr), d.ty)
  }

  // What a search finds is what fits alone, whatever was tried before.
  lemma {:induction false} CandsAlone(n: nat, env: seq<Entry>, hty: Ty5, s: St, dv: nat, dr: nat, seen: set<string>)
    requires StateOld(s) && EnvOld(env, s.ctr, s.rowctr) && TyOld(hty, s.ctr, s.rowctr)
    ensures var a, b := HoleCands(n, env, hty, s.(ctr := s.ctr + dv, rowctr := s.rowctr + dr), seen),
        Alone(n, env, hty, s, seen);
            (a.Some? <==> b.Some?) && (a.Some? ==> Same(s, a.value.cands, b.value))
    decreases |env|
  {
    hide Try, Fits, StateOld, SchOld, TyOld, SameCand, Ty;
    if env != [] {
      var (nm, sch) := env[0];
      if nm in seen {
        CandsAlone(n, env[1..], hty, s, dv, dr, seen);
      } else if sch.poisoned {
        CandsAlone(n, env[1..], hty, s, dv, dr, seen + {nm});
      } else {
        var s0 := s.(ctr := s.ctr + dv, rowctr := s.rowctr + dr);
        TryIsFits(n, sch, hty, s0);
        FitsAnywhere(n, sch, hty, s, dv, dr);
        var v := Fits(n, sch, hty, s);
        if v.Some? {
          FitsRises(n, sch, hty, s);
          CandsAlone(n, env[1..], hty, s, v.value.ctr + dv - s.ctr, v.value.rowctr + dr - s.rowctr, seen + {nm});
          SameHere(s, nm, sch, v.value.ty, dv, dr);
        }
      }
    }
  }

  lemma {:induction false} SameHere(s: St, nm: string, sch: Sch5, t: Ty5, dv: nat, dr: nat)
    ensures SameCand(s, Cand(nm, sch, Ty(Above(s, dv, dr), t)), Cand(nm, sch, t))
  {
  }

  lemma {:induction false} FitsRises(n: nat, sch: Sch5, hty: Ty5, s: St)
    requires Fits(n, sch, hty, s).Some?
    ensures var v := The(Fits(n, sch, hty, s)); v.ctr >= s.ctr && v.rowctr >= s.rowctr
  {
    hide Unify, FreeVars, Apply, Rewrite, ZipIds;
    var i := Instantiate(n, sch, s).value;
    UnifyTidy(n, i.ty, hty, i.s);
  }
}

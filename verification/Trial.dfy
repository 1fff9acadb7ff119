// Unification by trial in gen5/g5_infer.dc: the substitution, the row
// substitution and the hole variables are histories, newest entry first; a
// trial is undone by dropping what it prepended. n bounds the recursion, which
// in the source may fail to end on cyclic rows; None is a run cut short.
module Trial {
  import opened Types

  datatype Row = RClosed | ROpen(id: int)
  datatype Ty5 =
    | V(id: int)
    | C(name: string)
    | Ar(a: Ty5, b: Ty5)
    | Tup(ts: seq<Ty5>)
    | App(name: string, ts: seq<Ty5>)
    | Rec(flds: Fields, tail: Row)

  type Fields = seq<(string, Ty5)>
  datatype RowC = RowC(flds: Fields, tail: Row)
  datatype Sch5 = Sch5(qvars: seq<int>, qrows: seq<int>, ty: Ty5, poisoned: bool)

  // The six of TIS5's fields that unification and rollback read or write.
  datatype St = St(subst: seq<(int, Ty5)>, rowsubst: seq<(int, RowC)>, holevars: seq<int>, ctr: int, rowctr: int,
      ectx: string)

  // ---------- lookup and chasing ----------

  function Get<T>(m: seq<(int, T)>, k: int): Option<T> {
    if m == [] then None else if m[0].0 == k then Some(m[0].1) else Get(m[1..], k)
  }

  predicate Has<T>(m: seq<(int, T)>, k: int) { Get(m, k).Some? }

  // g5_chase with g5_walk_full.
  function Chase(n: nat, s: seq<(int, Ty5)>, t: Ty5): Option<Ty5> {
    if !t.V? then Some(t)
    else match Get(s, t.id)
      case None => Some(t)
      case Some(u) => if n == 0 then None else Chase(n - 1, s, u)
  }

  predicate HasField(flds: Fields, lb: string) { flds != [] && (flds[0].0 == lb || HasField(flds[1..], lb)) }

  function FieldGet(flds: Fields, lb: string): Ty5 {
    if flds == [] then C("@missing") else if flds[0].0 == lb then flds[0].1 else FieldGet(flds[1..], lb)
  }

  function Merge(a: Fields, b: Fields): Fields {
    if a == [] then b else if HasField(b, a[0].0) then Merge(a[1..], b) else [a[0]] + Merge(a[1..], b)
  }

  // Fields of a that b lacks.
  function SubOnly(a: Fields, b: Fields): Fields {
    if a == [] then [] else if HasField(b, a[0].0) then SubOnly(a[1..], b) else [a[0]] + SubOnly(a[1..], b)
  }

  function RowChase(n: nat, rs: seq<(int, RowC)>, tl: Row): Option<(Fields, Row)> {
    match tl
    case RClosed => Some(([], RClosed))
    case ROpen(id) =>
      match Get(rs, id)
      case None => Some(([], tl))
      case Some(r) =>
        if n == 0 then None
        else
          var (ef, ft) :- RowChase(n - 1, rs, r.tail);
          Some((Merge(r.flds, ef), ft))
  }

  function FlatRec(n: nat, rs: seq<(int, RowC)>, flds: Fields, tl: Row): Option<(Fields, Row)> {
    var (ef, ft) :- RowChase(n, rs, tl);
    Some((Merge(flds, ef), ft))
  }

  function FieldTys(flds: Fields): seq<Ty5> { if flds == [] then [] else [flds[0].1] + FieldTys(flds[1..]) }

  // g5_occurs.
  function Occurs(n: nat, v: int, t: Ty5, s: St): Option<bool>
    decreases n, 0
  {
    if n == 0 then None
    else
      var u :- Chase(n, s.subst, t);
      match u
      case V(x) => Some(x == v)
      case C(_) => Some(false)
      case Ar(a, b) => OccursAny(n - 1, v, [a, b], s)
      case Tup(ts) => OccursAny(n - 1, v, ts, s)
      case App(_, ts) => OccursAny(n - 1, v, ts, s)
      case Rec(flds, tl) =>
        var (m, _) :- FlatRec(n, s.rowsubst, flds, tl);
        OccursAny(n - 1, v, FieldTys(m), s)
  }

  function OccursAny(n: nat, v: int, ts: seq<Ty5>, s: St): Option<bool>
    decreases n, 1, |ts|
  {
    if ts == [] then Some(false)
    else
      var here :- Occurs(n, v, ts[0], s);
      if here then Some(true) else OccursAny(n, v, ts[1..], s)
  }

  // g5_row_occurs: a record's own fields, then its tail.
  function RowOccurs(n: nat, r: int, t: Ty5, s: St): Option<bool>
    decreases n, 0
  {
    if n == 0 then None
    else
      var u :- Chase(n, s.subst, t);
      match u
      case V(_) => Some(false)
      case C(_) => Some(false)
      case Ar(a, b) => RowOccursAny(n - 1, r, [a, b], s)
      case Tup(ts) => RowOccursAny(n - 1, r, ts, s)
      case App(_, ts) => RowOccursAny(n - 1, r, ts, s)
      case Rec(flds, tl) =>
        var here :- RowOccursAny(n - 1, r, FieldTys(flds), s);
        if here then Some(true) else TailOccurs(n - 1, r, tl, s)
  }

  function RowOccursAny(n: nat, r: int, ts: seq<Ty5>, s: St): Option<bool>
    decreases n, 1, |ts|
  {
    if ts == [] then Some(false)
    else
      var here :- RowOccurs(n, r, ts[0], s);
      if here then Some(true) else RowOccursAny(n, r, ts[1..], s)
  }

  function TailOccurs(n: nat, r: int, tl: Row, s: St): Option<bool>
    decreases n, 2
  {
    var (ef, ft) :- RowChase(n, s.rowsubst, tl);
    var here :- RowOccursAny(n, r, FieldTys(ef), s);
    Some(here || ft == ROpen(r))
  }

  // ---------- unification ----------

  // The state after an attempt and whether it succeeded; the source's error
  // text is empty exactly on success.
  datatype Att = Att(s: St, ok: bool)

  function Unify(n: nat, a: Ty5, b: Ty5, s: St): Option<Att>
    decreases n, 0
  {
    if n == 0 then None
    else
      var ta :- Chase(n, s.subst, a);
      var tb :- Chase(n, s.subst, b);
      if ta.V? then if ta == tb then Some(Att(s, true)) else BindVar(n, ta.id, tb, s)
      else if tb.V? then BindVar(n, tb.id, ta, s)
      else UnifyStruct(n - 1, ta, tb, s)
  }

  function BindVar(n: nat, v: int, t: Ty5, s: St): Option<Att> {
    var o :- Occurs(n, v, t, s);
    Some(if o then Att(s, false) else Att(s.(subst := [(v, t)] + s.subst), true))
  }

  function UnifyStruct(n: nat, ta: Ty5, tb: Ty5, s: St): Option<Att>
    decreases n, 5
  {
    match (ta, tb)
    case (C(x), C(y)) => Some(Att(s, x == y))
    case (Ar(a1, a2), Ar(b1, b2)) =>
      var r :- Unify(n, a1, b1, s);
      if r.ok then Unify(n, a2, b2, r.s) else Some(r)
    case (Tup(xs), Tup(ys)) => UnifyLists(n, xs, ys, s)
    case (App(c, xs), App(d, ys)) => if c == d then UnifyLists(n, xs, ys, s) else Some(Att(s, false))
    case (Rec(f1, t1), Rec(f2, t2)) => UnifyRecs(n, f1, t1, f2, t2, s)
    case _ => Some(Att(s, false))
  }

  function UnifyLists(n: nat, xs: seq<Ty5>, ys: seq<Ty5>, s: St): Option<Att>
    decreases n, 1, |xs|
  {
    if xs == [] || ys == [] then Some(Att(s, xs == ys))
    else
      var r :- Unify(n, xs[0], ys[0], s);
      if r.ok then UnifyLists(n, xs[1..], ys[1..], r.s) else Some(r)
  }

  // Common fields first, then the rows as they are after that.
  function UnifyRecs(n: nat, f1: Fields, t1: Row, f2: Fields, t2: Row, s: St): Option<Att>
    decreases n, 4
  {
    var (m1, _) :- FlatRec(n, s.rowsubst, f1, t1);
    var (m2, _) :- FlatRec(n, s.rowsubst, f2, t2);
    var r :- UnifyCommon(n, m1, m2, s);
    if !r.ok then Some(r)
    else
      var (n1, u1) :- FlatRec(n, r.s.rowsubst, f1, t1);
      var (n2, u2) :- FlatRec(n, r.s.rowsubst, f2, t2);
      UnifyTails(n, SubOnly(n1, n2), SubOnly(n2, n1), u1, u2, r.s)
  }

  // The error context grows by the field's name and is put back.
  function UnifyCommon(n: nat, m1: Fields, m2: Fields, s: St): Option<Att>
    decreases n, 1, |m1|
  {
    if m1 == [] then Some(Att(s, true))
    else if HasField(m2, m1[0].0) then
      var r0 :- Unify(n, m1[0].1, FieldGet(m2, m1[0].0), s.(ectx := s.ectx + "in record field `" + m1[0].0 + "`: "));
      var r := r0.(s := r0.s.(ectx := s.ectx));
      if r.ok then UnifyCommon(n, m1[1..], m2, r.s) else Some(r)
    else UnifyCommon(n, m1[1..], m2, s)
  }

  function UnifyTails(n: nat, o1: Fields, o2: Fields, u1: Row, u2: Row, s: St): Option<Att>
    decreases n, 3
  {
    match (u1, u2)
    case (RClosed, RClosed) => Some(Att(s, o1 == [] && o2 == []))
    case (RClosed, ROpen(r2)) => if r2 < 0 || o2 != [] then Some(Att(s, false)) else BindRow(n, r2, o1, RClosed, s)
    case (ROpen(r1), RClosed) => if r1 < 0 || o1 != [] then Some(Att(s, false)) else BindRow(n, r1, o2, RClosed, s)
    case (ROpen(r1), ROpen(r2)) => UnifyOpen(n, o1, o2, r1, r2, s)
  }

  // Two open rows; a negative row is rigid.
  function UnifyOpen(n: nat, o1: Fields, o2: Fields, r1: int, r2: int, s: St): Option<Att>
    decreases n, 2
  {
    if r1 == r2 then Some(Att(s, o1 == [] && o2 == []))
    else if r1 < 0 then
      if r2 < 0 || o2 != [] then Some(Att(s, false)) else BindRow(n, r2, o1, ROpen(r1), s)
    else if r2 < 0 then
      if o1 != [] then Some(Att(s, false)) else BindRow(n, r1, o2, ROpen(r2), s)
    else
      var c1 :- RowOccursAny(n, r1, FieldTys(o2), s);
      if c1 then Some(Att(s, false))
      else
        var c2 :- RowOccursAny(n, r2, FieldTys(o1), s);
        if c2 then Some(Att(s, false))
        else
          var r3, s1 := s.rowctr, s.(rowctr := s.rowctr + 1);
          var r :- BindRow(n, r1, o2, ROpen(r3), s1);
          if r.ok then BindRow(n, r2, o1, ROpen(r3), r.s) else Some(r)
  }

  function BindRow(n: nat, r: int, flds: Fields, tl: Row, s: St): Option<Att>
    decreases n, 1
  {
    if r < 0 then Some(Att(s, false))
    else
      var c1 :- RowOccursAny(n, r, FieldTys(flds), s);
      if c1 then Some(Att(s, false))
      else
        var c2 :- TailOccurs(n, r, tl, s);
        if c2 then Some(Att(s, false))
        else match Get(s.rowsubst, r)
          case Some(row) => Unify(n, Rec(row.flds, row.tail), Rec(flds, tl), s)
          case None => Some(Att(s.(rowsubst := [(r, RowC(flds, tl))] + s.rowsubst), true))
  }

  // ---------- histories ----------

  // m1 is m with entries prepended, none for a key already there.
  ghost predicate Extends<T>(m: seq<(int, T)>, m1: seq<(int, T)>)
    decreases |m1|
  {
    m1 == m || (|m1| > |m| && !Has(m1[1..], m1[0].0) && Extends(m, m1[1..]))
  }

  // What an attempt may do to the state.
  ghost predicate Grown(s: St, s1: St) {
    && Extends(s.subst, s1.subst) && Extends(s.rowsubst, s1.rowsubst)
    && s1.holevars == s.holevars && s1.ctr == s.ctr && s1.rowctr >= s.rowctr && s1.ectx == s.ectx
  }

  lemma {:induction false} ExtendsTrans<T>(m: seq<(int, T)>, m1: seq<(int, T)>, m2: seq<(int, T)>)
    requires Extends(m, m1) && Extends(m1, m2)
    ensures Extends(m, m2)
    decreases |m2|
  {
    if m2 != m1 { ExtendsTrans(m, m1, m2[1..]); ExtendsLonger(m, m1); }
  }

  lemma {:induction false} ExtendsLonger<T>(m: seq<(int, T)>, m1: seq<(int, T)>)
    requires Extends(m, m1)
    ensures |m| <= |m1| && m1[|m1| - |m|..] == m
    decreases |m1|
  {
    if m1 != m {
      ExtendsLonger(m, m1[1..]);
      assert m1[|m1| - |m|..] == m1[1..][|m1[1..]| - |m|..];
    }
  }

  // Keys that were bound keep what they were bound to.
  lemma {:induction false} ExtendsGet<T>(m: seq<(int, T)>, m1: seq<(int, T)>, k: int)
    requires Extends(m, m1) && Has(m, k)
    ensures Get(m1, k) == Get(m, k)
    decreases |m1|
  {
    if m1 != m { ExtendsGet(m, m1[1..], k); }
  }

  lemma {:induction false} GrownTrans(s: St, s1: St, s2: St)
    requires Grown(s, s1) && Grown(s1, s2)
    ensures Grown(s, s2)
  {
    ExtendsTrans(s.subst, s1.subst, s2.subst);
    ExtendsTrans(s.rowsubst, s1.rowsubst, s2.rowsubst);
  }

  // ---------- an attempt only prepends ----------

  lemma {:induction false} ChaseEnds(n: nat, s: seq<(int, Ty5)>, t: Ty5)
    requires Chase(n, s, t).Some? && Chase(n, s, t).value.V?
    ensures !Has(s, Chase(n, s, t).value.id)
  {
    if t.V? && Get(s, t.id).Some? { ChaseEnds(n - 1, s, Get(s, t.id).value); }
  }

  ghost predicate Tidy(s: St, r: Option<Att>) { r.Some? ==> Grown(s, r.value.s) }

  lemma {:induction false} BindTidy(n: nat, v: int, t: Ty5, s: St)
    requires !Has(s.subst, v)
    ensures Tidy(s, BindVar(n, v, t, s))
  {
    hide Occurs;
    var sb := [(v, t)] + s.subst;
    assert sb[1..] == s.subst && Extends(s.subst, sb[1..]);
    assert Extends(s.subst, sb);
  }

  // Whatever its outcome, unification has at most prepended bindings of
  // unbound variables and rows, drawn fresh rows, and left the error context
  // and the hole variables as they were.
  lemma {:induction false} UnifyTidy(n: nat, a: Ty5, b: Ty5, s: St)
    ensures Tidy(s, Unify(n, a, b, s))
    decreases n, 0
  {
    hide Grown, BindVar, UnifyStruct, Chase, Has;
    GrownSelf(s);
    if n > 0 && Chase(n, s.subst, a).Some? && Chase(n, s.subst, b).Some? {
      var ta, tb := Chase(n, s.subst, a).value, Chase(n, s.subst, b).value;
      if ta.V? {
        ChaseEnds(n, s.subst, a);
        BindTidy(n, ta.id, tb, s);
      } else if tb.V? {
        ChaseEnds(n, s.subst, b);
        BindTidy(n, tb.id, ta, s);
      } else {
        StructTidy(n - 1, ta, tb, s);
      }
    }
  }

  lemma {:induction false} GrownSelf(s: St)
    ensures Grown(s, s)
  {
  }

  lemma {:induction false} StructTidy(n: nat, ta: Ty5, tb: Ty5, s: St)
    ensures Tidy(s, UnifyStruct(n, ta, tb, s))
    decreases n, 5
  {
    hide Grown, Unify, UnifyLists, UnifyRecs;
    GrownSelf(s);
    match (ta, tb)
    case (Ar(a1, a2), Ar(b1, b2)) =>
      UnifyTidy(n, a1, b1, s);
      var r := Unify(n, a1, b1, s);
      if r.Some? && r.value.ok {
        UnifyTidy(n, a2, b2, r.value.s);
        TidyThen(s, r.value.s, Unify(n, a2, b2, r.value.s));
      }
    case (Tup(xs), Tup(ys)) => ListsTidy(n, xs, ys, s);
    case (App(c, xs), App(d, ys)) => ListsTidy(n, xs, ys, s);
    case (Rec(f1, t1), Rec(f2, t2)) => RecsTidy(n, f1, t1, f2, t2, s);
    case _ =>
  }

  lemma {:induction false} TidyThen(s: St, s1: St, r: Option<Att>)
    requires Grown(s, s1) && Tidy(s1, r)
    ensures Tidy(s, r)
  {
    hide Grown;
    if r.Some? { GrownTrans(s, s1, r.value.s); }
  }

  lemma {:induction false} ListsTidy(n: nat, xs: seq<Ty5>, ys: seq<Ty5>, s: St)
    ensures Tidy(s, UnifyLists(n, xs, ys, s))
    decreases n, 1, |xs|
  {
    hide Grown, Unify;
    GrownSelf(s);
    if xs != [] && ys != [] {
      UnifyTidy(n, xs[0], ys[0], s);
      var r := Unify(n, xs[0], ys[0], s);
      if r.Some? && r.value.ok {
        ListsTidy(n, xs[1..], ys[1..], r.value.s);
        TidyThen(s, r.value.s, UnifyLists(n, xs[1..], ys[1..], r.value.s));
      }
    }
  }

  lemma {:induction false} RecsTidy(n: nat, f1: Fields, t1: Row, f2: Fields, t2: Row, s: St)
    ensures Tidy(s, UnifyRecs(n, f1, t1, f2, t2, s))
    decreases n, 4
  {
    hide Grown, UnifyCommon, UnifyTails, FlatRec, SubOnly;
    var a, b := FlatRec(n, s.rowsubst, f1, t1), FlatRec(n, s.rowsubst, f2, t2);
    if a.Some? && b.Some? {
      CommonTidy(n, a.value.0, b.value.0, s);
      var r := UnifyCommon(n, a.value.0, b.value.0, s);
      if r.Some? && r.value.ok {
        var s1 := r.value.s;
        var c, d := FlatRec(n, s1.rowsubst, f1, t1), FlatRec(n, s1.rowsubst, f2, t2);
        if c.Some? && d.Some? {
          var o1, o2 := SubOnly(c.value.0, d.value.0), SubOnly(d.value.0, c.value.0);
          TailsTidy(n, o1, o2, c.value.1, d.value.1, s1);
          TidyThen(s, s1, UnifyTails(n, o1, o2, c.value.1, d.value.1, s1));
        }
      }
    }
  }

  lemma {:induction false} CommonTidy(n: nat, m1: Fields, m2: Fields, s: St)
    ensures Tidy(s, UnifyCommon(n, m1, m2, s))
    decreases n, 1, |m1|
  {
    hide Extends, Unify, HasField, FieldGet;
    GrownSelf(s);
    if m1 != [] {
      if HasField(m2, m1[0].0) {
        var s0 := s.(ectx := s.ectx + "in record field `" + m1[0].0 + "`: ");
        UnifyTidy(n, m1[0].1, FieldGet(m2, m1[0].0), s0);
        var r0 := Unify(n, m1[0].1, FieldGet(m2, m1[0].0), s0);
        if r0.Some? {
          var s1 := r0.value.s.(ectx := s.ectx);
          assert Grown(s, s1);
          if r0.value.ok {
            CommonTidy(n, m1[1..], m2, s1);
            TidyThen(s, s1, UnifyCommon(n, m1[1..], m2, s1));
          }
        }
      } else {
        CommonTidy(n, m1[1..], m2, s);
      }
    }
  }

  lemma {:induction false} TailsTidy(n: nat, o1: Fields, o2: Fields, u1: Row, u2: Row, s: St)
    ensures Tidy(s, UnifyTails(n, o1, o2, u1, u2, s))
    decreases n, 3
  {
    hide Grown, BindRow, UnifyOpen;
    GrownSelf(s);
    match (u1, u2)
    case (RClosed, RClosed) =>
    case (RClosed, ROpen(r2)) => RowTidy(n, r2, o1, RClosed, s);
    case (ROpen(r1), RClosed) => RowTidy(n, r1, o2, RClosed, s);
    case (ROpen(r1), ROpen(r2)) => OpenTidy(n, o1, o2, r1, r2, s);
  }

  lemma {:induction false} OpenTidy(n: nat, o1: Fields, o2: Fields, r1: int, r2: int, s: St)
    ensures Tidy(s, UnifyOpen(n, o1, o2, r1, r2, s))
    decreases n, 2
  {
    hide Extends, BindRow, RowOccursAny, FieldTys;
    GrownSelf(s);
    RowTidy(n, r2, o1, ROpen(r1), s);
    RowTidy(n, r1, o2, ROpen(r2), s);
    var s1, tl := s.(rowctr := s.rowctr + 1), ROpen(s.rowctr);
    GrownSelf(s1);
    assert Grown(s, s1);
    RowTidy(n, r1, o2, tl, s1);
    var r := BindRow(n, r1, o2, tl, s1);
    TidyThen(s, s1, r);
    if r.Some? && r.value.ok {
      RowTidy(n, r2, o1, tl, r.value.s);
      TidyThen(s, r.value.s, BindRow(n, r2, o1, tl, r.value.s));
    }
  }

  lemma {:induction false} RowTidy(n: nat, r: int, flds: Fields, tl: Row, s: St)
    ensures Tidy(s, BindRow(n, r, flds, tl, s))
    decreases n, 1
  {
    hide Unify, RowOccursAny, TailOccurs, FieldTys;
    GrownSelf(s);
    match Get(s.rowsubst, r)
    case Some(row) => UnifyTidy(n, Rec(row.flds, row.tail), Rec(flds, tl), s);
    case None =>
      var rs := [(r, RowC(flds, tl))] + s.rowsubst;
      assert rs[1..] == s.rowsubst && Extends(s.rowsubst, rs);
  }

  // ---------- snapshot and rollback ----------

  datatype Snap = Snap(subst: nat, rowsubst: nat, holevars: nat)

  function Snapshot(s: St): Snap { Snap(|s.subst|, |s.rowsubst|, |s.holevars|) }

  // g5_drop: all of xs but its first n.
  function Shed<T>(n: int, xs: seq<T>): seq<T> { if n <= 0 || xs == [] then xs else Shed(n - 1, xs[1..]) }

  lemma {:induction false} ShedIs<T>(n: nat, xs: seq<T>)
    requires n <= |xs|
    ensures Shed(n, xs) == xs[n..]
  {
    if n > 0 { ShedIs(n - 1, xs[1..]); }
  }

  function Rollback(s: St, p: Snap): St {
    s.(subst := Shed(|s.subst| - p.subst, s.subst),
       rowsubst := Shed(|s.rowsubst| - p.rowsubst, s.rowsubst),
       holevars := Shed(|s.holevars| - p.holevars, s.holevars))
  }

  // A trial leaves nothing but used-up row numbers, whether it succeeded, failed
  // or failed half way.
  lemma {:induction false} TrialUndone(n: nat, a: Ty5, b: Ty5, s: St)
    requires Unify(n, a, b, s).Some?
    ensures var r := The(Unify(n, a, b, s));
            Rollback(r.s, Snapshot(s)) == s.(rowctr := r.s.rowctr) && r.s.rowctr >= s.rowctr
  {
    hide Unify, Extends, Shed;
    UnifyTidy(n, a, b, s);
    var s1 := Unify(n, a, b, s).value.s;
    ExtendsLonger(s.subst, s1.subst);
    ExtendsLonger(s.rowsubst, s1.rowsubst);
    ShedIs(|s1.subst| - |s.subst|, s1.subst);
    ShedIs(|s1.rowsubst| - |s.rowsubst|, s1.rowsubst);
    ShedIs(0, s1.holevars);
  }

  // ---------- instantiation ----------

  function FindInt(m: seq<(int, int)>, k: int): int { match Get(m, k) case None => k case Some(v) => v }

  function ZipIds(xs: seq<int>, i: int): seq<(int, int)> {
    if xs == [] then [] else [(xs[0], i)] + ZipIds(xs[1..], i + 1)
  }

  // g5_inst_rewrite. A variable that chases to a base type stays as it is.
  function Rewrite(n: nat, t: Ty5, mp: seq<(int, int)>, rmp: seq<(int, int)>, s: St): Option<Ty5>
    decreases n, 0
  {
    if n == 0 then None
    else
      var u :- Chase(n, s.subst, t);
      match u
      case V(x) => Some(V(FindInt(mp, x)))
      case C(_) => Some(t)
      case Ar(a, b) =>
        var a1 :- Rewrite(n - 1, a, mp, rmp, s);
        var b1 :- Rewrite(n - 1, b, mp, rmp, s);
        Some(Ar(a1, b1))
      case Tup(ts) =>
        var us :- RewriteAll(n - 1, ts, mp, rmp, s);
        Some(Tup(us))
      case App(c, ts) =>
        var us :- RewriteAll(n - 1, ts, mp, rmp, s);
        Some(App(c, us))
      case Rec(flds, tl) =>
        var (m, ft) :- FlatRec(n, s.rowsubst, flds, tl);
        var us :- RewriteAll(n - 1, FieldTys(m), mp, rmp, s);
        Some(Rec(Relabel(m, us), match ft case RClosed => RClosed case ROpen(id) => ROpen(FindInt(rmp, id))))
  }

  function RewriteAll(n: nat, ts: seq<Ty5>, mp: seq<(int, int)>, rmp: seq<(int, int)>, s: St): Option<seq<Ty5>>
    decreases n, 1, |ts|
  {
    if ts == [] then Some([])
    else
      var u :- Rewrite(n, ts[0], mp, rmp, s);
      var us :- RewriteAll(n, ts[1..], mp, rmp, s);
      Some([u] + us)
  }

  // The labels of flds with other types.
  function Relabel(flds: Fields, ts: seq<Ty5>): Fields {
    if flds == [] || ts == [] then [] else [(flds[0].0, ts[0])] + Relabel(flds[1..], ts[1..])
  }

  datatype Inst = Inst(s: St, ty: Ty5)

  function Instantiate(n: nat, sch: Sch5, s: St): Option<Inst> {
    var s1 := s.(ctr := s.ctr + |sch.qvars|, rowctr := s.rowctr + |sch.qrows|);
    var t :- Rewrite(n, sch.ty, ZipIds(sch.qvars, s.ctr), ZipIds(sch.qrows, s.rowctr), s1);
    Some(Inst(s1, t))
  }

  // g5_apply.
  function Apply(n: nat, t: Ty5, s: St): Option<Ty5>
    decreases n, 0
  {
    if n == 0 then None
    else
      var u :- Chase(n, s.subst, t);
      match u
      case V(_) => Some(u)
      case C(_) => Some(u)
      case Ar(a, b) =>
        var a1 :- Apply(n - 1, a, s);
        var b1 :- Apply(n - 1, b, s);
        Some(Ar(a1, b1))
      case Tup(ts) =>
        var us :- ApplyAll(n - 1, ts, s);
        Some(Tup(us))
      case App(c, ts) =>
        var us :- ApplyAll(n - 1, ts, s);
        Some(App(c, us))
      case Rec(flds, tl) =>
        var (m, ft) :- FlatRec(n, s.rowsubst, flds, tl);
        var us :- ApplyAll(n - 1, FieldTys(m), s);
        Some(Rec(Relabel(m, us), ft))
  }

  function ApplyAll(n: nat, ts: seq<Ty5>, s: St): Option<seq<Ty5>>
    decreases n, 1, |ts|
  {
    if ts == [] then Some([])
    else
      var u :- Apply(n, ts[0], s);
      var us :- ApplyAll(n, ts[1..], s);
      Some([u] + us)
  }

  // g5_free_chase, as a set.
  function FreeVars(n: nat, t: Ty5, s: St): Option<set<int>>
    decreases n, 0
  {
    if n == 0 then None
    else
      var u :- Chase(n, s.subst, t);
      match u
      case V(x) => Some({x})
      case C(_) => Some({})
      case Ar(a, b) => FreeAll(n - 1, [a, b], s)
      case Tup(ts) => FreeAll(n - 1, ts, s)
      case App(_, ts) => FreeAll(n - 1, ts, s)
      case Rec(flds, tl) =>
        var (m, _) :- FlatRec(n, s.rowsubst, flds, tl);
        FreeAll(n - 1, FieldTys(m), s)
  }

  function FreeAll(n: nat, ts: seq<Ty5>, s: St): Option<set<int>>
    decreases n, 1, |ts|
  {
    if ts == [] then Some({})
    else
      var xs :- FreeVars(n, ts[0], s);
      var ys :- FreeAll(n, ts[1..], s);
      Some(xs + ys)
  }

  // ---------- hole candidates ----------

  type Entry = (string, Sch5)
  datatype Cand = Cand(name: string, sch: Sch5, ty: Ty5)
  datatype Found = Found(s: St, cands: seq<Cand>)

  datatype Tried = Tried(s: St, fits: bool, ty: Ty5)

  // One trial: instantiate, give up on an instance that mentions a hole, else
  // unify, read the instance off, and roll back whatever the outcome.
  function Try(n: nat, sch: Sch5, hty: Ty5, s: St): Option<Tried> {
    var i :- Instantiate(n, sch, s);
    var fv :- FreeVars(n, i.ty, i.s);
    if exists v :: v in fv && v in i.s.holevars then Some(Tried(i.s, false, i.ty))
    else
      var snap := Snapshot(i.s);
      var r :- Unify(n, i.ty, hty, i.s);
      if r.ok then
        var t :- Apply(n, i.ty, r.s);
        Some(Tried(Rollback(r.s, snap), true, t))
      else Some(Tried(Rollback(r.s, snap), false, i.ty))
  }

  // g5_hole_cands_seen: every entry not shadowed is tried against the hole's
  // type.
  function HoleCands(n: nat, env: seq<Entry>, hty: Ty5, s: St, seen: set<string>): Option<Found>
    decreases |env|
  {
    if env == [] then Some(Found(s, []))
    else
      var (nm, sch) := env[0];
      if nm in seen then HoleCands(n, env[1..], hty, s, seen)
      else if sch.poisoned then HoleCands(n, env[1..], hty, s, seen + {nm})
      else
        var r :- Try(n, sch, hty, s);
        var rest :- HoleCands(n, env[1..], hty, r.s, seen + {nm});
        Some(rest.(cands := (if r.fits then [Cand(nm, sch, r.ty)] else []) + rest.cands))
  }

  // One entry on its own: does an instance of it, numbered from the counters
  // of s, fit the hole in s? No state comes back but the counters.
  datatype Verdict = Verdict(fits: bool, ty: Ty5, ctr: int, rowctr: int)

  function Fits(n: nat, sch: Sch5, hty: Ty5, s: St): Option<Verdict> {
    var i :- Instantiate(n, sch, s);
    var fv :- FreeVars(n, i.ty, i.s);
    if exists v :: v in fv && v in i.s.holevars then Some(Verdict(false, i.ty, i.s.ctr, i.s.rowctr))
    else
      var r :- Unify(n, i.ty, hty, i.s);
      if !r.ok then Some(Verdict(false, i.ty, r.s.ctr, r.s.rowctr))
      else
        var t :- Apply(n, i.ty, r.s);
        Some(Verdict(true, t, r.s.ctr, r.s.rowctr))
  }

  lemma {:induction false} TryIsFits(n: nat, sch: Sch5, hty: Ty5, s: St)
    ensures var v := Fits(n, sch, hty, s);
            Try(n, sch, hty, s)
            == if v.None? then None else Some(Tried(s.(ctr := The(v).ctr, rowctr := The(v).rowctr), The(v).fits,
                The(v).ty))
  {
    hide Unify, Rollback, FreeVars, Apply, Rewrite, ZipIds;
    var i := Instantiate(n, sch, s);
    if i.Some? {
      var s1 := i.value.s;
      assert s1 == s.(ctr := s1.ctr, rowctr := s1.rowctr);
      var r := Unify(n, i.value.ty, hty, s1);
      if r.Some? {
        TrialUndone(n, i.value.ty, hty, s1);
        assert r.value.s.ctr == s1.ctr by { UnifyTidy(n, i.value.ty, hty, s1); }
      }
    }
  }

  // The candidates when every entry is tried in the same state s, the counters
  // apart: no trial sees another.
  function AllFits(n: nat, env: seq<Entry>, hty: Ty5, s: St, ctr: int, rowctr: int, seen: set<string>): Option<Found>
    decreases |env|
  {
    if env == [] then Some(Found(s.(ctr := ctr, rowctr := rowctr), []))
    else
      var (nm, sch) := env[0];
      if nm in seen then AllFits(n, env[1..], hty, s, ctr, rowctr, seen)
      else if sch.poisoned then AllFits(n, env[1..], hty, s, ctr, rowctr, seen + {nm})
      else
        var v :- Fits(n, sch, hty, s.(ctr := ctr, rowctr := rowctr));
        var rest :- AllFits(n, env[1..], hty, s, v.ctr, v.rowctr, seen + {nm});
        Some(rest.(cands := (if v.fits then [Cand(nm, sch, v.ty)] else []) + rest.cands))
  }

  // Trials do not influence each other, and the search leaves the three
  // histories and the error context untouched.
  lemma {:induction false} CandsIndependent(n: nat, env: seq<Entry>, hty: Ty5, s: St, ctr: int, rowctr: int,
                                            seen: set<string>)
    ensures HoleCands(n, env, hty, s.(ctr := ctr, rowctr := rowctr), seen) == AllFits(n, env, hty, s, ctr, rowctr, seen)
    decreases |env|
  {
    hide Try, Fits;
    if env != [] {
      var (nm, sch) := env[0];
      var s0 := s.(ctr := ctr, rowctr := rowctr);
      if nm in seen {
        CandsIndependent(n, env[1..], hty, s, ctr, rowctr, seen);
      } else if sch.poisoned {
        CandsIndependent(n, env[1..], hty, s, ctr, rowctr, seen + {nm});
      } else {
        TryIsFits(n, sch, hty, s0);
        var v := Fits(n, sch, hty, s0);
        if v.Some? { CandsIndependent(n, env[1..], hty, s, v.value.ctr, v.value.rowctr, seen + {nm}); }
      }
    }
  }

  lemma {:induction false} SearchUndone(n: nat, env: seq<Entry>, hty: Ty5, s: St, ctr: int, rowctr: int,
                                        seen: set<string>)
    requires AllFits(n, env, hty, s, ctr, rowctr, seen).Some?
    ensures var s1 := The(AllFits(n, env, hty, s, ctr, rowctr, seen)).s; s1 == s.(ctr := s1.ctr, rowctr := s1.rowctr)
    decreases |env|
  {
    hide Fits;
    if env != [] {
      var (nm, sch) := env[0];
      if nm in seen {
        SearchUndone(n, env[1..], hty, s, ctr, rowctr, seen);
      } else if sch.poisoned {
        SearchUndone(n, env[1..], hty, s, ctr, rowctr, seen + {nm});
      } else {
        var v := Fits(n, sch, hty, s.(ctr := ctr, rowctr := rowctr)).value;
        SearchUndone(n, env[1..], hty, s, v.ctr, v.rowctr, seen + {nm});
      }
    }
  }

  // ---------- candidates again ----------

  const LIMIT: nat := 12

  datatype Refiltered = Refiltered(cands: seq<Cand>, capped: bool)

  // g5_refilter_cands: the saved candidates are tried again against the firmed
  // type; the thirteenth that fits ends the search.
  function Refilter(n: nat, cs: seq<Cand>, exp: Ty5, s: St, acc: seq<Cand>): Option<Refiltered>
    decreases |cs|
  {
    if cs == [] then Some(Refiltered(acc, false))
    else
      var sch := cs[0].sch;
      if sch.poisoned then Refilter(n, cs[1..], exp, s, acc)
      else
        var r :- Try(n, sch, exp, s);
        if !r.fits then Refilter(n, cs[1..], exp, r.s, acc)
        else if |acc| == LIMIT then Some(Refiltered(acc, true))
        else Refilter(n, cs[1..], exp, r.s, acc + [Cand(cs[0].name, sch, r.ty)])
  }

  // Every saved candidate that still fits, tried in one and the same state.
  function StillFit(n: nat, cs: seq<Cand>, exp: Ty5, s: St, ctr: int, rowctr: int): Option<seq<Cand>>
    decreases |cs|
  {
    if cs == [] then Some([])
    else if cs[0].sch.poisoned then StillFit(n, cs[1..], exp, s, ctr, rowctr)
    else
      var v :- Fits(n, cs[0].sch, exp, s.(ctr := ctr, rowctr := rowctr));
      var rest :- StillFit(n, cs[1..], exp, s, v.ctr, v.rowctr);
      Some((if v.fits then [Cand(cs[0].name, cs[0].sch, v.ty)] else []) + rest)
  }

  function Firsts(all: seq<Cand>): Refiltered {
    if |all| > LIMIT then Refiltered(all[..LIMIT], true) else Refiltered(all, false)
  }

  lemma {:induction false} StillFitStep(n: nat, cs: seq<Cand>, exp: Ty5, s: St, ctr: int, rowctr: int)
    requires cs != [] && !cs[0].sch.poisoned && StillFit(n, cs, exp, s, ctr, rowctr).Some?
    ensures var v := Fits(n, cs[0].sch, exp, s.(ctr := ctr, rowctr := rowctr));
            && v.Some? && StillFit(n, cs[1..], exp, s, The(v).ctr, The(v).rowctr).Some?
            && StillFit(n, cs, exp, s, ctr, rowctr)
               == Some((if The(v).fits then [Cand(cs[0].name, cs[0].sch, The(v).ty)] else [])
                       + The(StillFit(n, cs[1..], exp, s, The(v).ctr, The(v).rowctr)))
  {
    hide Fits;
  }

  // The result is the first twelve that fit, and the flag says there are more.
  lemma {:induction false} RefilterIsPrefix(n: nat, cs: seq<Cand>, exp: Ty5, s: St, ctr: int, rowctr: int,
                                            acc: seq<Cand>)
    requires |acc| <= LIMIT && StillFit(n, cs, exp, s, ctr, rowctr).Some?
    ensures Refilter(n, cs, exp, s.(ctr := ctr, rowctr := rowctr), acc)
         == Some(Firsts(acc + The(StillFit(n, cs, exp, s, ctr, rowctr))))
    decreases |cs|
  {
    hide Try, Fits, Firsts;
    if cs == [] {
      FirstsAll(acc);
    } else if cs[0].sch.poisoned {
      RefilterIsPrefix(n, cs[1..], exp, s, ctr, rowctr, acc);
    } else {
      hide StillFit;
      var sch := cs[0].sch;
      TryIsFits(n, sch, exp, s.(ctr := ctr, rowctr := rowctr));
      StillFitStep(n, cs, exp, s, ctr, rowctr);
      var v := Fits(n, sch, exp, s.(ctr := ctr, rowctr := rowctr)).value;
      var more := StillFit(n, cs[1..], exp, s, v.ctr, v.rowctr).value;
      var c := Cand(cs[0].name, sch, v.ty);
      if !v.fits {
        RefilterIsPrefix(n, cs[1..], exp, s, v.ctr, v.rowctr, acc);
        assert acc + ([] + more) == acc + more;
      } else if |acc| < LIMIT {
        RefilterIsPrefix(n, cs[1..], exp, s, v.ctr, v.rowctr, acc + [c]);
        assert acc + ([c] + more) == acc + [c] + more;
      } else {
        FirstsFull(acc, [c] + more);
      }
    }
  }

  lemma {:induction false} FirstsAll(acc: seq<Cand>)
    requires |acc| <= LIMIT
    ensures Firsts(acc + []) == Refiltered(acc, false)
  {
    assert acc + [] == acc;
  }

  lemma {:induction false} FirstsFull(acc: seq<Cand>, more: seq<Cand>)
    requires |acc| == LIMIT && more != []
    ensures Firsts(acc + more) == Refiltered(acc, true)
  {
    assert (acc + more)[..LIMIT] == acc;
  }
}

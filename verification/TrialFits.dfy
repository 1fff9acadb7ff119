// What fits a hole, on types without records: an entry is offered exactly when
// some instance of its scheme is the hole's type under some solution of the
// state, and no hole is left in it.
module TrialFits {
  import opened Types
  import opened Trial
  import opened TrialExact
  import opened Soundness
  import opened Completeness
  import U = Unification
  import W = AlgorithmW
  import F = Frames

  // ---------- instances, as in the fourth generation ----------

  function ReadSch(sch: Sch5): W.Sch
    requires Plain(sch.ty)
  {
    W.Sch(sch.qvars, Read(sch.ty))
  }

  ghost function State(s: St): W.TIS
    requires Sane(s)
  {
    W.TIS(Bindings(s), s.ctr, [])
  }

  // The next number is above all that are in use.
  ghost predicate Fresh(s: St) {
    Sane(s) && F.StOk(State(s)) && forall i :: 0 <= i < |s.holevars| ==> s.holevars[i] < s.ctr
  }

  lemma {:induction false} ZipRead(xs: seq<int>, i: int, x: int)
    ensures FindInt(ZipIds(xs, i), x) == W.FindInt(W.ZipIds(xs, i), x)
  {
    if xs != [] { ZipRead(xs[1..], i + 1, x); }
  }

  // The renamings agree.
  ghost predicate SameNames(mp: seq<(int, int)>, m4: seq<(int, int)>) {
    forall x :: FindInt(mp, x) == W.FindInt(m4, x)
  }

  lemma {:induction false} RewriteRead(n: nat, t: Ty5, mp: seq<(int, int)>, m4: seq<(int, int)>,
                                       rmp: seq<(int, int)>, s: St)
    requires Sane(s) && Plain(t) && SameNames(mp, m4) && Rewrite(n, t, mp, rmp, s).Some?
    ensures var u := The(Rewrite(n, t, mp, rmp, s)); Plain(u) && Read(u) == W.InstRewrite(Read(t), m4, Bindings(s))
    decreases n, 0
  {
    hide Sane, Chase, SameNames, FindInt, W.FindInt, U.Chase;
    ChaseRead(n, s, t);
    match Chase(n, s.subst, t).value
    case V(x) => assert FindInt(mp, x) == W.FindInt(m4, x) by { NameOf(mp, m4, x); }
    case C(_) =>
    case Ar(a, b) =>
      RewriteRead(n - 1, a, mp, m4, rmp, s);
      RewriteRead(n - 1, b, mp, m4, rmp, s);
    case Tup(ts) => RewriteAllRead(n - 1, ts, mp, m4, rmp, s);
    case App(_, ts) => RewriteAllRead(n - 1, ts, mp, m4, rmp, s);
  }

  lemma {:induction false} NameOf(mp: seq<(int, int)>, m4: seq<(int, int)>, x: int)
    requires SameNames(mp, m4)
    ensures FindInt(mp, x) == W.FindInt(m4, x)
  {
  }

  lemma {:induction false} RewriteAllRead(n: nat, ts: seq<Ty5>, mp: seq<(int, int)>, m4: seq<(int, int)>,
                                          rmp: seq<(int, int)>, s: St)
    requires Sane(s) && AllPlain(ts) && SameNames(mp, m4) && RewriteAll(n, ts, mp, rmp, s).Some?
    ensures var us := The(RewriteAll(n, ts, mp, rmp, s));
            AllPlain(us) && ReadAll(us) == W.InstMap(ReadAll(ts), m4, Bindings(s))
    decreases n, 1, |ts|
  {
    hide Sane, SameNames, Rewrite, W.InstRewrite;
    if ts != [] {
      RewriteRead(n, ts[0], mp, m4, rmp, s);
      RewriteAllRead(n, ts[1..], mp, m4, rmp, s);
      var u, us := Rewrite(n, ts[0], mp, rmp, s).value, RewriteAll(n, ts[1..], mp, rmp, s).value;
      assert ([u] + us)[0] == u && ([u] + us)[1..] == us;
    }
  }

  lemma {:induction false} InstRead(n: nat, sch: Sch5, s: St)
    requires Sane(s) && Plain(sch.ty) && Instantiate(n, sch, s).Some?
    ensures var i := The(Instantiate(n, sch, s));
            && Sane(i.s) && Bindings(i.s) == Bindings(s) && Plain(i.ty)
            && Read(i.ty) == W.Instantiate(ReadSch(sch), State(s)).1
            && i.s.ctr == s.ctr + |sch.qvars| && i.s.holevars == s.holevars
  {
    hide Rewrite, WF, PlainSub, W.InstRewrite, ZipIds, W.ZipIds;
    var s1 := s.(ctr := s.ctr + |sch.qvars|, rowctr := s.rowctr + |sch.qrows|);
    var mp, m4 := ZipIds(sch.qvars, s.ctr), W.ZipIds(sch.qvars, s.ctr);
    forall x ensures FindInt(mp, x) == W.FindInt(m4, x) { ZipRead(sch.qvars, s.ctr, x); }
    assert Sane(s1) && Bindings(s1) == Bindings(s);
    RewriteRead(n, sch.ty, mp, m4, ZipIds(sch.qrows, s.rowctr), s1);
  }

  // ---------- reading off the result ----------

  lemma {:induction false} ApplyRead(n: nat, t: Ty5, s: St)
    requires Sane(s) && Plain(t) && Apply(n, t, s).Some?
    ensures var u := The(Apply(n, t, s)); Plain(u) && Read(u) == U.Apply(Bindings(s), Read(t))
    decreases n, 0
  {
    hide Sane, Chase, U.Chase, ApplyAll, U.ApplyList, AllPlain, ReadAll, Bindings;
    ChaseRead(n, s, t);
    match Chase(n, s.subst, t).value
    case V(x) =>
    case C(_) =>
    case Ar(a, b) => ApplyRead(n - 1, a, s); ApplyRead(n - 1, b, s);
    case Tup(ts) => ApplyAllRead(n - 1, ts, s);
    case App(_, ts) => ApplyAllRead(n - 1, ts, s);
  }

  lemma {:induction false} ApplyAllRead(n: nat, ts: seq<Ty5>, s: St)
    requires Sane(s) && AllPlain(ts) && ApplyAll(n, ts, s).Some?
    ensures var us := The(ApplyAll(n, ts, s)); AllPlain(us) && ReadAll(us) == U.ApplyList(Bindings(s), ReadAll(ts))
    decreases n, 1, |ts|
  {
    hide Sane, Apply, U.Apply;
    if ts != [] {
      ApplyRead(n, ts[0], s);
      ApplyAllRead(n, ts[1..], s);
      var u, us := Apply(n, ts[0], s).value, ApplyAll(n, ts[1..], s).value;
      assert ([u] + us)[0] == u && ([u] + us)[1..] == us;
    }
  }

  lemma {:induction false} PairVars(o: Sub, a: Ty, b: Ty)
    ensures FVs(Aps(o, Cons(a, Cons(b, Nil)))) == FV(Ap(o, TAr(a, b)))
  {
    assert FVs(Aps(o, Cons(b, Nil))) == FV(Ap(o, b)) + FVs(Nil);
  }

  lemma {:induction false} FreeRead(n: nat, t: Ty5, s: St)
    requires Sane(s) && Plain(t) && FreeVars(n, t, s).Some?
    ensures The(FreeVars(n, t, s)) == FV(Ap(Bindings(s), Read(t)))
    decreases n, 0
  {
    hide WF, PlainSub, Chase, U.Chase;
    ChaseRead(n, s, t);
    var u := Chase(n, s.subst, t).value;
    assert Ap(Bindings(s), Read(u)) == Ap(Bindings(s), Read(t));
    match u
    case V(x) => ImgUnbound(Bindings(s), x);
    case C(_) =>
    case Ar(a, b) =>
      PairRead(a, b);
      FreeAllRead(n - 1, [a, b], s);
      PairVars(Bindings(s), Read(a), Read(b));
    case Tup(ts) => FreeAllRead(n - 1, ts, s);
    case App(_, ts) => FreeAllRead(n - 1, ts, s);
  }

  lemma {:induction false} FreeAllRead(n: nat, ts: seq<Ty5>, s: St)
    requires Sane(s) && AllPlain(ts) && FreeAll(n, ts, s).Some?
    ensures The(FreeAll(n, ts, s)) == FVs(Aps(Bindings(s), ReadAll(ts)))
    decreases n, 1, |ts|
  {
    hide Sane, FreeVars;
    if ts != [] {
      FreeRead(n, ts[0], s);
      FreeAllRead(n, ts[1..], s);
    }
  }

  // ---------- an instance against a type ----------

  // The types of the entry under th.
  ghost function Meanings(th: U.Assign, s: St, sch: Sch5): iset<Ty>
    requires Sane(s) && Plain(sch.ty)
  {
    SemInst(th, Bindings(s), ReadSch(sch))
  }

  // Under some solution the type is a meaning of the entry.
  ghost predicate Meets(s: St, sch: Sch5, t: Ty5)
    requires Sane(s) && Plain(sch.ty) && Plain(t)
  {
    exists th: U.Assign :: U.Solves(th, Bindings(s)) && U.Map(th, Read(t)) in Meanings(th, s, sch)
  }

  // Trying a fresh instance against a type succeeds exactly when some solution
  // makes the type a meaning of the scheme.
  lemma {:induction false} InstanceExact(n: nat, sch: Sch5, t: Ty5, s: St)
    requires Fresh(s) && Plain(sch.ty) && Plain(t) && F.Below(Read(sch.ty), s.ctr) && F.Below(Read(t), s.ctr)
    requires Instantiate(n, sch, s).Some?
    requires var i := The(Instantiate(n, sch, s)); Unify(n, i.ty, t, i.s).Some?
    ensures var i := The(Instantiate(n, sch, s)); The(Unify(n, i.ty, t, i.s)).ok <==> Meets(s, sch, t)
  {
    hide Unify, Instantiate, Sane, Plain, W.Instantiate, U.Solves, U.Map, Bindings, Read, U.Apply;
    var i := Instantiate(n, sch, s).value;
    InstRead(n, sch, s);
    TrialExact.UnifyExact(n, i.ty, t, i.s);
    var r := Unify(n, i.ty, t, i.s).value;
    if r.ok {
      var th := AnySolution(r.s);
      InstSound(ReadSch(sch), State(s), th);
      assert U.Map(th, Read(t)) in Meanings(th, s, sch);
    }
    if Meets(s, sch, t) {
      var th: U.Assign :| U.Solves(th, Bindings(s)) && U.Map(th, Read(t)) in Meanings(th, s, sch);
      var th1 := InstComplete(ReadSch(sch), State(s), th, U.Map(th, Read(t)));
      AgreeTy(th1, th, s.ctr, Read(t));
    }
  }

  lemma {:induction false} AnySolution(s: St) returns (th: U.Assign)
    requires Sane(s)
    ensures U.Solves(th, Bindings(s))
  {
    th := U.Meaning(Bindings(s));
    U.SelfSolves(Bindings(s), Bindings(s));
  }

  // ---------- candidates ----------

  // A variable of the scheme that is not quantified is a hole's.
  ghost predicate NamesHole(s: St, sch: Sch5)
    requires Sane(s) && Plain(sch.ty)
  {
    exists x :: x in FV(Ap(Bindings(s), Read(sch.ty))) && x !in sch.qvars && x in s.holevars
  }

  lemma {:induction false} HoleLeft(n: nat, sch: Sch5, s: St)
    requires Fresh(s) && Plain(sch.ty) && F.Below(Read(sch.ty), s.ctr) && Instantiate(n, sch, s).Some?
    ensures var i := The(Instantiate(n, sch, s));
            && Sane(i.s) && Plain(i.ty)
            && (NamesHole(s, sch) <==> exists x :: x in FV(Ap(Bindings(i.s), Read(i.ty))) && x in i.s.holevars)
  {
    hide Instantiate, Sane, Plain, W.InstRewrite, Bindings, Read, U.Map, W.ZipIds, W.FindInt;
    InstRead(n, sch, s);
    var i := Instantiate(n, sch, s).value;
    var o, mp := Bindings(s), W.ZipIds(sch.qvars, s.ctr);
    U.DomVars(o);
    F.InstMeans(Read(sch.ty), sch.qvars, s.ctr, o);
    forall x | x in i.s.holevars
      ensures x in FV(Ap(o, Read(i.ty))) <==> x in FV(Ap(o, Read(sch.ty))) && x !in sch.qvars
    {
      F.FvMap(F.Ren(mp), Ap(o, Read(sch.ty)), x);
      RenHole(sch.qvars, s.ctr, x, FV(Ap(o, Read(sch.ty))));
    }
  }

  lemma {:induction false} RenHole(qs: seq<int>, base: int, x: int, vars: set<int>)
    requires x < base
    ensures (exists y :: y in vars && x in FV(F.Ren(W.ZipIds(qs, base))(y))) <==> x in vars && x !in qs
  {
    hide W.ZipIds, W.FindInt;
    forall y ensures x in FV(F.Ren(W.ZipIds(qs, base))(y)) <==> x == y && x !in qs { F.FindZip(qs, base, y); }
  }

  // v is the hole's type, resolved in a state whose solutions all solve s and
  // make the hole's type a meaning of the entry.
  ghost predicate Shown(v: Ty5, sch: Sch5, hty: Ty5, s: St)
    requires Sane(s) && Plain(sch.ty) && Plain(hty)
  {
    Plain(v) && exists s1: St :: ShownIn(s1, v, sch, hty, s)
  }

  ghost predicate ShownIn(s1: St, v: Ty5, sch: Sch5, hty: Ty5, s: St)
    requires Sane(s) && Plain(sch.ty) && Plain(hty) && Plain(v)
  {
    && Sane(s1) && Read(v) == U.Apply(Bindings(s1), Read(hty))
    && forall th: U.Assign :: U.Solves(th, Bindings(s1)) ==>
        U.Solves(th, Bindings(s)) && U.Map(th, Read(hty)) in Meanings(th, s, sch)
  }

  lemma {:induction false} ShowResult(n: nat, i: Inst, v: Ty5, sch: Sch5, hty: Ty5, s: St)
    requires Fresh(s) && Plain(sch.ty) && Plain(hty) && Instantiate(n, sch, s) == Some(i) && Plain(i.ty) && Sane(i.s)
    requires Unify(n, i.ty, hty, i.s).Some? && The(Unify(n, i.ty, hty, i.s)).ok
    requires Apply(n, i.ty, The(Unify(n, i.ty, hty, i.s)).s) == Some(v)
    ensures Shown(v, sch, hty, s)
  {
    hide Unify, Instantiate, Sane, Plain, Bindings, Read, Apply, U.Solves, U.Map, U.Apply, W.Instantiate;
    InstRead(n, sch, s);
    TrialExact.UnifyExact(n, i.ty, hty, i.s);
    var s1 := Unify(n, i.ty, hty, i.s).value.s;
    ApplyRead(n, i.ty, s1);
    forall th: U.Assign | U.Solves(th, Bindings(s1))
      ensures U.Solves(th, Bindings(s)) && U.Map(th, Read(hty)) in Meanings(th, s, sch)
    {
      InstSound(ReadSch(sch), State(s), th);
    }
    assert ShownIn(s1, v, sch, hty, s);
  }

  // An entry fits exactly when no hole is left in it and some solution of the
  // state makes the hole's type a meaning of its scheme; the type shown with it
  // is then what the hole's type resolves to.
  lemma {:induction false} FitsExact(n: nat, sch: Sch5, hty: Ty5, s: St)
    requires Fresh(s) && Plain(sch.ty) && Plain(hty) && F.Below(Read(sch.ty), s.ctr) && F.Below(Read(hty), s.ctr)
    requires Fits(n, sch, hty, s).Some?
    ensures The(Fits(n, sch, hty, s)).fits <==> !NamesHole(s, sch) && Meets(s, sch, hty)
    ensures The(Fits(n, sch, hty, s)).fits ==> Shown(The(Fits(n, sch, hty, s)).ty, sch, hty, s)
  {
    hide Unify, Instantiate, Sane, Plain, Bindings, Read, FreeVars, Apply, Meets, NamesHole, Shown;
    var i := Instantiate(n, sch, s).value;
    InstRead(n, sch, s);
    HoleLeft(n, sch, s);
    FreeRead(n, i.ty, i.s);
    var fv := FreeVars(n, i.ty, i.s).value;
    if !exists v :: v in fv && v in i.s.holevars {
      InstanceExact(n, sch, hty, s);
      if Unify(n, i.ty, hty, i.s).value.ok { ShowResult(n, i, Fits(n, sch, hty, s).value.ty, sch, hty, s); }
    }
  }

}

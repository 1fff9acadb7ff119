// What a signature contract means, on types without records: the inferred
// scheme meets it exactly when it has every type as an instance that the
// declared type says, whatever its quantified variables stand for.
module SignatureMeaning {
  import opened Types
  import opened Trial
  import opened TrialExact
  import opened TrialFits
  import opened Signatures
  import U = Unification
  import W = AlgorithmW
  import F = Frames
  import D = Declarative
  import I = ItemSoundness
  import S = Soundness

  // ---------- rigid constants ----------

  predicate IsDigit(c: char) { '0' <= c <= '9' }

  lemma {:induction false} DigitsShape(n: nat)
    ensures Digits(n) != "" && IsDigit(Digits(n)[0])
    ensures Digits(n)[|Digits(n)| - 1] == "0123456789"[n % 10]
    ensures Digits(n)[..|Digits(n)| - 1] == if n < 10 then "" else Digits(n / 10)
  {
    if n >= 10 { DigitsShape(n / 10); }
  }

  lemma {:induction false} DigitsApart(n: nat, m: nat)
    requires Digits(n) == Digits(m)
    ensures n == m
  {
    hide Digits;
    DigitsShape(n);
    DigitsShape(m);
    assert n % 10 == m % 10;
    if n >= 10 && m >= 10 {
      DigitsApart(n / 10, m / 10);
    } else if n >= 10 {
      DigitsShape(n / 10);
    } else if m >= 10 {
      DigitsShape(m / 10);
    }
  }

  lemma {:induction false} NumeralsApart(n: int, m: int)
    requires IntToString(n) == IntToString(m)
    ensures n == m
  {
    hide Digits;
    if n >= 0 { DigitsShape(n); }
    if m >= 0 { DigitsShape(m); }
    if n < 0 && m < 0 {
      assert IntToString(n)[1..] == Digits(-n) && IntToString(m)[1..] == Digits(-m);
      DigitsApart(-n, -m);
    } else if n >= 0 && m >= 0 {
      DigitsApart(n, m);
    }
  }

  function Rigid(i: int): string { "@sk" + IntToString(i) }

  lemma {:induction false} RigidNames()
    ensures forall i :: Rigid(i) != "" && Rigid(i)[0] == '@'
  {
    hide IntToString;
    forall i ensures Rigid(i) != "" && Rigid(i)[0] == '@' { assert Rigid(i)[0] == "@sk"[0]; }
  }

  lemma {:induction false} RigidApart(i: int, j: int)
    requires Rigid(i) == Rigid(j)
    ensures i == j
  {
    assert Rigid(i)[3..] == IntToString(i) && Rigid(j)[3..] == IntToString(j);
    NumeralsApart(i, j);
  }

  // A quantified variable stands for the constant numbered by one of its
  // occurrences.
  lemma {:induction false} SkolemAt(tvs: seq<string>, ctr: int, acc: seq<(string, Ty5)>, v: string) returns (i: nat)
    ensures v in tvs ==> i < |tvs| && tvs[i] == v && ScopeTy(SkolemScope(tvs, ctr, acc), v) == Some(C(Rigid(ctr + i)))
    ensures v !in tvs ==> ScopeTy(SkolemScope(tvs, ctr, acc), v) == ScopeTy(acc, v)
    decreases tvs
  {
    hide IntToString;
    i := 0;
    if tvs != [] {
      var acc1 := [(tvs[0], C(Rigid(ctr)))] + acc;
      assert acc1[1..] == acc;
      var k := SkolemAt(tvs[1..], ctr + 1, acc1, v);
      if v in tvs[1..] { i := k + 1; }
    }
  }

  // Different variables stand for different constants.
  lemma {:induction false} SkolemsApart(tvs: seq<string>, ctr: int, v: string, w: string)
    requires v in tvs && w in tvs && v != w
    ensures ScopeTy(SkolemScope(tvs, ctr, []), v) != ScopeTy(SkolemScope(tvs, ctr, []), w)
  {
    hide Rigid, SkolemScope, ScopeTy;
    var i := SkolemAt(tvs, ctr, [], v);
    var j := SkolemAt(tvs, ctr, [], w);
    if Rigid(ctr + i) == Rigid(ctr + j) { RigidApart(ctr + i, ctr + j); }
  }

  // ---------- what a declared type says ----------

  // ta says t when its variables stand for what asg gives them.
  predicate Says(ar: Arities, asg: string -> Ty, ta: TyA, t: Ty)
    decreases ta
  {
    match ta
    case TVar(v) => t == asg(v)
    case TCon(n, args) =>
      if n in {"Int", "Bool", "String", "Unit"} then t == TC(n) && args == []
      else
        && t.TApp? && t.head == n && SayAll(ar, asg, args, t.args)
        && |args| == if n == "List" then 1 else ar(n)
    case TArr(a, b) => t.TAr? && Says(ar, asg, a, t.dom) && Says(ar, asg, b, t.cod)
    case TTup(es) => t.TTup? && SayAll(ar, asg, es, t.elems)
    case TRec(_, _) => false
  }

  predicate SayAll(ar: Arities, asg: string -> Ty, tas: seq<TyA>, ts: Tys)
    decreases tas
  {
    if tas == [] then ts == Nil
    else ts.Cons? && Says(ar, asg, tas[0], ts.hd) && SayAll(ar, asg, tas[1..], ts.tl)
  }

  // No record type in it.
  predicate Bare(ta: TyA)
    decreases ta
  {
    match ta
    case TVar(_) => true
    case TCon(_, args) => AllBare(args)
    case TArr(a, b) => Bare(a) && Bare(b)
    case TTup(es) => AllBare(es)
    case TRec(_, _) => false
  }

  predicate AllBare(ts: seq<TyA>)
    decreases ts
  {
    ts == [] || (Bare(ts[0]) && AllBare(ts[1..]))
  }

  lemma {:induction false} BareRows(ta: TyA)
    requires Bare(ta)
    ensures RowNames(ta) == {}
    decreases ta
  {
    match ta
    case TVar(_) =>
    case TCon(_, args) => AllBareRows(args);
    case TArr(a, b) => BareRows(a); BareRows(b);
    case TTup(es) => AllBareRows(es);
  }

  lemma {:induction false} AllBareRows(ts: seq<TyA>)
    requires AllBare(ts)
    ensures RowNamesOf(ts) == {}
    decreases ts
  {
    if ts != [] {
      BareRows(ts[0]);
      AllBareRows(ts[1..]);
    }
  }

  // A scope of constants, read.
  predicate Consts(sc: seq<(string, Ty5)>) { forall i :: 0 <= i < |sc| ==> sc[i].1.C? }

  function Stand(sc: seq<(string, Ty5)>): string -> Ty {
    v => match ScopeTy(sc, v) case Some(C(n)) => TC(n) case _ => TC("")
  }

  lemma {:induction false} ScopeConst(sc: seq<(string, Ty5)>, v: string)
    requires Consts(sc) && ScopeTy(sc, v).Some?
    ensures The(ScopeTy(sc, v)).C?
  {
    if sc[0].0 != v { ScopeConst(sc[1..], v); }
  }

  // The declared type says what it resolves to when its variables stand for
  // their constants.
  lemma {:induction false} ResolveSays(ta: TyA, sc: seq<(string, Ty5)>, rs: seq<(string, int)>, ar: Arities)
    requires Bare(ta) && Consts(sc) && Resolve(ta, sc, rs, ar).Some?
    ensures var u := The(Resolve(ta, sc, rs, ar));
            Plain(u) && FV(Read(u)) == {} && Says(ar, Stand(sc), ta, Read(u))
    decreases ta
  {
    hide Consts, ScopeTy, ScopeRow;
    match ta
    case TVar(v) => ScopeConst(sc, v);
    case TCon(n, args) => if n !in ["Int", "Bool", "String", "Unit"] { ResolveAllSay(args, sc, rs, ar); }
    case TArr(a, b) => ResolveSays(a, sc, rs, ar); ResolveSays(b, sc, rs, ar);
    case TTup(es) => ResolveAllSay(es, sc, rs, ar);
  }

  lemma {:induction false} ResolveAllSay(tas: seq<TyA>, sc: seq<(string, Ty5)>, rs: seq<(string, int)>, ar: Arities)
    requires AllBare(tas) && Consts(sc) && ResolveList(tas, sc, rs, ar).Some?
    ensures var us := The(ResolveList(tas, sc, rs, ar));
            AllPlain(us) && FVs(ReadAll(us)) == {} && SayAll(ar, Stand(sc), tas, ReadAll(us))
    decreases tas
  {
    hide Consts, Resolve, Says, Stand;
    if tas != [] {
      ResolveSays(tas[0], sc, rs, ar);
      ResolveAllSay(tas[1..], sc, rs, ar);
      var u, us := Resolve(tas[0], sc, rs, ar).value, ResolveList(tas[1..], sc, rs, ar).value;
      assert ([u] + us)[0] == u && ([u] + us)[1..] == us;
    }
  }

  // ---------- replacing constants ----------

  type Recast = string -> Ty

  function Cast(sg: Recast, t: Ty): Ty {
    match t
    case TVI(_) => t
    case TC(n) => sg(n)
    case TAr(a, b) => TAr(Cast(sg, a), Cast(sg, b))
    case TTup(ts) => Ty.TTup(CastAll(sg, ts))
    case TApp(n, ts) => TApp(n, CastAll(sg, ts))
  }

  function CastAll(sg: Recast, ts: Tys): Tys {
    match ts case Nil => Nil case Cons(h, r) => Cons(Cast(sg, h), CastAll(sg, r))
  }

  // A replacement that leaves the base types alone.
  predicate KeepsBase(sg: Recast) { forall n :: n in {"Int", "Bool", "String", "Unit"} ==> sg(n) == TC(n) }

  // What is said of the constants is said of what replaces them, and of that
  // only.
  lemma {:induction false} SaysCast(ar: Arities, asg: string -> Ty, sg: Recast, to: string -> Ty, ta: TyA, t: Ty, u: Ty)
    requires KeepsBase(sg) && Says(ar, asg, ta, t) && forall v :: v in TyNames(ta) ==> to(v) == Cast(sg, asg(v))
    ensures Says(ar, to, ta, u) <==> u == Cast(sg, t)
    decreases ta
  {
    match ta
    case TVar(v) =>
    case TCon(n, args) =>
      if n !in {"Int", "Bool", "String", "Unit"} && u.TApp? { SayAllCast(ar, asg, sg, to, args, t.args, u.args); }
      if n !in {"Int", "Bool", "String", "Unit"} { SayAllCast(ar, asg, sg, to, args, t.args, CastAll(sg, t.args)); }
    case TArr(a, b) =>
      if u.TAr? {
        SaysCast(ar, asg, sg, to, a, t.dom, u.dom);
        SaysCast(ar, asg, sg, to, b, t.cod, u.cod);
      }
    case TTup(es) => if u.TTup? { SayAllCast(ar, asg, sg, to, es, t.elems, u.elems); }
  }

  lemma {:induction false} SayAllCast(ar: Arities, asg: string -> Ty, sg: Recast, to: string -> Ty, tas: seq<TyA>,
                                      ts: Tys, us: Tys)
    requires KeepsBase(sg) && SayAll(ar, asg, tas, ts) && forall v :: v in TyNamesOf(tas) ==> to(v) == Cast(sg, asg(v))
    ensures SayAll(ar, to, tas, us) <==> us == CastAll(sg, ts)
    decreases tas
  {
    hide Says, KeepsBase;
    if tas != [] && us.Cons? {
      SaysCast(ar, asg, sg, to, tas[0], ts.hd, us.hd);
      SayAllCast(ar, asg, sg, to, tas[1..], ts.tl, us.tl);
    }
  }

  // The constants of a type.
  function Constants(t: Ty): set<string> {
    match t
    case TVI(_) => {}
    case TC(n) => {n}
    case TAr(a, b) => Constants(a) + Constants(b)
    case TTup(ts) => ConstantsOf(ts)
    case TApp(_, ts) => ConstantsOf(ts)
  }

  function ConstantsOf(ts: Tys): set<string> {
    match ts case Nil => {} case Cons(h, r) => Constants(h) + ConstantsOf(r)
  }

  lemma {:induction false} CastMap(sg: Recast, f: U.Assign, g: U.Assign, t: Ty)
    requires (forall n :: n in Constants(t) ==> sg(n) == TC(n)) && forall x :: x in FV(t) ==> g(x) == Cast(sg, f(x))
    ensures Cast(sg, U.Map(f, t)) == U.Map(g, t)
    decreases t
  {
    match t
    case TVI(_) =>
    case TC(_) =>
    case TAr(a, b) => CastMap(sg, f, g, a); CastMap(sg, f, g, b);
    case TTup(ts) => CastMaps(sg, f, g, ts);
    case TApp(_, ts) => CastMaps(sg, f, g, ts);
  }

  lemma {:induction false} CastMaps(sg: Recast, f: U.Assign, g: U.Assign, ts: Tys)
    requires (forall n :: n in ConstantsOf(ts) ==> sg(n) == TC(n))
    requires forall x :: x in FVs(ts) ==> g(x) == Cast(sg, f(x))
    ensures CastAll(sg, U.Maps(f, ts)) == U.Maps(g, ts)
    decreases ts
  {
    match ts
    case Nil =>
    case Cons(h, r) => CastMap(sg, f, g, h); CastMaps(sg, f, g, r);
  }

  // An instance stays one when constants the scheme does not mention are
  // replaced.
  lemma {:induction false} CastInst(sg: Recast, sch: W.Sch, t: Ty)
    requires t in D.Insts(sch) && forall n :: n in Constants(sch.ty) ==> sg(n) == TC(n)
    ensures Cast(sg, t) in D.Insts(sch)
  {
    hide Cast, U.Map;
    var rho: U.Assign :| t == U.Map(D.Subst(sch.qs, rho), sch.ty);
    var rho1: U.Assign := x => Cast(sg, rho(x));
    forall x | x in FV(sch.ty) ensures D.Subst(sch.qs, rho1)(x) == Cast(sg, D.Subst(sch.qs, rho)(x)) { CastVar(sg, x); }
    CastMap(sg, D.Subst(sch.qs, rho), D.Subst(sch.qs, rho1), sch.ty);
    assert Cast(sg, t) == U.Map(D.Subst(sch.qs, rho1), sch.ty);
  }

  lemma {:induction false} CastVar(sg: Recast, x: int)
    ensures Cast(sg, TVI(x)) == TVI(x)
  {
  }

  // ---------- the contract ----------

  // Every type the declared one says is an instance.
  ghost predicate AllInstances(ar: Arities, ta: TyA, sch: W.Sch) {
    forall asg: string -> Ty, t: Ty :: Says(ar, asg, ta, t) ==> t in D.Insts(sch)
  }

  // No name a signature check makes up is in use.
  predicate NoRigid(names: set<string>) { forall n :: n in names ==> n == "" || n[0] != '@' }

  // The variable that stands for the constant n.
  ghost function Owner(tvs: seq<string>, sc: seq<(string, Ty5)>, n: string): (r: Option<string>)
    ensures r.Some? ==> r.value in tvs && ScopeTy(sc, r.value) == Some(C(n))
    ensures r.None? ==> forall v :: v in tvs ==> ScopeTy(sc, v) != Some(C(n))
  {
    if exists v :: v in tvs && ScopeTy(sc, v) == Some(C(n)) then
      var v :| v in tvs && ScopeTy(sc, v) == Some(C(n)); Some(v)
    else None
  }

  ghost function Replace(tvs: seq<string>, sc: seq<(string, Ty5)>, asg: string -> Ty): Recast {
    n => match Owner(tvs, sc, n) case None => TC(n) case Some(v) => asg(v)
  }

  lemma {:induction false} ReplaceAt(tvs: seq<string>, ctr: int, asg: string -> Ty, v: string)
    requires v in tvs
    ensures var sc := SkolemScope(tvs, ctr, []);
            asg(v) == Cast(Replace(tvs, sc, asg), Stand(sc)(v)) && ScopeTy(sc, v).Some?
  {
    hide Rigid, SkolemScope, ScopeTy;
    var sc := SkolemScope(tvs, ctr, []);
    var i := SkolemAt(tvs, ctr, [], v);
    var n := Rigid(ctr + i);
    var w := Owner(tvs, sc, n);
    if w != Some(v) { SkolemsApart(tvs, ctr, v, w.value); }
  }

  lemma {:induction false} ReplaceElse(tvs: seq<string>, ctr: int, asg: string -> Ty, n: string)
    requires n == "" || n[0] != '@'
    ensures Replace(tvs, SkolemScope(tvs, ctr, []), asg)(n) == TC(n)
  {
    hide SkolemScope, ScopeTy, IntToString;
    var sc := SkolemScope(tvs, ctr, []);
    var v := Owner(tvs, sc, n);
    RigidNames();
    if v.Some? { var i := SkolemAt(tvs, ctr, [], v.value); }
  }

  lemma {:induction false} SkolemConsts(tvs: seq<string>, ctr: int, acc: seq<(string, Ty5)>)
    requires Consts(acc)
    ensures Consts(SkolemScope(tvs, ctr, acc))
    decreases tvs
  {
    if tvs != [] { SkolemConsts(tvs[1..], ctr + 1, [(tvs[0], C(Rigid(ctr)))] + acc); }
  }

  // The declared type with its constants is an instance exactly when all it
  // says are.
  lemma {:induction false} RigidExact(ar: Arities, ta: TyA, tvs: seq<string>, ctr: int, sch: W.Sch, t: Ty)
    requires Says(ar, Stand(SkolemScope(tvs, ctr, [])), ta, t) && NoRigid(Constants(sch.ty))
    requires forall v :: v in TyNames(ta) ==> v in tvs
    ensures t in D.Insts(sch) <==> AllInstances(ar, ta, sch)
  {
    hide SkolemScope, ScopeTy, Says, Constants, Cast, D.Insts, TyNames, Replace;
    var sc := SkolemScope(tvs, ctr, []);
    if t in D.Insts(sch) {
      forall asg: string -> Ty, u: Ty | Says(ar, asg, ta, u) ensures u in D.Insts(sch) {
        var sg := Replace(tvs, sc, asg);
        forall n | n in {"Int", "Bool", "String", "Unit"} ensures sg(n) == TC(n) { ReplaceElse(tvs, ctr, asg, n); }
        forall v | v in TyNames(ta) ensures asg(v) == Cast(sg, Stand(sc)(v)) { ReplaceAt(tvs, ctr, asg, v); }
        SaysCast(ar, Stand(sc), sg, asg, ta, t, u);
        forall n | n in Constants(sch.ty) ensures sg(n) == TC(n) { ReplaceElse(tvs, ctr, asg, n); }
        CastInst(sg, sch, t);
      }
    }
  }

  // The inferred scheme, resolved.
  ghost function Inferred(sch: Sch5, s: St): W.Sch
    requires Sane(s) && Plain(sch.ty)
  {
    W.Sch(sch.qvars, Ap(Bindings(s), Read(sch.ty)))
  }

  // A closed scheme meets a signature without records if and only if the
  // declared type is well formed, its variables are quantified, and all it says
  // are instances of the scheme.
  lemma {:induction false} SigExact(n: nat, sch: Sch5, sig: Sig, ar: Arities, s: St)
    requires Fresh(s) && Plain(sch.ty) && F.Below(Read(sch.ty), s.ctr) && Bare(sig.ty)
    requires SigCheck(n, sch, sig, ar, s).Some?
    requires I.Closed(Inferred(sch, s)) && NoRigid(Constants(Inferred(sch, s).ty))
    ensures The(SigCheck(n, sch, sig, ar, s)).ok
       <==> && Formed(sig.ty, ar) && (forall v :: v in TyNames(sig.ty) ==> v in sig.fall)
            && AllInstances(ar, sig.ty, Inferred(sch, s))
  {
    hide SigTrial, Resolve, AnnVars, Split, SkolemScope, RowScope, Bindings, Sane, Plain, Read, Formed, Bare;
    hide AllInstances, I.Closed, Constants, Says, TyNames, RowNames;
    var (tns, rns) := AnnVars(sig.ty, [], []);
    var tvs, rvs := Split(sig.fall, tns), Split(sig.fall, rns);
    var s1 := s.(ctr := s.ctr + |tvs|);
    BareRows(sig.ty);
    AnnVarsAre(sig.ty, [], []);
    SplitNone(sig.fall);
    SplitIs(sig.fall, tns);
    DeclaredExact(sig, s.ctr, ar);
    assert forall r :: r in rns <==> r in RowNames(sig.ty);
    NoElements(rns);
    if Declared(sig, s.ctr, ar).Some? {
      var declared := Declared(sig, s.ctr, ar).value;
      assert Resolve(sig.ty, SkolemScope(tvs, s.ctr, []), RowScope(rvs, 1, []), ar) == Some(declared);
      SkolemConsts(tvs, s.ctr, []);
      ResolveSays(sig.ty, SkolemScope(tvs, s.ctr, []), RowScope(rvs, 1, []), ar);
      RigidExact(ar, sig.ty, tvs, s.ctr, Inferred(sch, s), Read(declared));
      Later(s, |tvs|);
      TrialMeets(n, sch, declared, s1);
    }
  }

  lemma {:induction false} NoElements(xs: seq<string>)
    ensures xs != [] ==> exists x :: x in xs
  {
    if xs != [] { assert xs[0] in xs; }
  }

  lemma {:induction false} SplitNone(fall: seq<string>)
    ensures Split(fall, []) == []
  {
    if fall != [] { SplitNone(fall[1..]); }
  }

  lemma {:induction false} Later(s: St, k: nat)
    requires Fresh(s)
    ensures Fresh(s.(ctr := s.ctr + k)) && Bindings(s.(ctr := s.ctr + k)) == Bindings(s)
  {
    hide WF, PlainSub;
  }

  lemma {:induction false} TrialMeets(n: nat, sch: Sch5, declared: Ty5, s: St)
    requires Fresh(s) && Plain(sch.ty) && F.Below(Read(sch.ty), s.ctr) && I.Closed(Inferred(sch, s))
    requires Plain(declared) && FV(Read(declared)) == {} && SigTrial(n, sch, declared, s).Some?
    ensures The(SigTrial(n, sch, declared, s)).ok <==> Read(declared) in D.Insts(Inferred(sch, s))
  {
    hide Instantiate, Unify, Rollback, Sane, Plain, Read, Bindings, D.Insts, U.Map, U.Solves;
    InstanceExact(n, sch, declared, s);
    forall th: U.Assign
      ensures Meanings(th, s, sch) == D.Insts(Inferred(sch, s)) && U.Map(th, Read(declared)) == Read(declared)
    {
      I.ClosedInst(th, Bindings(s), ReadSch(sch));
      S.MapExt(th, S.IdAssign(), Read(declared));
      S.MapId(Read(declared));
    }
    var th := AnySolution(s);
  }
}

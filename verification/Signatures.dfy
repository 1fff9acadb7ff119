// Signature contracts (g5_sig_check in gen5/g5_infer.dc): the variables a
// signature quantifies become rigid, the declared type is resolved, and the
// inferred scheme is tried against it.
module Signatures {
  import opened Types
  import opened Trial

  // Annotations as written; an empty row name is a closed record.
  datatype TyA =
    | TVar(v: string)
    | TCon(name: string, args: seq<TyA>)
    | TArr(a: TyA, b: TyA)
    | TTup(ts: seq<TyA>)
    | TRec(flds: seq<Slot>, row: string)

  datatype Slot = Slot(lb: string, ty: TyA)

  datatype Sig = Sig(fall: seq<string>, ty: TyA)

  // Arities of the declared types; a negative one is none.
  type Arities = string -> int

  // ---------- scopes ----------

  // g5_ann_vars: type variables and row variables, each once, newest first.
  function AnnVars(ta: TyA, tacc: seq<string>, racc: seq<string>): (seq<string>, seq<string>)
    decreases ta
  {
    match ta
    case TVar(v) => (if v in tacc then tacc else [v] + tacc, racc)
    case TCon(_, args) => AnnVarList(args, tacc, racc)
    case TArr(a, b) => var (t1, r1) := AnnVars(a, tacc, racc); AnnVars(b, t1, r1)
    case TTup(ts) => AnnVarList(ts, tacc, racc)
    case TRec(flds, row) =>
      var (t1, r1) := AnnVarFields(flds, tacc, racc);
      (t1, if row == "" || row in r1 then r1 else [row] + r1)
  }

  function AnnVarList(ts: seq<TyA>, tacc: seq<string>, racc: seq<string>): (seq<string>, seq<string>)
    decreases ts
  {
    if ts == [] then (tacc, racc)
    else var (t1, r1) := AnnVars(ts[0], tacc, racc); AnnVarList(ts[1..], t1, r1)
  }

  function AnnVarFields(flds: seq<Slot>, tacc: seq<string>, racc: seq<string>): (seq<string>, seq<string>)
    decreases flds
  {
    if flds == [] then (tacc, racc)
    else var (t1, r1) := AnnVars(flds[0].ty, tacc, racc); AnnVarFields(flds[1..], t1, r1)
  }

  // g5_split_ty and g5_split_row.
  function Split(fall: seq<string>, names: seq<string>): seq<string> {
    if fall == [] then []
    else (if fall[0] in names then [fall[0]] else []) + Split(fall[1..], names)
  }

  function Digits(n: nat): string { (if n < 10 then "" else Digits(n / 10)) + ["0123456789"[n % 10]] }

  function IntToString(n: int): string { if n < 0 then "-" + Digits(-n) else Digits(n) }

  // Each type variable stands for a constant of its own.
  function SkolemScope(tvs: seq<string>, ctr: int, acc: seq<(string, Ty5)>): seq<(string, Ty5)> {
    if tvs == [] then acc else SkolemScope(tvs[1..], ctr + 1, [(tvs[0], C("@sk" + IntToString(ctr)))] + acc)
  }

  // g5_sig_rows_loop: rigid rows are numbered downwards from -1.
  function RowScope(rvs: seq<string>, pos: int, acc: seq<(string, int)>): seq<(string, int)> {
    if rvs == [] then acc else RowScope(rvs[1..], pos + 1, [(rvs[0], -pos)] + acc)
  }

  function ScopeTy(scope: seq<(string, Ty5)>, v: string): Option<Ty5> {
    if scope == [] then None else if scope[0].0 == v then Some(scope[0].1) else ScopeTy(scope[1..], v)
  }

  // g5_lookup_str5: -1 when there is no entry.
  function ScopeRow(scope: seq<(string, int)>, v: string): int {
    if scope == [] then -1 else if scope[0].0 == v then scope[0].1 else ScopeRow(scope[1..], v)
  }

  // ---------- the declared type ----------

  // g5_resolve_sig_go; None is an error.
  function Resolve(ta: TyA, ts: seq<(string, Ty5)>, rs: seq<(string, int)>, ar: Arities): Option<Ty5>
    decreases ta
  {
    match ta
    case TVar(v) => ScopeTy(ts, v)
    case TCon(n, args) =>
      if n in ["Int", "Bool", "String", "Unit"] then if args == [] then Some(C(n)) else None
      else if |args| != (if n == "List" then 1 else ar(n)) then None
      else var us :- ResolveList(args, ts, rs, ar); Some(App(n, us))
    case TArr(a, b) =>
      var u :- Resolve(a, ts, rs, ar);
      var v :- Resolve(b, ts, rs, ar);
      Some(Ar(u, v))
    case TTup(es) => var us :- ResolveList(es, ts, rs, ar); Some(Tup(us))
    case TRec(flds, row) =>
      var out :- ResolveFields(flds, ts, rs, ar, []);
      if row == "" then Some(Rec(out, RClosed))
      else if ScopeRow(rs, row) == -1 then None
      else Some(Rec(out, ROpen(ScopeRow(rs, row))))
  }

  function ResolveList(es: seq<TyA>, ts: seq<(string, Ty5)>, rs: seq<(string, int)>, ar: Arities): Option<seq<Ty5>>
    decreases es
  {
    if es == [] then Some([])
    else
      var u :- Resolve(es[0], ts, rs, ar);
      var us :- ResolveList(es[1..], ts, rs, ar);
      Some([u] + us)
  }

  // A label may occur once; acc is what came before.
  function ResolveFields(flds: seq<Slot>, ts: seq<(string, Ty5)>, rs: seq<(string, int)>, ar: Arities, acc: Fields)
    : Option<Fields>
    decreases flds
  {
    if flds == [] then Some(acc)
    else if HasField(acc, flds[0].lb) then None
    else
      var u :- Resolve(flds[0].ty, ts, rs, ar);
      ResolveFields(flds[1..], ts, rs, ar, acc + [(flds[0].lb, u)])
  }

  function Declared(sig: Sig, ctr: int, ar: Arities): Option<Ty5> {
    var (tns, rns) := AnnVars(sig.ty, [], []);
    Resolve(sig.ty, SkolemScope(Split(sig.fall, tns), ctr, []), RowScope(Split(sig.fall, rns), 1, []), ar)
  }

  // ---------- the check ----------

  // The inferred scheme against the declared type.
  function SigTrial(n: nat, sch: Sch5, declared: Ty5, s: St): Option<Att> {
    var i :- Instantiate(n, sch, s);
    var r :- Unify(n, i.ty, declared, i.s);
    Some(Att(Rollback(r.s, Snapshot(i.s)), r.ok))
  }

  // g5_sig_check.
  function SigCheck(n: nat, sch: Sch5, sig: Sig, ar: Arities, s: St): Option<Att> {
    var s1 := s.(ctr := s.ctr + |Split(sig.fall, AnnVars(sig.ty, [], []).0)|);
    match Declared(sig, s.ctr, ar)
    case None => Some(Att(s1, false))
    case Some(declared) => SigTrial(n, sch, declared, s1)
  }

  // A signature leaves nothing behind but advanced counters: not when it is
  // malformed, not when the trial fails, and not when it is met.
  lemma {:induction false} SigLeavesNoTrace(n: nat, sch: Sch5, sig: Sig, ar: Arities, s: St)
    requires SigCheck(n, sch, sig, ar, s).Some?
    ensures var s1 := The(SigCheck(n, sch, sig, ar, s)).s;
            s1 == s.(ctr := s1.ctr, rowctr := s1.rowctr) && s1.ctr >= s.ctr && s1.rowctr >= s.rowctr
  {
    hide SigTrial, Declared, Split, AnnVars;
    var s1 := s.(ctr := s.ctr + |Split(sig.fall, AnnVars(sig.ty, [], []).0)|);
    match Declared(sig, s.ctr, ar)
    case None =>
    case Some(declared) => TrialLeavesNoTrace(n, sch, declared, s1);
  }

  lemma {:induction false} TrialLeavesNoTrace(n: nat, sch: Sch5, declared: Ty5, s: St)
    requires SigTrial(n, sch, declared, s).Some?
    ensures var s1 := The(SigTrial(n, sch, declared, s)).s;
            s1 == s.(ctr := s1.ctr, rowctr := s1.rowctr) && s1.ctr >= s.ctr && s1.rowctr >= s.rowctr
  {
    hide Unify, Rollback, Rewrite, Trial.ZipIds;
    var i := Instantiate(n, sch, s).value;
    TrialUndone(n, i.ty, declared, i.s);
    var r := Unify(n, i.ty, declared, i.s).value;
    var s1 := SigTrial(n, sch, declared, s).value.s;
    assert s1 == Rollback(r.s, Snapshot(i.s)) == i.s.(rowctr := r.s.rowctr);
    assert i.s == s.(ctr := i.s.ctr, rowctr := i.s.rowctr);
    assert s1.ctr == i.s.ctr && s1.rowctr == r.s.rowctr && i.s.ctr >= s.ctr;
  }

  // ---------- which signatures resolve ----------

  // The variables an annotation mentions.
  function TyNames(ta: TyA): set<string>
    decreases ta
  {
    match ta
    case TVar(v) => {v}
    case TCon(_, args) => TyNamesOf(args)
    case TArr(a, b) => TyNames(a) + TyNames(b)
    case TTup(ts) => TyNamesOf(ts)
    case TRec(flds, _) => TyNamesIn(flds)
  }

  function TyNamesOf(ts: seq<TyA>): set<string>
    decreases ts
  {
    if ts == [] then {} else TyNames(ts[0]) + TyNamesOf(ts[1..])
  }

  function TyNamesIn(flds: seq<Slot>): set<string>
    decreases flds
  {
    if flds == [] then {} else TyNames(flds[0].ty) + TyNamesIn(flds[1..])
  }

  function RowNames(ta: TyA): set<string>
    decreases ta
  {
    match ta
    case TVar(_) => {}
    case TCon(_, args) => RowNamesOf(args)
    case TArr(a, b) => RowNames(a) + RowNames(b)
    case TTup(ts) => RowNamesOf(ts)
    case TRec(flds, row) => RowNamesIn(flds) + if row == "" then {} else {row}
  }

  function RowNamesOf(ts: seq<TyA>): set<string>
    decreases ts
  {
    if ts == [] then {} else RowNames(ts[0]) + RowNamesOf(ts[1..])
  }

  function RowNamesIn(flds: seq<Slot>): set<string>
    decreases flds
  {
    if flds == [] then {} else RowNames(flds[0].ty) + RowNamesIn(flds[1..])
  }

  // Types are known and have their number of arguments; labels are distinct.
  predicate Formed(ta: TyA, ar: Arities)
    decreases ta
  {
    match ta
    case TVar(_) => true
    case TCon(n, args) =>
      |args| == (if n in ["Int", "Bool", "String", "Unit"] then 0 else if n == "List" then 1 else ar(n))
      && AllFormed(args, ar)
    case TArr(a, b) => Formed(a, ar) && Formed(b, ar)
    case TTup(ts) => AllFormed(ts, ar)
    case TRec(flds, _) => FieldsFormed(flds, ar, {})
  }

  predicate AllFormed(ts: seq<TyA>, ar: Arities)
    decreases ts
  {
    ts == [] || (Formed(ts[0], ar) && AllFormed(ts[1..], ar))
  }

  predicate FieldsFormed(flds: seq<Slot>, ar: Arities, seen: set<string>)
    decreases flds
  {
    flds == [] || (flds[0].lb !in seen && Formed(flds[0].ty, ar) && FieldsFormed(flds[1..], ar, seen + {flds[0].lb}))
  }

  // Every variable is one the scopes know.
  predicate Known(tns: set<string>, rns: set<string>, ts: seq<(string, Ty5)>, rs: seq<(string, int)>) {
    (forall v :: v in tns ==> ScopeTy(ts, v).Some?) && (forall r :: r in rns ==> ScopeRow(rs, r) != -1)
  }

  lemma {:induction false} ResolveExact(ta: TyA, ts: seq<(string, Ty5)>, rs: seq<(string, int)>, ar: Arities)
    ensures Resolve(ta, ts, rs, ar).Some? <==> Formed(ta, ar) && Known(TyNames(ta), RowNames(ta), ts, rs)
    decreases ta
  {
    hide ScopeTy, ScopeRow;
    match ta
    case TVar(v) =>
    case TCon(_, args) => ResolveListExact(args, ts, rs, ar);
    case TArr(a, b) => ResolveExact(a, ts, rs, ar); ResolveExact(b, ts, rs, ar);
    case TTup(es) => ResolveListExact(es, ts, rs, ar);
    case TRec(flds, _) => ResolveFieldsExact(flds, ts, rs, ar, [], {});
  }

  lemma {:induction false} ResolveListExact(es: seq<TyA>, ts: seq<(string, Ty5)>, rs: seq<(string, int)>, ar: Arities)
    ensures ResolveList(es, ts, rs, ar).Some? <==> AllFormed(es, ar) && Known(TyNamesOf(es), RowNamesOf(es), ts, rs)
    decreases es
  {
    hide ScopeTy, ScopeRow;
    if es != [] {
      ResolveExact(es[0], ts, rs, ar);
      ResolveListExact(es[1..], ts, rs, ar);
    }
  }

  lemma {:induction false} ResolveFieldsExact(flds: seq<Slot>, ts: seq<(string, Ty5)>, rs: seq<(string, int)>,
                                              ar: Arities, acc: Fields, seen: set<string>)
    requires forall lb :: HasField(acc, lb) <==> lb in seen
    ensures ResolveFields(flds, ts, rs, ar, acc).Some?
       <==> FieldsFormed(flds, ar, seen) && Known(TyNamesIn(flds), RowNamesIn(flds), ts, rs)
    decreases flds
  {
    hide ScopeTy, ScopeRow;
    if flds != [] {
      ResolveExact(flds[0].ty, ts, rs, ar);
      var u := Resolve(flds[0].ty, ts, rs, ar);
      if u.Some? {
        forall lb ensures HasField(acc + [(flds[0].lb, u.value)], lb) <==> lb in seen + {flds[0].lb} {
          FieldAppend(acc, flds[0].lb, u.value, lb);
        }
        ResolveFieldsExact(flds[1..], ts, rs, ar, acc + [(flds[0].lb, u.value)], seen + {flds[0].lb});
      }
    }
  }

  lemma {:induction false} FieldAppend(acc: Fields, lb0: string, u: Ty5, lb: string)
    ensures HasField(acc + [(lb0, u)], lb) <==> HasField(acc, lb) || lb == lb0
  {
    if acc != [] {
      assert (acc + [(lb0, u)])[1..] == acc[1..] + [(lb0, u)];
      FieldAppend(acc[1..], lb0, u, lb);
    }
  }

  // The variables collected are those mentioned.
  lemma {:induction false} AnnVarsAre(ta: TyA, tacc: seq<string>, racc: seq<string>)
    ensures var (t1, r1) := AnnVars(ta, tacc, racc);
            && (forall v :: v in t1 <==> v in tacc || v in TyNames(ta))
            && (forall r :: r in r1 <==> r in racc || r in RowNames(ta))
    decreases ta
  {
    match ta
    case TVar(_) =>
    case TCon(_, args) => ListVarsAre(args, tacc, racc);
    case TArr(a, b) =>
      var (t1, r1) := AnnVars(a, tacc, racc);
      AnnVarsAre(a, tacc, racc);
      AnnVarsAre(b, t1, r1);
    case TTup(ts) => ListVarsAre(ts, tacc, racc);
    case TRec(flds, _) => FieldVarsAre(flds, tacc, racc);
  }

  lemma {:induction false} ListVarsAre(ts: seq<TyA>, tacc: seq<string>, racc: seq<string>)
    ensures var (t1, r1) := AnnVarList(ts, tacc, racc);
            && (forall v :: v in t1 <==> v in tacc || v in TyNamesOf(ts))
            && (forall r :: r in r1 <==> r in racc || r in RowNamesOf(ts))
    decreases ts
  {
    if ts != [] {
      var (t1, r1) := AnnVars(ts[0], tacc, racc);
      AnnVarsAre(ts[0], tacc, racc);
      ListVarsAre(ts[1..], t1, r1);
    }
  }

  lemma {:induction false} FieldVarsAre(flds: seq<Slot>, tacc: seq<string>, racc: seq<string>)
    ensures var (t1, r1) := AnnVarFields(flds, tacc, racc);
            && (forall v :: v in t1 <==> v in tacc || v in TyNamesIn(flds))
            && (forall r :: r in r1 <==> r in racc || r in RowNamesIn(flds))
    decreases flds
  {
    if flds != [] {
      var (t1, r1) := AnnVars(flds[0].ty, tacc, racc);
      AnnVarsAre(flds[0].ty, tacc, racc);
      FieldVarsAre(flds[1..], t1, r1);
    }
  }

  lemma {:induction false} SplitIs(fall: seq<string>, names: seq<string>)
    ensures forall v :: v in Split(fall, names) <==> v in fall && v in names
  {
    if fall != [] { SplitIs(fall[1..], names); }
  }

  lemma {:induction false} SkolemsAre(tvs: seq<string>, ctr: int, acc: seq<(string, Ty5)>, v: string)
    ensures ScopeTy(SkolemScope(tvs, ctr, acc), v).Some? <==> v in tvs || ScopeTy(acc, v).Some?
    decreases tvs
  {
    if tvs != [] { SkolemsAre(tvs[1..], ctr + 1, [(tvs[0], C("@sk" + IntToString(ctr)))] + acc, v); }
  }

  // Counted from pos, a row's last occurrence decides its number.
  lemma {:induction false} RowsAre(rvs: seq<string>, pos: int, acc: seq<(string, int)>, r: string)
    requires pos >= 1
    ensures r !in rvs ==> ScopeRow(RowScope(rvs, pos, acc), r) == ScopeRow(acc, r)
    ensures r in rvs ==> ScopeRow(RowScope(rvs, pos, acc), r) <= -pos
    decreases rvs
  {
    if rvs != [] {
      var acc1 := [(rvs[0], -pos)] + acc;
      RowsAre(rvs[1..], pos + 1, acc1, r);
      assert acc1[1..] == acc;
    }
  }

  // The first rigid row has the number that stands for no row at all.
  lemma {:induction false} FirstRow(rvs: seq<string>, r: string)
    ensures ScopeRow(RowScope(rvs, 1, []), r) != -1 <==> rvs != [] && r in rvs[1..]
  {
    RowsAre(rvs, 1, [], r);
    if rvs != [] {
      var acc1: seq<(string, int)> := [(rvs[0], -1)] + [];
      RowsAre(rvs[1..], 2, acc1, r);
      assert acc1[1..] == [];
    }
  }

  // A signature's type resolves if and only if it is well formed, every
  // variable is quantified, and the first quantified row, if there is one, is
  // quantified twice.
  lemma {:induction false} DeclaredExact(sig: Sig, ctr: int, ar: Arities)
    ensures var rows := Split(sig.fall, AnnVars(sig.ty, [], []).1);
            Declared(sig, ctr, ar).Some? <==>
              && Formed(sig.ty, ar)
              && (forall v :: v in TyNames(sig.ty) || v in RowNames(sig.ty) ==> v in sig.fall)
              && (rows != [] ==> rows[0] in rows[1..])
  {
    hide Resolve, Formed, AnnVars, TyNames, RowNames, ScopeTy, ScopeRow, SkolemScope, RowScope, Split;
    var (tns, rns) := AnnVars(sig.ty, [], []);
    var tvs, rvs := Split(sig.fall, tns), Split(sig.fall, rns);
    AnnVarsAre(sig.ty, [], []);
    SplitIs(sig.fall, tns);
    SplitIs(sig.fall, rns);
    ResolveExact(sig.ty, SkolemScope(tvs, ctr, []), RowScope(rvs, 1, []), ar);
    forall v ensures ScopeTy(SkolemScope(tvs, ctr, []), v).Some? <==> v in tvs {
      SkolemsAre(tvs, ctr, [], v);
      NoScope(v);
    }
    forall r ensures ScopeRow(RowScope(rvs, 1, []), r) != -1 <==> rvs != [] && r in rvs[1..] { FirstRow(rvs, r); }
    if rvs != [] { assert rvs[0] in rvs && forall r :: r in rvs <==> r == rvs[0] || r in rvs[1..]; }
  }

  lemma {:induction false} NoScope(v: string)
    ensures ScopeTy([], v).None?
  {
  }

  // So no signature that quantifies each variable once may mention a row.
  lemma {:induction false} RowsRefused(sig: Sig, ctr: int, ar: Arities)
    requires forall i, j :: 0 <= i < j < |sig.fall| ==> sig.fall[i] != sig.fall[j]
    requires RowNames(sig.ty) != {}
    ensures Declared(sig, ctr, ar).None?
  {
    hide Declared, Formed, AnnVars, TyNames, RowNames, Split;
    DeclaredExact(sig, ctr, ar);
    var rns := AnnVars(sig.ty, [], []).1;
    AnnVarsAre(sig.ty, [], []);
    SplitIs(sig.fall, rns);
    SplitOnce(sig.fall, rns);
    var r :| r in RowNames(sig.ty);
    assert r in rns;
    if r in sig.fall { assert r in Split(sig.fall, rns); }
  }

  lemma {:induction false} SplitOnce(fall: seq<string>, names: seq<string>)
    requires forall i, j :: 0 <= i < j < |fall| ==> fall[i] != fall[j]
    ensures var s := Split(fall, names); s != [] ==> s[0] !in s[1..]
  {
    if fall != [] {
      SplitIs(fall[1..], names);
      SplitOnce(fall[1..], names);
      if fall[0] in names { assert Split(fall, names)[1..] == Split(fall[1..], names); }
    }
  }

  // forall r . {x: Int | r} -> Int
  lemma {:induction false} OpenRecordRefused(ctr: int, ar: Arities)
    ensures var num := TCon("Int", []); Declared(Sig(["r"], TArr(TRec([Slot("x", num)], "r"), num)), ctr, ar).None?
  {
    hide Declared;
    var num := TCon("Int", []);
    var sig := Sig(["r"], TArr(TRec([Slot("x", num)], "r"), num));
    assert "r" in RowNames(sig.ty);
    RowsRefused(sig, ctr, ar);
  }
}

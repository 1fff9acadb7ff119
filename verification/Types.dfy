// Types and triangular substitutions of the pure checker (gen4-infer-dc/infer.dc).
module Types {

  datatype Option<+T> = None | Some(value: T) {
    predicate IsFailure() { None? }
    function PropagateFailure<U>(): Option<U> requires None? { None }
    function Extract(): T requires Some? { value }
  }

  // Readings of an option, a map and a sequence that are total, so that a
  // contract may speak of what it has already said to be there.
  ghost function The<T(0)>(o: Option<T>): T { if o.Some? then o.value else var any: T :| true; any }
  ghost function AtKey<K, T(0)>(m: map<K, T>, k: K): T { if k in m then m[k] else var any: T :| true; any }
  ghost function AtIndex<T(0)>(s: seq<T>, i: int): T { if 0 <= i < |s| then s[i] else var any: T :| true; any }

  datatype Ty =
    | TVI(id: int)
    | TC(con: string)
    | TAr(dom: Ty, cod: Ty)
    | TTup(elems: Tys)
    | TApp(head: string, args: Tys)

  datatype Tys = Nil | Cons(hd: Ty, tl: Tys)

  // A substitution is an association list, newest binding first. It is
  // triangular: the type stored with a key may mention keys bound elsewhere.
  datatype Sub = Empty | Bind(key: int, ty: Ty, rest: Sub)

  // ---------- variables and sizes ----------

  function FV(t: Ty): set<int> {
    match t
    case TVI(x) => {x}
    case TC(_) => {}
    case TAr(a, b) => FV(a) + FV(b)
    case TTup(ts) => FVs(ts)
    case TApp(_, ts) => FVs(ts)
  }

  function FVs(ts: Tys): set<int> {
    match ts
    case Nil => {}
    case Cons(h, r) => FV(h) + FVs(r)
  }

  function Size(t: Ty): nat {
    match t
    case TVI(_) => 1
    case TC(_) => 1
    case TAr(a, b) => 1 + Size(a) + Size(b)
    case TTup(ts) => 1 + Sizes(ts)
    case TApp(_, ts) => 1 + Sizes(ts)
  }

  function Sizes(ts: Tys): nat {
    match ts
    case Nil => 0
    case Cons(h, r) => 1 + Size(h) + Sizes(r)
  }

  function Dom(s: Sub): set<int> {
    match s
    case Empty => {}
    case Bind(k, _, r) => {k} + Dom(r)
  }

  // Every variable mentioned by a substitution, bound or not.
  function SubVars(s: Sub): set<int> {
    match s
    case Empty => {}
    case Bind(k, t, r) => {k} + FV(t) + SubVars(r)
  }

  function Lookup(s: Sub, v: int): Option<Ty> {
    match s
    case Empty => None
    case Bind(k, t, r) => if k == v then Some(t) else Lookup(r, v)
  }

  // ---------- reference meaning of a triangular substitution ----------

  // Replace one variable everywhere.
  function Repl(v: int, u: Ty, t: Ty): Ty {
    match t
    case TVI(x) => if x == v then u else t
    case TC(_) => t
    case TAr(a, b) => TAr(Repl(v, u, a), Repl(v, u, b))
    case TTup(ts) => TTup(Repls(v, u, ts))
    case TApp(n, ts) => TApp(n, Repls(v, u, ts))
  }

  function Repls(v: int, u: Ty, ts: Tys): Tys {
    match ts
    case Nil => Nil
    case Cons(h, r) => Cons(Repl(v, u, h), Repls(v, u, r))
  }

  // What a variable stands for: resolve it through the older bindings, then
  // replace the newest key by what its own type stands for.
  function Img(s: Sub, x: int): Ty
    decreases s, 0, TVI(x)
  {
    match s
    case Empty => TVI(x)
    case Bind(v, u, r) => Repl(v, Ap(r, u), Img(r, x))
  }

  // The meaning of a substitution on types. It is defined for every list of
  // bindings, so it is the yardstick for the chasing code below.
  function Ap(s: Sub, t: Ty): Ty
    decreases s, 1, t
  {
    match t
    case TVI(x) => Img(s, x)
    case TC(_) => t
    case TAr(a, b) => TAr(Ap(s, a), Ap(s, b))
    case TTup(ts) => TTup(Aps(s, ts))
    case TApp(n, ts) => TApp(n, Aps(s, ts))
  }

  function Aps(s: Sub, ts: Tys): Tys
    decreases s, 1, ts
  {
    match ts
    case Nil => Nil
    case Cons(h, r) => Cons(Ap(s, h), Aps(s, r))
  }

  // Well-formed: each key was unbound when it was bound, and did not occur in
  // the fully resolved type it was bound to (the occurs check).
  ghost predicate WF(s: Sub) {
    match s
    case Empty => true
    case Bind(v, u, r) => WF(r) && v !in Dom(r) && v !in FV(Ap(r, u))
  }

  // s2 was obtained from s1 by prepending bindings.
  ghost predicate Extends(s2: Sub, s1: Sub) {
    s2 == s1 || (s2.Bind? && Extends(s2.rest, s1))
  }

  // ---------- basic facts ----------

  lemma {:induction false} FvRepl(v: int, u: Ty, t: Ty)
    ensures FV(Repl(v, u, t)) == (FV(t) - {v}) + (if v in FV(t) then FV(u) else {})
    ensures v !in FV(t) ==> Repl(v, u, t) == t
  {
    match t
    case TVI(_) =>
    case TC(_) =>
    case TAr(a, b) => FvRepl(v, u, a); FvRepl(v, u, b);
    case TTup(ts) => FvRepls(v, u, ts);
    case TApp(_, ts) => FvRepls(v, u, ts);
  }

  lemma {:induction false} FvRepls(v: int, u: Ty, ts: Tys)
    ensures FVs(Repls(v, u, ts)) == (FVs(ts) - {v}) + (if v in FVs(ts) then FV(u) else {})
    ensures v !in FVs(ts) ==> Repls(v, u, ts) == ts
  {
    match ts
    case Nil =>
    case Cons(h, r) => FvRepl(v, u, h); FvRepls(v, u, r);
  }

  // Applying one more binding is one replacement on the older meaning.
  lemma {:induction false} ApBind(v: int, u: Ty, r: Sub, t: Ty)
    ensures Ap(Bind(v, u, r), t) == Repl(v, Ap(r, u), Ap(r, t))
  {
    match t
    case TVI(_) =>
    case TC(_) =>
    case TAr(a, b) => ApBind(v, u, r, a); ApBind(v, u, r, b);
    case TTup(ts) => ApsBind(v, u, r, ts);
    case TApp(_, ts) => ApsBind(v, u, r, ts);
  }

  lemma {:induction false} ApsBind(v: int, u: Ty, r: Sub, ts: Tys)
    ensures Aps(Bind(v, u, r), ts) == Repls(v, Ap(r, u), Aps(r, ts))
  {
    match ts
    case Nil =>
    case Cons(h, t) => ApBind(v, u, r, h); ApsBind(v, u, r, t);
  }

  lemma {:induction false} ImgUnbound(s: Sub, x: int)
    requires WF(s) && x !in Dom(s)
    ensures Img(s, x) == TVI(x)
  {
    match s
    case Empty =>
    case Bind(v, u, r) => ImgUnbound(r, x);
  }

  // Membership in the variables of a resolved type, one variable at a time.
  lemma {:induction false} FvAp(s: Sub, t: Ty, y: int)
    ensures y in FV(Ap(s, t)) <==> exists x :: x in FV(t) && y in FV(Img(s, x))
  {
    match t
    case TVI(z) => assert FV(t) == {z}; assert z in FV(t);
    case TC(_) =>
    case TAr(a, b) => FvAp(s, a, y); FvAp(s, b, y);
    case TTup(ts) => FvAps(s, ts, y);
    case TApp(_, ts) => FvAps(s, ts, y);
  }

  lemma {:induction false} FvAps(s: Sub, ts: Tys, y: int)
    ensures y in FVs(Aps(s, ts)) <==> exists x :: x in FVs(ts) && y in FV(Img(s, x))
  {
    match ts
    case Nil =>
    case Cons(h, r) => FvAp(s, h, y); FvAps(s, r, y);
  }

  // Resolved types mention unbound variables only.
  lemma {:induction false} ImgNoDom(s: Sub, x: int)
    requires WF(s)
    ensures FV(Img(s, x)) !! Dom(s)
    decreases s, 0
  {
    match s
    case Empty =>
    case Bind(v, u, r) =>
      ImgNoDom(r, x);
      ApNoDom(r, u);
      FvRepl(v, Ap(r, u), Img(r, x));
  }

  lemma {:induction false} ApNoDom(s: Sub, t: Ty)
    requires WF(s)
    ensures FV(Ap(s, t)) !! Dom(s)
    decreases s, 1
  {
    forall y | y in FV(Ap(s, t)) ensures y !in Dom(s) {
      FvAp(s, t, y);
      var x :| x in FV(t) && y in FV(Img(s, x));
      ImgNoDom(s, x);
    }
  }

  lemma {:induction false} ImgVars(s: Sub, x: int)
    ensures FV(Img(s, x)) <= {x} + SubVars(s)
    decreases s, 0
  {
    match s
    case Empty =>
    case Bind(v, u, r) =>
      ImgVars(r, x);
      ApVars(r, u);
      FvRepl(v, Ap(r, u), Img(r, x));
  }

  lemma {:induction false} ApVars(s: Sub, t: Ty)
    ensures FV(Ap(s, t)) <= FV(t) + SubVars(s)
    decreases s, 1
  {
    forall y | y in FV(Ap(s, t)) ensures y in FV(t) + SubVars(s) {
      FvAp(s, t, y);
      var x :| x in FV(t) && y in FV(Img(s, x));
      ImgVars(s, x);
    }
  }

  // A substitution is the identity on types without bound variables; with
  // ApNoDom this makes resolution idempotent.
  lemma {:induction false} ApFixed(s: Sub, t: Ty)
    requires WF(s) && FV(t) !! Dom(s)
    ensures Ap(s, t) == t
  {
    match t
    case TVI(x) => ImgUnbound(s, x);
    case TC(_) =>
    case TAr(a, b) => ApFixed(s, a); ApFixed(s, b);
    case TTup(ts) => ApsFixed(s, ts);
    case TApp(_, ts) => ApsFixed(s, ts);
  }

  lemma {:induction false} ApsFixed(s: Sub, ts: Tys)
    requires WF(s) && FVs(ts) !! Dom(s)
    ensures Aps(s, ts) == ts
  {
    match ts
    case Nil =>
    case Cons(h, r) => ApFixed(s, h); ApsFixed(s, r);
  }

  // Resolving a bound variable and resolving the type stored for it agree.
  lemma {:induction false} ApLookup(s: Sub, x: int, t: Ty)
    requires WF(s) && Lookup(s, x) == Some(t)
    ensures Ap(s, t) == Img(s, x)
  {
    match s
    case Bind(v, u, r) =>
      ApBind(v, u, r, t);
      if v == x {
        ImgUnbound(r, v);
        FvRepl(v, Ap(r, u), Ap(r, u));
      } else {
        ApLookup(r, x, t);
      }
  }

  lemma {:induction false} LookupDom(s: Sub, x: int)
    ensures Lookup(s, x).Some? <==> x in Dom(s)
    ensures Lookup(s, x).Some? ==> FV(Lookup(s, x).value) <= SubVars(s)
  {
    match s
    case Empty =>
    case Bind(_, _, r) => LookupDom(r, x);
  }

  // ---------- the rank that makes chasing terminate ----------

  // Binding v to u lifts every variable that resolves through v above u.
  ghost function Rank(s: Sub, x: int): nat
    decreases s, 0, TVI(x)
  {
    match s
    case Empty => 0
    case Bind(v, u, r) => Rank(r, x) + (if v in FV(Img(r, x)) then RankTy(r, u) + 1 else 0)
  }

  ghost function RankTy(s: Sub, t: Ty): nat
    decreases s, 1, t
  {
    match t
    case TVI(x) => Rank(s, x)
    case TC(_) => 0
    case TAr(a, b) => Max(RankTy(s, a), RankTy(s, b))
    case TTup(ts) => RankTys(s, ts)
    case TApp(_, ts) => RankTys(s, ts)
  }

  ghost function RankTys(s: Sub, ts: Tys): nat
    decreases s, 1, ts
  {
    match ts
    case Nil => 0
    case Cons(h, r) => Max(RankTy(s, h), RankTys(s, r))
  }

  function Max(a: nat, b: nat): nat { if a < b then b else a }

  // RankTy is the largest rank of a variable of the type (0 if there is none).
  lemma {:induction false} RankTyMax(s: Sub, t: Ty)
    ensures forall y :: y in FV(t) ==> Rank(s, y) <= RankTy(s, t)
    ensures RankTy(s, t) == 0 || exists y :: y in FV(t) && Rank(s, y) == RankTy(s, t)
  {
    match t
    case TVI(_) =>
    case TC(_) =>
    case TAr(a, b) => RankTyMax(s, a); RankTyMax(s, b);
    case TTup(ts) => RankTysMax(s, ts);
    case TApp(_, ts) => RankTysMax(s, ts);
  }

  lemma {:induction false} RankTysMax(s: Sub, ts: Tys)
    ensures forall y :: y in FVs(ts) ==> Rank(s, y) <= RankTys(s, ts)
    ensures RankTys(s, ts) == 0 || exists y :: y in FVs(ts) && Rank(s, y) == RankTys(s, ts)
  {
    match ts
    case Nil =>
    case Cons(h, r) => RankTyMax(s, h); RankTysMax(s, r);
  }

  // The occurs check keeps the binding graph acyclic: following a binding
  // strictly lowers the rank.
  lemma {:induction false} RankEdge(s: Sub, x: int, t: Ty)
    requires WF(s) && Lookup(s, x) == Some(t)
    ensures RankTy(s, t) < Rank(s, x)
  {
    RankTyMax(s, t);
    match s
    case Bind(v, u, r) =>
      if v == x {
        ImgUnbound(r, v);
        RankTyMax(r, u);
        if RankTy(s, t) != 0 {
          var y :| y in FV(t) && Rank(s, y) == RankTy(s, t);
          FvAp(r, u, v);
        }
      } else {
        RankEdge(r, x, t);
        RankTyMax(r, t);
        if RankTy(s, t) != 0 {
          var y :| y in FV(t) && Rank(s, y) == RankTy(s, t);
          ApLookup(r, x, t);
          FvAp(r, t, v);
        } else {
          assert Rank(s, x) >= Rank(r, x);
        }
      }
  }
}

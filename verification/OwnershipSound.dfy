// Ownership soundness: running well-owned code never touches a dead block,
// never underflows, keeps every count exact, and ends holding exactly its
// result.
module OwnershipSound {
  import opened Types
  import opened RcHeap
  import opened Trampoline
  import opened Oir
  import opened HeapSteps
  import opened Ownership
  import opened OwnershipFrame
  import opened OwnershipSteps

  // After a primitive: the scope goes on with c and the result is in flight.
  ghost predicate PrimOk(P: Prog, K: multiset<Word>, c: Ctx, env: Env, w: World, r: Res) {
    && r != Stop(Corrupt)
    && (r.Done? ==>
          && r.w.globs == w.globs && Frame(P, K, multiset{r.v}, c, env, r.w)
          && LiveVal(r.w.heap, r.v) && Kept(K, w.heap, r.w.heap))
  }

  ghost predicate Setting(P: Prog) { ProgOwned(P) && AllocatorOk(P) }

  lemma {:induction false} FrameFacts(P: Prog, K: multiset<Word>, X: multiset<Word>, c: Ctx, env: Env, w: World)
    requires Frame(P, K, X, c, env, w)
    ensures var R := K + Held(env, c); Good(w.heap, R + X) && WorldOk(P, R, w) && StaticsIn(P, w.heap)
    ensures Shaped(w.heap) && NoRawKids(w.heap) && WorldOk(P, K, w)
  {
    hide Lends, Held, Kids, Refs, Acyclic, Under, Static, NoRawKids;
    var R := K + Held(env, c);
    assert K + X + Held(env, c) == R + X;
    WorldMono(P, K, R, w);
  }

  // A call made with all the scope's references held outside.
  lemma {:induction false} Settle(P: Prog, K: multiset<Word>, X: multiset<Word>, c: Ctx, env: Env, w: World,
                                  w1: World, r: Res)
    requires Frame(P, K, X, c, env, w1) && Owned(K + Held(env, c), w1, r)
    requires w1.globs == w.globs && Kept(K, w.heap, w1.heap)
    ensures PrimOk(P, K, c, env, w, r)
  {
    hide Frame, Held, Good, Kept, LiveVal;
    if r.Done? {
      assert K + Held(env, c) + multiset{r.v} == K + multiset{r.v} + Held(env, c);
      FrameKept(P, K, X, multiset{r.v}, c, env, w1, r.w);
      KeptTrans(K, w.heap, w1.heap, r.w.heap);
    }
  }

  // ---------- operands ----------

  // What AtomsOwned gives a primitive that goes on with the values.
  lemma {:induction false} Operands(P: Prog, pt: int, K: multiset<Word>, c: Ctx, env: Env, w: World, atoms: seq<OAtom>,
                                    flags: seq<bool>)
    requires Frame(P, K, multiset{}, c, env, w) && Use(c, atoms, flags).Some?
    ensures var r := EvAtoms(P, pt, env, w, atoms, flags); var c1 := Use(c, atoms, flags).value;
            && r != VStop(Corrupt)
            && (r.Vals? ==>
                  && |r.vs| == |atoms| && r.w.globs == w.globs && Kept(K, w.heap, r.w.heap)
                  && Frame(P, K, multiset(Taken(r.vs, flags)), c1, env, r.w)
                  && ValsOk(r.w.heap, K + Held(env, c1), r.vs, flags))
  {
    hide Frame, Kept, Held, Taken, ValsOk, EvAtoms, Take, Lent;
    AtomsOwned(P, pt, K, multiset{}, c, env, w, atoms, flags);
    var r, c1 := EvAtoms(P, pt, env, w, atoms, flags), Use(c, atoms, flags).value;
    if r.Vals? {
      assert multiset{} + multiset(Taken(r.vs, flags)) == multiset(Taken(r.vs, flags));
      assert Kept(K, w.heap, r.w.heap);
    }
  }

  lemma {:induction false} TakenAll(vs: seq<Word>, n: nat)
    requires |vs| == n
    ensures Taken(vs, Trues(n)) == vs
    decreases n
  {
    if n > 0 {
      assert Trues(n)[1..] == Trues(n - 1);
      TakenAll(vs[1..], n - 1);
    }
  }

  lemma {:induction false} TakenNone(vs: seq<Word>)
    ensures Taken(vs, []) == []
    decreases |vs|
  {
    if vs != [] { TakenNone(vs[1..]); }
  }

  predicate FlagAt(flags: seq<bool>, i: nat) { i < |flags| && flags[i] }

  lemma {:induction false} ValsAt(h: Heap, roots: multiset<Word>, vs: seq<Word>, flags: seq<bool>, i: nat)
    requires ValsOk(h, roots, vs, flags) && i < |vs|
    ensures LiveVal(h, vs[i]) && (FlagAt(flags, i) || Under(h, roots, vs[i]))
    decreases |vs|
  {
    hide LiveVal, Under;
    if i > 0 { ValsAt(h, roots, vs[1..], Later(flags), i - 1); }
  }

  lemma {:induction false} ValsFrom(h: Heap, roots: multiset<Word>, vs: seq<Word>, flags: seq<bool>)
    requires forall i :: 0 <= i < |vs| ==> LiveVal(h, vs[i]) && (FlagAt(flags, i) || Under(h, roots, vs[i]))
    ensures ValsOk(h, roots, vs, flags)
    decreases |vs|
  {
    hide LiveVal, Under;
    if vs != [] {
      assert LiveVal(h, vs[0]) && (FlagAt(flags, 0) || Under(h, roots, vs[0]));
      forall i | 0 <= i < |vs[1..]|
        ensures LiveVal(h, vs[1..][i]) && (FlagAt(Later(flags), i) || Under(h, roots, vs[1..][i]))
      {
        assert LiveVal(h, vs[i + 1]) && (FlagAt(flags, i + 1) || Under(h, roots, vs[i + 1]));
      }
      ValsFrom(h, roots, vs[1..], Later(flags));
    }
  }

  lemma {:induction false} AllSafe(h: Heap, roots: multiset<Word>, vs: seq<Word>, flags: seq<bool>)
    requires ValsOk(h, roots, vs, flags)
    ensures forall i :: 0 <= i < |vs| ==> LiveVal(h, vs[i])
  {
    hide ValsOk, LiveVal, Under;
    forall i | 0 <= i < |vs| ensures LiveVal(h, vs[i]) { ValsAt(h, roots, vs, flags, i); }
  }

  // Scopes only shrink before the result is bound.
  predicate Within(c1: Ctx, c: Ctx) {
    c1.own <= c.own && c1.toks <= c.toks && (forall y :: y in c1.bor ==> y in c.bor && c1.bor[y] == c.bor[y])
  }

  lemma {:induction false} TakeWithin(c: Ctx, atoms: seq<OAtom>, flags: seq<bool>)
    requires Take(c, atoms, flags).Some?
    ensures Within(Take(c, atoms, flags).value, c)
    decreases |atoms|
  {
    if atoms != [] {
      if atoms[0].AVar? && Flag(flags) {
        TakeWithin(Consume(c, atoms[0].x), atoms[1..], Later(flags));
      } else {
        TakeWithin(c, atoms[1..], Later(flags));
      }
    }
  }

  lemma {:induction false} UseWithin(c: Ctx, atoms: seq<OAtom>, flags: seq<bool>)
    requires Use(c, atoms, flags).Some?
    ensures Within(Use(c, atoms, flags).value, c)
  {
    hide Take, Lent;
    TakeWithin(c, atoms, flags);
  }

  lemma {:induction false} PrimWithin(P: Prog, c: Ctx, p: OPrim)
    requires PrimCtx(P, c, p).Some?
    ensures Within(PrimCtx(P, c, p).value, c)
  {
    hide Use, Take, Lent;
    match p
    case PAtom(a) => UseWithin(c, [a], [true]);
    case PApp(f, a) => UseWithin(c, [f, a], [false, true]);
    case PCall(f, args) => UseWithin(c, args, P.defs[f].modes);
    case PBi(_, args) => UseWithin(c, args, []);
    case PMkCtor(_, args, _) => UseWithin(c, args, Trues(|args|));
    case PMkTup(args, _) => UseWithin(c, args, Trues(|args|));
    case PLam(_, _, caps) => TakeWithin(c, VarAtoms(caps), Trues(|caps|));
    case PBin(_, a, b) => UseWithin(c, [a, b], []);
  }

  lemma {:induction false} WithinUnused(c1: Ctx, c: Ctx, x: string)
    requires Within(c1, c) && Unused(c, x)
    ensures Unused(c1, x)
  {
  }

  // ---------- primitives without calls ----------

  lemma {:induction false} AtomPrim(P: Prog, n: nat, pt: int, K: multiset<Word>, c: Ctx, env: Env, w: World, a: OAtom)
    requires Frame(P, K, multiset{}, c, env, w) && Use(c, [a], [true]).Some?
    ensures PrimOk(P, K, The(Use(c, [a], [true])), env, w, EvPrim(P, n, pt, env, w, PAtom(a)))
  {
    hide Frame, Kept, Held, EvAtoms, Use, LiveVal, Under;
    Operands(P, pt, K, c, env, w, [a], [true]);
    var r := EvAtoms(P, pt, env, w, [a], [true]);
    if r.Vals? { OneTaken(r.vs); }
  }

  lemma {:induction false} OneTaken(vs: seq<Word>)
    requires |vs| == 1
    ensures multiset(Taken(vs, [true])) == multiset{vs[0]}
  {
    assert vs[1..] == [];
  }

  lemma {:induction false} SecondTaken(vs: seq<Word>)
    requires |vs| == 2
    ensures multiset(Taken(vs, [false, true])) == multiset{vs[1]}
  {
    assert Later([false, true]) == [true];
    assert vs[1..] == [vs[1]];
    assert Taken([vs[1]], [true]) == [vs[1]] + Taken([], []);
  }

  lemma {:induction false} BiPrim(P: Prog, n: nat, pt: int, K: multiset<Word>, c: Ctx, env: Env, w: World, name: string,
                                  args: seq<OAtom>)
    requires Setting(P) && Frame(P, K, multiset{}, c, env, w) && Use(c, args, []).Some?
    ensures PrimOk(P, K, The(Use(c, args, [])), env, w, EvPrim(P, n, pt, env, w, PBi(name, args)))
  {
    hide Frame, Kept, Held, EvAtoms, Use, LiveVal, Taken, ValsOk, RtBuiltin, Good, Owned, PrimOk, StaticsIn;
    hide WorldOk, ProgOwned;
    Operands(P, pt, K, c, env, w, args, []);
    var r := EvAtoms(P, pt, env, w, args, []);
    var c1 := Use(c, args, []).value;
    if r.Vals? {
      TakenNone(r.vs);
      AllSafe(r.w.heap, K + Held(env, c1), r.vs, []);
      FrameFacts(P, K, multiset([]), c1, env, r.w);
      assert K + Held(env, c1) + multiset([]) == K + Held(env, c1);
      BuiltinOwned(P, K + Held(env, c1), r.w, name, r.vs);
      Stopped(P, K, c1, env, w, Stuck);
      Settle(P, K, multiset([]), c1, env, w, r.w, RtBuiltin(P, r.w, name, r.vs));
    } else {
      Stopped(P, K, c1, env, w, r.why);
    }
  }

  lemma {:induction false} Stopped(P: Prog, K: multiset<Word>, c: Ctx, env: Env, w: World, why: Why)
    requires why != Corrupt
    ensures PrimOk(P, K, c, env, w, Stop(why))
  {
  }

  lemma {:induction false} BinPrim(P: Prog, n: nat, pt: int, K: multiset<Word>, c: Ctx, env: Env, w: World, op: string,
                                   a: OAtom, b: OAtom)
    requires Setting(P) && Frame(P, K, multiset{}, c, env, w) && Use(c, [a, b], []).Some?
    ensures PrimOk(P, K, The(Use(c, [a, b], [])), env, w, EvPrim(P, n, pt, env, w, PBin(op, a, b)))
  {
    hide Frame, Kept, Held, EvAtoms, Use, LiveVal, Taken, ValsOk, EvBin, Good, Owned, PrimOk, StaticsIn;
    hide WorldOk, ProgOwned;
    Operands(P, pt, K, c, env, w, [a, b], []);
    var r := EvAtoms(P, pt, env, w, [a, b], []);
    var c1 := Use(c, [a, b], []).value;
    if r.Vals? {
      TakenNone(r.vs);
      AllSafe(r.w.heap, K + Held(env, c1), r.vs, []);
      FrameFacts(P, K, multiset([]), c1, env, r.w);
      assert K + Held(env, c1) + multiset([]) == K + Held(env, c1);
      BinOwned(P, n, K + Held(env, c1), r.w, op, r.vs[0], r.vs[1]);
      Settle(P, K, multiset([]), c1, env, w, r.w, EvBin(P, n, r.w, op, r.vs[0], r.vs[1]));
    } else {
      Stopped(P, K, c1, env, w, r.why);
    }
  }

  lemma {:induction false} BinOwned(P: Prog, n: nat, roots: multiset<Word>, w: World, op: string, a: Word, b: Word)
    requires AllocatorOk(P) && StaticsIn(P, w.heap) && Good(w.heap, roots) && Shaped(w.heap)
    requires LiveVal(w.heap, a) && LiveVal(w.heap, b)
    ensures Owned(roots, w, EvBin(P, n, w, op, a, b))
  {
    hide Good, StaticsIn, Shaped, ValEq, RtBuiltin, Owned, IntOp, Static;
    if op == "==" || op == "!=" {
      EqSafe(w.heap, a, b, n);
      var r := ValEq(w.heap, a, b, n);
      if r.Same? {
        ImmStatic(w.heap, 0, r.eq == (op == "=="));
        ConstOwned(roots, w, w, BoolWord(r.eq == (op == "==")));
      } else {
        StopOwned(roots, w, r.why);
      }
    } else if op == "++" {
      BuiltinOwned(P, roots, w, "str_concat", [a, b]);
    } else if op == "&&" || op == "||" {
      BoolsStatic(w.heap, a, b);
      if IsBool(a) && IsBool(b) {
        ConstOwned(roots, w, w, if (a == TRUE) == (op == "&&") then b else a);
      } else {
        StopOwned(roots, w, Stuck);
      }
    } else {
      StopOwned(roots, w, Stuck);
      StopOwned(roots, w, DivZero);
      if IsInt(a) && IsInt(b) {
        IntOpStatic(w.heap, op, IntOf(a), IntOf(b));
        var v := IntOp(op, IntOf(a), IntOf(b));
        if v.Some? { ConstOwned(roots, w, w, v.value); }
      }
    }
  }

  lemma {:induction false} StopOwned(roots: multiset<Word>, w: World, why: Why)
    requires why != Corrupt
    ensures Owned(roots, w, Stop(why))
  {
  }

  lemma {:induction false} BoolsStatic(h: Heap, a: Word, b: Word)
    ensures IsBool(a) ==> Static(h, a)
    ensures IsBool(b) ==> Static(h, b)
  {
  }

  lemma {:induction false} IntOpStatic(h: Heap, op: string, a: int, b: int)
    ensures IntOp(op, a, b).Some? ==> Static(h, IntOp(op, a, b).value)
  {
    hide Static, TruncDiv, IntWord, BoolWord;
    forall n ensures Static(h, IntWord(n)) { ImmStatic(h, n, true); }
    forall q ensures Static(h, BoolWord(q)) { ImmStatic(h, 0, q); }
  }

  // ---------- allocation ----------

  lemma {:induction false} MkPrim(P: Prog, pt: int, K: multiset<Word>, c: Ctx, env: Env, w: World, args: seq<OAtom>,
                                  tok: string, tag: int, prefix: seq<Word>)
    requires Setting(P) && Frame(P, K, multiset{}, c, env, w) && Use(c, args, Trues(|args|)).Some?
    requires var c1 := Use(c, args, Trues(|args|)).value; UseToken(c1, tok).Some?
    requires (tag == T_TUPLE && prefix == []) || (tag == T_ADT && |prefix| == 1)
    ensures var c2 := UseToken(Use(c, args, Trues(|args|)).value, tok).value;
            var r := EvAtoms(P, pt, env, w, args, Trues(|args|));
            && r != VStop(Corrupt)
            && (r.Vals? && TokOf(env, tok).Some? && prefix + r.vs != [] ==>
                  PrimOk(P, K, c2, env, w, BuildWith(P, r.w, TokOf(env, tok).value, tag, prefix + r.vs)))
  {
    hide Frame, Kept, Held, EvAtoms, Use, LiveVal, Taken, ValsOk, Good, Owned, PrimOk, WorldOk, ProgOwned;
    hide BuildWith, FirstChild, TokOk;
    var flags := Trues(|args|);
    Operands(P, pt, K, c, env, w, args, flags);
    var r := EvAtoms(P, pt, env, w, args, flags);
    var c1 := Use(c, args, flags).value;
    if r.Vals? && TokOf(env, tok).Some? && prefix + r.vs != [] {
      TakenAll(r.vs, |args|);
      AllSafe(r.w.heap, K + Held(env, c1), r.vs, flags);
      MkFields(tag, prefix, r.vs);
      var t := TokOf(env, tok).value;
      MkBuild(P, K, c1, env, w, r.w, r.vs, tok, t, tag, prefix + r.vs);
    }
  }

  lemma {:induction false} MkFields(tag: int, prefix: seq<Word>, vs: seq<Word>)
    requires (tag == T_TUPLE && prefix == []) || (tag == T_ADT && |prefix| == 1)
    ensures var b := Block(1, tag, prefix + vs);
            tag != T_RAW && FirstChild(b) <= |b.words| && b.words[FirstChild(b)..] == vs
  {
  }

  lemma {:induction false} MkBuild(P: Prog, K: multiset<Word>, c1: Ctx, env: Env, w: World, w1: World, vs: seq<Word>,
                                   tok: string, t: Option<Word>, tag: int, words: seq<Word>)
    requires Setting(P) && Frame(P, K, multiset(vs), c1, env, w1) && UseToken(c1, tok).Some?
    requires TokOf(env, tok) == Some(t)
    requires w1.globs == w.globs && Kept(K, w.heap, w1.heap) && words != []
    requires tag != T_RAW && FirstChild(Block(1, tag, words)) <= |words|
    requires words[FirstChild(Block(1, tag, words))..] == vs
    requires forall i :: 0 <= i < |vs| ==> LiveVal(w1.heap, vs[i])
    ensures PrimOk(P, K, UseToken(c1, tok).value, env, w, BuildWith(P, w1, t, tag, words))
  {
    hide Frame, Kept, Held, LiveVal, Good, Owned, PrimOk, WorldOk, ProgOwned, BuildWith, FirstChild, TokOk;
    var c2 := UseToken(c1, tok).value;
    var R, X := K + Held(env, c2), multiset(vs) + TokRoot(t);
    if t.Some? {
      UseTokenFrame(P, K, multiset(vs), c1, env, w1, tok);
    } else {
      assert X == multiset(vs);
    }
    assert Frame(P, K, X, c2, env, w1);
    FrameFacts(P, K, X, c2, env, w1);
    assert R + X == R + TokRoot(t) + multiset(vs);
    FieldsOwned(P, R, w1, t, tag, words, vs);
    Settle(P, K, X, c2, env, w, w1, BuildWith(P, w1, t, tag, words));
  }

  lemma {:induction false} NullaryPrim(P: Prog, K: multiset<Word>, c: Ctx, env: Env, w: World, con: string)
    requires Frame(P, K, multiset{}, c, env, w) && SNull(con) in P.addr
    ensures PrimOk(P, K, c, env, w, Done(AtKey(P.addr, SNull(con)), w))
  {
    hide Frame, Kept, Held, Good, WorldOk, Static;
    FrameFacts(P, K, multiset{}, c, env, w);
    assert Static(w.heap, P.addr[SNull(con)]);
    assert K + Held(env, c) + multiset{} == K + Held(env, c);
    ConstOwned(K + Held(env, c), w, w, P.addr[SNull(con)]);
    KeptSame(K, w.heap);
    Settle(P, K, multiset{}, c, env, w, w, Done(P.addr[SNull(con)], w));
  }

  // ---------- closures ----------

  lemma {:induction false} VarFirst(P: Prog, pt: int, env: Env, w: World, x: string, rest: seq<OAtom>, flags: seq<bool>)
    ensures EvAtoms(P, pt, env, w, [AVar(x)] + rest, flags) == match Find(env, x)
      case None => VStop(Stuck)
      case Some(v) =>
        match EvAtoms(P, pt, env, w, rest, Later(flags))
        case VStop(why) => VStop(why)
        case Vals(vs, w2) => Vals([v] + vs, w2)
  {
    hide Find;
    assert ([AVar(x)] + rest)[1..] == rest;
  }

  lemma {:induction false} LookupAtoms(P: Prog, pt: int, env: Env, w: World, xs: seq<string>)
    requires Lookups(env, xs).Some?
    ensures EvAtoms(P, pt, env, w, VarAtoms(xs), Trues(|xs|)) == Vals(The(Lookups(env, xs)), w)
    ensures |VarAtoms(xs)| == |xs| == |The(Lookups(env, xs))|
    decreases |xs|
  {
    hide Find;
    if xs != [] {
      hide EvAtoms;
      LookupAtoms(P, pt, env, w, xs[1..]);
      assert Later(Trues(|xs|)) == Trues(|xs[1..]|);
      VarFirst(P, pt, env, w, xs[0], VarAtoms(xs[1..]), Trues(|xs|));
    }
  }

  lemma {:induction false} FlagsLent(c: Ctx, atoms: seq<OAtom>, n: nat)
    requires |atoms| == n
    ensures Lent(c, atoms, Trues(n))
    decreases n
  {
    if n > 0 {
      assert Later(Trues(n)) == Trues(n - 1);
      FlagsLent(c, atoms[1..], n - 1);
    }
  }

  // The captured values leave the scope.
  lemma {:induction false} Captures(P: Prog, pt: int, K: multiset<Word>, c: Ctx, env: Env, w: World, xs: seq<string>)
    requires Frame(P, K, multiset{}, c, env, w) && Take(c, VarAtoms(xs), Trues(|xs|)).Some? && Lookups(env, xs).Some?
    ensures var c1 := Take(c, VarAtoms(xs), Trues(|xs|)).value; var vs := Lookups(env, xs).value;
            Frame(P, K, multiset(vs), c1, env, w) && forall i :: 0 <= i < |vs| ==> LiveVal(w.heap, vs[i])
  {
    hide Frame, Kept, Held, EvAtoms, LiveVal, Taken, ValsOk, Take, Lookups, Lent;
    var c1, vs := Take(c, VarAtoms(xs), Trues(|xs|)).value, Lookups(env, xs).value;
    LookupAtoms(P, pt, env, w, xs);
    FlagsLent(c1, VarAtoms(xs), |xs|);
    Operands(P, pt, K, c, env, w, VarAtoms(xs), Trues(|xs|));
    TakenAll(vs, |xs|);
    AllSafe(w.heap, K + Held(env, c1), vs, Trues(|xs|));
  }

  lemma {:induction false} LamPrim(P: Prog, pt: int, K: multiset<Word>, c: Ctx, env: Env, w: World, lam: Lam)
    requires Setting(P) && Frame(P, K, multiset{}, c, env, w) && Take(c, VarAtoms(lam.caps), Trues(|lam.caps|)).Some?
    ensures PrimOk(P, K, Take(c, VarAtoms(lam.caps), Trues(|lam.caps|)).value, env, w,
        MkClosure(P, pt, env, w, lam, None))
  {
    hide Frame, Kept, Held, LiveVal, Good, Owned, PrimOk, WorldOk, ProgOwned, Build, FirstChild, Take, Lookups;
    hide Movable, Kids;
    var c1 := Take(c, VarAtoms(lam.caps), Trues(|lam.caps|)).value;
    Stopped(P, K, c1, env, w, Stuck);
    if SLam(pt) in P.addr && Lookups(env, lam.caps).Some? {
      var vs := Lookups(env, lam.caps).value;
      Captures(P, pt, K, c, env, w, lam.caps);
      var words := [P.addr[SLam(pt)], |vs|] + vs;
      ClosureFields(words[0], words[1], vs);
      FieldsMovable(w.heap, P.newAt(w.tick, w.heap), Block(1, T_CLOSURE, words), vs);
      ClosureMade(P, K, c1, env, w, words, multiset(vs));
    }
  }

  lemma {:induction false} ClosureFields(code: Word, n: Word, vs: seq<Word>)
    ensures var b := Block(1, T_CLOSURE, [code, n] + vs);
            T_CLOSURE != T_RAW && FirstChild(b) <= |b.words| && b.words[FirstChild(b)..] == vs
  {
  }

  lemma {:induction false} ClosureMade(P: Prog, K: multiset<Word>, c1: Ctx, env: Env, w: World, words: seq<Word>,
                                       moved: multiset<Word>)
    requires Setting(P) && Frame(P, K, moved, c1, env, w) && words != []
    requires Movable(w.heap, P.newAt(w.tick, w.heap), Block(1, T_CLOSURE, words), moved)
    ensures PrimOk(P, K, c1, env, w, Build(P, w, T_CLOSURE, words))
  {
    hide Frame, Kept, Held, LiveVal, Good, Owned, PrimOk, WorldOk, ProgOwned, Build, Movable;
    FrameFacts(P, K, moved, c1, env, w);
    PlaceOwned(P, K + Held(env, c1), w, T_CLOSURE, words, moved);
    KeptSame(K, w.heap);
    Settle(P, K, moved, c1, env, w, w, Build(P, w, T_CLOSURE, words));
  }

  // A recursive closure's own word is not counted.
  lemma {:induction false} SelfLookups(env: Env, x: string, p: Word, xs: seq<string>)
    requires Lookups(env[x := p], xs).Some?
    ensures Lookups(env, Without(x, xs)).Some?
    ensures var vs := Lookups(env[x := p], xs).value; var us := Lookups(env, Without(x, xs)).value;
            && (forall k :: k != p ==> multiset(vs)[k] == multiset(us)[k])
            && (forall k :: k in vs && k != p ==> k in us)
    decreases |xs|
  {
    if xs != [] {
      SelfLookups(env, x, p, xs[1..]);
      var vs := Lookups(env[x := p], xs).value;
      var vs1 := Lookups(env[x := p], xs[1..]).value;
      assert vs == [vs[0]] + vs1;
      assert multiset(vs) == multiset{vs[0]} + multiset(vs1);
      var us := Lookups(env, Without(x, xs)).value;
      var us1 := Lookups(env, Without(x, xs[1..])).value;
      if xs[0] != x {
        assert us == [vs[0]] + us1;
        assert multiset(us) == multiset{vs[0]} + multiset(us1);
      }
    }
  }

  lemma {:induction false} LetRecPrim(P: Prog, pt: int, K: multiset<Word>, c: Ctx, env: Env, w: World, lam: Lam,
                                      x: string)
    requires Setting(P) && Frame(P, K, multiset{}, c, env, w)
    requires var caps := Without(x, lam.caps); Take(c, VarAtoms(caps), Trues(|caps|)).Some?
    ensures var caps := Without(x, lam.caps);
            PrimOk(P, K, Take(c, VarAtoms(caps), Trues(|caps|)).value, env, w, MkClosure(P, pt, env, w, lam, Some(x)))
  {
    hide Frame, Kept, Held, LiveVal, Good, Owned, PrimOk, WorldOk, ProgOwned, Build, FirstChild, Take, Lookups;
    hide Movable, Kids;
    var caps := Without(x, lam.caps);
    var c1 := Take(c, VarAtoms(caps), Trues(|caps|)).value;
    Stopped(P, K, c1, env, w, Stuck);
    var p := P.newAt(w.tick, w.heap);
    if SLam(pt) in P.addr && Lookups(env[x := p], lam.caps).Some? {
      var vs := Lookups(env[x := p], lam.caps).value;
      SelfLookups(env, x, p, lam.caps);
      var us := Lookups(env, caps).value;
      Captures(P, pt, K, c, env, w, caps);
      var words := [P.addr[SLam(pt)], |vs|] + vs;
      ClosureFields(words[0], words[1], vs);
      SelfMovable(w.heap, p, Block(1, T_CLOSURE, words), vs, us);
      ClosureMade(P, K, c1, env, w, words, multiset(us));
    }
  }

  lemma {:induction false} SelfMovable(h: Heap, p: Word, b: Block, vs: seq<Word>, us: seq<Word>)
    requires b.rc == 1 && b.tag != T_RAW && FirstChild(b) <= |b.words| && b.words[FirstChild(b)..] == vs
    requires forall k :: k != p ==> multiset(vs)[k] == multiset(us)[k]
    requires forall k :: k in vs && k != p ==> k in us
    requires forall i :: 0 <= i < |us| ==> LiveVal(h, us[i])
    ensures Movable(h, p, b, multiset(us))
  {
    hide FirstChild, IsRef, RefsIn, Solid;
    KidsMoved(p, b, vs);
    forall k | k in Kids(p, b) ensures Solid(h, k) {
      assert k in us;
    }
  }
}

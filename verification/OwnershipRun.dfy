// The induction over runs: expressions, branches, closures, curried levels and
// direct calls.
module OwnershipRun {
  import opened Types
  import opened Syntax
  import opened RcHeap
  import opened Trampoline
  import opened Oir
  import opened HeapSteps
  import opened Ownership
  import opened OwnershipFrame
  import opened OwnershipSteps
  import opened OwnershipSound
  import RcRuntime

  // ---------- steps of an expression ----------

  lemma {:induction false} Then(K: multiset<Word>, w: World, w1: World, r: Res)
    requires Owned(K, w1, r) && Kept(K, w.heap, w1.heap) && w1.globs == w.globs
    ensures Owned(K, w, r)
  {
    hide Good, Kept, LiveVal;
    if r.Done? { KeptTrans(K, w.heap, w1.heap, r.w.heap); }
  }

  lemma {:induction false} RetOwned(P: Prog, K: multiset<Word>, c: Ctx, env: Env, w: World, r: Res)
    requires PrimOk(P, K, c, env, w, r) && c.own == multiset{} && c.toks == {}
    ensures Owned(K, w, r)
  {
    hide Good, Kept, LiveVal, WorldOk, Lends;
    if r.Done? {
      assert multiset(c.toks) == multiset{};
      ValuesOne(env, "");
      assert Held(env, c) == multiset{};
      assert K + multiset{r.v} + Held(env, c) == K + multiset{r.v};
    }
  }

  lemma {:induction false} DupStep(P: Prog, K: multiset<Word>, c: Ctx, env: Env, w: World, x: string)
    requires Frame(P, K, multiset{}, c, env, w) && x != "" && Usable(c, AVar(x))
    ensures RtDup(w, Val(env, x)).Some?
    ensures var w1 := The(RtDup(w, Val(env, x)));
            Frame(P, K, multiset{}, Gain(c, x), env, w1) && Kept(K, w.heap, w1.heap) && w1.globs == w.globs
  {
    hide Frame, Good, Kept, Held, From, Dup;
    var v, R := Val(env, x), K + Held(env, c);
    VarUnder(P, K, multiset{}, c, env, w, x);
    FrameFacts(P, K, multiset{}, c, env, w);
    DupGood(w.heap, v, R + multiset{});
    var w1 := RtDup(w, v).value;
    assert R + multiset{} + multiset{v} == K + multiset{v} + Held(env, c);
    FrameKept(P, K, multiset{}, multiset{v}, c, env, w, w1);
    LiveKept(w.heap, w1.heap, v);
    DupFrame(P, K, c, env, w1, x);
  }

  lemma {:induction false} DropStep(P: Prog, K: multiset<Word>, c: Ctx, env: Env, w: World, x: string)
    requires Frame(P, K, multiset{}, c, env, w) && x in c.own
    ensures RtDrop(w, Val(env, x)).Some?
    ensures var w1 := RtDrop(w, Val(env, x)).value;
            Frame(P, K, multiset{}, Consume(c, x), env, w1) && Kept(K, w.heap, w1.heap) && w1.globs == w.globs
  {
    hide Frame, Good, Kept, Held, LiveVal, Drop, Consume;
    var v, c1 := Val(env, x), Consume(c, x);
    var R := K + Held(env, c1);
    ConsumeFrame(P, K, multiset{}, c, env, w, x);
    assert multiset{} + multiset{v} == multiset{v};
    FrameFacts(P, K, multiset{v}, c1, env, w);
    DropGood(w.heap, v, R);
    var w1 := RtDrop(w, v).value;
    assert R == K + multiset{} + Held(env, c1);
    FrameKept(P, K, multiset{v}, multiset{}, c1, env, w, w1);
  }

  lemma {:induction false} ReuseStep(P: Prog, K: multiset<Word>, c: Ctx, env: Env, w: World, x: string, tok: string)
    requires Frame(P, K, multiset{}, c, env, w) && x in c.own && Unused(c, tok)
    ensures var r := RtDropReuse(w, Val(env, x)); var c1 := Consume(c, x);
            && r.Done? && Kept(K, w.heap, r.w.heap) && r.w.globs == w.globs
            && Frame(P, K, multiset{}, c1.(toks := c1.toks + {tok}), env[tok := r.v], r.w)
  {
    hide Frame, Good, Kept, Held, LiveVal, Drop, DropAll, Unused, RcRuntime.DropReuse;
    var v, c1 := Val(env, x), Consume(c, x);
    var R := K + Held(env, c1);
    ConsumeFrame(P, K, multiset{}, c, env, w, x);
    assert multiset{} + multiset{v} == multiset{v};
    FrameFacts(P, K, multiset{v}, c1, env, w);
    DropReuseGood(w.heap, v, R);
    var r := RtDropReuse(w, v);
    assert R + multiset{r.v} == K + multiset{r.v} + Held(env, c1);
    FrameKept(P, K, multiset{v}, multiset{r.v}, c1, env, w, r.w);
    WithinUnused(c1, c, tok);
    TokenFrame(P, K, c1, env, r.w, tok, r.v);
  }

  lemma {:induction false} MoveStep(P: Prog, n: nat, pt: int, K: multiset<Word>, c: Ctx, env: Env, w: World,
                                    x: string, y: string)
    requires Frame(P, K, multiset{}, c, env, w) && y in c.own && Unused(c, x)
    ensures var r := EvPrim(P, n, pt, env, w, PAtom(AVar(y)));
            if y in env then r == Done(env[y], w) && Frame(P, K, multiset{}, Move(c, y, x), env[x := env[y]], w)
            else r == Stop(Stuck)
  {
    hide Frame, Move, Unused;
    EvAtomsStep(P, pt, env, w, [AVar(y)], [true]);
    EvAtomsStep(P, pt + 0, env, w, [AVar(y)][1..], Later([true]));
    if y in env { MoveFrame(P, K, c, env, w, y, x); }
  }

  // ---------- matched parts ----------

  // owner lends v: someone outside, or an owned variable.
  ghost predicate LentBy(K: multiset<Word>, c: Ctx, env: Env, h: Heap, owner: string, v: Word) {
    if owner == "" then Under(h, K, v) else owner in c.own && Under(h, multiset{Val(env, owner)}, v)
  }

  lemma {:induction false} ScrutLent(P: Prog, pt: int, K: multiset<Word>, c: Ctx, env: Env, w: World, a: OAtom, v: Word)
    requires Frame(P, K, multiset{}, c, env, w) && Usable(c, a) && AtomVal(P, pt, env, w, a) == Some(v)
    ensures LentBy(K, c, env, w.heap, OwnerOf(c, a), v)
  {
    hide Good, Under, WorldOk, LiveVal, TokOk;
    if a.AVar? {
      if a.x in c.bor {
        assert LoanOk(w.heap, K, c, env, a.x);
      } else {
        RootUnder(w.heap, multiset{v}, v);
      }
    } else {
      ConstUnder(P, pt, K, env, w, a, v);
    }
  }

  lemma {:induction false} LendFrame(P: Prog, K: multiset<Word>, c: Ctx, env: Env, env1: Env, w: World, owner: string,
                                     xs: set<string>, roots: multiset<Word>)
    requires Frame(P, K, multiset{}, c, env, w) && MatchOk(env, w.heap, roots, xs, Yes(env1))
    requires forall y :: y in xs ==> Unused(c, y)
    requires if owner == "" then roots == K else owner in c.own && roots == multiset{Val(env, owner)}
    ensures Frame(P, K, multiset{}, Lend(c, owner, xs), env1, w)
  {
    hide Good, Under, WorldOk, LiveVal, TokOk, Values;
    var c1 := Lend(c, owner, xs);
    ValuesAgree(env, env1, c.own);
    ValuesAgree(env, env1, multiset(c.toks));
    assert Held(env1, c1) == Held(env, c);
    forall y | y in c1.bor ensures LoanOk(w.heap, K, c1, env1, y) {
      if y !in xs { assert LoanOk(w.heap, K, c, env, y); }
    }
  }

  // ---------- entering functions ----------

  lemma {:induction false} ZipUnder(h: Heap, roots: multiset<Word>, xs: seq<string>, vs: seq<Word>, y: string)
    requires |xs| == |vs| && y in xs && forall i :: 0 <= i < |vs| ==> Under(h, roots, vs[i])
    ensures y in Zip(xs, vs) && Under(h, roots, Zip(xs, vs)[y])
    decreases |xs|
  {
    hide Under;
    if xs[0] != y { ZipUnder(h, roots, xs[1..], vs[1..], y); }
  }

  lemma {:induction false} LamFrame(P: Prog, K: multiset<Word>, w: World, lam: Lam, captured: seq<Word>, arg: Word)
    requires LamOwned(P, lam) && |captured| == |lam.caps| && WorldOk(P, K, w)
    requires Good(w.heap, K + multiset{arg}) && LiveVal(w.heap, arg)
    requires forall i :: 0 <= i < |captured| ==> Under(w.heap, K, captured[i])
    ensures Frame(P, K, multiset{}, Ctx(multiset{lam.pat.name}, AllLent(lam.caps), {}),
                  Zip(lam.caps, captured)[lam.pat.name := arg], w)
  {
    hide Good, Under, WorldOk, LiveVal, TokOk, Values, WellOwned;
    var x, env := lam.pat.name, Zip(lam.caps, captured)[lam.pat.name := arg];
    var c := Ctx(multiset{x}, AllLent(lam.caps), {});
    ValuesOne(env, x);
    assert multiset(c.toks) == multiset{};
    assert K + multiset{} + Held(env, c) == K + multiset{arg};
    forall y | y in c.bor ensures LoanOk(w.heap, K, c, env, y) { ZipUnder(w.heap, K, lam.caps, captured, y); }
  }

  // Parameters are bound in turn.
  lemma {:induction false} BindParams(P: Prog, n: nat, pt: int, env: Env, h: Heap, ps: seq<Pat>, vs: seq<Word>)
    requires |ps| == |vs| && (forall p :: p in ps ==> p.PVar?)
    ensures |ParamNames(ps)| == |ps|
    requires Distinct(ParamNames(ps))
    ensures MatchPats(P, n, pt, env, h, ps, vs).Yes?
    ensures var env1 := MatchPats(P, n, pt, env, h, ps, vs).env;
            && (forall i :: 0 <= i < |ps| ==> Val(env1, ParamNames(ps)[i]) == vs[i])
            && (forall y :: y !in ParamNames(ps) ==> Val(env1, y) == Val(env, y))
    decreases |ps|
  {
    if ps != [] {
      var xs := ParamNames(ps);
      assert xs[1..] == ParamNames(ps[1..]);
      TailDistinct(xs);
      var env0 := env[xs[0] := vs[0]];
      BindParams(P, n, pt + PatIds(ps[0]), env0, h, ps[1..], vs[1..]);
      assert ps[0] in ps && MatchPat(P, n, pt, env, h, ps[0], vs[0]) == Yes(env0);
      assert MatchPats(P, n, pt, env, h, ps, vs) == MatchPats(P, n, pt + PatIds(ps[0]), env0, h, ps[1..], vs[1..]);
      var env1 := MatchPats(P, n, pt, env, h, ps, vs).env;
      assert Val(env1, xs[0]) == Val(env0, xs[0]);
      forall i | 0 < i < |ps| ensures Val(env1, xs[i]) == vs[i] { assert xs[i] == xs[1..][i - 1]; }
    }
  }

  lemma {:induction false} TailDistinct(xs: seq<string>)
    requires xs != [] && Distinct(xs)
    ensures Distinct(xs[1..]) && xs[0] !in xs[1..]
  {
  }

  lemma {:induction false} OwnedParams(env: Env, xs: seq<string>, vs: seq<Word>, modes: seq<bool>)
    requires |xs| == |vs| == |modes| && forall i :: 0 <= i < |xs| ==> Val(env, xs[i]) == vs[i]
    ensures Values(env, multiset(OfMode(xs, modes, true))) == multiset(Taken(vs, modes))
    decreases |xs|
  {
    hide Values, Val;
    if xs == [] {
      ValuesOne(env, "");
    } else {
      OwnedParams(env, xs[1..], vs[1..], modes[1..]);
      var later := OfMode(xs[1..], modes[1..], true);
      if modes[0] {
        assert multiset([xs[0]] + later) == multiset(later) + multiset{xs[0]};
        ValuesAdd(env, multiset(later), xs[0]);
        assert multiset([vs[0]] + Taken(vs[1..], modes[1..])) == multiset(Taken(vs[1..], modes[1..])) + multiset{vs[0]};
      } else {
        assert [] + later == later;
      }
    }
  }

  lemma {:induction false} ParamAt(xs: seq<string>, modes: seq<bool>, mode: bool, y: string) returns (i: nat)
    requires |xs| == |modes| && y in OfMode(xs, modes, mode)
    ensures i < |xs| && xs[i] == y && modes[i] == mode
    decreases |xs|
  {
    if xs[0] == y && modes[0] == mode {
      i := 0;
    } else {
      i := ParamAt(xs[1..], modes[1..], mode, y);
      i := i + 1;
    }
  }

  lemma {:induction false} DefFrame(P: Prog, K: multiset<Word>, w: World, d: ODef, vs: seq<Word>, env: Env)
    requires DefOwned(P, d) && |vs| == |d.params| && WorldOk(P, K, w)
    requires Good(w.heap, K + multiset(Taken(vs, d.modes))) && ValsOk(w.heap, K, vs, d.modes)
    requires forall i :: 0 <= i < |vs| ==> Val(env, ParamNames(d.params)[i]) == vs[i]
    ensures var xs := ParamNames(d.params);
            Frame(P, K, multiset{}, Ctx(multiset(OfMode(xs, d.modes, true)), AllLent(OfMode(xs, d.modes, false)),
                {}), env, w)
  {
    hide Good, Under, WorldOk, LiveVal, TokOk, Values, WellOwned, ValsOk, Taken, Val, OfMode;
    var xs := ParamNames(d.params);
    var c := Ctx(multiset(OfMode(xs, d.modes, true)), AllLent(OfMode(xs, d.modes, false)), {});
    OwnedParams(env, xs, vs, d.modes);
    ValuesOne(env, "");
    assert multiset(c.toks) == multiset{};
    assert K + multiset{} + Held(env, c) == K + multiset(Taken(vs, d.modes));
    forall x | x in c.own ensures LiveVal(w.heap, Val(env, x)) && x != "" {
      var i := ParamAt(xs, d.modes, true, x);
      ValsAt(w.heap, K, vs, d.modes, i);
      NamesAt(d.params, i);
    }
    forall y | y in c.bor ensures LoanOk(w.heap, K, c, env, y) {
      var i := ParamAt(xs, d.modes, false, y);
      ValsAt(w.heap, K, vs, d.modes, i);
    }
  }

  lemma {:induction false} NamesAt(ps: seq<Pat>, i: nat)
    requires (forall p :: p in ps ==> p.PVar?) && i < |ps|
    ensures |ParamNames(ps)| == |ps| && ParamNames(ps)[i] == ps[i].name
    decreases |ps|
  {
    if i > 0 { NamesAt(ps[1..], i - 1); } else if |ps| > 1 { NamesAt(ps[1..], 0); }
  }

  // ---------- curried levels ----------

  lemma {:induction false} DupOwnedGood(h: Heap, vs: seq<Word>, modes: seq<bool>, i: nat, roots: multiset<Word>)
    requires i <= |vs| <= |modes| && Good(h, roots) && forall j :: 0 <= j < |vs| ==> LiveVal(h, vs[j])
    ensures DupOwned(h, vs, modes, i).Ok?
    ensures var h1 := DupOwned(h, vs, modes, i).heap;
            Good(h1, roots + multiset(Taken(vs[i..], modes[i..]))) && forall rs :: Kept(rs, h, h1)
    decreases |vs| - i
  {
    hide Good, Kept, LiveVal, Dup, Taken;
    TakenStep(vs[i..], modes[i..]);
    if i == |vs| {
      assert vs[i..] == [];
      assert roots + multiset([]) == roots;
      forall rs ensures Kept(rs, h, h) { KeptSame(rs, h); }
    } else {
      assert vs[i..][1..] == vs[i + 1..] && modes[i..][1..] == modes[i + 1..];
      var later := Taken(vs[i + 1..], modes[i + 1..]);
      if modes[i] {
        DupGood(h, vs[i], roots);
        var h1 := Dup(h, vs[i]).heap;
        forall j | 0 <= j < |vs| ensures LiveVal(h1, vs[j]) { LiveKept(h, h1, vs[j]); }
        DupOwnedGood(h1, vs, modes, i + 1, roots + multiset{vs[i]});
        var h2 := DupOwned(h, vs, modes, i).heap;
        forall rs ensures Kept(rs, h, h2) { KeptTrans(rs, h, h1, h2); }
        assert roots + multiset{vs[i]} + multiset(later) == roots + (multiset{vs[i]} + multiset(later));
      } else {
        DupOwnedGood(h, vs, modes, i + 1, roots);
        assert multiset{} + multiset(later) == multiset(later);
      }
    }
  }

  lemma {:induction false} TakenSnoc(vs: seq<Word>, v: Word, modes: seq<bool>)
    requires |modes| == |vs| + 1
    ensures multiset(Taken(vs + [v], modes))
         == multiset(Taken(vs, modes)) + (if modes[|vs|] then multiset{v} else multiset{})
    decreases |vs|
  {
    hide Taken;
    TakenStep(vs + [v], modes);
    TakenStep(vs, modes);
    if vs == [] {
      assert ([] + [v])[1..] == [];
      TakenStep([], modes[1..]);
    } else {
      assert (vs + [v])[1..] == vs[1..] + [v];
      TakenSnoc(vs[1..], v, modes[1..]);
    }
  }

  lemma {:induction false} TakenStep(vs: seq<Word>, modes: seq<bool>)
    requires modes != [] || vs == []
    ensures vs == [] ==> Taken(vs, modes) == []
    ensures vs != [] ==>
      (multiset(Taken(vs, modes))
       == (if modes[0] then multiset{vs[0]} else multiset{}) + multiset(Taken(vs[1..], modes[1..])))
  {
    if vs != [] { assert [] + Taken(vs[1..], modes[1..]) == Taken(vs[1..], modes[1..]); }
  }

  lemma {:induction false} NextLevel(P: Prog, roots: multiset<Word>, w: World, code: Word, i: int, held: seq<Word>,
                                     arg: Word)
    requires AllocatorOk(P) && Good(w.heap, roots + multiset{arg}) && LiveVal(w.heap, arg)
    requires forall j :: 0 <= j < |held| ==> LiveVal(w.heap, held[j])
    ensures DupAll(w.heap, held).Ok?
    ensures var w1 := w.(heap := DupAll(w.heap, held).heap);
            Owned(roots, w, Build(P, w1, T_CLOSURE, [code, i] + held + [arg]))
  {
    hide Good, Kept, LiveVal, DupAll, Movable, Owned, FirstChild, Build;
    DupAllGood(w.heap, held, roots + multiset{arg});
    var w1 := w.(heap := DupAll(w.heap, held).heap);
    var vs := held + [arg];
    assert multiset(vs) == multiset{arg} + multiset(held);
    assert roots + multiset{arg} + multiset(held) == roots + multiset(vs);
    assert [code, i] + held + [arg] == [code, i] + vs;
    ClosureFields(code, i, vs);
    forall j | 0 <= j < |vs| ensures LiveVal(w1.heap, vs[j]) { LiveKept(w.heap, w1.heap, vs[j]); }
    FieldsMovable(w1.heap, P.newAt(w1.tick, w1.heap), Block(1, T_CLOSURE, [code, i] + vs), vs);
    PlaceOwned(P, roots, w1, T_CLOSURE, [code, i] + vs, multiset(vs));
    assert Kept(roots, w.heap, w1.heap);
    Then(roots, w, w1, Build(P, w1, T_CLOSURE, [code, i] + vs));
  }

  // What the last level passes on to the direct entry.
  lemma {:induction false} LastArgs(P: Prog, K: multiset<Word>, w: World, modes: seq<bool>, held: seq<Word>, arg: Word)
    returns (K1: multiset<Word>)
    requires WorldOk(P, K, w) && Good(w.heap, K + multiset{arg}) && LiveVal(w.heap, arg) && |modes| == |held| + 1
    requires forall j :: 0 <= j < |held| ==> Under(w.heap, K, held[j]) && LiveVal(w.heap, held[j])
    ensures K1 == if modes[|held|] then K else K + multiset{arg}
    ensures DupOwned(w.heap, held, modes, 0).Ok?
    ensures var w1 := w.(heap := DupOwned(w.heap, held, modes, 0).heap); var vs := held + [arg];
            && WorldOk(P, K1, w1) && Good(w1.heap, K1 + multiset(Taken(vs, modes))) && ValsOk(w1.heap, K1, vs, modes)
            && Kept(K1, w.heap, w1.heap)
  {
    hide Good, Kept, LiveVal, Under, WorldOk, Taken, ValsOk, DupOwned;
    K1 := if modes[|held|] then K else K + multiset{arg};
    assert held[0..] == held && modes[0..] == modes;
    DupOwnedGood(w.heap, held, modes, 0, K + multiset{arg});
    var w1 := w.(heap := DupOwned(w.heap, held, modes, 0).heap);
    var vs := held + [arg];
    TakenSnoc(held, arg, modes);
    assert K + multiset{arg} + multiset(Taken(held, modes)) == K1 + multiset(Taken(vs, modes));
    assert Kept(K, w.heap, w1.heap) && Kept(K1, w.heap, w1.heap);
    WorldKept(P, K, w, w1);
    WorldMono(P, K, K1, w1);
    LastVals(K, K1, w.heap, w1.heap, modes, held, arg);
  }

  lemma {:induction false} LastVals(K: multiset<Word>, K1: multiset<Word>, h: Heap, h1: Heap, modes: seq<bool>,
                                    held: seq<Word>, arg: Word)
    requires |modes| == |held| + 1 && K1 == (if modes[|held|] then K else K + multiset{arg}) && LiveVal(h, arg)
    requires forall j :: 0 <= j < |held| ==> Under(h, K, held[j]) && LiveVal(h, held[j])
    requires forall rs :: Kept(rs, h, h1)
    ensures ValsOk(h1, K1, held + [arg], modes)
  {
    hide Kept, LiveVal, Under, ValsOk;
    var vs := held + [arg];
    forall i | 0 <= i < |vs| ensures LiveVal(h1, vs[i]) && (FlagAt(modes, i) || Under(h1, K1, vs[i])) {
      LiveKept(h, h1, vs[i]);
      if i < |held| {
        assert Kept(K, h, h1);
        KeptUnder(K, h, h1, vs[i]);
        UnderMono(h1, K, K1, vs[i]);
      } else if !modes[i] {
        RootUnder(h1, K1, arg);
      }
    }
    ValsFrom(h1, K1, vs, modes);
  }

  // ---------- the induction ----------

  lemma {:induction false} ExprOwned(P: Prog, n: nat, pt: int, K: multiset<Word>, c: Ctx, env: Env, w: World, e: OExpr)
    requires Setting(P) && Frame(P, K, multiset{}, c, env, w) && WellOwned(P, c, e)
    ensures Owned(K, w, Ev(P, n, pt, env, w, e))
    decreases n, 0, e
  {
    hide Frame, Kept, Owned, Setting, Use, Unused, Usable, Consume, Lend, Move, EvPrim, MkClosure, RtDropReuse;
    hide RtDup, RtDrop, EvAtoms, AtomVal, PrimCtx, Take, BlockCtx, Leave;
    match e
    case ORet(a) =>
      RetStep(P, n, pt, K, c, env, w, a);
    case OLet(x, p, rest) =>
      LetOwned(P, n, pt, K, c, env, w, e);
    case OLetRec(_, _, _) =>
      RecOwned(P, n, pt, K, c, env, w, e);
    case OIf(_, _, _) =>
      IfOwned(P, n, pt, K, c, env, w, e);
    case OCase(a, brs) =>
      StopOwned(K, w, Stuck);
      if AtomVal(P, pt, env, w, a).Some? {
        var v := AtomVal(P, pt, env, w, a).value;
        ScrutLent(P, pt, K, c, env, w, a, v);
        BranchesSafe(P, n, pt + AtomIds(a), K, c, env, w, v, OwnerOf(c, a), brs);
      }
    case ODup(_, _) =>
      DupOnOwned(P, n, pt, K, c, env, w, e);
    case ODrop(_, _) =>
      DropOnOwned(P, n, pt, K, c, env, w, e);
    case ODropReuse(_, _, _) =>
      ReuseOnOwned(P, n, pt, K, c, env, w, e);
  }

  lemma {:induction false} RetStep(P: Prog, n: nat, pt: int, K: multiset<Word>, c: Ctx, env: Env, w: World, a: OAtom)
    requires Frame(P, K, multiset{}, c, env, w) && WellOwned(P, c, ORet(a))
    ensures Owned(K, w, Ev(P, n, pt, env, w, ORet(a)))
  {
    hide Frame, Kept, Owned, PrimOk, EvAtoms, Use;
    AtomPrim(P, n, pt, K, c, env, w, a);
    var c1 := Use(c, [a], [true]).value;
    UseWithin(c, [a], [true]);
    RetOwned(P, K, c1, env, w, EvPrim(P, n, pt, env, w, PAtom(a)));
  }

  lemma {:induction false} LetRecStep(P: Prog, pt: int, K: multiset<Word>, c: Ctx, env: Env, w: World, x: string,
                                      p: OPrim)
    requires Setting(P) && Frame(P, K, multiset{}, c, env, w) && p.PLam? && Unused(c, x)
    requires var caps := Without(x, p.caps); Take(c, VarAtoms(caps), Trues(|caps|)).Some?
    ensures var caps := Without(x, p.caps); var c1 := Take(c, VarAtoms(caps), Trues(|caps|)).value;
            var r := MkClosure(P, pt, env, w, Lam(p.pat, p.body, p.caps), Some(x));
            && r != Stop(Corrupt)
            && (r.Done? ==> Frame(P, K, multiset{}, Gain(c1, x), env[x := r.v], r.w)
                            && Kept(K, w.heap, r.w.heap) && r.w.globs == w.globs)
  {
    hide Frame, Kept, Setting, Take, Unused, MkClosure, LiveVal;
    var caps := Without(x, p.caps);
    var c1 := Take(c, VarAtoms(caps), Trues(|caps|)).value;
    LetRecPrim(P, pt, K, c, env, w, Lam(p.pat, p.body, p.caps), x);
    TakeWithin(c, VarAtoms(caps), Trues(|caps|));
    WithinUnused(c1, c, x);
    var r := MkClosure(P, pt, env, w, Lam(p.pat, p.body, p.caps), Some(x));
    if r.Done? { BindFrame(P, K, c1, env, r.w, x, r.v); }
  }

  lemma {:induction false} RecOwned(P: Prog, n: nat, pt: int, K: multiset<Word>, c: Ctx, env: Env, w: World, e: OExpr)
    requires Setting(P) && Frame(P, K, multiset{}, c, env, w) && WellOwned(P, c, e) && e.OLetRec?
    ensures Owned(K, w, Ev(P, n, pt, env, w, e))
    decreases n, 0, e, 0
  {
    hide Frame, Kept, Owned, Setting, Use, Unused, Usable, Consume, Lend, Move, EvPrim, MkClosure, RtDropReuse;
    hide RtDup, RtDrop, EvAtoms, AtomVal, PrimCtx, Take, BlockCtx, Leave;
    var x, p, rest := e.x, e.prim, e.rest;
    var caps := Without(x, p.caps);
    var c1 := Take(c, VarAtoms(caps), Trues(|caps|)).value;
    StopOwned(K, w, Stuck);
    LetRecStep(P, pt, K, c, env, w, x, p);
    var r := MkClosure(P, pt, env, w, Lam(p.pat, p.body, p.caps), Some(x));
    if r.Done? {
      ExprOwned(P, n, pt + PrimIds(p), K, Gain(c1, x), env[x := r.v], r.w, rest);
      Then(K, w, r.w, Ev(P, n, pt + PrimIds(p), env[x := r.v], r.w, rest));
    } else {
      StopOwned(K, w, r.why);
    }
  }

  lemma {:induction false} IfOwned(P: Prog, n: nat, pt: int, K: multiset<Word>, c: Ctx, env: Env, w: World, e: OExpr)
    requires Setting(P) && Frame(P, K, multiset{}, c, env, w) && WellOwned(P, c, e) && e.OIf?
    ensures Owned(K, w, Ev(P, n, pt, env, w, e))
    decreases n, 0, e, 0
  {
    hide Frame, Kept, Owned, Setting, Use, Unused, Usable, Consume, Lend, Move, EvPrim, MkClosure, RtDropReuse;
    hide RtDup, RtDrop, EvAtoms, AtomVal, PrimCtx, Take, BlockCtx, Leave;
    StopOwned(K, w, Stuck);
    if AtomVal(P, pt + 1, env, w, e.cond).Some? {
      var pt1 := pt + 1 + AtomIds(e.cond);
      if AtomVal(P, pt + 1, env, w, e.cond).value == TRUE {
        ExprOwned(P, n, pt1, K, c, env, w, e.thn);
      } else {
        ExprOwned(P, n, pt1 + ExprIds(e.thn), K, c, env, w, e.els);
      }
    }
  }

  lemma {:induction false} DupOnOwned(P: Prog, n: nat, pt: int, K: multiset<Word>, c: Ctx, env: Env, w: World, e: OExpr)
    requires Setting(P) && Frame(P, K, multiset{}, c, env, w) && WellOwned(P, c, e) && e.ODup?
    ensures Owned(K, w, Ev(P, n, pt, env, w, e))
    decreases n, 0, e, 0
  {
    hide Frame, Kept, Owned, Setting, Use, Unused, Usable, Consume, Lend, Move, EvPrim, MkClosure, RtDropReuse;
    hide RtDup, RtDrop, EvAtoms, AtomVal, PrimCtx, Take, BlockCtx, Leave;
    StopOwned(K, w, Stuck);
    if e.x in env {
      DupStep(P, K, c, env, w, e.x);
      var w1 := RtDup(w, env[e.x]).value;
      ExprOwned(P, n, pt, K, Gain(c, e.x), env, w1, e.rest);
      Then(K, w, w1, Ev(P, n, pt, env, w1, e.rest));
    }
  }

  lemma {:induction false} DropOnOwned(P: Prog, n: nat, pt: int, K: multiset<Word>, c: Ctx, env: Env, w: World,
                                       e: OExpr)
    requires Setting(P) && Frame(P, K, multiset{}, c, env, w) && WellOwned(P, c, e) && e.ODrop?
    ensures Owned(K, w, Ev(P, n, pt, env, w, e))
    decreases n, 0, e, 0
  {
    hide Frame, Kept, Owned, Setting, Use, Unused, Usable, Consume, Lend, Move, EvPrim, MkClosure, RtDropReuse;
    hide RtDup, RtDrop, EvAtoms, AtomVal, PrimCtx, Take, BlockCtx, Leave;
    StopOwned(K, w, Stuck);
    if e.x in env {
      DropStep(P, K, c, env, w, e.x);
      var w1 := RtDrop(w, env[e.x]).value;
      ExprOwned(P, n, pt, K, Consume(c, e.x), env, w1, e.rest);
      Then(K, w, w1, Ev(P, n, pt, env, w1, e.rest));
    }
  }

  lemma {:induction false} ReuseOnOwned(P: Prog, n: nat, pt: int, K: multiset<Word>, c: Ctx, env: Env, w: World,
                                        e: OExpr)
    requires Setting(P) && Frame(P, K, multiset{}, c, env, w) && WellOwned(P, c, e) && e.ODropReuse?
    ensures Owned(K, w, Ev(P, n, pt, env, w, e))
    decreases n, 0, e, 0
  {
    hide Frame, Kept, Owned, Setting, Use, Unused, Usable, Consume, Lend, Move, EvPrim, MkClosure, RtDropReuse;
    hide RtDup, RtDrop, EvAtoms, AtomVal, PrimCtx, Take, BlockCtx, Leave;
    StopOwned(K, w, Stuck);
    if e.x in env {
      ReuseStep(P, K, c, env, w, e.x, e.tok);
      var r, c1 := RtDropReuse(w, env[e.x]), Consume(c, e.x);
      ExprOwned(P, n, pt, K, c1.(toks := c1.toks + {e.tok}), env[e.tok := r.v], r.w, e.rest);
      Then(K, w, r.w, Ev(P, n, pt, env[e.tok := r.v], r.w, e.rest));
    }
  }

  lemma {:induction false} LetOwned(P: Prog, n: nat, pt: int, K: multiset<Word>, c: Ctx, env: Env, w: World, e: OExpr)
    requires Setting(P) && Frame(P, K, multiset{}, c, env, w) && WellOwned(P, c, e) && e.OLet?
    ensures Owned(K, w, Ev(P, n, pt, env, w, e))
    decreases n, 0, e, 0
  {
    hide Frame, Kept, Owned, Setting, Use, Unused, Usable, Move, EvPrim, EvAtoms, AtomVal, PrimCtx, Take;
    hide BlockCtx, Leave, LiveVal;
    var x, p, rest := e.x, e.prim, e.rest;
    var r := EvPrim(P, n, pt, env, w, p);
    var pt1 := pt + PrimIds(p);
    if p.PBlock? {
      BlockStep(P, n, pt, K, c, env, w, e);
    } else if p.PAtom? && p.a.AVar? {
      var y := p.a.x;
      MoveStep(P, n, pt, K, c, env, w, x, y);
      if y in env {
        ExprOwned(P, n, pt1, K, Move(c, y, x), env[x := r.v], w, rest);
      } else {
        StopOwned(K, w, Stuck);
      }
    } else {
      var c1 := PrimCtx(P, c, p).value;
      PrimOwned(P, n, pt, K, c, env, w, p);
      if r.Done? {
        PrimWithin(P, c, p);
        WithinUnused(c1, c, x);
        BindFrame(P, K, c1, env, r.w, x, r.v);
        ExprOwned(P, n, pt1, K, Gain(c1, x), env[x := r.v], r.w, rest);
        Then(K, w, r.w, Ev(P, n, pt1, env[x := r.v], r.w, rest));
      } else {
        StopOwned(K, w, r.why);
      }
    }
  }

  lemma {:induction false} BlockStep(P: Prog, n: nat, pt: int, K: multiset<Word>, c: Ctx, env: Env, w: World, e: OExpr)
    requires Setting(P) && Frame(P, K, multiset{}, c, env, w) && WellOwned(P, c, e) && e.OLet? && e.prim.PBlock?
    ensures Owned(K, w, Ev(P, n, pt, env, w, e))
    decreases n, 0, e, 0, 0
  {
    hide Frame, Kept, Setting, Unused, BlockCtx, Leave, LiveVal, Good, Ev, WellOwned, Outside;
    var x, blk, rest := e.x, e.prim.blk, e.rest;
    var inner := BlockSplit(P, c, e);
    EnterFrame(P, K, c, env, w, inner);
    ExprOwned(P, n, pt + 1, Outside(K, c, env, inner), BlockCtx(c, inner), env, w, blk);
    var r := Ev(P, n, pt + 1, env, w, blk);
    BlockEv(P, n, pt, env, w, e);
    if r.Done? {
      LeaveFrame(P, K, c, env, w, r.w, inner, r.v);
      LeaveUnused(c, inner, x);
      BindFrame(P, K, Leave(c, inner), env, r.w, x, r.v);
      var pt1 := pt + PrimIds(e.prim);
      ExprOwned(P, n, pt1, K, Gain(Leave(c, inner), x), env[x := r.v], r.w, rest);
      Then(K, w, r.w, Ev(P, n, pt1, env[x := r.v], r.w, rest));
    }
  }

  lemma {:induction false} BlockSplit(P: Prog, c: Ctx, e: OExpr) returns (inner: multiset<string>)
    requires WellOwned(P, c, e) && e.OLet? && e.prim.PBlock?
    ensures inner <= c.own && WellOwned(P, BlockCtx(c, inner), e.prim.blk)
    ensures WellOwned(P, Gain(Leave(c, inner), e.x), e.rest)
    ensures Unused(c, e.x)
  {
    hide Unused, BlockCtx, Leave;
    assert BlockOwned(P, c, e);
    inner :| inner <= c.own && WellOwned(P, BlockCtx(c, inner), e.prim.blk)
        && WellOwned(P, Gain(Leave(c, inner), e.x), e.rest);
  }

  lemma {:induction false} BlockEv(P: Prog, n: nat, pt: int, env: Env, w: World, e: OExpr)
    requires e.OLet? && e.prim.PBlock?
    ensures Ev(P, n, pt, env, w, e) ==
      match Ev(P, n, pt + 1, env, w, e.prim.blk)
      case Stop(why) => Stop(why)
      case Done(v, w1) => Ev(P, n, pt + PrimIds(e.prim), env[e.x := v], w1, e.rest)
  {
  }

  lemma {:induction false} LeaveUnused(c: Ctx, inner: multiset<string>, x: string)
    requires Unused(c, x)
    ensures Unused(Leave(c, inner), x)
  {
  }

  lemma {:induction false} BranchesSafe(P: Prog, n: nat, pt: int, K: multiset<Word>, c: Ctx, env: Env, w: World,
                                        v: Word, owner: string, brs: seq<OBranch>)
    requires Setting(P) && Frame(P, K, multiset{}, c, env, w) && BranchesOwned(P, c, owner, brs)
    requires LentBy(K, c, env, w.heap, owner, v)
    ensures Owned(K, w, EvBrs(P, n, pt, env, w, v, brs))
    decreases n, 0, brs
  {
    hide Frame, Kept, Owned, Setting, Unused, Lend, MatchPat, Under, MatchOk, Ev, EvBrs, WellOwned;
    hide BranchesOwned, PatVars;
    StopOwned(K, w, NoMatch);
    BrsEv(P, n, pt, env, w, v, brs);
    if brs != [] {
      var br := brs[0];
      assert brs decreases to br;
      BranchHead(P, c, owner, brs);
      var roots := if owner == "" then K else multiset{Val(env, owner)};
      FrameFacts(P, K, multiset{}, c, env, w);
      MatchSafe(P, n, pt + 1, env, w.heap, roots, br.pat, v);
      var m := MatchPat(P, n, pt + 1, env, w.heap, br.pat, v);
      match m
      case Yes(env1) =>
        LendFrame(P, K, c, env, env1, w, owner, PatVars(br.pat), roots);
        ExprOwned(P, n, pt + 1 + PatIds(br.pat), K, Lend(c, owner, PatVars(br.pat)), env1, w, br.body);
      case No =>
        BranchesSafe(P, n, pt + 1 + PatIds(br.pat) + ExprIds(br.body), K, c, env, w, v, owner, brs[1..]);
      case MStop(why) =>
        MatchStops(env, w.heap, roots, PatVars(br.pat), why);
        StopOwned(K, w, why);
    }
  }

  lemma {:induction false} BrsEv(P: Prog, n: nat, pt: int, env: Env, w: World, v: Word, brs: seq<OBranch>)
    ensures EvBrs(P, n, pt, env, w, v, brs) ==
      if brs == [] then Stop(NoMatch)
      else match MatchPat(P, n, pt + 1, env, w.heap, brs[0].pat, v)
        case Yes(env1) => Ev(P, n, pt + 1 + PatIds(brs[0].pat), env1, w, brs[0].body)
        case No => EvBrs(P, n, pt + 1 + PatIds(brs[0].pat) + ExprIds(brs[0].body), env, w, v, brs[1..])
        case MStop(why) => Stop(why)
  {
  }

  lemma {:induction false} BranchHead(P: Prog, c: Ctx, owner: string, brs: seq<OBranch>)
    requires BranchesOwned(P, c, owner, brs) && brs != []
    ensures forall y :: y in PatVars(brs[0].pat) ==> Unused(c, y)
    ensures WellOwned(P, Lend(c, owner, PatVars(brs[0].pat)), brs[0].body) && BranchesOwned(P, c, owner, brs[1..])
  {
    hide WellOwned, Unused, Lend, PatVars;
  }

  lemma {:induction false} MatchStops(env: Env, h: Heap, roots: multiset<Word>, xs: set<string>, why: Why)
    requires MatchOk(env, h, roots, xs, MStop(why))
    ensures why != Corrupt
  {
  }

  lemma {:induction false} PrimOwned(P: Prog, n: nat, pt: int, K: multiset<Word>, c: Ctx, env: Env, w: World, p: OPrim)
    requires Setting(P) && Frame(P, K, multiset{}, c, env, w) && PrimCtx(P, c, p).Some?
    ensures PrimOk(P, K, The(PrimCtx(P, c, p)), env, w, EvPrim(P, n, pt, env, w, p))
    decreases n, 0, p, 1
  {
    hide Frame, Kept, Setting, Use, Take, PrimOk, EvAtoms, BuildWith, MkClosure, Held;
    var c1 := PrimCtx(P, c, p).value;
    Stopped(P, K, c1, env, w, Stuck);
    match p
    case PAtom(a) => AtomPrim(P, n, pt, K, c, env, w, a);
    case PApp(f, a) => AppOwned(P, n, pt, K, c, env, w, f, a);
    case PCall(f, args) => CallOwned(P, n, pt, K, c, env, w, f, args);
    case PBi(name, args) => BiPrim(P, n, pt, K, c, env, w, name, args);
    case PMkCtor(con, args, tok) => CtorPrim(P, n, pt, K, c, env, w, con, args, tok);
    case PMkTup(args, tok) => TupPrim(P, n, pt, K, c, env, w, args, tok);
    case PLam(pat, body, caps) => LamPrim(P, pt, K, c, env, w, Lam(pat, body, caps));
    case PBin(op, a, b) => BinPrim(P, n, pt, K, c, env, w, op, a, b);
  }

  lemma {:induction false} CtorPrim(P: Prog, n: nat, pt: int, K: multiset<Word>, c: Ctx, env: Env, w: World,
                                    con: string, args: seq<OAtom>, tok: string)
    requires Setting(P) && Frame(P, K, multiset{}, c, env, w) && PrimCtx(P, c, PMkCtor(con, args, tok)).Some?
    ensures PrimOk(P, K, The(PrimCtx(P, c, PMkCtor(con, args, tok))), env, w,
        EvPrim(P, n, pt, env, w, PMkCtor(con, args, tok)))
  {
    hide Frame, Kept, Setting, Use, PrimOk, EvAtoms, BuildWith, Held;
    var c2 := PrimCtx(P, c, PMkCtor(con, args, tok)).value;
    Stopped(P, K, c2, env, w, Stuck);
    if con in P.ar && con in P.cid && P.ar[con] == |args| {
      if |args| == 0 {
        NoArgs(c, args);
        if tok == "" && SNull(con) in P.addr { NullaryPrim(P, K, c, env, w, con); }
      } else {
        MkPrim(P, pt, K, c, env, w, args, tok, T_ADT, [P.cid[con]]);
        var r := EvAtoms(P, pt, env, w, args, Trues(|args|));
        if r.VStop? { Stopped(P, K, c2, env, w, r.why); }
      }
    }
  }

  lemma {:induction false} NoArgs(c: Ctx, args: seq<OAtom>)
    requires |args| == 0
    ensures Use(c, args, Trues(|args|)) == Some(c)
  {
  }

  lemma {:induction false} TupPrim(P: Prog, n: nat, pt: int, K: multiset<Word>, c: Ctx, env: Env, w: World,
                                   args: seq<OAtom>, tok: string)
    requires Setting(P) && Frame(P, K, multiset{}, c, env, w) && PrimCtx(P, c, PMkTup(args, tok)).Some?
    ensures PrimOk(P, K, The(PrimCtx(P, c, PMkTup(args, tok))), env, w, EvPrim(P, n, pt, env, w, PMkTup(args, tok)))
  {
    hide Frame, Kept, Setting, Use, PrimOk, EvAtoms, BuildWith, Held;
    var c2 := PrimCtx(P, c, PMkTup(args, tok)).value;
    Stopped(P, K, c2, env, w, Stuck);
    MkPrim(P, pt, K, c, env, w, args, tok, T_TUPLE, []);
    var r := EvAtoms(P, pt, env, w, args, Trues(|args|));
    if r.VStop? { Stopped(P, K, c2, env, w, r.why); } else { assert [] + r.vs == r.vs; }
  }

  lemma {:induction false} AppOwned(P: Prog, n: nat, pt: int, K: multiset<Word>, c: Ctx, env: Env, w: World, f: OAtom,
                                    a: OAtom)
    requires Setting(P) && Frame(P, K, multiset{}, c, env, w) && Use(c, [f, a], [false, true]).Some?
    ensures PrimOk(P, K, The(Use(c, [f, a], [false, true])), env, w, EvPrim(P, n, pt, env, w, PApp(f, a)))
    decreases n, 0, PApp(f, a), 0
  {
    hide Frame, Kept, Setting, Use, PrimOk, EvAtoms, Held, Good, WorldOk, LiveVal, Under, Taken, ValsOk;
    hide EvClosure, Owned, StaticsIn;
    var c1 := Use(c, [f, a], [false, true]).value;
    Operands(P, pt, K, c, env, w, [f, a], [false, true]);
    var r := EvAtoms(P, pt, env, w, [f, a], [false, true]);
    Stopped(P, K, c1, env, w, Stuck);
    Stopped(P, K, c1, env, w, OutOfFuel);
    if r.VStop? {
      Stopped(P, K, c1, env, w, r.why);
    } else {
      ValsAt(r.w.heap, K + Held(env, c1), r.vs, [false, true], 0);
      UnderLive(r.w.heap, K + Held(env, c1), r.vs[0]);
    }
    if r.Vals? && n > 0 {
      var R, clo, arg := K + Held(env, c1), r.vs[0], r.vs[1];
      SecondTaken(r.vs);
      FrameFacts(P, K, multiset{arg}, c1, env, r.w);
      ValsAt(r.w.heap, R, r.vs, [false, true], 0);
      ValsAt(r.w.heap, R, r.vs, [false, true], 1);
      ClosureOwned(P, n - 1, R, r.w, clo, arg);
      Settle(P, K, multiset{arg}, c1, env, w, r.w, EvClosure(P, n - 1, r.w, clo, arg));
    }
  }

  lemma {:induction false} UnderLive(h: Heap, roots: multiset<Word>, v: Word)
    requires Under(h, roots, v)
    ensures IsRef(v) ==> v in h
  {
  }

  lemma {:induction false} CallOwned(P: Prog, n: nat, pt: int, K: multiset<Word>, c: Ctx, env: Env, w: World, f: string,
                                     args: seq<OAtom>)
    requires Setting(P) && Frame(P, K, multiset{}, c, env, w) && f in P.defs
    requires Use(c, args, AtKey(P.defs, f).modes).Some?
    ensures PrimOk(P, K, The(Use(c, args, AtKey(P.defs, f).modes)), env, w, EvPrim(P, n, pt, env, w, PCall(f, args)))
    decreases n, 0, PCall(f, args), 0
  {
    hide Frame, Kept, Setting, Use, PrimOk, EvAtoms, Held, Good, WorldOk, LiveVal, Under, Taken, ValsOk;
    hide EvDirect, Owned, StaticsIn;
    var modes := P.defs[f].modes;
    var c1 := Use(c, args, modes).value;
    Operands(P, pt, K, c, env, w, args, modes);
    var r := EvAtoms(P, pt, env, w, args, modes);
    Stopped(P, K, c1, env, w, Stuck);
    Stopped(P, K, c1, env, w, OutOfFuel);
    if r.VStop? {
      Stopped(P, K, c1, env, w, r.why);
    } else if n > 0 {
      var R, X := K + Held(env, c1), multiset(Taken(r.vs, modes));
      FrameFacts(P, K, X, c1, env, r.w);
      DirectOwned(P, n - 1, R, r.w, f, r.vs);
      Settle(P, K, X, c1, env, w, r.w, EvDirect(P, n - 1, r.w, f, r.vs));
    }
  }

  lemma {:induction false} DirectOwned(P: Prog, n: nat, K: multiset<Word>, w: World, f: string, vs: seq<Word>)
    requires Setting(P) && WorldOk(P, K, w) && f in P.defs
    requires Good(w.heap, K + multiset(Taken(vs, AtKey(P.defs, f).modes)))
    requires ValsOk(w.heap, K, vs, AtKey(P.defs, f).modes)
    ensures Owned(K, w, EvDirect(P, n, w, f, vs))
    decreases n, 1, 0
  {
    hide Frame, Kept, Good, WorldOk, Taken, ValsOk, Owned, AllocatorOk, WellOwned, MatchPats, OfMode;
    StopOwned(K, w, Stuck);
    var d := P.defs[f];
    if f in P.base && |d.params| == |vs| {
      assert DefOwned(P, d);
      var xs := ParamNames(d.params);
      BindParams(P, n, P.base[f] + 1, map[], w.heap, d.params, vs);
      var env := MatchPats(P, n, P.base[f] + 1, map[], w.heap, d.params, vs).env;
      DefFrame(P, K, w, d, vs, env);
      ExprOwned(P, n, BodyPt(P, f), K,
          Ctx(multiset(OfMode(xs, d.modes, true)), AllLent(OfMode(xs, d.modes, false)), {}), env, w, d.body);
    }
  }

  lemma {:induction false} LamCall(P: Prog, n: nat, K: multiset<Word>, w: World, id: int, captured: seq<Word>,
                                   arg: Word)
    requires Setting(P) && WorldOk(P, K, w) && Good(w.heap, K + multiset{arg}) && LiveVal(w.heap, arg)
    requires forall i :: 0 <= i < |captured| ==> Under(w.heap, K, captured[i])
    ensures Owned(K, w, EvLam(P, n, w, id, captured, arg))
    decreases n, 1
  {
    hide Frame, Kept, Good, WorldOk, Owned, AllocatorOk, LiveVal, Under, WellOwned;
    StopOwned(K, w, Stuck);
    if id in P.lams && |P.lams[id].caps| == |captured| {
      var lam := P.lams[id];
      assert LamOwned(P, lam);
      LamFrame(P, K, w, lam, captured, arg);
      ExprOwned(P, n, id + 1 + PatIds(lam.pat), K, Ctx(multiset{lam.pat.name}, AllLent(lam.caps), {}),
                Zip(lam.caps, captured)[lam.pat.name := arg], w, lam.body);
    }
  }

  lemma {:induction false} LevelOwned(P: Prog, n: nat, K: multiset<Word>, w: World, f: string, i: int,
                                      held: seq<Word>, arg: Word)
    requires Setting(P) && WorldOk(P, K, w) && Good(w.heap, K + multiset{arg}) && LiveVal(w.heap, arg)
    requires forall j :: 0 <= j < |held| ==> Under(w.heap, K, held[j]) && LiveVal(w.heap, held[j])
    ensures Owned(K, w, EvLevel(P, n, w, f, i, held, arg))
    decreases n, 2
  {
    hide Frame, Kept, Good, WorldOk, Owned, LiveVal, Under, WellOwned, DupAll, Build, DupOwned, EvDirect;
    hide RtDrop, ValsOk, Taken, LastLevel;
    StopOwned(K, w, Stuck);
    if f in P.defs && 0 < i <= |P.defs[f].params| && |held| == i - 1 {
      var d := P.defs[f];
      assert DefOwned(P, d);
      if i < |d.params| {
        if SLevel(f, i + 1) in P.addr { NextLevel(P, K, w, P.addr[SLevel(f, i + 1)], i, held, arg); }
      } else {
        var K1 := LastArgs(P, K, w, d.modes, held, arg);
        var w1 := w.(heap := DupOwned(w.heap, held, d.modes, 0).heap);
        LastLevelOwned(P, n, K1, w1, f, held + [arg]);
        var r := LastLevel(P, n, w1, f, held + [arg]);
        Then(K1, w, w1, r);
        if r.Done? && !d.modes[|held|] { ThenDrop(K, w, arg, r); }
        LevelStops(K1, K, w, r);
      }
    }
  }

  lemma {:induction false} LastLevelOwned(P: Prog, n: nat, K: multiset<Word>, w: World, f: string, vs: seq<Word>)
    requires Setting(P) && WorldOk(P, K, w) && f in P.defs
    requires Good(w.heap, K + multiset(Taken(vs, AtKey(P.defs, f).modes)))
    requires ValsOk(w.heap, K, vs, AtKey(P.defs, f).modes)
    ensures Owned(K, w, LastLevel(P, n, w, f, vs))
    decreases n, 1, 1
  {
    hide Good, WorldOk, Owned, ValsOk, Taken, EvDirect, Setting;
    StopOwned(K, w, OutOfFuel);
    if !P.defs[f].direct {
      DirectOwned(P, n, K, w, f, vs);
    } else if n > 0 {
      DirectOwned(P, n - 1, K, w, f, vs);
    }
  }

  lemma {:induction false} LevelStops(K1: multiset<Word>, K: multiset<Word>, w: World, r: Res)
    requires Owned(K1, w, r)
    ensures r.Stop? ==> Owned(K, w, r)
  {
  }

  lemma {:induction false} BuiltinStepOwned(P: Prog, K: multiset<Word>, w: World, clo: Word, arg: Word)
    requires AllocatorOk(P) && StaticsIn(P, w.heap) && Good(w.heap, K + multiset{arg}) && LiveVal(w.heap, arg)
    requires IsRef(clo) && clo in w.heap && AtKey(w.heap, clo).tag == T_CLOSURE && Under(w.heap, K, clo)
    ensures Owned(K, w, RtBuiltinStep(P, w, AtKey(w.heap, clo).words, arg))
  {
    hide Kept, Good, Owned, LiveVal, Under, DupAll, Build, RtDrop, IsRef, RtBuiltin, StaticsIn, AllocatorOk;
    hide BiName, BiArity;
    var words := w.heap[clo].words;
    StopOwned(K, w, Stuck);
    if |words| >= 4 {
      var idx, args := IntOf(words[2]), words[4..];
      HeldUnder(w.heap, K, clo, 4);
      if BiName(idx).Some? {
        var all := args + [arg];
        forall i | 0 <= i < |all| ensures LiveVal(w.heap, all[i]) { }
        BuiltinOwned(P, K + multiset{arg}, w, BiName(idx).value, all);
        var r := RtBuiltin(P, w, BiName(idx).value, all);
        LevelStops(K + multiset{arg}, K, w, r);
        if r.Done? { ThenDrop(K, w, arg, r); }
      }
      BiNext(P, K, w, idx, args, arg);
    }
  }

  lemma {:induction false} BiNext(P: Prog, K: multiset<Word>, w: World, idx: int, args: seq<Word>, arg: Word)
    requires AllocatorOk(P) && Good(w.heap, K + multiset{arg}) && LiveVal(w.heap, arg)
    requires forall j :: 0 <= j < |args| ==> LiveVal(w.heap, args[j])
    ensures DupAll(w.heap, args).Ok?
    ensures var w1 := w.(heap := DupAll(w.heap, args).heap);
            Owned(K, w, Build(P, w1, T_CLOSURE, BiStepWords(idx, args + [arg])))
  {
    hide Good, Kept, LiveVal, DupAll, Movable, Owned, Build;
    DupAllGood(w.heap, args, K + multiset{arg});
    var w1 := w.(heap := DupAll(w.heap, args).heap);
    var vs, words := args + [arg], BiStepWords(idx, args + [arg]);
    assert multiset(vs) == multiset{arg} + multiset(args);
    assert K + multiset{arg} + multiset(args) == K + multiset(vs);
    forall j | 0 <= j < |vs| ensures LiveVal(w1.heap, vs[j]) { LiveKept(w.heap, w1.heap, vs[j]); }
    var p := P.newAt(w1.tick, w1.heap);
    BiStepKids(p, idx, vs);
    RefsMovable(w1.heap, p, Block(1, T_CLOSURE, words), vs);
    PlaceOwned(P, K, w1, T_CLOSURE, words, multiset(vs));
    assert Kept(K, w.heap, w1.heap);
    Then(K, w, w1, Build(P, w1, T_CLOSURE, words));
  }

  lemma {:induction false} BiStepKids(p: Word, idx: int, args: seq<Word>)
    ensures Kids(p, Block(1, T_CLOSURE, BiStepWords(idx, args))) == RefsIn(p, args)
  {
    assert BiStepWords(idx, args)[2..] == [MkInt(idx), MkInt(|args|)] + args;
    RefsInAppend(p, [MkInt(idx), MkInt(|args|)], args);
    TaggedNoRefs(p, idx, |args|);
  }

  lemma {:induction false} ClosureOwned(P: Prog, n: nat, K: multiset<Word>, w: World, clo: Word, arg: Word)
    requires Setting(P) && WorldOk(P, K, w) && Good(w.heap, K + multiset{arg}) && LiveVal(w.heap, arg)
    requires Under(w.heap, K, clo)
    ensures Owned(K, w, EvClosure(P, n, w, clo, arg))
    decreases n, 3
  {
    hide Kept, Good, Owned, LiveVal, From, WorldOk, EvLam, EvLevel, RtCtorStep, RtBuiltinStep, IsRef, CodeAt, ProgOwned;
    StopOwned(K, w, Stuck);
    if IsRef(clo) && clo in w.heap {
      var b := w.heap[clo];
      if b.tag == T_CLOSURE && |b.words| >= 2 {
        HeldUnder(w.heap, K, clo, 2);
        CtorStepOwned(P, K, w, clo, arg);
        StaticsOf(P, K, w);
        BuiltinStepOwned(P, K, w, clo, arg);
        match CodeAt(P, b.words[0])
        case Some(SLam(id)) => LamCall(P, n, K, w, id, b.words[2..], arg);
        case Some(SLevel(f, i)) => LevelOwned(P, n, K, w, f, i, b.words[2..], arg);
        case _ =>
      }
    }
  }

  lemma {:induction false} StaticsOf(P: Prog, K: multiset<Word>, w: World)
    requires WorldOk(P, K, w)
    ensures StaticsIn(P, w.heap)
  {
  }
}

// Primitives, pattern matches and runtime calls of well-owned code: each keeps
// the counts exact and touches only live blocks.
module OwnershipSteps {
  import opened Types
  import opened Syntax
  import opened RcHeap
  import opened Trampoline
  import opened Oir
  import opened HeapSteps
  import opened Ownership
  import opened OwnershipFrame

  // A run from w that consumed what it was given: nothing dead was touched, and
  // at the end the roots are joined by exactly the result.
  ghost predicate Owned(roots: multiset<Word>, w: World, r: Res) {
    && r != Stop(Corrupt)
    && (r.Done? ==>
          && r.w.globs == w.globs && Good(r.w.heap, roots + multiset{r.v})
          && LiveVal(r.w.heap, r.v) && Kept(roots, w.heap, r.w.heap))
  }

  // ---------- equality ----------

  ghost predicate AllLive(h: Heap, vs: seq<Word>) { forall i :: 0 <= i < |vs| && IsRef(vs[i]) ==> vs[i] in h }

  lemma {:induction false} EqSafe(h: Heap, a: Word, b: Word, n: nat)
    requires Shaped(h) && (IsRef(a) ==> a in h) && (IsRef(b) ==> b in h)
    ensures ValEq(h, a, b, n) != EqStop(Corrupt)
    decreases n, 1
  {
    hide Kids, SameText, Shaped, IsInt, IsBool, IsRef, FieldsEq, AllLive;
    AlignedRef(a);
    AlignedRef(b);
    if a in h && b in h && n > 0 && h[a].tag == h[b].tag {
      if h[a].tag == T_TUPLE {
        FieldsLive(h, a, 0);
        FieldsLive(h, b, 0);
        FieldsSafe(h, h[a].words, h[b].words, n - 1);
      } else if h[a].tag == T_ADT && h[a].words != [] && h[b].words != [] {
        FieldsLive(h, a, 1);
        FieldsLive(h, b, 1);
        FieldsSafe(h, h[a].words[1..], h[b].words[1..], n - 1);
      }
    }
  }

  lemma {:induction false} AlignedRef(a: Word)
    ensures a % 4 == 0 && a != 0 ==> IsRef(a)
  {
  }

  lemma {:induction false} FieldsLive(h: Heap, q: Word, from: nat)
    requires Shaped(h) && q in h && FirstChild(h[q]) <= from <= |h[q].words|
    ensures AllLive(h, h[q].words[from..])
  {
    hide FirstChild, Shaped;
    var ws := h[q].words[from..];
    forall i | 0 <= i < |ws| && IsRef(ws[i]) ensures ws[i] in h { FieldLive(h, q, from + i); }
  }

  lemma {:induction false} FieldsSafe(h: Heap, as_: seq<Word>, bs: seq<Word>, n: nat)
    requires Shaped(h) && AllLive(h, as_) && AllLive(h, bs)
    ensures FieldsEq(h, as_, bs, n) != EqStop(Corrupt)
    decreases n, 2, |as_|
  {
    hide ValEq, Shaped;
    if as_ != [] && bs != [] {
      EqSafe(h, as_[0], bs[0], n);
      assert AllLive(h, as_[1..]) && AllLive(h, bs[1..]);
      FieldsSafe(h, as_[1..], bs[1..], n);
    }
  }

  // ---------- pattern matching ----------

  ghost predicate StaticsIn(P: Prog, h: Heap) {
    forall s :: s in P.addr && !IsCode(s) ==> Static(h, P.addr[s])
  }

  // A match touches live blocks only and binds parts of the matched value.
  ghost predicate MatchOk(env: Env, h: Heap, roots: multiset<Word>, xs: set<string>, r: MatchRes) {
    && r != MStop(Corrupt)
    && (r.Yes? ==>
          && (forall y :: y in xs ==> Under(h, roots, Val(r.env, y)))
          && (forall y :: y !in xs ==> Val(r.env, y) == Val(env, y)))
  }

  lemma {:induction false} MatchSafe(P: Prog, n: nat, pt: int, env: Env, h: Heap, roots: multiset<Word>, pat: Pat,
                                     v: Word)
    requires Shaped(h) && NoRawKids(h) && StaticsIn(P, h) && Under(h, roots, v)
    ensures MatchOk(env, h, roots, PatVars(pat), MatchPat(P, n, pt, env, h, pat, v))
    decreases pat
  {
    hide ValEq, Shaped, NoRawKids, From, StaticsIn;
    match pat
    case PStr(_) =>
      if SStr(pt) in P.addr {
        LiteralLive(P, h, pt);
        EqSafe(h, P.addr[SStr(pt)], v, n);
      }
    case PTup(ps) =>
      if IsRef(v) && v in h && h[v].tag == T_TUPLE && |h[v].words| == |ps| {
        FieldsUnder(h, roots, v, 0);
        MatchesSafe(P, n, pt, env, h, roots, ps, h[v].words[0..]);
      }
    case PCtor(c, ps) =>
      if IsRef(v) && v in h && h[v].tag == T_ADT && |h[v].words| == 1 + |ps| {
        FieldsUnder(h, roots, v, 1);
        MatchesSafe(P, n, pt, env, h, roots, ps, h[v].words[1..]);
      }
    case _ =>
  }

  lemma {:induction false} LiteralLive(P: Prog, h: Heap, pt: int)
    requires StaticsIn(P, h) && SStr(pt) in P.addr
    ensures IsRef(P.addr[SStr(pt)]) ==> P.addr[SStr(pt)] in h
  {
    assert Static(h, P.addr[SStr(pt)]);
  }

  lemma {:induction false} FieldsUnder(h: Heap, roots: multiset<Word>, q: Word, from: nat)
    requires Shaped(h) && NoRawKids(h) && q in h && FirstChild(h[q]) <= from <= |h[q].words| && Under(h, roots, q)
    ensures forall i :: 0 <= i < |h[q].words[from..]| ==> Under(h, roots, h[q].words[from..][i])
  {
    hide FirstChild, Shaped, NoRawKids, Under;
    var ws := h[q].words[from..];
    forall i | 0 <= i < |ws| ensures Under(h, roots, ws[i]) { FieldUnder(h, roots, q, from + i); }
  }

  lemma {:induction false} MatchesSafe(P: Prog, n: nat, pt: int, env: Env, h: Heap, roots: multiset<Word>, ps: seq<Pat>,
                                       vs: seq<Word>)
    requires |ps| == |vs| && Shaped(h) && NoRawKids(h) && StaticsIn(P, h)
    requires forall i :: 0 <= i < |vs| ==> Under(h, roots, vs[i])
    ensures MatchOk(env, h, roots, PatsVars(ps), MatchPats(P, n, pt, env, h, ps, vs))
    decreases ps
  {
    hide Shaped, NoRawKids, Under, StaticsIn, MatchPat;
    if ps != [] {
      MatchSafe(P, n, pt, env, h, roots, ps[0], vs[0]);
      var r := MatchPat(P, n, pt, env, h, ps[0], vs[0]);
      if r.Yes? {
        MatchesSafe(P, n, pt + PatIds(ps[0]), r.env, h, roots, ps[1..], vs[1..]);
        var r1 := MatchPats(P, n, pt + PatIds(ps[0]), r.env, h, ps[1..], vs[1..]);
        if r1.Yes? {
          forall y | y in PatsVars(ps) ensures Under(h, roots, Val(r1.env, y)) {
            if y !in PatsVars(ps[1..]) { assert Val(r1.env, y) == Val(r.env, y); }
          }
        }
      }
    }
  }

  // ---------- new blocks ----------

  lemma {:induction false} KidsMoved(p: Word, b: Block, vs: seq<Word>)
    requires Kids(p, b) == RefsIn(p, vs)
    ensures forall k :: IsRef(k) && k != p ==> multiset(vs)[k] == multiset(Kids(p, b))[k]
    ensures forall k :: k in Kids(p, b) ==> IsRef(k) && k != p && k in vs
  {
    RefsInRefs(p, vs);
    forall k | IsRef(k) && k != p ensures multiset(vs)[k] == multiset(Kids(p, b))[k] { RefsInCount(p, vs, k); }
  }

  // A new block with these fields can take over the references in moved.
  ghost predicate Movable(h: Heap, p: Word, b: Block, moved: multiset<Word>) {
    && b.rc == 1 && b.tag != T_RAW
    && (forall k :: IsRef(k) && k != p ==> moved[k] == multiset(Kids(p, b))[k])
    && (forall k :: k in Kids(p, b) ==> Solid(h, k))
  }

  lemma {:induction false} RefsMovable(h: Heap, p: Word, b: Block, vs: seq<Word>)
    requires b.rc == 1 && b.tag != T_RAW && Kids(p, b) == RefsIn(p, vs)
    requires forall i :: 0 <= i < |vs| ==> LiveVal(h, vs[i])
    ensures Movable(h, p, b, multiset(vs))
  {
    hide Kids, IsRef, RefsIn;
    KidsMoved(p, b, vs);
  }

  lemma {:induction false} FieldsMovable(h: Heap, p: Word, b: Block, vs: seq<Word>)
    requires b.rc == 1 && b.tag != T_RAW && FirstChild(b) <= |b.words| && b.words[FirstChild(b)..] == vs
    requires forall i :: 0 <= i < |vs| ==> LiveVal(h, vs[i])
    ensures Movable(h, p, b, multiset(vs))
  {
    hide FirstChild, IsRef, RefsIn, LiveVal, Movable;
    RefsMovable(h, p, b, vs);
  }

  lemma {:induction false} PlaceOwned(P: Prog, roots: multiset<Word>, w: World, tag: int, words: seq<Word>,
                                      moved: multiset<Word>)
    requires AllocatorOk(P) && words != [] && Good(w.heap, roots + moved)
    requires Movable(w.heap, P.newAt(w.tick, w.heap), Block(1, tag, words), moved)
    ensures Owned(roots, w, Build(P, w, tag, words))
  {
    hide Kids, IsRef, Kept, Good;
    if |words| + 1 <= MAX_WORDS {
      var p, b := P.newAt(w.tick, w.heap), Block(1, tag, words);
      assert IsRef(p) && p !in w.heap;
      PlaceGood(w.heap, p, b, moved, roots);
      assert w.heap[p := RawBlock(|words| + 1)][p := b] == w.heap[p := b];
    }
  }

  ghost function TokRoot(tok: Option<Word>): multiset<Word> { if tok.Some? then multiset{tok.value} else multiset{} }

  // Reusing a token, or freeing it and allocating.
  lemma {:induction false} ReuseOwned(P: Prog, roots: multiset<Word>, w: World, t: Word, tag: int, words: seq<Word>,
                                      vs: seq<Word>)
    requires AllocatorOk(P) && words != [] && Good(w.heap, roots + multiset{t} + multiset(vs)) && TokOk(w.heap, t)
    requires tag != T_RAW && FirstChild(Block(1, tag, words)) <= |words|
    requires words[FirstChild(Block(1, tag, words))..] == vs
    requires forall i :: 0 <= i < |vs| ==> LiveVal(w.heap, vs[i])
    ensures Owned(roots, w, BuildWith(P, w, Some(t), tag, words))
  {
    hide Kids, IsRef, Kept, Good, FirstChild, LiveVal;
    var b := Block(1, tag, words);
    assert roots + multiset{t} + multiset(vs) == (roots + multiset(vs)) + multiset{t};
    if t == 0 {
      ImmOrRef(t);
      ZeroGood(w.heap, roots + multiset(vs));
      FieldsMovable(w.heap, P.newAt(w.tick, w.heap), b, vs);
      PlaceOwned(P, roots, w, tag, words, multiset(vs));
    } else if SizeOf(w.heap[t]) == |words| + 1 {
      FieldsMovable(w.heap, t, b, vs);
      FillGood(w.heap, t, b, multiset(vs), roots);
      FilledLive(w.heap, t, b);
    } else {
      var w1 := w.(heap := w.heap - {t});
      FreeTokenGood(w.heap, t, roots + multiset(vs));
      AllKeptLive(w.heap, w1.heap, roots, vs);
      FieldsMovable(w1.heap, P.newAt(w1.tick, w1.heap), b, vs);
      PlaceOwned(P, roots, w1, tag, words, multiset(vs));
      KeptMono(roots, roots + multiset(vs), w.heap, w1.heap);
      var r := Build(P, w1, tag, words);
      if r.Done? { KeptTrans(roots, w.heap, w1.heap, r.w.heap); }
    }
  }

  lemma {:induction false} FilledLive(h: Heap, t: Word, b: Block)
    requires b.tag != T_RAW
    ensures LiveVal(h[t := b], t)
  {
  }

  lemma {:induction false} ZeroGood(h: Heap, roots: multiset<Word>)
    requires Good(h, roots + multiset{0})
    ensures Good(h, roots)
  {
    hide Kids, Acyclic;
    RootsExt(h, roots + multiset{0}, roots, multiset{});
  }

  lemma {:induction false} AllKeptLive(h: Heap, h1: Heap, roots: multiset<Word>, vs: seq<Word>)
    requires Kept(roots + multiset(vs), h, h1) && forall i :: 0 <= i < |vs| ==> LiveVal(h, vs[i])
    ensures forall i :: 0 <= i < |vs| ==> LiveVal(h1, vs[i])
  {
    hide Kept, LiveVal;
    forall i | 0 <= i < |vs| ensures LiveVal(h1, vs[i]) {
      assert vs[i] in multiset(vs);
      RootKept(h, h1, roots + multiset(vs), vs[i]);
    }
  }

  lemma {:induction false} FieldsOwned(P: Prog, roots: multiset<Word>, w: World, tok: Option<Word>, tag: int,
                                       words: seq<Word>, vs: seq<Word>)
    requires AllocatorOk(P) && words != [] && Good(w.heap, roots + TokRoot(tok) + multiset(vs))
    requires tok.Some? ==> TokOk(w.heap, tok.value)
    requires tag != T_RAW && FirstChild(Block(1, tag, words)) <= |words|
    requires words[FirstChild(Block(1, tag, words))..] == vs
    requires forall i :: 0 <= i < |vs| ==> LiveVal(w.heap, vs[i])
    ensures Owned(roots, w, BuildWith(P, w, tok, tag, words))
  {
    hide Kids, IsRef, Kept, Good, FirstChild, LiveVal;
    match tok
    case None =>
      assert roots + multiset{} + multiset(vs) == roots + multiset(vs);
      FieldsMovable(w.heap, P.newAt(w.tick, w.heap), Block(1, tag, words), vs);
      PlaceOwned(P, roots, w, tag, words, multiset(vs));
    case Some(t) => ReuseOwned(P, roots, w, t, tag, words, vs);
  }

  // ---------- builtins ----------

  // An immediate or static result.
  lemma {:induction false} ConstOwned(roots: multiset<Word>, w: World, w1: World, v: Word)
    requires Good(w.heap, roots) && w1.heap == w.heap && w1.globs == w.globs && Static(w.heap, v)
    ensures Owned(roots, w, Done(v, w1))
  {
    hide Good, Kept;
    StaticGood(w.heap, v, roots);
    KeptSame(roots, w.heap);
  }

  lemma {:induction false} ImmStatic(h: Heap, n: int, b: bool)
    ensures Static(h, IntWord(n)) && Static(h, BoolWord(b))
  {
  }

  lemma {:induction false} BuiltinOwned(P: Prog, roots: multiset<Word>, w: World, name: string, vs: seq<Word>)
    requires AllocatorOk(P) && StaticsIn(P, w.heap) && Good(w.heap, roots)
    requires forall i :: 0 <= i < |vs| ==> LiveVal(w.heap, vs[i])
    ensures Owned(roots, w, RtBuiltin(P, w, name, vs))
  {
    hide Good, Build, IntWord;
    match P.bi(w.tick, name, vs, w.heap)
    case BInt(n) =>
      ImmStatic(w.heap, n, true);
      ConstOwned(roots, w, w.(tick := w.tick + 1), IntWord(n));
    case BUnit =>
      if SUnit in P.addr { ConstOwned(roots, w, w.(tick := w.tick + 1), P.addr[SUnit]); }
    case BStr(ws) =>
      if ws != [] {
        var w1 := w.(tick := w.tick + 1);
        assert roots + multiset{} == roots;
        StringMovable(w.heap, P.newAt(w1.tick, w1.heap), ws);
        PlaceOwned(P, roots, w1, T_STRING, ws, multiset{});
      }
    case BExit =>
  }

  lemma {:induction false} StringMovable(h: Heap, p: Word, ws: seq<Word>)
    ensures Movable(h, p, Block(1, T_STRING, ws), multiset{})
  {
    assert ws[|ws|..] == [];
  }

  // A borrowed argument is given up after the call.
  lemma {:induction false} ThenDrop(roots: multiset<Word>, w: World, arg: Word, r: Res)
    requires Owned(roots + multiset{arg}, w, r) && r.Done? && LiveVal(w.heap, arg)
    ensures RtDrop(r.w, arg).Some? && Owned(roots, w, Done(r.v, RtDrop(r.w, arg).value))
  {
    hide Good, Kept, LiveVal, Drop;
    RootKept(w.heap, r.w.heap, roots + multiset{arg}, arg);
    assert roots + multiset{arg} + multiset{r.v} == (roots + multiset{r.v}) + multiset{arg};
    DropGood(r.w.heap, arg, roots + multiset{r.v});
    var h2 := Drop(r.w.heap, arg).heap;
    RootKept(r.w.heap, h2, roots + multiset{r.v}, r.v);
    KeptMono(roots, roots + multiset{arg}, w.heap, r.w.heap);
    KeptMono(roots, roots + multiset{r.v}, r.w.heap, h2);
    KeptTrans(roots, w.heap, r.w.heap, h2);
  }

  // ---------- trampolines ----------

  lemma {:induction false} HeldUnder(h: Heap, roots: multiset<Word>, clo: Word, from: nat)
    requires Good(h, roots) || exists rs :: Good(h, rs)
    requires Solid(h, clo) && IsRef(clo) && Under(h, roots, clo) && h[clo].tag == T_CLOSURE
    requires 2 <= from <= |h[clo].words|
    ensures forall i :: 0 <= i < |h[clo].words[from..]| ==>
              Under(h, roots, h[clo].words[from..][i]) && LiveVal(h, h[clo].words[from..][i])
  {
    hide Acyclic, NoRawKids, From, Refs, Kids;
    FieldsUnder(h, roots, clo, from);
  }

  lemma {:induction false} CtorStepOwned(P: Prog, roots: multiset<Word>, w: World, clo: Word, arg: Word)
    requires AllocatorOk(P) && Good(w.heap, roots + multiset{arg}) && LiveVal(w.heap, arg)
    requires IsRef(clo) && clo in w.heap && AtKey(w.heap, clo).tag == T_CLOSURE && Under(w.heap, roots, clo)
    ensures Owned(roots, w, RtCtorStep(P, w, AtKey(w.heap, clo).words, arg))
  {
    hide Good, Kept, Under, LiveVal, DupAll, NextBlock, IsRef, SizeOf, ArityOf, Movable;
    var words := w.heap[clo].words;
    if |words| >= 4 {
      var cid, args := IntOf(words[2]), words[4..];
      HeldUnder(w.heap, roots, clo, 4);
      if cid >= 0 {
        var arity := ArityOf(w, cid);
        DupAllGood(w.heap, args, roots + multiset{arg});
        var h1 := DupAll(w.heap, args).heap;
        var p := P.newAt(w.tick, w.heap);
        assert IsRef(p) && p !in w.heap;
        assert roots + multiset{arg} + multiset(args) == roots + (multiset{arg} + multiset(args));
        NextMovable(w.heap, h1, p, cid, arity, args, arg);
        NextPlaced(w, h1, p, NextBlock(cid, arity, args, arg), multiset{arg} + multiset(args), roots);
      }
    }
  }

  lemma {:induction false} NextMovable(h: Heap, h1: Heap, p: Word, cid: nat, arity: nat, args: seq<Word>, arg: Word)
    requires forall q :: Solid(h, q) ==> Solid(h1, q)
    requires LiveVal(h, arg) && forall i :: 0 <= i < |args| ==> LiveVal(h, args[i])
    ensures Movable(h1, p, NextBlock(cid, arity, args, arg), multiset{arg} + multiset(args))
  {
    hide Kids, IsRef, Solid, RefsIn, Movable;
    var b, vs := NextBlock(cid, arity, args, arg), args + [arg];
    NextKids(p, cid, arity, args, arg);
    assert multiset(vs) == multiset{arg} + multiset(args);
    RefsMovable(h1, p, b, vs);
  }

  lemma {:induction false} NextPlaced(w: World, h1: Heap, p: Word, b: Block, moved: multiset<Word>,
                                      roots: multiset<Word>)
    requires Good(h1, roots + moved) && IsRef(p) && p !in h1 && Movable(h1, p, b, moved)
    requires forall rs :: Kept(rs, w.heap, h1)
    ensures Owned(roots, w, Done(p, w.(heap := h1[p := b], tick := w.tick + 1)))
  {
    hide Good, Kept, Kids, IsRef;
    PlaceGood(h1, p, b, moved, roots);
    KeptTrans(roots, w.heap, h1, h1[p := b]);
  }
}

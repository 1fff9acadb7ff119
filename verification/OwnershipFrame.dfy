// What holds of a scope while well-owned code runs in it, and how the steps of
// a run carry it on.
module OwnershipFrame {
  import opened Types
  import opened RcHeap
  import opened Oir
  import opened HeapSteps
  import opened Ownership
  import RcRuntime

  // ---------- values of variables ----------

  function Val(env: Env, x: string): Word { if x in env then env[x] else 0 }

  ghost function Values(env: Env, xs: multiset<string>): multiset<Word>
    decreases |xs|
  {
    if exists x :: x in xs then
      var x :| x in xs;
      multiset{Val(env, x)} + Values(env, xs - multiset{x})
    else multiset{}
  }

  lemma {:induction false} ValuesPick(env: Env, xs: multiset<string>, y: string) returns (x: string)
    requires y in xs
    ensures x in xs && Values(env, xs) == multiset{Val(env, x)} + Values(env, xs - multiset{x})
  {
    assert exists x :: x in xs;
    x :| x in xs && Values(env, xs) == multiset{Val(env, x)} + Values(env, xs - multiset{x});
  }

  lemma {:induction false} ValuesRemove(env: Env, xs: multiset<string>, y: string)
    requires y in xs
    ensures Values(env, xs) == multiset{Val(env, y)} + Values(env, xs - multiset{y})
    decreases |xs|
  {
    hide Val, Values;
    var x := ValuesPick(env, xs, y);
    if x != y {
      ValuesRemove(env, xs - multiset{x}, y);
      ValuesRemove(env, xs - multiset{y}, x);
      assert xs - multiset{x} - multiset{y} == xs - multiset{y} - multiset{x};
      Swap(Val(env, x), Val(env, y), Values(env, xs - multiset{x} - multiset{y}));
    }
  }

  lemma {:induction false} Swap(v: Word, u: Word, m: multiset<Word>)
    ensures multiset{v} + (multiset{u} + m) == multiset{u} + (multiset{v} + m)
  {
  }

  lemma {:induction false} ValuesAdd(env: Env, xs: multiset<string>, y: string)
    ensures Values(env, xs + multiset{y}) == Values(env, xs) + multiset{Val(env, y)}
  {
    ValuesRemove(env, xs + multiset{y}, y);
    assert xs + multiset{y} - multiset{y} == xs;
  }

  lemma {:induction false} ValuesPlus(env: Env, a: multiset<string>, b: multiset<string>)
    ensures Values(env, a + b) == Values(env, a) + Values(env, b)
    decreases |b|
  {
    hide Values;
    if exists y :: y in b {
      var y :| y in b;
      var b1 := b - multiset{y};
      ValuesRemove(env, b, y);
      ValuesPlus(env, a, b1);
      assert a + b == (a + b1) + multiset{y};
      ValuesAdd(env, a + b1, y);
    } else {
      assert b == multiset{};
      assert a + b == a;
      ValuesNone(env);
    }
  }

  lemma {:induction false} ValuesNone(env: Env)
    ensures Values(env, multiset{}) == multiset{}
  {
  }

  lemma {:induction false} ValuesAgree(env: Env, env1: Env, xs: multiset<string>)
    requires forall x :: x in xs ==> Val(env, x) == Val(env1, x)
    ensures Values(env, xs) == Values(env1, xs)
    decreases |xs|
  {
    if exists y :: y in xs {
      var y :| y in xs;
      ValuesRemove(env, xs, y);
      ValuesRemove(env1, xs, y);
      ValuesAgree(env, env1, xs - multiset{y});
    }
  }

  lemma {:induction false} ValuesHas(env: Env, xs: multiset<string>, y: string)
    requires y in xs
    ensures Val(env, y) in Values(env, xs)
  {
    ValuesRemove(env, xs, y);
  }

  lemma {:induction false} ValuesOne(env: Env, y: string)
    ensures Values(env, multiset{y}) == multiset{Val(env, y)}
    ensures Values(env, multiset{}) == multiset{}
  {
    ValuesRemove(env, multiset{y}, y);
    assert multiset{y} - multiset{y} == multiset{};
  }

  // ---------- the frame ----------

  predicate Static(h: Heap, a: Word) { IsRef(a) ==> Solid(h, a) && h[a].rc == RC_IMMORTAL }

  // Data symbols are static blocks, and globals are lent by the roots.
  ghost predicate WorldOk(P: Prog, K: multiset<Word>, w: World) {
    && (forall s :: s in P.addr && !IsCode(s) ==> Static(w.heap, P.addr[s]))
    && (forall i :: 0 <= i < |w.globs| ==> Under(w.heap, K, w.globs[i]))
  }

  ghost function Held(env: Env, c: Ctx): multiset<Word> { Values(env, c.own) + Values(env, multiset(c.toks)) }

  ghost predicate LoanOk(h: Heap, K: multiset<Word>, c: Ctx, env: Env, y: string)
    requires y in c.bor
  {
    var o := c.bor[y];
    if o == "" then Under(h, K, Val(env, y)) else o in c.own && Under(h, multiset{Val(env, o)}, Val(env, y))
  }

  ghost predicate TokOk(h: Heap, t: Word) { t != 0 ==> IsRef(t) && RcRuntime.IsRaw(h, t) }

  ghost predicate Lends(K: multiset<Word>, c: Ctx, env: Env, h: Heap) {
    && "" !in c.own
    && (forall x :: x in c.own ==> LiveVal(h, Val(env, x)))
    && (forall y :: y in c.bor ==> LoanOk(h, K, c, env, y))
    && (forall t :: t in c.toks ==> TokOk(h, Val(env, t)))
  }

  // K: references held outside the scope. X: references in flight.
  ghost predicate Frame(P: Prog, K: multiset<Word>, X: multiset<Word>, c: Ctx, env: Env, w: World) {
    && WorldOk(P, K, w) && Lends(K, c, env, w.heap)
    && Good(w.heap, K + X + Held(env, c))
  }

  lemma {:induction false} LendsKept(K: multiset<Word>, c: Ctx, env: Env, h: Heap, h1: Heap, roots: multiset<Word>)
    requires Lends(K, c, env, h) && Kept(roots, h, h1) && K + Held(env, c) <= roots
    ensures Lends(K, c, env, h1)
  {
    hide Values, Under, Kept, IsRef, Reach;
    forall x | x in c.own ensures LiveVal(h1, Val(env, x)) {
      ValuesHas(env, c.own, x);
      RootKept(h, h1, roots, Val(env, x));
    }
    forall y | y in c.bor ensures LoanOk(h1, K, c, env, y) {
      assert LoanOk(h, K, c, env, y);
      var o := c.bor[y];
      if o == "" {
        KeptMono(K, roots, h, h1);
        KeptUnder(K, h, h1, Val(env, y));
      } else {
        ValuesHas(env, c.own, o);
        KeptMono(multiset{Val(env, o)}, roots, h, h1);
        KeptUnder(multiset{Val(env, o)}, h, h1, Val(env, y));
      }
    }
    forall t | t in c.toks ensures TokOk(h1, Val(env, t)) {
      ValuesHas(env, multiset(c.toks), t);
      TokenKept(h, h1, roots, Val(env, t));
    }
  }

  lemma {:induction false} RootKept(h: Heap, h1: Heap, roots: multiset<Word>, v: Word)
    requires Kept(roots, h, h1) && v in roots && LiveVal(h, v)
    ensures LiveVal(h1, v)
  {
    if IsRef(v) {
      assert Reach(h, roots, v, 0);
      assert SameAt(h, h1, v);
    }
  }

  lemma {:induction false} TokenKept(h: Heap, h1: Heap, roots: multiset<Word>, t: Word)
    requires Kept(roots, h, h1) && t in roots && TokOk(h, t)
    ensures TokOk(h1, t)
  {
    if t != 0 {
      assert Reach(h, roots, t, 0);
      assert SameAt(h, h1, t);
    }
  }

  lemma {:induction false} StaticKept(h: Heap, h1: Heap, roots: multiset<Word>, a: Word)
    requires Kept(roots, h, h1) && Static(h, a)
    ensures Static(h1, a)
  {
    if IsRef(a) {
      assert Reach(h, roots, a, 0);
      assert SameAt(h, h1, a);
    }
  }

  lemma {:induction false} WorldKept(P: Prog, K: multiset<Word>, w: World, w1: World)
    requires WorldOk(P, K, w) && Kept(K, w.heap, w1.heap) && w1.globs == w.globs
    ensures WorldOk(P, K, w1)
  {
    hide Under, Kept, Static;
    forall s | s in P.addr && !IsCode(s) ensures Static(w1.heap, P.addr[s]) {
      StaticKept(w.heap, w1.heap, K, P.addr[s]);
    }
    forall i | 0 <= i < |w.globs| ensures Under(w1.heap, K, w.globs[i]) { KeptUnder(K, w.heap, w1.heap, w.globs[i]); }
  }

  lemma {:induction false} WorldMono(P: Prog, K: multiset<Word>, K1: multiset<Word>, w: World)
    requires WorldOk(P, K, w) && K <= K1
    ensures WorldOk(P, K1, w)
  {
    hide Under;
    forall i | 0 <= i < |w.globs| ensures Under(w.heap, K1, w.globs[i]) { UnderMono(w.heap, K, K1, w.globs[i]); }
  }

  // A step that keeps what all the scope's references reach.
  lemma {:induction false} FrameKept(P: Prog, K: multiset<Word>, X: multiset<Word>, Y: multiset<Word>, c: Ctx, env: Env,
                                     w: World, w1: World)
    requires Frame(P, K, X, c, env, w) && w1.globs == w.globs
    requires Kept(K + Held(env, c), w.heap, w1.heap) && Good(w1.heap, K + Y + Held(env, c))
    ensures Frame(P, K, Y, c, env, w1) && Kept(K, w.heap, w1.heap)
  {
    hide Lends, WorldOk, Kept, Good, Held;
    KeptMono(K, K + Held(env, c), w.heap, w1.heap);
    WorldKept(P, K, w, w1);
    LendsKept(K, c, env, w.heap, w1.heap, K + Held(env, c));
  }

  // ---------- changes of scope ----------

  lemma {:induction false} HeldConsume(env: Env, c: Ctx, x: string)
    requires x in c.own
    ensures Held(env, c) == Held(env, Consume(c, x)) + multiset{Val(env, x)}
  {
    hide Values;
    ValuesRemove(env, c.own, x);
  }

  lemma {:induction false} ConsumeLends(K: multiset<Word>, c: Ctx, env: Env, h: Heap, x: string)
    requires Lends(K, c, env, h) && x in c.own
    ensures Lends(K, Consume(c, x), env, h) && LiveVal(h, Val(env, x))
  {
    hide LiveVal, Under, TokOk, Val, LoanOk;
    var c1 := Consume(c, x);
    assert forall z :: z in c1.own ==> z in c.own;
    forall y | y in c1.bor ensures LoanOk(h, K, c1, env, y) { ConsumeLoan(K, c, env, h, x, y); }
  }

  lemma {:induction false} ConsumeLoan(K: multiset<Word>, c: Ctx, env: Env, h: Heap, x: string, y: string)
    requires Lends(K, c, env, h) && x in c.own && y in Consume(c, x).bor
    ensures LoanOk(h, K, Consume(c, x), env, y)
  {
    hide LiveVal, Under, TokOk, Val;
    assert LoanOk(h, K, c, env, y);
  }

  lemma {:induction false} ConsumeFrame(P: Prog, K: multiset<Word>, X: multiset<Word>, c: Ctx, env: Env, w: World,
                                        x: string)
    requires Frame(P, K, X, c, env, w) && x in c.own
    ensures Frame(P, K, X + multiset{Val(env, x)}, Consume(c, x), env, w) && LiveVal(w.heap, Val(env, x))
  {
    hide Held, Good, WorldOk, LiveVal, Lends, Consume;
    HeldConsume(env, c, x);
    assert K + (X + multiset{Val(env, x)}) + Held(env, Consume(c, x)) == K + X + Held(env, c);
    ConsumeLends(K, c, env, w.heap, x);
  }

  lemma {:induction false} HeldBind(env: Env, c: Ctx, x: string, v: Word)
    requires Unused(c, x)
    ensures Held(env[x := v], Gain(c, x)) == Held(env, c) + multiset{v}
  {
    hide Values;
    var env1 := env[x := v];
    ValuesAdd(env1, c.own, x);
    ValuesAgree(env, env1, c.own);
    ValuesAgree(env, env1, multiset(c.toks));
  }

  lemma {:induction false} GainLends(K: multiset<Word>, c: Ctx, env: Env, h: Heap, x: string, v: Word)
    requires Lends(K, c, env, h) && LiveVal(h, v) && Unused(c, x)
    ensures Lends(K, Gain(c, x), env[x := v], h)
  {
    hide LiveVal, Under, TokOk, LoanOk;
    var c1, env1 := Gain(c, x), env[x := v];
    forall y | y in c1.bor ensures LoanOk(h, K, c1, env1, y) { GainLoan(K, c, env, h, x, v, y); }
  }

  lemma {:induction false} GainLoan(K: multiset<Word>, c: Ctx, env: Env, h: Heap, x: string, v: Word, y: string)
    requires Lends(K, c, env, h) && Unused(c, x) && y in c.bor
    ensures LoanOk(h, K, Gain(c, x), env[x := v], y)
  {
    hide LiveVal, Under, TokOk;
    assert LoanOk(h, K, c, env, y);
  }

  lemma {:induction false} BindFrame(P: Prog, K: multiset<Word>, c: Ctx, env: Env, w: World, x: string, v: Word)
    requires Frame(P, K, multiset{v}, c, env, w) && LiveVal(w.heap, v) && Unused(c, x)
    ensures Frame(P, K, multiset{}, Gain(c, x), env[x := v], w)
  {
    hide Held, Good, WorldOk, LiveVal, Lends, Unused, Gain;
    HeldBind(env, c, x, v);
    assert K + multiset{} + Held(env[x := v], Gain(c, x)) == K + multiset{v} + Held(env, c);
    GainLends(K, c, env, w.heap, x, v);
  }

  // A dup'd variable is owned once more.
  lemma {:induction false} DupFrame(P: Prog, K: multiset<Word>, c: Ctx, env: Env, w: World, x: string)
    requires Frame(P, K, multiset{Val(env, x)}, c, env, w) && LiveVal(w.heap, Val(env, x)) && x != ""
    ensures Frame(P, K, multiset{}, Gain(c, x), env, w)
  {
    hide Good, WorldOk, LiveVal, Under, TokOk, Values;
    ValuesAdd(env, c.own, x);
    var c1 := Gain(c, x);
    assert K + multiset{} + Held(env, c1) == K + multiset{Val(env, x)} + Held(env, c);
    forall y | y in c1.bor ensures LoanOk(w.heap, K, c1, env, y) { assert LoanOk(w.heap, K, c, env, y); }
  }

  lemma {:induction false} TokenLends(K: multiset<Word>, c: Ctx, env: Env, h: Heap, tok: string, t: Word)
    requires Lends(K, c, env, h) && TokOk(h, t) && Unused(c, tok)
    ensures Lends(K, c.(toks := c.toks + {tok}), env[tok := t], h)
  {
    hide LiveVal, Under, TokOk;
    var c1, env1 := c.(toks := c.toks + {tok}), env[tok := t];
    forall y | y in c1.bor ensures LoanOk(h, K, c1, env1, y) { assert LoanOk(h, K, c, env, y); }
  }

  lemma {:induction false} HeldToken(env: Env, c: Ctx, tok: string, t: Word)
    requires Unused(c, tok)
    ensures Held(env[tok := t], c.(toks := c.toks + {tok})) == Held(env, c) + multiset{t}
  {
    hide Values;
    var c1, env1 := c.(toks := c.toks + {tok}), env[tok := t];
    assert multiset(c1.toks) == multiset(c.toks) + multiset{tok};
    ValuesAdd(env1, multiset(c.toks), tok);
    ValuesAgree(env, env1, c.own);
    ValuesAgree(env, env1, multiset(c.toks));
  }

  lemma {:induction false} TokenFrame(P: Prog, K: multiset<Word>, c: Ctx, env: Env, w: World, tok: string, t: Word)
    requires Frame(P, K, multiset{t}, c, env, w) && TokOk(w.heap, t) && Unused(c, tok)
    ensures Frame(P, K, multiset{}, c.(toks := c.toks + {tok}), env[tok := t], w)
  {
    hide Good, WorldOk, TokOk, Held, Lends, Unused;
    HeldToken(env, c, tok, t);
    assert K + multiset{} + Held(env[tok := t], c.(toks := c.toks + {tok})) == K + multiset{t} + Held(env, c);
    TokenLends(K, c, env, w.heap, tok, t);
  }

  lemma {:induction false} UseTokenFrame(P: Prog, K: multiset<Word>, X: multiset<Word>, c: Ctx, env: Env, w: World,
                                         tok: string)
    requires Frame(P, K, X, c, env, w) && tok in c.toks
    ensures Frame(P, K, X + multiset{Val(env, tok)}, c.(toks := c.toks - {tok}), env, w) && TokOk(w.heap, Val(env, tok))
  {
    hide Good, WorldOk, LiveVal, Under, TokOk, Values;
    var c1 := c.(toks := c.toks - {tok});
    assert multiset(c.toks) - multiset{tok} == multiset(c1.toks);
    ValuesRemove(env, multiset(c.toks), tok);
    assert K + (X + multiset{Val(env, tok)}) + Held(env, c1) == K + X + Held(env, c);
    forall y | y in c1.bor ensures LoanOk(w.heap, K, c1, env, y) { assert LoanOk(w.heap, K, c, env, y); }
  }

  lemma {:induction false} MoveLends(K: multiset<Word>, c: Ctx, env: Env, h: Heap, y: string, x: string)
    requires Lends(K, c, env, h) && y in c.own && Unused(c, x)
    ensures Lends(K, Move(c, y, x), env[x := Val(env, y)], h)
  {
    hide LiveVal, Under, TokOk, LoanOk, Move;
    var c1, env1 := Move(c, y, x), env[x := Val(env, y)];
    MoveNames(c, y, x);
    forall z | z in c1.bor ensures LoanOk(h, K, c1, env1, z) { MoveLoan(K, c, env, h, y, x, z); }
  }

  lemma {:induction false} MoveLoan(K: multiset<Word>, c: Ctx, env: Env, h: Heap, y: string, x: string, z: string)
    requires Lends(K, c, env, h) && y in c.own && Unused(c, x) && z in Move(c, y, x).bor
    ensures LoanOk(h, K, Move(c, y, x), env[x := Val(env, y)], z)
  {
    hide LiveVal, Under, TokOk, Move;
    MoveNames(c, y, x);
    assert LoanOk(h, K, c, env, z);
  }

  // A move renames one owner, and the loans it backs when it was the last.
  lemma {:induction false} MoveNames(c: Ctx, y: string, x: string)
    requires y in c.own && Unused(c, x)
    ensures var c1 := Move(c, y, x);
            && x in c1.own && (forall o :: o in c1.own ==> o == x || o in c.own) && c1.toks == c.toks
            && (forall z :: z in c1.bor <==> z in c.bor)
            && forall z :: z in c.bor ==>
                 (c1.bor[z] == x && c.bor[z] == y)
                     || (c1.bor[z] == c.bor[z] && (c.bor[z] in c.own ==> c.bor[z] in c1.own))
  {
  }

  lemma {:induction false} HeldMove(env: Env, c: Ctx, y: string, x: string)
    requires y in c.own && Unused(c, x)
    ensures Held(env[x := Val(env, y)], Move(c, y, x)) == Held(env, c)
  {
    hide Values;
    var env1 := env[x := Val(env, y)];
    ValuesRemove(env, c.own, y);
    ValuesAdd(env1, c.own - multiset{y}, x);
    ValuesAgree(env, env1, c.own - multiset{y});
    ValuesAgree(env, env1, multiset(c.toks));
  }

  lemma {:induction false} MoveFrame(P: Prog, K: multiset<Word>, c: Ctx, env: Env, w: World, y: string, x: string)
    requires Frame(P, K, multiset{}, c, env, w) && y in c.own && Unused(c, x)
    ensures Frame(P, K, multiset{}, Move(c, y, x), env[x := Val(env, y)], w)
  {
    hide Good, WorldOk, Lends, Held, Move, Unused;
    HeldMove(env, c, y, x);
    MoveLends(K, c, env, w.heap, y, x);
  }

  // ---------- blocks ----------

  ghost function Outside(K: multiset<Word>, c: Ctx, env: Env, inner: multiset<string>): multiset<Word> {
    K + Values(env, c.own - inner) + Values(env, multiset(c.toks))
  }

  lemma {:induction false} EnterFrame(P: Prog, K: multiset<Word>, c: Ctx, env: Env, w: World, inner: multiset<string>)
    requires Frame(P, K, multiset{}, c, env, w) && inner <= c.own
    ensures Frame(P, Outside(K, c, env, inner), multiset{}, BlockCtx(c, inner), env, w)
  {
    hide Good, WorldOk, LiveVal, Under, TokOk, Values, LoanOk, Outside;
    var K1, c1 := Outside(K, c, env, inner), BlockCtx(c, inner);
    EnterRoots(K, c, env, inner);
    WorldMono(P, K, K1, w);
    forall y | y in c1.bor ensures LoanOk(w.heap, K1, c1, env, y) { EnterLoan(K, c, env, w.heap, inner, y); }
  }

  // Entering a block only regroups what is held.
  lemma {:induction false} EnterRoots(K: multiset<Word>, c: Ctx, env: Env, inner: multiset<string>)
    requires inner <= c.own
    ensures var K1 := Outside(K, c, env, inner);
            K <= K1 && K1 + multiset{} + Held(env, BlockCtx(c, inner)) == K + multiset{} + Held(env, c)
  {
    hide Values;
    var c1, rest := BlockCtx(c, inner), c.own - inner;
    assert c.own == rest + inner;
    ValuesPlus(env, rest, inner);
    ValuesOne(env, "");
    assert multiset(c1.toks) == multiset{};
  }

  lemma {:induction false} EnterLoan(K: multiset<Word>, c: Ctx, env: Env, h: Heap, inner: multiset<string>, y: string)
    requires Lends(K, c, env, h) && inner <= c.own && y in BlockCtx(c, inner).bor
    ensures LoanOk(h, Outside(K, c, env, inner), BlockCtx(c, inner), env, y)
  {
    hide Under, Values, LiveVal;
    var K1, rest := Outside(K, c, env, inner), c.own - inner;
    if y in rest {
      ValuesHas(env, rest, y);
      RootUnder(h, K1, Val(env, y));
    } else {
      assert LoanOk(h, K, c, env, y);
      var o := c.bor[y];
      if o == "" {
        UnderMono(h, K, K1, Val(env, y));
      } else if o in rest {
        ValuesHas(env, rest, o);
        UnderMono(h, multiset{Val(env, o)}, K1, Val(env, y));
      }
    }
  }

  lemma {:induction false} LeaveFrame(P: Prog, K: multiset<Word>, c: Ctx, env: Env, w: World, w1: World,
                                      inner: multiset<string>, v: Word)
    requires Frame(P, K, multiset{}, c, env, w) && inner <= c.own && w1.globs == w.globs
    requires Good(w1.heap, Outside(K, c, env, inner) + multiset{v}) && Kept(Outside(K, c, env, inner), w.heap, w1.heap)
    ensures Frame(P, K, multiset{v}, Leave(c, inner), env, w1) && Kept(K, w.heap, w1.heap)
  {
    hide Good, WorldOk, LiveVal, Under, TokOk, Values, Kept, Outside, Lends;
    var c1, K1 := Leave(c, inner), Outside(K, c, env, inner);
    LeaveRoots(K, c, env, inner, v);
    KeptMono(K, K1, w.heap, w1.heap);
    WorldKept(P, K, w, w1);
    LeaveLends(K, c, env, w.heap, inner);
    LendsKept(K, c1, env, w.heap, w1.heap, K1);
  }

  lemma {:induction false} LeaveRoots(K: multiset<Word>, c: Ctx, env: Env, inner: multiset<string>, v: Word)
    ensures var K1, c1 := Outside(K, c, env, inner), Leave(c, inner);
            K <= K1 && K1 == K + Held(env, c1) && K + multiset{v} + Held(env, c1) == K1 + multiset{v}
  {
    hide Values;
  }

  lemma {:induction false} LeaveLends(K: multiset<Word>, c: Ctx, env: Env, h: Heap, inner: multiset<string>)
    requires Lends(K, c, env, h) && inner <= c.own
    ensures Lends(K, Leave(c, inner), env, h)
  {
    hide Under, LiveVal;
    var c1 := Leave(c, inner);
    forall y | y in c1.bor ensures LoanOk(h, K, c1, env, y) { assert LoanOk(h, K, c, env, y); }
  }

  // ---------- uses of variables and atoms ----------

  lemma {:induction false} VarUnder(P: Prog, K: multiset<Word>, X: multiset<Word>, c: Ctx, env: Env, w: World,
                                    x: string)
    requires Frame(P, K, X, c, env, w) && (x in c.own || x in c.bor)
    ensures Under(w.heap, K + Held(env, c), Val(env, x))
  {
    hide Good, WorldOk, Under, TokOk, Values, LiveVal;
    var R := K + Held(env, c);
    if x in c.own {
      ValuesHas(env, c.own, x);
      RootUnder(w.heap, R, Val(env, x));
    } else {
      assert LoanOk(w.heap, K, c, env, x);
      var o := c.bor[x];
      if o == "" {
        UnderMono(w.heap, K, R, Val(env, x));
      } else {
        ValuesHas(env, c.own, o);
        UnderMono(w.heap, multiset{Val(env, o)}, R, Val(env, x));
      }
    }
  }

  // Atoms that are no variable are immediates, static data or globals.
  lemma {:induction false} ConstUnder(P: Prog, pt: int, K: multiset<Word>, env: Env, w: World, a: OAtom, v: Word)
    requires WorldOk(P, K, w) && !a.AVar? && AtomVal(P, pt, env, w, a) == Some(v)
    ensures Under(w.heap, K, v)
    ensures !a.AGlob? ==> IsRef(v) ==> v in w.heap && w.heap[v].rc == RC_IMMORTAL
  {
    hide From;
    match a
    case AInt(n) => assert !IsRef(IntWord(n));
    case ABool(b) =>
    case AGlob(_) =>
    case AStr(_) => assert Static(w.heap, P.addr[SStr(pt)]); ImmortalUnder(w.heap, K, v);
    case AUnit => assert Static(w.heap, P.addr[SUnit]); ImmortalUnder(w.heap, K, v);
    case ANull(c) => assert Static(w.heap, P.addr[SNull(c)]); ImmortalUnder(w.heap, K, v);
  }

  lemma {:induction false} AtomUnder(P: Prog, pt: int, K: multiset<Word>, X: multiset<Word>, c: Ctx, env: Env, w: World,
                                     a: OAtom, v: Word)
    requires Frame(P, K, X, c, env, w) && Usable(c, a) && AtomVal(P, pt, env, w, a) == Some(v)
    ensures Under(w.heap, K + Held(env, c), v)
  {
    hide Good, Lends, Under, WorldOk, Held;
    if a.AVar? {
      VarUnder(P, K, X, c, env, w, a.x);
    } else {
      ConstUnder(P, pt, K, env, w, a, v);
      UnderMono(w.heap, K, K + Held(env, c), v);
    }
  }

  // The values that carry a reference of their own.
  function Taken(vs: seq<Word>, flags: seq<bool>): seq<Word> {
    if vs == [] then [] else (if Flag(flags) then [vs[0]] else []) + Taken(vs[1..], Later(flags))
  }

  // Every value is safe, and the lent ones are lent by the roots.
  ghost predicate ValsOk(h: Heap, roots: multiset<Word>, vs: seq<Word>, flags: seq<bool>)
    decreases |vs|
  {
    vs != [] ==>
      LiveVal(h, vs[0]) && (Flag(flags) || Under(h, roots, vs[0])) && ValsOk(h, roots, vs[1..], Later(flags))
  }

  ghost predicate AtomsResult(P: Prog, K: multiset<Word>, X: multiset<Word>, c: Ctx, env: Env, w: World,
                              atoms: seq<OAtom>, flags: seq<bool>, r: Vals)
  {
    && r != VStop(Corrupt)
    && (r.Vals? ==>
          && |r.vs| == |atoms| && r.w.globs == w.globs
          && Frame(P, K, X + multiset(Taken(r.vs, flags)), c, env, r.w)
          && ValsOk(r.w.heap, K + Held(env, c), r.vs, flags)
          && (forall rs :: Kept(rs, w.heap, r.w.heap)))
  }

  lemma {:induction false} AtomsOwned(P: Prog, pt: int, K: multiset<Word>, X: multiset<Word>, c: Ctx, env: Env,
                                      w: World, atoms: seq<OAtom>, flags: seq<bool>)
    requires Frame(P, K, X, c, env, w) && Take(c, atoms, flags).Some? && Lent(The(Take(c, atoms, flags)), atoms, flags)
    ensures AtomsResult(P, K, X, The(Take(c, atoms, flags)), env, w, atoms, flags, EvAtoms(P, pt, env, w, atoms, flags))
    ensures EvAtoms(P, pt, env, w, atoms, flags) != VStop(Corrupt)
    decreases |atoms|
  {
    hide Frame, Kept, Good, Held, Usable, LiveVal, Under, Dup, Taken, ValsOk, EvAtoms, AtomsResult, AtomVal, RtDup;
    hide Consume;
    EvAtomsStep(P, pt, env, w, atoms, flags);
    var c1, r := Take(c, atoms, flags).value, EvAtoms(P, pt, env, w, atoms, flags);
    if atoms == [] {
      AtomsNone(P, K, X, c, env, w, flags);
    } else if AtomVal(P, pt, env, w, atoms[0]).Some? {
      var a, v := atoms[0], AtomVal(P, pt, env, w, atoms[0]).value;
      var c0, w0, X0 := AtomFirst(P, pt, K, X, c, env, w, a, Flag(flags), v);
      var pt1 := pt + AtomIds(a);
      SameAtom(P, pt, env, w, w0, a);
      AtomsOwned(P, pt1, K, X0, c0, env, w0, atoms[1..], Later(flags));
      var r1 := EvAtoms(P, pt1, env, w0, atoms[1..], Later(flags));
      if r1.Vals? {
        AtomsGlue(P, pt, K, X, X0, c1, env, w, w0, atoms, flags, v, r1);
      } else {
        AtomsStop(P, K, X, c1, env, w, atoms, flags, r);
      }
    } else {
      AtomsStop(P, K, X, c1, env, w, atoms, flags, r);
    }
  }

  lemma {:induction false} SameAtom(P: Prog, pt: int, env: Env, w: World, w0: World, a: OAtom)
    requires w0.globs == w.globs
    ensures AtomVal(P, pt, env, w0, a) == AtomVal(P, pt, env, w, a)
  {
  }

  lemma {:induction false} AtomsNone(P: Prog, K: multiset<Word>, X: multiset<Word>, c: Ctx, env: Env, w: World,
                                     flags: seq<bool>)
    requires Frame(P, K, X, c, env, w)
    ensures AtomsResult(P, K, X, c, env, w, [], flags, Vals([], w))
  {
    hide Frame, Kept, Good, Held, Taken, ValsOk;
    NoneTaken(K + Held(env, c), X, w.heap, flags);
    forall rs ensures Kept(rs, w.heap, w.heap) { KeptSame(rs, w.heap); }
  }

  lemma {:induction false} AtomsStop(P: Prog, K: multiset<Word>, X: multiset<Word>, c: Ctx, env: Env, w: World,
                                     atoms: seq<OAtom>, flags: seq<bool>, r: Vals)
    requires r.VStop? && r.why != Corrupt
    ensures AtomsResult(P, K, X, c, env, w, atoms, flags, r)
  {
  }

  lemma {:induction false} EvAtomsStep(P: Prog, pt: int, env: Env, w: World, atoms: seq<OAtom>, flags: seq<bool>)
    ensures EvAtoms(P, pt, env, w, atoms, flags) ==
      if atoms == [] then Vals([], w)
      else match AtomVal(P, pt, env, w, atoms[0])
      case None => VStop(Stuck)
      case Some(v) =>
        match if atoms[0].AGlob? && Flag(flags) then RtDup(w, v) else Some(w)
        case None => VStop(Corrupt)
        case Some(w1) =>
          match EvAtoms(P, pt + AtomIds(atoms[0]), env, w1, atoms[1..], Later(flags))
          case VStop(why) => VStop(why)
          case Vals(vs, w2) => Vals([v] + vs, w2)
  {
  }

  lemma {:induction false} AtomsGlue(P: Prog, pt: int, K: multiset<Word>, X: multiset<Word>, X0: multiset<Word>,
                                     c1: Ctx, env: Env, w: World, w0: World, atoms: seq<OAtom>, flags: seq<bool>,
                                     v: Word, r1: Vals)
    requires atoms != [] && r1.Vals? && AtomsResult(P, K, X0, c1, env, w0, atoms[1..], Later(flags), r1)
    requires w0.globs == w.globs && X0 == if Flag(flags) then X + multiset{v} else X
    requires AtomVal(P, pt, env, w0, atoms[0]) == Some(v) && (Flag(flags) ==> LiveVal(w0.heap, v))
    requires (Flag(flags) || Usable(c1, atoms[0])) && forall rs :: Kept(rs, w.heap, w0.heap)
    ensures AtomsResult(P, K, X, c1, env, w, atoms, flags, Vals([v] + r1.vs, r1.w))
  {
    hide Frame, Kept, Good, Held, Usable, LiveVal, Under, Dup, Taken, ValsOk, EvAtoms;
    AtomSafe(P, pt, K, X0 + multiset(Taken(r1.vs, Later(flags))), c1, env, w0, r1.w, atoms[0], Flag(flags), v);
    TakenCons(X, v, r1.vs, flags);
    ValsCons(r1.w.heap, K + Held(env, c1), v, r1.vs, flags);
    forall rs ensures Kept(rs, w.heap, r1.w.heap) { KeptTrans(rs, w.heap, w0.heap, r1.w.heap); }
  }

  lemma {:induction false} NoneTaken(roots: multiset<Word>, X: multiset<Word>, h: Heap, flags: seq<bool>)
    ensures X + multiset(Taken([], flags)) == X && ValsOk(h, roots, [], flags)
  {
  }

  lemma {:induction false} TakenCons(X: multiset<Word>, v: Word, vs: seq<Word>, flags: seq<bool>)
    ensures X + multiset(Taken([v] + vs, flags))
         == (if Flag(flags) then X + multiset{v} else X) + multiset(Taken(vs, Later(flags)))
  {
    assert ([v] + vs)[1..] == vs;
  }

  lemma {:induction false} ValsCons(h: Heap, roots: multiset<Word>, v: Word, vs: seq<Word>, flags: seq<bool>)
    requires ValsOk(h, roots, vs, Later(flags)) && LiveVal(h, v) && (Flag(flags) || Under(h, roots, v))
    ensures ValsOk(h, roots, [v] + vs, flags)
  {
    hide LiveVal, Under;
    assert ([v] + vs)[1..] == vs;
  }

  // The effect of one operand.
  lemma {:induction false} AtomFirst(P: Prog, pt: int, K: multiset<Word>, X: multiset<Word>, c: Ctx, env: Env, w: World,
                                     a: OAtom, flag: bool, v: Word)
    returns (c0: Ctx, w0: World, X0: multiset<Word>)
    requires Frame(P, K, X, c, env, w) && AtomVal(P, pt, env, w, a) == Some(v)
    requires a.AVar? && flag ==> a.x in c.own
    ensures c0 == if a.AVar? && flag then Consume(c, a.x) else c
    ensures X0 == if flag then X + multiset{v} else X
    ensures (if a.AGlob? && flag then RtDup(w, v) else Some(w)) == Some(w0) && w0.globs == w.globs
    ensures Frame(P, K, X0, c0, env, w0) && (flag ==> LiveVal(w0.heap, v)) && forall rs :: Kept(rs, w.heap, w0.heap)
  {
    hide Kept, Good, Held, Lends, WorldOk, Dup;
    c0, w0, X0 := c, w, X;
    forall rs ensures Kept(rs, w.heap, w.heap) { KeptSame(rs, w.heap); }
    if flag {
      X0 := X + multiset{v};
      if a.AVar? {
        c0 := Consume(c, a.x);
        ConsumeFrame(P, K, X, c, env, w, a.x);
      } else if a.AGlob? {
        ConstUnder(P, pt, K, env, w, a, v);
        DupGood(w.heap, v, K + X + Held(env, c));
        w0 := w.(heap := Dup(w.heap, v).heap);
        assert K + X + Held(env, c) + multiset{v} == K + X0 + Held(env, c);
        FrameKept(P, K, X, X0, c, env, w, w0);
        LiveKept(w.heap, w0.heap, v);
      } else {
        ConstUnder(P, pt, K, env, w, a, v);
        StaticGood(w.heap, v, K + X + Held(env, c));
        assert K + X + Held(env, c) + multiset{v} == K + X0 + Held(env, c);
      }
    }
  }

  lemma {:induction false} LiveKept(h: Heap, h1: Heap, v: Word)
    requires LiveVal(h, v) && forall rs :: Kept(rs, h, h1)
    ensures LiveVal(h1, v)
  {
    assert Kept(multiset{v}, h, h1);
    RootKept(h, h1, multiset{v}, v);
  }

  lemma {:induction false} StaticGood(h: Heap, v: Word, roots: multiset<Word>)
    requires Good(h, roots) && (IsRef(v) ==> v in h && h[v].rc == RC_IMMORTAL)
    ensures Good(h, roots + multiset{v})
  {
    hide Exact, Acyclic, Kids;
    ImmortalExact(h, v, roots);
  }

  // The operand's value is still safe after the later ones.
  lemma {:induction false} AtomSafe(P: Prog, pt: int, K: multiset<Word>, X: multiset<Word>, c: Ctx, env: Env,
                                    w0: World, w1: World, a: OAtom, flag: bool, v: Word)
    requires Frame(P, K, X, c, env, w1) && w1.globs == w0.globs && AtomVal(P, pt, env, w0, a) == Some(v)
    requires (flag ==> LiveVal(w0.heap, v)) && (flag || Usable(c, a)) && forall rs :: Kept(rs, w0.heap, w1.heap)
    ensures LiveVal(w1.heap, v) && (flag || Under(w1.heap, K + Held(env, c), v))
  {
    hide Frame, Kept, Held, From, Usable;
    if flag {
      LiveKept(w0.heap, w1.heap, v);
    } else {
      assert AtomVal(P, pt, env, w1, a) == Some(v);
      AtomUnder(P, pt, K, X, c, env, w1, a, v);
    }
  }
}

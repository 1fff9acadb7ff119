// Constructors as values: the closures of dc_ctor_step in gen5/rt5.c, run by
// the interpreter on the registered arities, against the direct construction.
module CurriedCtors {
  import opened RcHeap
  import opened Trampoline
  import opened Oir
  import opened Types
  import opened HeapSteps
  import opened Ownership
  import opened OwnershipFrame
  import opened OwnershipSteps
  import opened OwnershipSound
  import opened Curried
  import opened CurriedBuiltins

  // The closure at p is one of constructor cid and holds done, with whatever
  // count.
  predicate AtCtor(cid: nat, h: Heap, p: Word, done: seq<Word>) {
    IsRef(p) && p in h && h[p].tag == T_CLOSURE && h[p].words == StepWords(cid, done)
  }

  lemma {:induction false} CtorStepIs(P: Prog, n: nat, cid: nat, w: World, p: Word, done: seq<Word>, arg: Word)
    requires AtCtor(cid, w.heap, p, done) && |done| <= MAX_WORDS - 6 && DupAll(w.heap, done).Ok?
    ensures var h := DupAll(w.heap, done).heap;
            var q := P.newAt(w.tick, w.heap);
            EvClosure(P, n, w, p, arg)
            == Done(q, w.(heap := h[q := NextBlock(cid, ArityOf(w, cid), done, arg)], tick := w.tick + 1))
  {
    hide DupAll, RtBuiltinStep, EvLam, EvLevel, IsRef, ArityOf;
    var words := StepWords(cid, done);
    assert words[4..] == done && IntOf(words[2]) == cid && IntOf(words[3]) == |done|;
  }

  // One step on an owned closure: it gives way to the next block, which takes
  // over what it held.
  lemma {:induction false} OwnedStep(P: Prog, n: nat, cid: nat, base: Heap, p: Word, done: seq<Word>, rest: seq<Word>,
                                     K: multiset<Word>, w: World)
    returns (q: Word)
    requires AllocatorOk(P) && Holding(StepBlock(cid, done), base, p, done, rest, K)
    requires |done| <= MAX_WORDS - 6 && w.heap == base[p := StepBlock(cid, done)]
    ensures var nb := NextBlock(cid, ArityOf(w, cid), done, rest[0]);
            var r := EvClosure(P, n, w, p, rest[0]);
            && IsRef(q) && q !in base && r.Done? && r.v == q
            && RtDrop(r.w, p) == Some(w.(heap := base[q := nb], tick := w.tick + 1))
            && (|rest| > 1 && nb.tag == T_CLOSURE ==> Holding(nb, base, q, done + [rest[0]], rest[1..], K))
  {
    hide Good, EvClosure, Drop, DupAll, IsRef, Carries, StepWords, AllocatorOk, AllValues, Spare, NextBlock, ArityOf;
    q := P.newAt(w.tick, w.heap);
    FreshAt(P, w.tick, w.heap);
    var nb := NextBlock(cid, ArityOf(w, cid), done, rest[0]);
    NextCarries(cid, ArityOf(w, cid), done, rest[0]);
    ClosureMove(base, p, StepBlock(cid, done), nb, done, rest, K, q);
    CtorStepIs(P, n, cid, w, p, done, rest[0]);
  }

  // Applied to its last arguments one at a time, each closure dropped after its
  // use, a partial constructor becomes the block of all its arguments in order.
  lemma {:induction false} CtorChain(P: Prog, n: nat, cid: nat, base: Heap, p: Word, done: seq<Word>, rest: seq<Word>,
                                     K: multiset<Word>, w: World)
    returns (q: Word)
    requires AllocatorOk(P) && Holding(StepBlock(cid, done), base, p, done, rest, K)
    requires |done| + |rest| == ArityOf(w, cid) && |done| + |rest| <= MAX_WORDS - 6
    requires w.heap == base[p := StepBlock(cid, done)]
    ensures q !in base
    ensures ApplyAll(P, n, w, p, rest)
         == Done(q, w.(heap := base[q := AdtBlock(cid, done + rest)], tick := w.tick + |rest|))
    decreases |rest|
  {
    hide Good, EvClosure, Drop, DupAll, IsRef, Carries, StepBlock, AdtBlock, AllocatorOk, AllValues, Spare;
    var arg := rest[0];
    q := OwnedStep(P, n, cid, base, p, done, rest, K, w);
    NextIs(cid, ArityOf(w, cid), done, rest);
    if |rest| == 1 {
      var w1 := w.(heap := base[q := AdtBlock(cid, done + rest)], tick := w.tick + 1);
      assert rest[1..] == [];
      assert ApplyAll(P, n, w1, q, []) == Done(q, w1);
    } else {
      ClosureTag(cid, done + [arg]);
      var w1 := w.(heap := base[q := StepBlock(cid, done + [arg])], tick := w.tick + 1);
      var p1 := q;
      q := CtorChain(P, n, cid, base, p1, done + [arg], rest[1..], K, w1);
      assert (done + [arg]) + rest[1..] == done + rest;
    }
  }

  lemma {:induction false} ClosureTag(cid: nat, args: seq<Word>)
    ensures StepBlock(cid, args).tag == T_CLOSURE
  {
  }

  // The direct construction puts the same block at the allocator's address.
  lemma {:induction false} DirectCtor(P: Prog, n: nat, c: string, env: Env, w: World, xs: seq<string>, vs: seq<Word>)
    requires Bound(env, xs, vs) && c in P.cid && c in P.ar && P.ar[c] == |vs| && 0 < |vs| <= MAX_WORDS - 6
    ensures var q := P.newAt(w.tick, w.heap);
            EvPrim(P, n, 0, env, w, PMkCtor(c, Vars(xs), ""))
            == Done(q, w.(heap := w.heap[q := AdtBlock(P.cid[c], vs)], tick := w.tick + 1))
  {
    VarsVals(P, 0, env, w, xs, vs, Trues(|xs|));
    hide EvAtoms, Vars;
    var q, words := P.newAt(w.tick, w.heap), [P.cid[c]] + vs;
    assert w.heap[q := RawBlock(|words| + 1)][q := Block(1, T_ADT, words)] == w.heap[q := Block(1, T_ADT, words)];
  }

  // Currying from an owned closure: what the direct construction builds.
  lemma {:induction false} CtorCurried(P: Prog, n: nat, cid: nat, base: Heap, p: Word, K: multiset<Word>, w: World,
                                       vs: seq<Word>)
    returns (q: Word)
    requires Setting(P) && Holding(StepBlock(cid, []), base, p, [], vs, K) && w.heap == base[p := StepBlock(cid, [])]
    requires |vs| == ArityOf(w, cid) && |vs| <= MAX_WORDS - 6 && WorldOk(P, K, w)
    ensures q !in base
    ensures ApplyAll(P, n, w, p, vs) == Done(q, w.(heap := base[q := AdtBlock(cid, vs)], tick := w.tick + |vs|))
    ensures Owned(K, w, ApplyAll(P, n, w, p, vs))
  {
    hide Good, EvClosure, IsRef, Carries, StepWords, AllocatorOk, LiveVal, Spare, WorldOk, ProgOwned, ApplyAll, Owned;
    assert [] + vs == vs;
    q := CtorChain(P, n, cid, base, p, [], vs, K, w);
    HeldValues(base, p, StepBlock(cid, []), vs);
    ApplyAllOwned(P, n, K, w, p, vs);
  }

  // And from a closure that stays, such as the one in the constructor's global
  // slot.
  lemma {:induction false} CtorShared(P: Prog, n: nat, cid: nat, p: Word, K: multiset<Word>, w: World, vs: seq<Word>)
    returns (q: Word)
    requires Setting(P) && AtCtor(cid, w.heap, p, []) && WorldOk(P, K, w) && Under(w.heap, K, p)
    requires vs != [] && |vs| == ArityOf(w, cid) && |vs| <= MAX_WORDS - 6
    requires AllValues(w.heap, vs) && Spare(w.heap, |vs|) && Good(w.heap, K + multiset(vs))
    ensures q !in w.heap
    ensures Curried.ApplyShared(P, n, w, p, vs)
         == Done(q, w.(heap := w.heap[q := AdtBlock(cid, vs)], tick := w.tick + |vs|))
    ensures Owned(K, w, Curried.ApplyShared(P, n, w, p, vs))
  {
    hide Good, EvClosure, RtDrop, IsRef, Carries, StepBlock, AllocatorOk, LiveVal, Spare, WorldOk, ProgOwned;
    hide Owned, Under, AtCtor, AdtBlock, NextBlock;
    assert [] + vs == vs;
    SharedOwned(P, n, K, w, p, vs);
    var nb := NextBlock(cid, ArityOf(w, cid), [], vs[0]);
    q := P.newAt(w.tick, w.heap);
    FreshAt(P, w.tick, w.heap);
    NextCarries(cid, ArityOf(w, cid), [], vs[0]);
    NextIs(cid, ArityOf(w, cid), [], vs);
    SharedMove(w.heap, nb, [], vs, K, q);
    CtorStepIs(P, n, cid, w, p, [], vs[0]);
    var w1 := w.(heap := w.heap[q := nb], tick := w.tick + 1);
    if |vs| == 1 {
      assert vs[1..] == [] && ApplyAll(P, n, w1, q, []) == Done(q, w1);
    } else {
      ClosureTag(cid, [] + [vs[0]]);
      var p1 := q;
      q := CtorChain(P, n, cid, w.heap, p1, [] + [vs[0]], vs[1..], K, w1);
      assert ([] + [vs[0]]) + vs[1..] == vs;
    }
  }
}

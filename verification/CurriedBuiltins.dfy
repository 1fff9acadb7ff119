// Built-ins as values: the closures of dc_builtin_step in gen5/rt5.c, applied
// to the arguments one at a time, against the direct call.
module CurriedBuiltins {
  import opened RcHeap
  import opened Trampoline
  import opened Oir
  import opened Types
  import opened HeapSteps
  import opened Ownership
  import opened OwnershipFrame
  import opened OwnershipSteps
  import opened OwnershipSound
  import opened Curried

  // The closure of built-in idx that holds done.
  function BiBlock(idx: int, done: seq<Word>): Block { Block(1, T_CLOSURE, BiStepWords(idx, done)) }

  // The index and the name of a built-in ask for the same number of arguments.
  lemma {:induction false} SameArity(idx: int)
    requires BiName(idx).Some?
    ensures BiArity(idx) == BiArgs(The(BiName(idx))) && 1 <= BiArity(idx) <= 3
  {
  }

  lemma {:induction false} BiCarries(idx: int, done: seq<Word>)
    ensures Carries(BiBlock(idx, done), done) && BiBlock(idx, done).tag == T_CLOSURE
  {
    hide RefsIn;
    var b := BiBlock(idx, done);
    assert b.words[2..] == [MkInt(idx), MkInt(|done|)] + done;
    forall p ensures Kids(p, b) == RefsIn(p, done) {
      RefsInAppend(p, [MkInt(idx), MkInt(|done|)], done);
      TaggedNoRefs(p, idx, |done|);
      assert [] + RefsIn(p, done) == RefsIn(p, done);
    }
  }

  // The closure at p is one of built-in idx and holds done, with whatever count.
  predicate AtBuiltin(idx: int, h: Heap, p: Word, done: seq<Word>) {
    IsRef(p) && p in h && h[p].tag == T_CLOSURE && h[p].words == BiStepWords(idx, done)
  }

  // A step that is not the last.
  lemma {:induction false} StepBuilds(P: Prog, n: nat, idx: int, w: World, p: Word, done: seq<Word>, arg: Word,
                                      h1: Heap)
    requires AtBuiltin(idx, w.heap, p, done) && |done| + 1 != BiArity(idx) && |done| <= MAX_WORDS - 6
    requires DupAll(w.heap, done) == Ok(h1)
    ensures var q := P.newAt(w.tick, h1);
            EvClosure(P, n, w, p, arg)
            == Done(q, w.(heap := h1[q := BiBlock(idx, done + [arg])], tick := w.tick + 1))
  {
    hide DupAll, RtCtorStep, EvLam, EvLevel, RtBuiltin, RtDrop, IsRef, BiArity, BiName;
    var words := BiStepWords(idx, done);
    assert words[4..] == done && IntOf(words[2]) == idx && IntOf(words[3]) == |done|;
    var q := P.newAt(w.tick, h1);
    var next := BiStepWords(idx, done + [arg]);
    assert h1[q := RawBlock(|next| + 1)][q := Block(1, T_CLOSURE, next)] == h1[q := Block(1, T_CLOSURE, next)];
  }

  // The last step: the built-in on all arguments, and the drop of the last.
  lemma {:induction false} StepCalls(P: Prog, n: nat, idx: int, w: World, p: Word, done: seq<Word>, arg: Word)
    requires AtBuiltin(idx, w.heap, p, done) && |done| + 1 == BiArity(idx) && BiName(idx).Some?
    ensures EvClosure(P, n, w, p, arg)
         == LevelEnd(RtBuiltin(P, w, The(BiName(idx)), done + [arg]), true, arg)
  {
    hide DupAll, RtCtorStep, EvLam, EvLevel, RtBuiltin, RtDrop, IsRef, BiArity, BiName, Build;
    var words := BiStepWords(idx, done);
    assert words[4..] == done && IntOf(words[2]) == idx && IntOf(words[3]) == |done|;
  }

  // A step that is not the last, with the drop of the closure it used.
  lemma {:induction false} StepOn(P: Prog, n: nat, idx: int, base: Heap, p: Word, done: seq<Word>, rest: seq<Word>,
                                  K: multiset<Word>, w: World)
    returns (q: Word)
    requires AllocatorOk(P) && Holding(BiBlock(idx, done), base, p, done, rest, K) && |rest| > 1
    requires |done| + |rest| == BiArity(idx) && w.heap == base[p := BiBlock(idx, done)]
    ensures Holding(BiBlock(idx, done + [rest[0]]), base, q, done + [rest[0]], rest[1..], K)
    ensures var w1 := w.(heap := base[q := BiBlock(idx, done + [rest[0]])], tick := w.tick + 1);
            ApplyAll(P, n, w, p, rest) == ApplyAll(P, n, w1, q, rest[1..])
  {
    hide Good, EvClosure, Drop, DupAll, IsRef, Carries, BiStepWords, AllocatorOk, AllValues, Spare, BiArity, Holding;
    var more := done + [rest[0]];
    BiCarries(idx, more);
    q := AfterDups(P, base, p, BiBlock(idx, done), done, rest, K, w.tick);
    ClosureMove(base, p, BiBlock(idx, done), BiBlock(idx, more), done, rest, K, q);
    HoldsFirst(idx, base, p, done, rest, K);
    StepBuilds(P, n, idx, w, p, done, rest[0], DupAll(w.heap, done).heap);
  }

  lemma {:induction false} HoldsFirst(idx: int, base: Heap, p: Word, done: seq<Word>, rest: seq<Word>,
                                      K: multiset<Word>)
    requires Holding(BiBlock(idx, done), base, p, done, rest, K) && |rest| > 1
    ensures AtBuiltin(idx, base[p := BiBlock(idx, done)], p, done) && |done| <= MAX_WORDS - 6
  {
    hide Good, AllValues, Spare, Carries, BiStepWords;
  }

  // The steps before the last: the last closure holds every argument but one.
  lemma {:induction false} StepsReach(P: Prog, n: nat, idx: int, base: Heap, p: Word, done: seq<Word>, rest: seq<Word>,
                                      K: multiset<Word>, w: World)
    returns (q: Word)
    requires AllocatorOk(P) && Holding(BiBlock(idx, done), base, p, done, rest, K)
    requires rest != [] && |done| + |rest| == BiArity(idx) && w.heap == base[p := BiBlock(idx, done)]
    ensures var all := done + rest; var held, last := all[..|all| - 1], all[|all| - 1];
            var w1 := w.(heap := base[q := BiBlock(idx, held)], tick := w.tick + |rest| - 1);
            && Holding(BiBlock(idx, held), base, q, held, [last], K)
            && ApplyAll(P, n, w, p, rest) == ApplyAll(P, n, w1, q, [last])
    decreases |rest|
  {
    hide Holding, ApplyAll, AllocatorOk, BiArity, BiBlock, IsRef;
    if |rest| == 1 {
      q := p;
      assert (done + rest)[..|done + rest| - 1] == done && [rest[0]] == rest;
    } else {
      var more := done + [rest[0]];
      var p1 := StepOn(P, n, idx, base, p, done, rest, K, w);
      var w1 := w.(heap := base[p1 := BiBlock(idx, more)], tick := w.tick + 1);
      q := StepsReach(P, n, idx, base, p1, more, rest[1..], K, w1);
      assert more + rest[1..] == done + rest;
    }
  }

  // ---------- the direct call ----------

  function Vars(xs: seq<string>): (atoms: seq<OAtom>)
    ensures |atoms| == |xs|
  {
    if xs == [] then [] else [AVar(xs[0])] + Vars(xs[1..])
  }

  predicate Bound(env: Env, xs: seq<string>, vs: seq<Word>) {
    |xs| == |vs| && forall i :: 0 <= i < |xs| ==> Find(env, xs[i]) == Some(vs[i])
  }

  lemma {:induction false} BoundRest(env: Env, xs: seq<string>, vs: seq<Word>)
    requires Bound(env, xs, vs) && xs != []
    ensures |vs| == |xs| && Find(env, xs[0]) == Some(vs[0]) && Bound(env, xs[1..], vs[1..])
  {
    hide Find;
  }

  lemma {:induction false} VarsVals(P: Prog, pt: int, env: Env, w: World, xs: seq<string>, vs: seq<Word>,
                                    flags: seq<bool>)
    requires Bound(env, xs, vs)
    ensures EvAtoms(P, pt, env, w, Vars(xs), flags) == Vals(vs, w)
    decreases |xs|
  {
    hide RtDup, Find;
    if xs != [] {
      BoundRest(env, xs, vs);
      hide Bound;
      assert Vars(xs)[0] == AVar(xs[0]) && Vars(xs)[1..] == Vars(xs[1..]);
      VarsVals(P, pt, env, w, xs[1..], vs[1..], Later(flags));
      assert vs == [vs[0]] + vs[1..];
      hide Vars;
    }
  }

  // The call of built-in idx by its name, on variables bound to vs.
  ghost function Direct(P: Prog, n: nat, idx: int, env: Env, w: World, xs: seq<string>): Res {
    EvPrim(P, n, 0, env, w, PBi(The(BiName(idx)), Vars(xs)))
  }

  lemma {:induction false} DirectIs(P: Prog, n: nat, idx: int, env: Env, w: World, xs: seq<string>, vs: seq<Word>)
    requires BiName(idx).Some? && Bound(env, xs, vs) && |vs| == BiArgs(The(BiName(idx)))
    ensures Direct(P, n, idx, env, w, xs) == RtBuiltin(P, w, The(BiName(idx)), vs)
  {
    hide RtBuiltin, BiName;
    VarsVals(P, 0, env, w, xs, vs, []);
  }

  // ---------- currying ----------

  // The last step, then the drop of its closure.
  lemma {:induction false} LastCall(P: Prog, n: nat, idx: int, env: Env, w: World, q: Word, xs: seq<string>,
                                    vs: seq<Word>)
    requires BiName(idx).Some? && Bound(env, xs, vs) && |vs| == BiArgs(The(BiName(idx)))
    requires AtBuiltin(idx, w.heap, q, vs[..|vs| - 1])
    ensures EvClosure(P, n, w, q, vs[|vs| - 1]) == LevelEnd(Direct(P, n, idx, env, w, xs), true, vs[|vs| - 1])
    ensures ApplyAll(P, n, w, q, [vs[|vs| - 1]]) == Finish(Direct(P, n, idx, env, w, xs), true, vs[|vs| - 1], q)
  {
    hide AtBuiltin, RtBuiltin, BiName, BiArity, BiArgs, Direct, RtDrop, EvClosure, LevelEnd;
    SameArity(idx);
    var k, last := |vs| - 1, vs[|vs| - 1];
    StepCalls(P, n, idx, w, q, vs[..k], last);
    assert vs[..k] + [last] == vs;
    DirectIs(P, n, idx, env, w, xs, vs);
    var r := EvClosure(P, n, w, q, last);
    assert [last][1..] == [];
    if r.Done? && RtDrop(r.w, q).Some? {
      var w2 := RtDrop(r.w, q).value;
      assert ApplyAll(P, n, w2, r.v, []) == Done(r.v, w2);
    }
  }

  // Applying a built-in's closure to its arguments one at a time, each closure
  // dropped after its use, is the direct call of the built-in's name on the
  // same arguments in the same order. The closure at q is the only one there
  // when it is made, and is dropped after it with the last argument.
  lemma {:induction false} BuiltinCurried(P: Prog, n: nat, idx: int, base: Heap, p: Word, K: multiset<Word>, w: World,
                                          env: Env, xs: seq<string>, vs: seq<Word>)
    returns (q: Word)
    requires Setting(P) && BiName(idx).Some? && Bound(env, xs, vs) && |vs| == BiArgs(The(BiName(idx)))
    requires Holding(BiBlock(idx, []), base, p, [], vs, K) && w.heap == base[p := BiBlock(idx, [])] && WorldOk(P, K, w)
    ensures var k := |vs| - 1;
            var w1 := w.(heap := base[q := BiBlock(idx, vs[..k])], tick := w.tick + k);
            && q !in base
            && ApplyAll(P, n, w, p, vs) == Finish(Direct(P, n, idx, env, w1, xs), true, vs[k], q)
    ensures Owned(K, w, ApplyAll(P, n, w, p, vs))
  {
    hide Good, EvClosure, RtDrop, DupAll, IsRef, Carries, BiStepWords, AllocatorOk, LiveVal, Spare, WorldOk, ProgOwned;
    hide ApplyAll, Owned, BiName, BiArity, BiArgs, Direct, Finish, Bound;
    var k := |vs| - 1;
    SameArity(idx);
    assert [] + vs == vs;
    q := StepsReach(P, n, idx, base, p, [], vs, K, w);
    var w1 := w.(heap := base[q := BiBlock(idx, vs[..k])], tick := w.tick + k);
    HeldAt(idx, base, q, vs[..k], [vs[k]], K);
    LastCall(P, n, idx, env, w1, q, xs, vs);
    HeldValues(base, p, BiBlock(idx, []), vs);
    ApplyAllOwned(P, n, K, w, p, vs);
  }

  lemma {:induction false} HeldAt(idx: int, base: Heap, q: Word, done: seq<Word>, rest: seq<Word>, K: multiset<Word>)
    requires Holding(BiBlock(idx, done), base, q, done, rest, K)
    ensures q !in base && AtBuiltin(idx, base[q := BiBlock(idx, done)], q, done)
  {
    hide Good, AllValues, Spare, Carries, BiStepWords, IsRef;
  }

  lemma {:induction false} HeldValues(base: Heap, p: Word, b: Block, vs: seq<Word>)
    requires p !in base && b.tag == T_CLOSURE && AllValues(base, vs)
    ensures LiveVal(base[p := b], p) && forall i :: 0 <= i < |vs| ==> LiveVal(base[p := b], vs[i])
  {
  }

  // The first step from a closure that stays.
  lemma {:induction false} FirstShared(P: Prog, n: nat, idx: int, p: Word, K: multiset<Word>, w: World, vs: seq<Word>)
    returns (q: Word)
    requires AllocatorOk(P) && AtBuiltin(idx, w.heap, p, []) && |vs| == BiArity(idx) && 1 < |vs| <= 3
    requires AllValues(w.heap, vs) && Spare(w.heap, |vs|) && Good(w.heap, K + multiset(vs))
    ensures Holding(BiBlock(idx, [] + [vs[0]]), w.heap, q, [] + [vs[0]], vs[1..], K)
    ensures var w0 := w.(heap := w.heap[q := BiBlock(idx, [] + [vs[0]])], tick := w.tick + 1);
            Curried.ApplyShared(P, n, w, p, vs) == ApplyAll(P, n, w0, q, vs[1..])
  {
    hide Good, EvClosure, RtDrop, IsRef, Carries, BiStepWords, AllocatorOk, LiveVal, Spare, BiArity, AtBuiltin;
    hide ApplyAll, Holding;
    var more := [] + [vs[0]];
    assert [] + vs == vs;
    BiCarries(idx, more);
    q := SharedFresh(P, w.heap, [], vs, K, w.tick);
    SharedMove(w.heap, BiBlock(idx, more), [], vs, K, q);
    StepBuilds(P, n, idx, w, p, [], vs[0], w.heap);
  }

  // The steps before the last, from a closure that stays.
  lemma {:induction false} SharedReach(P: Prog, n: nat, idx: int, p: Word, K: multiset<Word>, w: World, vs: seq<Word>)
    returns (q: Word)
    requires AllocatorOk(P) && AtBuiltin(idx, w.heap, p, []) && |vs| == BiArity(idx) && 1 < |vs| <= 3
    requires AllValues(w.heap, vs) && Spare(w.heap, |vs|) && Good(w.heap, K + multiset(vs))
    ensures var k := |vs| - 1;
            var w1 := w.(heap := w.heap[q := BiBlock(idx, vs[..k])], tick := w.tick + k);
            && q !in w.heap && AtBuiltin(idx, w1.heap, q, vs[..k])
            && Curried.ApplyShared(P, n, w, p, vs) == ApplyAll(P, n, w1, q, [vs[k]])
  {
    hide Holding, ApplyAll, Curried.ApplyShared, AllocatorOk, BiArity, BiBlock, IsRef, AtBuiltin, AllValues;
    hide Spare, Good;
    var more := [] + [vs[0]];
    var p1 := FirstShared(P, n, idx, p, K, w, vs);
    var w0 := w.(heap := w.heap[p1 := BiBlock(idx, more)], tick := w.tick + 1);
    q := StepsReach(P, n, idx, w.heap, p1, more, vs[1..], K, w0);
    assert more + vs[1..] == vs;
    HeldAt(idx, w.heap, q, vs[..|vs| - 1], [vs[|vs| - 1]], K);
  }

  // From a closure that stays, such as the one in the built-in's global slot:
  // the direct call again, made beside the shared closure.
  lemma {:induction false} BuiltinShared(P: Prog, n: nat, idx: int, p: Word, K: multiset<Word>, w: World,
                                         env: Env, xs: seq<string>, vs: seq<Word>)
    returns (q: Word)
    requires Setting(P) && BiName(idx).Some? && Bound(env, xs, vs) && |vs| == BiArgs(The(BiName(idx)))
    requires AtBuiltin(idx, w.heap, p, []) && WorldOk(P, K, w) && Under(w.heap, K, p)
    requires AllValues(w.heap, vs) && Spare(w.heap, |vs|) && Good(w.heap, K + multiset(vs))
    ensures var k := |vs| - 1;
            var w1 := w.(heap := w.heap[q := BiBlock(idx, vs[..k])], tick := w.tick + k);
            if k == 0 then Curried.ApplyShared(P, n, w, p, vs) == LevelEnd(Direct(P, n, idx, env, w, xs), true, vs[0])
            else && q !in w.heap
                 && Curried.ApplyShared(P, n, w, p, vs) == Finish(Direct(P, n, idx, env, w1, xs), true, vs[k], q)
    ensures Owned(K, w, Curried.ApplyShared(P, n, w, p, vs))
  {
    hide Good, EvClosure, RtDrop, IsRef, AllocatorOk, LiveVal, Spare, WorldOk, ProgOwned, Curried.ApplyShared;
    hide ApplyAll, Owned, BiName, BiArity, BiArgs, BiBlock, Direct, Finish, Bound, Under, LevelEnd, AtBuiltin;
    var k := |vs| - 1;
    SameArity(idx);
    SharedOwned(P, n, K, w, p, vs);
    if k == 0 {
      q := p;
      assert vs[..0] == [];
      LastCall(P, n, idx, env, w, p, xs, vs);
      ApplyOne(P, n, w, p, vs);
    } else {
      q := SharedReach(P, n, idx, p, K, w, vs);
      var w1 := w.(heap := w.heap[q := BiBlock(idx, vs[..k])], tick := w.tick + k);
      LastCall(P, n, idx, env, w1, q, xs, vs);
    }
  }

  lemma {:induction false} ApplyOne(P: Prog, n: nat, w: World, p: Word, vs: seq<Word>)
    requires |vs| == 1
    ensures Curried.ApplyShared(P, n, w, p, vs) == EvClosure(P, n, w, p, vs[0])
  {
    hide EvClosure, RtDrop;
    var r := EvClosure(P, n, w, p, vs[0]);
    assert vs[1..] == [];
    if r.Done? { assert ApplyAll(P, n, r.w, r.v, []) == r; }
  }
}

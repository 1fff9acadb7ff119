// Curried levels of gen5/g5_cgdriver.dc against the direct entry: applying
// _fn_f_1 to the arguments of f one at a time is one call of _fnn_f on all of
// them, and the closures in between leave no trace.
module Curried {
  import opened RcHeap
  import opened Trampoline
  import opened Oir
  import opened Types
  import opened HeapSteps
  import opened Ownership
  import opened OwnershipFrame
  import opened OwnershipSteps
  import opened OwnershipSound
  import opened OwnershipRun

  // Apply a closure to arguments in turn, dropping each closure after its use.
  ghost function ApplyAll(P: Prog, n: nat, w: World, clo: Word, vs: seq<Word>): Res
    decreases |vs|
  {
    if vs == [] then Done(clo, w)
    else
      match EvClosure(P, n, w, clo, vs[0])
      case Stop(why) => Stop(why)
      case Done(v, w1) =>
        match RtDrop(w1, clo)
        case None => Stop(Corrupt)
        case Some(w2) => ApplyAll(P, n, w2, v, vs[1..])
  }

  // ---------- counts, for any closure ----------

  // Whatever the closure is, each application consumes the closure and one
  // argument and nothing else.
  lemma {:induction false} ApplyAllOwned(P: Prog, n: nat, K: multiset<Word>, w: World, clo: Word, vs: seq<Word>)
    requires Setting(P) && WorldOk(P, K, w) && Good(w.heap, K + multiset{clo} + multiset(vs))
    requires LiveVal(w.heap, clo) && forall i :: 0 <= i < |vs| ==> LiveVal(w.heap, vs[i])
    ensures Owned(K, w, ApplyAll(P, n, w, clo, vs))
    decreases |vs|
  {
    hide Good, Kept, LiveVal, Owned, WorldOk, Setting, EvClosure, RtDrop, Under;
    if vs == [] {
      assert K + multiset{clo} + multiset(vs) == K + multiset{clo};
      DoneOwned(K, w, clo);
    } else {
      var later := K + multiset(vs[1..]);
      assert vs == [vs[0]] + vs[1..];
      assert K + multiset{clo} + multiset(vs) == later + multiset{clo} + multiset{vs[0]};
      RootUnder(w.heap, later + multiset{clo}, clo);
      WorldMono(P, K, later + multiset{clo}, w);
      ClosureOwned(P, n, later + multiset{clo}, w, clo, vs[0]);
      var r := EvClosure(P, n, w, clo, vs[0]);
      StopsAlike(later + multiset{clo}, K, w, r);
      if r.Done? {
        ThenDrop(later, w, clo, r);
        var r2 := Done(r.v, RtDrop(r.w, clo).value);
        OwnedParts(later, w, r2);
        assert later + multiset{r.v} == K + multiset{r.v} + multiset(vs[1..]);
        KeptMono(K, later, w.heap, r2.w.heap);
        WorldKept(P, K, w, r2.w);
        forall i | 0 <= i < |vs[1..]| ensures LiveVal(r2.w.heap, vs[1..][i]) {
          assert vs[1..][i] in later;
          RootKept(w.heap, r2.w.heap, later, vs[1..][i]);
        }
        ApplyAllOwned(P, n, K, r2.w, r.v, vs[1..]);
        Then(K, w, r2.w, ApplyAll(P, n, r2.w, r.v, vs[1..]));
      }
    }
  }

  lemma {:induction false} DoneOwned(K: multiset<Word>, w: World, v: Word)
    requires Good(w.heap, K + multiset{v}) && LiveVal(w.heap, v)
    ensures Owned(K, w, Done(v, w))
  {
    hide Good, Kept, LiveVal;
    KeptSame(K, w.heap);
  }

  lemma {:induction false} StopsAlike(a: multiset<Word>, b: multiset<Word>, w: World, r: Res)
    requires Owned(a, w, r)
    ensures r.Stop? ==> Owned(b, w, r)
  {
  }

  lemma {:induction false} OwnedParts(K: multiset<Word>, w: World, r: Res)
    requires Owned(K, w, r) && r.Done?
    ensures r.w.globs == w.globs && Good(r.w.heap, K + multiset{r.v}) && LiveVal(r.w.heap, r.v)
    ensures Kept(K, w.heap, r.w.heap)
  {
  }

  // ---------- the levels of one definition ----------

  // Every level of f has its own code address.
  ghost predicate HasLevels(P: Prog, f: string) {
    && f in P.defs
    && forall i {:trigger SLevel(f, i)} :: 1 <= i <= |P.defs[f].params| ==> LevelAt(P, f, i)
  }

  ghost predicate LevelAt(P: Prog, f: string, i: nat) {
    && SLevel(f, i) in P.addr && P.addr[SLevel(f, i)] != CTOR_STEP && P.addr[SLevel(f, i)] != BI_STEP
    && forall s :: s in P.addr && IsCode(s) && P.addr[s] == P.addr[SLevel(f, i)] ==> s == SLevel(f, i)
  }

  // The closure of the level that waits for one argument more than done.
  ghost function LevelBlock(P: Prog, f: string, done: seq<Word>): Block {
    Block(1, T_CLOSURE, [AtKey(P.addr, SLevel(f, |done| + 1)), |done|] + done)
  }

  // Counts stay clear of saturation through k more references.
  predicate Spare(h: Heap, k: int) {
    1 + k < RC_IMMORTAL && forall q :: q in h && h[q].rc != RC_IMMORTAL ==> h[q].rc + k < RC_IMMORTAL
  }

  predicate AllValues(h: Heap, vs: seq<Word>) { forall i :: 0 <= i < |vs| ==> LiveVal(h, vs[i]) }

  // A closure block at p holds done and nothing else; base is the heap without
  // it, and the roots own it and the arguments to come.
  ghost predicate Holding(b: Block, base: Heap, p: Word, done: seq<Word>, rest: seq<Word>, K: multiset<Word>) {
    && Carries(b, done) && b.tag == T_CLOSURE && rest != [] && |done| + |rest| < MAX_WORDS - 3
    && IsRef(p) && p !in base && AllValues(base, done + rest) && Spare(base, |done| + |rest|)
    && Good(base[p := b], K + multiset{p} + multiset(rest))
  }

  ghost predicate Midway(P: Prog, f: string, base: Heap, p: Word, done: seq<Word>, rest: seq<Word>, K: multiset<Word>) {
    && HasLevels(P, f) && |done| + |rest| == |P.defs[f].params| && rest != []
    && Holding(LevelBlock(P, f, done), base, p, done, rest, K)
  }

  // ---------- one step, whatever closure makes it ----------

  lemma {:induction false} FreshAt(P: Prog, tick: int, h: Heap)
    requires AllocatorOk(P)
    ensures IsRef(P.newAt(tick, h)) && P.newAt(tick, h) !in h
  {
  }

  lemma {:induction false} LiveIn(h: Heap, done: seq<Word>, rest: seq<Word>)
    requires AllValues(h, done + rest) && rest != []
    ensures (forall w :: w in done && IsRef(w) ==> w in h) && (IsRef(rest[0]) ==> rest[0] in h)
  {
    hide IsRef;
    forall w | w in done && IsRef(w) ensures w in h {
      var i :| 0 <= i < |done| && done[i] == w;
      assert (done + rest)[i] == w;
    }
    assert (done + rest)[|done|] == rest[0];
  }

  lemma {:induction false} SharedBase(h: Heap, done: seq<Word>, rest: seq<Word>)
    requires AllValues(h, done + rest) && Spare(h, 2 * |done| + |rest|)
    requires DupAll(h, done).Ok? && SameBlocks(DupAll(h, done).heap, h)
    ensures var base := DupAll(h, done).heap; AllValues(base, done + rest) && Spare(base, |done| + |rest|)
  {
    hide IsRef, DupAll;
    DupAllGrows(h, done);
  }

  // Copies of what the closure at p holds and one argument more move into nb at
  // a fresh address, and p is dropped: nothing else changes.
  lemma {:induction false} ClosureMove(base: Heap, p: Word, b: Block, nb: Block, done: seq<Word>, rest: seq<Word>,
                                       K: multiset<Word>, q: Word)
    requires Holding(b, base, p, done, rest, K) && Carries(nb, done + [rest[0]])
    requires IsRef(q) && q !in base && q != p
    ensures DupAll(base[p := b], done).Ok?
    ensures Drop(DupAll(base[p := b], done).heap[q := nb], p) == Ok(base[q := nb])
    ensures |rest| > 1 && nb.tag == T_CLOSURE ==> Holding(nb, base, q, done + [rest[0]], rest[1..], K)
  {
    hide Exact, Acyclic, NoRawKids, Drop, DupAll, IsRef, Carries, StepReady;
    var h := base[p := b];
    ClosureReady(base, p, b, done, rest, K);
    StepMoves(h, p, nb, done, rest[0], q, K + multiset(rest[1..]));
    assert h - {p} == base;
    BaseSolid(base, p, b);
    if |rest| > 1 && nb.tag == T_CLOSURE { ClosureNext(base, q, nb, done, rest, K); }
  }

  // The address of a block allocated after the copies were made is no one's.
  lemma {:induction false} AfterDups(P: Prog, base: Heap, p: Word, b: Block, done: seq<Word>, rest: seq<Word>,
                                     K: multiset<Word>, tick: int)
    returns (q: Word)
    requires AllocatorOk(P) && Holding(b, base, p, done, rest, K)
    ensures DupAll(base[p := b], done).Ok? && q == P.newAt(tick, DupAll(base[p := b], done).heap)
    ensures IsRef(q) && q !in base && q != p
  {
    hide Holding, DupAll, IsRef, AllocatorOk, StepReady;
    ClosureReady(base, p, b, done, rest, K);
    q := P.newAt(tick, DupAll(base[p := b], done).heap);
    FreshAt(P, tick, DupAll(base[p := b], done).heap);
  }

  lemma {:induction false} ClosureReady(base: Heap, p: Word, b: Block, done: seq<Word>, rest: seq<Word>,
                                     K: multiset<Word>)
    requires Holding(b, base, p, done, rest, K)
    ensures var h := base[p := b];
            && DupAll(h, done).Ok? && SameBlocks(DupAll(h, done).heap, h)
            && forall r :: IsRef(r) && r !in base && r != p ==>
               StepReady(h, p, done, rest[0], r, K + multiset(rest[1..]))
  {
    hide Exact, Acyclic, NoRawKids, DupAll, IsRef, SameBlocks;
    var h := base[p := b];
    LiveIn(base, done, rest);
    assert forall v :: v in done ==> v in done + rest;
    assert rest == [rest[0]] + rest[1..];
    assert K + multiset{p} + multiset(rest) == K + multiset(rest[1..]) + multiset{p} + multiset{rest[0]};
    DupAllExact(h, done, K + multiset{p} + multiset(rest));
    assert h[p].rc == 1;
    forall r | IsRef(r) && r !in base && r != p ensures StepReady(h, p, done, rest[0], r, K + multiset(rest[1..])) { }
  }

  lemma {:induction false} BaseSolid(base: Heap, p: Word, b: Block)
    requires p !in base && NoRawKids(base[p := b])
    ensures NoRawKids(base)
  {
    hide Kids;
    var h := base[p := b];
    forall r, k | r in base && k in Kids(r, base[r]) && k in base ensures base[k].tag != T_RAW {
      assert r in h && k in h && h[r] == base[r];
    }
  }

  lemma {:induction false} ClosureNext(base: Heap, q: Word, nb: Block, done: seq<Word>, rest: seq<Word>,
                                    K: multiset<Word>)
    requires |rest| > 1 && |done| + |rest| < MAX_WORDS - 3 && Carries(nb, done + [rest[0]]) && nb.tag == T_CLOSURE
    requires IsRef(q) && q !in base && AllValues(base, done + rest) && Spare(base, |done| + |rest|)
    requires NoRawKids(base)
    requires Exact(base[q := nb], K + multiset(rest[1..]) + multiset{q}) && Acyclic(base[q := nb])
    ensures Holding(nb, base, q, done + [rest[0]], rest[1..], K)
  {
    hide Exact, Acyclic, NoRawKids, IsRef, Carries;
    assert (done + [rest[0]]) + rest[1..] == done + rest;
    assert K + multiset(rest[1..]) + multiset{q} == K + multiset{q} + multiset(rest[1..]);
    NewSolid(base, q, nb, done + [rest[0]], rest[1..]);
  }

  // The new closure holds values only.
  lemma {:induction false} NewSolid(base: Heap, q: Word, b: Block, done: seq<Word>, rest: seq<Word>)
    requires Carries(b, done) && b.tag == T_CLOSURE && q !in base && AllValues(base, done + rest)
    requires NoRawKids(base)
    ensures NoRawKids(base[q := b])
  {
    hide RefsIn, Kids;
    RefsInRefs(q, done);
    var h := base[q := b];
    forall p, k | p in h && k in Kids(p, h[p]) && k in h ensures h[k].tag != T_RAW {
      if p == q {
        assert k in RefsIn(q, done);
        var i :| 0 <= i < |done| && done[i] == k;
        assert (done + rest)[i] == k;
      } else if k != q {
        assert k in Kids(p, base[p]);
      }
    }
  }

  // The same over a borrowed closure: what it holds gains a reference each.
  lemma {:induction false} SharedMove(h: Heap, nb: Block, done: seq<Word>, rest: seq<Word>, K: multiset<Word>, q: Word)
    requires rest != [] && |done| + |rest| < MAX_WORDS - 3 && AllValues(h, done + rest)
    requires Spare(h, 2 * |done| + |rest|) && Good(h, K + multiset(rest)) && Carries(nb, done + [rest[0]])
    requires IsRef(q) && q !in h
    ensures DupAll(h, done).Ok? && SameBlocks(DupAll(h, done).heap, h)
    ensures |rest| > 1 && nb.tag == T_CLOSURE ==>
        Holding(nb, DupAll(h, done).heap, q, done + [rest[0]], rest[1..], K)
  {
    hide Exact, Acyclic, NoRawKids, DupAll, IsRef, Carries;
    var arg := rest[0];
    LiveIn(h, done, rest);
    DupAllExact(h, done, K + multiset(rest));
    var base := DupAll(h, done).heap;
    assert rest == [arg] + rest[1..];
    assert K + multiset(rest) == K + multiset(rest[1..]) + multiset{arg};
    FreshArgs(h, q, done, rest);
    BorrowedStep(h, nb, done, arg, q, K + multiset(rest[1..]));
    SharedBase(h, done, rest);
    SameRawKids(h, base);
    if |rest| > 1 && nb.tag == T_CLOSURE { ClosureNext(base, q, nb, done, rest, K); }
  }

  lemma {:induction false} SharedFresh(P: Prog, h: Heap, done: seq<Word>, rest: seq<Word>, K: multiset<Word>,
                                       tick: int)
    returns (q: Word)
    requires AllocatorOk(P) && AllValues(h, done + rest) && rest != [] && Good(h, K + multiset(rest))
    ensures DupAll(h, done).Ok? && q == P.newAt(tick, DupAll(h, done).heap) && IsRef(q) && q !in h
  {
    hide Exact, Acyclic, NoRawKids, DupAll, IsRef, AllocatorOk;
    LiveIn(h, done, rest);
    DupAllExact(h, done, K + multiset(rest));
    q := P.newAt(tick, DupAll(h, done).heap);
    FreshAt(P, tick, DupAll(h, done).heap);
  }

  lemma {:induction false} FreshArgs(h: Heap, q: Word, done: seq<Word>, rest: seq<Word>)
    requires IsRef(q) && q !in h && AllValues(h, done + rest) && rest != []
    ensures q !in done && q != rest[0]
  {
    hide IsRef;
    LiveIn(h, done, rest);
  }

  // ---------- the levels of one definition, step by step ----------

  lemma {:induction false} LevelCarries(P: Prog, f: string, done: seq<Word>)
    requires HasLevels(P, f) && |done| < |P.defs[f].params|
    ensures Carries(LevelBlock(P, f, done), done) && LevelBlock(P, f, done).tag == T_CLOSURE
  {
    hide RefsIn;
    var b := LevelBlock(P, f, done);
    assert b.words[2..] == done;
  }

  // The closure at p waits in level |done| + 1, with whatever count.
  ghost predicate AtLevel(P: Prog, f: string, h: Heap, p: Word, done: seq<Word>) {
    IsRef(p) && p in h && h[p].tag == T_CLOSURE && h[p].words == LevelBlock(P, f, done).words
  }

  lemma {:induction false} OwnLevel(P: Prog, f: string, base: Heap, p: Word, done: seq<Word>)
    requires HasLevels(P, f) && |done| < |P.defs[f].params| && IsRef(p)
    ensures AtLevel(P, f, base[p := LevelBlock(P, f, done)], p, done)
  {
    hide IsRef;
  }

  // Running the closure at p is running its level.
  lemma {:induction false} LevelRuns(P: Prog, n: nat, f: string, w: World, p: Word, done: seq<Word>, arg: Word)
    requires HasLevels(P, f) && |done| < |P.defs[f].params| && AtLevel(P, f, w.heap, p, done)
    ensures EvClosure(P, n, w, p, arg) == EvLevel(P, n, w, f, |done| + 1, done, arg)
  {
    hide EvLevel, EvLam, RtCtorStep, RtBuiltinStep, IsRef;
    assert LevelAt(P, f, |done| + 1);
    var b := LevelBlock(P, f, done);
    assert b.words[0] == P.addr[SLevel(f, |done| + 1)] && b.words[2..] == done;
    assert IsCode(SLevel(f, |done| + 1));
    assert CodeAt(P, b.words[0]) == Some(SLevel(f, |done| + 1));
  }

  // One level below the last: the closure at p gives way to one at a fresh
  // address, holding one argument more; nothing else changes.
  lemma {:induction false} LevelStep(P: Prog, n: nat, f: string, base: Heap, p: Word, done: seq<Word>, rest: seq<Word>,
                                     K: multiset<Word>, globs: seq<Word>, tick: int, ctors: map<int, nat>)
    returns (q: Word)
    requires AllocatorOk(P) && Midway(P, f, base, p, done, rest, K) && |rest| > 1
    ensures Midway(P, f, base, q, done + [rest[0]], rest[1..], K)
    ensures var w := World(base[p := LevelBlock(P, f, done)], globs, tick, ctors);
            var r := EvClosure(P, n, w, p, rest[0]);
            (&& r.Done? && r.v == q
             && RtDrop(r.w, p) == Some(World(base[q := LevelBlock(P, f, done + [rest[0]])], globs, tick + 1, ctors)))
  {
    hide Good, EvClosure, Drop, DupAll, IsRef, Carries, LevelBlock, AllocatorOk, HasLevels, EvLevel, Spare, AllValues;
    var h := base[p := LevelBlock(P, f, done)];
    var nb := LevelBlock(P, f, done + [rest[0]]);
    OwnLevel(P, f, base, p, done);
    LevelRuns(P, n, f, World(h, globs, tick, ctors), p, done, rest[0]);
    LevelCarries(P, f, done + [rest[0]]);
    q := AfterDups(P, base, p, LevelBlock(P, f, done), done, rest, K, tick);
    ClosureMove(base, p, LevelBlock(P, f, done), nb, done, rest, K, q);
    LevelBuilds(P, n, f, World(h, globs, tick, ctors), done, rest[0], DupAll(h, done).heap);
  }

  lemma {:induction false} LevelBuilds(P: Prog, n: nat, f: string, w: World, done: seq<Word>, arg: Word, h1: Heap)
    requires HasLevels(P, f) && |done| + 1 < |P.defs[f].params| < MAX_WORDS - 3 && DupAll(w.heap, done) == Ok(h1)
    ensures var q := P.newAt(w.tick, h1);
            var w2 := w.(heap := h1[q := LevelBlock(P, f, done + [arg])], tick := w.tick + 1);
            EvLevel(P, n, w, f, |done| + 1, done, arg) == Done(q, w2)
  {
    hide DupAll, LastLevel, RtDrop, DupOwned;
    assert LevelAt(P, f, |done| + 2);
    var q := P.newAt(w.tick, h1);
    var words := [P.addr[SLevel(f, |done| + 2)], |done| + 1] + done + [arg];
    assert words == [P.addr[SLevel(f, |done| + 2)], |done| + 1] + (done + [arg]);
    assert h1[q := RawBlock(|words| + 1)][q := Block(1, T_CLOSURE, words)] == h1[q := Block(1, T_CLOSURE, words)];
  }

  // The levels below the last: ApplyAll comes to the last closure, which holds
  // every argument but one.
  lemma {:induction false} LevelsReach(P: Prog, n: nat, f: string, base: Heap, p: Word, done: seq<Word>,
                                       rest: seq<Word>, K: multiset<Word>, globs: seq<Word>, tick: int,
                                       ctors: map<int, nat>)
    returns (q: Word)
    requires AllocatorOk(P) && Midway(P, f, base, p, done, rest, K)
    ensures var all := done + rest; var held, last := all[..|all| - 1], all[|all| - 1];
            && Midway(P, f, base, q, held, [last], K)
            && ApplyAll(P, n, World(base[p := LevelBlock(P, f, done)], globs, tick, ctors), p, rest)
            == ApplyAll(P, n, World(base[q := LevelBlock(P, f, held)], globs, tick + |rest| - 1, ctors), q, [last])
    decreases |rest|
  {
    hide Good, EvClosure, RtDrop, IsRef, LevelBlock, HasLevels, AllocatorOk, AllValues, Spare;
    if |rest| == 1 {
      q := p;
      assert (done + rest)[..|done + rest| - 1] == done && [rest[0]] == rest;
    } else {
      var p1 := LevelStep(P, n, f, base, p, done, rest, K, globs, tick, ctors);
      q := LevelsReach(P, n, f, base, p1, done + [rest[0]], rest[1..], K, globs, tick + 1, ctors);
      assert (done + [rest[0]]) + rest[1..] == done + rest;
    }
  }

  // The end of the last level: a lent last argument is still owned by it.
  ghost function LevelEnd(r: Res, lent: bool, last: Word): Res {
    match r
    case Stop(why) => Stop(why)
    case Done(v, w) => match if lent then RtDrop(w, last) else Some(w) case None => Stop(Corrupt)
        case Some(w1) => Done(v, w1)
  }

  // And then the drop of its closure.
  ghost function Finish(r: Res, lent: bool, last: Word, q: Word): Res {
    match LevelEnd(r, lent, last)
    case Stop(why) => Stop(why)
    case Done(v, w1) => match RtDrop(w1, q) case None => Stop(Corrupt) case Some(w2) => Done(v, w2)
  }

  // Where the direct entry starts when it is reached through the levels: the
  // owned arguments the last closure holds are dup'd.
  ghost function Entered(w: World, held: seq<Word>, modes: seq<bool>): World {
    match DupOwned(w.heap, held, modes, 0) case Fault => w case Ok(h) => w.(heap := h)
  }

  // The direct call, at the depth at which the last level makes it.
  ghost function Entry(P: Prog, n: nat, f: string, w: World, held: seq<Word>, last: Word): Res {
    var d := AtKey(P.defs, f);
    EvDirect(P, if d.direct && n > 0 then n - 1 else n, Entered(w, held, d.modes), f, held + [last])
  }

  // The last level is the direct entry.
  lemma {:induction false} LastLevelIs(P: Prog, n: nat, f: string, w: World, held: seq<Word>, last: Word)
    requires f in P.defs && |held| + 1 == |P.defs[f].params| && n > 0 && DupOwned(w.heap, held, P.defs[f].modes, 0).Ok?
    ensures EvLevel(P, n, w, f, |held| + 1, held, last)
         == LevelEnd(Entry(P, n, f, w, held, last), !Mode(P.defs[f].modes, |held|), last)
  {
    hide EvDirect, RtDrop, DupOwned, Mode;
    var d := P.defs[f];
    assert LastLevel(P, n, Entered(w, held, P.defs[f].modes), f, held + [last]) == Entry(P, n, f, w, held, last);
  }

  lemma {:induction false} LastRuns(P: Prog, n: nat, f: string, w: World, q: Word, held: seq<Word>, last: Word)
    requires HasLevels(P, f) && |held| + 1 == |P.defs[f].params| && AtLevel(P, f, w.heap, q, held) && n > 0
    requires DupOwned(w.heap, held, P.defs[f].modes, 0).Ok?
    ensures ApplyAll(P, n, w, q, [last])
        == Finish(Entry(P, n, f, w, held, last), !Mode(P.defs[f].modes, |held|), last, q)
  {
    hide EvLevel, LevelBlock, LevelAt, EvClosure, RtDrop, DupOwned, Mode, Entry, LevelEnd, AtLevel;
    LevelRuns(P, n, f, w, q, held, last);
    LastLevelIs(P, n, f, w, held, last);
    var r := EvClosure(P, n, w, q, last);
    assert [last][1..] == [];
    if r.Done? && RtDrop(r.w, q).Some? {
      var w2 := RtDrop(r.w, q).value;
      assert ApplyAll(P, n, w2, r.v, []) == Done(r.v, w2);
    }
  }

  // Currying is calling: applying the first level's closure to all arguments
  // of f, one at a time, is the direct entry on the same arguments in the same
  // order, and at the end no closure is left, every other value reachable from
  // the roots is as it was, and exactly one reference of each argument is gone.
  lemma {:induction false} CurriedIsDirect(P: Prog, n: nat, f: string, base: Heap, clo: Word, vs: seq<Word>,
                                           K: multiset<Word>, globs: seq<Word>, tick: int, ctors: map<int, nat>)
    returns (q: Word)
    requires Setting(P) && n > 0 && Midway(P, f, base, clo, [], vs, K)
    requires WorldOk(P, K, World(base[clo := LevelBlock(P, f, [])], globs, tick, ctors))
    ensures var w := World(base[clo := LevelBlock(P, f, [])], globs, tick, ctors);
            var k, held := |vs| - 1, vs[..|vs| - 1];
            var w1 := World(base[q := LevelBlock(P, f, held)], globs, tick + k, ctors);
            && q !in base && DupOwned(w1.heap, held, P.defs[f].modes, 0).Ok?
            && ApplyAll(P, n, w, clo, vs) == Finish(Entry(P, n, f, w1, held, vs[k]), !Mode(P.defs[f].modes, k),
               vs[k], q)
            && Owned(K, w, ApplyAll(P, n, w, clo, vs))
  {
    hide RtDrop, IsRef, LevelBlock, LevelAt, AllocatorOk, AllValues, Spare, WorldOk, Good, ProgOwned, Owned;
    hide ApplyAll, DupOwned, Entry;
    var k, held := |vs| - 1, vs[..|vs| - 1];
    assert [] + vs == vs && held + [vs[k]] == vs;
    q := LevelsReach(P, n, f, base, clo, [], vs, K, globs, tick, ctors);
    LastDups(P, f, base, q, held, vs[k], K);
    OwnLevel(P, f, base, q, held);
    LastRuns(P, n, f, World(base[q := LevelBlock(P, f, held)], globs, tick + k, ctors), q, held, vs[k]);
    var w := World(base[clo := LevelBlock(P, f, [])], globs, tick, ctors);
    ClosureValues(P, f, base, clo, vs);
    ApplyAllOwned(P, n, K, w, clo, vs);
  }

  // ---------- from a shared closure ----------

  // The first closure is borrowed, as from its global slot, and not dropped.
  ghost function ApplyShared(P: Prog, n: nat, w: World, clo: Word, vs: seq<Word>): Res {
    if vs == [] then Done(clo, w)
    else match EvClosure(P, n, w, clo, vs[0])
      case Stop(why) => Stop(why)
      case Done(v, w1) => ApplyAll(P, n, w1, v, vs[1..])
  }

  // Whatever the closure is, and however many own it: the arguments are spent
  // and nothing else.
  lemma {:induction false} SharedOwned(P: Prog, n: nat, K: multiset<Word>, w: World, clo: Word, vs: seq<Word>)
    requires Setting(P) && WorldOk(P, K, w) && Good(w.heap, K + multiset(vs)) && Under(w.heap, K, clo) && vs != []
    requires forall i :: 0 <= i < |vs| ==> LiveVal(w.heap, vs[i])
    ensures Owned(K, w, ApplyShared(P, n, w, clo, vs))
  {
    hide Good, Kept, LiveVal, Owned, WorldOk, Setting, EvClosure, Under, ApplyAll;
    var later := K + multiset(vs[1..]);
    assert vs == [vs[0]] + vs[1..];
    assert K + multiset(vs) == later + multiset{vs[0]};
    WorldMono(P, K, later, w);
    UnderMono(w.heap, K, later, clo);
    ClosureOwned(P, n, later, w, clo, vs[0]);
    var r := EvClosure(P, n, w, clo, vs[0]);
    StopsAlike(later, K, w, r);
    if r.Done? {
      OwnedParts(later, w, r);
      assert later + multiset{r.v} == K + multiset{r.v} + multiset(vs[1..]);
      KeptMono(K, later, w.heap, r.w.heap);
      WorldKept(P, K, w, r.w);
      forall i | 0 <= i < |vs[1..]| ensures LiveVal(r.w.heap, vs[1..][i]) {
        assert vs[1..][i] in later;
        RootKept(w.heap, r.w.heap, later, vs[1..][i]);
      }
      ApplyAllOwned(P, n, K, r.w, r.v, vs[1..]);
      Then(K, w, r.w, ApplyAll(P, n, r.w, r.v, vs[1..]));
    }
  }

  // The closure at clo waits for rest; its owners are among what K reaches.
  ghost predicate Waiting(P: Prog, f: string, h: Heap, clo: Word, done: seq<Word>, rest: seq<Word>, K: multiset<Word>) {
    && HasLevels(P, f) && |done| + |rest| == |P.defs[f].params| && rest != [] && |done| + |rest| < MAX_WORDS - 3
    && AtLevel(P, f, h, clo, done) && AllValues(h, done + rest) && Spare(h, 2 * |done| + |rest|)
    && Good(h, K + multiset(rest))
  }

  // The first step, when it is not the last: the closure stays, and a new one
  // holds copies of its arguments and one argument more.
  lemma {:induction false} SharedStep(P: Prog, n: nat, f: string, w: World, clo: Word, done: seq<Word>,
                                      rest: seq<Word>, K: multiset<Word>)
    returns (q: Word)
    requires AllocatorOk(P) && Waiting(P, f, w.heap, clo, done, rest, K) && |rest| > 1
    ensures DupAll(w.heap, done).Ok? && SameBlocks(DupAll(w.heap, done).heap, w.heap)
    ensures var base := DupAll(w.heap, done).heap;
            && Midway(P, f, base, q, done + [rest[0]], rest[1..], K)
            && EvClosure(P, n, w, clo, rest[0])
               == Done(q, w.(heap := base[q := LevelBlock(P, f, done + [rest[0]])], tick := w.tick + 1))
  {
    hide Good, EvClosure, DupAll, IsRef, Carries, LevelBlock, AllocatorOk, LevelAt, AtLevel, EvLevel, Spare, AllValues;
    var nb := LevelBlock(P, f, done + [rest[0]]);
    LevelRuns(P, n, f, w, clo, done, rest[0]);
    LevelCarries(P, f, done + [rest[0]]);
    q := SharedFresh(P, w.heap, done, rest, K, w.tick);
    SharedMove(w.heap, nb, done, rest, K, q);
    LevelBuilds(P, n, f, w, done, rest[0], DupAll(w.heap, done).heap);
  }

  // Currying from a shared closure, such as the one in f's global slot: the
  // result is the direct entry on all arguments in order, the closures made on
  // the way are gone, and the shared one is as it was.
  lemma {:induction false} SharedIsDirect(P: Prog, n: nat, f: string, w: World, clo: Word, done: seq<Word>,
                                          rest: seq<Word>, K: multiset<Word>) returns (q: Word)
    requires Setting(P) && n > 0 && Waiting(P, f, w.heap, clo, done, rest, K) && WorldOk(P, K, w)
    requires Under(w.heap, K, clo)
    ensures var all := done + rest; var k := |all| - 1; var held, lent := all[..k], !Mode(P.defs[f].modes, k);
            && (|rest| == 1 ==> DupOwned(w.heap, done, P.defs[f].modes, 0).Ok?
                                && ApplyShared(P, n, w, clo, rest)
                                   == LevelEnd(Entry(P, n, f, w, done, all[k]), lent, all[k]))
            && (|rest| > 1 ==>
                  DupAll(w.heap, done).Ok? && SameBlocks(DupAll(w.heap, done).heap, w.heap)
                  && var base := DupAll(w.heap, done).heap;
                  var w1 := w.(heap := base[q := LevelBlock(P, f, held)], tick := w.tick + |rest| - 1);
                  && q !in base && DupOwned(w1.heap, held, P.defs[f].modes, 0).Ok?
                  && ApplyShared(P, n, w, clo, rest) == Finish(Entry(P, n, f, w1, held, all[k]), lent, all[k], q))
            && Owned(K, w, ApplyShared(P, n, w, clo, rest))
  {
    hide RtDrop, IsRef, LevelBlock, LevelAt, AtLevel, AllocatorOk, AllValues, Spare, WorldOk, Good, ProgOwned;
    hide Owned, ApplyAll, DupOwned, Entry, Under, EvClosure, DupAll, SameBlocks, LevelEnd, Finish, Mode;
    var all := done + rest;
    var k, held := |all| - 1, all[..|all| - 1];
    SharedValues(w.heap, done, rest);
    SharedOwned(P, n, K, w, clo, rest);
    if |rest| == 1 {
      q := clo;
      assert held == done && all[k] == rest[0] && rest == [rest[0]] && k == |done|;
      SharedLast(P, n, f, w, clo, done, rest[0]);
    } else {
      var p := SharedStep(P, n, f, w, clo, done, rest, K);
      var base := DupAll(w.heap, done).heap;
      assert (done + [rest[0]]) + rest[1..] == all;
      q := LevelsReach(P, n, f, base, p, done + [rest[0]], rest[1..], K, w.globs, w.tick + 1, w.ctors);
      assert held + [all[k]] == all;
      assert ApplyShared(P, n, w, clo, rest)
          == ApplyAll(P, n, w.(heap := base[p := LevelBlock(P, f, done + [rest[0]])], tick := w.tick + 1), p,
              rest[1..]);
      assert w.tick + 1 + |rest[1..]| - 1 == w.tick + |rest| - 1;
      LastDups(P, f, base, q, held, all[k], K);
      OwnLevel(P, f, base, q, held);
      LastRuns(P, n, f, w.(heap := base[q := LevelBlock(P, f, held)], tick := w.tick + |rest| - 1), q, held, all[k]);
    }
  }

  lemma {:induction false} SharedValues(h: Heap, done: seq<Word>, rest: seq<Word>)
    requires AllValues(h, done + rest)
    ensures forall i :: 0 <= i < |rest| ==> LiveVal(h, rest[i])
    ensures forall i :: 0 <= i < |done| ==> LiveVal(h, done[i])
  {
    hide LiveVal;
    forall i | 0 <= i < |rest| ensures LiveVal(h, rest[i]) { assert (done + rest)[|done| + i] == rest[i]; }
    forall i | 0 <= i < |done| ensures LiveVal(h, done[i]) { assert (done + rest)[i] == done[i]; }
  }

  lemma {:induction false} SharedLast(P: Prog, n: nat, f: string, w: World, clo: Word, done: seq<Word>, last: Word)
    requires HasLevels(P, f) && |done| + 1 == |P.defs[f].params| && AtLevel(P, f, w.heap, clo, done) && n > 0
    requires forall i :: 0 <= i < |done| ==> LiveVal(w.heap, done[i])
    ensures DupOwned(w.heap, done, P.defs[f].modes, 0).Ok?
    ensures ApplyShared(P, n, w, clo, [last])
         == LevelEnd(Entry(P, n, f, w, done, last), !Mode(P.defs[f].modes, |done|), last)
  {
    hide EvLevel, LevelBlock, LevelAt, EvClosure, RtDrop, DupOwned, Mode, Entry, LevelEnd, AtLevel, IsRef;
    DupsGo(w.heap, done, P.defs[f].modes, 0);
    LevelRuns(P, n, f, w, clo, done, last);
    LastLevelIs(P, n, f, w, done, last);
    assert [last][1..] == [];
    var r := EvClosure(P, n, w, clo, last);
    if r.Done? { assert ApplyAll(P, n, r.w, r.v, []) == r; }
  }

  lemma {:induction false} LastDups(P: Prog, f: string, base: Heap, q: Word, held: seq<Word>, last: Word,
                                    K: multiset<Word>)
    requires Midway(P, f, base, q, held, [last], K)
    ensures DupOwned(base[q := LevelBlock(P, f, held)], held, P.defs[f].modes, 0).Ok?
  {
    hide Exact, Acyclic, NoRawKids, IsRef, LevelBlock, LevelAt, Spare, DupOwned;
    var h := base[q := LevelBlock(P, f, held)];
    forall i | 0 <= i < |held| ensures LiveVal(h, held[i]) { assert (held + [last])[i] == held[i]; }
    DupsGo(h, held, P.defs[f].modes, 0);
  }

  lemma {:induction false} DupsGo(h: Heap, vs: seq<Word>, modes: seq<bool>, i: nat)
    requires forall j :: 0 <= j < |vs| && IsRef(vs[j]) ==> vs[j] in h
    ensures DupOwned(h, vs, modes, i).Ok?
    decreases |vs| - i
  {
    if i < |vs| {
      DupsGo(h, vs, modes, i + 1);
      if Mode(modes, i) { DupsGo(Dup(h, vs[i]).heap, vs, modes, i + 1); }
    }
  }

  lemma {:induction false} ClosureValues(P: Prog, f: string, base: Heap, clo: Word, vs: seq<Word>)
    requires HasLevels(P, f) && 0 < |P.defs[f].params| && clo !in base && AllValues(base, [] + vs)
    ensures var h := base[clo := LevelBlock(P, f, [])];
            LiveVal(h, clo) && forall i :: 0 <= i < |vs| ==> LiveVal(h, vs[i])
  {
    hide HasLevels;
    assert [] + vs == vs;
  }

  // ---------- the same from a direct call ----------

  // The arguments that stay with the caller.
  function Lent(vs: seq<Word>, modes: seq<bool>): seq<Word> {
    if vs == [] then [] else (if Flag(modes) then [] else [vs[0]]) + Lent(vs[1..], Later(modes))
  }

  lemma {:induction false} TakenLent(vs: seq<Word>, modes: seq<bool>)
    ensures multiset(Taken(vs, modes)) + multiset(Lent(vs, modes)) == multiset(vs)
  {
    if vs != [] {
      hide Taken, Lent;
      var v, t, l := vs[0], Taken(vs[1..], Later(modes)), Lent(vs[1..], Later(modes));
      TakenLent(vs[1..], Later(modes));
      assert vs == [v] + vs[1..];
      assert multiset(vs) == multiset{v} + multiset(vs[1..]);
      SplitOne(vs, modes);
      assert multiset([v] + t) == multiset{v} + multiset(t) && multiset([v] + l) == multiset{v} + multiset(l);
    }
  }

  lemma {:induction false} SplitOne(vs: seq<Word>, modes: seq<bool>)
    requires vs != []
    ensures var t, l := Taken(vs[1..], Later(modes)), Lent(vs[1..], Later(modes));
            && Taken(vs, modes) == (if Flag(modes) then [vs[0]] + t else t)
            && Lent(vs, modes) == if Flag(modes) then l else [vs[0]] + l
  {
    var t, l := Taken(vs[1..], Later(modes)), Lent(vs[1..], Later(modes));
    assert [] + t == t && [] + l == l;
  }

  lemma {:induction false} LentAt(vs: seq<Word>, modes: seq<bool>, i: nat)
    requires i < |vs| && !FlagAt(modes, i)
    ensures vs[i] in Lent(vs, modes)
    decreases |vs|
  {
    if i > 0 { LentAt(vs[1..], Later(modes), i - 1); }
  }

  ghost function DropEach(r: Res, vs: seq<Word>): Res
    decreases |vs|
  {
    if r.Stop? || vs == [] then r
    else match RtDrop(r.w, vs[0])
      case None => Stop(Corrupt)
      case Some(w1) => DropEach(Done(r.v, w1), vs[1..])
  }

  lemma {:induction false} DropEachOwned(K: multiset<Word>, w: World, r: Res, vs: seq<Word>)
    requires Owned(K + multiset(vs), w, r) && forall i :: 0 <= i < |vs| ==> LiveVal(w.heap, vs[i])
    ensures Owned(K, w, DropEach(r, vs))
    decreases |vs|
  {
    hide Owned, RtDrop, LiveVal;
    if vs == [] || r.Stop? {
      StopsAlike(K + multiset(vs), K, w, r);
      assert vs == [] ==> K + multiset(vs) == K;
    } else {
      assert vs == [vs[0]] + vs[1..];
      assert K + multiset(vs) == K + multiset(vs[1..]) + multiset{vs[0]};
      ThenDrop(K + multiset(vs[1..]), w, vs[0], r);
      DropEachOwned(K, w, Done(r.v, RtDrop(r.w, vs[0]).value), vs[1..]);
    }
  }

  // A caller of the direct entry that drops the lent arguments afterwards has
  // spent the same: one reference of each argument.
  lemma {:induction false} DirectSpends(P: Prog, n: nat, K: multiset<Word>, w: World, f: string, vs: seq<Word>)
    requires Setting(P) && WorldOk(P, K, w) && f in P.defs && |vs| == |AtKey(P.defs, f).params|
    requires Good(w.heap, K + multiset(vs)) && AllValues(w.heap, vs)
    ensures Owned(K, w, DropEach(EvDirect(P, n, w, f, vs), Lent(vs, AtKey(P.defs, f).modes)))
  {
    hide Good, Kept, LiveVal, Owned, WorldOk, EvDirect, RtDrop, Under, ValsOk, Taken, Lent, AllocatorOk, ProgOwned;
    var modes := P.defs[f].modes;
    var lent := Lent(vs, modes);
    TakenLent(vs, modes);
    var K1 := K + multiset(lent);
    assert K1 + multiset(Taken(vs, modes)) == K + multiset(vs);
    forall i | 0 <= i < |vs| ensures LiveVal(w.heap, vs[i]) && (FlagAt(modes, i) || Under(w.heap, K1, vs[i])) {
      if !FlagAt(modes, i) {
        LentAt(vs, modes, i);
        RootUnder(w.heap, K1, vs[i]);
      }
    }
    ValsFrom(w.heap, K1, vs, modes);
    WorldMono(P, K, K1, w);
    DirectOwned(P, n, K1, w, f, vs);
    forall i | 0 <= i < |lent| ensures LiveVal(w.heap, lent[i]) { LentIn(vs, modes, lent[i]); }
    DropEachOwned(K, w, EvDirect(P, n, w, f, vs), lent);
  }

  lemma {:induction false} LentIn(vs: seq<Word>, modes: seq<bool>, v: Word)
    requires v in Lent(vs, modes)
    ensures exists i :: 0 <= i < |vs| && vs[i] == v
  {
    TakenLent(vs, modes);
    assert v in multiset(vs);
  }
}

// A whole run of a well-owned program: start-up, main, shutdown.
module OwnershipWhole {
  import opened Types
  import opened RcHeap
  import opened Trampoline
  import opened Oir
  import opened HeapSteps
  import opened Ownership
  import opened OwnershipFrame
  import opened OwnershipSteps
  import opened OwnershipSound
  import opened OwnershipRun
  import opened StartSteps
  import RcRuntime

  // ---------- the invariant between steps ----------

  // The table holds exactly one reference per entry, and nothing else does.
  ghost predicate Settled(P: Prog, w: World) {
    WorldOk(P, multiset(w.globs), w) && Good(w.heap, multiset(w.globs))
  }

  ghost predicate RunOk(P: Prog, w: World, r: Run) {
    && r != Halted(Corrupt)
    && (r.Ran? ==> Settled(P, r.w) && |r.w.globs| == |w.globs| && Kept(multiset{}, w.heap, r.w.heap))
  }

  // Static data: immortal blocks without children.
  ghost predicate Statics(P: Prog, h: Heap) {
    && Good(h, multiset{}) && StaticsIn(P, h)
    && forall p :: p in h ==> h[p].rc == RC_IMMORTAL && h[p].tag != T_RAW && Kids(p, h[p]) == []
  }

  lemma {:induction false} StartSettled(P: Prog, w: World)
    requires Statics(P, w.heap) && forall i :: 0 <= i < |w.globs| ==> w.globs[i] == 0
    ensures Settled(P, w)
  {
    hide Kids, Acyclic, From, Refs;
    forall v | v in multiset(w.globs) ensures v == 0 { }
    RootsExt(w.heap, multiset{}, multiset(w.globs), multiset{});
  }

  lemma {:induction false} ThunkOwned(P: Prog, n: nat, K: multiset<Word>, w: World, f: string)
    requires Setting(P) && WorldOk(P, K, w) && Good(w.heap, K)
    ensures Owned(K, w, Thunk(P, n, w, f))
  {
    hide Good, WorldOk, Owned, Ev, Build, Kept, AllocatorOk, WellOwned, Movable, Frame;
    StopOwned(K, w, Stuck);
    if f in P.defs && f in P.base {
      var d := P.defs[f];
      assert DefOwned(P, d);
      if d.params == [] {
        EmptyFrame(P, K, w);
        EmptyCtx(P, d);
        ExprOwned(P, n, BodyPt(P, f), K, Ctx(multiset{}, map[], {}), map[], w, d.body);
      } else if SLevel(f, 1) in P.addr {
        FreshClosure(P, K, w, [P.addr[SLevel(f, 1)], 0], []);
      }
    }
  }

  lemma {:induction false} EmptyFrame(P: Prog, K: multiset<Word>, w: World)
    requires WorldOk(P, K, w) && Good(w.heap, K)
    ensures Frame(P, K, multiset{}, Ctx(multiset{}, map[], {}), map[], w)
  {
    hide Good, WorldOk;
    ValuesOne(map[], "");
    var c := Ctx(multiset{}, map[], {});
    assert multiset(c.toks) == multiset{};
    assert K + multiset{} + Held(map[], c) == K;
  }

  lemma {:induction false} EmptyCtx(P: Prog, d: ODef)
    requires DefOwned(P, d) && d.params == []
    ensures WellOwned(P, Ctx(multiset{}, map[], {}), d.body)
  {
    hide WellOwned;
    assert AllLent([]) == map[];
    assert multiset(OfMode([], [], true)) == multiset{};
  }

  lemma {:induction false} FreshClosure(P: Prog, K: multiset<Word>, w: World, words: seq<Word>, plain: seq<Word>)
    requires AllocatorOk(P) && Good(w.heap, K) && |words| >= 2 && words[2..] == plain
    requires forall v :: v in plain ==> !IsRef(v)
    ensures Owned(K, w, Build(P, w, T_CLOSURE, words))
  {
    hide Good, Owned, Build, IsRef;
    var p, b := P.newAt(w.tick, w.heap), Block(1, T_CLOSURE, words);
    NoRefsIn(p, plain);
    assert K + multiset{} == K;
    PlaceOwned(P, K, w, T_CLOSURE, words, multiset{});
  }

  lemma {:induction false} NoRefsIn(p: Word, ws: seq<Word>)
    requires forall v :: v in ws ==> !IsRef(v)
    ensures RefsIn(p, ws) == []
  {
    if ws != [] { NoRefsIn(p, ws[1..]); }
  }

  lemma {:induction false} InitOwned(P: Prog, n: nat, w: World, s: Init)
    requires Setting(P) && Settled(P, w)
    ensures Owned(multiset(w.globs), w, InitValue(P, n, w, s))
  {
    hide Good, WorldOk, Owned, Build, ProgOwned, AllocatorOk, Thunk;
    match s
    case IRegister(_, _) => StopOwned(multiset(w.globs), w, Stuck);
    case IBuiltin(idx, _) =>
      FreshClosure(P, multiset(w.globs), w, BiStepWords(idx, []), [MkInt(idx), MkInt(0)]);
    case ICtor(cid, _) =>
      FreshClosure(P, multiset(w.globs), w, StepWords(cid, []), [MkInt(cid), MkInt(0)]);
    case IThunk(f, _) => ThunkOwned(P, n, multiset(w.globs), w, f);
  }

  // The table swaps one reference for another.
  lemma {:induction false} GsetOk(P: Prog, w: World, slot: nat, v: Word)
    requires slot < |w.globs| && WorldOk(P, multiset(w.globs), w)
    requires Good(w.heap, multiset(w.globs) + multiset{v}) && LiveVal(w.heap, v)
    ensures RunOk(P, w, Gset(w, slot, v))
  {
    hide Good, WorldOk, LiveVal, Kept, Under, Drop;
    var was, g1 := w.globs[slot], w.globs[slot := v];
    var K := multiset(g1);
    RcRuntime.SwapRoot(w.globs, slot, v);
    assert multiset(w.globs) + multiset{v} == K + multiset{was};
    EntriesLive(P, w);
    StaticsOf(P, multiset(w.globs), w);
    forall i | 0 <= i < |g1| ensures LiveVal(w.heap, g1[i]) { }
    KeptSame(K, w.heap);
    KeptSame(multiset{}, w.heap);
    if was == 0 {
      ZeroGood(w.heap, K);
      EntriesOk(P, w, w.heap, w.tick, g1);
    } else {
      DropGood(w.heap, was, K);
      var h1 := Drop(w.heap, was).heap;
      EntriesOk(P, w, h1, w.tick, g1);
      assert multiset{} <= K;
      KeptMono(multiset{}, K, w.heap, h1);
    }
  }

  lemma {:induction false} EntriesLive(P: Prog, w: World)
    requires WorldOk(P, multiset(w.globs), w)
    ensures forall i :: 0 <= i < |w.globs| ==> LiveVal(w.heap, w.globs[i])
  {
    hide From;
    forall i | 0 <= i < |w.globs| ensures LiveVal(w.heap, w.globs[i]) {
      assert Under(w.heap, multiset(w.globs), w.globs[i]);
    }
  }

  lemma {:induction false} EntriesOk(P: Prog, w: World, h1: Heap, tick: int, globs: seq<Word>)
    requires StaticsIn(P, w.heap)
    requires Kept(multiset(globs), w.heap, h1) && forall i :: 0 <= i < |globs| ==> LiveVal(w.heap, globs[i])
    ensures WorldOk(P, multiset(globs), World(h1, globs, tick, w.ctors))
  {
    hide LiveVal, Kept, Static;
    var K := multiset(globs);
    forall s | s in P.addr && !IsCode(s) ensures Static(h1, P.addr[s]) { StaticKept(w.heap, h1, K, P.addr[s]); }
    forall i | 0 <= i < |globs| ensures Under(h1, K, globs[i]) {
      assert globs[i] in K;
      RootKept(w.heap, h1, K, globs[i]);
      RootUnder(h1, K, globs[i]);
    }
  }

  lemma {:induction false} InitSafe(P: Prog, n: nat, w: World, steps: seq<Init>)
    requires Setting(P) && Settled(P, w)
    ensures RunOk(P, w, RunInit(P, n, w, steps))
    decreases |steps|
  {
    hide Settled, Setting, RunStep, Kept;
    KeptSame(multiset{}, w.heap);
    if steps != [] {
      StepSafe(P, n, w, steps[0]);
      var r := RunStep(P, n, w, steps[0]);
      if r.Ran? {
        InitSafe(P, n, r.w, steps[1..]);
        var r1 := RunInit(P, n, r.w, steps[1..]);
        if r1.Ran? { KeptTrans(multiset{}, w.heap, r.w.heap, r1.w.heap); }
      }
    }
  }

  lemma {:induction false} StepSafe(P: Prog, n: nat, w: World, s: Init)
    requires Setting(P) && Settled(P, w)
    ensures RunOk(P, w, RunStep(P, n, w, s))
  {
    hide Setting, InitValue, Gset, Kept, Good, LiveVal;
    if s.IRegister? {
      KeptSame(multiset{}, w.heap);
    } else if s.slot < |w.globs| {
      InitOwned(P, n, w, s);
      match InitValue(P, n, w, s)
      case Stop(why) =>
      case Done(v, w1) =>
        var K := multiset(w.globs);
        WorldKept(P, K, w, w1);
        GsetOk(P, w1, s.slot, v);
        var r := Gset(w1, s.slot, v);
        assert multiset{} <= K;
        KeptMono(multiset{}, K, w.heap, w1.heap);
        if r.Ran? { KeptTrans(multiset{}, w.heap, w1.heap, r.w.heap); }
    }
  }

  lemma {:induction false} MainSafe(P: Prog, n: nat, w: World)
    requires Setting(P) && Settled(P, w)
    ensures RunOk(P, w, RunMain(P, n, w))
  {
    hide Setting, Kept, Good, LiveVal, Drop, EvClosure, Under, Static;
    KeptSame(multiset{}, w.heap);
    var K := multiset(w.globs);
    if "main" in P.slots && P.slots["main"] < |w.globs| && SUnit in P.addr {
      var m, unit := w.globs[P.slots["main"]], P.addr[SUnit];
      assert Static(w.heap, unit);
      UnitGood(w.heap, unit, K);
      assert Under(w.heap, K, m);
      ClosureOwned(P, n, K, w, m, unit);
      var r := EvClosure(P, n, w, m, unit);
      if r.Done? { MainDrop(P, K, w, r); }
    }
  }

  lemma {:induction false} UnitGood(h: Heap, v: Word, roots: multiset<Word>)
    requires Good(h, roots) && Static(h, v)
    ensures Good(h, roots + multiset{v}) && LiveVal(h, v)
  {
    hide Good;
    StaticGood(h, v, roots);
  }

  lemma {:induction false} MainDrop(P: Prog, K: multiset<Word>, w: World, r: Res)
    requires K == multiset(w.globs) && WorldOk(P, K, w) && Owned(K, w, r) && r.Done?
    ensures RtDrop(r.w, r.v).Some? && RunOk(P, w, Ran(RtDrop(r.w, r.v).value))
  {
    hide Kept, Good, LiveVal, Drop, WorldOk;
    DropGood(r.w.heap, r.v, K);
    var w2 := RtDrop(r.w, r.v).value;
    KeptTrans(K, w.heap, r.w.heap, w2.heap);
    WorldKept(P, K, w, w2);
    assert multiset{} <= K;
    KeptMono(multiset{}, K, w.heap, w2.heap);
  }

  // ---------- the theorems ----------

  // From static data and an empty table, no run of a well-owned program
  // touches a dead block or underflows; if it ends, every count is exact and
  // the table holds all that is left.
  lemma {:induction false} ProgramSafe(P: Prog, n: nat, w: World, steps: seq<Init>)
    requires Setting(P) && Statics(P, w.heap) && forall i :: 0 <= i < |w.globs| ==> w.globs[i] == 0
    ensures RunOk(P, w, RunProgram(P, n, w, steps))
  {
    hide Settled, Setting, Statics, RunInit, RunMain, Kept;
    StartSettled(P, w);
    InitSafe(P, n, w, steps);
    var r := RunInit(P, n, w, steps);
    if r.Ran? {
      MainSafe(P, n, r.w);
      var r1 := RunMain(P, n, r.w);
      if r1.Ran? { KeptTrans(multiset{}, w.heap, r.w.heap, r1.w.heap); }
    }
  }

  // Dropping the table then leaves the static data alone, unless a count
  // saturated: everything allocated was freed.
  lemma {:induction false} ProgramClean(P: Prog, n: nat, w: World, steps: seq<Init>)
    requires Setting(P) && Statics(P, w.heap) && forall i :: 0 <= i < |w.globs| ==> w.globs[i] == 0
    requires RunProgram(P, n, w, steps).Ran?
    ensures var w1 := RunProgram(P, n, w, steps).w;
            var o := DropAll(w1.heap, w1.globs);
            && o.Ok?
            && ((forall p :: p in o.heap && o.heap[p].rc == RC_IMMORTAL ==> p in w.heap) ==> o.heap.Keys == w.heap.Keys)
  {
    hide Setting, Kept, Exact, Acyclic, RunProgram, DropAll, StaticsIn, WorldOk, NoRawKids;
    ProgramSafe(P, n, w, steps);
    var w1 := RunProgram(P, n, w, steps).w;
    assert multiset{} + multiset(w1.globs) == multiset(w1.globs);
    DropAllExact(w1.heap, w1.globs, multiset{});
    var h2 := DropAll(w1.heap, w1.globs).heap;
    SubHeapAcyclic(h2, w1.heap);
    if forall p :: p in h2 && h2[p].rc == RC_IMMORTAL ==> p in w.heap {
      StaticsStay(w.heap, w1.heap, h2);
      var dyn := h2.Keys - w.heap.Keys;
      RcRuntime.NothingLeaks(h2, dyn);
      assert h2.Keys == w.heap.Keys;
    }
  }

  lemma {:induction false} StaticsStay(h: Heap, h1: Heap, h2: Heap)
    requires forall p :: p in h ==> h[p].rc == RC_IMMORTAL && Kids(p, h[p]) == []
    requires Kept(multiset{}, h, h1) && SubHeap(h2, h1)
    ensures forall p :: p in h ==> p in h2 && Kids(p, h2[p]) == []
  {
    hide Kids;
    forall p | p in h ensures p in h2 && Kids(p, h2[p]) == [] {
      assert Reach(h, multiset{}, p, 0);
      assert SameAt(h, h1, p);
      SameKids(p, h[p], h2[p]);
    }
  }
}

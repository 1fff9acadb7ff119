// What start-up achieves (gen5/g5_cgdriver.dc): the global table ends up with a
// closure of every built-in, constructor and function, and with the value of
// every other definition in the table left by those before it.
module StartUpTable {
  import opened Types
  import opened RcHeap
  import opened Trampoline
  import opened Oir
  import opened HeapSteps
  import opened Ownership
  import opened OwnershipFrame
  import opened OwnershipSteps
  import opened OwnershipSound
  import opened OwnershipWhole
  import opened StartSteps
  import opened ArityTable
  import opened Curried
  import CurriedBuiltins
  import CurriedCtors

  // ---------- the layout of the table ----------

  // The constructors that take arguments.
  function Tall(P: Prog, ctors: seq<string>): seq<string> {
    if ctors == [] then []
    else (if ctors[0] in P.ar && P.ar[ctors[0]] > 0 then [ctors[0]] else []) + Tall(P, ctors[1..])
  }

  lemma {:induction false} TallIs(P: Prog, ctors: seq<string>)
    ensures forall c :: c in Tall(P, ctors) <==> c in ctors && c in P.ar && P.ar[c] > 0
  {
    if ctors != [] {
      TallIs(P, ctors[1..]);
      assert forall c :: c in ctors <==> c == ctors[0] || c in ctors[1..];
    }
  }

  function DefNames(defs: Defs): (r: seq<string>)
    ensures |r| == |defs| && forall j :: 0 <= j < |defs| ==> r[j] == defs[j].0
  {
    seq(|defs|, j requires 0 <= j < |defs| => defs[j].0)
  }

  // The names with a slot, in the order in which start-up fills them.
  function SlotNames(P: Prog, builtins: seq<string>, ctors: seq<string>, defs: Defs): seq<string> {
    builtins + Tall(P, ctors) + DefNames(defs)
  }

  ghost function Slots(P: Prog, names: seq<string>): (r: seq<nat>)
    ensures |r| == |names| && forall i :: 0 <= i < |names| ==> r[i] == AtKey(P.slots, names[i])
  {
    seq(|names|, i requires 0 <= i < |names| => AtKey(P.slots, names[i]))
  }

  // Every name has a slot of its own in a table of this size.
  ghost predicate SlotsApart(P: Prog, names: seq<string>, size: int) {
    && (forall i :: 0 <= i < |names| ==> names[i] in P.slots && P.slots[names[i]] < size)
    && forall i, j :: 0 <= i < j < |names| ==> AtKey(P.slots, names[i]) != AtKey(P.slots, names[j])
  }

  // The image knows the constructors and the definitions.
  ghost predicate ImageHas(P: Prog, ctors: seq<string>, defs: Defs) {
    && (forall c :: c in ctors ==> c in P.cid && c in P.ar && P.cid[c] < CTORS)
    && (forall c, d :: c in ctors && d in ctors && AtKey(P.cid, c) == AtKey(P.cid, d) ==> c == d)
    && forall d :: d in defs ==> HasDef(P, d)
  }

  predicate HasDef(P: Prog, d: (string, ODef)) {
    d.0 in P.defs && P.defs[d.0] == d.1 && d.0 in P.base && (d.1.params != [] ==> SLevel(d.0, 1) in P.addr)
  }

  // ---------- the generator's numbering ----------

  // Consecutive numbers from i on; of equal names the first is found.
  function Numbered(names: seq<string>, i: nat): map<string, nat> {
    if names == [] then map[] else Numbered(names[1..], i + 1)[names[0] := i]
  }

  predicate AllDistinct(names: seq<string>) { forall i, j :: 0 <= i < j < |names| ==> names[i] != names[j] }

  lemma {:induction false} NumberedIs(names: seq<string>, i: nat)
    ensures forall c :: c in Numbered(names, i) <==> c in names
    ensures forall c :: c in names ==> i <= AtKey(Numbered(names, i), c) < i + |names|
    ensures forall c :: c in names ==> names[AtKey(Numbered(names, i), c) - i] == c
    decreases names
  {
    if names != [] {
      NumberedIs(names[1..], i + 1);
      assert forall c :: c in names <==> c == names[0] || c in names[1..];
    }
  }

  // The layout gives every name a slot of its own exactly when no two names
  // are equal; nullary constructors have none.
  lemma {:induction false} LayoutApart(P: Prog, names: seq<string>)
    requires P.slots == Numbered(names, 0)
    ensures SlotsApart(P, names, |names|) <==> AllDistinct(names)
  {
    NumberedIs(names, 0);
    if AllDistinct(names) {
      forall k | 0 <= k < |names| ensures AtKey(P.slots, names[k]) == k { NumberedAt(names, 0, k); }
    }
  }

  lemma {:induction false} NumberedAt(names: seq<string>, i: nat, k: nat)
    requires AllDistinct(names) && k < |names|
    ensures AtKey(Numbered(names, i), names[k]) == i + k
  {
    NumberedIs(names, i);
    var j := AtKey(Numbered(names, i), names[k]) - i;
    assert names[j] == names[k];
  }

  // Constructors are numbered in the order of their table.
  lemma {:induction false} CtorsNumbered(P: Prog, ctors: seq<string>, defs: Defs)
    requires P.cid == Numbered(ctors, 0) && |ctors| <= CTORS && forall c :: c in ctors ==> c in P.ar
    requires forall d :: d in defs ==> HasDef(P, d)
    ensures ImageHas(P, ctors, defs)
  {
    hide HasDef;
    NumberedIs(ctors, 0);
    forall c | c in ctors ensures P.cid[c] < CTORS { assert AtKey(P.cid, c) == P.cid[c]; }
  }

  // ---------- a filled table ----------

  // The slot holds a closure block of these words.
  predicate Entry(w: World, slot: int, words: seq<Word>) {
    && 0 <= slot < |w.globs| && IsRef(w.globs[slot]) && w.globs[slot] in w.heap
    && w.heap[w.globs[slot]].tag == T_CLOSURE && w.heap[w.globs[slot]].words == words
  }

  ghost predicate BuiltinsFilled(P: Prog, builtins: seq<string>, w: World) {
    forall i :: 0 <= i < |builtins| ==> Entry(w, AtKey(P.slots, builtins[i]), BiStepWords(i, []))
  }

  ghost predicate CtorsFilled(P: Prog, ctors: seq<string>, w: World) {
    forall c :: c in ctors && AtKey(P.ar, c) > 0 ==> Entry(w, AtKey(P.slots, c), StepWords(AtKey(P.cid, c), []))
  }

  ghost predicate AritiesKnown(P: Prog, ctors: seq<string>, w: World) {
    forall c :: c in ctors ==> ArityOf(w, AtKey(P.cid, c)) == AtKey(P.ar, c)
  }

  // Slots outside the list hold nothing.
  predicate Only(w: World, slots: seq<nat>) {
    forall i :: 0 <= i < |w.globs| && i !in slots ==> w.globs[i] == 0
  }

  // In w the slots listed hold what they hold in w1, the others nothing; and
  // all that w's table reaches is unchanged in w1.
  ghost predicate TableUpTo(slots: seq<nat>, w: World, w1: World) {
    && |w.globs| == |w1.globs| && Only(w, slots) && w1.ctors == w.ctors
    && (forall i :: 0 <= i < |w.globs| && i in slots ==> w.globs[i] == w1.globs[i])
    && Kept(multiset(w.globs), w.heap, w1.heap)
  }

  // Evaluating the body of a definition the image has.
  ghost function BodyRun(P: Prog, n: nat, w: World, d: (string, ODef)): Res {
    if HasDef(P, d) then Ev(P, n, BodyPt(P, d.0), map[], w, d.1.body) else Stop(Stuck)
  }

  // A function's slot holds its closure of level 1, which captures nothing; any
  // other definition's what its body evaluates to in the table left by the
  // names before it.
  ghost predicate DefFilled(P: Prog, n: nat, before: seq<string>, d: (string, ODef), w: World) {
    if d.1.params != [] then Entry(w, AtKey(P.slots, d.0), [AtKey(P.addr, SLevel(d.0, 1)), 0])
    else exists w0: World :: TableUpTo(Slots(P, before), w0, w) && Gives(BodyRun(P, n, w0, d), w, AtKey(P.slots, d.0))
  }

  ghost predicate Gives(r: Res, w: World, slot: int) { r.Done? && r.v == AtIndex(w.globs, slot) }

  ghost predicate DefsFilled(P: Prog, n: nat, builtins: seq<string>, ctors: seq<string>, defs: Defs, w: World) {
    && (forall d :: d in defs ==> HasDef(P, d))
    && forall j :: 0 <= j < |defs| ==> DefFilled(P, n, SlotNames(P, builtins, ctors, defs[..j]), defs[j], w)
  }

  ghost predicate TableFull(P: Prog, n: nat, builtins: seq<string>, ctors: seq<string>, defs: Defs, w: World) {
    && AritiesKnown(P, ctors, w) && BuiltinsFilled(P, builtins, w) && CtorsFilled(P, ctors, w)
    && DefsFilled(P, n, builtins, ctors, defs, w)
    && Only(w, Slots(P, SlotNames(P, builtins, ctors, defs)))
  }

  // Definition j is no function, and its body stops in the table filled with
  // all names before it.
  ghost predicate BodyStops(P: Prog, n: nat, builtins: seq<string>, ctors: seq<string>, defs: Defs, j: nat, why: Why)
  {
    && j < |defs| && HasDef(P, defs[j]) && defs[j].1.params == []
    && exists w0: World :: TableFull(P, n, builtins, ctors, defs[..j], w0) && BodyRun(P, n, w0, defs[j]) == Stop(why)
  }

  // ---------- what later steps keep ----------

  lemma {:induction false} ReachSupport(h: Heap, a: multiset<Word>, b: multiset<Word>, p: Word, n: nat)
    requires Reach(h, a, p, n) && forall q :: q in a && q in h ==> q in b
    ensures Reach(h, b, p, n)
    decreases n
  {
    hide Kids;
    if p !in a && h[p].rc != RC_IMMORTAL {
      var q :| q in h && p in Kids(q, h[q]) && Reach(h, a, q, n - 1);
      ReachSupport(h, a, b, q, n - 1);
    }
  }

  // Only entries that are blocks count as roots.
  lemma {:induction false} KeptSupport(h: Heap, h1: Heap, a: multiset<Word>, b: multiset<Word>)
    requires Kept(b, h, h1) && forall q :: q in a && q in h ==> q in b
    ensures Kept(a, h, h1)
  {
    hide SameAt, Reach;
    forall p | p in h && From(h, a, p) ensures SameAt(h, h1, p) {
      var n: nat :| Reach(h, a, p, n);
      ReachSupport(h, a, b, p, n);
      assert From(h, b, p);
    }
  }

  // The table grows from w to w1 and what it reached stays.
  ghost predicate Grown(w: World, w1: World) {
    && w1.ctors == w.ctors && |w.globs| == |w1.globs| && Kept(multiset(w.globs), w.heap, w1.heap)
    && forall i :: 0 <= i < |w.globs| && w.globs[i] != 0 ==> w1.globs[i] == w.globs[i]
  }

  lemma {:induction false} GrownSupport(P: Prog, w: World, w1: World, h: Heap)
    requires Grown(w, w1) && forall p :: p in h ==> IsRef(p)
    ensures forall q :: q in multiset(w.globs) && q in h ==> q in multiset(w1.globs)
  {
    hide Kept;
    forall q | q in multiset(w.globs) && q in h ensures q in multiset(w1.globs) {
      assert q in w.globs && q != 0;
      var i :| 0 <= i < |w.globs| && w.globs[i] == q;
      assert w1.globs[i] == q;
    }
  }

  lemma {:induction false} GrownTrans(P: Prog, w: World, w1: World, w2: World)
    requires Grown(w, w1) && Grown(w1, w2) && Settled(P, w1)
    ensures Grown(w, w2)
  {
    hide Kept, WorldOk, Acyclic, NoRawKids, Refs, Kids, IsRef;
    GrownSupport(P, w, w1, w1.heap);
    KeptSupport(w1.heap, w2.heap, multiset(w.globs), multiset(w1.globs));
    KeptTrans(multiset(w.globs), w.heap, w1.heap, w2.heap);
  }

  lemma {:induction false} EntryKept(w: World, w1: World, slot: nat, words: seq<Word>)
    requires Grown(w, w1) && Entry(w, slot, words)
    ensures Entry(w1, slot, words)
  {
    var v := w.globs[slot];
    assert v in multiset(w.globs);
    assert Reach(w.heap, multiset(w.globs), v, 0);
    assert SameAt(w.heap, w1.heap, v);
  }

  lemma {:induction false} UpToKept(P: Prog, slots: seq<nat>, w0: World, w: World, w1: World)
    requires TableUpTo(slots, w0, w) && Grown(w, w1) && Settled(P, w)
    requires forall i :: 0 <= i < |w.globs| && i in slots ==> w1.globs[i] == w.globs[i]
    ensures TableUpTo(slots, w0, w1)
  {
    hide Kept, WorldOk, Acyclic, NoRawKids, Refs, Kids, IsRef, Settled;
    forall i | 0 <= i < |w0.globs| && w0.globs[i] != 0 ensures w.globs[i] == w0.globs[i] { assert i in slots; }
    assert Grown(w0, w);
    GrownTrans(P, w0, w, w1);
  }

  // ---------- one step ----------

  ghost predicate Blank(w: World, s: Init) { !s.IRegister? && s.slot < |w.globs| && w.globs[s.slot] == 0 }

  // The world after a step that fills an empty slot.
  function Filled(w1: World, slot: int, v: Word): World {
    if 0 <= slot < |w1.globs| then w1.(globs := w1.globs[slot := v]) else w1
  }

  // A step that fills an empty slot ends as its value does, and the table
  // only grows.
  lemma {:induction false} FillStep(P: Prog, n: nat, w: World, s: Init)
    requires Setting(P) && Settled(P, w) && Blank(w, s)
    ensures match InitValue(P, n, w, s)
            case Stop(why) => RunStep(P, n, w, s) == Halted(why)
            case Done(v, w1) =>
              && w1.globs == w.globs && RunStep(P, n, w, s) == Ran(Filled(w1, s.slot, v))
              && Settled(P, Filled(w1, s.slot, v)) && Grown(w, Filled(w1, s.slot, v))
  {
    hide Setting, Settled, InitValue, Kept, Good, LiveVal, Drop;
    ValueKeeps(P, n, w, s);
    StepSafe(P, n, w, s);
    InitOwned(P, n, w, s);
    var r := InitValue(P, n, w, s);
    if r.Done? {
      OwnedTable(w, r);
      assert RtGset(r.w, s.slot, r.v) == Some(Filled(r.w, s.slot, r.v));
    }
  }

  lemma {:induction false} ValueKeeps(P: Prog, n: nat, w: World, s: Init)
    ensures Keeps(w.ctors, InitValue(P, n, w, s))
  {
    hide Build, Ev;
    match s
    case IRegister(_, _) =>
    case IBuiltin(idx, _) => BuildKeeps(P, w, T_CLOSURE, BiStepWords(idx, []));
    case ICtor(cid, _) => BuildKeeps(P, w, T_CLOSURE, StepWords(cid, []));
    case IThunk(f, _) =>
      if f in P.defs && f in P.base {
        EvKeeps(P, n, BodyPt(P, f), map[], w, P.defs[f].body);
        if SLevel(f, 1) in P.addr { BuildKeeps(P, w, T_CLOSURE, [P.addr[SLevel(f, 1)], 0]); }
      }
  }

  lemma {:induction false} OwnedTable(w: World, r: Res)
    requires Owned(multiset(w.globs), w, r) && r.Done?
    ensures r.w.globs == w.globs && Kept(multiset(w.globs), w.heap, r.w.heap)
  {
    hide Kept, Good, LiveVal;
  }

  // A step whose value is a new closure fills its slot with it.
  lemma {:induction false} ClosureStep(P: Prog, n: nat, w: World, s: Init, words: seq<Word>)
    requires Setting(P) && Settled(P, w) && Blank(w, s) && 2 <= |words| <= 4
    requires InitValue(P, n, w, s) == Build(P, w, T_CLOSURE, words)
    ensures var r := RunStep(P, n, w, s);
            && r.Ran? && Settled(P, r.w) && Grown(w, r.w) && Entry(r.w, s.slot, words)
            && forall i :: 0 <= i < |w.globs| && i != s.slot ==> r.w.globs[i] == w.globs[i]
  {
    hide Settled, InitValue, Grown, ProgOwned, IsRef, Kept;
    FillStep(P, n, w, s);
    var p := P.newAt(w.tick, w.heap);
    assert IsRef(p);
    hide AllocatorOk;
    assert Build(P, w, T_CLOSURE, words)
        == Done(p, w.(heap := w.heap[p := RawBlock(|words| + 1)][p := Block(1, T_CLOSURE, words)], tick := w.tick + 1));
  }

  // ---------- built-ins and constructors ----------

  // What a step for a built-in or a constructor puts into its slot.
  function Made(s: Init): seq<Word>
    requires s.IBuiltin? || s.ICtor?
  {
    if s.IBuiltin? then BiStepWords(s.idx, []) else StepWords(s.cid, [])
  }

  ghost predicate Fillable(w: World, steps: seq<Init>) {
    && (forall k :: 0 <= k < |steps| ==> (steps[k].IBuiltin? || steps[k].ICtor?) && Blank(w, steps[k]))
    && forall i, j :: 0 <= i < j < |steps| ==> steps[i].slot != steps[j].slot
  }

  predicate AllMade(w: World, steps: seq<Init>)
    requires forall k :: 0 <= k < |steps| ==> steps[k].IBuiltin? || steps[k].ICtor?
  {
    forall k :: 0 <= k < |steps| ==> Entry(w, steps[k].slot, Made(steps[k]))
  }

  predicate Untouched(w: World, w1: World, steps: seq<Init>)
    requires forall k :: 0 <= k < |steps| ==> !steps[k].IRegister?
  {
    |w.globs| == |w1.globs|
    && forall i :: 0 <= i < |w.globs| && (forall k :: 0 <= k < |steps| ==> steps[k].slot != i) ==>
       w1.globs[i] == w.globs[i]
  }

  lemma {:induction false} ClosuresFill(P: Prog, n: nat, w: World, steps: seq<Init>)
    requires Setting(P) && Settled(P, w) && Fillable(w, steps)
    ensures var r := RunInit(P, n, w, steps);
            && r.Ran? && Settled(P, r.w) && Grown(w, r.w) && AllMade(r.w, steps) && Untouched(w, r.w, steps)
    decreases |steps|
  {
    hide Settled, Setting, RunStep, Grown, Entry, Made, Build;
    if steps == [] {
      GrownSame(w);
    } else {
      var s0 := steps[0];
      MadeValue(P, n, w, s0);
      ClosureStep(P, n, w, s0, Made(s0));
      var w1 := RunStep(P, n, w, s0).w;
      GrownSize(w, w1);
      ClosuresFill(P, n, w1, steps[1..]);
      var w2 := RunInit(P, n, w1, steps[1..]).w;
      GrownTrans(P, w, w1, w2);
      EntryKept(w1, w2, s0.slot, Made(s0));
      forall k | 0 <= k < |steps| ensures Entry(w2, steps[k].slot, Made(steps[k])) {
        if k > 0 { assert steps[1..][k - 1] == steps[k]; }
      }
    }
  }

  lemma {:induction false} GrownSame(w: World)
    ensures Grown(w, w)
  {
    KeptSame(multiset(w.globs), w.heap);
  }

  lemma {:induction false} GrownSize(w: World, w1: World)
    requires Grown(w, w1)
    ensures |w.globs| == |w1.globs|
  {
  }

  lemma {:induction false} MadeValue(P: Prog, n: nat, w: World, s: Init)
    requires s.IBuiltin? || s.ICtor?
    ensures InitValue(P, n, w, s) == Build(P, w, T_CLOSURE, Made(s)) && |Made(s)| == 4
  {
  }

  // ---------- the steps ----------

  lemma {:induction false} RunAppend(P: Prog, n: nat, w: World, a: seq<Init>, b: seq<Init>)
    ensures RunInit(P, n, w, a + b) == match RunInit(P, n, w, a)
              case Halted(why) => Halted(why)
              case Ran(w1) => RunInit(P, n, w1, b)
    decreases |a|
  {
    hide RunStep;
    if a == [] {
      assert a + b == b;
    } else {
      assert (a + b)[0] == a[0] && (a + b)[1..] == a[1..] + b;
      var r := RunStep(P, n, w, a[0]);
      if r.Ran? { RunAppend(P, n, r.w, a[1..], b); }
    }
  }

  lemma {:induction false} BuiltinStepsAre(P: Prog, names: seq<string>, i: nat)
    requires forall k :: 0 <= k < |names| ==> names[k] in P.slots
    ensures var r := BuiltinSteps(P, names, i);
            && r.Some? && |The(r)| == |names|
            && forall k :: 0 <= k < |names| ==> The(r)[k] == IBuiltin(i + k, P.slots[names[k]])
  {
    if names != [] {
      BuiltinStepsAre(P, names[1..], i + 1);
      assert forall k :: 0 < k < |names| ==> names[1..][k - 1] == names[k];
    }
  }

  ghost predicate CtorStepOf(P: Prog, c: string, s: Init) {
    c in P.cid && c in P.slots && s == ICtor(P.cid[c], P.slots[c])
  }

  lemma {:induction false} CtorHead(P: Prog, ctors: seq<string>)
    requires ctors != [] && ctors[0] in P.ar && ctors[0] in P.cid && CtorSteps(P, ctors[1..]).Some?
    requires P.ar[ctors[0]] > 0 ==> ctors[0] in P.slots
    ensures var c, rest, tall := ctors[0], The(CtorSteps(P, ctors[1..])), Tall(P, ctors[1..]);
            if P.ar[c] == 0 then CtorSteps(P, ctors) == Some(rest) && Tall(P, ctors) == tall
            else
              && Tall(P, ctors) == [c] + tall
              && exists s0 :: CtorStepOf(P, c, s0) && CtorSteps(P, ctors) == Some([s0] + rest)
  {
    var c := ctors[0];
    if P.ar[c] > 0 { assert CtorStepOf(P, c, ICtor(P.cid[c], P.slots[c])); }
  }

  lemma {:induction false} CtorStepsAre(P: Prog, ctors: seq<string>)
    requires forall c :: c in ctors ==> c in P.ar && c in P.cid && (AtKey(P.ar, c) > 0 ==> c in P.slots)
    ensures var r, tall := CtorSteps(P, ctors), Tall(P, ctors);
            r.Some? && |The(r)| == |tall| && forall k :: 0 <= k < |tall| ==> CtorStepOf(P, tall[k], The(r)[k])
  {
    if ctors != [] {
      hide Tall, CtorSteps, CtorStepOf;
      assert ctors[0] in ctors && forall d :: d in ctors[1..] ==> d in ctors;
      CtorStepsAre(P, ctors[1..]);
      CtorHead(P, ctors);
    }
  }

  lemma {:induction false} ThunkStepsAre(P: Prog, defs: Defs)
    requires forall d :: d in defs ==> d.0 in P.slots
    ensures var r := ThunkSteps(P, defs);
            && r.Some? && |The(r)| == |defs|
            && forall k :: 0 <= k < |defs| ==> The(r)[k] == IThunk(defs[k].0, AtKey(P.slots, defs[k].0))
  {
    if defs != [] {
      assert defs[0] in defs && forall d :: d in defs[1..] ==> d in defs;
      ThunkStepsAre(P, defs[1..]);
    }
  }

  // ---------- built-ins and constructors, then the definitions ----------

  // A settled table that holds exactly what start-up has put there so far.
  ghost predicate Stage(P: Prog, n: nat, builtins: seq<string>, ctors: seq<string>, defs: Defs, w: World) {
    Settled(P, w) && TableFull(P, n, builtins, ctors, defs, w)
  }

  // Step k of the list fills the slot of name k.
  ghost predicate StepsFor(P: Prog, names: seq<string>, steps: seq<Init>) {
    |steps| == |names| && forall k :: 0 <= k < |steps| ==>
      (steps[k].IBuiltin? || steps[k].ICtor?) && steps[k].slot == AtKey(P.slots, names[k])
  }

  lemma {:induction false} EmptyFillable(P: Prog, w: World, names: seq<string>, steps: seq<Init>)
    requires StepsFor(P, names, steps) && SlotsApart(P, names, |w.globs|) && Only(w, [])
    ensures Fillable(w, steps)
  {
    forall k | 0 <= k < |steps| ensures Blank(w, steps[k]) { assert AtKey(P.slots, names[k]) == P.slots[names[k]]; }
  }

  lemma {:induction false} OnlyThese(P: Prog, w: World, w1: World, names: seq<string>, steps: seq<Init>)
    requires StepsFor(P, names, steps) && Only(w, []) && Untouched(w, w1, steps)
    ensures Only(w1, Slots(P, names))
  {
    var slots := Slots(P, names);
    forall i | 0 <= i < |w1.globs| && i !in slots ensures w1.globs[i] == 0 {
      forall k | 0 <= k < |steps| ensures steps[k].slot != i { assert slots[k] in slots; }
    }
  }

  lemma {:induction false} FrontSteps(P: Prog, builtins: seq<string>, ctors: seq<string>)
    requires forall c :: c in builtins + Tall(P, ctors) ==> c in P.slots
    requires forall c :: c in ctors ==> c in P.cid && c in P.ar
    ensures var a, b := BuiltinSteps(P, builtins, 0), CtorSteps(P, ctors);
            a.Some? && b.Some? && StepsFor(P, builtins + Tall(P, ctors), The(a) + The(b))
  {
    hide Tall, BuiltinSteps, CtorSteps;
    forall k | 0 <= k < |builtins| ensures builtins[k] in P.slots { assert builtins[k] in builtins; }
    assert forall c :: c in Tall(P, ctors) ==> c in builtins + Tall(P, ctors);
    TallIs(P, ctors);
    BuiltinStepsAre(P, builtins, 0);
    CtorStepsAre(P, ctors);
    var tall, b := Tall(P, ctors), CtorSteps(P, ctors).value;
    forall k | 0 <= k < |tall| ensures b[k].ICtor? && b[k].slot == AtKey(P.slots, tall[k]) {
      assert CtorStepOf(P, tall[k], b[k]);
    }
  }

  lemma {:induction false} FrontMade(P: Prog, builtins: seq<string>, ctors: seq<string>, w: World)
    requires forall c :: c in builtins + Tall(P, ctors) ==> c in P.slots
    requires forall c :: c in ctors ==> c in P.cid && c in P.ar
    requires var a, b := BuiltinSteps(P, builtins, 0), CtorSteps(P, ctors);
             && a.Some? && b.Some? && StepsFor(P, builtins + Tall(P, ctors), The(a) + The(b))
             && AllMade(w, The(a) + The(b))
    ensures BuiltinsFilled(P, builtins, w) && CtorsFilled(P, ctors, w)
  {
    hide Tall, BuiltinSteps, CtorSteps, Entry, StepsFor;
    forall k | 0 <= k < |builtins| ensures builtins[k] in P.slots { assert builtins[k] in builtins; }
    assert forall c :: c in Tall(P, ctors) ==> c in builtins + Tall(P, ctors);
    TallIs(P, ctors);
    BuiltinStepsAre(P, builtins, 0);
    CtorStepsAre(P, ctors);
    var a, b, tall := BuiltinSteps(P, builtins, 0).value, CtorSteps(P, ctors).value, Tall(P, ctors);
    forall i | 0 <= i < |builtins| ensures Entry(w, AtKey(P.slots, builtins[i]), BiStepWords(i, [])) {
      assert (a + b)[i] == IBuiltin(i, P.slots[builtins[i]]);
    }
    forall c | c in ctors && AtKey(P.ar, c) > 0
      ensures Entry(w, AtKey(P.slots, c), StepWords(AtKey(P.cid, c), []))
    {
      assert c in tall;
      var k :| 0 <= k < |tall| && tall[k] == c;
      assert CtorStepOf(P, tall[k], b[k]);
      assert (a + b)[|a| + k] == b[k];
    }
  }

  lemma {:induction false} FrontFills(P: Prog, n: nat, w: World, builtins: seq<string>, ctors: seq<string>)
    requires Setting(P) && Settled(P, w) && Only(w, []) && ImageHas(P, ctors, []) && AritiesKnown(P, ctors, w)
    requires SlotsApart(P, builtins + Tall(P, ctors), |w.globs|)
    ensures var a, b := BuiltinSteps(P, builtins, 0), CtorSteps(P, ctors);
            && a.Some? && b.Some?
            && var r := RunInit(P, n, w, The(a) + The(b));
               r.Ran? && |r.w.globs| == |w.globs| && Stage(P, n, builtins, ctors, [], r.w)
  {
    hide Tall, BuiltinSteps, CtorSteps, Entry, StepsFor, Setting, Settled, RunInit, Grown, Fillable, AllMade;
    hide Untouched, Only, BuiltinsFilled, CtorsFilled;
    var front := builtins + Tall(P, ctors);
    forall c | c in front ensures c in P.slots { var k :| 0 <= k < |front| && front[k] == c; }
    FrontSteps(P, builtins, ctors);
    var steps := BuiltinSteps(P, builtins, 0).value + CtorSteps(P, ctors).value;
    EmptyFillable(P, w, front, steps);
    StepsKinds(P, front, steps);
    ClosuresFill(P, n, w, steps);
    var w1 := RunInit(P, n, w, steps).w;
    GrownSize(w, w1);
    AritiesKept(P, ctors, w, w1);
    FrontMade(P, builtins, ctors, w1);
    OnlyThese(P, w, w1, front, steps);
    assert DefNames([]) == [] && SlotNames(P, builtins, ctors, []) == front;
  }

  lemma {:induction false} StepsKinds(P: Prog, names: seq<string>, steps: seq<Init>)
    requires StepsFor(P, names, steps)
    ensures forall k :: 0 <= k < |steps| ==> steps[k].IBuiltin? || steps[k].ICtor?
  {
  }

  lemma {:induction false} AritiesKept(P: Prog, ctors: seq<string>, w: World, w1: World)
    requires AritiesKnown(P, ctors, w) && Grown(w, w1)
    ensures AritiesKnown(P, ctors, w1)
  {
    hide Kept;
  }

  // ---------- one definition ----------

  // What is filled stays filled.
  lemma {:induction false} FullKept(P: Prog, n: nat, builtins: seq<string>, ctors: seq<string>, defs: Defs, w: World,
                                    w1: World)
    requires Stage(P, n, builtins, ctors, defs, w) && Grown(w, w1)
    requires SlotsKept(P, SlotNames(P, builtins, ctors, defs), w, w1)
    ensures AritiesKnown(P, ctors, w1) && BuiltinsFilled(P, builtins, w1) && CtorsFilled(P, ctors, w1)
    ensures DefsFilled(P, n, builtins, ctors, defs, w1)
  {
    hide Entry, Grown, Settled, Only, SlotNames, DefFilled, SlotsKept, AritiesKnown;
    AritiesKept(P, ctors, w, w1);
    forall i | 0 <= i < |builtins| ensures Entry(w1, AtKey(P.slots, builtins[i]), BiStepWords(i, [])) {
      EntryKept(w, w1, AtKey(P.slots, builtins[i]), BiStepWords(i, []));
    }
    forall c | c in ctors && AtKey(P.ar, c) > 0
      ensures Entry(w1, AtKey(P.slots, c), StepWords(AtKey(P.cid, c), []))
    {
      EntryKept(w, w1, AtKey(P.slots, c), StepWords(AtKey(P.cid, c), []));
    }
    forall j | 0 <= j < |defs| ensures DefFilled(P, n, SlotNames(P, builtins, ctors, defs[..j]), defs[j], w1) {
      NamesBefore(P, builtins, ctors, defs, j);
      DefKept(P, n, SlotNames(P, builtins, ctors, defs), SlotNames(P, builtins, ctors, defs[..j]), defs[j], w, w1);
    }
  }

  // The slots of these names hold the same in both.
  ghost predicate SlotsKept(P: Prog, names: seq<string>, w: World, w1: World) {
    forall k :: 0 <= k < |names| ==>
      var i := AtKey(P.slots, names[k]); i < |w.globs| && i < |w1.globs| && w1.globs[i] == w.globs[i]
  }

  lemma {:induction false} NamesBefore(P: Prog, builtins: seq<string>, ctors: seq<string>, defs: Defs, j: nat)
    requires j < |defs|
    ensures var names, before := SlotNames(P, builtins, ctors, defs), SlotNames(P, builtins, ctors, defs[..j]);
            before == names[..|before|] && |before| < |names| && names[|before|] == defs[j].0
  {
    assert DefNames(defs[..j]) == DefNames(defs)[..j];
  }

  lemma {:induction false} DefKept(P: Prog, n: nat, names: seq<string>, before: seq<string>, d: (string, ODef),
                                   w: World, w1: World)
    requires Settled(P, w) && Grown(w, w1) && SlotsKept(P, names, w, w1) && HasDef(P, d)
    requires |before| < |names| && before == names[..|before|] && names[|before|] == d.0
    requires DefFilled(P, n, before, d, w)
    ensures DefFilled(P, n, before, d, w1)
  {
    hide Entry, Grown, Settled, HasDef, BodyRun, TableUpTo;
    var slot := AtKey(P.slots, d.0);
    if d.1.params != [] {
      EntryKept(w, w1, slot, [AtKey(P.addr, SLevel(d.0, 1)), 0]);
    } else {
      var w0: World :| TableUpTo(Slots(P, before), w0, w) && Gives(BodyRun(P, n, w0, d), w, slot);
      forall i | 0 <= i < |w.globs| && i in Slots(P, before) ensures i < |w1.globs| && w1.globs[i] == w.globs[i] {
        var k :| 0 <= k < |before| && Slots(P, before)[k] == i;
        assert names[k] == before[k];
      }
      GrownSize(w, w1);
      UpToKept(P, Slots(P, before), w0, w, w1);
      assert AtKey(P.slots, names[|before|]) == slot;
      assert Gives(BodyRun(P, n, w0, d), w1, slot);
    }
  }

  // A definition's step fills its slot, or its body stops.
  lemma {:induction false} ThunkFills(P: Prog, n: nat, w: World, builtins: seq<string>, ctors: seq<string>, done: Defs,
                                      d: (string, ODef))
    requires Setting(P) && Stage(P, n, builtins, ctors, done, w) && HasDef(P, d)
    requires SlotsApart(P, SlotNames(P, builtins, ctors, done + [d]), |w.globs|)
    ensures match RunStep(P, n, w, IThunk(d.0, AtKey(P.slots, d.0)))
            case Ran(w1) => |w1.globs| == |w.globs| && Stage(P, n, builtins, ctors, done + [d], w1)
            case Halted(why) => d.1.params == [] && BodyRun(P, n, w, d) == Stop(why)
  {
    hide Setting, Settled, RunStep, Grown, BuiltinsFilled, CtorsFilled, DefsFilled, Build, Kept, SlotsApart, SlotNames;
    hide BodyRun, InitValue, Ev, AritiesKnown;
    var slot := AtKey(P.slots, d.0);
    var names := SlotNames(P, builtins, ctors, done);
    LastName(P, builtins, ctors, done, d);
    LastSlot(P, names, d.0, |w.globs|);
    var s := IThunk(d.0, slot);
    FillStep(P, n, w, s);
    var r := InitValue(P, n, w, s);
    ThunkIs(P, n, w, d, slot);
    if r.Done? {
      var w1 := Filled(r.w, slot, r.v);
      OthersKept(P, names, slot, w, w1);
      FullKept(P, n, builtins, ctors, done, w, w1);
      if d.1.params != [] {
        ClosureStep(P, n, w, s, [P.addr[SLevel(d.0, 1)], 0]);
      } else {
        GrownSlots(P, names, w, w1);
        assert TableUpTo(Slots(P, names), w, w1) && Gives(BodyRun(P, n, w, d), w1, slot);
      }
      assert DefFilled(P, n, names, d, w1);
      MoreFilled(P, n, builtins, ctors, done, d, w1);
      OnlyMore(P, names, d.0, w, w1);
    } else if d.1.params != [] {
      ClosureStep(P, n, w, s, [P.addr[SLevel(d.0, 1)], 0]);
      assert false;
    }
  }

  lemma {:induction false} LastName(P: Prog, builtins: seq<string>, ctors: seq<string>, done: Defs, d: (string, ODef))
    ensures SlotNames(P, builtins, ctors, done + [d]) == SlotNames(P, builtins, ctors, done) + [d.0]
  {
    assert DefNames(done + [d]) == DefNames(done) + [d.0];
  }

  lemma {:induction false} LastSlot(P: Prog, names: seq<string>, f: string, size: int)
    requires SlotsApart(P, names + [f], size)
    ensures f in P.slots && AtKey(P.slots, f) < size
    ensures AtKey(P.slots, f) !in Slots(P, names) && forall i :: i in Slots(P, names) ==> i < size
  {
    var all, slots := names + [f], Slots(P, names);
    assert all[|names|] == f;
    forall i | i in slots ensures i != AtKey(P.slots, f) && i < size {
      var k :| 0 <= k < |names| && slots[k] == i;
      assert all[k] == names[k];
    }
  }

  // A function's value is its closure of level 1, any other's that of its body.
  lemma {:induction false} ThunkIs(P: Prog, n: nat, w: World, d: (string, ODef), slot: nat)
    requires HasDef(P, d)
    ensures InitValue(P, n, w, IThunk(d.0, slot))
         == if d.1.params == [] then BodyRun(P, n, w, d) else Build(P, w, T_CLOSURE, [P.addr[SLevel(d.0, 1)], 0])
  {
    hide Build, Ev;
  }

  lemma {:induction false} OthersKept(P: Prog, names: seq<string>, slot: nat, w: World, w1: World)
    requires slot < |w.globs| && slot !in Slots(P, names) && forall i :: i in Slots(P, names) ==> i < |w.globs|
    requires |w1.globs| == |w.globs| && forall i :: 0 <= i < |w.globs| && i != slot ==> w1.globs[i] == w.globs[i]
    ensures SlotsKept(P, names, w, w1)
  {
    forall k | 0 <= k < |names|
      ensures var i := AtKey(P.slots, names[k]); i < |w.globs| && i < |w1.globs| && w1.globs[i] == w.globs[i]
    {
      assert Slots(P, names)[k] in Slots(P, names);
    }
  }

  // The table before the step is the one left by the names before it.
  lemma {:induction false} GrownSlots(P: Prog, names: seq<string>, w: World, w1: World)
    requires Grown(w, w1) && Only(w, Slots(P, names)) && SlotsKept(P, names, w, w1)
    ensures TableUpTo(Slots(P, names), w, w1)
  {
    hide Kept;
    forall i | 0 <= i < |w.globs| && i in Slots(P, names) ensures w.globs[i] == w1.globs[i] {
      var k :| 0 <= k < |names| && Slots(P, names)[k] == i;
    }
  }

  lemma {:induction false} MoreFilled(P: Prog, n: nat, builtins: seq<string>, ctors: seq<string>, done: Defs,
                                      d: (string, ODef), w: World)
    requires DefsFilled(P, n, builtins, ctors, done, w) && HasDef(P, d)
    requires DefFilled(P, n, SlotNames(P, builtins, ctors, done), d, w)
    ensures DefsFilled(P, n, builtins, ctors, done + [d], w)
  {
    hide DefFilled, SlotNames, HasDef;
    var all := done + [d];
    forall j | 0 <= j < |all| ensures DefFilled(P, n, SlotNames(P, builtins, ctors, all[..j]), all[j], w) {
      assert all[..j] == if j < |done| then done[..j] else done;
    }
  }

  lemma {:induction false} OnlyMore(P: Prog, names: seq<string>, f: string, w: World, w1: World)
    requires Only(w, Slots(P, names)) && |w1.globs| == |w.globs|
    requires forall i :: 0 <= i < |w.globs| && i != AtKey(P.slots, f) ==> w1.globs[i] == w.globs[i]
    ensures Only(w1, Slots(P, names + [f]))
  {
    var slots, more := Slots(P, names), Slots(P, names + [f]);
    assert more[|names|] in more;
    forall i | i in slots ensures i in more {
      var k :| 0 <= k < |names| && slots[k] == i;
      assert more[k] == i;
    }
  }

  // ---------- all definitions ----------

  lemma {:induction false} ThunksFill(P: Prog, n: nat, w: World, builtins: seq<string>, ctors: seq<string>, done: Defs,
                                      rest: Defs)
    requires Setting(P) && Stage(P, n, builtins, ctors, done, w) && forall d :: d in rest ==> HasDef(P, d)
    requires SlotsApart(P, SlotNames(P, builtins, ctors, done + rest), |w.globs|)
    ensures ThunkSteps(P, rest).Some?
    ensures match RunInit(P, n, w, The(ThunkSteps(P, rest)))
            case Ran(w1) => |w1.globs| == |w.globs| && Stage(P, n, builtins, ctors, done + rest, w1)
            case Halted(why) => exists j :: BodyStops(P, n, builtins, ctors, done + rest, j, why)
    decreases |rest|
  {
    hide Setting, Settled, RunStep, TableFull, HasDef, SlotsApart, SlotNames, BodyRun;
    if rest == [] {
      assert done + rest == done;
    } else {
      var d, later := rest[0], rest[1..];
      assert (done + [d]) + later == done + rest && d in rest && forall e :: e in later ==> e in rest;
      ApartBefore(P, builtins, ctors, done + [d], later, |w.globs|);
      ThunkSlot(P, builtins, ctors, done, d, |w.globs|);
      ThunkFills(P, n, w, builtins, ctors, done, d);
      var s0 := IThunk(d.0, AtKey(P.slots, d.0));
      var r := RunStep(P, n, w, s0);
      SlotOnly(P, builtins, ctors, done + rest, |w.globs|);
      ThunkStepsAre(P, rest);
      ThunkStepsAre(P, later);
      ThunkHead(P, rest);
      var steps, more := ThunkSteps(P, rest).value, ThunkSteps(P, later).value;
      assert steps[0] == s0 && steps[1..] == more;
      if r.Ran? {
        ThunksFill(P, n, r.w, builtins, ctors, done + [d], later);
        assert RunInit(P, n, w, steps) == RunInit(P, n, r.w, more);
      } else {
        assert RunInit(P, n, w, steps) == Halted(r.why);
        StopsHere(P, n, builtins, ctors, done, rest, w, r.why);
      }
    }
  }

  lemma {:induction false} ThunkHead(P: Prog, rest: Defs)
    requires rest != [] && ThunkSteps(P, rest).Some?
    ensures ThunkSteps(P, rest[1..]).Some?
    ensures The(ThunkSteps(P, rest)) == [IThunk(rest[0].0, AtKey(P.slots, rest[0].0))] + The(ThunkSteps(P, rest[1..]))
  {
  }

  lemma {:induction false} StopsHere(P: Prog, n: nat, builtins: seq<string>, ctors: seq<string>, done: Defs, rest: Defs,
                                     w: World, why: Why)
    requires rest != [] && TableFull(P, n, builtins, ctors, done, w) && HasDef(P, rest[0]) && rest[0].1.params == []
    requires BodyRun(P, n, w, rest[0]) == Stop(why)
    ensures exists j :: BodyStops(P, n, builtins, ctors, done + rest, j, why)
  {
    hide TableFull, HasDef, BodyRun;
    var all := done + rest;
    assert all[..|done|] == done && all[|done|] == rest[0];
    assert BodyStops(P, n, builtins, ctors, all, |done|, why);
  }

  lemma {:induction false} ApartBefore(P: Prog, builtins: seq<string>, ctors: seq<string>, defs: Defs, later: Defs,
                                       size: int)
    requires SlotsApart(P, SlotNames(P, builtins, ctors, defs + later), size)
    ensures SlotsApart(P, SlotNames(P, builtins, ctors, defs), size)
  {
    hide Tall;
    var some, all := SlotNames(P, builtins, ctors, defs), SlotNames(P, builtins, ctors, defs + later);
    assert DefNames(defs + later) == DefNames(defs) + DefNames(later);
    assert all == some + DefNames(later);
    ApartPrefix(P, some, DefNames(later), size);
  }

  lemma {:induction false} ApartPrefix(P: Prog, names: seq<string>, more: seq<string>, size: int)
    requires SlotsApart(P, names + more, size)
    ensures SlotsApart(P, names, size)
  {
    var all := names + more;
    assert forall i :: 0 <= i < |names| ==> all[i] == names[i];
  }

  lemma {:induction false} ThunkSlot(P: Prog, builtins: seq<string>, ctors: seq<string>, done: Defs, d: (string, ODef),
                                     size: int)
    requires SlotsApart(P, SlotNames(P, builtins, ctors, done + [d]), size)
    ensures d.0 in P.slots
  {
    hide SlotNames, SlotsApart;
    LastName(P, builtins, ctors, done, d);
    LastSlot(P, SlotNames(P, builtins, ctors, done), d.0, size);
  }

  lemma {:induction false} SlotOnly(P: Prog, builtins: seq<string>, ctors: seq<string>, defs: Defs, size: int)
    requires SlotsApart(P, SlotNames(P, builtins, ctors, defs), size)
    ensures forall d :: d in defs ==> d.0 in P.slots
  {
    hide Tall;
    var names := SlotNames(P, builtins, ctors, defs);
    forall d | d in defs ensures d.0 in P.slots {
      var j :| 0 <= j < |defs| && defs[j] == d;
      assert names[|names| - |defs| + j] == d.0;
    }
  }

  // ---------- the whole of start-up ----------

  // Start-up runs to its end and leaves the table full, or a definition that is
  // no function stops in the table left by the names before it. Nothing else
  // can go wrong.
  lemma {:induction false} StartUpFills(P: Prog, n: nat, w: World, builtins: seq<string>, ctors: seq<string>,
                                        defs: Defs)
    requires Setting(P) && Settled(P, w) && Only(w, []) && ImageHas(P, ctors, defs)
    requires SlotsApart(P, SlotNames(P, builtins, ctors, defs), |w.globs|)
    ensures StartUp(P, builtins, ctors, defs).Some?
    ensures match RunInit(P, n, w, The(StartUp(P, builtins, ctors, defs)))
            case Ran(w1) => TableFull(P, n, builtins, ctors, defs, w1)
            case Halted(why) => exists j :: BodyStops(P, n, builtins, ctors, defs, j, why)
  {
    hide Setting, Settled, RunInit, TableFull, SlotsApart, SlotNames, RegisterSteps, BuiltinSteps, CtorSteps;
    hide ThunkSteps;
    hide HasDef, BodyStops, Only;
    Registered(P, n, w, ctors);
    var r := RegisterSteps(P, ctors).value;
    var w0 := RunInit(P, n, w, r).w;
    SettledSame(P, w, w0);
    assert [] + defs == defs;
    ApartBefore(P, builtins, ctors, [], defs, |w.globs|);
    FrontNames(P, builtins, ctors);
    FrontFills(P, n, w0, builtins, ctors);
    var a, b := BuiltinSteps(P, builtins, 0).value, CtorSteps(P, ctors).value;
    var w1 := RunInit(P, n, w0, a + b).w;
    ThunksFill(P, n, w1, builtins, ctors, [], defs);
    var c := ThunkSteps(P, defs).value;
    assert r + a + b + c == r + ((a + b) + c);
    RunAppend(P, n, w, r, (a + b) + c);
    RunAppend(P, n, w0, a + b, c);
  }

  lemma {:induction false} FrontNames(P: Prog, builtins: seq<string>, ctors: seq<string>)
    ensures SlotNames(P, builtins, ctors, []) == builtins + Tall(P, ctors)
  {
    hide Tall;
    assert DefNames([]) == [];
  }

  lemma {:induction false} SettledSame(P: Prog, w: World, w0: World)
    requires Settled(P, w) && w0.heap == w.heap && w0.globs == w.globs
    ensures Settled(P, w0) && (Only(w, []) ==> Only(w0, []))
  {
    hide Good;
  }

  // In particular a program of functions only fills its table and finds a
  // closure of its main there.
  lemma {:induction false} MainFilled(P: Prog, n: nat, w: World, builtins: seq<string>, ctors: seq<string>, defs: Defs,
                                      k: nat)
    requires Setting(P) && Settled(P, w) && Only(w, []) && ImageHas(P, ctors, defs)
    requires SlotsApart(P, SlotNames(P, builtins, ctors, defs), |w.globs|)
    requires k < |defs| && defs[k].0 == "main" && forall d :: d in defs ==> d.1.params != []
    ensures StartUp(P, builtins, ctors, defs).Some?
    ensures var r := RunInit(P, n, w, The(StartUp(P, builtins, ctors, defs)));
            r.Ran? && Entry(r.w, AtKey(P.slots, "main"), [AtKey(P.addr, SLevel("main", 1)), 0])
  {
    hide Setting, Settled, RunInit, StartUp, SlotsApart, SlotNames, Entry, HasDef;
    StartUpFills(P, n, w, builtins, ctors, defs);
    forall j: nat, why ensures !BodyStops(P, n, builtins, ctors, defs, j, why) {
      if j < |defs| { assert defs[j] in defs; }
    }
    var r := RunInit(P, n, w, StartUp(P, builtins, ctors, defs).value);
    assert r.Ran? && DefFilled(P, n, SlotNames(P, builtins, ctors, defs[..k]), defs[k], r.w);
  }

  // ---------- calls through the table ----------

  // The runtime knows the built-ins by the numbers start-up gives them.
  lemma {:induction false} BuiltinIndex(i: int)
    ensures BiName(i) == if 0 <= i < |BUILTINS| then Some(BUILTINS[i]) else None
  {
  }

  // The closure start-up left in a built-in's slot, applied to its arguments
  // one at a time, makes the direct call of that name on them in order.
  lemma {:induction false} BuiltinFromTable(P: Prog, n: nat, i: nat, slot: nat, K: multiset<Word>, w: World,
                                            env: Env, xs: seq<string>, vs: seq<Word>)
    returns (q: Word)
    requires Setting(P) && i < |BUILTINS| && Entry(w, slot, BiStepWords(i, [])) && WorldOk(P, K, w)
    requires CurriedBuiltins.Bound(env, xs, vs) && |vs| == BiArgs(BUILTINS[i])
    requires AllValues(w.heap, vs) && Spare(w.heap, |vs|) && Good(w.heap, K + multiset(vs))
    ensures var k := |vs| - 1;
            var call := PBi(BUILTINS[i], CurriedBuiltins.Vars(xs));
            var r := Curried.ApplyShared(P, n, w, w.globs[slot], vs);
            if k == 0 then r == LevelEnd(EvPrim(P, n, 0, env, w, call), true, vs[0])
            else
              var w1 := w.(heap := w.heap[q := CurriedBuiltins.BiBlock(i, vs[..k])], tick := w.tick + k);
              q !in w.heap && r == Finish(EvPrim(P, n, 0, env, w1, call), true, vs[k], q)
  {
    hide Setting, WorldOk, Good, AllValues, Spare, Curried.ApplyShared, EvPrim, Finish, LevelEnd, BiArgs, BiStepWords;
    hide CurriedBuiltins.Bound, BiName;
    BuiltinIndex(i);
    EntryUnder(P, K, w, slot);
    q := CurriedBuiltins.BuiltinShared(P, n, i, w.globs[slot], K, w, env, xs, vs);
  }

  lemma {:induction false} EntryUnder(P: Prog, K: multiset<Word>, w: World, slot: nat)
    requires WorldOk(P, K, w) && slot < |w.globs|
    ensures Under(w.heap, K, w.globs[slot])
  {
    hide Under;
  }

  // Likewise for a constructor, whose arity start-up has registered: the block
  // of all arguments in order, at a fresh address.
  lemma {:induction false} CtorFromTable(P: Prog, n: nat, c: string, slot: nat, K: multiset<Word>, w: World,
                                         vs: seq<Word>)
    returns (q: Word)
    requires Setting(P) && c in P.cid && c in P.ar && P.ar[c] > 0 && ArityOf(w, P.cid[c]) == P.ar[c]
    requires Entry(w, slot, StepWords(P.cid[c], [])) && WorldOk(P, K, w) && |vs| == P.ar[c] <= MAX_WORDS - 6
    requires AllValues(w.heap, vs) && Spare(w.heap, |vs|) && Good(w.heap, K + multiset(vs))
    ensures q !in w.heap
    ensures Curried.ApplyShared(P, n, w, w.globs[slot], vs)
         == Done(q, w.(heap := w.heap[q := AdtBlock(P.cid[c], vs)], tick := w.tick + |vs|))
  {
    hide Setting, WorldOk, Good, AllValues, Spare, Curried.ApplyShared, StepWords, AdtBlock, ArityOf;
    EntryUnder(P, K, w, slot);
    q := CurriedCtors.CtorShared(P, n, P.cid[c], w.globs[slot], K, w, vs);
  }
}

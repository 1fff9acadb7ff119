// The text of a whole program holds every routine behind its label, so what is
// proved of runs of linked text is proved of what is emitted.
module CodeLink {
  import opened Types
  import opened RcHeap
  import opened Oir
  import opened Machine
  import opened Codegen
  import opened CodeSteps
  import opened CodeOperands
  import opened CodeBlocks
  import opened CodeHeap
  import opened CodeSound
  import opened CodeRun
  import opened CodeProgram
  import opened StartSteps

  // ---------- the image of a list of definitions ----------

  // Where the routine with d's body is numbered, when d starts at id.
  function BaseOf(id: int, d: ODef): int { if d.params == [] || d.direct then id else id + |d.params| - 1 }

  function BodyId(id: int, d: ODef): int { BaseOf(id, d) + 1 + PatsIds(d.params) }

  function DefIds(d: ODef): nat {
    1 + PatsIds(d.params) + ExprIds(d.body)
    + (if d.params == [] then 0 else if d.direct then |d.params| else |d.params| - 1)
  }

  function LamsDefs(id: int, defs: Defs): map<int, Lam>
    decreases |defs|
  {
    if defs == [] then map[]
    else LamsE(BodyId(id, defs[0].1), defs[0].1.body) + LamsDefs(id + DefIds(defs[0].1), defs[1..])
  }

  // The tables hold these definitions at these numbers.
  predicate Tabled(P: Prog, id: int, defs: Defs)
    decreases |defs|
  {
    defs != [] ==>
      var (f, d) := defs[0];
      && f in P.defs && P.defs[f] == d && f in P.base && P.base[f] == BaseOf(id, d)
      && (forall j :: 1 <= j < |defs| ==> defs[j].0 != f)
      && Tabled(P, id + DefIds(d), defs[1..])
  }

  predicate Named(f: string, defs: Defs) { exists j :: 0 <= j < |defs| && defs[j].0 == f }

  ghost predicate Image(P: Prog, defs: Defs) {
    && Tabled(P, 0, defs) && P.lams == LamsDefs(0, defs)
    && forall f :: f in P.defs ==> Named(f, defs)
  }

  // ---------- one definition ----------

  lemma {:induction false} DupSlotsLabels(j: nat, n: nat)
    ensures NoLabels(DupSlots(j, n))
    decreases n - j
  {
    if j < n { DupSlotsLabels(j + 1, n); }
  }

  lemma {:induction false} DupOwnedLabels(modes: seq<bool>, j: nat, n: nat)
    ensures NoLabels(DupOwnedSlots(modes, j, n))
    decreases n - j
  {
    if j < n { DupOwnedLabels(modes, j + 1, n); }
  }

  lemma {:induction false} LdArgLabels(i: nat, k: nat)
    ensures NoLabels(LdArgRegs(i, k))
    decreases k - i
  {
    if i < k { LdArgLabels(i + 1, k); }
  }

  lemma {:induction false} StoreArgLabels(i: nat, k: nat)
    ensures StoreArgs(i, k).Some? ==> NoLabels(StoreArgs(i, k).value)
    decreases k - i
  {
    if i < k { StoreArgLabels(i + 1, k); }
  }

  // Below the last level, and before a call, the number plays no role.
  lemma {:induction false} LevelSame(P: Prog, id: int, id1: int, f: string, d: ODef, i: nat)
    requires 1 <= i <= |d.params| && (i < |d.params| || d.direct)
    ensures LevelCode(P, id, f, d, i).Some? <==> LevelCode(P, id1, f, d, i).Some?
    ensures var g := LevelCode(P, id, f, d, i);
            g.Some? ==>
              && g.value.code == LevelCode(P, id1, f, d, i).value.code && g.value.id == id + 1
              && NoLabels(g.value.code)
  {
    hide LdEnv, MkClosureCode, DupSlots, DupOwnedSlots, LdArgRegs;
    LdEnvLabels(0, i - 1);
    DupSlotsLabels(0, i - 1);
    DupOwnedLabels(d.modes, 0, |d.params| - 1);
    MkClosureLabels(SLevel(f, i + 1), SeqSlots(0, i));
    LdArgLabels(0, |d.params|);
  }

  // The text around the inlined body, and its numbers.
  lemma {:induction false} InlineShape(P: Prog, id: int, f: string, d: ODef)
    returns (head: Code, m: Match, g: Gen, tail: Code)
    requires |d.params| > 0 && !d.direct && LevelCode(P, id, f, d, |d.params|).Some?
    ensures BindParams(P, id + 1, [], |d.params|, d.params, 0, Loc(KFail, id)) == Some(m)
    ensures Ce(P, m.id, m.sc, m.ns, Loc(KEnd, id), d.body) == Some(g)
    ensures LevelCode(P, id, f, d, |d.params|).value == Gen(head + m.code + g.code + tail, g.id)
    ensures NoLabels(head) && NoLabels(m.code) && m.id == id + 1 + PatsIds(d.params) && g.id == m.id + ExprIds(d.body)
    ensures forall l :: Lbl(l) in tail ==> l == Loc(KEnd, id) || l == Loc(KFail, id)
  {
    hide LdEnv, DupOwnedSlots, BindParams, Ce, LastDrop;
    var k := |d.params|;
    m := BindParams(P, id + 1, [], k, d.params, 0, Loc(KFail, id)).value;
    g := Ce(P, m.id, m.sc, m.ns, Loc(KEnd, id), d.body).value;
    LdEnvLabels(0, k - 1);
    DupOwnedLabels(d.modes, 0, k - 1);
    BindParamsLabels(P, id + 1, [], k, d.params, 0, Loc(KFail, id));
    head := [Prologue] + LdEnv(0, k - 1).value + [StrSlot(1, k - 1)] + DupOwnedSlots(d.modes, 0, k - 1);
    tail := [Lbl(Loc(KEnd, id))] + LastDrop(d.modes, k) + ([Epilogue] + [Lbl(Loc(KFail, id)), BlRt(DcMatchFail)]);
    LastShape(P, id, f, d, m, g);
    DropLabels(d.modes, k);
  }

  lemma {:induction false} InlineLevel(P: Prog, id: int, f: string, d: ODef)
    requires |d.params| > 0 && !d.direct && LevelCode(P, id, f, d, |d.params|).Some?
    ensures Numbered(LevelCode(P, id, f, d, |d.params|), id)
    ensures AllIn(P, LamsE(id + 1 + PatsIds(d.params), d.body), LevelCode(P, id, f, d, |d.params|).value.code)
    ensures LevelCode(P, id, f, d, |d.params|).value.id == id + 1 + PatsIds(d.params) + ExprIds(d.body)
  {
    hide BindParams, Ce, AllIn, LevelCode;
    var head, m, g, tail := InlineShape(P, id, f, d);
    CeLabels(P, m.id, m.sc, m.ns, Loc(KEnd, id), d.body);
    CeHolds(P, m.id, m.sc, m.ns, Loc(KEnd, id), d.body);
    LamsEKeyed(m.id, d.body);
    AllAfter(P, LamsE(m.id, d.body), head + m.code, g.code, tail, m.id, m.id + ExprIds(d.body));
  }

  lemma {:induction false} LastShape(P: Prog, id: int, f: string, d: ODef, m: Match, g: Gen)
    requires |d.params| > 0 && !d.direct && LevelCode(P, id, f, d, |d.params|).Some?
    requires BindParams(P, id + 1, [], |d.params|, d.params, 0, Loc(KFail, id)) == Some(m)
    requires Ce(P, m.id, m.sc, m.ns, Loc(KEnd, id), d.body) == Some(g)
    ensures var k := |d.params|;
            LdEnv(0, k - 1).Some? &&
            LevelCode(P, id, f, d, k).value.code ==
              [Prologue] + LdEnv(0, k - 1).value + [StrSlot(1, k - 1)] + DupOwnedSlots(d.modes, 0, k - 1) + m.code
                  + g.code
              + ([Lbl(Loc(KEnd, id))] + LastDrop(d.modes, k) + ([Epilogue] + [Lbl(Loc(KFail, id)), BlRt(DcMatchFail)]))
  {
    hide LdEnv, DupOwnedSlots, BindParams, Ce;
  }

  lemma {:induction false} FnnHolds(P: Prog, id: int, d: ODef)
    requires FnnCode(P, id, d).Some?
    ensures Numbered(FnnCode(P, id, d), id)
    ensures AllIn(P, LamsE(id + 1 + PatsIds(d.params), d.body), The(FnnCode(P, id, d)).code)
  {
    hide StoreArgs, BindParams, Ce, AllIn;
    var k := |d.params|;
    var m := BindParams(P, id + 1, [], k, d.params, 0, Loc(KFail, id)).value;
    var g := Ce(P, m.id, m.sc, m.ns, Loc(KEnd, id), d.body).value;
    StoreArgLabels(0, k);
    BindParamsLabels(P, id + 1, [], k, d.params, 0, Loc(KFail, id));
    CeLabels(P, m.id, m.sc, m.ns, Loc(KEnd, id), d.body);
    CeHolds(P, m.id, m.sc, m.ns, Loc(KEnd, id), d.body);
    LamsEKeyed(m.id, d.body);
    var pre := [Prologue] + StoreArgs(0, k).value + m.code;
    var e1, e2 := [Lbl(Loc(KEnd, id)), Epilogue], [Lbl(Loc(KFail, id)), BlRt(DcMatchFail)];
    AllAfter(P, LamsE(m.id, d.body), pre, g.code, e1 + e2, m.id, m.id + ExprIds(d.body));
    assert pre + g.code + (e1 + e2) == pre + g.code + e1 + e2;
  }

  // Labels of the levels from i on.
  ghost predicate LevelLabels(code: Code, f: string, i: nat, lo: int, hi: int) {
    forall l :: Lbl(l) in code ==> (l.Loc? && lo <= l.id < hi) || (l.Level? && l.fn == f && i <= l.i)
  }

  // Level bodies as the tables number them.
  ghost predicate LevelsIn(P: Prog, base: int, f: string, d: ODef, i: nat, code: Code) {
    forall j :: i <= j <= |d.params| && 1 <= j ==>
      LevelCode(P, base, f, d, j).Some? && Placed(code, Level(f, j), LevelCode(P, base, f, d, j).value.code)
  }

  lemma {:induction false} LevelsHold(P: Prog, id: int, base: int, f: string, d: ODef, i: nat)
    requires 1 <= i && EmitLevels(P, id, f, d, i).Some? && (d.direct || i > |d.params| || base == id + |d.params| - i)
    ensures var g := EmitLevels(P, id, f, d, i).value;
            && LevelLabels(g.code, f, i, id, g.id) && LevelsIn(P, base, f, d, i, g.code) && id <= g.id
            && (i <= |d.params| ==> g.id == if d.direct then id + 1 + |d.params| - i
               else base + 1 + PatsIds(d.params) + ExprIds(d.body))
            && (!d.direct && i <= |d.params| ==> AllIn(P, LamsE(base + 1 + PatsIds(d.params), d.body), g.code))
    decreases |d.params| - i
  {
    hide LevelCode, AllIn, Placed;
    var k := |d.params|;
    if i <= k {
      var g := LevelCode(P, id, f, d, i).value;
      var rest := EmitLevels(P, g.id, f, d, i + 1).value;
      var code := [Lbl(Level(f, i))] + g.code + rest.code;
      PlacedHere(Level(f, i), g.code, rest.code);
      if i < k || d.direct { LevelSame(P, id, base, f, d, i); } else { InlineLevel(P, id, f, d); }
      LevelsHold(P, g.id, base, f, d, i + 1);
      LevelsRest(P, base, f, d, i, g, rest.code);
      if !d.direct {
        if i < k {
          LamsEKeyed(base + 1 + PatsIds(d.params), d.body);
          AllRight(P, LamsE(base + 1 + PatsIds(d.params), d.body), [Lbl(Level(f, i))] + g.code, rest.code);
        } else {
          AllRight(P, LamsE(base + 1 + PatsIds(d.params), d.body), [Lbl(Level(f, i))], g.code);
          AllLeft(P, LamsE(base + 1 + PatsIds(d.params), d.body), [Lbl(Level(f, i))] + g.code, rest.code);
        }
      }
    }
  }

  lemma {:induction false} LevelsRest(P: Prog, base: int, f: string, d: ODef, i: nat, g: Gen, rest: Code)
    requires 1 <= i <= |d.params| && LevelsIn(P, base, f, d, i + 1, rest)
    requires LevelCode(P, base, f, d, i).Some? && LevelCode(P, base, f, d, i).value.code == g.code
    requires forall l :: Lbl(l) in g.code ==> l.Loc?
    ensures LevelsIn(P, base, f, d, i, [Lbl(Level(f, i))] + g.code + rest)
  {
    hide LevelCode, Placed;
    var a := [Lbl(Level(f, i))] + g.code;
    PlacedHere(Level(f, i), g.code, rest);
    forall j | i < j <= |d.params| ensures Placed(a + rest, Level(f, j), LevelCode(P, base, f, d, j).value.code) {
      PlacedRight(a, rest, Level(f, j), LevelCode(P, base, f, d, j).value.code);
    }
  }

  // The labels of a definition's text: numbers of its own, and its name.
  ghost predicate OwnLabels(code: Code, f: string, lo: int, hi: int) {
    forall l :: Lbl(l) in code ==>
      (l.Loc? && lo <= l.id < hi) || l == ThunkOf(f) || l == Direct(f) || (l.Level? && l.fn == f)
  }

  ghost predicate ThunkIn(P: Prog, id: int, f: string, d: ODef, code: Code) {
    if d.params == [] then
      var g := Ce(P, id + 1, [], 0, Loc(KEnd, id), d.body);
      g.Some? && Placed(code, ThunkOf(f), [Prologue] + g.value.code + [Lbl(Loc(KEnd, id)), Epilogue])
    else Placed(code, ThunkOf(f), [Prologue] + MkClosureCode(SLevel(f, 1), []) + [Epilogue])
  }

  ghost predicate DefIn(P: Prog, id: int, f: string, d: ODef, code: Code) {
    var base := BaseOf(id, d);
    && ThunkIn(P, id, f, d, code) && LevelsIn(P, base, f, d, 1, code)
    && (d.direct && d.params != [] ==>
       FnnCode(P, base, d).Some? && Placed(code, Direct(f), FnnCode(P, base, d).value.code))
  }

  lemma {:induction false} DefHolds(P: Prog, id: int, f: string, d: ODef)
    requires EmitDef(P, id, f, d).Some?
    ensures var g := The(EmitDef(P, id, f, d));
            && g.id == id + DefIds(d) && OwnLabels(g.code, f, id, g.id) && DefIn(P, id, f, d, g.code)
            && AllIn(P, LamsE(BodyId(id, d), d.body), g.code)
  {
    hide AllIn, Placed, Ce, FnnCode, EmitLevels, LevelCode, MkClosureCode;
    if d.params == [] {
      ValueHolds(P, id, f, d);
    } else {
      MkClosureLabels(SLevel(f, 1), []);
      var thunk := [Lbl(ThunkOf(f)), Prologue] + MkClosureCode(SLevel(f, 1), []) + [Epilogue];
      if d.direct {
        DirectHolds(P, id, f, d);
      } else {
        var lv := EmitLevels(P, id, f, d, 1).value;
        LevelsHold(P, id, BaseOf(id, d), f, d, 1);
        LamsEKeyed(BodyId(id, d), d.body);
        AllRight(P, LamsE(BodyId(id, d), d.body), thunk, lv.code);
        LevelsShift(P, BaseOf(id, d), f, d, thunk, lv.code);
        ThunkPlaced(f, lv.code);
      }
    }
  }

  lemma {:induction false} ThunkPlaced(f: string, rest: Code)
    ensures var body := [Prologue] + MkClosureCode(SLevel(f, 1), []) + [Epilogue];
            Placed([Lbl(ThunkOf(f)), Prologue] + MkClosureCode(SLevel(f, 1), []) + [Epilogue] + rest, ThunkOf(f), body)
  {
    hide MkClosureCode, Placed;
    var body := [Prologue] + MkClosureCode(SLevel(f, 1), []) + [Epilogue];
    PlacedHere(ThunkOf(f), body, rest);
    assert [Lbl(ThunkOf(f)), Prologue] + MkClosureCode(SLevel(f, 1), []) + [Epilogue] + rest
        == [Lbl(ThunkOf(f))] + body + rest;
  }

  lemma {:induction false} LevelsShift(P: Prog, base: int, f: string, d: ODef, a: Code, b: Code)
    requires LevelsIn(P, base, f, d, 1, b) && forall j :: Lbl(Level(f, j)) !in a
    ensures LevelsIn(P, base, f, d, 1, a + b)
  {
    hide LevelCode, Placed;
    forall j | 1 <= j <= |d.params| ensures Placed(a + b, Level(f, j), LevelCode(P, base, f, d, j).value.code) {
      PlacedRight(a, b, Level(f, j), LevelCode(P, base, f, d, j).value.code);
    }
  }

  lemma {:induction false} ValueHolds(P: Prog, id: int, f: string, d: ODef)
    requires EmitDef(P, id, f, d).Some? && d.params == []
    ensures var g := The(EmitDef(P, id, f, d));
            && g.id == id + DefIds(d) && OwnLabels(g.code, f, id, g.id) && DefIn(P, id, f, d, g.code)
            && AllIn(P, LamsE(BodyId(id, d), d.body), g.code)
  {
    hide AllIn, Placed, Ce;
    var g := Ce(P, id + 1, [], 0, Loc(KEnd, id), d.body).value;
    var tail := [Lbl(Loc(KEnd, id)), Epilogue];
    CeLabels(P, id + 1, [], 0, Loc(KEnd, id), d.body);
    CeHolds(P, id + 1, [], 0, Loc(KEnd, id), d.body);
    LamsEKeyed(id + 1, d.body);
    AllAfter(P, LamsE(id + 1, d.body), [Lbl(ThunkOf(f)), Prologue], g.code, tail, id + 1, id + 1 + ExprIds(d.body));
    var body := [Prologue] + g.code + tail;
    PlacedHere(ThunkOf(f), body, []);
    assert [Lbl(ThunkOf(f)), Prologue] + g.code + tail == [Lbl(ThunkOf(f))] + body + [];
  }

  lemma {:induction false} DirectLabels(f: string, fn: Code, lv: Code, id: int, mid: int, hi: int)
    requires Within(fn, id, mid) && LevelLabels(lv, f, 1, mid, hi) && id <= mid <= hi
    ensures var thunk := [Lbl(ThunkOf(f)), Prologue] + MkClosureCode(SLevel(f, 1), []) + [Epilogue];
            && OwnLabels(thunk + ([Lbl(Direct(f))] + fn) + lv, f, id, hi)
            && (forall l :: Lbl(l) in thunk ==> l == ThunkOf(f))
            && forall j :: Lbl(Level(f, j)) !in thunk + ([Lbl(Direct(f))] + fn)
  {
    hide MkClosureCode;
    MkClosureLabels(SLevel(f, 1), []);
  }

  lemma {:induction false} DirectHolds(P: Prog, id: int, f: string, d: ODef)
    requires EmitDef(P, id, f, d).Some? && d.params != [] && d.direct
    ensures var g := The(EmitDef(P, id, f, d));
            && g.id == id + DefIds(d) && OwnLabels(g.code, f, id, g.id) && DefIn(P, id, f, d, g.code)
            && AllIn(P, LamsE(BodyId(id, d), d.body), g.code)
  {
    hide AllIn, Placed, FnnCode, EmitLevels, LevelCode, MkClosureCode, OwnLabels, LevelLabels, Within;
    var thunk := [Lbl(ThunkOf(f)), Prologue] + MkClosureCode(SLevel(f, 1), []) + [Epilogue];
    var fn := FnnCode(P, id, d).value;
    var lv := EmitLevels(P, fn.id, f, d, 1).value;
    var entry := [Lbl(Direct(f))] + fn.code;
    FnnHolds(P, id, d);
    LevelsHold(P, fn.id, id, f, d, 1);
    DirectLabels(f, fn.code, lv.code, id, fn.id, lv.id);
    LamsEKeyed(BodyId(id, d), d.body);
    AllRight(P, LamsE(BodyId(id, d), d.body), [Lbl(Direct(f))], fn.code);
    AllAfter(P, LamsE(BodyId(id, d), d.body), thunk, entry, lv.code, BodyId(id, d), fn.id);
    LevelsShift(P, id, f, d, thunk + entry, lv.code);
    PlacedHere(Direct(f), fn.code, lv.code);
    PlacedRight(thunk, entry + lv.code, Direct(f), fn.code);
    assert thunk + (entry + lv.code) == thunk + entry + lv.code;
    ThunkPlaced(f, entry + lv.code);
  }

  // ---------- all definitions ----------

  // Every definition of the list stands in the text.
  ghost predicate DefsIn(P: Prog, id: int, defs: Defs, code: Code)
    decreases |defs|
  {
    defs != [] ==> DefIn(P, id, defs[0].0, defs[0].1, code) && DefsIn(P, id + DefIds(defs[0].1), defs[1..], code)
  }

  ghost predicate DefsLabels(code: Code, defs: Defs, lo: int, hi: int) {
    forall l :: Lbl(l) in code ==> if l.Loc? then lo <= l.id < hi else Named(l.fn, defs)
  }

  lemma {:induction false} DefLeft(P: Prog, id: int, f: string, d: ODef, a: Code, b: Code)
    requires DefIn(P, id, f, d, a)
    ensures DefIn(P, id, f, d, a + b)
  {
    hide LevelCode, Placed, FnnCode, Ce, MkClosureCode;
    var base := BaseOf(id, d);
    if d.params == [] {
      PlacedLeft(a, b, ThunkOf(f), [Prologue] + Ce(P, id + 1, [], 0, Loc(KEnd, id), d.body).value.code
          + [Lbl(Loc(KEnd, id)), Epilogue]);
    } else {
      PlacedLeft(a, b, ThunkOf(f), [Prologue] + MkClosureCode(SLevel(f, 1), []) + [Epilogue]);
      if d.direct { PlacedLeft(a, b, Direct(f), FnnCode(P, base, d).value.code); }
    }
    forall j | 1 <= j <= |d.params| ensures Placed(a + b, Level(f, j), LevelCode(P, base, f, d, j).value.code) {
      PlacedLeft(a, b, Level(f, j), LevelCode(P, base, f, d, j).value.code);
    }
  }

  lemma {:induction false} DefRight(P: Prog, id: int, f: string, d: ODef, a: Code, b: Code)
    requires DefIn(P, id, f, d, b) && forall l :: Lbl(l) in a ==> l.Loc? || l.fn != f
    ensures DefIn(P, id, f, d, a + b)
  {
    hide LevelCode, Placed, FnnCode, Ce, MkClosureCode;
    var base := BaseOf(id, d);
    if d.params == [] {
      PlacedRight(a, b, ThunkOf(f), [Prologue] + Ce(P, id + 1, [], 0, Loc(KEnd, id), d.body).value.code
          + [Lbl(Loc(KEnd, id)), Epilogue]);
    } else {
      PlacedRight(a, b, ThunkOf(f), [Prologue] + MkClosureCode(SLevel(f, 1), []) + [Epilogue]);
      if d.direct { PlacedRight(a, b, Direct(f), FnnCode(P, base, d).value.code); }
    }
    forall j | 1 <= j <= |d.params| ensures Placed(a + b, Level(f, j), LevelCode(P, base, f, d, j).value.code) {
      PlacedRight(a, b, Level(f, j), LevelCode(P, base, f, d, j).value.code);
    }
  }

  lemma {:induction false} DefsRight(P: Prog, id: int, defs: Defs, a: Code, b: Code)
    requires DefsIn(P, id, defs, b)
    requires forall l, j :: Lbl(l) in a && 0 <= j < |defs| ==> l.Loc? || l.fn != defs[j].0
    ensures DefsIn(P, id, defs, a + b)
    decreases |defs|
  {
    hide DefIn;
    if defs != [] {
      DefRight(P, id, defs[0].0, defs[0].1, a, b);
      DefsRight(P, id + DefIds(defs[0].1), defs[1..], a, b);
    }
  }

  lemma {:induction false} DefsHold(P: Prog, id: int, defs: Defs)
    requires EmitDefs(P, id, defs).Some? && Tabled(P, id, defs)
    ensures var g := The(EmitDefs(P, id, defs));
            && id <= g.id && DefsIn(P, id, defs, g.code) && DefsLabels(g.code, defs, id, g.id)
            && AllIn(P, LamsDefs(id, defs), g.code) && Keyed(LamsDefs(id, defs), id, g.id)
    decreases |defs|
  {
    hide AllIn, DefIn, EmitDef, Keyed;
    if defs == [] {
      NoneIn(P, []);
      NoneKeyed(id);
    } else {
      var (f, d) := defs[0];
      var g := EmitDef(P, id, f, d).value;
      var rest := EmitDefs(P, g.id, defs[1..]).value;
      DefHolds(P, id, f, d);
      DefsHold(P, g.id, defs[1..]);
      DefLeft(P, id, f, d, g.code, rest.code);
      OthersNames(g.code, f, id, g.id, defs);
      DefsRight(P, g.id, defs[1..], g.code, rest.code);
      LamsEKeyed(BodyId(id, d), d.body);
      JoinKeyed(LamsE(BodyId(id, d), d.body), LamsDefs(g.id, defs[1..]), BodyId(id, d),
          BodyId(id, d) + ExprIds(d.body), id, g.id, rest.id);
      AllLeft(P, LamsE(BodyId(id, d), d.body), g.code, rest.code);
      LowOwn(g.code, f, id, g.id, LamsDefs(g.id, defs[1..]), rest.id);
      AllRight(P, LamsDefs(g.id, defs[1..]), g.code, rest.code);
      AllBoth(P, LamsE(BodyId(id, d), d.body), LamsDefs(g.id, defs[1..]), g.code + rest.code);
      JoinLabels(g.code, rest.code, f, defs, id, g.id, rest.id);
    }
  }

  lemma {:induction false} NoneKeyed(id: int)
    ensures Keyed(LamsDefs(id, []), id, id)
  {
  }

  lemma {:induction false} JoinKeyed(m: map<int, Lam>, m1: map<int, Lam>, lo: int, hi: int, id: int, mid: int, end: int)
    requires Keyed(m, lo, hi) && Keyed(m1, mid, end) && id <= lo && hi <= mid <= end && id <= mid
    ensures Keyed(m + m1, id, end)
  {
  }

  lemma {:induction false} LowOwn(code: Code, f: string, lo: int, hi: int, m: map<int, Lam>, end: int)
    requires OwnLabels(code, f, lo, hi) && Keyed(m, hi, end)
    ensures forall k :: k in m ==> Lbl(Loc(KLam, k)) !in code
  {
  }

  lemma {:induction false} OthersNames(code: Code, f: string, lo: int, hi: int, defs: Defs)
    requires OwnLabels(code, f, lo, hi) && defs != [] && forall j :: 1 <= j < |defs| ==> defs[j].0 != f
    ensures forall l, j :: Lbl(l) in code && 0 <= j < |defs[1..]| ==> l.Loc? || l.fn != defs[1..][j].0
  {
  }

  lemma {:induction false} JoinLabels(a: Code, b: Code, f: string, defs: Defs, lo: int, mid: int, hi: int)
    requires defs != [] && defs[0].0 == f && OwnLabels(a, f, lo, mid) && DefsLabels(b, defs[1..], mid, hi)
    requires lo <= mid <= hi
    ensures DefsLabels(a + b, defs, lo, hi)
  {
    forall l | Lbl(l) in a + b ensures if l.Loc? then lo <= l.id < hi else Named(l.fn, defs) {
      if Lbl(l) in a {
        if !l.Loc? { assert defs[0].0 == l.fn; }
      } else if !l.Loc? {
        var j :| 0 <= j < |defs[1..]| && defs[1..][j].0 == l.fn;
        assert defs[j + 1].0 == l.fn;
      }
    }
  }

  lemma {:induction false} DefAt(P: Prog, id: int, defs: Defs, code: Code, f: string) returns (id1: int)
    requires DefsIn(P, id, defs, code) && Tabled(P, id, defs) && Named(f, defs)
    ensures f in P.defs && f in P.base && AtKey(P.base, f) == BaseOf(id1, AtKey(P.defs, f))
    ensures DefIn(P, id1, f, AtKey(P.defs, f), code)
    decreases |defs|
  {
    hide DefIn;
    if defs[0].0 == f {
      id1 := id;
    } else {
      var j :| 0 <= j < |defs| && defs[j].0 == f;
      assert defs[1..][j - 1].0 == f;
      id1 := DefAt(P, id + DefIds(defs[0].1), defs[1..], code, f);
    }
  }

  // The linker's work: the emitted text holds every routine of the image.
  lemma {:induction false} EmittedLinked(P: Prog, defs: Defs)
    requires EmitDefs(P, 0, defs).Some? && Image(P, defs)
    requires forall f :: f in P.defs && P.defs[f].direct ==> P.defs[f].params != []
    ensures Linked(P, EmitDefs(P, 0, defs).value.code)
  {
    hide DefIn, EmitDefs, LamIn, LamBody, FnnCode, LevelCode, Placed;
    var T := EmitDefs(P, 0, defs).value.code;
    DefsHold(P, 0, defs);
    forall id | id in P.lams ensures LamPlaced(P, T, id) {
      assert LamIn(P, id, P.lams[id], T);
      LamInPlaced(P, T, id);
    }
    forall f | f in P.defs ensures DefPlaced(P, T, f) {
      var id1 := DefAt(P, 0, defs, T, f);
      DefInPlaced(P, T, f, id1);
    }
  }

  lemma {:induction false} LamInPlaced(P: Prog, T: Code, id: int)
    requires id in P.lams && LamIn(P, id, P.lams[id], T)
    ensures LamPlaced(P, T, id)
  {
    hide LamBody, Placed;
  }

  lemma {:induction false} DefInPlaced(P: Prog, T: Code, f: string, id1: int)
    requires f in P.defs && f in P.base && P.base[f] == BaseOf(id1, P.defs[f]) && DefIn(P, id1, f, P.defs[f], T)
    requires P.defs[f].direct ==> P.defs[f].params != []
    ensures DefPlaced(P, T, f)
  {
    hide LevelCode, Placed, FnnCode, Ce, MkClosureCode;
    forall i | 1 <= i <= |P.defs[f].params| ensures LevelPlaced(P, T, f, i) { }
  }

  // ---------- thunks ----------

  // The emitted thunk computes the definition's start-up value.
  lemma {:induction false} ThunkAgrees(P: Prog, defs: Defs, n: nat, x: Regs, w: World, f: string)
    requires EmitDefs(P, 0, defs).Some? && Image(P, defs) && f in P.defs && HeapOk(w.heap)
    requires Ready(P, The(EmitDefs(P, 0, defs)).code)
    ensures var T := The(EmitDefs(P, 0, defs)).code;
            Agree(Thunk(P, n, w, f), RunFn(P, T, n, ThunkOf(f), x, w))
  {
    hide DefIn, EmitDefs, Ready, HeapOk, Tabled, RunFn, Agree;
    var T := EmitDefs(P, 0, defs).value.code;
    DefsHold(P, 0, defs);
    var id1 := DefAt(P, 0, defs, T, f);
    DefThunk(P, T, f, id1);
    if P.defs[f].params == [] {
      ValueThunkAgrees(P, T, n, x, w, f, id1);
    } else {
      FnThunkAgrees(P, T, n, x, w, f);
    }
  }

  lemma {:induction false} DefThunk(P: Prog, T: Code, f: string, id: int)
    requires f in P.defs && DefIn(P, id, f, AtKey(P.defs, f), T)
    ensures ThunkIn(P, id, f, AtKey(P.defs, f), T)
  {
    hide ThunkIn, LevelCode, Placed, FnnCode;
  }

  lemma {:induction false} ValueThunkAgrees(P: Prog, T: Code, n: nat, x: Regs, w: World, f: string, id: int)
    requires Ready(P, T) && HeapOk(w.heap) && f in P.defs && f in P.base && AtKey(P.base, f) == id
    requires AtKey(P.defs, f).params == []
    requires ThunkIn(P, id, f, AtKey(P.defs, f), T)
    ensures Agree(Thunk(P, n, w, f), RunFn(P, T, n, ThunkOf(f), x, w))
  {
    hide Exec, HeapOk, Ready, ScopeOk, Ce, Ev, RunFn, ExprOk;
    var d := P.defs[f];
    var g := Ce(P, id + 1, [], 0, Loc(KEnd, id), d.body).value;
    var tail := [Lbl(Loc(KEnd, id)), Epilogue];
    var rest := PlacedAt(P, T, n, ThunkOf(f), [Prologue] + g.code + tail, x, w);
    var s := MState(x, Junk(P, w), None, w);
    JunkSize(P, w);
    DefReady(P, T, f);
    EmptyScope(0, s.slots);
    assert Start(P, T, [], 0, map[], s);
    One(P, T, n, Prologue, s);
    CeRuns(P, T, n, id + 1, [], 0, map[], s, Loc(KEnd, id), d.body);
    var r := Ev(P, n, id + 1, map[], w, d.body);
    BodyReturns(P, T, n, [Prologue], g.code, id, rest, s, s, 0, r);
    SmallExpr(s, 0, Loc(KEnd, id), r, Exec(P, T, n, g.code, s));
  }

  lemma {:induction false} FnThunkIs(P: Prog, n: nat, w: World, f: string)
    requires f in P.defs && f in P.base && P.defs[f].params != []
    ensures Thunk(P, n, w, f)
         == if SLevel(f, 1) in P.addr then Build(P, w, T_CLOSURE, [P.addr[SLevel(f, 1)], 0]) else Stop(Stuck)
  {
    hide Build;
  }

  lemma {:induction false} NoSlots(slots: seq<Word>)
    ensures SlotVals(slots, []) == []
  {
  }

  lemma {:induction false} FnThunkAgrees(P: Prog, T: Code, n: nat, x: Regs, w: World, f: string)
    requires Ready(P, T) && HeapOk(w.heap) && f in P.defs && f in P.base && P.defs[f].params != []
    requires Placed(T, ThunkOf(f), [Prologue] + MkClosureCode(SLevel(f, 1), []) + [Epilogue])
    ensures Agree(Thunk(P, n, w, f), RunFn(P, T, n, ThunkOf(f), x, w))
  {
    hide Exec, HeapOk, Ready, MkClosureCode, RunFn, Build, SlotVals, Thunk, Placed, ImageOk;
    FnThunkIs(P, n, w, f);
    NoSlots(Junk(P, w));
    var mk := MkClosureCode(SLevel(f, 1), []);
    var rest := PlacedAt(P, T, n, ThunkOf(f), [Prologue] + mk + [Epilogue], x, w);
    var s := MState(x, Junk(P, w), None, w);
    JunkSize(P, w);
    SmallStop(Stuck);
    if SLevel(f, 1) in P.addr {
      ReadyImage(P, T);
      Front(P, T, n, Prologue, mk, s);
      ClosureRuns(P, T, n, s, SLevel(f, 1), []);
      var words := [P.addr[SLevel(f, 1)], 0];
      assert words + SlotVals(s.slots, []) == words;
      BuildHeap(P, w, T_CLOSURE, words);
      var r := Build(P, w, T_CLOSURE, words);
      MadeReturns(P, T, n, s, [Prologue] + mk, rest, r, Exec(P, T, n, mk, s));
      assert [Prologue] + mk + [Epilogue] + rest == [Prologue] + mk + ([Epilogue] + rest);
    }
  }
}

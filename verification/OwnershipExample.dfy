// A program that meets the hypotheses of the ownership theorems: it swaps a
// pair in place, in the block it was given.
module OwnershipExample {
  import opened Types
  import opened Syntax
  import opened RcHeap
  import opened Oir
  import opened Ownership
  import opened OwnershipSound

  // case p of (a, b) -> (b, a), as the ownership pass leaves it: the parts are
  // kept, the pair's block is given up as a token and taken for the result.
  function Reuse(): OExpr {
    ODropReuse("p", "t", OLet("r", PMkTup([AVar("b"), AVar("a")], "t"), ORet(AVar("r"))))
  }

  function Swap(): OExpr {
    OCase(AVar("p"), [OBranch(PTup([PVar("a"), PVar("b")]), ODup("a", ODup("b", Reuse())))])
  }

  function SwapDef(): ODef { ODef([PVar("p")], Swap(), [true], true) }

  // Some address the heap does not use.
  lemma {:induction false} FreeAddress(h: Heap)
    ensures exists p :: IsRef(p) && p !in h
  {
    var p := AboveAll(h.Keys);
    assert IsRef(p) && p !in h;
  }

  lemma {:induction false} AboveAll(s: set<Word>) returns (p: Word)
    ensures IsRef(p) && p > 0 && forall q :: q in s ==> q < p
  {
    p := 4;
    if exists q :: q in s {
      var q :| q in s;
      var p0 := AboveAll(s - {q});
      p := if q < p0 then p0 else 2 * (if q < 0 then -q else q) + 2;
      assert forall r :: r in s ==> r == q || r in s - {q};
    }
  }

  ghost function Free(h: Heap): (p: Word)
    ensures IsRef(p) && p !in h
  {
    FreeAddress(h);
    var p :| IsRef(p) && p !in h;
    p
  }

  ghost function Program(): Prog {
    Prog(map[], map[], map["swap" := SwapDef()], map["swap" := 0], map[], map[], map[],
         (t: int, h: Heap) => Free(h), (t: int, f: string, vs: seq<Word>, h: Heap) => BUnit, (t: int) => [])
  }

  lemma {:induction false} TakeOne(c: Ctx, x: string, rest: seq<OAtom>, n: nat)
    requires x in c.own && n > 0
    ensures Take(c, [AVar(x)] + rest, Trues(n)) == Take(Consume(c, x), rest, Trues(n - 1))
  {
    assert ([AVar(x)] + rest)[1..] == rest;
    assert Trues(n)[1..] == Trues(n - 1);
  }

  lemma {:induction false} LentTrue(c: Ctx, atoms: seq<OAtom>)
    ensures Lent(c, atoms, Trues(|atoms|))
    decreases |atoms|
  {
    if atoms != [] {
      assert Trues(|atoms|)[1..] == Trues(|atoms| - 1);
      LentTrue(c, atoms[1..]);
    }
  }

  lemma {:induction false} ConsumeIs(own: multiset<string>, x: string, toks: set<string>)
    ensures Consume(Ctx(own + multiset{x}, map[], toks), x) == Ctx(own, map[], toks)
  {
    assert own + multiset{x} - multiset{x} == own;
    assert Standing(own, map[]) == map[];
  }

  lemma {:induction false} RetOwned(P: Prog)
    ensures WellOwned(P, Ctx(multiset{"r"}, map[], {}), ORet(AVar("r")))
  {
    hide Consume, Take, Lent;
    var c := Ctx(multiset{"r"}, map[], {});
    assert multiset{} + multiset{"r"} == multiset{"r"};
    ConsumeIs(multiset{}, "r", {});
    TakeOne(c, "r", [], 1);
    assert [AVar("r")] + [] == [AVar("r")] && Trues(1) == [true];
    LentTrue(Consume(c, "r"), [AVar("r")]);
    TakeNone(Consume(c, "r"), Trues(0));
  }

  lemma {:induction false} TakeNone(c: Ctx, flags: seq<bool>)
    ensures Take(c, [], flags) == Some(c)
  {
  }

  lemma {:induction false} TupleTaken(P: Prog)
    ensures PrimCtx(P, Ctx(multiset{"a", "b"}, map[], {"t"}), PMkTup([AVar("b"), AVar("a")], "t"))
         == Some(Ctx(multiset{}, map[], {}))
  {
    hide Consume, Take, Lent;
    var c := Ctx(multiset{"a", "b"}, map[], {"t"});
    var c1, c2 := Ctx(multiset{"a"}, map[], {"t"}), Ctx(multiset{}, map[], {"t"});
    assert multiset{"a"} + multiset{"b"} == multiset{"a", "b"} && multiset{} + multiset{"a"} == multiset{"a"};
    ConsumeIs(multiset{"a"}, "b", {"t"});
    ConsumeIs(multiset{}, "a", {"t"});
    TakeOne(c, "b", [AVar("a")], 2);
    TakeOne(c1, "a", [], 1);
    TakeNone(c2, Trues(0));
    assert [AVar("b")] + [AVar("a")] == [AVar("b"), AVar("a")] && [AVar("a")] + [] == [AVar("a")];
    LentTrue(c2, [AVar("b"), AVar("a")]);
    assert {"t"} - {"t"} == {};
  }

  lemma {:induction false} LetOwned(P: Prog)
    ensures WellOwned(P, Ctx(multiset{"a", "b"}, map[], {"t"}),
                      OLet("r", PMkTup([AVar("b"), AVar("a")], "t"), ORet(AVar("r"))))
  {
    hide PrimCtx;
    TupleTaken(P);
    RetOwned(P);
    var c := Ctx(multiset{"a", "b"}, map[], {"t"});
    NotUsed(c, "r");
    var c1 := Ctx(multiset{}, map[], {});
    assert Gain(c1, "r") == Ctx(multiset{"r"}, map[], {});
    hide Gain, Unused;
    UnfoldLet(P, c, "r", PMkTup([AVar("b"), AVar("a")], "t"), ORet(AVar("r")));
  }

  lemma {:induction false} NotUsed(c: Ctx, x: string)
    requires c.bor == map[] && x != "" && x !in c.own && x !in c.toks
    ensures Unused(c, x)
  {
  }

  lemma {:induction false} UnfoldLet(P: Prog, c: Ctx, x: string, p: OPrim, rest: OExpr)
    requires Unused(c, x) && p.PMkTup? && PrimCtx(P, c, p).Some?
    requires WellOwned(P, Gain(The(PrimCtx(P, c, p)), x), rest)
    ensures WellOwned(P, c, OLet(x, p, rest))
  {
    hide Unused, PrimCtx, Gain;
  }

  ghost function Parts(): map<string, string> { map["a" := "p", "b" := "p"] }

  lemma {:induction false} PartsGone()
    ensures Consume(Ctx(multiset{"p", "a", "b"}, Parts(), {}), "p") == Ctx(multiset{"a", "b"}, map[], {})
  {
    assert multiset{"p", "a", "b"} - multiset{"p"} == multiset{"a", "b"};
    assert Standing(multiset{"a", "b"}, Parts()) == map[];
  }

  lemma {:induction false} ReuseOwned(P: Prog)
    ensures WellOwned(P, Ctx(multiset{"p", "a", "b"}, Parts(), {}), Reuse())
  {
    hide Consume, WellOwned;
    LetOwned(P);
    PartsGone();
    var c := Ctx(multiset{"p", "a", "b"}, Parts(), {});
    assert {} + {"t"} == {"t"};
    assert Unused(c, "t");
    hide Unused, Parts;
    UnfoldReuse(P, c, "p", "t", OLet("r", PMkTup([AVar("b"), AVar("a")], "t"), ORet(AVar("r"))));
  }

  lemma {:induction false} UnfoldReuse(P: Prog, c: Ctx, x: string, tok: string, rest: OExpr)
    requires x in c.own && Unused(c, tok)
    requires var c1 := Consume(c, x); WellOwned(P, c1.(toks := c1.toks + {tok}), rest)
    ensures WellOwned(P, c, ODropReuse(x, tok, rest))
  {
    hide Unused, Consume;
  }

  lemma {:induction false} UnfoldDup(P: Prog, c: Ctx, x: string, rest: OExpr)
    requires x != "" && Usable(c, AVar(x)) && WellOwned(P, Gain(c, x), rest)
    ensures WellOwned(P, c, ODup(x, rest))
  {
    hide Usable, Gain;
  }

  lemma {:induction false} PairVars()
    ensures PatVars(PTup([PVar("a"), PVar("b")])) == {"a", "b"}
  {
    assert [PVar("a"), PVar("b")][1..] == [PVar("b")] && [PVar("b")][1..] == [];
    assert PatsVars([PVar("b")]) == {"b"} + PatsVars([]);
    assert PatsVars([PVar("a"), PVar("b")]) == {"a"} + PatsVars([PVar("b")]);
  }

  lemma {:induction false} BranchOwned(P: Prog)
    ensures WellOwned(P, Ctx(multiset{"p"}, Parts(), {}), ODup("a", ODup("b", Reuse())))
  {
    ReuseOwned(P);
    var c := Ctx(multiset{"p"}, Parts(), {});
    var ca, cb := Ctx(multiset{"p", "a"}, Parts(), {}), Ctx(multiset{"p", "a", "b"}, Parts(), {});
    assert Gain(c, "a") == ca && Gain(ca, "b") == cb;
    hide WellOwned, Reuse, Gain;
    UnfoldDup(P, ca, "b", Reuse());
    UnfoldDup(P, c, "a", ODup("b", Reuse()));
  }

  // The judgement holds of the swap.
  lemma {:induction false} SwapOwned(P: Prog)
    ensures WellOwned(P, Ctx(multiset{"p"}, map[], {}), Swap())
  {
    hide Reuse;
    BranchOwned(P);
    PairVars();
    var c, pat := Ctx(multiset{"p"}, map[], {}), PTup([PVar("a"), PVar("b")]);
    assert Lend(c, "p", {"a", "b"}) == Ctx(multiset{"p"}, Parts(), {});
    NotUsed(c, "a");
    NotUsed(c, "b");
    hide Lend, PatVars, Unused;
    var br := OBranch(pat, ODup("a", ODup("b", Reuse())));
    UnfoldCase(P, c, "p", br);
  }

  lemma {:induction false} UnfoldCase(P: Prog, c: Ctx, x: string, br: OBranch)
    requires Usable(c, AVar(x)) && x !in c.bor && forall y :: y in PatVars(br.pat) ==> Unused(c, y)
    requires WellOwned(P, Lend(c, x, PatVars(br.pat)), br.body)
    ensures WellOwned(P, c, OCase(AVar(x), [br]))
  {
    hide Usable, Unused, Lend, PatVars;
    assert [br][1..] == [];
    assert BranchesOwned(P, c, x, []);
    assert BranchesOwned(P, c, x, [br]);
  }

  // So the program meets the hypotheses of the theorems about runs.
  lemma {:induction false} ProgramSetting()
    ensures Setting(Program()) && "swap" in Program().defs
  {
    hide Swap, WellOwned;
    var P, d := Program(), SwapDef();
    SwapOwned(P);
    assert ParamNames([PVar("p")]) == ["p"] by { assert [PVar("p")][1..] == []; }
    assert OfMode(["p"], [true], true) == ["p"] && OfMode(["p"], [true], false) == [];
    assert multiset(["p"]) == multiset{"p"};
    assert AllLent([]) == map[];
    assert DefOwned(P, d);
  }
}

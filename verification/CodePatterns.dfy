// Patterns, operators and closures: the emitted tests fall through with exactly
// the bindings of the match, or branch to the failure label exactly when it
// fails.
module CodePatterns {
  import opened Types
  import opened Syntax
  import opened RcHeap
  import opened Oir
  import opened Machine
  import opened Codegen
  import opened Literals
  import opened CodeSteps
  import opened CodeOperands

  // ---------- tests ----------

  lemma {:induction false} TestRuns(P: Prog, T: Code, n: nat, pre: Code, s: MState, s1: MState, reg: int, c: Word,
                                    fl: Label)
    requires Exec(P, T, n, pre, s) == Fall(s1) && reg in s1.regs && 10 in s1.regs && Reg(s1, 10) == c
    ensures var s2 := s1.(cmp := Some((Reg(s1, reg), c)));
            Exec(P, T, n, pre + [CmpReg(reg, 10), BCond(Ne, fl)], s) == if Reg(s1, reg) == c then Fall(s2)
                else Goto(fl, s2)
  {
    hide Exec;
    SeqFall(P, T, n, pre, [CmpReg(reg, 10), BCond(Ne, fl)], s, s1);
    Front(P, T, n, CmpReg(reg, 10), [BCond(Ne, fl)], s1);
    assert [CmpReg(reg, 10)] + [BCond(Ne, fl)] == [CmpReg(reg, 10), BCond(Ne, fl)];
    var s2 := s1.(cmp := Some((s1.regs[reg], c)));
    OneBCond(P, T, n, Ne, fl, s2);
  }

  lemma {:induction false} ConstTest(P: Prog, T: Code, n: nat, s: MState, reg: int, k: int, fl: Label)
    requires reg in s.regs && reg != 10
    ensures var o := Exec(P, T, n, LoadConst(10, k) + [CmpReg(reg, 10), BCond(Ne, fl)], s);
            && (if s.regs[reg] == Wrap(k) then o.Fall? else o.Goto? && o.l == fl)
            && o.s.w == s.w && o.s.slots == s.slots
  {
    hide Exec, LoadConst, Wrap;
    LoadConstRuns(P, T, n, 10, k, s);
    TestRuns(P, T, n, LoadConst(10, k), s, SetReg(s, 10, Wrap(k)), reg, Wrap(k), fl);
  }

  lemma {:induction false} SymTest(P: Prog, T: Code, n: nat, s: MState, reg: int, sym: Sym, fl: Label)
    requires reg in s.regs && reg != 10 && sym in P.addr
    ensures var o := Exec(P, T, n, [Got(10, sym), CmpReg(reg, 10), BCond(Ne, fl)], s);
            && (if s.regs[reg] == P.addr[sym] then o.Fall? else o.Goto? && o.l == fl)
            && o.s.w == s.w && o.s.slots == s.slots
  {
    hide Exec;
    One(P, T, n, Got(10, sym), s);
    TestRuns(P, T, n, [Got(10, sym)], s, SetReg(s, 10, P.addr[sym]), reg, P.addr[sym], fl);
    assert [Got(10, sym)] + [CmpReg(reg, 10), BCond(Ne, fl)] == [Got(10, sym), CmpReg(reg, 10), BCond(Ne, fl)];
  }

  // Masking the count out of a header leaves size and tag.
  lemma {:induction false} MaskedHeader(b: Block, size: nat, tag: int)
    requires SizeOf(b) <= MAX_WORDS && 0 <= b.tag < 128 && 0 <= tag < 128 && size <= MAX_WORDS + 2
    ensures Header(b) % RC_ONE == 256 * size + tag <==> SizeOf(b) == size && b.tag == tag
    ensures Wrap(256 * size + tag) == 256 * size + tag
  {
    var m := SizeOf(b) * 256 + b.tag;
    assert 0 <= m < RC_ONE;
    MaskRc(b.rc, m);
    WrapSmall(256 * size + tag);
  }

  lemma {:induction false} MaskRc(rc: nat, m: int)
    requires 0 <= m < RC_ONE
    ensures (rc * RC_ONE + m) % RC_ONE == m
  {
  }

  // The header test on the block at a slot.
  // The masked header in x9, and the size and tag wanted in x10.
  lemma {:induction false} HeaderLoads(P: Prog, T: Code, n: nat, s: MState, slot: nat, v: Word)
    requires slot < |s.slots| && s.slots[slot] == v && IsRef(v)
    ensures Exec(P, T, n, [LdrSlot(9, slot), LdrOff(9, 9, 0), Mask40(9)], s)
         == if v !in s.w.heap then Halt(Corrupt) else Fall(SetReg(s, 9, Header(s.w.heap[v]) % RC_ONE))
  {
    hide Exec, Header, IsRef;
    var c2 := [LdrSlot(9, slot)] + [LdrOff(9, 9, 0)];
    FirstWord(P, T, n, s, slot, v);
    assert c2 + [Mask40(9)] == [LdrSlot(9, slot), LdrOff(9, 9, 0), Mask40(9)];
    if v !in s.w.heap {
      SeqHalt(P, T, n, c2, [Mask40(9)], s);
    } else {
      var s2 := SetReg(s, 9, Header(s.w.heap[v]));
      SeqFall(P, T, n, c2, [Mask40(9)], s, s2);
      One(P, T, n, Mask40(9), s2);
      assert SetReg(s2, 9, Header(s.w.heap[v]) % RC_ONE) == SetReg(s, 9, Header(s.w.heap[v]) % RC_ONE);
    }
  }

  lemma {:induction false} FirstWord(P: Prog, T: Code, n: nat, s: MState, slot: nat, v: Word)
    requires slot < |s.slots| && AtIndex(s.slots, slot) == v && IsRef(v)
    ensures Exec(P, T, n, [LdrSlot(9, slot)] + [LdrOff(9, 9, 0)], s)
         == if v !in s.w.heap then Halt(Corrupt) else Fall(SetReg(s, 9, Header(AtKey(s.w.heap, v))))
  {
    hide Exec, Header, IsRef;
    var s1 := SetReg(s, 9, v);
    Front(P, T, n, LdrSlot(9, slot), [LdrOff(9, 9, 0)], s);
    One(P, T, n, LdrOff(9, 9, 0), s1);
    if v in s.w.heap { assert SetReg(s1, 9, Header(s.w.heap[v])) == SetReg(s, 9, Header(s.w.heap[v])); }
  }

  lemma {:induction false} HeaderTestRuns(P: Prog, T: Code, n: nat, s: MState, slot: nat, v: Word, size: nat,
                                          tag: int, fl: Label)
    requires slot < |s.slots| && s.slots[slot] == v && IsRef(v) && HeapOk(s.w.heap)
    requires 0 <= tag < 128 && size <= MAX_WORDS + 2
    ensures var o := Exec(P, T, n, HeaderTest(slot, 256 * size + tag, fl), s);
            if v !in s.w.heap then o == Halt(Corrupt)
            else
              && (if SizeOf(s.w.heap[v]) == size && s.w.heap[v].tag == tag then o.Fall? else o.Goto? && o.l == fl)
              && o.s.w == s.w && o.s.slots == s.slots
  {
    hide Exec, LoadConst, Wrap, Header, IsRef, SizeOf;
    var want := 256 * size + tag;
    var c3 := [LdrSlot(9, slot), LdrOff(9, 9, 0), Mask40(9)];
    var tail := [CmpReg(9, 10), BCond(Ne, fl)];
    HeaderLoads(P, T, n, s, slot, v);
    if v !in s.w.heap {
      SeqHalt(P, T, n, c3, LoadConst(10, want), s);
      SeqHalt(P, T, n, c3 + LoadConst(10, want), tail, s);
    } else {
      var b := s.w.heap[v];
      var s3 := SetReg(s, 9, Header(b) % RC_ONE);
      SeqFall(P, T, n, c3, LoadConst(10, want), s, s3);
      LoadConstRuns(P, T, n, 10, want, s3);
      MaskedHeader(b, size, tag);
      TestRuns(P, T, n, c3 + LoadConst(10, want), s, SetReg(s3, 10, want), 9, want, fl);
    }
  }

  // ---------- the pattern compiler ----------

  // The text agrees with the match.
  ghost predicate CmOk(s: MState, ns: int, sc1: Scope, ns1: int, fl: Label, m: MatchRes, o: Out) {
    match m
    case Yes(env1) => o.Fall? && o.s.w == s.w && Below(o.s.slots, s.slots, ns) && ScopeOk(sc1, ns1, env1, o.s.slots)
    case No => o.Goto? && o.l == fl && o.s.w == s.w && Below(o.s.slots, s.slots, ns)
    case MStop(why) => why != Stuck ==> o == Halt(why)
  }

  lemma {:induction false} CmRuns(P: Prog, T: Code, n: nat, id: int, sc: Scope, ns: nat, env: Env, s: MState, pat: Pat,
                                  reg: int, v: Word, fl: Label)
    requires PatLits(pat)
    requires ImageOk(P) && HeapOk(s.w.heap) && ScopeOk(sc, ns, env, s.slots)
    requires reg in s.regs && Reg(s, reg) == v && reg != 10 && Cm(P, id, sc, ns, pat, reg, fl).Some?
    ensures var c := The(Cm(P, id, sc, ns, pat, reg, fl));
            CmOk(s, ns, c.sc, c.ns, fl, MatchPat(P, n, id, env, s.w.heap, pat, v), Exec(P, T, n, c.code, s))
    decreases pat
  {
    hide Exec, LoadConst, Wrap, ScopeOk, IntWord, HeapOk, CmFields, MatchPats, ValEq, ImageOk;
    match pat
    case PWild => ExecNone(P, T, n, s);
    case PVar(x) =>
      ScopeSize(sc, ns, env, s.slots);
      One(P, T, n, StrSlot(reg, ns), s);
      ScopeBind(sc, ns, env, s.slots, x, v);
    case PInt(k) => LitWord(k); ConstTest(P, T, n, s, reg, TagLit(k), fl);
    case PBool(b) => WrapSmall(BoolWord(b)); ConstTest(P, T, n, s, reg, BoolWord(b), fl);
    case PUnit => if SUnit in P.addr { SymTest(P, T, n, s, reg, SUnit, fl); }
    case PStr(t) => StrRuns(P, T, n, id, sc, ns, env, s, t, reg, v, fl);
    case PTup(ps) => TupRuns(P, T, n, id, sc, ns, env, s, ps, reg, v, fl);
    case PCtor(c, ps) =>
      if |ps| == 0 {
        if SNull(c) in P.addr { SymTest(P, T, n, s, reg, SNull(c), fl); }
      } else {
        CtorRuns(P, T, n, id, sc, ns, env, s, c, ps, reg, v, fl);
      }
  }

  lemma {:induction false} SpillRuns(P: Prog, T: Code, n: nat, sc: Scope, ns: nat, env: Env, s: MState, reg: int,
                                     v: Word)
    requires ScopeOk(sc, ns, env, s.slots) && reg in s.regs && s.regs[reg] == v && ns < SLOTS
    ensures var s1 := s.(slots := s.slots[ns := v]);
            && Exec(P, T, n, [StrSlot(reg, ns)], s) == Fall(s1)
            && ScopeOk(sc, ns + 1, env, s1.slots) && Below(s1.slots, s.slots, ns)
  {
    hide Exec, SlotOf;
    One(P, T, n, StrSlot(reg, ns), s);
    ScopeTmp(sc, ns, env, s.slots, v);
  }

  lemma {:induction false} StrRuns(P: Prog, T: Code, n: nat, id: int, sc: Scope, ns: nat, env: Env, s: MState,
                                   t: string, reg: int, v: Word, fl: Label)
    requires ScopeOk(sc, ns, env, s.slots) && reg in s.regs && Reg(s, reg) == v
    requires Cm(P, id, sc, ns, PStr(t), reg, fl).Some?
    ensures var c := The(Cm(P, id, sc, ns, PStr(t), reg, fl));
            CmOk(s, ns, c.sc, c.ns, fl, MatchPat(P, n, id, env, s.w.heap, PStr(t), v), Exec(P, T, n, c.code, s))
  {
    hide Exec, ScopeOk, ValEq, CmOk;
    var tail := [CmpImm(0, 7), BCond(Ne, fl)];
    var c := Cm(P, id, sc, ns, PStr(t), reg, fl).value;
    if SStr(id) in P.addr {
      var s3 := StrArgs(P, T, n, id, sc, ns, env, s, t, reg, v);
      var lit, args := P.addr[SStr(id)], StrLoad(id, ns, reg, t);
      SeqFall(P, T, n, args, [BlRt(DcValEq)], s, s3);
      OneRt(P, T, n, DcValEq, s3);
      var c3 := args + [BlRt(DcValEq)];
      assert c3 + tail == c.code;
      var r := ValEq(s.w.heap, lit, v, n);
      match r
      case EqStop(why) => SeqHalt(P, T, n, c3, tail, s); StrStops(P, n, id, env, s, t, v, fl, sc, ns);
      case Same(eq) =>
        var s4 := After(s3, BoolWord(eq), s.w);
        SeqFall(P, T, n, c3, tail, s, s4);
        TrueTest(P, T, n, s4, eq, fl);
        var s5 := s4.(cmp := Some((BoolWord(eq), 7)));
        ScopeBelow(sc, ns, env, s.slots, s5.slots);
        StrTested(P, n, id, env, s, s5, t, v, fl, sc, ns, eq);
    } else {
      StrStuck(P, n, id, env, s, t, v, fl, sc, ns, Exec(P, T, n, c.code, s));
    }
  }

  lemma {:induction false} TrueTest(P: Prog, T: Code, n: nat, s: MState, eq: bool, fl: Label)
    requires 0 in s.regs && Reg(s, 0) == BoolWord(eq)
    ensures var s1 := s.(cmp := Some((BoolWord(eq), 7)));
            Exec(P, T, n, [CmpImm(0, 7), BCond(Ne, fl)], s) == if eq then Fall(s1) else Goto(fl, s1)
  {
    hide Exec;
    Front(P, T, n, CmpImm(0, 7), [BCond(Ne, fl)], s);
    assert [CmpImm(0, 7)] + [BCond(Ne, fl)] == [CmpImm(0, 7), BCond(Ne, fl)];
    OneBCond(P, T, n, Ne, fl, s.(cmp := Some((BoolWord(eq), 7))));
  }

  function StrLoad(id: int, ns: nat, reg: int, t: string): Code {
    [Lit(id, t)] + [StrSlot(reg, ns)] + [Got(0, SStr(id))] + [LdrSlot(1, ns)]
  }

  lemma {:induction false} StrArgs(P: Prog, T: Code, n: nat, id: int, sc: Scope, ns: nat, env: Env, s: MState,
                                   t: string, reg: int, v: Word) returns (s3: MState)
    requires ScopeOk(sc, ns, env, s.slots) && reg in s.regs && Reg(s, reg) == v && ns < SLOTS && SStr(id) in P.addr
    ensures Exec(P, T, n, StrLoad(id, ns, reg, t), s) == Fall(s3) && s3.w == s.w && Below(s3.slots, s.slots, ns)
    ensures 0 in s3.regs && Reg(s3, 0) == AtKey(P.addr, SStr(id)) && 1 in s3.regs && Reg(s3, 1) == v
  {
    hide Exec, ScopeOk;
    ScopeSize(sc, ns, env, s.slots);
    SpillRuns(P, T, n, sc, ns, env, s, reg, v);
    var s1 := s.(slots := s.slots[ns := v]);
    Front(P, T, n, Lit(id, t), [StrSlot(reg, ns)], s);
    var c1 := [Lit(id, t)] + [StrSlot(reg, ns)];
    SeqFall(P, T, n, c1, [Got(0, SStr(id))], s, s1);
    One(P, T, n, Got(0, SStr(id)), s1);
    var s2 := SetReg(s1, 0, P.addr[SStr(id)]);
    SeqFall(P, T, n, c1 + [Got(0, SStr(id))], [LdrSlot(1, ns)], s, s2);
    One(P, T, n, LdrSlot(1, ns), s2);
    s3 := SetReg(s2, 1, v);
  }

  lemma {:induction false} StrStuck(P: Prog, n: nat, id: int, env: Env, s: MState, t: string, v: Word, fl: Label,
                                    sc: Scope, ns: nat, o: Out)
    requires SStr(id) !in P.addr
    ensures CmOk(s, ns, sc, ns, fl, MatchPat(P, n, id, env, s.w.heap, PStr(t), v), o)
  {
  }

  lemma {:induction false} StrStops(P: Prog, n: nat, id: int, env: Env, s: MState, t: string, v: Word, fl: Label,
                                    sc: Scope, ns: nat)
    requires SStr(id) in P.addr && ValEq(s.w.heap, P.addr[SStr(id)], v, n).EqStop?
    ensures CmOk(s, ns, sc, ns, fl, MatchPat(P, n, id, env, s.w.heap, PStr(t), v),
                 Halt(ValEq(s.w.heap, P.addr[SStr(id)], v, n).why))
  {
    hide ValEq;
  }

  lemma {:induction false} StrTested(P: Prog, n: nat, id: int, env: Env, s: MState, s1: MState, t: string, v: Word,
                                     fl: Label, sc: Scope, ns: nat, eq: bool)
    requires SStr(id) in P.addr && ValEq(s.w.heap, AtKey(P.addr, SStr(id)), v, n) == Same(eq)
    requires s1.w == s.w && Below(s1.slots, s.slots, ns) && ScopeOk(sc, ns, env, s1.slots)
    ensures CmOk(s, ns, sc, ns, fl, MatchPat(P, n, id, env, s.w.heap, PStr(t), v), if eq then Fall(s1)
        else Goto(fl, s1))
  {
    hide ValEq, ScopeOk;
  }

  lemma {:induction false} TupParts(P: Prog, id: int, sc: Scope, ns: nat, ps: seq<Pat>, reg: int, fl: Label)
    returns (fs: Match)
    requires Cm(P, id, sc, ns, PTup(ps), reg, fl).Some?
    ensures ns < SLOTS && CmFields(P, id, sc, ns + 1, ps, ns, 8, fl) == Some(fs) && fs.ns >= ns + 1
    ensures Cm(P, id, sc, ns, PTup(ps), reg, fl).value
         == fs.(code := [StrSlot(reg, ns)] + HeaderTest(ns, 256 * (1 + |ps|) + T_TUPLE, fl) + fs.code)
  {
    hide CmFields, HeaderTest;
    fs := CmFields(P, id, sc, ns + 1, ps, ns, 8, fl).value;
  }

  lemma {:induction false} TupMatch(P: Prog, n: nat, id: int, env: Env, h: Heap, ps: seq<Pat>, v: Word)
    ensures MatchPat(P, n, id, env, h, PTup(ps), v) ==
      if !IsRef(v) || |ps| > MAX_WORDS then MStop(Stuck)
      else if v !in h then MStop(Corrupt)
      else if h[v].tag == T_TUPLE && |h[v].words| == |ps| then MatchPats(P, n, id, env, h, ps, h[v].words)
      else No
  {
    hide MatchPats, IsRef;
  }

  lemma {:induction false} TupRuns(P: Prog, T: Code, n: nat, id: int, sc: Scope, ns: nat, env: Env, s: MState,
                                   ps: seq<Pat>, reg: int, v: Word, fl: Label)
    requires PatsLits(ps)
    requires ImageOk(P) && HeapOk(s.w.heap) && ScopeOk(sc, ns, env, s.slots)
    requires reg in s.regs && Reg(s, reg) == v && reg != 10 && Cm(P, id, sc, ns, PTup(ps), reg, fl).Some?
    ensures var c := The(Cm(P, id, sc, ns, PTup(ps), reg, fl));
            CmOk(s, ns, c.sc, c.ns, fl, MatchPat(P, n, id, env, s.w.heap, PTup(ps), v), Exec(P, T, n, c.code, s))
    decreases PTup(ps), 0
  {
    hide Exec, ScopeOk, HeapOk, CmFields, MatchPats, HeaderTest, ImageOk, IsRef, Cm, MatchPat, PatsLits;
    var fs := TupParts(P, id, sc, ns, ps, reg, fl);
    TupMatch(P, n, id, env, s.w.heap, ps, v);
    if IsRef(v) && |ps| <= MAX_WORDS {
      ScopeSize(sc, ns, env, s.slots);
      var s1 := s.(slots := s.slots[ns := v]);
      var test := HeaderTest(ns, 256 * (1 + |ps|) + T_TUPLE, fl);
      SpillRuns(P, T, n, sc, ns, env, s, reg, v);
      SeqFall(P, T, n, [StrSlot(reg, ns)], test, s, s1);
      HeaderTestRuns(P, T, n, s1, ns, v, 1 + |ps|, T_TUPLE, fl);
      var o := Exec(P, T, n, [StrSlot(reg, ns)] + test, s);
      if o.Halt? {
        SeqHalt(P, T, n, [StrSlot(reg, ns)] + test, fs.code, s);
      } else if o.Goto? {
        CmFieldsLabels(P, id, sc, ns + 1, ps, ns, 8, fl);
        SeqGoto(P, T, n, [StrSlot(reg, ns)] + test, fs.code, s);
      } else {
        SeqFall(P, T, n, [StrSlot(reg, ns)] + test, fs.code, s, o.s);
        assert s.w.heap[v].words[0..] == s.w.heap[v].words;
        CmFieldsRun(P, T, n, id, sc, ns + 1, env, o.s, ps, ns, 8, v, s.w.heap[v].words, fl);
        CmWeaken(s, o.s, ns, ns + 1, fs.sc, fs.ns, fl, MatchPats(P, n, id, env, s.w.heap, ps, s.w.heap[v].words),
                 Exec(P, T, n, fs.code, o.s));
      }
    }
  }

  // Temporaries at ns and above may change.
  lemma {:induction false} CmWeaken(s: MState, s1: MState, ns: nat, ns0: nat, sc1: Scope, ns1: nat, fl: Label,
                                    m: MatchRes, o: Out)
    requires CmOk(s1, ns0, sc1, ns1, fl, m, o) && s1.w == s.w && Below(s1.slots, s.slots, ns) && ns <= ns0
    ensures CmOk(s, ns, sc1, ns1, fl, m, o)
  {
    hide ScopeOk;
  }

  lemma {:induction false} CtorRuns(P: Prog, T: Code, n: nat, id: int, sc: Scope, ns: nat, env: Env, s: MState,
                                    c: string, ps: seq<Pat>, reg: int, v: Word, fl: Label)
    requires PatsLits(ps)
    requires ImageOk(P) && HeapOk(s.w.heap) && ScopeOk(sc, ns, env, s.slots) && |ps| > 0
    requires reg in s.regs && Reg(s, reg) == v && reg != 10 && Cm(P, id, sc, ns, PCtor(c, ps), reg, fl).Some?
    ensures var g := The(Cm(P, id, sc, ns, PCtor(c, ps), reg, fl));
            CmOk(s, ns, g.sc, g.ns, fl, MatchPat(P, n, id, env, s.w.heap, PCtor(c, ps), v), Exec(P, T, n, g.code, s))
    decreases PCtor(c, ps), 0
  {
    hide Exec, ScopeOk, HeapOk, CmFields, MatchPats, HeaderTest, LoadConst, Wrap, IsRef;
    if IsRef(v) && |ps| <= MAX_WORDS {
      var fs := CmFields(P, id, sc, ns + 1, ps, ns, 16, fl).value;
      ScopeSize(sc, ns, env, s.slots);
      var s1 := s.(slots := s.slots[ns := v]);
      var test := HeaderTest(ns, 256 * (2 + |ps|) + T_ADT, fl);
      var ctest := LoadConst(10, P.cid[c]) + [CmpReg(9, 10), BCond(Ne, fl)];
      var ld := [LdrSlot(9, ns), LdrOff(9, 9, 8)];
      var pre := [StrSlot(reg, ns)] + test;
      assert pre + ld + LoadConst(10, P.cid[c]) + [CmpReg(9, 10), BCond(Ne, fl)] + fs.code
          == pre + ld + ctest + fs.code;
      SpillRuns(P, T, n, sc, ns, env, s, reg, v);
      SeqFall(P, T, n, [StrSlot(reg, ns)], test, s, s1);
      HeaderTestRuns(P, T, n, s1, ns, v, 2 + |ps|, T_ADT, fl);
      var o := Exec(P, T, n, pre, s);
      CmFieldsLabels(P, id, sc, ns + 1, ps, ns, 16, fl);
      LoadConstLabels(10, P.cid[c]);
      if o.Halt? {
        SeqHalt(P, T, n, pre, ld, s);
        SeqHalt(P, T, n, pre + ld, ctest, s);
        SeqHalt(P, T, n, pre + ld + ctest, fs.code, s);
      } else if o.Goto? {
        SeqGoto(P, T, n, pre, ld, s);
        SeqGoto(P, T, n, pre + ld, ctest, s);
        SeqGoto(P, T, n, pre + ld + ctest, fs.code, s);
      } else {
        CtorIdRuns(P, T, n, id, sc, ns, env, o.s, c, ps, v, fl);
        SeqFall(P, T, n, pre, ld + ctest + fs.code, s, o.s);
        assert pre + (ld + ctest + fs.code) == pre + ld + ctest + fs.code;
        CmWeaken(s, o.s, ns, ns + 1, fs.sc, fs.ns, fl, MatchPat(P, n, id, env, s.w.heap, PCtor(c, ps), v),
                 Exec(P, T, n, ld + ctest + fs.code, o.s));
      }
    }
  }

  // The constructor id, after the header test held.
  lemma {:induction false} CtorIdRuns(P: Prog, T: Code, n: nat, id: int, sc: Scope, ns: nat, env: Env, s: MState,
                                      c: string, ps: seq<Pat>, v: Word, fl: Label)
    requires PatsLits(ps)
    requires ImageOk(P) && HeapOk(s.w.heap) && ScopeOk(sc, ns + 1, env, s.slots) && 0 < |ps| <= MAX_WORDS
    requires c in P.ar && P.ar[c] == |ps| && c in P.cid && CmFields(P, id, sc, ns + 1, ps, ns, 16, fl).Some?
    requires s.slots[ns] == v && IsRef(v) && v in s.w.heap && s.w.heap[v].tag == T_ADT
    requires |s.w.heap[v].words| == 1 + |ps|
    ensures var fs := CmFields(P, id, sc, ns + 1, ps, ns, 16, fl).value;
            CmOk(s, ns + 1, fs.sc, fs.ns, fl, MatchPat(P, n, id, env, s.w.heap, PCtor(c, ps), v),
                 Exec(P, T, n, [LdrSlot(9, ns), LdrOff(9, 9, 8)]
                     + (LoadConst(10, P.cid[c]) + [CmpReg(9, 10), BCond(Ne, fl)]) + fs.code, s))
    decreases PCtor(c, ps), 0, 0
  {
    hide Exec, ScopeOk, HeapOk, CmFields, MatchPats, LoadConst, Wrap, IsRef;
    var fs := CmFields(P, id, sc, ns + 1, ps, ns, 16, fl).value;
    var ld, ctest := [LdrSlot(9, ns), LdrOff(9, 9, 8)], LoadConst(10, P.cid[c]) + [CmpReg(9, 10), BCond(Ne, fl)];
    var b := s.w.heap[v];
    var s1 := SetReg(s, 9, b.words[0]);
    ScopeSize(sc, ns + 1, env, s.slots);
    LoadField(P, T, n, s, ns, v, 8);
    SeqFall(P, T, n, ld, ctest, s, s1);
    ConstTest(P, T, n, s1, 9, P.cid[c], fl);
    WrapSmall(P.cid[c]);
    var o := Exec(P, T, n, ld + ctest, s);
    if o.Goto? {
      CmFieldsLabels(P, id, sc, ns + 1, ps, ns, 16, fl);
      SeqGoto(P, T, n, ld + ctest, fs.code, s);
    } else {
      SeqFall(P, T, n, ld + ctest, fs.code, s, o.s);
      CmFieldsRun(P, T, n, id, sc, ns + 1, env, o.s, ps, ns, 16, v, b.words[1..], fl);
    }
  }

  lemma {:induction false} LoadField(P: Prog, T: Code, n: nat, s: MState, slot: nat, v: Word, off: int)
    requires slot < |s.slots| && s.slots[slot] == v && IsRef(v) && v in s.w.heap
    requires off % 8 == 0 && 8 <= off && off / 8 <= |s.w.heap[v].words|
    ensures Exec(P, T, n, [LdrSlot(9, slot), LdrOff(9, 9, off)], s)
        == Fall(SetReg(s, 9, s.w.heap[v].words[off / 8 - 1]))
  {
    hide Exec, IsRef;
    Front(P, T, n, LdrSlot(9, slot), [LdrOff(9, 9, off)], s);
    assert [LdrSlot(9, slot)] + [LdrOff(9, 9, off)] == [LdrSlot(9, slot), LdrOff(9, 9, off)];
    var s1 := SetReg(s, 9, v);
    One(P, T, n, LdrOff(9, 9, off), s1);
    assert SetReg(s1, 9, s.w.heap[v].words[off / 8 - 1]) == SetReg(s, 9, s.w.heap[v].words[off / 8 - 1]);
  }

  lemma {:induction false} FieldParts(P: Prog, id: int, sc: Scope, ns: nat, ps: seq<Pat>, sv: nat, off: int, fl: Label)
    returns (m: Match, rest: Match)
    requires ps != [] && CmFields(P, id, sc, ns, ps, sv, off, fl).Some?
    ensures Cm(P, id, sc, ns, ps[0], 9, fl) == Some(m)
    ensures CmFields(P, m.id, m.sc, m.ns, ps[1..], sv, off + 8, fl) == Some(rest)
    ensures m.ns >= ns && m.id == id + PatIds(ps[0])
    ensures CmFields(P, id, sc, ns, ps, sv, off, fl).value
        == rest.(code := [LdrSlot(9, sv), LdrOff(9, 9, off)] + m.code + rest.code)
  {
    hide Cm;
    m := Cm(P, id, sc, ns, ps[0], 9, fl).value;
    rest := CmFields(P, m.id, m.sc, m.ns, ps[1..], sv, off + 8, fl).value;
  }

  lemma {:induction false} FieldsNone(P: Prog, T: Code, n: nat, id: int, sc: Scope, ns: nat, env: Env, s: MState,
                                      sv: nat, off: int, vs: seq<Word>, fl: Label)
    requires ScopeOk(sc, ns, env, s.slots) && vs == []
    ensures var c := CmFields(P, id, sc, ns, [], sv, off, fl).value;
            CmOk(s, ns, c.sc, c.ns, fl, MatchPats(P, n, id, env, s.w.heap, [], vs), Exec(P, T, n, c.code, s))
  {
    hide Exec, ScopeOk;
    ExecNone(P, T, n, s);
  }

  lemma {:induction false} CmFieldsRun(P: Prog, T: Code, n: nat, id: int, sc: Scope, ns: nat, env: Env, s: MState,
                                       ps: seq<Pat>, sv: nat, off: int, v: Word, vs: seq<Word>, fl: Label)
    requires PatsLits(ps)
    requires ImageOk(P) && HeapOk(s.w.heap) && ScopeOk(sc, ns, env, s.slots)
    requires CmFields(P, id, sc, ns, ps, sv, off, fl).Some?
    requires sv < ns && s.slots[sv] == v && IsRef(v) && v in s.w.heap && |vs| == |ps|
    requires off % 8 == 0 && 8 <= off && off / 8 - 1 <= |s.w.heap[v].words| && vs == s.w.heap[v].words[off / 8 - 1..]
    ensures var c := CmFields(P, id, sc, ns, ps, sv, off, fl).value;
            CmOk(s, ns, c.sc, c.ns, fl, MatchPats(P, n, id, env, s.w.heap, ps, vs), Exec(P, T, n, c.code, s))
    decreases ps
  {
    hide Exec, ScopeOk, HeapOk, Cm, MatchPat, ImageOk, IsRef, MatchPats;
    if ps == [] {
      FieldsNone(P, T, n, id, sc, ns, env, s, sv, off, vs, fl);
    } else {
      var ld := [LdrSlot(9, sv), LdrOff(9, 9, off)];
      var m, rest := FieldParts(P, id, sc, ns, ps, sv, off, fl);
      ParamsMatch(P, n, id, env, s.w.heap, ps, vs);
      ScopeSize(sc, ns, env, s.slots);
      LoadField(P, T, n, s, sv, v, off);
      var s1 := SetReg(s, 9, vs[0]);
      SeqFall(P, T, n, ld, m.code, s, s1);
      CmRuns(P, T, n, id, sc, ns, env, s1, ps[0], 9, vs[0], fl);
      CmFieldsLabels(P, m.id, m.sc, m.ns, ps[1..], sv, off + 8, fl);
      var r := MatchPat(P, n, id, env, s.w.heap, ps[0], vs[0]);
      match r
      case Yes(env1) =>
        var s2 := Exec(P, T, n, m.code, s1).s;
        SeqFall(P, T, n, ld + m.code, rest.code, s, s2);
        CmFieldsRun(P, T, n, m.id, m.sc, m.ns, env1, s2, ps[1..], sv, off + 8, v, vs[1..], fl);
        CmWeaken(s, s2, ns, m.ns, rest.sc, rest.ns, fl, MatchPats(P, n, m.id, env1, s.w.heap, ps[1..], vs[1..]),
                 Exec(P, T, n, rest.code, s2));
      case No => SeqGoto(P, T, n, ld + m.code, rest.code, s);
      case MStop(why) => if why != Stuck { SeqHalt(P, T, n, ld + m.code, rest.code, s); }
    }
  }

  // ---------- parameters ----------

  // Variables and wildcards load nothing.
  lemma {:induction false} SkipParts(P: Prog, n: nat, id: int, sc: Scope, ns: nat, env: Env, h: Heap, ps: seq<Pat>,
                                     i: nat, vs: seq<Word>, fl: Label)
    requires |vs| == |ps|
    ensures ps == [] ==> BindParams(P, id, sc, ns, ps, i, fl) == Some(Match([], id, sc, ns))
                         && MatchPats(P, n, id, env, h, ps, vs) == Yes(env)
    ensures ps != [] && ps[0].PVar? ==>
      BindParams(P, id, sc, ns, ps, i, fl) == BindParams(P, id, [(ps[0].name, i)] + sc, ns, ps[1..], i + 1, fl)
      && MatchPats(P, n, id, env, h, ps, vs) == MatchPats(P, n, id, env[ps[0].name := vs[0]], h, ps[1..], vs[1..])
    ensures ps != [] && ps[0].PWild? ==>
      BindParams(P, id, sc, ns, ps, i, fl) == BindParams(P, id, sc, ns, ps[1..], i + 1, fl)
      && MatchPats(P, n, id, env, h, ps, vs) == MatchPats(P, n, id, env, h, ps[1..], vs[1..])
  {
    hide Cm;
  }

  lemma {:induction false} ParamsRun(P: Prog, T: Code, n: nat, id: int, sc: Scope, ns: nat, env: Env, s: MState,
                                     ps: seq<Pat>, i: nat, vs: seq<Word>, fl: Label)
    requires PatsLits(ps)
    requires ImageOk(P) && HeapOk(s.w.heap) && ScopeOk(sc, ns, env, s.slots)
    requires BindParams(P, id, sc, ns, ps, i, fl).Some?
    requires |vs| == |ps| && i + |ps| <= ns && s.slots[i..i + |ps|] == vs
    ensures var c := BindParams(P, id, sc, ns, ps, i, fl).value;
            CmOk(s, ns, c.sc, c.ns, fl, MatchPats(P, n, id, env, s.w.heap, ps, vs), Exec(P, T, n, c.code, s))
    decreases ps
  {
    hide Exec, ScopeOk, HeapOk, Cm, ImageOk, BindParams, MatchPats;
    ScopeSize(sc, ns, env, s.slots);
    SkipParts(P, n, id, sc, ns, env, s.w.heap, ps, i, vs, fl);
    if ps == [] {
      ExecNone(P, T, n, s);
    } else {
      assert s.slots[i] == vs[0] && s.slots[i + 1..i + |ps|] == vs[1..];
      if ps[0].PVar? {
        ScopeAlias(sc, ns, env, s.slots, ps[0].name, i);
        ParamsRun(P, T, n, id, [(ps[0].name, i)] + sc, ns, env[ps[0].name := vs[0]], s, ps[1..], i + 1, vs[1..], fl);
      } else if ps[0].PWild? {
        ParamsRun(P, T, n, id, sc, ns, env, s, ps[1..], i + 1, vs[1..], fl);
      } else {
        ParamRuns(P, T, n, id, sc, ns, env, s, ps, i, vs, fl);
      }
    }
  }

  lemma {:induction false} ParamParts(P: Prog, id: int, sc: Scope, ns: nat, ps: seq<Pat>, i: nat, fl: Label)
    returns (m: Match, rest: Match)
    requires ps != [] && !ps[0].PVar? && !ps[0].PWild? && BindParams(P, id, sc, ns, ps, i, fl).Some?
    ensures Cm(P, id, sc, ns, ps[0], 0, fl) == Some(m)
    ensures BindParams(P, m.id, m.sc, m.ns, ps[1..], i + 1, fl) == Some(rest)
    ensures m.ns >= ns && m.id == id + PatIds(ps[0])
    ensures var c := BindParams(P, id, sc, ns, ps, i, fl).value;
            c == rest.(code := [LdrSlot(0, i)] + m.code + rest.code)
  {
    hide Cm;
    m := Cm(P, id, sc, ns, ps[0], 0, fl).value;
    rest := BindParams(P, m.id, m.sc, m.ns, ps[1..], i + 1, fl).value;
  }

  lemma {:induction false} ParamsMatch(P: Prog, n: nat, id: int, env: Env, h: Heap, ps: seq<Pat>, vs: seq<Word>)
    requires |ps| == |vs| > 0
    ensures MatchPats(P, n, id, env, h, ps, vs) == match MatchPat(P, n, id, env, h, ps[0], vs[0])
      case Yes(env1) => MatchPats(P, n, id + PatIds(ps[0]), env1, h, ps[1..], vs[1..])
      case No => No
      case MStop(why) => MStop(why)
  {
    hide MatchPat;
  }

  lemma {:induction false} ParamRuns(P: Prog, T: Code, n: nat, id: int, sc: Scope, ns: nat, env: Env, s: MState,
                                     ps: seq<Pat>, i: nat, vs: seq<Word>, fl: Label)
    requires PatsLits(ps)
    requires ImageOk(P) && HeapOk(s.w.heap) && ScopeOk(sc, ns, env, s.slots)
    requires BindParams(P, id, sc, ns, ps, i, fl).Some?
    requires |vs| == |ps| > 0 && i + |ps| <= ns && s.slots[i..i + |ps|] == vs && !ps[0].PVar? && !ps[0].PWild?
    ensures var c := BindParams(P, id, sc, ns, ps, i, fl).value;
            CmOk(s, ns, c.sc, c.ns, fl, MatchPats(P, n, id, env, s.w.heap, ps, vs), Exec(P, T, n, c.code, s))
    decreases ps, 0
  {
    hide Exec, ScopeOk, HeapOk, Cm, ImageOk, MatchPat, BindParams, MatchPats, PatLits;
    ScopeSize(sc, ns, env, s.slots);
    assert s.slots[i] == vs[0];
    var m, rest := ParamParts(P, id, sc, ns, ps, i, fl);
    ParamsMatch(P, n, id, env, s.w.heap, ps, vs);
    var s1 := SetReg(s, 0, vs[0]);
    One(P, T, n, LdrSlot(0, i), s);
    SeqFall(P, T, n, [LdrSlot(0, i)], m.code, s, s1);
    CmRuns(P, T, n, id, sc, ns, env, s1, ps[0], 0, vs[0], fl);
    BindParamsLabels(P, m.id, m.sc, m.ns, ps[1..], i + 1, fl);
    var r := MatchPat(P, n, id, env, s.w.heap, ps[0], vs[0]);
    match r
    case Yes(env1) =>
      var s2 := Exec(P, T, n, m.code, s1).s;
      SeqFall(P, T, n, [LdrSlot(0, i)] + m.code, rest.code, s, s2);
      assert s2.slots[i + 1..i + |ps|] == vs[1..];
      ParamsRun(P, T, n, m.id, m.sc, m.ns, env1, s2, ps[1..], i + 1, vs[1..], fl);
      CmWeaken(s, s2, ns, m.ns, rest.sc, rest.ns, fl, MatchPats(P, n, m.id, env1, s.w.heap, ps[1..], vs[1..]),
               Exec(P, T, n, rest.code, s2));
    case No => SeqGoto(P, T, n, [LdrSlot(0, i)] + m.code, rest.code, s);
    case MStop(why) => if why != Stuck { SeqHalt(P, T, n, [LdrSlot(0, i)] + m.code, rest.code, s); }
  }
}

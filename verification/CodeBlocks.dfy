// Operators, filled blocks and closures.
module CodeBlocks {
  import opened Types
  import opened RcHeap
  import opened Trampoline
  import opened Oir
  import opened Machine
  import opened Codegen
  import opened Literals
  import opened CodeSteps
  import opened CodeOperands

  // Ill-typed steps are not compared, and divisions by zero are treated apart.
  predicate Compared(why: Why) { why != Stuck && why != DivZero }

  // The text computes r into x0 and leaves the slots below ns alone.
  ghost predicate ValueOk(s: MState, ns: nat, r: Res, o: Out) {
    match r
    case Done(v, w1) => o.Fall? && o.s.w == w1 && Below(o.s.slots, s.slots, ns) && 0 in o.s.regs && o.s.regs[0] == v
    case Stop(why) => Compared(why) ==> o == Halt(why)
  }

  // ---------- operators ----------

  lemma {:induction false} IntPair(a: Word)
    requires IsInt(a)
    ensures a == 4 * IntOf(a) + 1 && a / 4 == IntOf(a)
  {
  }

  lemma {:induction false} SumWord(x: int, y: int)
    ensures Wrap(Wrap(4 * x + 1 + (4 * y + 1)) - 1) == IntWord(x + y)
    ensures Wrap(Wrap(4 * x + 1 - (4 * y + 1)) + 1) == IntWord(x - y)
  {
    hide Wrap, IntWord;
    WrapAdd(4 * x + 1 + (4 * y + 1), -1);
    TagWrap(x + y);
    WrapAdd(4 * x + 1 - (4 * y + 1), 1);
    TagWrap(x - y);
  }

  lemma {:induction false} RemWord(x: int, y: int)
    requires y != 0
    ensures Wrap(x - Wrap(TruncDiv(x, y)) * y) == Wrap(x - y * TruncDiv(x, y))
  {
    hide Wrap, TruncDiv;
    var q := TruncDiv(x, y);
    WrapIs(q);
    var k := Turns(q);
    Distribute(q, k, y);
    MinusTurns(x, q, k, y);
    WrapSame(x - Wrap(q) * y, x - y * q, -(k * y));
  }

  lemma {:induction false} MinusTurns(x: int, q: int, k: int, y: int)
    requires (q + W64 * k) * y == q * y + W64 * (k * y)
    ensures x - (q + W64 * k) * y == (x - y * q) + W64 * (-(k * y))
  {
  }

  lemma {:induction false} AddOp(P: Prog, T: Code, n: nat, id: int, s: MState, a: Word, b: Word)
    requires 0 in s.regs && 1 in s.regs && Reg(s, 0) == a && Reg(s, 1) == b && IsInt(a) && IsInt(b)
    ensures ValueOk(s, SLOTS, EvBin(P, n, s.w, "+", a, b), Exec(P, T, n, The(OpCode("+", id)).code, s))
  {
    hide Exec, Wrap, IntWord;
    IntPair(a);
    IntPair(b);
    SumWord(IntOf(a), IntOf(b));
    Front(P, T, n, AddRR(0, 0, 1), [SubImm(0, 0, 1)], s);
    assert [AddRR(0, 0, 1)] + [SubImm(0, 0, 1)] == [AddRR(0, 0, 1), SubImm(0, 0, 1)];
    One(P, T, n, SubImm(0, 0, 1), SetReg(s, 0, Wrap(a + b)));
  }

  lemma {:induction false} SubOp(P: Prog, T: Code, n: nat, id: int, s: MState, a: Word, b: Word)
    requires 0 in s.regs && 1 in s.regs && Reg(s, 0) == a && Reg(s, 1) == b && IsInt(a) && IsInt(b)
    ensures ValueOk(s, SLOTS, EvBin(P, n, s.w, "-", a, b), Exec(P, T, n, The(OpCode("-", id)).code, s))
  {
    hide Exec, Wrap, IntWord;
    IntPair(a);
    IntPair(b);
    SumWord(IntOf(a), IntOf(b));
    Front(P, T, n, SubRR(0, 0, 1), [AddImm(0, 0, 1)], s);
    assert [SubRR(0, 0, 1)] + [AddImm(0, 0, 1)] == [SubRR(0, 0, 1), AddImm(0, 0, 1)];
    One(P, T, n, AddImm(0, 0, 1), SetReg(s, 0, Wrap(a - b)));
  }

  lemma {:induction false} UntagRuns(P: Prog, T: Code, n: nat, s: MState, a: Word, b: Word)
    requires 0 in s.regs && 1 in s.regs && Reg(s, 0) == a && Reg(s, 1) == b && IsInt(a) && IsInt(b)
    ensures Exec(P, T, n, [Asr2(0, 0), Asr2(1, 1)], s) == Fall(SetReg(SetReg(s, 0, IntOf(a)), 1, IntOf(b)))
  {
    hide Exec;
    IntPair(a);
    IntPair(b);
    Front(P, T, n, Asr2(0, 0), [Asr2(1, 1)], s);
    assert [Asr2(0, 0)] + [Asr2(1, 1)] == [Asr2(0, 0), Asr2(1, 1)];
    One(P, T, n, Asr2(1, 1), SetReg(s, 0, IntOf(a)));
  }

  lemma {:induction false} RetagRuns(P: Prog, T: Code, n: nat, s: MState, m: int)
    requires 0 in s.regs && s.regs[0] == Wrap(m)
    ensures var o := Exec(P, T, n, [Lsl2(0), AddImm(0, 0, 1)], s);
            o.Fall? && o.s.w == s.w && o.s.slots == s.slots && 0 in o.s.regs && o.s.regs[0] == IntWord(m)
  {
    hide Exec, Wrap, IntWord;
    Front(P, T, n, Lsl2(0), [AddImm(0, 0, 1)], s);
    assert [Lsl2(0)] + [AddImm(0, 0, 1)] == [Lsl2(0), AddImm(0, 0, 1)];
    One(P, T, n, AddImm(0, 0, 1), SetReg(s, 0, Wrap(Wrap(m) * 4)));
    Retag(m);
  }

  lemma {:induction false} MulOp(P: Prog, T: Code, n: nat, id: int, s: MState, a: Word, b: Word)
    requires 0 in s.regs && 1 in s.regs && Reg(s, 0) == a && Reg(s, 1) == b && IsInt(a) && IsInt(b)
    ensures ValueOk(s, SLOTS, EvBin(P, n, s.w, "*", a, b), Exec(P, T, n, The(OpCode("*", id)).code, s))
  {
    hide Exec, Wrap, IntWord, TruncDiv, IntOf;
    var x, y := IntOf(a), IntOf(b);
    var untag, mid, retag := [Asr2(0, 0), Asr2(1, 1)], [MulRR(0, 0, 1)], [Lsl2(0), AddImm(0, 0, 1)];
    var s1 := SetReg(SetReg(s, 0, x), 1, y);
    var s2 := SetReg(s1, 0, Wrap(x * y));
    UntagRuns(P, T, n, s, a, b);
    assert untag + mid + retag == OpCode("*", id).value.code;
    SeqFall(P, T, n, untag, mid, s, s1);
    One(P, T, n, MulRR(0, 0, 1), s1);
    SeqFall(P, T, n, untag + mid, retag, s, s2);
    RetagRuns(P, T, n, s2, x * y);
  }

  lemma {:induction false} DivOp(P: Prog, T: Code, n: nat, id: int, s: MState, a: Word, b: Word)
    requires 0 in s.regs && 1 in s.regs && Reg(s, 0) == a && Reg(s, 1) == b && IsInt(a) && IsInt(b) && IntOf(b) != 0
    ensures ValueOk(s, SLOTS, EvBin(P, n, s.w, "/", a, b), Exec(P, T, n, The(OpCode("/", id)).code, s))
  {
    hide Exec, Wrap, IntWord, TruncDiv, IntOf;
    var x, y := IntOf(a), IntOf(b);
    var untag, mid, retag := [Asr2(0, 0), Asr2(1, 1)], [Sdiv(0, 0, 1)], [Lsl2(0), AddImm(0, 0, 1)];
    var s1 := SetReg(SetReg(s, 0, x), 1, y);
    var s2 := SetReg(s1, 0, Wrap(TruncDiv(x, y)));
    UntagRuns(P, T, n, s, a, b);
    assert untag + mid + retag == OpCode("/", id).value.code;
    SeqFall(P, T, n, untag, mid, s, s1);
    One(P, T, n, Sdiv(0, 0, 1), s1);
    SeqFall(P, T, n, untag + mid, retag, s, s2);
    RetagRuns(P, T, n, s2, TruncDiv(x, y));
  }

  lemma {:induction false} RemOp(P: Prog, T: Code, n: nat, id: int, s: MState, a: Word, b: Word)
    requires 0 in s.regs && 1 in s.regs && Reg(s, 0) == a && Reg(s, 1) == b && IsInt(a) && IsInt(b) && IntOf(b) != 0
    ensures ValueOk(s, SLOTS, EvBin(P, n, s.w, "%", a, b), Exec(P, T, n, The(OpCode("%", id)).code, s))
  {
    hide Exec, Wrap, IntWord, TruncDiv, IntOf;
    var x, y := IntOf(a), IntOf(b);
    var untag, mid, retag := [Asr2(0, 0), Asr2(1, 1)], [Sdiv(9, 0, 1)] + [Msub(0, 9, 1, 0)], [Lsl2(0), AddImm(0, 0, 1)];
    var s1 := SetReg(SetReg(s, 0, x), 1, y);
    var s2 := SetReg(s1, 9, Wrap(TruncDiv(x, y)));
    UntagRuns(P, T, n, s, a, b);
    assert untag + mid + retag == OpCode("%", id).value.code;
    SeqFall(P, T, n, untag, mid, s, s1);
    Front(P, T, n, Sdiv(9, 0, 1), [Msub(0, 9, 1, 0)], s1);
    One(P, T, n, Msub(0, 9, 1, 0), s2);
    RemWord(x, y);
    var m := x - y * TruncDiv(x, y);
    var s3 := SetReg(s2, 0, Wrap(m));
    SeqFall(P, T, n, untag + mid, retag, s, s3);
    RetagRuns(P, T, n, s3, m);
  }

  lemma {:induction false} CmpRuns(P: Prog, T: Code, n: nat, c: Cond, l: Label, s: MState, a: Word, b: Word)
    requires 0 in s.regs && 1 in s.regs && Reg(s, 0) == a && Reg(s, 1) == b
    ensures var s1 := s.(cmp := Some((a, b)));
            Exec(P, T, n, [CmpReg(0, 1), BCond(c, l)], s) == if Holds(c, a, b) then Goto(l, s1) else Fall(s1)
  {
    hide Exec, Holds;
    Front(P, T, n, CmpReg(0, 1), [BCond(c, l)], s);
    assert [CmpReg(0, 1)] + [BCond(c, l)] == [CmpReg(0, 1), BCond(c, l)];
    OneBCond(P, T, n, c, l, s.(cmp := Some((a, b))));
  }

  lemma {:induction false} CompareOps(P: Prog, T: Code, n: nat, id: int, op: string, s: MState, a: Word, b: Word)
    requires op in ["<", ">", "<=", ">="] && 0 in s.regs && 1 in s.regs && Reg(s, 0) == a && Reg(s, 1) == b
    requires IsInt(a) && IsInt(b)
    ensures ValueOk(s, SLOTS, EvBin(P, n, s.w, op, a, b), Exec(P, T, n, The(OpCode(op, id)).code, s))
  {
    hide Exec, LoadConst;
    IntPair(a);
    IntPair(b);
    var c, lt, ld := CondOf(op), Loc(KTrue, id), Loc(KDone, id);
    var test := [CmpReg(0, 1), BCond(c, lt)];
    var first := test + LoadConst(0, FALSE) + [B(ld)];
    assert test + LoadConst(0, FALSE) + [B(ld), Lbl(lt)] == first + [Lbl(lt)];
    var code := first + [Lbl(lt)] + LoadConst(0, TRUE) + [Lbl(ld)];
    assert code == OpCode(op, id).value.code;
    var s1 := s.(cmp := Some((a, b)));
    CmpRuns(P, T, n, c, lt, s, a, b);
    LoadConstLabels(0, FALSE);
    LoadConstLabels(0, TRUE);
    LoadConstRuns(P, T, n, 0, FALSE, s1);
    LoadConstRuns(P, T, n, 0, TRUE, s1);
    WrapSmall(TRUE);
    WrapSmall(FALSE);
    var last := LoadConst(0, TRUE) + [Lbl(ld)];
    assert first + [Lbl(lt)] + last == code;
    if Holds(c, a, b) {
      SeqGoto(P, T, n, test, LoadConst(0, FALSE), s);
      SeqGoto(P, T, n, test + LoadConst(0, FALSE), [B(ld)], s);
      SeqLand(P, T, n, first, s, lt, last);
      SeqFall(P, T, n, LoadConst(0, TRUE), [Lbl(ld)], s1, SetReg(s1, 0, TRUE));
      One(P, T, n, Lbl(ld), SetReg(s1, 0, TRUE));
    } else {
      SeqFall(P, T, n, test, LoadConst(0, FALSE), s, s1);
      SeqFall(P, T, n, test + LoadConst(0, FALSE), [B(ld)], s, SetReg(s1, 0, FALSE));
      OneB(P, T, n, ld, SetReg(s1, 0, FALSE));
      SeqGoto(P, T, n, first, [Lbl(lt)], s);
      SeqGoto(P, T, n, first + [Lbl(lt)], LoadConst(0, TRUE), s);
      SeqLand(P, T, n, first + [Lbl(lt)] + LoadConst(0, TRUE), s, ld, []);
      assert first + [Lbl(lt)] + LoadConst(0, TRUE) + [Lbl(ld)] + [] == code;
      ExecNone(P, T, n, SetReg(s1, 0, FALSE));
    }
  }

  lemma {:induction false} EqualityOps(P: Prog, T: Code, n: nat, id: int, op: string, s: MState, a: Word, b: Word)
    requires op in ["==", "!="] && 0 in s.regs && 1 in s.regs && Reg(s, 0) == a && Reg(s, 1) == b
    ensures ValueOk(s, SLOTS, EvBin(P, n, s.w, op, a, b), Exec(P, T, n, The(OpCode(op, id)).code, s))
  {
    hide Exec, ValEq;
    OneRt(P, T, n, DcValEq, s);
    var r := ValEq(s.w.heap, a, b, n);
    if op == "!=" {
      assert [BlRt(DcValEq)] + [EorImm4(0)] == [BlRt(DcValEq), EorImm4(0)];
      match r
      case EqStop(why) => SeqHalt(P, T, n, [BlRt(DcValEq)], [EorImm4(0)], s);
      case Same(eq) =>
        var s1 := After(s, BoolWord(eq), s.w);
        SeqFall(P, T, n, [BlRt(DcValEq)], [EorImm4(0)], s, s1);
        One(P, T, n, EorImm4(0), s1);
    }
  }

  lemma {:induction false} ShortOps(P: Prog, T: Code, n: nat, id: int, op: string, s: MState, a: Word, b: Word)
    requires op in ["&&", "||"] && 0 in s.regs && 1 in s.regs && Reg(s, 0) == a && Reg(s, 1) == b && IsBool(a)
    requires IsBool(b)
    ensures ValueOk(s, SLOTS, EvBin(P, n, s.w, op, a, b), Exec(P, T, n, The(OpCode(op, id)).code, s))
  {
    hide Exec;
    var c, l := if op == "&&" then Ne else Eq, Loc(KShort, id);
    assert [CmpImm(0, 7), BCond(c, l)] + [MovRR(0, 1)] + [Lbl(l)] == OpCode(op, id).value.code;
    ShortRuns(P, T, n, s, c, l);
  }

  // x0 stays when the condition holds, else x1 is moved in.
  lemma {:induction false} ShortRuns(P: Prog, T: Code, n: nat, s: MState, c: Cond, l: Label)
    requires 0 in s.regs && 1 in s.regs
    ensures var s1 := s.(cmp := Some((Reg(s, 0), 7)));
            Exec(P, T, n, [CmpImm(0, 7), BCond(c, l)] + [MovRR(0, 1)] + [Lbl(l)], s)
            == Fall(if Holds(c, Reg(s, 0), 7) then s1 else SetReg(s1, 0, Reg(s, 1)))
  {
    hide Exec, Holds;
    var a, b, test := s.regs[0], s.regs[1], [CmpImm(0, 7), BCond(c, l)];
    var s1 := s.(cmp := Some((a, 7)));
    Front(P, T, n, CmpImm(0, 7), [BCond(c, l)], s);
    assert [CmpImm(0, 7)] + [BCond(c, l)] == test;
    OneBCond(P, T, n, c, l, s1);
    if Holds(c, a, 7) {
      SeqGoto(P, T, n, test, [MovRR(0, 1)], s);
      SeqLand(P, T, n, test + [MovRR(0, 1)], s, l, []);
      assert test + [MovRR(0, 1)] + [Lbl(l)] + [] == test + [MovRR(0, 1)] + [Lbl(l)];
      ExecNone(P, T, n, s1);
    } else {
      SeqFall(P, T, n, test, [MovRR(0, 1)], s, s1);
      One(P, T, n, MovRR(0, 1), s1);
      SeqFall(P, T, n, test + [MovRR(0, 1)], [Lbl(l)], s, SetReg(s1, 0, b));
      One(P, T, n, Lbl(l), SetReg(s1, 0, b));
    }
  }

  // Every operator's text computes the operator.
  lemma {:induction false} OpRuns(P: Prog, T: Code, n: nat, id: int, op: string, s: MState, a: Word, b: Word)
    requires 0 in s.regs && 1 in s.regs && Reg(s, 0) == a && Reg(s, 1) == b && OpCode(op, id).Some?
    ensures ValueOk(s, SLOTS, EvBin(P, n, s.w, op, a, b), Exec(P, T, n, The(OpCode(op, id)).code, s))
  {
    hide Exec, ValEq, RtBuiltin, IntOp, ValueOk;
    if op in ["==", "!="] {
      EqualityOps(P, T, n, id, op, s, a, b);
    } else if op == "++" {
      ConcatOp(P, T, n, id, s, a, b);
    } else if op in ["&&", "||"] {
      if IsBool(a) && IsBool(b) {
        ShortOps(P, T, n, id, op, s, a, b);
      } else {
        StuckOk(s, SLOTS, Exec(P, T, n, OpCode(op, id).value.code, s));
      }
    } else if IsInt(a) && IsInt(b) {
      if op == "+" { AddOp(P, T, n, id, s, a, b); }
      else if op == "-" { SubOp(P, T, n, id, s, a, b); }
      else if op == "*" { MulOp(P, T, n, id, s, a, b); }
      else if op in ["/", "%"] { QuotOps(P, T, n, id, op, s, a, b); }
      else { CompareOps(P, T, n, id, op, s, a, b); }
    } else {
      StuckOk(s, SLOTS, Exec(P, T, n, OpCode(op, id).value.code, s));
    }
  }

  lemma {:induction false} QuotOps(P: Prog, T: Code, n: nat, id: int, op: string, s: MState, a: Word, b: Word)
    requires op in ["/", "%"] && 0 in s.regs && 1 in s.regs && Reg(s, 0) == a && Reg(s, 1) == b && IsInt(a) && IsInt(b)
    ensures ValueOk(s, SLOTS, EvBin(P, n, s.w, op, a, b), Exec(P, T, n, The(OpCode(op, id)).code, s))
  {
    hide Exec, IntOf, TruncDiv, IntWord;
    if IntOf(b) == 0 {
    } else if op == "/" {
      DivOp(P, T, n, id, s, a, b);
    } else {
      RemOp(P, T, n, id, s, a, b);
    }
  }

  // The text of a division never stops. With a zero divisor the quotient is
  // zero and the remainder the dividend.
  lemma {:induction false} DivByZero(P: Prog, T: Code, n: nat, id: int, op: string, s: MState, a: Word, b: Word)
    requires op in ["/", "%"] && 0 in s.regs && 1 in s.regs && s.regs[0] == a && s.regs[1] == b && IsInt(a)
    requires IsInt(b) && IntOf(b) == 0
    ensures var o := Exec(P, T, n, OpCode(op, id).value.code, s);
            o.Fall? && 0 in o.s.regs && o.s.regs[0] == if op == "/" then IntWord(0) else IntWord(IntOf(a))
  {
    hide Exec, Wrap, IntWord, IntOf;
    var x := IntOf(a);
    var untag, retag := [Asr2(0, 0), Asr2(1, 1)], [Lsl2(0), AddImm(0, 0, 1)];
    var s1 := SetReg(SetReg(s, 0, x), 1, 0);
    UntagRuns(P, T, n, s, a, b);
    IntPair(a);
    WrapSmall(0);
    if op == "/" {
      var mid := [Sdiv(0, 0, 1)];
      assert untag + mid + retag == OpCode("/", id).value.code;
      SeqFall(P, T, n, untag, mid, s, s1);
      One(P, T, n, Sdiv(0, 0, 1), s1);
      SeqFall(P, T, n, untag + mid, retag, s, SetReg(s1, 0, 0));
      RetagRuns(P, T, n, SetReg(s1, 0, 0), 0);
    } else {
      var mid := [Sdiv(9, 0, 1)] + [Msub(0, 9, 1, 0)];
      assert untag + mid + retag == OpCode("%", id).value.code;
      SeqFall(P, T, n, untag, mid, s, s1);
      Front(P, T, n, Sdiv(9, 0, 1), [Msub(0, 9, 1, 0)], s1);
      One(P, T, n, Msub(0, 9, 1, 0), SetReg(s1, 9, 0));
      var s3 := SetReg(SetReg(s1, 9, 0), 0, Wrap(x));
      SeqFall(P, T, n, untag + mid, retag, s, s3);
      RetagRuns(P, T, n, s3, x);
    }
  }

  // So division is compiled faithfully exactly when the divisor is not zero.
  lemma {:induction false} DivisionExact(P: Prog, T: Code, n: nat, id: int, op: string, s: MState, a: Word, b: Word)
    requires op in ["/", "%"] && 0 in s.regs && 1 in s.regs && s.regs[0] == a && s.regs[1] == b && IsInt(a) && IsInt(b)
    ensures var o := Exec(P, T, n, OpCode(op, id).value.code, s);
            (match EvBin(P, n, s.w, op, a, b)
             case Done(v, w1) => o.Fall? && o.s.w == w1 && 0 in o.s.regs && o.s.regs[0] == v
             case Stop(why) => o == Halt(why))
            <==> IntOf(b) != 0
  {
    hide Exec, IntOf, TruncDiv, IntWord;
    if IntOf(b) == 0 { DivByZero(P, T, n, id, op, s, a, b); } else { QuotOps(P, T, n, id, op, s, a, b); }
  }

  lemma {:induction false} StuckOk(s: MState, ns: nat, o: Out)
    ensures ValueOk(s, ns, Stop(Stuck), o)
  {
  }

  lemma {:induction false} ConcatOp(P: Prog, T: Code, n: nat, id: int, s: MState, a: Word, b: Word)
    requires 0 in s.regs && 1 in s.regs && Reg(s, 0) == a && Reg(s, 1) == b
    ensures ValueOk(s, SLOTS, EvBin(P, n, s.w, "++", a, b), Exec(P, T, n, The(OpCode("++", id)).code, s))
  {
    hide Exec, RtBuiltin;
    BuiltinRuns(P, T, n, s, "str_concat", [a, b]);
  }

  // A builtin call with its arguments in x0, x1, ...
  lemma {:induction false} BuiltinRuns(P: Prog, T: Code, n: nat, s: MState, name: string, vs: seq<Word>)
    requires |vs| == BiArgs(name) && forall i :: 0 <= i < |vs| ==> i in s.regs && s.regs[i] == vs[i]
    ensures ValueOk(s, SLOTS, RtBuiltin(P, s.w, name, vs), Exec(P, T, n, [BlRt(DcBi(name))], s))
  {
    hide Exec, RtBuiltin, BiArgs;
    OneRt(P, T, n, DcBi(name), s);
    assert ArgRegs(s.regs, BiArgs(name)) == vs;
  }

  // ---------- filled blocks ----------

  lemma {:induction false} SpliceAll(ws: seq<Word>, vs: seq<Word>)
    requires |vs| == |ws|
    ensures Splice(ws, 0, vs) == vs
  {
  }

  lemma {:induction false} SpliceRest(ws: seq<Word>, c: Word, vs: seq<Word>)
    requires |ws| == 1 + |vs|
    ensures Splice(ws[0 := c], 1, vs) == [c] + vs
  {
  }

  lemma {:induction false} SpliceEnv(ws: seq<Word>, c: Word, k: Word, vs: seq<Word>)
    requires |ws| == 2 + |vs|
    ensures Splice(ws[0 := c][1 := k], 2, vs) == [c, k] + vs
  {
  }

  lemma {:induction false} BuiltIs(P: Prog, w: World, tok: Option<Word>, tag: int, words: seq<Word>)
    requires words != []
    ensures BuildWith(P, w, tok, tag, words) ==
      match Allocated(P, w, tok, |words| + 1)
      case Stop(why) => Stop(why)
      case Done(p, w1) => Done(p, w1.(heap := w1.heap[p := Block(1, tag, words)]))
  {
    hide RtAlloc, RtReuseOrAlloc;
    match tok
    case None =>
      assert Allocated(P, w, tok, |words| + 1) == RtAlloc(P, w, |words| + 1);
      assert BuildWith(P, w, tok, tag, words) == Build(P, w, tag, words);
    case Some(t) =>
      assert Allocated(P, w, tok, |words| + 1) == RtReuseOrAlloc(P, w, t, |words| + 1);
  }

  lemma {:induction false} TupleRuns(P: Prog, T: Code, n: nat, id: int, sc: Scope, ns: nat, env: Env, s: MState,
                                     srcs: seq<Src>, vs: seq<Word>, tok: string, t: Option<Word>)
    requires SrcsLits(srcs)
    requires ImageOk(P) && ScopeOk(sc, ns, env, s.slots) && HeapOk(s.w.heap) && TokOf(env, tok) == Some(t) && vs != []
    requires Alloc(sc, tok, 1 + |vs|, T_TUPLE).Some? && StFields(P, id, sc, srcs, 8).Some?
    requires SrcsHold(P, id, env, s.slots, srcs, vs) && Short(vs)
    ensures ValueOk(s, SLOTS, BuildWith(P, s.w, t, T_TUPLE, vs),
                    Exec(P, T, n, Alloc(sc, tok, 1 + |vs|, T_TUPLE).value + StFields(P, id, sc, srcs, 8).value.code, s))
  {
    hide Exec, ScopeOk, HeapOk, ImageOk, Alloc, StFields, BuildWith, Allocated, SrcsHold, Splice;
    var al, fs := Alloc(sc, tok, 1 + |vs|, T_TUPLE).value, StFields(P, id, sc, srcs, 8).value.code;
    AllocRuns(P, T, n, sc, ns, env, s, tok, t, 1 + |vs|, T_TUPLE);
    BuiltIs(P, s.w, t, T_TUPLE, vs);
    var r := Allocated(P, s.w, t, 1 + |vs|);
    match r
    case Stop(why) => if Compared(why) { SeqHalt(P, T, n, al, fs, s); }
    case Done(p, w1) =>
      var s1 := Exec(P, T, n, al, s).s;
      SeqFall(P, T, n, al, fs, s, s1);
      FieldsRun(P, T, n, id, sc, ns, env, s1, srcs, vs, 8, p);
      SpliceAll(w1.heap[p].words, vs);
      Refilled(w1, p, T_TUPLE, vs);
  }

  lemma {:induction false} Refilled(w1: World, p: Word, tag: int, words: seq<Word>)
    requires p in w1.heap
    ensures forall ws ::
              w1.heap[p := Block(1, tag, ws)][p := Block(1, tag, words)] == w1.heap[p := Block(1, tag, words)]
  {
    forall ws ensures w1.heap[p := Block(1, tag, ws)][p := Block(1, tag, words)]
        == w1.heap[p := Block(1, tag, words)] { }
  }

  lemma {:induction false} CtorBlockRuns(P: Prog, T: Code, n: nat, id: int, sc: Scope, ns: nat, env: Env, s: MState,
                                         srcs: seq<Src>, vs: seq<Word>, tok: string, t: Option<Word>, cid: nat)
    requires SrcsLits(srcs)
    requires ImageOk(P) && ScopeOk(sc, ns, env, s.slots) && HeapOk(s.w.heap) && TokOf(env, tok) == Some(t)
    requires cid < 0x1_0000
    requires Alloc(sc, tok, 2 + |vs|, T_ADT).Some? && StFields(P, id, sc, srcs, 16).Some?
    requires SrcsHold(P, id, env, s.slots, srcs, vs) && |vs| < 0x1_0000
    ensures ValueOk(s, SLOTS, BuildWith(P, s.w, t, T_ADT, [cid] + vs),
                    Exec(P, T, n, Alloc(sc, tok, 2 + |vs|, T_ADT).value + (LoadConst(9, cid) + [StrOff(9, 0, 8)])
                                  + StFields(P, id, sc, srcs, 16).value.code, s))
  {
    hide Exec, ScopeOk, HeapOk, ImageOk, Alloc, StFields, BuildWith, Allocated, SrcsHold, Splice, LoadConst, Wrap;
    var al, fs := Alloc(sc, tok, 2 + |vs|, T_ADT).value, StFields(P, id, sc, srcs, 16).value.code;
    var mid := LoadConst(9, cid) + [StrOff(9, 0, 8)];
    AllocRuns(P, T, n, sc, ns, env, s, tok, t, 2 + |vs|, T_ADT);
    BuiltIs(P, s.w, t, T_ADT, [cid] + vs);
    var r := Allocated(P, s.w, t, 2 + |vs|);
    match r
    case Stop(why) =>
      if Compared(why) {
        SeqHalt(P, T, n, al, mid, s);
        SeqHalt(P, T, n, al + mid, fs, s);
      }
    case Done(p, w1) =>
      var s1 := Exec(P, T, n, al, s).s;
      SeqFall(P, T, n, al, mid, s, s1);
      WrapSmall(cid);
      ConstStore(P, T, n, s1, p, 8, cid);
      var s2 := Exec(P, T, n, mid, s1).s;
      SeqFall(P, T, n, al + mid, fs, s, s2);
      FieldsRun(P, T, n, id, sc, ns, env, s2, srcs, vs, 16, p);
      SpliceRest(w1.heap[p].words, cid, vs);
      Refilled(w1, p, T_ADT, [cid] + vs);
      Refilled(w1, p, T_ADT, w1.heap[p].words[0 := cid]);
  }

  lemma {:induction false} ConstStore(P: Prog, T: Code, n: nat, s: MState, p: Word, off: int, c: int)
    requires AtBlock(s, p) && off % 8 == 0 && 8 <= off && off / 8 <= |s.w.heap[p].words| && Wrap(c) == c
    ensures var o := Exec(P, T, n, LoadConst(9, c) + [StrOff(9, 0, off)], s);
            && o.Fall? && o.s.slots == s.slots && AtBlock(o.s, p)
            && o.s.w == SetWords(s, p, s.w.heap[p].words[off / 8 - 1 := c])
  {
    hide Exec, LoadConst, Wrap;
    LoadConstRuns(P, T, n, 9, c, s);
    var s1 := SetReg(s, 9, c);
    SeqFall(P, T, n, LoadConst(9, c), [StrOff(9, 0, off)], s, s1);
    StoreRuns(P, T, n, s1, p, off, c);
  }

  // ---------- closures ----------

  // The values in some slots.
  function SlotVals(slots: seq<Word>, idx: seq<nat>): seq<Word>
    requires forall j :: 0 <= j < |idx| ==> idx[j] < |slots|
  {
    if idx == [] then [] else [slots[idx[0]]] + SlotVals(slots, idx[1..])
  }

  lemma {:induction false} CopyRuns(P: Prog, T: Code, n: nat, s: MState, j: nat, idx: seq<nat>, p: Word)
    requires AtBlock(s, p) && (forall m :: 0 <= m < |idx| ==> idx[m] < |s.slots|)
    requires 2 + j + |idx| <= |s.w.heap[p].words|
    ensures |SlotVals(s.slots, idx)| == |idx|
    ensures var o := Exec(P, T, n, CopyEnv(j, idx), s);
            && o.Fall? && o.s.slots == s.slots && AtBlock(o.s, p)
            && o.s.w == SetWords(s, p, Splice(s.w.heap[p].words, 2 + j, SlotVals(s.slots, idx)))
    decreases |idx|
  {
    hide Exec, Splice;
    if idx == [] {
      ExecNone(P, T, n, s);
      SpliceNone(s.w.heap[p].words, 2 + j);
    } else {
      var v := s.slots[idx[0]];
      var off := 24 + 8 * j;
      var s1 := SetReg(s, 9, v);
      var head := [LdrSlot(9, idx[0])] + [StrOff(9, 0, off)];
      assert CopyEnv(j, idx) == head + CopyEnv(j + 1, idx[1..]);
      One(P, T, n, LdrSlot(9, idx[0]), s);
      SeqFall(P, T, n, [LdrSlot(9, idx[0])], [StrOff(9, 0, off)], s, s1);
      StoreRuns(P, T, n, s1, p, off, v);
      var ws1 := s.w.heap[p].words[2 + j := v];
      var s2 := s1.(w := SetWords(s1, p, ws1));
      SeqFall(P, T, n, head, CopyEnv(j + 1, idx[1..]), s, s2);
      CopyRuns(P, T, n, s2, j + 1, idx[1..], p);
      SpliceStep(s.w.heap[p].words, 2 + j, v, SlotVals(s.slots, idx[1..]));
    }
  }

  // The closure over the values in the slots.
  lemma {:induction false} ClosureRuns(P: Prog, T: Code, n: nat, s: MState, sym: Sym, idx: seq<nat>)
    requires ImageOk(P) && HeapOk(s.w.heap) && |s.slots| == SLOTS && sym in P.addr && |idx| <= SLOTS
    requires forall m :: 0 <= m < |idx| ==> idx[m] < SLOTS
    ensures |SlotVals(s.slots, idx)| == |idx|
    ensures var r := Build(P, s.w, T_CLOSURE, [P.addr[sym], |idx|] + SlotVals(s.slots, idx));
            var o := Exec(P, T, n, MkClosureCode(sym, idx), s);
            && ValueOk(s, SLOTS, r, o)
            && (r.Done? ==> o.Fall? && AtBlock(o.s, r.v) && o.s.slots == s.slots)
  {
    hide Exec, HeapOk, LoadConst, Wrap, Splice, CopyEnv, Allocated;
    var k := |idx|;
    SlotValsSize(s.slots, idx);
    var vs := SlotVals(s.slots, idx);
    var words := [P.addr[sym], k] + vs;
    var al := Alloc([], "", 3 + k, T_CLOSURE).value;
    var c1, c2, c3 := [Got(9, sym), StrOff(9, 0, 8)], LoadConst(9, k) + [StrOff(9, 0, 16)], CopyEnv(0, idx);
    assert al + c1 + LoadConst(9, k) + [StrOff(9, 0, 16)] + c3 == al + c1 + c2 + c3;
    assert MkClosureCode(sym, idx) == al + c1 + c2 + c3;
    NoScope(s.slots);
    AllocRuns(P, T, n, [], 0, map[], s, "", None, 3 + k, T_CLOSURE);
    BuiltIs(P, s.w, None, T_CLOSURE, words);
    var r := Allocated(P, s.w, None, 3 + k);
    match r
    case Stop(why) =>
      if Compared(why) {
        SeqHalt(P, T, n, al, c1, s);
        SeqHalt(P, T, n, al + c1, c2, s);
        SeqHalt(P, T, n, al + c1 + c2, c3, s);
      }
    case Done(p, w1) =>
      AllocatedAt(P, s.w, None, 3 + k);
      var s1 := Exec(P, T, n, al, s).s;
      SeqFall(P, T, n, al, c1, s, s1);
      CodeStore(P, T, n, s1, p, sym);
      var s2 := Exec(P, T, n, c1, s1).s;
      SeqFall(P, T, n, al + c1, c2, s, s2);
      WrapSmall(k);
      ConstStore(P, T, n, s2, p, 16, k);
      var s3 := Exec(P, T, n, c2, s2).s;
      SeqFall(P, T, n, al + c1 + c2, c3, s, s3);
      CopyRuns(P, T, n, s3, 0, idx, p);
      ClosureWords(w1, p, P.addr[sym], k, vs);
  }

  lemma {:induction false} SlotValsSize(slots: seq<Word>, idx: seq<nat>)
    requires forall j :: 0 <= j < |idx| ==> idx[j] < |slots|
    ensures |SlotVals(slots, idx)| == |idx|
  {
    if idx != [] { SlotValsSize(slots, idx[1..]); }
  }

  lemma {:induction false} NoScope(slots: seq<Word>)
    requires |slots| == SLOTS
    ensures ScopeOk([], 0, map[], slots) && TokOf(map[], "") == Some(None)
  {
  }

  lemma {:induction false} CodeStore(P: Prog, T: Code, n: nat, s: MState, p: Word, sym: Sym)
    requires AtBlock(s, p) && 1 <= |s.w.heap[p].words| && sym in P.addr
    ensures var o := Exec(P, T, n, [Got(9, sym), StrOff(9, 0, 8)], s);
            && o.Fall? && o.s.slots == s.slots && AtBlock(o.s, p)
            && o.s.w == SetWords(s, p, s.w.heap[p].words[0 := P.addr[sym]])
  {
    hide Exec;
    Front(P, T, n, Got(9, sym), [StrOff(9, 0, 8)], s);
    assert [Got(9, sym)] + [StrOff(9, 0, 8)] == [Got(9, sym), StrOff(9, 0, 8)];
    StoreRuns(P, T, n, SetReg(s, 9, P.addr[sym]), p, 8, P.addr[sym]);
  }

  lemma {:induction false} ClosureWords(w1: World, p: Word, c: Word, k: Word, vs: seq<Word>)
    requires p in w1.heap && |w1.heap[p].words| == 2 + |vs|
    ensures var ws := w1.heap[p].words;
            && Splice(ws[0 := c][1 := k], 2, vs) == [c, k] + vs
            && w1.heap[p := Block(1, T_CLOSURE, ws)][p := Block(1, T_CLOSURE, ws[0 := c])]
                 [p := Block(1, T_CLOSURE, ws[0 := c][1 := k])][p := Block(1, T_CLOSURE, [c, k] + vs)]
               == w1.heap[p := Block(1, T_CLOSURE, [c, k] + vs)]
  {
    SpliceEnv(w1.heap[p].words, c, k, vs);
  }

  // ---------- entering a closure ----------

  // Env words of the closure in x0 to the first slots.
  lemma {:induction false} EnvRuns(P: Prog, T: Code, n: nat, s: MState, j: nat, k: nat, clo: Word)
    requires LdEnv(j, k).Some? && AtBlock(s, clo) && |s.slots| == SLOTS && 2 + k <= |s.w.heap[clo].words|
    ensures var o := Exec(P, T, n, LdEnv(j, k).value, s);
            && o.Fall? && o.s.w == s.w && |o.s.slots| == SLOTS && AtBlock(o.s, clo)
            && (forall i :: j <= i < k && i < SLOTS ==> o.s.slots[i] == s.w.heap[clo].words[2 + i])
            && (forall i :: 0 <= i < SLOTS && !(j <= i < k) ==> o.s.slots[i] == s.slots[i])
            && (forall r :: r != 9 ==> (r in o.s.regs <==> r in s.regs) && (r in s.regs ==> o.s.regs[r] == s.regs[r]))
    ensures j < k ==> k <= SLOTS
    decreases k - j
  {
    hide Exec, IsRef;
    if j >= k {
      ExecNone(P, T, n, s);
    } else {
      var v := s.w.heap[clo].words[2 + j];
      var ld, st := [LdrOff(9, 0, 24 + 8 * j)], [StrSlot(9, j)];
      One(P, T, n, LdrOff(9, 0, 24 + 8 * j), s);
      var s1 := SetReg(s, 9, v);
      SeqFall(P, T, n, ld, st, s, s1);
      One(P, T, n, StrSlot(9, j), s1);
      var s2 := s1.(slots := s1.slots[j := v]);
      SeqFall(P, T, n, ld + st, LdEnv(j + 1, k).value, s, s2);
      EnvRuns(P, T, n, s2, j + 1, k, clo);
    }
  }
}

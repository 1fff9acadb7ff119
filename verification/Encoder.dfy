// The instruction buffer of gen2-dcc-rs/src/encoder.rs: branches are emitted
// with a hole, labels are bound later, and finish patches the holes.
// Instruction words follow the Arm Architecture Reference Manual (DDI 0487),
// section C6.2.
module Encoder {
  import opened Types

  type Byte = b: int | 0 <= b < 256
  type W32 = w: int | 0 <= w < 0x1_0000_0000

  // ---------- words in the byte vector ----------

  function Le(w: W32): (s: seq<Byte>)
    ensures |s| == 4
  {
    [Octet(w), Octet(w / 0x100), Octet(w / 0x1_0000), Octet(w / 0x100_0000)]
  }

  function Octet(v: int): Byte { v % 256 }

  function WordAt(code: seq<Byte>, pos: nat): W32
    requires pos + 4 <= |code|
  {
    var b0: int, b1: int, b2: int, b3: int := code[pos], code[pos + 1], code[pos + 2], code[pos + 3];
    b0 + 0x100 * b1 + 0x1_0000 * b2 + 0x100_0000 * b3
  }

  lemma {:induction false} LeWord(w: W32)
    ensures WordAt(Le(w), 0) == w
  {
    assert w == w % 256 + 256 * (w / 256);
    assert w / 256 == w / 0x100 % 256 + 256 * (w / 0x1_0000);
    assert w / 0x1_0000 == w / 0x1_0000 % 256 + 256 * (w / 0x100_0000);
  }

  // ---------- branch instructions ----------

  datatype FixKind = B | Bl | BCond(cond: nat) | Cbz(reg: nat) | Cbnz(reg: nat)
  datatype Fixup = Fixup(pos: nat, target: nat, kind: FixKind)

  predicate KindOk(k: FixKind) {
    match k
    case BCond(c) => c < 16
    case Cbz(r) => r < 32
    case Cbnz(r) => r < 32
    case _ => true
  }

  const M26: nat := 0x400_0000
  const M19: nat := 0x8_0000

  // The word finish writes for a branch over delta bytes: the offset in words,
  // cut to the field.
  function Encode(k: FixKind, delta: int): W32
    requires KindOk(k)
  {
    match k
    case B => 0x1400_0000 + delta / 4 % M26
    case Bl => 0x9400_0000 + delta / 4 % M26
    case BCond(c) => 0x5400_0000 + delta / 4 % M19 * 32 + c
    case Cbz(r) => 0xB400_0000 + delta / 4 % M19 * 32 + r
    case Cbnz(r) => 0xB500_0000 + delta / 4 % M19 * 32 + r
  }

  datatype Branch = Branch(kind: FixKind, delta: int)

  function Signed(v: int, size: int): int { if v < size / 2 then v else v - size }

  // How the processor reads the word.
  function Decode(w: W32): Option<Branch> {
    if w / M26 == 5 then Some(Branch(B, 4 * Signed(w % M26, M26)))
    else if w / M26 == 37 then Some(Branch(Bl, 4 * Signed(w % M26, M26)))
    else
      var imm := 4 * Signed(w / 32 % M19, M19);
      if w / 0x100_0000 == 0x54 && w / 16 % 2 == 0 then Some(Branch(BCond(w % 16), imm))
      else if w / 0x100_0000 == 0xB4 then Some(Branch(Cbz(w % 32), imm))
      else if w / 0x100_0000 == 0xB5 then Some(Branch(Cbnz(w % 32), imm))
      else None
  }

  // Offsets the field can hold.
  predicate Reaches(k: FixKind, delta: int) {
    if k.B? || k.Bl? then -0x800_0000 <= delta < 0x800_0000 else -0x10_0000 <= delta < 0x10_0000
  }

  lemma {:induction false} SignedWraps(n: int)
    ensures Signed(n % M26, M26) == n <==> -0x200_0000 <= n < 0x200_0000
    ensures Signed(n % M19, M19) == n <==> -0x4_0000 <= n < 0x4_0000
  {
  }

  // A branch goes where it should exactly when the offset fits the field.
  lemma {:induction false} EncodeDecodes(k: FixKind, delta: int)
    requires KindOk(k) && delta % 4 == 0
    ensures Decode(Encode(k, delta)) == Some(Branch(k, delta)) <==> Reaches(k, delta)
  {
    var n := delta / 4;
    assert delta == 4 * n;
    if k.B? || k.Bl? {
      SignedWraps(n);
    } else {
      var f, low := n % M19, match k case BCond(c) => c case Cbz(r) => r case Cbnz(r) => r case _ => 0;
      SignedWraps(n);
      NarrowFields(k, f, low);
    }
  }

  lemma {:induction false} NarrowFields(k: FixKind, f: nat, low: nat)
    requires f < M19 && low < 32 && KindOk(k) && (k == BCond(low) || k == Cbz(low) || k == Cbnz(low))
    ensures var base := if k.BCond? then 0x5400_0000 else if k.Cbz? then 0xB400_0000 else 0xB500_0000;
            Decode(base + f * 32 + low) == Some(Branch(k, 4 * Signed(f, M19)))
  {
    var base := if k.BCond? then 0x5400_0000 else if k.Cbz? then 0xB400_0000 else 0xB500_0000;
    var w := base + f * 32 + low;
    assert w / 0x100_0000 == base / 0x100_0000;
    assert w / 32 == base / 32 + f && w % 32 == low;
    assert base / 32 % M19 == 0;
    assert w / 32 % M19 == f;
    if k.BCond? { assert w / 16 % 2 == 0 && w % 16 == low; }
  }

  // The range check on conditional branches lets one offset too many through:
  // a branch over exactly 1 MiB forwards goes 1 MiB backwards.
  lemma {:induction false} CheckAdmitsOne(delta: int, c: nat)
    requires delta % 4 == 0 && -0x10_0000 <= delta <= 0x10_0000 && c < 16
    ensures Decode(Encode(BCond(c), delta)) == Some(Branch(BCond(c), delta)) <==> delta != 0x10_0000
    ensures Decode(Encode(BCond(c), 0x10_0000)) == Some(Branch(BCond(c), -0x10_0000))
  {
    EncodeDecodes(BCond(c), delta);
    NarrowFields(BCond(c), 0x4_0000, c);
  }

  // ---------- the buffer ----------

  class CodeBuf {
    var code: seq<Byte>
    var labels: seq<Option<nat>>
    var fixups: seq<Fixup>

    // Holes are whole words in ascending order; labels sit between words.
    ghost predicate Valid()
      reads this
    {
      && |code| % 4 == 0
      && (forall i :: 0 <= i < |labels| && labels[i].Some? ==> labels[i].value <= |code| && labels[i].value % 4 == 0)
      && Ordered(fixups, |code|, |labels|)
    }

    constructor ()
      ensures Valid() && code == [] && fixups == [] && labels == seq(8, _ => None)
    {
      code, fixups, labels := [], [], seq(8, _ => None);
    }

    method NewLabel() returns (l: nat)
      requires Valid()
      modifies `labels
      ensures Valid() && l == old(|labels|) && labels == old(labels) + [None]
    {
      l := |labels|;
      labels := labels + [None];
    }

    // The assertion against rebinding is the caller's duty.
    method BindLabel(l: nat)
      requires Valid() && l < |labels| && labels[l].None?
      modifies `labels
      ensures Valid() && labels == old(labels)[l := Some(|code|)]
    {
      labels := labels[l := Some(|code|)];
    }

    method Push4(w: W32)
      requires Valid()
      modifies `code
      ensures Valid() && code == old(code) + Le(w)
    {
      code := code + Le(w);
    }

    // b, bl, b_cond, cbz and cbnz: a fix-up and a word without its offset.
    method EmitBranch(k: FixKind, l: nat)
      requires Valid() && KindOk(k) && l < |labels|
      modifies `code, `fixups
      ensures Valid() && fixups == old(fixups) + [Fixup(old(|code|), l, k)]
      ensures code == old(code) + Le(Opcode(k))
    {
      fixups := fixups + [Fixup(|code|, l, k)];
      code := code + Le(Opcode(k));
    }

    // load_const_u64.
    method LoadConst(rd: nat, v: U64)
      requires Valid() && rd < 32
      modifies `code
      ensures Valid() && code == old(code) + Bytes(ConstWords(rd, v))
    {
      hide Movz, KeepIf, Le, Half;
      SmallConst(v);
      Push4(Movz(rd, Half(v, 0), 0));
      ghost var ws := [Movz(rd, Half(v, 0), 0)];
      BytesOne(ws);
      if v > 0xFFFF {
        ws := PushHalf(rd, v, 1, ws, old(code));
        ws := PushHalf(rd, v, 2, ws, old(code));
        ws := PushHalf(rd, v, 3, ws, old(code));
      }
    }

    // movk, unless the half-word is zero.
    method PushHalf(rd: nat, v: U64, hw: nat, ghost ws: seq<W32>, ghost before: seq<Byte>) returns (ghost ws1: seq<W32>)
      requires Valid() && rd < 32 && hw < 4 && code == before + Bytes(ws)
      modifies `code
      ensures Valid() && ws1 == ws + KeepIf(rd, v, hw) && code == before + Bytes(ws1)
    {
      hide Movk, Half, Le;
      ws1 := ws;
      if Half(v, hw) != 0 {
        Push4(Movk(rd, Half(v, hw), hw));
        ws1 := ws + [Movk(rd, Half(v, hw), hw)];
        assert ws1[..|ws1| - 1] == ws;
      }
    }

    // finish: every hole gets its branch. False stands for the panics, on an
    // unbound label or a conditional branch out of the checked range.
    method Finish() returns (ok: bool)
      requires Valid()
      modifies `code
      ensures ok <==> forall i :: 0 <= i < |fixups| ==> Resolves(fixups[i], labels)
      ensures |code| == old(|code|)
      ensures ok ==> forall i :: 0 <= i < |fixups| ==> Patched(fixups[i], labels, code)
      ensures ok ==> forall j :: 0 <= j < |code| && !InHole(fixups, j) ==> code[j] == old(code[j])
    {
      hide InHole, PatchAt, Encode, WordAt;
      var i := 0;
      while i < |fixups|
        invariant i <= |fixups| && |code| == old(|code|)
        invariant forall n :: 0 <= n < i ==> Resolves(fixups[n], labels) && Patched(fixups[n], labels, code)
        invariant forall j :: 0 <= j < |code| && !InHole(fixups, j) ==> code[j] == old(code[j])
      {
        var f := fixups[i];
        if !Resolves(f, labels) { return false; }
        var delta := labels[f.target].value - f.pos;
        ghost var before := code;
        code := PatchAt(code, f.pos, Encode(f.kind, delta));
        PatchKeeps(before, fixups, labels, i, Encode(f.kind, delta));
        i := i + 1;
      }
      ok := true;
    }
  }

  function Bytes(ws: seq<W32>): seq<Byte> { if ws == [] then [] else Bytes(ws[..|ws| - 1]) + Le(ws[|ws| - 1]) }

  lemma {:induction false} SmallConst(v: U64)
    ensures v <= 0xFFFF ==> Half(v, 0) == v
  {
  }

  lemma {:induction false} BytesOne(ws: seq<W32>)
    requires |ws| == 1
    ensures Bytes(ws) == Le(ws[0])
  {
    assert ws[..0] == [] && Bytes([]) == [];
  }

  predicate HoleOk(f: Fixup, size: nat, labels: nat) {
    f.pos + 4 <= size && f.pos % 4 == 0 && f.target < labels && KindOk(f.kind)
  }

  function Opcode(k: FixKind): W32 {
    match k
    case B => 0x1400_0000
    case Bl => 0x9400_0000
    case BCond(_) => 0x5400_0000
    case Cbz(_) => 0xB400_0000
    case Cbnz(_) => 0xB500_0000
  }

  predicate Resolves(f: Fixup, labels: seq<Option<nat>>) {
    && f.target < |labels| && labels[f.target].Some?
    && (f.kind.BCond? ==> -0x10_0000 <= labels[f.target].value - f.pos <= 0x10_0000)
  }

  ghost predicate Patched(f: Fixup, labels: seq<Option<nat>>, code: seq<Byte>) {
    && f.target < |labels| && labels[f.target].Some? && f.pos + 4 <= |code| && KindOk(f.kind)
    && WordAt(code, f.pos) == Encode(f.kind, labels[f.target].value - f.pos)
  }

  predicate Ordered(fs: seq<Fixup>, size: nat, labels: nat) {
    && (forall i :: 0 <= i < |fs| ==> HoleOk(fs[i], size, labels))
    && (forall i, j :: 0 <= i < j < |fs| ==> fs[i].pos + 4 <= fs[j].pos)
  }

  predicate InHole(fs: seq<Fixup>, j: int) { exists i :: 0 <= i < |fs| && fs[i].pos <= j < fs[i].pos + 4 }

  function PatchAt(code: seq<Byte>, pos: nat, w: W32): (c: seq<Byte>)
    requires pos + 4 <= |code|
    ensures |c| == |code|
  {
    code[..pos] + Le(w) + code[pos + 4..]
  }

  // Patching one hole writes its word and leaves the other words alone.
  lemma {:induction false} PatchKeeps(code: seq<Byte>, fs: seq<Fixup>, labels: seq<Option<nat>>, i: nat, w: W32)
    requires i < |fs| && Ordered(fs, |code|, |labels|)
    ensures var c := PatchAt(code, fs[i].pos, w);
            && WordAt(c, fs[i].pos) == w
            && (forall n :: 0 <= n < |fs| && n != i ==> WordAt(c, fs[n].pos) == WordAt(code, fs[n].pos))
            && (forall j :: 0 <= j < |code| && !InHole(fs, j) ==> c[j] == code[j])
  {
    var c, p := PatchAt(code, fs[i].pos, w), fs[i].pos;
    LeWord(w);
    assert c[p..p + 4] == Le(w);
    assert c[p] == Le(w)[0] && c[p + 1] == Le(w)[1] && c[p + 2] == Le(w)[2] && c[p + 3] == Le(w)[3];
    forall j | 0 <= j < |code| && !(p <= j < p + 4) ensures c[j] == code[j] { }
    forall n | 0 <= n < |fs| && n != i ensures WordAt(c, fs[n].pos) == WordAt(code, fs[n].pos) {
      var q := fs[n].pos;
      assert q + 4 <= p || p + 4 <= q;
      assert c[q] == code[q] && c[q + 1] == code[q + 1] && c[q + 2] == code[q + 2] && c[q + 3] == code[q + 3];
    }
    forall j | 0 <= j < |code| && !InHole(fs, j) ensures c[j] == code[j] { assert !(fs[i].pos <= j < fs[i].pos + 4); }
  }

  // So a finished branch, as the processor reads it, lands on its label just
  // when the label is within the field's reach.
  lemma {:induction false} BranchLands(f: Fixup, labels: seq<Option<nat>>, code: seq<Byte>)
    requires Patched(f, labels, code) && f.pos % 4 == 0 && labels[f.target].value % 4 == 0
    ensures var place := labels[f.target].value;
            Decode(WordAt(code, f.pos)) == Some(Branch(f.kind, place - f.pos)) <==> Reaches(f.kind, place - f.pos)
  {
    hide Encode, Decode, WordAt, Reaches;
    EncodeDecodes(f.kind, labels[f.target].value - f.pos);
  }

  // ---------- constants ----------

  type U64 = v: int | 0 <= v < 0x1_0000_0000_0000_0000

  function Half(v: U64, hw: nat): (h: int)
    requires hw < 4
    ensures 0 <= h < 0x1_0000
  {
    if hw == 0 then v % 0x1_0000
    else if hw == 1 then v / 0x1_0000 % 0x1_0000
    else if hw == 2 then v / 0x1_0000_0000 % 0x1_0000
    else v / 0x1_0000_0000_0000
  }

  function Movz(rd: nat, imm: nat, hw: nat): W32
    requires rd < 32 && imm < 0x1_0000 && hw < 4
  {
    0xD280_0000 + hw * 0x20_0000 + imm * 32 + rd
  }

  function Movk(rd: nat, imm: nat, hw: nat): W32
    requires rd < 32 && imm < 0x1_0000 && hw < 4
  {
    0xF280_0000 + hw * 0x20_0000 + imm * 32 + rd
  }

  function KeepIf(rd: nat, v: U64, hw: nat): seq<W32>
    requires rd < 32 && hw < 4
  {
    if Half(v, hw) == 0 then [] else [Movk(rd, Half(v, hw), hw)]
  }

  // load_const_u64: the low half-word, then each higher one that is not zero.
  function ConstWords(rd: nat, v: U64): seq<W32>
    requires rd < 32
  {
    if v <= 0xFFFF then [Movz(rd, v, 0)]
    else [Movz(rd, Half(v, 0), 0)] + KeepIf(rd, v, 1) + KeepIf(rd, v, 2) + KeepIf(rd, v, 3)
  }

  function Shift(hw: nat): (s: nat)
    requires hw < 4
    ensures s > 0
  {
    if hw == 0 then 1 else if hw == 1 then 0x1_0000 else if hw == 2 then 0x1_0000_0000 else 0x1_0000_0000_0000
  }

  // MOVZ clears the rest of the register, MOVK keeps it; other words are no
  // moves. The registers other than rd are not touched.
  function Exec(w: W32, regs: seq<U64>): Option<seq<U64>>
    requires |regs| == 32
  {
    var rd, imm, hw := w % 32, w / 32 % 0x1_0000, w / 0x20_0000 % 4;
    if w / 0x80_0000 == 0x1A5 then Some(regs[rd := imm * Shift(hw)])
    else if w / 0x80_0000 == 0x1E5 then Some(regs[rd := regs[rd] - Half(regs[rd], hw) * Shift(hw) + imm * Shift(hw)])
    else None
  }

  function ExecAll(ws: seq<W32>, regs: seq<U64>): Option<seq<U64>>
    requires |regs| == 32
  {
    if ws == [] then Some(regs)
    else
      var r :- Exec(ws[0], regs);
      if |r| == 32 then ExecAll(ws[1..], r) else None
  }

  // The part of v below half-word hw.
  function Low(v: U64, hw: nat): (l: U64)
    requires hw <= 4
  {
    if hw == 0 then 0
    else if hw == 1 then v % 0x1_0000
    else if hw == 2 then v % 0x1_0000_0000
    else if hw == 3 then v % 0x1_0000_0000_0000
    else v
  }

  lemma {:induction false} LowHalf(v: U64, hw: nat)
    requires hw < 4
    ensures Low(v, hw) + Half(v, hw) * Shift(hw) == Low(v, hw + 1)
    ensures Half(Low(v, hw), hw) == 0
  {
    if hw == 1 {
      SplitMod(v, 0x1_0000);
      assert v % 0x1_0000 / 0x1_0000 == 0;
    } else if hw == 2 {
      SplitMod(v, 0x1_0000_0000);
      assert v % 0x1_0000_0000 / 0x1_0000_0000 == 0;
    } else if hw == 3 {
      assert v == 0x1_0000_0000_0000 * (v / 0x1_0000_0000_0000) + v % 0x1_0000_0000_0000;
    }
  }

  lemma {:induction false} SplitMod(v: int, m: int)
    requires m == 0x1_0000 || m == 0x1_0000_0000
    ensures v % m + v / m % 0x1_0000 * m == v % (m * 0x1_0000)
  {
    var q, r := v / m, v % m;
    var a, b := q / 0x1_0000, q % 0x1_0000;
    assert v == q * m + r && q == a * 0x1_0000 + b;
    if m == 0x1_0000 {
      assert v == a * 0x1_0000_0000 + (b * 0x1_0000 + r);
    } else {
      assert v == a * 0x1_0000_0000_0000 + (b * 0x1_0000_0000 + r);
    }
  }

  lemma {:induction false} MovFields(rd: nat, imm: nat, hw: nat)
    requires rd < 32 && imm < 0x1_0000 && hw < 4
    ensures forall w: W32 :: w == Movz(rd, imm, hw) || w == Movk(rd, imm, hw) ==>
              w % 32 == rd && w / 32 % 0x1_0000 == imm && w / 0x20_0000 % 4 == hw
    ensures Movz(rd, imm, hw) / 0x80_0000 == 0x1A5 && Movk(rd, imm, hw) / 0x80_0000 == 0x1E5
  {
    forall w: W32 | w == Movz(rd, imm, hw) || w == Movk(rd, imm, hw)
      ensures w % 32 == rd && w / 32 % 0x1_0000 == imm && w / 0x20_0000 % 4 == hw
    {
      var top := if w == Movz(rd, imm, hw) then 0x694 else 0x794;
      assert w == (top + hw) * 0x20_0000 + imm * 32 + rd;
      assert w / 32 == (top + hw) * 0x1_0000 + imm;
      assert w / 0x20_0000 == top + hw;
    }
  }

  // One more half-word, or none when it is zero.
  lemma {:induction false} KeepStep(rd: nat, v: U64, hw: nat, rest: seq<W32>, regs: seq<U64>)
    requires rd < 32 && 1 <= hw < 4 && |regs| == 32
    ensures ExecAll(KeepIf(rd, v, hw) + rest, regs[rd := Low(v, hw)]) == ExecAll(rest, regs[rd := Low(v, hw + 1)])
  {
    hide Movk, Low, Half, Shift;
    LowHalf(v, hw);
    var r0: seq<U64> := regs[rd := Low(v, hw)];
    if Half(v, hw) == 0 {
      assert [] + rest == rest;
    } else {
      var w := Movk(rd, Half(v, hw), hw);
      MovFields(rd, Half(v, hw), hw);
      assert r0[rd := Low(v, hw + 1)] == regs[rd := Low(v, hw + 1)];
      assert ([w] + rest)[1..] == rest;
    }
  }

  // The words of a constant leave exactly that constant in the register, and
  // every other register as it was.
  lemma {:induction false} FirstRuns(rd: nat, v: U64, regs: seq<U64>)
    requires rd < 32 && |regs| == 32
    ensures Exec(Movz(rd, Half(v, 0), 0), regs) == Some(regs[rd := Low(v, 1)])
    ensures Low(v, 4) == v && (v <= 0xFFFF ==> Low(v, 1) == v)
  {
    hide Movz;
    MovFields(rd, Half(v, 0), 0);
  }

  lemma {:induction false} ConstRuns(rd: nat, v: U64, regs: seq<U64>)
    requires rd < 32 && |regs| == 32
    ensures ExecAll(ConstWords(rd, v), regs) == Some(regs[rd := v])
  {
    hide Movz, KeepIf, Exec, Low, Half;
    var first := Movz(rd, Half(v, 0), 0);
    FirstRuns(rd, v, regs);
    SmallConst(v);
    if v <= 0xFFFF {
      assert [first][1..] == [];
    } else {
      var m1, m2, m3 := KeepIf(rd, v, 1), KeepIf(rd, v, 2), KeepIf(rd, v, 3);
      assert ConstWords(rd, v) == [first] + (m1 + (m2 + (m3 + [])));
      HigherRun(rd, v, regs);
      assert ([first] + (m1 + (m2 + (m3 + []))))[1..] == m1 + (m2 + (m3 + []));
    }
  }

  lemma {:induction false} HigherRun(rd: nat, v: U64, regs: seq<U64>)
    requires rd < 32 && |regs| == 32
    ensures ExecAll(KeepIf(rd, v, 1) + (KeepIf(rd, v, 2) + (KeepIf(rd, v, 3) + [])), regs[rd := Low(v, 1)])
         == Some(regs[rd := Low(v, 4)])
  {
    hide KeepIf, Exec, Low, Half;
    KeepStep(rd, v, 1, KeepIf(rd, v, 2) + (KeepIf(rd, v, 3) + []), regs);
    KeepStep(rd, v, 2, KeepIf(rd, v, 3) + [], regs);
    KeepStep(rd, v, 3, [], regs);
  }
}

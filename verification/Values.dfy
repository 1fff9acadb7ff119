// What words stand for. Structural equality (dc_val_eq of gen5/rt5.c) decides
// whether two words stand for the same value.
module Values {
  import opened RcHeap
  import opened Trampoline
  import opened Oir

  const T_UNIT := 5

  // Finite values; a constructor is its id.
  datatype Value =
    | VInt(n: int)
    | VBool(b: bool)
    | VUnit
    | VText(bytes: seq<int>)
    | VTuple(vs: seq<Value>)
    | VCtor(id: Word, vs: seq<Value>)

  predicate At(h: Heap, w: Word, tag: int) { w % 4 == 0 && w != 0 && w in h && h[w].tag == tag }

  predicate Spells(ws: seq<Word>, bytes: seq<int>) {
    IsText(ws) && ws[0] == |bytes| && forall i :: 0 <= i < |bytes| ==> ByteAt(ws, i) == bytes[i]
  }

  // w stands for x in h; unit is the block of the unit value.
  predicate Reads(h: Heap, unit: Word, w: Word, x: Value)
    decreases x
  {
    match x
    case VInt(n) => w == MkInt(n)
    case VBool(b) => w == BoolWord(b)
    case VUnit => w == unit && At(h, w, T_UNIT)
    case VText(bytes) => At(h, w, T_STRING) && Spells(h[w].words, bytes)
    case VTuple(vs) => At(h, w, T_TUPLE) && ReadsAll(h, unit, h[w].words, vs)
    case VCtor(id, vs) =>
      At(h, w, T_ADT) && h[w].words != [] && h[w].words[0] == id && ReadsAll(h, unit, h[w].words[1..], vs)
  }

  predicate ReadsAll(h: Heap, unit: Word, ws: seq<Word>, vs: seq<Value>)
    decreases vs
  {
    if vs == [] then ws == [] else ws != [] && Reads(h, unit, ws[0], vs[0]) && ReadsAll(h, unit, ws[1..], vs[1..])
  }

  // Values of one type: tuples have one length, and so do the fields of one
  // constructor.
  predicate Alike(x: Value, y: Value)
    decreases x
  {
    match (x, y)
    case (VTuple(vs), VTuple(us)) => AllAlike(vs, us)
    case (VCtor(i, vs), VCtor(j, us)) => i == j ==> AllAlike(vs, us)
    case _ => true
  }

  predicate AllAlike(vs: seq<Value>, us: seq<Value>)
    decreases vs
  {
    |vs| == |us| && (vs != [] ==> Alike(vs[0], us[0]) && AllAlike(vs[1..], us[1..]))
  }

  function Depth(x: Value): nat
    decreases x
  {
    match x
    case VTuple(vs) => 1 + AllDepth(vs)
    case VCtor(_, vs) => 1 + AllDepth(vs)
    case _ => 0
  }

  function AllDepth(vs: seq<Value>): nat
    decreases vs
  {
    if vs == [] then 0 else if Depth(vs[0]) >= AllDepth(vs[1..]) then Depth(vs[0]) else AllDepth(vs[1..])
  }

  // A word stands for one value at most.
  lemma {:induction false} ReadsOne(h: Heap, unit: Word, w: Word, x: Value, y: Value)
    requires Reads(h, unit, w, x) && Reads(h, unit, w, y)
    ensures x == y
    decreases x
  {
    match (x, y)
    case (VTuple(vs), VTuple(us)) => ReadsAllOne(h, unit, h[w].words, vs, us);
    case (VCtor(_, vs), VCtor(_, us)) => ReadsAllOne(h, unit, h[w].words[1..], vs, us);
    case _ =>
  }

  lemma {:induction false} ReadsAllOne(h: Heap, unit: Word, ws: seq<Word>, vs: seq<Value>, us: seq<Value>)
    requires ReadsAll(h, unit, ws, vs) && ReadsAll(h, unit, ws, us)
    ensures vs == us
    decreases vs
  {
    if vs != [] {
      ReadsOne(h, unit, ws[0], vs[0], us[0]);
      ReadsAllOne(h, unit, ws[1..], vs[1..], us[1..]);
    }
  }

  lemma {:induction false} TextMeans(a: seq<Word>, b: seq<Word>, s: seq<int>, t: seq<int>)
    requires Spells(a, s) && Spells(b, t)
    ensures SameText(a, b) <==> s == t
  {
  }

  // Of two words that stand for values of one type, equality answers whether
  // the values are the same, at any depth that suffices.
  lemma {:induction false} EqMeans(h: Heap, unit: Word, a: Word, b: Word, x: Value, y: Value, n: nat)
    requires Reads(h, unit, a, x) && Reads(h, unit, b, y) && Alike(x, y) && Depth(x) <= n
    ensures ValEq(h, a, b, n) == Same(x == y)
    decreases x
  {
    if a == b { ReadsOne(h, unit, a, x, y); }
    match (x, y)
    case (VText(s), VText(t)) => TextMeans(h[a].words, h[b].words, s, t);
    case (VTuple(vs), VTuple(us)) =>
      if a != b { AllEqMeans(h, unit, h[a].words, h[b].words, vs, us, n - 1); }
    case (VCtor(i, vs), VCtor(j, us)) =>
      if a != b && i == j { AllEqMeans(h, unit, h[a].words[1..], h[b].words[1..], vs, us, n - 1); }
    case _ =>
  }

  lemma {:induction false} AllEqMeans(h: Heap, unit: Word, as_: seq<Word>, bs: seq<Word>, vs: seq<Value>,
                                      us: seq<Value>, n: nat)
    requires ReadsAll(h, unit, as_, vs) && ReadsAll(h, unit, bs, us) && AllAlike(vs, us) && AllDepth(vs) <= n
    ensures FieldsEq(h, as_, bs, n) == Same(vs == us)
    decreases vs
  {
    if vs != [] {
      EqMeans(h, unit, as_[0], bs[0], vs[0], us[0], n);
      AllEqMeans(h, unit, as_[1..], bs[1..], vs[1..], us[1..], n);
      assert vs == [vs[0]] + vs[1..] && us == [us[0]] + us[1..];
    }
  }

  // ---------- division ----------

  // What is left of a, which has a's sign and is smaller than b.
  predicate Remains(a: int, b: int, r: int) {
    if a >= 0 then 0 <= r && (b > 0 ==> r < b) && (b < 0 ==> r < -b)
    else r <= 0 && (b > 0 ==> -b < r) && (b < 0 ==> b < r)
  }

  lemma {:induction false} TruncRemains(a: int, b: int)
    requires b != 0
    ensures Remains(a, b, a - b * TruncDiv(a, b))
  {
    var n := if a >= 0 then a else -a;
    EuclidParts(n, b);
    NegTimes(b, n / b);
  }

  lemma {:induction false} NegTimes(b: int, k: int)
    ensures b * -k == -(b * k)
  {
  }

  // Two products that leave a remainder each lie within the divisor.
  lemma {:induction false} Near(a: int, b: int, p: int, p0: int)
    requires b != 0 && Remains(a, b, a - p) && Remains(a, b, a - p0)
    ensures (b > 0 ==> -b < p - p0 < b) && (b < 0 ==> b < p - p0 < -b)
  {
  }

  lemma {:induction false} OneQuotient(a: int, b: int, q: int, q0: int)
    requires b != 0 && Remains(a, b, a - b * q) && Remains(a, b, a - b * q0)
    ensures q == q0
  {
    hide Remains;
    Near(a, b, b * q, b * q0);
    Distributes(b, q, q0);
    if q != q0 { StepTooFar(b, q - q0); }
  }

  lemma {:induction false} Distributes(b: int, q: int, q0: int)
    ensures b * (q - q0) == b * q - b * q0
  {
  }

  // Division truncates: the quotient is the one integer that leaves a remainder
  // smaller than the divisor and of the dividend's sign.
  lemma {:induction false} TruncExact(a: int, b: int, q: int)
    requires b != 0
    ensures q == TruncDiv(a, b) <==> Remains(a, b, a - b * q)
  {
    hide Remains, TruncDiv;
    TruncRemains(a, b);
    if Remains(a, b, a - b * q) { OneQuotient(a, b, q, TruncDiv(a, b)); }
  }

  lemma {:induction false} EuclidParts(a: int, b: int)
    requires b != 0
    ensures 0 <= a - b * (a / b) && (b > 0 ==> a - b * (a / b) < b) && (b < 0 ==> a - b * (a / b) < -b)
  {
    assert a % b == a - b * (a / b);
  }

  lemma {:induction false} StepTooFar(b: int, d: int)
    requires b != 0 && d != 0
    ensures (b > 0 ==> b * d >= b || b * d <= -b) && (b < 0 ==> b * d >= -b || b * d <= b)
  {
    if d > 0 {
      if b > 0 { assert b * d >= b * 1; } else { assert b * d <= b * 1; }
    } else {
      if b > 0 { assert b * d <= b * -1; } else { assert b * d >= b * -1; }
    }
  }
}

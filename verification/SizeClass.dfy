// Size classes of the allocator in gen5/rt5.c: eight per power of two.
module SizeClass {

  function Pow2(k: nat): (p: nat)
    ensures p >= 1
  {
    if k == 0 then 1 else 2 * Pow2(k - 1)
  }

  // Position of the highest set bit: 63 - clz.
  function Log2(n: nat): nat
    requires n > 0
  {
    if n == 1 then 0 else 1 + Log2(n / 2)
  }

  lemma {:induction false} Log2Bounds(n: nat)
    requires n > 0
    ensures Pow2(Log2(n)) <= n < Pow2(Log2(n) + 1)
  {
    if n > 1 { Log2Bounds(n / 2); }
  }

  lemma {:induction false} Pow2Mono(a: nat, b: nat)
    requires a <= b
    ensures Pow2(a) <= Pow2(b)
  {
    if a < b { Pow2Mono(a, b - 1); }
  }

  lemma {:induction false} Log2Least(n: nat, k: nat)
    requires n >= Pow2(k)
    ensures n > 0 && Log2(n) >= k
  {
    Log2Bounds(n);
    if Log2(n) < k { Pow2Mono(Log2(n) + 1, k); }
  }

  lemma {:induction false} Log2Is(n: nat, k: nat)
    requires Pow2(k) <= n < Pow2(k + 1)
    ensures n > 0 && Log2(n) == k
  {
    Log2Least(n, k);
    Log2Bounds(n);
    if Log2(n) > k { Pow2Mono(k + 1, Log2(n)); }
  }

  // Granularity at a size: an eighth of its power of two.
  function Step(w: nat): nat
    requires w >= 8
  {
    Log2Least(w, 3);
    Pow2(Log2(w) - 3)
  }

  // big_class: the logarithm, then the next three bits.
  function BigClass(w: nat): (c: nat)
    requires w >= 8
    ensures c >= 24
  {
    Log2Least(w, 3);
    Log2(w) * 8 + w / Step(w) % 8
  }

  // round_big: up to the next multiple of the granularity.
  function RoundBig(w: nat): (r: nat)
    requires w >= 8
    ensures r >= w
  {
    RoundUp(w, Step(w));
    (w + Step(w) - 1) / Step(w) * Step(w)
  }

  lemma {:induction false} RoundUp(w: nat, s: nat)
    requires s > 0
    ensures var m := (w + s - 1) / s; w <= m * s < w + s && m * s + (w + s - 1) % s == w + s - 1
  {
    var m := (w + s - 1) / s;
    assert w + s - 1 == m * s + (w + s - 1) % s;
  }

  // The least size of class c.
  function ClassBase(c: nat): nat
    requires c >= 24
  {
    (8 + c % 8) * Pow2(c / 8 - 3)
  }

  lemma {:induction false} StepBounds(w: nat)
    requires w >= 8
    ensures 8 * Step(w) <= w < 16 * Step(w) && Log2(w) >= 3
  {
    Log2Least(w, 3);
    Log2Bounds(w);
    var k := Log2(w);
    assert Pow2(k) == 2 * Pow2(k - 1) == 4 * Pow2(k - 2) == 8 * Pow2(k - 3);
    assert Pow2(k + 1) == 2 * Pow2(k);
  }

  lemma {:induction false} QuotientBounds(w: nat, s: nat)
    requires s > 0 && 8 * s <= w < 16 * s
    ensures 8 <= w / s < 16 && w / s * s <= w < (w / s + 1) * s
  {
    var q := w / s;
    assert w == q * s + w % s;
    MulStep(q, s);
    MulCancel(8, q + 1, s);
    MulCancel(q, 16, s);
  }

  lemma {:induction false} MulCancel(a: nat, b: nat, s: nat)
    requires a * s < b * s
    ensures a < b
  {
    if a >= b { MulMono(b, a, s); }
  }

  lemma {:induction false} MulMono(a: nat, b: nat, s: nat)
    requires a <= b
    ensures a * s <= b * s
  {
  }

  lemma {:induction false} BaseStep(c: nat)
    requires c >= 24
    ensures ClassBase(c) < ClassBase(c + 1)
  {
    var k := c / 8;
    if c % 8 == 7 {
      assert (c + 1) / 8 == k + 1 && (c + 1) % 8 == 0;
      assert Pow2(k + 1 - 3) == 2 * Pow2(k - 3);
    } else {
      assert (c + 1) / 8 == k && (c + 1) % 8 == c % 8 + 1;
      var m, s := c % 8, Pow2(k - 3);
      assert (8 + (m + 1)) * s == (8 + m) * s + s by { MulStep(8 + m, s); }
    }
  }

  lemma {:induction false} MulStep(a: nat, s: nat)
    ensures (a + 1) * s == a * s + s
  {
  }

  lemma {:induction false} BaseMono(c: nat, d: nat)
    requires 24 <= c <= d
    ensures ClassBase(c) <= ClassBase(d)
    decreases d - c
  {
    hide ClassBase;
    if c < d {
      BaseMono(c, d - 1);
      BaseStep(d - 1);
    }
  }

  // A size lies from its class's base up to the next class's.
  lemma {:induction false} ClassBounds(w: nat)
    requires w >= 8
    ensures var c := BigClass(w); c >= 24 && ClassBase(c) <= w < ClassBase(c + 1)
  {
    var k, s := Log2(w), Step(w);
    StepBounds(w);
    QuotientBounds(w, s);
    var q := w / s;
    assert q % 8 == q - 8;
    EdgesOf(k, q, BigClass(w));
  }

  lemma {:induction false} EdgesOf(k: nat, q: nat, c: nat)
    requires k >= 3 && 8 <= q < 16 && c == 8 * k + (q - 8)
    ensures c >= 24 && ClassBase(c) == q * Pow2(k - 3) && ClassBase(c + 1) == (q + 1) * Pow2(k - 3)
  {
    assert c / 8 == k && c % 8 == q - 8;
    if q == 15 {
      assert (c + 1) / 8 == k + 1 && (c + 1) % 8 == 0;
      assert Pow2(k - 2) == 2 * Pow2(k - 3);
    } else {
      assert (c + 1) / 8 == k && (c + 1) % 8 == q - 7;
    }
  }

  // Classes are ordered like sizes: any block of a higher class is larger.
  lemma {:induction false} ClassOrder(v: nat, w: nat)
    requires v >= 8 && w >= 8 && BigClass(v) < BigClass(w)
    ensures v < w
  {
    hide BigClass, ClassBase;
    ClassBounds(v);
    ClassBounds(w);
    BaseMono(BigClass(v) + 1, BigClass(w));
  }

  // Sizes up to the runtime's limit have one of the 256 classes.
  lemma {:induction false} ClassRange(w: nat)
    requires 65 <= w <= 0xFFFF_FFFF
    ensures 48 <= BigClass(w) < 256
  {
    assert Pow2(6) == 64;
    Log2Least(w, 6);
    Log2Bounds(w);
    if Log2(w) > 31 {
      Pow2Mono(32, Log2(w));
      Pow32();
    }
  }

  lemma {:induction false} Pow32()
    ensures Pow2(32) == 0x1_0000_0000
  {
    assert Pow2(8) == 256;
    assert Pow2(16) == 256 * Pow2(8) by { Double8(8); }
    assert Pow2(24) == 256 * Pow2(16) by { Double8(16); }
    assert Pow2(32) == 256 * Pow2(24) by { Double8(24); }
  }

  lemma {:induction false} Double8(k: nat)
    ensures Pow2(k + 8) == 256 * Pow2(k)
  {
    assert Pow2(k + 8) == 2 * Pow2(k + 7) == 4 * Pow2(k + 6) == 8 * Pow2(k + 5) == 16 * Pow2(k + 4);
    assert Pow2(k + 4) == 2 * Pow2(k + 3) == 4 * Pow2(k + 2) == 8 * Pow2(k + 1) == 16 * Pow2(k);
  }

  lemma {:induction false} RoundedMultiple(w: nat, s: nat)
    requires s > 0 && 8 * s <= w < 16 * s
    ensures var m := (w + s - 1) / s; 8 <= m <= 16 && w <= m * s && 8 * (m * s - w) < w
  {
    var m := (w + s - 1) / s;
    RoundUp(w, s);
    MulCancel(7, m, s);
    MulCancel(m, 17, s);
  }

  // A rounded size is the least of its class, and under an eighth too large.
  lemma {:induction false} RoundedBase(w: nat)
    requires w >= 8
    ensures var r := RoundBig(w); r >= w && 8 * (r - w) < w && r == ClassBase(BigClass(r))
  {
    hide ClassBase, BigClass, Pow2;
    StepBounds(w);
    RoundedMultiple(w, Step(w));
    BaseOf(Log2(w), (w + Step(w) - 1) / Step(w));
  }

  lemma {:induction false} BaseOf(k: nat, m: nat)
    requires k >= 3 && 8 <= m <= 16
    ensures var r := m * Pow2(k - 3); r >= 8 && r == ClassBase(BigClass(r))
  {
    hide ClassBase, BigClass, Pow2;
    if m < 16 { BaseBelow(k, m); } else { BaseTop(k); }
  }

  lemma {:induction false} BaseBelow(k: nat, m: nat)
    requires k >= 3 && 8 <= m < 16
    ensures var r := m * Pow2(k - 3); r >= 8 && r == ClassBase(BigClass(r))
  {
    hide ClassBase;
    var s := Pow2(k - 3);
    Eighths(k);
    MulMono(8, m, s);
    MulMono(m, 15, s);
    Log2Is(m * s, k);
    DivMul(m, s);
    EdgesOf(k, m, BigClass(m * s));
  }

  lemma {:induction false} BaseTop(k: nat)
    requires k >= 3
    ensures var r := 16 * Pow2(k - 3); r >= 8 && r == ClassBase(BigClass(r))
  {
    hide ClassBase, BigClass;
    Eighths(k);
    BaseBelow(k + 1, 8);
  }

  lemma {:induction false} Eighths(k: nat)
    requires k >= 3
    ensures Pow2(k) == 8 * Pow2(k - 3) && Pow2(k + 1) == 16 * Pow2(k - 3) && Pow2(k + 2) == 32 * Pow2(k - 3)
    ensures Pow2(k - 2) == 2 * Pow2(k - 3)
  {
    assert Pow2(k) == 2 * Pow2(k - 1) == 4 * Pow2(k - 2);
  }

  lemma {:induction false} DivMul(m: nat, s: nat)
    requires s > 0
    ensures m * s / s == m
  {
    var d := m * s / s;
    assert m * s == d * s + m * s % s;
    MulStep(d, s);
    MulCancel(m, d + 1, s);
    MulStep(m, s);
    MulCancel(d, m + 1, s);
  }

  // So every block of its class serves a rounded request.
  lemma {:induction false} RoundedServed(w: nat, block: nat)
    requires w >= 8 && block >= 8 && BigClass(block) == BigClass(RoundBig(w))
    ensures block >= RoundBig(w)
  {
    hide BigClass, ClassBase, RoundBig;
    RoundedBase(w);
    ClassBounds(block);
  }
}

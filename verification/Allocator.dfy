// The block allocator of gen5/rt5.c: exact-size free lists, logarithmic big
// classes with a non-empty flag each, block splitting, bump chunks. Addresses
// and sizes are in words; address 0 is the null pointer.
module Allocator {
  import opened SizeClass

  const SMALL_MAX: nat := 64
  const NBIG: nat := 256
  const BIG_SCAN: nat := 16
  const CHUNK_WORDS: nat := 0x10_0000
  const MAX_WORDS: nat := 0xFFFF_FFFF
  const LISTS: nat := SMALL_MAX + 1 + NBIG

  // ---------- blocks ----------

  type Blocks = map<nat, nat>   // address to size

  predicate Clear(a: nat, m: nat, b: nat, n: nat) { a + m <= b || b + n <= a }

  // No two blocks overlap.
  predicate Apart(bs: Blocks) {
    forall a, b :: a in bs && b in bs && a != b ==> Clear(a, bs[a], b, bs[b])
  }

  predicate OutsideAll(bs: Blocks, a: nat, n: nat) { forall b :: b in bs ==> Clear(a, n, b, bs[b]) }

  ghost function Sum(bs: Blocks): nat
    decreases |bs|
  {
    if exists a :: a in bs then
      var a :| a in bs;
      bs[a] + Sum(bs - {a})
    else 0
  }

  lemma {:induction false} SumRemove(bs: Blocks, a: nat)
    requires a in bs
    ensures Sum(bs) == bs[a] + Sum(bs - {a})
    decreases |bs|
  {
    assert exists b :: b in bs;
    var b :| b in bs && Sum(bs) == bs[b] + Sum(bs - {b});
    if a != b {
      SumRemove(bs - {b}, a);
      SumRemove(bs - {a}, b);
      assert bs - {b} - {a} == bs - {a} - {b};
    }
  }

  lemma {:induction false} SumAdd(bs: Blocks, a: nat, n: nat)
    requires a !in bs
    ensures Sum(bs[a := n]) == n + Sum(bs)
  {
    SumRemove(bs[a := n], a);
    assert bs[a := n] - {a} == bs;
  }

  lemma {:induction false} SumSet(bs: Blocks, a: nat, n: nat)
    requires a in bs
    ensures Sum(bs[a := n]) + bs[a] == Sum(bs) + n
  {
    SumRemove(bs, a);
    SumRemove(bs[a := n], a);
    assert bs[a := n] - {a} == bs - {a};
  }

  // The words of some of the blocks.
  function Only(bs: Blocks, s: set<nat>): Blocks { map a | a in bs && a in s :: bs[a] }

  lemma {:induction false} SumSplit(bs: Blocks, s: set<nat>, t: set<nat>)
    requires s !! t && bs.Keys == s + t
    ensures Sum(bs) == Sum(Only(bs, s)) + Sum(Only(bs, t))
    decreases |t|
  {
    hide Sum, Only;
    if exists a :: a in t {
      var a :| a in t;
      var bs1, t1 := bs - {a}, t - {a};
      SumRemove(bs, a);
      SumSplit(bs1, s, t1);
      OnlyLess(bs, s, t, a);
      SumRemove(Only(bs, t), a);
    } else {
      OnlyAll(bs, s, t);
      SumNone();
    }
  }

  lemma {:induction false} OnlyLess(bs: Blocks, s: set<nat>, t: set<nat>, a: nat)
    requires s !! t && bs.Keys == s + t && a in t
    ensures Only(bs - {a}, s) == Only(bs, s) && Only(bs - {a}, t - {a}) == Only(bs, t) - {a}
    ensures a in Only(bs, t) && Only(bs, t)[a] == bs[a] && (bs - {a}).Keys == s + (t - {a})
  {
  }

  lemma {:induction false} OnlyAll(bs: Blocks, s: set<nat>, t: set<nat>)
    requires bs.Keys == s + t && t == {}
    ensures Only(bs, s) == bs && Only(bs, t) == map[]
  {
  }

  lemma {:induction false} SumNone()
    ensures Sum(map[]) == 0
  {
  }

  // ---------- free lists ----------

  // The list a free block of this size is on.
  function ListOf(size: nat): (ix: nat)
    requires 2 <= size <= MAX_WORDS
    ensures ix < LISTS && (size <= SMALL_MAX <==> ix <= SMALL_MAX)
  {
    if size <= SMALL_MAX then size
    else
      ClassRange(size);
      SMALL_MAX + 1 + BigClass(size)
  }

  type Lists = seq<seq<nat>>

  // Node i links to the one after it.
  predicate LinkAt(next: map<nat, nat>, s: seq<nat>, i: nat)
    requires i < |s|
  {
    s[i] != 0 && s[i] in next && next[s[i]] == if i + 1 < |s| then s[i + 1] else 0
  }

  // A linked list through next, from head.
  predicate Chain(next: map<nat, nat>, head: nat, s: seq<nat>) {
    head == (if s == [] then 0 else s[0]) && forall i :: 0 <= i < |s| ==> LinkAt(next, s, i)
  }

  // Every free block is once on the list of its size, and nothing else is.
  ghost predicate Filed(lists: Lists, free: set<nat>, bs: Blocks) {
    && |lists| == LISTS
    && (forall ix, i :: 0 <= ix < LISTS && 0 <= i < |lists[ix]| ==> lists[ix][i] in free)
    && (forall a :: a in free ==> a in bs && 2 <= bs[a] <= MAX_WORDS && a in lists[ListOf(bs[a])])
    && (forall ix, i :: 0 <= ix < LISTS && 0 <= i < |lists[ix]| ==>
          var a := lists[ix][i]; a in bs && 2 <= bs[a] <= MAX_WORDS && ListOf(bs[a]) == ix)
    && (forall ix, i, j :: 0 <= ix < LISTS && 0 <= i < j < |lists[ix]| ==> lists[ix][i] != lists[ix][j])
  }

  lemma {:induction false} FiledPush(lists: Lists, free: set<nat>, bs: Blocks, p: nat)
    requires Filed(lists, free, bs) && p in bs && p !in free && 2 <= bs[p] <= MAX_WORDS
    ensures var ix := ListOf(bs[p]); Filed(lists[ix := [p] + lists[ix]], free + {p}, bs)
  {
    hide ListOf;
    var ix := ListOf(bs[p]);
    var l1 := lists[ix := [p] + lists[ix]];
    forall a | a in free + {p} ensures a in l1[ListOf(bs[a])] { if a != p { assert a in lists[ListOf(bs[a])]; } }
  }

  predicate Distinct(s: seq<nat>) { forall i, j :: 0 <= i < j < |s| ==> s[i] != s[j] }

  // Position n taken out of a list without repetition.
  lemma {:induction false} CutOut(s: seq<nat>, n: nat)
    requires Distinct(s) && n < |s|
    ensures var cut := s[..n] + s[n + 1..]; Distinct(cut) && forall a :: a in cut <==> a in s && a != s[n]
  {
    var cut := s[..n] + s[n + 1..];
    forall i | 0 <= i < |cut| ensures cut[i] in s && cut[i] != s[n] { assert cut[i] == s[if i < n then i else i + 1]; }
    forall a | a in s && a != s[n] ensures a in cut {
      var j :| 0 <= j < |s| && s[j] == a;
      assert cut[if j < n then j else j - 1] == a;
    }
  }

  lemma {:induction false} FiledCut(lists: Lists, free: set<nat>, bs: Blocks, ix: nat, n: nat)
    requires Filed(lists, free, bs) && ix < LISTS && n < |lists[ix]|
    ensures Filed(lists[ix := lists[ix][..n] + lists[ix][n + 1..]], free - {lists[ix][n]}, bs)
  {
    hide ListOf;
    var s := lists[ix];
    var p, cut := s[n], s[..n] + s[n + 1..];
    assert Distinct(s) by {
      forall i, j | 0 <= i < j < |s| ensures s[i] != s[j] { assert lists[ix][i] != lists[ix][j]; }
    }
    CutOut(s, n);
    var l1 := lists[ix := cut];
    forall jx, i | 0 <= jx < LISTS && 0 <= i < |l1[jx]|
      ensures var a := l1[jx][i]; a in free - {p} && a in bs && 2 <= bs[a] <= MAX_WORDS && ListOf(bs[a]) == jx
    {
      var a := l1[jx][i];
      assert a in lists[jx] && (jx == ix ==> a in cut);
      var j :| 0 <= j < |lists[jx]| && lists[jx][j] == a;
      assert lists[jx][j] in free && ListOf(bs[lists[jx][j]]) == jx && ListOf(bs[lists[ix][n]]) == ix;
    }
    forall a | a in free - {p} ensures a in l1[ListOf(bs[a])] { assert a in lists[ListOf(bs[a])]; }
    forall jx, i, j | 0 <= jx < LISTS && 0 <= i < j < |l1[jx]| ensures l1[jx][i] != l1[jx][j] {
      if jx != ix { assert lists[jx][i] != lists[jx][j]; }
    }
  }

  lemma {:induction false} FiledSame(lists: Lists, free: set<nat>, bs: Blocks, bs1: Blocks)
    requires Filed(lists, free, bs) && forall a :: a in free ==> a in bs1 && bs1[a] == bs[a]
    ensures Filed(lists, free, bs1)
  {
    hide ListOf;
  }

  // Every list is linked from its head.
  ghost predicate Linked(next: map<nat, nat>, heads: seq<nat>, lists: Lists) {
    |heads| == |lists| == LISTS && forall ix :: 0 <= ix < LISTS ==> Chain(next, heads[ix], lists[ix])
  }

  ghost predicate NotListed(lists: Lists, p: nat) {
    forall ix, i :: 0 <= ix < |lists| && 0 <= i < |lists[ix]| ==> lists[ix][i] != p
  }

  lemma {:induction false} SameChain(next: map<nat, nat>, next1: map<nat, nat>, head: nat, s: seq<nat>)
    requires Chain(next, head, s) && forall a :: a in s && a in next ==> a in next1 && next1[a] == next[a]
    ensures Chain(next1, head, s)
  {
    forall i | 0 <= i < |s| ensures LinkAt(next1, s, i) { assert LinkAt(next, s, i) && s[i] in s; }
  }

  lemma {:induction false} LinkedPush(next: map<nat, nat>, heads: seq<nat>, lists: Lists, ix: nat, p: nat)
    requires Linked(next, heads, lists) && ix < LISTS && p != 0 && NotListed(lists, p)
    ensures Linked(next[p := heads[ix]], heads[ix := p], lists[ix := [p] + lists[ix]])
  {
    hide Chain;
    var next1, heads1, lists1 := next[p := heads[ix]], heads[ix := p], lists[ix := [p] + lists[ix]];
    forall jx | 0 <= jx < LISTS ensures Chain(next1, heads1[jx], lists1[jx]) {
      assert Chain(next, heads[jx], lists[jx]);
      if jx == ix { PushChain(next, heads[ix], lists[ix], p); } else { SameChain(next, next1, heads[jx], lists[jx]); }
    }
  }

  lemma {:induction false} PushChain(next: map<nat, nat>, head: nat, s: seq<nat>, p: nat)
    requires Chain(next, head, s) && p != 0 && p !in s
    ensures Chain(next[p := head], p, [p] + s)
  {
    var s1, next1 := [p] + s, next[p := head];
    forall i | 0 <= i < |s1| ensures LinkAt(next1, s1, i) {
      if i > 0 { assert LinkAt(next, s, i - 1) && s[i - 1] in s; }
    }
  }

  // No block is on two lists, or twice on list ix.
  ghost predicate AloneOn(lists: Lists, ix: nat)
    requires |lists| == LISTS && ix < LISTS
  {
    forall jx, i, j :: 0 <= jx < LISTS && 0 <= i < |lists[jx]| && 0 <= j < |lists[ix]| && (jx != ix || i != j) ==>
      lists[jx][i] != lists[ix][j]
  }

  // Taking node n out: its predecessor, or the head, links past it.
  lemma {:induction false} LinkedCut(next: map<nat, nat>, heads: seq<nat>, lists: Lists, ix: nat, n: nat)
    requires Linked(next, heads, lists) && ix < LISTS && n < |lists[ix]| && AloneOn(lists, ix)
    ensures lists[ix][n] in next
    ensures var s := lists[ix]; var after := next[s[n]]; var cut := lists[ix := s[..n] + s[n + 1..]];
            if n == 0 then Linked(next, heads[ix := after], cut) else Linked(next[s[n - 1] := after], heads, cut)
  {
    hide Chain;
    var s := lists[ix];
    assert Chain(next, heads[ix], s);
    forall i, j | 0 <= i < j < |s| ensures s[i] != s[j] { assert lists[ix][i] != lists[ix][j]; }
    CutChain(next, heads[ix], s, n);
    var after, cut := next[s[n]], s[..n] + s[n + 1..];
    var next1 := if n == 0 then next else next[s[n - 1] := after];
    var heads1 := if n == 0 then heads[ix := after] else heads;
    var lists1 := lists[ix := cut];
    forall jx | 0 <= jx < LISTS ensures Chain(next1, heads1[jx], lists1[jx]) {
      assert Chain(next, heads[jx], lists[jx]);
      if jx != ix {
        forall a | a in lists[jx] && a in next ensures a in next1 && next1[a] == next[a] {
          var i :| 0 <= i < |lists[jx]| && lists[jx][i] == a;
          if n > 0 { assert lists[jx][i] != lists[ix][n - 1]; }
        }
        SameChain(next, next1, heads[jx], lists[jx]);
      }
    }
  }

  lemma {:induction false} CutChain(next: map<nat, nat>, head: nat, s: seq<nat>, n: nat)
    requires Chain(next, head, s) && n < |s| && forall i, j :: 0 <= i < j < |s| ==> s[i] != s[j]
    ensures s[n] in next
    ensures var after := next[s[n]];
            Chain(if n == 0 then next else next[s[n - 1] := after], if n == 0 then after else head, s[..n] + s[n + 1..])
  {
    assert LinkAt(next, s, n);
    var after, cut := next[s[n]], s[..n] + s[n + 1..];
    var next1 := if n == 0 then next else next[s[n - 1] := after];
    forall i | 0 <= i < |cut| ensures LinkAt(next1, cut, i) {
      var j := if i < n then i else i + 1;
      assert LinkAt(next, s, j);
      assert cut[i] == s[j] && (i + 1 < |cut| ==> cut[i + 1] == if i + 1 < n then s[i + 1] else s[i + 2]);
      if n > 0 && j != n - 1 { assert s[j] != s[n - 1]; }
    }
  }

  // Lists are disjoint and without repetition.
  lemma {:induction false} FiledApart(lists: Lists, free: set<nat>, bs: Blocks, ix: nat)
    requires Filed(lists, free, bs) && ix < LISTS
    ensures AloneOn(lists, ix)
  {
    hide ListOf;
    forall jx, i, j | 0 <= jx < LISTS && 0 <= i < |lists[jx]| && 0 <= j < |lists[ix]| && (jx != ix || i != j)
      ensures lists[jx][i] != lists[ix][j]
    {
      if jx != ix { assert ListOf(bs[lists[jx][i]]) == jx && ListOf(bs[lists[ix][j]]) == ix; }
    }
  }

  lemma {:induction false} FiledNot(lists: Lists, free: set<nat>, bs: Blocks, p: nat)
    requires Filed(lists, free, bs) && p !in free
    ensures NotListed(lists, p)
  {
    hide ListOf;
  }

  lemma {:induction false} FiledAt(lists: Lists, free: set<nat>, bs: Blocks, ix: nat, i: nat)
    requires Filed(lists, free, bs) && ix < LISTS && i < |lists[ix]|
    ensures var a := lists[ix][i]; a in free && a in bs && 2 <= bs[a] <= MAX_WORDS && ListOf(bs[a]) == ix
  {
    hide ListOf;
  }

  // ---------- layout ----------

  // Blocks apart from each other, from the program's static data st and from
  // the unused rest of the chunk.
  ghost predicate Placed(st: Blocks, bs: Blocks, bump: nat, bumpEnd: nat) {
    && Apart(bs) && 0 !in bs && (forall a :: a in bs ==> 2 <= bs[a] <= MAX_WORDS)
    && bump <= bumpEnd <= bump + MAX_WORDS && (bump == 0 ==> bumpEnd == 0) && OutsideAll(bs, bump, bumpEnd - bump)
    && (forall a :: a in bs ==> OutsideAll(st, a, bs[a])) && OutsideAll(st, bump, bumpEnd - bump)
  }

  lemma {:induction false} PlacedSize(st: Blocks, bs: Blocks, bump: nat, bumpEnd: nat, p: nat)
    requires Placed(st, bs, bump, bumpEnd) && p in bs
    ensures p != 0 && 2 <= bs[p] <= MAX_WORDS
  {
  }

  lemma {:induction false} PlacedShrink(st: Blocks, bs: Blocks, bump: nat, bumpEnd: nat, p: nat, words: nat)
    requires Placed(st, bs, bump, bumpEnd) && p in bs && 2 <= words <= bs[p]
    ensures Placed(st, bs[p := words], bump, bumpEnd)
  {
    forall b | b in bs && b != p ensures Clear(p, words, b, bs[b]) && Clear(b, bs[b], p, words) {
      assert Clear(p, bs[p], b, bs[b]);
    }
    assert OutsideAll(st, p, bs[p]);
  }

  lemma {:induction false} PlacedAdd(st: Blocks, bs: Blocks, bump: nat, bumpEnd: nat, q: nat, n: nat)
    requires Placed(st, bs, bump, bumpEnd) && q > 0 && q !in bs && 2 <= n <= MAX_WORDS
    requires OutsideAll(bs, q, n) && OutsideAll(st, q, n) && Clear(q, n, bump, bumpEnd - bump)
    ensures Placed(st, bs[q := n], bump, bumpEnd)
  {
  }

  // The front of a block is cut off.
  lemma {:induction false} PlacedSplit(st: Blocks, bs: Blocks, bump: nat, bumpEnd: nat, p: nat, words: nat)
    requires Placed(st, bs, bump, bumpEnd) && p in bs && 2 <= words < bs[p]
    ensures Placed(st, bs[p := words], bump, bumpEnd) && p + words !in bs
    ensures bs[p] - words >= 2 ==> Placed(st, bs[p := words][p + words := bs[p] - words], bump, bumpEnd)
  {
    PlacedShrink(st, bs, bump, bumpEnd, p, words);
    forall b | b in bs && b != p ensures b != p + words && Clear(p + words, bs[p] - words, b, bs[b]) {
      assert Clear(p, bs[p], b, bs[b]);
    }
    if bs[p] - words >= 2 {
      assert OutsideAll(st, p, bs[p]) && Clear(bump, bumpEnd - bump, p, bs[p]);
      hide Placed;
      PlacedAdd(st, bs[p := words], bump, bumpEnd, p + words, bs[p] - words);
    }
  }

  lemma {:induction false} PlacedLess(st: Blocks, bs: Blocks, bump: nat, bumpEnd: nat, n: nat)
    requires Placed(st, bs, bump, bumpEnd) && 0 < bump && 2 <= n <= bumpEnd - bump
    ensures bump !in bs && Placed(st, bs[bump := n], bump + n, bumpEnd)
  {
  }

  // A new chunk in place of the used-up one.
  lemma {:induction false} PlacedChunk(st: Blocks, bs: Blocks, bump: nat, bumpEnd: nat, mem: nat, n: nat)
    requires Placed(st, bs, bump, bumpEnd) && mem > 0 && n <= MAX_WORDS && OutsideAll(bs, mem, n)
    requires OutsideAll(st, mem, n)
    ensures Placed(st, bs, mem, mem + n)
  {
  }

  lemma {:induction false} SmallOrBig(words: nat)
    requires 2 <= words <= MAX_WORDS
    ensures words <= SMALL_MAX ==> ListOf(words) == words
    ensures words > SMALL_MAX ==> 48 <= BigClass(words) < NBIG && ListOf(words) == SMALL_MAX + 1 + BigClass(words)
  {
    if words > SMALL_MAX { ClassRange(words); }
  }

  function BigList(c: nat): nat { SMALL_MAX + 1 + c }

  // ---------- what serves a request ----------

  // Some block above the exact sizes is free.
  ghost predicate HasBig(free: set<nat>, bs: Blocks) { exists a :: a in free && a in bs && bs[a] > SMALL_MAX }

  // p is free and no free big block has a lower class.
  ghost predicate Lowest(free: set<nat>, bs: Blocks, p: nat) {
    && p in free && p in bs && bs[p] > SMALL_MAX
    && forall a :: a in free && a in bs && bs[a] > SMALL_MAX ==> BigClass(bs[p]) <= BigClass(bs[a])
  }

  // A block of a higher class is free, or the request is a size of its class
  // and some free block is large enough.
  ghost predicate Serveable(free: set<nat>, bs: Blocks, words: nat)
    requires words > SMALL_MAX
  {
    exists a :: a in free && a in bs && bs[a] > SMALL_MAX
      && (BigClass(bs[a]) > BigClass(words) || (RoundBig(words) == words && bs[a] >= words))
  }

  // The i-th block of a class is its first large enough, and within the scan.
  ghost predicate FirstFit(list: seq<nat>, bs: Blocks, words: nat, i: nat) {
    && i < |list| && i < BIG_SCAN && Large(list[i], bs, words)
    && forall j :: 0 <= j < i ==> !Large(list[j], bs, words)
  }

  // A free block of this size does not serve the request.
  predicate Useless(size: nat, words: nat) {
    if words <= SMALL_MAX then size <= SMALL_MAX && size != words
    else size <= SMALL_MAX || (BigClass(size) <= BigClass(words) && (RoundBig(words) == words ==> size < words))
  }

  lemma {:induction false} NoneUseful(free: set<nat>, bs: Blocks, words: nat)
    requires words <= SMALL_MAX ==> !HasBig(free, bs) && forall a :: a in free && a in bs ==> bs[a] != words
    requires words > SMALL_MAX ==> !Serveable(free, bs, words)
    ensures forall a :: a in free && a in bs ==> Useless(bs[a], words)
  {
    forall a | a in free && a in bs ensures Useless(bs[a], words) { }
  }

  ghost predicate Large(a: nat, bs: Blocks, words: nat) { a in bs && bs[a] >= words }

  lemma {:induction false} FitOnce(list: seq<nat>, bs: Blocks, words: nat, i: nat, j: nat)
    requires FirstFit(list, bs, words, i) && FirstFit(list, bs, words, j)
    ensures i == j
  {
    hide Large;
  }

  lemma {:induction false} NoFit(list: seq<nat>, bs: Blocks, words: nat, i: nat)
    requires forall j :: 0 <= j < |list| && j < BIG_SCAN ==> list[j] in bs && bs[list[j]] < words
    ensures !FirstFit(list, bs, words, i)
  {
  }

  // ---------- bitmap words ----------

  // A 64-bit word by its bits, lowest first.
  type Bits = seq<bool>

  predicate AnyBit(b: Bits) { exists i :: 0 <= i < |b| && b[i] }

  function MaskBelow(b: Bits, k: nat): (m: Bits)
    ensures |m| == |b| && forall i :: 0 <= i < |b| ==> m[i] == (b[i] && i >= k)
  {
    seq(|b|, i requires 0 <= i < |b| => b[i] && i >= k)
  }

  // Trailing zeros.
  function Ctz(b: Bits): (n: nat)
    ensures n <= |b|
  {
    if b == [] || b[0] then 0 else 1 + Ctz(b[1..])
  }

  lemma {:induction false} CtzLowest(b: Bits)
    requires AnyBit(b)
    ensures Ctz(b) < |b| && b[Ctz(b)] && forall i :: 0 <= i < Ctz(b) ==> !b[i]
  {
    if !b[0] {
      var i :| 0 <= i < |b| && b[i];
      assert b[1..][i - 1];
      CtzLowest(b[1..]);
      forall j | 0 <= j < Ctz(b) ensures !b[j] { if j > 0 { assert !b[1..][j - 1]; } }
    }
  }

  // ---------- the allocator ----------

  class Heap {
    const small: array<nat>     // heads of the exact-size lists
    const big: array<nat>       // heads of the big classes
    const bits: array<Bits>     // bit c % 64 of word c / 64: class c has a block
    var size: map<nat, nat>     // header words of free blocks
    var next: map<nat, nat>     // their link words
    var bump: nat
    var bumpEnd: nat
    ghost var blocks: Blocks    // every block ever cut from a chunk, as it is now
    ghost var free: set<nat>
    ghost var live: set<nat>
    ghost var lists: Lists
    var allocs: nat
    var frees: nat
    ghost var total: nat        // words obtained in chunks
    ghost const statics: Blocks // the program's own static data
    ghost var lost: nat         // abandoned single words

    predicate Arrays() {
      small.Length == SMALL_MAX + 1 && big.Length == NBIG && bits.Length == NBIG / 64 && small != big
    }

    ghost function Heads(): (h: seq<nat>)
      requires Arrays()
      reads small, big
      ensures |h| == LISTS
    {
      small[..] + big[..]
    }

    // The bit of a class is set exactly when its list is not empty.
    ghost predicate Flagged()
      requires Arrays()
      reads big, bits
    {
      && (forall w :: 0 <= w < NBIG / 64 ==> |bits[w]| == 64)
      && (forall c :: 0 <= c < NBIG ==> (bits[c / 64][c % 64] <==> big[c] != 0))
    }

    ghost predicate Sized()
      reads `size, `free, `blocks
    {
      forall a :: a in free ==> a in size && a in blocks && size[a] == blocks[a]
    }

    ghost predicate Shape()
      reads `size, `next, `free, `blocks, `lists, small, big, bits
    {
      Arrays() && Flagged() && Filed(lists, free, blocks) && Linked(next, Heads(), lists) && Sized()
    }

    // Every word of every chunk is accounted for.
    ghost predicate Counted()
      reads `blocks, `bump, `bumpEnd, `total, `lost
    {
      bump <= bumpEnd && total == Sum(blocks) + (bumpEnd - bump) + lost
    }

    ghost predicate Inv()
      reads this, small, big, bits
    {
      && Shape() && Placed(statics, blocks, bump, bumpEnd) && Counted()
      && free <= blocks.Keys && live <= blocks.Keys && free !! live
    }

    // Between operations every block is free or live.
    ghost predicate Valid()
      reads this, small, big, bits
    {
      Inv() && blocks.Keys == free + live
    }

    // The two counters tell how many blocks are live.
    ghost predicate Tallied()
      reads `live, `allocs, `frees
    {
      allocs == frees + |live|
    }

    // malloc's answer is memory nobody has.
    ghost predicate Offered(mem: nat, n: nat)
      reads `blocks, `bump, `bumpEnd
    {
      mem > 0 && OutsideAll(blocks, mem, n) && OutsideAll(statics, mem, n) && bump <= bumpEnd
          && Clear(bump, bumpEnd - bump, mem, n)
    }

    constructor (ghost statics: Blocks)
      ensures Valid() && this.statics == statics && Tallied() && fresh(small) && fresh(big) && fresh(bits)
      ensures live == {} && free == {} && total == 0 && lost == 0
    {
      this.statics := statics;
      small := new nat[SMALL_MAX + 1](_ => 0);
      big := new nat[NBIG](_ => 0);
      bits := new Bits[NBIG / 64](_ => seq(64, _ => false));
      size, next, bump, bumpEnd, allocs, frees := map[], map[], 0, 0, 0, 0;
      blocks, free, live, total, lost := map[], {}, {}, 0, 0;
      lists := seq(LISTS, _ => []);
      new;
      Started();
    }

    lemma Started()
      requires Arrays() && small[..] == seq(SMALL_MAX + 1, _ => 0) && big[..] == seq(NBIG, _ => 0)
      requires forall w :: 0 <= w < NBIG / 64 ==> bits[w] == seq(64, _ => false)
      requires size == map[] && next == map[] && bump == bumpEnd == 0 && blocks == map[] && free == live == {}
      requires total == lost == 0
      requires lists == seq(LISTS, _ => [])
      ensures Valid()
    {
      assert Filed(lists, free, blocks) by { hide ListOf; }
      assert Linked(next, Heads(), lists);
      SumNone();
    }

    // ---------- lists ----------

    method SetHead(ix: nat, p: nat)
      requires Arrays() && Flagged() && ix < LISTS
      modifies small, big, bits
      ensures Flagged() && Heads() == old(Heads())[ix := p]
    {
      if ix <= SMALL_MAX {
        small[ix] := p;
      } else {
        var c := ix - SMALL_MAX - 1;
        big[c] := p;
        bits[c / 64] := bits[c / 64][c % 64 := p != 0];
      }
      assert forall jx :: 0 <= jx < LISTS ==> Heads()[jx] == old(Heads())[ix := p][jx];
    }

    method GetHead(ix: nat) returns (p: nat)
      requires Arrays() && ix < LISTS
      ensures p == Heads()[ix]
    {
      p := if ix <= SMALL_MAX then small[ix] else big[ix - SMALL_MAX - 1];
    }

    // push_free: the block in hand goes to the front of its list.
    method PushFree(p: nat, words: nat)
      requires Inv() && p in blocks && p !in free && p !in live && blocks[p] == words
      modifies this`size, this`next, this`free, this`lists, small, big, bits
      ensures Inv() && free == old(free) + {p}
      ensures var ix := ListOf(words); lists == old(lists)[ix := [p] + old(lists)[ix]]
    {
      hide Shape, ListOf, Placed, Counted;
      PlacedSize(statics, blocks, bump, bumpEnd, p);
      File(p, words);
    }

    method File(p: nat, words: nat)
      requires Shape() && p in blocks && p !in free && 2 <= blocks[p] <= MAX_WORDS && blocks[p] == words && p != 0
      modifies this`size, this`next, this`free, this`lists, small, big, bits
      ensures Shape() && free == old(free) + {p}
      ensures var ix := ListOf(words); lists == old(lists)[ix := [p] + old(lists)[ix]]
    {
      hide Filed, ListOf, Linked, NotListed, Flagged;
      var ix := ListOf(words);
      FiledPush(lists, free, blocks, p);
      FiledNot(lists, free, blocks, p);
      LinkedPush(next, Heads(), lists, ix, p);
      FiledLists(lists, free, blocks);
      var head := GetHead(ix);
      SetHead(ix, p);
      size, next := size[p := words], next[p := head];
      free, lists := free + {p}, lists[ix := [p] + lists[ix]];
    }

    // Take the node after prev (or the head, when prev is 0) off list ix; it is
    // the list's n-th.
    method Unlink(ix: nat, prev: nat, p: nat, ghost n: nat)
      requires Inv() && ix < LISTS && n < |lists[ix]| && lists[ix][n] == p
          && prev == if n == 0 then 0 else lists[ix][n - 1]
      modifies this`next, this`free, this`lists, small, big, bits
      ensures Inv() && free == old(free) - {p}
      ensures lists == old(lists)[ix := old(lists)[ix][..n] + old(lists)[ix][n + 1..]]
    {
      hide Filed, ListOf, Linked, AloneOn, Placed;
      FiledLists(lists, free, blocks);
      FiledApart(lists, free, blocks, ix);
      FiledCut(lists, free, blocks, ix, n);
      LinkedCut(next, Heads(), lists, ix, n);
      LinkedNonzero(next, Heads(), lists, ix, n);
      if prev == 0 {
        SetHead(ix, next[p]);
      } else {
        next := next[prev := next[p]];
      }
      free, lists := free - {p}, lists[ix := lists[ix][..n] + lists[ix][n + 1..]];
    }

    // pop of a list's first block.
    method Pop(ix: nat) returns (p: nat)
      requires Inv() && ix < LISTS && lists[ix] != []
      modifies this`next, this`free, this`lists, small, big, bits
      ensures Inv() && p != 0 && p == old(lists)[ix][0] && free == old(free) - {p}
      ensures lists == old(lists)[ix := old(lists)[ix][1..]]
    {
      hide Filed, ListOf, Placed, Counted;
      LinkedHead(next, Heads(), lists, ix);
      p := GetHead(ix);
      Unlink(ix, 0, p, 0);
      assert old(lists)[ix][..0] + old(lists)[ix][0 + 1..] == old(lists)[ix][1..];
    }

    // first_nonempty_class: the least class from `from` on with a block, found
    // word by word; the first word's bits below `from` are masked out.
    method FirstNonempty(from: nat) returns (c: int)
      requires Shape() && from <= NBIG
      ensures c == -1 ==> forall d :: from <= d < NBIG ==> lists[BigList(d)] == []
      ensures c != -1 ==> from <= c < NBIG && lists[BigList(c)] != [] && forall d :: from <= d < c ==>
          lists[BigList(d)] == []
    {
      hide Filed, Linked, Sized;
      FiledLists(lists, free, blocks);
      EmptyClasses();
      c := FirstBit(from);
    }

    // The scan of the bitmap, a word at a time.
    method FirstBit(from: nat) returns (c: int)
      requires Arrays() && Flagged() && from <= NBIG
      ensures c == -1 ==> forall d :: from <= d < NBIG ==> !bits[d / 64][d % 64]
      ensures c != -1 ==> from <= c < NBIG && bits[c / 64][c % 64] && forall d :: from <= d < c ==>
          !bits[d / 64][d % 64]
    {
      var w := from / 64;
      while w < NBIG / 64
        invariant from / 64 <= w && (w <= NBIG / 64 || from == NBIG)
        invariant forall d :: from <= d < NBIG && d < 64 * w ==> !bits[d / 64][d % 64]
      {
        var word := if w == from / 64 then MaskBelow(bits[w], from % 64) else bits[w];
        if AnyBit(word) {
          c := w * 64 + Ctz(word);
          CtzLowest(word);
          return;
        }
        w := w + 1;
      }
      c := -1;
    }

    // A class has a block exactly when its bit is set.
    lemma EmptyClasses()
      requires Shape()
      ensures forall d :: 0 <= d < NBIG ==> (bits[d / 64][d % 64] <==> lists[BigList(d)] != [])
    {
      hide Filed;
      FiledLists(lists, free, blocks);
      forall d | 0 <= d < NBIG ensures bits[d / 64][d % 64] <==> lists[BigList(d)] != [] {
        assert Heads()[BigList(d)] == big[d];
        LinkedHead(next, Heads(), lists, BigList(d));
      }
    }

    // carve: the front words of the block in hand; a rest of two or more words
    // is freed, a single word abandoned.
    method Carve(p: nat, words: nat)
      requires Inv() && p in blocks && p !in free && p !in live && p in size && size[p] == blocks[p]
      requires 2 <= words <= blocks[p]
      modifies this`size, this`next, this`blocks, this`free, this`lists, this`lost, small, big, bits
      ensures Inv() && p in blocks && blocks[p] == words && p !in free
      ensures var rest := old(blocks)[p] - words;
              && (rest < 2 ==> blocks == old(blocks)[p := words] && free == old(free) && lists == old(lists))
              && (rest < 2 ==> lost == old(lost) + rest)
              && (rest >= 2 ==> blocks == old(blocks)[p := words][p + words := rest])
              && (rest >= 2 ==> free == old(free) + {p + words} && lost == old(lost))
    {
      hide Filed, ListOf, Linked, Apart, OutsideAll, Sum;
      var rest := size[p] - words;
      if rest > 0 {
        PlacedSplit(statics, blocks, bump, bumpEnd, p, words);
        SumSet(blocks, p, words);
        SumAdd(blocks[p := words], p + words, rest);
        FiledSame(lists, free, blocks, blocks[p := words]);
        if rest >= 2 {
          FiledSame(lists, free, blocks, blocks[p := words][p + words := rest]);
          blocks := blocks[p := words][p + words := rest];
          PushFree(p + words, rest);
        } else {
          blocks := blocks[p := words];
          lost := lost + 1;
        }
      } else {
        assert blocks[p := words] == blocks;
      }
    }

    // ---------- taking memory ----------

    // What taking p for words words does: p was free or fresh, everything else
    // that was live is as it was.
    twostate predicate Took(p: nat, words: nat)
      reads this, small, big, bits
    {
      && Inv() && p in blocks && blocks[p] == words && p !in free && p !in live && p !in old(live)
      && live == old(live) && (forall a :: a in old(live) && a in old(blocks) ==>
         a in blocks && blocks[a] == old(blocks)[a])
      && blocks.Keys == free + live + {p}
    }

    // Taken from a free block, with no memory asked for.
    twostate predicate Reused(p: nat, words: nat)
      reads this
    {
      && p in old(free) && p in old(blocks) && old(blocks)[p] >= words
      && total == old(total) && bump == old(bump) && bumpEnd == old(bumpEnd)
    }

    // Taken from the rest of the chunk if that is large enough, else from the
    // front of a new chunk.
    twostate predicate Bumped(p: nat, words: nat, mem: nat)
      reads this
    {
      && p !in old(free)
      && if old(bumpEnd - bump) >= words then p == old(bump) && total == old(total)
         else p == mem && total == old(total) + ChunkFor(words)
    }

    // The in-class search of big_alloc: the first block that is large enough
    // among the first BIG_SCAN of the class, or 0.
    method Scan(words: nat) returns (p: nat, ghost at: nat)
      requires Valid() && SMALL_MAX < words <= MAX_WORDS
      modifies this`next, this`free, this`lists, small, big, bits
      ensures p == 0 ==> Valid() && free == old(free) && lists == old(lists)
      ensures p == 0 ==> forall i :: 0 <= i < |lists[ListOf(words)]| && i < BIG_SCAN ==>
                           lists[ListOf(words)][i] in blocks && blocks[lists[ListOf(words)][i]] < words
      ensures p != 0 ==> Inv() && p in old(free) && free == old(free) - {p} && blocks[p] >= words && p in size
      ensures p != 0 ==> size[p] == blocks[p]
      ensures p != 0 ==> FirstFit(old(lists)[ListOf(words)], blocks, words, at) && p == old(lists)[ListOf(words)][at]
    {
      hide Filed, Linked, Placed, Counted, ListOf, Sized;
      at := 0;
      SmallOrBig(words);
      var ix := ListOf(words);
      FiledLists(lists, free, blocks);
      LinkedHead(next, Heads(), lists, ix);
      var prev, n := 0, 0;
      p := GetHead(ix);
      while p != 0 && n < BIG_SCAN
        invariant Valid() && unchanged(this) && unchanged(small) && unchanged(big) && unchanged(bits)
        invariant n <= |lists[ix]| && n <= BIG_SCAN && p == (if n < |lists[ix]| then lists[ix][n] else 0)
        invariant prev == if n == 0 then 0 else lists[ix][n - 1]
        invariant forall i :: 0 <= i < n ==> lists[ix][i] in blocks && blocks[lists[ix][i]] < words
        decreases BIG_SCAN - n
      {
        OnList(ix, n);
        if size[p] >= words {
          at := n;
          Unlink(ix, prev, p, n);
          return;
        }
        LinkedNonzero(next, Heads(), lists, ix, n);
        prev, p, n := p, next[p], n + 1;
      }
      if p == 0 && n < |lists[ix]| { LinkedNonzero(next, Heads(), lists, ix, n); }
      p := 0;
    }

    lemma OnList(ix: nat, n: nat)
      requires Shape() && ix < LISTS && n < |lists[ix]|
      ensures var a := lists[ix][n];
              a in free && a in blocks && a in size && size[a] == blocks[a] && 2 <= blocks[a] <= MAX_WORDS
      ensures ListOf(blocks[lists[ix][n]]) == ix
    {
      hide Linked;
      FiledAt(lists, free, blocks, ix, n);
    }

    // big_alloc: an in-class block, else any block of a higher class, else 0.
    method BigAlloc(words: nat) returns (p: nat)
      requires Valid() && SMALL_MAX < words <= MAX_WORDS
      modifies this`size, this`next, this`blocks, this`free, this`lists, this`lost, small, big, bits
      ensures p == 0 ==> Valid() && blocks == old(blocks) && free == old(free) && lost == old(lost)
      ensures p == 0 ==> forall a :: a in free ==> blocks[a] <= SMALL_MAX || BigClass(blocks[a]) <= BigClass(words)
      ensures p == 0 && RoundBig(words) == words ==> forall a :: a in free ==> blocks[a] < words
      ensures p == 0 ==> !Serveable(old(free), old(blocks), words)
      ensures p == 0 ==> forall i: nat :: !FirstFit(old(lists)[ListOf(words)], old(blocks), words, i)
      ensures p != 0 ==> Took(p, words) && Reused(p, words)
      ensures forall i: nat :: FirstFit(old(lists)[ListOf(words)], old(blocks), words, i) ==>
                p == old(lists)[ListOf(words)][i]
    {
      hide Filed, Linked, Placed, Counted, ListOf, Sized, Flagged, FirstFit, Serveable;
      FiledLists(lists, free, blocks);
      ghost var at, list := 0, lists[ListOf(words)];
      p, at := Scan(words);
      forall i: nat | p != 0 && FirstFit(list, old(blocks), words, i) ensures i == at {
        FitOnce(list, old(blocks), words, i, at);
      }
      if p != 0 {
        CutInHand(p);
        Carve(p, words);
        return;
      }
      SmallOrBig(words);
      FiledLists(lists, free, blocks);
      forall i: nat ensures !FirstFit(list, blocks, words, i) { NoFit(list, blocks, words, i); }
      var k := FirstNonempty(BigClass(words) + 1);
      if k == -1 {
        NoneHigher(words);
        if RoundBig(words) == words { NoneServes(words); }
        Unserved(words);
        return;
      }
      OnList(BigList(k), 0);
      ghost var c := blocks[lists[BigList(k)][0]];
      SmallOrBig(c);
      ClassOrder(words, c);
      p := Pop(BigList(k));
      CutInHand(p);
      Carve(p, words);
    }

    twostate lemma CutInHand(p: nat)
      requires old(Valid()) && Inv() && p in old(free) && free == old(free) - {p} && live == old(live)
      requires blocks == old(blocks)
      requires size == old(size)
      ensures p in blocks && p !in free && p !in live && blocks.Keys == free + live + {p} && p in size
      ensures size[p] == blocks[p]
    {
      hide Filed, Linked, Placed, Counted;
    }

    // No big block is free in a higher class.
    lemma NoneHigher(words: nat)
      requires Valid() && SMALL_MAX < words <= MAX_WORDS
      requires forall d :: BigClass(words) + 1 <= d < NBIG ==> lists[BigList(d)] == []
      ensures forall a :: a in free ==> blocks[a] <= SMALL_MAX || BigClass(blocks[a]) <= BigClass(words)
    {
      hide Linked, Placed, Counted, ListOf;
      forall a | a in free ensures blocks[a] <= SMALL_MAX || BigClass(blocks[a]) <= BigClass(words) {
        SmallOrBig(blocks[a]);
        assert a in lists[ListOf(blocks[a])];
        assert blocks[a] > SMALL_MAX ==> BigList(BigClass(blocks[a])) == ListOf(blocks[a]);
      }
    }

    lemma Unserved(words: nat)
      requires words > SMALL_MAX
      requires forall a :: a in free ==> a in blocks
      requires forall a :: a in free ==> blocks[a] <= SMALL_MAX || BigClass(blocks[a]) <= BigClass(words)
      requires RoundBig(words) == words ==> forall a :: a in free ==> blocks[a] < words
      ensures !Serveable(free, blocks, words)
    {
    }

    // And when the request is rounded, none at all is large enough.
    lemma NoneServes(words: nat)
      requires Valid() && SMALL_MAX < words <= MAX_WORDS && RoundBig(words) == words
      requires forall a :: a in free ==> blocks[a] <= SMALL_MAX || BigClass(blocks[a]) <= BigClass(words)
      requires forall i :: 0 <= i < |lists[ListOf(words)]| && i < BIG_SCAN ==>
                 lists[ListOf(words)][i] in blocks && blocks[lists[ListOf(words)][i]] < words
      ensures forall a :: a in free ==> blocks[a] < words
    {
      hide Linked, Placed, Counted, ListOf, Filed;
      FiledLists(lists, free, blocks);
      forall a | a in free ensures blocks[a] < words {
        if blocks[a] > SMALL_MAX {
          OtherClass(words, a);
          assert BigClass(blocks[a]) < BigClass(words);
          ClassOrder(blocks[a], words);
        }
      }
    }

    // A rounded request is served by the first block of its class.
    lemma OtherClass(words: nat, a: nat)
      requires Valid() && SMALL_MAX < words <= MAX_WORDS && RoundBig(words) == words && a in free
      requires blocks[a] > SMALL_MAX
      requires forall i :: 0 <= i < |lists[ListOf(words)]| && i < BIG_SCAN ==>
                 lists[ListOf(words)][i] in blocks && blocks[lists[ListOf(words)][i]] < words
      ensures BigClass(blocks[a]) != BigClass(words)
    {
      hide Linked, Placed, Counted;
      SmallOrBig(blocks[a]);
      SmallOrBig(words);
      var ix := ListOf(words);
      assert a in lists[ListOf(blocks[a])];
      if lists[ix] != [] {
        OnList(ix, 0);
        SmallOrBig(blocks[lists[ix][0]]);
        if BigClass(blocks[lists[ix][0]]) == BigClass(words) { RoundedServed(words, blocks[lists[ix][0]]); }
      }
    }

    // bump_alloc: from the rest of the chunk, or from a new one at mem after
    // recycling that rest.
    method BumpAlloc(words: nat, mem: nat) returns (p: nat)
      requires Valid() && 2 <= words <= MAX_WORDS
      requires Offered(mem, ChunkFor(words))
      modifies this`size, this`next, this`blocks, this`free, this`lists, this`lost, this`bump, this`bumpEnd
      modifies this`total, small, big, bits
      ensures Took(p, words) && Bumped(p, words, mem)
    {
      hide Filed, ListOf, Linked, Apart, Sum, Placed;
      var avail := bumpEnd - bump;
      if avail < words {
        NewChunk(words, mem);
      }
      p := bump;
      RoomFor(words);
      SumAdd(blocks, bump, words);
      FiledSame(lists, free, blocks, blocks[bump := words]);
      blocks, bump := blocks[bump := words], bump + words;
    }

    lemma RoomFor(words: nat)
      requires Valid() && 2 <= words <= bumpEnd - bump
      ensures bump !in blocks && Placed(statics, blocks[bump := words], bump + words, bumpEnd)
    {
      hide Filed, Linked, Sized;
      PlacedLess(statics, blocks, bump, bumpEnd, words);
    }

    method NewChunk(words: nat, mem: nat)
      requires Valid() && 2 <= words <= MAX_WORDS && bumpEnd - bump < words
      requires Offered(mem, ChunkFor(words))
      modifies this`size, this`next, this`blocks, this`free, this`lists, this`lost, this`bump, this`bumpEnd
      modifies this`total, small, big, bits
      ensures Valid() && bumpEnd - bump >= words && live == old(live)
      ensures bump == mem && total == old(total) + ChunkFor(words)
      ensures forall a :: a in old(blocks) ==> a in blocks && blocks[a] == old(blocks)[a]
    {
      hide Filed, ListOf, Linked, Apart, Sum, Placed, Flagged, Sized;
      var cw := ChunkFor(words);
      EndTail(mem, cw);
      PlacedChunk(statics, blocks, bump, bumpEnd, mem, cw);
      bump, bumpEnd, total := mem, mem + cw, total + cw;
    }

    // The rest of the chunk is recycled, or a single word of it abandoned.
    method EndTail(ghost mem: nat, ghost cw: nat)
      requires Valid() && bumpEnd - bump <= MAX_WORDS && OutsideAll(blocks, mem, cw)
      requires Clear(bump, bumpEnd - bump, mem, cw)
      modifies this`size, this`next, this`blocks, this`free, this`lists, this`lost, this`bump, small, big, bits
      ensures Valid() && bump == bumpEnd && live == old(live) && OutsideAll(blocks, mem, cw)
      ensures forall a :: a in old(blocks) ==> a in blocks && blocks[a] == old(blocks)[a]
    {
      hide Filed, ListOf, Linked, Apart, Sum, Placed, Flagged;
      var avail, p := bumpEnd - bump, bump;
      if avail >= 2 {
        RoomFor(avail);
        SumAdd(blocks, p, avail);
        FiledSame(lists, free, blocks, blocks[p := avail]);
        TailOutside(blocks, p, avail, mem, cw);
        blocks, bump := blocks[p := avail], bumpEnd;
        PushFree(p, avail);
      } else {
        lost := lost + avail;
        bump := bumpEnd;
        TailGone(statics, blocks, p, bumpEnd);
      }
    }

    // dc_alloc_rc: an exact-size block, the front of the smallest big class's
    // first, or bump memory; a big request searches its class first. A request
    // past the header's size field is fatal, here the answer 0.
    method DcAllocRc(nbytes: nat, mem: nat) returns (p: nat)
      requires Valid() && Tallied() && nbytes < TWO64
      requires Offered(mem, ChunkFor(WordsFor(nbytes)))
      modifies this`size, this`next, this`blocks, this`free, this`live, this`lists, this`lost, this`bump
      modifies this`bumpEnd, this`total, this`allocs, small, big, bits
      ensures Valid() && Tallied() && (p == 0 <==> WordsFor(nbytes) > MAX_WORDS)
      ensures p == 0 ==> blocks == old(blocks) && live == old(live)
      ensures p != 0 ==> p !in old(live) && live == old(live) + {p} && p in blocks && blocks[p] == WordsFor(nbytes)
      ensures p != 0 ==> allocs == old(allocs) + 1
      ensures p != 0 ==> Reused(p, WordsFor(nbytes)) || Bumped(p, WordsFor(nbytes), mem)
      ensures p != 0 && WordsFor(nbytes) <= SMALL_MAX && old(lists)[WordsFor(nbytes)] != [] ==>
                p == old(lists)[WordsFor(nbytes)][0]
      ensures p != 0 && WordsFor(nbytes) <= SMALL_MAX && old(lists)[WordsFor(nbytes)] == [] ==>
                HasBig(old(free), old(blocks)) ==> Lowest(old(free), old(blocks), p)
      ensures p != 0 && WordsFor(nbytes) > SMALL_MAX ==>
                forall i: nat :: FirstFit(old(lists)[ListOf(WordsFor(nbytes))], old(blocks), WordsFor(nbytes), i) ==>
                  p == old(lists)[ListOf(WordsFor(nbytes))][i]
      ensures p != 0 && p !in old(free) ==>
                forall a :: a in old(free) && a in old(blocks) ==> Useless(old(blocks)[a], WordsFor(nbytes))
      ensures forall a :: a in old(live) && a in old(blocks) ==> a in blocks && blocks[a] == old(blocks)[a]
    {
      hide WordsFor, Inv, Tallied, Offered;
      var words := WordsFor(nbytes);
      if words > MAX_WORDS { return 0; }
      if words <= SMALL_MAX { ExactList(words); }
      ghost var free0, blocks0 := free, blocks;
      p := Obtain(words, mem);
      if p !in free0 { NoneUseful(free0, blocks0, words); }
      NotNull(p);
      HandOut(p);
    }

    // An exact-size list has the free blocks of that size.
    lemma ExactList(words: nat)
      requires Valid() && 2 <= words <= SMALL_MAX
      ensures |lists| == LISTS && (lists[words] == [] ==> forall a :: a in free && a in blocks ==> blocks[a] != words)
      ensures lists[words] != [] ==> lists[words][0] in free
    {
      hide Linked, Placed, Counted;
    }

    // The block in hand is the program's; n_allocs counts it.
    method HandOut(p: nat)
      requires Inv() && Tallied() && p in blocks && p !in free && p !in live && blocks.Keys == free + live + {p}
      modifies this`live, this`allocs
      ensures Valid() && Tallied() && live == old(live) + {p} && allocs == old(allocs) + 1
    {
      hide Placed, Counted, Shape;
      live, allocs := live + {p}, allocs + 1;
    }

    // A block is never handed out over static data.
    lemma NotStatic(p: nat)
      requires Valid() && p in blocks
      ensures p in statics ==> statics[p] == 0
    {
      hide Shape, Counted, Apart;
    }

    method Obtain(words: nat, mem: nat) returns (p: nat)
      requires Valid() && 2 <= words <= MAX_WORDS
      requires Offered(mem, ChunkFor(words))
      modifies this`size, this`next, this`blocks, this`free, this`lists, this`lost, this`bump, this`bumpEnd
      modifies this`total, small, big, bits
      ensures Took(p, words) && (Reused(p, words) || Bumped(p, words, mem))
      ensures words <= SMALL_MAX && old(lists)[words] != [] ==> p == old(lists)[words][0]
      ensures words <= SMALL_MAX && old(lists)[words] == [] && HasBig(old(free), old(blocks)) ==>
        Lowest(old(free), old(blocks), p)
      ensures words > SMALL_MAX && Serveable(old(free), old(blocks), words) ==> p in old(free)
      ensures words > SMALL_MAX ==>
                forall i: nat :: FirstFit(old(lists)[ListOf(words)], old(blocks), words, i) ==>
                  p == old(lists)[ListOf(words)][i]
    {
      hide Filed, Linked, Placed, Counted, ListOf, Sized, Flagged;
      if words <= SMALL_MAX {
        p := SmallAlloc(words, mem);
      } else {
        p := BigAlloc(words);
        if p == 0 {
          p := BumpAlloc(words, mem);
        }
      }
    }

    lemma NotNull(p: nat)
      requires Inv() && p in blocks
      ensures p != 0
    {
    }

    method SmallAlloc(words: nat, mem: nat) returns (p: nat)
      requires Valid() && 2 <= words <= SMALL_MAX
      requires Offered(mem, ChunkFor(words))
      modifies this`size, this`next, this`blocks, this`free, this`lists, this`lost, this`bump, this`bumpEnd
      modifies this`total, small, big, bits
      ensures Took(p, words) && (Reused(p, words) || Bumped(p, words, mem))
      ensures old(lists)[words] != [] ==> p == old(lists)[words][0]
      ensures old(lists)[words] == [] && HasBig(old(free), old(blocks)) ==> Lowest(old(free), old(blocks), p)
    {
      hide Filed, Linked, Placed, Counted, ListOf, Sized;
      FiledLists(lists, free, blocks);
      SmallOrBig(words);
      LinkedHead(next, Heads(), lists, words);
      var head := GetHead(words);
      if head != 0 {
        OnList(words, 0);
        SameSmall(blocks[head], words);
        p := Pop(words);
        CutInHand(p);
        return;
      }
      var k := FirstNonempty(0);
      if k == -1 {
        NoneBig();
        p := BumpAlloc(words, mem);
        return;
      }
      LowestHead(k);
      OnList(BigList(k), 0);
      BigEnough(blocks[lists[BigList(k)][0]], k);
      p := Pop(BigList(k));
      CutInHand(p);
      Carve(p, words);
    }

    lemma BigListed()
      requires Valid()
      ensures forall a :: a in free && blocks[a] > SMALL_MAX ==>
                0 <= BigClass(blocks[a]) < NBIG && lists[BigList(BigClass(blocks[a]))] != []
    {
      hide Linked, Placed, Counted, ListOf;
      forall a | a in free && blocks[a] > SMALL_MAX
        ensures 0 <= BigClass(blocks[a]) < NBIG && lists[BigList(BigClass(blocks[a]))] != []
      {
        SmallOrBig(blocks[a]);
        assert a in lists[ListOf(blocks[a])];
      }
    }

    lemma NoneBig()
      requires Valid() && forall d :: 0 <= d < NBIG ==> lists[BigList(d)] == []
      ensures !HasBig(free, blocks)
    {
      hide Linked, Placed, Counted, ListOf;
      BigListed();
    }

    lemma LowestHead(k: nat)
      requires Valid() && k < NBIG && lists[BigList(k)] != [] && forall d :: 0 <= d < k ==> lists[BigList(d)] == []
      ensures Lowest(free, blocks, lists[BigList(k)][0])
    {
      hide Linked, Placed, Counted, ListOf;
      var p := lists[BigList(k)][0];
      OnList(BigList(k), 0);
      BigEnough(blocks[p], k);
      SmallOrBig(blocks[p]);
      forall a | a in free && blocks[a] > SMALL_MAX ensures k <= BigClass(blocks[a]) {
        SmallOrBig(blocks[a]);
        assert a in lists[ListOf(blocks[a])];
        assert BigList(BigClass(blocks[a])) == ListOf(blocks[a]);
      }
    }

    // free_block: a live block, whose header says words, goes back to its list.
    method FreeBlock(p: nat, words: nat)
      requires Valid() && Tallied() && p in live && blocks[p] == words
      modifies this`size, this`next, this`free, this`live, this`lists, this`frees, small, big, bits
      ensures Valid() && Tallied() && live == old(live) - {p} && free == old(free) + {p} && frees == old(frees) + 1
      ensures 2 <= words <= MAX_WORDS
      ensures var ix := ListOf(words); lists == old(lists)[ix := [p] + old(lists)[ix]]
    {
      hide ListOf, Shape, Placed, Counted;
      PlacedSize(statics, blocks, bump, bumpEnd, p);
      HandIn(p);
      PushFree(p, words);
    }

    // The block is in hand again; n_frees counts it.
    method HandIn(p: nat)
      requires Inv() && Tallied() && p in live
      modifies this`live, this`frees
      ensures Inv() && Tallied() && live == old(live) - {p} && frees == old(frees) + 1 && p in blocks && p !in free
    {
      hide Placed, Counted, Shape;
      live, frees := live - {p}, frees + 1;
    }

    // Every word obtained is live, free, still unused, or abandoned.
    lemma Conserved()
      requires Valid()
      ensures total == Sum(Only(blocks, live)) + Sum(Only(blocks, free)) + (bumpEnd - bump) + lost
    {
      hide Filed, Linked, Placed, Sized, Flagged, Sum, Only;
      assert blocks.Keys == live + free;
      SumSplit(blocks, live, free);
    }

    // No two blocks share a word, whether live or free, and none reaches into
    // the unused rest of the chunk.
    lemma NoOverlap(a: nat, b: nat)
      requires Valid() && a in live + free && b in live + free && a != b
      ensures Clear(a, blocks[a], b, blocks[b]) && Clear(a, blocks[a], bump, bumpEnd - bump)
    {
      hide Filed, Linked, Sized, Flagged, Sum;
    }
  }

  lemma {:induction false} SameSmall(n: nat, words: nat)
    requires 2 <= n <= MAX_WORDS && 2 <= words <= SMALL_MAX && ListOf(n) == words
    ensures n == words
  {
  }

  lemma {:induction false} BigEnough(n: nat, k: int)
    requires 2 <= n <= MAX_WORDS && 0 <= k && ListOf(n) == BigList(k)
    ensures n > SMALL_MAX
  {
  }

  const TWO64: nat := 0x1_0000_0000_0000_0000

  // Bytes to words, in 64-bit arithmetic; at least the two of a free block.
  function WordsFor(nbytes: nat): (w: nat)
    ensures w >= 2
  {
    var words := (nbytes + 7) % TWO64 / 8;
    if words < 2 then 2 else words
  }

  // The block holds the bytes asked for unless rounding up wrapped around.
  lemma {:induction false} WordsSuffice(nbytes: nat)
    requires nbytes < TWO64
    ensures 8 * WordsFor(nbytes) >= nbytes <==> nbytes + 7 < TWO64
    ensures nbytes + 7 < TWO64 && WordsFor(nbytes) > 2 ==> 8 * (WordsFor(nbytes) - 1) < nbytes
  {
    if nbytes + 7 >= TWO64 { assert (nbytes + 7) % TWO64 == nbytes + 7 - TWO64; }
  }

  function ChunkFor(words: nat): nat { if words > CHUNK_WORDS then words else CHUNK_WORDS }

  lemma {:induction false} TailOutside(bs: Blocks, p: nat, n: nat, mem: nat, m: nat)
    requires OutsideAll(bs, mem, m) && Clear(p, n, mem, m)
    ensures OutsideAll(bs[p := n], mem, m)
  {
  }

  // An abandoned word belongs to no block.
  lemma {:induction false} TailGone(st: Blocks, bs: Blocks, bump: nat, bumpEnd: nat)
    requires Placed(st, bs, bump, bumpEnd)
    ensures Placed(st, bs, bumpEnd, bumpEnd)
  {
  }

  lemma {:induction false} FiledLists(lists: Lists, free: set<nat>, bs: Blocks)
    requires Filed(lists, free, bs)
    ensures |lists| == LISTS && forall a :: a in free ==> a in bs
  {
    hide ListOf;
  }

  lemma {:induction false} LinkedHead(next: map<nat, nat>, heads: seq<nat>, lists: Lists, ix: nat)
    requires Linked(next, heads, lists) && ix < LISTS
    ensures heads[ix] == (if lists[ix] == [] then 0 else lists[ix][0]) && (heads[ix] == 0 <==> lists[ix] == [])
  {
    assert Chain(next, heads[ix], lists[ix]);
    if lists[ix] != [] { assert LinkAt(next, lists[ix], 0); }
  }

  lemma {:induction false} LinkedNonzero(next: map<nat, nat>, heads: seq<nat>, lists: Lists, ix: nat, n: nat)
    requires Linked(next, heads, lists) && ix < LISTS && n < |lists[ix]|
    ensures lists[ix][n] != 0 && lists[ix][n] in next && (n > 0 ==> lists[ix][n - 1] != 0)
    ensures next[lists[ix][n]] == if n + 1 < |lists[ix]| then lists[ix][n + 1] else 0
  {
    assert Chain(next, heads[ix], lists[ix]);
    assert LinkAt(next, lists[ix], n);
    if n > 0 { assert LinkAt(next, lists[ix], n - 1); }
  }
}

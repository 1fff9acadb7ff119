// The counted heap of gen5/rt5.c: blocks, their children, exact counts, and the
// recursive definition of giving up a reference.
module RcHeap {

  // A 64-bit word: odd words are immediates, 0 is no value (a missing reuse
  // token), any other even word is the address of a block.
  type Word = int

  predicate IsImm(w: Word) { w % 2 == 1 }
  predicate IsRef(w: Word) { w % 2 == 0 && w != 0 }

  lemma {:induction false} ImmOrRef(w: Word)
    ensures IsRef(w) <==> !IsImm(w) && w != 0
  {
  }

  const RC_IMMORTAL: nat := 0xFFFFF
  const T_STRING := 1
  const T_TUPLE := 2
  const T_ADT := 3
  const T_CLOSURE := 4
  // Memory owned by someone whose payload is not (or no longer) part of the
  // object graph: a block just handed out, or a reuse token.
  const T_RAW := 0

  // words are the payload, block word i being words[i - 1]. A freed block is an
  // address without an entry in the heap.
  datatype Block = Block(rc: nat, tag: int, words: seq<Word>)

  type Heap = map<Word, Block>

  function SizeOf(b: Block): nat { |b.words| + 1 }

  // Payload index of the first child, by tag (the switch of release_children).
  function FirstChild(b: Block): nat {
    if b.tag == T_TUPLE then 0
    else if b.tag == T_ADT then 1
    else if b.tag == T_CLOSURE then 2
    else |b.words|
  }

  // The references among some words of block p. The block's own address is the
  // non-owning edge of a local recursive closure and does not count.
  function RefsIn(p: Word, ws: seq<Word>): seq<Word> {
    if ws == [] then []
    else if IsRef(ws[0]) && ws[0] != p then [ws[0]] + RefsIn(p, ws[1..])
    else RefsIn(p, ws[1..])
  }

  function Kids(p: Word, b: Block): seq<Word> {
    if FirstChild(b) <= |b.words| then RefsIn(p, b.words[FirstChild(b)..]) else []
  }

  lemma {:induction false} SameKids(p: Word, a: Block, b: Block)
    requires a.tag == b.tag && a.words == b.words
    ensures Kids(p, a) == Kids(p, b)
  {
  }

  // ---------- all references held by fields ----------

  ghost function Refs(h: Heap): multiset<Word>
    decreases |h|
  {
    if exists p :: p in h then
      var p :| p in h;
      multiset(Kids(p, h[p])) + Refs(h - {p})
    else multiset{}
  }

  lemma {:induction false} RefsPick(h: Heap, q: Word) returns (p: Word)
    requires q in h
    ensures p in h && Refs(h) == multiset(Kids(p, h[p])) + Refs(h - {p})
  {
    hide Kids;
    assert exists p :: p in h;
    p :| p in h && Refs(h) == multiset(Kids(p, h[p])) + Refs(h - {p});
  }

  lemma {:induction false} RefsRemove(h: Heap, q: Word)
    requires q in h
    ensures Refs(h) == multiset(Kids(q, h[q])) + Refs(h - {q})
    decreases |h|
  {
    hide Kids;
    var p := RefsPick(h, q);
    if p != q {
      RefsRemove(h - {p}, q);
      RefsRemove(h - {q}, p);
      assert h - {p} - {q} == h - {q} - {p};
    }
  }

  lemma {:induction false} RefsAdd(h: Heap, q: Word, b: Block)
    requires q !in h
    ensures Refs(h[q := b]) == multiset(Kids(q, b)) + Refs(h)
  {
    RefsRemove(h[q := b], q);
    assert h[q := b] - {q} == h;
  }

  // Replacing a block changes the references by the difference of its children.
  lemma {:induction false} RefsUpdate(h: Heap, q: Word, b: Block)
    requires q in h
    ensures Refs(h[q := b]) + multiset(Kids(q, h[q])) == Refs(h) + multiset(Kids(q, b))
  {
    RefsRemove(h, q);
    RefsRemove(h[q := b], q);
    assert h[q := b] - {q} == h - {q};
  }

  lemma {:induction false} CancelRight(a: multiset<Word>, b: multiset<Word>, c: multiset<Word>)
    requires a + c == b + c
    ensures a == b
  {
    forall k ensures a[k] == b[k] { assert (a + c)[k] == (b + c)[k]; }
  }

  lemma {:induction false} RefsCount(h: Heap, q: Word, n: nat)
    requires q in h
    ensures Refs(h[q := h[q].(rc := n)]) == Refs(h)
  {
    hide Kids, Refs;
    var b := h[q].(rc := n);
    SameKids(q, b, h[q]);
    RefsUpdate(h, q, b);
    CancelRight(Refs(h[q := b]), Refs(h), multiset(Kids(q, b)));
  }

  // A change of count leaves the graph as it is.
  lemma {:induction false} SetCount(h: Heap, q: Word, n: nat)
    requires q in h
    ensures var h1 := h[q := h[q].(rc := n)];
            && h1.Keys == h.Keys && Refs(h1) == Refs(h) && (forall p :: p in h ==> Kids(p, h1[p]) == Kids(p, h[p]))
            && (Shaped(h) && 1 <= n <= RC_IMMORTAL ==> Shaped(h1))
            && (Acyclic(h) ==> Acyclic(h1))
  {
    hide Kids, Refs, IsRef;
    var h1 := h[q := h[q].(rc := n)];
    SameKids(q, h1[q], h[q]);
    RefsCount(h, q, n);
    if Acyclic(h) {
      var rank :| Ranked(h, rank);
      assert Ranked(h1, rank);
    }
  }

  lemma {:induction false} KidCounted(h: Heap, p: Word, k: Word)
    requires p in h && k in Kids(p, h[p])
    ensures Refs(h)[k] > 0
  {
    RefsRemove(h, p);
  }

  lemma {:induction false} CountedKid(h: Heap, k: Word)
    requires Refs(h)[k] > 0
    ensures exists p :: p in h && k in Kids(p, h[p])
    decreases |h|
  {
    hide Kids;
    assert exists p :: p in h;
    var p0 :| p0 in h;
    var p := RefsPick(h, p0);
    if k !in Kids(p, h[p]) {
      CountedKid(h - {p}, k);
      var q :| q in h - {p} && k in Kids(q, (h - {p})[q]);
      assert q in h && k in Kids(q, h[q]);
    }
  }

  lemma {:induction false} RefsInRefs(p: Word, ws: seq<Word>)
    ensures forall k :: k in RefsIn(p, ws) <==> k in ws && IsRef(k) && k != p
  {
    if ws != [] { RefsInRefs(p, ws[1..]); }
  }

  lemma {:induction false} KidsAreRefs(p: Word, b: Block, k: Word)
    requires k in Kids(p, b)
    ensures IsRef(k) && k != p && k in b.words
  {
    RefsInRefs(p, b.words[FirstChild(b)..]);
  }

  lemma {:induction false} RefsInAppend(p: Word, a: seq<Word>, b: seq<Word>)
    ensures RefsIn(p, a + b) == RefsIn(p, a) + RefsIn(p, b)
  {
    if a == [] { assert a + b == b; }
    else {
      assert (a + b)[1..] == a[1..] + b;
      RefsInAppend(p, a[1..], b);
    }
  }

  // ---------- the counting invariant ----------

  // Heap shape: no dangling field, counts in range.
  ghost predicate Shaped(h: Heap) {
    && (forall p :: p in h ==> IsRef(p) && 1 <= h[p].rc <= RC_IMMORTAL)
    && (forall p, k :: p in h && k in Kids(p, h[p]) ==> k in h)
  }

  // Counts when the references in gone are still written in fields but have
  // been given up, and owed are the references held outside the heap.
  ghost predicate Owing(h: Heap, owed: multiset<Word>, gone: multiset<Word>) {
    && Shaped(h)
    && (forall w :: w in owed && IsRef(w) ==> w in h)
    && (forall p :: p in h && h[p].rc != RC_IMMORTAL ==> h[p].rc + gone[p] == owed[p] + Refs(h)[p])
  }

  // Every unsaturated count is the number of references to the block: those
  // held outside (roots) plus those in fields.
  ghost predicate Exact(h: Heap, roots: multiset<Word>) { Owing(h, roots, multiset{}) }

  ghost predicate Ranked(h: Heap, rank: map<Word, nat>) {
    forall p, k :: p in h && k in Kids(p, h[p]) && k in h ==>
      p in rank && k in rank && rank[k] < rank[p]
  }

  // No cycles, apart from a closure's edge to itself.
  ghost predicate Acyclic(h: Heap) { exists rank :: Ranked(h, rank) }

  // h1 is h with some blocks freed and some counts lowered.
  ghost predicate SubHeap(h1: Heap, h: Heap) {
    && h1.Keys <= h.Keys
    && (forall p :: p in h1 ==> h1[p].tag == h[p].tag && h1[p].words == h[p].words)
    && (forall p :: p in h && h[p].rc == RC_IMMORTAL ==> p in h1)
    && (forall p :: p in h1 ==> (h1[p].rc == RC_IMMORTAL <==> h[p].rc == RC_IMMORTAL))
  }

  lemma {:induction false} SubHeapKeys(h1: Heap, h: Heap)
    requires SubHeap(h1, h)
    ensures h1.Keys <= h.Keys
  {
  }

  lemma {:induction false} SubHeapTrans(h2: Heap, h1: Heap, h: Heap)
    requires SubHeap(h2, h1) && SubHeap(h1, h)
    ensures SubHeap(h2, h)
  {
  }

  lemma {:induction false} SubHeapAcyclic(h1: Heap, h: Heap)
    requires SubHeap(h1, h) && Acyclic(h)
    ensures Acyclic(h1)
  {
    hide Kids;
    var rank :| Ranked(h, rank);
    forall p | p in h1 ensures Kids(p, h1[p]) == Kids(p, h[p]) { SameKids(p, h1[p], h[p]); }
    assert Ranked(h1, rank);
  }

  // ---------- dup and drop ----------

  // Fault stands for the runtime's aborts: touching a freed block, underflow.
  datatype Outcome = Fault | Ok(heap: Heap)

  // dc_dup: 0xFFFFE + 1 saturates to immortal, which is never changed again.
  function Dup(h: Heap, w: Word): Outcome {
    if !IsRef(w) then Ok(h)
    else if w !in h then Fault
    else if h[w].rc == RC_IMMORTAL then Ok(h)
    else Ok(h[w := h[w].(rc := h[w].rc + 1)])
  }

  // Giving up one reference, recursively: the last one frees the block and
  // gives up its children.
  function Drop(h: Heap, w: Word): (r: Outcome)
    ensures r.Ok? ==> |r.heap| <= |h|
    decreases |h|, 0, 0
  {
    if !IsRef(w) then Ok(h)
    else if w !in h then Fault
    else if h[w].rc == RC_IMMORTAL then Ok(h)
    else if h[w].rc == 0 then Fault
    else if h[w].rc > 1 then Ok(h[w := h[w].(rc := h[w].rc - 1)])
    else DropAll(h - {w}, Kids(w, h[w]))
  }

  function DropAll(h: Heap, ws: seq<Word>): (r: Outcome)
    ensures r.Ok? ==> |r.heap| <= |h|
    decreases |h|, 1, |ws|
  {
    if ws == [] then Ok(h)
    else match Drop(h, ws[0])
      case Fault => Fault
      case Ok(h1) => DropAll(h1, ws[1..])
  }

  // ---------- drop keeps counts exact ----------

  lemma {:induction false} RootsExt(h: Heap, a: multiset<Word>, b: multiset<Word>, gone: multiset<Word>)
    requires Owing(h, a, gone) && forall p :: IsRef(p) ==> a[p] == b[p]
    ensures Owing(h, b, gone)
  {
  }

  lemma {:induction false} DecExact(h: Heap, w: Word, owed: multiset<Word>, gone: multiset<Word>)
    requires Owing(h, owed + multiset{w}, gone) && w in h && h[w].rc != RC_IMMORTAL && h[w].rc > 1
    ensures Owing(h[w := h[w].(rc := h[w].rc - 1)], owed, gone)
  {
    hide Kids, Refs, IsRef;
    SetCount(h, w, h[w].rc - 1);
  }

  // Freeing a block whose children were given up settles its last reference.
  lemma {:induction false} FreeExact(h: Heap, w: Word, owed: multiset<Word>)
    requires w in h && h[w].rc == 1
    requires Owing(h, owed + multiset{w}, multiset(Kids(w, h[w])))
    ensures Exact(h - {w}, owed) && SubHeap(h - {w}, h) && owed[w] == 0
  {
    hide Kids, Refs, IsRef;
    var h1 := h - {w};
    RefsRemove(h, w);
    NotOwnKid(w, h[w]);
    forall p, k | p in h1 && k in Kids(p, h1[p]) ensures k in h1 { KidCounted(h1, p, k); }
  }

  lemma {:induction false} NotOwnKid(p: Word, b: Block)
    ensures p !in Kids(p, b)
  {
    if p in Kids(p, b) { KidsAreRefs(p, b, p); }
  }

  // Taking the block out first makes its children's references owed.
  lemma {:induction false} UnlinkExact(h: Heap, w: Word, owed: multiset<Word>)
    requires w in h && h[w].rc == 1 && Exact(h, owed + multiset{w})
    ensures Exact(h - {w}, owed + multiset(Kids(w, h[w]))) && SubHeap(h - {w}, h)
  {
    hide Kids, Refs, IsRef;
    var h1 := h - {w};
    RefsRemove(h, w);
    NotOwnKid(w, h[w]);
    forall p, k | p in h1 && k in Kids(p, h1[p]) ensures k in h1 { KidCounted(h1, p, k); }
  }

  lemma {:induction false} DropExact(h: Heap, w: Word, roots: multiset<Word>)
    requires Exact(h, roots + multiset{w})
    ensures Drop(h, w).Ok? && Exact(Drop(h, w).heap, roots) && SubHeap(Drop(h, w).heap, h)
    decreases |h|, 0, 0
  {
    hide Kids, IsRef, Refs;
    if !IsRef(w) {
      RootsExt(h, roots + multiset{w}, roots, multiset{});
    } else if h[w].rc == RC_IMMORTAL {
    } else if h[w].rc > 1 {
      DecExact(h, w, roots, multiset{});
    } else {
      UnlinkExact(h, w, roots);
      DropAllExact(h - {w}, Kids(w, h[w]), roots);
      SubHeapTrans(Drop(h, w).heap, h - {w}, h);
    }
  }

  lemma {:induction false} DropAllExact(h: Heap, ws: seq<Word>, roots: multiset<Word>)
    requires Exact(h, roots + multiset(ws))
    ensures DropAll(h, ws).Ok? && Exact(DropAll(h, ws).heap, roots) && SubHeap(DropAll(h, ws).heap, h)
    decreases |h|, 1, |ws|
  {
    hide Kids, Exact, SubHeap;
    if ws == [] {
      assert roots + multiset(ws) == roots;
      SubHeapRefl(h);
    } else {
      assert ws == [ws[0]] + ws[1..];
      assert roots + multiset(ws) == (roots + multiset(ws[1..])) + multiset{ws[0]};
      DropExact(h, ws[0], roots + multiset(ws[1..]));
      var h1 := Drop(h, ws[0]).heap;
      DropAllExact(h1, ws[1..], roots);
      SubHeapTrans(DropAll(h, ws).heap, h1, h);
    }
  }

  lemma {:induction false} SubHeapRefl(h: Heap)
    ensures SubHeap(h, h)
  {
  }

  lemma {:induction false} IncExact(h: Heap, w: Word, roots: multiset<Word>)
    requires Exact(h, roots) && w in h && h[w].rc != RC_IMMORTAL
    ensures Exact(h[w := h[w].(rc := h[w].rc + 1)], roots + multiset{w})
  {
    hide Kids, Refs, IsRef, Acyclic;
    SetCount(h, w, h[w].rc + 1);
  }

  lemma {:induction false} DupExact(h: Heap, w: Word, roots: multiset<Word>)
    requires Exact(h, roots) && (IsRef(w) ==> w in h)
    ensures Dup(h, w).Ok? && Exact(Dup(h, w).heap, roots + multiset{w})
    ensures Acyclic(h) ==> Acyclic(Dup(h, w).heap)
  {
    hide Kids, Acyclic, Refs, IsRef, Exact;
    if IsRef(w) && h[w].rc != RC_IMMORTAL {
      SetCount(h, w, h[w].rc + 1);
      IncExact(h, w, roots);
    } else {
      ImmortalExact(h, w, roots);
    }
  }

  // References to immortal blocks, and words that are no references, do not
  // count.
  lemma {:induction false} ImmortalExact(h: Heap, w: Word, roots: multiset<Word>)
    requires Exact(h, roots) && (IsRef(w) ==> w in h && h[w].rc == RC_IMMORTAL)
    ensures Exact(h, roots + multiset{w})
  {
    hide Kids, Refs, Acyclic, IsRef;
  }

  // ---------- garbage freedom and uniqueness ----------

  // A counted block is owed from outside or is a field of a live block.
  lemma {:induction false} LiveHasOwner(h: Heap, p: Word, roots: multiset<Word>)
    requires Exact(h, roots) && p in h && h[p].rc != RC_IMMORTAL
    ensures p in roots || exists q :: q in h && p in Kids(q, h[q])
  {
    if p !in roots { CountedKid(h, p); }
  }

  // A bound on the ranks of a finite heap.
  ghost function MaxRank(h: Heap, rank: map<Word, nat>): (m: nat)
    ensures forall p :: p in h && p in rank ==> rank[p] <= m
    decreases |h|
  {
    if exists p :: p in h then
      var p :| p in h;
      var m := MaxRank(h - {p}, rank);
      assert forall q :: q in h ==> q == p || q in h - {p};
      if p in rank && rank[p] > m then rank[p] else m
    else 0
  }

  // Reachable from a root or an immortal block in n steps.
  ghost predicate Reach(h: Heap, roots: multiset<Word>, p: Word, n: nat)
    decreases n
  {
    p in h && (p in roots || h[p].rc == RC_IMMORTAL ||
               (n > 0 && exists q :: q in h && p in Kids(q, h[q]) && Reach(h, roots, q, n - 1)))
  }

  lemma {:induction false} GarbageFree(h: Heap, roots: multiset<Word>, rank: map<Word, nat>, p: Word)
    requires Exact(h, roots) && Ranked(h, rank) && p in h
    ensures exists n: nat :: Reach(h, roots, p, n)
    decreases if p in rank then MaxRank(h, rank) - rank[p] else MaxRank(h, rank) + 1
  {
    hide Kids, Refs, IsRef;
    if p in roots || h[p].rc == RC_IMMORTAL {
      assert Reach(h, roots, p, 0);
    } else {
      LiveHasOwner(h, p, roots);
      var q :| q in h && p in Kids(q, h[q]);
      GarbageFree(h, roots, rank, q);
      var n: nat :| Reach(h, roots, q, n);
      assert Reach(h, roots, p, n + 1);
    }
  }

  lemma {:induction false} LiveInBoth(h1: Heap, h2: Heap, h: Heap, roots: multiset<Word>, rank: map<Word, nat>, p: Word)
    requires SubHeap(h1, h) && SubHeap(h2, h) && Exact(h1, roots) && Exact(h2, roots) && Ranked(h1, rank)
    requires p in h1
    ensures p in h2
    decreases if p in rank then MaxRank(h1, rank) - rank[p] else MaxRank(h1, rank) + 1
  {
    hide Kids;
    if p !in roots && h1[p].rc != RC_IMMORTAL {
      LiveHasOwner(h1, p, roots);
      var q :| q in h1 && p in Kids(q, h1[q]);
      LiveInBoth(h1, h2, h, roots, rank, q);
      SameKids(q, h1[q], h2[q]);
    }
  }

  lemma {:induction false} RefsSameShape(h1: Heap, h2: Heap)
    requires h1.Keys == h2.Keys
    requires forall p :: p in h1 ==> h1[p].tag == h2[p].tag && h1[p].words == h2[p].words
    ensures Refs(h1) == Refs(h2)
    decreases |h1|
  {
    hide Kids;
    if exists p :: p in h1 {
      var p :| p in h1;
      RefsRemove(h1, p);
      RefsRemove(h2, p);
      SameKids(p, h1[p], h2[p]);
      RefsSameShape(h1 - {p}, h2 - {p});
    }
  }

  // What is left after giving up references does not depend on the order of
  // work: exact counts for the same roots determine the heap.
  lemma {:induction false} ExactUnique(h1: Heap, h2: Heap, h: Heap, roots: multiset<Word>)
    requires SubHeap(h1, h) && SubHeap(h2, h) && Exact(h1, roots) && Exact(h2, roots) && Acyclic(h)
    ensures h1 == h2
  {
    SubHeapAcyclic(h1, h);
    SubHeapAcyclic(h2, h);
    var r1 :| Ranked(h1, r1);
    var r2 :| Ranked(h2, r2);
    forall p | p in h1 ensures p in h2 { LiveInBoth(h1, h2, h, roots, r1, p); }
    forall p | p in h2 ensures p in h1 { LiveInBoth(h2, h1, h, roots, r2, p); }
    assert h1.Keys == h2.Keys;
    RefsSameShape(h1, h2);
    forall p | p in h1 ensures h1[p] == h2[p] {
      assert h1[p].rc == RC_IMMORTAL <==> h2[p].rc == RC_IMMORTAL;
    }
  }

  // ---------- giving references up one at a time ----------

  lemma {:induction false} GiveUpCounted(h: Heap, w: Word, owed: multiset<Word>, gone: multiset<Word>)
    requires Owing(h, owed, gone) && w in h && 1 < h[w].rc < RC_IMMORTAL
    ensures Owing(h[w := h[w].(rc := h[w].rc - 1)], owed, gone + multiset{w})
  {
    hide Kids, Refs, IsRef;
    SetCount(h, w, h[w].rc - 1);
  }

  lemma {:induction false} GiveUpLast(h: Heap, w: Word, owed: multiset<Word>, gone: multiset<Word>)
    requires Owing(h, owed, gone) && w in h
    ensures Owing(h, owed + multiset{w}, gone + multiset{w})
  {
    hide Kids, Refs, IsRef;
  }

  lemma {:induction false} GiveUpImmortal(h: Heap, w: Word, owed: multiset<Word>, gone: multiset<Word>)
    requires Owing(h, owed, gone) && w in h && h[w].rc == RC_IMMORTAL
    ensures Owing(h, owed, gone + multiset{w})
  {
    hide Kids, Refs, IsRef;
  }

  // ---------- raw blocks ----------

  // A block that is owned but whose payload means nothing (yet, or any more).
  function RawBlock(size: nat): Block
    requires size >= 1
  {
    Block(1, T_RAW, seq(size - 1, _ => 0))
  }

  lemma {:induction false} RawNoKids(p: Word, b: Block)
    requires b.tag == T_RAW
    ensures Kids(p, b) == []
  {
    assert b.words[|b.words|..] == [];
  }

  // A block whose children were given up becomes raw memory.
  lemma {:induction false} RetireExact(h: Heap, w: Word, owed: multiset<Word>, raw: Block)
    requires w in h && h[w].rc == 1 && raw.rc == 1 && raw.tag == T_RAW
    requires Owing(h, owed, multiset(Kids(w, h[w])))
    ensures Exact(h[w := raw], owed)
  {
    hide Kids, IsRef, Refs;
    RawNoKids(w, raw);
    RefsUpdate(h, w, raw);
    assert Refs(h) == Refs(h[w := raw]) + multiset(Kids(w, h[w]));
  }

  // Handing out fresh memory.
  lemma {:induction false} AllocExact(h: Heap, p: Word, raw: Block, owed: multiset<Word>)
    requires Exact(h, owed) && p !in h && IsRef(p) && raw.rc == 1 && raw.tag == T_RAW
    ensures Exact(h[p := raw], owed + multiset{p})
    ensures Acyclic(h) ==> Acyclic(h[p := raw])
  {
    hide Kids, IsRef, Refs;
    RawNoKids(p, raw);
    if Refs(h)[p] > 0 { CountedKid(h, p); }
    RefsAdd(h, p, raw);
    assert Refs(h[p := raw]) == Refs(h);
    if Acyclic(h) {
      var rank :| Ranked(h, rank);
      assert Ranked(h[p := raw], rank);
    }
  }

  // Writing a block over raw memory moves the references it stores into it.
  lemma {:induction false} FillExact(h: Heap, p: Word, b: Block, owed: multiset<Word>)
    requires p in h && h[p].tag == T_RAW && h[p].rc == 1 && b.rc == 1
    requires Exact(h, owed + multiset{p} + multiset(Kids(p, b)))
    ensures Exact(h[p := b], owed + multiset{p})
    ensures Acyclic(h) ==> Acyclic(h[p := b])
  {
    hide Kids, IsRef, Refs;
    RawNoKids(p, h[p]);
    NotOwnKid(p, b);
    RefsUpdate(h, p, b);
    assert Refs(h[p := b]) == Refs(h) + multiset(Kids(p, b));
    FillShape(h, p, b);
    FillKids(h, p, b, owed);
    if Acyclic(h) {
      var rank :| Ranked(h, rank);
      FillRanked(h, p, b, rank);
    }
  }

  lemma {:induction false} FillKids(h: Heap, p: Word, b: Block, owed: multiset<Word>)
    requires Exact(h, owed + multiset{p} + multiset(Kids(p, b)))
    ensures forall k :: k in Kids(p, b) ==> k in h
  {
    hide Kids, Refs;
    forall k | k in Kids(p, b) ensures k in h {
      KidsAreRefs(p, b, k);
      assert k in owed + multiset{p} + multiset(Kids(p, b));
    }
  }

  lemma {:induction false} FillShape(h: Heap, p: Word, b: Block)
    requires Shaped(h) && p in h && Refs(h)[p] == 0
    ensures forall q, k :: q in h && q != p && k in Kids(q, h[q]) ==> k in h && k != p
  {
    forall q, k | q in h && q != p && k in Kids(q, h[q]) ensures k in h && k != p { KidCounted(h, q, k); }
  }

  lemma {:induction false} FillRanked(h: Heap, p: Word, b: Block, rank: map<Word, nat>)
    requires Ranked(h, rank) && p in h && p !in Kids(p, b)
    requires forall q, k :: q in h && q != p && k in Kids(q, h[q]) ==> k in h && k != p
    ensures Acyclic(h[p := b])
  {
    hide Kids, IsRef;
    var m := MaxRank(h, rank);
    var r1 := (map q | q in h :: if q in rank then rank[q] else 0)[p := m + 1];
    assert Ranked(h[p := b], r1);
  }

  // ---------- several dups ----------

  function DupAll(h: Heap, ws: seq<Word>): Outcome
    decreases |ws|
  {
    if ws == [] then Ok(h)
    else match Dup(h, ws[0])
      case Fault => Fault
      case Ok(h1) => DupAll(h1, ws[1..])
  }

  // Only counts change, and only upwards.
  ghost predicate SameBlocks(h1: Heap, h: Heap) {
    && h1.Keys == h.Keys
    && forall p :: p in h ==> h1[p].tag == h[p].tag && h1[p].words == h[p].words
  }

  lemma {:induction false} DupAllExact(h: Heap, ws: seq<Word>, roots: multiset<Word>)
    requires Exact(h, roots) && forall w :: w in ws && IsRef(w) ==> w in h
    ensures DupAll(h, ws).Ok? && Exact(DupAll(h, ws).heap, roots + multiset(ws)) && SameBlocks(DupAll(h, ws).heap, h)
    decreases |ws|
  {
    hide Exact, IsRef, Acyclic;
    if ws == [] {
      assert roots + multiset(ws) == roots;
    } else {
      assert ws == [ws[0]] + ws[1..];
      DupExact(h, ws[0], roots);
      var h1 := Dup(h, ws[0]).heap;
      forall w | w in ws[1..] && IsRef(w) ensures w in h1 { assert w in ws; }
      DupAllExact(h1, ws[1..], roots + multiset{ws[0]});
      assert roots + multiset(ws) == (roots + multiset{ws[0]}) + multiset(ws[1..]);
    }
  }

  // Counts that stay below saturation through the dups keep their status.
  lemma {:induction false} DupAllUnsaturated(h: Heap, ws: seq<Word>, p: Word)
    requires DupAll(h, ws).Ok? && p in h
    requires h[p].rc == RC_IMMORTAL || h[p].rc + |ws| < RC_IMMORTAL
    ensures p in DupAll(h, ws).heap
    ensures DupAll(h, ws).heap[p].rc == RC_IMMORTAL <==> h[p].rc == RC_IMMORTAL
    ensures h[p].rc <= DupAll(h, ws).heap[p].rc <= h[p].rc + |ws|
    decreases |ws|
  {
    if ws != [] { DupAllUnsaturated(Dup(h, ws[0]).heap, ws[1..], p); }
  }

  lemma {:induction false} DupAllSnoc(h: Heap, ws: seq<Word>, w: Word)
    ensures DupAll(h, ws + [w]) == match DupAll(h, ws) case Fault => Fault case Ok(h1) => Dup(h1, w)
    decreases |ws|
  {
    if ws == [] {
      assert [w][1..] == [];
      assert ws + [w] == [w];
    } else {
      assert (ws + [w])[1..] == ws[1..] + [w];
      if Dup(h, ws[0]).Ok? { DupAllSnoc(Dup(h, ws[0]).heap, ws[1..], w); }
    }
  }

  // A block none of the words refer to is not affected.
  lemma {:induction false} DupAllOther(h: Heap, ws: seq<Word>, p: Word, b: Block)
    requires p !in h && p !in ws
    ensures DupAll(h[p := b], ws) == match DupAll(h, ws) case Fault => Fault case Ok(h1) => Ok(h1[p := b])
    ensures DupAll(h, ws).Ok? ==> p !in DupAll(h, ws).heap
    decreases |ws|
  {
    hide IsRef;
    if ws != [] {
      match Dup(h, ws[0])
      case Fault =>
      case Ok(h1) =>
        assert Dup(h[p := b], ws[0]) == Ok(h1[p := b]);
        DupAllOther(h1, ws[1..], p, b);
    }
  }
}

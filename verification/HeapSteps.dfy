// What each runtime step does to the part of the heap others still rely on:
// blocks reachable from the remaining roots keep their contents.
module HeapSteps {
  import opened RcHeap
  import opened Trampoline
  import RcRuntime

  ghost predicate NoRawKids(h: Heap) {
    forall p, k :: p in h && k in Kids(p, h[p]) && k in h ==> h[k].tag != T_RAW
  }

  // Exact counts for the roots, no cycle but closure self edges, and no field
  // holding memory that is not a value.
  ghost predicate Good(h: Heap, roots: multiset<Word>) { Exact(h, roots) && Acyclic(h) && NoRawKids(h) }

  ghost predicate From(h: Heap, roots: multiset<Word>, p: Word) { exists n: nat :: Reach(h, roots, p, n) }

  predicate Solid(h: Heap, p: Word) { p in h && h[p].tag != T_RAW }

  // A value that is safe to use.
  predicate LiveVal(h: Heap, v: Word) { IsRef(v) ==> Solid(h, v) }

  // A value that stays safe as long as the roots do.
  ghost predicate Under(h: Heap, roots: multiset<Word>, v: Word) { IsRef(v) ==> Solid(h, v) && From(h, roots, v) }

  ghost predicate SameAt(h: Heap, h1: Heap, p: Word)
    requires p in h
  {
    && p in h1 && h1[p].tag == h[p].tag && h1[p].words == h[p].words
    && (h[p].rc == RC_IMMORTAL ==> h1[p].rc == RC_IMMORTAL)
    && (h[p].tag == T_RAW ==> h1[p] == h[p])
  }

  // Everything reachable from the roots is still there, unchanged.
  ghost predicate Kept(roots: multiset<Word>, h: Heap, h1: Heap) {
    forall p :: p in h && From(h, roots, p) ==> SameAt(h, h1, p)
  }

  // ---------- reachability ----------

  lemma {:induction false} ReachMono(h: Heap, a: multiset<Word>, b: multiset<Word>, p: Word, n: nat)
    requires Reach(h, a, p, n) && a <= b
    ensures Reach(h, b, p, n)
    decreases n
  {
    hide Kids;
    if p !in a && h[p].rc != RC_IMMORTAL {
      var q :| q in h && p in Kids(q, h[q]) && Reach(h, a, q, n - 1);
      ReachMono(h, a, b, q, n - 1);
    }
  }

  lemma {:induction false} FromMono(h: Heap, a: multiset<Word>, b: multiset<Word>, p: Word)
    requires From(h, a, p) && a <= b
    ensures From(h, b, p)
  {
    var n: nat :| Reach(h, a, p, n);
    ReachMono(h, a, b, p, n);
  }

  lemma {:induction false} UnderMono(h: Heap, a: multiset<Word>, b: multiset<Word>, v: Word)
    requires Under(h, a, v) && a <= b
    ensures Under(h, b, v)
  {
    hide From;
    if IsRef(v) { FromMono(h, a, b, v); }
  }

  lemma {:induction false} RootUnder(h: Heap, roots: multiset<Word>, v: Word)
    requires LiveVal(h, v) && v in roots
    ensures Under(h, roots, v)
  {
    if IsRef(v) { assert Reach(h, roots, v, 0); }
  }

  lemma {:induction false} ImmortalUnder(h: Heap, roots: multiset<Word>, v: Word)
    requires LiveVal(h, v) && (IsRef(v) ==> h[v].rc == RC_IMMORTAL)
    ensures Under(h, roots, v)
  {
    if IsRef(v) { assert Reach(h, roots, v, 0); }
  }

  // Fields of a value under the roots are under them too.
  lemma {:induction false} KidUnder(h: Heap, roots: multiset<Word>, q: Word, k: Word)
    requires q in h && k in Kids(q, h[q]) && From(h, roots, q) && Shaped(h) && NoRawKids(h)
    ensures Under(h, roots, k)
  {
    hide Kids, IsRef;
    var n: nat :| Reach(h, roots, q, n);
    assert Reach(h, roots, k, n + 1);
  }

  lemma {:induction false} FieldUnder(h: Heap, roots: multiset<Word>, q: Word, i: nat)
    requires q in h && FirstChild(h[q]) <= i < |h[q].words| && Under(h, roots, q) && Shaped(h) && NoRawKids(h)
    ensures Under(h, roots, h[q].words[i])
  {
    hide From;
    var b := h[q];
    var w := b.words[i];
    if IsRef(w) && w != q {
      RefsInRefs(q, b.words[FirstChild(b)..]);
      assert b.words[FirstChild(b)..][i - FirstChild(b)] == w;
      KidUnder(h, roots, q, w);
    }
  }

  lemma {:induction false} FieldLive(h: Heap, q: Word, i: nat)
    requires Shaped(h) && q in h && FirstChild(h[q]) <= i < |h[q].words| && IsRef(h[q].words[i])
    ensures h[q].words[i] in h
  {
    var b := h[q];
    var w := b.words[i];
    if w != q {
      RefsInRefs(q, b.words[FirstChild(b)..]);
      assert b.words[FirstChild(b)..][i - FirstChild(b)] == w;
      assert w in Kids(q, b);
    }
  }

  // ---------- keeping ----------

  lemma {:induction false} KeptReach(roots: multiset<Word>, h: Heap, h1: Heap, p: Word, n: nat)
    requires Kept(roots, h, h1) && Reach(h, roots, p, n)
    ensures Reach(h1, roots, p, n)
    decreases n
  {
    hide Kids;
    assert From(h, roots, p);
    assert SameAt(h, h1, p);
    if p !in roots && h[p].rc != RC_IMMORTAL {
      var q :| q in h && p in Kids(q, h[q]) && Reach(h, roots, q, n - 1);
      KeptReach(roots, h, h1, q, n - 1);
      assert From(h, roots, q);
      SameKids(q, h[q], h1[q]);
    }
  }

  lemma {:induction false} KeptFrom(roots: multiset<Word>, h: Heap, h1: Heap, p: Word)
    requires Kept(roots, h, h1) && From(h, roots, p)
    ensures From(h1, roots, p)
  {
    var n: nat :| Reach(h, roots, p, n);
    KeptReach(roots, h, h1, p, n);
  }

  lemma {:induction false} KeptUnder(roots: multiset<Word>, h: Heap, h1: Heap, v: Word)
    requires Kept(roots, h, h1) && Under(h, roots, v)
    ensures Under(h1, roots, v)
  {
    hide From;
    if IsRef(v) { KeptFrom(roots, h, h1, v); }
  }

  lemma {:induction false} KeptTrans(roots: multiset<Word>, h: Heap, h1: Heap, h2: Heap)
    requires Kept(roots, h, h1) && Kept(roots, h1, h2)
    ensures Kept(roots, h, h2)
  {
    hide From;
    forall p | p in h && From(h, roots, p) ensures SameAt(h, h2, p) {
      assert SameAt(h, h1, p);
      KeptFrom(roots, h, h1, p);
      assert SameAt(h1, h2, p);
    }
  }

  lemma {:induction false} KeptMono(a: multiset<Word>, b: multiset<Word>, h: Heap, h1: Heap)
    requires Kept(b, h, h1) && a <= b
    ensures Kept(a, h, h1)
  {
    hide From, SameAt;
    forall p | p in h && From(h, a, p) ensures SameAt(h, h1, p) { FromMono(h, a, b, p); }
  }

  lemma {:induction false} KeptSame(roots: multiset<Word>, h: Heap)
    ensures Kept(roots, h, h)
  {
  }

  // ---------- dup ----------

  lemma {:induction false} DupGood(h: Heap, v: Word, roots: multiset<Word>)
    requires Good(h, roots) && LiveVal(h, v)
    ensures Dup(h, v).Ok?
    ensures var h1 := Dup(h, v).heap; Good(h1, roots + multiset{v}) && forall r :: Kept(r, h, h1)
  {
    hide Kids, Exact, Acyclic, From, IsRef;
    DupExact(h, v, roots);
    var h1 := Dup(h, v).heap;
    assert forall p :: p in h ==> SameAt(h, h1, p);
    SameRawKids(h, h1);
  }

  lemma {:induction false} SameRawKids(h: Heap, h1: Heap)
    requires NoRawKids(h) && h1.Keys <= h.Keys
    requires forall p :: p in h1 ==> h1[p].tag == h[p].tag && h1[p].words == h[p].words
    ensures NoRawKids(h1)
  {
    hide Kids;
    forall p | p in h1 ensures Kids(p, h1[p]) == Kids(p, h[p]) { SameKids(p, h1[p], h[p]); }
  }

  lemma {:induction false} DupAllGood(h: Heap, vs: seq<Word>, roots: multiset<Word>)
    requires Good(h, roots) && forall i :: 0 <= i < |vs| ==> LiveVal(h, vs[i])
    ensures DupAll(h, vs).Ok?
    ensures var h1 := DupAll(h, vs).heap;
            && Good(h1, roots + multiset(vs)) && h1.Keys == h.Keys
            && forall r :: Kept(r, h, h1)
    ensures forall p :: Solid(h, p) ==> Solid(DupAll(h, vs).heap, p)
    decreases |vs|
  {
    hide Good, Kept, IsRef;
    if vs == [] {
      assert roots + multiset(vs) == roots;
      forall r ensures Kept(r, h, h) { KeptSame(r, h); }
    } else {
      DupGood(h, vs[0], roots);
      var h1 := Dup(h, vs[0]).heap;
      DupAllGood(h1, vs[1..], roots + multiset{vs[0]});
      var h2 := DupAll(h, vs).heap;
      forall r ensures Kept(r, h, h2) { KeptTrans(r, h, h1, h2); }
      assert vs == [vs[0]] + vs[1..];
      assert roots + multiset(vs) == (roots + multiset{vs[0]}) + multiset(vs[1..]);
    }
  }

  // ---------- drop ----------

  // Raw memory is no field, so its count is the number of its roots.
  lemma {:induction false} RawCount(h: Heap, roots: multiset<Word>, p: Word)
    requires Exact(h, roots) && NoRawKids(h) && p in h && h[p].tag == T_RAW && h[p].rc != RC_IMMORTAL
    ensures h[p].rc == roots[p]
  {
    hide Kids;
    if Refs(h)[p] > 0 { CountedKid(h, p); }
  }

  // Giving up references keeps what the remaining roots reach.
  lemma {:induction false} SubKept(h: Heap, h1: Heap, before: multiset<Word>, after: multiset<Word>)
    requires Exact(h, before) && NoRawKids(h) && SubHeap(h1, h) && Exact(h1, after)
    requires forall p :: p in h && h[p].tag == T_RAW ==> before[p] == after[p]
    ensures Kept(after, h, h1)
  {
    hide Kids, Exact, IsRef;
    ExactShaped(h, before);
    SameRawKids(h, h1);
    forall p | p in h && From(h, after, p) ensures SameAt(h, h1, p) {
      var n: nat :| Reach(h, after, p, n);
      SubReach(h, h1, after, p, n);
      if h[p].tag == T_RAW && h[p].rc != RC_IMMORTAL {
        RawCount(h, before, p);
        RawCount(h1, after, p);
      }
    }
  }

  lemma {:induction false} SubReach(h: Heap, h1: Heap, roots: multiset<Word>, p: Word, n: nat)
    requires SubHeap(h1, h) && Exact(h1, roots) && Reach(h, roots, p, n) && Shaped(h)
    ensures p in h1
    decreases n
  {
    hide Kids, Refs;
    if p !in roots && h[p].rc != RC_IMMORTAL {
      var q :| q in h && p in Kids(q, h[q]) && Reach(h, roots, q, n - 1);
      SubReach(h, h1, roots, q, n - 1);
      SameKids(q, h[q], h1[q]);
    }
  }

  lemma {:induction false} DropGood(h: Heap, v: Word, roots: multiset<Word>)
    requires Good(h, roots + multiset{v}) && LiveVal(h, v)
    ensures Drop(h, v).Ok?
    ensures var h1 := Drop(h, v).heap; Good(h1, roots) && Kept(roots, h, h1)
  {
    hide Kids, Exact, Acyclic, Kept, Drop, IsRef;
    DropExact(h, v, roots);
    var h1 := Drop(h, v).heap;
    SubHeapAcyclic(h1, h);
    SameRawKids(h, h1);
    RawApart(h, v, roots + multiset{v});
    SubKept(h, h1, roots + multiset{v}, roots);
  }

  lemma {:induction false} RawApart(h: Heap, v: Word, roots: multiset<Word>)
    requires Exact(h, roots) && LiveVal(h, v)
    ensures forall p :: p in h && h[p].tag == T_RAW ==> p != v
  {
  }

  // ---------- unique blocks ----------

  // A block owed once, at count one, is out of reach of the other roots.
  lemma {:induction false} UniqueApart(h: Heap, v: Word, roots: multiset<Word>)
    requires Exact(h, roots + multiset{v}) && v in h && h[v].rc == 1
    ensures !From(h, roots, v) && roots[v] == 0
    ensures forall p :: p in h ==> v !in Kids(p, h[p])
  {
    hide Kids;
    forall p | p in h ensures v !in Kids(p, h[p]) {
      if v in Kids(p, h[p]) { KidCounted(h, p, v); }
    }
  }

  // Rewriting such a block changes nothing the other roots reach.
  lemma {:induction false} UniqueKept(h: Heap, v: Word, roots: multiset<Word>, b: Block)
    requires Exact(h, roots + multiset{v}) && v in h && h[v].rc == 1
    ensures Kept(roots, h, h[v := b]) && Kept(roots, h, h - {v})
  {
    UniqueApart(h, v, roots);
  }

  // A unique block gives up its children and becomes a token.
  lemma {:induction false} DropReuseGood(h: Heap, v: Word, roots: multiset<Word>)
    requires Good(h, roots + multiset{v}) && LiveVal(h, v)
    ensures RcRuntime.DropReuse(h, v).0.Ok?
    ensures var (o, tok) := RcRuntime.DropReuse(h, v);
            && Good(o.heap, roots + multiset{tok}) && Kept(roots, h, o.heap)
            && (tok != 0 ==> RcRuntime.IsRaw(o.heap, tok) && IsRef(tok))
  {
    hide Kids, Exact, Acyclic, Kept, Drop, DropAll, IsRef, From;
    if RcRuntime.IsToken(h, v) {
      TokenGood(h, v, roots);
    } else {
      DropGood(h, v, roots);
      var h1 := Drop(h, v).heap;
      NoneGood(h1, roots);
    }
  }

  lemma {:induction false} NoneGood(h: Heap, roots: multiset<Word>)
    requires Good(h, roots)
    ensures Good(h, roots + multiset{0})
  {
    hide Kids, Acyclic;
    RootsExt(h, roots, roots + multiset{0}, multiset{});
  }

  lemma {:induction false} TokenGood(h: Heap, v: Word, roots: multiset<Word>)
    requires Good(h, roots + multiset{v}) && RcRuntime.IsToken(h, v) && Solid(h, v)
    ensures var o := DropAll(h[v := RawBlock(SizeOf(h[v]))], Kids(v, h[v]));
            && o.Ok? && Good(o.heap, roots + multiset{v}) && Kept(roots, h, o.heap) && RcRuntime.IsRaw(o.heap, v)
  {
    hide Kids, Exact, Acyclic, Kept, Drop, DropAll, IsRef, From;
    var raw := RawBlock(SizeOf(h[v]));
    var kids := Kids(v, h[v]);
    var h0 := h[v := raw];
    UniqueKept(h, v, roots, raw);
    UniqueApart(h, v, roots);
    RcRuntime.TokenStart(h, v, roots + multiset{v});
    RawNoKids(v, raw);
    DropAllExact(h0, kids, roots + multiset{v});
    var h2 := DropAll(h0, kids).heap;
    RawStartKids(h, v, raw);
    SubHeapAcyclic(h2, h0);
    SameRawKids(h0, h2);
    RcRuntime.TokenStays(h2, h0, v, roots + multiset{v} + multiset(kids), roots + multiset{v});
    ExactShaped(h, roots + multiset{v});
    KidsNotRaw(h, v, raw);
    SubKept(h0, h2, roots + multiset{v} + multiset(kids), roots + multiset{v});
    KeptMono(roots, roots + multiset{v}, h0, h2);
    KeptTrans(roots, h, h0, h2);
  }

  lemma {:induction false} RawStartKids(h: Heap, v: Word, raw: Block)
    requires NoRawKids(h) && v in h && Kids(v, raw) == []
    requires forall p :: p in h ==> v !in Kids(p, h[p])
    ensures NoRawKids(h[v := raw])
  {
    hide Kids;
  }

  lemma {:induction false} KidsNotRaw(h: Heap, v: Word, raw: Block)
    requires NoRawKids(h) && Shaped(h) && v in h && v !in Kids(v, h[v])
    ensures var h0 := h[v := raw]; forall p :: p in h0 && h0[p].tag == T_RAW ==> multiset(Kids(v, h[v]))[p] == 0
  {
    hide Kids;
    var kids := Kids(v, h[v]);
    forall p | p in h && p in kids ensures p != v && h[p].tag != T_RAW { }
  }

  lemma {:induction false} ExactShaped(h: Heap, roots: multiset<Word>)
    requires Exact(h, roots)
    ensures Shaped(h)
  {
  }

  // ---------- new blocks ----------

  // A new block at a free address takes over references held outside.
  lemma {:induction false} PlaceExact(h: Heap, p: Word, b: Block, moved: multiset<Word>, roots: multiset<Word>)
    requires Exact(h, roots + moved) && p !in h && IsRef(p) && b.rc == 1
    requires forall k :: IsRef(k) && k != p ==> moved[k] == multiset(Kids(p, b))[k]
    ensures Exact(h[p := b], roots + multiset{p})
  {
    hide Kids, IsRef, Refs;
    if Refs(h)[p] > 0 { CountedKid(h, p); }
    RefsAdd(h, p, b);
    NotOwnKid(p, b);
    forall k | k in Kids(p, b) ensures IsRef(k) && k in h {
      KidsAreRefs(p, b, k);
      assert k in roots + moved;
    }
    assert (roots + moved)[p] == 0;
    PlaceShape(h, p, b);
  }

  lemma {:induction false} PlaceShape(h: Heap, p: Word, b: Block)
    requires Shaped(h) && p !in h && IsRef(p) && b.rc == 1
    requires forall k :: k in Kids(p, b) ==> k in h
    ensures Shaped(h[p := b])
  {
    hide Kids, IsRef, Refs;
  }

  lemma {:induction false} PlaceGood(h: Heap, p: Word, b: Block, moved: multiset<Word>, roots: multiset<Word>)
    requires Good(h, roots + moved) && p !in h && IsRef(p) && b.rc == 1 && b.tag != T_RAW
    requires forall k :: IsRef(k) && k != p ==> moved[k] == multiset(Kids(p, b))[k]
    requires forall k :: k in Kids(p, b) ==> Solid(h, k)
    ensures Good(h[p := b], roots + multiset{p})
    ensures var h1 := h[p := b]; forall r :: Kept(r, h, h1)
  {
    hide Kids, IsRef, Exact, Acyclic, From;
    PlaceExact(h, p, b, moved, roots);
    AddAcyclic(h, p, b, roots + moved);
    assert forall q :: q in h ==> SameAt(h, h[p := b], q);
    PlaceKids(h, p, b);
  }

  lemma {:induction false} PlaceKids(h: Heap, p: Word, b: Block)
    requires NoRawKids(h) && p !in h && b.tag != T_RAW && forall k :: k in Kids(p, b) ==> Solid(h, k)
    ensures NoRawKids(h[p := b])
  {
    hide Kids;
  }

  // A token becomes the block.
  lemma {:induction false} FillGood(h: Heap, p: Word, b: Block, moved: multiset<Word>, roots: multiset<Word>)
    requires Good(h, roots + multiset{p} + moved) && RcRuntime.IsRaw(h, p) && IsRef(p) && b.rc == 1 && b.tag != T_RAW
    requires forall k :: IsRef(k) && k != p ==> moved[k] == multiset(Kids(p, b))[k]
    requires forall k :: k in Kids(p, b) ==> Solid(h, k)
    ensures Good(h[p := b], roots + multiset{p}) && Kept(roots, h, h[p := b])
  {
    hide Kids, IsRef, Exact, Acyclic, Kept, From;
    assert roots + multiset{p} + moved == (roots + moved) + multiset{p};
    UniqueKept(h, p, roots + moved, b);
    KeptMono(roots, roots + moved, h, h[p := b]);
    UniqueApart(h, p, roots + moved);
    FillRoots(h, p, b, moved, roots);
    FillExact(h, p, b, roots);
    FillRawKids(h, p, b);
  }

  lemma {:induction false} FillRoots(h: Heap, p: Word, b: Block, moved: multiset<Word>, roots: multiset<Word>)
    requires Exact(h, roots + multiset{p} + moved) && (roots + moved)[p] == 0
    requires forall k :: IsRef(k) && k != p ==> moved[k] == multiset(Kids(p, b))[k]
    ensures Exact(h, roots + multiset{p} + multiset(Kids(p, b)))
  {
    hide Kids, IsRef;
    NotOwnKid(p, b);
    RootsExt(h, roots + multiset{p} + moved, roots + multiset{p} + multiset(Kids(p, b)), multiset{});
  }

  lemma {:induction false} FillRawKids(h: Heap, p: Word, b: Block)
    requires NoRawKids(h) && p in h && b.tag != T_RAW && forall k :: k in Kids(p, b) ==> Solid(h, k)
    requires forall q :: q in h ==> p !in Kids(q, h[q])
    ensures NoRawKids(h[p := b])
  {
    hide Kids;
  }

  // A token that does not fit is freed.
  lemma {:induction false} FreeTokenGood(h: Heap, p: Word, roots: multiset<Word>)
    requires Good(h, roots + multiset{p}) && RcRuntime.IsRaw(h, p)
    ensures Good(h - {p}, roots) && Kept(roots, h, h - {p})
  {
    hide Kids, Exact, Acyclic, Kept, From;
    RcRuntime.TokenFree(h, p, roots);
    SubHeapAcyclic(h - {p}, h);
    SameRawKids(h, h - {p});
    UniqueKept(h, p, roots, h[p]);
  }
}

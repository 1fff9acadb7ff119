// The reference-counting runtime of gen5/rt5.c as it runs: counts, worklist and
// global table updated in place. Its aborts (use after free, underflow) are the
// dead branches below.
module RcRuntime {
  import opened RcHeap
  import opened Trampoline

  const GLOBALS: nat := 0x10000

  class Runtime {
    var heap: Heap
    var wl: seq<Word>              // blocks at their last reference, to release
    const globals: array<Word>
    var globalCount: nat
    var nAllocs: nat
    var nFrees: nat
    var nReuses: nat
    var nLive: nat
    ghost var dyn: set<Word>       // blocks handed out and not freed; the others are static
    ghost var locals: multiset<Word>  // references held outside heap and table
    var freed: seq<(Word, nat)>    // blocks handed to the allocator's free_block, in order, with the size given
    ghost var books: map<Word, nat>  // what the allocator counts as handed out, with its size

    // The allocator's view: every block handed out has the size it was asked
    // for, and every block given back is given back once, with that size.
    ghost predicate Booked()
      reads `heap, `dyn, `freed, `books
    {
      && dyn <= heap.Keys && (forall b :: b in dyn ==> b in books && books[b] == SizeOf(heap[b]))
      && (forall i :: 0 <= i < |freed| ==>
         freed[i].0 !in heap && freed[i].0 in books && books[freed[i].0] == freed[i].1)
      && (forall i, j :: 0 <= i < j < |freed| ==> freed[i].0 != freed[j].0)
      && (forall b :: b in books && b !in dyn ==> (b, books[b]) in freed)
    }

    ghost predicate Counters()
      reads `heap, `dyn, `nLive, `nAllocs, `nFrees, `freed, `books
    {
      && Booked()
      && dyn <= heap.Keys && nLive == |dyn| && nAllocs == nFrees + nLive
      && forall p :: p in heap && p !in dyn ==> heap[p].rc == RC_IMMORTAL
    }

    ghost function Roots(): multiset<Word>
      reads this, globals
    {
      locals + multiset(globals[..])
    }

    ghost predicate Valid()
      reads this, globals
    {
      && Counters() && wl == [] && Acyclic(heap) && Exact(heap, Roots())
      && globals.Length == GLOBALS && globalCount <= GLOBALS
      && forall i :: globalCount <= i < GLOBALS ==> globals[i] == 0
    }

    lemma Accounts()
      requires Valid()
      ensures Exact(heap, Roots()) && Acyclic(heap)
    {
    }

    // A program starts with its static data only.
    constructor (statics: Heap)
      requires Exact(statics, multiset{}) && Acyclic(statics)
      requires forall p :: p in statics ==> statics[p].rc == RC_IMMORTAL
      ensures Valid() && fresh(globals) && heap == statics && locals == multiset{} && dyn == {} && globalCount == 0
      ensures freed == [] && books == map[]
    {
      hide Exact, Acyclic;
      heap, wl, globalCount := statics, [], 0;
      nAllocs, nFrees, nReuses, nLive := 0, 0, 0, 0;
      dyn, locals, freed, books := {}, multiset{}, [], map[];
      globals := new Word[GLOBALS](_ => 0);
      new;
      assert forall w :: w in globals[..] ==> w == 0;
      StartExact(heap, globals[..]);
    }

    // ---------- dup ----------

    method DcDup(v: Word)
      requires Valid() && (IsRef(v) ==> v in heap)
      modifies this`heap, this`locals
      ensures Valid() && locals == old(locals) + multiset{v}
      ensures Dup(old(heap), v) == Ok(heap)
    {
      hide Kids, Refs, IsRef, IsImm, Acyclic, Owing, Exact;
      ghost var roots := Roots();
      DupExact(heap, v, roots);
      ImmOrRef(v);
      if !(IsImm(v) || v == 0) {
        var b := heap[v];
        if b.rc != RC_IMMORTAL {
          heap := heap[v := b.(rc := b.rc + 1)];
        }
      }
      locals := locals + multiset{v};
      assert Roots() == roots + multiset{v};
    }

    // ---------- release ----------

    // Worklist entries are live and at their last reference.
    ghost predicate Pending()
      reads `heap, `wl
    {
      forall w :: w in wl ==> w in heap && heap[w].rc == 1
    }

    // Give up b's references to its children. held is everything owed except
    // the worklist.
    method ReleaseChildren(b: Word, ghost held: multiset<Word>)
      requires b in heap && heap[b].rc == 1 && Pending() && Counters()
      requires Exact(heap, held + multiset(wl))
      modifies this`heap, this`wl
      ensures heap.Keys == old(heap.Keys) && heap[b] == old(heap[b]) && SubHeap(heap, old(heap))
      ensures Owing(heap, held + multiset(wl), multiset(Kids(b, heap[b])))
      ensures Pending() && Counters()
    {
      hide Kids, RefsIn, Refs, Acyclic, IsRef, IsImm, Owing, KidsUpTo, FirstChild, Counters, SubHeap;
      SubHeapRefl(heap);
      var blk := heap[b];
      var i := FirstChild(blk);
      ghost var first := i;
      KidsPrefix(b, blk);
      while i < |blk.words|
        invariant first <= i <= |blk.words| || i == first
        invariant Pending() && Counters()
        invariant heap.Keys == old(heap.Keys) && SubHeap(heap, old(heap)) && b in heap && heap[b] == blk
        invariant Owing(heap, held + multiset(wl), multiset(KidsUpTo(b, blk, i)))
      {
        var w := blk.words[i];
        KidsStep(b, blk, i);
        ImmOrRef(w);
        KidLive(heap, b, w, held + multiset(wl), multiset(KidsUpTo(b, blk, i)));
        ghost var gone := multiset(KidsUpTo(b, blk, i));
        if IsImm(w) || w == 0 || w == b {
        } else {
          var c := heap[w];
          if c.rc == RC_IMMORTAL {
            GiveUpImmortal(heap, w, held + multiset(wl), gone);
          } else if c.rc > 1 {
            GiveUpCounted(heap, w, held + multiset(wl), gone);
            LowerSub(heap, old(heap), w);
            SetCounters(w, c.rc - 1);
          } else if c.rc == 0 {
            assert false;  // refcount underflow
          } else {
            GiveUpLast(heap, w, held + multiset(wl), gone);
            assert held + multiset(wl) + multiset{w} == held + multiset(wl + [w]);
            wl := wl + [w];
          }
        }
        i := i + 1;
      }
      KidsAll(b, blk, i);
    }

    // Return a dead block.
    method FreeBlock(b: Word)
      requires b in heap && heap[b].rc == 1 && Counters()
      modifies this`heap, this`nFrees, this`nLive, this`dyn, this`freed
      ensures Counters() && heap == old(heap) - {b} && dyn == old(dyn) - {b}
      ensures nFrees == old(nFrees) + 1 && nLive + 1 == old(nLive)
    {
      assert b in dyn;
      freed := freed + [(b, SizeOf(heap[b]))];
      heap := heap - {b};
      dyn := dyn - {b};
      nFrees := nFrees + 1;
      nLive := nLive - 1;
    }

    // A token the allocator takes back at once.
    method FreeToken(b: Word)
      requires b in heap && heap[b].rc == 1 && Counters()
      modifies this`heap, this`nFrees, this`nLive, this`dyn, this`books
      ensures Counters() && heap == old(heap) - {b} && dyn == old(dyn) - {b} && books == old(books) - {b}
    {
      heap, dyn, books := heap - {b}, dyn - {b}, books - {b};
      nFrees, nLive := nFrees + 1, nLive - 1;
    }

    // The allocator takes the block freed longest ago back.
    method TakeBack()
      requires Valid() && freed != []
      modifies this`freed, this`books
      ensures Valid() && freed == old(freed)[1..] && books == old(books) - {old(freed)[0].0}
      ensures old(freed)[0].0 in old(books) && old(freed)[0].0 !in heap
      ensures old(books)[old(freed)[0].0] == old(freed)[0].1
    {
      hide Exact, Acyclic;
      books := books - {freed[0].0};
      freed := freed[1..];
    }

    // Give up a dead block's references, then the block.
    method Release(b: Word, ghost held: multiset<Word>)
      requires b in heap && heap[b].rc == 1 && Pending() && Counters() && Exact(heap, held + multiset(wl) + multiset{b})
      modifies this`heap, this`wl, this`nFrees, this`nLive, this`dyn, this`freed
      ensures Pending() && Counters() && Exact(heap, held + multiset(wl)) && SubHeap(heap, old(heap))
      ensures heap.Keys == old(heap.Keys) - {b} && dyn <= old(dyn)
    {
      hide Kids, Refs, Acyclic, Owing, IsRef, Exact, Counters, SubHeap;
      ghost var h0 := heap;
      assert held + multiset(wl) + multiset{b} == (held + multiset{b}) + multiset(wl);
      ReleaseChildren(b, held + multiset{b});
      ghost var h1 := heap;
      assert (held + multiset{b}) + multiset(wl) == (held + multiset(wl)) + multiset{b};
      FreeExact(heap, b, held + multiset(wl));
      Unlisted(heap, wl, b, held);
      FreeBlock(b);
      SubHeapTrans(heap, h1, h0);
    }

    method WlDrain(ghost held: multiset<Word>)
      requires Pending() && Counters() && Exact(heap, held + multiset(wl))
      modifies this`heap, this`wl, this`nFrees, this`nLive, this`dyn, this`freed
      ensures wl == [] && Counters() && Exact(heap, held) && SubHeap(heap, old(heap))
      ensures dyn <= old(dyn)
    {
      hide Kids, Refs, Acyclic, Owing, IsRef, Exact, Counters, SubHeap;
      SubHeapRefl(heap);
      while |wl| > 0
        invariant Pending() && Counters() && Exact(heap, held + multiset(wl)) && SubHeap(heap, old(heap))
        invariant dyn <= old(dyn)
        decreases |heap|
      {
        ghost var h0, w0 := heap, wl;
        var b := wl[|wl| - 1];
        wl := wl[..|wl| - 1];
        assert w0 == wl + [b];
        assert held + multiset(w0) == held + multiset(wl) + multiset{b};
        Release(b, held);
        SubHeapTrans(heap, h0, old(heap));
      }
      assert held + multiset(wl) == held;
    }

    // ---------- drop ----------

    // The last reference goes: release, free, then work off the list.
    method FreeLast(v: Word, ghost held: multiset<Word>)
      requires v in heap && heap[v].rc == 1 && wl == [] && Counters() && Exact(heap, held + multiset{v})
      modifies this`heap, this`wl, this`nFrees, this`nLive, this`dyn, this`freed
      ensures wl == [] && Counters() && Exact(heap, held) && SubHeap(heap, old(heap)) && dyn <= old(dyn)
    {
      hide Kids, Refs, Acyclic, Owing, RefsIn, IsRef, Exact, Counters, SubHeap;
      ghost var h0 := heap;
      assert held + multiset(wl) + multiset{v} == held + multiset{v};
      Release(v, held);
      ghost var h1 := heap;
      WlDrain(held);
      SubHeapTrans(heap, h1, h0);
    }

    // dc_drop: the iterative worklist computes the recursive definition.
    method DcDrop(v: Word)
      requires Valid() && v in Roots()
      modifies this`heap, this`wl, this`nFrees, this`nLive, this`dyn, this`freed
      ensures wl == [] && Counters() && Acyclic(heap) && dyn <= old(dyn)
      ensures Exact(heap, Roots() - multiset{v})
      ensures Drop(old(heap), v) == Ok(heap) && SubHeap(heap, old(heap))
    {
      hide Kids, Refs, Acyclic, Owing, RefsIn, IsRef, IsImm, Exact, Counters, SubHeap;
      ghost var h0, held := heap, Roots() - multiset{v};
      assert held + multiset{v} == Roots();
      DropExact(heap, v, held);
      ImmOrRef(v);
      if IsImm(v) || v == 0 {
      } else {
        OwedLive(heap, Roots(), v);
        var b := heap[v];
        if b.rc == RC_IMMORTAL {
        } else if b.rc > 1 {
          SetCounters(v, b.rc - 1);
        } else {
          FreeLast(v, held);
          ExactUnique(heap, Drop(h0, v).heap, h0, held);
        }
      }
      SubHeapAcyclic(heap, h0);
    }

    method SetCounters(v: Word, n: nat)
      requires v in heap && Counters() && heap[v].rc != RC_IMMORTAL
      modifies this`heap
      ensures Counters() && heap == old(heap)[v := old(heap)[v].(rc := n)]
    {
      heap := heap[v := heap[v].(rc := n)];
    }

    // Dropping a reference held by the running program.
    method DropLocal(v: Word)
      requires Valid() && v in locals
      modifies this`heap, this`wl, this`nFrees, this`nLive, this`dyn, this`freed, this`locals
      ensures Valid() && locals == old(locals) - multiset{v} && Drop(old(heap), v) == Ok(heap)
      ensures dyn <= old(dyn) && SubHeap(heap, old(heap))
    {
      hide Kids, Refs, Acyclic, Owing, IsRef, Exact, Counters, SubHeap, Drop;
      DcDrop(v);
      LessRoots(locals, multiset(globals[..]), v);
      locals := locals - multiset{v};
    }

    // ---------- reuse ----------

    // dc_drop_reuse: a unique block gives up its children and comes back as a
    // token of its size; anything else is dropped.
    method DcDropReuse(v: Word) returns (tok: Word)
      requires Valid() && v in locals
      modifies this`heap, this`wl, this`nFrees, this`nLive, this`dyn, this`freed, this`locals
      ensures Valid() && locals == old(locals) - multiset{v} + multiset{tok} && dyn <= old(dyn)
      ensures DropReuse(old(heap), v) == (Ok(heap), tok) && heap.Keys <= old(heap.Keys)
    {
      hide Kids, Refs, Acyclic, Owing, RefsIn, IsRef, IsImm, Exact, Counters, SubHeap;
      ImmOrRef(v);
      if IsRef(v) { OwedLive(heap, Roots(), v); }
      if IsImm(v) || v == 0 {
        tok := 0;
        DropLocal(v);
        AddZero();
      } else if heap[v].rc != 1 {
        DropLocal(v);
        tok := 0;
        AddZero();
      } else {
        tok := v;
        MakeToken(v);
        assert locals == locals - multiset{v} + multiset{v};
      }
    }

    ghost method AddZero()
      requires Valid()
      modifies this`locals
      ensures Valid() && locals == old(locals) + multiset{0}
    {
      hide Exact, Acyclic;
      ghost var roots := Roots();
      locals := locals + multiset{0};
      assert Roots() == roots + multiset{0};
      ZeroRoot(heap, roots, Roots());
    }

    method MakeToken(v: Word)
      requires Valid() && v in locals && IsToken(heap, v)
      modifies this`heap, this`wl, this`nFrees, this`nLive, this`dyn, this`freed
      ensures Valid() && dyn <= old(dyn) && heap.Keys <= old(heap.Keys)
      ensures DropAll(old(heap)[v := RawBlock(SizeOf(old(heap)[v]))], Kids(v, old(heap)[v])) == Ok(heap)
    {
      hide Kids, Refs, Acyclic, Owing, RefsIn, IsRef, IsImm, Exact, Counters, SubHeap;
      ghost var roots := Roots();
      ghost var h0 := heap[v := RawBlock(SizeOf(heap[v]))];
      TokenStart(heap, v, roots);
      assert roots + multiset(wl) == roots;
      ReleaseChildren(v, roots);
      TokenRetire(heap, old(heap), v, roots + multiset(wl));
      Retire(v);
      ghost var h1 := heap;
      DropAllExact(h0, Kids(v, old(heap)[v]), roots);
      WlDrain(roots);
      SubHeapTrans(heap, h1, h0);
      ExactUnique(heap, DropAll(h0, Kids(v, old(heap)[v])).heap, h0, roots);
      SubHeapAcyclic(heap, h0);
    }

    // The header keeps its size; the payload no longer counts.
    method Retire(v: Word)
      requires v in heap && heap[v].rc == 1 && Counters() && Pending()
      modifies this`heap
      ensures Counters() && Pending() && heap == old(heap)[v := RawBlock(SizeOf(old(heap)[v]))]
    {
      heap := heap[v := RawBlock(SizeOf(heap[v]))];
    }

    // dc_alloc_rc for a block of words words; p is the allocator's answer.
    method DcAllocRc(words: nat, p: Word)
      requires Valid() && words >= 2 && IsRef(p) && p !in heap && freed == []
      modifies this`heap, this`nAllocs, this`nLive, this`dyn, this`locals, this`books
      ensures books == old(books)[p := words]
      ensures Valid() && heap == old(heap)[p := RawBlock(words)] && locals == old(locals) + multiset{p}
      ensures dyn == old(dyn) + {p} && nAllocs == old(nAllocs) + 1
    {
      hide Kids, Refs, Acyclic, Owing, IsRef, Exact, Counters;
      ghost var roots := Roots();
      AllocExact(heap, p, RawBlock(words), roots);
      Admit(p, words);
      locals := locals + multiset{p};
      assert Roots() == roots + multiset{p};
    }

    method Admit(p: Word, words: nat)
      requires Counters() && words >= 2 && p !in heap && freed == []
      modifies this`heap, this`nAllocs, this`nLive, this`dyn, this`books
      ensures Counters() && heap == old(heap)[p := RawBlock(words)] && books == old(books)[p := words]
      ensures dyn == old(dyn) + {p} && nAllocs == old(nAllocs) + 1
    {
      CardPlus(dyn, p);
      heap := heap[p := RawBlock(words)];
      dyn, books := dyn + {p}, books[p := words];
      nAllocs, nLive := nAllocs + 1, nLive + 1;
    }

    // dc_reuse_or_alloc: a token of exactly the size is the new block; any
    // other token is freed first.
    method DcReuseOrAlloc(tok: Word, words: nat, p: Word) returns (r: Word)
      requires Valid() && words >= 2 && IsRef(p) && p !in heap - {tok} && freed == []
      requires tok in locals && (tok == 0 || IsRaw(heap, tok))
      modifies this`heap, this`nAllocs, this`nFrees, this`nReuses, this`nLive, this`dyn, this`locals, this`books
      ensures Valid() && locals == old(locals) - multiset{tok} + multiset{r}
      ensures ReuseOrAlloc(old(heap), tok, words, p) == (heap, r)
      ensures books == if tok != 0 && SizeOf(old(heap)[tok]) == words then old(books)
          else (old(books) - {tok})[p := words]
    {
      hide Kids, Refs, Acyclic, Owing, Exact, Counters, IsRef;
      if tok != 0 && SizeOf(heap[tok]) == words {
        nReuses := nReuses + 1;
        assert locals == locals - multiset{tok} + multiset{tok};
        return tok;
      }
      GiveToken(tok);
      DcAllocRc(words, p);
      r := p;
    }

    // A token that does not fit is freed; none is nothing.
    method GiveToken(tok: Word)
      requires Valid() && tok in locals && (tok == 0 || IsRaw(heap, tok)) && freed == []
      modifies this`heap, this`nFrees, this`nLive, this`dyn, this`locals, this`books
      ensures Valid() && heap == old(heap) - {tok} && locals == old(locals) - multiset{tok}
      ensures books == old(books) - {tok}
    {
      hide Kids, Refs, Acyclic, Owing, Exact, Counters;
      ghost var held := locals - multiset{tok};
      assert (held + multiset(globals[..])) + multiset{tok} == Roots();
      if tok != 0 {
        TokenFree(heap, tok, held + multiset(globals[..]));
        SubHeapAcyclic(heap - {tok}, heap);
        FreeToken(tok);
      } else {
        ZeroRoot(heap, Roots(), held + multiset(globals[..]));
        ZeroNotLive(heap, Roots());
        ZeroNotBooked();
        assert heap - {tok} == heap && books - {tok} == books;
      }
      locals := held;
    }

    // The caller writes header and payload of a block it owns: the references
    // it stores move into the block.
    method Fill(p: Word, tag: int, words: seq<Word>)
      requires Valid() && p in locals && p in heap && heap[p].tag == T_RAW && heap[p].rc == 1
      requires SizeOf(heap[p]) == |words| + 1
      requires multiset(Kids(p, Block(1, tag, words))) <= locals - multiset{p}
      modifies this`heap, this`locals
      ensures Valid() && heap == old(heap)[p := Block(1, tag, words)]
      ensures locals == old(locals) - multiset(Kids(p, Block(1, tag, words)))
    {
      hide Kids, Refs, Acyclic, Owing, Exact, IsRef;
      var b := Block(1, tag, words);
      NotOwnKid(p, b);
      ghost var kids := multiset(Kids(p, b));
      ghost var held := locals - multiset{p} - kids + multiset(globals[..]);
      RootsSplit(locals, multiset(globals[..]), p, kids);
      FillExact(heap, p, b, held);
      heap := heap[p := b];
      locals := locals - kids;
    }

    // ---------- partial constructors ----------

    // References that do not count may be forgotten.
    ghost method ForgetWords(ws: seq<Word>, kept: multiset<Word>)
      requires Valid() && multiset(ws) <= locals && kept == locals - multiset(ws)
      requires forall w :: w in ws ==> !IsRef(w)
      modifies this`locals
      ensures Valid() && locals == kept
    {
      hide Acyclic, Exact, IsRef, Counters;
      ghost var roots := Roots();
      locals := kept;
      assert roots == Roots() + multiset(ws);
      RootsDrop(heap, Roots(), ws);
    }

    // Write a block over owned raw memory; its child words move in whole.
    method FillMoved(p: Word, b: Block, ghost moved: seq<Word>)
      requires Valid() && p in locals && IsRaw(heap, p) && b.rc == 1 && SizeOf(heap[p]) == SizeOf(b)
      requires Kids(p, b) == RefsIn(p, moved) && p !in moved && multiset(moved) <= locals - multiset{p}
      modifies this`heap, this`locals
      ensures Valid() && heap == old(heap)[p := b] && locals == old(locals) - multiset(moved)
    {
      hide Kids, Refs, Acyclic, Owing, Exact, IsRef, RefsIn;
      ghost var rest := PlainIn(moved);
      SplitMoved(p, moved);
      Fill(p, b.tag, b.words);
      ForgetWords(rest, old(locals) - multiset(moved));
    }

    // dc_mk_partial_ctor.
    method DcMkPartialCtor(cid: nat, p: Word)
      requires Valid() && IsRef(p) && p !in heap && freed == []
      modifies this`heap, this`nAllocs, this`nLive, this`dyn, this`locals, this`books
      ensures Valid() && heap == old(heap)[p := StepBlock(cid, [])] && locals == old(locals) + multiset{p}
    {
      hide Kids, Refs, Acyclic, Owing, Exact, IsRef, Counters, RefsIn;
      DcAllocRc(5, p);
      StepKids(p, cid, []);
      FillMoved(p, StepBlock(cid, []), []);
    }

    // The copy loop of dc_ctor_step: dup the arguments held by clo.
    method DupEnv(clo: Word, count: nat, ghost args: seq<Word>) returns (copied: seq<Word>)
      requires Valid() && clo in heap && count == |args| && |heap[clo].words| == count + 4
      requires heap[clo].words[4..] == args
      requires forall w :: w in args && IsRef(w) ==> w in heap
      modifies this`heap, this`locals
      ensures Valid() && copied == args && locals == old(locals) + multiset(args)
      ensures DupAll(old(heap), args) == Ok(heap) && SameBlocks(heap, old(heap))
    {
      hide Kids, Refs, Acyclic, Owing, Exact, IsRef, Valid, DupAll, Dup;
      copied := [];
      var i := 0;
      DupAllNone(heap);
      while i < count
        invariant 0 <= i <= |args| && copied == args[..i] && Valid()
        invariant DupAll(old(heap), args[..i]) == Ok(heap) && SameBlocks(heap, old(heap))
        invariant locals == old(locals) + multiset(args[..i])
      {
        var w := heap[clo].words[4 + i];
        assert w == args[i] && args[..i + 1] == args[..i] + [w];
        DupAllSnoc(old(heap), args[..i], w);
        DupSame(heap, w);
        DcDup(w);
        copied := copied + [w];
        i := i + 1;
      }
      assert args[..i] == args;
    }

    // dc_ctor_step on a closure holding args: the new block takes over arg and
    // copies of args.
    method DcCtorStep(clo: Word, arg: Word, arity: nat, p: Word, ghost cid: nat, ghost args: seq<Word>)
      returns (r: Word)
      requires Valid() && arg in locals && IsRef(p) && p !in heap && freed == []
      requires clo in heap && heap[clo].tag == T_CLOSURE && heap[clo].words == StepWords(cid, args)
      modifies this`heap, this`nAllocs, this`nLive, this`dyn, this`locals, this`books
      ensures Valid() && r == p && locals == old(locals) - multiset{arg} + multiset{p}
      ensures CtorStep(old(heap), cid, arity, args, arg, p) == Ok(heap)
      ensures books == old(books)[p := StepSize(arity, |args|)]
    {
      hide Kids, Refs, Acyclic, Owing, Exact, IsRef, Valid, RefsIn, DupAll, NextBlock, SizeOf, CtorStep, SameBlocks;
      hide RawBlock, StepSize, IsRaw;
      Accounts();
      var id, count := IntOf(heap[clo].words[2]), IntOf(heap[clo].words[3]);
      StepEnv(heap, clo, cid, args, Roots(), p, arg);
      ghost var h0, l0 := heap, locals;
      DcAllocRc(StepSize(arity, count), p);
      ghost var h1 := heap;
      var copied := DupEnv(clo, count, args);
      StepResult(h0, heap, cid, arity, args, arg, p, h1[p]);
      RawSize(heap, p, StepSize(arity, count));
      StepLocals(l0, p, args, arg);
      FillNext(p, id, arity, copied, arg);
      r := p;
    }

    // The writes of dc_ctor_step to its new block.
    method FillNext(p: Word, cid: nat, arity: nat, args: seq<Word>, arg: Word)
      requires Valid() && IsRaw(heap, p) && SizeOf(heap[p]) == StepSize(arity, |args|) && p !in args && p != arg
      requires multiset{p} + multiset(args) + multiset{arg} <= locals
      modifies this`heap, this`locals
      ensures Valid() && heap == old(heap)[p := NextBlock(cid, arity, args, arg)]
      ensures locals == old(locals) - multiset(args) - multiset{arg}
    {
      hide Kids, Valid, RefsIn, NextBlock, SizeOf, StepSize;
      NextKids(p, cid, arity, args, arg);
      NextSize(cid, arity, args, arg);
      assert multiset(args + [arg]) == multiset(args) + multiset{arg};
      FillMoved(p, NextBlock(cid, arity, args, arg), args + [arg]);
    }

    // ---------- globals ----------

    // The table takes over the caller's reference and hands out the old one.
    method StoreGlobal(i: nat, v: Word) returns (was: Word)
      requires Valid() && i < GLOBALS && v in locals
      modifies this`locals, this`globalCount, globals
      ensures Valid() && was == old(globals[i]) && locals == old(locals) - multiset{v} + multiset{was}
      ensures globals[..] == old(globals[..])[i := v]
    {
      hide Acyclic, Exact, Counters;
      ghost var g0 := globals[..];
      TableSwap(locals, g0, i, v);
      was := globals[i];
      globals[i] := v;
      if i + 1 > globalCount {
        globalCount := i + 1;
      }
      locals := locals - multiset{v} + multiset{was};
      assert globals[..] == g0[i := v];
    }

    // dc_gset: the old entry is dropped.
    method DcGset(i: nat, v: Word)
      requires Valid() && i < GLOBALS && v in locals
      modifies this`heap, this`wl, this`nFrees, this`nLive, this`dyn, this`freed, this`locals, this`globalCount, globals
      ensures Valid() && locals == old(locals) - multiset{v} && heap.Keys <= old(heap.Keys)
      ensures globals[..] == old(globals[..])[i := v] && Drop(old(heap), old(globals[i])) == Ok(heap)
    {
      hide Acyclic, Exact, Counters, Drop, SubHeap;
      var was := StoreGlobal(i, v);
      DropLocal(was);
      SubHeapKeys(heap, old(heap));
    }

    // ---------- shutdown ----------

    // dc_rt_shutdown under DACELO_RC_CHECK: drop every global, then report
    // whether a block is still live.
    method DcRtShutdown() returns (leak: bool)
      requires Valid()
      modifies this`heap, this`wl, this`nFrees, this`nLive, this`dyn, this`freed, this`locals, globals
      ensures Valid() && Exact(heap, locals) && locals == old(locals) && dyn <= old(dyn) && heap.Keys <= old(heap.Keys)
      ensures leak <==> nLive != 0
      ensures leak <==> dyn != {}
      ensures forall j :: 0 <= j < GLOBALS ==> globals[j] == 0
      ensures old(locals) == multiset{} && NoneSticky(old(heap), old(dyn)) ==> !leak
    {
      hide Kids, Refs, Acyclic, Owing, Exact, IsRef, SubHeap, NoneSticky, Counters;
      SubHeapRefl(heap);
      ghost var l0 := locals;
      var i := 0;
      while i < globalCount
        invariant 0 <= i <= globalCount && Valid() && locals == l0 && dyn <= old(dyn) && SubHeap(heap, old(heap))
        invariant forall j :: 0 <= j < i ==> globals[j] == 0
      {
        ghost var h1 := heap;
        ClearGlobal(i);
        SubHeapTrans(heap, h1, old(heap));
        i := i + 1;
      }
      assert forall w :: w in globals[..] ==> w == 0;
      ZeroRoots(heap, locals, globals[..]);
      SubHeapKeys(heap, old(heap));
      leak := nLive != 0;
      LiveCount();
      if old(locals) == multiset{} && NoneSticky(old(heap), old(dyn)) {
        StaticRest();
        CleanExit(heap, dyn, old(heap), old(dyn));
      }
    }

    // One turn of the shutdown loop.
    method ClearGlobal(i: nat)
      requires Valid() && i < GLOBALS
      modifies this`heap, this`wl, this`nFrees, this`nLive, this`dyn, this`freed, this`locals, globals
      ensures Valid() && locals == old(locals) && dyn <= old(dyn) && SubHeap(heap, old(heap))
      ensures globals[..] == old(globals[..])[i := 0] && Drop(old(heap), old(globals[i])) == Ok(heap)
    {
      hide Kids, Refs, Acyclic, Owing, Exact, IsRef, SubHeap, Counters, Drop;
      ghost var g0, roots := globals[..], Roots();
      var v := globals[i];
      globals[i] := 0;
      locals := locals + multiset{v};
      assert globals[..] == g0[i := 0];
      SwapRoot(g0, i, 0);
      assert Roots() == roots + multiset{0};
      ZeroRoot(heap, roots, Roots());
      DropLocal(v);
    }

    lemma LiveCount()
      requires Counters()
      ensures nLive == |dyn|
    {
    }

    lemma ZeroNotBooked()
      requires Valid() && freed == []
      ensures 0 !in books
    {
      hide Exact, Acyclic;
      ZeroNotLive(heap, Roots());
      BooksOnly();
    }

    // Raw memory is never static.
    lemma RawBooked(tok: Word)
      requires Valid() && IsRaw(heap, tok) && freed == []
      ensures tok in books && books[tok] == SizeOf(heap[tok])
    {
      hide Exact, Acyclic;
      BooksOnly();
    }

    lemma BooksOnly()
      requires Valid() && freed == []
      ensures books.Keys == dyn && dyn <= heap.Keys && forall b :: b in dyn ==> books[b] == SizeOf(heap[b])
    {
      hide Exact, Acyclic, SizeOf;
      assert forall b :: b in books <==> b in dyn;
    }

    lemma StaticRest()
      requires Counters()
      ensures dyn <= heap.Keys && forall p :: p in heap && p !in dyn ==> heap[p].rc == RC_IMMORTAL
    {
    }
  }

  // Nothing handed out has a saturated count, and static data has no children.
  ghost predicate NoneSticky(h: Heap, dyn: set<Word>) {
    && (forall p :: p in dyn && p in h ==> h[p].rc != RC_IMMORTAL)
    && (forall p :: p in h && p !in dyn ==> Kids(p, h[p]) == [])
  }

  lemma {:induction false} CleanExit(h1: Heap, dyn1: set<Word>, h: Heap, dyn: set<Word>)
    requires NoneSticky(h, dyn) && SubHeap(h1, h) && dyn1 <= dyn && dyn1 <= h1.Keys && Exact(h1, multiset{})
    requires Acyclic(h1)
    requires forall p :: p in h1 && p !in dyn1 ==> h1[p].rc == RC_IMMORTAL
    ensures dyn1 == {}
  {
    hide Kids, Refs, IsRef, Exact, Acyclic;
    forall p | p in h1 && p !in dyn1 ensures Kids(p, h1[p]) == [] { SameKids(p, h1[p], h[p]); }
    NothingLeaks(h1, dyn1);
  }

  ghost predicate IsRaw(h: Heap, p: Word) { p in h && h[p].tag == T_RAW && h[p].rc == 1 }

  // What dc_drop_reuse and dc_reuse_or_alloc do to the heap, and their results.
  ghost function DropReuse(h: Heap, v: Word): (Outcome, Word) {
    if IsToken(h, v) then (DropAll(h[v := RawBlock(SizeOf(h[v]))], Kids(v, h[v])), v) else (Drop(h, v), 0)
  }

  ghost function ReuseOrAlloc(h: Heap, tok: Word, words: nat, p: Word): (Heap, Word)
    requires words >= 2
  {
    if tok != 0 && tok in h && SizeOf(h[tok]) == words then (h, tok) else ((h - {tok})[p := RawBlock(words)], p)
  }

  // Reuse is unobservable: giving up v with reuse and then asking for a block
  // leaves exactly what dropping v and allocating leaves, up to the address of
  // the new block. This covers v shared, unique of either size, immediate and
  // immortal alike.
  lemma {:induction false} ReuseUnobservable(h: Heap, v: Word, words: nat, p: Word, roots: multiset<Word>)
    requires Exact(h, roots + multiset{v}) && Acyclic(h) && words >= 2 && IsRef(p)
    requires match Drop(h, v) case Ok(base) => p !in base case Fault => true
    ensures Drop(h, v).Ok? && DropReuse(h, v).0.Ok?
    ensures var base := Drop(h, v).heap;
            var (o, tok) := DropReuse(h, v);
            var (h1, r) := ReuseOrAlloc(o.heap, tok, words, p);
            && h1 == base[r := RawBlock(words)] && r !in base && (r == p || r == v)
            && |h1| == |base[p := RawBlock(words)]|
  {
    hide Kids, Refs, Acyclic, Owing, Exact, IsRef, Drop, DropAll;
    DropExact(h, v, roots);
    var base := Drop(h, v).heap;
    if IsToken(h, v) {
      var h0 := h[v := RawBlock(SizeOf(h[v]))];
      TokenStart(h, v, roots + multiset{v});
      DropAllExact(h0, Kids(v, h[v]), roots + multiset{v});
      var h2 := DropAll(h0, Kids(v, h[v])).heap;
      TokenStays(h2, h0, v, roots + multiset{v} + multiset(Kids(v, h[v])), roots + multiset{v});
      TokenFree(h2, v, roots);
      FreedSub(h, h0, h2, v);
      ExactUnique(h2 - {v}, base, h, roots);
      assert h2 == base[v := RawBlock(SizeOf(h[v]))];
    } else {
      assert 0 !in base by { ZeroNotLive(base, roots); }
      assert base - {0} == base;
    }
  }

  lemma {:induction false} FreedSub(h: Heap, h0: Heap, h2: Heap, v: Word)
    requires IsToken(h, v) && h0 == h[v := RawBlock(SizeOf(h[v]))] && SubHeap(h2, h0)
    ensures SubHeap(h2 - {v}, h)
  {
  }

  // A token is still owed, so releasing its former children cannot free it.
  lemma {:induction false} TokenStays(h2: Heap, h0: Heap, v: Word, owed0: multiset<Word>, roots: multiset<Word>)
    requires SubHeap(h2, h0) && IsRef(v) && v in h0 && h0[v] == RawBlock(SizeOf(h0[v]))
    requires Exact(h0, owed0) && v in owed0 && Exact(h2, roots) && roots <= owed0 && v in roots
    ensures v in h2 && h2[v] == h0[v]
  {
    hide Kids, Refs, Acyclic, IsRef;
    if Refs(h2)[v] > 0 {
      CountedKid(h2, v);
      var p :| p in h2 && v in Kids(p, h2[p]);
      SameKids(p, h2[p], h0[p]);
      KidCounted(h0, p, v);
    }
  }

  ghost predicate IsToken(h: Heap, v: Word) { IsRef(v) && v in h && h[v].rc == 1 }

  // ---------- the steps above, on values ----------

  function PlainIn(ws: seq<Word>): (r: seq<Word>)
    ensures forall w :: w in r ==> !IsRef(w)
  {
    if ws == [] then [] else if IsRef(ws[0]) then PlainIn(ws[1..]) else [ws[0]] + PlainIn(ws[1..])
  }

  lemma {:induction false} SplitMoved(p: Word, ws: seq<Word>)
    requires p !in ws
    ensures multiset(ws) == multiset(RefsIn(p, ws)) + multiset(PlainIn(ws))
  {
    if ws != [] {
      assert ws == [ws[0]] + ws[1..];
      SplitMoved(p, ws[1..]);
    }
  }

  lemma {:induction false} RootsDrop(h: Heap, roots: multiset<Word>, ws: seq<Word>)
    requires Exact(h, roots + multiset(ws)) && forall w :: w in ws ==> !IsRef(w)
    ensures Exact(h, roots)
  {
    forall w | IsRef(w) ensures (roots + multiset(ws))[w] == roots[w] { assert w !in ws; }
    RootsExt(h, roots + multiset(ws), roots, multiset{});
  }

  lemma {:induction false} DupAllNone(h: Heap)
    ensures DupAll(h, []) == Ok(h)
  {
  }

  lemma {:induction false} DupSame(h: Heap, w: Word)
    ensures match Dup(h, w) case Fault => true case Ok(h1) => SameBlocks(h1, h)
  {
  }

  lemma {:induction false} StepResult(h0: Heap, h2: Heap, cid: nat, arity: nat, args: seq<Word>, arg: Word, p: Word,
                                      raw: Block)
    requires p !in h0 && p !in args && DupAll(h0[p := raw], args) == Ok(h2)
    ensures p in h2 && h2[p] == raw
    ensures CtorStep(h0, cid, arity, args, arg, p) == Ok(h2[p := NextBlock(cid, arity, args, arg)])
  {
    hide NextBlock;
    DupAllOther(h0, args, p, raw);
    var h1 := DupAll(h0, args).heap;
    assert h2 == h1[p := raw];
    assert h2[p := NextBlock(cid, arity, args, arg)] == h1[p := NextBlock(cid, arity, args, arg)];
  }

  lemma {:induction false} LessRoots(locals: multiset<Word>, table: multiset<Word>, v: Word)
    requires v in locals
    ensures locals + table - multiset{v} == (locals - multiset{v}) + table
  {
  }

  lemma {:induction false} StepLocals(locals: multiset<Word>, p: Word, args: seq<Word>, arg: Word)
    requires arg in locals
    ensures multiset{p} + multiset(args) + multiset{arg} <= locals + multiset{p} + multiset(args)
    ensures locals + multiset{p} + multiset(args) - multiset(args) - multiset{arg}
        == locals - multiset{arg} + multiset{p}
  {
  }

  lemma {:induction false} RawSize(h: Heap, p: Word, n: nat)
    requires n >= 1 && p in h && h[p] == RawBlock(n)
    ensures IsRaw(h, p) && SizeOf(h[p]) == n
  {
  }

  lemma {:induction false} NextSize(cid: nat, arity: nat, args: seq<Word>, arg: Word)
    ensures SizeOf(NextBlock(cid, arity, args, arg)) == StepSize(arity, |args|)
  {
  }

  // The closure's environment: live arguments, none at the fresh address.
  lemma {:induction false} StepEnv(h: Heap, clo: Word, cid: nat, args: seq<Word>, roots: multiset<Word>, p: Word,
                                   arg: Word)
    requires Exact(h, roots) && clo in h && h[clo].tag == T_CLOSURE && h[clo].words == StepWords(cid, args)
    requires IsRef(p) && p !in h && arg in roots
    ensures forall w :: w in args && IsRef(w) ==> w in h
    ensures p !in args && p != arg && p != clo
    ensures IntOf(h[clo].words[2]) == cid && IntOf(h[clo].words[3]) == |args|
  {
    hide Refs, Kids;
    StepKids(clo, cid, args);
    SameKids(clo, h[clo], StepBlock(cid, args));
    RefsInRefs(clo, args);
  }

  lemma {:induction false} CardPlus(s: set<Word>, p: Word)
    ensures p !in s ==> |s + {p}| == |s| + 1
  {
  }

  // 0 is no reference, so it may come and go among the roots.
  lemma {:induction false} ZeroRoot(h: Heap, a: multiset<Word>, b: multiset<Word>)
    requires Exact(h, a) && forall w :: w != 0 ==> a[w] == b[w]
    ensures Exact(h, b)
  {
    RootsExt(h, a, b, multiset{});
  }

  lemma {:induction false} ZeroRoots(h: Heap, held: multiset<Word>, zeros: seq<Word>)
    requires Exact(h, held + multiset(zeros)) && forall w :: w in zeros ==> w == 0
    ensures Exact(h, held)
  {
    forall w | w != 0 ensures (held + multiset(zeros))[w] == held[w] { assert w !in zeros; }
    ZeroRoot(h, held + multiset(zeros), held);
  }

  lemma {:induction false} ZeroNotLive(h: Heap, roots: multiset<Word>)
    requires Exact(h, roots)
    ensures 0 !in h
  {
  }

  lemma {:induction false} RootsSwap(held: multiset<Word>, g: multiset<Word>, g1: multiset<Word>, was: Word, v: Word)
    requires v in held && g1 + multiset{was} == g + multiset{v}
    ensures held - multiset{v} + multiset{was} + g1 == held + g
  {
    forall w ensures (held - multiset{v} + multiset{was} + g1)[w] == (held + g)[w] {
      assert (g1 + multiset{was})[w] == (g + multiset{v})[w];
    }
  }

  // Storing v in the table and taking the old entry out moves no reference.
  lemma {:induction false} TableSwap(held: multiset<Word>, g: seq<Word>, i: nat, v: Word)
    requires i < |g| && v in held
    ensures held - multiset{v} + multiset{g[i]} + multiset(g[i := v]) == held + multiset(g)
  {
    SwapRoot(g, i, v);
    RootsSwap(held, multiset(g), multiset(g[i := v]), g[i], v);
  }

  lemma {:induction false} SwapRoot(g: seq<Word>, i: nat, v: Word)
    requires i < |g|
    ensures multiset(g[i := v]) + multiset{g[i]} == multiset(g) + multiset{v}
  {
  }

  // After the table is emptied: with no reference outside, static data without
  // children and no saturated count, every block handed out was freed.
  lemma {:induction false} NothingLeaks(h: Heap, dyn: set<Word>)
    requires Exact(h, multiset{}) && Acyclic(h) && dyn <= h.Keys
    requires forall p :: p in h && p !in dyn ==> Kids(p, h[p]) == []
    requires forall p :: p in dyn ==> h[p].rc != RC_IMMORTAL
    ensures dyn == {}
  {
    hide Kids, Refs, IsRef;
    var rank :| Ranked(h, rank);
    forall p | p in dyn ensures false {
      GarbageFree(h, multiset{}, rank, p);
      var n: nat :| Reach(h, multiset{}, p, n);
      DynUnreachable(h, dyn, p, n);
    }
  }

  lemma {:induction false} DynUnreachable(h: Heap, dyn: set<Word>, p: Word, n: nat)
    requires p in dyn && Reach(h, multiset{}, p, n)
    requires forall q :: q in h && q !in dyn ==> Kids(q, h[q]) == []
    requires forall q :: q in dyn && q in h ==> h[q].rc != RC_IMMORTAL
    ensures false
    decreases n
  {
    var q :| q in h && p in Kids(q, h[q]) && Reach(h, multiset{}, q, n - 1);
    DynUnreachable(h, dyn, q, n - 1);
  }

  // Before its children go, a unique block swapped for raw memory owes them.
  lemma {:induction false} TokenStart(h: Heap, v: Word, roots: multiset<Word>)
    requires Exact(h, roots) && v in h && h[v].rc == 1 && v in roots && Acyclic(h)
    ensures var h0 := h[v := RawBlock(SizeOf(h[v]))];
            Exact(h0, roots + multiset(Kids(v, h[v]))) && Acyclic(h0)
  {
    hide Kids, Refs, IsRef;
    var raw := RawBlock(SizeOf(h[v]));
    RawNoKids(v, raw);
    RefsUpdate(h, v, raw);
    assert Refs(h) == Refs(h[v := raw]) + multiset(Kids(v, h[v]));
    assert Refs(h)[v] == 0;
    var rank :| Ranked(h, rank);
    assert Ranked(h[v := raw], rank);
  }

  lemma {:induction false} TokenRetire(h1: Heap, h: Heap, v: Word, owed: multiset<Word>)
    requires v in h && v in h1 && h1[v] == h[v] && h[v].rc == 1 && SubHeap(h1, h)
    requires Owing(h1, owed, multiset(Kids(v, h1[v])))
    ensures var raw := RawBlock(SizeOf(h[v])); Exact(h1[v := raw], owed) && SubHeap(h1[v := raw], h[v := raw])
  {
    RetireExact(h1, v, owed, RawBlock(SizeOf(h[v])));
  }

  lemma {:induction false} TokenFree(h: Heap, tok: Word, held: multiset<Word>)
    requires tok in h && h[tok].tag == T_RAW && h[tok].rc == 1 && Exact(h, held + multiset{tok})
    ensures Exact(h - {tok}, held) && SubHeap(h - {tok}, h)
  {
    RawNoKids(tok, h[tok]);
    FreeExact(h, tok, held);
  }

  // ---------- the release loop, on values ----------

  // The children among the payload words before index i.
  function KidsUpTo(p: Word, b: Block, i: nat): seq<Word> {
    if FirstChild(b) <= i <= |b.words| then RefsIn(p, b.words[FirstChild(b)..i]) else []
  }

  lemma {:induction false} KidsPrefix(p: Word, b: Block)
    ensures KidsUpTo(p, b, FirstChild(b)) == []
  {
    if FirstChild(b) <= |b.words| { assert b.words[FirstChild(b)..FirstChild(b)] == []; }
  }

  lemma {:induction false} KidsAll(p: Word, b: Block, i: nat)
    requires i >= |b.words| && (i == FirstChild(b) || i == |b.words|)
    ensures KidsUpTo(p, b, i) == Kids(p, b)
  {
    if FirstChild(b) <= |b.words| {
      assert b.words[FirstChild(b)..|b.words|] == b.words[FirstChild(b)..];
    }
  }

  lemma {:induction false} KidsStep(p: Word, b: Block, i: nat)
    requires FirstChild(b) <= i < |b.words|
    ensures var w := b.words[i];
            KidsUpTo(p, b, i + 1) == if IsRef(w) && w != p then KidsUpTo(p, b, i) + [w] else KidsUpTo(p, b, i)
    ensures IsRef(b.words[i]) && b.words[i] != p ==> b.words[i] in Kids(p, b)
  {
    var f, w := FirstChild(b), b.words[i];
    assert b.words[f..i + 1] == b.words[f..i] + [w];
    RefsInAppend(p, b.words[f..i], [w]);
    assert [w][1..] == [];
    RefsInRefs(p, b.words[f..]);
    assert b.words[f..][i - f] == w;
  }

  lemma {:induction false} KidLive(h: Heap, b: Word, w: Word, owed: multiset<Word>, gone: multiset<Word>)
    requires Owing(h, owed, gone) && b in h
    ensures w in Kids(b, h[b]) ==> w in h && 1 <= h[w].rc <= RC_IMMORTAL
  {
    hide Kids, Refs;
  }

  lemma {:induction false} OwedLive(h: Heap, owed: multiset<Word>, w: Word)
    requires Exact(h, owed) && w in owed && IsRef(w)
    ensures w in h && 1 <= h[w].rc
  {
  }

  // A block owed once and at its last reference is on no list.
  lemma {:induction false} Unlisted(h: Heap, wl: seq<Word>, b: Word, held: multiset<Word>)
    requires (held + multiset(wl))[b] == 0
    ensures b !in wl
  {
    assert b in wl ==> multiset(wl)[b] > 0;
  }

  lemma {:induction false} RootsSplit(locals: multiset<Word>, globs: multiset<Word>, p: Word, kids: multiset<Word>)
    requires p in locals && kids <= locals - multiset{p}
    ensures locals + globs == locals - multiset{p} - kids + globs + multiset{p} + kids
    ensures locals - kids + globs == locals - multiset{p} - kids + globs + multiset{p}
  {
  }

  // A table of zeros holds nothing.
  lemma {:induction false} StartExact(h: Heap, g: seq<Word>)
    requires Exact(h, multiset{}) && forall w :: w in g ==> w == 0
    ensures Exact(h, multiset{} + multiset(g))
  {
    hide Kids, Refs;
    forall w | IsRef(w) ensures (multiset{} + multiset(g))[w] == 0 { assert w !in g; }
    RootsExt(h, multiset{}, multiset{} + multiset(g), multiset{});
  }

  lemma {:induction false} LowerSub(h: Heap, h0: Heap, w: Word)
    requires SubHeap(h, h0) && w in h && h[w].rc != RC_IMMORTAL && 1 < h[w].rc <= RC_IMMORTAL
    ensures SubHeap(h[w := h[w].(rc := h[w].rc - 1)], h0)
  {
  }
}

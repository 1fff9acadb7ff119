// The counting runtime on top of the block allocator (gen5/rt5.c): a block
// address is eight times an allocator address, and what the runtime frees goes
// back to the allocator in the order in which it was freed.
module Process {
  import opened RcHeap
  import opened RcRuntime
  import opened Trampoline
  import Allocator

  // What the allocator counts as live is what the runtime has not given back,
  // block for block.
  ghost predicate Match(books: map<Word, nat>, live: set<nat>, blocks: Allocator.Blocks) {
    && (forall b :: b in books ==> b > 0 && b % 8 == 0 && b / 8 in live && b / 8 in blocks && blocks[b / 8] == books[b])
    && (forall a :: a in live ==> 8 * a in books)
  }

  // The other blocks are static data, outside of what the allocator has.
  ghost predicate Outside(h: Heap, books: map<Word, nat>, statics: Allocator.Blocks) {
    forall b :: b in h && b !in books ==> b > 0 && b % 8 == 0 && b / 8 in statics && statics[b / 8] > 0
  }

  lemma {:induction false} MatchLess(books: map<Word, nat>, live: set<nat>, blocks: Allocator.Blocks, b: Word)
    requires Match(books, live, blocks) && b in books
    ensures b > 0 && b % 8 == 0 && b / 8 in live && b / 8 in blocks && blocks[b / 8] == books[b]
    ensures Match(books - {b}, live - {b / 8}, blocks)
  {
    forall c | c in books && c != b ensures c / 8 != b / 8 { assert c == 8 * (c / 8) && b == 8 * (b / 8); }
    forall a | a in live && a != b / 8 ensures 8 * a in books - {b} { assert 8 * a / 8 == a; }
  }

  lemma {:induction false} MatchMore(books: map<Word, nat>, live: set<nat>, blocks: Allocator.Blocks,
                                     blocks1: Allocator.Blocks, a: nat)
    requires Match(books, live, blocks) && a !in live && a > 0 && a in blocks1
    requires forall x :: x in live && x in blocks ==> x in blocks1 && blocks1[x] == blocks[x]
    ensures Match(books[8 * a := blocks1[a]], live + {a}, blocks1)
  {
    assert 8 * a / 8 == a;
  }

  lemma {:induction false} OutsideLess(h: Heap, books: map<Word, nat>, statics: Allocator.Blocks, b: Word)
    requires Outside(h, books, statics)
    ensures Outside(h - {b}, books - {b}, statics)
  {
  }

  lemma {:induction false} OutsideMore(h: Heap, h1: Heap, books: map<Word, nat>, statics: Allocator.Blocks, p: Word,
                                       words: nat)
    requires Outside(h, books, statics) && h1.Keys == h.Keys + {p}
    ensures Outside(h1, books[p := words], statics)
  {
  }

  // The allocator's answer is the address of no block of the runtime's.
  lemma {:induction false} Unused(h: Heap, books: map<Word, nat>, statics: Allocator.Blocks, live: set<nat>,
                                  blocks: Allocator.Blocks, a: nat)
    requires Match(books, live, blocks) && Outside(h, books, statics) && a !in live
    requires (a in statics ==> statics[a] == 0)
    ensures 8 * a !in h
  {
    assert 8 * a / 8 == a;
  }

  lemma {:induction false} TurnLocals(held: multiset<Word>, table: multiset<Word>, clo: Word, arg: Word, p: Word)
    requires multiset{clo, arg} <= held
    ensures held + table == (held - multiset{clo, arg} + table) + multiset{clo} + multiset{arg}
    ensures clo in held - multiset{arg} + multiset{p}
    ensures held - multiset{arg} + multiset{p} - multiset{clo} == held - multiset{clo, arg} + multiset{p}
  {
  }

  class Process {
    const rt: Runtime
    const al: Allocator.Heap

    ghost predicate Matched()
      reads rt`books, rt`heap, al`live, al`blocks
    {
      Match(rt.books, al.live, al.blocks) && Outside(rt.heap, rt.books, al.statics)
    }

    // While the runtime has blocks left to give back.
    ghost predicate Owing()
      reads rt, rt.globals, al, al.small, al.big, al.bits
    {
      rt.Valid() && al.Valid() && al.Tallied() && Matched()
    }

    ghost predicate Valid()
      reads rt, rt.globals, al, al.small, al.big, al.bits
    {
      Owing() && rt.freed == []
    }

    // A program starts with its static data, which malloc never answers with.
    constructor (statics: Heap)
      requires Exact(statics, multiset{}) && Acyclic(statics) && Aligned(statics)
      requires forall p :: p in statics ==> statics[p].rc == RC_IMMORTAL
      ensures Valid() && fresh(rt) && fresh(rt.globals) && fresh(al) && fresh(al.small) && fresh(al.big)
      ensures fresh(al.bits)
      ensures rt.heap == statics && al.live == {}
    {
      hide Runtime.Valid, Allocator.Heap.Valid, Allocator.Heap.Tallied, Exact, Acyclic, Layout, Outside;
      rt := new Runtime(statics);
      al := new Allocator.Heap(Layout(statics));
      new;
      LayoutOutside(statics);
    }

    // What has a count in the heap is exactly what the allocator has handed out
    // and not got back, at its size.
    lemma LiveIs()
      requires Valid()
      ensures forall a: nat :: a in al.live <==> 8 * a in rt.dyn
      ensures forall b :: b in rt.dyn ==>
          b in rt.heap && b > 0 && b % 8 == 0 && b / 8 in al.live && b / 8 in al.blocks
              && al.blocks[b / 8] == SizeOf(rt.heap[b])
    {
      hide Runtime.Valid, Allocator.Heap.Valid, Allocator.Heap.Tallied, SizeOf;
      rt.BooksOnly();
      forall a: nat ensures a in al.live <==> 8 * a in rt.dyn { assert 8 * a / 8 == a; }
    }

    // Two blocks of the heap never share a word of memory.
    lemma BlocksApart(b: Word, c: Word)
      requires Valid() && b in rt.dyn && c in rt.dyn && b != c
      ensures b in rt.heap && c in rt.heap && b > 0 && c > 0 && b % 8 == c % 8 == 0
      ensures Allocator.Clear(b / 8, SizeOf(rt.heap[b]), c / 8, SizeOf(rt.heap[c]))
    {
      hide Runtime.Valid, Allocator.Heap.Valid, Allocator.Heap.Tallied, SizeOf, Allocator.Clear;
      rt.BooksOnly();
      al.NoOverlap(b / 8, c / 8);
    }

    // free_block for what the runtime freed first.
    method GiveOne()
      requires Owing() && rt.freed != []
      modifies rt`freed, rt`books, al, al.small, al.big, al.bits
      ensures Owing() && al.blocks == old(al.blocks) && |rt.freed| < old(|rt.freed|)
    {
      hide Runtime.Valid, Allocator.Heap.Valid, Allocator.Heap.Tallied, Match;
      var (b, n) := rt.freed[0];
      ghost var books := rt.books;
      rt.TakeBack();
      MatchLess(books, al.live, al.blocks, b);
      al.FreeBlock(b / 8, n);
    }

    // And for everything it freed, in that order.
    method GiveBack()
      requires Owing()
      modifies rt`freed, rt`books, al, al.small, al.big, al.bits
      ensures Valid() && al.blocks == old(al.blocks)
    {
      hide Owing;
      while rt.freed != []
        invariant Owing() && al.blocks == old(al.blocks)
        decreases |rt.freed|
      {
        GiveOne();
      }
    }

    // dc_alloc_rc: the block is new to the runtime, whatever the allocator
    // answers with. A request past the header's size field is fatal.
    method Alloc(words: nat, mem: nat) returns (p: Word)
      requires Valid() && 2 <= words && 8 * words < Allocator.TWO64 && al.Offered(mem, Allocator.ChunkFor(words))
      modifies rt, al, al.small, al.big, al.bits
      ensures Valid() && (p == 0 <==> words > Allocator.MAX_WORDS)
      ensures p == 0 ==> rt.heap == old(rt.heap) && rt.locals == old(rt.locals)
      ensures p != 0 ==> p !in old(rt.heap) && rt.heap == old(rt.heap)[p := RawBlock(words)]
      ensures p != 0 ==> rt.locals == old(rt.locals) + multiset{p}
    {
      hide Runtime.Valid, Allocator.Heap.Valid, Allocator.Heap.Tallied, Allocator.Heap.Inv;
      hide Allocator.Heap.Offered, Allocator.WordsFor, Match;
      EightTimes(words);
      ghost var live, blocks := al.live, al.blocks;
      var a := al.DcAllocRc(8 * words, mem);
      MatchSame(rt.books, live, blocks, al.blocks);
      if a == 0 { return 0; }
      p := 8 * a;
      al.NotStatic(a);
      Unused(rt.heap, rt.books, al.statics, live, blocks, a);
      MatchMore(rt.books, live, blocks, al.blocks, a);
      rt.DcAllocRc(words, p);
    }

    // dc_drop of a reference the program holds.
    method Drop(v: Word)
      requires Valid() && v in rt.locals
      modifies rt, al, al.small, al.big, al.bits
      ensures Valid() && rt.locals == old(rt.locals) - multiset{v} && RcHeap.Drop(old(rt.heap), v) == Ok(rt.heap)
    {
      hide Runtime.Valid, Allocator.Heap.Valid, Allocator.Heap.Tallied, Match, RcHeap.Drop;
      rt.DropLocal(v);
      SubHeapKeys(rt.heap, old(rt.heap));
      GiveBack();
    }

    method DropReuse(v: Word) returns (tok: Word)
      requires Valid() && v in rt.locals
      modifies rt, al, al.small, al.big, al.bits
      ensures Valid() && rt.locals == old(rt.locals) - multiset{v} + multiset{tok}
      ensures RcRuntime.DropReuse(old(rt.heap), v) == (Ok(rt.heap), tok)
    {
      hide Runtime.Valid, Allocator.Heap.Valid, Allocator.Heap.Tallied, Match, RcRuntime.DropReuse;
      tok := rt.DcDropReuse(v);
      GiveBack();
    }

    // dc_reuse_or_alloc: a token of the size is the block; any other goes back
    // to the allocator before it is asked, and may come back as its answer.
    method ReuseOrAlloc(tok: Word, words: nat, mem: nat) returns (r: Word)
      requires Valid() && tok in rt.locals && (tok == 0 || IsRaw(rt.heap, tok))
      requires 2 <= words && 8 * words < Allocator.TWO64 && al.Offered(mem, Allocator.ChunkFor(words))
      modifies rt, al, al.small, al.big, al.bits
      ensures r == 0 ==> words > Allocator.MAX_WORDS
      ensures r != 0 ==> Valid() && rt.locals == old(rt.locals) - multiset{tok} + multiset{r}
      ensures r != 0 ==> r !in old(rt.heap) - {tok}
      ensures r != 0 ==> RcRuntime.ReuseOrAlloc(old(rt.heap), tok, words, r) == (rt.heap, r)
    {
      hide Runtime.Valid, Allocator.Heap.Valid, Allocator.Heap.Tallied, Allocator.Heap.Inv, Match, IsRef;
      rt.BooksOnly();
      if tok != 0 {
        rt.RawBooked(tok);
        MatchLess(rt.books, al.live, al.blocks, tok);
        EightsRef(tok);
        if SizeOf(rt.heap[tok]) == words {
          r := rt.DcReuseOrAlloc(tok, words, tok);
          return;
        }
        al.FreeBlock(tok / 8, SizeOf(rt.heap[tok]));
      } else {
        rt.ZeroNotBooked();
        assert rt.books - {tok} == rt.books;
      }
      r := Replace(tok, words, mem);
    }

    method Replace(tok: Word, words: nat, mem: nat) returns (r: Word)
      requires rt.Valid() && al.Valid() && al.Tallied() && rt.freed == [] && Outside(rt.heap, rt.books, al.statics)
      requires Match(rt.books - {tok}, al.live, al.blocks)
      requires tok in rt.locals && (tok == 0 || (IsRaw(rt.heap, tok) && SizeOf(rt.heap[tok]) != words))
      requires 2 <= words && 8 * words < Allocator.TWO64 && al.Offered(mem, Allocator.ChunkFor(words))
      modifies rt, al, al.small, al.big, al.bits
      ensures r == 0 ==> words > Allocator.MAX_WORDS
      ensures r != 0 ==> Valid() && rt.locals == old(rt.locals) - multiset{tok} + multiset{r}
      ensures r != 0 ==> r !in old(rt.heap) - {tok}
      ensures r != 0 ==> RcRuntime.ReuseOrAlloc(old(rt.heap), tok, words, r) == (rt.heap, r)
    {
      hide Runtime.Valid, Allocator.Heap.Valid, Allocator.Heap.Tallied, Allocator.Heap.Inv;
      hide Allocator.Heap.Offered, Allocator.WordsFor, Match, Outside, IsRef;
      EightTimes(words);
      ghost var live, blocks, left := al.live, al.blocks, rt.books - {tok};
      var a := al.DcAllocRc(8 * words, mem);
      if a == 0 { return 0; }
      MatchSame(left, live, blocks, al.blocks);
      al.NotStatic(a);
      OutsideLess(rt.heap, rt.books, al.statics, tok);
      Unused(rt.heap - {tok}, left, al.statics, live, blocks, a);
      MatchMore(left, live, blocks, al.blocks, a);
      EightsRef(8 * a);
      OutsideMore(rt.heap - {tok}, (rt.heap - {tok})[8 * a := RawBlock(words)], left, al.statics, 8 * a, words);
      r := rt.DcReuseOrAlloc(tok, words, 8 * a);
    }

    // dc_ctor_step: the new block's address is not in the heap.
    method StepCtor(clo: Word, arg: Word, arity: nat, mem: nat, ghost cid: nat, ghost args: seq<Word>) returns (p: Word)
      requires Valid() && arg in rt.locals
      requires clo in rt.heap && rt.heap[clo].tag == T_CLOSURE && rt.heap[clo].words == StepWords(cid, args)
      requires 8 * StepSize(arity, |args|) < Allocator.TWO64
      requires al.Offered(mem, Allocator.ChunkFor(StepSize(arity, |args|)))
      modifies rt, al, al.small, al.big, al.bits
      ensures Valid() && (p == 0 <==> StepSize(arity, |args|) > Allocator.MAX_WORDS)
      ensures p == 0 ==> rt.heap == old(rt.heap) && rt.locals == old(rt.locals)
      ensures p != 0 ==> IsRef(p) && p !in old(rt.heap) && rt.locals == old(rt.locals) - multiset{arg} + multiset{p}
      ensures p != 0 ==> CtorStep(old(rt.heap), cid, arity, args, arg, p) == Ok(rt.heap)
    {
      hide Runtime.Valid, Allocator.Heap.Valid, Allocator.Heap.Tallied, Allocator.Heap.Inv, Allocator.Heap.Offered;
      hide Allocator.WordsFor, Match, Outside, CtorStep, IsRef;
      ghost var words := StepSize(arity, |args|);
      EightTimes(words);
      ghost var live, blocks := al.live, al.blocks;
      var count := |rt.heap[clo].words| - 4;
      var a := al.DcAllocRc(8 * StepSize(arity, count), mem);
      MatchSame(rt.books, live, blocks, al.blocks);
      if a == 0 { return 0; }
      al.NotStatic(a);
      Unused(rt.heap, rt.books, al.statics, live, blocks, a);
      MatchMore(rt.books, live, blocks, al.blocks, a);
      EightsRef(8 * a);
      ghost var h := rt.heap;
      p := rt.DcCtorStep(clo, arg, arity, 8 * a, cid, args);
      StepKeys(h, cid, arity, args, arg, p);
      OutsideMore(h, rt.heap, old(rt.books), al.statics, p, words);
    }

    // One turn of a chain of partial applications: the step, then the drop of
    // the closure it used, which nobody else owns. The arguments move.
    method Turn(clo: Word, arg: Word, arity: nat, mem: nat, ghost cid: nat, ghost args: seq<Word>) returns (p: Word)
      requires Valid() && multiset{clo, arg} <= rt.locals && clo in rt.heap && rt.heap[clo] == StepBlock(cid, args)
      requires clo !in args && clo != arg
      requires forall q :: q in rt.heap && rt.heap[q].rc != RC_IMMORTAL ==> rt.heap[q].rc + |args| < RC_IMMORTAL
      requires 8 * StepSize(arity, |args|) < Allocator.TWO64
      requires al.Offered(mem, Allocator.ChunkFor(StepSize(arity, |args|)))
      modifies rt, al, al.small, al.big, al.bits
      ensures Valid() && (p == 0 <==> StepSize(arity, |args|) > Allocator.MAX_WORDS)
      ensures p != 0 ==> IsRef(p) && p !in old(rt.heap)
      ensures p != 0 ==> rt.locals == old(rt.locals) - multiset{clo, arg} + multiset{p}
      ensures p != 0 ==> rt.heap == (old(rt.heap) - {clo})[p := NextBlock(cid, arity, args, arg)]
    {
      hide Runtime.Valid, Allocator.Heap.Valid, Allocator.Heap.Tallied, Allocator.Heap.Offered, Matched;
      hide NextBlock, StepSize;
      hide RcHeap.Drop, CtorStep, StepWords, IsRef;
      ghost var h, held, table := rt.heap, rt.locals, multiset(rt.globals[..]);
      rt.Accounts();
      p := StepCtor(clo, arg, arity, mem, cid, args);
      if p == 0 { return; }
      TurnLocals(held, table, clo, arg, p);
      TurnMoves(h, clo, cid, arity, args, arg, p, held - multiset{clo, arg} + table);
      Drop(clo);
    }

    // dc_gset: the entry overwritten is dropped.
    method Gset(i: nat, v: Word)
      requires Valid() && i < GLOBALS && v in rt.locals
      modifies rt, rt.globals, al, al.small, al.big, al.bits
      ensures Valid() && rt.locals == old(rt.locals) - multiset{v} && rt.globals[..] == old(rt.globals[..])[i := v]
      ensures RcHeap.Drop(old(rt.heap), old(rt.globals[i])) == Ok(rt.heap)
    {
      hide Runtime.Valid, Allocator.Heap.Valid, Allocator.Heap.Tallied, Match, RcHeap.Drop;
      rt.DcGset(i, v);
      GiveBack();
    }

    // Shutdown: when nothing leaks, every word obtained from malloc is free,
    // unused or an abandoned single word.
    method Shutdown() returns (leak: bool)
      requires Valid()
      modifies rt, rt.globals, al, al.small, al.big, al.bits
      ensures Valid() && (leak <==> al.live != {})
      ensures old(rt.locals) == multiset{} && NoneSticky(old(rt.heap), old(rt.dyn)) ==> !leak
      ensures !leak ==> al.blocks.Keys == al.free
      ensures !leak ==> al.total == Allocator.Sum(al.blocks) + (al.bumpEnd - al.bump) + al.lost
    {
      hide Runtime.Valid, Match, NoneSticky, Allocator.Sum, Allocator.Filed, Allocator.Linked, Allocator.Placed, SizeOf;
      leak := rt.DcRtShutdown();
      GiveBack();
      LiveIs();
      if al.live != {} {
        var a :| a in al.live;
        assert 8 * a in rt.dyn;
      }
      if exists b :: b in rt.dyn {
        var b :| b in rt.dyn;
        assert b / 8 in al.live;
      } else {
        assert rt.dyn == {};
      }
    }
  }

  lemma {:induction false} MatchSame(books: map<Word, nat>, live: set<nat>, blocks: Allocator.Blocks,
                                     blocks1: Allocator.Blocks)
    requires Match(books, live, blocks)
    requires forall x :: x in live && x in blocks ==> x in blocks1 && blocks1[x] == blocks[x]
    ensures Match(books, live, blocks1)
  {
  }

  ghost predicate Aligned(h: Heap) { forall b :: b in h ==> b > 0 && b % 8 == 0 }

  ghost function Layout(h: Heap): Allocator.Blocks
    requires Aligned(h)
  {
    map b | b in h :: b / 8 := SizeOf(h[b])
  }

  lemma {:induction false} LayoutOutside(h: Heap)
    requires Aligned(h)
    ensures Outside(h, map[], Layout(h))
  {
  }

  lemma {:induction false} EightsRef(w: Word)
    requires w > 0 && w % 8 == 0
    ensures IsRef(w)
  {
    assert w == 2 * (4 * (w / 8));
  }

  lemma {:induction false} EightTimes(words: nat)
    requires 2 <= words && 8 * words < Allocator.TWO64
    ensures Allocator.WordsFor(8 * words) == words
  {
  }
}

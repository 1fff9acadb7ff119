// Partial application in gen5/rt5.c: a constructor short of arguments is a
// closure holding those it has; each step copies them into the next closure.
module Trampoline {
  import opened RcHeap

  function MkInt(n: int): Word { n * 4 + 1 }
  function IntOf(w: Word): int { w / 4 }   // arithmetic shift right by two

  const CTOR_STEP: Word := 1   // stands for the code address of dc_ctor_step

  // Payload of a partial constructor: code, env size, then the tagged
  // constructor id and argument count, then the arguments.
  function StepWords(cid: nat, args: seq<Word>): seq<Word> {
    [CTOR_STEP, |args| + 2, MkInt(cid), MkInt(|args|)] + args
  }

  function StepBlock(cid: nat, args: seq<Word>): Block { Block(1, T_CLOSURE, StepWords(cid, args)) }

  function AdtBlock(cid: nat, args: seq<Word>): Block { Block(1, T_ADT, [cid] + args) }

  // What dc_ctor_step builds from args and one more argument.
  function NextBlock(cid: nat, arity: nat, args: seq<Word>, arg: Word): Block {
    if |args| + 1 == arity then AdtBlock(cid, args + [arg]) else StepBlock(cid, args + [arg])
  }

  // The words it asks for when the closure holds count arguments.
  function StepSize(arity: nat, count: nat): (n: nat)
    ensures n >= 3
  {
    if count + 1 == arity then 3 + count else 3 + count + 3
  }

  // dc_ctor_step on the closure at clo: dup the copied arguments, move arg in.
  function CtorStep(h: Heap, cid: nat, arity: nat, args: seq<Word>, arg: Word, p: Word): Outcome {
    match DupAll(h, args)
    case Fault => Fault
    case Ok(h1) => Ok(h1[p := NextBlock(cid, arity, args, arg)])
  }

  lemma {:induction false} StepKids(p: Word, cid: nat, args: seq<Word>)
    ensures Kids(p, StepBlock(cid, args)) == RefsIn(p, args)
  {
    var b := StepBlock(cid, args);
    assert b.words[2..] == [MkInt(cid), MkInt(|args|)] + args;
    RefsInAppend(p, [MkInt(cid), MkInt(|args|)], args);
    TaggedNoRefs(p, cid, |args|);
  }

  lemma {:induction false} TaggedNoRefs(p: Word, a: int, b: int)
    ensures RefsIn(p, [MkInt(a), MkInt(b)]) == []
  {
    assert !IsRef(MkInt(a)) && !IsRef(MkInt(b));
    assert [MkInt(a), MkInt(b)][1..] == [MkInt(b)];
    assert [MkInt(b)][1..] == [];
    assert RefsIn(p, [MkInt(b)]) == RefsIn(p, []);
  }

  lemma {:induction false} AdtKids(p: Word, cid: nat, args: seq<Word>)
    ensures Kids(p, AdtBlock(cid, args)) == RefsIn(p, args)
  {
    assert AdtBlock(cid, args).words[1..] == args;
  }

  lemma {:induction false} NextKids(p: Word, cid: nat, arity: nat, args: seq<Word>, arg: Word)
    ensures Kids(p, NextBlock(cid, arity, args, arg)) == RefsIn(p, args + [arg])
    ensures NextBlock(cid, arity, args, arg).rc == 1
  {
    StepKids(p, cid, args + [arg]);
    AdtKids(p, cid, args + [arg]);
  }

  // The references among ws, when none is p itself, are all of ws that count.
  lemma {:induction false} RefsInCount(p: Word, ws: seq<Word>, k: Word)
    requires IsRef(k) && k != p
    ensures multiset(RefsIn(p, ws))[k] == multiset(ws)[k]
  {
    if ws != [] {
      RefsInCount(p, ws[1..], k);
      assert ws == [ws[0]] + ws[1..];
    }
  }

  // ---------- one step and the drop of the closure it used ----------

  // A new block whose references are exactly those among args.
  ghost predicate Carries(b: Block, args: seq<Word>) { b.rc == 1 && forall p :: Kids(p, b) == RefsIn(p, args) }

  lemma {:induction false} StepCarries(cid: nat, args: seq<Word>)
    ensures Carries(StepBlock(cid, args), args)
  {
    hide Kids, StepWords;
    forall p ensures Kids(p, StepBlock(cid, args)) == RefsIn(p, args) { StepKids(p, cid, args); }
  }

  lemma {:induction false} NextCarries(cid: nat, arity: nat, args: seq<Word>, arg: Word)
    ensures Carries(NextBlock(cid, arity, args, arg), args + [arg])
  {
    hide Kids, NextBlock;
    NextKids(0, cid, arity, args, arg);
    forall p ensures Kids(p, NextBlock(cid, arity, args, arg)) == RefsIn(p, args + [arg]) {
      NextKids(p, cid, arity, args, arg);
    }
  }

  // The heap of a step on the closure at clo, which holds args and is the only
  // owner of itself; the step's new block goes to p.
  ghost predicate StepReady(h: Heap, clo: Word, args: seq<Word>, arg: Word, p: Word, roots: multiset<Word>) {
    && clo in h && Carries(h[clo], args)
    && Exact(h, roots + multiset{clo} + multiset{arg}) && Acyclic(h)
    && IsRef(p) && p !in h && p !in args && p != arg && clo !in args && clo != arg
    && forall q :: q in h && h[q].rc != RC_IMMORTAL ==> h[q].rc + |args| < RC_IMMORTAL
  }

  // The arguments move from the old closure into the new block nb: every count
  // is as before, and the old closure is gone.
  lemma {:induction false} StepMoves(h: Heap, clo: Word, nb: Block, args: seq<Word>, arg: Word, p: Word,
                                     roots: multiset<Word>)
    requires StepReady(h, clo, args, arg, p, roots) && Carries(nb, args + [arg])
    ensures DupAll(h, args).Ok? && Drop(DupAll(h, args).heap[p := nb], clo) == Ok((h - {clo})[p := nb])
    ensures Exact((h - {clo})[p := nb], roots + multiset{p}) && Acyclic((h - {clo})[p := nb])
  {
    hide Refs, Kids, IsRef, Acyclic, Owing, Exact, Drop, DropAll, DupAll, SubHeap;
    var owed := roots + multiset{clo} + multiset{arg};
    ArgsLive(h, clo, args, owed);
    DupAllExact(h, args, owed);
    var h1 := DupAll(h, args).heap;
    MoveIn(h1, p, nb, args, arg, roots + multiset{clo});
    SameAcyclic(h1, h);
    var h2 := h1[p := nb];
    AddAcyclic(h1, p, nb, owed + multiset(args));
    assert roots + multiset{p} + multiset{clo} == roots + multiset{clo} + multiset{p};
    DropExact(h2, clo, roots + multiset{p});
    MoveOut(h, clo, nb, args, arg, p, roots);
    var target := (h - {clo})[p := nb];
    SubTarget(h, h1, clo, args, p, nb);
    ExactUnique(Drop(h2, clo).heap, target, h2, roots + multiset{p});
    SubHeapAcyclic(target, h2);
  }

  lemma {:induction false} ArgsLive(h: Heap, clo: Word, args: seq<Word>, owed: multiset<Word>)
    requires clo in h && Carries(h[clo], args) && clo !in args && Exact(h, owed)
    ensures forall w :: w in args && IsRef(w) ==> w in h
  {
    hide Kids, Refs;
    RefsInRefs(clo, args);
  }

  lemma {:induction false} SameAcyclic(h1: Heap, h: Heap)
    requires SameBlocks(h1, h) && Acyclic(h)
    ensures Acyclic(h1)
  {
    hide Kids;
    var rank :| Ranked(h, rank);
    forall p | p in h1 ensures Kids(p, h1[p]) == Kids(p, h[p]) { SameKids(p, h1[p], h[p]); }
    assert Ranked(h1, rank);
  }

  // A block put at a fresh address closes no cycle.
  lemma {:induction false} AddAcyclic(h: Heap, p: Word, b: Block, owed: multiset<Word>)
    requires Exact(h, owed) && Acyclic(h) && p !in h
    ensures Acyclic(h[p := b])
  {
    hide Kids, IsRef;
    NotOwnKid(p, b);
    var rank :| Ranked(h, rank);
    var m := MaxRank(h, rank);
    var r1 := (map q | q in h :: if q in rank then rank[q] else 0)[p := m + 1];
    hide Refs;
    assert Ranked(h[p := b], r1);
  }

  // Storing args and arg in a new block at p moves their references into it.
  lemma {:induction false} MoveIn(h: Heap, p: Word, nb: Block, args: seq<Word>, arg: Word, owed: multiset<Word>)
    requires Exact(h, owed + multiset{arg} + multiset(args)) && p !in h && IsRef(p) && p !in args && p != arg
    requires Carries(nb, args + [arg])
    ensures Exact(h[p := nb], owed + multiset{p})
  {
    hide Kids, IsRef, RefsIn, Refs, Carries;
    NextRefs(p, nb, args, arg);
    if Refs(h)[p] > 0 { CountedKid(h, p); }
    RefsAdd(h, p, nb);
    assert Refs(h[p := nb]) == multiset(Kids(p, nb)) + Refs(h);
    MoveInShape(h, p, nb, owed + multiset{arg} + multiset(args));
  }

  lemma {:induction false} MoveInShape(h: Heap, p: Word, b: Block, owed: multiset<Word>)
    requires Exact(h, owed) && p !in h && IsRef(p) && b.rc == 1
    requires forall k :: k in Kids(p, b) ==> IsRef(k) && k in owed
    ensures Shaped(h[p := b])
  {
    hide Kids, IsRef, Refs;
  }

  // The new block's references are the arguments'.
  lemma {:induction false} NextRefs(p: Word, nb: Block, args: seq<Word>, arg: Word)
    requires p !in args && p != arg && Carries(nb, args + [arg])
    ensures var kids := Kids(p, nb);
            && (forall k :: IsRef(k) && k != p ==> multiset(kids)[k] == (multiset{arg} + multiset(args))[k])
            && multiset(kids)[p] == 0
            && (forall k, owed: multiset<Word> :: k in kids ==> IsRef(k) && k in owed + multiset{arg} + multiset(args))
    ensures nb.rc == 1
  {
    hide IsRef, RefsIn, Kids;
    var all := args + [arg];
    assert Kids(p, nb) == RefsIn(p, all);
    assert multiset(all) == multiset(args) + multiset{arg};
    RefsInRefs(p, all);
    assert p !in RefsIn(p, all);
    forall k | IsRef(k) && k != p
      ensures multiset(RefsIn(p, all))[k] == (multiset{arg} + multiset(args))[k]
    {
      RefsInCount(p, all, k);
    }
  }

  // Seen from the heap before the step: the block at p has taken over the
  // references of the closure at clo, and arg.
  lemma {:induction false} MoveOut(h: Heap, clo: Word, nb: Block, args: seq<Word>, arg: Word, p: Word,
                                   roots: multiset<Word>)
    requires StepReady(h, clo, args, arg, p, roots) && Carries(nb, args + [arg])
    ensures Exact((h - {clo})[p := nb], roots + multiset{p})
  {
    assert Kids(clo, h[clo]) == RefsIn(clo, args);
    assert (roots + multiset{arg}) + multiset{clo} == roots + multiset{clo} + multiset{arg};
    UnlinkExact(h, clo, roots + multiset{arg});
    var h1 := h - {clo};
    forall k | IsRef(k)
      ensures (roots + multiset{arg} + multiset(Kids(clo, h[clo])))[k] == (roots + multiset{arg} + multiset(args))[k]
    {
      if k != clo { RefsInCount(clo, args, k); } else { RefsInRefs(clo, args); }
    }
    RootsExt(h1, roots + multiset{arg} + multiset(Kids(clo, h[clo])), roots + multiset{arg} + multiset(args),
        multiset{});
    MoveIn(h1, p, nb, args, arg, roots);
  }

  lemma {:induction false} SubTarget(h: Heap, h1: Heap, clo: Word, args: seq<Word>, p: Word, nb: Block)
    requires clo in h && h[clo].rc == 1 && p !in h && nb.rc == 1
    requires DupAll(h, args) == Ok(h1) && SameBlocks(h1, h) && clo !in args
    requires forall q :: q in h && h[q].rc != RC_IMMORTAL ==> h[q].rc + |args| < RC_IMMORTAL
    ensures SubHeap((h - {clo})[p := nb], h1[p := nb])
  {
    forall q | q in h ensures h1[q].rc == RC_IMMORTAL <==> h[q].rc == RC_IMMORTAL { DupAllUnsaturated(h, args, q); }
    assert h[clo].rc != RC_IMMORTAL;
  }

  // ---------- a whole chain of steps ----------

  // Apply the closure at clo (holding done) to the arguments rest in turn,
  // dropping each closure after use; ps are the addresses of the new blocks.
  function ApplyChain(h: Heap, clo: Word, cid: nat, done: seq<Word>, rest: seq<Word>, ps: seq<Word>): Outcome
    requires |ps| == |rest|
    decreases |rest|
  {
    if rest == [] then Ok(h)
    else match CtorStep(h, cid, |done| + |rest|, done, rest[0], ps[0])
      case Fault => Fault
      case Ok(h1) =>
        match Drop(h1, clo)
        case Fault => Fault
        case Ok(h2) => ApplyChain(h2, ps[0], cid, done + [rest[0]], rest[1..], ps[1..])
  }

  // Addresses the allocator may return in turn: none is live when it is
  // returned. Of the chain's own blocks only the latest is; the earlier ones
  // were freed, and their memory may come back.
  ghost predicate FreshChain(live: set<Word>, clo: Word, ps: seq<Word>)
    decreases ps
  {
    ps == [] || (IsRef(ps[0]) && ps[0] !in live && ps[0] != clo && FreshChain(live, ps[0], ps[1..]))
  }

  // No live address is a fresh one, whether it is held outside or in the closure.
  lemma {:induction false} NotFresh(h: Heap, clo: Word, cid: nat, done: seq<Word>, rest: seq<Word>, p: Word,
                                    owed: multiset<Word>)
    requires Exact(h, owed + multiset(rest)) && IsRef(p) && p !in h
    requires clo in h && h[clo].tag == T_CLOSURE && h[clo].words == StepWords(cid, done)
    ensures p !in done + rest
  {
    hide Kids, Refs;
    EnvLive(h, clo, cid, done, owed + multiset(rest));
    assert p in rest ==> p in owed + multiset(rest);
  }

  // One turn of a chain: the step, and the drop of the closure it used.
  lemma {:induction false} TurnMoves(h: Heap, clo: Word, cid: nat, arity: nat, args: seq<Word>, arg: Word, p: Word,
                                     roots: multiset<Word>)
    requires Exact(h, roots + multiset{clo} + multiset{arg}) && Acyclic(h) && IsRef(p) && p !in h
    requires clo in h && h[clo] == StepBlock(cid, args) && clo !in args && clo != arg
    requires forall q :: q in h && h[q].rc != RC_IMMORTAL ==> h[q].rc + |args| < RC_IMMORTAL
    ensures var o := CtorStep(h, cid, arity, args, arg, p);
            o.Ok? && Drop(o.heap, clo) == Ok((h - {clo})[p := NextBlock(cid, arity, args, arg)])
    ensures Exact((h - {clo})[p := NextBlock(cid, arity, args, arg)], roots + multiset{p})
    ensures Acyclic((h - {clo})[p := NextBlock(cid, arity, args, arg)])
    ensures p !in args && p != arg
  {
    hide Exact, Acyclic, Kids, IsRef, Drop, DupAll, NextBlock;
    assert roots + multiset{clo} + multiset{arg} == roots + multiset{clo} + multiset([arg]);
    NotFresh(h, clo, cid, args, [arg], p, roots + multiset{clo});
    StepCarries(cid, args);
    NextCarries(cid, arity, args, arg);
    StepMoves(h, clo, NextBlock(cid, arity, args, arg), args, arg, p, roots);
  }

  // Applying a constructor to its arguments one at a time yields exactly the
  // block of all of them in order: each closure in between is freed and each
  // argument's reference ends up in the block. base is the heap without the
  // closure; counts must stay clear of saturation.
  lemma {:induction false} PartialApplication(base: Heap, clo: Word, cid: nat, done: seq<Word>, rest: seq<Word>,
                                              ps: seq<Word>, roots: multiset<Word>)
    requires |ps| == |rest| > 0 && clo !in base && clo !in done + rest
    requires var h := base[clo := StepBlock(cid, done)];
             Exact(h, roots + multiset{clo} + multiset(rest)) && Acyclic(h) && FreshChain(base.Keys, clo, ps)
    requires forall q :: q in base && base[q].rc != RC_IMMORTAL ==> base[q].rc + |done| + |rest| < RC_IMMORTAL
    requires 1 + |done| + |rest| < RC_IMMORTAL
    ensures ApplyChain(base[clo := StepBlock(cid, done)], clo, cid, done, rest, ps)
         == Ok(base[ps[|ps| - 1] := AdtBlock(cid, done + rest)])
    decreases |rest|
  {
    hide Exact, Acyclic, Kids, IsRef, Drop, CtorStep, StepBlock;
    var h := base[clo := StepBlock(cid, done)];
    var arg, p := rest[0], ps[0];
    ChainStep(base, clo, cid, done, rest, ps, roots);
    if |rest| > 1 {
      assert (done + [arg]) + rest[1..] == done + rest;
      PartialApplication(base, p, cid, done + [arg], rest[1..], ps[1..], roots);
    } else {
      assert done + rest == done + [arg];
    }
  }

  // The first step of the chain.
  lemma {:induction false} ChainStep(base: Heap, clo: Word, cid: nat, done: seq<Word>, rest: seq<Word>,
                                     ps: seq<Word>, roots: multiset<Word>)
    requires |ps| == |rest| > 0 && clo !in base && clo !in done + rest
    requires var h := base[clo := StepBlock(cid, done)];
             Exact(h, roots + multiset{clo} + multiset(rest)) && Acyclic(h) && FreshChain(base.Keys, clo, ps)
    requires forall q :: q in base && base[q].rc != RC_IMMORTAL ==> base[q].rc + |done| + |rest| < RC_IMMORTAL
    requires 1 + |done| + |rest| < RC_IMMORTAL
    ensures var o := CtorStep(base[clo := StepBlock(cid, done)], cid, |done| + |rest|, done, rest[0], ps[0]);
            var h1 := base[ps[0] := NextBlock(cid, |done| + |rest|, done, rest[0])];
            && o.Ok? && Drop(o.heap, clo) == Ok(h1)
            && Exact(h1, roots + multiset{ps[0]} + multiset(rest[1..])) && Acyclic(h1)
    ensures ps[0] !in done + rest
  {
    hide Exact, Acyclic, Kids, IsRef, Drop, DupAll, NextBlock;
    var h, later := base[clo := StepBlock(cid, done)], roots + multiset(rest[1..]);
    assert rest == [rest[0]] + rest[1..];
    assert roots + multiset{clo} + multiset(rest) == later + multiset{clo} + multiset{rest[0]};
    assert rest[0] in done + rest && forall w :: w in done ==> w in done + rest;
    NotFresh(h, clo, cid, done, rest, ps[0], roots + multiset{clo});
    TurnMoves(h, clo, cid, |done| + |rest|, done, rest[0], ps[0], later);
    assert h - {clo} == base;
    assert later + multiset{ps[0]} == roots + multiset{ps[0]} + multiset(rest[1..]);
  }

  // ---------- a chain that starts from a shared closure ----------

  // The first closure is borrowed, as by a global slot or any other owner, and
  // not dropped; the ones made on the way are.
  function ApplyShared(h: Heap, cid: nat, done: seq<Word>, rest: seq<Word>, ps: seq<Word>): Outcome
    requires |ps| == |rest| > 0
  {
    match CtorStep(h, cid, |done| + |rest|, done, rest[0], ps[0])
    case Fault => Fault
    case Ok(h1) => ApplyChain(h1, ps[0], cid, done + [rest[0]], rest[1..], ps[1..])
  }

  // A closure's environment is live while the closure is.
  lemma {:induction false} EnvLive(h: Heap, clo: Word, cid: nat, done: seq<Word>, owed: multiset<Word>)
    requires Exact(h, owed) && clo in h && h[clo].tag == T_CLOSURE && h[clo].words == StepWords(cid, done)
    ensures forall w :: w in done && IsRef(w) ==> w in h
  {
    hide Kids, Refs;
    StepKids(clo, cid, done);
    SameKids(clo, h[clo], StepBlock(cid, done));
    RefsInRefs(clo, done);
  }

  // A new block over copies of args and an owned arg: the copied arguments gain
  // a reference, everything else is as it was.
  lemma {:induction false} BorrowedStep(h: Heap, nb: Block, args: seq<Word>, arg: Word, p: Word, roots: multiset<Word>)
    requires Exact(h, roots + multiset{arg}) && Acyclic(h) && IsRef(p) && p !in h && p !in args && p != arg
    requires Carries(nb, args + [arg]) && forall w :: w in args && IsRef(w) ==> w in h
    ensures DupAll(h, args).Ok? && SameBlocks(DupAll(h, args).heap, h)
    ensures var h2 := DupAll(h, args).heap[p := nb]; Exact(h2, roots + multiset{p}) && Acyclic(h2)
  {
    hide Exact, Acyclic, IsRef, DupAll, Carries;
    DupAllExact(h, args, roots + multiset{arg});
    var h1 := DupAll(h, args).heap;
    MoveIn(h1, p, nb, args, arg, roots);
    SameAcyclic(h1, h);
    AddAcyclic(h1, p, nb, roots + multiset{arg} + multiset(args));
  }

  // Counts grow by at most one for each copied argument.
  lemma {:induction false} DupAllGrows(h: Heap, ws: seq<Word>)
    requires DupAll(h, ws).Ok?
    ensures var h1 := DupAll(h, ws).heap;
            h1.Keys == h.Keys && forall q :: q in h && h1[q].rc != RC_IMMORTAL ==>
                h[q].rc != RC_IMMORTAL && h1[q].rc <= h[q].rc + |ws|
    decreases |ws|
  {
    if ws != [] { DupAllGrows(Dup(h, ws[0]).heap, ws[1..]); }
  }

  lemma {:induction false} StepKeys(h: Heap, cid: nat, arity: nat, args: seq<Word>, arg: Word, p: Word)
    requires CtorStep(h, cid, arity, args, arg, p).Ok?
    ensures CtorStep(h, cid, arity, args, arg, p).heap.Keys == h.Keys + {p}
  {
    hide NextBlock, DupAll;
    DupAllGrows(h, args);
  }

  // Applying a shared partial constructor to its remaining arguments one at a
  // time: the block of all arguments in order, one more reference to each
  // argument the closure held, and the closure untouched.
  lemma {:induction false} SharedApplication(h: Heap, clo: Word, cid: nat, done: seq<Word>, rest: seq<Word>,
                                             ps: seq<Word>, roots: multiset<Word>)
    requires |ps| == |rest| > 0 && Exact(h, roots + multiset(rest)) && Acyclic(h) && FreshChain(h.Keys, clo, ps)
    requires clo in h && h[clo].tag == T_CLOSURE && h[clo].words == StepWords(cid, done)
    requires forall q :: q in h && h[q].rc != RC_IMMORTAL ==> h[q].rc + 2 * |done| + |rest| < RC_IMMORTAL
    requires 1 + |done| + |rest| < RC_IMMORTAL
    ensures DupAll(h, done).Ok? && SameBlocks(DupAll(h, done).heap, h)
    ensures (clo !in done ==> DupAll(h, done).heap[clo] == h[clo])
    ensures ApplyShared(h, cid, done, rest, ps)
         == Ok(DupAll(h, done).heap[ps[|ps| - 1] := AdtBlock(cid, done + rest)])
  {
    hide Exact, Acyclic, IsRef, CtorStep, StepWords, DupAll, NextBlock, ApplyChain, Carries;
    var arg, p, arity := rest[0], ps[0], |done| + |rest|;
    var later := roots + multiset(rest[1..]);
    assert rest == [arg] + rest[1..];
    assert roots + multiset(rest) == later + multiset{arg};
    NotFresh(h, clo, cid, done, rest, p, roots);
    assert arg in done + rest && forall w :: w in rest[1..] || w in done ==> w in done + rest;
    EnvLive(h, clo, cid, done, roots + multiset(rest));
    NextCarries(cid, arity, done, arg);
    BorrowedStep(h, NextBlock(cid, arity, done, arg), done, arg, p, later);
    StepIs(h, cid, arity, done, arg, p);
    var base := DupAll(h, done).heap;
    DupAllGrows(h, done);
    if clo !in done { DupAllSame(h, done, clo); }
    assert done + rest == (done + [arg]) + rest[1..];
    NextIs(cid, arity, done, rest);
    if |rest| > 1 {
      assert later + multiset{p} == roots + multiset{p} + multiset(rest[1..]);
      PartialApplication(base, p, cid, done + [arg], rest[1..], ps[1..], roots);
    } else {
      ChainEnd(base, p, cid, done + [arg], AdtBlock(cid, done + rest));
    }
  }

  lemma {:induction false} StepIs(h: Heap, cid: nat, arity: nat, done: seq<Word>, arg: Word, p: Word)
    requires DupAll(h, done).Ok?
    ensures CtorStep(h, cid, arity, done, arg, p) == Ok(DupAll(h, done).heap[p := NextBlock(cid, arity, done, arg)])
  {
  }

  lemma {:induction false} ChainEnd(base: Heap, p: Word, cid: nat, done: seq<Word>, b: Block)
    ensures ApplyChain(base[p := b], p, cid, done, [], []) == Ok(base[p := b])
  {
  }

  lemma {:induction false} NextIs(cid: nat, arity: nat, done: seq<Word>, rest: seq<Word>)
    requires rest != [] && arity == |done| + |rest|
    ensures NextBlock(cid, arity, done, rest[0])
         == if |rest| == 1 then AdtBlock(cid, done + rest) else StepBlock(cid, done + [rest[0]])
  {
    if |rest| == 1 { assert done + rest == done + [rest[0]]; }
  }

  lemma {:induction false} DupAllSame(h: Heap, ws: seq<Word>, q: Word)
    requires DupAll(h, ws).Ok? && q in h && q !in ws
    ensures q in DupAll(h, ws).heap && DupAll(h, ws).heap[q] == h[q]
    decreases |ws|
  {
    if ws != [] { DupAllSame(Dup(h, ws[0]).heap, ws[1..], q); }
  }
}

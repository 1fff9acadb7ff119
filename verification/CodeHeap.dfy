// Runtime steps keep every block within the allocator's size limit.
module CodeHeap {
  import opened Types
  import opened RcHeap
  import opened Trampoline
  import opened Oir
  import opened CodeOperands
  import RcRuntime

  lemma {:induction false} DropHeap(h: Heap, v: Word)
    requires HeapOk(h)
    ensures Drop(h, v).Ok? ==> HeapOk(Drop(h, v).heap)
    decreases |h|, 0, 0
  {
    hide Kids, IsRef;
    if IsRef(v) && v in h && h[v].rc == 1 { DropAllHeap(h - {v}, Kids(v, h[v])); }
  }

  lemma {:induction false} DropAllHeap(h: Heap, ws: seq<Word>)
    requires HeapOk(h)
    ensures DropAll(h, ws).Ok? ==> HeapOk(DropAll(h, ws).heap)
    decreases |h|, 1, |ws|
  {
    hide HeapOk;
    if ws != [] {
      DropHeap(h, ws[0]);
      var o := Drop(h, ws[0]);
      if o.Ok? { DropAllHeap(o.heap, ws[1..]); }
    }
  }

  lemma {:induction false} DupHeap(h: Heap, v: Word)
    requires HeapOk(h)
    ensures Dup(h, v).Ok? ==> HeapOk(Dup(h, v).heap)
  {
  }

  lemma {:induction false} DupAllHeap(h: Heap, ws: seq<Word>)
    requires HeapOk(h)
    ensures DupAll(h, ws).Ok? ==> HeapOk(DupAll(h, ws).heap)
    decreases |ws|
  {
    hide HeapOk;
    if ws != [] {
      DupHeap(h, ws[0]);
      if Dup(h, ws[0]).Ok? { DupAllHeap(Dup(h, ws[0]).heap, ws[1..]); }
    }
  }

  lemma {:induction false} DupOwnedHeap(h: Heap, vs: seq<Word>, modes: seq<bool>, i: nat)
    requires HeapOk(h)
    ensures DupOwned(h, vs, modes, i).Ok? ==> HeapOk(DupOwned(h, vs, modes, i).heap)
    decreases |vs| - i
  {
    hide HeapOk;
    if i < |vs| {
      DupHeap(h, vs[i]);
      if Mode(modes, i) {
        if Dup(h, vs[i]).Ok? { DupOwnedHeap(Dup(h, vs[i]).heap, vs, modes, i + 1); }
      } else {
        DupOwnedHeap(h, vs, modes, i + 1);
      }
    }
  }

  // Results keep the limit.
  ghost predicate Small(r: Res) { r.Done? ==> HeapOk(r.w.heap) }

  lemma {:induction false} DropReuseHeap(w: World, v: Word)
    requires HeapOk(w.heap)
    ensures Small(RtDropReuse(w, v))
  {
    hide Kids, Drop, DropAll;
    if RcRuntime.IsToken(w.heap, v) {
      DropAllHeap(w.heap[v := RawBlock(SizeOf(w.heap[v]))], Kids(v, w.heap[v]));
    } else {
      DropHeap(w.heap, v);
    }
  }

  lemma {:induction false} BuildHeap(P: Prog, w: World, tag: int, words: seq<Word>)
    requires HeapOk(w.heap) && words != [] && 0 <= tag < 128
    ensures Small(Build(P, w, tag, words))
  {
  }

  lemma {:induction false} BuildWithHeap(P: Prog, w: World, tok: Option<Word>, tag: int, words: seq<Word>)
    requires HeapOk(w.heap) && words != [] && 0 <= tag < 128
    ensures Small(BuildWith(P, w, tok, tag, words))
  {
    hide Build;
    BuildHeap(P, w, tag, words);
  }

  lemma {:induction false} BuiltinHeap(P: Prog, w: World, name: string, vs: seq<Word>)
    requires HeapOk(w.heap)
    ensures Small(RtBuiltin(P, w, name, vs))
  {
    hide Build, HeapOk;
    var r := P.bi(w.tick, name, vs, w.heap);
    if r.BStr? && r.payload != [] { BuildHeap(P, w.(tick := w.tick + 1), T_STRING, r.payload); }
  }

  lemma {:induction false} AtomsHeap(P: Prog, pt: int, env: Env, w: World, atoms: seq<OAtom>, flags: seq<bool>)
    requires HeapOk(w.heap)
    ensures var r := EvAtoms(P, pt, env, w, atoms, flags); r.Vals? ==> HeapOk(r.w.heap)
    decreases |atoms|
  {
    hide HeapOk, AtomVal;
    if atoms != [] {
      var v := AtomVal(P, pt, env, w, atoms[0]);
      if v.Some? {
        DupHeap(w.heap, v.value);
        var w1 := if atoms[0].AGlob? && Flag(flags) then RtDup(w, v.value) else Some(w);
        if w1.Some? { AtomsHeap(P, pt + AtomIds(atoms[0]), env, w1.value, atoms[1..], Later(flags)); }
      }
    }
  }

  lemma {:induction false} BinHeap(P: Prog, n: nat, w: World, op: string, a: Word, b: Word)
    requires HeapOk(w.heap)
    ensures Small(EvBin(P, n, w, op, a, b))
  {
    hide HeapOk, RtBuiltin, ValEq, IntOp;
    BuiltinHeap(P, w, "str_concat", [a, b]);
  }

  lemma {:induction false} ClosureHeap(P: Prog, pt: int, env: Env, w: World, lam: Lam, self: Option<string>)
    requires HeapOk(w.heap)
    ensures Small(MkClosure(P, pt, env, w, lam, self))
  {
    hide Build, Lookups;
    if SLam(pt) in P.addr {
      forall vs: seq<Word> ensures Small(Build(P, w, T_CLOSURE, [P.addr[SLam(pt)], |vs|] + vs)) {
        BuildHeap(P, w, T_CLOSURE, [P.addr[SLam(pt)], |vs|] + vs);
      }
    }
  }

  lemma {:induction false} CtorStepHeap(P: Prog, w: World, words: seq<Word>, arg: Word)
    requires HeapOk(w.heap)
    ensures Small(RtCtorStep(P, w, words, arg))
  {
    hide DupAll, ArityOf;
    if |words| >= 4 { DupAllHeap(w.heap, words[4..]); }
  }

  lemma {:induction false} BuiltinStepHeap(P: Prog, w: World, words: seq<Word>, arg: Word)
    requires HeapOk(w.heap)
    ensures Small(RtBuiltinStep(P, w, words, arg))
  {
    hide HeapOk, RtBuiltin, DupAll, Build, BiArity, Drop;
    if |words| >= 4 {
      var idx, args := IntOf(words[2]), words[4..];
      var name := BiName(idx);
      if name.Some? {
        BuiltinHeap(P, w, name.value, args + [arg]);
        var r := RtBuiltin(P, w, name.value, args + [arg]);
        if r.Done? { DropHeap(r.w.heap, arg); }
      }
      DupAllHeap(w.heap, args);
      var h := DupAll(w.heap, args);
      if h.Ok? { BuildHeap(P, w.(heap := h.heap), T_CLOSURE, BiStepWords(idx, args + [arg])); }
    }
  }
}

// The ownership IR of gen5/g5_oir.dc and what a run of it does to the counted
// heap, call by call. Code and data symbols are numbered by the id counter of
// the code generator, so a run names the same addresses as the emitted code.
module Oir {
  import opened Types
  import opened Syntax
  import opened RcHeap
  import opened Trampoline
  import RcRuntime

  // ---------- syntax ----------

  datatype OAtom =
    | AVar(x: string)
    | AInt(n: int)
    | ABool(b: bool)
    | AStr(s: string)
    | AUnit
    | AGlob(glob: string)
    | ANull(con: string)

  datatype OPrim =
    | PAtom(a: OAtom)
    | PApp(f: OAtom, a: OAtom)
    | PCall(fn: string, args: seq<OAtom>)
    | PBi(bi: string, args: seq<OAtom>)
    | PMkCtor(con: string, args: seq<OAtom>, tok: string)
    | PMkTup(args: seq<OAtom>, tok: string)
    | PLam(pat: Pat, body: OExpr, caps: seq<string>)
    | PBin(op: string, a: OAtom, b: OAtom)
    | PBlock(blk: OExpr)

  datatype OExpr =
    | ORet(a: OAtom)
    | OLet(x: string, prim: OPrim, rest: OExpr)
    | OLetRec(x: string, prim: OPrim, rest: OExpr)
    | OIf(cond: OAtom, thn: OExpr, els: OExpr)
    | OCase(scrut: OAtom, brs: seq<OBranch>)
    | ODup(x: string, rest: OExpr)
    | ODrop(x: string, rest: OExpr)
    | ODropReuse(x: string, tok: string, rest: OExpr)

  datatype OBranch = OBranch(pat: Pat, body: OExpr)

  datatype Lam = Lam(pat: Pat, body: OExpr, caps: seq<string>)

  datatype ODef = ODef(params: seq<Pat>, body: OExpr, modes: seq<bool>, direct: bool)

  type Defs = seq<(string, ODef)>   // a program's definitions, in order

  // ---------- program image and outside world ----------

  // Symbols whose address is taken.
  datatype Sym =
    | SStr(id: int)                  // interned string literal
    | SUnit
    | SNull(con: string)             // nullary constructor instance
    | SLam(id: int)
    | SLevel(fn: string, i: int)     // curried level of a definition

  predicate IsCode(s: Sym) { s.SLam? || s.SLevel? }

  datatype BiOut = BInt(n: int) | BUnit | BStr(payload: seq<Word>) | BExit

  // addr is the linker's layout; base[f] the id counter where the routine
  // holding f's body starts. newAt, bi and junk are what the surroundings
  // answer at a given tick: an address for a new block, a builtin's result,
  // the old contents of a new stack frame.
  datatype Prog = Prog(
    addr: map<Sym, Word>,
    lams: map<int, Lam>,
    defs: map<string, ODef>,
    base: map<string, int>,
    cid: map<string, nat>,
    ar: map<string, nat>,
    slots: map<string, nat>,
    newAt: (int, Heap) -> Word,
    bi: (int, string, seq<Word>, Heap) -> BiOut,
    junk: int -> seq<Word>)

  // globs is the global variable table, 0 where nothing was stored yet; ctors
  // holds the arities registered so far, by constructor id.
  datatype World = World(heap: Heap, globs: seq<Word>, tick: int, ctors: map<int, nat>)

  // Stuck: an ill-typed step. Corrupt: a block that is not live was touched, or
  // a count underflowed. The others are the errors a well-typed run can end in.
  datatype Why = Stuck | NoMatch | DivZero | NoCompare | TooLarge | Exited | OutOfFuel | Corrupt

  datatype Res = Done(v: Word, w: World) | Stop(why: Why)

  type Env = map<string, Word>

  function Find<K, V>(m: map<K, V>, k: K): Option<V> { if k in m then Some(m[k]) else None }

  // The allocator hands out addresses that are not in use.
  ghost predicate AllocatorOk(P: Prog) { forall t: int, h: Heap :: IsRef(P.newAt(t, h)) && P.newAt(t, h) !in h }

  // Code addresses resolve to the symbol laid out there.
  ghost function CodeAt(P: Prog, c: Word): Option<Sym> {
    if exists s :: s in P.addr && IsCode(s) && P.addr[s] == c then
      var s :| s in P.addr && IsCode(s) && P.addr[s] == c;
      Some(s)
    else None
  }

  // ---------- values ----------

  const W62: int := 0x4000_0000_0000_0000
  const TRUE: Word := 7
  const FALSE: Word := 3

  function Wrap62(n: int): int { (n + W62 / 2) % W62 - W62 / 2 }

  function IntWord(n: int): Word { MkInt(Wrap62(n)) }

  function BoolWord(b: bool): Word { if b then TRUE else FALSE }

  predicate IsInt(w: Word) { w % 4 == 1 }
  predicate IsBool(w: Word) { w % 4 == 3 }

  // C and ARM division truncates toward zero.
  function TruncDiv(a: int, b: int): int
    requires b != 0
  {
    if a >= 0 then a / b else -((-a) / b)
  }

  // ---------- numbering ----------

  function AtomIds(a: OAtom): nat { if a.AStr? then 1 else 0 }

  function AtomsIds(atoms: seq<OAtom>): nat {
    if atoms == [] then 0 else AtomIds(atoms[0]) + AtomsIds(atoms[1..])
  }

  function PatIds(p: Pat): nat {
    match p
    case PStr(_) => 1
    case PTup(ps) => PatsIds(ps)
    case PCtor(_, ps) => PatsIds(ps)
    case _ => 0
  }

  function PatsIds(ps: seq<Pat>): nat {
    if ps == [] then 0 else PatIds(ps[0]) + PatsIds(ps[1..])
  }

  predicate Branching(op: string) { op in ["<", ">", "<=", ">=", "&&", "||"] }

  function PrimIds(p: OPrim): nat {
    match p
    case PAtom(a) => AtomsIds([a])
    case PApp(f, a) => AtomsIds([f, a])
    case PCall(_, args) => AtomsIds(args)
    case PBi(_, args) => AtomsIds(args)
    case PMkCtor(_, args, _) => AtomsIds(args)
    case PMkTup(args, _) => AtomsIds(args)
    case PLam(pat, body, _) => 1 + PatIds(pat) + ExprIds(body)
    case PBin(op, a, b) => AtomsIds([a, b]) + if Branching(op) then 1 else 0
    case PBlock(e) => 1 + ExprIds(e)
  }

  function ExprIds(e: OExpr): nat {
    match e
    case ORet(a) => AtomsIds([a])
    case OLet(_, p, rest) => PrimIds(p) + ExprIds(rest)
    case OLetRec(_, p, rest) => PrimIds(p) + ExprIds(rest)
    case OIf(a, e1, e2) => 1 + AtomIds(a) + ExprIds(e1) + ExprIds(e2)
    case OCase(a, brs) => AtomIds(a) + BrsIds(brs)
    case ODup(_, rest) => ExprIds(rest)
    case ODrop(_, rest) => ExprIds(rest)
    case ODropReuse(_, _, rest) => ExprIds(rest)
  }

  function BrsIds(brs: seq<OBranch>): nat {
    if brs == [] then 0
    else
      var br := brs[0];
      assert brs decreases to br;
      1 + PatIds(br.pat) + ExprIds(br.body) + BrsIds(brs[1..])
  }

  // ---------- runtime calls ----------

  function RtDup(w: World, v: Word): Option<World> {
    match Dup(w.heap, v) case Fault => None case Ok(h) => Some(w.(heap := h))
  }

  function RtDrop(w: World, v: Word): Option<World> {
    match Drop(w.heap, v) case Fault => None case Ok(h) => Some(w.(heap := h))
  }

  // dc_gset: the table takes the reference over and drops what it held.
  function RtGset(w: World, slot: nat, v: Word): Option<World>
    requires slot < |w.globs|
  {
    var w1 := w.(globs := w.globs[slot := v]);
    if w.globs[slot] == 0 then Some(w1) else RtDrop(w1, w.globs[slot])
  }

  ghost function RtDropReuse(w: World, v: Word): Res {
    var (o, tok) := RcRuntime.DropReuse(w.heap, v);
    match o case Fault => Stop(Corrupt) case Ok(h) => Done(tok, w.(heap := h))
  }

  const MAX_WORDS: nat := 0xFFFF_FFFF

  // dc_alloc_rc for size words.
  function RtAlloc(P: Prog, w: World, size: nat): Res
    requires size >= 2
  {
    if size > MAX_WORDS then Stop(TooLarge)
    else
      var p := P.newAt(w.tick, w.heap);
      Done(p, w.(heap := w.heap[p := RawBlock(size)], tick := w.tick + 1))
  }

  // dc_reuse_or_alloc.
  ghost function RtReuseOrAlloc(P: Prog, w: World, tok: Word, size: nat): Res
    requires size >= 2
  {
    if IsRef(tok) && tok !in w.heap then Stop(Corrupt)
    else if IsRef(tok) && SizeOf(w.heap[tok]) == size then Done(tok, w)
    else if IsRef(tok) then RtAlloc(P, w.(heap := w.heap - {tok}), size)
    else RtAlloc(P, w, size)
  }

  // A builtin borrows its arguments and returns an immediate, the unit block
  // or a fresh string.
  function RtBuiltin(P: Prog, w: World, name: string, args: seq<Word>): Res {
    if exists i :: 0 <= i < |args| && IsRef(args[i]) && args[i] !in w.heap then Stop(Corrupt)
    else
      match P.bi(w.tick, name, args, w.heap)
      case BInt(n) => Done(IntWord(n), w.(tick := w.tick + 1))
      case BUnit => if SUnit in P.addr then Done(P.addr[SUnit], w.(tick := w.tick + 1)) else Stop(Stuck)
      case BStr(ws) => if ws == [] then Stop(Stuck) else Build(P, w.(tick := w.tick + 1), T_STRING, ws)
      case BExit => Stop(Exited)
  }

  // A fresh block with its payload written.
  function Build(P: Prog, w: World, tag: int, words: seq<Word>): Res {
    if words == [] then Stop(Stuck)
    else match RtAlloc(P, w, |words| + 1)
      case Done(p, w1) => Done(p, w1.(heap := w1.heap[p := Block(1, tag, words)]))
      case Stop(why) => Stop(why)
  }

  ghost function BuildWith(P: Prog, w: World, tok: Option<Word>, tag: int, words: seq<Word>): Res {
    if words == [] || tok.None? then Build(P, w, tag, words)
    else match RtReuseOrAlloc(P, w, tok.value, |words| + 1)
      case Done(p, w1) => Done(p, w1.(heap := w1.heap[p := Block(1, tag, words)]))
      case Stop(why) => Stop(why)
  }

  // ---------- equality ----------

  datatype EqRes = Same(eq: bool) | EqStop(why: Why)

  // Byte i of a string payload: the length, then eight bytes to a word.
  function ByteAt(ws: seq<Word>, i: nat): int
    requires i / 8 + 1 < |ws|
  {
    ws[i / 8 + 1] / Pow256(i % 8) % 256
  }

  function Pow256(k: nat): (p: int)
    ensures p > 0
  {
    if k == 0 then 1 else 256 * Pow256(k - 1)
  }

  // The payload has room for the bytes its length asks for.
  predicate IsText(ws: seq<Word>) { ws != [] && 0 <= ws[0] && (ws[0] + 7) / 8 < |ws| }

  predicate SameText(a: seq<Word>, b: seq<Word>) {
    IsText(a) && IsText(b) && a[0] == b[0] && forall i :: 0 <= i < a[0] ==> ByteAt(a, i) == ByteAt(b, i)
  }

  // dc_val_eq; n bounds the depth of the recursion.
  function ValEq(h: Heap, a: Word, b: Word, n: nat): EqRes
    decreases n, 1
  {
    if IsInt(a) && IsInt(b) then Same(a == b)
    else if IsBool(a) && IsBool(b) then Same(a == b)
    else if a % 4 != 0 || b % 4 != 0 then Same(false)
    else if a == b then Same(true)
    else if a == 0 || b == 0 then EqStop(Stuck)
    else if a !in h || b !in h then EqStop(Corrupt)
    else if h[a].tag != h[b].tag then Same(false)
    else if h[a].tag == T_STRING then Same(SameText(h[a].words, h[b].words))
    else if h[a].tag == T_TUPLE then
      if n == 0 then EqStop(OutOfFuel) else FieldsEq(h, h[a].words, h[b].words, n - 1)
    else if h[a].tag == T_ADT then
      if h[a].words == [] || h[b].words == [] then EqStop(Stuck)
      else if h[a].words[0] != h[b].words[0] then Same(false)
      else if n == 0 then EqStop(OutOfFuel)
      else FieldsEq(h, h[a].words[1..], h[b].words[1..], n - 1)
    else if h[a].tag == T_CLOSURE then EqStop(NoCompare)
    else Same(false)
  }

  function FieldsEq(h: Heap, as_: seq<Word>, bs: seq<Word>, n: nat): EqRes
    decreases n, 2, |as_|
  {
    if as_ == [] then Same(true)
    else if bs == [] then EqStop(Stuck)
    else
      match ValEq(h, as_[0], bs[0], n)
      case EqStop(why) => EqStop(why)
      case Same(eq) => if eq then FieldsEq(h, as_[1..], bs[1..], n) else Same(false)
  }

  // ---------- pattern matching ----------

  datatype MatchRes = Yes(env: Env) | No | MStop(why: Why)

  function Test(b: bool, env: Env): MatchRes { if b then Yes(env) else No }

  function MatchPat(P: Prog, n: nat, pt: int, env: Env, h: Heap, pat: Pat, v: Word): MatchRes
    decreases pat
  {
    match pat
    case PWild => Yes(env)
    case PVar(x) => Yes(env[x := v])
    case PInt(k) => Test(v == IntWord(k), env)
    case PBool(b) => Test(v == BoolWord(b), env)
    case PUnit => if SUnit in P.addr then Test(v == P.addr[SUnit], env) else MStop(Stuck)
    case PStr(_) =>
      if SStr(pt) !in P.addr then MStop(Stuck)
      else (match ValEq(h, P.addr[SStr(pt)], v, n)
            case EqStop(why) => MStop(why)
            case Same(eq) => Test(eq, env))
    case PTup(ps) =>
      if !IsRef(v) || |ps| > MAX_WORDS then MStop(Stuck)
      else if v !in h then MStop(Corrupt)
      else if h[v].tag == T_TUPLE && |h[v].words| == |ps| then MatchPats(P, n, pt, env, h, ps, h[v].words)
      else No
    case PCtor(c, ps) =>
      if c !in P.ar || c !in P.cid || P.ar[c] != |ps| then MStop(Stuck)
      else if |ps| == 0 then
        if SNull(c) in P.addr then Test(v == P.addr[SNull(c)], env) else MStop(Stuck)
      else if !IsRef(v) || |ps| > MAX_WORDS then MStop(Stuck)
      else if v !in h then MStop(Corrupt)
      else if h[v].tag == T_ADT && |h[v].words| == 1 + |ps| && h[v].words[0] == P.cid[c] then
        MatchPats(P, n, pt, env, h, ps, h[v].words[1..])
      else No
  }

  function MatchPats(P: Prog, n: nat, pt: int, env: Env, h: Heap, ps: seq<Pat>, vs: seq<Word>): MatchRes
    decreases ps
  {
    if ps == [] then Yes(env)
    else if vs == [] then MStop(Stuck)
    else
      match MatchPat(P, n, pt, env, h, ps[0], vs[0])
      case Yes(env1) => MatchPats(P, n, pt + PatIds(ps[0]), env1, h, ps[1..], vs[1..])
      case No => No
      case MStop(why) => MStop(why)
  }

  // ---------- atoms ----------

  function AtomVal(P: Prog, pt: int, env: Env, w: World, a: OAtom): Option<Word> {
    match a
    case AVar(x) => Find(env, x)
    case AInt(n) => Some(IntWord(n))
    case ABool(b) => Some(BoolWord(b))
    case AStr(_) => Find(P.addr, SStr(pt))
    case AUnit => Find(P.addr, SUnit)
    case AGlob(g) => if g in P.slots && P.slots[g] < |w.globs| then Some(w.globs[P.slots[g]]) else None
    case ANull(c) => if c in P.ar && P.ar[c] == 0 then Find(P.addr, SNull(c)) else None
  }

  datatype Vals = Vals(vs: seq<Word>, w: World) | VStop(why: Why)

  predicate Flag(flags: seq<bool>) { flags != [] && flags[0] }
  function Later(flags: seq<bool>): seq<bool> { if flags == [] then [] else flags[1..] }

  // Operands from left to right. A global in a consumed position is dup'd: the
  // table only lends it.
  function EvAtoms(P: Prog, pt: int, env: Env, w: World, atoms: seq<OAtom>, flags: seq<bool>): Vals
    decreases |atoms|
  {
    if atoms == [] then Vals([], w)
    else match AtomVal(P, pt, env, w, atoms[0])
      case None => VStop(Stuck)
      case Some(v) =>
        match if atoms[0].AGlob? && Flag(flags) then RtDup(w, v) else Some(w)
        case None => VStop(Corrupt)
        case Some(w1) =>
          match EvAtoms(P, pt + AtomIds(atoms[0]), env, w1, atoms[1..], Later(flags))
          case VStop(why) => VStop(why)
          case Vals(vs, w2) => Vals([v] + vs, w2)
  }

  function Trues(n: nat): seq<bool> { seq(n, _ => true) }

  function Lookups(env: Env, xs: seq<string>): Option<seq<Word>> {
    if xs == [] then Some([])
    else
      var v :- Find(env, xs[0]);
      var vs :- Lookups(env, xs[1..]);
      Some([v] + vs)
  }

  function Occurs(x: string, xs: seq<string>): nat { multiset(xs)[x] }

  // ---------- operators ----------

  function IntOp(op: string, a: int, b: int): Option<Word> {
    if op == "+" then Some(IntWord(a + b))
    else if op == "-" then Some(IntWord(a - b))
    else if op == "*" then Some(IntWord(a * b))
    else if op == "/" then if b == 0 then None else Some(IntWord(TruncDiv(a, b)))
    else if op == "%" then if b == 0 then None else Some(IntWord(a - b * TruncDiv(a, b)))
    else if op == "<" then Some(BoolWord(a < b))
    else if op == ">" then Some(BoolWord(a > b))
    else if op == "<=" then Some(BoolWord(a <= b))
    else if op == ">=" then Some(BoolWord(a >= b))
    else None
  }

  function EvBin(P: Prog, n: nat, w: World, op: string, a: Word, b: Word): Res {
    if op == "==" || op == "!=" then
      match ValEq(w.heap, a, b, n)
      case EqStop(why) => Stop(why)
      case Same(eq) => Done(BoolWord(eq == (op == "==")), w)
    else if op == "++" then RtBuiltin(P, w, "str_concat", [a, b])
    else if op == "&&" || op == "||" then
      if IsBool(a) && IsBool(b) then Done(if (a == TRUE) == (op == "&&") then b else a, w) else Stop(Stuck)
    else if !IsInt(a) || !IsInt(b) then Stop(Stuck)
    else if (op == "/" || op == "%") && IntOf(b) == 0 then Stop(DivZero)
    else match IntOp(op, IntOf(a), IntOf(b))
      case None => Stop(Stuck)
      case Some(v) => Done(v, w)
  }

  // ---------- running ----------

  // A closure over the captured values; self is the recursive binder, whose
  // captured word is the closure's own address.
  function MkClosure(P: Prog, pt: int, env: Env, w: World, lam: Lam, self: Option<string>): Res {
    if SLam(pt) !in P.addr || pt !in P.lams || P.lams[pt] != lam then Stop(Stuck)
    else
      var env1 := match self case None => env case Some(x) => env[x := P.newAt(w.tick, w.heap)];
      match Lookups(env1, lam.caps)
      case None => Stop(Stuck)
      case Some(vs) => Build(P, w, T_CLOSURE, [P.addr[SLam(pt)], |vs|] + vs)
  }

  ghost function Ev(P: Prog, n: nat, pt: int, env: Env, w: World, e: OExpr): Res
    decreases n, 0, e
  {
    match e
    case ORet(a) =>
      (match EvAtoms(P, pt, env, w, [a], [true])
       case VStop(why) => Stop(why)
       case Vals(vs, w1) => if |vs| == 1 then Done(vs[0], w1) else Stop(Stuck))
    case OLet(x, p, rest) =>
      (match EvPrim(P, n, pt, env, w, p)
       case Stop(why) => Stop(why)
       case Done(v, w1) => Ev(P, n, pt + PrimIds(p), env[x := v], w1, rest))
    case OLetRec(x, p, rest) =>
      if !p.PLam? || Occurs(x, p.caps) > 1 then Stop(Stuck)
      else (match MkClosure(P, pt, env, w, Lam(p.pat, p.body, p.caps), Some(x))
            case Stop(why) => Stop(why)
            case Done(v, w1) => Ev(P, n, pt + PrimIds(p), env[x := v], w1, rest))
    case OIf(a, e1, e2) =>
      (match AtomVal(P, pt + 1, env, w, a)
       case None => Stop(Stuck)
       case Some(v) =>
         var pt1 := pt + 1 + AtomIds(a);
         if v == TRUE then Ev(P, n, pt1, env, w, e1) else Ev(P, n, pt1 + ExprIds(e1), env, w, e2))
    case OCase(a, brs) =>
      (match AtomVal(P, pt, env, w, a)
       case None => Stop(Stuck)
       case Some(v) => EvBrs(P, n, pt + AtomIds(a), env, w, v, brs))
    case ODup(x, rest) =>
      if x !in env then Stop(Stuck)
      else (match RtDup(w, env[x])
            case None => Stop(Corrupt)
            case Some(w1) => Ev(P, n, pt, env, w1, rest))
    case ODrop(x, rest) =>
      if x !in env then Stop(Stuck)
      else (match RtDrop(w, env[x])
            case None => Stop(Corrupt)
            case Some(w1) => Ev(P, n, pt, env, w1, rest))
    case ODropReuse(x, tok, rest) =>
      if x !in env then Stop(Stuck)
      else (match RtDropReuse(w, env[x])
            case Stop(why) => Stop(why)
            case Done(t, w1) => Ev(P, n, pt, env[tok := t], w1, rest))
  }

  ghost function EvBrs(P: Prog, n: nat, pt: int, env: Env, w: World, v: Word, brs: seq<OBranch>): Res
    decreases n, 0, brs
  {
    if brs == [] then Stop(NoMatch)
    else
      var br := brs[0];
      assert brs decreases to br;
      match MatchPat(P, n, pt + 1, env, w.heap, br.pat, v)
      case Yes(env1) => Ev(P, n, pt + 1 + PatIds(br.pat), env1, w, br.body)
      case No => EvBrs(P, n, pt + 1 + PatIds(br.pat) + ExprIds(br.body), env, w, v, brs[1..])
      case MStop(why) => Stop(why)
  }

  ghost function TokOf(env: Env, tok: string): Option<Option<Word>> {
    if tok == "" then Some(None) else if tok in env then Some(Some(env[tok])) else None
  }

  ghost function EvPrim(P: Prog, n: nat, pt: int, env: Env, w: World, p: OPrim): Res
    decreases n, 0, p
  {
    match p
    case PAtom(a) =>
      (match EvAtoms(P, pt, env, w, [a], [true])
       case VStop(why) => Stop(why)
       case Vals(vs, w1) => if |vs| == 1 then Done(vs[0], w1) else Stop(Stuck))
    case PApp(f, a) =>
      (match EvAtoms(P, pt, env, w, [f, a], [false, true])
       case VStop(why) => Stop(why)
       case Vals(vs, w1) =>
         if |vs| != 2 || !IsRef(vs[0]) then Stop(Stuck)
         else if vs[0] !in w1.heap then Stop(Corrupt)
         else if !IsClosure(w1.heap[vs[0]]) then Stop(Stuck)
         else if n == 0 then Stop(OutOfFuel)
         else EvClosure(P, n - 1, w1, vs[0], vs[1]))
    case PCall(f, args) =>
      if f !in P.defs || !P.defs[f].direct || |P.defs[f].modes| != |args| then Stop(Stuck)
      else (match EvAtoms(P, pt, env, w, args, P.defs[f].modes)
            case VStop(why) => Stop(why)
            case Vals(vs, w1) => if n == 0 then Stop(OutOfFuel) else EvDirect(P, n - 1, w1, f, vs))
    case PBi(name, args) =>
      (match EvAtoms(P, pt, env, w, args, [])
       case VStop(why) => Stop(why)
       case Vals(vs, w1) => if |vs| == BiArgs(name) then RtBuiltin(P, w1, name, vs) else Stop(Stuck))
    case PMkCtor(c, args, tok) =>
      if c !in P.ar || c !in P.cid || P.ar[c] != |args| then Stop(Stuck)
      else if |args| == 0 then
        if tok == "" && SNull(c) in P.addr then Done(P.addr[SNull(c)], w) else Stop(Stuck)
      else (match EvAtoms(P, pt, env, w, args, Trues(|args|))
            case VStop(why) => Stop(why)
            case Vals(vs, w1) =>
              match TokOf(env, tok)
              case None => Stop(Stuck)
              case Some(t) => BuildWith(P, w1, t, T_ADT, [P.cid[c]] + vs))
    case PMkTup(args, tok) =>
      (match EvAtoms(P, pt, env, w, args, Trues(|args|))
       case VStop(why) => Stop(why)
       case Vals(vs, w1) =>
         match TokOf(env, tok)
         case None => Stop(Stuck)
         case Some(t) => if vs == [] then Stop(Stuck) else BuildWith(P, w1, t, T_TUPLE, vs))
    case PLam(pat, body, caps) => MkClosure(P, pt, env, w, Lam(pat, body, caps), None)
    case PBin(op, a, b) =>
      (match EvAtoms(P, pt, env, w, [a, b], [])
       case VStop(why) => Stop(why)
       case Vals(vs, w1) => if |vs| == 2 then EvBin(P, n, w1, op, vs[0], vs[1]) else Stop(Stuck))
    case PBlock(e) => Ev(P, n, pt + 1, env, w, e)
  }

  // Where the body of a definition is numbered.
  function BodyPt(P: Prog, f: string): int
    requires f in P.base && f in P.defs
  {
    P.base[f] + 1 + PatsIds(P.defs[f].params)
  }

  // The direct entry: arguments already carry the ownership of the modes.
  ghost function EvDirect(P: Prog, n: nat, w: World, f: string, vs: seq<Word>): Res
    decreases n, 1
  {
    if f !in P.defs || f !in P.base || |P.defs[f].params| != |vs| then Stop(Stuck)
    else
      match MatchPats(P, n, P.base[f] + 1, map[], w.heap, P.defs[f].params, vs)
      case Yes(env) => Ev(P, n, BodyPt(P, f), env, w, P.defs[f].body)
      case No => Stop(NoMatch)
      case MStop(why) => Stop(why)
  }

  // Ownership mode of parameter i: owned when the list is too short.
  predicate Mode(modes: seq<bool>, i: int) { if 0 <= i < |modes| then modes[i] else true }

  // dc_dup the env values whose parameter is owned.
  function DupOwned(h: Heap, vs: seq<Word>, modes: seq<bool>, i: int): Outcome
    decreases |vs| - i
  {
    if i < 0 || i >= |vs| then Ok(h)
    else if Mode(modes, i) then
      match Dup(h, vs[i]) case Fault => Fault case Ok(h1) => DupOwned(h1, vs, modes, i + 1)
    else DupOwned(h, vs, modes, i + 1)
  }

  predicate IsClosure(b: Block) { b.tag == T_CLOSURE && |b.words| >= 2 }

  // Calling a closure: the callee borrows the closure and owns the argument.
  ghost function EvClosure(P: Prog, n: nat, w: World, clo: Word, arg: Word): Res
    decreases n, 4
  {
    if !IsRef(clo) then Stop(Stuck)
    else if clo !in w.heap then Stop(Corrupt)
    else
      var b := w.heap[clo];
      if !IsClosure(b) then Stop(Stuck)
      else if b.words[0] == CTOR_STEP then RtCtorStep(P, w, b.words, arg)
      else if b.words[0] == BI_STEP then RtBuiltinStep(P, w, b.words, arg)
      else
        match CodeAt(P, b.words[0])
        case Some(SLam(id)) => EvLam(P, n, w, id, b.words[2..], arg)
        case Some(SLevel(f, i)) => EvLevel(P, n, w, f, i, b.words[2..], arg)
        case _ => Stop(Stuck)
  }

  ghost function EvLam(P: Prog, n: nat, w: World, id: int, captured: seq<Word>, arg: Word): Res
    decreases n, 1
  {
    if id !in P.lams || |P.lams[id].caps| != |captured| then Stop(Stuck)
    else
      var lam := P.lams[id];
      match MatchPat(P, n, id + 1, Zip(lam.caps, captured), w.heap, lam.pat, arg)
      case Yes(env) => Ev(P, n, id + 1 + PatIds(lam.pat), env, w, lam.body)
      case No => Stop(NoMatch)
      case MStop(why) => Stop(why)
  }

  // Names to values; the first of equal names wins, as in a scope list.
  function Zip(xs: seq<string>, vs: seq<Word>): Env
    requires |xs| == |vs|
  {
    if xs == [] then map[] else Zip(xs[1..], vs[1..])[xs[0] := vs[0]]
  }

  // The last level calls the direct entry, or holds the body itself.
  ghost function LastLevel(P: Prog, n: nat, w: World, f: string, vs: seq<Word>): Res
    decreases n, 2
  {
    if f !in P.defs then Stop(Stuck)
    else if !P.defs[f].direct then EvDirect(P, n, w, f, vs)
    else if n == 0 then Stop(OutOfFuel)
    else EvDirect(P, n - 1, w, f, vs)
  }

  // Curried level i of k: below k a closure holding one more argument, at k
  // the direct call.
  ghost function EvLevel(P: Prog, n: nat, w: World, f: string, i: int, held: seq<Word>, arg: Word): Res
    decreases n, 3
  {
    if f !in P.defs || i <= 0 || i > |P.defs[f].params| || |held| != i - 1 then Stop(Stuck)
    else
      var d := P.defs[f];
      var k := |d.params|;
      if i < k then
        if SLevel(f, i + 1) !in P.addr then Stop(Stuck)
        else match DupAll(w.heap, held)
          case Fault => Stop(Corrupt)
          case Ok(h) => Build(P, w.(heap := h), T_CLOSURE, [P.addr[SLevel(f, i + 1)], i] + held + [arg])
      else
        match DupOwned(w.heap, held, d.modes, 0)
        case Fault => Stop(Corrupt)
        case Ok(h) =>
          match LastLevel(P, n, w.(heap := h), f, held + [arg])
          case Stop(why) => Stop(why)
          case Done(v, w1) =>
            if Mode(d.modes, k - 1) then Done(v, w1)
            else match RtDrop(w1, arg)
              case None => Stop(Corrupt)
              case Some(w2) => Done(v, w2)
  }

  // ---------- runtime trampolines ----------

  const BI_STEP: Word := 3   // stands for the code address of dc_builtin_step

  const CTORS := 4096   // room in dc_arity_table

  // dc_register_ctor.
  function RtRegister(w: World, cid: int, arity: int): Option<World> {
    if 0 <= cid < CTORS && arity >= 0 then Some(w.(ctors := w.ctors[cid := arity])) else None
  }

  // The table is zero where nothing was registered.
  function ArityOf(w: World, cid: int): nat { if cid in w.ctors then w.ctors[cid] else 0 }

  // dc_ctor_step: words are the closure's payload.
  ghost function RtCtorStep(P: Prog, w: World, words: seq<Word>, arg: Word): Res {
    if |words| < 4 then Stop(Stuck)
    else
      var cid, count := IntOf(words[2]), IntOf(words[3]);
      if cid < 0 || count < 0 || |words| != 4 + count || words != StepWords(cid, words[4..]) then Stop(Stuck)
      else
        var arity := ArityOf(w, cid);
        var size := SizeOf(NextBlock(cid, arity, words[4..], arg));
        if size > MAX_WORDS then Stop(TooLarge)
        else
          var p := P.newAt(w.tick, w.heap);
          match CtorStep(w.heap, cid, arity, words[4..], arg, p)
          case Fault => Stop(Corrupt)
          case Ok(h) => Done(p, w.(heap := h, tick := w.tick + 1))
  }

  function BiArity(idx: int): nat {
    if idx in {5, 7, 11} then 2 else if idx == 12 then 3 else 1
  }

  // Arguments of a builtin by name.
  function BiArgs(name: string): nat {
    if name in ["str_concat", "write_file", "string_get"] then 2 else if name == "substring" then 3 else 1
  }

  function BiName(idx: int): Option<string> {
    var names := ["print_int", "print_string", "int_to_string", "bool_to_string", "string_length", "str_concat",
                  "read_file", "write_file", "exit", "chr", "ord", "string_get", "substring", "string_to_int",
                  "error", "show", "argv", "system"];
    if 0 <= idx < |names| then Some(names[idx]) else None
  }

  function BiStepWords(idx: int, args: seq<Word>): seq<Word> {
    [BI_STEP, |args| + 2, MkInt(idx), MkInt(|args|)] + args
  }

  // dc_builtin_step: the last argument is dropped after the builtin ran; until
  // then a longer closure is made, as for constructors.
  ghost function RtBuiltinStep(P: Prog, w: World, words: seq<Word>, arg: Word): Res {
    if |words| < 4 then Stop(Stuck)
    else
      var idx, count := IntOf(words[2]), IntOf(words[3]);
      var args := words[4..];
      if words != BiStepWords(idx, args) then Stop(Stuck)
      else if count + 1 == BiArity(idx) then
        match BiName(idx)
        case None => Stop(Stuck)
        case Some(name) =>
          (match RtBuiltin(P, w, name, args + [arg])
           case Stop(why) => Stop(why)
           case Done(v, w1) =>
             match RtDrop(w1, arg)
             case None => Stop(Corrupt)
             case Some(w2) => Done(v, w2))
      else
        match DupAll(w.heap, args)
        case Fault => Stop(Corrupt)
        case Ok(h) => Build(P, w.(heap := h), T_CLOSURE, BiStepWords(idx, args + [arg]))
  }
}

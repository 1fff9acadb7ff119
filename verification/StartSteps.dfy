// A whole run of a program: the start-up steps that the generator makes of it
// (gen5/g5_cgdriver.dc), and main.
module StartSteps {
  import opened Types
  import opened RcHeap
  import opened Trampoline
  import opened Oir

  // ---------- the run ----------

  // What start-up does: register a constructor's arity, or fill one slot of the
  // global table.
  datatype Init =
    | IRegister(cid: nat, arity: nat)
    | IBuiltin(idx: nat, slot: nat)
    | ICtor(cid: nat, slot: nat)
    | IThunk(fn: string, slot: nat)

  datatype Run = Ran(w: World) | Halted(why: Why)

  // A definition's thunk: a value is evaluated, a function is a closure of its
  // first curried level.
  ghost function Thunk(P: Prog, n: nat, w: World, f: string): Res {
    if f !in P.defs || f !in P.base then Stop(Stuck)
    else if P.defs[f].params == [] then Ev(P, n, BodyPt(P, f), map[], w, P.defs[f].body)
    else if SLevel(f, 1) in P.addr then Build(P, w, T_CLOSURE, [P.addr[SLevel(f, 1)], 0])
    else Stop(Stuck)
  }

  ghost function InitValue(P: Prog, n: nat, w: World, s: Init): Res {
    match s
    case IRegister(_, _) => Stop(Stuck)
    case IBuiltin(idx, _) => Build(P, w, T_CLOSURE, BiStepWords(idx, []))
    case ICtor(cid, _) => Build(P, w, T_CLOSURE, StepWords(cid, []))
    case IThunk(f, _) => Thunk(P, n, w, f)
  }

  function Gset(w: World, slot: nat, v: Word): Run
    requires slot < |w.globs|
  {
    match RtGset(w, slot, v) case None => Halted(Corrupt) case Some(w1) => Ran(w1)
  }

  ghost function RunStep(P: Prog, n: nat, w: World, s: Init): Run {
    if s.IRegister? then match RtRegister(w, s.cid, s.arity) case None => Halted(Stuck) case Some(w1) => Ran(w1)
    else if s.slot >= |w.globs| then Halted(Stuck)
    else match InitValue(P, n, w, s)
      case Stop(why) => Halted(why)
      case Done(v, w1) => if s.slot >= |w1.globs| then Halted(Stuck) else Gset(w1, s.slot, v)
  }

  ghost function RunInit(P: Prog, n: nat, w: World, steps: seq<Init>): Run
    decreases |steps|
  {
    if steps == [] then Ran(w)
    else match RunStep(P, n, w, steps[0])
      case Halted(why) => Halted(why)
      case Ran(w1) => RunInit(P, n, w1, steps[1..])
  }

  // main, lent by its slot, is applied to unit and its result dropped.
  ghost function RunMain(P: Prog, n: nat, w: World): Run {
    if "main" !in P.slots then Ran(w)
    else if P.slots["main"] >= |w.globs| || SUnit !in P.addr then Halted(Stuck)
    else match EvClosure(P, n, w, w.globs[P.slots["main"]], P.addr[SUnit])
      case Stop(why) => Halted(why)
      case Done(v, w1) => match RtDrop(w1, v) case None => Halted(Corrupt) case Some(w2) => Ran(w2)
  }

  ghost function RunProgram(P: Prog, n: nat, w: World, steps: seq<Init>): Run {
    match RunInit(P, n, w, steps)
    case Halted(why) => Halted(why)
    case Ran(w1) => RunMain(P, n, w1)
  }

  // ---------- the steps of a program ----------

  // The built-ins in the order in which start-up numbers them.
  const BUILTINS := ["print_int", "print_string", "int_to_string", "bool_to_string", "string_length", "str_concat",
                     "read_file", "write_file", "exit", "chr", "ord", "string_get", "substring", "string_to_int",
                     "error", "show", "argv", "system"]

  // The start-up steps of a program: registrations of all constructors,
  // builtins, constructors with arguments, definitions in order.
  function RegisterSteps(P: Prog, names: seq<string>): Option<seq<Init>> {
    if names == [] then Some([])
    else
      var cid :- Find(P.cid, names[0]);
      var arity :- Find(P.ar, names[0]);
      var rest :- RegisterSteps(P, names[1..]);
      Some([IRegister(cid, arity)] + rest)
  }

  function BuiltinSteps(P: Prog, names: seq<string>, i: nat): Option<seq<Init>> {
    if names == [] then Some([])
    else
      var slot :- Find(P.slots, names[0]);
      var rest :- BuiltinSteps(P, names[1..], i + 1);
      Some([IBuiltin(i, slot)] + rest)
  }

  function CtorSteps(P: Prog, names: seq<string>): Option<seq<Init>> {
    if names == [] then Some([])
    else
      var arity :- Find(P.ar, names[0]);
      var rest :- CtorSteps(P, names[1..]);
      if arity == 0 then Some(rest)
      else
        var cid :- Find(P.cid, names[0]);
        var slot :- Find(P.slots, names[0]);
        Some([ICtor(cid, slot)] + rest)
  }

  function ThunkSteps(P: Prog, defs: Defs): Option<seq<Init>> {
    if defs == [] then Some([])
    else
      var slot :- Find(P.slots, defs[0].0);
      var rest :- ThunkSteps(P, defs[1..]);
      Some([IThunk(defs[0].0, slot)] + rest)
  }

  function StartUp(P: Prog, builtins: seq<string>, ctors: seq<string>, defs: Defs): Option<seq<Init>> {
    var r :- RegisterSteps(P, ctors);
    var a :- BuiltinSteps(P, builtins, 0);
    var b :- CtorSteps(P, ctors);
    var c :- ThunkSteps(P, defs);
    Some(r + a + b + c)
  }

  // After the registrations the table has every constructor's arity and is
  // otherwise as it was.
  lemma {:induction false} Registered(P: Prog, n: nat, w: World, names: seq<string>)
    requires forall c :: c in names ==> c in P.cid && c in P.ar && P.cid[c] < CTORS
    requires forall c, d :: c in names && d in names && c in P.cid && d in P.cid && P.cid[c] == P.cid[d] ==> c == d
    ensures RegisterSteps(P, names).Some?
    ensures var r := RunInit(P, n, w, RegisterSteps(P, names).value);
            && r.Ran? && r.w.heap == w.heap && r.w.globs == w.globs
            && (forall c :: c in names ==> ArityOf(r.w, P.cid[c]) == P.ar[c])
            && (forall id: int :: (forall c :: c in names ==> P.cid[c] != id) ==> ArityOf(r.w, id) == ArityOf(w, id))
    decreases |names|
  {
    if names != [] {
      var c0, rest := names[0], names[1..];
      var w1 := w.(ctors := w.ctors[P.cid[c0] := P.ar[c0]]);
      Registered(P, n, w1, rest);
      var s0, steps := IRegister(P.cid[c0], P.ar[c0]), RegisterSteps(P, rest).value;
      assert ([s0] + steps)[1..] == steps;
      assert RunStep(P, n, w, s0) == Ran(w1);
      assert ArityOf(w1, P.cid[c0]) == P.ar[c0];
      assert forall c :: c in names <==> c == c0 || c in rest;
    }
  }
}

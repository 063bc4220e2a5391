/** The compiled code of every expression runs like its direct evaluation. */
module Simulation {
  import opened Wrappers
  import opened Syntax
  import opened Reference
  import opened Direct
  import opened StackMachine
  import opened Compiler
  import opened Correspondence
  import opened Scopes
  import opened BindingsCompiled
  import opened PatternTests
  import opened PatternsCompiled
  import opened Unfolding
  import opened Preservation

  // Leaves

  lemma LeafRuns(P: Prg, a: Machine, pc: nat, st: Names, li: nat, l: nat, n: nat, e: Expr,
                 fuel: nat, f: Renaming, w: World, d: Data) returns (f': Renaming, d': Data)
    requires (e.Const? || e.Str? || e.Var?) && Exec(e, w, fuel).Some? && Accepted(st, li, e, 1)
    requires Placed(P, pc, Compile(st, li, l, n, e), l) && Begins(P, a, pc, f, w, st, li, d)
    ensures Ends(P, a, Exit(P, pc, Compile(st, li, l, n, e), l), f, Exec(e, w, fuel).value, st, li, d, f', d')
  {
    hide Goes, Holds, Placed, Ends, CodeAt, HasLabel, LabelsUnique;
    var i := LeafCode(P, pc, st, li, l, n, e);
    EndsNothing(P, a, pc, f, w, st, li, d);
    f', d' := MakesLeaf(i, e, fuel, f, w, st, li, d);
    EndsInsn(P, a, pc, i, f, Outcome(w, []), Exec(e, w, fuel).value, st, li, d, f, d, f', d');
  }

  function LeafInsn(st: Names, e: Expr): Insn
    requires e.Const? || e.Str? || (e.Var? && Resolve(st, e.name).Some? && !Resolve(st, e.name).value.Fun?)
  {
    match e
    case Const(n) => CONST(n)
    case Str(text) => STRING(text)
    case Var(x) => LD(Resolve(st, x).value)
  }

  lemma LeafCode(P: Prg, pc: nat, st: Names, li: nat, l: nat, n: nat, e: Expr) returns (i: Insn)
    requires e.Const? || e.Str? || (e.Var? && Resolve(st, e.name).Some? && !Resolve(st, e.name).value.Fun?)
    requires Placed(P, pc, Compile(st, li, l, n, e), l)
    ensures i == LeafInsn(st, e) && CodeAt(P, pc, [i])
    ensures Exit(P, pc, Compile(st, li, l, n, e), l) == pc + 1
  {
    i := LeafInsn(st, e);
  }

  lemma MakesLeaf(i: Insn, e: Expr, fuel: nat, f: Renaming, w: World, st: Names, li: nat, d: Data)
    returns (f': Renaming, d': Data)
    requires (e.Const? || e.Str? || e.Var?) && Exec(e, w, fuel).Some? && Accepted(st, li, e, 1) && i == LeafInsn(st, e)
    requires Holds(f, w, st, li, d)
    ensures Makes(i, f, Outcome(w, []), Exec(e, w, fuel).value, st, li, d, d.stack, f', d')
  {
    hide Makes;
    var o := Outcome(w, []);
    match e
    case Const(n) =>
      f' := f;
      d' := MakesValue(i, o, Int(n), f, st, li, d, d.stack);
    case Str(text) =>
      f', d' := MakesObject(i, o, Bytes(text), f, st, li, d, d.stack);
    case Var(x) =>
      LookupAgrees(f, w.st, st, d.globals, d.locals, x);
      f' := f;
      d' := MakesValue(i, o, Lookup(w.st, x).value, f, st, li, d, d.stack);
  }

  // Operands

  /** One expression, joined at its label. */
  lemma {:induction false} ValueRuns(P: Prg, a: Machine, pc: nat, st: Names, li: nat, l: nat, n: nat, e: Expr,
      more: Prg, fuel: nat, f: Renaming, w: World, d: Data) returns (f': Renaming, d': Data)
    requires ExecValue(e, w, fuel).Some? && Accepted(st, li, e, 1) && LabelsUnique(P)
    requires CodeAt(P, pc, Compile(st, li, l, n, e).insns + Landing(Compile(st, li, l, n, e).flag, l) + more)
    requires Begins(P, a, pc, f, w, st, li, d) && Compile(st, li, l, n, e).locals <= |d.locals|
    ensures var (w', v) := ExecValue(e, w, fuel).value; var c := Compile(st, li, l, n, e);
      Ends(P, a, pc + |c.insns + Landing(c.flag, l)|, f, Outcome(w', [v]), st, li, d, f', d')
    ensures var c := Compile(st, li, l, n, e); CodeAt(P, pc + |c.insns + Landing(c.flag, l)|, more)
    decreases fuel, Size(e), 4
  {
    hide Goes, Holds, Placed, Ends, Begins, CodeAt, HasLabel, LabelsUnique, ExecValue, Exec, Compile, Located,
      Accepted, Size;
    ValueLocated(st, e, w, fuel);
    Landed(P, pc, Compile(st, li, l, n, e), l, more);
    assert Placed(P, pc, Compile(st, li, l, n, e), l);
    ExitDefined(P, pc, Compile(st, li, l, n, e), l);
    f', d' := Simulates(P, a, pc, st, li, l, n, e, 1, fuel, f, w, d);
  }

  lemma ExitDefined(P: Prg, pc: nat, c: Code, l: nat)
    requires Placed(P, pc, c, l)
    ensures c.flag ==> HasLabel(P, l)
  {
  }

  lemma {:induction false} ListRuns(P: Prg, a: Machine, pc: nat, st: Names, li: nat, l: nat, n: nat, es: seq<Expr>,
      ks: seq<nat>, fuel: nat, f: Renaming, w: World, d: Data) returns (f': Renaming, d': Data)
    requires |ks| == |es| && ExecAll(st, es, ks, w, fuel).Some? && AcceptedAll(st, li, es, ks)
    requires Placed(P, pc, CompileList(st, li, l, n, es), l) && Begins(P, a, pc, f, w, st, li, d)
    requires CompileList(st, li, l, n, es).locals <= |d.locals|
    ensures Ends(P, a, Exit(P, pc, CompileList(st, li, l, n, es), l), f, ExecAll(st, es, ks, w, fuel).value, st, li, d,
      f', d')
    decreases fuel, SizeList(es), 4
  {
    hide Goes, Holds, Placed, Ends, Begins, CodeAt, HasLabel, LabelsUnique, Compile, Exec, Located, Accepted, Exit,
      Size;
    if es == [] {
      f', d' := f, d;
      EndsNothing(P, a, pc, f, w, st, li, d);
      EmptyPlaced(P, pc, n, l);
    } else if |es| == 1 {
      assert es == [es[0]] && ks == [ks[0]];
      ExecAllOne(st, es[0], ks[0], w, fuel);
      f', d' := Simulates(P, a, pc, st, li, l, n, es[0], ks[0], fuel, f, w, d);
    } else {
      var c1 := Compile(st, li, n, n + 1, es[0]);
      var c2 := CompileList(st, li, l, c1.next, es[1..]);
      var o1 := Shown(st, ks[0], Exec(es[0], w, fuel).value);
      var pc1 := JoinPlaced(P, pc, c1, n, c2, l);
      var f1, d1 := Simulates(P, a, pc, st, li, n, n + 1, es[0], ks[0], fuel, f, w, d);
      EndsBegins(P, a, pc1, f, o1, st, li, d, f1, d1);
      f', d' := ListRuns(P, a, pc1, st, li, l, c1.next, es[1..], ks[1..], fuel, f1, o1.w, d1);
      ExitDefined(P, pc1, c2, l);
      EndsTwice(P, a, Exit(P, pc1, c2, l), f, o1, ExecAll(st, es[1..], ks[1..], o1.w, fuel).value, st, li, d, f1, pc1,
        d1, f', d');
    }
  }

  lemma EmptyPlaced(P: Prg, pc: nat, n: nat, l: nat)
    ensures Exit(P, pc, Code(n, false, [], 0), l) == pc
  {
  }

  /** Code joined to the code after it. */
  lemma JoinPlaced(P: Prg, pc: nat, c1: Code, l1: nat, c2: Code, l: nat) returns (pc1: nat)
    requires Placed(P, pc, Code(c2.next, c2.flag, c1.insns + Landing(c1.flag, l1) + c2.insns,
      Max(c1.locals, c2.locals)), l)
    ensures Placed(P, pc, c1, l1) && pc1 == Exit(P, pc, c1, l1) && Placed(P, pc1, c2, l)
    ensures Exit(P, pc1, c2, l) ==
      Exit(P, pc, Code(c2.next, c2.flag, c1.insns + Landing(c1.flag, l1) + c2.insns, Max(c1.locals, c2.locals)), l)
  {
    hide CodeAt, HasLabel, LabelsUnique;
    Landed(P, pc, c1, l1, c2.insns);
    pc1 := pc + |c1.insns + Landing(c1.flag, l1)|;
  }

  lemma {:induction false} OperatorRuns(P: Prg, a: Machine, pc: nat, st: Names, li: nat, l: nat, n: nat, e: Expr,
                                        fuel: nat, f: Renaming, w: World, d: Data) returns (f': Renaming, d': Data)
    requires IsOperator(e) && Exec(e, w, fuel).Some? && Accepted(st, li, e, 1)
    requires Placed(P, pc, Compile(st, li, l, n, e), l) && Begins(P, a, pc, f, w, st, li, d)
    requires Compile(st, li, l, n, e).locals <= |d.locals|
    ensures Ends(P, a, Exit(P, pc, Compile(st, li, l, n, e), l), f, Exec(e, w, fuel).value, st, li, d, f', d')
    decreases fuel, Size(e), 2
  {
    hide Goes, Holds, Placed, Ends, CodeAt, HasLabel, LabelsUnique, Compile, CompileList, Accepted, Exec, ExecAll,
      Finish, Makes, Size, SizeList;
    if e.Call? {
      CalledAgrees(f, w, st, li, d, e);
    }
    var es, i := Operands(e), Operator(e);
    OperatorCode(st, li, l, n, e);
    OperandsFirst(st, e, w, fuel);
    AcceptedOperands(st, li, e);
    var c := CompileList(st, li, n, n + 1, es);
    PlacedOperator(P, pc, c, n, i, l);
    var pc1 := pc + |c.insns + Landing(c.flag, n)|;
    var o := ExecAll(st, es, Ones(|es|), w, fuel).value;
    var f1, d1 := ListRuns(P, a, pc, st, li, n, n + 1, es, Ones(|es|), fuel, f, w, d);
    EndsBegins(P, a, pc1, f, o, st, li, d, f1, d1);
    f', d' := MakesOperator(e, o, f1, st, li, d1, d.stack);
    EndsInsn(P, a, pc1, i, f, o, Exec(e, w, fuel).value, st, li, d, f1, d1, f', d');
  }

  lemma CalledAgrees(f: Renaming, w: World, st: Names, li: nat, d: Data, e: Expr)
    requires e.Call? && Accepted(st, li, e, 1) && Holds(f, w, st, li, d)
    ensures e.f.Var? && Resolve(st, e.f.name) == Some(Fun("L" + e.f.name)) &&
      Lookup(w.st, e.f.name) == Some(BuiltinValue(e.f.name))
  {
    hide Stores, Fits, Agree;
    FunAgrees(f, w.st, st, d.globals, d.locals, e.f.name);
  }

  /** Code followed by its landing and one instruction. */
  lemma PlacedOperator(P: Prg, pc: nat, c: Code, n: nat, i: Insn, l: nat)
    requires Placed(P, pc, AddCode(c, n, false, [i]), l)
    ensures Placed(P, pc, c, n) && Exit(P, pc, c, n) == pc + |c.insns + Landing(c.flag, n)|
    ensures CodeAt(P, pc + |c.insns + Landing(c.flag, n)|, [i])
    ensures LabelsUnique(P) && CodeAt(P, pc, c.insns + Landing(c.flag, n) + [i])
    ensures Exit(P, pc, AddCode(c, n, false, [i]), l) == pc + |c.insns + Landing(c.flag, n)| + 1
  {
    hide CodeAt, HasLabel, LabelsUnique;
    Landed(P, pc, c, n, [i]);
  }

  // Assignment to a variable, and dropping a value

  lemma {:induction false} AssignRuns(P: Prg, a: Machine, pc: nat, st: Names, li: nat, l: nat, n: nat, x: string,
      y: Expr, fuel: nat, f: Renaming, w: World, d: Data) returns (f': Renaming, d': Data)
    requires Exec(Assign(Ref(x), y), w, fuel).Some? && Accepted(st, li, Assign(Ref(x), y), 1)
    requires Placed(P, pc, Compile(st, li, l, n, Assign(Ref(x), y)), l) && Begins(P, a, pc, f, w, st, li, d)
    requires Compile(st, li, l, n, Assign(Ref(x), y)).locals <= |d.locals|
    ensures Ends(P, a, Exit(P, pc, Compile(st, li, l, n, Assign(Ref(x), y)), l), f,
      Exec(Assign(Ref(x), y), w, fuel).value, st, li, d, f', d')
    decreases fuel, Size(Assign(Ref(x), y)), 2
  {
    hide Goes, Holds, Placed, Ends, Begins, CodeAt, HasLabel, LabelsUnique, Compile, Accepted, Exec, ExecValue, Makes,
      Update;
    VarAssignUnfolds(st, li, l, n, x, y, w, fuel);
    var i := ST(Resolve(st, x).value);
    var c := Compile(st, li, n, n + 1, y);
    var (w1, v) := ExecValue(y, w, fuel).value;
    PlacedOperator(P, pc, c, n, i, l);
    var pc1 := pc + |c.insns + Landing(c.flag, n)|;
    var f1, d1 := ValueRuns(P, a, pc, st, li, n, n + 1, y, [i], fuel, f, w, d);
    EndsBegins(P, a, pc1, f, Outcome(w1, [v]), st, li, d, f1, d1);
    d' := MakesStore(x, w1, v, f1, st, li, d1, d.stack);
    f' := f1;
    EndsInsn(P, a, pc1, i, f, Outcome(w1, [v]), Exec(Assign(Ref(x), y), w, fuel).value, st, li, d, f1, d1, f', d');
  }

  lemma VarAssignUnfolds(st: Names, li: nat, l: nat, n: nat, x: string, y: Expr, w: World, fuel: nat)
    requires Exec(Assign(Ref(x), y), w, fuel).Some? && Accepted(st, li, Assign(Ref(x), y), 1)
    ensures Resolve(st, x).Some? && Accepted(st, li, y, 1) && ExecValue(y, w, fuel).Some?
    ensures var (w1, v) := ExecValue(y, w, fuel).value;
      Update(w1.st, x, v).Some? && Exec(Assign(Ref(x), y), w, fuel) == Pushed(w1.(st := Update(w1.st, x, v).value), v)
    ensures Compile(st, li, l, n, Assign(Ref(x), y))
      == AddCode(Compile(st, li, n, n + 1, y), n, false, [ST(Resolve(st, x).value)])
    ensures Size(y) < Size(Assign(Ref(x), y))
  {
    hide ExecValue, Update;
  }

  lemma MakesStore(x: string, w: World, v: Value, f: Renaming, st: Names, li: nat, d: Data, s: seq<Value>)
    returns (d': Data)
    requires Resolve(st, x).Some? && Update(w.st, x, v).Some? && Holds(f, w, st, li, d)
    requires AllKnown(f, [v]) && d.stack == RenameAll(f, [v]) + s
    ensures Makes(ST(Resolve(st, x).value), f, Outcome(w, [v]), Outcome(w.(st := Update(w.st, x, v).value), [v]), st,
      li, d, s, f, d')
  {
    hide Stores, Agree, Fits, Update;
    assert Known(f, [v][0]) && d.stack[0] == Rename(f, [v][0]);
    UpdateAgrees(f, w.st, st, d.globals, d.locals, x, v, li);
    var (globals', locals') := Stored(Resolve(st, x).value, Rename(f, v), d.globals, d.locals);
    d' := d.(globals := globals', locals := locals');
  }

  lemma {:induction false} IgnoreRuns(P: Prg, a: Machine, pc: nat, st: Names, li: nat, l: nat, n: nat, x: Expr,
                                      fuel: nat, f: Renaming, w: World, d: Data) returns (f': Renaming, d': Data)
    requires Exec(Ignore(x), w, fuel).Some? && Accepted(st, li, Ignore(x), 0)
    requires Placed(P, pc, Compile(st, li, l, n, Ignore(x)), l) && Begins(P, a, pc, f, w, st, li, d)
    requires Compile(st, li, l, n, Ignore(x)).locals <= |d.locals|
    ensures Ends(P, a, Exit(P, pc, Compile(st, li, l, n, Ignore(x)), l), f, Exec(Ignore(x), w, fuel).value, st, li, d,
      f', d')
    decreases fuel, Size(Ignore(x)), 2
  {
    hide Goes, Holds, Placed, Ends, Begins, CodeAt, HasLabel, LabelsUnique, Compile, Accepted, Exec, ExecValue, Makes;
    IgnoreUnfolds(st, li, l, n, x, w, fuel);
    var c := Compile(st, li, n, n + 1, x);
    var (w1, v) := ExecValue(x, w, fuel).value;
    PlacedOperator(P, pc, c, n, DROP, l);
    var pc1 := pc + |c.insns + Landing(c.flag, n)|;
    var f1, d1 := ValueRuns(P, a, pc, st, li, n, n + 1, x, [DROP], fuel, f, w, d);
    EndsBegins(P, a, pc1, f, Outcome(w1, [v]), st, li, d, f1, d1);
    d' := MakesDrop(w1, v, f1, st, li, d1, d.stack);
    f' := f1;
    EndsInsn(P, a, pc1, DROP, f, Outcome(w1, [v]), Outcome(w1, []), st, li, d, f1, d1, f', d');
  }

  lemma IgnoreUnfolds(st: Names, li: nat, l: nat, n: nat, x: Expr, w: World, fuel: nat)
    requires Exec(Ignore(x), w, fuel).Some? && Accepted(st, li, Ignore(x), 0)
    ensures Accepted(st, li, x, 1) && ExecValue(x, w, fuel).Some?
    ensures Exec(Ignore(x), w, fuel) == Some(Outcome(ExecValue(x, w, fuel).value.0, []))
    ensures Compile(st, li, l, n, Ignore(x)) == AddCode(Compile(st, li, n, n + 1, x), n, false, [DROP])
    ensures Size(x) < Size(Ignore(x))
  {
    hide ExecValue;
  }

  lemma MakesDrop(w: World, v: Value, f: Renaming, st: Names, li: nat, d: Data, s: seq<Value>) returns (d': Data)
    requires Holds(f, w, st, li, d) && d.stack == RenameAll(f, [v]) + s
    ensures Makes(DROP, f, Outcome(w, [v]), Outcome(w, []), st, li, d, s, f, d')
  {
    hide Stores, Agree, Fits;
    d' := d.(stack := s);
    assert d.stack[1..] == s && RenameAll(f, []) + s == s;
  }

  // Assignment through any place

  lemma {:induction false} PlaceAssignRuns(P: Prg, a: Machine, pc: nat, st: Names, li: nat, l: nat, n: nat, x: Expr,
      y: Expr, fuel: nat, f: Renaming, w: World, d: Data) returns (f': Renaming, d': Data)
    requires !x.Ref? && Exec(Assign(x, y), w, fuel).Some? && Accepted(st, li, Assign(x, y), 1)
    requires Placed(P, pc, Compile(st, li, l, n, Assign(x, y)), l) && Begins(P, a, pc, f, w, st, li, d)
    requires Compile(st, li, l, n, Assign(x, y)).locals <= |d.locals|
    ensures Ends(P, a, Exit(P, pc, Compile(st, li, l, n, Assign(x, y)), l), f, Exec(Assign(x, y), w, fuel).value, st,
      li, d, f', d')
    decreases fuel, Size(Assign(x, y)), 2
  {
    hide Goes, Holds, Placed, Ends, CodeAt, HasLabel, LabelsUnique, Compile, CompileList, Accepted, AcceptedAll, Exec,
      ExecAll, ExecValue, Makes, AssignTo, Located, Size, SizeList;
    var es, ks := [x, y], [2, 1];
    var target, w2, v := PlaceAssignUnfolds(st, li, l, n, x, y, w, fuel);
    var c := CompileList(st, li, n, n + 1, es);
    PlacedOperator(P, pc, c, n, STA, l);
    var pc1 := pc + |c.insns + Landing(c.flag, n)|;
    var o := Outcome(w2, [v] + Located(st, 2, target));
    var f1, d1 := ListRuns(P, a, pc, st, li, n, n + 1, es, ks, fuel, f, w, d);
    EndsBegins(P, a, pc1, f, o, st, li, d, f1, d1);
    d' := MakesAssign(w2, v, target, f1, st, li, d1, d.stack);
    f' := f1;
    EndsInsn(P, a, pc1, STA, f, o, Exec(Assign(x, y), w, fuel).value, st, li, d, f1, d1, f', d');
  }

  lemma PlaceAssignUnfolds(st: Names, li: nat, l: nat, n: nat, x: Expr, y: Expr, w: World, fuel: nat)
    returns (target: seq<Value>, w2: World, v: Value)
    requires !x.Ref? && Exec(Assign(x, y), w, fuel).Some? && Accepted(st, li, Assign(x, y), 1)
    ensures AssignTo(w2, target, v).Some? && Exec(Assign(x, y), w, fuel) == AssignTo(w2, target, v)
    ensures AcceptedAll(st, li, [x, y], [2, 1])
    ensures ExecAll(st, [x, y], [2, 1], w, fuel) == Some(Outcome(w2, [v] + Located(st, 2, target)))
    ensures Compile(st, li, l, n, Assign(x, y)) == CompileOperands(st, li, n, [x, y], STA)
    ensures SizeList([x, y]) < Size(Assign(x, y))
  {
    hide ExecAll, AcceptedAll, AssignTo, Located, CompileOperands;
    SizeTwo(x, y);
    AcceptedTwo(st, li, x, y, 2, 1);
    var o1 := Exec(x, w, fuel).value;
    target := o1.vs;
    w2, v := ExecValue(y, o1.w, fuel).value.0, ExecValue(y, o1.w, fuel).value.1;
    ValueLocated(st, y, o1.w, fuel);
    ExecAllTwo(st, x, y, 2, 1, w, fuel);
  }

  /** `STA` does what the reference does with the place. */
  lemma MakesAssign(w: World, v: Value, target: seq<Value>, f: Renaming, st: Names, li: nat, d: Data, s: seq<Value>)
    returns (d': Data)
    requires AssignTo(w, target, v).Some? && Holds(f, w, st, li, d)
    requires AllKnown(f, [v] + Located(st, 2, target)) && d.stack == RenameAll(f, [v] + Located(st, 2, target)) + s
    ensures Makes(STA, f, Outcome(w, [v] + Located(st, 2, target)), AssignTo(w, target, v).value, st, li, d, s, f, d')
  {
    hide Holds, Makes, AllKnown, RenameAll;
    if |target| == 1 {
      var x := target[0].name;
      assert [v] + Located(st, 2, target) == [v, VarAt(Designated(st, x))];
      d' := MakesVarStore(w, v, x, f, st, li, d, s);
    } else {
      assert [v] + Located(st, 2, target) == [v, target[0], target[1]] && target == [target[0], target[1]];
      d' := MakesElemStore(w, v, target[0], target[1], f, st, li, d, s);
    }
  }

  /** `LDA`: the address of a variable. */
  lemma RefRuns(P: Prg, a: Machine, pc: nat, st: Names, li: nat, l: nat, n: nat, x: string, fuel: nat, f: Renaming,
      w: World, d: Data)
    returns (f': Renaming, d': Data)
    requires Placed(P, pc, Compile(st, li, l, n, Ref(x)), l) && Begins(P, a, pc, f, w, st, li, d)
    ensures Ends(P, a, Exit(P, pc, Compile(st, li, l, n, Ref(x)), l), f, Outcome(w, [VarAt(Designated(st, x))]), st,
      li, d, f', d')
  {
    hide Goes, Holds, Ends, CodeAt, HasLabel, LabelsUnique;
    var v := VarAt(Designated(st, x));
    EndsNothing(P, a, pc, f, w, st, li, d);
    f' := f;
    d' := MakesValue(LDA(Designated(st, x)), Outcome(w, []), v, f, st, li, d, d.stack);
    EndsInsn(P, a, pc, LDA(Designated(st, x)), f, Outcome(w, []), Outcome(w, [v]), st, li, d, f, d, f', d');
  }

  lemma {:induction false} SeqRuns(P: Prg, a: Machine, pc: nat, st: Names, li: nat, l: nat, n: nat, x: Expr, y: Expr,
      k: nat, fuel: nat, f: Renaming, w: World, d: Data) returns (f': Renaming, d': Data)
    requires Exec(Seq(x, y), w, fuel).Some? && Accepted(st, li, Seq(x, y), k)
    requires Placed(P, pc, Compile(st, li, l, n, Seq(x, y)), l) && Begins(P, a, pc, f, w, st, li, d)
    requires Compile(st, li, l, n, Seq(x, y)).locals <= |d.locals|
    ensures Ends(P, a, Exit(P, pc, Compile(st, li, l, n, Seq(x, y)), l), f,
      Shown(st, k, Exec(Seq(x, y), w, fuel).value), st, li, d, f', d')
    decreases fuel, Size(Seq(x, y)), 2
  {
    hide Goes, Holds, Placed, Ends, Begins, CodeAt, HasLabel, LabelsUnique, Compile, CompileList, Accepted,
      AcceptedAll, Exec, ExecAll, Exit;
    SeqUnfolds(st, li, l, n, x, y, k, w, fuel);
    f', d' := ListRuns(P, a, pc, st, li, l, n, [x, y], [0, k], fuel, f, w, d);
  }

  lemma SeqUnfolds(st: Names, li: nat, l: nat, n: nat, x: Expr, y: Expr, k: nat, w: World, fuel: nat)
    requires Exec(Seq(x, y), w, fuel).Some? && Accepted(st, li, Seq(x, y), k)
    ensures AcceptedAll(st, li, [x, y], [0, k])
    ensures ExecAll(st, [x, y], [0, k], w, fuel) == Some(Shown(st, k, Exec(Seq(x, y), w, fuel).value))
    ensures Compile(st, li, l, n, Seq(x, y)) == CompileList(st, li, l, n, [x, y])
    ensures SizeList([x, y]) < Size(Seq(x, y))
  {
    hide ExecAll, CompileList, AcceptedAll;
    SizeTwo(x, y);
    AcceptedTwo(st, li, x, y, 0, k);
    ExecAllTwo(st, x, y, 0, k, w, fuel);
    var vs := Located(st, k, Exec(Seq(x, y), w, fuel).value.vs);
    assert vs + [] == vs;
  }

  // Conditionals

  /** A branch, and the jump that it needs if it falls through. */
  lemma LeaveRuns(P: Prg, a: Machine, pc: nat, c: Code, l: nat, f: Renaming, out: Outcome, st: Names, li: nat, d: Data,
                  f': Renaming, d': Data)
    requires Placed(P, pc, c, l) && CodeAt(P, pc, c.insns + Parting(c.flag, l)) && HasLabel(P, l)
    requires Ends(P, a, Exit(P, pc, c, l), f, out, st, li, d, f', d')
    ensures Ends(P, a, Labeled(P, l), f, out, st, li, d, f', d')
  {
    hide Goes, Holds, CodeAt, HasLabel, LabelsUnique;
    if !c.flag {
      CodeSplit(P, pc, c.insns, [JMP(l)]);
      Jump(P, pc + |c.insns|, l, d');
      GoesTrans(P, a, Machine(pc + |c.insns|, d'), Machine(Labeled(P, l), d'));
    }
  }

  /** The value on top decides; it is gone afterwards. */
  lemma TestRuns(P: Prg, a: Machine, pc: nat, nonzero: bool, l: nat, f: Renaming, w: World, k: int, st: Names, li: nat,
      d: Data, f1: Renaming, d1: Data) returns (d2: Data)
    requires Ends(P, a, pc, f, Outcome(w, [Int(k)]), st, li, d, f1, d1)
    requires CodeAt(P, pc, [CJMP(nonzero, l)]) && HasLabel(P, l)
    ensures Begins(P, a, if (k != 0) == nonzero then Labeled(P, l) else pc + 1, f1, w, st, li, d2)
    ensures f <= f1 && d2.stack == d.stack && |d2.locals| == |d.locals|
  {
    hide Goes, HasLabel, CodeAt, Stores, Agree, Fits;
    d2 := d1.(stack := d.stack);
    assert d1.stack == [Int(k)] + d.stack;
    CondJump(P, pc, nonzero, l, d1, k, d.stack);
    GoesTrans(P, a, Machine(pc, d1), Machine(if (k != 0) == nonzero then Labeled(P, l) else pc + 1, d2));
  }

  /** An outcome reached after something that left the stack as it was. */
  lemma EndsAfter(P: Prg, a: Machine, exit: nat, f: Renaming, d: Data, f1: Renaming, d1: Data, out: Outcome, st: Names,
      li: nat, f2: Renaming, d2: Data)
    requires f <= f1 && d1.stack == d.stack && |d1.locals| == |d.locals|
    requires Ends(P, a, exit, f1, out, st, li, d1, f2, d2)
    ensures Ends(P, a, exit, f, out, st, li, d, f2, d2)
  {
    hide Goes, Holds;
  }

  /** Where the parts of a conditional are. */
  lemma IfPlaced(P: Prg, pc: nat, l: nat, n: nat, c: Code, c1: Code, c2: Code) returns (p1: nat, p2: nat)
    requires LabelsUnique(P) && HasLabel(P, l)
    requires CodeAt(P, pc, c.insns + Landing(c.flag, n) + [CJMP(false, n + 1)] + c1.insns + Parting(c1.flag, l)
                           + [LABEL(n + 1)] + c2.insns + Parting(c2.flag, l))
    ensures CodeAt(P, pc, c.insns + Landing(c.flag, n) + [CJMP(false, n + 1)])
    ensures p1 == pc + |c.insns + Landing(c.flag, n)| + 1 && Placed(P, p1, c1, l) &&
      CodeAt(P, p1, c1.insns + Parting(c1.flag, l))
    ensures HasLabel(P, n + 1) && Labeled(P, n + 1) == p2 && Placed(P, p2, c2, l) &&
      CodeAt(P, p2, c2.insns + Parting(c2.flag, l))
  {
    hide CodeAt, HasLabel, LabelsUnique;
    var s1 := c.insns + Landing(c.flag, n) + [CJMP(false, n + 1)];
    var s2 := s1 + c1.insns;
    var s3 := s2 + Parting(c1.flag, l);
    var s4 := s3 + [LABEL(n + 1)];
    p1 := pc + |s1|;
    p2 := pc + |s4|;
    CodeSplit(P, pc, s4 + c2.insns, Parting(c2.flag, l));
    CodeSplit(P, pc, s4, c2.insns);
    CodeSplit(P, pc, s3, [LABEL(n + 1)]);
    CodeSplit(P, pc, s2, Parting(c1.flag, l));
    CodeSplit(P, pc, s1, c1.insns);
    CodeJoin(P, p1, c1.insns, Parting(c1.flag, l));
    CodeJoin(P, p2, c2.insns, Parting(c2.flag, l));
    LabelHere(P, pc + |s3|, LABEL(n + 1), n + 1);
  }

  lemma IfUnfolds(st: Names, li: nat, l: nat, n: nat, x: Expr, y: Expr, z: Expr, k: nat, w: World, fuel: nat)
    returns (c: Code, c1: Code, c2: Code)
    requires Exec(If(x, y, z), w, fuel).Some? && Accepted(st, li, If(x, y, z), k)
    ensures Accepted(st, li, x, 1) && Accepted(st, li, y, k) && Accepted(st, li, z, k)
    ensures ExecValue(x, w, fuel).Some? && ExecValue(x, w, fuel).value.1.Int?
    ensures var (w1, v) := ExecValue(x, w, fuel).value;
      Exec(If(x, y, z), w, fuel) == Exec(if v.n != 0 then y else z, w1, fuel)
    ensures c == Compile(st, li, n, n + 2, x) && c1 == Compile(st, li, l, c.next, y) &&
      c2 == Compile(st, li, l, c1.next, z)
    ensures Compile(st, li, l, n, If(x, y, z)) ==
      Code(c2.next, true, c.insns + Landing(c.flag, n) + [CJMP(false, n + 1)] + c1.insns + Parting(c1.flag, l)
                          + [LABEL(n + 1)] + c2.insns + Parting(c2.flag, l), Max(c.locals, Max(c1.locals, c2.locals)))
    ensures Size(x) < Size(If(x, y, z)) && Size(y) < Size(If(x, y, z)) && Size(z) < Size(If(x, y, z))
  {
    hide ExecValue, Compile;
    c, c1, c2 := IfCode(st, li, l, n, x, y, z);
  }

  lemma {:induction false} IfRuns(P: Prg, a: Machine, pc: nat, st: Names, li: nat, l: nat, n: nat, x: Expr, y: Expr,
      z: Expr, k: nat, fuel: nat, f: Renaming, w: World, d: Data) returns (f': Renaming, d': Data)
    requires Exec(If(x, y, z), w, fuel).Some? && Accepted(st, li, If(x, y, z), k)
    requires Placed(P, pc, Compile(st, li, l, n, If(x, y, z)), l) && Begins(P, a, pc, f, w, st, li, d)
    requires Compile(st, li, l, n, If(x, y, z)).locals <= |d.locals|
    ensures Ends(P, a, Exit(P, pc, Compile(st, li, l, n, If(x, y, z)), l), f,
      Shown(st, k, Exec(If(x, y, z), w, fuel).value), st, li, d, f', d')
    decreases fuel, Size(If(x, y, z)), 2
  {
    hide Goes, Holds, Ends, Begins, CodeAt, HasLabel, LabelsUnique, Compile, Accepted, Exec, ExecValue, Shown, Size;
    var c, c1, c2 := IfUnfolds(st, li, l, n, x, y, z, k, w, fuel);
    var p1, p2 := IfPlaced(P, pc, l, n, c, c1, c2);
    hide Placed, Parting;
    var (w1, v) := ExecValue(x, w, fuel).value;
    var f1, d1 := ValueRuns(P, a, pc, st, li, n, n + 2, x, [CJMP(false, n + 1)], fuel, f, w, d);
    var d2 := TestRuns(P, a, p1 - 1, false, n + 1, f, w1, v.n, st, li, d, f1, d1);
    var out := Shown(st, k, Exec(If(x, y, z), w, fuel).value);
    if v.n != 0 {
      f', d' := Simulates(P, a, p1, st, li, l, c.next, y, k, fuel, f1, w1, d2);
      LeaveRuns(P, a, p1, c1, l, f1, out, st, li, d2, f', d');
    } else {
      f', d' := Simulates(P, a, p2, st, li, l, c1.next, z, k, fuel, f1, w1, d2);
      LeaveRuns(P, a, p2, c2, l, f1, out, st, li, d2, f', d');
    }
    EndsAfter(P, a, Labeled(P, l), f, d, f1, d2, out, st, li, f', d');
  }

  // Loops

  /** The code of a loop: the condition at `pcond`, which jumps back to the body at `pbody`,
      which in turn leads to the condition, by falling through or by a jump to `lcond`. */
  ghost predicate LoopPlaced(P: Prg, st: Names, li: nat, n: nat, x: Expr, y: Expr, pcond: nat, pbody: nat) {
    var c := Compile(st, li, n, n + 3, x);
    var b := Compile(st, li, n + 2, c.next, y);
    && LabelsUnique(P) && CodeAt(P, pcond, c.insns + Landing(c.flag, n) + [CJMP(true, n + 1)])
    && HasLabel(P, n + 1) && Labeled(P, n + 1) == pbody
    && Placed(P, pbody, b, n + 2)
    && (Exit(P, pbody, b, n + 2) == pcond
        || (Exit(P, pbody, b, n + 2) + 1 == pcond && CodeAt(P, pcond - 1, [LABEL(n + 2)])))
  }

  ghost function LoopEnd(st: Names, li: nat, n: nat, x: Expr, pcond: nat): nat {
    var c := Compile(st, li, n, n + 3, x);
    pcond + |c.insns + Landing(c.flag, n)| + 1
  }

  lemma WhileUnfolds(x: Expr, y: Expr, w: World, fuel: nat)
    requires Exec(While(x, y), w, fuel).Some?
    ensures ExecValue(x, w, fuel).Some? && ExecValue(x, w, fuel).value.1.Int?
    ensures var (w1, v) := ExecValue(x, w, fuel).value;
      if v.n == 0 then Exec(While(x, y), w, fuel) == Some(Outcome(w1, []))
      else
        && fuel > 0 && Exec(y, w1, fuel).Some? && Exec(y, w1, fuel).value.vs == []
        && Exec(While(x, y), w, fuel) == Exec(While(x, y), Exec(y, w1, fuel).value.w, fuel - 1)
    ensures Size(While(x, y)) == 1 + Size(x) + Size(y)
  {
    hide ExecValue;
  }

  /** The body, from its start to the condition. */
  lemma {:induction false} BodyRuns(P: Prg, a: Machine, st: Names, li: nat, n: nat, x: Expr, y: Expr, pcond: nat,
      pbody: nat, fuel: nat, f: Renaming, w: World, d: Data) returns (f': Renaming, d': Data)
    requires Exec(y, w, fuel).Some? && Exec(y, w, fuel).value.vs == [] && Accepted(st, li, y, 0)
    requires LoopPlaced(P, st, li, n, x, y, pcond, pbody) && Begins(P, a, pbody, f, w, st, li, d)
    requires Compile(st, li, n + 2, Compile(st, li, n, n + 3, x).next, y).locals <= |d.locals|
    ensures Begins(P, a, pcond, f', Exec(y, w, fuel).value.w, st, li, d')
    ensures f <= f' && d'.stack == d.stack && |d'.locals| == |d.locals|
    decreases fuel, Size(y), 4
  {
    hide Goes, Holds, CodeAt, HasLabel, LabelsUnique, Compile, Accepted, Exec, Placed, Size;
    var c := Compile(st, li, n, n + 3, x);
    var b := Compile(st, li, n + 2, c.next, y);
    var out := Exec(y, w, fuel).value;
    ExitDefined(P, pbody, b, n + 2);
    f', d' := Simulates(P, a, pbody, st, li, n + 2, c.next, y, 0, fuel, f, w, d);
    assert RenameAll(f', []) + d.stack == d.stack;
    if Exit(P, pbody, b, n + 2) != pcond {
      SkipLabel(P, a, pcond - 1, LABEL(n + 2), d');
    }
  }

  lemma {:induction false} LoopRuns(P: Prg, a: Machine, st: Names, li: nat, n: nat, x: Expr, y: Expr, pcond: nat,
      pbody: nat, fuel: nat, f: Renaming, w: World, d: Data) returns (f': Renaming, d': Data)
    requires Exec(While(x, y), w, fuel).Some? && Accepted(st, li, x, 1) && Accepted(st, li, y, 0)
    requires LoopPlaced(P, st, li, n, x, y, pcond, pbody) && Begins(P, a, pcond, f, w, st, li, d)
    requires Compile(st, li, n, n + 3, x).locals <= |d.locals|
    requires Compile(st, li, n + 2, Compile(st, li, n, n + 3, x).next, y).locals <= |d.locals|
    ensures Ends(P, a, LoopEnd(st, li, n, x, pcond), f, Exec(While(x, y), w, fuel).value, st, li, d, f', d')
    decreases fuel, Size(While(x, y)), 1
  {
    hide Goes, Holds, Begins, Ends, CodeAt, HasLabel, LabelsUnique, Compile, Accepted, Exec, ExecValue, Placed, Exit,
      Size;
    WhileUnfolds(x, y, w, fuel);
    var (w1, v) := ExecValue(x, w, fuel).value;
    var f1, d1 := ValueRuns(P, a, pcond, st, li, n, n + 3, x, [CJMP(true, n + 1)], fuel, f, w, d);
    var end := LoopEnd(st, li, n, x, pcond);
    var d2 := TestRuns(P, a, end - 1, true, n + 1, f, w1, v.n, st, li, d, f1, d1);
    if v.n == 0 {
      EndsNothing(P, a, end, f1, w1, st, li, d2);
      EndsAfter(P, a, end, f, d, f1, d2, Outcome(w1, []), st, li, f1, d2);
      f', d' := f1, d2;
    } else {
      var w2 := Exec(y, w1, fuel).value.w;
      var out := Exec(While(x, y), w, fuel).value;
      var f3, d3 := BodyRuns(P, a, st, li, n, x, y, pcond, pbody, fuel, f1, w1, d2);
      f', d' := LoopRuns(P, a, st, li, n, x, y, pcond, pbody, fuel - 1, f3, w2, d3);
      EndsAfter(P, a, end, f1, d2, f3, d3, out, st, li, f', d');
      EndsAfter(P, a, end, f, d, f1, d2, out, st, li, f', d');
    }
  }

  lemma AcceptedLoop(st: Names, li: nat, x: Expr, y: Expr)
    requires Accepted(st, li, While(x, y), 0)
    ensures Accepted(st, li, x, 1) && Accepted(st, li, y, 0)
  {
  }

  lemma WhilePlaced(P: Prg, pc: nat, n: nat, c: Code, b: Code) returns (pcond: nat)
    requires LabelsUnique(P)
    requires CodeAt(P, pc, [JMP(n + 2), FLABEL(n + 1)] + b.insns + [LABEL(n + 2)] + c.insns + Landing(c.flag, n)
      + [CJMP(true, n + 1)])
    ensures pcond == pc + 2 + |b.insns| + 1 && CodeAt(P, pc, [JMP(n + 2)])
    ensures HasLabel(P, n + 2) && Labeled(P, n + 2) == pcond && CodeAt(P, pcond - 1, [LABEL(n + 2)])
    ensures HasLabel(P, n + 1) && Labeled(P, n + 1) == pc + 2 && CodeAt(P, pc + 2, b.insns)
    ensures CodeAt(P, pcond, c.insns + Landing(c.flag, n) + [CJMP(true, n + 1)])
  {
    hide CodeAt, HasLabel, LabelsUnique;
    var head := [JMP(n + 2), FLABEL(n + 1)];
    CodeSplits(P, pc, head, b.insns, [LABEL(n + 2)], c.insns, Landing(c.flag, n), [CJMP(true, n + 1)]);
    pcond := pc + 2 + |b.insns| + 1;
    assert head == [JMP(n + 2)] + [FLABEL(n + 1)];
    CodeHead(P, pc, JMP(n + 2), [FLABEL(n + 1)]);
    LabelHere(P, pc + 1, FLABEL(n + 1), n + 1);
    LabelHere(P, pcond - 1, LABEL(n + 2), n + 2);
  }

  lemma {:induction false} WhileRuns(P: Prg, a: Machine, pc: nat, st: Names, li: nat, l: nat, n: nat, x: Expr, y: Expr,
                                     fuel: nat, f: Renaming, w: World, d: Data) returns (f': Renaming, d': Data)
    requires Exec(While(x, y), w, fuel).Some? && Accepted(st, li, While(x, y), 0)
    requires Placed(P, pc, Compile(st, li, l, n, While(x, y)), l) && Begins(P, a, pc, f, w, st, li, d)
    requires Compile(st, li, l, n, While(x, y)).locals <= |d.locals|
    ensures Ends(P, a, Exit(P, pc, Compile(st, li, l, n, While(x, y)), l), f, Exec(While(x, y), w, fuel).value, st, li,
      d, f', d')
    decreases fuel, Size(While(x, y)), 2
  {
    hide Goes, Holds, Ends, CodeAt, HasLabel, LabelsUnique, Compile, Accepted, Exec, Size;
    AcceptedLoop(st, li, x, y);
    var c, b := WhileCode(st, li, l, n, x, y);
    var pcond := WhilePlaced(P, pc, n, c, b);
    Jump(P, pc, n + 2, d);
    GoesTrans(P, a, Machine(pc, d), Machine(pcond, d));
    f', d' := LoopRuns(P, a, st, li, n, x, y, pcond, pc + 2, fuel, f, w, d);
  }

  lemma DoWhileUnfolds(st: Names, li: nat, l: nat, n: nat, x: Expr, y: Expr, w: World, fuel: nat)
    returns (c: Code, b: Code)
    requires Exec(DoWhile(y, x), w, fuel).Some? && Accepted(st, li, DoWhile(y, x), 0)
    ensures Exec(y, w, fuel).Some? && Exec(y, w, fuel).value.vs == []
    ensures Exec(DoWhile(y, x), w, fuel) == Exec(While(x, y), Exec(y, w, fuel).value.w, fuel)
    ensures Accepted(st, li, x, 1) && Accepted(st, li, y, 0)
    ensures c == Compile(st, li, n, n + 3, x) && b == Compile(st, li, n + 2, c.next, y)
    ensures Compile(st, li, l, n, DoWhile(y, x)) ==
      Code(b.next, false, [LABEL(n + 1)] + b.insns + Landing(b.flag, n + 2) + c.insns + Landing(c.flag, n)
        + [CJMP(true, n + 1)],
           Max(c.locals, b.locals))
    ensures Size(DoWhile(y, x)) == Size(While(x, y)) + 1 == Size(x) + Size(y) + 2
  {
    hide Compile, Exec, Accepted;
    c, b := DoWhileCode(st, li, l, n, x, y);
    DoWhileExec(x, y, w, fuel);
    AcceptedDoWhile(st, li, x, y);
    assert Size(While(x, y)) == 1 + Size(x) + Size(y);
  }

  lemma DoWhileExec(x: Expr, y: Expr, w: World, fuel: nat)
    requires Exec(DoWhile(y, x), w, fuel).Some?
    ensures Exec(y, w, fuel).Some? && Exec(y, w, fuel).value.vs == []
    ensures Exec(DoWhile(y, x), w, fuel) == Exec(While(x, y), Exec(y, w, fuel).value.w, fuel)
  {
  }

  lemma AcceptedDoWhile(st: Names, li: nat, x: Expr, y: Expr)
    requires Accepted(st, li, DoWhile(y, x), 0)
    ensures Accepted(st, li, x, 1) && Accepted(st, li, y, 0)
  {
  }

  lemma DoWhilePlaced(P: Prg, pc: nat, n: nat, c: Code, b: Code) returns (pcond: nat)
    requires LabelsUnique(P)
    requires CodeAt(P, pc, [LABEL(n + 1)] + b.insns + Landing(b.flag, n + 2) + c.insns + Landing(c.flag, n)
      + [CJMP(true, n + 1)])
    ensures CodeAt(P, pc, [LABEL(n + 1)]) && HasLabel(P, n + 1) && Labeled(P, n + 1) == pc + 1
    ensures Placed(P, pc + 1, b, n + 2) && Exit(P, pc + 1, b, n + 2) == pcond
    ensures pcond == pc + 1 + |b.insns + Landing(b.flag, n + 2)|
    ensures CodeAt(P, pcond, c.insns + Landing(c.flag, n) + [CJMP(true, n + 1)])
  {
    hide CodeAt, HasLabel, LabelsUnique;
    CodeSplits(P, pc, [LABEL(n + 1)], b.insns, Landing(b.flag, n + 2), c.insns, Landing(c.flag, n),
      [CJMP(true, n + 1)]);
    CodeJoin(P, pc + 1, b.insns, Landing(b.flag, n + 2));
    pcond := pc + 1 + |b.insns + Landing(b.flag, n + 2)|;
    LabelHere(P, pc, LABEL(n + 1), n + 1);
    CodeNothing(P, pcond);
    CodeJoin(P, pc + 1, b.insns + Landing(b.flag, n + 2), []);
    Landed(P, pc + 1, b, n + 2, []);
  }

  lemma {:induction false} DoWhileRuns(P: Prg, a: Machine, pc: nat, st: Names, li: nat, l: nat, n: nat, x: Expr,
      y: Expr, fuel: nat, f: Renaming, w: World, d: Data) returns (f': Renaming, d': Data)
    requires Exec(DoWhile(y, x), w, fuel).Some? && Accepted(st, li, DoWhile(y, x), 0)
    requires Placed(P, pc, Compile(st, li, l, n, DoWhile(y, x)), l) && Begins(P, a, pc, f, w, st, li, d)
    requires Compile(st, li, l, n, DoWhile(y, x)).locals <= |d.locals|
    ensures Ends(P, a, Exit(P, pc, Compile(st, li, l, n, DoWhile(y, x)), l), f, Exec(DoWhile(y, x), w, fuel).value, st,
      li, d, f', d')
    decreases fuel, Size(DoWhile(y, x)), 2
  {
    hide Goes, Holds, Ends, CodeAt, HasLabel, LabelsUnique, Compile, Accepted, Exec, Size;
    var c, b := DoWhileUnfolds(st, li, l, n, x, y, w, fuel);
    var pcond := DoWhilePlaced(P, pc, n, c, b);
    SkipLabel(P, a, pc, LABEL(n + 1), d);
    var w1 := Exec(y, w, fuel).value.w;
    var out := Exec(DoWhile(y, x), w, fuel).value;
    var f1, d1 := BodyRuns(P, a, st, li, n, x, y, pcond, pc + 1, fuel, f, w, d);
    f', d' := LoopRuns(P, a, st, li, n, x, y, pcond, pc + 1, fuel, f1, w1, d1);
    EndsAfter(P, a, LoopEnd(st, li, n, x, pcond), f, d, f1, d1, out, st, li, f', d');
  }

  // Scopes

  lemma ScopeUnfolds(st: Names, li: nat, l: nat, n: nat, ds: seq<(string, Option<Expr>)>, x: Expr, k: nat, w: World,
      fuel: nat)
    returns (e: Expr, names: map<string, Kind>, xs: seq<string>, c: Code)
    requires Exec(Scope(ds, x), w, fuel).Some? && Accepted(st, li, Scope(ds, x), k)
    ensures e == WithInits(ds, x) && xs == DeclNames(ds) && names.Keys == set y | y in xs
    ensures Accepted(Open(st, xs, li), Above(st, xs, li), e, k) && (k == 2 ==> Free(xs, e))
    ensures Inside(e, w, map[], names, fuel) == Exec(Scope(ds, x), w, fuel)
    ensures c == Compile(Open(st, xs, li), Above(st, xs, li), l, n + 2, e)
    ensures Compile(st, li, l, n, Scope(ds, x)) ==
      Code(c.next, c.flag, [SLABEL(n)] + c.insns + [SLABEL(n + 1)], Max(c.locals, Above(st, xs, li)))
    ensures Size(e) < Size(Scope(ds, x))
  {
    hide WithInits, Inside, Open, Above, Compile, Size, Free;
    e, xs, c := ScopeCode(st, li, l, n, ds, x);
    names := map y | y in Declared(ds) :: Mut;
    DeclaredNames(ds);
  }

  lemma DeclaredNames(ds: seq<(string, Option<Expr>)>)
    ensures Declared(ds) == set y | y in DeclNames(ds)
  {
    forall y ensures y in Declared(ds) <==> y in DeclNames(ds) {
      if y in Declared(ds) {
        var i :| 0 <= i < |ds| && ds[i].0 == y;
        assert DeclNames(ds)[|ds| - 1 - i] == y;
      }
    }
  }

  lemma InsideUnfolds(e: Expr, w: World, vals: map<string, Value>, names: map<string, Kind>, fuel: nat)
    requires Inside(e, w, vals, names, fuel).Some?
    ensures var w1 := w.(st := Push(w.st, vals, names)); Exec(e, w1, fuel).Some?
    ensures var o := Exec(e, w.(st := Push(w.st, vals, names)), fuel).value;
      o.w.st.Local? ==> Inside(e, w, vals, names, fuel) == Some(o.(w := o.w.(st := o.w.st.up)))
  {
    hide Exec;
  }

  lemma EnterScope(P: Prg, a: Machine, pc: nat, f: Renaming, w: World, st: Names, li: nat, d: Data, xs: seq<string>,
                   names: map<string, Kind>)
    requires Begins(P, a, pc, f, w, st, li, d) && names.Keys == set x | x in xs
    requires Above(st, xs, li) <= |d.locals|
    ensures Begins(P, a, pc, f, w.(st := Push(w.st, map[], names)), Open(st, xs, li), Above(st, xs, li), d)
  {
    hide Goes, Agree, Stores, Fits, Slots;
    AgreeNotOutermost(f, w.st, st, d.globals, d.locals);
    OpenFits(st, xs, li);
    OpenAgrees(f, w.st, st, d.globals, d.locals, names, map[], xs, li);
  }

  lemma LeaveScope(P: Prg, a: Machine, exit: nat, f: Renaming, out: Outcome, st: Names, li: nat, xs: seq<string>,
      d: Data, f': Renaming, d': Data)
    requires Ends(P, a, exit, f, out, Open(st, xs, li), Above(st, xs, li), d, f', d') && !st.NoNames?
    requires Fits(st, li) && li <= |d.locals|
    ensures out.w.st.Local? && Ends(P, a, exit, f, out.(w := out.w.(st := out.w.st.up)), st, li, d, f', d')
  {
    hide Goes, Stores, Fits;
    CloseAgrees(f', out.w.st, st, d'.globals, d'.locals, xs, li);
  }

  lemma ScopePlaced(P: Prg, pc: nat, n: nat, c: Code, l: nat)
    requires Placed(P, pc, Code(c.next, c.flag, [SLABEL(n)] + c.insns + [SLABEL(n + 1)], c.locals), l)
    ensures CodeAt(P, pc, [SLABEL(n)]) && Placed(P, pc + 1, c, l)
    ensures CodeAt(P, pc + 1 + |c.insns|, [SLABEL(n + 1)])
  {
    hide CodeAt, HasLabel, LabelsUnique;
    CodeSplit(P, pc, [SLABEL(n)] + c.insns, [SLABEL(n + 1)]);
    CodeHead(P, pc, SLABEL(n), c.insns);
  }

  lemma {:induction false} ScopeRuns(P: Prg, a: Machine, pc: nat, st: Names, li: nat, l: nat, n: nat,
      ds: seq<(string, Option<Expr>)>, x: Expr, k: nat, fuel: nat, f: Renaming, w: World, d: Data)
      returns (f': Renaming, d': Data)
    requires Exec(Scope(ds, x), w, fuel).Some? && Accepted(st, li, Scope(ds, x), k)
    requires Placed(P, pc, Compile(st, li, l, n, Scope(ds, x)), l) && Begins(P, a, pc, f, w, st, li, d)
    requires Compile(st, li, l, n, Scope(ds, x)).locals <= |d.locals|
    ensures Ends(P, a, Exit(P, pc, Compile(st, li, l, n, Scope(ds, x)), l), f,
      Shown(st, k, Exec(Scope(ds, x), w, fuel).value), st, li, d, f', d')
    decreases fuel, Size(Scope(ds, x)), 2
  {
    hide Goes, Holds, Ends, CodeAt, HasLabel, LabelsUnique, Compile, Accepted, Exec, Shown, Free, Inside, Open, Above,
      Size;
    var e, names, xs, c := ScopeUnfolds(st, li, l, n, ds, x, k, w, fuel);
    ScopePlaced(P, pc, n, c, l);
    SkipLabel(P, a, pc, SLABEL(n), d);
    EnterScope(P, a, pc + 1, f, w, st, li, d, xs, names);
    InsideUnfolds(e, w, map[], names, fuel);
    var o := Exec(e, w.(st := Push(w.st, map[], names)), fuel).value;
    f', d' := Simulates(P, a, pc + 1, Open(st, xs, li), Above(st, xs, li), l, n + 2, e, k, fuel, f,
      w.(st := Push(w.st, map[], names)), d);
    HoldsFits(f, w, st, li, d);
    PlaceOutside(st, xs, li, e, k, w.(st := Push(w.st, map[], names)), fuel);
    var out := Shown(st, k, Exec(Scope(ds, x), w, fuel).value);
    LeaveScope(P, a, Exit(P, pc + 1, c, l), f, Shown(st, k, o), st, li, xs, d, f', d');
    InsideValues(e, w, map[], names, fuel);
    ShownMoved(st, k, o, Exec(Scope(ds, x), w, fuel).value);
    if !c.flag {
      EndsInsn(P, a, pc + 1 + |c.insns|, SLABEL(n + 1), f, out, out, st, li, d, f', d', f', d') by {
        MakesNothing(SLABEL(n + 1), P, a, pc + 1 + |c.insns|, f, out, st, li, d, f', d');
      }
    }
  }

  /** A place that is no variable of the scope is the same place outside. */
  lemma PlaceOutside(st: Names, xs: seq<string>, li: nat, e: Expr, k: nat, w: World, fuel: nat)
    requires !st.NoNames? && Exec(e, w, fuel).Some? && Accepted(Open(st, xs, li), Above(st, xs, li), e, k) &&
      (k == 2 ==> Free(xs, e))
    ensures Shown(Open(st, xs, li), k, Exec(e, w, fuel).value) == Shown(st, k, Exec(e, w, fuel).value)
  {
    var vs := Exec(e, w, fuel).value.vs;
    if k == 2 && |vs| == 1 && vs[0].RefVar? {
      PlaceNamed(Open(st, xs, li), Above(st, xs, li), e, vs[0].name, w, fuel);
      SlotsOf(xs, li);
      hide Exec, Accepted, Targets;
    }
  }

  lemma ShownMoved(st: Names, k: nat, o: Outcome, o': Outcome)
    requires o.vs == o'.vs
    ensures Shown(st, k, o').vs == Shown(st, k, o).vs && Shown(st, k, o').w == o'.w && Shown(st, k, o).w == o.w
  {
  }

  /** The variable that a place turns out to be is one of those that can be seen in the code. */
  lemma {:induction false} PlaceNamed(st: Names, li: nat, e: Expr, x: string, w: World, fuel: nat)
    requires Accepted(st, li, e, 2) && Exec(e, w, fuel).Some? && Exec(e, w, fuel).value.vs == [RefVar(x)]
    ensures x in Targets(e)
    decreases fuel, Size(e), 1
  {
    if e.Seq? {
      PlaceNamed(st, li, e.second, x, Exec(e.first, w, fuel).value.w, fuel);
    } else if e.If? {
      var (w1, v) := ExecValue(e.cond, w, fuel).value;
      PlaceNamed(st, li, if v.n != 0 then e.thn else e.els, x, w1, fuel);
    } else if e.Case? {
      var (w1, v) := ExecValue(e.scrutinee, w, fuel).value;
      BranchNamed(st, li, e.branches, x, v, w1, fuel);
    } else if e.Scope? {
      ScopeNamed(st, li, e.decls, e.body, x, w, fuel);
    }
  }

  lemma {:induction false} ScopeNamed(st: Names, li: nat, ds: seq<(string, Option<Expr>)>, body: Expr, x: string,
      w: World, fuel: nat)
    requires Accepted(st, li, Scope(ds, body), 2) && Exec(Scope(ds, body), w, fuel).Some?
    requires Exec(Scope(ds, body), w, fuel).value.vs == [RefVar(x)]
    ensures x in Targets(body)
    decreases fuel, Size(Scope(ds, body)), 0
  {
    var e, names, xs, _ := ScopeUnfolds(st, li, 0, 0, ds, body, 2, w, fuel);
    hide Exec, Accepted, Free, Open, Above, Targets, Size;
    InsideUnfolds(e, w, map[], names, fuel);
    InsideValues(e, w, map[], names, fuel);
    PlaceNamed(Open(st, xs, li), Above(st, xs, li), e, x, w.(st := Push(w.st, map[], names)), fuel);
    InitsTargets(ds, body);
  }

  lemma InsideValues(e: Expr, w: World, vals: map<string, Value>, names: map<string, Kind>, fuel: nat)
    requires Inside(e, w, vals, names, fuel).Some?
    ensures Exec(e, w.(st := Push(w.st, vals, names)), fuel).Some?
    ensures Exec(e, w.(st := Push(w.st, vals, names)), fuel).value.vs == Inside(e, w, vals, names, fuel).value.vs
  {
    hide Exec;
  }

  lemma {:induction false} InitsTargets(ds: seq<(string, Option<Expr>)>, body: Expr)
    ensures Targets(WithInits(ds, body)) == Targets(body)
  {
    if ds != [] {
      InitsTargets(ds[1..], body);
    }
  }

  lemma {:induction false} BranchNamed(st: Names, li: nat, brs: seq<(Pattern, Expr)>, x: string, v: Value, w: World,
      fuel: nat)
    requires AcceptedBranches(st, li, brs, 2) && ExecBranches(brs, v, w, fuel).Some?
    requires ExecBranches(brs, v, w, fuel).value.vs == [RefVar(x)]
    ensures x in BranchTargets(brs)
    decreases fuel, SizeBranches(brs), 0
  {
    hide Exec, Accepted, DistinctNames, Bindings, BoundNames, Open, Above, Free, Targets, Size, MatchPattern,
      PatternVars, Inside;
    assert SizeBranch(brs[0]) == Size(brs[0].1) && BranchTarget(brs[0]) == Targets(brs[0].1);
    match MatchPattern(brs[0].0, v, w.store, Some(map[]))
    case Some(m) =>
      var names := map y | y in PatternVars(brs[0].0) :: Unmut;
      var xs := BoundNames(Bindings(brs[0].0, []));
      InsideValues(brs[0].1, w, m, names, fuel);
      PlaceNamed(Open(st, xs, li), Above(st, xs, li), brs[0].1, x, w.(st := Push(w.st, m, names)), fuel);
    case None =>
      BranchNamed(st, li, brs[1..], x, v, w, fuel);
  }

  lemma HoldsWary(f: Renaming, w: World, st: Names, li: nat, d: Data)
    requires Holds(f, w, st, li, d)
    ensures w.wary
  {
  }

  lemma HoldsFits(f: Renaming, w: World, st: Names, li: nat, d: Data)
    requires Holds(f, w, st, li, d)
    ensures Fits(st, li) && li <= |d.locals| && !st.NoNames?
  {
    AgreeNotOutermost(f, w.st, st, d.globals, d.locals);
  }

  lemma MakesNothing(i: Insn, P: Prg, a: Machine, pc: nat, f: Renaming, out: Outcome, st: Names, li: nat, d: Data,
      f': Renaming, d': Data)
    requires i.SLABEL? && Ends(P, a, pc, f, out, st, li, d, f', d')
    ensures Makes(i, f', out, out, st, li, d', d.stack, f', d')
  {
    hide Goes, Holds;
  }

  // Branches of a case

  lemma BranchUnfolds(st: Names, li: nat, l: nat, lfail: nat, n: nat, brs: seq<(Pattern, Expr)>, lab: Option<nat>,
      k: nat)
    returns (lfalse: nat, n0: nat, n1: nat, canFail: bool, pcode: Prg, c: Code, rest: (Code, bool))
    requires brs != [] && AcceptedBranches(st, li, brs, k)
    ensures lfalse == (if |brs| == 1 then lfail else n) && PatternCode(brs[0].0, lfalse, n0) == (n1, canFail, pcode)
    ensures var bs := Bindings(brs[0].0, []); var xs := BoundNames(bs); var inner := Open(st, xs, li);
      && c == Compile(inner, Above(st, xs, li), l, n1 + 2, brs[0].1)
      && (canFail && |brs| > 1 ==> rest == CompileBranches(st, li, l, lfail, c.next, brs[1..], Some(lfalse)))
      && (canFail && |brs| > 1 ==> AcceptedBranches(st, li, brs[1..], k))
      && (!(canFail && |brs| > 1) ==> rest == (Code(c.next, false, [], 0), canFail))
      && CompileBranches(st, li, l, lfail, n, brs, lab).0.insns ==
         Entry(n1, lab) + pcode + (BindCode(inner, bs) + [DROP]) + c.insns
         + (if |brs| == 1 then [] else [JMP(l)]) + [SLABEL(n1 + 1)] + rest.0.insns
      && CompileBranches(st, li, l, lfail, n, brs, lab).1 == rest.1
      && CompileBranches(st, li, l, lfail, n, brs, lab).0.locals >= c.locals
      && CompileBranches(st, li, l, lfail, n, brs, lab).0.locals >= rest.0.locals
      && CompileBranches(st, li, l, lfail, n, brs, lab).0.locals >= Above(st, xs, li)
      && Accepted(inner, Above(st, xs, li), brs[0].1, k) && (k == 2 ==> Free(xs, brs[0].1)) && DistinctNames(bs)
    ensures Size(brs[0].1) < SizeBranches(brs)
    ensures |brs| > 1 ==> SizeBranches(brs[1..]) < SizeBranches(brs)
  {
    hide Compile, CompileBranches, Accepted, Bindings, BindCode, PatternCode, BoundNames, Open, Above, Entry, Size,
      SizeBranches, Free;
    lfalse, n0, n1, canFail, pcode, c, rest := BranchCode(st, li, l, lfail, n, brs, lab);
  }

  /** Where the parts of a branch are. */
  lemma BranchPlaced(P: Prg, pc: nat, entry: Prg, pcode: Prg, bcode: Prg, code: Prg, tail: Prg, rest: Prg, l: nat)
    returns (p1: nat, p2: nat, p3: nat, p4: nat, p5: nat)
    requires CodeAt(P, pc, entry + pcode + bcode + code + tail + rest + [JMP(l)])
    ensures p1 == pc + |entry| && p2 == p1 + |pcode| && p3 == p2 + |bcode| && p4 == p3 + |code| && p5 == p4 + |tail|
    ensures CodeAt(P, pc, entry) && CodeAt(P, p1, pcode) && CodeAt(P, p2, bcode) && CodeAt(P, p3, code)
    ensures CodeAt(P, p4, tail + (rest + [JMP(l)])) && CodeAt(P, p5, rest + [JMP(l)])
  {
    hide CodeAt;
    var t5 := rest + [JMP(l)];
    p1 := pc + |entry|; p2 := p1 + |pcode|; p3 := p2 + |bcode|; p4 := p3 + |code|; p5 := p4 + |tail|;
    assert entry + pcode + bcode + code + tail + rest + [JMP(l)] == entry + pcode + bcode + code + (tail + t5);
    CodeSplit(P, pc, entry + pcode + bcode + code, tail + t5);
    CodeSplit(P, pc, entry + pcode + bcode, code);
    CodeSplit(P, pc, entry + pcode, bcode);
    CodeSplit(P, pc, entry, pcode);
    CodeSplit(P, p4, tail, t5);
  }

  /** Where a branch is entered: by falling in with two copies of the value, or by the jump of
      the branch before with one. */
  ghost predicate AtBranch(P: Prg, a: Machine, pc: nat, lab: Option<nat>, d: Data)
    requires |d.stack| > 0
  {
    match lab
    case None => Goes(P, a, Machine(pc, d.(stack := [d.stack[0]] + d.stack)))
    case Some(l) => HasLabel(P, l) && Goes(P, a, Machine(Labeled(P, l), d))
  }

  lemma EntryRuns(P: Prg, a: Machine, pc: nat, blab: nat, lab: Option<nat>, d: Data)
    requires |d.stack| > 0 && AtBranch(P, a, pc, lab, d) && LabelsUnique(P) && CodeAt(P, pc, Entry(blab, lab))
    ensures Goes(P, a, Machine(pc + |Entry(blab, lab)|, d.(stack := [d.stack[0]] + d.stack)))
  {
    hide Goes, CodeAt, HasLabel, LabelsUnique;
    var d1 := d.(stack := [d.stack[0]] + d.stack);
    match lab
    case None =>
      SkipLabel(P, a, pc, SLABEL(blab), d1);
    case Some(l) =>
      assert Entry(blab, lab) == [SLABEL(blab)] + ([LABEL(l)] + [DUP]);
      CodeHead(P, pc, SLABEL(blab), [LABEL(l)] + [DUP]);
      CodeHead(P, pc + 1, LABEL(l), [DUP]);
      LabelHere(P, pc + 1, LABEL(l), l);
      Duplicate(P, a, pc + 2, d);
  }

  /** The failure label of a branch is at the entry of the next one. */
  lemma NextEntry(P: Prg, pc: nat, blab: nat, l: nat, more: Prg)
    requires LabelsUnique(P) && CodeAt(P, pc, Entry(blab, Some(l)) + more)
    ensures HasLabel(P, l)
  {
    hide CodeAt, HasLabel, LabelsUnique;
    CodeSplit(P, pc, Entry(blab, Some(l)), more);
    assert Entry(blab, Some(l)) == [SLABEL(blab)] + ([LABEL(l)] + [DUP]);
    CodeHead(P, pc, SLABEL(blab), [LABEL(l)] + [DUP]);
    CodeHead(P, pc + 1, LABEL(l), [DUP]);
    LabelHere(P, pc + 1, LABEL(l), l);
  }

  /** From the end of a branch to the target of the case. */
  lemma BranchEnds(P: Prg, a: Machine, pc: nat, c: Code, elab: nat, last: bool, rest: Prg, l: nat, f: Renaming,
      out: Outcome, st: Names, li: nat, d: Data, f': Renaming, d': Data)
    requires Placed(P, pc, c, l) && HasLabel(P, l) && (last ==> rest == [])
    requires CodeAt(P, pc + |c.insns|, (if last then [] else [JMP(l)]) + [SLABEL(elab)] + (rest + [JMP(l)]))
    requires Ends(P, a, Exit(P, pc, c, l), f, out, st, li, d, f', d')
    ensures Ends(P, a, Labeled(P, l), f, out, st, li, d, f', d')
  {
    hide Goes, Holds, CodeAt, HasLabel, LabelsUnique;
    var q := pc + |c.insns|;
    if !c.flag {
      if last {
        assert [] + [SLABEL(elab)] + (rest + [JMP(l)]) == [SLABEL(elab)] + [JMP(l)];
        CodeHead(P, q, SLABEL(elab), [JMP(l)]);
        SkipLabel(P, a, q, SLABEL(elab), d');
        q := q + 1;
      } else {
        assert [JMP(l)] + [SLABEL(elab)] + (rest + [JMP(l)]) == [JMP(l)] + ([SLABEL(elab)] + (rest + [JMP(l)]));
        CodeHead(P, q, JMP(l), [SLABEL(elab)] + (rest + [JMP(l)]));
      }
      Jump(P, q, l, d');
      GoesTrans(P, a, Machine(q, d'), Machine(Labeled(P, l), d'));
    }
  }

  lemma BranchChosen(brs: seq<(Pattern, Expr)>, v: Value, w: World, fuel: nat)
    requires brs != [] && ExecBranches(brs, v, w, fuel).Some? && w.wary
    ensures Accepts(brs[0].0, v, w.store) <==> MatchPattern(brs[0].0, v, w.store, Some(map[])).Some?
    ensures Accepts(brs[0].0, v, w.store) ==>
      ExecBranches(brs, v, w, fuel) == Inside(brs[0].1, w, MatchPattern(brs[0].0, v, w.store, Some(map[])).value,
                                              map x | x in PatternVars(brs[0].0) :: Unmut, fuel)
    ensures !Accepts(brs[0].0, v, w.store) ==>
      |brs| > 1 && ExecBranches(brs, v, w, fuel) == ExecBranches(brs[1..], v, w, fuel)
  {
    hide Accepts, MatchPattern, BoxOnOther, Inside;
    AcceptsMatches(brs[0].0, v, w.store);
    if |brs| == 1 {
      assert brs[1..] == [] && ExecBranches([], v, w, fuel) == None;
    }
  }
  /** The pattern of a branch has been tested: the data afterwards. */
  lemma PatternTested(P: Prg, a: Machine, pc: nat, p: Pattern, lfalse: nat, n0: nat, f: Renaming, w: World, v: Value,
      st: Names, li: nat, d: Data) returns (d': Data)
    requires LabelsUnique(P) && CodeAt(P, pc, PatternCode(p, lfalse, n0).2) &&
      (PatternCode(p, lfalse, n0).1 ==> HasLabel(P, lfalse))
    requires Holds(f, w, st, li, d) && Known(f, v) && |d.stack| > 0 && d.stack[0] == Rename(f, v)
    requires Goes(P, a, Machine(pc, d.(stack := [d.stack[0]] + d.stack)))
    ensures d'.stack == d.stack && |d'.locals| == |d.locals| && Holds(f, w, st, li, d')
    ensures !Accepts(p, v, w.store) ==> PatternCode(p, lfalse, n0).1 && AtBranch(P, a, 0, Some(lfalse), d')
    ensures Accepts(p, v, w.store) ==> Goes(P, a, Machine(pc + |PatternCode(p, lfalse, n0).2|, d'))
  {
    hide Goes, CodeAt, HasLabel, LabelsUnique, PatternCode, Accepts, Agree, Stores, Fits, Rename, Known;
    var d1 := d.(stack := [d.stack[0]] + d.stack);
    d' := PatternRuns(P, a, pc, p, lfalse, n0, f, w.store, v, d1, d.stack);
  }

  /** The bindings of a branch whose pattern matches, seen as entering a scope. */
  lemma BranchEntered(P: Prg, a: Machine, pc: nat, p: Pattern, f: Renaming, w: World, v: Value, st: Names, li: nat,
      d: Data)
    returns (d': Data)
    requires Holds(f, w, st, li, d) && Known(f, v) && |d.stack| > 0 && d.stack[0] == Rename(f, v) &&
      Goes(P, a, Machine(pc, d))
    requires MatchPattern(p, v, w.store, Some(map[])).Some? && DistinctNames(Bindings(p, []))
    requires CodeAt(P, pc, BindCode(Open(st, BoundNames(Bindings(p, [])), li), Bindings(p, [])) + [DROP])
    requires Above(st, BoundNames(Bindings(p, [])), li) <= |d.locals|
    ensures d'.stack == d.stack[1..] && |d'.locals| == |d.locals|
    ensures var m := MatchPattern(p, v, w.store, Some(map[])).value; var xs := BoundNames(Bindings(p, []));
      Begins(P, a, pc + |BindCode(Open(st, xs, li), Bindings(p, [])) + [DROP]|, f,
             w.(st := Push(w.st, m, map x | x in PatternVars(p) :: Unmut)), Open(st, xs, li), Above(st, xs, li), d')
  {
    hide Goes, CodeAt, MatchPattern, Bindings, DistinctNames, BoundNames, BindCode, Agree, Stores, Fits, Rename, Known,
      PatternVars, Open, Above;
    assert d.stack == [Rename(f, v)] + d.stack[1..];
    d' := BranchBound(P, a, pc, st, li, p, f, w.st, w.store, v, d, d.stack[1..]);
    AgreeNotOutermost(f, w.st, st, d.globals, d.locals);
    OpenFits(st, BoundNames(Bindings(p, [])), li);
  }

  lemma {:induction false} BranchesRun(P: Prg, a: Machine, pc: nat, st: Names, li: nat, l: nat, lfail: nat, n: nat,
      brs: seq<(Pattern, Expr)>, lab: Option<nat>, k: nat, v: Value, fuel: nat, f: Renaming, w: World, d: Data)
    returns (f': Renaming, d': Data)
    requires ExecBranches(brs, v, w, fuel).Some? && AcceptedBranches(st, li, brs, k)
    requires LabelsUnique(P) && HasLabel(P, l) &&
      (CompileBranches(st, li, l, lfail, n, brs, lab).1 ==> HasLabel(P, lfail))
    requires CodeAt(P, pc, CompileBranches(st, li, l, lfail, n, brs, lab).0.insns + [JMP(l)])
    requires CompileBranches(st, li, l, lfail, n, brs, lab).0.locals <= |d.locals|
    requires Holds(f, w, st, li, d) && Known(f, v) && |d.stack| > 0 && d.stack[0] == Rename(f, v) &&
      AtBranch(P, a, pc, lab, d)
    ensures Ends(P, a, Labeled(P, l), f, Shown(st, k, ExecBranches(brs, v, w, fuel).value), st, li,
      d.(stack := d.stack[1..]), f', d')
    decreases fuel, SizeBranches(brs), 0
  {
    hide Goes, CodeAt, HasLabel, LabelsUnique, Holds, Accepted, AcceptedBranches, Accepts, Rename, Known, ExecBranches,
      Inside, Exec, Shown, Free, MatchPattern, DistinctNames, Bindings, BoundNames, BindCode, PatternVars,
      PatternCode, Open, Above, Compile, CompileBranches, Entry, Size, SizeBranches, Placed, AtBranch, Ends, Begins,
        Exit;
    assert brs != [] by { NoBranches(v, w, fuel); }
    var p, body := brs[0].0, brs[0].1;
    var lfalse, n0, n1, canFail, pcode, c, rest := BranchUnfolds(st, li, l, lfail, n, brs, lab, k);
    var bs := Bindings(p, []);
    var xs := BoundNames(bs);
    var inner, li' := Open(st, xs, li), Above(st, xs, li);
    var bcode := BindCode(inner, bs) + [DROP];
    var tail := (if |brs| == 1 then [] else [JMP(l)]) + [SLABEL(n1 + 1)];
    assert Entry(n1, lab) + pcode + bcode + c.insns + (if |brs| == 1 then [] else [JMP(l)]) + [SLABEL(n1 + 1)]
      + rest.0.insns
        == Entry(n1, lab) + pcode + bcode + c.insns + tail + rest.0.insns;
    var p1, p2, p3, p4, p5 := BranchPlaced(P, pc, Entry(n1, lab), pcode, bcode, c.insns, tail, rest.0.insns, l);
    if canFail && |brs| > 1 {
      RestEntry(P, p5, st, li, l, lfail, c.next, brs[1..], lfalse, k);
    }
    EntryRuns(P, a, pc, n1, lab, d);
    var d2 := PatternTested(P, a, p1, p, lfalse, n0, f, w, v, st, li, d);
    HoldsWary(f, w, st, li, d);
    BranchChosen(brs, v, w, fuel);
    if Accepts(p, v, w.store) {
      var m := MatchPattern(p, v, w.store, Some(map[])).value;
      var names := map x | x in PatternVars(p) :: Unmut;
      var w1 := w.(st := Push(w.st, m, names));
      var d3 := BranchEntered(P, a, p2, p, f, w, v, st, li, d2);
      InsideUnfolds(body, w, m, names, fuel);
      PlacedAt(P, p3, c, l);
      f', d' := Simulates(P, a, p3, inner, li', l, n1 + 2, body, k, fuel, f, w1, d3);
      HoldsFits(f, w, st, li, d2);
      ExitDefined(P, p3, c, l);
      var o := Exec(body, w1, fuel).value;
      InsideValues(body, w, m, names, fuel);
      PlaceOutside(st, xs, li, body, k, w1, fuel);
      LeaveScope(P, a, Exit(P, p3, c, l), f, Shown(st, k, o), st, li, xs, d3, f', d');
      ShownMoved(st, k, o, ExecBranches(brs, v, w, fuel).value);
      var out := Shown(st, k, ExecBranches(brs, v, w, fuel).value);
      BranchEnds(P, a, p3, c, n1 + 1, |brs| == 1, rest.0.insns, l, f, out, st, li, d3, f', d');
      EndsAfter(P, a, Labeled(P, l), f, d.(stack := d.stack[1..]), f, d3, out, st, li, f', d');
    } else {
      AtBranchAnywhere(P, a, p5, lfalse, d2);
      f', d' := BranchesRun(P, a, p5, st, li, l, lfail, c.next, brs[1..], Some(lfalse), k, v, fuel, f, w, d2);
      EndsAfter(P, a, Labeled(P, l), f, d.(stack := d.stack[1..]), f, d2.(stack := d2.stack[1..]),
        Shown(st, k, ExecBranches(brs, v, w, fuel).value), st, li, f', d');
    }
  }

  lemma NoBranches(v: Value, w: World, fuel: nat)
    ensures ExecBranches([], v, w, fuel).None?
  {
  }

  lemma PlacedAt(P: Prg, pc: nat, c: Code, l: nat)
    requires LabelsUnique(P) && HasLabel(P, l) && CodeAt(P, pc, c.insns)
    ensures Placed(P, pc, c, l)
  {
  }

  lemma AtBranchAnywhere(P: Prg, a: Machine, pc: nat, l: nat, d: Data)
    requires |d.stack| > 0 && AtBranch(P, a, 0, Some(l), d)
    ensures AtBranch(P, a, pc, Some(l), d)
  {
  }

  lemma RestEntry(P: Prg, pc: nat, st: Names, li: nat, l: nat, lfail: nat, n: nat, brs: seq<(Pattern, Expr)>, lab: nat,
      k: nat)
    requires brs != [] && AcceptedBranches(st, li, brs, k) && LabelsUnique(P)
    requires CodeAt(P, pc, CompileBranches(st, li, l, lfail, n, brs, Some(lab)).0.insns + [JMP(l)])
    ensures HasLabel(P, lab)
  {
    hide CodeAt, HasLabel, LabelsUnique, CompileBranches, AcceptedBranches, PatternCode, Bindings, BindCode, Open,
      Above, Compile, Accepted;
    var lfalse, n0, n1, canFail, pcode, c, rest := BranchUnfolds(st, li, l, lfail, n, brs, Some(lab), k);
    var bcode := BindCode(Open(st, BoundNames(Bindings(brs[0].0, [])), li), Bindings(brs[0].0, [])) + [DROP];
    var j := if |brs| == 1 then [] else [JMP(l)];
    var more := pcode + bcode + c.insns + j + [SLABEL(n1 + 1)] + rest.0.insns + [JMP(l)];
    assert Entry(n1, Some(lab)) + pcode + bcode + c.insns + j + [SLABEL(n1 + 1)] + rest.0.insns + [JMP(l)]
      == Entry(n1, Some(lab)) + more;
    NextEntry(P, pc, n1, lab, more);
  }

  lemma CaseUnfolds(st: Names, li: nat, l: nat, n: nat, x: Expr, brs: seq<(Pattern, Expr)>, valued: bool, k: nat,
      w: World, fuel: nat) returns (c: Code, b: (Code, bool))
    requires Exec(Case(x, brs, valued), w, fuel).Some? && Accepted(st, li, Case(x, brs, valued), k)
    ensures Accepted(st, li, x, 1) && AcceptedBranches(st, li, brs, k) && ExecValue(x, w, fuel).Some?
    ensures var (w1, v) := ExecValue(x, w, fuel).value;
      Exec(Case(x, brs, valued), w, fuel) == ExecBranches(brs, v, w1, fuel)
    ensures c == Compile(st, li, n + 1, n + 2, x) && b == CompileBranches(st, li, l, n, c.next, brs, None)
    ensures Compile(st, li, l, n, Case(x, brs, valued)) ==
      Code(b.0.next, true,
           c.insns + Landing(c.flag, n + 1) + [DUP] + b.0.insns + [JMP(l)]
             + (if b.1 then [LABEL(n), FAIL(valued), JMP(l)] else []),
           Max(c.locals, b.0.locals))
    ensures Size(x) < Size(Case(x, brs, valued)) && SizeBranches(brs) < Size(Case(x, brs, valued))
  {
    hide ExecValue, ExecBranches, Compile, CompileBranches, AcceptedBranches, SizeBranches;
    c, b := CaseCode(st, li, l, n, x, brs, valued);
  }

  lemma CasePlaced(P: Prg, pc: nat, n: nat, l: nat, c: Code, b: Prg, fail: bool, valued: bool) returns (p1: nat)
    requires LabelsUnique(P)
    requires CodeAt(P, pc, c.insns + Landing(c.flag, n + 1) + [DUP] + b + [JMP(l)]
      + (if fail then [LABEL(n), FAIL(valued), JMP(l)] else []))
    ensures CodeAt(P, pc, c.insns + Landing(c.flag, n + 1) + [DUP])
    ensures p1 == pc + |c.insns + Landing(c.flag, n + 1)| + 1 && CodeAt(P, p1, b + [JMP(l)])
    ensures fail ==> HasLabel(P, n)
  {
    hide CodeAt, HasLabel, LabelsUnique;
    var head := c.insns + Landing(c.flag, n + 1) + [DUP];
    var end := if fail then [LABEL(n), FAIL(valued), JMP(l)] else [];
    assert head + b + [JMP(l)] + end == head + ((b + [JMP(l)]) + end);
    p1 := pc + |head|;
    CodeSplit(P, pc, head, (b + [JMP(l)]) + end);
    CodeSplit(P, p1, b + [JMP(l)], end);
    if fail {
      assert end == [LABEL(n)] + [FAIL(valued), JMP(l)];
      CodeHead(P, p1 + |b + [JMP(l)]|, LABEL(n), [FAIL(valued), JMP(l)]);
      LabelHere(P, p1 + |b + [JMP(l)]|, LABEL(n), n);
    }
  }

  /** The scrutinee is duplicated before the first branch. */
  lemma Scrutinee(P: Prg, a: Machine, pc: nat, f: Renaming, w: World, v: Value, st: Names, li: nat, d: Data,
      f1: Renaming, d1: Data)
    requires Ends(P, a, pc, f, Outcome(w, [v]), st, li, d, f1, d1) && CodeAt(P, pc, [DUP])
    ensures |d1.stack| > 0 && d1.stack[0] == Rename(f1, v) && d1.stack[1..] == d.stack && Known(f1, v) &&
      Holds(f1, w, st, li, d1)
    ensures AtBranch(P, a, pc + 1, None, d1) && f <= f1 && |d1.locals| == |d.locals|
  {
    hide Goes, CodeAt, Holds;
    assert Known(f1, [v][0]);
    Duplicate(P, a, pc, d1);
  }

  lemma {:induction false} CaseRuns(P: Prg, a: Machine, pc: nat, st: Names, li: nat, l: nat, n: nat, x: Expr,
      brs: seq<(Pattern, Expr)>, valued: bool, k: nat, fuel: nat, f: Renaming, w: World, d: Data)
      returns (f': Renaming, d': Data)
    requires Exec(Case(x, brs, valued), w, fuel).Some? && Accepted(st, li, Case(x, brs, valued), k)
    requires Placed(P, pc, Compile(st, li, l, n, Case(x, brs, valued)), l) && Begins(P, a, pc, f, w, st, li, d)
    requires Compile(st, li, l, n, Case(x, brs, valued)).locals <= |d.locals|
    ensures Ends(P, a, Exit(P, pc, Compile(st, li, l, n, Case(x, brs, valued)), l), f,
      Shown(st, k, Exec(Case(x, brs, valued), w, fuel).value), st, li, d, f', d')
    decreases fuel, Size(Case(x, brs, valued)), 2
  {
    hide Goes, Holds, Ends, Begins, CodeAt, HasLabel, LabelsUnique, Compile, CompileBranches, Accepted,
      AcceptedBranches, Exec, Shown, ExecValue, ExecBranches, Size, SizeBranches, AtBranch, Rename, Known;
    var c, b := CaseUnfolds(st, li, l, n, x, brs, valued, k, w, fuel);
    var p1 := CasePlaced(P, pc, n, l, c, b.0.insns, b.1, valued);
    var (w1, v) := ExecValue(x, w, fuel).value;
    var f1, d1 := ValueRuns(P, a, pc, st, li, n + 1, n + 2, x, [DUP], fuel, f, w, d);
    Scrutinee(P, a, p1 - 1, f, w1, v, st, li, d, f1, d1);
    f', d' := BranchesRun(P, a, p1, st, li, l, n, c.next, brs, None, k, v, fuel, f1, w1, d1);
    EndsAfter(P, a, Labeled(P, l), f, d, f1, d1.(stack := d1.stack[1..]),
      Shown(st, k, Exec(Case(x, brs, valued), w, fuel).value), st, li, f', d');
  }

  // Everything

  lemma SkipRuns(P: Prg, a: Machine, pc: nat, st: Names, li: nat, l: nat, n: nat, f: Renaming, w: World, d: Data,
      fuel: nat)
    requires Placed(P, pc, Compile(st, li, l, n, Skip), l) && Begins(P, a, pc, f, w, st, li, d)
    ensures Exec(Skip, w, fuel) == Some(Outcome(w, []))
    ensures Ends(P, a, Exit(P, pc, Compile(st, li, l, n, Skip), l), f, Outcome(w, []), st, li, d, f, d)
  {
    hide Ends, Begins;
    EndsNothing(P, a, pc, f, w, st, li, d);
  }

  lemma ElemRefUnfolds(st: Names, li: nat, l: nat, n: nat, x: Expr, y: Expr, w: World, fuel: nat)
    requires Exec(ElemRef(x, y), w, fuel).Some? && Accepted(st, li, ElemRef(x, y), 2)
    ensures AcceptedAll(st, li, [x, y], [1, 1])
    ensures ExecAll(st, [x, y], [1, 1], w, fuel) == Some(Shown(st, 2, Exec(ElemRef(x, y), w, fuel).value))
    ensures Compile(st, li, l, n, ElemRef(x, y)) == CompileList(st, li, l, n, [x, y])
    ensures SizeList([x, y]) < Size(ElemRef(x, y))
  {
    hide ExecAll, CompileList, AcceptedAll, Two;
    SizeTwo(x, y);
    AcceptedTwo(st, li, x, y, 1, 1);
    TwoValues(st, x, y, w, fuel);
  }

  /** What an accepted expression can be. */
  lemma Kinds(st: Names, li: nat, e: Expr, k: nat)
    requires Accepted(st, li, e, k)
    ensures e.Const? || e.Str? || e.Var? || e.Skip? || e.Ref? || e.ElemRef? || IsOperator(e) || e.Assign? || e.Seq? ||
      e.Ignore?
      || e.If? || e.While? || e.DoWhile? || e.Case? || e.Scope?
    ensures e.Const? || e.Str? || e.Var? || IsOperator(e) || e.Assign? ==> k == 1
    ensures e.Skip? || e.Ignore? || e.While? || e.DoWhile? ==> k == 0
    ensures e.Ref? || e.ElemRef? ==> k == 2
  {
  }

  lemma ShownPlain(st: Names, k: nat, o: Outcome)
    requires k < 2
    ensures Shown(st, k, o) == o
  {
  }

  lemma RefUnfolds(st: Names, x: string, w: World, fuel: nat)
    ensures Exec(Ref(x), w, fuel) == Some(Outcome(w, [RefVar(x)]))
    ensures Shown(st, 2, Outcome(w, [RefVar(x)])) == Outcome(w, [VarAt(Designated(st, x))])
  {
  }

  /** The compiled code of an expression, started anywhere in any program with unique labels,
      leaves by falling through if its flag is clear and by a jump to its label if it is set;
      the values of the expression have been pushed and the new data stand for the new world. */
  lemma {:induction false} Simulates(P: Prg, a: Machine, pc: nat, st: Names, li: nat, l: nat, n: nat, e: Expr, k: nat,
                                     fuel: nat, f: Renaming, w: World, d: Data) returns (f': Renaming, d': Data)
    requires Exec(e, w, fuel).Some? && Accepted(st, li, e, k)
    requires Placed(P, pc, Compile(st, li, l, n, e), l) && Begins(P, a, pc, f, w, st, li, d)
    requires Compile(st, li, l, n, e).locals <= |d.locals|
    ensures Ends(P, a, Exit(P, pc, Compile(st, li, l, n, e), l), f, Shown(st, k, Exec(e, w, fuel).value), st, li, d,
      f', d')
    decreases fuel, Size(e), 3
  {
    hide Goes, Holds, Ends, Begins, CodeAt, HasLabel, LabelsUnique, Compile, CompileList, Accepted, AcceptedAll, Exec,
      ExecAll, Shown, Placed, Exit, Size, SizeList;
    Kinds(st, li, e, k);
    if k < 2 {
      ShownPlain(st, k, Exec(e, w, fuel).value);
    }
    if e.ElemRef? {
      ElemRefUnfolds(st, li, l, n, e.base, e.index, w, fuel);
      f', d' := ListRuns(P, a, pc, st, li, l, n, [e.base, e.index], [1, 1], fuel, f, w, d);
    } else if e.Ref? {
      RefUnfolds(st, e.name, w, fuel);
      f', d' := RefRuns(P, a, pc, st, li, l, n, e.name, fuel, f, w, d);
    } else if IsOperator(e) {
      f', d' := OperatorRuns(P, a, pc, st, li, l, n, e, fuel, f, w, d);
    } else if e.Seq? {
      f', d' := SeqRuns(P, a, pc, st, li, l, n, e.first, e.second, k, fuel, f, w, d);
    } else if e.Ignore? {
      f', d' := IgnoreRuns(P, a, pc, st, li, l, n, e.e, fuel, f, w, d);
    } else if e.If? {
      f', d' := IfRuns(P, a, pc, st, li, l, n, e.cond, e.thn, e.els, k, fuel, f, w, d);
    } else if e.While? {
      f', d' := WhileRuns(P, a, pc, st, li, l, n, e.cond, e.body, fuel, f, w, d);
    } else if e.DoWhile? {
      f', d' := DoWhileRuns(P, a, pc, st, li, l, n, e.cond, e.body, fuel, f, w, d);
    } else if e.Case? {
      f', d' := CaseRuns(P, a, pc, st, li, l, n, e.scrutinee, e.branches, e.valued, k, fuel, f, w, d);
    } else if e.Scope? {
      f', d' := ScopeRuns(P, a, pc, st, li, l, n, e.decls, e.body, k, fuel, f, w, d);
    } else if e.Assign? && e.target.Ref? {
      f', d' := AssignRuns(P, a, pc, st, li, l, n, e.target.name, e.source, fuel, f, w, d);
    } else if e.Assign? {
      f', d' := PlaceAssignRuns(P, a, pc, st, li, l, n, e.target, e.source, fuel, f, w, d);
    } else if e.Skip? {
      SkipRuns(P, a, pc, st, li, l, n, f, w, d, fuel);
      f', d' := f, d;
    } else {
      f', d' := LeafRuns(P, a, pc, st, li, l, n, e, fuel, f, w, d);
    }
  }
}

/** Compiled expressions do on the machine what direct evaluation does: the induction behind
    the correctness of the compiler, with the flag and label protocol as its hypothesis. */
module Preservation {
  import opened Wrappers
  import opened Syntax
  import opened Reference
  import opened Direct
  import opened StackMachine
  import opened Compiler
  import opened Correspondence
  import opened Scopes
  import opened Unfolding

  /** The machine's data stand for the world. */
  ghost predicate Holds(f: Renaming, w: World, st: Names, li: nat, d: Data) {
    && Fits(st, li) && li <= |d.locals| && Agree(f, w.st, st, d.globals, d.locals)
    && Stores(f, w.store, d.store) && d.input == w.input && d.output == w.output && w.wary
  }

  /** The code `c` is in place, and so is its target label if it is ever jumped to. */
  ghost predicate Placed(P: Prg, pc: nat, c: Code, l: nat) {
    LabelsUnique(P) && CodeAt(P, pc, c.insns) && (c.flag ==> HasLabel(P, l))
  }

  /** Where control leaves `c`: at its end, or at the target label. */
  ghost function Exit(P: Prg, pc: nat, c: Code, l: nat): nat
    requires c.flag ==> HasLabel(P, l)
  {
    if c.flag then Labeled(P, l) else pc + |c.insns|
  }

  /** Where a run starts: the machine got from `a` to the position `pc` and the data stand
      for the world. */
  ghost predicate Begins(P: Prg, a: Machine, pc: nat, f: Renaming, w: World, st: Names, li: nat, d: Data) {
    Goes(P, a, Machine(pc, d)) && Holds(f, w, st, li, d)
  }

  /** The machine got to `exit` with the values of the outcome pushed on `s`, and the data
      stand for the new world. */
  ghost predicate Ends(P: Prg, a: Machine, exit: nat, f: Renaming, out: Outcome, st: Names, li: nat, d: Data,
                       f': Renaming, d': Data) {
    && f <= f' && Goes(P, a, Machine(exit, d')) && Holds(f', out.w, st, li, d') && |d'.locals| == |d.locals|
    && AllKnown(f', out.vs) && d'.stack == RenameAll(f', out.vs) + d.stack
  }

  // Joining code

  lemma Landed(P: Prg, pc: nat, c: Code, l: nat, more: Prg)
    requires LabelsUnique(P) && CodeAt(P, pc, c.insns + Landing(c.flag, l) + more)
    ensures Placed(P, pc, c, l) && Exit(P, pc, c, l) == pc + |c.insns + Landing(c.flag, l)|
    ensures CodeAt(P, pc + |c.insns + Landing(c.flag, l)|, more)
  {
    hide CodeAt, HasLabel, LabelsUnique;
    CodeSplit(P, pc, c.insns + Landing(c.flag, l), more);
    CodeSplit(P, pc, c.insns, Landing(c.flag, l));
    if c.flag {
      LabelHere(P, pc + |c.insns|, LABEL(l), l);
    }
  }

  /** The end of one run is the start of the next. */
  lemma EndsBegins(P: Prg, a: Machine, exit: nat, f: Renaming, out: Outcome, st: Names, li: nat, d: Data, f': Renaming,
      d': Data)
    requires Ends(P, a, exit, f, out, st, li, d, f', d')
    ensures Begins(P, a, exit, f', out.w, st, li, d') && Holds(f', out.w, st, li, d') && f <= f' &&
      |d'.locals| == |d.locals|
    ensures AllKnown(f', out.vs) && d'.stack == RenameAll(f', out.vs) + d.stack
  {
    hide Goes, Holds;
  }

  /** Two runs in a row, the values of the second on top. */
  lemma EndsTwice(P: Prg, a: Machine, exit: nat, f: Renaming, o1: Outcome, o2: Outcome, st: Names, li: nat, d: Data,
                  f1: Renaming, exit1: nat, d1: Data, f2: Renaming, d2: Data)
    requires Ends(P, a, exit1, f, o1, st, li, d, f1, d1) && Ends(P, a, exit, f1, o2, st, li, d1, f2, d2)
    ensures Ends(P, a, exit, f, Outcome(o2.w, o2.vs + o1.vs), st, li, d, f2, d2)
  {
    hide Goes, Holds, Rename, Known;
    RenameAllGrown(f1, f2, o1.vs);
    RenameConcat(f2, o2.vs, o1.vs);
    assert d2.stack == RenameAll(f2, o2.vs + o1.vs) + d.stack;
  }

  lemma EndsNothing(P: Prg, a: Machine, pc: nat, f: Renaming, w: World, st: Names, li: nat, d: Data)
    requires Begins(P, a, pc, f, w, st, li, d)
    ensures Ends(P, a, pc, f, Outcome(w, []), st, li, d, f, d)
  {
    hide Goes, Holds;
    assert RenameAll(f, []) + d.stack == d.stack;
  }

  // Straight-line instructions

  /** What a single instruction has to do to make `out` of `o`. */
  ghost predicate Makes(i: Insn, f: Renaming, o: Outcome, out: Outcome, st: Names, li: nat, d: Data, s: seq<Value>,
                        f': Renaming, d': Data) {
    && Run(i, d) == Some(d') && f <= f' && Holds(f', out.w, st, li, d') && |d'.locals| == |d.locals|
    && AllKnown(f', out.vs) && d'.stack == RenameAll(f', out.vs) + s
  }

  lemma EndsInsn(P: Prg, a: Machine, pc: nat, i: Insn, f: Renaming, o: Outcome, out: Outcome, st: Names, li: nat,
      d: Data, f1: Renaming, d1: Data, f2: Renaming, d2: Data)
    requires Ends(P, a, pc, f, o, st, li, d, f1, d1) && CodeAt(P, pc, [i])
    requires Makes(i, f1, o, out, st, li, d1, d.stack, f2, d2)
    ensures Ends(P, a, pc + 1, f, out, st, li, d, f2, d2)
  {
    hide Goes, Holds, Run, CodeAt;
    Advance(P, a, pc, i, d1, d2);
  }

  /** Both sides allocate an object made of the operands. */
  lemma MakesObject(i: Insn, o: Outcome, obj: Object, f: Renaming, st: Names, li: nat, d: Data, s: seq<Value>)
    returns (f': Renaming, d': Data)
    requires Holds(f, o.w, st, li, d) && KnownObject(f, obj)
    requires Run(i, d) == Some(d.(store := d.store + [RenameObject(f, obj)], stack := [Obj(|d.store|)] + s))
    ensures Makes(i, f, o, Outcome(o.w.(store := o.w.store + [obj]), [Obj(|o.w.store|)]), st, li, d, s, f', d')
  {
    hide Run, Stores, Agree, Fits, KnownObject, RenameObject;
    f' := StoresAllocate(f, o.w.store, d.store, obj);
    d' := d.(store := d.store + [RenameObject(f, obj)], stack := [Obj(|d.store|)] + s);
    AgreeGrown(f, f', o.w.st, st, d.globals, d.locals);
    assert RenameAll(f', [Obj(|o.w.store|)]) == [Obj(|d.store|)];
  }

  /** Both sides push a value without touching anything else of the state. */
  lemma MakesValue(i: Insn, o: Outcome, v: Value, f: Renaming, st: Names, li: nat, d: Data, s: seq<Value>)
    returns (d': Data)
    requires Holds(f, o.w, st, li, d) && Known(f, v)
    requires Run(i, d) == Some(d.(stack := [Rename(f, v)] + s))
    ensures Makes(i, f, o, Outcome(o.w, [v]), st, li, d, s, f, d')
  {
    hide Run, Stores, Agree, Fits, Known, Rename;
    d' := d.(stack := [Rename(f, v)] + s);
    assert RenameAll(f, [v]) == [Rename(f, v)];
  }

  lemma StackOfTwo(f: Renaming, vs: seq<Value>, s: seq<Value>, d: Data)
    requires |vs| == 2 && d.stack == RenameAll(f, vs) + s
    ensures |d.stack| >= 2 && d.stack[0] == Rename(f, vs[0]) && d.stack[1] == Rename(f, vs[1]) && d.stack[2..] == s
  {
  }

  lemma MakesBinop(e: Expr, o: Outcome, f: Renaming, st: Names, li: nat, d: Data, s: seq<Value>)
    returns (f': Renaming, d': Data)
    requires (e.Binop? || e.Elem?) && Finish(e, o).Some?
    requires Holds(f, o.w, st, li, d) && AllKnown(f, o.vs) && d.stack == RenameAll(f, o.vs) + s
    ensures Makes(Operator(e), f, o, Finish(e, o).value, st, li, d, s, f', d')
  {
    hide Stores, Agree, Fits, Operate, ElemOf;
    StackOfTwo(f, o.vs, s, d);
    if e.Elem? {
      ElemCorresponds(f, o.w.store, d.store, o.vs[1], o.vs[0].n);
    }
    f' := f;
    d' := MakesValue(Operator(e), o, Finish(e, o).value.vs[0], f, st, li, d, s);
  }

  lemma StackOfMany(f: Renaming, vs: seq<Value>, s: seq<Value>, d: Data)
    requires d.stack == RenameAll(f, vs) + s && AllKnown(f, vs)
    ensures |d.stack| >= |vs| && d.stack[|vs|..] == s
    ensures Reverse(d.stack[..|vs|]) == RenameAll(f, Reverse(vs)) && AllKnown(f, Reverse(vs))
  {
    assert d.stack[..|vs|] == RenameAll(f, vs);
    ReverseRename(f, vs);
  }

  lemma MakesAggregate(e: Expr, o: Outcome, f: Renaming, st: Names, li: nat, d: Data, s: seq<Value>)
    returns (f': Renaming, d': Data)
    requires (e.Array? || e.Sexp?) && Finish(e, o).Some?
    requires Holds(f, o.w, st, li, d) && AllKnown(f, o.vs) && d.stack == RenameAll(f, o.vs) + s
    ensures Makes(Operator(e), f, o, Finish(e, o).value, st, li, d, s, f', d')
  {
    hide Stores, Agree, Fits, Known, Rename;
    StackOfMany(f, o.vs, s, d);
    var obj := if e.Array? then Arr(Reverse(o.vs)) else Sx(e.tag, Reverse(o.vs));
    f', d' := MakesObject(Operator(e), o, obj, f, st, li, d, s);
  }

  lemma MakesCall(e: Expr, o: Outcome, f: Renaming, st: Names, li: nat, d: Data, s: seq<Value>)
    returns (f': Renaming, d': Data)
    requires e.Call? && e.f.Var? && Finish(e, o).Some?
    requires Holds(f, o.w, st, li, d) && AllKnown(f, o.vs) && d.stack == RenameAll(f, o.vs) + s
    ensures Makes(Operator(e), f, o, Finish(e, o).value, st, li, d, s, f', d')
  {
    hide Stores, Agree, Fits, Known, Rename, RunBuiltin;
    StackOfMany(f, o.vs, s, d);
    BuiltinCorresponds(e.f.name, f, o.w.store, d.store, Reverse(o.vs), o.w.input, o.w.output);
    var (_, input, output, v) := RunBuiltin(e.f.name, Reverse(o.vs), o.w.store, o.w.input, o.w.output).value;
    assert BuiltinName("L" + e.f.name) == e.f.name && "L" + e.f.name != ".array";
    f' := f;
    d' := Data([Rename(f, v)] + s, d.globals, d.locals, d.store, input, output);
    assert RenameAll(f, [v]) == [Rename(f, v)];
  }

  lemma StackOfThree(f: Renaming, vs: seq<Value>, s: seq<Value>, d: Data)
    requires |vs| == 3 && d.stack == RenameAll(f, vs) + s
    ensures |d.stack| >= 3 && d.stack[0] == Rename(f, vs[0]) && d.stack[1] == Rename(f, vs[1]) &&
      d.stack[2] == Rename(f, vs[2])
    ensures d.stack[3..] == s
  {
  }

  /** `STA` on an index: the element of an object is replaced. */
  lemma MakesElemStore(w: World, v: Value, j: Value, a: Value, f: Renaming, st: Names, li: nat, d: Data, s: seq<Value>)
    returns (d': Data)
    requires AssignTo(w, [j, a], v).Some? && j.Int?
    requires Holds(f, w, st, li, d) && AllKnown(f, [v, j, a]) && d.stack == RenameAll(f, [v, j, a]) + s
    ensures Makes(STA, f, Outcome(w, [v, j, a]), AssignTo(w, [j, a], v).value, st, li, d, s, f, d')
  {
    hide Stores, Agree, Fits, SetElem;
    StackOfThree(f, [v, j, a], s, d);
    assert Known(f, [v, j, a][0]);
    SetCorresponds(f, w.store, d.store, a, j.n, v);
    d' := d.(store := SetElem(d.store, Rename(f, a), j.n, Rename(f, v)).value, stack := [Rename(f, v)] + s);
    assert RenameAll(f, [v]) == [Rename(f, v)];
  }

  /** `STA` on an address: a variable is assigned, whichever scope it is in. */
  lemma MakesVarStore(w: World, v: Value, x: string, f: Renaming, st: Names, li: nat, d: Data, s: seq<Value>)
    returns (d': Data)
    requires Update(w.st, x, v).Some? && Holds(f, w, st, li, d) && AllKnown(f, [v, VarAt(Designated(st, x))])
    requires d.stack == RenameAll(f, [v, VarAt(Designated(st, x))]) + s
    ensures Makes(STA, f, Outcome(w, [v, VarAt(Designated(st, x))]), Outcome(w.(st := Update(w.st, x, v).value), [v]),
      st, li, d, s, f, d')
  {
    hide Stores, Agree, Fits, Update;
    var vs := [v, VarAt(Designated(st, x))];
    StackOfTwo(f, vs, s, d);
    assert Known(f, vs[0]);
    UpdateAgrees(f, w.st, st, d.globals, d.locals, x, v, li);
    var (globals', locals') := Stored(Designated(st, x), Rename(f, v), d.globals, d.locals);
    d' := d.(globals := globals', locals := locals', stack := [Rename(f, v)] + s);
    assert RenameAll(f, [v]) == [Rename(f, v)];
  }

  lemma MakesOperator(e: Expr, o: Outcome, f: Renaming, st: Names, li: nat, d: Data, s: seq<Value>)
    returns (f': Renaming, d': Data)
    requires IsOperator(e) && Finish(e, o).Some?
    requires Holds(f, o.w, st, li, d) && AllKnown(f, o.vs) && d.stack == RenameAll(f, o.vs) + s
    ensures Makes(Operator(e), f, o, Finish(e, o).value, st, li, d, s, f', d')
  {
    hide Makes, Finish, Holds, AllKnown;
    match e
    case Array(_) => f', d' := MakesAggregate(e, o, f, st, li, d, s);
    case Sexp(_, _) => f', d' := MakesAggregate(e, o, f, st, li, d, s);
    case Call(_, _) => f', d' := MakesCall(e, o, f, st, li, d, s);
    case _ => f', d' := MakesBinop(e, o, f, st, li, d, s);
  }
}

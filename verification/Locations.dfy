/** The two views of the stack together: in compiled code the code generator always finds its
    operands, and every edge into a label leaves them in the same places. */
module Locations {
  import opened Wrappers
  import opened Direct
  import opened Syntax
  import opened StackMachine
  import opened Compiler
  import opened Symbolic
  import opened StackDepths
  import opened StackClashes

  /** The symbolic stack is the canonical one of the traced depth, here and at the labels `L`. */
  ghost predicate Follows(t: Depths, e: Env, L: set<nat>) {
    && t.barrier == e.barrier && e.stack == Canon(e.fixed, t.depth)
    && (forall l :: l in L ==> (l in t.jumped <==> l in e.stackmap))
    && forall l :: l in L && l in t.jumped ==> e.stackmap[l] == Canon(e.fixed, t.jumped[l])
  }

  /** All labels of an instruction are in `L`. */
  predicate Within(i: Insn, L: set<nat>) {
    i.LABEL? || i.FLABEL? || i.JMP? || i.CJMP? ==> i.l in L
  }

  lemma CanonLength(fixed: nat, d: nat)
    ensures |Canon(fixed, d)| == d
  {
  }

  /** `e'` is `e` with another stack of `d` operands, perhaps in a larger frame. */
  ghost predicate Sized(e: Env, e': Env, d: nat) {
    |e'.stack| == d && e'.stackmap == e.stackmap && e'.fixed == e.fixed && e'.barrier == e.barrier
  }

  lemma AllocateSized(e: Env)
    ensures Sized(e, Symbolic.Allocate(e).1, |e.stack| + 1)
  {
  }

  lemma CallSized(e: Env, n: nat)
    requires n <= |e.stack|
    ensures CallEnv(e, n).Some? && Sized(e, CallEnv(e, n).value, |e.stack| - n + 1)
  {
    hide Symbolic.Allocate;
    AllocateSized(e.(stack := e.stack[n..]));
  }

  /** The generator's own count of operands agrees with the traced one. */
  lemma StraightFollows(e: Env, i: Insn)
    requires !e.barrier && Straight(i) && After(i, |e.stack|).Some?
    ensures Emit(e, i).Some? && Sized(e, Emit(e, i).value, After(i, |e.stack|).value)
  {
    hide Symbolic.Allocate, CallEnv;
    AllocateSized(e);
    var e1 := Symbolic.Allocate(e).1;
    match i
    case LDA(_) => AllocateSized(e1);
    case STRING(_) => CallSized(e1, 1);
    case SEXP(_, n) => CallSized(e1, n + 1);
    case ARRAY(_) => CallSized(e1, 2);
    case TAG(_, _) =>
      AllocateSized(e1);
      CallSized(Symbolic.Allocate(e1).1, 3);
    case STA => CallSized(e, 3);
    case ELEM => CallSized(e, 2);
    case CALL(_, n) => CallSized(e, n);
    case CALLC(n) => CallSized(e, n + 1);
    case PATT(p) => CallSized(e, if p == StrCmp then 2 else 1);
    case _ =>
  }

  /** One instruction: the generator does not fail where the trace goes on. */
  lemma StepFollows(t: Depths, e: Env, L: set<nat>, i: Insn)
    requires Follows(t, e, L) && Canonical(e, L) && DStep(t, i).Some? && Within(i, L) && !i.BEGIN?
    ensures Emit(e, i).Some? && Canonical(Emit(e, i).value, L)
    ensures Follows(DStep(t, i).value, Emit(e, i).value, L)
  {
    var d := t.depth;
    CanonLength(e.fixed, d);
    if !t.barrier && Straight(i) {
      hide Emit, Canonical;
      StraightFollows(e, i);
      StraightCanonical(e, L, i);
      ItsCanon(Emit(e, i).value, L);
    } else {
      JumpFollows(t, e, L, i);
      hide Emit;
      StepCanonical(e, L, i);
    }
  }

  lemma ItsCanon(e: Env, L: set<nat>)
    requires Canonical(e, L)
    ensures e.stack == Canon(e.fixed, |e.stack|)
  {
  }

  /** Labels and jumps. */
  lemma JumpFollows(t: Depths, e: Env, L: set<nat>, i: Insn)
    requires Follows(t, e, L) && |e.stack| == t.depth && DStep(t, i).Some? && Within(i, L) && !i.BEGIN?
    requires t.barrier || !Straight(i)
    ensures Emit(e, i).Some? && Follows(DStep(t, i).value, Emit(e, i).value, L)
  {
    if t.barrier {
      DeadFollows(t, e, L, i);
    } else {
      hide Canon;
      if i.CJMP? {
        CondFollows(t, e, L, i.nonzero, i.l);
      } else if i.END? {
        CanonNothing(e.fixed);
      }
    }
  }

  lemma CondFollows(t: Depths, e: Env, L: set<nat>, nonzero: bool, l: nat)
    requires Follows(t, e, L) && !t.barrier && |e.stack| == t.depth && DStep(t, CJMP(nonzero, l)).Some? && l in L
    ensures Emit(e, CJMP(nonzero, l)).Some?
    ensures Follows(DStep(t, CJMP(nonzero, l)).value, Emit(e, CJMP(nonzero, l)).value, L)
  {
    hide Canon;
    assert e.stack[1..] == Canon(e.fixed, t.depth - 1) by { CanonTail(e.fixed, t.depth); }
  }

  lemma CanonTail(fixed: nat, d: nat)
    requires d > 0
    ensures |Canon(fixed, d)| > 0 && Canon(fixed, d)[1..] == Canon(fixed, d - 1)
  {
  }

  lemma CanonNothing(fixed: nat)
    ensures Canon(fixed, 0) == []
  {
  }

  /** Dead code, and the labels that end it. */
  lemma DeadFollows(t: Depths, e: Env, L: set<nat>, i: Insn)
    requires Follows(t, e, L) && t.barrier && DStep(t, i).Some? && Within(i, L)
    ensures Emit(e, i).Some? && Follows(DStep(t, i).value, Emit(e, i).value, L)
  {
    CanonNothing(e.fixed);
    hide Canon;
  }

  lemma {:induction false} RunFollows(t: Depths, e: Env, L: set<nat>, p: Prg, m: nat)
    requires m <= |p| && Follows(t, e, L) && Canonical(e, L) && DRun(t, p).Some?
    requires forall i :: i in p ==> Within(i, L) && !i.BEGIN?
    ensures DRun(t, p[..m]).Some? && EmitAll(e, p[..m]).Some?
    ensures Canonical(EmitAll(e, p[..m]).value, L) && Follows(DRun(t, p[..m]).value, EmitAll(e, p[..m]).value, L)
    decreases |p|
  {
    hide DStep, Emit, Canonical, Follows, Within;
    if p == [] {
      assert p[..m] == [];
      assert DRun(t, p[..m]) == Some(t) && EmitAll(e, p[..m]) == Some(e);
    } else {
      var q, i := p[..|p| - 1], p[|p| - 1];
      assert i in p;
      if m < |p| {
        assert q[..m] == p[..m];
        RunFollows(t, e, L, q, m);
      } else {
        assert q[..|q|] == q && p[..m] == p;
        RunFollows(t, e, L, q, |q|);
        StepFollows(DRun(t, q).value, EmitAll(e, q).value, L, i);
      }
    }
  }

  /** A function's code from its BEGIN on. */
  ghost predicate Fresh(e: Env, L: set<nat>, p: Prg) {
    && !e.barrier && e.stack == [] && e.stackmap.Keys !! L
    && p != [] && p[0].BEGIN? && forall i :: 0 < i < |p| ==> Within(p[i], L) && !p[i].BEGIN?
  }

  lemma FirstFollows(e: Env, L: set<nat>, p: Prg)
    requires Fresh(e, L, p)
    ensures DStep(START, p[0]) == Some(START) && Emit(e, p[0]).Some?
    ensures Follows(START, Emit(e, p[0]).value, L) && Canonical(Emit(e, p[0]).value, L)
  {
    BeginCanonical(e, L, p[0].nlocals);
    assert Canon(p[0].nlocals, 0) == [];
  }

  lemma {:induction false} EmitConcat(e: Env, a: Prg, b: Prg)
    requires EmitAll(e, a).Some?
    ensures EmitAll(e, a + b) == EmitAll(EmitAll(e, a).value, b)
    decreases |b|
  {
    hide Emit;
    if b == [] {
      assert a + b == a;
    } else {
      var p := a + b;
      assert p[..|p| - 1] == a + b[..|b| - 1] && p[|p| - 1] == b[|b| - 1];
      EmitConcat(e, a, b[..|b| - 1]);
    }
  }

  /** Code that the depth trace runs through: the generator never lacks an operand, and after
      every prefix its stack is the canonical one of the traced depth. */
  lemma CodeFollows(e: Env, L: set<nat>, p: Prg, m: nat)
    requires Fresh(e, L, p) && DRun(START, p).Some? && 0 < m <= |p|
    ensures DRun(START, p[..m]).Some? && EmitAll(e, p[..m]).Some?
    ensures Canonical(EmitAll(e, p[..m]).value, L) && Follows(DRun(START, p[..m]).value, EmitAll(e, p[..m]).value, L)
  {
    FirstFollows(e, L, p);
    hide DStep, Emit, Canonical, Follows, DRun;
    var e1, rest := Emit(e, p[0]).value, p[1..];
    assert p == [p[0]] + rest && p[..m] == [p[0]] + rest[..m - 1];
    DRunOne(START, p[0]);
    EmitOne(e, p[0]);
    DRunConcat(START, [p[0]], rest);
    RestWithin(e, L, p);
    RunFollows(START, e1, L, rest, m - 1);
    DRunConcat(START, [p[0]], rest[..m - 1]);
    EmitConcat(e, [p[0]], rest[..m - 1]);
  }

  lemma RestWithin(e: Env, L: set<nat>, p: Prg)
    requires Fresh(e, L, p)
    ensures forall i :: i in p[1..] ==> Within(i, L) && !i.BEGIN?
  {
  }

  lemma EmitOne(e: Env, i: Insn)
    ensures EmitAll(e, [i]) == Emit(e, i)
  {
    hide Emit;
    assert [i][..0] == [];
    assert EmitAll(e, []) == Some(e);
  }

  /** For every well-attributed program the generator runs through: no operand is ever
      missing, END finds exactly one value, and every slot stays inside the frame. */
  lemma ProgramGenerates(x: Expr, e: Env, L: set<nat>, m: nat)
    requires Yields(x, 1) && Fresh(e, L, CompileProgram(x)) && 0 < m <= |CompileProgram(x)|
    ensures EmitAll(e, CompileProgram(x)).Some? && EmitAll(e, CompileProgram(x)).value.stack == []
    ensures EmitAll(e, CompileProgram(x)[..m]).Some? && Canonical(EmitAll(e, CompileProgram(x)[..m]).value, L)
  {
    hide CompileProgram, EmitAll, DRun;
    var t := ProgramDepths(x);
    RunGenerates(e, L, CompileProgram(x), m);
  }

  /** The same for every function. */
  lemma RoutineGenerates(r: Routine, e: Env, L: set<nat>, m: nat)
    requires Yields(r.body, 1) && Fresh(e, L, RoutineCode(r)) && 0 < m <= |RoutineCode(r)|
    ensures EmitAll(e, RoutineCode(r)).Some? && EmitAll(e, RoutineCode(r)).value.stack == []
    ensures EmitAll(e, RoutineCode(r)[..m]).Some? && Canonical(EmitAll(e, RoutineCode(r)[..m]).value, L)
  {
    hide RoutineCode, EmitAll, DRun;
    var t := RoutineDepths(r, START);
    RunGenerates(e, L, RoutineCode(r), m);
  }

  lemma RunGenerates(e: Env, L: set<nat>, p: Prg, m: nat)
    requires Fresh(e, L, p) && DRun(START, p).Some? && DRun(START, p).value.depth == 0 && 0 < m <= |p|
    ensures EmitAll(e, p).Some? && EmitAll(e, p).value.stack == []
    ensures EmitAll(e, p[..m]).Some? && Canonical(EmitAll(e, p[..m]).value, L)
  {
    hide EmitAll, DRun;
    CodeFollows(e, L, p, m);
    assert p[..|p|] == p;
    CodeFollows(e, L, p, |p|);
  }

  // Edges

  /** Where the operands are when control passes from instruction `i` to its label. */
  function EdgeStack(e: Env, p: Prg, i: nat): seq<Opnd>
    requires i < |p|
  {
    match EmitAll(e, p[..i])
    case None => []
    case Some(e1) => StackOf(e1, p[i])
  }

  /** After the condition of a jump is taken, and at a label what has been kept for it. */
  function StackOf(e: Env, i: Insn): seq<Opnd> {
    if i.CJMP? then (if e.stack == [] then [] else e.stack[1..])
    else match Emit(e, i)
      case Some(e2) => e2.stack
      case None => []
  }

  /** The first slot above the locals stays where BEGIN has put it. */
  lemma {:induction false} FixedLocals(e: Env, L: set<nat>, p: Prg, m: nat)
    requires Fresh(e, L, p) && DRun(START, p).Some? && 0 < m <= |p|
    ensures EmitAll(e, p[..m]).Some? && EmitAll(e, p[..m]).value.fixed == p[0].nlocals
  {
    hide DStep, Emit, Canonical, Follows, DRun;
    CodeFollows(e, L, p, m);
    if m == 1 {
      assert p[..1] == [p[0]];
      EmitOne(e, p[0]);
      FirstFixed(e, L, p);
    } else {
      FixedLocals(e, L, p, m - 1);
      CodeFollows(e, L, p, m - 1);
      assert p[..m] == p[..m - 1] + [p[m - 1]];
      EmitConcat(e, p[..m - 1], [p[m - 1]]);
      EmitOne(EmitAll(e, p[..m - 1]).value, p[m - 1]);
      StepCanonical(EmitAll(e, p[..m - 1]).value, L, p[m - 1]);
    }
  }

  lemma FirstFixed(e: Env, L: set<nat>, p: Prg)
    requires Fresh(e, L, p)
    ensures Emit(e, p[0]).Some? && Emit(e, p[0]).value.fixed == p[0].nlocals
  {
  }

  lemma EdgeCanonical(t: Depths, e: Env, L: set<nat>, i: Insn, l: nat)
    requires Follows(t, e, L) && Canonical(e, L) && DStep(t, i).Some? && Within(i, L) && !i.BEGIN?
    requires EdgeOf(t, i, l).Some?
    ensures StackOf(e, i) == Canon(e.fixed, EdgeOf(t, i, l).value)
  {
    hide Canonical, Canon;
    if i.CJMP? {
      CondEdge(t, e, L, i, l);
    } else {
      hide Follows;
      StepFollows(t, e, L, i);
      StepCanonical(e, L, i);
      hide Emit;
      LandedEdge(t, DStep(t, i).value, i, l);
      hide DStep, EdgeOf;
      FollowsCanon(DStep(t, i).value, Emit(e, i).value, L);
    }
  }

  lemma CondEdge(t: Depths, e: Env, L: set<nat>, i: Insn, l: nat)
    requires Follows(t, e, L) && i.CJMP? && EdgeOf(t, i, l).Some?
    ensures StackOf(e, i) == Canon(e.fixed, EdgeOf(t, i, l).value)
  {
    hide Emit, DStep;
    CanonLength(e.fixed, t.depth);
    assert e.stack[1..] == Canon(e.fixed, t.depth - 1);
  }

  lemma LandedEdge(t: Depths, t': Depths, i: Insn, l: nat)
    requires DStep(t, i) == Some(t') && !i.CJMP? && EdgeOf(t, i, l).Some?
    ensures EdgeOf(t, i, l) == Some(t'.depth)
  {
  }

  lemma FollowsCanon(t: Depths, e: Env, L: set<nat>)
    requires Follows(t, e, L)
    ensures e.stack == Canon(e.fixed, t.depth)
  {
    hide Canon;
  }

  lemma EdgePlace(e: Env, L: set<nat>, p: Prg, i: nat, l: nat)
    requires Fresh(e, L, p) && DRun(START, p).Some? && 0 < i < |p| && Edge(START, p, i, l).Some?
    ensures EdgeStack(e, p, i) == Canon(p[0].nlocals, Edge(START, p, i, l).value)
  {
    hide DStep, Emit, DRun, EmitAll, Canonical, Follows;
    CodeFollows(e, L, p, i);
    CodeFollows(e, L, p, i + 1);
    FixedLocals(e, L, p, i);
    var t1, e1 := DRun(START, p[..i]).value, EmitAll(e, p[..i]).value;
    assert p[..i + 1] == p[..i] + [p[i]];
    DSnoc(START, p[..i], p[i]);
    EdgeCanonical(t1, e1, L, p[i], l);
  }

  /** All edges into a label find the operands in the same places, so that no code is needed
      to bring them there. */
  ghost predicate SamePlaces(e: Env, p: Prg) {
    forall i: nat, j: nat, l :: 0 < i < |p| && 0 < j < |p| && Edge(START, p, i, l).Some? && Edge(START, p, j, l).Some?
      ==> EdgeStack(e, p, i) == EdgeStack(e, p, j)
  }

  lemma RunPlaces(e: Env, L: set<nat>, p: Prg)
    requires Fresh(e, L, p) && DRun(START, p).Some?
    ensures SamePlaces(e, p)
  {
    hide DRun, Edge, EdgeStack, Fresh;
    forall i: nat, j: nat, l | 0 < i < |p| && 0 < j < |p| && Edge(START, p, i, l).Some? && Edge(START, p, j, l).Some?
      ensures EdgeStack(e, p, i) == EdgeStack(e, p, j)
    {
      RunEdges(p, i, j, l);
      EdgePlace(e, L, p, i, l);
      EdgePlace(e, L, p, j, l);
    }
  }

  lemma FreshPrefix(e: Env, L: set<nat>, p: Prg, m: nat)
    requires Fresh(e, L, p) && 0 < m <= |p|
    ensures Fresh(e, L, p[..m]) && p[..m][0] == p[0]
  {
  }

  lemma EdgeStackInside(e: Env, p: Prg, m: nat, j: nat)
    requires j < m <= |p|
    ensures EdgeStack(e, p[..m], j) == EdgeStack(e, p, j)
  {
    hide EmitAll, StackOf;
    assert p[..m][..j] == p[..j];
  }

  /** A jump that clashes finds its operands elsewhere than the jump before it. */
  lemma ClashPlaces(e: Env, L: set<nat>, p: Prg)
    requires Fresh(e, L, p) && Clash(START, p)
    ensures !SamePlaces(e, p)
  {
    hide DRun, Edge, EdgeStack, EmitAll, Emit, Canon, Canonical, Follows, Clash;
    var i, j, l := ClashEdges(p);
    FirstNoEdge(e, L, p, j, l);
    FreshPrefix(e, L, p, i);
    EdgeStackInside(e, p, i, j);
    EdgeInside(START, p, i, j, l);
    EdgePlace(e, L, p[..i], j, l);
    JumpPlace(e, L, p, i, l);
    CanonLength(p[0].nlocals, Edge(START, p, i, l).value);
    CanonLength(p[0].nlocals, Edge(START, p, j, l).value);
  }

  lemma FirstNoEdge(e: Env, L: set<nat>, p: Prg, j: nat, l: nat)
    requires Fresh(e, L, p) && j < |p| && Edge(START, p, j, l).Some?
    ensures j > 0
  {
  }

  lemma JumpPlace(e: Env, L: set<nat>, p: Prg, i: nat, l: nat)
    requires Fresh(e, L, p) && 0 < i < |p| && p[i] == JMP(l) && DRun(START, p[..i]).Some? && Edge(START, p, i, l).Some?
    ensures EdgeStack(e, p, i) == Canon(p[0].nlocals, Edge(START, p, i, l).value)
  {
    hide DRun, EmitAll, Canon, Canonical, DStep;
    var q := p[..i];
    FreshPrefix(e, L, p, i);
    assert q[..i] == q;
    CodeFollows(e, L, q, i);
    FixedLocals(e, L, q, i);
  }

  /** In the code of a main program all edges into a label find the operands in the same places
      exactly if no case that can fail is assigned to. */
  lemma ProgramPlaces(x: Expr, e: Env, L: set<nat>)
    requires Leaves(x, 1) && Fresh(e, L, CompileProgram(x))
    ensures SamePlaces(e, CompileProgram(x)) <==> Firm(x, 1)
  {
    hide CompileProgram, DRun, SamePlaces, Clash, Leaves, Firm;
    if Firm(x, 1) {
      YieldsBoth(x, 1);
      var t := ProgramDepths(x);
      RunPlaces(e, L, CompileProgram(x));
    } else {
      ProgramClashes(x);
      ClashPlaces(e, L, CompileProgram(x));
    }
  }

  /** The same for every function. */
  lemma RoutinePlaces(r: Routine, e: Env, L: set<nat>)
    requires Leaves(r.body, 1) && Fresh(e, L, RoutineCode(r))
    ensures SamePlaces(e, RoutineCode(r)) <==> Firm(r.body, 1)
  {
    hide RoutineCode, DRun, SamePlaces, Clash, Leaves, Firm;
    if Firm(r.body, 1) {
      YieldsBoth(r.body, 1);
      var t := RoutineDepths(r, START);
      RunPlaces(e, L, RoutineCode(r));
    } else {
      RoutineClashes(r, START);
      ClashPlaces(e, L, RoutineCode(r));
    }
  }

  /** The generator gets through with all operands in the same places on all edges exactly if no
      case that can fail is assigned to. */
  lemma ProgramSound(x: Expr, e: Env, L: set<nat>)
    requires Leaves(x, 1) && Fresh(e, L, CompileProgram(x))
    ensures EmitAll(e, CompileProgram(x)).Some? && SamePlaces(e, CompileProgram(x)) <==> Firm(x, 1)
  {
    hide CompileProgram, EmitAll, SamePlaces, Fresh, Leaves, Firm;
    ProgramPlaces(x, e, L);
    if Firm(x, 1) {
      YieldsBoth(x, 1);
      CodeLength(x);
      ProgramGenerates(x, e, L, 1);
    }
  }

  lemma CodeLength(x: Expr)
    ensures |CompileProgram(x)| > 0
  {
    hide Compile;
  }

  /** The same for every function. */
  lemma RoutineSound(r: Routine, e: Env, L: set<nat>)
    requires Leaves(r.body, 1) && Fresh(e, L, RoutineCode(r))
    ensures EmitAll(e, RoutineCode(r)).Some? && SamePlaces(e, RoutineCode(r)) <==> Firm(r.body, 1)
  {
    hide RoutineCode, EmitAll, SamePlaces, Leaves, Firm;
    RoutinePlaces(r, e, L);
    if Firm(r.body, 1) {
      YieldsBoth(r.body, 1);
      RoutineGenerates(r, e, L, 1);
    }
  }
}

/** Whole programs: what the reference evaluator prints, the compiled program prints. */
module CompilerCorrect {
  import opened Wrappers
  import opened Syntax
  import opened Reference
  import opened Direct
  import opened Continuations
  import opened StackMachine
  import opened Compiler
  import opened Correspondence
  import opened Scopes
  import opened Unfolding
  import opened Preservation
  import opened Simulation
  import opened Watched
  import opened Labels

  lemma ProgramNeat(e: Expr) returns (ls: set<nat>)
    ensures Tidy(CompileProgram(e), ls, ls)
  {
    var c := Compile(NoNames, 0, 0, 1, e);
    hide Compile, Tidy, Plain;
    var l0 := CompileNeat(NoNames, 0, 0, 1, e);
    TidyPlain([BEGIN(c.locals)]) by { PlainOne(BEGIN(c.locals)); }
    TidyConcat([BEGIN(c.locals)], {}, {}, c.insns, l0, l0 + Only(c.flag, 0));
    var s1 := [BEGIN(c.locals)] + c.insns;
    assert {} + l0 == l0 && {} + (l0 + Only(c.flag, 0)) == l0 + Only(c.flag, 0);
    TidyThenLanding(s1, l0, l0 + Only(c.flag, 0), c.flag, 0);
    ls := l0 + Only(c.flag, 0);
    PlainOne(END);
    TidyThenPlain(s1 + Landing(c.flag, 0), ls, ls, [END]);
  }

  lemma PlainOne(i: Insn)
    requires !i.LABEL? && !i.FLABEL? && Target(i).None?
    ensures Plain([i])
  {
  }

  /** In a compiled program every label is defined at most once, and every jump has somewhere
      to go. */
  lemma JumpsResolve(e: Expr)
    ensures LabelsUnique(CompileProgram(e))
    ensures forall i :: 0 <= i < |CompileProgram(e)| && Target(CompileProgram(e)[i]).Some? ==>
      HasLabel(CompileProgram(e), Target(CompileProgram(e)[i]).value)
  {
    hide CompileProgram, HasLabel, LabelsUnique;
    var ls := ProgramNeat(e);
  }

  /** Code whose flag is clear never jumps to its target label. */
  lemma NeverTargeted(st: Names, li: nat, l: nat, n: nat, e: Expr)
    requires l < n && !Compile(st, li, l, n, e).flag
    ensures forall i :: 0 <= i < |Compile(st, li, l, n, e).insns| ==>
      Target(Compile(st, li, l, n, e).insns[i]) != Some(l)
  {
    hide Compile;
    var ls := CompileNeat(st, li, l, n, e);
  }

  // Runs

  /** The initial configuration of the reference evaluator. */
  function Start(input: seq<int>): Config {
    Config(Initial, [], input, [], [])
  }

  function StartWorld(input: seq<int>): World {
    World(Initial, [], input, [], false)
  }

  function Watching(input: seq<int>): World {
    Wary(StartWorld(input))
  }

  /** The machine's data before `main`: the builtins are global names. */
  function Fresh(input: seq<int>): Data {
    Data([], BUILTIN_VALUES, [], [], input, [])
  }

  /** Where the parts of a compiled program are; its body is a scope. */
  lemma ProgramPlaced(P: Prg, c: Code, k: nat) returns (last: nat)
    requires LabelsUnique(P)
    requires P == [BEGIN(k)] + ([SLABEL(1)] + c.insns + [SLABEL(2)]) + Landing(c.flag, 0) + [END]
    ensures CodeAt(P, 0, [BEGIN(k)]) && CodeAt(P, 1, [SLABEL(1)]) && Placed(P, 2, c, 0)
    ensures CodeAt(P, 2 + |c.insns|, [SLABEL(2)])
    ensures last == |P| - 1 && P[last] == END
    ensures last == if c.flag then Exit(P, 2, c, 0) else Exit(P, 2, c, 0) + 1
  {
    var s1 := [SLABEL(1)] + c.insns;
    var s2 := [BEGIN(k)] + (s1 + [SLABEL(2)]);
    var s3 := s2 + Landing(c.flag, 0);
    assert CodeAt(P, 0, s3 + [END]);
    hide CodeAt, LabelsUnique, HasLabel;
    CodeSplit(P, 0, s3, [END]);
    CodeSplit(P, 0, s2, Landing(c.flag, 0));
    CodeSplit(P, 0, [BEGIN(k)], s1 + [SLABEL(2)]);
    CodeSplit(P, 1, s1, [SLABEL(2)]);
    CodeHead(P, 1, SLABEL(1), c.insns);
    last := |s3|;
    if c.flag {
      LabelHere(P, |s2|, LABEL(0), 0);
    }
  }

  lemma ProgramCode(ds: seq<(string, Option<Expr>)>, body: Expr) returns (e: Expr, xs: seq<string>, c: Code)
    ensures e == WithInits(ds, body) && xs == DeclNames(ds) && c == Compile(Open(NoNames, xs, 0), 0, 0, 3, e)
    ensures Above(NoNames, xs, 0) == 0
    ensures CompileProgram(Scope(ds, body)) == [BEGIN(c.locals)] + ([SLABEL(1)] + c.insns + [SLABEL(2)])
      + Landing(c.flag, 0) + [END]
  {
    hide Compile, Open;
    e, xs, c := ScopeCode(NoNames, 0, 0, 1, ds, body);
  }

  /** After `BEGIN`, inside the outermost scope. */
  lemma ProgramEntered(P: Prg, a: Machine, pc: nat, d: Data, input: seq<int>, names: map<string, Kind>, xs: seq<string>)
    requires Goes(P, a, Machine(pc, d)) && names.Keys == set x | x in xs
    requires d.globals == BUILTIN_VALUES && d.store == [] && d.input == input && d.output == [] && d.stack == []
    ensures Begins(P, a, pc, [], Watching(input).(st := Push(Initial, map[], names)), Open(NoNames, xs, 0), 0, d)
  {
    hide Goes;
    OutermostAgrees([], names, xs, d.locals);
  }

  /** What direct evaluation of a program is, scope by scope. */
  lemma ProgramExec(ds: seq<(string, Option<Expr>)>, body: Expr, n: nat, input: seq<int>, fuel: nat)
    returns (names: map<string, Kind>, w: World, o: Outcome)
    requires Exec(Scope(ds, body), Watching(input), fuel).Some? && Accepted(NoNames, 0, Scope(ds, body), n)
    ensures names.Keys == set x | x in DeclNames(ds)
    ensures w == Watching(input).(st := Push(Initial, map[], names))
    ensures Exec(WithInits(ds, body), w, fuel) == Some(o)
    ensures Exec(Scope(ds, body), Watching(input), fuel) ==
      Some(o.(w := Exec(Scope(ds, body), Watching(input), fuel).value.w))
    ensures o.w == Exec(Scope(ds, body), Watching(input), fuel).value.w.(st := o.w.st)
    ensures Accepted(Open(NoNames, DeclNames(ds), 0), 0, WithInits(ds, body), n)
  {
    hide WithInits, Open;
    names := map y | y in Declared(ds) :: Mut;
    DeclaredNames(ds);
    w := Watching(input).(st := Push(Initial, map[], names));
    o := Exec(WithInits(ds, body), w, fuel).value;
  }

  /** The machine has stopped having printed what the reference printed, and its stack stands
      for the reference's. */
  ghost predicate SameResult(P: Prg, m: Machine, c: Config) {
    && m.pc < |P| && P[m.pc] == END && Next(P, m) == None
    && m.d.output == c.output && m.d.input == c.input
    && exists f :: Stores(f, c.store, m.d.store) && AllKnown(f, c.vs) && m.d.stack == RenameAll(f, c.vs)
  }

  lemma Finished(P: Prg, a: Machine, exit: nat, w: World, o: Outcome, st: Names, d: Data, f: Renaming, d': Data,
      c: Config)
    requires Ends(P, a, exit, [], o, st, 0, d, f, d') && d.stack == []
    requires exit < |P| && P[exit] == END
    requires w == o.w.(st := w.st) && c == On(w, o.vs)
    ensures SameResult(P, Machine(exit, d'), c)
  {
    hide Goes, Stores, Agree, Fits;
    assert RenameAll(f, o.vs) + [] == RenameAll(f, o.vs);
  }

  lemma {:induction false} DirectPreserved(ds: seq<(string, Option<Expr>)>, body: Expr, n: nat, input: seq<int>,
      fuel: nat) returns (m: Machine)
    requires n < 2 && Exec(Scope(ds, body), Watching(input), fuel).Some? && Accepted(NoNames, 0, Scope(ds, body), n)
    ensures Goes(CompileProgram(Scope(ds, body)), Machine(0, Fresh(input)), m)
    ensures var out := Exec(Scope(ds, body), Watching(input), fuel).value;
      SameResult(CompileProgram(Scope(ds, body)), m, On(out.w, out.vs))
  {
    hide Goes, Holds, Ends, Begins, CodeAt, HasLabel, LabelsUnique, Compile, CompileProgram, Accepted, Exec, Shown,
      Placed, SameResult, Open, WithInits;
    var P := CompileProgram(Scope(ds, body));
    JumpsResolve(Scope(ds, body));
    var e, xs, c := ProgramCode(ds, body);
    var last := ProgramPlaced(P, c, c.locals);
    var a := Machine(0, Fresh(input));
    var d := Fresh(input).(locals := seq(c.locals, _ => Empty));
    GoesRefl(P, a);
    Advance(P, a, 0, BEGIN(c.locals), Fresh(input), d);
    SkipLabel(P, a, 1, SLABEL(1), d);
    var names, w, o := ProgramExec(ds, body, n, input, fuel);
    ShownPlain(Open(NoNames, xs, 0), n, o);
    ProgramEntered(P, a, 2, d, input, names, xs);
    var f, d' := Simulates(P, a, 2, Open(NoNames, xs, 0), 0, 0, 3, e, n, fuel, [], w, d);
    ExitDefined(P, 2, c, 0);
    if !c.flag {
      assert Ends(P, a, last, [], o, Open(NoNames, xs, 0), 0, d, f, d') by {
        ScopeEnds(P, a, 2 + |c.insns|, 2, o, Open(NoNames, xs, 0), d, f, d');
      }
    }
    m := Machine(last, d');
    EndsGoes(P, a, last, [], o, Open(NoNames, xs, 0), 0, d, f, d');
    var out := Exec(Scope(ds, body), Watching(input), fuel).value;
    Finished(P, a, last, out.w, o, Open(NoNames, xs, 0), d, f, d', On(out.w, out.vs));
  }

  lemma ScopeEnds(P: Prg, a: Machine, pc: nat, n: nat, o: Outcome, st: Names, d: Data, f: Renaming, d': Data)
    requires Ends(P, a, pc, [], o, st, 0, d, f, d') && CodeAt(P, pc, [SLABEL(n)])
    ensures Ends(P, a, pc + 1, [], o, st, 0, d, f, d')
  {
    hide Goes, Holds, CodeAt;
    SkipLabel(P, a, pc, SLABEL(n), d');
  }

  lemma EndsGoes(P: Prg, a: Machine, exit: nat, f: Renaming, out: Outcome, st: Names, li: nat, d: Data, f': Renaming,
      d': Data)
    requires Ends(P, a, exit, f, out, st, li, d, f', d')
    ensures Goes(P, a, Machine(exit, d'))
  {
  }

  /** In the run no branch is met whose pattern the machine's tests accept and the matcher refuses.
      That is so for all programs without `#box`. */
  predicate NoSurprise(e: Expr, input: seq<int>, fuel: nat) {
    BoxFreeIn(e) || Exec(e, Watching(input), fuel).Some?
  }

  /** The compiler is correct: when the reference evaluator finishes a well-attributed program
      that the compiler accepts, and no branch surprises it, the compiled program finishes too,
      with the same output and with corresponding values on its stack. */
  lemma CompilerPreserves(ds: seq<(string, Option<Expr>)>, body: Expr, n: nat, input: seq<int>, fuel: nat)
    returns (m: Machine)
    requires n < 2 && Leaves(Scope(ds, body), n) && Accepted(NoNames, 0, Scope(ds, body), n)
    requires Eval(Start(input), Skip, Scope(ds, body), fuel).Some? && NoSurprise(Scope(ds, body), input, fuel)
    ensures Goes(CompileProgram(Scope(ds, body)), Machine(0, Fresh(input)), m)
    ensures SameResult(CompileProgram(Scope(ds, body)), m, Eval(Start(input), Skip, Scope(ds, body), fuel).value)
    ensures |m.d.stack| == n
  {
    hide Exec, Accepted, Leaves, CompileProgram, Stores, Goes, Seen, Shaped, BoxFreeIn;
    SeenPlain(n);
    var e, w := Scope(ds, body), StartWorld(input);
    assert On(w, []) == Start(input);
    var out, rest := Cps(e, n, w, [], Skip, fuel);
    assert out.vs + [] == out.vs;
    ExecAlike(e, w, fuel);
    m := DirectPreserved(ds, body, n, input, fuel);
  }

  /** Every run of the compiled program that stops has printed the same. */
  lemma CompiledAlwaysAgrees(ds: seq<(string, Option<Expr>)>, body: Expr, n: nat, input: seq<int>, fuel: nat,
      steps: nat, m: Machine)
    requires n < 2 && Leaves(Scope(ds, body), n) && Accepted(NoNames, 0, Scope(ds, body), n)
    requires Eval(Start(input), Skip, Scope(ds, body), fuel).Some? && NoSurprise(Scope(ds, body), input, fuel)
    requires Steps(CompileProgram(Scope(ds, body)), Machine(0, Fresh(input)), steps) == Some(m)
    requires Next(CompileProgram(Scope(ds, body)), m).None?
    ensures SameResult(CompileProgram(Scope(ds, body)), m, Eval(Start(input), Skip, Scope(ds, body), fuel).value)
  {
    hide CompileProgram, Eval, Accepted, Leaves, Stores, Next, NoSurprise;
    var P := CompileProgram(Scope(ds, body));
    var m' := CompilerPreserves(ds, body, n, input, fuel);
    var k :| Steps(P, Machine(0, Fresh(input)), k) == Some(m');
    StopsOnce(P, Machine(0, Fresh(input)), steps, m, k, m');
  }
}

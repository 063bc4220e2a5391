/** Assignable places that are variables of a scope inside them: the reference evaluator leaves
    the scope before it assigns, the compiled code has taken the address inside. */
module CapturedPlaces {
  import opened Wrappers
  import opened Syntax
  import opened Reference
  import opened Direct
  import opened StackMachine
  import opened Compiler
  import opened Scopes
  import opened Unfolding
  import opened CompilerCorrect
  import opened StackDepths

  // A program

  /** `var x = 2; x`, as a place. */
  const PLACE := Scope([("x", Some(Const(2)))], Ref("x"))

  /** `var x = 1; (var x = 2; x) := 5; x`. */
  const SHADOWED := Scope([("x", Some(Const(1)))], Seq(Ignore(Assign(PLACE, Const(5))), Var("x")))

  // What the reference evaluator makes of it

  /** What follows the place in an assignment of `n`. */
  function Rest(n: int, k: Expr): Expr {
    Seq(Const(n), Seq(Intrinsic(Write), Seq(Intrinsic(Discard), k)))
  }

  lemma StepSeq(c: Config, k: Expr, x: Expr, y: Expr, fuel: nat)
    ensures Eval(c, k, Seq(x, y), fuel + 1) == Eval(c, Then(y, k), x, fuel)
  {
    hide RunStep, Select, Push, PopScope, WithInits, Declared, Schedule, Deref, Allocate;
  }

  lemma StepConst(c: Config, k: Expr, n: int, fuel: nat)
    ensures Eval(c, k, Const(n), fuel + 1) == Eval(c.(vs := [Int(n)] + c.vs), Skip, k, fuel)
  {
    hide RunStep, Select, Push, PopScope, WithInits, Declared, Schedule, Deref, Allocate;
  }

  lemma StepRef(c: Config, k: Expr, x: string, fuel: nat)
    ensures Eval(c, k, Ref(x), fuel + 1) == Eval(c.(vs := [RefVar(x)] + c.vs), Skip, k, fuel)
  {
    hide RunStep, Select, Push, PopScope, WithInits, Declared, Schedule, Deref, Allocate;
  }

  lemma StepIntrinsic(c: Config, k: Expr, s: Step, c': Config, fuel: nat)
    requires !s.Match? && RunStep(s, c) == Some(c')
    ensures Eval(c, k, Intrinsic(s), fuel + 1) == Eval(c', Skip, k, fuel)
  {
    hide RunStep, Select, Push, PopScope, WithInits, Declared, Schedule, Deref, Allocate;
  }

  lemma StepIgnore(c: Config, k: Expr, x: Expr, fuel: nat)
    ensures Eval(c, k, Ignore(x), fuel + 1) == Eval(c, k, Seq(x, Intrinsic(Discard)), fuel)
  {
    assert [x, Intrinsic(Discard)][..1] == [x];
    assert Schedule([x, Intrinsic(Discard)]) == Seq(x, Intrinsic(Discard));
  }

  lemma StepAssign(c: Config, k: Expr, x: Expr, y: Expr, fuel: nat)
    ensures Eval(c, k, Assign(x, y), fuel + 1) == Eval(c, k, Seq(Then(x, y), Intrinsic(Write)), fuel)
  {
    var es := [x, y, Intrinsic(Write)];
    assert es[..2] == [x, y] && [x, y][..1] == [x];
    assert Schedule([x, y]) == Then(x, y);
    assert Schedule(es) == Seq(Then(x, y), Intrinsic(Write));
  }

  lemma StepOpen(c: Config, k: Expr, ds: seq<(string, Option<Expr>)>, body: Expr, fuel: nat)
    ensures Eval(c, k, Scope(ds, body), fuel + 1) ==
      Eval(c.(st := Push(c.st, map[], map y | y in Declared(ds) :: Mut)), k, Seq(WithInits(ds, body), Leave), fuel)
  {
    hide Push, Declared, WithInits;
  }

  lemma OneDeclared(x: string, init: Option<Expr>)
    ensures (map y | y in Declared([(x, init)]) :: Mut) == map[x := Mut]
  {
    assert Declared([(x, init)]) == {x} by { assert [(x, init)][0] in [(x, init)]; }
  }

  lemma StepScope(c: Config, k: Expr, x: string, n: int, body: Expr, fuel: nat)
    ensures Eval(c, k, Scope([(x, Some(Const(n)))], body), fuel + 1) ==
      Eval(c.(st := Push(c.st, map[], map[x := Mut])), k, Seq(Seq(Ignore(Assign(Ref(x), Const(n))), body), Leave), fuel)
  {
    hide Eval, Push, Declared;
    var ds := [(x, Some(Const(n)))];
    OneDeclared(x, Some(Const(n)));
    StepOpen(c, k, ds, body, fuel);
    assert ds[1..] == [] && WithInits(ds, body) == Seq(Ignore(Assign(Ref(x), Const(n))), body);
  }

  lemma StepLeave(c: Config, k: Expr, fuel: nat)
    requires PopScope(c.st).Some?
    ensures Eval(c, k, Leave, fuel + 1) == Eval(c.(st := PopScope(c.st).value), Skip, k, fuel)
  {
    hide RunStep, Select, Push, PopScope, WithInits, Declared, Schedule, Deref, Allocate;
  }

  lemma BeforePlace(c: Config, k: Expr, x: Expr, n: int, fuel: nat)
    requires !k.Skip?
    ensures Eval(c, k, Ignore(Assign(x, Const(n))), fuel + 5) == Eval(c, Rest(n, k), x, fuel)
  {
    hide Eval;
    var d, w := Intrinsic(Discard), Intrinsic(Write);
    StepIgnore(c, k, Assign(x, Const(n)), fuel + 4);
    StepSeq(c, k, Assign(x, Const(n)), d, fuel + 3);
    StepAssign(c, Seq(d, k), x, Const(n), fuel + 2);
    StepSeq(c, Seq(d, k), Seq(x, Const(n)), w, fuel + 1);
    StepSeq(c, Seq(w, Seq(d, k)), x, Const(n), fuel);
  }

  lemma AfterPlace(c: Config, k: Expr, x: string, n: int, fuel: nat)
    requires !k.Skip? && c.vs != [] && c.vs[0] == RefVar(x) && Update(c.st, x, Int(n)).Some?
    ensures Eval(c, Skip, Rest(n, k), fuel + 6)
      == Eval(c.(st := Update(c.st, x, Int(n)).value, vs := c.vs[1..]), Skip, k, fuel)
  {
    hide Eval;
    var d, w := Intrinsic(Discard), Intrinsic(Write);
    var c1 := c.(vs := [Int(n)] + c.vs);
    var c2 := c.(st := Update(c.st, x, Int(n)).value, vs := [Int(n)] + c.vs[1..]);
    StepSeq(c, Skip, Const(n), Seq(w, Seq(d, k)), fuel + 5);
    StepConst(c, Seq(w, Seq(d, k)), n, fuel + 4);
    StepSeq(c1, Skip, w, Seq(d, k), fuel + 3);
    assert c1.vs[2..] == c.vs[1..] && RunStep(Write, c1) == Some(c2);
    StepIntrinsic(c1, Seq(d, k), Write, c2, fuel + 2);
    StepSeq(c2, Skip, d, k, fuel + 1);
    assert c2.vs[1..] == c.vs[1..] && RunStep(Discard, c2) == Some(c2.(vs := c.vs[1..]));
    StepIntrinsic(c2, k, Discard, c2.(vs := c.vs[1..]), fuel);
  }

  /** `x := n`, with the value dropped. */
  lemma SetVar(c: Config, k: Expr, x: string, n: int, fuel: nat)
    requires !k.Skip? && Update(c.st, x, Int(n)).Some?
    ensures Eval(c, k, Ignore(Assign(Ref(x), Const(n))), fuel + 12)
      == Eval(c.(st := Update(c.st, x, Int(n)).value), Skip, k, fuel)
  {
    hide Eval;
    var c1 := c.(vs := [RefVar(x)] + c.vs);
    BeforePlace(c, k, Ref(x), n, fuel + 7);
    StepRef(c, Rest(n, k), x, fuel + 6);
    AfterPlace(c1, k, x, n, fuel);
    assert c1.vs[1..] == c.vs;
  }

  /** The place leaves a reference by name, and no scope. */
  lemma PlaceLeaves(c: Config, k: Expr, fuel: nat)
    requires !c.st.Initial? && !k.Skip?
    ensures Eval(c, k, PLACE, fuel + 19) == Eval(c.(vs := [RefVar("x")] + c.vs), Skip, k, fuel)
  {
    hide Eval;
    var c1 := c.(st := Push(c.st, map[], map["x" := Mut]));
    var c2 := c1.(st := Update(c1.st, "x", Int(2)).value);
    var c3 := c2.(vs := [RefVar("x")] + c.vs);
    var i, k1 := Ignore(Assign(Ref("x"), Const(2))), Seq(Leave, k);
    StepScope(c, k, "x", 2, Ref("x"), fuel + 18);
    StepSeq(c1, k, Seq(i, Ref("x")), Leave, fuel + 17);
    StepSeq(c1, k1, i, Ref("x"), fuel + 16);
    SetVar(c1, Seq(Ref("x"), k1), "x", 2, fuel + 4);
    StepSeq(c2, Skip, Ref("x"), k1, fuel + 3);
    StepRef(c2, k1, "x", fuel + 2);
    StepSeq(c3, Skip, Leave, k, fuel + 1);
    StepLeave(c3, k, fuel);
  }

  /** The outer variable is assigned. */
  lemma ShadowedReference()
    ensures Eval(Start([]), Skip, SHADOWED, 52).Some? && Eval(Start([]), Skip, SHADOWED, 52).value.vs == [Int(5)]
  {
    hide Eval;
    var i1, i2, k := Ignore(Assign(Ref("x"), Const(1))), Ignore(Assign(PLACE, Const(5))), Seq(Var("x"), Leave);
    var c1 := Start([]).(st := Push(Initial, map[], map["x" := Mut]));
    var c2 := c1.(st := Update(c1.st, "x", Int(1)).value);
    var c3 := c2.(st := Update(c2.st, "x", Int(5)).value);
    StepScope(Start([]), Skip, "x", 1, Seq(i2, Var("x")), 51);
    StepSeq(c1, Skip, Seq(i1, Seq(i2, Var("x"))), Leave, 50);
    StepSeq(c1, Leave, i1, Seq(i2, Var("x")), 49);
    SetVar(c1, Seq(Seq(i2, Var("x")), Leave), "x", 1, 37);
    StepSeq(c2, Skip, Seq(i2, Var("x")), Leave, 36);
    StepSeq(c2, Leave, i2, Var("x"), 35);
    BeforePlace(c2, k, PLACE, 5, 30);
    PlaceLeaves(c2, Rest(5, k), 11);
    AfterPlace(c2.(vs := [RefVar("x")]), k, "x", 5, 5);
    assert c2.vs == [] && [RefVar("x")] + c2.vs == [RefVar("x")] && [RefVar("x")][1..] == [];
    StepSeq(c3, Skip, Var("x"), Leave, 4);
    LastSteps(c3);
  }

  lemma LastSteps(c: Config)
    requires Lookup(c.st, "x") == Some(Int(5)) && c.st.Global? && c.vs == []
    ensures Eval(c, Leave, Var("x"), 4).Some? && Eval(c, Leave, Var("x"), 4).value.vs == [Int(5)]
  {
    var c1 := c.(vs := [Int(5)]);
    assert [Int(5)] + c.vs == [Int(5)];
    assert Eval(c, Leave, Var("x"), 4) == Eval(c1, Skip, Leave, 3);
    StepLeave(c1, Skip, 2);
  }

  // What the machine makes of it

  const CODE: Prg :=
    [BEGIN(1), SLABEL(1), CONST(1), ST(GlobalVar("x")), DROP, SLABEL(10), CONST(2), ST(LocalVar(0)), DROP,
      LDA(LocalVar(0)), SLABEL(11),
     CONST(5), STA, DROP, LD(GlobalVar("x")), SLABEL(2), END]

  lemma CodeSet(st: Names, li: nat, l: nat, n: nat, x: string, i: int)
    ensures Compile(st, li, l, n, Ignore(Assign(Ref(x), Const(i))))
      == Code(n + 2, false, [CONST(i), ST(Designated(st, x)), DROP], 0)
  {
    assert Compile(st, li, n + 1, n + 2, Const(i)).insns + [] + [ST(Designated(st, x))]
      == [CONST(i), ST(Designated(st, x))];
    assert [CONST(i), ST(Designated(st, x))] + [] + [DROP] == [CONST(i), ST(Designated(st, x)), DROP];
    assert Compile(st, li, n, n + 1, Assign(Ref(x), Const(i)))
      == Code(n + 2, false, [CONST(i), ST(Designated(st, x))], 0);
  }

  lemma CodePair(st: Names, li: nat, l: nat, n: nat, x: Expr, y: Expr) returns (c1: Code, c2: Code)
    ensures c1 == Compile(st, li, n, n + 1, x) && c2 == Compile(st, li, l, c1.next, y)
    ensures CompileList(st, li, l, n, [x, y])
      == Code(c2.next, c2.flag, c1.insns + Landing(c1.flag, n) + c2.insns, Max(c1.locals, c2.locals))
    ensures Compile(st, li, l, n, Seq(x, y)) == CompileList(st, li, l, n, [x, y])
  {
    hide Size;
    SizeTwo(x, y);
    assert [x, y][1..] == [y];
    c1 := Compile(st, li, n, n + 1, x);
    c2 := Compile(st, li, l, c1.next, y);
    assert CompileList(st, li, l, c1.next, [y]) == c2;
  }

  lemma InnerCode(st: Names, l: nat, n: nat)
    requires Designated(st, "x") == LocalVar(0)
    ensures Compile(st, 1, l, n, Seq(Ignore(Assign(Ref("x"), Const(2))), Ref("x")))
      == Code(n + 3, false, [CONST(2), ST(LocalVar(0)), DROP, LDA(LocalVar(0))], 0)
  {
    RefCode(st, 1, l, n + 3, "x");
    hide Compile, Designated;
    var c1, c2 := CodePair(st, 1, l, n, Ignore(Assign(Ref("x"), Const(2))), Ref("x"));
    CodeSet(st, 1, n, n + 1, "x", 2);
    assert [CONST(2), ST(LocalVar(0)), DROP] + [] + [LDA(LocalVar(0))]
      == [CONST(2), ST(LocalVar(0)), DROP, LDA(LocalVar(0))];
  }

  lemma InnerNames(st: Names)
    requires !st.NoNames?
    ensures DeclNames([("x", Some(Const(2)))]) == ["x"] && Above(st, ["x"], 0) == 1
    ensures Designated(Open(st, ["x"], 0), "x") == LocalVar(0)
    ensures WithInits([("x", Some(Const(2)))], Ref("x")) == Seq(Ignore(Assign(Ref("x"), Const(2))), Ref("x"))
  {
    SlotsOf(["x"], 0);
    assert "x" in ["x"];
    assert [("x", Some(Const(2)))][1..] == [];
  }

  /** The code of the place: the address is that of the inner variable. */
  lemma CodePlace(st: Names, l: nat, n: nat)
    requires !st.NoNames?
    ensures Compile(st, 0, l, n, PLACE) ==
      Code(n + 5, false, [SLABEL(n), CONST(2), ST(LocalVar(0)), DROP, LDA(LocalVar(0)), SLABEL(n + 1)], 1)
  {
    hide Compile, Open, Above, WithInits, DeclNames, Designated;
    InnerNames(st);
    var e, xs, c := ScopeCode(st, 0, l, n, [("x", Some(Const(2)))], Ref("x"));
    InnerCode(Open(st, ["x"], 0), l, n + 2);
    assert [SLABEL(n)] + c.insns + [SLABEL(n + 1)]
      == [SLABEL(n), CONST(2), ST(LocalVar(0)), DROP, LDA(LocalVar(0)), SLABEL(n + 1)];
  }

  lemma RefCode(st: Names, li: nat, l: nat, n: nat, x: string)
    ensures Compile(st, li, l, n, Ref(x)) == Code(n, false, [LDA(Designated(st, x))], 0)
  {
  }

  /** The whole assignment. */
  lemma CodeAssign(st: Names, l: nat, n: nat)
    requires !st.NoNames?
    ensures Compile(st, 0, l, n, Ignore(Assign(PLACE, Const(5)))) ==
      Code(n + 8, false, [SLABEL(n + 3), CONST(2), ST(LocalVar(0)), DROP, LDA(LocalVar(0)), SLABEL(n + 4), CONST(5),
        STA, DROP], 1)
  {
    var c := CompileList(st, 0, n + 1, n + 2, [PLACE, Const(5)]);
    AssignCode(st, n, l);
    assert Compile(st, 0, n + 1, n + 8, Const(5)) == Code(n + 8, false, [CONST(5)], 0);
    hide Compile, CompileList;
    var c1, c2 := CodePair(st, 0, n + 1, n + 2, PLACE, Const(5));
    CodePlace(st, n + 2, n + 3);
    assert c1.insns + Landing(false, n + 2) + c2.insns
      == [SLABEL(n + 3), CONST(2), ST(LocalVar(0)), DROP, LDA(LocalVar(0)), SLABEL(n + 4), CONST(5)];
    assert c.insns + Landing(false, n + 1) + [STA] + Landing(false, n) + [DROP]
      == [SLABEL(n + 3), CONST(2), ST(LocalVar(0)), DROP, LDA(LocalVar(0)), SLABEL(n + 4), CONST(5), STA, DROP];
  }

  lemma AssignCode(st: Names, n: nat, l: nat)
    ensures Compile(st, 0, l, n, Ignore(Assign(PLACE, Const(5)))) ==
      AddCode(AddCode(CompileList(st, 0, n + 1, n + 2, [PLACE, Const(5)]), n + 1, false, [STA]), n, false, [DROP])
  {
    hide CompileList;
    assert Compile(st, 0, n, n + 1, Assign(PLACE, Const(5))) == CompileOperands(st, 0, n + 1, [PLACE, Const(5)], STA);
  }

  const MIDDLE: Prg :=
    [CONST(1), ST(GlobalVar("x")), DROP, SLABEL(10), CONST(2), ST(LocalVar(0)), DROP, LDA(LocalVar(0)), SLABEL(11),
     CONST(5), STA, DROP, LD(GlobalVar("x"))]

  const TAIL: Prg :=
    [SLABEL(10), CONST(2), ST(LocalVar(0)), DROP, LDA(LocalVar(0)), SLABEL(11), CONST(5), STA, DROP] + []
      + [LD(GlobalVar("x"))]

  lemma Assembled()
    ensures [CONST(1), ST(GlobalVar("x")), DROP] + [] + TAIL == MIDDLE
    ensures [BEGIN(1)] + ([SLABEL(1)] + MIDDLE + [SLABEL(2)]) + [] + [END] == CODE
  {
  }

  lemma TailCode(st: Names)
    requires !st.NoNames? && Designated(st, "x") == GlobalVar("x")
    ensures Compile(st, 0, 0, 6, Seq(Ignore(Assign(PLACE, Const(5))), Var("x"))) == Code(15, false, TAIL, 1)
  {
    assert Compile(st, 0, 0, 15, Var("x")) == Code(15, false, [LD(GlobalVar("x"))], 0);
    hide Compile, CompileList, Designated;
    var c3, c4 := CodePair(st, 0, 0, 6, Ignore(Assign(PLACE, Const(5))), Var("x"));
    CodeAssign(st, 6, 7);
  }

  lemma BodyCode(st: Names)
    requires !st.NoNames? && Designated(st, "x") == GlobalVar("x")
    ensures Compile(st, 0, 0, 3, Seq(Ignore(Assign(Ref("x"), Const(1))),
      Seq(Ignore(Assign(PLACE, Const(5))), Var("x"))))
      == Code(15, false, MIDDLE, 1)
  {
    hide Compile, CompileList, Designated, MIDDLE, TAIL;
    var c1, c2 := CodePair(st, 0, 0, 3, Ignore(Assign(Ref("x"), Const(1))),
      Seq(Ignore(Assign(PLACE, Const(5))), Var("x")));
    CodeSet(st, 0, 3, 4, "x", 1);
    TailCode(st);
    Assembled();
  }

  lemma ShadowedCode()
    ensures CompileProgram(SHADOWED) == CODE
  {
    var ds, b := [("x", Some(Const(1)))], Seq(Ignore(Assign(PLACE, Const(5))), Var("x"));
    assert DeclNames(ds) == ["x"];
    var st := Open(NoNames, ["x"], 0);
    assert ds[1..] == [] && WithInits(ds, b) == Seq(Ignore(Assign(Ref("x"), Const(1))), b);
    assert "x" in ["x"] && "x" in st.names && Designated(st, "x") == GlobalVar("x");
    hide Compile, CompileProgram, Open, WithInits, Designated, DeclNames;
    var e, xs, c := ProgramCode(ds, b);
    BodyCode(st);
    Assembled();
  }

  /** One more instruction. */
  lemma Go(a: Machine, d: Data, pc: nat) returns (d': Data)
    requires Goes(CODE, a, Machine(pc, d)) && pc < |CODE| && Run(CODE[pc], d).Some?
    ensures d' == Run(CODE[pc], d).value && Goes(CODE, a, Machine(pc + 1, d'))
  {
    hide Goes, Run;
    d' := Run(CODE[pc], d).value;
    Advance(CODE, a, pc, CODE[pc], d, d');
  }

  lemma Begun(a: Machine, d: Data) returns (d': Data)
    requires Goes(CODE, a, Machine(0, d)) && d.stack == []
    ensures d' == d.(locals := d'.locals, stack := d'.stack) && |d'.locals| == 1 && d'.stack == [Int(1)] &&
      Goes(CODE, a, Machine(3, d'))
  {
    hide Goes;
    d' := Go(a, d, 0);
    d' := Go(a, d', 1);
    d' := Go(a, d', 2);
  }

  /** Up to the inner scope. */
  lemma OuterSet(a: Machine, d: Data) returns (d': Data)
    requires Goes(CODE, a, Machine(3, d)) && d.stack == [Int(1)]
    ensures d' == d.(globals := d.globals["x" := Int(1)], stack := []) && Goes(CODE, a, Machine(6, d'))
  {
    hide Goes;
    d' := Go(a, d, 3);
    d' := Go(a, d', 4);
    assert d'.stack == [];
    d' := Go(a, d', 5);
  }

  lemma InnerInit(a: Machine, d: Data) returns (d': Data)
    requires Goes(CODE, a, Machine(6, d)) && d.stack == [] && |d.locals| == 1
    ensures d' == d.(locals := d'.locals) && |d'.locals| == 1 && Goes(CODE, a, Machine(9, d'))
  {
    hide Goes;
    d' := Go(a, d, 6);
    d' := Go(a, d', 7);
    d' := Go(a, d', 8);
    assert d'.stack == [];
  }

  /** The inner scope and its address. */
  lemma InnerSet(a: Machine, d: Data) returns (d': Data)
    requires Goes(CODE, a, Machine(6, d)) && d.stack == [] && |d.locals| == 1
    ensures d' == d.(locals := d'.locals, stack := d'.stack) && |d'.locals| == 1
    ensures d'.stack == [VarAt(LocalVar(0))] && Goes(CODE, a, Machine(11, d'))
  {
    hide Goes;
    var d1 := InnerInit(a, d);
    d' := Go(a, d1, 9);
    assert d'.stack == [VarAt(LocalVar(0))];
    d' := Go(a, d', 10);
  }

  /** The assignment and the outer variable. */
  lemma Assigned(a: Machine, d: Data) returns (d': Data)
    requires Goes(CODE, a, Machine(11, d)) && |d.locals| == 1 && |d.stack| == 1 && d.stack[0] == VarAt(LocalVar(0)) &&
      "x" in d.globals
    ensures d'.stack == [d.globals["x"]] && Goes(CODE, a, Machine(16, d'))
  {
    hide Goes;
    d' := Go(a, d, 11);
    d' := Go(a, d', 12);
    d' := Go(a, d', 13);
    d' := Go(a, d', 14);
    assert d'.stack == [d.globals["x"]];
    d' := Go(a, d', 15);
  }

  /** The inner variable is assigned, and the outer one is still what it was. */
  lemma ShadowedRun() returns (m: Machine)
    ensures Goes(CompileProgram(SHADOWED), Machine(0, Fresh([])), m)
    ensures m.pc < |CompileProgram(SHADOWED)| && CompileProgram(SHADOWED)[m.pc] == END && m.d.stack == [Int(1)]
  {
    ShadowedCode();
    hide Goes, CompileProgram;
    var a := Machine(0, Fresh([]));
    GoesRefl(CODE, a);
    var d := Begun(a, Fresh([]));
    d := OuterSet(a, d);
    d := InnerSet(a, d);
    d := Assigned(a, d);
    m := Machine(16, d);
  }

  // When the code means the variable that the reference means

  function Plus(xs: set<string>, ys: seq<string>): set<string> {
    xs + set y | y in ys
  }

  /** No variable that the place may turn out to be is among `xs` or declared inside the place.
      Branches after a pattern that always matches are not compiled. */
  predicate Uncaptured(e: Expr, xs: set<string>)
    decreases Size(e), 0
  {
    match e
    case Ref(x) => x !in xs
    case Seq(_, y) => Uncaptured(y, xs)
    case If(_, y, z) => Uncaptured(y, xs) && Uncaptured(z, xs)
    case Case(_, brs, _) => UncapturedBranches(brs, xs)
    case Scope(ds, x) =>
      SizeWithInits(ds, x);
      Uncaptured(WithInits(ds, x), Plus(xs, DeclNames(ds)))
    case _ => true
  }

  predicate UncapturedBranches(brs: seq<(Pattern, Expr)>, xs: set<string>)
    decreases SizeBranches(brs), 1
  {
    brs == [] || (
      assert SizeBranch(brs[0]) == Size(brs[0].1);
      && Uncaptured(brs[0].1, Plus(xs, BoundNames(Bindings(brs[0].0, []))))
      && (Irrefutable(brs[0].0) || UncapturedBranches(brs[1..], xs)))
  }

  /** Compiled among the names `st`, every variable that the place may turn out to be is where
      the compiler keeps it outside of the place, among the names `outer`. */
  predicate Meant(outer: Names, st: Names, li: nat, e: Expr)
    decreases Size(e), 0
  {
    match e
    case Ref(x) => Designated(st, x) == Designated(outer, x)
    case Seq(_, y) => Meant(outer, st, li, y)
    case If(_, y, z) => Meant(outer, st, li, y) && Meant(outer, st, li, z)
    case Case(_, brs, _) => MeantBranches(outer, st, li, brs)
    case Scope(ds, x) =>
      SizeWithInits(ds, x);
      Meant(outer, Open(st, DeclNames(ds), li), Above(st, DeclNames(ds), li), WithInits(ds, x))
    case _ => true
  }

  predicate MeantBranches(outer: Names, st: Names, li: nat, brs: seq<(Pattern, Expr)>)
    decreases SizeBranches(brs), 1
  {
    brs == [] || (
      assert SizeBranch(brs[0]) == Size(brs[0].1);
      var xs := BoundNames(Bindings(brs[0].0, []));
      && Meant(outer, Open(st, xs, li), Above(st, xs, li), brs[0].1)
      && (Irrefutable(brs[0].0) || MeantBranches(outer, st, li, brs[1..])))
  }

  /** The names `xs` have been declared since `outer`, whose slots are below `base`. */
  ghost predicate Inwards(outer: Names, base: nat, st: Names, li: nat, xs: set<string>) {
    && base <= li && !st.NoNames?
    && (forall x :: x !in xs ==> Designated(st, x) == Designated(outer, x))
    && (forall x :: x in xs ==> Designated(st, x).LocalVar? && Designated(st, x).index >= base)
    && (forall x :: Designated(outer, x).LocalVar? ==> Designated(outer, x).index < base)
  }

  lemma InwardsMore(outer: Names, base: nat, st: Names, li: nat, xs: set<string>, ys: seq<string>)
    requires Inwards(outer, base, st, li, xs)
    ensures Inwards(outer, base, Open(st, ys, li), Above(st, ys, li), Plus(xs, ys))
  {
    SlotsOf(ys, li);
    var st' := Open(st, ys, li);
    forall x ensures Designated(st', x) == if x in ys then LocalVar(Slots(ys, li)[x]) else Designated(st, x) {
    }
  }

  lemma {:induction false} MeantInside(outer: Names, base: nat, st: Names, li: nat, xs: set<string>, e: Expr)
    requires Inwards(outer, base, st, li, xs)
    ensures Meant(outer, st, li, e) <==> Uncaptured(e, xs)
    decreases Size(e), 0
  {
    hide Inwards, Open, Above, DeclNames, WithInits, Size;
    match e
    case Ref(x) => MeantHere(outer, base, st, li, xs, x);
    case Seq(x, y) => SizePair(x, y); MeantInside(outer, base, st, li, xs, y);
    case If(x, y, z) =>
      SizeIf(x, y, z);
      MeantInside(outer, base, st, li, xs, y);
      MeantInside(outer, base, st, li, xs, z);
    case Case(x, brs, valued) =>
      SizeCase(x, brs, valued);
      MeantAmong(outer, base, st, li, xs, brs);
    case Scope(ds, x) =>
      SizeInside(ds, x);
      InwardsMore(outer, base, st, li, xs, DeclNames(ds));
      MeantInside(outer, base, Open(st, DeclNames(ds), li), Above(st, DeclNames(ds), li), Plus(xs, DeclNames(ds)),
        WithInits(ds, x));
    case _ =>
  }

  lemma SizePair(x: Expr, y: Expr)
    ensures Size(y) < Size(Seq(x, y))
  {
  }

  lemma SizeInside(ds: seq<(string, Option<Expr>)>, x: Expr)
    ensures Size(WithInits(ds, x)) < Size(Scope(ds, x))
  {
    SizeWithInits(ds, x);
  }

  lemma MeantHere(outer: Names, base: nat, st: Names, li: nat, xs: set<string>, x: string)
    requires Inwards(outer, base, st, li, xs)
    ensures Designated(st, x) == Designated(outer, x) <==> x !in xs
  {
  }

  lemma {:induction false} MeantAmong(outer: Names, base: nat, st: Names, li: nat, xs: set<string>,
      brs: seq<(Pattern, Expr)>)
    requires Inwards(outer, base, st, li, xs)
    ensures MeantBranches(outer, st, li, brs) <==> UncapturedBranches(brs, xs)
    decreases SizeBranches(brs), 1
  {
    hide Inwards, Open, Above, Bindings, BoundNames, Irrefutable, Size, Meant, Uncaptured;
    if brs != [] {
      assert SizeBranch(brs[0]) == Size(brs[0].1);
      var ys := BoundNames(Bindings(brs[0].0, []));
      InwardsMore(outer, base, st, li, xs, ys);
      MeantInside(outer, base, Open(st, ys, li), Above(st, ys, li), Plus(xs, ys), brs[0].1);
      MeantAmong(outer, base, st, li, xs, brs[1..]);
    }
  }

  /** The addresses that the code of a place takes are those of the variables that the
      reference assigns exactly if no scope inside the place declares one of them. */
  lemma MeantExactly(st: Names, li: nat, e: Expr)
    requires Fits(st, li) && Proper(st) && !st.NoNames?
    ensures Meant(st, st, li, e) <==> Uncaptured(e, {})
  {
    hide Meant, Uncaptured;
    forall x | Designated(st, x).LocalVar? ensures Designated(st, x).index < li {
      SlotBelow(st, li, x);
    }
    MeantInside(st, li, st, li, {}, e);
  }

  /** Global scopes hold no local slots. */
  predicate Proper(st: Names) {
    match st
    case NoNames => true
    case GlobalNames(names) => forall x :: x in names ==> !names[x].LocalVar?
    case LocalNames(_, _, up) => Proper(up)
  }

  lemma {:induction false} SlotBelow(st: Names, li: nat, x: string)
    requires Fits(st, li) && Proper(st) && Designated(st, x).LocalVar?
    ensures Designated(st, x).index < li
    decreases st
  {
    if st.LocalNames? && x !in st.slots {
      SlotBelow(st.up, st.base, x);
    }
  }

  /** A well-attributed program with a captured place: the reference ends with 5, the compiled
      code with 1. */
  lemma ShadowedDiffers() returns (m: Machine)
    ensures Leaves(SHADOWED, 1) && !Uncaptured(PLACE, {})
    ensures Eval(Start([]), Skip, SHADOWED, 52).Some? && Eval(Start([]), Skip, SHADOWED, 52).value.vs == [Int(5)]
    ensures Goes(CompileProgram(SHADOWED), Machine(0, Fresh([])), m)
    ensures m.pc < |CompileProgram(SHADOWED)| && CompileProgram(SHADOWED)[m.pc] == END && m.d.stack == [Int(1)]
  {
    ShadowedLeaves();
    PlaceCaptured();
    hide *;
    ShadowedReference();
    m := ShadowedRun();
  }

  lemma ShadowedLeaves()
    ensures Leaves(SHADOWED, 1)
  {
    var b := Seq(Ignore(Assign(PLACE, Const(5))), Var("x"));
    hide Leaves;
    RefIsPlace("x");
    PlaceIsPlace([("x", Some(Const(2)))], Ref("x"), 2);
    UseLeaves(PLACE, 5, "x");
    PlaceIsPlace([("x", Some(Const(1)))], b, 1);
  }

  lemma RefIsPlace(x: string)
    ensures Leaves(Ref(x), 2)
  {
  }

  lemma UseLeaves(p: Expr, n: int, x: string)
    requires Leaves(p, 2)
    ensures Leaves(Seq(Ignore(Assign(p, Const(n))), Var(x)), 1)
  {
    assert Leaves(Assign(p, Const(n)), 1);
  }

  lemma PlaceIsPlace(ds: seq<(string, Option<Expr>)>, x: Expr, n: nat)
    requires Leaves(x, n) && |ds| == 1 && ds[0].1.Some? && ds[0].1.value.Const?
    ensures Leaves(Scope(ds, x), n)
  {
  }

  lemma PlaceCaptured()
    ensures !Uncaptured(PLACE, {})
  {
    var ds := [("x", Some(Const(2)))];
    var init := Ignore(Assign(Ref("x"), Const(2)));
    assert ds[1..] == [] && WithInits(ds, Ref("x")) == Seq(init, Ref("x"));
    var xs := Plus({}, DeclNames(ds));
    assert DeclNames(ds)[0] == "x";
    assert !Uncaptured(Ref("x"), xs);
    assert !Uncaptured(Seq(init, Ref("x")), xs);
  }
}

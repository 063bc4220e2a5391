/** The x86 code generator on a case that is assigned to and can fail: at the common label it
    goes on with the stack of the last jump. If that is the failure exit, an operand for the
    assignment is missing; if not, nobody notices that the edges disagree. */
module MissingOperand {
  import opened Wrappers
  import opened Syntax
  import opened Reference
  import opened Direct
  import opened StackMachine
  import opened Compiler
  import opened Unfolding
  import opened Symbolic
  import opened StackDepths
  import opened StackClashes
  import opened Locations
  import CapturedPlaces
  import CompilerCorrect

  // The code

  const BRANCHES: seq<(Pattern, Expr)> := [(PConst(1), Ref("x"))]

  /** `case 1 of 1 -> x esac`. */
  const PLACE := Case(Const(1), BRANCHES, true)

  function BranchInsns(f: nat, b: nat): Prg {
    [SLABEL(b), CONST(1), BINOP("=="), CJMP(false, f), DROP, LDA(GlobalVar("x")), SLABEL(b + 1)]
  }

  function CaseInsns(f: nat, l: nat, b: nat): Prg {
    [CONST(1), DUP, SLABEL(b), CONST(1), BINOP("=="), CJMP(false, f), DROP, LDA(GlobalVar("x")), SLABEL(b + 1), JMP(l),
      LABEL(f), FAIL(true), JMP(l)]
  }

  lemma CodeBranch(st: Names, l: nat, f: nat, b: nat)
    requires !st.NoNames? && Designated(st, "x") == GlobalVar("x")
    ensures CompileBranches(st, 0, l, f, b, BRANCHES, None) == (Code(b + 2, false, BranchInsns(f, b), 0), true)
  {
    var inner := Open(st, [], 0);
    assert Designated(inner, "x") == GlobalVar("x");
    assert BoundNames(Bindings(PConst(1), [])) == [] && BindCode(inner, []) == [];
    CapturedPlaces.RefCode(inner, 0, l, b + 2, "x");
    hide Compile, CompileBranches, Open, Designated, Bindings, BoundNames, BindCode;
    var lfalse, n0, n1, canFail, pcode, c, rest := BranchCode(st, 0, l, f, b, BRANCHES, None);
    assert [SLABEL(b)] + pcode + ([] + [DROP]) + [LDA(GlobalVar("x"))] + [] + [SLABEL(b + 1)] + [] == BranchInsns(f, b);
  }

  lemma CodeCase(st: Names, l: nat, n: nat)
    requires !st.NoNames? && Designated(st, "x") == GlobalVar("x")
    ensures Compile(st, 0, l, n, PLACE) == Code(n + 4, true, CaseInsns(n, l, n + 2), 0)
  {
    assert Compile(st, 0, n + 1, n + 2, Const(1)) == Code(n + 2, false, [CONST(1)], 0);
    hide Compile, CompileBranches, Designated, BRANCHES, BranchInsns, CaseInsns, SizeBranches, Size;
    CodeBranch(st, l, n, n + 2);
    var c, b := CaseCode(st, 0, l, n, Const(1), BRANCHES, true);
    CaseParts(n, l, n + 2);
  }

  lemma CaseParts(f: nat, l: nat, b: nat)
    ensures [CONST(1)] + [] + [DUP] + BranchInsns(f, b) + [JMP(l)] + [LABEL(f), FAIL(true), JMP(l)]
      == CaseInsns(f, l, b)
  {
  }

  /** `x := 3`, for a place whose code is known. */
  lemma CodeAssign(st: Names, x: Expr, c: Code)
    requires !x.Ref? && Compile(st, 0, 4, 5, x) == c && c.flag && c.locals == 0
    ensures Compile(st, 0, 0, 3, Assign(x, Const(3)))
      == Code(c.next, false, c.insns + [LABEL(4)] + [CONST(3)] + [] + [STA], 0)
  {
    AssignOperands(st, x, Const(3));
    assert Compile(st, 0, 3, c.next, Const(3)) == Code(c.next, false, [CONST(3)], 0);
    hide Compile, CompileList;
    var c1, c2 := CapturedPlaces.CodePair(st, 0, 3, 4, x, Const(3));
  }

  lemma AssignOperands(st: Names, x: Expr, y: Expr)
    requires !x.Ref?
    ensures Compile(st, 0, 0, 3, Assign(x, y)) == AddCode(CompileList(st, 0, 3, 4, [x, y]), 3, false, [STA])
  {
    hide CompileList;
    assert Compile(st, 0, 0, 3, Assign(x, y)) == CompileOperands(st, 0, 3, [x, y], STA);
  }

  function ProgramInsns(place: Prg): Prg {
    [BEGIN(0), SLABEL(1)] + place + [LABEL(4), CONST(3), STA, SLABEL(2), END]
  }

  /** The names inside `var x`. */
  function Inside(): Names {
    Open(NoNames, ["x"], 0)
  }

  lemma InsideNames()
    ensures !Inside().NoNames? && Designated(Inside(), "x") == GlobalVar("x")
  {
    assert "x" in ["x"] && "x" in Inside().names;
  }

  lemma CodeProgram(x: Expr, c: Code)
    requires !x.Ref? && Compile(Inside(), 0, 4, 5, x) == c && c.flag && c.locals == 0
    ensures CompileProgram(Scope([("x", None)], Assign(x, Const(3)))) == ProgramInsns(c.insns)
  {
    var ds, b := [("x", None)], Assign(x, Const(3));
    assert DeclNames(ds) == ["x"];
    assert ds[1..] == [] && WithInits(ds, b) == b;
    hide Compile, CompileProgram, Open, WithInits, DeclNames;
    var e, xs, c0 := CompilerCorrect.ProgramCode(ds, b);
    CodeAssign(Inside(), x, c);
    Assembled(c.insns);
  }

  lemma Assembled(p: Prg)
    ensures [BEGIN(0)] + ([SLABEL(1)] + (p + [LABEL(4)] + [CONST(3)] + [] + [STA]) + [SLABEL(2)]) + [] + [END]
      == ProgramInsns(p)
  {
  }

  // The generator, one instruction at a time

  /** After `m` instructions the generator is at `e1`. */
  predicate Reaches(e: Env, p: Prg, m: nat, e1: Env) {
    m <= |p| && EmitAll(e, p[..m]) == Some(e1)
  }

  lemma EmitNext(e: Env, p: Prg, m: nat, e1: Env, e2: Env)
    requires Reaches(e, p, m, e1) && m < |p| && Emit(e1, p[m]) == Some(e2)
    ensures Reaches(e, p, m + 1, e2)
  {
    hide Emit;
    assert p[..m + 1][..m] == p[..m];
  }

  lemma EmitNone(e: Env, p: Prg)
    ensures Reaches(e, p, 0, e)
  {
    assert p[..0] == [];
  }

  lemma EmitWhole(e: Env, p: Prg, e1: Env)
    requires Reaches(e, p, |p|, e1)
    ensures EmitAll(e, p) == Some(e1)
  {
    assert p[..|p|] == p;
  }

  /** Labels of scopes and tests change nothing. */
  lemma EmitSame(e: Env, p: Prg, m: nat, e1: Env)
    requires Reaches(e, p, m, e1) && m < |p| && !e1.barrier
    requires p[m].SLABEL? || p[m].LABEL? || (p[m].FAIL? && p[m].valued && e1.stack != [])
    ensures Reaches(e, p, m + 1, e1)
  {
    hide Reaches;
    EmitNext(e, p, m, e1, e1);
  }

  lemma EmitPush(e: Env, p: Prg, m: nat, e1: Env) returns (e2: Env)
    requires Reaches(e, p, m, e1) && m < |p| && !e1.barrier && (p[m].CONST? || (p[m].DUP? && e1.stack != []))
    ensures Reaches(e, p, m + 1, e2) && e2 == Symbolic.Allocate(e1).1
  {
    hide Reaches, Symbolic.Allocate;
    e2 := Symbolic.Allocate(e1).1;
    EmitNext(e, p, m, e1, e2);
  }

  lemma EmitAddress(e: Env, p: Prg, m: nat, e1: Env) returns (e2: Env)
    requires Reaches(e, p, m, e1) && m < |p| && !e1.barrier && p[m].LDA? && e1.stack == []
    ensures Reaches(e, p, m + 1, e2) && e2 == e1.(stack := [R(1), R(0)], slots := e2.slots)
  {
    hide Reaches;
    e2 := Symbolic.Allocate(Symbolic.Allocate(e1).1).1;
    EmitNext(e, p, m, e1, e2);
  }

  lemma EmitJump(e: Env, p: Prg, m: nat, e1: Env) returns (e2: Env)
    requires Reaches(e, p, m, e1) && m < |p| && !e1.barrier && p[m].JMP?
    ensures Reaches(e, p, m + 1, e2) && e2 == e1.(stackmap := e1.stackmap[p[m].l := e1.stack], barrier := true)
  {
    hide Reaches;
    e2 := e1.(stackmap := e1.stackmap[p[m].l := e1.stack], barrier := true);
    EmitNext(e, p, m, e1, e2);
  }

  lemma EmitTest(e: Env, p: Prg, m: nat, e1: Env) returns (e2: Env)
    requires Reaches(e, p, m, e1) && m < |p| && !e1.barrier && p[m].CJMP? && e1.stack != []
    ensures Reaches(e, p, m + 1, e2)
    ensures e2 == e1.(stack := e1.stack[1..], stackmap := e1.stackmap[p[m].l := e1.stack[1..]])
  {
    hide Reaches;
    e2 := e1.(stack := e1.stack[1..], stackmap := e1.stackmap[p[m].l := e1.stack[1..]]);
    EmitNext(e, p, m, e1, e2);
  }

  lemma EmitLabel(e: Env, p: Prg, m: nat, e1: Env) returns (e2: Env)
    requires Reaches(e, p, m, e1) && m < |p| && e1.barrier && p[m].LABEL? && p[m].l in e1.stackmap
    ensures Reaches(e, p, m + 1, e2) && e2 == e1.(stack := e1.stackmap[p[m].l], barrier := false)
  {
    hide Reaches;
    e2 := e1.(stack := e1.stackmap[p[m].l], barrier := false);
    EmitNext(e, p, m, e1, e2);
  }

  // The case

  /** Up to the test of the pattern: the value, its copy and the constant. */
  lemma EmitValues(e: Env, p: Prg, f: nat, l: nat, b: nat) returns (e': Env)
    requires !e.barrier && e.stack == [] && p == CaseInsns(f, l, b)
    ensures Reaches(e, p, 4, e') && e' == e.(stack := [R(2), R(1), R(0)], slots := e'.slots)
  {
    hide Reaches, Emit, EmitAll;
    EmitNone(e, p);
    var e1 := EmitPush(e, p, 0, e);
    assert e1.stack == [R(0)];
    var e2 := EmitPush(e, p, 1, e1);
    assert e2.stack == [R(1), R(0)];
    EmitSame(e, p, 2, e2);
    e' := EmitPush(e, p, 3, e2);
    assert e'.stack == [R(2), R(1), R(0)];
  }

  /** The test and its jump. */
  lemma EmitPattern(e: Env, p: Prg, f: nat, l: nat, b: nat, e1: Env) returns (e': Env)
    requires p == CaseInsns(f, l, b) && Reaches(e, p, 4, e1) && e1.stack == [R(2), R(1), R(0)] && !e1.barrier
    ensures Reaches(e, p, 6, e') && e' == e1.(stack := [R(0)], stackmap := e1.stackmap[f := [R(0)]])
  {
    hide Reaches, EmitAll;
    var e2 := e1.(stack := [R(1), R(0)]);
    assert [e1.stack[1]] + e1.stack[2..] == e2.stack && e2.stack[1..] == [R(0)];
    EmitNext(e, p, 4, e1, e2);
    e' := EmitTest(e, p, 5, e2);
  }

  /** The branch, with two operands at its jump. */
  lemma EmitBranch(e: Env, p: Prg, f: nat, l: nat, b: nat, e1: Env) returns (e': Env)
    requires p == CaseInsns(f, l, b) && Reaches(e, p, 6, e1) && e1.stack == [R(0)] && !e1.barrier
    ensures Reaches(e, p, 10, e') && e'.barrier && e'.stackmap == e1.stackmap[l := [R(1), R(0)]]
  {
    hide Reaches, EmitAll;
    var e2 := e1.(stack := []);
    assert e1.stack[1..] == [];
    EmitNext(e, p, 6, e1, e2);
    var e3 := EmitAddress(e, p, 7, e2);
    EmitSame(e, p, 8, e3);
    e' := EmitJump(e, p, 9, e3);
  }

  /** The failure exit, with one operand at the same label. */
  lemma EmitFail(e: Env, p: Prg, f: nat, l: nat, b: nat, e1: Env) returns (e': Env)
    requires p == CaseInsns(f, l, b) && Reaches(e, p, 10, e1) && e1.barrier
    requires f in e1.stackmap && e1.stackmap[f] == [R(0)]
    ensures Reaches(e, p, 13, e') && e'.barrier && e'.stackmap == e1.stackmap[l := [R(0)]]
  {
    hide Reaches, EmitAll, Emit;
    var e2 := EmitLabel(e, p, 10, e1);
    EmitSame(e, p, 11, e2);
    e' := EmitJump(e, p, 12, e2);
  }

  /** The whole case: what is kept for its label is the stack of the failure exit. */
  lemma EmitCase(e: Env, f: nat, l: nat, b: nat) returns (e': Env)
    requires !e.barrier && e.stack == [] && f != l
    ensures EmitAll(e, CaseInsns(f, l, b)) == Some(e') && e'.barrier
    ensures e'.stackmap == e.stackmap[f := [R(0)]][l := [R(1), R(0)]][l := [R(0)]]
  {
    var p := CaseInsns(f, l, b);
    hide CaseInsns, Reaches, EmitAll;
    var e1 := EmitValues(e, p, f, l, b);
    var e2 := EmitPattern(e, p, f, l, b, e1);
    var e3 := EmitBranch(e, p, f, l, b, e2);
    e' := EmitFail(e, p, f, l, b, e3);
    CaseLength(f, l, b);
    EmitWhole(e, p, e');
  }

  lemma CaseLength(f: nat, l: nat, b: nat)
    ensures |CaseInsns(f, l, b)| == 13
  {
  }

  // A program without code

  lemma {:induction false} EmitStuck(e: Env, p: Prg, q: Prg)
    requires EmitAll(e, p).None?
    ensures EmitAll(e, p + q).None?
    decreases |q|
  {
    hide Emit;
    if q == [] {
      assert p + q == p;
    } else {
      assert (p + q)[..|p + q| - 1] == p + q[..|q| - 1];
      EmitStuck(e, p, q[..|q| - 1]);
    }
  }

  lemma EmitStart(e: Env) returns (e': Env)
    requires !e.barrier && e.stack == []
    ensures EmitAll(e, [BEGIN(0), SLABEL(1)]) == Some(e') && e'.stack == [] && !e'.barrier
  {
    var p := [BEGIN(0), SLABEL(1)];
    e' := e.(fixed := 0, slots := 0);
    hide Reaches, EmitAll;
    EmitNone(e, p);
    EmitNext(e, p, 0, e, e');
    EmitSame(e, p, 1, e');
    EmitWhole(e, p, e');
  }

  /** With one operand under the constant, the assignment lacks one. */
  lemma EmitShort(e: Env)
    requires e.barrier && 4 in e.stackmap && e.stackmap[4] == [R(0)]
    ensures EmitAll(e, [LABEL(4), CONST(3), STA]).None?
  {
    var p := [LABEL(4), CONST(3), STA];
    EmitNone(e, p);
    var e1 := EmitLabel(e, p, 0, e);
    var e2 := EmitPush(e, p, 1, e1);
    assert CallEnv(e2, 3) == None;
    assert p[..2] == p[..|p| - 1];
  }

  /** `case 1 of 1 -> x esac := 3` is well-attributed, and no code can be generated for it. */
  lemma GeneratorStops(e: Env)
    requires !e.barrier && e.stack == []
    ensures Leaves(FAILING, 1) && EmitAll(e, CompileProgram(FAILING)).None?
  {
    FailingPlace();
    InsideNames();
    hide CompileProgram, EmitAll, Leaves, CaseInsns, Inside, Compile;
    CodeCase(Inside(), 4, 5);
    CodeProgram(PLACE, Code(9, true, CaseInsns(5, 4, 7), 0));
    var e1 := EmitStart(e);
    var e2 := EmitCase(e1, 5, 4, 7);
    EmitShort(e2);
    StopsInside(e, CaseInsns(5, 4, 7), e1, e2);
  }

  lemma StopsInside(e: Env, place: Prg, e1: Env, e2: Env)
    requires EmitAll(e, [BEGIN(0), SLABEL(1)]) == Some(e1) && EmitAll(e1, place) == Some(e2)
    requires EmitAll(e2, [LABEL(4), CONST(3), STA]).None?
    ensures EmitAll(e, ProgramInsns(place)).None?
  {
    hide EmitAll;
    var start, p := [BEGIN(0), SLABEL(1)], [LABEL(4), CONST(3), STA];
    EmitConcat(e, start, place);
    EmitConcat(e, start + place, p);
    EmitStuck(e, start + place + p, [SLABEL(2), END]);
    assert start + place + p + [SLABEL(2), END] == ProgramInsns(place);
  }

  // A program with code that disagrees with itself

  /** `(if 1 then case 1 of 1 -> x esac else x fi) := 3`. */
  const MISPLACED := Scope([("x", None)], Assign(If(Const(1), PLACE, Ref("x")), Const(3)))

  function ChoiceInsns(): Prg {
    [CONST(1), CJMP(false, 6)] + CaseInsns(7, 4, 9) + [LABEL(6), LDA(GlobalVar("x")), JMP(4)]
  }

  lemma CodeChoice(st: Names, y: Expr, c: Code)
    requires Designated(st, "x") == GlobalVar("x") && Compile(st, 0, 4, 7, y) == c && c.flag && c.locals == 0
    ensures Compile(st, 0, 4, 5, If(Const(1), y, Ref("x"))) ==
      Code(c.next, true,
           [CONST(1)] + [] + [CJMP(false, 6)] + c.insns + [] + [LABEL(6)] + [LDA(GlobalVar("x"))] + [JMP(4)], 0)
  {
    assert Compile(st, 0, 5, 7, Const(1)) == Code(7, false, [CONST(1)], 0);
    CapturedPlaces.RefCode(st, 0, 4, c.next, "x");
    hide Compile, Designated, Size;
    var c0, c1, c2 := IfCode(st, 0, 4, 5, Const(1), y, Ref("x"));
  }

  lemma ChoiceParts()
    ensures [CONST(1)] + [] + [CJMP(false, 6)] + CaseInsns(7, 4, 9) + [] + [LABEL(6)] + [LDA(GlobalVar("x"))] + [JMP(4)]
      == ChoiceInsns()
  {
    hide CaseInsns;
  }

  lemma EmitCondition(e: Env) returns (e': Env)
    requires !e.barrier && e.stack == []
    ensures EmitAll(e, [CONST(1), CJMP(false, 6)]) == Some(e') &&
      e' == e.(stackmap := e.stackmap[6 := []], slots := e'.slots)
  {
    var p := [CONST(1), CJMP(false, 6)];
    hide Reaches, EmitAll, Emit;
    EmitNone(e, p);
    var e1 := EmitPush(e, p, 0, e);
    assert e1.stack == [R(0)] && e1.stack[1..] == [];
    e' := EmitTest(e, p, 1, e1);
    EmitWhole(e, p, e');
  }

  lemma EmitElse(e: Env) returns (e': Env)
    requires e.barrier && 6 in e.stackmap && e.stackmap[6] == []
    ensures EmitAll(e, [LABEL(6), LDA(GlobalVar("x")), JMP(4)]) == Some(e')
    ensures e'.barrier && 4 in e'.stackmap && e'.stackmap[4] == [R(1), R(0)]
  {
    var p := [LABEL(6), LDA(GlobalVar("x")), JMP(4)];
    hide Reaches, EmitAll, Emit;
    EmitNone(e, p);
    var e1 := EmitLabel(e, p, 0, e);
    var e2 := EmitAddress(e, p, 1, e1);
    e' := EmitJump(e, p, 2, e2);
    EmitWhole(e, p, e');
  }

  /** With two operands under the constant the assignment goes through. */
  lemma EmitRest(e: Env) returns (e': Env)
    requires e.barrier && 4 in e.stackmap && e.stackmap[4] == [R(1), R(0)]
    ensures EmitAll(e, [LABEL(4), CONST(3), STA, SLABEL(2), END]) == Some(e')
  {
    var p := [LABEL(4), CONST(3), STA, SLABEL(2), END];
    hide Reaches, EmitAll;
    EmitNone(e, p);
    var e1 := EmitLabel(e, p, 0, e);
    var e2 := EmitPush(e, p, 1, e1);
    assert e2.stack == [R(2), R(1), R(0)] && e2.stack[3..] == [];
    var e3 := Symbolic.Allocate(e2.(stack := [])).1;
    assert e3.stack == [R(0)];
    EmitNext(e, p, 2, e2, e3);
    EmitSame(e, p, 3, e3);
    e' := e3.(stack := []);
    EmitNext(e, p, 4, e3, e');
    EmitWhole(e, p, e');
  }

  lemma EmitChoice(e: Env) returns (e': Env)
    requires !e.barrier && e.stack == []
    ensures EmitAll(e, ChoiceInsns()) == Some(e') && e'.barrier && 4 in e'.stackmap && e'.stackmap[4] == [R(1), R(0)]
  {
    hide EmitAll, CaseInsns;
    var e1 := EmitCondition(e);
    var e2 := EmitCase(e1, 7, 4, 9);
    e' := EmitElse(e2);
    EmitConcat(e, [CONST(1), CJMP(false, 6)], CaseInsns(7, 4, 9));
    EmitConcat(e, [CONST(1), CJMP(false, 6)] + CaseInsns(7, 4, 9), [LABEL(6), LDA(GlobalVar("x")), JMP(4)]);
  }

  lemma MisplacedCode()
    ensures CompileProgram(MISPLACED) == ProgramInsns(ChoiceInsns())
  {
    InsideNames();
    hide CompileProgram, ChoiceInsns, CaseInsns, Inside, Compile, Designated;
    CodeCase(Inside(), 4, 7);
    CodeChoice(Inside(), PLACE, Code(11, true, CaseInsns(7, 4, 9), 0));
    ChoiceParts();
    CodeProgram(If(Const(1), PLACE, Ref("x")), Code(11, true, ChoiceInsns(), 0));
  }

  lemma MisplacedInfirm()
    ensures Leaves(MISPLACED, 1) && !Firm(MISPLACED, 1)
  {
    FailingCase(BRANCHES);
    hide BRANCHES;
    InfirmChoice(PLACE);
    hide *;
    FailingAssign(If(Const(1), PLACE, Ref("x")));
  }

  lemma InfirmChoice(x: Expr)
    requires Leaves(x, 2) && !Firm(x, 2)
    ensures Leaves(If(Const(1), x, Ref("x")), 2) && !Firm(If(Const(1), x, Ref("x")), 2)
  {
  }

  /** For `(if 1 then case 1 of 1 -> x esac else x fi) := 3` the generator gets through, and edges
      into one label disagree about the places of the operands. */
  lemma GeneratorMisplaces(e: Env, L: set<nat>)
    requires Fresh(e, L, CompileProgram(MISPLACED))
    ensures Leaves(MISPLACED, 1) && EmitAll(e, CompileProgram(MISPLACED)).Some?
    ensures !SamePlaces(e, CompileProgram(MISPLACED))
  {
    MisplacedInfirm();
    hide CompileProgram, EmitAll, Leaves, Firm, SamePlaces, ChoiceInsns;
    ProgramPlaces(MISPLACED, e, L);
    MisplacedCode();
    var e1 := EmitStart(e);
    var e2 := EmitChoice(e1);
    var e3 := EmitRest(e2);
    ThreeParts(e, ChoiceInsns(), e1, e2, e3);
  }

  lemma ThreeParts(e: Env, place: Prg, e1: Env, e2: Env, e3: Env)
    requires EmitAll(e, [BEGIN(0), SLABEL(1)]) == Some(e1) && EmitAll(e1, place) == Some(e2)
    requires EmitAll(e2, [LABEL(4), CONST(3), STA, SLABEL(2), END]) == Some(e3)
    ensures EmitAll(e, ProgramInsns(place)) == Some(e3)
  {
    hide EmitAll;
    var start := [BEGIN(0), SLABEL(1)];
    EmitConcat(e, start, place);
    EmitConcat(e, start + place, [LABEL(4), CONST(3), STA, SLABEL(2), END]);
  }
}

/** One level of direct evaluation, of the compiler and of their common conditions, as facts
    that proofs can use one at a time. */
module Unfolding {
  import opened Wrappers
  import opened Syntax
  import opened Reference
  import opened Direct
  import opened StackMachine
  import opened Compiler
  import opened BindingsCompiled

  // Assignable places

  /** The variables that a place may turn out to be. */
  function Targets(e: Expr): set<string>
    decreases e
  {
    match e
    case Ref(x) => {x}
    case Seq(_, y) => Targets(y)
    case If(_, y, z) => Targets(y) + Targets(z)
    case Case(_, brs, _) => BranchTargets(brs)
    case Scope(_, x) => Targets(x)
    case _ => {}
  }

  function BranchTargets(brs: seq<(Pattern, Expr)>): set<string>
    decreases brs
  {
    if brs == [] then {} else BranchTarget(brs[0]) + BranchTargets(brs[1..])
  }

  function BranchTarget(b: (Pattern, Expr)): set<string>
    decreases b
  {
    Targets(b.1)
  }

  // Programs that the compiler accepts

  /** Names resolve, functions are only called, pattern variables are distinct. A place is not a
      variable of a scope inside it. `k` is what the expression leaves. */
  ghost predicate Accepted(st: Names, li: nat, e: Expr, k: nat)
    decreases Size(e), 0
  {
    match e
    case Const(_) => k == 1
    case Str(_) => k == 1
    case Skip => k == 0
    case Var(x) => k == 1 && Resolve(st, x).Some? && !Resolve(st, x).value.Fun?
    case Ref(x) => k == 2 && Resolve(st, x).Some?
    case Binop(_, x, y) => k == 1 && Accepted(st, li, x, 1) && Accepted(st, li, y, 1)
    case Elem(x, y) => k == 1 && Accepted(st, li, x, 1) && Accepted(st, li, y, 1)
    case ElemRef(x, y) => k == 2 && Accepted(st, li, x, 1) && Accepted(st, li, y, 1)
    case Array(es) => k == 1 && AcceptedAll(st, li, es, Ones(|es|))
    case Sexp(_, es) => k == 1 && AcceptedAll(st, li, es, Ones(|es|))
    case Call(f, es) =>
      && k == 1 && f.Var? && Resolve(st, f.name).Some? && Resolve(st, f.name).value.Fun?
      && AcceptedAll(st, li, es, Ones(|es|))
    case Assign(x, y) => k == 1 && Accepted(st, li, x, 2) && Accepted(st, li, y, 1)
    case Seq(x, y) => Accepted(st, li, x, 0) && Accepted(st, li, y, k)
    case Ignore(x) => k == 0 && Accepted(st, li, x, 1)
    case If(x, y, z) => Accepted(st, li, x, 1) && Accepted(st, li, y, k) && Accepted(st, li, z, k)
    case While(x, y) => k == 0 && Accepted(st, li, x, 1) && Accepted(st, li, y, 0)
    case DoWhile(y, x) => k == 0 && Accepted(st, li, x, 1) && Accepted(st, li, y, 0)
    case Case(x, brs, valued) => Accepted(st, li, x, 1) && AcceptedBranches(st, li, brs, k)
    case Scope(ds, x) =>
      SizeWithInits(ds, x);
      && Accepted(Open(st, DeclNames(ds), li), Above(st, DeclNames(ds), li), WithInits(ds, x), k)
      && (k == 2 ==> Free(DeclNames(ds), WithInits(ds, x)))
    case _ => false
  }

  /** None of the names is assigned by the place `e`. */
  predicate Free(xs: seq<string>, e: Expr) {
    forall x :: x in xs ==> x !in Targets(e)
  }

  function Ones(m: nat): (ks: seq<nat>)
    ensures |ks| == m && forall j :: 0 <= j < m ==> ks[j] == 1
  {
    if m == 0 then [] else [1] + Ones(m - 1)
  }

  ghost predicate AcceptedAll(st: Names, li: nat, es: seq<Expr>, ks: seq<nat>)
    requires |ks| == |es|
    decreases SizeList(es), 1
  {
    es == [] || (Accepted(st, li, es[0], ks[0]) && AcceptedAll(st, li, es[1..], ks[1..]))
  }

  ghost predicate AcceptedBranches(st: Names, li: nat, brs: seq<(Pattern, Expr)>, k: nat)
    decreases SizeBranches(brs), 1
  {
    brs == [] || (
      var xs := BoundNames(Bindings(brs[0].0, []));
      assert SizeBranch(brs[0]) == Size(brs[0].1);
      && DistinctNames(Bindings(brs[0].0, []))
      && Accepted(Open(st, xs, li), Above(st, xs, li), brs[0].1, k)
      && (k == 2 ==> Free(xs, brs[0].1))
      && AcceptedBranches(st, li, brs[1..], k))
  }

  // Operands

  /** The values that the machine has for those of an expression: a reference to a variable is
      an address there. */
  function Located(st: Names, k: nat, vs: seq<Value>): seq<Value> {
    if k == 2 && |vs| == 1 && vs[0].RefVar? then [VarAt(Designated(st, vs[0].name))] else vs
  }

  function Shown(st: Names, k: nat, o: Outcome): Outcome {
    Outcome(o.w, Located(st, k, o.vs))
  }

  function ExecAll(st: Names, es: seq<Expr>, ks: seq<nat>, w: World, fuel: nat): Option<Outcome>
    requires |ks| == |es|
    decreases |es|
  {
    if es == [] then Some(Outcome(w, []))
    else match Exec(es[0], w, fuel)
      case Some(o) =>
        (match ExecAll(st, es[1..], ks[1..], o.w, fuel)
         case Some(rest) => Some(Outcome(rest.w, rest.vs + Located(st, ks[0], o.vs)))
         case None => None)
      case None => None
  }

  lemma ExecAllOne(st: Names, e: Expr, k: nat, w: World, fuel: nat)
    requires Exec(e, w, fuel).Some?
    ensures ExecAll(st, [e], [k], w, fuel) == Some(Shown(st, k, Exec(e, w, fuel).value))
  {
    hide Exec, Located;
    assert [e][1..] == [] && [k][1..] == [];
    var o := Exec(e, w, fuel).value;
    assert ExecAll(st, [], [], o.w, fuel) == Some(Outcome(o.w, []));
    assert [] + Located(st, k, o.vs) == Located(st, k, o.vs);
  }

  lemma ExecAllTwo(st: Names, x: Expr, y: Expr, j: nat, k: nat, w: World, fuel: nat)
    requires Exec(x, w, fuel).Some? && Exec(y, Exec(x, w, fuel).value.w, fuel).Some?
    ensures var o1 := Exec(x, w, fuel).value; var o2 := Exec(y, o1.w, fuel).value;
      ExecAll(st, [x, y], [j, k], w, fuel) == Some(Outcome(o2.w, Located(st, k, o2.vs) + Located(st, j, o1.vs)))
  {
    hide Exec, Located;
    assert [x, y][1..] == [y] && [y][1..] == [] && [j, k][1..] == [k];
    var o1 := Exec(x, w, fuel).value;
    ExecAllOne(st, y, k, o1.w, fuel);
  }

  lemma ValueLocated(st: Names, e: Expr, w: World, fuel: nat)
    requires ExecValue(e, w, fuel).Some?
    ensures Exec(e, w, fuel) == Some(Outcome(ExecValue(e, w, fuel).value.0, [ExecValue(e, w, fuel).value.1]))
    ensures Located(st, 1, [ExecValue(e, w, fuel).value.1]) == [ExecValue(e, w, fuel).value.1]
  {
    hide Exec;
    assert Exec(e, w, fuel).value.vs == [Exec(e, w, fuel).value.vs[0]];
  }

  lemma TwoValues(st: Names, x: Expr, y: Expr, w: World, fuel: nat)
    requires Two(x, y, w, fuel).Some?
    ensures var (w', a, b) := Two(x, y, w, fuel).value;
      ExecAll(st, [x, y], [1, 1], w, fuel) == Some(Outcome(w', [b, a]))
  {
    hide Exec, ExecAll, Located;
    ValueLocated(st, x, w, fuel);
    ValueLocated(st, y, ExecValue(x, w, fuel).value.0, fuel);
    ExecAllTwo(st, x, y, 1, 1, w, fuel);
    var (w', a, b) := Two(x, y, w, fuel).value;
    assert [b] + [a] == [b, a];
  }

  lemma {:induction false} ManyValues(st: Names, es: seq<Expr>, w: World, fuel: nat)
    requires ExecValues(es, w, fuel).Some?
    ensures var (w', vs) := ExecValues(es, w, fuel).value;
      |vs| == |es| && ExecAll(st, es, Ones(|es|), w, fuel) == Some(Outcome(w', Reverse(vs)))
    decreases |es|
  {
    hide ExecValue, Exec, Located;
    if es != [] {
      ValueLocated(st, es[0], w, fuel);
      var (w1, v) := ExecValue(es[0], w, fuel).value;
      ManyValues(st, es[1..], w1, fuel);
      var (w2, vs) := ExecValues(es[1..], w1, fuel).value;
      assert Ones(|es|)[1..] == Ones(|es| - 1);
      assert Reverse([v] + vs) == Reverse(vs) + [v];
    }
  }

  /** An operator: all operands first, then one instruction. */
  predicate IsOperator(e: Expr) {
    e.Binop? || e.Elem? || e.Array? || e.Sexp? || (e.Call? && e.f.Var?)
  }

  function Operands(e: Expr): seq<Expr>
    requires IsOperator(e)
  {
    match e
    case Binop(_, x, y) => [x, y]
    case Elem(x, y) => [x, y]
    case Array(es) => es
    case Sexp(_, es) => es
    case Call(_, es) => es
  }

  function Operator(e: Expr): Insn
    requires IsOperator(e)
  {
    match e
    case Binop(op, _, _) => BINOP(op)
    case Elem(_, _) => ELEM
    case Array(es) => CALL(".array", |es|)
    case Sexp(t, es) => SEXP(t, |es|)
    case Call(f, es) => CALL("L" + f.name, |es|)
  }

  /** What an operator makes of its operands. */
  function Finish(e: Expr, o: Outcome): Option<Outcome>
    requires IsOperator(e)
  {
    var vs := o.vs;
    match e
    case Binop(op, _, _) =>
      if |vs| != 2 || !vs[0].Int? || !vs[1].Int? then None
      else (match Operate(op, vs[1].n, vs[0].n)
        case Some(z) => Pushed(o.w, Int(z))
        case None => None)
    case Elem(_, _) =>
      if |vs| != 2 || !vs[0].Int? then None
      else (match ElemOf(o.w.store, vs[1], vs[0].n)
        case Some(v) => Pushed(o.w, v)
        case None => None)
    case Array(es) =>
      if |vs| != |es| then None
      else Pushed(o.w.(store := o.w.store + [Arr(Reverse(vs))]), Obj(|o.w.store|))
    case Sexp(t, es) =>
      if |vs| != |es| then None
      else Pushed(o.w.(store := o.w.store + [Sx(t, Reverse(vs))]), Obj(|o.w.store|))
    case Call(f, es) =>
      if |vs| != |es| then None
      else (match RunBuiltin(f.name, Reverse(vs), o.w.store, o.w.input, o.w.output)
        case Some((store, input, output, v)) => Pushed(o.w.(store := store, input := input, output := output), v)
        case None => None)
  }

  lemma OperandsFirst(st: Names, e: Expr, w: World, fuel: nat)
    requires IsOperator(e) && Exec(e, w, fuel).Some?
    requires e.Call? ==> Lookup(w.st, e.f.name) == Some(BuiltinValue(e.f.name))
    ensures ExecAll(st, Operands(e), Ones(|Operands(e)|), w, fuel).Some?
    ensures Finish(e, ExecAll(st, Operands(e), Ones(|Operands(e)|), w, fuel).value) == Exec(e, w, fuel)
  {
    hide ExecAll, Operate, ElemOf, RunBuiltin;
    assert Ones(2) == [1, 1];
    match e
    case Binop(_, x, y) => TwoValues(st, x, y, w, fuel);
    case Elem(x, y) => TwoValues(st, x, y, w, fuel);
    case Array(es) =>
      ManyValues(st, es, w, fuel);
      ReverseTwice(ExecValues(es, w, fuel).value.1);
    case Sexp(_, es) =>
      ManyValues(st, es, w, fuel);
      ReverseTwice(ExecValues(es, w, fuel).value.1);
    case Call(f, es) =>
      ValueOfVar(f.name, w, fuel);
      ManyValues(st, es, w, fuel);
      ReverseTwice(ExecValues(es, w, fuel).value.1);
  }

  lemma ValueOfVar(x: string, w: World, fuel: nat)
    requires Lookup(w.st, x).Some?
    ensures ExecValue(Var(x), w, fuel) == Some((w, Lookup(w.st, x).value))
  {
  }

  lemma OperatorCode(st: Names, li: nat, l: nat, n: nat, e: Expr)
    requires IsOperator(e)
    requires e.Call? ==> Resolve(st, e.f.name) == Some(Fun("L" + e.f.name))
    ensures Compile(st, li, l, n, e) == CompileOperands(st, li, n, Operands(e), Operator(e))
    ensures SizeList(Operands(e)) < Size(e)
  {
    hide CompileOperands, Size;
    OperandsSize(e);
  }

  lemma OperandsSize(e: Expr)
    requires IsOperator(e)
    ensures SizeList(Operands(e)) < Size(e)
  {
    match e
    case Binop(_, x, y) => SizeTwo(x, y);
    case Elem(x, y) => SizeTwo(x, y);
    case _ =>
  }

  lemma AcceptedOperands(st: Names, li: nat, e: Expr)
    requires IsOperator(e) && Accepted(st, li, e, 1)
    ensures AcceptedAll(st, li, Operands(e), Ones(|Operands(e)|))
  {
    hide AcceptedAll;
    assert Ones(2) == [1, 1];
    match e
    case Binop(_, x, y) => AcceptedTwo(st, li, x, y, 1, 1);
    case Elem(x, y) => AcceptedTwo(st, li, x, y, 1, 1);
    case _ =>
  }

  lemma AcceptedTwo(st: Names, li: nat, x: Expr, y: Expr, j: nat, k: nat)
    requires Accepted(st, li, x, j) && Accepted(st, li, y, k)
    ensures AcceptedAll(st, li, [x, y], [j, k])
  {
    hide Accepted;
    assert [x, y][1..] == [y] && [y][1..] == [] && [j, k][1..] == [k] && [k][1..] == [];
    assert AcceptedAll(st, li, [], []) && AcceptedAll(st, li, [y], [k]);
  }

  // The code of compound expressions

  lemma SizeIf(x: Expr, y: Expr, z: Expr)
    ensures Size(If(x, y, z)) == 1 + Size(x) + Size(y) + Size(z)
  {
  }

  lemma SizeLoops(x: Expr, y: Expr)
    ensures Size(While(x, y)) == 1 + Size(x) + Size(y) && Size(DoWhile(y, x)) == 2 + Size(x) + Size(y)
  {
  }

  lemma SizeCase(x: Expr, brs: seq<(Pattern, Expr)>, valued: bool)
    ensures Size(Case(x, brs, valued)) == 1 + Size(x) + SizeBranches(brs)
  {
  }

  lemma IfCode(st: Names, li: nat, l: nat, n: nat, x: Expr, y: Expr, z: Expr) returns (c: Code, c1: Code, c2: Code)
    ensures c == Compile(st, li, n, n + 2, x) && c1 == Compile(st, li, l, c.next, y) &&
      c2 == Compile(st, li, l, c1.next, z)
    ensures Compile(st, li, l, n, If(x, y, z)) ==
      Code(c2.next, true, c.insns + Landing(c.flag, n) + [CJMP(false, n + 1)] + c1.insns + Parting(c1.flag, l)
                          + [LABEL(n + 1)] + c2.insns + Parting(c2.flag, l), Max(c.locals, Max(c1.locals, c2.locals)))
    ensures Size(If(x, y, z)) == 1 + Size(x) + Size(y) + Size(z)
  {
    hide Size;
    SizeIf(x, y, z);
    c := Compile(st, li, n, n + 2, x);
    c1 := Compile(st, li, l, c.next, y);
    c2 := Compile(st, li, l, c1.next, z);
  }

  lemma WhileCode(st: Names, li: nat, l: nat, n: nat, x: Expr, y: Expr) returns (c: Code, b: Code)
    ensures c == Compile(st, li, n, n + 3, x) && b == Compile(st, li, n + 2, c.next, y)
    ensures Compile(st, li, l, n, While(x, y)) ==
      Code(b.next, false, [JMP(n + 2), FLABEL(n + 1)] + b.insns + [LABEL(n + 2)] + c.insns + Landing(c.flag, n)
        + [CJMP(true, n + 1)],
           Max(c.locals, b.locals))
    ensures Size(While(x, y)) == 1 + Size(x) + Size(y)
  {
    hide Size;
    SizeLoops(x, y);
    c := Compile(st, li, n, n + 3, x);
    b := Compile(st, li, n + 2, c.next, y);
  }

  lemma DoWhileCode(st: Names, li: nat, l: nat, n: nat, x: Expr, y: Expr) returns (c: Code, b: Code)
    ensures c == Compile(st, li, n, n + 3, x) && b == Compile(st, li, n + 2, c.next, y)
    ensures Compile(st, li, l, n, DoWhile(y, x)) ==
      Code(b.next, false, [LABEL(n + 1)] + b.insns + Landing(b.flag, n + 2) + c.insns + Landing(c.flag, n)
        + [CJMP(true, n + 1)],
           Max(c.locals, b.locals))
    ensures Size(DoWhile(y, x)) == 2 + Size(x) + Size(y)
  {
    hide Size;
    SizeLoops(x, y);
    c := Compile(st, li, n, n + 3, x);
    b := Compile(st, li, n + 2, c.next, y);
  }

  lemma ScopeCode(st: Names, li: nat, l: nat, n: nat, ds: seq<(string, Option<Expr>)>, x: Expr)
    returns (e: Expr, xs: seq<string>, c: Code)
    ensures e == WithInits(ds, x) && xs == DeclNames(ds)
    ensures c == Compile(Open(st, xs, li), Above(st, xs, li), l, n + 2, e)
    ensures Compile(st, li, l, n, Scope(ds, x)) ==
      Code(c.next, c.flag, [SLABEL(n)] + c.insns + [SLABEL(n + 1)], Max(c.locals, Above(st, xs, li)))
    ensures Size(e) < Size(Scope(ds, x))
  {
    hide WithInits, Open, Above, SizeDecls;
    e := WithInits(ds, x);
    xs := DeclNames(ds);
    c := Compile(Open(st, xs, li), Above(st, xs, li), l, n + 2, e);
    SizeWithInits(ds, x);
  }

  lemma CaseCode(st: Names, li: nat, l: nat, n: nat, x: Expr, brs: seq<(Pattern, Expr)>, valued: bool)
    returns (c: Code, b: (Code, bool))
    ensures c == Compile(st, li, n + 1, n + 2, x) && b == CompileBranches(st, li, l, n, c.next, brs, None)
    ensures Compile(st, li, l, n, Case(x, brs, valued)) ==
      Code(b.0.next, true,
           c.insns + Landing(c.flag, n + 1) + [DUP] + b.0.insns + [JMP(l)]
             + (if b.1 then [LABEL(n), FAIL(valued), JMP(l)] else []),
           Max(c.locals, b.0.locals))
    ensures Size(Case(x, brs, valued)) == 1 + Size(x) + SizeBranches(brs)
  {
    hide CompileBranches, SizeBranches, Size;
    SizeCase(x, brs, valued);
    c := Compile(st, li, n + 1, n + 2, x);
    b := CompileBranches(st, li, l, n, c.next, brs, None);
  }

  /** The first branch of a case and the branches after it that are kept. */
  lemma BranchCode(st: Names, li: nat, l: nat, lfail: nat, n: nat, brs: seq<(Pattern, Expr)>, lab: Option<nat>)
    returns (lfalse: nat, n0: nat, n1: nat, canFail: bool, pcode: Prg, c: Code, rest: (Code, bool))
    requires brs != []
    ensures lfalse == (if |brs| == 1 then lfail else n) && n0 == (if |brs| == 1 then n else n + 1)
    ensures PatternCode(brs[0].0, lfalse, n0) == (n1, canFail, pcode)
    ensures var bs := Bindings(brs[0].0, []); var xs := BoundNames(bs); var inner := Open(st, xs, li);
      && c == Compile(inner, Above(st, xs, li), l, n1 + 2, brs[0].1)
      && (canFail && |brs| > 1 ==> rest == CompileBranches(st, li, l, lfail, c.next, brs[1..], Some(lfalse)))
      && (!(canFail && |brs| > 1) ==> rest == (Code(c.next, false, [], 0), canFail))
      && CompileBranches(st, li, l, lfail, n, brs, lab) ==
         (Code(rest.0.next, false,
               Entry(n1, lab) + pcode + (BindCode(inner, bs) + [DROP]) + c.insns
               + (if |brs| == 1 then [] else [JMP(l)]) + [SLABEL(n1 + 1)] + rest.0.insns,
               Max(Max(c.locals, Above(st, xs, li)), rest.0.locals)), rest.1)
    ensures Size(brs[0].1) + SizeBranches(brs[1..]) < SizeBranches(brs)
  {
    hide Compile, Bindings, BindCode, PatternCode, BoundNames, Open, Above, Entry, Size;
    var last := |brs| == 1;
    lfalse := if last then lfail else n;
    n0 := if last then n else n + 1;
    n1, canFail, pcode := PatternCode(brs[0].0, lfalse, n0).0, PatternCode(brs[0].0, lfalse, n0).1,
      PatternCode(brs[0].0, lfalse, n0).2;
    var xs := BoundNames(Bindings(brs[0].0, []));
    assert SizeBranch(brs[0]) == Size(brs[0].1);
    c := Compile(Open(st, xs, li), Above(st, xs, li), l, n1 + 2, brs[0].1);
    rest := if canFail && !last then CompileBranches(st, li, l, lfail, c.next, brs[1..], Some(lfalse))
      else (Code(c.next, false, [], 0), canFail);
    if !(canFail && !last) {
      var code := Entry(n1, lab) + pcode + (BindCode(Open(st, xs, li), Bindings(brs[0].0, [])) + [DROP]) + c.insns
        + (if |brs| == 1 then [] else [JMP(l)]) + [SLABEL(n1 + 1)];
      assert code + [] == code;
    }
  }
}

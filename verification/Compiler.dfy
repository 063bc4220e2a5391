/** The compiler to the stack machine: `compile_expr` with its flag and label protocol, the
    pattern compiler, and the pattern bindings. */
module Compiler {
  import opened Wrappers
  import opened Syntax
  import opened Reference
  import opened Direct
  import opened StackMachine

  // Names

  /** Scopes as the compiler sees them. A local scope starts at slot `base`. */
  datatype Names =
    | NoNames
    | GlobalNames(names: map<string, Designation>)
    | LocalNames(slots: map<string, nat>, base: nat, up: Names)

  function Resolve(st: Names, x: string): Option<Designation> {
    match st
    case NoNames => None
    case GlobalNames(names) => Get(names, x)
    case LocalNames(names, _, up) => if x in names then Some(LocalVar(names[x])) else Resolve(up, x)
  }

  /** The designation in the code for a variable; the compiler rejects unknown names. */
  function Designated(st: Names, x: string): Designation {
    match Resolve(st, x) case Some(d) => d case None => GlobalVar(x)
  }

  /** Consecutive slots from `base` on, in the order in which names are added. */
  function Slots(xs: seq<string>, base: nat): map<string, nat> {
    if xs == [] then map[]
    else Slots(xs[..|xs| - 1], base)[xs[|xs| - 1] := base + |xs| - 1]
  }

  /** `push_scope` followed by adding the names `xs`. */
  function Open(st: Names, xs: seq<string>, base: nat): Names {
    if st.NoNames? then
      GlobalNames((map f | f in BUILTINS :: Fun("L" + f)) + (map x | x in xs :: GlobalVar(x)))
    else
      LocalNames(Slots(xs, base), base, st)
  }

  /** The first free slot after opening such a scope. */
  function Above(st: Names, xs: seq<string>, base: nat): nat {
    if st.NoNames? then base else base + |xs|
  }

  function DeclNames(decls: seq<(string, Option<Expr>)>): seq<string> {
    seq(|decls|, i requires 0 <= i < |decls| => decls[|decls| - 1 - i].0)
  }

  // Code

  /** `next` is the next unused label, `flag` says whether control leaves only by a jump to
      the target label, `locals` is the number of local slots that the code needs. */
  datatype Code = Code(next: nat, flag: bool, insns: Prg, locals: nat)

  function Landing(flag: bool, l: nat): Prg {
    if flag then [LABEL(l)] else []
  }

  function AddCode(c: Code, l: nat, flag: bool, more: Prg): Code {
    c.(flag := flag, insns := c.insns + Landing(c.flag, l) + more)
  }

  // Patterns

  /** `pattern`: falls through on success, jumps to `lfalse` on failure; either way one copy
      of the value is consumed. The flag tells a pattern that can fail. */
  function PatternCode(p: Pattern, lfalse: nat, n: nat): (nat, bool, Prg)
    decreases p
  {
    match p
    case Wildcard => (n, false, [DROP])
    case Named(_, q) => PatternCode(q, lfalse, n)
    case PConst(c) => (n, true, [CONST(c), BINOP("=="), CJMP(false, lfalse)])
    case PString(text) => (n, true, [STRING(text), PATT(StrCmp), CJMP(false, lfalse)])
    case ArrayTag => (n, true, [PATT(PattArray), CJMP(false, lfalse)])
    case StringTag => (n, true, [PATT(PattString), CJMP(false, lfalse)])
    case SexpTag => (n, true, [PATT(PattSexp), CJMP(false, lfalse)])
    case UnBoxed => (n, true, [PATT(PattUnBoxed), CJMP(false, lfalse)])
    case Boxed => (n, true, [PATT(PattBoxed), CJMP(false, lfalse)])
    case ClosureTag => (n, true, [PATT(PattClosure), CJMP(false, lfalse)])
    case PArray(ps) =>
      var (next, code) := PatternListCode(ps, 0, n + 1, n + 2);
      (next, true, Head(ARRAY(|ps|), n, n + 1, lfalse) + code + [DROP])
    case PSexp(t, ps) =>
      var (next, code) := PatternListCode(ps, 0, n + 1, n + 2);
      (next, true, Head(TAG(t, |ps|), n, n + 1, lfalse) + code + [DROP])
  }

  /** The test of a structured pattern, with the common failure exit of its components. */
  function Head(test: Insn, lhead: nat, ldrop: nat, lfalse: nat): Prg {
    [DUP, test, CJMP(true, lhead), LABEL(ldrop), DROP, JMP(lfalse), LABEL(lhead)]
  }

  function PatternListCode(ps: seq<Pattern>, i: nat, ldrop: nat, n: nat): (nat, Prg)
    decreases ps
  {
    if ps == [] then (n, [])
    else
      var (n1, _, code) := PatternCode(ps[0], ldrop, n);
      var (n2, rest) := PatternListCode(ps[1..], i + 1, ldrop, n1);
      (n2, [DUP, CONST(i), ELEM] + code + rest)
  }

  /** Where in the matched value each name of the pattern is found. */
  function Bindings(p: Pattern, path: seq<nat>): seq<(string, seq<nat>)>
    decreases p
  {
    match p
    case Named(x, q) => [(x, path)] + Bindings(q, path)
    case PSexp(_, ps) => ListBindings(ps, path, 0)
    case PArray(ps) => ListBindings(ps, path, 0)
    case _ => []
  }

  function ListBindings(ps: seq<Pattern>, path: seq<nat>, i: nat): seq<(string, seq<nat>)>
    decreases ps
  {
    if ps == [] then [] else Bindings(ps[0], path + [i]) + ListBindings(ps[1..], path, i + 1)
  }

  function BoundNames(bs: seq<(string, seq<nat>)>): seq<string> {
    seq(|bs|, i requires 0 <= i < |bs| => bs[|bs| - 1 - i].0)
  }

  function PathCode(path: seq<nat>): Prg {
    if path == [] then [] else [CONST(path[0]), ELEM] + PathCode(path[1..])
  }

  /** `bindings`: stores every named part of the value on the stack, then drops the value. */
  function BindCode(st: Names, bs: seq<(string, seq<nat>)>): Prg {
    if bs == [] then []
    else
      [DUP] + PathCode(bs[0].1) + [ST(Designated(st, bs[0].0)), DROP] + BindCode(st, bs[1..])
  }

  // Expressions

  lemma SizeTwo(x: Expr, y: Expr)
    ensures SizeList([x, y]) == Size(x) + Size(y)
  {
    hide Size;
    assert [x, y][1..] == [y] && [y][1..] == [];
    assert SizeList([y]) == Size(y) + SizeList([]);
  }

  lemma SizeCons(f: Expr, es: seq<Expr>)
    ensures SizeList([f] + es) == Size(f) + SizeList(es)
  {
    hide Size;
    assert ([f] + es)[1..] == es;
  }

  function CompileList(st: Names, li: nat, l: nat, n: nat, es: seq<Expr>): Code
    decreases SizeList(es), 1
  {
    if es == [] then Code(n, false, [], 0)
    else if |es| == 1 then
      assert SizeList(es) == Size(es[0]);
      Compile(st, li, l, n, es[0])
    else
      var c1 := Compile(st, li, n, n + 1, es[0]);
      var c2 := CompileList(st, li, l, c1.next, es[1..]);
      Code(c2.next, c2.flag, c1.insns + Landing(c1.flag, n) + c2.insns, Max(c1.locals, c2.locals))
  }

  /** Operands joined at a fresh label, then one instruction. */
  function CompileOperands(st: Names, li: nat, n: nat, es: seq<Expr>, i: Insn): Code
    decreases SizeList(es), 2
  {
    AddCode(CompileList(st, li, n, n + 1, es), n, false, [i])
  }

  /** `compile_expr`. `CLOSURE` stands for the placeholder that the closures are put into
      when they are known. */
  function Compile(st: Names, li: nat, l: nat, n: nat, e: Expr): Code
    decreases Size(e), 0
  {
    match e
    case Const(c) => Code(n, false, [CONST(c)], 0)
    case Str(text) => Code(n, false, [STRING(text)], 0)
    case Var(x) =>
      Code(n, false, [if Designated(st, x).Fun? then CLOSURE(Designated(st, x).name, []) else LD(Designated(st, x))], 0)
    case Ref(x) => Code(n, false, [LDA(Designated(st, x))], 0)
    case Lambda(_, _) => Code(n, false, [CLOSURE("", [])], 0)
    case Binop(op, x, y) => SizeTwo(x, y); CompileOperands(st, li, n, [x, y], BINOP(op))
    case Elem(x, y) => SizeTwo(x, y); CompileOperands(st, li, n, [x, y], ELEM)
    case ElemRef(x, y) => SizeTwo(x, y); CompileList(st, li, l, n, [x, y])
    case Array(es) => CompileOperands(st, li, n, es, CALL(".array", |es|))
    case Sexp(t, es) => CompileOperands(st, li, n, es, SEXP(t, |es|))
    case Call(f, es) =>
      if f.Var? && Designated(st, f.name).Fun? then
        CompileOperands(st, li, n, es, CALL(Designated(st, f.name).name, |es|))
      else
        SizeCons(f, es);
        CompileOperands(st, li, n, [f] + es, CALLC(|es|))
    case Assign(Ref(x), y) =>
      AddCode(Compile(st, li, n, n + 1, y), n, false, [ST(Designated(st, x))])
    case Assign(x, y) => SizeTwo(x, y); CompileOperands(st, li, n, [x, y], STA)
    case Skip => Code(n, false, [], 0)
    case Seq(x, y) => SizeTwo(x, y); CompileList(st, li, l, n, [x, y])
    case Ignore(x) => AddCode(Compile(st, li, n, n + 1, x), n, false, [DROP])
    case If(x, y, z) =>
      var c := Compile(st, li, n, n + 2, x);
      var c1 := Compile(st, li, l, c.next, y);
      var c2 := Compile(st, li, l, c1.next, z);
      Code(c2.next, true,
           c.insns + Landing(c.flag, n) + [CJMP(false, n + 1)]
           + c1.insns + Parting(c1.flag, l) + [LABEL(n + 1)] + c2.insns + Parting(c2.flag, l),
           Max(c.locals, Max(c1.locals, c2.locals)))
    case While(x, y) =>
      var c := Compile(st, li, n, n + 3, x);
      var c1 := Compile(st, li, n + 2, c.next, y);
      Code(c1.next, false,
           [JMP(n + 2), FLABEL(n + 1)] + c1.insns + [LABEL(n + 2)] + c.insns + Landing(c.flag, n) + [CJMP(true, n + 1)],
           Max(c.locals, c1.locals))
    case DoWhile(y, x) =>
      var c := Compile(st, li, n, n + 3, x);
      var c1 := Compile(st, li, n + 2, c.next, y);
      Code(c1.next, false,
           [LABEL(n + 1)] + c1.insns + Landing(c1.flag, n + 2) + c.insns + Landing(c.flag, n) + [CJMP(true, n + 1)],
           Max(c.locals, c1.locals))
    case Case(x, brs, valued) =>
      var c := Compile(st, li, n + 1, n + 2, x);
      var (b, fail) := CompileBranches(st, li, l, n, c.next, brs, None);
      Code(b.next, true,
           c.insns + Landing(c.flag, n + 1) + [DUP] + b.insns + [JMP(l)]
             + (if fail then [LABEL(n), FAIL(valued), JMP(l)] else []),
           Max(c.locals, b.locals))
    case Scope(ds, x) =>
      SizeWithInits(ds, x);
      var xs := DeclNames(ds);
      var c := Compile(Open(st, xs, li), Above(st, xs, li), l, n + 2, WithInits(ds, x));
      Code(c.next, c.flag, [SLABEL(n)] + c.insns + [SLABEL(n + 1)], Max(c.locals, Above(st, xs, li)))
    case _ => Code(n, false, [], 0)
  }

  function Parting(flag: bool, l: nat): Prg {
    if flag then [] else [JMP(l)]
  }

  /** The branches of a case from some branch on. `lab` is the failure label of the branch
      before; branches after a pattern that cannot fail are dropped. The second result says
      whether the whole case can fail. */
  function CompileBranches(st: Names, li: nat, l: nat, lfail: nat, n: nat, brs: seq<(Pattern, Expr)>, lab: Option<nat>)
    : (Code, bool)
    decreases SizeBranches(brs), 1
  {
    if brs == [] then (Code(n, false, [], 0), true)
    else
      var last := |brs| == 1;
      var lfalse := if last then lfail else n;
      var n0 := if last then n else n + 1;
      var (n1, canFail, pcode) := PatternCode(brs[0].0, lfalse, n0);
      var bs := Bindings(brs[0].0, []);
      var xs := BoundNames(bs);
      var inner := Open(st, xs, li);
      assert SizeBranch(brs[0]) == Size(brs[0].1);
      var c := Compile(inner, Above(st, xs, li), l, n1 + 2, brs[0].1);
      var code := Entry(n1, lab) + pcode + (BindCode(inner, bs) + [DROP]) + c.insns
        + (if last then [] else [JMP(l)]) + [SLABEL(n1 + 1)];
      var need := Max(c.locals, Above(st, xs, li));
      if canFail && !last then
        var (rest, fail) := CompileBranches(st, li, l, lfail, c.next, brs[1..], Some(lfalse));
        (Code(rest.next, false, code + rest.insns, Max(need, rest.locals)), fail)
      else
        (Code(c.next, false, code, need), canFail)
  }

  function Entry(blab: nat, lab: Option<nat>): Prg {
    match lab
    case None => [SLABEL(blab)]
    case Some(l) => [SLABEL(blab), LABEL(l), DUP]
  }

  /** A whole program: the code of `main`. */
  function CompileProgram(e: Expr): Prg {
    var c := Compile(NoNames, 0, 0, 1, e);
    [BEGIN(c.locals)] + c.insns + Landing(c.flag, 0) + [END]
  }
}

/** The stack machine: instructions, labels, and one step of `SM.eval`. */
module StackMachine {
  import opened Wrappers
  import opened Syntax

  datatype Patt = StrCmp | PattString | PattArray | PattSexp | PattBoxed | PattUnBoxed | PattClosure

  datatype Insn =
    | BINOP(op: string)
    | CONST(c: int)
    | STRING(text: seq<int>)
    | SEXP(tag: string, n: nat)
    | LD(d: Designation)
    | LDA(d: Designation)
    | ST(d: Designation)
    | STA
    | STI
    | ELEM
    | LABEL(l: nat)
    | FLABEL(l: nat)
    | SLABEL(l: nat)
    | JMP(l: nat)
    | CJMP(nonzero: bool, l: nat)
    | CALL(f: string, n: nat)
    | CALLC(n: nat)
    | CLOSURE(f: string, captured: seq<Designation>)
    | DROP
    | DUP
    | SWAP
    | TAG(tag: string, n: nat)
    | ARRAY(n: nat)
    | PATT(p: Patt)
    | FAIL(valued: bool)
    | BEGIN(nlocals: nat)
    | END
    | RET

  type Prg = seq<Insn>

  /** What the machine works on, without its position. */
  datatype Data = Data(stack: seq<Value>, globals: map<string, Value>, locals: seq<Value>,
                       store: Store, input: seq<int>, output: seq<int>)

  datatype Machine = Machine(pc: nat, d: Data)

  // Labels

  /** A place that can be jumped to; scope labels are not. */
  predicate Defines(i: Insn, l: nat) {
    i == LABEL(l) || i == FLABEL(l)
  }

  ghost predicate HasLabel(P: Prg, l: nat) {
    exists i :: 0 <= i < |P| && Defines(P[i], l)
  }

  ghost predicate LabelsUnique(P: Prg) {
    forall i, j, l :: 0 <= i < |P| && 0 <= j < |P| && Defines(P[i], l) && Defines(P[j], l) ==> i == j
  }

  /** `env#labeled`: execution goes on after the label. */
  ghost function Labeled(P: Prg, l: nat): (pc: nat)
    requires HasLabel(P, l)
    ensures 0 < pc <= |P| && Defines(P[pc - 1], l)
  {
    var i :| 0 <= i < |P| && Defines(P[i], l);
    i + 1
  }

  // Steps

  function Bool(b: bool): Value {
    Int(Truth(b))
  }

  /** `BINOP "=="` compares integers only, but an integer differs from anything else. */
  function RunBinop(op: string, x: Value, y: Value): Option<Value> {
    if op == "==" && !(x.Int? && y.Int?) then
      if x.Int? || y.Int? then Some(Int(0)) else None
    else if x.Int? && y.Int? then
      (match Operate(op, x.n, y.n)
       case Some(z) => Some(Int(z))
       case None => None)
    else None
  }

  function RunPatt(p: Patt, v: Value, store: Store): bool
    requires p != StrCmp
  {
    match p
    case PattString => v.Obj? && v.loc < |store| && store[v.loc].Bytes?
    case PattArray => v.Obj? && v.loc < |store| && store[v.loc].Arr?
    case PattSexp => v.Obj? && v.loc < |store| && store[v.loc].Sx?
    case PattBoxed => !v.Int?
    case PattUnBoxed => v.Int?
    case PattClosure => false
  }

  function SameText(store: Store, x: Value, y: Value): bool {
    x.Obj? && y.Obj? && x.loc < |store| && y.loc < |store| && store[x.loc].Bytes? && store[x.loc] == store[y.loc]
  }

  /** Names of builtins are called with the prefix of function labels. */
  function BuiltinName(f: string): string {
    if |f| > 0 && f[0] == 'L' then f[1..] else f
  }

  /** `update`: functions cannot be assigned. */
  function StoreAt(d: Data, x: Designation, v: Value): Option<Data> {
    match x
    case GlobalVar(y) => Some(d.(globals := d.globals[y := v]))
    case LocalVar(j) => if j < |d.locals| then Some(d.(locals := d.locals[j := v])) else None
    case Fun(_) => None
  }

  /** Instructions that do not change the flow of control. This is the machine inside `main`:
      activations are not part of it, nor are closures. */
  function Run(i: Insn, d: Data): Option<Data> {
    var s := d.stack;
    match i
    case BINOP(op) =>
      if |s| < 2 then None
      else (match RunBinop(op, s[1], s[0])
        case Some(z) => Some(d.(stack := [z] + s[2..]))
        case None => None)
    case CONST(n) => Some(d.(stack := [Int(n)] + s))
    case STRING(text) =>
      var (store, v) := Allocate(d.store, Bytes(text));
      Some(d.(store := store, stack := [v] + s))
    case SEXP(t, n) =>
      if |s| < n then None
      else
        var (store, v) := Allocate(d.store, Sx(t, Reverse(s[..n])));
        Some(d.(store := store, stack := [v] + s[n..]))
    case LD(GlobalVar(x)) => if x in d.globals then Some(d.(stack := [d.globals[x]] + s)) else None
    case LD(LocalVar(j)) => if j < |d.locals| then Some(d.(stack := [d.locals[j]] + s)) else None
    case LDA(x) => Some(d.(stack := [VarAt(x)] + s))
    case ST(x) => if |s| < 1 then None else StoreAt(d, x, s[0])
    case STI =>
      if |s| < 2 || !s[1].VarAt? then None else StoreAt(d.(stack := [s[0]] + s[2..]), s[1].d, s[0])
    case STA =>
      if |s| >= 2 && s[1].VarAt? then StoreAt(d.(stack := [s[0]] + s[2..]), s[1].d, s[0])
      else if |s| < 3 || !s[1].Int? then None
      else (match SetElem(d.store, s[2], s[1].n, s[0])
        case Some(store) => Some(d.(store := store, stack := [s[0]] + s[3..]))
        case None => None)
    case ELEM =>
      if |s| < 2 || !s[0].Int? then None
      else (match ElemOf(d.store, s[1], s[0].n)
        case Some(v) => Some(d.(stack := [v] + s[2..]))
        case None => None)
    case CALL(f, n) =>
      if |s| < n then None
      else if f == ".array" then
        var (store, v) := Allocate(d.store, Arr(Reverse(s[..n])));
        Some(d.(store := store, stack := [v] + s[n..]))
      else (match RunBuiltin(BuiltinName(f), Reverse(s[..n]), d.store, d.input, d.output)
        case Some((store, input, output, v)) =>
          Some(Data([v] + s[n..], d.globals, d.locals, store, input, output))
        case None => None)
    case DROP => if |s| < 1 then None else Some(d.(stack := s[1..]))
    case DUP => if |s| < 1 then None else Some(d.(stack := [s[0]] + s))
    case SWAP => if |s| < 2 then None else Some(d.(stack := [s[1], s[0]] + s[2..]))
    case TAG(t, n) =>
      if |s| < 1 then None
      else
        var v := s[0];
        var hit := v.Obj? && v.loc < |d.store| && d.store[v.loc].Sx? && d.store[v.loc].tag == t &&
          |d.store[v.loc].items| == n;
        Some(d.(stack := [Bool(hit)] + s[1..]))
    case ARRAY(n) =>
      if |s| < 1 then None
      else
        var v := s[0];
        var hit := v.Obj? && v.loc < |d.store| && d.store[v.loc].Arr? && |d.store[v.loc].items| == n;
        Some(d.(stack := [Bool(hit)] + s[1..]))
    case PATT(StrCmp) =>
      if |s| < 2 then None else Some(d.(stack := [Bool(SameText(d.store, s[0], s[1]))] + s[2..]))
    case PATT(p) =>
      if |s| < 1 then None else Some(d.(stack := [Bool(RunPatt(p, s[0], d.store))] + s[1..]))
    case BEGIN(n) => Some(d.(locals := seq(n, _ => Empty)))
    case LABEL(_) => Some(d)
    case FLABEL(_) => Some(d)
    case SLABEL(_) => Some(d)
    case _ => None
  }

  /** One step; `None` when the machine has stopped at `END`, failed, or raised an exception. */
  ghost function Next(P: Prg, m: Machine): Option<Machine> {
    if m.pc >= |P| then None
    else match P[m.pc]
      case JMP(l) => if HasLabel(P, l) then Some(m.(pc := Labeled(P, l))) else None
      case CJMP(nonzero, l) =>
        var s := m.d.stack;
        if |s| < 1 || !s[0].Int? then None
        else
          var d := m.d.(stack := s[1..]);
          if (s[0].n != 0) == nonzero then
            if HasLabel(P, l) then Some(Machine(Labeled(P, l), d)) else None
          else Some(Machine(m.pc + 1, d))
      case i =>
        (match Run(i, m.d)
         case Some(d) => Some(Machine(m.pc + 1, d))
         case None => None)
  }

  ghost function Steps(P: Prg, m: Machine, n: nat): Option<Machine>
    decreases n
  {
    if n == 0 then Some(m)
    else match Next(P, m)
      case Some(m') => Steps(P, m', n - 1)
      case None => None
  }

  /** The machine gets from `m` to `m'`. */
  ghost predicate Goes(P: Prg, m: Machine, m': Machine) {
    exists n :: Steps(P, m, n) == Some(m')
  }

  lemma GoesRefl(P: Prg, m: Machine)
    ensures Goes(P, m, m)
  {
    assert Steps(P, m, 0) == Some(m);
  }

  lemma {:induction false} StepsTrans(P: Prg, a: Machine, b: Machine, n: nat, k: nat)
    requires Steps(P, a, n) == Some(b)
    ensures Steps(P, a, n + k) == Steps(P, b, k)
    decreases n
  {
    hide Next;
    if n > 0 {
      StepsTrans(P, Next(P, a).value, b, n - 1, k);
    }
  }

  lemma GoesTrans(P: Prg, a: Machine, b: Machine, c: Machine)
    requires Goes(P, a, b) && Goes(P, b, c)
    ensures Goes(P, a, c)
  {
    var n :| Steps(P, a, n) == Some(b);
    var k :| Steps(P, b, k) == Some(c);
    StepsTrans(P, a, b, n, k);
  }

  lemma GoesStep(P: Prg, a: Machine)
    requires Next(P, a).Some?
    ensures Goes(P, a, Next(P, a).value)
  {
    assert Steps(P, Next(P, a).value, 0) == Some(Next(P, a).value);
    assert Steps(P, a, 1) == Some(Next(P, a).value);
  }

  /** The machine is deterministic: it stops in at most one configuration. */
  lemma {:induction false} StopsOnce(P: Prg, m: Machine, n1: nat, m1: Machine, n2: nat, m2: Machine)
    requires Steps(P, m, n1) == Some(m1) && Next(P, m1).None?
    requires Steps(P, m, n2) == Some(m2) && Next(P, m2).None?
    ensures m1 == m2
    decreases n1
  {
    if n1 > 0 && n2 > 0 {
      StopsOnce(P, Next(P, m).value, n1 - 1, m1, n2 - 1, m2);
    }
  }

  // Code at a position

  ghost predicate CodeAt(P: Prg, pc: nat, code: Prg) {
    pc + |code| <= |P| && P[pc..pc + |code|] == code
  }

  lemma CodeSplit(P: Prg, pc: nat, a: Prg, b: Prg)
    requires CodeAt(P, pc, a + b)
    ensures CodeAt(P, pc, a) && CodeAt(P, pc + |a|, b)
  {
    var c := P[pc..pc + |a + b|];
    assert c[..|a|] == a && c[|a|..] == b;
  }

  /** Six pieces of code in a row. */
  lemma CodeSplits(P: Prg, pc: nat, a: Prg, b: Prg, c: Prg, d: Prg, e: Prg, f: Prg)
    requires CodeAt(P, pc, a + b + c + d + e + f)
    ensures CodeAt(P, pc, a) && CodeAt(P, pc + |a|, b) && CodeAt(P, pc + |a| + |b|, c)
    ensures CodeAt(P, pc + |a| + |b| + |c|, d) && CodeAt(P, pc + |a| + |b| + |c| + |d|, e)
    ensures CodeAt(P, pc + |a| + |b| + |c| + |d| + |e|, f)
    ensures CodeAt(P, pc + |a| + |b| + |c|, d + e + f)
  {
    hide CodeAt;
    var ab := a + b;
    var abc := ab + c;
    var abcd := abc + d;
    CodeSplit(P, pc, abcd + e, f);
    CodeSplit(P, pc, abcd, e);
    CodeSplit(P, pc, abc, d);
    CodeSplit(P, pc, ab, c);
    CodeSplit(P, pc, a, b);
    var q := pc + |a| + |b| + |c|;
    CodeJoin(P, q, d, e);
    CodeJoin(P, q, d + e, f);
  }

  lemma CodeJoin(P: Prg, pc: nat, a: Prg, b: Prg)
    requires CodeAt(P, pc, a) && CodeAt(P, pc + |a|, b)
    ensures CodeAt(P, pc, a + b)
  {
    assert P[pc..pc + |a + b|] == P[pc..pc + |a|] + P[pc + |a|..pc + |a| + |b|];
  }

  lemma CodeNothing(P: Prg, pc: nat)
    requires pc <= |P|
    ensures CodeAt(P, pc, [])
  {
  }

  /** A straight-line instruction in place. */
  lemma OneInsn(P: Prg, pc: nat, i: Insn, d: Data)
    requires CodeAt(P, pc, [i]) && Run(i, d).Some?
    ensures Goes(P, Machine(pc, d), Machine(pc + 1, Run(i, d).value))
  {
    hide Run;
    assert P[pc..pc + 1][0] == P[pc];
    assert !i.JMP? && !i.CJMP? by { NoJump(i, d); }
    GoesStep(P, Machine(pc, d));
  }

  lemma NoJump(i: Insn, d: Data)
    requires Run(i, d).Some?
    ensures !i.JMP? && !i.CJMP?
  {
  }

  lemma Jump(P: Prg, pc: nat, l: nat, d: Data)
    requires CodeAt(P, pc, [JMP(l)]) && HasLabel(P, l)
    ensures Goes(P, Machine(pc, d), Machine(Labeled(P, l), d))
  {
    assert P[pc..pc + 1][0] == P[pc];
    GoesStep(P, Machine(pc, d));
  }

  lemma CondJump(P: Prg, pc: nat, nonzero: bool, l: nat, d: Data, n: int, rest: seq<Value>)
    requires CodeAt(P, pc, [CJMP(nonzero, l)]) && d.stack == [Int(n)] + rest
    requires (n != 0) == nonzero ==> HasLabel(P, l)
    ensures Goes(P, Machine(pc, d), Machine(if (n != 0) == nonzero then Labeled(P, l) else pc + 1, d.(stack := rest)))
  {
    assert P[pc..pc + 1][0] == P[pc];
    assert d.stack[1..] == rest;
    GoesStep(P, Machine(pc, d));
  }

  /** A label in place is where its name leads, when labels are unique. */
  lemma LabelHere(P: Prg, pc: nat, i: Insn, l: nat)
    requires LabelsUnique(P) && CodeAt(P, pc, [i]) && Defines(i, l)
    ensures HasLabel(P, l) && Labeled(P, l) == pc + 1
  {
    assert P[pc..pc + 1][0] == P[pc];
  }

  /** One more straight-line instruction at the end of a run. */
  lemma Advance(P: Prg, a: Machine, pc: nat, i: Insn, d: Data, d': Data)
    requires Goes(P, a, Machine(pc, d)) && CodeAt(P, pc, [i]) && Run(i, d) == Some(d')
    ensures Goes(P, a, Machine(pc + 1, d'))
  {
    hide Run, Goes;
    OneInsn(P, pc, i, d);
    GoesTrans(P, a, Machine(pc, d), Machine(pc + 1, d'));
  }

  lemma CodeHead(P: Prg, pc: nat, i: Insn, rest: Prg)
    requires CodeAt(P, pc, [i] + rest)
    ensures CodeAt(P, pc, [i]) && CodeAt(P, pc + 1, rest)
  {
    CodeSplit(P, pc, [i], rest);
  }

  lemma DropTop(P: Prg, a: Machine, pc: nat, d: Data, v: Value, s: seq<Value>)
    requires Goes(P, a, Machine(pc, d)) && CodeAt(P, pc, [DROP]) && d.stack == [v] + s
    ensures Goes(P, a, Machine(pc + 1, d.(stack := s)))
  {
    hide Goes, CodeAt;
    assert d.stack[1..] == s;
    Advance(P, a, pc, DROP, d, d.(stack := s));
  }

  lemma SkipLabel(P: Prg, a: Machine, pc: nat, i: Insn, d: Data)
    requires Goes(P, a, Machine(pc, d)) && CodeAt(P, pc, [i]) && (i.LABEL? || i.SLABEL?)
    ensures Goes(P, a, Machine(pc + 1, d))
  {
    hide Goes, CodeAt;
    Advance(P, a, pc, i, d, d);
  }

  lemma Duplicate(P: Prg, a: Machine, pc: nat, d: Data)
    requires Goes(P, a, Machine(pc, d)) && CodeAt(P, pc, [DUP]) && |d.stack| > 0
    ensures Goes(P, a, Machine(pc + 1, d.(stack := [d.stack[0]] + d.stack)))
  {
    hide Goes, CodeAt;
    Advance(P, a, pc, DUP, d, d.(stack := [d.stack[0]] + d.stack));
  }
}

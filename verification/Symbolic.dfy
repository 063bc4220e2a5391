/** The symbolic stack of the x86 code generator: operands in four registers, then in
    consecutive slots of the frame. Where an operand is depends on its depth alone. */
module Symbolic {
  import opened Wrappers
  import opened StackMachine

  datatype Opnd = R(n: nat) | S(i: nat)

  /** Registers that hold stack positions: numbers 0 to 3. */
  const NUM_OF_REGS: nat := 3

  datatype Env = Env(stack: seq<Opnd>, slots: nat, fixed: nat, stackmap: map<nat, seq<Opnd>>, barrier: bool)

  // The stack operations

  /** A fresh position on the symbolic stack. */
  function Allocate(e: Env): (Opnd, Env) {
    var (x, n) :=
      if e.stack == [] then (R(0), 0)
      else match e.stack[0]
        case S(i) => (S(i + 1), i + 2)
        case R(i) => if i < NUM_OF_REGS then (R(i + 1), e.slots) else (S(e.fixed), e.fixed + 1);
    (x, e.(slots := Max(n, e.slots), stack := [x] + e.stack))
  }

  function Pop(e: Env, n: nat): Option<Env> {
    if |e.stack| < n then None else Some(e.(stack := e.stack[n..]))
  }

  /** `call`: the arguments go, the result comes. */
  function CallEnv(e: Env, n: nat): Option<Env> {
    match Pop(e, n) case Some(e') => Some(Allocate(e').1) case None => None
  }

  function SetStack(e: Env, l: nat): Env {
    e.(stackmap := e.stackmap[l := e.stack])
  }

  /** What one instruction does to the environment; `None` is an empty stack where an operand
      is needed, or a stack that should be empty and is not. */
  function Emit(e: Env, i: Insn): Option<Env> {
    if e.barrier then
      match i
      case LABEL(l) =>
        if l in e.stackmap then Some(e.(barrier := false, stack := e.stackmap[l])) else Some(e.(stack := []))
      case FLABEL(_) => Some(e.(barrier := false))
      case _ => Some(e)
    else
      match i
      case CONST(_) => Some(Allocate(e).1)
      case STRING(_) => CallEnv(Allocate(e).1, 1)
      case LD(_) => Some(Allocate(e).1)
      case LDA(_) => Some(Allocate(Allocate(e).1).1)
      case ST(_) => if e.stack == [] then None else Some(e)
      case STI => if |e.stack| < 2 then None else Some(e.(stack := [e.stack[1]] + e.stack[2..]))
      case STA => CallEnv(e, 3)
      case ELEM => CallEnv(e, 2)
      case BINOP(_) => if |e.stack| < 2 then None else Some(e.(stack := [e.stack[1]] + e.stack[2..]))
      case SEXP(_, n) => CallEnv(Allocate(e).1, n + 1)
      case CALL(_, n) => CallEnv(e, n)
      case CALLC(n) => CallEnv(e, n + 1)
      case CLOSURE(_, _) => Some(Allocate(e).1)
      case DROP => Pop(e, 1)
      case DUP => if e.stack == [] then None else Some(Allocate(e).1)
      case SWAP => if |e.stack| < 2 then None else Some(e)
      case TAG(_, _) => CallEnv(Allocate(Allocate(e).1).1, 3)
      case ARRAY(_) => CallEnv(Allocate(e).1, 2)
      case PATT(p) => CallEnv(e, if p == StrCmp then 2 else 1)
      case LABEL(_) => Some(e)
      case FLABEL(_) => Some(e)
      case SLABEL(_) => Some(e)
      case JMP(l) => Some(SetStack(e, l).(barrier := true))
      case CJMP(_, l) => (match Pop(e, 1) case Some(e') => Some(SetStack(e', l)) case None => None)
      case BEGIN(n) => if e.stack != [] then None else Some(e.(fixed := n, slots := n, stack := []))
      case END => if |e.stack| != 1 then None else Some(e.(stack := []))
      case RET => if e.stack == [] then None else Some(e)
      case FAIL(valued) => if valued then (if e.stack == [] then None else Some(e)) else Pop(e, 1)
  }

  function EmitAll(e: Env, p: Prg): Option<Env> {
    if p == [] then Some(e)
    else match EmitAll(e, p[..|p| - 1])
      case Some(e') => Emit(e', p[|p| - 1])
      case None => None
  }

  // Depth decides the location

  /** The operand at a depth, counted from the bottom. */
  function Place(fixed: nat, k: nat): Opnd {
    if k <= NUM_OF_REGS then R(k) else S(fixed + (k - NUM_OF_REGS - 1))
  }

  /** The only stack of a given depth, top first. */
  function Canon(fixed: nat, depth: nat): (s: seq<Opnd>)
    ensures |s| == depth && forall j :: 0 <= j < depth ==> s[j] == Place(fixed, depth - 1 - j)
  {
    seq(depth, j requires 0 <= j < depth => Place(fixed, depth - 1 - j))
  }

  /** Slots that a stack of this depth uses, and those of the locals. */
  function Frame(fixed: nat, depth: nat): nat {
    if depth <= NUM_OF_REGS + 1 then fixed else fixed + (depth - NUM_OF_REGS - 1)
  }

  /** The stack and the stacks kept for the labels `L`, those of the function at hand. */
  ghost predicate Canonical(e: Env, L: set<nat>) {
    && e.fixed <= e.slots
    && e.stack == Canon(e.fixed, |e.stack|) && Frame(e.fixed, |e.stack|) <= e.slots
    && forall l :: l in L && l in e.stackmap ==>
         e.stackmap[l] == Canon(e.fixed, |e.stackmap[l]|) && Frame(e.fixed, |e.stackmap[l]|) <= e.slots
  }

  /** Every slot in use is inside the frame. */
  lemma SlotsInside(e: Env, L: set<nat>, j: nat)
    requires Canonical(e, L) && j < |e.stack| && e.stack[j].S?
    ensures e.fixed <= e.stack[j].i < e.slots
  {
  }

  lemma AllocateCanonical(e: Env, L: set<nat>)
    requires Canonical(e, L)
    ensures Canonical(Allocate(e).1, L) && |Allocate(e).1.stack| == |e.stack| + 1 &&
      Allocate(e).0 == Place(e.fixed, |e.stack|)
    ensures Allocate(e).1 == e.(stack := Allocate(e).1.stack, slots := Allocate(e).1.slots) &&
      e.slots <= Allocate(e).1.slots
  {
    var d := |e.stack|;
    var (x, e') := Allocate(e);
    assert d > 0 ==> e.stack[0] == Place(e.fixed, d - 1);
    assert e'.stack == Canon(e.fixed, d + 1);
  }

  lemma PopCanonical(e: Env, L: set<nat>, n: nat)
    requires Canonical(e, L) && n <= |e.stack|
    ensures Canonical(e.(stack := e.stack[n..]), L)
  {
    assert e.stack[n..] == Canon(e.fixed, |e.stack| - n);
  }

  lemma CallCanonical(e: Env, L: set<nat>, n: nat)
    requires Canonical(e, L) && CallEnv(e, n).Some?
    ensures var e' := CallEnv(e, n).value;
      && Canonical(e', L) && |e'.stack| == |e.stack| - n + 1
      && e' == e.(stack := e'.stack, slots := e'.slots) && e.slots <= e'.slots
  {
    hide Canonical, Allocate;
    PopCanonical(e, L, n);
    AllocateCanonical(e.(stack := e.stack[n..]), L);
  }

  lemma BinopCanonical(e: Env)
    requires |e.stack| >= 2
    ensures [e.stack[1]] + e.stack[2..] == e.stack[1..]
  {
  }

  /** Instructions that only push and pop. */
  predicate Straight(i: Insn) {
    !i.LABEL? && !i.FLABEL? && !i.SLABEL? && !i.JMP? && !i.CJMP? && !i.BEGIN? && !i.END?
  }

  lemma StraightCanonical(e: Env, L: set<nat>, i: Insn)
    requires Canonical(e, L) && Emit(e, i).Some? && !e.barrier && Straight(i)
    ensures var e' := Emit(e, i).value;
      Canonical(e', L) && e'.fixed == e.fixed && e'.slots >= e.slots && e' == e.(stack := e'.stack, slots := e'.slots)
  {
    hide Canonical, Allocate, CallEnv;
    match i
    case CONST(_) => AllocateCanonical(e, L);
    case LD(_) => AllocateCanonical(e, L);
    case LDA(_) =>
      AllocateCanonical(e, L);
      AllocateCanonical(Allocate(e).1, L);
    case CLOSURE(_, _) => AllocateCanonical(e, L);
    case CALLC(n) => CallCanonical(e, L, n + 1);
    case DUP => AllocateCanonical(e, L);
    case STRING(_) =>
      AllocateCanonical(e, L);
      CallCanonical(Allocate(e).1, L, 1);
    case SEXP(_, n) =>
      AllocateCanonical(e, L);
      CallCanonical(Allocate(e).1, L, n + 1);
    case ARRAY(_) =>
      AllocateCanonical(e, L);
      CallCanonical(Allocate(e).1, L, 2);
    case TAG(_, _) =>
      AllocateCanonical(e, L);
      AllocateCanonical(Allocate(e).1, L);
      CallCanonical(Allocate(Allocate(e).1).1, L, 3);
    case STA => CallCanonical(e, L, 3);
    case ELEM => CallCanonical(e, L, 2);
    case CALL(_, n) => CallCanonical(e, L, n);
    case PATT(p) => CallCanonical(e, L, if p == StrCmp then 2 else 1);
    case STI =>
      assert Canonical(e.(stack := e.stack[1..]), L) by { PopCanonical(e, L, 1); }
      BinopCanonical(e) by { DeepEnough(e, L); }
    case BINOP(_) =>
      assert Canonical(e.(stack := e.stack[1..]), L) by { PopCanonical(e, L, 1); }
      BinopCanonical(e) by { DeepEnough(e, L); }
    case DROP => PopCanonical(e, L, 1);
    case FAIL(_) =>
      if !i.valued {
        PopCanonical(e, L, 1);
      }
    case _ =>
  }

  lemma DeepEnough(e: Env, L: set<nat>)
    requires Canonical(e, L)
    ensures e.stack == Canon(e.fixed, |e.stack|)
  {
  }

  /** Any instruction inside a function keeps the stack canonical. */
  lemma StepCanonical(e: Env, L: set<nat>, i: Insn)
    requires Canonical(e, L) && Emit(e, i).Some? && !i.BEGIN? && (i.LABEL? ==> i.l in L)
    ensures Canonical(Emit(e, i).value, L) && Emit(e, i).value.fixed == e.fixed && Emit(e, i).value.slots >= e.slots
  {
    hide Allocate, CallEnv;
    assert [] == Canon(e.fixed, 0);
    if !e.barrier && Straight(i) {
      StraightCanonical(e, L, i);
    } else if !e.barrier && i.CJMP? {
      PopCanonical(e, L, 1);
    }
  }

  /** A function starts canonical, if none of its labels has been met before. */
  lemma BeginCanonical(e: Env, L: set<nat>, n: nat)
    requires !e.barrier && e.stack == [] && e.stackmap.Keys !! L
    ensures Emit(e, BEGIN(n)).Some? && Canonical(Emit(e, BEGIN(n)).value, L)
  {
    assert [] == Canon(n, 0);
  }

  /** After any prefix of a function's code the symbolic stack is the canonical one of its
      depth, whatever the code is, and the frame is large enough for it. */
  lemma {:induction false} PrefixCanonical(e: Env, L: set<nat>, p: Prg)
    requires Canonical(e, L) && EmitAll(e, p).Some?
    requires forall i :: i in p ==> !i.BEGIN? && (i.LABEL? ==> i.l in L)
    ensures Canonical(EmitAll(e, p).value, L) && EmitAll(e, p).value.fixed == e.fixed &&
      EmitAll(e, p).value.slots >= e.slots
    decreases |p|
  {
    hide Emit, Canonical;
    if p != [] {
      PrefixCanonical(e, L, p[..|p| - 1]);
      assert p[|p| - 1] in p;
      StepCanonical(EmitAll(e, p[..|p| - 1]).value, L, p[|p| - 1]);
    }
  }
}

/** Source syntax of the language fragment that the compiler theorem covers, the values it
    computes with, and the operations that both evaluators share. */
module Syntax {
  import opened Wrappers

  datatype Pattern =
    | Wildcard
    | PSexp(tag: string, ps: seq<Pattern>)
    | PArray(ps: seq<Pattern>)
    | Named(name: string, p: Pattern)
    | PConst(n: int)
    | PString(text: seq<int>)
    | Boxed
    | UnBoxed
    | StringTag
    | SexpTag
    | ArrayTag
    | ClosureTag

  datatype Expr =
    | Const(n: int)
    | Str(text: seq<int>)
    | Var(name: string)
    | Ref(name: string)
    | Binop(op: string, left: Expr, right: Expr)
    | Elem(base: Expr, index: Expr)
    | ElemRef(base: Expr, index: Expr)
    | Array(items: seq<Expr>)
    | Sexp(tag: string, items: seq<Expr>)
    | Call(f: Expr, args: seq<Expr>)
    | Assign(target: Expr, source: Expr)
    | Seq(first: Expr, second: Expr)
    | Skip
    | Ignore(e: Expr)
    | If(cond: Expr, thn: Expr, els: Expr)
    | While(cond: Expr, body: Expr)
    | DoWhile(body: Expr, cond: Expr)
    | Case(scrutinee: Expr, branches: seq<(Pattern, Expr)>, valued: bool)
    | Scope(decls: seq<(string, Option<Expr>)>, body: Expr)
    | Lambda(formals: seq<string>, body: Expr)
    // only made by the reference evaluator
    | Leave
    | Intrinsic(step: Step)
    | Control(choice: Choice)

  /** The closures that the reference evaluator schedules, one constructor each. */
  datatype Step =
    | Discard
    | MakeArray(n: nat)
    | MakeSexp(tag: string, n: nat)
    | Apply(op: string)
    | TakeElem
    | TakeElemRef
    | Invoke(n: nat)
    | Write
    | Match(branches: seq<(Pattern, Expr)>, k: Expr)

  datatype Choice = Branch(thn: Expr, els: Expr) | Loop(cond: Expr, body: Expr)

  // Values. Strings, arrays and s-expressions are mutable and shared, so a value only names
  // an object of the store.

  /** Where the compiler keeps a variable. */
  datatype Designation = GlobalVar(name: string) | LocalVar(index: nat) | Fun(name: string)

  datatype Value =
    | Int(n: int)
    | Empty
    | BuiltinValue(name: string)
    | Obj(loc: nat)
    | RefVar(name: string)
    | RefElem(base: Value, index: int)
    // only on the machine's stack: the address that LDA pushes
    | VarAt(d: Designation)

  datatype Object = Bytes(text: seq<int>) | Arr(items: seq<Value>) | Sx(tag: string, items: seq<Value>)

  type Store = seq<Object>

  function Allocate(store: Store, o: Object): (Store, Value) {
    (store + [o], Obj(|store|))
  }

  /** `a.(i)`, or the code of a character. */
  function ElemOf(store: Store, v: Value, i: int): Option<Value> {
    if !v.Obj? || v.loc >= |store| then None
    else match store[v.loc]
      case Bytes(text) => if 0 <= i < |text| then Some(Int(text[i])) else None
      case Arr(items) => if 0 <= i < |items| then Some(items[i]) else None
      case Sx(_, items) => if 0 <= i < |items| then Some(items[i]) else None
  }

  /** `Value.update_elem`. */
  function SetElem(store: Store, v: Value, i: int, x: Value): Option<Store> {
    if !v.Obj? || v.loc >= |store| then None
    else match store[v.loc]
      case Bytes(text) =>
        if 0 <= i < |text| && x.Int? && 0 <= x.n < 256 then Some(store[v.loc := Bytes(text[i := x.n])]) else None
      case Arr(items) =>
        if 0 <= i < |items| then Some(store[v.loc := Arr(items[i := x])]) else None
      case Sx(t, items) =>
        if 0 <= i < |items| then Some(store[v.loc := Sx(t, items[i := x])]) else None
  }

  function SizeOf(store: Store, v: Value): Option<int> {
    if !v.Obj? || v.loc >= |store| then None
    else match store[v.loc]
      case Bytes(text) => Some(|text|)
      case Arr(items) => Some(|items|)
      case Sx(_, items) => Some(|items|)
  }

  function Truth(b: bool): int {
    if b then 1 else 0
  }

  /** Two's complement wrap-around of 63-bit integers. */
  function Wrap(n: int): int {
    var m := n % 0x8000_0000_0000_0000;
    if m >= 0x4000_0000_0000_0000 then m - 0x8000_0000_0000_0000 else m
  }

  function Abs(n: int): nat {
    if n < 0 then -n else n
  }

  /** Division truncates towards zero; `None` is an exception. */
  function Operate(op: string, x: int, y: int): Option<int> {
    if op == "+" then Some(Wrap(x + y))
    else if op == "-" then Some(Wrap(x - y))
    else if op == "*" then Some(Wrap(x * y))
    else if op == "/" then
      if y == 0 then None else Some(Wrap(if (x < 0) == (y < 0) then Abs(x) / Abs(y) else -(Abs(x) / Abs(y))))
    else if op == "%" then
      if y == 0 then None else Some(if x < 0 then -(Abs(x) % Abs(y)) else Abs(x) % Abs(y))
    else if op == "<" then Some(Truth(x < y))
    else if op == "<=" then Some(Truth(x <= y))
    else if op == ">" then Some(Truth(x > y))
    else if op == ">=" then Some(Truth(x >= y))
    else if op == "==" then Some(Truth(x == y))
    else if op == "!=" then Some(Truth(x != y))
    else if op == "&&" then Some(Truth(x != 0 && y != 0))
    else if op == "!!" then Some(Truth(x != 0 || y != 0))
    else None
  }

  const BUILTINS: set<string> := {"read", "write", "length"}

  /** What a builtin does to the store and the two streams. */
  function RunBuiltin(f: string, args: seq<Value>, store: Store, input: seq<int>, output: seq<int>)
    : Option<(Store, seq<int>, seq<int>, Value)>
  {
    if f == "read" then
      if input == [] then None else Some((store, input[1..], output, Int(input[0])))
    else if f == "write" then
      if |args| == 0 || !args[0].Int? then None else Some((store, input, output + [args[0].n], Empty))
    else if f == "length" then
      if |args| == 0 then None
      else match SizeOf(store, args[0])
        case Some(n) => Some((store, input, output, Int(n)))
        case None => None
    else None
  }
}

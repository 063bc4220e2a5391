/** What the operations compute that the reference evaluator, direct evaluation and the stack
    machine have in common: arithmetic, elements of objects, builtins and initialisers, each
    stated without its definition. */
module Operations {
  import opened Wrappers
  import opened Syntax
  import opened Reference
  import opened Direct
  import opened StackMachine

  // Arithmetic

  const HALF := 0x4000_0000_0000_0000
  const MODULUS := 0x8000_0000_0000_0000

  predicate Narrow(n: int) {
    -HALF <= n < HALF
  }

  /** The integer of 63 bits that is congruent to `n`. */
  predicate Represents(z: int, n: int) {
    Narrow(z) && (z - n) % MODULUS == 0
  }

  /** Quotient and remainder of a division that truncates: the remainder is smaller than the
      divisor and has the sign of the dividend. */
  predicate Divides(x: int, y: int, q: int, r: int) {
    && y != 0 && x == q * y + r
    && (if y > 0 then -y < r < y else y < r < -y)
    && (r == 0 || (r < 0 <==> x < 0))
  }

  ghost predicate IsQuotient(x: int, y: int, z: int) {
    exists q, r :: Divides(x, y, q, r) && Represents(z, q)
  }

  ghost predicate IsRemainder(x: int, y: int, z: int) {
    exists q :: Divides(x, y, q, z)
  }

  /** 1 for yes and 0 for no. */
  predicate Says(z: int, yes: bool) {
    (yes && z == 1) || (!yes && z == 0)
  }

  /** `x op y` is `z`. */
  ghost predicate Computes(op: string, x: int, y: int, z: int) {
    || (op == "+" && Represents(z, x + y))
    || (op == "-" && Represents(z, x - y))
    || (op == "*" && Represents(z, x * y))
    || (op == "/" && IsQuotient(x, y, z))
    || (op == "%" && IsRemainder(x, y, z))
    || (op == "<" && Says(z, x < y))
    || (op == "<=" && Says(z, x <= y))
    || (op == ">" && Says(z, x > y))
    || (op == ">=" && Says(z, x >= y))
    || (op == "==" && Says(z, x == y))
    || (op == "!=" && Says(z, x != y))
    || (op == "&&" && Says(z, x != 0 && y != 0))
    || (op == "!!" && Says(z, x != 0 || y != 0))
  }

  lemma WrapRepresents(n: int, z: int)
    ensures Wrap(n) == z <==> Represents(z, n)
  {
    var w := Wrap(n);
    assert n == n / MODULUS * MODULUS + n % MODULUS;
    Multiple(n / MODULUS);
    Multiple(n / MODULUS + 1);
    assert Represents(w, n) by {
      if n % MODULUS >= HALF {
        assert w - n == -(n / MODULUS + 1) * MODULUS;
        Multiple(-(n / MODULUS + 1));
      } else {
        assert w - n == -(n / MODULUS) * MODULUS;
        Multiple(-(n / MODULUS));
      }
    }
    if Represents(z, n) {
      Closest(w - n, z - n);
    }
  }

  lemma Multiple(k: int)
    ensures k * MODULUS % MODULUS == 0
  {
  }

  lemma Closest(a: int, b: int)
    requires a % MODULUS == 0 && b % MODULUS == 0 && -MODULUS < a - b < MODULUS
    ensures a == b
  {
    assert a == a / MODULUS * MODULUS && b == b / MODULUS * MODULUS;
  }

  /** Results of 63 bits are exact. */
  lemma Exact(n: int, z: int)
    requires Narrow(n)
    ensures Represents(z, n) <==> z == n
  {
    if Represents(z, n) {
      Closest(z - n, 0);
    }
  }

  /** There is one way to divide. */
  lemma DividesOnce(x: int, y: int, q: int, r: int, q': int, r': int)
    requires Divides(x, y, q, r) && Divides(x, y, q', r')
    ensures q == q' && r == r'
  {
    var d := q - q';
    assert d * y == r' - r;
    Signs(d, y);
    if d > 0 {
      Grows(d, y);
    } else if d < 0 {
      Grows(-d, y);
    }
  }

  /** A multiple is no smaller. */
  lemma Grows(d: nat, y: int)
    requires d > 0
    ensures if y > 0 then d * y >= y else d * y <= y
  {
  }

  function Quotient(x: int, y: int): int
    requires y != 0
  {
    if (x < 0) == (y < 0) then Abs(x) / Abs(y) else -(Abs(x) / Abs(y))
  }

  function Remainder(x: int, y: int): int
    requires y != 0
  {
    if x < 0 then -(Abs(x) % Abs(y)) else Abs(x) % Abs(y)
  }

  lemma QuotientDivides(x: int, y: int)
    requires y != 0
    ensures Divides(x, y, Quotient(x, y), Remainder(x, y))
  {
    hide Divides;
    DivideNat(Abs(x), Abs(y));
    WithSigns(x, y, Abs(x) / Abs(y), Abs(x) % Abs(y));
  }

  lemma WithSigns(x: int, y: int, q: int, r: int)
    requires y != 0 && Abs(x) == q * Abs(y) + r && 0 <= r < Abs(y)
    ensures Divides(x, y, if (x < 0) == (y < 0) then q else -q, if x < 0 then -r else r)
  {
    var p := q * Abs(y);
    Signs(q, Abs(y));
    assert Abs(x) == p + r;
  }

  lemma DivideNat(a: nat, b: nat)
    requires b > 0
    ensures a == a / b * b + a % b && 0 <= a % b < b
  {
  }

  lemma Signs(q: int, b: int)
    ensures (-q) * b == -(q * b) && q * (-b) == -(q * b) && (-q) * (-b) == q * b
  {
  }

  lemma Divided(x: int, y: int, z: int)
    ensures IsQuotient(x, y, z) <==> y != 0 && Represents(z, Quotient(x, y))
    ensures IsRemainder(x, y, z) <==> y != 0 && z == Remainder(x, y)
  {
    hide Represents, Quotient, Remainder;
    if y != 0 {
      QuotientDivides(x, y);
      if IsQuotient(x, y, z) {
        var q, r :| Divides(x, y, q, r) && Represents(z, q);
        DividesOnce(x, y, q, r, Quotient(x, y), Remainder(x, y));
      }
      if IsRemainder(x, y, z) {
        var q :| Divides(x, y, q, z);
        DividesOnce(x, y, q, z, Quotient(x, y), Remainder(x, y));
      }
    }
  }

  /** The operators mean what they are named after, on all integers, and there are no others. */
  lemma Operates(op: string, x: int, y: int, z: int)
    ensures Operate(op, x, y) == Some(z) <==> Computes(op, x, y, z)
  {
    hide Wrap, Abs, Represents, IsQuotient, IsRemainder;
    WrapRepresents(x + y, z);
    WrapRepresents(x - y, z);
    WrapRepresents(x * y, z);
    Divided(x, y, z);
    if y != 0 {
      WrapRepresents(Quotient(x, y), z);
    }
  }

  // The same operator in the machine and in both evaluations

  /** `BINOP` on two integers, the second on top. */
  lemma BinopRuns(op: string, d: Data, x: int, y: int, rest: seq<Value>, z: int)
    requires d.stack == [Int(y), Int(x)] + rest
    ensures Run(BINOP(op), d) == Some(d.(stack := [Int(z)] + rest)) <==> Computes(op, x, y, z)
    ensures Run(BINOP(op), d).Some? ==> exists z :: Computes(op, x, y, z)
  {
    hide Operate, Computes;
    Operates(op, x, y, z);
    assert d.stack[2..] == rest;
    if Run(BINOP(op), d).Some? {
      Operates(op, x, y, Operate(op, x, y).value);
    }
    assert ([Int(z)] + rest)[0] == Int(z);
    if Operate(op, x, y).Some? {
      assert ([Int(Operate(op, x, y).value)] + rest)[0] == Int(Operate(op, x, y).value);
    }
  }

  /** The intrinsic that the reference evaluator schedules for an operator. */
  lemma ApplyRuns(op: string, c: Config, x: int, y: int, rest: seq<Value>, z: int)
    requires c.vs == [Int(y), Int(x)] + rest
    ensures RunStep(Apply(op), c) == Some(c.(vs := [Int(z)] + rest)) <==> Computes(op, x, y, z)
  {
    hide Operate, Computes;
    Operates(op, x, y, z);
    assert c.vs[2..] == rest;
    assert ([Int(z)] + rest)[0] == Int(z);
    if Operate(op, x, y).Some? {
      assert ([Int(Operate(op, x, y).value)] + rest)[0] == Int(Operate(op, x, y).value);
    }
  }

  /** Direct evaluation of an operator whose operands have values. */
  lemma BinopExecutes(op: string, e1: Expr, e2: Expr, w: World, fuel: nat, w': World, x: int, y: int, z: int)
    requires Two(e1, e2, w, fuel) == Some((w', Int(x), Int(y)))
    ensures Exec(Binop(op, e1, e2), w, fuel) == Some(Outcome(w', [Int(z)])) <==> Computes(op, x, y, z)
  {
    hide Operate, Computes, Two;
    Operates(op, x, y, z);
    if Operate(op, x, y).Some? {
      assert [Int(Operate(op, x, y).value)][0] == Int(Operate(op, x, y).value) && [Int(z)][0] == Int(z);
    }
  }

  // Objects

  /** The elements that an object is made of. */
  predicate Consists(o: Object, i: int, x: Value) {
    match o
    case Bytes(text) => 0 <= i < |text| && x == Int(text[i])
    case Arr(items) => 0 <= i < |items| && x == items[i]
    case Sx(_, items) => 0 <= i < |items| && x == items[i]
  }

  function Count(o: Object): nat {
    match o case Bytes(text) => |text| case Arr(items) => |items| case Sx(_, items) => |items|
  }

  /** A new object has the elements that it was made of, in their order, and as many; it is
      no value that was there, and those are as they were. */
  lemma Allocated(store: Store, o: Object, i: int, x: Value)
    ensures var (store', v) := Allocate(store, o);
      && (ElemOf(store', v, i) == Some(x) <==> Consists(o, i, x)) && SizeOf(store', v) == Some(Count(o))
      && |store'| == |store| + 1 && SizeOf(store, v) == None
      && forall u :: u != v ==> SizeOf(store', u) == SizeOf(store, u) && ElemOf(store', u, i) == ElemOf(store, u, i)
  {
  }

  /** The elements of an object are numbered from 0 to its length. */
  lemma Numbered(store: Store, v: Value, i: int)
    ensures ElemOf(store, v, i).Some? <==> SizeOf(store, v).Some? && 0 <= i < SizeOf(store, v).value
  {
  }

  predicate IsText(store: Store, v: Value) {
    v.Obj? && v.loc < |store| && store[v.loc].Bytes?
  }

  /** Elements that exist can be assigned, those of a string to codes of characters. */
  lemma Assignable(store: Store, v: Value, i: int, x: Value)
    ensures SetElem(store, v, i, x).Some? <==>
      ElemOf(store, v, i).Some? && (IsText(store, v) ==> x.Int? && 0 <= x.n < 256)
  {
  }

  /** After an assignment the element holds what was assigned, and nothing else has changed: no
      other element, no length, no kind and no tag. */
  lemma ElementAssigned(store: Store, v: Value, i: int, x: Value, u: Value, j: int)
    requires SetElem(store, v, i, x).Some?
    ensures var store' := SetElem(store, v, i, x).value;
      && ElemOf(store', v, i) == Some(x)
      && (u != v || j != i ==> ElemOf(store', u, j) == ElemOf(store, u, j))
      && |store'| == |store| && SizeOf(store', u) == SizeOf(store, u)
      && (u.Obj? && u.loc < |store| ==>
           && (store'[u.loc].Bytes? <==> store[u.loc].Bytes?) && (store'[u.loc].Sx? <==> store[u.loc].Sx?)
           && (store[u.loc].Sx? ==> store'[u.loc].tag == store[u.loc].tag))
  {
  }

  // Builtins

  /** `read` takes the next integer of the input, `write` adds its argument to the output, and
      `length` counts elements; there are no other builtins, and none changes the store. */
  ghost predicate Behaves(f: string, args: seq<Value>, store: Store, input: seq<int>, output: seq<int>,
      input': seq<int>, output': seq<int>, v: Value)
  {
    || (f == "read" && v.Int? && input == [v.n] + input' && output' == output)
    || (f == "write" && args != [] && args[0].Int? && v == Empty && input' == input && output' == output + [args[0].n])
    || (f == "length" && args != [] && v.Int? && input' == input && output' == output && v.n >= 0 &&
        Known(store, args[0]) && forall i :: ElemOf(store, args[0], i).Some? <==> 0 <= i < v.n)
  }

  predicate Known(store: Store, v: Value) {
    v.Obj? && v.loc < |store|
  }

  lemma BuiltinBehaves(f: string, args: seq<Value>, store: Store, input: seq<int>, output: seq<int>, store': Store,
      input': seq<int>, output': seq<int>, v: Value)
    ensures RunBuiltin(f, args, store, input, output) == Some((store', input', output', v)) <==>
      store' == store && Behaves(f, args, store, input, output, input', output', v)
  {
    if f == "read" {
      assert input != [] ==> input == [input[0]] + input[1..];
      assert v.Int? && input == [v.n] + input' ==> input != [] && input[0] == v.n && input[1..] == input';
    } else if f == "length" && args != [] && v.Int? && Known(store, args[0]) {
      var n := SizeOf(store, args[0]).value;
      forall i ensures ElemOf(store, args[0], i).Some? <==> 0 <= i < n {
        Numbered(store, args[0], i);
      }
      if v.n >= 0 && forall i :: ElemOf(store, args[0], i).Some? <==> 0 <= i < v.n {
        OneCount(store, args[0], v.n, n);
      }
    }
  }

  lemma OneCount(store: Store, v: Value, m: nat, n: nat)
    requires forall i :: ElemOf(store, v, i).Some? <==> 0 <= i < m
    requires forall i :: ElemOf(store, v, i).Some? <==> 0 <= i < n
    ensures m == n
  {
    assert ElemOf(store, v, m).Some? <==> m < n;
    assert ElemOf(store, v, n).Some? <==> n < m;
  }

  /** In the outermost scope the names of builtins denote builtins. */
  lemma BuiltinsDeclared(f: string, names: map<string, Kind>)
    requires f !in names
    ensures var st := Push(Initial, map[], names);
      Lookup(st, f) == if f == "read" || f == "write" || f == "length" then Some(BuiltinValue(f)) else None
  {
  }

  // Initialisers

  /** From world to world: one declaration, whose initialiser, if any, gives its variable a value. */
  ghost predicate Initialises(d: (string, Option<Expr>), w: World, w': World, fuel: nat) {
    match d.1
    case None => w' == w
    case Some(e) =>
      && ExecValue(e, w, fuel).Some?
      && Update(ExecValue(e, w, fuel).value.0.st, d.0, ExecValue(e, w, fuel).value.1).Some?
      && w' == ExecValue(e, w, fuel).value.0.(
                 st := Update(ExecValue(e, w, fuel).value.0.st, d.0, ExecValue(e, w, fuel).value.1).value)
  }

  /** All of them in the order in which they are written. */
  ghost predicate InitialisesAll(ds: seq<(string, Option<Expr>)>, ws: seq<World>, fuel: nat) {
    |ws| == |ds| + 1 && forall i :: 0 <= i < |ds| ==> Initialises(ds[i], ws[i], ws[i + 1], fuel)
  }

  lemma {:induction false} InitChain(ds: seq<(string, Option<Expr>)>, body: Expr, w: World, fuel: nat)
    returns (ws: seq<World>)
    requires Exec(WithInits(ds, body), w, fuel).Some?
    ensures InitialisesAll(ds, ws, fuel) && ws[0] == w
    ensures Exec(body, ws[|ds|], fuel) == Exec(WithInits(ds, body), w, fuel)
    decreases |ds|
  {
    hide Initialises, Exec, WithInits;
    ws := [w];
    if ds == [] {
      NoInits(body);
    } else {
      var rest := ds[1..];
      var w1 := FirstInit(ds, body, w, fuel);
      var tail := InitChain(rest, body, w1, fuel);
      ws := [w] + tail;
      forall i | 0 <= i < |ds| ensures Initialises(ds[i], ws[i], ws[i + 1], fuel) {
        assert i > 0 ==> ds[i] == rest[i - 1] && ws[i] == tail[i - 1] && ws[i + 1] == tail[i];
        assert i > 0 ==> Initialises(rest[i - 1], tail[i - 1], tail[i], fuel);
      }
    }
  }

  lemma NoInits(body: Expr)
    ensures WithInits([], body) == body
  {
  }

  lemma {:induction false} InitsDone(ds: seq<(string, Option<Expr>)>, body: Expr, ws: seq<World>, fuel: nat)
    requires InitialisesAll(ds, ws, fuel)
    ensures Exec(WithInits(ds, body), ws[0], fuel) == Exec(body, ws[|ds|], fuel)
    decreases |ds|
  {
    hide Initialises, Exec, WithInits;
    if ds == [] {
      NoInits(body);
    } else {
      var rest, tail := ds[1..], ws[1..];
      forall i | 0 <= i < |rest| ensures Initialises(rest[i], tail[i], tail[i + 1], fuel) {
        assert Initialises(ds[i + 1], ws[i + 1], ws[i + 2], fuel);
      }
      InitsDone(rest, body, tail, fuel);
      assert Initialises(ds[0], ws[0], ws[1], fuel);
      InitStep(ds, body, ws[0], ws[1], fuel);
    }
  }

  /** Declarations with initialisers before a body: the initialisers run in order, each before the
      next and all before the body. */
  lemma InitsFirst(ds: seq<(string, Option<Expr>)>, body: Expr, w: World, fuel: nat, o: Outcome)
    ensures Exec(WithInits(ds, body), w, fuel) == Some(o) <==>
      exists ws :: InitialisesAll(ds, ws, fuel) && ws[0] == w && Exec(body, ws[|ds|], fuel) == Some(o)
  {
    hide Initialises, Exec, WithInits;
    if Exec(WithInits(ds, body), w, fuel) == Some(o) {
      var ws := InitChain(ds, body, w, fuel);
    }
    if ws :| InitialisesAll(ds, ws, fuel) && ws[0] == w && Exec(body, ws[|ds|], fuel) == Some(o) {
      InitsDone(ds, body, ws, fuel);
    }
  }

  /** The first declaration has been dealt with. */
  lemma InitStep(ds: seq<(string, Option<Expr>)>, body: Expr, w: World, w1: World, fuel: nat)
    requires ds != [] && Initialises(ds[0], w, w1, fuel)
    ensures Exec(WithInits(ds, body), w, fuel) == Exec(WithInits(ds[1..], body), w1, fuel)
  {
    hide Exec;
    if ds[0].1.Some? {
      AssignedFirst(ds[0].0, ds[0].1.value, WithInits(ds[1..], body), w, w1, fuel);
    }
  }

  lemma AssignedFirst(x: string, e: Expr, rest: Expr, w: World, w1: World, fuel: nat)
    requires Initialises((x, Some(e)), w, w1, fuel)
    ensures Exec(Seq(Ignore(Assign(Ref(x), e)), rest), w, fuel) == Exec(rest, w1, fuel)
  {
    hide Update;
    assert Exec(Ref(x), w, fuel) == Some(Outcome(w, [RefVar(x)]));
    var (w', v) := ExecValue(e, w, fuel).value;
    assert Exec(Assign(Ref(x), e), w, fuel) == Some(Outcome(w1, [v]));
    assert Exec(Ignore(Assign(Ref(x), e)), w, fuel) == Some(Outcome(w1, []));
  }

  lemma FirstInit(ds: seq<(string, Option<Expr>)>, body: Expr, w: World, fuel: nat) returns (w1: World)
    requires ds != [] && Exec(WithInits(ds, body), w, fuel).Some?
    ensures Initialises(ds[0], w, w1, fuel)
    ensures Exec(WithInits(ds, body), w, fuel) == Exec(WithInits(ds[1..], body), w1, fuel)
  {
    w1 := w;
    if ds[0].1.Some? {
      w1 := SomeInit(ds[0].0, ds[0].1.value, WithInits(ds[1..], body), w, fuel);
    }
    InitStep(ds, body, w, w1, fuel);
  }

  lemma IgnoredRuns(e: Expr, w: World, fuel: nat)
    requires Exec(Ignore(e), w, fuel).Some?
    ensures ExecValue(e, w, fuel).Some? && Exec(e, w, fuel).Some?
  {
  }

  lemma SomeInit(x: string, e: Expr, rest: Expr, w: World, fuel: nat) returns (w1: World)
    requires Exec(Seq(Ignore(Assign(Ref(x), e)), rest), w, fuel).Some?
    ensures Initialises((x, Some(e)), w, w1, fuel)
  {
    hide Update;
    assert Exec(Ref(x), w, fuel) == Some(Outcome(w, [RefVar(x)]));
    assert Exec(Ignore(Assign(Ref(x), e)), w, fuel).Some?;
    IgnoredRuns(Assign(Ref(x), e), w, fuel);
    var (w', v) := ExecValue(e, w, fuel).value;
    w1 := w'.(st := Update(w'.st, x, v).value);
  }
}

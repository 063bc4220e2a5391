/** Direct evaluation, without continuations or a value stack: what an expression does to the
    world and which values it leaves. It is the middle term between the reference evaluator
    and the compiled code. */
module Direct {
  import opened Wrappers
  import opened Syntax
  import opened Reference
  import opened PatternTests

  /** A wary evaluation stops at a branch that the matcher refuses and the machine's tests
      accept. */
  datatype World = World(st: State, store: Store, input: seq<int>, output: seq<int>, wary: bool)

  /** The world afterwards and the values pushed, top first. */
  datatype Outcome = Outcome(w: World, vs: seq<Value>)

  // Termination measures

  function Size(e: Expr): (n: nat)
    ensures n > 0
    decreases e
  {
    1 + match e
      case Binop(_, x, y) => Size(x) + Size(y)
      case Elem(x, y) => Size(x) + Size(y)
      case ElemRef(x, y) => Size(x) + Size(y)
      case Array(es) => SizeList(es)
      case Sexp(_, es) => SizeList(es)
      case Call(f, es) => Size(f) + SizeList(es)
      case Assign(x, y) => Size(x) + Size(y)
      case Seq(x, y) => Size(x) + Size(y)
      case Ignore(x) => Size(x)
      case If(x, y, z) => Size(x) + Size(y) + Size(z)
      case While(x, y) => Size(x) + Size(y)
      case DoWhile(x, y) => Size(x) + Size(y) + 1
      case Case(x, brs, valued) => Size(x) + SizeBranches(brs)
      case Scope(ds, x) => SizeDecls(ds) + Size(x)
      case Lambda(_, x) => Size(x)
      case _ => 0
  }

  function SizeList(es: seq<Expr>): nat
    decreases es
  {
    if es == [] then 0 else Size(es[0]) + SizeList(es[1..])
  }

  function SizeBranches(brs: seq<(Pattern, Expr)>): nat
    decreases brs
  {
    if brs == [] then 0
    else
      1 + SizeBranch(brs[0]) + SizeBranches(brs[1..])
  }

  function SizeDecls(ds: seq<(string, Option<Expr>)>): nat
    decreases ds
  {
    if ds == [] then 0
    else
      5 + SizeDecl(ds[0]) + SizeDecls(ds[1..])
  }

  function SizeBranch(b: (Pattern, Expr)): nat
    decreases b
  {
    Size(b.1)
  }

  function SizeDecl(d: (string, Option<Expr>)): nat
    decreases d
  {
    match d.1 case Some(e) => Size(e) case None => 0
  }

  lemma SizeInit(x: string, e: Expr, rest: Expr)
    ensures Size(Seq(Ignore(Assign(Ref(x), e)), rest)) == 4 + Size(e) + Size(rest)
  {
    assert Size(Assign(Ref(x), e)) == 1 + Size(Ref(x)) + Size(e);
    assert Size(Ignore(Assign(Ref(x), e))) == 1 + Size(Assign(Ref(x), e));
  }

  lemma {:induction false} SizeWithInits(ds: seq<(string, Option<Expr>)>, body: Expr)
    ensures Size(WithInits(ds, body)) <= SizeDecls(ds) + Size(body)
  {
    hide Size;
    if ds != [] {
      SizeWithInits(ds[1..], body);
      if ds[0].1.Some? {
        SizeInit(ds[0].0, ds[0].1.value, WithInits(ds[1..], body));
      }
    }
  }

  // Evaluation

  /** A single value. */
  function ExecValue(e: Expr, w: World, fuel: nat): Option<(World, Value)>
    decreases fuel, Size(e), 1
  {
    match Exec(e, w, fuel)
    case Some(Outcome(w', vs)) => if |vs| == 1 then Some((w', vs[0])) else None
    case None => None
  }

  function ExecValues(es: seq<Expr>, w: World, fuel: nat): Option<(World, seq<Value>)>
    decreases fuel, SizeList(es), 2
  {
    if es == [] then Some((w, []))
    else match ExecValue(es[0], w, fuel)
      case Some((w1, v)) =>
        (match ExecValues(es[1..], w1, fuel)
         case Some((w2, vs)) => Some((w2, [v] + vs))
         case None => None)
      case None => None
  }

  function Two(x: Expr, y: Expr, w: World, fuel: nat): Option<(World, Value, Value)>
    decreases fuel, Size(x) + Size(y), 2
  {
    match ExecValue(x, w, fuel)
    case Some((w1, a)) =>
      (match ExecValue(y, w1, fuel)
       case Some((w2, b)) => Some((w2, a, b))
       case None => None)
    case None => None
  }

  function Pushed(w: World, v: Value): Option<Outcome> {
    Some(Outcome(w, [v]))
  }

  /** What an assignable place leaves: the reference to a variable, or an index on top of the
      object that it goes into. */
  function AssignTo(w: World, target: seq<Value>, v: Value): Option<Outcome> {
    if |target| == 1 && target[0].RefVar? then
      match Update(w.st, target[0].name, v)
      case Some(st) => Pushed(w.(st := st), v)
      case None => None
    else if |target| == 2 && target[0].Int? then
      match SetElem(w.store, target[1], target[0].n, v)
      case Some(store) => Pushed(w.(store := store), v)
      case None => None
    else None
  }

  function Exec(e: Expr, w: World, fuel: nat): Option<Outcome>
    decreases fuel, Size(e), 0
  {
    match e
    case Const(n) => Pushed(w, Int(n))
    case Str(text) =>
      var (store, v) := Allocate(w.store, Bytes(text));
      Pushed(w.(store := store), v)
    case Var(x) =>
      (match Lookup(w.st, x)
       case Some(v) => Pushed(w, v)
       case None => None)
    case Ref(x) => Pushed(w, RefVar(x))
    case ElemRef(x, y) =>
      (match Two(x, y, w, fuel)
       case Some((w', b, Int(i))) => Some(Outcome(w', [Int(i), b]))
       case _ => None)
    case Binop(op, x, y) =>
      (match Two(x, y, w, fuel)
       case Some((w', Int(a), Int(b))) =>
         (match Operate(op, a, b)
          case Some(z) => Pushed(w', Int(z))
          case None => None)
       case _ => None)
    case Elem(x, y) =>
      (match Two(x, y, w, fuel)
       case Some((w', b, Int(i))) =>
         (match ElemOf(w'.store, b, i)
          case Some(v) => Pushed(w', v)
          case None => None)
       case _ => None)
    case Array(es) =>
      (match ExecValues(es, w, fuel)
       case Some((w', vs)) =>
         var (store, v) := Allocate(w'.store, Arr(vs));
         Pushed(w'.(store := store), v)
       case None => None)
    case Sexp(t, es) =>
      (match ExecValues(es, w, fuel)
       case Some((w', vs)) =>
         var (store, v) := Allocate(w'.store, Sx(t, vs));
         Pushed(w'.(store := store), v)
       case None => None)
    case Call(f, es) =>
      (match ExecValue(f, w, fuel)
       case Some((w0, BuiltinValue(name))) =>
         (match ExecValues(es, w0, fuel)
          case Some((w1, vs)) =>
            (match RunBuiltin(name, vs, w1.store, w1.input, w1.output)
             case Some((store, input, output, v)) => Pushed(w1.(store := store, input := input, output := output), v)
             case None => None)
          case None => None)
       case _ => None)
    case Assign(x, y) =>
      (match Exec(x, w, fuel)
       case Some(Outcome(w1, target)) =>
         (match ExecValue(y, w1, fuel)
          case Some((w2, v)) => AssignTo(w2, target, v)
          case None => None)
       case None => None)
    case Seq(x, y) =>
      (match Exec(x, w, fuel)
       case Some(Outcome(w1, vs)) => if vs != [] then None else Exec(y, w1, fuel)
       case None => None)
    case Skip => Some(Outcome(w, []))
    case Ignore(x) =>
      (match ExecValue(x, w, fuel)
       case Some((w', _)) => Some(Outcome(w', []))
       case None => None)
    case If(x, y, z) =>
      (match ExecValue(x, w, fuel)
       case Some((w', Int(n))) => Exec(if n != 0 then y else z, w', fuel)
       case _ => None)
    case While(x, y) =>
      (match ExecValue(x, w, fuel)
       case Some((w1, Int(n))) =>
         if n == 0 then Some(Outcome(w1, []))
         else
           (match Exec(y, w1, fuel)
            case Some(Outcome(w2, vs)) =>
              if fuel == 0 || vs != [] then None else Exec(e, w2, fuel - 1)
            case None => None)
       case _ => None)
    case DoWhile(y, x) =>
      (match Exec(y, w, fuel)
       case Some(Outcome(w1, vs)) => if vs != [] then None else Exec(While(x, y), w1, fuel)
       case None => None)
    case Case(x, brs, valued) =>
      (match ExecValue(x, w, fuel)
       case Some((w1, v)) => ExecBranches(brs, v, w1, fuel)
       case None => None)
    case Scope(ds, x) =>
      SizeWithInits(ds, x);
      Inside(WithInits(ds, x), w, map[], map y | y in Declared(ds) :: Mut, fuel)
    case _ => None
  }

  /** The first matching branch, in a scope of its own. */
  function ExecBranches(brs: seq<(Pattern, Expr)>, v: Value, w: World, fuel: nat): Option<Outcome>
    decreases fuel, SizeBranches(brs), 0
  {
    if brs == [] then None
    else match MatchPattern(brs[0].0, v, w.store, Some(map[]))
      case Some(m) =>
        assert SizeBranch(brs[0]) == Size(brs[0].1);
        Inside(brs[0].1, w, m, map x | x in PatternVars(brs[0].0) :: Unmut, fuel)
      case None =>
        if w.wary && Accepts(brs[0].0, v, w.store) then None else ExecBranches(brs[1..], v, w, fuel)
  }

  /** Evaluation between `push` and `Leave`. */
  function Inside(e: Expr, w: World, vals: map<string, Value>, names: map<string, Kind>, fuel: nat): Option<Outcome>
    decreases fuel, Size(e), 1
  {
    match Exec(e, w.(st := Push(w.st, vals, names)), fuel)
    case Some(Outcome(w', vs)) =>
      (match PopScope(w'.st)
       case Some(st) => Some(Outcome(w'.(st := st), vs))
       case None => None)
    case None => None
  }

  // Well-attributed programs

  /** What the parser's attributes guarantee: `e` is a statement (`n` is 0), a value (1), or
      an assignable place (2, the slots that x86 code takes for it). */
  predicate Leaves(e: Expr, n: nat)
    decreases e
  {
    match e
    case Const(_) => n == 1
    case Str(_) => n == 1
    case Var(_) => n == 1
    case Ref(_) => n == 2
    case Binop(_, x, y) => n == 1 && Leaves(x, 1) && Leaves(y, 1)
    case Elem(x, y) => n == 1 && Leaves(x, 1) && Leaves(y, 1)
    case ElemRef(x, y) => n == 2 && Leaves(x, 1) && Leaves(y, 1)
    case Array(es) => n == 1 && forall x :: x in es ==> Leaves(x, 1)
    case Sexp(_, es) => n == 1 && forall x :: x in es ==> Leaves(x, 1)
    case Call(f, es) => n == 1 && Leaves(f, 1) && forall x :: x in es ==> Leaves(x, 1)
    case Assign(x, y) => n == 1 && Leaves(x, 2) && Leaves(y, 1)
    case Seq(x, y) => Leaves(x, 0) && Leaves(y, n)
    case Skip => n == 0
    case Ignore(x) => n == 0 && Leaves(x, 1)
    case If(x, y, z) => Leaves(x, 1) && Leaves(y, n) && Leaves(z, n)
    case While(x, y) => n == 0 && Leaves(x, 1) && Leaves(y, 0)
    case DoWhile(y, x) => n == 0 && Leaves(x, 1) && Leaves(y, 0)
    case Case(x, brs, valued) => (n == 0 <==> !valued) && brs != [] && Leaves(x, 1) &&
      forall b :: b in brs ==> Leaves(b.1, n)
    case Scope(ds, x) => Leaves(x, n) && forall d :: d in ds && d.1.Some? ==> Leaves(d.1.value, 1)
    case Lambda(_, _) => n == 1
    case _ => false
  }

  /** The values that `n` stands for. */
  predicate Shaped(n: nat, vs: seq<Value>) {
    if n == 2 then (|vs| == 1 && vs[0].RefVar?) || (|vs| == 2 && vs[0].Int?) else |vs| == n
  }

  // More fuel never changes a result

  lemma {:induction false} ExecMore(e: Expr, w: World, fuel: nat, more: nat)
    requires fuel <= more && Exec(e, w, fuel).Some?
    ensures Exec(e, w, more) == Exec(e, w, fuel)
    decreases fuel, Size(e), 1
  {
    match e
    case Array(es) => ExecValuesMore(es, w, fuel, more);
    case Sexp(_, es) => ExecValuesMore(es, w, fuel, more);
    case Binop(_, x, y) => TwoMore(x, y, w, fuel, more);
    case Elem(x, y) => TwoMore(x, y, w, fuel, more);
    case ElemRef(x, y) => TwoMore(x, y, w, fuel, more);
    case Seq(x, y) =>
      ExecMore(x, w, fuel, more);
      ExecMore(y, Exec(x, w, fuel).value.w, fuel, more);
    case Ignore(x) => ExecValueMore(x, w, fuel, more);
    case Scope(ds, x) =>
      SizeWithInits(ds, x);
      ExecMore(WithInits(ds, x), w.(st := Push(w.st, map[], map y | y in Declared(ds) :: Mut)), fuel, more);
    case Call(_, _) => CallMore(e, w, fuel, more);
    case Assign(_, _) => CallMore(e, w, fuel, more);
    case If(_, _, _) => ChoiceMore(e, w, fuel, more);
    case Case(_, _, _) => ChoiceMore(e, w, fuel, more);
    case While(_, _) => LoopMore(e, w, fuel, more);
    case DoWhile(_, _) => LoopMore(e, w, fuel, more);
    case _ =>
  }

  lemma {:induction false} CallMore(e: Expr, w: World, fuel: nat, more: nat)
    requires fuel <= more && Exec(e, w, fuel).Some? && (e.Call? || e.Assign?)
    ensures Exec(e, w, more) == Exec(e, w, fuel)
    decreases fuel, Size(e), 0
  {
    match e
    case Call(f, es) =>
      ExecValueMore(f, w, fuel, more);
      ExecValuesMore(es, ExecValue(f, w, fuel).value.0, fuel, more);
    case Assign(x, y) =>
      ExecMore(x, w, fuel, more);
      ExecValueMore(y, Exec(x, w, fuel).value.w, fuel, more);
  }

  lemma {:induction false} ChoiceMore(e: Expr, w: World, fuel: nat, more: nat)
    requires fuel <= more && Exec(e, w, fuel).Some? && (e.If? || e.Case?)
    ensures Exec(e, w, more) == Exec(e, w, fuel)
    decreases fuel, Size(e), 0
  {
    match e
    case If(x, y, z) =>
      ExecValueMore(x, w, fuel, more);
      var (w1, v) := ExecValue(x, w, fuel).value;
      ExecMore(if v.n != 0 then y else z, w1, fuel, more);
    case Case(x, brs, valued) =>
      ExecValueMore(x, w, fuel, more);
      var (w1, v) := ExecValue(x, w, fuel).value;
      ExecBranchesMore(brs, v, w1, fuel, more);
  }

  lemma {:induction false} LoopMore(e: Expr, w: World, fuel: nat, more: nat)
    requires fuel <= more && Exec(e, w, fuel).Some? && (e.While? || e.DoWhile?)
    ensures Exec(e, w, more) == Exec(e, w, fuel)
    decreases fuel, Size(e), 0
  {
    match e
    case While(x, y) =>
      ExecValueMore(x, w, fuel, more);
      var (w1, v) := ExecValue(x, w, fuel).value;
      if v.n != 0 {
        ExecMore(y, w1, fuel, more);
        ExecMore(e, Exec(y, w1, fuel).value.w, fuel - 1, more - 1);
      }
    case DoWhile(y, x) =>
      ExecMore(y, w, fuel, more);
      ExecMore(While(x, y), Exec(y, w, fuel).value.w, fuel, more);
  }

  lemma {:induction false} ExecValueMore(e: Expr, w: World, fuel: nat, more: nat)
    requires fuel <= more && ExecValue(e, w, fuel).Some?
    ensures ExecValue(e, w, more) == ExecValue(e, w, fuel)
    decreases fuel, Size(e), 2
  {
    ExecMore(e, w, fuel, more);
  }

  lemma {:induction false} TwoMore(x: Expr, y: Expr, w: World, fuel: nat, more: nat)
    requires fuel <= more && Two(x, y, w, fuel).Some?
    ensures Two(x, y, w, more) == Two(x, y, w, fuel)
    decreases fuel, Size(x) + Size(y), 3
  {
    ExecValueMore(x, w, fuel, more);
    ExecValueMore(y, ExecValue(x, w, fuel).value.0, fuel, more);
  }

  lemma {:induction false} ExecValuesMore(es: seq<Expr>, w: World, fuel: nat, more: nat)
    requires fuel <= more && ExecValues(es, w, fuel).Some?
    ensures ExecValues(es, w, more) == ExecValues(es, w, fuel)
    decreases fuel, SizeList(es), 3
  {
    if es != [] {
      ExecValueMore(es[0], w, fuel, more);
      ExecValuesMore(es[1..], ExecValue(es[0], w, fuel).value.0, fuel, more);
    }
  }

  lemma {:induction false} ExecBranchesMore(brs: seq<(Pattern, Expr)>, v: Value, w: World, fuel: nat, more: nat)
    requires fuel <= more && ExecBranches(brs, v, w, fuel).Some?
    ensures ExecBranches(brs, v, w, more) == ExecBranches(brs, v, w, fuel)
    decreases fuel, SizeBranches(brs), 0
  {
    match MatchPattern(brs[0].0, v, w.store, Some(map[]))
    case Some(m) =>
      assert SizeBranch(brs[0]) == Size(brs[0].1);
      ExecMore(brs[0].1, w.(st := Push(w.st, m, map x | x in PatternVars(brs[0].0) :: Unmut)), fuel, more);
    case None =>
      ExecBranchesMore(brs[1..], v, w, fuel, more);
  }
}

/** Wary evaluation against plain evaluation: they are the same where no branch is refused by the
    matcher and accepted by the machine, as in every program without `#box`. */
module Watched {
  import opened Wrappers
  import opened Syntax
  import opened Reference
  import opened PatternTests
  import opened Direct
  import PatternsCompiled

  function Wary(w: World): World {
    w.(wary := true)
  }

  function WaryOut(o: Outcome): Outcome {
    o.(w := Wary(o.w))
  }

  // Programs without `#box`

  predicate BoxFreeIn(e: Expr)
    decreases Size(e), 0
  {
    match e
    case Binop(_, x, y) => BoxFreeIn(x) && BoxFreeIn(y)
    case Elem(x, y) => BoxFreeIn(x) && BoxFreeIn(y)
    case ElemRef(x, y) => BoxFreeIn(x) && BoxFreeIn(y)
    case Array(es) => BoxFreeAll(es)
    case Sexp(_, es) => BoxFreeAll(es)
    case Call(f, es) => BoxFreeIn(f) && BoxFreeAll(es)
    case Assign(x, y) => BoxFreeIn(x) && BoxFreeIn(y)
    case Seq(x, y) => BoxFreeIn(x) && BoxFreeIn(y)
    case Ignore(x) => BoxFreeIn(x)
    case If(x, y, z) => BoxFreeIn(x) && BoxFreeIn(y) && BoxFreeIn(z)
    case While(x, y) => BoxFreeIn(x) && BoxFreeIn(y)
    case DoWhile(y, x) => BoxFreeIn(x) && BoxFreeIn(y)
    case Case(x, brs, _) => BoxFreeIn(x) && BoxFreeBranches(brs)
    case Scope(ds, x) =>
      SizeWithInits(ds, x);
      BoxFreeIn(WithInits(ds, x))
    case _ => true
  }

  predicate BoxFreeAll(es: seq<Expr>)
    decreases SizeList(es), 1
  {
    es == [] || (BoxFreeIn(es[0]) && BoxFreeAll(es[1..]))
  }

  predicate BoxFreeBranches(brs: seq<(Pattern, Expr)>)
    decreases SizeBranches(brs), 1
  {
    brs == [] || (
      assert SizeBranch(brs[0]) == Size(brs[0].1);
      BoxFree(brs[0].0) && BoxFreeIn(brs[0].1) && BoxFreeBranches(brs[1..]))
  }

  // The two evaluations

  /** Plain evaluation finishes, without `#box`; or wary evaluation does. */
  predicate Unsurprised(e: Expr, w: World, fuel: nat) {
    !w.wary && ((BoxFreeIn(e) && Exec(e, w, fuel).Some?) || Exec(e, Wary(w), fuel).Some?)
  }

  ghost predicate Alike(e: Expr, w: World, fuel: nat) {
    && Exec(e, w, fuel).Some? && !Exec(e, w, fuel).value.w.wary
    && Exec(e, Wary(w), fuel) == Some(WaryOut(Exec(e, w, fuel).value))
  }

  lemma {:induction false} ExecAlike(e: Expr, w: World, fuel: nat)
    requires Unsurprised(e, w, fuel)
    ensures Alike(e, w, fuel)
    decreases fuel, Size(e), 1
  {
    if e.Call? || e.Assign? {
      CallAlike(e, w, fuel);
    } else if e.If? || e.Case? {
      ChoiceAlike(e, w, fuel);
    } else if e.While? || e.DoWhile? {
      LoopAlike(e, w, fuel);
    } else if e.Binop? || e.Elem? || e.ElemRef? || e.Array? || e.Sexp? {
      OperatorAlike(e, w, fuel);
    } else {
      SimpleAlike(e, w, fuel);
    }
  }

  lemma {:induction false} OperatorAlike(e: Expr, w: World, fuel: nat)
    requires Unsurprised(e, w, fuel) && (e.Binop? || e.Elem? || e.ElemRef? || e.Array? || e.Sexp?)
    ensures Alike(e, w, fuel)
    decreases fuel, Size(e), 0
  {
    hide Two, ExecValues;
    match e
    case Array(es) => ValuesAlike(es, w, fuel);
    case Sexp(_, es) => ValuesAlike(es, w, fuel);
    case Binop(_, x, y) => TwoAlike(x, y, w, fuel);
    case Elem(x, y) => TwoAlike(x, y, w, fuel);
    case ElemRef(x, y) => TwoAlike(x, y, w, fuel);
  }

  lemma {:induction false} SimpleAlike(e: Expr, w: World, fuel: nat)
    requires Unsurprised(e, w, fuel)
    requires !e.Call? && !e.Assign? && !e.If? && !e.Case? && !e.While? && !e.DoWhile?
    requires !e.Binop? && !e.Elem? && !e.ElemRef? && !e.Array? && !e.Sexp?
    ensures Alike(e, w, fuel)
    decreases fuel, Size(e), 0
  {
    hide Inside, ExecValue;
    match e
    case Seq(x, y) =>
      ExecAlike(x, w, fuel);
      ExecAlike(y, Exec(x, w, fuel).value.w, fuel);
    case Ignore(x) => ValueAlike(x, w, fuel);
    case Scope(ds, x) =>
      SizeWithInits(ds, x);
      InsideAlike(WithInits(ds, x), w, map[], map y | y in Declared(ds) :: Mut, fuel);
    case _ =>
  }

  lemma {:induction false} CallAlike(e: Expr, w: World, fuel: nat)
    requires Unsurprised(e, w, fuel) && (e.Call? || e.Assign?)
    ensures Alike(e, w, fuel)
    decreases fuel, Size(e), 0
  {
    hide ExecValue, ExecValues;
    match e
    case Call(f, es) =>
      ValueAlike(f, w, fuel);
      ValuesAlike(es, ExecValue(f, w, fuel).value.0, fuel);
    case Assign(x, y) =>
      ExecAlike(x, w, fuel);
      ValueAlike(y, Exec(x, w, fuel).value.w, fuel);
  }

  lemma {:induction false} ChoiceAlike(e: Expr, w: World, fuel: nat)
    requires Unsurprised(e, w, fuel) && (e.If? || e.Case?)
    ensures Alike(e, w, fuel)
    decreases fuel, Size(e), 0
  {
    hide ExecValue, ExecBranches;
    match e
    case If(x, y, z) =>
      ValueAlike(x, w, fuel);
      var (w1, v) := ExecValue(x, w, fuel).value;
      ExecAlike(if v.n != 0 then y else z, w1, fuel);
    case Case(x, brs, valued) =>
      ValueAlike(x, w, fuel);
      var (w1, v) := ExecValue(x, w, fuel).value;
      BranchesAlike(brs, v, w1, fuel);
  }

  lemma {:induction false} LoopAlike(e: Expr, w: World, fuel: nat)
    requires Unsurprised(e, w, fuel) && (e.While? || e.DoWhile?)
    ensures Alike(e, w, fuel)
    decreases fuel, Size(e), 0
  {
    hide ExecValue;
    match e
    case While(x, y) =>
      ValueAlike(x, w, fuel);
      var (w1, v) := ExecValue(x, w, fuel).value;
      if v.n != 0 {
        ExecAlike(y, w1, fuel);
        ExecAlike(e, Exec(y, w1, fuel).value.w, fuel - 1);
      }
    case DoWhile(y, x) =>
      ExecAlike(y, w, fuel);
      ExecAlike(While(x, y), Exec(y, w, fuel).value.w, fuel);
  }

  lemma {:induction false} ValueAlike(e: Expr, w: World, fuel: nat)
    requires !w.wary && ((BoxFreeIn(e) && ExecValue(e, w, fuel).Some?) || ExecValue(e, Wary(w), fuel).Some?)
    ensures ExecValue(e, w, fuel).Some? && !ExecValue(e, w, fuel).value.0.wary
    ensures ExecValue(e, Wary(w), fuel) == Some((Wary(ExecValue(e, w, fuel).value.0), ExecValue(e, w, fuel).value.1))
    decreases fuel, Size(e), 2
  {
    hide BoxFreeIn, Exec;
    ExecAlike(e, w, fuel);
  }

  lemma {:induction false} TwoAlike(x: Expr, y: Expr, w: World, fuel: nat)
    requires !w.wary
    requires (BoxFreeIn(x) && BoxFreeIn(y) && Two(x, y, w, fuel).Some?) || Two(x, y, Wary(w), fuel).Some?
    ensures Two(x, y, w, fuel).Some? && !Two(x, y, w, fuel).value.0.wary
    ensures var (w', a, b) := Two(x, y, w, fuel).value; Two(x, y, Wary(w), fuel) == Some((Wary(w'), a, b))
    decreases fuel, Size(x) + Size(y), 3
  {
    hide BoxFreeIn, ExecValue;
    ValueAlike(x, w, fuel);
    ValueAlike(y, ExecValue(x, w, fuel).value.0, fuel);
  }

  lemma {:induction false} ValuesAlike(es: seq<Expr>, w: World, fuel: nat)
    requires !w.wary && ((BoxFreeAll(es) && ExecValues(es, w, fuel).Some?) || ExecValues(es, Wary(w), fuel).Some?)
    ensures ExecValues(es, w, fuel).Some? && !ExecValues(es, w, fuel).value.0.wary
    ensures var (w', vs) := ExecValues(es, w, fuel).value; ExecValues(es, Wary(w), fuel) == Some((Wary(w'), vs))
    decreases fuel, SizeList(es), 3
  {
    hide BoxFreeIn, ExecValue;
    if es != [] {
      ValueAlike(es[0], w, fuel);
      ValuesAlike(es[1..], ExecValue(es[0], w, fuel).value.0, fuel);
    }
  }

  lemma {:induction false} InsideAlike(e: Expr, w: World, vals: map<string, Value>, names: map<string, Kind>, fuel: nat)
    requires !w.wary
    requires (BoxFreeIn(e) && Inside(e, w, vals, names, fuel).Some?) || Inside(e, Wary(w), vals, names, fuel).Some?
    ensures Inside(e, w, vals, names, fuel).Some? && !Inside(e, w, vals, names, fuel).value.w.wary
    ensures Inside(e, Wary(w), vals, names, fuel) == Some(WaryOut(Inside(e, w, vals, names, fuel).value))
    decreases fuel, Size(e), 2
  {
    hide BoxFreeIn, Exec, Push;
    var w0 := w.(st := Push(w.st, vals, names));
    assert Wary(w).(st := Push(w.st, vals, names)) == Wary(w0);
    ExecAlike(e, w0, fuel);
  }

  lemma {:induction false} BranchesAlike(brs: seq<(Pattern, Expr)>, v: Value, w: World, fuel: nat)
    requires !w.wary
    requires (BoxFreeBranches(brs) && ExecBranches(brs, v, w, fuel).Some?) || ExecBranches(brs, v, Wary(w), fuel).Some?
    ensures ExecBranches(brs, v, w, fuel).Some? && !ExecBranches(brs, v, w, fuel).value.w.wary
    ensures ExecBranches(brs, v, Wary(w), fuel) == Some(WaryOut(ExecBranches(brs, v, w, fuel).value))
    decreases fuel, SizeBranches(brs), 0
  {
    hide BoxFreeIn, Inside, MatchPattern, Accepts, BoxFree;
    var p := brs[0].0;
    assert SizeBranch(brs[0]) == Size(brs[0].1);
    match MatchPattern(p, v, w.store, Some(map[]))
    case Some(m) => InsideAlike(brs[0].1, w, m, map x | x in PatternVars(p) :: Unmut, fuel);
    case None =>
      if BoxFreeBranches(brs) {
        PatternsCompiled.AcceptsMatches(p, v, w.store);
        PatternsCompiled.BoxFreeNever(p, v, w.store);
      }
      BranchesAlike(brs[1..], v, w, fuel);
  }
}

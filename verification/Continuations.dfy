/** The continuation-passing evaluator against direct evaluation: running `e` before `k` is
    running `e`, then `k`. */
module Continuations {
  import opened Wrappers
  import opened Syntax
  import opened Reference
  import opened Direct

  function On(w: World, vs: seq<Value>): Config {
    Config(w.st, w.store, w.input, w.output, vs)
  }

  /** From `(w, vs)` with continuation `k` the evaluator, given `fuel`, goes on exactly as from
      `(w', vs')` with nothing left to evaluate before `k`, given `rest`. */
  ghost predicate Continues(w: World, vs: seq<Value>, k: Expr, e: Expr, fuel: nat,
                            w': World, vs': seq<Value>, rest: nat)
  {
    rest <= fuel && !w'.wary && Eval(On(w', vs'), Skip, k, rest) == Eval(On(w, vs), k, e, fuel)
  }

  lemma ThenSkip(c: Config, s: Expr, k: Expr, fuel: nat) returns (rest: nat)
    requires Eval(c, Skip, Then(s, k), fuel).Some?
    ensures rest <= fuel && Eval(c, k, s, rest) == Eval(c, Skip, Then(s, k), fuel)
  {
    rest := if k.Skip? then fuel else fuel - 1;
  }

  // One step of the evaluator at a time

  lemma StepSeq(c: Config, k: Expr, x: Expr, y: Expr, fuel: nat)
    requires Eval(c, k, Seq(x, y), fuel).Some?
    ensures fuel > 0 && Eval(c, k, Seq(x, y), fuel) == Eval(c, Then(y, k), x, fuel - 1)
  {
  }

  lemma StepIntrinsic(c: Config, k: Expr, s: Step, fuel: nat)
    requires Eval(c, k, Intrinsic(s), fuel).Some? && !s.Match?
    ensures fuel > 0 && RunStep(s, c).Some?
    ensures Eval(c, k, Intrinsic(s), fuel) == Eval(RunStep(s, c).value, Skip, k, fuel - 1)
  {
  }

  /** What a compound expression is scheduled as. */
  function Scheduled(e: Expr): seq<Expr>
    requires e.Binop? || e.Elem? || e.ElemRef? || e.Array? || e.Sexp? || e.Call? || e.Assign? || e.Ignore? || e.If? ||
      e.While?
  {
    match e
    case Binop(op, x, y) => [x, y, Intrinsic(Apply(op))]
    case Elem(b, i) => [b, i, Intrinsic(TakeElem)]
    case ElemRef(b, i) => [b, i, Intrinsic(TakeElemRef)]
    case Array(es) => es + [Intrinsic(MakeArray(|es|))]
    case Sexp(t, es) => es + [Intrinsic(MakeSexp(t, |es|))]
    case Call(f, es) => [f] + es + [Intrinsic(Invoke(|es|))]
    case Assign(x, y) => [x, y, Intrinsic(Write)]
    case Ignore(x) => [x, Intrinsic(Discard)]
    case If(x, s1, s2) => [x, Control(Branch(s1, s2))]
    case While(x, s) => [x, Control(Loop(x, s))]
  }

  lemma StepScheduled(c: Config, k: Expr, e: Expr, fuel: nat)
    requires e.Binop? || e.Elem? || e.ElemRef? || e.Array? || e.Sexp? || e.Call? || e.Assign? || e.Ignore? || e.If? ||
      e.While?
    requires Eval(c, k, e, fuel).Some?
    ensures fuel > 0 && Scheduled(e) != []
    ensures Eval(c, k, e, fuel) == Eval(c, k, Schedule(Scheduled(e)), fuel - 1)
  {
  }

  lemma {:induction false} ExecValuesSnoc(es: seq<Expr>, e: Expr, w: World, fuel: nat)
    requires ExecValues(es, w, fuel).Some?
    requires ExecValue(e, ExecValues(es, w, fuel).value.0, fuel).Some?
    ensures var (w1, vs) := ExecValues(es, w, fuel).value;
      var (w2, v) := ExecValue(e, w1, fuel).value;
      ExecValues(es + [e], w, fuel) == Some((w2, vs + [v]))
  {
    if es == [] {
      assert es + [e] == [e];
      ExecValuesOne(e, w, fuel);
      assert [] + [ExecValue(e, w, fuel).value.1] == [ExecValue(e, w, fuel).value.1];
    } else {
      var (w1, v1) := ExecValue(es[0], w, fuel).value;
      ExecValuesSnoc(es[1..], e, w1, fuel);
      assert (es + [e])[1..] == es[1..] + [e];
      var vs := ExecValues(es[1..], w1, fuel).value.1;
      var (w2, v) := ExecValue(e, ExecValues(es, w, fuel).value.0, fuel).value;
      assert [v1] + (vs + [v]) == [v1] + vs + [v];
    }
  }

  lemma ScheduleSnoc(es: seq<Expr>, e: Expr)
    requires es != []
    ensures Schedule(es + [e]) == Then(Schedule(es), e)
  {
    assert (es + [e])[..|es|] == es;
  }

  /** A list of arguments evaluated left to right. */
  lemma {:induction false} CpsList(es: seq<Expr>, w: World, vs: seq<Value>, k: Expr, fuel: nat)
    returns (w': World, out: seq<Value>, rest: nat)
    requires es != [] && (forall e :: e in es ==> Leaves(e, 1))
    requires !w.wary && Eval(On(w, vs), k, Schedule(es), fuel).Some?
    ensures ExecValues(es, w, fuel) == Some((w', out)) && |out| == |es|
    ensures Continues(w, vs, k, Schedule(es), fuel, w', Reverse(out) + vs, rest)
    decreases fuel, |es|
  {
    hide Leaves, Exec, Eval, ExecValues, Schedule;
    var init, last := es[..|es| - 1], es[|es| - 1];
    assert es == init + [last];
    if init == [] {
      assert es == [last];
      assert Schedule(es) == last by { ScheduleOne(last); }
      var v;
      w', v, rest := CpsValue(last, w, vs, k, fuel);
      out := [v];
      ExecValuesOne(last, w, fuel);
      assert Reverse(out) == [v];
    } else {
      NotSkip(last);
      ScheduleSnoc(init, last);
      StepSeq(On(w, vs), k, Schedule(init), last, fuel);
      var w1, out1, r1 := CpsList(init, w, vs, Then(last, k), fuel - 1);
      var r2 := ThenSkip(On(w1, Reverse(out1) + vs), last, k, r1);
      var v;
      w', v, rest := CpsValue(last, w1, Reverse(out1) + vs, k, r2);
      ExecValuesMore(init, w, fuel - 1, fuel);
      ExecValueMore(last, w1, r2, fuel);
      ExecValuesSnoc(init, last, w, fuel);
      out := out1 + [v];
      ReverseSnoc(out1, v);
      assert [v] + (Reverse(out1) + vs) == Reverse(out) + vs;
    }
  }

  lemma ScheduleOne(e: Expr)
    ensures Schedule([e]) == e
  {
  }

  lemma ExecValuesOne(e: Expr, w: World, fuel: nat)
    requires ExecValue(e, w, fuel).Some?
    ensures ExecValues([e], w, fuel) == Some((ExecValue(e, w, fuel).value.0, [ExecValue(e, w, fuel).value.1]))
  {
    hide Exec;
    var (w1, v) := ExecValue(e, w, fuel).value;
    assert ExecValues([e][1..], w1, fuel) == Some((w1, []));
    assert [v] + [] == [v];
  }

  lemma NotSkip(e: Expr)
    requires Leaves(e, 1)
    ensures !e.Skip?
  {
  }

  lemma {:induction false} CpsValue(e: Expr, w: World, vs: seq<Value>, k: Expr, fuel: nat)
    returns (w': World, v: Value, rest: nat)
    requires !w.wary && Leaves(e, 1) && Eval(On(w, vs), k, e, fuel).Some?
    ensures ExecValue(e, w, fuel) == Some((w', v))
    ensures Continues(w, vs, k, e, fuel, w', [v] + vs, rest)
    decreases fuel, 0, 2
  {
    hide Eval, Exec, Leaves;
    var out;
    out, rest := Cps(e, 1, w, vs, k, fuel);
    w', v := out.w, out.vs[0];
    assert out.vs == [v];
  }

  /** Arguments, then an intrinsic or a control. */
  lemma {:induction false} CpsArgs(es: seq<Expr>, i: Expr, w: World, vs: seq<Value>, k: Expr, fuel: nat)
    returns (w': World, out: seq<Value>, rest: nat)
    requires (forall e :: e in es ==> Leaves(e, 1)) && !i.Skip?
    requires !w.wary && Eval(On(w, vs), k, Schedule(es + [i]), fuel).Some?
    ensures ExecValues(es, w, fuel) == Some((w', out)) && |out| == |es|
    ensures rest <= fuel && !w'.wary && Eval(On(w', Reverse(out) + vs), k, i, rest)
      == Eval(On(w, vs), k, Schedule(es + [i]), fuel)
    decreases fuel, |es| + 1
  {
    hide Exec, Leaves, Eval, Schedule, ExecValues;
    if es == [] {
      w', out, rest := w, [], fuel;
      NoValues(w, fuel);
      assert es + [i] == [i];
      ScheduleOne(i);
      assert Reverse(out) + vs == vs;
    } else {
      ScheduleSnoc(es, i);
      StepSeq(On(w, vs), k, Schedule(es), i, fuel);
      var r1;
      w', out, r1 := CpsList(es, w, vs, Then(i, k), fuel - 1);
      ExecValuesMore(es, w, fuel - 1, fuel);
      rest := ThenSkip(On(w', Reverse(out) + vs), i, k, r1);
    }
  }

  lemma NoValues(w: World, fuel: nat)
    ensures ExecValues([], w, fuel) == Some((w, []))
  {
  }

  lemma TwoValues(x: Expr, y: Expr, w: World, fuel: nat)
    requires ExecValues([x, y], w, fuel).Some?
    ensures Two(x, y, w, fuel).Some?
    ensures var (w', out) := ExecValues([x, y], w, fuel).value;
      |out| == 2 && Two(x, y, w, fuel).value == (w', out[0], out[1]) && Reverse(out) == [out[1], out[0]]
  {
    hide Exec;
    assert [x, y][1..] == [y] && [y][1..] == [];
    var (w1, a) := ExecValue(x, w, fuel).value;
    assert ExecValues([y], w1, fuel).Some?;
    var (w2, b) := ExecValue(y, w1, fuel).value;
    SingleValue(y, w1, fuel);
    assert [a] + [b] == [a, b];
  }

  /** Two operands, then an intrinsic. */
  lemma {:induction false} CpsTwo(x: Expr, y: Expr, i: Expr, w: World, vs: seq<Value>, k: Expr, fuel: nat)
    returns (w': World, a: Value, b: Value, rest: nat)
    requires Leaves(x, 1) && Leaves(y, 1) && !i.Skip?
    requires !w.wary && Eval(On(w, vs), k, Schedule([x, y, i]), fuel).Some?
    ensures Two(x, y, w, fuel) == Some((w', a, b))
    ensures rest <= fuel && !w'.wary && Eval(On(w', [b, a] + vs), k, i, rest)
      == Eval(On(w, vs), k, Schedule([x, y, i]), fuel)
    decreases fuel, 4
  {
    hide Eval, Exec, Leaves, ExecValues, Two;
    assert [x, y] + [i] == [x, y, i];
    var out;
    w', out, rest := CpsArgs([x, y], i, w, vs, k, fuel);
    TwoValues(x, y, w, fuel);
    a, b := out[0], out[1];
  }

  lemma ScheduleThree(x: Expr, y: Expr, i: Expr)
    requires !y.Skip? && !i.Skip?
    ensures Schedule([x, y, i]) == Seq(Seq(x, y), i)
  {
    assert [x, y, i][..2] == [x, y] && [x, y][..1] == [x];
    assert Schedule([x, y]) == Then(Schedule([x]), y);
  }

  /** What the reference evaluator has on its stack for the values of an expression: a
      reference to an element is one value there. */
  function Seen(n: nat, vs: seq<Value>): seq<Value> {
    if n == 2 && |vs| == 2 && vs[0].Int? then [RefElem(vs[1], vs[0].n)] else vs
  }

  lemma {:induction false} CpsElemRef(e: Expr, w: World, vs: seq<Value>, k: Expr, fuel: nat)
    returns (out: Outcome, rest: nat)
    requires !w.wary && e.ElemRef? && Leaves(e, 2) && Eval(On(w, vs), k, e, fuel).Some?
    ensures Exec(e, w, fuel) == Some(out) && Shaped(2, out.vs)
    ensures Continues(w, vs, k, e, fuel, out.w, Seen(2, out.vs) + vs, rest)
    decreases fuel, 0, 0
  {
    hide Eval, Schedule, Two;
    StepScheduled(On(w, vs), k, e, fuel);
    var w', a, j, r1 := CpsTwo(e.base, e.index, Intrinsic(TakeElemRef), w, vs, k, fuel - 1);
    TwoMore(e.base, e.index, w, fuel - 1, fuel);
    assert ([j, a] + vs)[2..] == vs;
    StepIntrinsic(On(w', [j, a] + vs), k, TakeElemRef, r1);
    out, rest := Outcome(w', [j, a]), r1 - 1;
  }

  lemma {:induction false} CpsAssign(e: Expr, w: World, vs: seq<Value>, k: Expr, fuel: nat)
    returns (out: Outcome, rest: nat)
    requires !w.wary && e.Assign? && Leaves(e, 1) && Eval(On(w, vs), k, e, fuel).Some?
    ensures Exec(e, w, fuel) == Some(out) && |out.vs| == 1
    ensures Continues(w, vs, k, e, fuel, out.w, out.vs + vs, rest)
    decreases fuel, 0, 0
  {
    hide Eval, Schedule, ExecValue, RunStep, Exec, Seen;
    var i := Intrinsic(Write);
    var x, y := e.target, e.source;
    NotSkip(y);
    StepScheduled(On(w, vs), k, e, fuel);
    ScheduleThree(x, y, i);
    StepSeq(On(w, vs), k, Seq(x, y), i, fuel - 1);
    StepSeq(On(w, vs), Then(i, k), x, y, fuel - 2);
    var o1, r1 := Cps(x, 2, w, vs, Then(y, Then(i, k)), fuel - 3);
    var s1 := Seen(2, o1.vs) + vs;
    var r2 := ThenSkip(On(o1.w, s1), y, Then(i, k), r1);
    var w2, v, r3 := CpsValue(y, o1.w, s1, Then(i, k), r2);
    var r4 := ThenSkip(On(w2, [v] + s1), i, k, r3);
    StepIntrinsic(On(w2, [v] + s1), k, Write, r4);
    ExecMore(x, w, fuel - 3, fuel);
    ExecValueMore(y, o1.w, r2, fuel);
    out := AssignDone(x, y, w, o1, w2, v, vs, fuel);
    rest := r4 - 1;
  }

  /** The store step of an assignment, and direct evaluation of the whole. */
  lemma AssignDone(x: Expr, y: Expr, w: World, o1: Outcome, w2: World, v: Value, vs: seq<Value>, fuel: nat)
    returns (out: Outcome)
    requires Exec(x, w, fuel) == Some(o1) && Shaped(2, o1.vs) && ExecValue(y, o1.w, fuel) == Some((w2, v))
    requires RunStep(Write, On(w2, [v] + (Seen(2, o1.vs) + vs))).Some?
    ensures Exec(Assign(x, y), w, fuel) == Some(out) && |out.vs| == 1 && out.w.wary == w2.wary
    ensures RunStep(Write, On(w2, [v] + (Seen(2, o1.vs) + vs))) == Some(On(out.w, out.vs + vs))
  {
    var r := Seen(2, o1.vs)[0];
    assert [v] + (Seen(2, o1.vs) + vs) == [v, r] + vs && ([v, r] + vs)[2..] == vs;
    AssignUnfolds(x, y, w, fuel);
    hide Exec, ExecValue;
    out := AssignTo(w2, o1.vs, v).value;
  }

  lemma AssignUnfolds(x: Expr, y: Expr, w: World, fuel: nat)
    requires Exec(x, w, fuel).Some? && ExecValue(y, Exec(x, w, fuel).value.w, fuel).Some?
    ensures var o1 := Exec(x, w, fuel).value; var (w2, v) := ExecValue(y, o1.w, fuel).value;
      Exec(Assign(x, y), w, fuel) == AssignTo(w2, o1.vs, v)
  {
    hide ExecValue, AssignTo;
  }

  /** Operators and element access. */
  lemma {:induction false} CpsOperands(e: Expr, w: World, vs: seq<Value>, k: Expr, fuel: nat)
    returns (out: Outcome, rest: nat)
    requires !w.wary && (e.Binop? || e.Elem?) && Leaves(e, 1) && Eval(On(w, vs), k, e, fuel).Some?
    ensures Exec(e, w, fuel) == Some(out) && |out.vs| == 1
    ensures Continues(w, vs, k, e, fuel, out.w, out.vs + vs, rest)
    decreases fuel, 0, 0
  {
    hide Eval, Schedule, Two;
    var x, y := if e.Binop? then e.left else e.base, if e.Binop? then e.right else e.index;
    var i := if e.Binop? then Apply(e.op) else TakeElem;
    StepScheduled(On(w, vs), k, e, fuel);
    var w', a, b, r1 := CpsTwo(x, y, Intrinsic(i), w, vs, k, fuel - 1);
    TwoMore(x, y, w, fuel - 1, fuel);
    StepIntrinsic(On(w', [b, a] + vs), k, i, r1);
    assert ([b, a] + vs)[2..] == vs;
    out := Exec(e, w, fuel).value;
    rest := r1 - 1;
  }

  /** Arrays and s-expressions. */
  lemma {:induction false} CpsItems(e: Expr, w: World, vs: seq<Value>, k: Expr, fuel: nat)
    returns (out: Outcome, rest: nat)
    requires !w.wary && (e.Array? || e.Sexp?) && Leaves(e, 1) && Eval(On(w, vs), k, e, fuel).Some?
    ensures Exec(e, w, fuel) == Some(out) && |out.vs| == 1
    ensures Continues(w, vs, k, e, fuel, out.w, out.vs + vs, rest)
    decreases fuel, 0, 0
  {
    hide Eval, Schedule, ExecValues, Reverse;
    var n := |e.items|;
    var i := if e.Array? then MakeArray(n) else MakeSexp(e.tag, n);
    StepScheduled(On(w, vs), k, e, fuel);
    var w', vals, r1 := CpsArgs(e.items, Intrinsic(i), w, vs, k, fuel - 1);
    ExecValuesMore(e.items, w, fuel - 1, fuel);
    var stack := Reverse(vals) + vs;
    StepIntrinsic(On(w', stack), k, i, r1);
    assert stack[..n] == Reverse(vals) && stack[n..] == vs;
    ReverseTwice(vals);
    out := Exec(e, w, fuel).value;
    rest := r1 - 1;
  }

  /** Calls of builtins. */
  lemma {:induction false} CpsCall(e: Expr, w: World, vs: seq<Value>, k: Expr, fuel: nat)
    returns (out: Outcome, rest: nat)
    requires !w.wary && e.Call? && Leaves(e, 1) && Eval(On(w, vs), k, e, fuel).Some?
    ensures Exec(e, w, fuel) == Some(out) && |out.vs| == 1
    ensures Continues(w, vs, k, e, fuel, out.w, out.vs + vs, rest)
    decreases fuel, 0, 0
  {
    hide Eval, Schedule, ExecValues, Reverse, RunBuiltin, RunStep;
    var n := |e.args|;
    StepScheduled(On(w, vs), k, e, fuel);
    var all := [e.f] + e.args;
    assert forall x :: x in all ==> Leaves(x, 1);
    var w', vals, r1 := CpsArgs(all, Intrinsic(Invoke(n)), w, vs, k, fuel - 1);
    ExecValuesMore(all, w, fuel - 1, fuel);
    ExecValuesCons(e.f, e.args, w, fuel);
    StepIntrinsic(On(w', Reverse(vals) + vs), k, Invoke(n), r1);
    InvokeStep(w', vals, vs, n);
    out := Exec(e, w, fuel).value;
    rest := r1 - 1;
  }

  lemma ExecValuesCons(f: Expr, es: seq<Expr>, w: World, fuel: nat)
    requires ExecValues([f] + es, w, fuel).Some?
    ensures ExecValue(f, w, fuel).Some?
    ensures ExecValues(es, ExecValue(f, w, fuel).value.0, fuel).Some?
    ensures var (w1, v) := ExecValue(f, w, fuel).value;
      var (w2, vs) := ExecValues(es, w1, fuel).value;
      ExecValues([f] + es, w, fuel).value == (w2, [v] + vs)
  {
    hide ExecValue;
    assert ([f] + es)[1..] == es;
  }

  lemma InvokeStep(w: World, vals: seq<Value>, vs: seq<Value>, n: nat)
    requires |vals| == n + 1 && RunStep(Invoke(n), On(w, Reverse(vals) + vs)).Some?
    ensures vals[0].BuiltinValue?
    ensures RunBuiltin(vals[0].name, vals[1..], w.store, w.input, w.output).Some?
    ensures var (store, input, output, v) := RunBuiltin(vals[0].name, vals[1..], w.store, w.input, w.output).value;
      RunStep(Invoke(n), On(w, Reverse(vals) + vs))
        == Some(On(w.(store := store, input := input, output := output), [v] + vs))
  {
    hide RunBuiltin;
    var stack := Reverse(vals) + vs;
    assert stack[n] == vals[0];
    assert Reverse(stack[..n]) == vals[1..];
    assert stack[n + 1..] == vs;
  }

  /** Conditionals and discarded values. */
  lemma {:induction false} CpsIf(e: Expr, n: nat, w: World, vs: seq<Value>, k: Expr, fuel: nat)
    returns (out: Outcome, rest: nat)
    requires !w.wary && (e.If? || e.Ignore?) && Leaves(e, n) && Eval(On(w, vs), k, e, fuel).Some?
    ensures Exec(e, w, fuel) == Some(out) && Shaped(n, out.vs)
    ensures Continues(w, vs, k, e, fuel, out.w, Seen(n, out.vs) + vs, rest)
    decreases fuel, 0, 0
  {
    hide Eval, Schedule;
    var x := if e.If? then e.cond else e.e;
    var i := if e.If? then Control(Branch(e.thn, e.els)) else Intrinsic(Discard);
    StepScheduled(On(w, vs), k, e, fuel);
    var w1, v, r1 := CpsOne(x, i, w, vs, k, fuel - 1);
    ExecValueMore(x, w, fuel - 1, fuel);
    assert ([v] + vs)[1..] == vs;
    if e.Ignore? {
      StepIntrinsic(On(w1, [v] + vs), k, Discard, r1);
      out, rest := Outcome(w1, []), r1 - 1;
      assert [] + vs == vs;
    } else {
      StepControl(On(w1, [v] + vs), k, i.choice, r1);
      var s := if v.n != 0 then e.thn else e.els;
      out, rest := Cps(s, n, w1, vs, k, r1 - 1);
      ExecMore(s, w1, r1 - 1, fuel);
    }
  }

  /** One operand, then an intrinsic or a control. */
  lemma {:induction false} CpsOne(x: Expr, i: Expr, w: World, vs: seq<Value>, k: Expr, fuel: nat)
    returns (w': World, v: Value, rest: nat)
    requires !w.wary && Leaves(x, 1) && !i.Skip? && Eval(On(w, vs), k, Schedule([x, i]), fuel).Some?
    ensures ExecValue(x, w, fuel) == Some((w', v))
    ensures rest <= fuel && !w'.wary && Eval(On(w', [v] + vs), k, i, rest) == Eval(On(w, vs), k, Schedule([x, i]), fuel)
    decreases fuel, 3
  {
    hide Eval, Schedule, Leaves, ExecValue;
    assert [x] + [i] == [x, i];
    var out;
    w', out, rest := CpsArgs([x], i, w, vs, k, fuel);
    SingleValue(x, w, fuel);
    v := out[0];
    assert Reverse(out) == [v];
  }

  lemma SingleValue(x: Expr, w: World, fuel: nat)
    requires ExecValues([x], w, fuel).Some?
    ensures ExecValue(x, w, fuel).Some?
    ensures ExecValues([x], w, fuel).value == (ExecValue(x, w, fuel).value.0, [ExecValue(x, w, fuel).value.1])
  {
    hide Exec;
    var (w1, v) := ExecValue(x, w, fuel).value;
    assert ExecValues([x][1..], w1, fuel) == Some((w1, []));
    assert [v] + [] == [v];
  }

  lemma StepControl(c: Config, k: Expr, choice: Choice, fuel: nat)
    requires Eval(c, k, Control(choice), fuel).Some?
    ensures fuel > 0 && |c.vs| > 0 && c.vs[0].Int?
    ensures var s := match choice
        case Branch(s1, s2) => if c.vs[0].n != 0 then s1 else s2
        case Loop(x, s) => if c.vs[0].n != 0 then Then(s, While(x, s)) else Skip;
      Eval(c, k, Control(choice), fuel) == Eval(c.(vs := c.vs[1..]), k, s, fuel - 1)
  {
  }

  /** Loops: the body is followed by the whole loop again. */
  lemma {:induction false} CpsWhile(x: Expr, s: Expr, w: World, vs: seq<Value>, k: Expr, fuel: nat)
    returns (out: Outcome, rest: nat)
    requires !w.wary && Leaves(x, 1) && Leaves(s, 0) && Eval(On(w, vs), k, While(x, s), fuel).Some?
    ensures Exec(While(x, s), w, fuel) == Some(out) && out.vs == []
    ensures Continues(w, vs, k, While(x, s), fuel, out.w, vs, rest)
    decreases fuel, 0, 0
  {
    hide Eval, Schedule, Leaves, Exec, ExecValue, Seen, Shaped;
    SeenPlain(0);
    var e := While(x, s);
    StepScheduled(On(w, vs), k, e, fuel);
    var w1, v, r1 := CpsOne(x, Control(Loop(x, s)), w, vs, k, fuel - 1);
    ExecValueMore(x, w, fuel - 1, fuel);
    assert ([v] + vs)[1..] == vs;
    StepControl(On(w1, [v] + vs), k, Loop(x, s), r1);
    if v.n == 0 {
      rest := StepSkip(On(w1, vs), k, r1 - 1);
      out := Outcome(w1, []);
      WhileStops(x, s, w, fuel);
    } else {
      StepSeq(On(w1, vs), k, s, e, r1 - 1);
      var o1, r2 := Cps(s, 0, w1, vs, Then(e, k), r1 - 2);
      assert [] + vs == vs;
      var r3 := ThenSkip(On(o1.w, vs), e, k, r2);
      out, rest := CpsWhile(x, s, o1.w, vs, k, r3);
      ExecMore(s, w1, r1 - 2, fuel);
      ExecMore(e, o1.w, r3, fuel - 1);
      WhileTurns(x, s, w, fuel);
    }
  }

  lemma WhileStops(x: Expr, s: Expr, w: World, fuel: nat)
    requires ExecValue(x, w, fuel).Some? && ExecValue(x, w, fuel).value.1 == Int(0)
    ensures Exec(While(x, s), w, fuel) == Some(Outcome(ExecValue(x, w, fuel).value.0, []))
  {
    hide ExecValue;
  }

  lemma WhileTurns(x: Expr, s: Expr, w: World, fuel: nat)
    requires ExecValue(x, w, fuel).Some? && fuel > 0
    requires var (w1, v) := ExecValue(x, w, fuel).value;
      v.Int? && v.n != 0 && Exec(s, w1, fuel).Some? && Exec(s, w1, fuel).value.vs == []
    ensures Exec(While(x, s), w, fuel) ==
      Exec(While(x, s), Exec(s, ExecValue(x, w, fuel).value.0, fuel).value.w, fuel - 1)
  {
    hide ExecValue;
  }

  lemma DoWhileTurns(x: Expr, s: Expr, w: World, fuel: nat)
    requires Exec(s, w, fuel).Some? && Exec(s, w, fuel).value.vs == []
    ensures Exec(DoWhile(s, x), w, fuel) == Exec(While(x, s), Exec(s, w, fuel).value.w, fuel)
  {
  }

  lemma StepSkip(c: Config, k: Expr, fuel: nat) returns (rest: nat)
    requires Eval(c, k, Skip, fuel).Some?
    ensures rest <= fuel && Eval(c, Skip, k, rest) == Eval(c, k, Skip, fuel)
  {
    rest := if k.Skip? then fuel else fuel - 1;
  }

  lemma {:induction false} CpsSeq(x: Expr, y: Expr, n: nat, w: World, vs: seq<Value>, k: Expr, fuel: nat)
    returns (out: Outcome, rest: nat)
    requires !w.wary && Leaves(x, 0) && Leaves(y, n) && Eval(On(w, vs), k, Seq(x, y), fuel).Some?
    ensures Exec(Seq(x, y), w, fuel) == Some(out) && Shaped(n, out.vs)
    ensures Continues(w, vs, k, Seq(x, y), fuel, out.w, Seen(n, out.vs) + vs, rest)
    decreases fuel, 0, 0
  {
    hide Eval, Leaves;
    StepSeq(On(w, vs), k, x, y, fuel);
    var o1, r1 := Cps(x, 0, w, vs, Then(y, k), fuel - 1);
    assert o1.vs + vs == vs;
    var r2 := ThenSkip(On(o1.w, vs), y, k, r1);
    var o2;
    o2, rest := Cps(y, n, o1.w, vs, k, r2);
    ExecMore(x, w, fuel - 1, fuel);
    ExecMore(y, o1.w, r2, fuel);
    out := o2;
  }

  /** A body between `push` and `Leave`. */
  lemma {:induction false} CpsInside(e: Expr, n: nat, w: World, vals: map<string, Value>, names: map<string, Kind>,
                                     vs: seq<Value>, k: Expr, fuel: nat)
    returns (out: Outcome, rest: nat)
    requires !w.wary && Leaves(e, n) && Eval(On(w.(st := Push(w.st, vals, names)), vs), k, Seq(e, Leave), fuel).Some?
    ensures Inside(e, w, vals, names, fuel) == Some(out) && Shaped(n, out.vs)
    ensures rest < fuel && !out.w.wary && Eval(On(out.w, Seen(n, out.vs) + vs), Skip, k, rest) ==
      Eval(On(w.(st := Push(w.st, vals, names)), vs), k, Seq(e, Leave), fuel)
    decreases fuel, 0, 0
  {
    hide Eval, Leaves, Exec, Push;
    var w0 := w.(st := Push(w.st, vals, names));
    StepSeq(On(w0, vs), k, e, Leave, fuel);
    var o1, r1 := Cps(e, n, w0, vs, Then(Leave, k), fuel - 1);
    var r2 := ThenSkip(On(o1.w, Seen(n, o1.vs) + vs), Leave, k, r1);
    ExecMore(e, w0, fuel - 1, fuel);
    StepLeave(On(o1.w, Seen(n, o1.vs) + vs), k, r2);
    out, rest := Outcome(o1.w.(st := PopScope(o1.w.st).value), o1.vs), r2 - 1;
  }

  lemma StepLeave(c: Config, k: Expr, fuel: nat)
    requires Eval(c, k, Leave, fuel).Some?
    ensures fuel > 0 && PopScope(c.st).Some?
    ensures Eval(c, k, Leave, fuel) == Eval(c.(st := PopScope(c.st).value), Skip, k, fuel - 1)
  {
  }

  lemma {:induction false} WithInitsLeaves(ds: seq<(string, Option<Expr>)>, body: Expr, n: nat)
    requires Leaves(body, n) && forall d :: d in ds && d.1.Some? ==> Leaves(d.1.value, 1)
    ensures Leaves(WithInits(ds, body), n)
  {
    if ds != [] {
      WithInitsLeaves(ds[1..], body, n);
      if ds[0].1.Some? {
        assert ds[0] in ds;
        InitLeaves(ds[0].0, ds[0].1.value, WithInits(ds[1..], body), n);
      }
    }
  }

  lemma InitLeaves(x: string, e: Expr, rest: Expr, n: nat)
    requires Leaves(e, 1) && Leaves(rest, n)
    ensures Leaves(Seq(Ignore(Assign(Ref(x), e)), rest), n)
  {
    assert Leaves(Ref(x), 2) && Leaves(Assign(Ref(x), e), 1);
    assert Leaves(Ignore(Assign(Ref(x), e)), 0);
  }

  lemma {:induction false} CpsScope(e: Expr, n: nat, w: World, vs: seq<Value>, k: Expr, fuel: nat)
    returns (out: Outcome, rest: nat)
    requires !w.wary && e.Scope? && Leaves(e, n) && Eval(On(w, vs), k, e, fuel).Some?
    ensures Exec(e, w, fuel) == Some(out) && Shaped(n, out.vs)
    ensures Continues(w, vs, k, e, fuel, out.w, Seen(n, out.vs) + vs, rest)
    decreases fuel, 0, 0
  {
    hide Inside;
    var body, names := WithInits(e.decls, e.body), map x | x in Declared(e.decls) :: Mut;
    WithInitsLeaves(e.decls, e.body, n);
    StepScope(On(w, vs), k, e, fuel);
    out, rest := CpsInside(body, n, w, map[], names, vs, k, fuel - 1);
    InsideMore(body, w, map[], names, fuel - 1, fuel);
  }

  lemma StepScope(c: Config, k: Expr, e: Expr, fuel: nat)
    requires e.Scope? && Eval(c, k, e, fuel).Some?
    ensures fuel > 0
    ensures Eval(c, k, e, fuel) ==
      Eval(c.(st := Push(c.st, map[], map x | x in Declared(e.decls) :: Mut)), k,
        Seq(WithInits(e.decls, e.body), Leave), fuel - 1)
  {
  }

  lemma InsideMore(e: Expr, w: World, vals: map<string, Value>, names: map<string, Kind>, fuel: nat, more: nat)
    requires fuel <= more && Inside(e, w, vals, names, fuel).Some?
    ensures Inside(e, w, vals, names, more) == Inside(e, w, vals, names, fuel)
  {
    hide Exec;
    ExecMore(e, w.(st := Push(w.st, vals, names)), fuel, more);
  }

  /** Pattern matching: the selected branch runs inside the intrinsic, with the continuation. */
  lemma {:induction false} CpsCase(e: Expr, n: nat, w: World, vs: seq<Value>, k: Expr, fuel: nat)
    returns (out: Outcome, rest: nat)
    requires !w.wary && e.Case? && Leaves(e, n) && Eval(On(w, vs), k, e, fuel).Some?
    ensures Exec(e, w, fuel) == Some(out) && Shaped(n, out.vs)
    ensures Continues(w, vs, k, e, fuel, out.w, Seen(n, out.vs) + vs, rest)
    decreases fuel, 0, 0
  {
    hide Eval, Schedule, ExecBranches, Select;
    var x, brs := e.scrutinee, e.branches;
    var i := Intrinsic(Match(brs, k));
    StepCase(On(w, vs), k, e, fuel);
    var w1, v, r1 := CpsOne(x, i, w, vs, Skip, fuel - 1);
    ExecValueMore(x, w, fuel - 1, fuel);
    assert ([v] + vs)[1..] == vs;
    StepMatch(On(w1, [v] + vs), brs, k, r1);
    var (m, names, body) := Select(brs, v, w1.store).value;
    SelectBranch(brs, v, w1, n, fuel);
    out, rest := CpsInside(body, n, w1, m, names, vs, k, r1 - 1);
    InsideMore(body, w1, m, names, r1 - 1, fuel);
  }

  lemma StepCase(c: Config, k: Expr, e: Expr, fuel: nat)
    requires e.Case? && Eval(c, k, e, fuel).Some?
    ensures fuel > 0
    ensures Eval(c, k, e, fuel) == Eval(c, Skip, Schedule([e.scrutinee, Intrinsic(Match(e.branches, k))]), fuel - 1)
  {
  }

  lemma StepMatch(c: Config, brs: seq<(Pattern, Expr)>, k: Expr, fuel: nat)
    requires Eval(c, Skip, Intrinsic(Match(brs, k)), fuel).Some?
    ensures fuel > 0 && |c.vs| > 0 && Select(brs, c.vs[0], c.store).Some?
    ensures var (m, names, body) := Select(brs, c.vs[0], c.store).value;
      Eval(c, Skip, Intrinsic(Match(brs, k)), fuel) ==
        Eval(c.(st := Push(c.st, m, names), vs := c.vs[1..]), k, Seq(body, Leave), fuel - 1)
  {
  }

  lemma {:induction false} SelectBranch(brs: seq<(Pattern, Expr)>, v: Value, w: World, n: nat, fuel: nat)
    requires !w.wary && Select(brs, v, w.store).Some? && forall b :: b in brs ==> Leaves(b.1, n)
    ensures var (m, names, body) := Select(brs, v, w.store).value;
      Leaves(body, n) && ExecBranches(brs, v, w, fuel) == Inside(body, w, m, names, fuel)
  {
    hide Inside, Leaves, MatchPattern;
    assert brs[0] in brs;
    if MatchPattern(brs[0].0, v, w.store, Some(map[])).None? {
      SelectBranch(brs[1..], v, w, n, fuel);
    }
  }

  /** `eval conf k e` is `e`, then `k`: whenever the reference evaluator finishes on a
      well-attributed expression, direct evaluation of the expression finishes, and what is
      left is the continuation on the values it pushed. */
  lemma {:induction false} Cps(e: Expr, n: nat, w: World, vs: seq<Value>, k: Expr, fuel: nat)
    returns (out: Outcome, rest: nat)
    requires !w.wary && Leaves(e, n) && Eval(On(w, vs), k, e, fuel).Some?
    ensures Exec(e, w, fuel) == Some(out) && Shaped(n, out.vs)
    ensures Continues(w, vs, k, e, fuel, out.w, Seen(n, out.vs) + vs, rest)
    decreases fuel, 0, 1
  {
    hide Eval, Exec, Continues, Seen, Shaped;
    if n < 2 {
      SeenPlain(n);
    }
    match e
    case Binop(_, _, _) => out, rest := CpsOperands(e, w, vs, k, fuel);
    case Elem(_, _) => out, rest := CpsOperands(e, w, vs, k, fuel);
    case ElemRef(_, _) => out, rest := CpsElemRef(e, w, vs, k, fuel);
    case Array(_) => out, rest := CpsItems(e, w, vs, k, fuel);
    case Sexp(_, _) => out, rest := CpsItems(e, w, vs, k, fuel);
    case Call(_, _) => out, rest := CpsCall(e, w, vs, k, fuel);
    case Assign(_, _) => out, rest := CpsAssign(e, w, vs, k, fuel);
    case Seq(x, y) => out, rest := CpsSeq(x, y, n, w, vs, k, fuel);
    case Ignore(_) => out, rest := CpsIf(e, n, w, vs, k, fuel);
    case If(_, _, _) => out, rest := CpsIf(e, n, w, vs, k, fuel);
    case While(x, s) =>
      out, rest := CpsWhile(x, s, w, vs, k, fuel);
      assert out.vs + vs == vs;
    case DoWhile(s, x) => out, rest := CpsDoWhile(s, x, w, vs, k, fuel);
    case Case(_, _, _) => out, rest := CpsCase(e, n, w, vs, k, fuel);
    case Scope(_, _) => out, rest := CpsScope(e, n, w, vs, k, fuel);
    case _ => out, rest := CpsLeaf(e, n, w, vs, k, fuel);
  }

  lemma SeenPlain(n: nat)
    requires n < 2
    ensures forall vs :: Seen(n, vs) == vs && (Shaped(n, vs) <==> |vs| == n)
  {
  }

  lemma CpsLeaf(e: Expr, n: nat, w: World, vs: seq<Value>, k: Expr, fuel: nat)
    returns (out: Outcome, rest: nat)
    requires e.Const? || e.Str? || e.Var? || e.Ref? || e.Skip? || e.Lambda?
    requires !w.wary && Leaves(e, n) && Eval(On(w, vs), k, e, fuel).Some?
    ensures Exec(e, w, fuel) == Some(out) && Shaped(n, out.vs)
    ensures Continues(w, vs, k, e, fuel, out.w, Seen(n, out.vs) + vs, rest)
  {
    out := Exec(e, w, fuel).value;
    rest := if e.Skip? && k.Skip? then fuel else fuel - 1;
    assert [] + vs == vs;
  }

  lemma StepDoWhile(c: Config, k: Expr, s: Expr, x: Expr, fuel: nat)
    requires Eval(c, k, DoWhile(s, x), fuel).Some?
    ensures fuel > 0 && Eval(c, k, DoWhile(s, x), fuel) == Eval(c, Then(While(x, s), k), s, fuel - 1)
  {
  }

  lemma {:induction false} CpsDoWhile(s: Expr, x: Expr, w: World, vs: seq<Value>, k: Expr, fuel: nat)
    returns (out: Outcome, rest: nat)
    requires !w.wary && Leaves(x, 1) && Leaves(s, 0) && Eval(On(w, vs), k, DoWhile(s, x), fuel).Some?
    ensures Exec(DoWhile(s, x), w, fuel) == Some(out) && out.vs == []
    ensures Continues(w, vs, k, DoWhile(s, x), fuel, out.w, out.vs + vs, rest)
    decreases fuel, 0, 0
  {
    var e := While(x, s);
    hide Eval, Leaves, Exec, Seen, Shaped;
    SeenPlain(0);
    StepDoWhile(On(w, vs), k, s, x, fuel);
    var o1, r1 := Cps(s, 0, w, vs, Then(e, k), fuel - 1);
    assert o1.vs + vs == vs;
    var r2 := ThenSkip(On(o1.w, vs), e, k, r1);
    out, rest := CpsWhile(x, s, o1.w, vs, k, r2);
    ExecMore(s, w, fuel - 1, fuel);
    ExecMore(e, o1.w, r2, fuel);
    DoWhileTurns(x, s, w, fuel);
    assert out.vs + vs == vs;
  }
}

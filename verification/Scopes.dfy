/** Scopes of the reference evaluator against the compiler's scopes, globals and local slots. */
module Scopes {
  import opened Wrappers
  import opened Syntax
  import opened Reference
  import opened Compiler
  import opened Correspondence

  /** Slots of open scopes are distinct and below `top`, inner scopes above outer ones. */
  ghost predicate Fits(st: Names, top: nat) {
    match st
    case LocalNames(slots, base, up) =>
      && base <= top && Fits(up, base)
      && (forall x :: x in slots ==> base <= slots[x] < top)
      && (forall x, y :: x in slots && y in slots && slots[x] == slots[y] ==> x == y)
    case _ => true
  }

  ghost predicate GlobalAgrees(f: Renaming, names: map<string, Kind>, vals: map<string, Value>, d: Designation,
                               globals: map<string, Value>, x: string)
    requires x in names
  {
    match d
    case GlobalVar(y) =>
      y == x && (x in vals ==> Known(f, vals[x]) && x in globals && globals[x] == Rename(f, vals[x]))
    case Fun(g) => names[x] == FVal && g == "L" + x && x in vals && vals[x] == BuiltinValue(x)
    case LocalVar(_) => false
  }

  ghost predicate LocalAgrees(f: Renaming, v: Value, slot: nat, locals: seq<Value>) {
    slot < |locals| && Known(f, v) && locals[slot] == Rename(f, v)
  }

  /** Every defined variable is where the compiler expects it. */
  ghost predicate Agree(f: Renaming, w: State, st: Names, globals: map<string, Value>, locals: seq<Value>)
    decreases w
  {
    match (w, st)
    case (Global(names, vals), GlobalNames(ds)) =>
      names.Keys == ds.Keys && forall x :: x in ds ==> GlobalAgrees(f, names, vals, ds[x], globals, x)
    case (Local(names, vals, up), LocalNames(slots, base, st')) =>
      && names.Keys == slots.Keys
      && (forall x :: x in slots && x in vals ==> LocalAgrees(f, vals[x], slots[x], locals))
      && Agree(f, up, st', globals, locals)
    case _ => false
  }

  lemma {:induction false} AgreeGrown(f: Renaming, g: Renaming, w: State, st: Names, globals: map<string, Value>,
      locals: seq<Value>)
    requires f <= g && Agree(f, w, st, globals, locals)
    ensures Agree(g, w, st, globals, locals)
    decreases w
  {
    match (w, st)
    case (Global(names, vals), GlobalNames(ds)) =>
      forall x | x in ds ensures GlobalAgrees(g, names, vals, ds[x], globals, x) {
        assert GlobalAgrees(f, names, vals, ds[x], globals, x);
      }
    case (Local(names, vals, up), LocalNames(slots, base, st')) =>
      AgreeGrown(f, g, up, st', globals, locals);
      forall x | x in slots && x in vals ensures LocalAgrees(g, vals[x], slots[x], locals) {
        assert LocalAgrees(f, vals[x], slots[x], locals);
      }
  }

  /** Slots from `top` on are free. */
  lemma {:induction false} AgreeBelow(f: Renaming, w: State, st: Names, globals: map<string, Value>, locals: seq<Value>,
                                      locals': seq<Value>, top: nat)
    requires Agree(f, w, st, globals, locals) && Fits(st, top)
    requires |locals'| == |locals| && forall j :: 0 <= j < top && j < |locals| ==> locals'[j] == locals[j]
    ensures Agree(f, w, st, globals, locals')
    decreases w
  {
    if w.Local? && st.LocalNames? {
      AgreeBelow(f, w.up, st.up, globals, locals, locals', st.base);
      forall x | x in st.slots && x in w.vals ensures LocalAgrees(f, w.vals[x], st.slots[x], locals') {
        assert LocalAgrees(f, w.vals[x], st.slots[x], locals);
      }
    }
  }

  /** Where a variable is looked up by either side. */
  lemma {:induction false} LookupAgrees(f: Renaming, w: State, st: Names, globals: map<string, Value>,
      locals: seq<Value>, x: string)
    requires Agree(f, w, st, globals, locals) && Lookup(w, x).Some?
    requires Resolve(st, x).Some?
    ensures match Resolve(st, x).value
      case GlobalVar(y) => y in globals && Known(f, Lookup(w, x).value) && globals[y] == Rename(f, Lookup(w, x).value)
      case LocalVar(j) => LocalAgrees(f, Lookup(w, x).value, j, locals)
      case Fun(g) => g == "L" + x && Lookup(w, x).value == BuiltinValue(x)
    decreases w
  {
    match (w, st)
    case (Global(names, vals), GlobalNames(ds)) =>
      assert GlobalAgrees(f, names, vals, ds[x], globals, x);
    case (Local(names, vals, up), LocalNames(slots, base, st')) =>
      if x !in names {
        LookupAgrees(f, up, st', globals, locals, x);
      } else {
        assert LocalAgrees(f, vals[x], slots[x], locals);
      }
  }

  /** A name that the compiler takes for a function is a builtin. */
  lemma {:induction false} FunAgrees(f: Renaming, w: State, st: Names, globals: map<string, Value>, locals: seq<Value>,
      x: string)
    requires Agree(f, w, st, globals, locals) && Resolve(st, x).Some? && Resolve(st, x).value.Fun?
    ensures Resolve(st, x) == Some(Fun("L" + x)) && Lookup(w, x) == Some(BuiltinValue(x))
    decreases w
  {
    match (w, st)
    case (Global(names, vals), GlobalNames(ds)) =>
      assert GlobalAgrees(f, names, vals, ds[x], globals, x);
    case (Local(names, vals, up), LocalNames(slots, base, st')) =>
      FunAgrees(f, up, st', globals, locals, x);
  }

  /** The two stores of variables after `x` has been assigned on both sides. */
  function Stored(d: Designation, v: Value, globals: map<string, Value>, locals: seq<Value>)
    : (map<string, Value>, seq<Value>)
  {
    match d
    case GlobalVar(y) => (globals[y := v], locals)
    case LocalVar(j) => (globals, if j < |locals| then locals[j := v] else locals)
    case Fun(_) => (globals, locals)
  }

  lemma {:induction false} UpdateAgrees(f: Renaming, w: State, st: Names, globals: map<string, Value>,
      locals: seq<Value>, x: string, v: Value, top: nat)
    requires Agree(f, w, st, globals, locals) && Update(w, x, v).Some? && Known(f, v)
    requires Fits(st, top) && top <= |locals|
    ensures Resolve(st, x).Some? && !Resolve(st, x).value.Fun?
    ensures Resolve(st, x).value.LocalVar? ==> Resolve(st, x).value.index < top
    ensures var (globals', locals') := Stored(Resolve(st, x).value, Rename(f, v), globals, locals);
      Agree(f, Update(w, x, v).value, st, globals', locals')
    decreases w
  {
    match (w, st)
    case (Global(names, vals), GlobalNames(ds)) =>
      assert GlobalAgrees(f, names, vals, ds[x], globals, x);
      var w' := Update(w, x, v).value;
      var globals' := globals[x := Rename(f, v)];
      forall y | y in ds ensures GlobalAgrees(f, w'.names, w'.vals, ds[y], globals', y) {
        assert GlobalAgrees(f, names, vals, ds[y], globals, y);
      }
    case (Local(names, vals, up), LocalNames(slots, base, st')) =>
      var w' := Update(w, x, v).value;
      if x in names {
        var locals' := locals[slots[x] := Rename(f, v)];
        AgreeBelow(f, up, st', globals, locals, locals', base);
        forall y | y in slots && y in w'.vals ensures LocalAgrees(f, w'.vals[y], slots[y], locals') {
          if y != x {
            assert LocalAgrees(f, vals[y], slots[y], locals);
          }
        }
      } else {
        UpdateAgrees(f, up, st', globals, locals, x, v, base);
        var (globals', locals') := Stored(Resolve(st', x).value, Rename(f, v), globals, locals);
        forall y | y in slots && y in vals ensures LocalAgrees(f, vals[y], slots[y], locals') {
          assert LocalAgrees(f, vals[y], slots[y], locals);
        }
      }
  }

  // Opening and closing scopes

  lemma {:induction false} SlotsOf(xs: seq<string>, base: nat)
    ensures forall x :: x in Slots(xs, base) <==> x in xs
    ensures forall x :: x in Slots(xs, base) ==>
      base <= Slots(xs, base)[x] < base + |xs| && xs[Slots(xs, base)[x] - base] == x
    decreases |xs|
  {
    if xs != [] {
      var ys := xs[..|xs| - 1];
      SlotsOf(ys, base);
      assert xs == ys + [xs[|xs| - 1]];
    }
  }

  lemma OpenFits(st: Names, xs: seq<string>, top: nat)
    requires Fits(st, top) && !st.NoNames?
    ensures Fits(Open(st, xs, top), Above(st, xs, top))
  {
    SlotsOf(xs, top);
  }

  /** A scope whose variables, if defined, are in their slots already. */
  lemma OpenAgrees(f: Renaming, w: State, st: Names, globals: map<string, Value>, locals: seq<Value>,
                   names: map<string, Kind>, vals: map<string, Value>, xs: seq<string>, top: nat)
    requires Agree(f, w, st, globals, locals) && names.Keys == set x | x in xs
    requires forall x :: x in Slots(xs, top) && x in vals ==> LocalAgrees(f, vals[x], Slots(xs, top)[x], locals)
    ensures Agree(f, Push(w, vals, names), Open(st, xs, top), globals, locals)
  {
    hide Slots;
    SlotsOf(xs, top);
    assert Slots(xs, top).Keys == set x | x in xs;
  }

  lemma CloseAgrees(f: Renaming, w: State, st: Names, globals: map<string, Value>, locals: seq<Value>, xs: seq<string>,
      top: nat)
    requires Agree(f, w, Open(st, xs, top), globals, locals) && !st.NoNames?
    ensures w.Local? && Agree(f, w.up, st, globals, locals)
  {
  }

  const BUILTIN_VALUES: map<string, Value> := map f | f in BUILTINS :: BuiltinValue(f)

  /** The outermost scope, with the globals a program starts with. */
  lemma OutermostAgrees(f: Renaming, names: map<string, Kind>, xs: seq<string>, locals: seq<Value>)
    requires names.Keys == set x | x in xs
    ensures Agree(f, Push(Initial, map[], names), Open(NoNames, xs, 0), BUILTIN_VALUES, locals)
  {
    var w, st := Push(Initial, map[], names), Open(NoNames, xs, 0);
    forall x | x in st.names ensures GlobalAgrees(f, w.names, w.vals, st.names[x], BUILTIN_VALUES, x) {
    }
    assert w.names.Keys == st.names.Keys;
  }
}

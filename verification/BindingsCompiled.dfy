/** Compiled pattern bindings store in each named slot what the reference matcher binds. */
module BindingsCompiled {
  import opened Wrappers
  import opened Syntax
  import opened Reference
  import opened StackMachine
  import opened Compiler
  import opened Correspondence
  import opened Scopes

  /** The part of a value that a path leads to. */
  function Follow(store: Store, v: Value, path: seq<nat>): Option<Value>
    decreases path
  {
    if path == [] then Some(v)
    else match ElemOf(store, v, path[0])
      case Some(u) => Follow(store, u, path[1..])
      case None => None
  }

  lemma {:induction false} FollowFurther(store: Store, v: Value, path: seq<nat>, i: nat)
    requires Follow(store, v, path).Some?
    ensures Follow(store, v, path + [i]) == ElemOf(store, Follow(store, v, path).value, i)
    decreases path
  {
    hide ElemOf;
    if path == [] {
      assert path + [i] == [i] && [i][1..] == [];
      assert forall u :: Follow(store, u, []) == Some(u);
    } else {
      assert (path + [i])[1..] == path[1..] + [i];
      FollowFurther(store, ElemOf(store, v, path[0]).value, path[1..], i);
    }
  }

  type Paths = seq<(string, seq<nat>)>

  ghost predicate Named(bs: Paths, x: string) {
    exists i :: 0 <= i < |bs| && bs[i].0 == x
  }

  ghost predicate DistinctNames(bs: Paths) {
    forall i, j :: 0 <= i < j < |bs| ==> bs[i].0 != bs[j].0
  }

  /** `m` extends `m0` by what the paths of `bs` lead to. */
  ghost predicate Binds(m: map<string, Value>, m0: map<string, Value>, bs: Paths, store: Store, v: Value) {
    && (forall x :: x in m <==> x in m0 || Named(bs, x))
    && (forall x :: x in m0 && !Named(bs, x) ==> x in m && m[x] == m0[x])
    && (forall i :: 0 <= i < |bs| ==> bs[i].0 in m && Follow(store, v, bs[i].1) == Some(m[bs[i].0]))
  }

  lemma NamedConcat(a: Paths, b: Paths, x: string)
    ensures Named(a + b, x) <==> Named(a, x) || Named(b, x)
  {
    if Named(a, x) {
      var i :| 0 <= i < |a| && a[i].0 == x;
      assert (a + b)[i].0 == x;
    }
    if Named(b, x) {
      var i :| 0 <= i < |b| && b[i].0 == x;
      assert (a + b)[|a| + i].0 == x;
    }
  }

  lemma DistinctConcat(a: Paths, b: Paths)
    requires DistinctNames(a + b)
    ensures DistinctNames(a) && DistinctNames(b)
    ensures forall i :: 0 <= i < |a| ==> !Named(b, a[i].0)
  {
    forall i, j | 0 <= i < j < |a| ensures a[i].0 != a[j].0 {
      assert (a + b)[i].0 != (a + b)[j].0;
    }
    forall i, j | 0 <= i < j < |b| ensures b[i].0 != b[j].0 {
      assert (a + b)[|a| + i].0 != (a + b)[|a| + j].0;
    }
    forall i, j | 0 <= i < |a| && 0 <= j < |b| ensures a[i].0 != b[j].0 {
      assert (a + b)[i].0 != (a + b)[|a| + j].0;
    }
  }

  lemma BindsConcat(m2: map<string, Value>, m1: map<string, Value>, m0: map<string, Value>, a: Paths, b: Paths,
      store: Store, v: Value)
    requires Binds(m1, m0, a, store, v) && Binds(m2, m1, b, store, v) && DistinctNames(a + b)
    ensures Binds(m2, m0, a + b, store, v)
  {
    hide Follow, Named;
    DistinctConcat(a, b);
    forall x ensures Named(a + b, x) <==> Named(a, x) || Named(b, x) {
      NamedConcat(a, b, x);
    }
    forall i | 0 <= i < |a + b|
      ensures (a + b)[i].0 in m2 && Follow(store, v, (a + b)[i].1) == Some(m2[(a + b)[i].0])
    {
      if i < |a| {
        assert (a + b)[i] == a[i] && !Named(b, a[i].0);
      } else {
        assert (a + b)[i] == b[i - |a|];
      }
    }
  }

  /** A name bound to the value itself on top of the bindings inside it. */
  lemma BindsNamed(m1: map<string, Value>, m0: map<string, Value>, x: string, path: seq<nat>, b: Paths, store: Store,
      v: Value, u: Value)
    requires Binds(m1, m0, b, store, v) && DistinctNames([(x, path)] + b) && Follow(store, v, path) == Some(u)
    ensures Binds(m1[x := u], m0, [(x, path)] + b, store, v)
  {
    hide Follow, Named;
    var a, m := [(x, path)], m1[x := u];
    DistinctConcat(a, b);
    assert a[0].0 == x && !Named(b, x);
    forall y ensures Named(a + b, y) <==> y == x || Named(b, y) {
      NamedConcat(a, b, y);
      assert Named(a, y) <==> y == x by { NamedOne(x, path, y); }
    }
    forall i | 0 <= i < |a + b|
      ensures (a + b)[i].0 in m && Follow(store, v, (a + b)[i].1) == Some(m[(a + b)[i].0])
    {
      if i > 0 {
        assert (a + b)[i] == b[i - 1];
        assert a[0].0 != b[i - 1].0 by { assert (a + b)[0].0 != (a + b)[i].0; }
      }
    }
  }

  lemma NamedOne(x: string, path: seq<nat>, y: string)
    ensures Named([(x, path)], y) <==> y == x
  {
    assert [(x, path)][0].0 == x;
  }

  lemma BindsNothing(m: map<string, Value>, store: Store, v: Value)
    ensures Binds(m, m, [], store, v)
  {
  }

  /** The reference matcher binds every name to the part of the value that its path leads to. */
  lemma {:induction false} MatchBinds(p: Pattern, store: Store, v: Value, path: seq<nat>, u: Value,
      m0: map<string, Value>)
    requires Follow(store, v, path) == Some(u) && DistinctNames(Bindings(p, path))
    requires MatchPattern(p, u, store, Some(m0)).Some?
    ensures Binds(MatchPattern(p, u, store, Some(m0)).value, m0, Bindings(p, path), store, v)
    decreases p
  {
    hide Follow, Binds, DistinctNames;
    match p
    case Named(x, q) =>
      DistinctConcat([(x, path)], Bindings(q, path));
      MatchBinds(q, store, v, path, u, m0);
      BindsNamed(MatchPattern(q, u, store, Some(m0)).value, m0, x, path, Bindings(q, path), store, v, u);
    case PSexp(_, ps) =>
      ElemsAt(store, u);
      MatchListBinds(ps, store, v, path, u, 0, store[u.loc].items, m0);
    case PArray(ps) =>
      ElemsAt(store, u);
      MatchListBinds(ps, store, v, path, u, 0, store[u.loc].items, m0);
    case _ =>
      BindsNothing(m0, store, v);
  }

  lemma ElemsAt(store: Store, u: Value)
    requires u.Obj? && u.loc < |store| && !store[u.loc].Bytes?
    ensures forall j :: 0 <= j < |store[u.loc].items| ==> ElemOf(store, u, 0 + j) == Some(store[u.loc].items[j])
  {
  }

  lemma {:induction false} FailedStaysFailed(ps: seq<Pattern>, vs: seq<Value>, store: Store)
    requires |ps| == |vs|
    ensures MatchList(ps, vs, store, None).None?
    decreases ps
  {
    if ps != [] {
      FailedOnce(ps[0], vs[0], store);
      FailedStaysFailed(ps[1..], vs[1..], store);
    }
  }

  lemma {:induction false} FailedOnce(p: Pattern, v: Value, store: Store)
    ensures MatchPattern(p, v, store, None).None?
    decreases p
  {
    match p
    case Named(_, q) => FailedOnce(q, v, store);
    case PSexp(_, ps) =>
      if v.Obj? && v.loc < |store| && store[v.loc].Sx? && |store[v.loc].items| == |ps| {
        FailedStaysFailed(ps, store[v.loc].items, store);
      }
    case PArray(ps) =>
      if v.Obj? && v.loc < |store| && store[v.loc].Arr? && |store[v.loc].items| == |ps| {
        FailedStaysFailed(ps, store[v.loc].items, store);
      }
    case _ =>
  }

  lemma {:induction false} MatchListBinds(ps: seq<Pattern>, store: Store, v: Value, path: seq<nat>, u: Value, i: nat,
                                          items: seq<Value>, m0: map<string, Value>)
    requires Follow(store, v, path) == Some(u) && DistinctNames(ListBindings(ps, path, i)) && |items| == |ps|
    requires forall j :: 0 <= j < |items| ==> ElemOf(store, u, i + j) == Some(items[j])
    requires MatchList(ps, items, store, Some(m0)).Some?
    ensures Binds(MatchList(ps, items, store, Some(m0)).value, m0, ListBindings(ps, path, i), store, v)
    decreases ps
  {
    hide Follow, Binds, DistinctNames, ElemOf, MatchPattern, Bindings;
    if ps == [] {
      BindsNothing(m0, store, v);
    } else {
      var first := MatchPattern(ps[0], items[0], store, Some(m0));
      if first.None? {
        FailedStaysFailed(ps[1..], items[1..], store);
      }
      var a, b := Bindings(ps[0], path + [i]), ListBindings(ps[1..], path, i + 1);
      DistinctConcat(a, b);
      assert ElemOf(store, u, i + 0) == Some(items[0]);
      FollowFurther(store, v, path, i);
      MatchBinds(ps[0], store, v, path + [i], items[0], m0);
      MatchListBinds(ps[1..], store, v, path, u, i + 1, items[1..], first.value);
      BindsConcat(MatchList(ps, items, store, Some(m0)).value, first.value, m0, a, b, store, v);
    }
  }

  // Names

  lemma {:induction false} NamesOfPattern(p: Pattern, path: seq<nat>, x: string)
    ensures Named(Bindings(p, path), x) <==> x in PatternVars(p)
    decreases p
  {
    hide Named;
    match p
    case Named(y, q) =>
      NamesOfPattern(q, path, x);
      NamedConcat([(y, path)], Bindings(q, path), x);
      NamedOne(y, path, x);
    case PSexp(_, ps) => NamesOfList(ps, path, 0, x);
    case PArray(ps) => NamesOfList(ps, path, 0, x);
    case _ => NoneNamed(x);
  }

  lemma NoneNamed(x: string)
    ensures !Named([], x)
  {
  }

  lemma {:induction false} NamesOfList(ps: seq<Pattern>, path: seq<nat>, i: nat, x: string)
    ensures Named(ListBindings(ps, path, i), x) <==> x in PatternListVars(ps)
    decreases ps
  {
    hide Named;
    if ps == [] {
      NoneNamed(x);
    } else {
      NamesOfPattern(ps[0], path + [i], x);
      NamesOfList(ps[1..], path, i + 1, x);
      NamedConcat(Bindings(ps[0], path + [i]), ListBindings(ps[1..], path, i + 1), x);
    }
  }

  lemma NamesReversed(bs: Paths, x: string)
    ensures x in BoundNames(bs) <==> Named(bs, x)
  {
    if Named(bs, x) {
      var i :| 0 <= i < |bs| && bs[i].0 == x;
      assert BoundNames(bs)[|bs| - 1 - i] == x;
    }
  }

  // The code

  /** `CONST i; ELEM` for every step of the path. */
  lemma {:induction false} PathRuns(P: Prg, a: Machine, pc: nat, path: seq<nat>, f: Renaming, ws: Store, v: Value,
                                    d: Data, s: seq<Value>) returns (d': Data)
    requires Goes(P, a, Machine(pc, d)) && CodeAt(P, pc, PathCode(path))
    requires Stores(f, ws, d.store) && Known(f, v) && d.stack == [Rename(f, v)] + s && Follow(ws, v, path).Some?
    ensures Known(f, Follow(ws, v, path).value)
    ensures d' == d.(stack := [Rename(f, Follow(ws, v, path).value)] + s)
    ensures Goes(P, a, Machine(pc + |PathCode(path)|, d'))
    decreases path
  {
    hide Goes, Stores, CodeAt, ElemOf, Rename, Known;
    if path == [] {
      d' := d;
    } else {
      var u := ElemOf(ws, v, path[0]).value;
      ElemCorresponds(f, ws, d.store, v, path[0]);
      var rest := PathCode(path[1..]);
      assert PathCode(path) == [CONST(path[0])] + ([ELEM] + rest);
      CodeHead(P, pc, CONST(path[0]), [ELEM] + rest);
      CodeHead(P, pc + 1, ELEM, rest);
      var d1 := d.(stack := [Int(path[0])] + d.stack);
      var d2 := d.(stack := [Rename(f, u)] + s);
      Advance(P, a, pc, CONST(path[0]), d, d1);
      assert d1.stack[0] == Int(path[0]) && d1.stack[1] == Rename(f, v) && d1.stack[2..] == s;
      Advance(P, a, pc + 1, ELEM, d1, d2);
      d' := PathRuns(P, a, pc + 2, path[1..], f, ws, u, d2, s);
    }
  }

  /** One binding: `DUP`, the path, `ST`, `DROP`. */
  lemma OneBinding(P: Prg, a: Machine, pc: nat, path: seq<nat>, j: nat, f: Renaming, ws: Store, v: Value,
                   d: Data, s: seq<Value>) returns (d': Data)
    requires Goes(P, a, Machine(pc, d)) && CodeAt(P, pc, [DUP] + PathCode(path) + [ST(LocalVar(j)), DROP])
    requires Stores(f, ws, d.store) && Known(f, v) && d.stack == [Rename(f, v)] + s && Follow(ws, v, path).Some?
    requires j < |d.locals|
    ensures Known(f, Follow(ws, v, path).value)
    ensures d' == d.(locals := d.locals[j := Rename(f, Follow(ws, v, path).value)])
    ensures Goes(P, a, Machine(pc + |PathCode(path)| + 3, d'))
  {
    hide Goes, Stores, CodeAt, Follow, Rename, Known, PathCode;
    var code := PathCode(path);
    CodeSplit(P, pc, [DUP] + code, [ST(LocalVar(j)), DROP]);
    CodeHead(P, pc, DUP, code);
    var pc' := pc + 1 + |code|;
    assert [ST(LocalVar(j)), DROP] == [ST(LocalVar(j))] + [DROP];
    CodeHead(P, pc', ST(LocalVar(j)), [DROP]);
    var d1 := d.(stack := [Rename(f, v)] + d.stack);
    Advance(P, a, pc, DUP, d, d1);
    var d2 := PathRuns(P, a, pc + 1, path, f, ws, v, d1, d.stack);
    var u := Rename(f, Follow(ws, v, path).value);
    var d3 := d2.(locals := d.locals[j := u]);
    Advance(P, a, pc', ST(LocalVar(j)), d2, d3);
    d' := d3.(stack := d.stack);
    assert d3.stack[1..] == d.stack;
    Advance(P, a, pc' + 1, DROP, d3, d');
  }

  /** The slots of the names in `bs` have been filled, and nothing else has changed. */
  ghost predicate Filled(bs: Paths, slots: map<string, nat>, f: Renaming, ws: Store, v: Value, locals: seq<Value>,
      locals': seq<Value>)
  {
    && |locals'| == |locals|
    && (forall i :: 0 <= i < |bs| ==> FilledAt(bs[i], slots, f, ws, v, locals'))
    && (forall j :: 0 <= j < |locals| && (forall i :: 0 <= i < |bs| && bs[i].0 in slots ==> slots[bs[i].0] != j) ==>
      locals'[j] == locals[j])
  }

  ghost predicate FilledAt(b: (string, seq<nat>), slots: map<string, nat>, f: Renaming, ws: Store, v: Value,
      locals: seq<Value>)
  {
    b.0 in slots && Follow(ws, v, b.1).Some? && LocalAgrees(f, Follow(ws, v, b.1).value, slots[b.0], locals)
  }

  lemma {:induction false} BindRuns(P: Prg, a: Machine, pc: nat, st: Names, bs: Paths, f: Renaming, ws: Store, v: Value,
                                    d: Data, s: seq<Value>) returns (d': Data)
    requires Goes(P, a, Machine(pc, d)) && CodeAt(P, pc, BindCode(st, bs))
    requires Stores(f, ws, d.store) && Known(f, v) && d.stack == [Rename(f, v)] + s
    requires st.LocalNames? && Fits(st, |d.locals|) && DistinctNames(bs)
    requires forall i :: 0 <= i < |bs| ==> bs[i].0 in st.slots && Follow(ws, v, bs[i].1).Some?
    ensures d' == d.(locals := d'.locals) && Filled(bs, st.slots, f, ws, v, d.locals, d'.locals)
    ensures Goes(P, a, Machine(pc + |BindCode(st, bs)|, d'))
    decreases |bs|
  {
    hide Goes, Stores, CodeAt, Follow, Rename, Known, PathCode;
    if bs == [] {
      d' := d;
    } else {
      var (x, path) := bs[0];
      var j := st.slots[x];
      var head := [DUP] + PathCode(path) + [ST(LocalVar(j)), DROP];
      var rest := BindCode(st, bs[1..]);
      assert BindCode(st, bs) == head + rest;
      CodeSplit(P, pc, head, rest);
      var d1 := OneBinding(P, a, pc, path, j, f, ws, v, d, s);
      assert [bs[0]] + bs[1..] == bs;
      DistinctConcat([bs[0]], bs[1..]);
      d' := BindRuns(P, a, pc + |head|, st, bs[1..], f, ws, v, d1, s);
      FilledOneMore(bs, st, f, ws, v, d.locals, d1.locals, d'.locals);
    }
  }

  lemma FilledOneMore(bs: Paths, st: Names, f: Renaming, ws: Store, v: Value, locals: seq<Value>, locals1: seq<Value>,
      locals2: seq<Value>)
    requires bs != [] && st.LocalNames? && Fits(st, |locals|) && DistinctNames(bs)
    requires forall i :: 0 <= i < |bs| ==> bs[i].0 in st.slots && Follow(ws, v, bs[i].1).Some?
    requires Known(f, Follow(ws, v, bs[0].1).value)
    requires locals1 == locals[st.slots[bs[0].0] := Rename(f, Follow(ws, v, bs[0].1).value)]
    requires Filled(bs[1..], st.slots, f, ws, v, locals1, locals2)
    ensures Filled(bs, st.slots, f, ws, v, locals, locals2)
  {
    hide Follow, Rename, Known;
    var j0 := st.slots[bs[0].0];
    forall i | 0 <= i < |bs[1..]| && bs[1..][i].0 in st.slots ensures st.slots[bs[1..][i].0] != j0 {
      assert bs[0].0 != bs[i + 1].0;
    }
    assert locals2[j0] == locals1[j0];
    forall i | 0 <= i < |bs| ensures FilledAt(bs[i], st.slots, f, ws, v, locals2) {
      if i > 0 {
        assert FilledAt(bs[1..][i - 1], st.slots, f, ws, v, locals2);
      }
    }
    forall j | 0 <= j < |locals| && (forall i :: 0 <= i < |bs| && bs[i].0 in st.slots ==> st.slots[bs[i].0] != j)
      ensures locals2[j] == locals[j]
    {
      assert st.slots[bs[0].0] != j;
      forall i | 0 <= i < |bs[1..]| && bs[1..][i].0 in st.slots ensures st.slots[bs[1..][i].0] != j {
        assert bs[1..][i] == bs[i + 1];
      }
    }
  }

  /** The scope of a branch, after its slots have been filled. */
  lemma BranchAgrees(st: Names, li: nat, p: Pattern, f: Renaming, w: State, ws: Store, v: Value, m: map<string, Value>,
                     globals: map<string, Value>, locals: seq<Value>, locals': seq<Value>)
    requires Agree(f, w, st, globals, locals) && Fits(st, li) && Binds(m, map[], Bindings(p, []), ws, v)
    requires Filled(Bindings(p, []), Slots(BoundNames(Bindings(p, [])), li), f, ws, v, locals, locals')
    ensures Agree(f, Push(w, m, map x | x in PatternVars(p) :: Unmut), Open(st, BoundNames(Bindings(p, [])), li),
      globals, locals')
  {
    hide Follow, Rename, Known, Bindings, Agree, Fits, Slots, PatternVars, BoundNames, Named;
    var bs := Bindings(p, []);
    var xs := BoundNames(bs);
    var slots := Slots(xs, li);
    SlotsOf(xs, li);
    forall j | 0 <= j < li && j < |locals| ensures locals'[j] == locals[j] {
    }
    AgreeBelow(f, w, st, globals, locals, locals', li);
    forall x | x in slots && x in m ensures LocalAgrees(f, m[x], slots[x], locals') {
      BoundFilled(bs, x, slots, f, ws, v, m, locals, locals');
    }
    forall x ensures x in PatternVars(p) <==> x in xs {
      NamesOfPattern(p, [], x);
      NamesReversed(bs, x);
    }
    OpenAgrees(f, w, st, globals, locals', map x | x in PatternVars(p) :: Unmut, m, xs, li);
  }

  lemma BoundFilled(bs: Paths, x: string, slots: map<string, nat>, f: Renaming, ws: Store, v: Value,
      m: map<string, Value>, locals: seq<Value>, locals': seq<Value>)
    requires Filled(bs, slots, f, ws, v, locals, locals') && Binds(m, map[], bs, ws, v) && x in m && x in slots
    ensures LocalAgrees(f, m[x], slots[x], locals')
  {
    var i :| 0 <= i < |bs| && bs[i].0 == x;
    assert FilledAt(bs[i], slots, f, ws, v, locals');
  }

  /** Every name of the pattern has a slot of the opened scope, and its path leads somewhere. */
  lemma BranchSlots(st: Names, bs: Paths, li: nat, m: map<string, Value>, ws: Store, v: Value)
    requires !st.NoNames? && Binds(m, map[], bs, ws, v)
    ensures Open(st, BoundNames(bs), li).LocalNames?
    ensures forall i :: 0 <= i < |bs| ==> bs[i].0 in Open(st, BoundNames(bs), li).slots && Follow(ws, v, bs[i].1).Some?
  {
    hide Follow, Slots, BoundNames;
    SlotsOf(BoundNames(bs), li);
    forall i | 0 <= i < |bs| ensures bs[i].0 in BoundNames(bs) {
      NamesReversed(bs, bs[i].0);
    }
  }

  /** `bindings`, on a value that the pattern matches: inside the branch, the variables of the
      reference and the slots of the compiler agree. */
  lemma BranchBound(P: Prg, a: Machine, pc: nat, st: Names, li: nat, p: Pattern, f: Renaming, w: State, ws: Store,
      v: Value, d: Data, s: seq<Value>) returns (d': Data)
    requires Goes(P, a, Machine(pc, d))
    requires Stores(f, ws, d.store) && Known(f, v) && d.stack == [Rename(f, v)] + s
    requires MatchPattern(p, v, ws, Some(map[])).Some? && DistinctNames(Bindings(p, []))
    requires Agree(f, w, st, d.globals, d.locals) && Fits(st, li)
    requires CodeAt(P, pc, BindCode(Open(st, BoundNames(Bindings(p, [])), li), Bindings(p, [])) + [DROP])
    requires Above(st, BoundNames(Bindings(p, [])), li) <= |d.locals|
    ensures |d'.locals| == |d.locals| && d' == d.(stack := s, locals := d'.locals)
    ensures Agree(f, Push(w, MatchPattern(p, v, ws, Some(map[])).value, map x | x in PatternVars(p) :: Unmut),
                  Open(st, BoundNames(Bindings(p, [])), li), d.globals, d'.locals)
    ensures Goes(P, a, Machine(pc + |BindCode(Open(st, BoundNames(Bindings(p, [])), li), Bindings(p, []))| + 1, d'))
  {
    hide Goes, Stores, CodeAt, Follow, Rename, Known, MatchPattern, Bindings, BindCode, Agree, Fits, Slots,
      PatternVars, BoundNames, Binds, Filled, DistinctNames;
    var bs := Bindings(p, []);
    var xs := BoundNames(bs);
    var inner := Open(st, xs, li);
    var m := MatchPattern(p, v, ws, Some(map[])).value;
    AgreeNotOutermost(f, w, st, d.globals, d.locals);
    FollowNothing(ws, v);
    MatchBinds(p, ws, v, [], v, map[]);
    OpenFits(st, xs, li);
    FitsMore(inner, Above(st, xs, li), |d.locals|);
    BranchSlots(st, bs, li, m, ws, v);
    CodeSplit(P, pc, BindCode(inner, bs), [DROP]);
    var d1 := BindRuns(P, a, pc, inner, bs, f, ws, v, d, s);
    d' := d1.(stack := s);
    DropTop(P, a, pc + |BindCode(inner, bs)|, d1, d1.stack[0], s);
    BranchAgrees(st, li, p, f, w, ws, v, m, d.globals, d.locals, d'.locals);
    assert |d1.locals| == |d.locals| by { FilledLength(bs, inner.slots, f, ws, v, d.locals, d1.locals); }
  }

  lemma FilledLength(bs: Paths, slots: map<string, nat>, f: Renaming, ws: Store, v: Value, locals: seq<Value>,
      locals': seq<Value>)
    requires Filled(bs, slots, f, ws, v, locals, locals')
    ensures |locals'| == |locals|
  {
  }

  lemma FollowNothing(store: Store, v: Value)
    ensures Follow(store, v, []) == Some(v)
  {
  }

  lemma AgreeNotOutermost(f: Renaming, w: State, st: Names, globals: map<string, Value>, locals: seq<Value>)
    requires Agree(f, w, st, globals, locals)
    ensures !st.NoNames?
  {
  }

  lemma FitsMore(st: Names, top: nat, more: nat)
    requires Fits(st, top) && top <= more
    ensures Fits(st, more)
  {
  }
}

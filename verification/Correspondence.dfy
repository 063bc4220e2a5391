/** Machine values against reference values. The machine allocates strings that the reference
    evaluator does not (the operands of string patterns), so objects correspond through a
    renaming of locations, which grows as both sides allocate. */
module Correspondence {
  import opened Wrappers
  import opened Syntax

  /** `f[i]` is the machine location of the reference object `i`. */
  type Renaming = seq<nat>

  ghost predicate Known(f: Renaming, v: Value) {
    v.Int? || v.Empty? || v.BuiltinValue? || v.VarAt? || (v.Obj? && v.loc < |f|)
  }

  ghost predicate AllKnown(f: Renaming, vs: seq<Value>) {
    forall i :: 0 <= i < |vs| ==> Known(f, vs[i])
  }

  function Rename(f: Renaming, v: Value): Value {
    if v.Obj? && v.loc < |f| then Obj(f[v.loc]) else v
  }

  function RenameAll(f: Renaming, vs: seq<Value>): (r: seq<Value>)
    ensures |r| == |vs|
    ensures forall i :: 0 <= i < |vs| ==> r[i] == Rename(f, vs[i])
  {
    seq(|vs|, i requires 0 <= i < |vs| => Rename(f, vs[i]))
  }

  function RenameObject(f: Renaming, o: Object): Object {
    match o
    case Bytes(text) => o
    case Arr(items) => Arr(RenameAll(f, items))
    case Sx(t, items) => Sx(t, RenameAll(f, items))
  }

  ghost predicate KnownObject(f: Renaming, o: Object) {
    match o
    case Bytes(_) => true
    case Arr(items) => AllKnown(f, items)
    case Sx(_, items) => AllKnown(f, items)
  }

  ghost predicate SameObject(f: Renaming, ws: Store, ms: Store, i: nat)
    requires i < |f| && i < |ws|
  {
    f[i] < |ms| && KnownObject(f, ws[i]) && ms[f[i]] == RenameObject(f, ws[i])
  }

  ghost predicate Stores(f: Renaming, ws: Store, ms: Store) {
    && |f| == |ws|
    && (forall i, j :: 0 <= i < j < |f| ==> f[i] != f[j])
    && (forall i :: 0 <= i < |f| ==> SameObject(f, ws, ms, i))
  }

  lemma RenameGrown(f: Renaming, g: Renaming, v: Value)
    requires f <= g && Known(f, v)
    ensures Known(g, v) && Rename(g, v) == Rename(f, v)
  {
  }

  lemma RenameAllGrown(f: Renaming, g: Renaming, vs: seq<Value>)
    requires f <= g && AllKnown(f, vs)
    ensures AllKnown(g, vs) && RenameAll(g, vs) == RenameAll(f, vs)
  {
    forall i | 0 <= i < |vs| ensures Known(g, vs[i]) && Rename(g, vs[i]) == Rename(f, vs[i]) {
      RenameGrown(f, g, vs[i]);
    }
  }

  lemma RenameObjectGrown(f: Renaming, g: Renaming, o: Object)
    requires f <= g && KnownObject(f, o)
    ensures KnownObject(g, o) && RenameObject(g, o) == RenameObject(f, o)
  {
    if !o.Bytes? {
      RenameAllGrown(f, g, o.items);
    }
  }

  /** The machine may allocate for itself. */
  lemma StoresGarbage(f: Renaming, ws: Store, ms: Store, o: Object)
    requires Stores(f, ws, ms)
    ensures Stores(f, ws, ms + [o])
  {
    hide KnownObject, RenameObject;
    forall i | 0 <= i < |f| ensures SameObject(f, ws, ms + [o], i) {
      assert SameObject(f, ws, ms, i);
    }
  }

  /** Both sides allocate corresponding objects. */
  lemma StoresAllocate(f: Renaming, ws: Store, ms: Store, o: Object) returns (g: Renaming)
    requires Stores(f, ws, ms) && KnownObject(f, o)
    ensures g == f + [|ms|]
    ensures Stores(g, ws + [o], ms + [RenameObject(f, o)])
    ensures Rename(g, Obj(|ws|)) == Obj(|ms|) && Known(g, Obj(|ws|))
  {
    hide KnownObject, RenameObject;
    g := f + [|ms|];
    var ws', ms' := ws + [o], ms + [RenameObject(f, o)];
    forall i | 0 <= i < |g| ensures SameObject(g, ws', ms', i) {
      if i < |f| {
        assert SameObject(f, ws, ms, i);
      }
      RenameObjectGrown(f, g, ws'[i]);
    }
    forall i, j | 0 <= i < j < |g| ensures g[i] != g[j] {
      assert SameObject(f, ws, ms, i);
    }
  }

  // The shared operations respect the correspondence

  lemma ElemCorresponds(f: Renaming, ws: Store, ms: Store, v: Value, i: int)
    requires Stores(f, ws, ms) && ElemOf(ws, v, i).Some?
    ensures Known(f, ElemOf(ws, v, i).value)
    ensures ElemOf(ms, Rename(f, v), i) == Some(Rename(f, ElemOf(ws, v, i).value))
  {
    assert SameObject(f, ws, ms, v.loc);
  }

  lemma SizeCorresponds(f: Renaming, ws: Store, ms: Store, v: Value)
    requires Stores(f, ws, ms) && SizeOf(ws, v).Some?
    ensures SizeOf(ms, Rename(f, v)) == SizeOf(ws, v)
  {
    assert SameObject(f, ws, ms, v.loc);
  }

  lemma SetCorresponds(f: Renaming, ws: Store, ms: Store, v: Value, i: int, x: Value)
    requires Stores(f, ws, ms) && Known(f, x) && SetElem(ws, v, i, x).Some?
    ensures SetElem(ms, Rename(f, v), i, Rename(f, x)).Some?
    ensures Stores(f, SetElem(ws, v, i, x).value, SetElem(ms, Rename(f, v), i, Rename(f, x)).value)
  {
    assert SameObject(f, ws, ms, v.loc);
    var o, l := ws[v.loc], f[v.loc];
    var ws', ms' := SetElem(ws, v, i, x).value, SetElem(ms, Rename(f, v), i, Rename(f, x)).value;
    if !o.Bytes? {
      assert RenameAll(f, o.items[i := x]) == RenameAll(f, o.items)[i := Rename(f, x)];
    }
    forall j | 0 <= j < |f| ensures SameObject(f, ws', ms', j) {
      assert SameObject(f, ws, ms, j);
    }
  }

  lemma BuiltinCorresponds(name: string, f: Renaming, ws: Store, ms: Store, vs: seq<Value>, input: seq<int>,
      output: seq<int>)
    requires Stores(f, ws, ms) && AllKnown(f, vs) && RunBuiltin(name, vs, ws, input, output).Some?
    ensures var (ws', input', output', v) := RunBuiltin(name, vs, ws, input, output).value;
      ws' == ws && Known(f, v) && RunBuiltin(name, RenameAll(f, vs), ms, input, output)
        == Some((ms, input', output', Rename(f, v)))
  {
    if name == "length" {
      SizeCorresponds(f, ws, ms, vs[0]);
    }
  }

  lemma ReverseRename(f: Renaming, vs: seq<Value>)
    ensures RenameAll(f, Reverse(vs)) == Reverse(RenameAll(f, vs))
    ensures Reverse(Reverse(vs)) == vs
  {
  }

  lemma RenameConcat(f: Renaming, a: seq<Value>, b: seq<Value>)
    ensures RenameAll(f, a + b) == RenameAll(f, a) + RenameAll(f, b)
  {
  }
}

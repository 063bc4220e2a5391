/** The library's maps keyed by `flatCompare`: on which words they are maps from identities, and
    what happens on others. */
module FlatKeys {
  import opened Wrappers
  import opened Collection
  import opened FlatOrder

  /** The comparison answers as the words lie. */
  ghost predicate InOrder(S: set<int>) {
    forall p, q :: p in S && q in S ==> Sign(FlatCompare(p, q)) == Sign(p - q)
  }

  /** On words the test is one of distances, and of integers against addresses. */
  lemma InOrderExactly(S: set<int>)
    requires forall p :: p in S ==> IsWord(p)
    ensures InOrder(S) <==>
      forall p, q :: p in S && q in S ==> if p % 2 == 1 && q % 2 == 0 then p < q else Keeps(Gap(p, q))
  {
    forall p, q | p in S && q in S
      ensures Sign(FlatCompare(p, q)) == Sign(p - q) <==>
        if p % 2 == 1 && q % 2 == 0 then p < q else Keeps(Gap(p, q))
    {
      FlatCompareOrders(p, q);
    }
  }

  function Difference(p: int, q: int): int {
    p - q
  }

  lemma DifferenceOrders()
    ensures TotalOrder(Difference)
  {
  }

  // The two comparisons build the same trees

  ghost predicate Keys<V>(t: Tree<int, V>, S: set<int>) {
    Model(t).Keys <= S
  }

  lemma KeysBelow<V>(t: Tree<int, V>, S: set<int>)
    requires t.MNode? && Keys(t, S)
    ensures t.key in S && Keys(t.left, S) && Keys(t.right, S)
  {
    forall k | k in Model(t.left) || k in Model(t.right) ensures k in S {
      assert k in Model(t);
    }
    assert t.key in Model(t);
  }

  lemma {:induction false} InnerSame<V>(t: Tree<int, V>, k: int, v: V, sort: Sort, S: set<int>)
    requires Balanced(t) && Keys(t, S) && k in S && InOrder(S)
    ensures Inner(t, k, v, sort, FlatCompare) == Inner(t, k, v, sort, Difference)
    decreases t
  {
    hide FlatCompare, Keys, Append;
    if t.MNode? {
      KeysBelow(t, S);
      assert Sign(FlatCompare(k, t.key)) == Sign(Difference(k, t.key));
      InnerSame(t.left, k, v, sort, S);
      InnerSame(t.right, k, v, sort, S);
    }
  }

  lemma {:induction false} RemoveSame<V>(t: Tree<int, V>, k: int, sort: Sort, off: V, S: set<int>)
    requires Keys(t, S) && k in S && InOrder(S)
    ensures RemoveColl(t, k, sort, off, FlatCompare) == RemoveColl(t, k, sort, off, Difference)
    decreases t
  {
    hide FlatCompare, Keys, Delete;
    if t.MNode? {
      KeysBelow(t, S);
      assert Sign(FlatCompare(k, t.key)) == Sign(Difference(k, t.key));
      RemoveSame(t.left, k, sort, off, S);
      RemoveSame(t.right, k, sort, off, S);
    }
  }

  lemma {:induction false} FindSame<V>(t: Tree<int, V>, k: int, S: set<int>)
    requires Keys(t, S) && k in S && InOrder(S)
    ensures Find(t, k, FlatCompare) == Find(t, k, Difference)
    decreases t
  {
    hide FlatCompare, Keys;
    if t.MNode? {
      KeysBelow(t, S);
      assert Sign(FlatCompare(k, t.key)) == Sign(Difference(k, t.key));
      FindSame(t.left, k, S);
      FindSame(t.right, k, S);
    }
  }

  ghost predicate OpsIn<V>(ops: seq<Op<int, V>>, S: set<int>) {
    forall i :: 0 <= i < |ops| ==> ops[i].key in S
  }

  lemma {:induction false} RunKeys<V>(ops: seq<Op<int, V>>, sort: Sort, off: V, S: set<int>)
    requires OpsIn(ops, S)
    ensures RunModel(ops, sort, off).Keys <= S
    decreases |ops|
  {
    hide Append;
    if ops != [] {
      RunKeys(ops[..|ops| - 1], sort, off, S);
    }
  }

  lemma {:induction false} RunSame<V(!new)>(ops: seq<Op<int, V>>, sort: Sort, off: V, S: set<int>)
    requires OpsIn(ops, S) && InOrder(S)
    ensures RunTree(ops, sort, off, FlatCompare) == RunTree(ops, sort, off, Difference)
    ensures Keys(RunTree(ops, sort, off, Difference), S)
    decreases |ops|
  {
    hide FlatCompare, TotalOrder, Inner, RemoveColl, Model, RunModel, Collection.Ordered, InOrder;
    DifferenceOrders();
    RunKeys(ops, sort, off, S);
    RunRefines(ops, sort, off, Difference);
    if ops != [] {
      var prev, op := ops[..|ops| - 1], ops[|ops| - 1];
      RunSame(prev, sort, off, S);
      assert op.key in S;
      if op.Add? {
        InnerSame(RunTree(prev, sort, off, Difference), op.key, op.value, sort, S);
      } else {
        RemoveSame(RunTree(prev, sort, off, Difference), op.key, sort, off, S);
      }
    }
  }

  /** On words that are compared as they lie, any run of the library's map answers as a map. */
  lemma FlatAnswers<V(!new)>(ops: seq<Op<int, V>>, off: V, S: set<int>, k: int)
    requires OpsIn(ops, S) && InOrder(S) && k in S
    ensures Find(RunTree(ops, Map, off, FlatCompare), k, FlatCompare) == Latest(ops, k, 0)
  {
    hide FlatCompare, TotalOrder, RunTree, Latest, Find, Bindings, InOrder, Keys;
    DifferenceOrders();
    RunSame(ops, Map, off, S);
    FindSame(RunTree(ops, Map, off, Difference), k, S);
    MapAnswers(ops, off, Difference);
  }

  // Keys that stand for identities

  /** What a map from identities holds after some additions. */
  function Folded<I, V>(adds: seq<(I, V)>): map<I, V> {
    if adds == [] then map[]
    else Folded(adds[..|adds| - 1])[adds[|adds| - 1].0 := adds[|adds| - 1].1]
  }

  /** The additions as the library's map sees them. */
  function Entered<I, V>(adds: seq<(I, V)>, word: I -> int): (ops: seq<Op<int, V>>)
    ensures |ops| == |adds| && forall i :: 0 <= i < |adds| ==> ops[i] == Add(word(adds[i].0), adds[i].1)
  {
    seq(|adds|, i requires 0 <= i < |adds| => Add(word(adds[i].0), adds[i].1))
  }

  ghost predicate Distinct<I(!new)>(word: I -> int, S: set<I>) {
    forall i, j :: i in S && j in S && word(i) == word(j) ==> i == j
  }

  lemma EnteredIn<I(!new), V>(adds: seq<(I, V)>, word: I -> int, S: set<I>)
    requires forall i :: 0 <= i < |adds| ==> adds[i].0 in S
    ensures OpsIn(Entered(adds, word), set i | i in S :: word(i))
  {
    var W := set i | i in S :: word(i);
    forall i | 0 <= i < |adds| ensures Entered(adds, word)[i].key in W {
      assert word(adds[i].0) in W;
    }
  }

  lemma {:induction false} TopFolded<I(!new), V(!new)>(adds: seq<(I, V)>, word: I -> int, S: set<I>, off: V, x: I)
    requires Distinct(word, S) && x in S && forall i :: 0 <= i < |adds| ==> adds[i].0 in S
    ensures Top(Under(RunModel(Entered(adds, word), Map, off), word(x)))
      == if x in Folded(adds) then Some(Folded(adds)[x]) else None
    decreases |adds|
  {
    if adds != [] {
      var n := |adds| - 1;
      assert Entered(adds, word)[..n] == Entered(adds[..n], word);
      TopFolded(adds[..n], word, S, off, x);
    }
  }

  /** As long as the words of the identities are compared as they lie, the library's map is the
      map from identities. */
  lemma IdentityMap<I(!new), V(!new)>(adds: seq<(I, V)>, word: I -> int, S: set<I>, off: V, x: I)
    requires Distinct(word, S) && x in S && forall i :: 0 <= i < |adds| ==> adds[i].0 in S
    requires InOrder(set i | i in S :: word(i))
    ensures Find(RunTree(Entered(adds, word), Map, off, FlatCompare), word(x), FlatCompare)
      == if x in Folded(adds) then Some(Folded(adds)[x]) else None
  {
    hide RunTree, RunModel, Find, InOrder, Folded, FlatCompare, Latest;
    var W := set i | i in S :: word(i);
    EnteredIn(adds, word, S);
    TopFolded(adds, word, S, off, x);
    LatestStacked(Entered(adds, word), word(x), 0, off);
    FlatAnswers(Entered(adds, word), off, W, word(x));
  }

  // Keys that get lost

  /** The integer 0 and two addresses, signed. */
  const ZERO := 1
  const NEAR := -0x1000
  const FAR := -0x2000

  lemma LostOrder()
    ensures FlatCompare(NEAR, ZERO) < 0 && FlatCompare(ZERO, NEAR) < 0
    ensures FlatCompare(FAR, ZERO) < 0 && FlatCompare(ZERO, FAR) < 0 && FlatCompare(FAR, NEAR) < 0
  {
  }

  lemma RunAdd(ops: seq<Op<int, int>>, k: int, v: int)
    ensures RunTree(ops + [Add(k, v)], Map, 0, FlatCompare)
      == Insert(RunTree(ops, Map, 0, FlatCompare), k, v, Map, FlatCompare)
  {
    hide Insert, FlatCompare;
    assert (ops + [Add(k, v)])[..|ops|] == ops;
  }

  function Leaf(k: int, v: int): Tree<int, int> {
    MNode(k, [v], 0, Nil, Nil)
  }

  lemma InsertLeaf(k: int, v: int)
    ensures Insert(Nil, k, v, Map, FlatCompare) == Leaf(k, v) &&
      Inner(Nil, k, v, Map, FlatCompare) == (true, Leaf(k, v))
  {
    assert Append(Map, v, []) == [v];
  }

  lemma InsertLeft(k: int, v: int, l: int, w: int)
    requires FlatCompare(l, k) < 0
    ensures Inner(Leaf(k, v), l, w, Map, FlatCompare) == (true, MNode(k, [v], 1, Leaf(l, w), Nil))
  {
    hide FlatCompare;
    InsertLeaf(l, w);
  }

  /** A third key at the left end of two brings the second to the root. */
  lemma InsertTurns(a: int, b: int, c: int)
    requires Balanced(MNode(ZERO, [a], 1, Leaf(NEAR, b), Nil))
    ensures Inner(MNode(ZERO, [a], 1, Leaf(NEAR, b), Nil), FAR, c, Map, FlatCompare).1
      == MNode(NEAR, [b], 0, Leaf(FAR, c), Leaf(ZERO, a))
  {
    LostOrder();
    hide FlatCompare;
    InsertLeft(NEAR, b, FAR, c);
  }

  lemma NotFound(a: int, b: int, c: int)
    ensures Find(MNode(NEAR, [b], 0, Leaf(FAR, c), Leaf(ZERO, a)), ZERO, FlatCompare) == None
  {
    LostOrder();
    hide FlatCompare;
    assert Find(Leaf(FAR, c), ZERO, FlatCompare) == None;
  }

  lemma LostTrees(a: int, b: int, c: int)
    ensures RunTree([Add(ZERO, a), Add(NEAR, b)], Map, 0, FlatCompare) == MNode(ZERO, [a], 1, Leaf(NEAR, b), Nil)
    ensures RunTree([Add(ZERO, a), Add(NEAR, b), Add(FAR, c)], Map, 0, FlatCompare)
      == MNode(NEAR, [b], 0, Leaf(FAR, c), Leaf(ZERO, a))
  {
    LostOrder();
    hide FlatCompare, RunTree, Inner, Balanced, Leaf;
    assert [] + [Add(ZERO, a)] == [Add(ZERO, a)];
    assert [Add(ZERO, a)] + [Add(NEAR, b)] == [Add(ZERO, a), Add(NEAR, b)];
    assert [Add(ZERO, a), Add(NEAR, b)] + [Add(FAR, c)] == [Add(ZERO, a), Add(NEAR, b), Add(FAR, c)];
    EmptyRun();
    RunAdd([], ZERO, a);
    InsertLeaf(ZERO, a);
    RunAdd([Add(ZERO, a)], NEAR, b);
    InsertLeft(ZERO, a, NEAR, b);
    RunAdd([Add(ZERO, a), Add(NEAR, b)], FAR, c);
    InsertTurns(a, b, c);
  }

  /** When the two addresses have been added, the integer is not found any more. */
  lemma LostKey(a: int, b: int, c: int)
    ensures Find(RunTree([Add(ZERO, a), Add(NEAR, b)], Map, 0, FlatCompare), ZERO, FlatCompare) == Some(a)
    ensures Find(RunTree([Add(ZERO, a), Add(NEAR, b), Add(FAR, c)], Map, 0, FlatCompare), ZERO, FlatCompare) == None
  {
    assert FlatCompare(ZERO, ZERO) == 0;
    hide FlatCompare, RunTree;
    LostTrees(a, b, c);
    NotFound(a, b, c);
  }

  lemma EmptyRun()
    ensures RunTree<int, int>([], Map, 0, FlatCompare) == Nil
  {
  }

  /** Two addresses 2^31 apart are one key: the second value is found under the first. */
  lemma SharedKey(a: int, b: int)
    ensures Find(RunTree([Add(0x4000_0000, a), Add(-0x4000_0000, b)], Map, 0, FlatCompare), 0x4000_0000, FlatCompare)
      == Some(b)
  {
    var p, q := 0x4000_0000, -0x4000_0000;
    AddressesCollide();
    assert FlatCompare(p, p) == 0 && FlatCompare(q, p) == 0;
    hide FlatCompare, RunTree;
    RunAdd([], p, a);
    RunAdd([Add(p, a)], q, b);
    assert [] + [Add(p, a)] == [Add(p, a)] && [Add(p, a)] + [Add(q, b)] == [Add(p, a), Add(q, b)];
    EmptyRun();
    InsertLeaf(p, a);
    assert Append(Map, b, [a]) == [b] + [a];
  }
}

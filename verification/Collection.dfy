/** Maps and sets as AVL trees whose nodes store a balance factor and a stack of values. */
module Collection {
  import opened Wrappers

  datatype Tree<+K, +V> = Nil | MNode(key: K, vals: seq<V>, bf: int, left: Tree<K, V>, right: Tree<K, V>)

  datatype Sort = Map | Set

  /** What `compare` has to be: a total order on keys. */
  ghost predicate TotalOrder<K(!new)>(cmp: (K, K) -> int) {
    && (forall x, y :: cmp(x, y) == 0 <==> x == y)
    && (forall x, y :: cmp(x, y) < 0 <==> cmp(y, x) > 0)
    && (forall x, y, z :: cmp(x, y) < 0 && cmp(y, z) < 0 ==> cmp(x, z) < 0)
  }

  // Shape

  function Height<K, V>(t: Tree<K, V>): nat {
    if t.Nil? then 0 else 1 + Max(Height(t.left), Height(t.right))
  }

  /** The stored factor of the root is left height minus right height. */
  predicate TrueFactor<K, V>(t: Tree<K, V>) {
    t.MNode? ==> t.bf == Height(t.left) - Height(t.right)
  }

  /** Every stored factor is true and lies in -1..1. */
  predicate Balanced<K, V>(t: Tree<K, V>) {
    t.MNode? ==> TrueFactor(t) && -1 <= t.bf <= 1 && Balanced(t.left) && Balanced(t.right)
  }

  /** `rot`: to the left or to the right, with the new factors computed from the old ones. */
  function Rot<K, V>(left: bool, node: Tree<K, V>): Tree<K, V>
    requires node.MNode? && if left then node.right.MNode? else node.left.MNode?
  {
    if left then
      var MNode(k, v, x, l, MNode(rk, rv, y, ll, rr)) := node;
      var x0 := if y > 0 then x + 1 else x - y + 1;
      var y0 := if x0 > 0 then (if y > 0 then x + y + 2 else x + 2) else y + 1;
      MNode(rk, rv, y0, MNode(k, v, x0, l, ll), rr)
    else
      var MNode(k, v, x, MNode(lk, lv, y, ll, rr), r) := node;
      var x0 := if y < 0 then x - 1 else x - y - 1;
      var y0 := if x0 > 0 then y - 1 else (if y < 0 then y + x - 2 else x - 2);
      MNode(lk, lv, y0, ll, MNode(k, v, x0, rr, r))
  }

  /** Rotation keeps factors true, whatever they are. */
  lemma RotTrue<K, V>(left: bool, node: Tree<K, V>)
    requires node.MNode? && (if left then node.right.MNode? else node.left.MNode?)
    requires TrueFactor(node) && TrueFactor(if left then node.right else node.left)
    ensures var t := Rot(left, node); TrueFactor(t) && TrueFactor(if left then t.left else t.right)
  {
    if left {
      var MNode(_, _, _, l, MNode(_, _, _, ll, rr)) := node;
      assert Height(node.right) == 1 + Max(Height(ll), Height(rr));
      assert Height(Rot(left, node).left) == 1 + Max(Height(l), Height(ll));
    } else {
      var MNode(_, _, _, MNode(_, _, _, ll, rr), r) := node;
      assert Height(node.left) == 1 + Max(Height(ll), Height(rr));
      assert Height(Rot(left, node).right) == 1 + Max(Height(rr), Height(r));
    }
  }

  function Append<V>(sort: Sort, v: V, vs: seq<V>): seq<V> {
    if sort.Map? then [v] + vs else [v]
  }

  /** The left subtree has grown too high; it has been put in place. */
  function FixLeft<K, V>(k: K, vs: seq<V>, l: Tree<K, V>, r: Tree<K, V>): (t: Tree<K, V>)
    requires l.MNode? && Balanced(l) && Balanced(r) && Height(l) == Height(r) + 2 && l.bf != 0
    ensures Balanced(t) && Height(t) == Height(l)
  {
    if l.bf > 0 then
      SingleRight(k, vs, l, r);
      Rot(false, MNode(k, vs, 2, l, r))
    else
      DoubleRight(k, vs, l, r);
      Rot(false, MNode(k, vs, 2, Rot(true, l), r))
  }

  function FixRight<K, V>(k: K, vs: seq<V>, l: Tree<K, V>, r: Tree<K, V>): (t: Tree<K, V>)
    requires r.MNode? && Balanced(l) && Balanced(r) && Height(r) == Height(l) + 2 && r.bf != 0
    ensures Balanced(t) && Height(t) == Height(r)
  {
    if r.bf < 0 then
      SingleLeft(k, vs, l, r);
      Rot(true, MNode(k, vs, -2, l, r))
    else
      DoubleLeft(k, vs, l, r);
      Rot(true, MNode(k, vs, -2, l, Rot(false, r)))
  }

  lemma Parts<K, V>(t: Tree<K, V>)
    requires t.MNode? && Balanced(t)
    ensures Balanced(t.left) && Balanced(t.right) && t.bf == Height(t.left) - Height(t.right) && -1 <= t.bf <= 1
    ensures Height(t) == 1 + Max(Height(t.left), Height(t.right))
    ensures t.bf > 0 ==> t.left.MNode?
    ensures t.bf < 0 ==> t.right.MNode?
  {
  }

  lemma Whole<K, V>(t: Tree<K, V>)
    requires t.MNode? && Balanced(t.left) && Balanced(t.right) && TrueFactor(t) && -1 <= t.bf <= 1
    ensures Balanced(t)
  {
  }

  lemma SingleRight<K, V>(k: K, vs: seq<V>, l: Tree<K, V>, r: Tree<K, V>)
    requires l.MNode? && Balanced(l) && Balanced(r) && Height(l) == Height(r) + 2 && l.bf > 0
    ensures var t := Rot(false, MNode(k, vs, 2, l, r)); Balanced(t) && Height(t) == Height(l)
  {
    hide Balanced;
    Parts(l);
    RotTrue(false, MNode(k, vs, 2, l, r));
    var t := Rot(false, MNode(k, vs, 2, l, r));
    Whole(t.right);
    Whole(t);
  }

  lemma SingleLeft<K, V>(k: K, vs: seq<V>, l: Tree<K, V>, r: Tree<K, V>)
    requires r.MNode? && Balanced(l) && Balanced(r) && Height(r) == Height(l) + 2 && r.bf < 0
    ensures var t := Rot(true, MNode(k, vs, -2, l, r)); Balanced(t) && Height(t) == Height(r)
  {
    hide Balanced;
    Parts(r);
    RotTrue(true, MNode(k, vs, -2, l, r));
    var t := Rot(true, MNode(k, vs, -2, l, r));
    Whole(t.left);
    Whole(t);
  }

  /** The inner grandchild ends up at the top of a double rotation. */
  lemma DoubleRight<K, V>(k: K, vs: seq<V>, l: Tree<K, V>, r: Tree<K, V>)
    requires l.MNode? && Balanced(l) && Balanced(r) && Height(l) == Height(r) + 2 && l.bf < 0
    ensures l.right.MNode?
    ensures var t := Rot(false, MNode(k, vs, 2, Rot(true, l), r)); Balanced(t) && Height(t) == Height(l)
  {
    hide Balanced;
    Parts(l);
    Parts(l.right);
    RotTrue(true, l);
    var m := Rot(true, l);
    RotTrue(false, MNode(k, vs, 2, m, r));
    var t := Rot(false, MNode(k, vs, 2, m, r));
    assert t.left == m.left && t.right.left == l.right.right && t.left.right == l.right.left &&
      t.left.left == l.left && t.right.right == r;
    Whole(t.left);
    Whole(t.right);
    Whole(t);
  }

  lemma DoubleLeft<K, V>(k: K, vs: seq<V>, l: Tree<K, V>, r: Tree<K, V>)
    requires r.MNode? && Balanced(l) && Balanced(r) && Height(r) == Height(l) + 2 && r.bf > 0
    ensures r.left.MNode?
    ensures var t := Rot(true, MNode(k, vs, -2, l, Rot(false, r))); Balanced(t) && Height(t) == Height(r)
  {
    hide Balanced;
    Parts(r);
    Parts(r.left);
    RotTrue(false, r);
    var m := Rot(false, r);
    RotTrue(true, MNode(k, vs, -2, l, m));
    var t := Rot(true, MNode(k, vs, -2, l, m));
    assert t.right == m.right && t.left.right == r.left.left && t.right.left == r.left.right &&
      t.right.right == r.right && t.left.left == l;
    Whole(t.left);
    Whole(t.right);
    Whole(t);
  }

  /** The left subtree has become one higher; `bf` is the factor from before. */
  function GrownLeft<K, V>(kk: K, vv: seq<V>, bf: int, ll: Tree<K, V>, r: Tree<K, V>): (t: (bool, Tree<K, V>))
    requires Balanced(ll) && Balanced(r) && bf == Height(ll) - 1 - Height(r) && -1 <= bf <= 1
    requires ll.MNode? && (bf == 1 ==> ll.bf != 0)
    ensures t.1.MNode? && Balanced(t.1) && (t.0 ==> t.1.bf != 0)
    ensures Height(t.1) == 1 + Max(Height(ll) - 1, Height(r)) + if t.0 then 1 else 0
  {
    if bf < 0 then (false, MNode(kk, vv, bf + 1, ll, r))
    else if bf == 1 then (false, FixLeft(kk, vv, ll, r))
    else (true, MNode(kk, vv, bf + 1, ll, r))
  }

  function GrownRight<K, V>(kk: K, vv: seq<V>, bf: int, l: Tree<K, V>, rr: Tree<K, V>): (t: (bool, Tree<K, V>))
    requires Balanced(l) && Balanced(rr) && bf == Height(l) - (Height(rr) - 1) && -1 <= bf <= 1
    requires rr.MNode? && (bf == -1 ==> rr.bf != 0)
    ensures t.1.MNode? && Balanced(t.1) && (t.0 ==> t.1.bf != 0)
    ensures Height(t.1) == 1 + Max(Height(l), Height(rr) - 1) + if t.0 then 1 else 0
  {
    if bf > 0 then (false, MNode(kk, vv, bf - 1, l, rr))
    else if bf == -1 then (false, FixRight(kk, vv, l, rr))
    else (true, MNode(kk, vv, bf - 1, l, rr))
  }

  /** `insertColl`: the flag says whether the tree has become higher. */
  function Inner<K, V>(t: Tree<K, V>, pk: K, v: V, sort: Sort, cmp: (K, K) -> int): (r: (bool, Tree<K, V>))
    requires Balanced(t)
    ensures r.1.MNode? && Balanced(r.1) && Height(r.1) == Height(t) + (if r.0 then 1 else 0)
    ensures r.0 && t.MNode? ==> r.1.bf != 0
  {
    match t
    case Nil => (true, MNode(pk, Append(sort, v, []), 0, Nil, Nil))
    case MNode(kk, vv, bf, l, r) =>
      var c := cmp(pk, kk);
      if c == 0 then (false, MNode(kk, Append(sort, v, vv), bf, l, r))
      else if c < 0 then
        var (grown, ll) := Inner(l, pk, v, sort, cmp);
        if grown then GrownLeft(kk, vv, bf, ll, r) else (false, MNode(kk, vv, bf, ll, r))
      else
        var (grown, rr) := Inner(r, pk, v, sort, cmp);
        if grown then GrownRight(kk, vv, bf, l, rr) else (false, MNode(kk, vv, bf, l, rr))
  }

  function Insert<K, V>(t: Tree<K, V>, pk: K, v: V, sort: Sort, cmp: (K, K) -> int): (r: Tree<K, V>)
    requires Balanced(t)
    ensures Balanced(r)
  {
    Inner(t, pk, v, sort, cmp).1
  }

  // Contents

  /** The stack of values under every key. */
  ghost function Model<K, V>(t: Tree<K, V>): map<K, seq<V>> {
    if t.Nil? then map[] else (Model(t.left) + Model(t.right))[t.key := t.vals]
  }

  ghost predicate Below<K, V>(t: Tree<K, V>, k: K, cmp: (K, K) -> int) {
    forall x :: x in Model(t) ==> cmp(x, k) < 0
  }

  ghost predicate Over<K, V>(t: Tree<K, V>, k: K, cmp: (K, K) -> int) {
    forall x :: x in Model(t) ==> cmp(x, k) > 0
  }

  /** Keys are in order: a search tree. */
  ghost predicate Ordered<K, V>(t: Tree<K, V>, cmp: (K, K) -> int) {
    t.MNode? ==>
      && Ordered(t.left, cmp) && Ordered(t.right, cmp)
      && Below(t.left, t.key, cmp) && Over(t.right, t.key, cmp)
  }

  function Under<K, V>(m: map<K, seq<V>>, k: K): seq<V> {
    if k in m then m[k] else []
  }

  lemma Less<K(!new)>(x: K, y: K, z: K, cmp: (K, K) -> int)
    requires TotalOrder(cmp) && cmp(x, y) < 0 && (cmp(y, z) < 0 || cmp(z, y) > 0)
    ensures cmp(x, z) < 0 && cmp(z, x) > 0
  {
  }

  lemma Either<K(!new)>(x: K, y: K, cmp: (K, K) -> int)
    requires TotalOrder(cmp)
    ensures cmp(x, y) == 0 <==> x == y
    ensures cmp(x, y) < 0 <==> cmp(y, x) > 0
  {
  }

  /** What is under a key, following the order. */
  lemma ModelAt<K(!new), V>(t: Tree<K, V>, k: K, cmp: (K, K) -> int)
    requires TotalOrder(cmp) && t.MNode? && Ordered(t, cmp)
    ensures k in Model(t) <==>
      k == t.key || (cmp(k, t.key) < 0 && k in Model(t.left)) ||
      (cmp(k, t.key) > 0 && k in Model(t.right))
    ensures Under(Model(t), k) == if k == t.key then t.vals
      else if cmp(k, t.key) < 0 then Under(Model(t.left), k) else Under(Model(t.right), k)
  {
    hide TotalOrder;
    Either(k, t.key, cmp);
  }

  /** Maps put together as in a node. */
  ghost function Glue<K, V>(a: map<K, V>, k: K, v: V, b: map<K, V>): map<K, V> {
    (a + b)[k := v]
  }

  lemma GlueRotated<K, V>(a: map<K, V>, k: K, v: V, b: map<K, V>, k': K, v': V, c: map<K, V>)
    requires k != k' && k !in c && k' !in a
    ensures Glue(a, k, v, Glue(b, k', v', c)) == Glue(Glue(a, k, v, b), k', v', c)
  {
  }

  lemma GlueUpdated<K, V>(a: map<K, V>, k: K, v: V, b: map<K, V>, x: K, w: V)
    requires x != k
    ensures x !in b ==> Glue(a[x := w], k, v, b) == Glue(a, k, v, b)[x := w]
    ensures Glue(a, k, v, b[x := w]) == Glue(a, k, v, b)[x := w]
  {
  }

  /** The keys of two neighbouring nodes and of the three subtrees under them. */
  ghost predicate Between<K, V>(a: Tree<K, V>, k: K, b: Tree<K, V>, k': K, c: Tree<K, V>, cmp: (K, K) -> int) {
    && cmp(k, k') < 0 && cmp(k', k) > 0
    && Below(a, k, cmp) && Over(b, k, cmp) && Below(b, k', cmp) && Over(c, k', cmp)
    && Ordered(a, cmp) && Ordered(b, cmp) && Ordered(c, cmp)
  }

  lemma NotAmong<K(!new), V>(a: Tree<K, V>, k: K, b: Tree<K, V>, k': K, c: Tree<K, V>, cmp: (K, K) -> int)
    requires TotalOrder(cmp) && Between(a, k, b, k', c, cmp)
    ensures k != k' && k !in Model(c) && k' !in Model(a)
    ensures Below(a, k', cmp) && Over(c, k, cmp)
  {
    hide TotalOrder, Model, Ordered;
    Either(k, k', cmp);
    forall x | x in Model(a) ensures cmp(x, k') < 0 && x != k' {
      Less(x, k, k', cmp);
      Either(x, k', cmp);
    }
    forall x | x in Model(c) ensures cmp(x, k) > 0 && x != k {
      Less(k, k', x, cmp) by { Either(x, k', cmp); Either(k', x, cmp); }
      Either(x, k, cmp);
    }
  }

  lemma BetweenOrdered<K(!new), V>(a: Tree<K, V>, k: K, vs: seq<V>, x: int, b: Tree<K, V>, k': K, vs': seq<V>, y: int,
      c: Tree<K, V>, cmp: (K, K) -> int)
    requires TotalOrder(cmp) && Between(a, k, b, k', c, cmp)
    ensures Ordered(MNode(k', vs', y, MNode(k, vs, x, a, b), c), cmp)
    ensures Ordered(MNode(k, vs, x, a, MNode(k', vs', y, b, c)), cmp)
  {
    hide TotalOrder;
    NotAmong(a, k, b, k', c, cmp);
  }

  lemma OrderedBetween<K(!new), V>(left: bool, node: Tree<K, V>, cmp: (K, K) -> int)
    requires TotalOrder(cmp) && node.MNode? && (if left then node.right.MNode? else node.left.MNode?)
    requires Ordered(node, cmp)
    ensures left ==> Between(node.left, node.key, node.right.left, node.right.key, node.right.right, cmp)
    ensures !left ==> Between(node.left.left, node.left.key, node.left.right, node.key, node.right, cmp)
  {
    hide TotalOrder;
    if left {
      assert node.right.key in Model(node.right);
      Either(node.key, node.right.key, cmp);
    } else {
      assert node.left.key in Model(node.left);
      Either(node.left.key, node.key, cmp);
    }
  }

  /** Rotation moves no key. */
  lemma RotModel<K(!new), V>(left: bool, node: Tree<K, V>, cmp: (K, K) -> int)
    requires TotalOrder(cmp) && node.MNode? && (if left then node.right.MNode? else node.left.MNode?)
    requires Ordered(node, cmp)
    ensures Model(Rot(left, node)) == Model(node) && Ordered(Rot(left, node), cmp)
  {
    hide TotalOrder, Ordered, Between, Glue;
    OrderedBetween(left, node, cmp);
    var t := Rot(left, node);
    if left {
      var r := node.right;
      NotAmong(node.left, node.key, r.left, r.key, r.right, cmp);
      GlueRotated(Model(node.left), node.key, node.vals, Model(r.left), r.key, r.vals, Model(r.right));
      BetweenOrdered(node.left, node.key, node.vals, t.left.bf, r.left, r.key, r.vals, t.bf, r.right, cmp);
      ModelGlue(t);
      ModelGlue(t.left);
      ModelGlue(node);
      ModelGlue(r);
    } else {
      var l := node.left;
      NotAmong(l.left, l.key, l.right, node.key, node.right, cmp);
      GlueRotated(Model(l.left), l.key, l.vals, Model(l.right), node.key, node.vals, Model(node.right));
      BetweenOrdered(l.left, l.key, l.vals, t.bf, l.right, node.key, node.vals, t.right.bf, node.right, cmp);
      ModelGlue(t);
      ModelGlue(t.right);
      ModelGlue(node);
      ModelGlue(l);
    }
  }

  lemma ModelGlue<K, V>(t: Tree<K, V>)
    requires t.MNode?
    ensures Model(t) == Glue(Model(t.left), t.key, t.vals, Model(t.right))
  {
  }

  /** A node whose subtree has been replaced. */
  lemma LeftReplaced<K(!new), V>(k: K, vs: seq<V>, bf: int, bf': int, l: Tree<K, V>, l': Tree<K, V>, r: Tree<K, V>,
      pk: K, ws: seq<V>, cmp: (K, K) -> int)
    requires TotalOrder(cmp) && Ordered(MNode(k, vs, bf, l, r), cmp) && Ordered(l', cmp)
    requires cmp(pk, k) < 0 && Model(l') == Model(l)[pk := ws]
    ensures Ordered(MNode(k, vs, bf', l', r), cmp) &&
      Model(MNode(k, vs, bf', l', r)) == Model(MNode(k, vs, bf, l, r))[pk := ws]
    ensures Under(Model(MNode(k, vs, bf, l, r)), pk) == Under(Model(l), pk)
  {
    hide TotalOrder, Model, Glue;
    ModelAt(MNode(k, vs, bf, l, r), pk, cmp);
    Either(pk, k, cmp);
    assert pk !in Model(r);
    GlueUpdated(Model(l), k, vs, Model(r), pk, ws);
    ModelGlue(MNode(k, vs, bf', l', r));
    ModelGlue(MNode(k, vs, bf, l, r));
  }

  lemma RightReplaced<K(!new), V>(k: K, vs: seq<V>, bf: int, bf': int, l: Tree<K, V>, r: Tree<K, V>, r': Tree<K, V>,
      pk: K, ws: seq<V>, cmp: (K, K) -> int)
    requires TotalOrder(cmp) && Ordered(MNode(k, vs, bf, l, r), cmp) && Ordered(r', cmp)
    requires cmp(pk, k) > 0 && Model(r') == Model(r)[pk := ws]
    ensures Ordered(MNode(k, vs, bf', l, r'), cmp) &&
      Model(MNode(k, vs, bf', l, r')) == Model(MNode(k, vs, bf, l, r))[pk := ws]
    ensures Under(Model(MNode(k, vs, bf, l, r)), pk) == Under(Model(r), pk)
  {
    hide TotalOrder, Model, Glue;
    ModelAt(MNode(k, vs, bf, l, r), pk, cmp);
    Either(pk, k, cmp);
    GlueUpdated(Model(l), k, vs, Model(r), pk, ws);
    ModelGlue(MNode(k, vs, bf', l, r'));
    ModelGlue(MNode(k, vs, bf, l, r));
  }

  lemma FixLeftModel<K(!new), V>(k: K, vs: seq<V>, l: Tree<K, V>, r: Tree<K, V>, cmp: (K, K) -> int)
    requires l.MNode? && Balanced(l) && Balanced(r) && Height(l) == Height(r) + 2 && l.bf != 0
    requires TotalOrder(cmp) && Ordered(MNode(k, vs, 2, l, r), cmp)
    ensures Ordered(FixLeft(k, vs, l, r), cmp) && Model(FixLeft(k, vs, l, r)) == Model(MNode(k, vs, 2, l, r))
  {
    hide Ordered, Model, Rot;
    OrderedParts(MNode(k, vs, 2, l, r), cmp);
    if l.bf > 0 {
      RotModel(false, MNode(k, vs, 2, l, r), cmp);
    } else {
      DoubleRight(k, vs, l, r);
      RotModel(true, l, cmp);
      SameModel(k, vs, 2, l, r, Rot(true, l), r, cmp);
      RotIsNode(true, l);
      RotModel(false, MNode(k, vs, 2, Rot(true, l), r), cmp);
    }
  }

  lemma FixRightModel<K(!new), V>(k: K, vs: seq<V>, l: Tree<K, V>, r: Tree<K, V>, cmp: (K, K) -> int)
    requires r.MNode? && Balanced(l) && Balanced(r) && Height(r) == Height(l) + 2 && r.bf != 0
    requires TotalOrder(cmp) && Ordered(MNode(k, vs, -2, l, r), cmp)
    ensures Ordered(FixRight(k, vs, l, r), cmp) && Model(FixRight(k, vs, l, r)) == Model(MNode(k, vs, -2, l, r))
  {
    hide Ordered, Model, Rot;
    OrderedParts(MNode(k, vs, -2, l, r), cmp);
    if r.bf < 0 {
      RotModel(true, MNode(k, vs, -2, l, r), cmp);
    } else {
      DoubleLeft(k, vs, l, r);
      RotModel(false, r, cmp);
      SameModel(k, vs, -2, l, r, l, Rot(false, r), cmp);
      RotIsNode(false, r);
      RotModel(true, MNode(k, vs, -2, l, Rot(false, r)), cmp);
    }
  }

  lemma OrderedParts<K(!new), V>(t: Tree<K, V>, cmp: (K, K) -> int)
    requires t.MNode? && Ordered(t, cmp)
    ensures Ordered(t.left, cmp) && Ordered(t.right, cmp)
  {
  }

  lemma RotIsNode<K, V>(left: bool, node: Tree<K, V>)
    requires node.MNode? && if left then node.right.MNode? else node.left.MNode?
    ensures Rot(left, node).MNode?
  {
  }

  lemma SameModel<K(!new), V>(k: K, vs: seq<V>, bf: int, l: Tree<K, V>, r: Tree<K, V>, l': Tree<K, V>, r': Tree<K, V>,
      cmp: (K, K) -> int)
    requires Ordered(MNode(k, vs, bf, l, r), cmp) && Ordered(l', cmp) && Ordered(r', cmp)
    requires Model(l') == Model(l) && Model(r') == Model(r)
    ensures Ordered(MNode(k, vs, bf, l', r'), cmp) && Model(MNode(k, vs, bf, l', r')) == Model(MNode(k, vs, bf, l, r))
  {
  }

  /** One node of an insertion. */
  lemma InnerLeft<K, V>(t: Tree<K, V>, pk: K, v: V, sort: Sort, cmp: (K, K) -> int)
    requires t.MNode? && Balanced(t) && cmp(pk, t.key) < 0
    ensures Balanced(t.left) && Balanced(t.right)
    ensures var (grown, ll) := Inner(t.left, pk, v, sort, cmp);
      && (grown && t.bf == 1 ==> ll.MNode? && Balanced(ll) && Height(ll) == Height(t.right) + 2 && ll.bf != 0)
      && Inner(t, pk, v, sort, cmp).1 == if grown && t.bf == 1 then FixLeft(t.key, t.vals, ll, t.right)
           else MNode(t.key, t.vals, if grown then t.bf + 1 else t.bf, ll, t.right)
  {
    hide FixLeft, GrownRight, Append;
    Parts(t);
    hide Height, Balanced;
  }

  lemma InnerRight<K, V>(t: Tree<K, V>, pk: K, v: V, sort: Sort, cmp: (K, K) -> int)
    requires t.MNode? && Balanced(t) && cmp(pk, t.key) > 0
    ensures Balanced(t.left) && Balanced(t.right)
    ensures var (grown, rr) := Inner(t.right, pk, v, sort, cmp);
      && (grown && t.bf == -1 ==> rr.MNode? && Balanced(rr) && Height(rr) == Height(t.left) + 2 && rr.bf != 0)
      && Inner(t, pk, v, sort, cmp).1 == if grown && t.bf == -1 then FixRight(t.key, t.vals, t.left, rr)
           else MNode(t.key, t.vals, if grown then t.bf - 1 else t.bf, t.left, rr)
  {
    hide FixRight, GrownLeft, Append;
    Parts(t);
    hide Height, Balanced;
  }

  /** Insertion puts the value on the stack of its key (or, for a set, in its place), touches
      no other key, and keeps the keys in order. */
  lemma {:induction false} InnerModel<K(!new), V>(t: Tree<K, V>, pk: K, v: V, sort: Sort, cmp: (K, K) -> int)
    requires TotalOrder(cmp) && Balanced(t) && Ordered(t, cmp)
    ensures var r := Inner(t, pk, v, sort, cmp).1;
      Ordered(r, cmp) && Model(r) == Model(t)[pk := Append(sort, v, Under(Model(t), pk))]
    decreases t
  {
    hide Ordered, Model, Append, Rot, FixLeft, FixRight, Under, Height, TotalOrder, Balanced, GrownLeft, GrownRight;
    match t
    case Nil => NewLeaf(pk, v, sort, cmp);
    case MNode(kk, vv, bf, l, r) =>
      OrderedParts(t, cmp);
      var c := cmp(pk, kk);
      if c == 0 {
        SameKey(t, pk, Append(sort, v, vv), cmp);
      } else if c < 0 {
        InnerLeft(t, pk, v, sort, cmp);
        InnerModel(l, pk, v, sort, cmp);
        var (grown, ll) := Inner(l, pk, v, sort, cmp);
        var ws := Append(sort, v, Under(Model(l), pk));
        LeftReplaced(kk, vv, bf, if grown then bf + 1 else bf, l, ll, r, pk, ws, cmp);
        if grown && bf == 1 {
          FixLeftModel(kk, vv, ll, r, cmp);
        }
      } else {
        Positive(pk, kk, cmp);
        InnerRight(t, pk, v, sort, cmp);
        InnerModel(r, pk, v, sort, cmp);
        var (grown, rr) := Inner(r, pk, v, sort, cmp);
        var ws := Append(sort, v, Under(Model(r), pk));
        RightReplaced(kk, vv, bf, if grown then bf - 1 else bf, l, r, rr, pk, ws, cmp);
        if grown && bf == -1 {
          FixRightModel(kk, vv, l, rr, cmp);
        }
      }
  }

  lemma Positive<K(!new)>(x: K, y: K, cmp: (K, K) -> int)
    requires TotalOrder(cmp) && cmp(x, y) != 0 && !(cmp(x, y) < 0)
    ensures cmp(x, y) > 0
  {
  }

  lemma NewLeaf<K(!new), V>(pk: K, v: V, sort: Sort, cmp: (K, K) -> int)
    ensures var t := MNode(pk, Append(sort, v, []), 0, Nil, Nil);
      Ordered(t, cmp) && Model(t) == Model<K, V>(Nil)[pk := Append(sort, v, Under(Model<K, V>(Nil), pk))]
  {
  }

  lemma SameKey<K(!new), V>(t: Tree<K, V>, pk: K, ws: seq<V>, cmp: (K, K) -> int)
    requires TotalOrder(cmp) && t.MNode? && Ordered(t, cmp) && cmp(pk, t.key) == 0
    ensures var t' := MNode(t.key, ws, t.bf, t.left, t.right); Ordered(t', cmp) && Model(t') == Model(t)[pk := ws]
    ensures Under(Model(t), pk) == t.vals
  {
  }

  // Lookup and removal

  /** `findColl`: the top of the stack, if the key is there and its stack is not empty. */
  function Find<K, V>(t: Tree<K, V>, pk: K, cmp: (K, K) -> int): Option<V> {
    match t
    case Nil => None
    case MNode(kk, vv, _, l, r) =>
      var c := cmp(pk, kk);
      if c == 0 then (if vv == [] then None else Some(vv[0]))
      else Find(if c < 0 then l else r, pk, cmp)
  }

  /** How many keys a lookup compares. */
  function Comparisons<K, V>(t: Tree<K, V>, pk: K, cmp: (K, K) -> int): nat {
    match t
    case Nil => 0
    case MNode(kk, _, _, l, r) =>
      var c := cmp(pk, kk);
      1 + if c == 0 then 0 else Comparisons(if c < 0 then l else r, pk, cmp)
  }

  function Top<V>(vs: seq<V>): Option<V> {
    if vs == [] then None else Some(vs[0])
  }

  lemma {:induction false} FindModel<K(!new), V>(t: Tree<K, V>, k: K, cmp: (K, K) -> int)
    requires TotalOrder(cmp) && Ordered(t, cmp)
    ensures Find(t, k, cmp) == Top(Under(Model(t), k)) && Comparisons(t, k, cmp) <= Height(t)
    decreases t
  {
    hide TotalOrder, Model;
    if t.MNode? {
      ModelAt(t, k, cmp);
      Either(k, t.key, cmp);
      FindModel(t.left, k, cmp);
      FindModel(t.right, k, cmp);
    } else {
      assert Under(Model(t), k) == [] by { NilModel<K, V>(k); }
    }
  }

  lemma NilModel<K, V>(k: K)
    ensures Under(Model<K, V>(Nil), k) == [] && k !in Model<K, V>(Nil)
  {
  }

  function Delete<V>(sort: Sort, off: V, vs: seq<V>): seq<V> {
    if sort.Set? then [off] else if vs == [] then [] else vs[1..]
  }

  /** `removeColl`: nodes stay. */
  function RemoveColl<K, V>(t: Tree<K, V>, pk: K, sort: Sort, off: V, cmp: (K, K) -> int): Tree<K, V> {
    match t
    case Nil => t
    case MNode(kk, vv, bf, l, r) =>
      var c := cmp(pk, kk);
      if c == 0 then MNode(kk, Delete(sort, off, vv), bf, l, r)
      else if c < 0 then MNode(kk, vv, bf, RemoveColl(l, pk, sort, off, cmp), r)
      else MNode(kk, vv, bf, l, RemoveColl(r, pk, sort, off, cmp))
  }

  lemma {:induction false} RemoveShape<K, V>(t: Tree<K, V>, pk: K, sort: Sort, off: V, cmp: (K, K) -> int)
    requires Balanced(t)
    ensures Balanced(RemoveColl(t, pk, sort, off, cmp)) && Height(RemoveColl(t, pk, sort, off, cmp)) == Height(t)
    decreases t
  {
    if t.MNode? {
      RemoveShape(t.left, pk, sort, off, cmp);
      RemoveShape(t.right, pk, sort, off, cmp);
    }
  }

  function Popped<K, V>(m: map<K, seq<V>>, k: K, sort: Sort, off: V): map<K, seq<V>> {
    if k in m then m[k := Delete(sort, off, m[k])] else m
  }

  lemma {:induction false} RemoveModel<K(!new), V>(t: Tree<K, V>, pk: K, sort: Sort, off: V, cmp: (K, K) -> int)
    requires TotalOrder(cmp) && Ordered(t, cmp)
    ensures var r := RemoveColl(t, pk, sort, off, cmp);
      Ordered(r, cmp) && Model(r) == Popped(Model(t), pk, sort, off)
    decreases t
  {
    hide Ordered, Model, Delete, TotalOrder;
    match t
    case Nil => NilModel<K, V>(pk);
    case MNode(kk, vv, bf, l, r) =>
      OrderedParts(t, cmp);
      ModelAt(t, pk, cmp);
      Either(pk, kk, cmp);
      if cmp(pk, kk) == 0 {
        SameKey(t, pk, Delete(sort, off, vv), cmp);
      } else if cmp(pk, kk) < 0 {
        RemoveModel(l, pk, sort, off, cmp);
        var l' := RemoveColl(l, pk, sort, off, cmp);
        if pk in Model(l) {
          LeftReplaced(kk, vv, bf, bf, l, l', r, pk, Delete(sort, off, Model(l)[pk]), cmp);
        } else {
          SameModel(kk, vv, bf, l, r, l', r, cmp);
        }
      } else {
        RemoveModel(r, pk, sort, off, cmp);
        var r' := RemoveColl(r, pk, sort, off, cmp);
        if pk in Model(r) {
          RightReplaced(kk, vv, bf, bf, l, r, r', pk, Delete(sort, off, Model(r)[pk]), cmp);
        } else {
          SameModel(kk, vv, bf, l, r, l, r', cmp);
        }
      }
  }

  // Listing

  /** `contents`, with the items of larger keys collected so far. */
  function Collect<K, V, R>(t: Tree<K, V>, item: (K, seq<V>) -> seq<R>, acc: seq<R>): seq<R> {
    match t
    case Nil => acc
    case MNode(k, vv, _, l, r) => Collect(l, item, item(k, vv) + Collect(r, item, acc))
  }

  function BindingOf<K, V>(k: K, vs: seq<V>): seq<(K, V)> {
    if vs == [] then [] else [(k, vs[0])]
  }

  function ElementOf<K>(k: K, vs: seq<bool>): seq<K> {
    if vs != [] && vs[0] then [k] else []
  }

  /** `bindings`. */
  function Bindings<K, V>(t: Tree<K, V>): seq<(K, V)> {
    Collect(t, BindingOf, [])
  }

  /** `elements`. */
  function Elements<K>(t: Tree<K, bool>): seq<K> {
    Collect(t, ElementOf, [])
  }

  /** At most one item for each key, which tells its key. */
  ghost predicate Keyed<K(!new), V(!new), R(!new)>(item: (K, seq<V>) -> seq<R>, key: R -> K) {
    forall k, vs :: |item(k, vs)| <= 1 && forall x :: x in item(k, vs) ==> key(x) == k
  }

  /** Items in strictly ascending order of keys, one for every key whose stack makes one. */
  ghost predicate Lists<K(!new), V, R(!new)>(L: seq<R>, m: map<K, seq<V>>, item: (K, seq<V>) -> seq<R>, key: R -> K,
      cmp: (K, K) -> int)
  {
    && (forall i, j :: 0 <= i < j < |L| ==> cmp(key(L[i]), key(L[j])) < 0)
    && (forall x :: x in L <==> key(x) in m && x in item(key(x), m[key(x)]))
  }

  lemma {:induction false} CollectAppends<K, V, R>(t: Tree<K, V>, item: (K, seq<V>) -> seq<R>, acc: seq<R>)
    ensures Collect(t, item, acc) == Collect(t, item, []) + acc
    decreases t
  {
    match t
    case Nil =>
    case MNode(k, vv, _, l, r) =>
      CollectAppends(r, item, acc);
      CollectAppends(l, item, item(k, vv) + Collect(r, item, acc));
      CollectAppends(l, item, item(k, vv) + Collect(r, item, []));
      var a, b, c := Collect(l, item, []), item(k, vv), Collect(r, item, []);
      assert a + (b + (c + acc)) == a + (b + c) + acc;
  }

  lemma {:induction false} CollectLists<K(!new), V(!new), R(!new)>(t: Tree<K, V>, item: (K, seq<V>) -> seq<R>,
      key: R -> K, cmp: (K, K) -> int)
    requires TotalOrder(cmp) && Ordered(t, cmp) && Keyed(item, key)
    ensures Lists(Collect(t, item, []), Model(t), item, key, cmp)
    decreases t
  {
    hide TotalOrder, Model, Lists;
    match t
    case Nil => EmptyLists<K, V, R>(item, key, cmp);
    case MNode(k, vv, _, l, r) =>
      CollectLists(l, item, key, cmp);
      CollectLists(r, item, key, cmp);
      CollectAppends(l, item, item(k, vv) + Collect(r, item, []));
      NodeLists(t, Collect(l, item, []), Collect(r, item, []), item, key, cmp);
  }

  lemma EmptyLists<K(!new), V(!new), R(!new)>(item: (K, seq<V>) -> seq<R>, key: R -> K, cmp: (K, K) -> int)
    ensures Lists([], Model<K, V>(Nil), item, key, cmp)
  {
  }

  lemma NodeLists<K(!new), V(!new), R(!new)>(t: Tree<K, V>, A: seq<R>, C: seq<R>, item: (K, seq<V>) -> seq<R>,
      key: R -> K, cmp: (K, K) -> int)
    requires TotalOrder(cmp) && t.MNode? && Ordered(t, cmp) && Keyed(item, key)
    requires Lists(A, Model(t.left), item, key, cmp) && Lists(C, Model(t.right), item, key, cmp)
    ensures Lists(A + (item(t.key, t.vals) + C), Model(t), item, key, cmp)
  {
    hide TotalOrder, Model;
    var B := item(t.key, t.vals);
    var L := A + (B + C);
    assert |B| <= 1;
    forall x | x in A ensures cmp(key(x), t.key) < 0 {
    }
    forall x | x in C ensures cmp(t.key, key(x)) < 0 {
      Either(t.key, key(x), cmp);
    }
    forall i, j | 0 <= i < j < |L| ensures cmp(key(L[i]), key(L[j])) < 0 {
      Spread(A, B, C, t.key, key, cmp, i, j);
    }
    forall x ensures x in L <==> key(x) in Model(t) && x in item(key(x), Model(t)[key(x)]) {
      assert x in L <==> x in A || x in B || x in C;
      ModelAt(t, key(x), cmp);
      Either(key(x), t.key, cmp);
    }
  }

  /** Items below, at and above a key are in order. */
  lemma Spread<K(!new), R>(A: seq<R>, B: seq<R>, C: seq<R>, k: K, key: R -> K, cmp: (K, K) -> int, i: nat, j: nat)
    requires TotalOrder(cmp) && i < j < |A + (B + C)| && |B| <= 1
    requires forall i, j :: 0 <= i < j < |A| ==> cmp(key(A[i]), key(A[j])) < 0
    requires forall i, j :: 0 <= i < j < |C| ==> cmp(key(C[i]), key(C[j])) < 0
    requires forall x :: x in A ==> cmp(key(x), k) < 0
    requires forall x :: x in B ==> key(x) == k
    requires forall x :: x in C ==> cmp(k, key(x)) < 0
    ensures cmp(key((A + (B + C))[i]), key((A + (B + C))[j])) < 0
  {
    hide TotalOrder;
    var L := A + (B + C);
    var x, y := L[i], L[j];
    if j < |A| {
    } else if i < |A| {
      assert x in A;
      if j < |A| + |B| {
        assert y in B;
      } else {
        assert y in C;
        Less(key(x), k, key(y), cmp);
      }
    } else if i < |A| + |B| {
      assert x in B && y in C;
    } else {
      assert x == C[i - |A| - |B|] && y == C[j - |A| - |B|];
    }
  }

  /** `bindings` lists the top value of every key with a value, in strictly ascending order. */
  lemma BindingsSorted<K(!new), V(!new)>(t: Tree<K, V>, cmp: (K, K) -> int)
    requires TotalOrder(cmp) && Ordered(t, cmp)
    ensures var L := Bindings(t);
      && (forall i, j :: 0 <= i < j < |L| ==> cmp(L[i].0, L[j].0) < 0)
      && (forall k, v :: (k, v) in L <==> Top(Under(Model(t), k)) == Some(v))
  {
    hide TotalOrder, Model;
    var key := (p: (K, V)) => p.0;
    var L := Bindings(t);
    CollectLists(t, BindingOf<K, V>, key, cmp);
    forall i, j | 0 <= i < j < |L| ensures cmp(L[i].0, L[j].0) < 0 {
      assert cmp(key(L[i]), key(L[j])) < 0;
    }
    forall k, v ensures (k, v) in L <==> Top(Under(Model(t), k)) == Some(v) {
      assert key((k, v)) == k;
    }
  }

  lemma ElementsSorted<K(!new)>(t: Tree<K, bool>, cmp: (K, K) -> int)
    requires TotalOrder(cmp) && Ordered(t, cmp)
    ensures var L := Elements(t);
      && (forall i, j :: 0 <= i < j < |L| ==> cmp(L[i], L[j]) < 0)
      && (forall k :: k in L <==> Find(t, k, cmp) == Some(true))
  {
    hide TotalOrder, Model, Find;
    var key := (k: K) => k;
    var L := Elements(t);
    CollectLists(t, ElementOf<K>, key, cmp);
    forall i, j | 0 <= i < j < |L| ensures cmp(L[i], L[j]) < 0 {
      assert cmp(key(L[i]), key(L[j])) < 0;
    }
    forall k ensures k in L <==> Find(t, k, cmp) == Some(true) {
      assert key(k) == k;
      FindModel(t, k, cmp);
    }
  }

  // Runs

  datatype Op<+K, +V> = Add(key: K, value: V) | Remove(key: K)

  /** A collection after any run of additions and removals. */
  function RunTree<K, V>(ops: seq<Op<K, V>>, sort: Sort, off: V, cmp: (K, K) -> int): (t: Tree<K, V>)
    ensures Balanced(t)
  {
    if ops == [] then Nil
    else
      var t := RunTree(ops[..|ops| - 1], sort, off, cmp);
      match ops[|ops| - 1]
      case Add(k, v) => Insert(t, k, v, sort, cmp)
      case Remove(k) =>
        RemoveShape(t, k, sort, off, cmp);
        RemoveColl(t, k, sort, off, cmp)
  }

  /** The same run on a map from keys to stacks. */
  function RunModel<K, V>(ops: seq<Op<K, V>>, sort: Sort, off: V): map<K, seq<V>> {
    if ops == [] then map[]
    else
      var m := RunModel(ops[..|ops| - 1], sort, off);
      match ops[|ops| - 1]
      case Add(k, v) => m[k := Append(sort, v, Under(m, k))]
      case Remove(k) => Popped(m, k, sort, off)
  }

  /** A run on trees does what the run on stacks does. */
  lemma {:induction false} RunRefines<K(!new), V(!new)>(ops: seq<Op<K, V>>, sort: Sort, off: V, cmp: (K, K) -> int)
    requires TotalOrder(cmp)
    ensures var t := RunTree(ops, sort, off, cmp); Ordered(t, cmp) && Model(t) == RunModel(ops, sort, off)
    decreases |ops|
  {
    hide TotalOrder, Inner, RemoveColl, Balanced;
    if ops == [] {
      assert RunTree(ops, sort, off, cmp) == Nil;
    } else {
      var prefix := ops[..|ops| - 1];
      var t := RunTree(prefix, sort, off, cmp);
      RunRefines(prefix, sort, off, cmp);
      hide Model, Ordered, Append, Popped;
      match ops[|ops| - 1]
      case Add(k, v) => InnerModel(t, k, v, sort, cmp);
      case Remove(k) => RemoveModel(t, k, sort, off, cmp);
    }
  }

  /** What the public operations on maps answer after any run. `off` plays no part in maps. */
  lemma RunAnswers<K(!new), V(!new)>(ops: seq<Op<K, V>>, off: V, cmp: (K, K) -> int)
    requires TotalOrder(cmp)
    ensures forall k :: Find(RunTree(ops, Map, off, cmp), k, cmp) == Top(Under(RunModel(ops, Map, off), k))
    ensures var L := Bindings(RunTree(ops, Map, off, cmp));
      && (forall i, j :: 0 <= i < j < |L| ==> cmp(L[i].0, L[j].0) < 0)
      && (forall k, v :: (k, v) in L <==> Top(Under(RunModel(ops, Map, off), k)) == Some(v))
  {
    hide TotalOrder, RunTree, RunModel, Find, Bindings, Model, Ordered;
    var t := RunTree(ops, Map, off, cmp);
    RunRefines(ops, Map, off, cmp);
    BindingsSorted(t, cmp);
    forall k ensures Find(t, k, cmp) == Top(Under(RunModel(ops, Map, off), k)) {
      FindModel(t, k, cmp);
    }
  }

  lemma {:induction false} Untouched<K, V>(ops: seq<Op<K, V>>, mid: seq<Op<K, V>>, k: K, sort: Sort, off: V)
    requires forall op :: op in mid ==> op.key != k
    ensures Under(RunModel(ops + mid, sort, off), k) == Under(RunModel(ops, sort, off), k)
    decreases |mid|
  {
    if mid == [] {
      assert ops + mid == ops;
    } else {
      var all := ops + mid;
      assert all[..|all| - 1] == ops + mid[..|mid| - 1];
      Untouched(ops, mid[..|mid| - 1], k, sort, off);
      assert all[|all| - 1] == mid[|mid| - 1];
    }
  }

  /** `removeMap` brings back what the latest `addMap` of the key had shadowed. */
  lemma RemoveRestores<K(!new), V(!new)>(ops: seq<Op<K, V>>, k: K, v: V, mid: seq<Op<K, V>>, off: V, cmp: (K, K) -> int)
    requires TotalOrder(cmp) && forall op :: op in mid ==> op.key != k
    ensures Find(RunTree(ops + [Add(k, v)] + mid, Map, off, cmp), k, cmp) == Some(v)
    ensures Find(RunTree(ops + [Add(k, v)] + mid + [Remove(k)], Map, off, cmp), k, cmp)
      == Find(RunTree(ops, Map, off, cmp), k, cmp)
  {
    hide TotalOrder, RunTree, Find, Bindings;
    var added := ops + [Add(k, v)];
    var before := added + mid;
    var after := before + [Remove(k)];
    assert added[..|added| - 1] == ops && added[|added| - 1] == Add(k, v);
    assert after[..|after| - 1] == before && after[|after| - 1] == Remove(k);
    Untouched(added, mid, k, Map, off);
    RunAnswers(ops, off, cmp);
    RunAnswers(before, off, cmp);
    RunAnswers(after, off, cmp);
    assert Under(RunModel(added, Map, off), k) == [v] + Under(RunModel(ops, Map, off), k);
    assert ([v] + Under(RunModel(ops, Map, off), k))[1..] == Under(RunModel(ops, Map, off), k);
  }

  /** The value that a key has after a run, told from the operations alone: the latest addition
      of the key that no later removal cancels, counting back from the end. `r` removals are
      still to be matched. */
  function Latest<K(==), V>(ops: seq<Op<K, V>>, k: K, r: nat): Option<V> {
    if ops == [] then None
    else
      var init, last := ops[..|ops| - 1], ops[|ops| - 1];
      if last.key != k then Latest(init, k, r)
      else match last
        case Remove(_) => Latest(init, k, r + 1)
        case Add(_, v) => if r > 0 then Latest(init, k, r - 1) else Some(v)
  }

  lemma {:induction false} LatestStacked<K, V>(ops: seq<Op<K, V>>, k: K, r: nat, off: V)
    ensures var vs := Under(RunModel(ops, Map, off), k); Latest(ops, k, r) == if r < |vs| then Some(vs[r]) else None
    decreases |ops|
  {
    if ops != [] {
      var init, last := ops[..|ops| - 1], ops[|ops| - 1];
      LatestStacked(init, k, r, off);
      LatestStacked(init, k, r + 1, off);
      if r > 0 {
        LatestStacked(init, k, r - 1, off);
      }
    }
  }

  /** `findMap` and `bindings` after any run of `addMap` and `removeMap`. */
  lemma MapAnswers<K(!new), V(!new)>(ops: seq<Op<K, V>>, off: V, cmp: (K, K) -> int)
    requires TotalOrder(cmp)
    ensures forall k :: Find(RunTree(ops, Map, off, cmp), k, cmp) == Latest(ops, k, 0)
    ensures var L := Bindings(RunTree(ops, Map, off, cmp));
      && (forall i, j :: 0 <= i < j < |L| ==> cmp(L[i].0, L[j].0) < 0)
      && (forall k, v :: (k, v) in L <==> Latest(ops, k, 0) == Some(v))
  {
    hide TotalOrder, RunTree, RunModel, Find, Bindings, Latest;
    RunAnswers(ops, off, cmp);
    forall k ensures Top(Under(RunModel(ops, Map, off), k)) == Latest(ops, k, 0) {
      LatestStacked(ops, k, 0, off);
    }
  }

  /** A removal of a key without a value leaves it without one. */
  lemma NothingLeft<K(!new), V(!new)>(ops: seq<Op<K, V>>, k: K, off: V, cmp: (K, K) -> int)
    requires TotalOrder(cmp) && Find(RunTree(ops, Map, off, cmp), k, cmp) == None
    ensures Find(RunTree(ops + [Remove(k)], Map, off, cmp), k, cmp) == None
  {
    hide TotalOrder, RunTree, RunModel, Find;
    MapAnswers(ops, off, cmp);
    MapAnswers(ops + [Remove(k)], off, cmp);
    assert (ops + [Remove(k)])[..|ops|] == ops;
    LatestStacked(ops, k, 0, off);
    LatestStacked(ops, k, 1, off);
  }

  lemma {:induction false} RemoveAlike<K, V>(t: Tree<K, V>, k: K, off: V, off': V, cmp: (K, K) -> int)
    ensures RemoveColl(t, k, Map, off, cmp) == RemoveColl(t, k, Map, off', cmp)
    decreases t
  {
    if t.MNode? {
      RemoveAlike(t.left, k, off, off', cmp);
      RemoveAlike(t.right, k, off, off', cmp);
    }
  }

  /** Maps do not depend on what removal leaves in sets. */
  lemma {:induction false} OffUnused<K, V>(ops: seq<Op<K, V>>, off: V, off': V, cmp: (K, K) -> int)
    ensures RunTree(ops, Map, off, cmp) == RunTree(ops, Map, off', cmp)
    decreases |ops|
  {
    hide Inner, RemoveColl, Balanced;
    if ops != [] {
      var init, last := ops[..|ops| - 1], ops[|ops| - 1];
      OffUnused(init, off, off', cmp);
      if last.Remove? {
        RemoveAlike(RunTree(init, Map, off, cmp), last.key, off, off', cmp);
      }
    }
  }

  /** The set that a run of `addSet` and `removeSet` stands for. */
  ghost function Members<K>(ops: seq<Op<K, bool>>): set<K> {
    if ops == [] then {}
    else
      var S := Members(ops[..|ops| - 1]);
      match ops[|ops| - 1]
      case Add(k, _) => S + {k}
      case Remove(k) => S - {k}
  }

  lemma {:induction false} MembersStacked<K(!new)>(ops: seq<Op<K, bool>>, k: K)
    requires forall op :: op in ops && op.Add? ==> op.value
    ensures k in Members(ops) <==> Top(Under(RunModel(ops, Set, false), k)) == Some(true)
    decreases |ops|
  {
    if ops != [] {
      MembersStacked(ops[..|ops| - 1], k);
      assert ops[|ops| - 1] in ops;
    }
  }

  /** `memSet` and `elements` after any run of `addSet` and `removeSet`. */
  lemma SetAnswers<K(!new)>(ops: seq<Op<K, bool>>, cmp: (K, K) -> int)
    requires TotalOrder(cmp) && forall op :: op in ops && op.Add? ==> op.value
    ensures forall k :: Find(RunTree(ops, Set, false, cmp), k, cmp) == Some(true) <==> k in Members(ops)
    ensures var L := Elements(RunTree(ops, Set, false, cmp));
      && (forall i, j :: 0 <= i < j < |L| ==> cmp(L[i], L[j]) < 0)
      && (forall k :: k in L <==> k in Members(ops))
  {
    hide TotalOrder, RunTree, RunModel, Find, Elements, Model, Ordered, Members;
    var t := RunTree(ops, Set, false, cmp);
    RunRefines(ops, Set, false, cmp);
    ElementsSorted(t, cmp);
    forall k ensures Find(t, k, cmp) == Some(true) <==> k in Members(ops) {
      FindModel(t, k, cmp);
      MembersStacked(ops, k);
    }
  }

  // How high

  function Fib(n: nat): nat {
    if n < 2 then n else Fib(n - 1) + Fib(n - 2)
  }

  lemma {:induction false} FibMonotone(a: nat, b: nat)
    requires a <= b
    ensures Fib(a) <= Fib(b)
    decreases b
  {
    if a < b {
      FibMonotone(a, b - 1);
      if b >= 2 {
        assert Fib(b) == Fib(b - 1) + Fib(b - 2);
      }
    }
  }

  function Count<K, V>(t: Tree<K, V>): nat {
    if t.Nil? then 0 else 1 + Count(t.left) + Count(t.right)
  }

  /** A balanced tree of height `h` has at least Fib(h + 2) - 1 nodes. */
  lemma {:induction false} Populous<K, V>(t: Tree<K, V>)
    requires Balanced(t)
    ensures Count(t) + 1 >= Fib(Height(t) + 2)
    decreases t
  {
    hide Balanced, Fib;
    if t.MNode? {
      Parts(t);
      Populous(t.left);
      Populous(t.right);
      var h := Height(t);
      FibStep(h);
      if t.bf >= 0 {
        FibMonotone(h, Height(t.right) + 2);
      } else {
        FibMonotone(h, Height(t.left) + 2);
      }
    } else {
      FibStep(0);
    }
  }

  lemma FibStep(n: nat)
    ensures Fib(n + 2) == Fib(n + 1) + Fib(n) && Fib(2) == 1
  {
  }

  lemma {:induction false} CountKeys<K(!new), V>(t: Tree<K, V>, cmp: (K, K) -> int)
    requires TotalOrder(cmp) && Ordered(t, cmp)
    ensures |Model(t)| == Count(t)
    decreases t
  {
    hide TotalOrder;
    if t.MNode? {
      CountKeys(t.left, cmp);
      CountKeys(t.right, cmp);
      KeysApart(t, cmp);
      hide Model;
      var a, b := Model(t.left).Keys, Model(t.right).Keys;
      assert |Model(t)| == |Model(t).Keys|;
      assert |a + b + {t.key}| == |a| + |b| + 1;
      assert |Model(t.left)| == |a| && |Model(t.right)| == |b|;
    }
  }

  lemma KeysApart<K(!new), V>(t: Tree<K, V>, cmp: (K, K) -> int)
    requires TotalOrder(cmp) && t.MNode? && Ordered(t, cmp)
    ensures Model(t.left).Keys !! Model(t.right).Keys && t.key !in Model(t.left).Keys + Model(t.right).Keys
    ensures Model(t).Keys == Model(t.left).Keys + Model(t.right).Keys + {t.key}
  {
    hide TotalOrder;
    Either(t.key, t.key, cmp);
  }

  /** The keys that were ever added. */
  ghost function Added<K, V>(ops: seq<Op<K, V>>): set<K> {
    set op | op in ops && op.Add? :: op.key
  }

  lemma {:induction false} KeysAdded<K, V>(ops: seq<Op<K, V>>, sort: Sort, off: V)
    ensures RunModel(ops, sort, off).Keys == Added(ops)
    decreases |ops|
  {
    if ops != [] {
      var prefix, last := ops[..|ops| - 1], ops[|ops| - 1];
      KeysAdded(prefix, sort, off);
      assert ops == prefix + [last];
      assert Added(ops) == Added(prefix) + if last.Add? then {last.key} else {};
    }
  }

  /** After any run a lookup compares at most `h` keys, where at least Fib(h + 2) - 1 distinct
      keys have been added. Removals do not count: they keep the nodes. */
  lemma LookupCost<K(!new), V(!new)>(ops: seq<Op<K, V>>, k: K, sort: Sort, off: V, cmp: (K, K) -> int) returns (h: nat)
    requires TotalOrder(cmp)
    ensures Comparisons(RunTree(ops, sort, off, cmp), k, cmp) <= h
    ensures |Added(ops)| + 1 >= Fib(h + 2)
  {
    hide TotalOrder, RunTree, RunModel, Find, Model, Comparisons, Ordered, Fib;
    var t := RunTree(ops, sort, off, cmp);
    h := Height(t);
    RunRefines(ops, sort, off, cmp);
    FindModel(t, k, cmp);
    Populous(t);
    CountKeys(t, cmp);
    KeysAdded(ops, sort, off);
    assert |RunModel(ops, sort, off)| == |RunModel(ops, sort, off).Keys|;
  }

  // The checker of the library

  /** `validateColl`, with what the parent demands of the key; `None` is a failure. */
  function Validate<K, V>(t: Tree<K, V>, verify: K -> bool, cmp: (K, K) -> int): Option<nat>
    decreases t
  {
    match t
    case Nil => Some(0)
    case MNode(k, _, bf, l, r) =>
      if !verify(k) then None
      else
        match (Validate(l, x => cmp(x, k) < 0, cmp), Validate(r, x => cmp(x, k) > 0, cmp))
        case (Some(lh), Some(rh)) => if bf + rh == lh then Some(1 + if lh > rh then lh else rh) else None
        case _ => None
  }

  /** All stored factors are true, and every key is on the right side of its parent's. */
  predicate Plausible<K, V>(t: Tree<K, V>, cmp: (K, K) -> int) {
    t.MNode? ==>
      && TrueFactor(t) && Plausible(t.left, cmp) && Plausible(t.right, cmp)
      && (t.left.MNode? ==> cmp(t.left.key, t.key) < 0) && (t.right.MNode? ==> cmp(t.right.key, t.key) > 0)
  }

  lemma PlausibleNode<K, V>(t: Tree<K, V>, cmp: (K, K) -> int)
    requires t.MNode?
    ensures Plausible(t, cmp) <==>
      t.bf + Height(t.right) == Height(t.left)
      && Plausible(t.left, cmp) && (t.left.MNode? ==> cmp(t.left.key, t.key) < 0)
      && Plausible(t.right, cmp) && (t.right.MNode? ==> cmp(t.right.key, t.key) > 0)
    ensures Height(t) == 1 + Max(Height(t.left), Height(t.right))
  {
  }

  /** The validator accepts exactly the plausible trees. */
  lemma {:induction false} ValidateExact<K, V>(t: Tree<K, V>, verify: K -> bool, cmp: (K, K) -> int)
    ensures Validate(t, verify, cmp) == if Plausible(t, cmp) && (t.MNode? ==> verify(t.key)) then Some(Height(t))
      else None
    decreases t
  {
    if t.MNode? {
      hide Plausible, Height, TrueFactor;
      ValidateExact(t.left, x => cmp(x, t.key) < 0, cmp);
      ValidateExact(t.right, x => cmp(x, t.key) > 0, cmp);
      PlausibleNode(t, cmp);
    }
  }

  /** Every tree that a run makes passes. */
  lemma RunsPass<K(!new), V(!new)>(ops: seq<Op<K, V>>, sort: Sort, off: V, cmp: (K, K) -> int)
    requires TotalOrder(cmp)
    ensures Validate(RunTree(ops, sort, off, cmp), _ => true, cmp) == Some(Height(RunTree(ops, sort, off, cmp)))
  {
    hide TotalOrder, RunTree, RunModel;
    var t := RunTree(ops, sort, off, cmp);
    RunRefines(ops, sort, off, cmp);
    ValidIsPlausible(t, cmp);
    ValidateExact(t, _ => true, cmp);
  }

  lemma {:induction false} ValidIsPlausible<K(!new), V>(t: Tree<K, V>, cmp: (K, K) -> int)
    requires Balanced(t) && Ordered(t, cmp)
    ensures Plausible(t, cmp)
    decreases t
  {
    if t.MNode? {
      ValidIsPlausible(t.left, cmp);
      ValidIsPlausible(t.right, cmp);
      assert t.left.MNode? ==> t.left.key in Model(t.left);
      assert t.right.MNode? ==> t.right.key in Model(t.right);
    }
  }

  function Minus(x: int, y: int): int {
    x - y
  }

  /** The validator looks at neighbouring keys only: it passes a tree that is not a search tree. */
  lemma ValidatorMisses() returns (t: Tree<int, bool>)
    ensures Validate(t, _ => true, Minus) == Some(3) && !Ordered(t, Minus) && !Balanced(t)
  {
    var low: Tree<int, bool> := MNode(3, [], -1, Nil, MNode(9, [], 0, Nil, Nil));
    t := MNode(5, [], 2, low, Nil);
    assert Plausible(t.left.right, Minus) && Plausible(t.left, Minus);
    ValidateExact(t, _ => true, Minus);
    assert 9 in Model(low.right) && 9 in Model(low);
    hide Model;
    assert !Below(low, 5, Minus);
  }
}

/** Comparison of shared and cyclic data (`=?=`): two values compare equal exactly when no
    finite observation tells them apart. */
module Comparison {
  import opened Wrappers
  import FlatOrder

  /** Integers of the 32-bit runtime, which have 31 bits, characters, and hashes of tags. */
  type Int31 = n: int | -0x4000_0000 <= n < 0x4000_0000

  type Char = c: int | 0 <= c < 256

  type Hash = t: int | 0 <= t < 0x4000_0000

  datatype Value = Unboxed(n: Int31) | Boxed(loc: nat)

  datatype Object =
    | Str(chars: seq<Char>)
    | Arr(items: seq<Value>)
    | Sexp(tag: Hash, items: seq<Value>)
    | Fun(entry: int, items: seq<Value>)

  type Heap = seq<Object>

  predicate Known(h: Heap, v: Value) {
    v.Unboxed? || v.loc < |h|
  }

  function Items(h: Heap, v: Value): seq<Value> {
    if v.Unboxed? || v.loc >= |h| || h[v.loc].Str? then [] else h[v.loc].items
  }

  ghost predicate WellFormed(h: Heap) {
    forall l, i :: 0 <= l < |h| && 0 <= i < |Items(h, Boxed(l))| ==> Known(h, Items(h, Boxed(l))[i])
  }

  // Observations

  /** `kindOf`: a tag of the runtime, which is an odd word, read as an integer. */
  function KindOf(h: Heap, v: Value): int
    requires Known(h, v)
  {
    if v.Unboxed? then 4
    else match h[v.loc]
      case Str(_) => 0
      case Arr(_) => 1
      case Sexp(_, _) => 2
      case Fun(_, _) => 3
  }

  /** The characters up to the first zero, which is where `strcmp` stops. */
  function Text(s: seq<Char>): seq<Char> {
    if s == [] || s[0] == 0 then [] else [s[0]] + Text(s[1..])
  }

  function First(s: seq<Char>): int {
    if s == [] then 0 else s[0]
  }

  function StrCmp(s: seq<Char>, t: seq<Char>): int {
    if First(s) != First(t) then First(s) - First(t)
    else if First(s) == 0 then 0
    else StrCmp(s[1..], t[1..])
  }

  lemma {:induction false} StrCmpZero(s: seq<Char>, t: seq<Char>)
    ensures StrCmp(s, t) == 0 <==> Text(s) == Text(t)
    decreases |s|
  {
    if First(s) == First(t) != 0 {
      StrCmpZero(s[1..], t[1..]);
      assert Text(s)[1..] == Text(s[1..]) && Text(t)[1..] == Text(t[1..]);
    } else if First(s) != 0 {
      assert Text(s)[0] == First(s);
    } else if First(t) != 0 {
      assert Text(t)[0] == First(t);
    }
  }

  /** `compare` on integers, whose difference is boxed, and on strings. */
  function Compare(h: Heap, x: Value, y: Value): int
    requires Known(h, x) && Known(h, y) && KindOf(h, x) == KindOf(h, y) && KindOf(h, x) in {0, 4}
  {
    if x.Unboxed? then FlatOrder.Boxed(x.n - y.n) else StrCmp(h[x.loc].chars, h[y.loc].chars)
  }

  /** What boxing leaves of the difference of two integers. */
  lemma BoxedDifference(m: Int31, n: Int31)
    ensures var d := FlatOrder.Boxed(m - n);
      && (d == 0 <==> m == n) && -FlatOrder.HALF <= d < FlatOrder.HALF
      && (d < 0 <==> (m < n && n - m <= FlatOrder.HALF) || m - n >= FlatOrder.HALF)
      && (if m - n == FlatOrder.HALF || n - m == FlatOrder.HALF
          then d == FlatOrder.Boxed(n - m) == -FlatOrder.HALF else FlatOrder.Boxed(n - m) == -d)
  {
    FlatOrder.BoxedSign(m - n);
    var d := m - n;
    var k := if d < 0 then -1 else 0;
    FlatOrder.Remainder(d, k);
    FlatOrder.Remainder(-d, if d > 0 then -1 else 0);
  }

  /** `length`: a closure counts its entry point. */
  function Length(h: Heap, v: Value): nat
    requires Known(h, v)
  {
    if v.Boxed? && h[v.loc].Str? then |h[v.loc].chars|
    else if v.Boxed? && h[v.loc].Fun? then |h[v.loc].items| + 1
    else |Items(h, v)|
  }

  /** The tag of an s-expression, the entry point of a closure. */
  function Head(h: Heap, v: Value): int
    requires Known(h, v)
  {
    if v.Unboxed? then 0
    else match h[v.loc]
      case Sexp(t, _) => t
      case Fun(e, _) => e
      case _ => 0
  }

  /** Nothing tells the two values apart without looking at their components. */
  predicate Agreeing(h: Heap, x: Value, y: Value)
    requires Known(h, x) && Known(h, y)
  {
    && KindOf(h, x) == KindOf(h, y) && |Items(h, x)| == |Items(h, y)|
    && (if x.Unboxed? then x == y
        else match h[x.loc]
          case Str(s) => Text(s) == Text(h[y.loc].chars)
          case Arr(_) => true
          case Sexp(t, _) => t == h[y.loc].tag
          case Fun(e, _) => e == h[y.loc].entry)
  }

  /** No observation of at most `k` steps tells the two values apart. */
  ghost predicate Alike(h: Heap, x: Value, y: Value, k: nat)
    requires WellFormed(h) && Known(h, x) && Known(h, y)
    decreases k
  {
    k == 0 || (
      Agreeing(h, x, y) && forall i :: 0 <= i < |Items(h, x)| ==> Alike(h, Items(h, x)[i], Items(h, y)[i], k - 1))
  }

  /** No observation at all tells them apart. */
  ghost predicate Bisimilar(h: Heap, x: Value, y: Value)
    requires WellFormed(h) && Known(h, x) && Known(h, y)
  {
    forall k :: Alike(h, x, y, k)
  }

  ghost predicate PartsBisimilar(h: Heap, x: Value, y: Value)
    requires WellFormed(h) && Known(h, x) && Known(h, y)
  {
    |Items(h, x)| == |Items(h, y)| && forall i ::
      0 <= i < |Items(h, x)| ==> Bisimilar(h, Items(h, x)[i], Items(h, y)[i])
  }

  lemma {:induction false} AlikeRefl(h: Heap, x: Value, k: nat)
    requires WellFormed(h) && Known(h, x)
    ensures Alike(h, x, x, k)
    decreases k
  {
    if k > 0 {
      forall i | 0 <= i < |Items(h, x)| ensures Alike(h, Items(h, x)[i], Items(h, x)[i], k - 1) {
        AlikeRefl(h, Items(h, x)[i], k - 1);
      }
    }
  }

  lemma {:induction false} AlikeSym(h: Heap, x: Value, y: Value, k: nat)
    requires WellFormed(h) && Known(h, x) && Known(h, y) && Alike(h, x, y, k)
    ensures Alike(h, y, x, k)
    decreases k
  {
    if k > 0 {
      forall i | 0 <= i < |Items(h, y)| ensures Alike(h, Items(h, y)[i], Items(h, x)[i], k - 1) {
        AlikeSym(h, Items(h, x)[i], Items(h, y)[i], k - 1);
      }
    }
  }

  lemma {:induction false} AlikeTrans(h: Heap, x: Value, y: Value, z: Value, k: nat)
    requires WellFormed(h) && Known(h, x) && Known(h, y) && Known(h, z) && Alike(h, x, y, k) && Alike(h, y, z, k)
    ensures Alike(h, x, z, k)
    decreases k
  {
    if k > 0 {
      forall i | 0 <= i < |Items(h, x)| ensures Alike(h, Items(h, x)[i], Items(h, z)[i], k - 1) {
        AlikeTrans(h, Items(h, x)[i], Items(h, y)[i], Items(h, z)[i], k - 1);
      }
    }
  }

  /** Bisimilar values agree and have bisimilar components. */
  lemma BisimilarStep(h: Heap, x: Value, y: Value)
    requires WellFormed(h) && Known(h, x) && Known(h, y) && Bisimilar(h, x, y)
    ensures Agreeing(h, x, y) && PartsBisimilar(h, x, y)
  {
    assert Alike(h, x, y, 1);
    forall i, k: nat | 0 <= i < |Items(h, x)| ensures Alike(h, Items(h, x)[i], Items(h, y)[i], k) {
      assert Alike(h, x, y, k + 1);
    }
  }

  /** A relation closed under the comparison of components. */
  ghost predicate Bisimulation(h: Heap, R: set<(Value, Value)>)
    requires WellFormed(h)
  {
    forall p :: p in R ==>
      && Known(h, p.0) && Known(h, p.1) && Agreeing(h, p.0, p.1)
      && forall i :: 0 <= i < |Items(h, p.0)| ==> (Items(h, p.0)[i], Items(h, p.1)[i]) in R
  }

  /** Every bisimulation relates bisimilar values only. */
  lemma {:induction false} LargestBisimulation(h: Heap, R: set<(Value, Value)>, x: Value, y: Value, k: nat)
    requires WellFormed(h) && Bisimulation(h, R) && (x, y) in R
    ensures Alike(h, x, y, k)
    decreases k
  {
    if k > 0 {
      forall i | 0 <= i < |Items(h, x)| ensures Alike(h, Items(h, x)[i], Items(h, y)[i], k - 1) {
        assert (x, y) in R;
        LargestBisimulation(h, R, Items(h, x)[i], Items(h, y)[i], k - 1);
      }
    }
  }

  // Classes

  /** The class of every value that has been met. */
  type Classes = map<Value, nat>

  predicate Same(c: Classes, u: Value, v: Value) {
    u == v || (u in c && v in c && c[u] == c[v])
  }

  /** `u` and `v` are in one class once those of `x` and `y` have been joined. */
  predicate Joined(c: Classes, x: Value, y: Value, u: Value, v: Value) {
    Same(c, u, v) || (Same(c, u, x) && Same(c, y, v)) || (Same(c, u, y) && Same(c, x, v))
  }

  /** `d` is `c` with the classes of `x` and `y` joined. */
  ghost predicate Joins(c: Classes, x: Value, y: Value, d: Classes) {
    && d.Keys == c.Keys + {x, y}
    && forall u, v :: Same(d, u, v) <==> Joined(c, x, y, u, v)
  }

  function Added(c: Classes, x: Value, y: Value, n: nat): Classes {
    c[x := n][y := n]
  }

  lemma JoinsNew(c: Classes, x: Value, y: Value, n: nat)
    requires x !in c && y !in c && n !in c.Values
    ensures Joins(c, x, y, Added(c, x, y, n))
  {
    var d := Added(c, x, y, n);
    forall v | v in c ensures c[v] != n {
      assert c[v] in c.Values;
    }
    forall u, v ensures Same(d, u, v) <==> Joined(c, x, y, u, v) {
    }
  }

  lemma JoinsAdded(c: Classes, x: Value, y: Value)
    requires x !in c && y in c
    ensures Joins(c, x, y, c[x := c[y]]) && Joins(c, y, x, c[x := c[y]])
  {
    var d := c[x := c[y]];
    forall u, v ensures (Same(d, u, v) <==> Joined(c, x, y, u, v)) && (Same(d, u, v) <==> Joined(c, y, x, u, v)) {
    }
  }

  /** The class `a` becomes part of the class `b`. */
  function Moved(c: Classes, a: nat, b: nat): Classes {
    map v | v in c :: if c[v] == a then b else c[v]
  }

  lemma JoinsMoved(c: Classes, x: Value, y: Value, a: nat, b: nat)
    requires x in c && y in c && a != b && ((a == c[x] && b == c[y]) || (a == c[y] && b == c[x]))
    ensures Joins(c, x, y, Moved(c, a, b))
  {
    var d := Moved(c, a, b);
    forall u, v ensures Same(d, u, v) <==> Joined(c, x, y, u, v) {
    }
  }

  /** What can still happen: values not met yet, and classes not joined yet. */
  function Measure(U: set<Value>, c: Classes): nat {
    2 * |U - c.Keys| + |c.Values|
  }

  lemma MeasureNew(U: set<Value>, c: Classes, x: Value, y: Value, n: nat)
    requires {x, y} <= U && x !in c && y !in c
    ensures Measure(U, Added(c, x, y, n)) < Measure(U, c)
  {
    var d := Added(c, x, y, n);
    assert d.Values <= c.Values + {n};
    Fewer(d.Values, c.Values + {n});
    assert U - d.Keys <= U - c.Keys - {x};
    Fewer(U - d.Keys, U - c.Keys - {x});
  }

  lemma MeasureAdded(U: set<Value>, c: Classes, x: Value, y: Value)
    requires x in U && x !in c && y in c
    ensures Measure(U, c[x := c[y]]) < Measure(U, c)
  {
    var d := c[x := c[y]];
    assert c[y] in c.Values;
    assert d.Values <= c.Values;
    Fewer(d.Values, c.Values);
    assert U - d.Keys <= U - c.Keys - {x};
    Fewer(U - d.Keys, U - c.Keys - {x});
  }

  lemma MeasureMoved(U: set<Value>, c: Classes, a: nat, b: nat)
    requires a in c.Values && b in c.Values && a != b
    ensures Measure(U, Moved(c, a, b)) < Measure(U, c)
  {
    var d := Moved(c, a, b);
    assert d.Values <= c.Values - {a};
    Fewer(d.Values, c.Values - {a});
    assert U - d.Keys == U - c.Keys;
  }

  lemma {:induction false} Fewer<T>(a: set<T>, b: set<T>)
    requires a <= b
    ensures |a| <= |b|
  {
    assert b == a + (b - a);
  }

  // What the comparison keeps

  /** Values that can be met: closed under taking components. */
  ghost predicate Universe(h: Heap, U: set<Value>) {
    forall v :: v in U ==> Known(h, v) && forall i :: 0 <= i < |Items(h, v)| ==> Items(h, v)[i] in U
  }

  ghost predicate Inside(U: set<Value>, c: Classes, G: set<(Value, Value)>) {
    c.Keys <= U && forall p :: p in G ==> p.0 in U && p.1 in U
  }

  ghost predicate AskedAlike(h: Heap, U: set<Value>, G: set<(Value, Value)>, k: nat)
    requires WellFormed(h) && Universe(h, U)
  {
    forall p :: p in G && p.0 in U && p.1 in U ==> Alike(h, p.0, p.1, k)
  }

  ghost predicate SameAlike(h: Heap, U: set<Value>, c: Classes, k: nat)
    requires WellFormed(h) && Universe(h, U)
  {
    forall u, v :: u in U && v in U && Same(c, u, v) ==> Alike(h, u, v, k)
  }

  /** The classes are no coarser than the pairs that were joined make them. */
  ghost predicate Generated(h: Heap, U: set<Value>, G: set<(Value, Value)>, c: Classes)
    requires WellFormed(h) && Universe(h, U)
  {
    forall k :: AskedAlike(h, U, G, k) ==> SameAlike(h, U, c, k)
  }

  /** The classes hold bisimilar values only. */
  ghost predicate Fine(h: Heap, U: set<Value>, c: Classes)
    requires WellFormed(h) && Universe(h, U)
  {
    forall u, v :: u in U && v in U && Same(c, u, v) ==> Bisimilar(h, u, v)
  }

  ghost predicate Coarser(c: Classes, d: Classes) {
    forall u, v :: Same(c, u, v) ==> Same(d, u, v)
  }

  /** A pair that has been compared: it agrees, and its components are in common classes. */
  ghost predicate Done(h: Heap, c: Classes, x: Value, y: Value) {
    && Known(h, x) && Known(h, y) && Agreeing(h, x, y)
    && forall i :: 0 <= i < |Items(h, x)| ==> Same(c, Items(h, x)[i], Items(h, y)[i])
  }

  ghost predicate DoneSince(h: Heap, c: Classes, G0: set<(Value, Value)>, G: set<(Value, Value)>) {
    forall p :: p in G && p !in G0 ==> Done(h, c, p.0, p.1)
  }

  /** What any part of the comparison does to the classes and to the joined pairs. */
  ghost predicate Progress(h: Heap, U: set<Value>, c0: Classes, G0: set<(Value, Value)>, c: Classes,
      G: set<(Value, Value)>)
    requires WellFormed(h) && Universe(h, U)
  {
    Inside(U, c, G) && Measure(U, c) <= Measure(U, c0) && Coarser(c0, c) && G0 <= G && Generated(h, U, G, c)
  }

  lemma ProgressTrans(h: Heap, U: set<Value>, c0: Classes, G0: set<(Value, Value)>, c1: Classes,
      G1: set<(Value, Value)>, c2: Classes, G2: set<(Value, Value)>)
    requires WellFormed(h) && Universe(h, U)
    requires Progress(h, U, c0, G0, c1, G1) && Progress(h, U, c1, G1, c2, G2)
    ensures Progress(h, U, c0, G0, c2, G2)
  {
    hide Same, Generated, Inside, Measure;
  }

  lemma DoneCoarser(h: Heap, c: Classes, d: Classes, x: Value, y: Value)
    requires Done(h, c, x, y) && Coarser(c, d)
    ensures Done(h, d, x, y)
  {
    hide Same;
    forall i | 0 <= i < |Items(h, x)| ensures Same(d, Items(h, x)[i], Items(h, y)[i]) {
      assert Same(c, Items(h, x)[i], Items(h, y)[i]);
    }
  }

  lemma DoneTrans(h: Heap, c1: Classes, c2: Classes, G0: set<(Value, Value)>, G1: set<(Value, Value)>,
      G2: set<(Value, Value)>)
    requires DoneSince(h, c1, G0, G1) && Coarser(c1, c2) && DoneSince(h, c2, G1, G2)
    ensures DoneSince(h, c2, G0, G2)
  {
    hide Done, Coarser;
    forall p | p in G2 && p !in G0 ensures Done(h, c2, p.0, p.1) {
      if p in G1 {
        DoneCoarser(h, c1, c2, p.0, p.1);
      }
    }
  }

  lemma GeneratedJoins(h: Heap, U: set<Value>, G: set<(Value, Value)>, c: Classes, x: Value, y: Value, d: Classes)
    requires WellFormed(h) && Universe(h, U) && {x, y} <= U
    requires Generated(h, U, G, c) && Joins(c, x, y, d)
    ensures Generated(h, U, G + {(x, y)}, d)
  {
    hide Same, Alike;
    forall k | AskedAlike(h, U, G + {(x, y)}, k) ensures SameAlike(h, U, d, k) {
      assert AskedAlike(h, U, G, k);
      assert SameAlike(h, U, c, k);
      assert (x, y) in G + {(x, y)};
      assert Alike(h, x, y, k);
      forall u, v | u in U && v in U && Same(d, u, v) ensures Alike(h, u, v, k) {
        AlikeJoined(h, U, c, x, y, u, v, k);
      }
    }
  }

  lemma AlikeJoined(h: Heap, U: set<Value>, c: Classes, x: Value, y: Value, u: Value, v: Value, k: nat)
    requires WellFormed(h) && Universe(h, U) && x in U && y in U && u in U && v in U
    requires SameAlike(h, U, c, k) && Alike(h, x, y, k) && Joined(c, x, y, u, v)
    ensures Alike(h, u, v, k)
  {
    hide Same, Alike;
    if !Same(c, u, v) {
      if Same(c, u, x) && Same(c, y, v) {
        AlikeTrans(h, u, x, y, k);
        AlikeTrans(h, u, y, v, k);
      } else {
        AlikeSym(h, x, y, k);
        AlikeTrans(h, u, y, x, k);
        AlikeTrans(h, u, x, v, k);
      }
    }
  }

  lemma FineJoins(h: Heap, U: set<Value>, c: Classes, x: Value, y: Value, d: Classes)
    requires WellFormed(h) && Universe(h, U) && x in U && y in U
    requires Fine(h, U, c) && Bisimilar(h, x, y) && Joins(c, x, y, d)
    ensures Fine(h, U, d)
  {
    hide Same, Alike;
    forall u, v, k: nat | u in U && v in U && Same(d, u, v) ensures Alike(h, u, v, k) {
      assert SameAlike(h, U, c, k) by {
        forall a, b | a in U && b in U && Same(c, a, b) ensures Alike(h, a, b, k) {
          assert Bisimilar(h, a, b);
        }
      }
      AlikeJoined(h, U, c, x, y, u, v, k);
    }
  }

  /** Joining a pair that is about to be compared. */
  lemma JoinedProgress(h: Heap, U: set<Value>, c: Classes, G: set<(Value, Value)>, x: Value, y: Value, d: Classes)
    requires WellFormed(h) && Universe(h, U) && x in U && y in U && Inside(U, c, G) && Generated(h, U, G, c)
    requires Joins(c, x, y, d) && Measure(U, d) < Measure(U, c)
    ensures Progress(h, U, c, G, d, G + {(x, y)}) && Same(d, x, y)
  {
    hide Universe, Alike, Measure, Generated;
    GeneratedJoins(h, U, G, c, x, y, d);
    forall u, v | Same(c, u, v) ensures Same(d, u, v) {
      assert Joined(c, x, y, u, v);
    }
    assert Joined(c, x, y, x, y);
  }

  /** `Agreeing` is what the comparison tests before it looks at the components. */
  lemma AgreeingTested(h: Heap, x: Value, y: Value)
    requires Known(h, x) && Known(h, y)
    ensures KindOf(h, x) == KindOf(h, y) && KindOf(h, x) in {0, 4} ==>
      (Agreeing(h, x, y) <==> Compare(h, x, y) == 0) && Items(h, x) == []
    ensures KindOf(h, x) == KindOf(h, y) && KindOf(h, x) in {1, 2, 3} ==>
      (Agreeing(h, x, y) <==> Head(h, x) == Head(h, y) && |Items(h, x)| == |Items(h, y)|)
    ensures Agreeing(h, x, y) ==> KindOf(h, x) == KindOf(h, y)
    ensures KindOf(h, x) in {0, 1, 2, 3, 4}
  {
    if x.Unboxed? && y.Unboxed? {
      BoxedDifference(x.n, y.n);
    }
    if x.Boxed? && y.Boxed? && h[x.loc].Str? && h[y.loc].Str? {
      StrCmpZero(h[x.loc].chars, h[y.loc].chars);
    }
  }

  /** After the last pair has been joined and its components have been compared. */
  lemma PairDone(h: Heap, x: Value, y: Value, c1: Classes, c2: Classes, G0: set<(Value, Value)>,
      G2: set<(Value, Value)>)
    requires Known(h, x) && Known(h, y) && Agreeing(h, x, y) && Same(c1, x, y) && Coarser(c1, c2)
    requires forall i :: 0 <= i < |Items(h, x)| ==> Same(c2, Items(h, x)[i], Items(h, y)[i])
    requires DoneSince(h, c2, G0 + {(x, y)}, G2)
    ensures Same(c2, x, y) && DoneSince(h, c2, G0, G2)
  {
    hide Same, Agreeing;
    forall p | p in G2 && p !in G0 ensures Done(h, c2, p.0, p.1) {
      if p == (x, y) {
        assert Done(h, c2, x, y);
      }
    }
  }

  /** When every joined pair has been compared, the classes hold bisimilar values. */
  lemma {:induction false} AllDone(h: Heap, U: set<Value>, G: set<(Value, Value)>, c: Classes, k: nat)
    requires WellFormed(h) && Universe(h, U) && Generated(h, U, G, c) && DoneSince(h, c, {}, G)
    ensures AskedAlike(h, U, G, k)
    decreases k
  {
    hide Alike, Done, Same;
    if k == 0 {
      NothingAsked(h, U, G);
    } else {
      AllDone(h, U, G, c, k - 1);
      assert SameAlike(h, U, c, k - 1);
      forall p | p in G && p.0 in U && p.1 in U ensures Alike(h, p.0, p.1, k) {
        DoneAlike(h, U, c, p.0, p.1, k);
      }
    }
  }

  lemma NothingAsked(h: Heap, U: set<Value>, G: set<(Value, Value)>)
    requires WellFormed(h) && Universe(h, U)
    ensures AskedAlike(h, U, G, 0)
  {
  }

  lemma DoneAlike(h: Heap, U: set<Value>, c: Classes, x: Value, y: Value, k: nat)
    requires WellFormed(h) && Universe(h, U) && x in U && y in U && k > 0 && SameAlike(h, U, c, k - 1) &&
      Done(h, c, x, y)
    ensures Alike(h, x, y, k)
  {
    hide Same;
    forall i | 0 <= i < |Items(h, x)| ensures Alike(h, Items(h, x)[i], Items(h, y)[i], k - 1) {
      assert Same(c, Items(h, x)[i], Items(h, y)[i]);
    }
  }

  lemma NothingSince(h: Heap, c: Classes, G: set<(Value, Value)>)
    ensures DoneSince(h, c, G, G) && Coarser(c, c)
  {
  }

  /** A pair that is in one class already needs no comparison. */
  lemma NothingDone(h: Heap, U: set<Value>, c: Classes, G: set<(Value, Value)>, x: Value, y: Value)
    requires WellFormed(h) && Universe(h, U) && Inside(U, c, G) && Generated(h, U, G, c) && x in c && y in c &&
      c[x] == c[y]
    ensures Progress(h, U, c, G, c, G) && Same(c, x, y) && DoneSince(h, c, G, G)
  {
    hide Measure, Generated;
  }

  ghost function Values(h: Heap): set<Value> {
    set l, i | 0 <= l < |h| && 0 <= i < |Items(h, Boxed(l))| :: Items(h, Boxed(l))[i]
  }

  lemma ValuesClosed(h: Heap, x: Value, y: Value)
    requires WellFormed(h) && Known(h, x) && Known(h, y)
    ensures Universe(h, Values(h) + {x, y})
  {
  }

  lemma NothingJoined(h: Heap, U: set<Value>)
    requires WellFormed(h) && Universe(h, U)
    ensures Generated(h, U, {}, map[]) && Fine(h, U, map[])
  {
    hide Alike;
    forall u, k: nat | u in U ensures Alike(h, u, u, k) {
      AlikeRefl(h, u, k);
    }
  }

  // The result as a function

  /** The same classes under other names. */
  ghost predicate Equivalent(c: Classes, d: Classes) {
    c.Keys == d.Keys && forall u, v :: Same(c, u, v) <==> Same(d, u, v)
  }

  predicate Met(c: Classes, x: Value, y: Value) {
    x in c && y in c && c[x] == c[y]
  }

  lemma {:induction false} FreshName(S: set<nat>) returns (n: nat)
    ensures forall m :: m in S ==> m < n
    decreases S
  {
    if S == {} {
      n := 0;
    } else {
      var m :| m in S;
      var n' := FreshName(S - {m});
      n := if m < n' then n' else m + 1;
      forall k | k in S ensures k < n {
        assert k == m || k in S - {m};
      }
    }
  }

  lemma JoinExists(U: set<Value>, c: Classes, x: Value, y: Value) returns (d: Classes)
    requires {x, y} <= U && !Met(c, x, y)
    ensures Joins(c, x, y, d) && Measure(U, d) < Measure(U, c)
  {
    hide Joins, Measure, Moved, Added;
    if x !in c && y !in c {
      var n := FreshName(c.Values);
      JoinsNew(c, x, y, n);
      MeasureNew(U, c, x, y, n);
      d := Added(c, x, y, n);
    } else if x !in c {
      JoinsAdded(c, x, y);
      MeasureAdded(U, c, x, y);
      d := c[x := c[y]];
    } else if y !in c {
      JoinsAdded(c, y, x);
      MeasureAdded(U, c, y, x);
      d := c[y := c[x]];
    } else {
      JoinsMoved(c, x, y, c[x], c[y]);
      assert c[x] in c.Values && c[y] in c.Values;
      MeasureMoved(U, c, c[x], c[y]);
      d := Moved(c, c[x], c[y]);
    }
  }

  ghost predicate SmallerJoin(U: set<Value>, c: Classes, x: Value, y: Value, d: Classes) {
    Joins(c, x, y, d) && Measure(U, d) < Measure(U, c)
  }

  ghost function JoinOf(U: set<Value>, c: Classes, x: Value, y: Value): (d: Classes)
    requires {x, y} <= U && !Met(c, x, y)
    ensures SmallerJoin(U, c, x, y, d)
  {
    assert exists d :: SmallerJoin(U, c, x, y, d) by {
      var d := JoinExists(U, c, x, y);
      assert SmallerJoin(U, c, x, y, d);
    }
    var d :| SmallerJoin(U, c, x, y, d);
    d
  }

  /** The answer for `x` and `y` from the classes `c` on, and the classes afterwards. */
  ghost function Answer(h: Heap, U: set<Value>, c: Classes, x: Value, y: Value): (a: (int, Classes))
    requires WellFormed(h) && Universe(h, U) && x in U && y in U
    ensures Measure(U, a.1) <= Measure(U, c)
    decreases Measure(U, c), 1, 0
  {
    if Met(c, x, y) then (0, c)
    else
      var d := JoinOf(U, c, x, y);
      if KindOf(h, x) != KindOf(h, y) then (KindOf(h, x) - KindOf(h, y), d)
      else if KindOf(h, x) in {0, 4} then (Compare(h, x, y), d)
      else if Head(h, x) != Head(h, y) then (Head(h, x) - Head(h, y), d)
      else if |Items(h, x)| != |Items(h, y)| then (|Items(h, x)| - |Items(h, y)|, d)
      else AnswerAll(h, U, d, Items(h, x), Items(h, y))
  }

  /** The first difference between components. */
  ghost function AnswerAll(h: Heap, U: set<Value>, c: Classes, xs: seq<Value>, ys: seq<Value>): (a: (int, Classes))
    requires WellFormed(h) && Universe(h, U) && |xs| == |ys|
    requires forall i :: 0 <= i < |xs| ==> xs[i] in U && ys[i] in U
    ensures Measure(U, a.1) <= Measure(U, c)
    decreases Measure(U, c), 2, |xs|
  {
    if xs == [] then (0, c)
    else
      var (r, d) := Answer(h, U, c, xs[0], ys[0]);
      if r != 0 then (r, d) else AnswerAll(h, U, d, xs[1..], ys[1..])
  }

  lemma EquivalentJoins(c: Classes, d: Classes, x: Value, y: Value, c': Classes, d': Classes)
    requires Equivalent(c, d) && Joins(c, x, y, c') && (Joins(d, x, y, d') || Joins(d, y, x, d'))
    ensures Equivalent(c', d')
  {
    hide Same;
    forall u, v ensures Same(c', u, v) <==> Same(d', u, v) {
      assert Joined(c, x, y, u, v) <==> Joined(d, x, y, u, v);
      assert Joined(d, x, y, u, v) <==> Joined(d, y, x, u, v);
    }
  }

  lemma EquivalentMet(c: Classes, d: Classes, x: Value, y: Value)
    requires Equivalent(c, d)
    ensures Met(c, x, y) <==> Met(d, x, y)
    ensures Met(d, x, y) <==> Met(d, y, x)
  {
    assert Same(c, x, y) <==> Same(d, x, y);
  }

  /** The two integers of a pair are as far apart as boxed differences cannot tell. */
  predicate Opposed(x: Value, y: Value) {
    x.Unboxed? && y.Unboxed? && (x.n - y.n == FlatOrder.HALF || y.n - x.n == FlatOrder.HALF)
  }

  ghost predicate NoneOpposed(U: set<Value>) {
    forall x, y :: x in U && y in U ==> !Opposed(x, y)
  }

  /** The answer `q` is `r`, or the one to the values exchanged: its negative, or the same if it
      comes from opposed integers. */
  ghost predicate Flipped(U: set<Value>, flip: bool, r: int, q: int) {
    if flip then q == -r || (q == r == -FlatOrder.HALF && !NoneOpposed(U)) else q == r
  }

  lemma CompareFlipped(h: Heap, U: set<Value>, x: Value, y: Value)
    requires Known(h, x) && Known(h, y) && KindOf(h, x) == KindOf(h, y) && KindOf(h, x) in {0, 4} && x in U && y in U
    ensures Flipped(U, true, Compare(h, x, y), Compare(h, y, x))
  {
    hide FlatOrder.Boxed;
    if x.Unboxed? {
      BoxedDifference(x.n, y.n);
      assert Opposed(x, y) ==> !NoneOpposed(U);
    } else {
      StrCmpFlipped(h[x.loc].chars, h[y.loc].chars);
    }
  }

  lemma {:induction false} StrCmpFlipped(s: seq<Char>, t: seq<Char>)
    ensures StrCmp(t, s) == -StrCmp(s, t)
    decreases |s|
  {
    if First(s) == First(t) != 0 {
      StrCmpFlipped(s[1..], t[1..]);
    }
  }

  /** The answer does not depend on how classes are named, and exchanging the two values
      changes its sign and nothing else. */
  lemma {:induction false} Mirror(h: Heap, U: set<Value>, c: Classes, d: Classes, x: Value, y: Value, flip: bool)
    requires WellFormed(h) && Universe(h, U) && x in U && y in U && Equivalent(c, d)
    ensures var (r, c') := Answer(h, U, c, x, y);
      var (q, d') := if flip then Answer(h, U, d, y, x) else Answer(h, U, d, x, y);
      Flipped(U, flip, r, q) && Equivalent(c', d')
    decreases Measure(U, c), 1, 0
  {
    hide Equivalent, Joins, Measure, Met;
    var (a, b) := if flip then (y, x) else (x, y);
    EquivalentMet(c, d, x, y);
    if !Met(c, x, y) {
      var c1, d1 := JoinOf(U, c, x, y), JoinOf(U, d, a, b);
      EquivalentJoins(c, d, x, y, c1, d1);
      if KindOf(h, x) == KindOf(h, y) {
        if KindOf(h, x) in {0, 4} {
          CompareFlipped(h, U, x, y);
        } else if Head(h, x) == Head(h, y) && |Items(h, x)| == |Items(h, y)| {
          MirrorAll(h, U, c1, d1, Items(h, x), Items(h, y), flip);
        }
      }
    }
  }

  lemma {:induction false} MirrorAll(h: Heap, U: set<Value>, c: Classes, d: Classes, xs: seq<Value>, ys: seq<Value>,
      flip: bool)
    requires WellFormed(h) && Universe(h, U) && |xs| == |ys| && Equivalent(c, d)
    requires forall i :: 0 <= i < |xs| ==> xs[i] in U && ys[i] in U
    ensures var (r, c') := AnswerAll(h, U, c, xs, ys);
      var (q, d') := if flip then AnswerAll(h, U, d, ys, xs) else AnswerAll(h, U, d, xs, ys);
      Flipped(U, flip, r, q) && Equivalent(c', d')
    decreases Measure(U, c), 2, |xs|
  {
    hide Equivalent, Measure, Answer;
    if xs != [] {
      Mirror(h, U, c, d, xs[0], ys[0], flip);
      var (r, c1) := Answer(h, U, c, xs[0], ys[0]);
      var (q, d1) := if flip then Answer(h, U, d, ys[0], xs[0]) else Answer(h, U, d, xs[0], ys[0]);
      if r == 0 {
        MirrorAll(h, U, c1, d1, xs[1..], ys[1..], flip);
      }
    }
  }

  /** A run has answered `r` and left the classes `c`. */
  ghost predicate Answers(a: (int, Classes), r: int, c: Classes) {
    a.0 == r && Equivalent(a.1, c)
  }

  lemma ItemsInside(h: Heap, U: set<Value>, v: Value)
    requires Universe(h, U) && v in U
    ensures forall i :: 0 <= i < |Items(h, v)| ==> Items(h, v)[i] in U
  {
  }

  lemma NothingCompared(h: Heap, U: set<Value>, c: Classes, xs: seq<Value>, ys: seq<Value>)
    requires WellFormed(h) && Universe(h, U)
    ensures Answers(AnswerAll(h, U, c, xs[..0], ys[..0]), 0, c)
  {
  }

  lemma {:induction false} AnswerSnoc(h: Heap, U: set<Value>, c: Classes, xs: seq<Value>, ys: seq<Value>, x: Value,
      y: Value)
    requires WellFormed(h) && Universe(h, U) && |xs| == |ys| && x in U && y in U
    requires forall i :: 0 <= i < |xs| ==> xs[i] in U && ys[i] in U
    ensures var (r, d) := AnswerAll(h, U, c, xs, ys);
      AnswerAll(h, U, c, xs + [x], ys + [y]) == if r != 0 then (r, d) else Answer(h, U, d, x, y)
    decreases |xs|
  {
    hide Answer, Universe, WellFormed;
    if xs == [] {
      assert xs + [x] == [x] && ys + [y] == [y] && [x][1..] == [] && [y][1..] == [];
      var (r, d) := Answer(h, U, c, x, y);
      assert AnswerAll(h, U, d, [], []) == (0, d);
      assert AnswerAll(h, U, c, [x], [y]) == (r, d);
    } else {
      assert (xs + [x])[1..] == xs[1..] + [x] && (ys + [y])[1..] == ys[1..] + [y];
      var (r, d) := Answer(h, U, c, xs[0], ys[0]);
      if r == 0 {
        AnswerSnoc(h, U, d, xs[1..], ys[1..], x, y);
      }
    }
  }

  lemma OneMoreCompared(h: Heap, U: set<Value>, c0: Classes, c1: Classes, c2: Classes, xs: seq<Value>, ys: seq<Value>,
      i: nat, r: int)
    requires WellFormed(h) && Universe(h, U) && |xs| == |ys| && i < |xs|
    requires forall j :: 0 <= j < |xs| ==> xs[j] in U && ys[j] in U
    requires Answers(AnswerAll(h, U, c0, xs[..i], ys[..i]), 0, c1) && Answers(Answer(h, U, c1, xs[i], ys[i]), r, c2)
    ensures Answers(AnswerAll(h, U, c0, xs[..i + 1], ys[..i + 1]), r, c2)
  {
    hide Answer, AnswerAll, Universe, WellFormed, Answers;
    TakeSnoc(xs, i);
    TakeSnoc(ys, i);
    PairCompared(h, U, c0, c1, c2, xs[..i], ys[..i], xs[i], ys[i], r);
  }

  lemma TakeSnoc<T>(xs: seq<T>, i: nat)
    requires i < |xs|
    ensures xs[..i + 1] == xs[..i] + [xs[i]]
  {
  }

  lemma PairCompared(h: Heap, U: set<Value>, c0: Classes, c1: Classes, c2: Classes, xs: seq<Value>, ys: seq<Value>,
                     x: Value, y: Value, r: int)
    requires WellFormed(h) && Universe(h, U) && |xs| == |ys| && x in U && y in U
    requires forall j :: 0 <= j < |xs| ==> xs[j] in U && ys[j] in U
    requires Answers(AnswerAll(h, U, c0, xs, ys), 0, c1) && Answers(Answer(h, U, c1, x, y), r, c2)
    ensures Answers(AnswerAll(h, U, c0, xs + [x], ys + [y]), r, c2)
  {
    hide Answer, AnswerAll, Universe, WellFormed, Equivalent;
    AnswerSnoc(h, U, c0, xs, ys, x, y);
    var (_, d) := AnswerAll(h, U, c0, xs, ys);
    Mirror(h, U, d, c1, x, y, false);
    EquivalentTrans(Answer(h, U, d, x, y).1, Answer(h, U, c1, x, y).1, c2);
  }

  lemma EquivalentTrans(a: Classes, b: Classes, c: Classes)
    requires Equivalent(a, b) && Equivalent(b, c)
    ensures Equivalent(a, c)
  {
    hide Same;
    forall u, v ensures Same(a, u, v) <==> Same(c, u, v) {
      assert Same(b, u, v) <==> Same(c, u, v);
    }
  }

  lemma {:induction false} FirstDifference(h: Heap, U: set<Value>, c: Classes, xs: seq<Value>, ys: seq<Value>, i: nat)
    requires WellFormed(h) && Universe(h, U) && |xs| == |ys| && i <= |xs|
    requires forall j :: 0 <= j < |xs| ==> xs[j] in U && ys[j] in U
    requires AnswerAll(h, U, c, xs[..i], ys[..i]).0 != 0
    ensures AnswerAll(h, U, c, xs, ys) == AnswerAll(h, U, c, xs[..i], ys[..i])
    decreases i
  {
    hide Answer, AnswerAll, Universe, WellFormed;
    if i == 0 {
      NothingCompared(h, U, c, xs, ys);
    } else {
      TakeCons(xs, i);
      TakeCons(ys, i);
      AnswerCons(h, U, c, xs, ys);
      AnswerCons(h, U, c, xs[..i], ys[..i]);
      var (r, d) := Answer(h, U, c, xs[0], ys[0]);
      if r == 0 {
        FirstDifference(h, U, d, xs[1..], ys[1..], i - 1);
      }
    }
  }

  lemma TakeCons<T>(xs: seq<T>, i: nat)
    requires 0 < i <= |xs|
    ensures xs[..i][0] == xs[0] && xs[..i][1..] == xs[1..][..i - 1]
  {
  }

  lemma AnswerCons(h: Heap, U: set<Value>, c: Classes, xs: seq<Value>, ys: seq<Value>)
    requires WellFormed(h) && Universe(h, U) && |xs| == |ys| > 0
    requires forall i :: 0 <= i < |xs| ==> xs[i] in U && ys[i] in U
    ensures var (r, d) := Answer(h, U, c, xs[0], ys[0]);
      AnswerAll(h, U, c, xs, ys) == if r != 0 then (r, d) else AnswerAll(h, U, d, xs[1..], ys[1..])
  {
    hide Answer;
  }

  /** The loop has run to its end or to the first difference. */
  lemma AllCompared(h: Heap, U: set<Value>, c0: Classes, xs: seq<Value>, ys: seq<Value>, i: nat, r: int, c: Classes)
    requires WellFormed(h) && Universe(h, U) && i <= |xs| && (r == 0 && |xs| == |ys| ==> i == |xs|)
    requires forall v :: v in xs || v in ys ==> v in U
    requires |xs| == |ys| ==> Answers(AnswerAll(h, U, c0, xs[..i], ys[..i]), r, c)
    ensures |xs| == |ys| ==> Answers(AnswerAll(h, U, c0, xs, ys), r, c)
  {
    hide AnswerAll, Universe, WellFormed, Equivalent;
    if |xs| == |ys| {
      if r == 0 {
        assert xs[..i] == xs && ys[..i] == ys;
      } else {
        FirstDifference(h, U, c0, xs, ys, i);
      }
    }
  }

  /** Answers from classes under other names. */
  lemma AnswersJoined(h: Heap, U: set<Value>, c0: Classes, c1: Classes, c2: Classes, x: Value, y: Value, r: int)
    requires WellFormed(h) && Universe(h, U) && x in U && y in U && !Met(c0, x, y) && Joins(c0, x, y, c1)
    requires KindOf(h, x) == KindOf(h, y) && KindOf(h, x) in {1, 2, 3} && Head(h, x) == Head(h, y)
    requires if |Items(h, x)| != |Items(h, y)| then r == |Items(h, x)| - |Items(h, y)| && c2 == c1
      else Answers(AnswerAll(h, U, c1, Items(h, x), Items(h, y)), r, c2)
    ensures Answers(Answer(h, U, c0, x, y), r, c2)
  {
    hide AnswerAll, Equivalent, Joins, Measure;
    var d := JoinOf(U, c0, x, y);
    assert Equivalent(c0, c0) by { EquivalentRefl(c0); }
    EquivalentJoins(c0, c0, x, y, d, c1);
    if |Items(h, x)| == |Items(h, y)| {
      MirrorAll(h, U, d, c1, Items(h, x), Items(h, y), false);
      EquivalentTrans(AnswerAll(h, U, d, Items(h, x), Items(h, y)).1, AnswerAll(h, U, c1, Items(h, x), Items(h, y)).1,
        c2);
    }
  }

  lemma EquivalentRefl(c: Classes)
    ensures Equivalent(c, c)
  {
  }

  /** Answers that need no components. */
  lemma AnswersAtOnce(h: Heap, U: set<Value>, c0: Classes, c1: Classes, x: Value, y: Value, r: int)
    requires WellFormed(h) && Universe(h, U) && x in U && y in U && !Met(c0, x, y) && Joins(c0, x, y, c1)
    requires KindOf(h, x) != KindOf(h, y) || KindOf(h, x) in {0, 4} || Head(h, x) != Head(h, y)
    requires r == if KindOf(h, x) != KindOf(h, y) then KindOf(h, x) - KindOf(h, y)
      else if KindOf(h, x) in {0, 4} then Compare(h, x, y) else Head(h, x) - Head(h, y)
    ensures Answers(Answer(h, U, c0, x, y), r, c1)
  {
    hide AnswerAll, Equivalent, Joins, Measure;
    EquivalentRefl(c0);
    EquivalentJoins(c0, c0, x, y, JoinOf(U, c0, x, y), c1);
  }

  lemma AnswersKnown(h: Heap, U: set<Value>, c: Classes, x: Value, y: Value)
    requires WellFormed(h) && Universe(h, U) && x in U && y in U && Met(c, x, y)
    ensures Answers(Answer(h, U, c, x, y), 0, c)
  {
  }

  /** What `=?=` answers. */
  ghost function Difference(h: Heap, x: Value, y: Value): int
    requires WellFormed(h) && Known(h, x) && Known(h, y)
  {
    ValuesClosed(h, x, y);
    Answer(h, Values(h) + {x, y}, map[], x, y).0
  }

  /** Exchanging the values negates the answer, unless integers are opposed. */
  lemma Antisymmetric(h: Heap, x: Value, y: Value)
    requires WellFormed(h) && Known(h, x) && Known(h, y)
    ensures Flipped(Values(h) + {x, y}, true, Difference(h, x, y), Difference(h, y, x))
  {
    hide Answer;
    ValuesClosed(h, x, y);
    assert Values(h) + {x, y} == Values(h) + {y, x};
    Mirror(h, Values(h) + {x, y}, map[], map[], x, y, true);
  }

  /** Two integers that far apart are each less than the other. */
  lemma OpposedClash(h: Heap, x: Value, y: Value)
    requires WellFormed(h) && Opposed(x, y)
    ensures Difference(h, x, y) == Difference(h, y, x) == -FlatOrder.HALF
  {
    hide FlatOrder.Boxed, AnswerAll, Values, Measure, Head, Items;
    BoxedDifference(x.n, y.n);
  }

  /** Among some values and their parts the order is antisymmetric exactly if no two integers
      are opposed. */
  lemma AntisymmetricExactly(h: Heap, x: Value, y: Value)
    requires WellFormed(h) && Known(h, x) && Known(h, y)
    ensures Universe(h, Values(h) + {x, y})
    ensures NoneOpposed(Values(h) + {x, y}) <==>
      forall u, v :: u in Values(h) + {x, y} && v in Values(h) + {x, y} ==> Difference(h, v, u) == -Difference(h, u, v)
  {
    hide Difference;
    ValuesClosed(h, x, y);
    var U := Values(h) + {x, y};
    if NoneOpposed(U) {
      forall u, v | u in U && v in U ensures Difference(h, v, u) == -Difference(h, u, v) {
        Antisymmetric(h, u, v);
        assert Values(h) + {u, v} <= U;
      }
    } else {
      var u, v :| u in U && v in U && Opposed(u, v);
      OpposedClash(h, u, v);
    }
  }

  // The union-find structure

  /** A cell holds the weight of its class, or leads to another cell. */
  datatype Cell = Weight(w: int) | Link(to: nat)

  /** The links are acyclic (`height` grows along them) and lead to the root `rep[i]`. */
  ghost predicate Forest(cells: seq<Cell>, rep: seq<nat>, height: seq<nat>, top: nat) {
    && |rep| == |cells| == |height|
    && (forall i :: 0 <= i < |cells| ==> height[i] <= top && rep[i] < |cells| && cells[rep[i]].Weight?)
    && (forall i :: 0 <= i < |cells| && cells[i].Weight? ==> rep[i] == i)
    && (forall i :: 0 <= i < |cells| && cells[i].Link? ==>
          cells[i].to < |cells| && rep[cells[i].to] == rep[i] && height[i] < height[cells[i].to])
  }

  function Redirect(rep: seq<nat>, loser: nat, winner: nat): (r: seq<nat>)
    ensures |r| == |rep| && forall i :: 0 <= i < |rep| ==> r[i] == if rep[i] == loser then winner else rep[i]
  {
    seq(|rep|, i requires 0 <= i < |rep| => if rep[i] == loser then winner else rep[i])
  }

  lemma ForestAttach(cells: seq<Cell>, rep: seq<nat>, height: seq<nat>, top: nat, loser: nat, winner: nat, w: int)
    requires Forest(cells, rep, height, top) && loser < |cells| && winner < |cells| && loser != winner
    requires cells[loser].Weight? && cells[winner].Weight?
    ensures Forest(cells[winner := Weight(w)][loser := Link(winner)], Redirect(rep, loser, winner),
      height[winner := top + 1], top + 1)
  {
  }

  lemma ForestGrown(cells: seq<Cell>, rep: seq<nat>, height: seq<nat>, top: nat)
    requires Forest(cells, rep, height, top)
    ensures Forest(cells + [Weight(1)], rep + [|cells|], height + [0], top)
  {
  }

  lemma ForestSkip(cells: seq<Cell>, rep: seq<nat>, height: seq<nat>, top: nat, p: nat, r: nat)
    requires Forest(cells, rep, height, top) && p < |cells| && r < |cells|
    requires cells[p].Link? && rep[p] == rep[r] && height[p] < height[r]
    ensures Forest(cells[p := Link(r)], rep, height, top)
  {
  }

  /** The class of every value met so far, named by its root cell. */
  ghost function ClassesOf(m: map<Value, nat>, rep: seq<nat>): (c: Classes)
    requires forall v :: v in m ==> m[v] < |rep|
    ensures c.Keys == m.Keys
  {
    map v | v in m :: rep[m[v]]
  }

  lemma ClassesAdded(m: map<Value, nat>, m': map<Value, nat>, rep: seq<nat>, x: Value, y: Value)
    requires (forall v :: v in m ==> m[v] < |rep|) && m' == m[x := |rep|][y := |rep|]
    ensures forall v :: v in m' ==> m'[v] < |rep + [|rep|]|
    ensures ClassesOf(m', rep + [|rep|]) == Added(ClassesOf(m, rep), x, y, |rep|)
  {
  }

  class Comparer {
    var classOf: map<Value, nat>
    var cells: seq<Cell>
    ghost var rep: seq<nat>
    ghost var height: seq<nat>
    ghost var top: nat
    // the pairs that have been joined
    ghost var asked: set<(Value, Value)>

    ghost predicate Valid()
      reads this
    {
      Forest(cells, rep, height, top) && forall v :: v in classOf ==> classOf[v] < |rep|
    }

    ghost function Partition(): Classes
      requires Valid()
      reads this
    {
      ClassesOf(classOf, rep)
    }

    constructor ()
      ensures Valid() && Partition() == map[] && asked == {}
    {
      classOf, cells, rep, height, top, asked := map[], [], [], [], 0, {};
    }

    /** `walkrec`: follows the links from `r`, and makes the cell before the last one (`p2`)
        skip a link. */
    method Walk(p1: Option<nat>, p2: Option<nat>, r: nat) returns (root: nat)
      requires Valid() && r < |cells|
      requires p1.Some? ==>
        p1.value < |cells| && cells[p1.value].Link? && rep[p1.value] == rep[r] &&
        height[p1.value] < height[r]
      requires p2.Some? ==>
        p2.value < |cells| && cells[p2.value].Link? && rep[p2.value] == rep[r] &&
        height[p2.value] < height[r]
      modifies this`cells
      ensures Valid() && |cells| == old(|cells|) && root == rep[r] && cells[root].Weight?
      ensures forall i :: 0 <= i < |cells| && old(cells)[i].Weight? ==> cells[i] == old(cells)[i]
      decreases top - height[r]
    {
      if p2.Some? {
        ForestSkip(cells, rep, height, top, p2.value, r);
        cells := cells[p2.value := Link(r)];
      }
      match cells[r]
      case Weight(_) => root := r;
      case Link(x) => root := Walk(Some(r), p1, x);
    }

    method Find(v: Value) returns (root: Option<nat>)
      requires Valid()
      modifies this`cells
      ensures Valid() && |cells| == old(|cells|)
      ensures forall i :: 0 <= i < |cells| && old(cells)[i].Weight? ==> cells[i] == old(cells)[i]
      ensures root == if v in classOf then Some(rep[classOf[v]]) else None
    {
      if v in classOf {
        var r := Walk(None, None, classOf[v]);
        root := Some(r);
      } else {
        root := None;
      }
    }

    /** `alreadyEq`: are the two values in one class? If not, they are afterwards. */
    method AlreadyEq(x: Value, y: Value, ghost U: set<Value>) returns (b: bool)
      requires Valid() && {x, y} <= U
      modifies this
      ensures Valid() && asked == old(asked)
      ensures b <==> x in old(Partition()) && y in old(Partition()) && old(Partition())[x] == old(Partition())[y]
      ensures b ==> Partition() == old(Partition())
      ensures !b ==>
        Joins(old(Partition()), x, y, Partition()) &&
        Measure(U, Partition()) < Measure(U, old(Partition()))
    {
      hide Joins, Moved, ClassesOf, Forest, Measure;
      var rx := Find(x);
      var ry := Find(y);
      ghost var c := Partition();
      RootsOf(x);
      RootsOf(y);
      match (rx, ry)
      case (None, None) =>
        b := false;
        AddClass(x, y, U);
      case (None, Some(r)) =>
        b := false;
        AddTo(x, y, r, U);
      case (Some(r), None) =>
        b := false;
        AddTo(y, x, r, U);
      case (Some(r1), Some(r2)) =>
        b := r1 == r2;
        if !b {
          JoinsMoved(c, x, y, r1, r2);
          JoinsMoved(c, x, y, r2, r1);
          assert c[x] in c.Values && c[y] in c.Values;
          MeasureMoved(U, c, r1, r2);
          MeasureMoved(U, c, r2, r1);
          if cells[r1].w < cells[r2].w {
            Attach(r1, r2);
          } else {
            Attach(r2, r1);
          }
        }
    }

    lemma RootsOf(v: Value)
      requires Valid()
      ensures |rep| == |cells| == |height|
      ensures v in classOf ==>
        var r := rep[classOf[v]]; Partition()[v] == r && r < |cells| && cells[r].Weight? && rep[r] == r
      ensures |cells| !in Partition().Values
    {
    }

    /** Neither value has been met: `[1]` is their new class. */
    method AddClass(x: Value, y: Value, ghost U: set<Value>)
      requires Valid() && x !in classOf && y !in classOf && {x, y} <= U
      modifies this
      ensures Valid() && Joins(old(Partition()), x, y, Partition()) && asked == old(asked)
      ensures Measure(U, Partition()) < Measure(U, old(Partition()))
    {
      hide Measure, Joins, Forest, ClassesOf, Added;
      ghost var c := Partition();
      var v := |cells|;
      RootsOf(x);
      JoinsNew(c, x, y, v);
      MeasureNew(U, c, x, y, v);
      ForestGrown(cells, rep, height, top);
      ClassesAdded(classOf, classOf[x := v][y := v], rep, x, y);
      cells := cells + [Weight(1)];
      rep, height := rep + [v], height + [0];
      classOf := classOf[x := v][y := v];
    }

    /** `x` joins the class of `y`. */
    method AddTo(x: Value, y: Value, r: nat, ghost U: set<Value>)
      requires Valid() && x in U && x !in classOf && y in classOf && r == rep[classOf[y]] && r < |rep| && rep[r] == r
      modifies this`classOf
      ensures Valid()
      ensures Joins(old(Partition()), x, y, Partition()) && Joins(old(Partition()), y, x, Partition())
      ensures Measure(U, Partition()) < Measure(U, old(Partition()))
    {
      hide Joins, Forest, Measure;
      ghost var c := Partition();
      MeasureAdded(U, c, x, y);
      JoinsAdded(c, x, y);
      classOf := classOf[x := r];
      assert Partition() == c[x := c[y]];
    }

    lemma SizesOf()
      requires Valid()
      ensures |rep| == |cells| == |height|
    {
    }

    /** The root `loser` becomes a cell of the class of `winner`, which gains its weight. */
    method Attach(loser: nat, winner: nat)
      requires Valid() && loser < |cells| && winner < |cells| && loser != winner
      requires cells[loser].Weight? && cells[winner].Weight?
      modifies this
      ensures Valid() && Partition() == Moved(old(Partition()), loser, winner) && asked == old(asked)
    {
      hide Forest;
      SizesOf();
      ForestAttach(cells, rep, height, top, loser, winner, cells[winner].w + cells[loser].w);
      ghost var c := Partition();
      cells := cells[winner := Weight(cells[winner].w + cells[loser].w)];
      cells := cells[loser := Link(winner)];
      rep, height, top := Redirect(rep, loser, winner), height[winner := top + 1], top + 1;
      assert Partition() == Moved(c, loser, winner);
    }

    // The comparison

    /** `cmpargs`: the lengths, then the components in order up to the first difference. */
    method CmpArgs(h: Heap, x: Value, y: Value, from: nat, ghost U: set<Value>) returns (diff: int)
      requires WellFormed(h) && Universe(h, U) && x in U && y in U && Valid()
      requires KindOf(h, x) == KindOf(h, y) && KindOf(h, x) in {1, 2, 3} && from == (if KindOf(h, x) == 3 then 1 else 0)
      requires Inside(U, Partition(), asked) && Generated(h, U, asked, Partition())
      modifies this
      ensures Valid() && Progress(h, U, old(Partition()), old(asked), Partition(), asked)
      ensures diff == 0 ==> |Items(h, x)| == |Items(h, y)| && DoneSince(h, Partition(), old(asked), asked)
      ensures diff == 0 ==> forall i :: 0 <= i < |Items(h, x)| ==> Same(Partition(), Items(h, x)[i], Items(h, y)[i])
      ensures PartsBisimilar(h, x, y) && Fine(h, U, old(Partition())) ==> diff == 0 && Fine(h, U, Partition())
      ensures if |Items(h, x)| != |Items(h, y)|
        then diff == |Items(h, x)| - |Items(h, y)| && Partition() == old(Partition())
        else Answers(AnswerAll(h, U, old(Partition()), Items(h, x), Items(h, y)), diff, Partition())
      decreases Measure(U, Partition()), 2
    {
      hide Measure, Generated, Same, Fine, Bisimilar, Forest, ClassesOf, Agreeing, Answer, AnswerAll, Equivalent,
        Answers, Inside, DoneSince;
      ghost var xs, ys := Items(h, x), Items(h, y);
      ItemsInside(h, U, x);
      ItemsInside(h, U, y);
      diff := Length(h, x) - Length(h, y);
      ghost var c0, G0 := Partition(), asked;
      NothingSince(h, c0, G0);
      if diff == 0 {
        NothingCompared(h, U, c0, xs, ys);
      }
      var i := from;
      while i < Length(h, x) && diff == 0
        invariant from <= i <= Length(h, x) && Valid() && Progress(h, U, c0, G0, Partition(), asked)
        invariant diff == 0 ==> |xs| == |ys| && DoneSince(h, Partition(), G0, asked)
        invariant diff == 0 ==> forall j :: 0 <= j < i - from ==> Same(Partition(), xs[j], ys[j])
        invariant PartsBisimilar(h, x, y) && Fine(h, U, c0) ==> diff == 0 && Fine(h, U, Partition())
        invariant if |xs| != |ys| then diff == |xs| - |ys| && Partition() == c0
          else Answers(AnswerAll(h, U, c0, xs[..i - from], ys[..i - from]), diff, Partition())
        decreases Length(h, x) - i
      {
        ghost var c1, G1 := Partition(), asked;
        diff := CmpRec(h, Items(h, x)[i - from], Items(h, y)[i - from], U);
        ProgressTrans(h, U, c0, G0, c1, G1, Partition(), asked);
        if diff == 0 {
          DoneTrans(h, c1, Partition(), G0, G1, asked);
        }
        OneMoreCompared(h, U, c0, c1, Partition(), xs, ys, i - from, diff);
        i := i + 1;
      }
      AllCompared(h, U, c0, xs, ys, i - from, diff, Partition());
    }

    /** `cmprec`. */
    method CmpRec(h: Heap, x: Value, y: Value, ghost U: set<Value>) returns (diff: int)
      requires WellFormed(h) && Universe(h, U) && x in U && y in U && Valid()
      requires Inside(U, Partition(), asked) && Generated(h, U, asked, Partition())
      modifies this
      ensures Valid() && Progress(h, U, old(Partition()), old(asked), Partition(), asked)
      ensures diff == 0 ==> Same(Partition(), x, y) && DoneSince(h, Partition(), old(asked), asked)
      ensures Bisimilar(h, x, y) && Fine(h, U, old(Partition())) ==> diff == 0 && Fine(h, U, Partition())
      ensures Answers(Answer(h, U, old(Partition()), x, y), diff, Partition())
      decreases Measure(U, Partition()), 1
    {
      hide Measure, Generated, Same, Fine, Bisimilar, Forest, ClassesOf, Agreeing, PartsBisimilar, Joins, Coarser,
        DoneSince, Answer, AnswerAll, Answers;
      ghost var c0, G0 := Partition(), asked;
      var known := AlreadyEq(x, y, U);
      if known {
        NothingDone(h, U, c0, G0, x, y);
        AnswersKnown(h, U, c0, x, y);
        return 0;
      }
      ghost var c1 := Partition();
      asked := asked + {(x, y)};
      JoinedProgress(h, U, c0, G0, x, y, c1);
      AgreeingTested(h, x, y);
      if Bisimilar(h, x, y) {
        BisimilarStep(h, x, y);
        if Fine(h, U, c0) {
          FineJoins(h, U, c0, x, y, c1);
        }
      }
      diff := KindOf(h, x) - KindOf(h, y);
      if diff == 0 {
        if KindOf(h, x) in {0, 4} {
          diff := Compare(h, x, y);
          NothingSince(h, c1, asked);
        } else {
          diff := Head(h, x) - Head(h, y);
          if diff == 0 {
            diff := CmpArgs(h, x, y, if KindOf(h, x) == 3 then 1 else 0, U);
            ProgressTrans(h, U, c0, G0, c1, G0 + {(x, y)}, Partition(), asked);
            AnswersJoined(h, U, c0, c1, Partition(), x, y, diff);
          }
        }
      }
      if KindOf(h, x) != KindOf(h, y) || KindOf(h, x) in {0, 4} || Head(h, x) != Head(h, y) {
        AnswersAtOnce(h, U, c0, c1, x, y, diff);
      }
      if diff == 0 {
        PairDone(h, x, y, c1, Partition(), G0, asked);
      }
    }

    // The whole comparison

    /** `=?=` answers 0 exactly when nothing tells the two values apart, on every finite heap,
        shared or cyclic. */
    static method CompareData(h: Heap, x: Value, y: Value) returns (diff: int)
      requires WellFormed(h) && Known(h, x) && Known(h, y)
      ensures diff == 0 <==> Bisimilar(h, x, y)
      ensures diff == Difference(h, x, y)
    {
      hide Alike, Measure, Answer;
      var m := new Comparer();
      ghost var U := Values(h) + {x, y};
      ValuesClosed(h, x, y);
      assert Generated(h, U, {}, map[]) && Fine(h, U, map[]) by { NothingJoined(h, U); }
      diff := m.CmpRec(h, x, y, U);
      if diff == 0 {
        forall k: nat ensures Alike(h, x, y, k) {
          AllDone(h, U, m.asked, m.Partition(), k);
          assert SameAlike(h, U, m.Partition(), k);
        }
      }
    }

    /** `===`. */
    static method EqualData(h: Heap, x: Value, y: Value) returns (b: bool)
      requires WellFormed(h) && Known(h, x) && Known(h, y)
      ensures b <==> Bisimilar(h, x, y)
    {
      var diff := CompareData(h, x, y);
      b := diff == 0;
    }
  }
}

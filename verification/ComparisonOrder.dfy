/** The order that `=?=` puts values in: which of two values is less, told from the values
    themselves. */
module ComparisonOrder {
  import opened Wrappers
  import opened Comparison
  import FlatOrder

  // Values without components

  /** In the order of a dictionary: at the first difference the left text has the smaller
      character, or has ended. */
  ghost predicate TextLess(a: seq<Char>, b: seq<Char>) {
    exists k: nat :: TextLessAt(a, b, k)
  }

  predicate TextLessAt(a: seq<Char>, b: seq<Char>, k: nat) {
    k <= |a| && k < |b| && a[..k] == b[..k] && (k == |a| || a[k] < b[k])
  }

  lemma {:induction false} StrCmpSign(s: seq<Char>, t: seq<Char>)
    ensures StrCmp(s, t) < 0 <==> TextLess(Text(s), Text(t))
    decreases |s|
  {
    var a, b := Text(s), Text(t);
    if First(s) == First(t) != 0 {
      StrCmpSign(s[1..], t[1..]);
      LessAfter(First(s), Text(s[1..]), Text(t[1..]));
    } else {
      assert TextLessAt(a, b, 0) <==> First(s) < First(t);
      assert First(s) < First(t) ==> TextLessAt(a, b, 0);
      forall k: nat | k > 0 ensures !TextLessAt(a, b, k) {
        assert k <= |a| && k < |b| ==> a[..k][0] == a[0] && b[..k][0] == b[0];
      }
    }
  }

  lemma LessAfter(c: Char, a: seq<Char>, b: seq<Char>)
    ensures TextLess([c] + a, [c] + b) <==> TextLess(a, b)
  {
    var x, y := [c] + a, [c] + b;
    if k: nat :| TextLessAt(a, b, k) {
      assert x[..k + 1] == [c] + a[..k] && y[..k + 1] == [c] + b[..k];
      assert TextLessAt(x, y, k + 1);
    }
    if k: nat :| TextLessAt(x, y, k) {
      assert k > 0;
      assert x[..k] == [c] + a[..k - 1] && y[..k] == [c] + b[..k - 1];
      assert a[..k - 1] == x[..k][1..] && b[..k - 1] == y[..k][1..];
      assert TextLessAt(a, b, k - 1);
    }
  }

  /** Integers come in their order as long as they are at most 2^30 apart. */
  predicate IntLess(m: Int31, n: Int31) {
    (m < n && n - m <= FlatOrder.HALF) || m - n >= FlatOrder.HALF
  }

  /** Strings, arrays, s-expressions, closures, integers. */
  predicate KindLess(h: Heap, x: Value, y: Value)
    requires Known(h, x) && Known(h, y)
  {
    x.Boxed? && (y.Unboxed? ||
      match h[x.loc]
      case Str(_) => !h[y.loc].Str?
      case Arr(_) => h[y.loc].Sexp? || h[y.loc].Fun?
      case Sexp(_, _) => h[y.loc].Fun?
      case Fun(_, _) => false)
  }

  predicate SameKind(h: Heap, x: Value, y: Value)
    requires Known(h, x) && Known(h, y)
  {
    !KindLess(h, x, y) && !KindLess(h, y, x)
  }

  // Values with components

  /** Nothing is `k` steps inside the value: it is a tree of this height at most. */
  ghost predicate Shallow(h: Heap, v: Value, k: nat)
    requires WellFormed(h) && Known(h, v)
    decreases k
  {
    k > 0 && forall i :: 0 <= i < |Items(h, v)| ==> Shallow(h, Items(h, v)[i], k - 1)
  }

  /** The value `x` comes before `y`, looking at most `k` steps inside. */
  ghost predicate Before(h: Heap, x: Value, y: Value, k: nat)
    requires WellFormed(h) && Known(h, x) && Known(h, y)
    decreases k, 1
  {
    || KindLess(h, x, y)
    || (x.Unboxed? && y.Unboxed? && IntLess(x.n, y.n))
    || (x.Boxed? && y.Boxed? && match (h[x.loc], h[y.loc])
        case (Str(s), Str(t)) => TextLess(Text(s), Text(t))
        case (Arr(_), Arr(_)) => PartsBefore(h, x, y, k)
        case (Sexp(t, _), Sexp(u, _)) => t < u || (t == u && PartsBefore(h, x, y, k))
        case (Fun(e, _), Fun(f, _)) => e < f || (e == f && PartsBefore(h, x, y, k))
        case _ => false)
  }

  /** Fewer components, or as many and the first difference decides. */
  ghost predicate PartsBefore(h: Heap, x: Value, y: Value, k: nat)
    requires WellFormed(h) && x.Boxed? && y.Boxed? && Known(h, x) && Known(h, y) && !h[x.loc].Str? && !h[y.loc].Str?
    decreases k, 0
  {
    assert h[x.loc].items == Items(h, x) && h[y.loc].items == Items(h, y);
    |h[x.loc].items| < |h[y.loc].items| || (k > 0 && ListBefore(h, h[x.loc].items, h[y.loc].items, k - 1))
  }

  ghost predicate ListKnown(h: Heap, xs: seq<Value>) {
    forall i :: 0 <= i < |xs| ==> Known(h, xs[i])
  }

  ghost predicate ListBefore(h: Heap, xs: seq<Value>, ys: seq<Value>, k: nat)
    requires WellFormed(h) && ListKnown(h, xs) && ListKnown(h, ys)
    decreases k, 2
  {
    |xs| == |ys| && exists i ::
      0 <= i < |xs| && (forall j :: 0 <= j < i ==> Bisimilar(h, xs[j], ys[j])) && Before(h, xs[i], ys[i], k)
  }

  lemma PartsCompared(h: Heap, x: Value, y: Value, k: nat)
    requires WellFormed(h) && x.Boxed? && y.Boxed? && Known(h, x) && Known(h, y) && !h[x.loc].Str? && !h[y.loc].Str?
    ensures Items(h, x) == h[x.loc].items && Items(h, y) == h[y.loc].items
    ensures ListKnown(h, Items(h, x)) && ListKnown(h, Items(h, y))
    ensures PartsBefore(h, x, y, k) <==> if |Items(h, x)| != |Items(h, y)| then |Items(h, x)| < |Items(h, y)|
      else k > 0 && ListBefore(h, Items(h, x), Items(h, y), k - 1)
  {
    hide Before, Bisimilar;
    assert ListKnown(h, Items(h, x)) && ListKnown(h, Items(h, y));
  }

  // Heights

  lemma {:induction false} ShallowMore(h: Heap, v: Value, j: nat, k: nat)
    requires WellFormed(h) && Known(h, v) && j <= k && Shallow(h, v, j)
    ensures Shallow(h, v, k)
    decreases j
  {
    forall i | 0 <= i < |Items(h, v)| ensures Shallow(h, Items(h, v)[i], k - 1) {
      ShallowMore(h, Items(h, v)[i], j - 1, k - 1);
    }
  }

  lemma {:induction false} ShallowSame(h: Heap, x: Value, y: Value, k: nat)
    requires WellFormed(h) && Known(h, x) && Known(h, y) && Bisimilar(h, x, y) && Shallow(h, x, k)
    ensures Shallow(h, y, k)
    decreases k
  {
    hide Alike, Bisimilar;
    BisimilarStep(h, x, y);
    forall i | 0 <= i < |Items(h, y)| ensures Shallow(h, Items(h, y)[i], k - 1) {
      ShallowSame(h, Items(h, x)[i], Items(h, y)[i], k - 1);
    }
  }

  lemma BisimilarSym(h: Heap, x: Value, y: Value)
    requires WellFormed(h) && Known(h, x) && Known(h, y) && Bisimilar(h, x, y)
    ensures Bisimilar(h, y, x)
  {
    hide Alike;
    forall k: nat ensures Alike(h, y, x, k) {
      AlikeSym(h, x, y, k);
    }
  }

  lemma BisimilarTrans(h: Heap, x: Value, y: Value, z: Value)
    requires WellFormed(h) && Known(h, x) && Known(h, y) && Known(h, z) && Bisimilar(h, x, y) && Bisimilar(h, y, z)
    ensures Bisimilar(h, x, z)
  {
    hide Alike;
    forall k: nat ensures Alike(h, x, z, k) {
      AlikeTrans(h, x, y, z, k);
    }
  }

  lemma BisimilarRefl(h: Heap, x: Value)
    requires WellFormed(h) && Known(h, x)
    ensures Bisimilar(h, x, x)
  {
    hide Alike;
    forall k: nat ensures Alike(h, x, x, k) {
      AlikeRefl(h, x, k);
    }
  }

  /** Bisimilar, or both higher than `m`. */
  ghost predicate Near(h: Heap, u: Value, v: Value, m: nat)
    requires WellFormed(h) && Known(h, u) && Known(h, v)
  {
    Bisimilar(h, u, v) || (!Shallow(h, u, m) && !Shallow(h, v, m))
  }

  lemma NearSym(h: Heap, u: Value, v: Value, m: nat)
    requires WellFormed(h) && Known(h, u) && Known(h, v) && Near(h, u, v, m)
    ensures Near(h, v, u, m)
  {
    hide Bisimilar, Shallow;
    if Bisimilar(h, u, v) {
      BisimilarSym(h, u, v);
    }
  }

  lemma NearTrans(h: Heap, u: Value, v: Value, w: Value, m: nat)
    requires WellFormed(h) && Known(h, u) && Known(h, v) && Known(h, w) && Near(h, u, v, m) && Near(h, v, w, m)
    ensures Near(h, u, w, m)
  {
    hide Bisimilar, Shallow;
    if Bisimilar(h, u, v) {
      BisimilarSym(h, u, v);
      if Bisimilar(h, v, w) {
        BisimilarTrans(h, u, v, w);
      } else if Shallow(h, u, m) {
        ShallowSame(h, u, v, m);
      }
    } else if Bisimilar(h, v, w) && Shallow(h, w, m) {
      BisimilarSym(h, v, w);
      ShallowSame(h, w, v, m);
    }
  }

  /** Among values that are not higher than `m` the classes hold bisimilar ones only. */
  ghost predicate Within(h: Heap, U: set<Value>, c: Classes, m: nat)
    requires WellFormed(h) && Universe(h, U)
  {
    forall u, v :: u in U && v in U && Same(c, u, v) ==> Near(h, u, v, m)
  }

  lemma WithinLess(h: Heap, U: set<Value>, c: Classes, j: nat, m: nat)
    requires WellFormed(h) && Universe(h, U) && j <= m && Within(h, U, c, m)
    ensures Within(h, U, c, j)
  {
    hide Same, Bisimilar, Shallow;
    forall u, v | u in U && v in U && Same(c, u, v) ensures Near(h, u, v, j) {
      if Shallow(h, u, j) {
        ShallowMore(h, u, j, m);
      }
      if Shallow(h, v, j) {
        ShallowMore(h, v, j, m);
      }
    }
  }

  lemma WithinJoins(h: Heap, U: set<Value>, c: Classes, x: Value, y: Value, d: Classes, m: nat)
    requires WellFormed(h) && Universe(h, U) && x in U && y in U
    requires Within(h, U, c, m) && Joins(c, x, y, d) && Near(h, x, y, m)
    ensures Within(h, U, d, m)
  {
    hide Same, Near;
    forall u, v | u in U && v in U && Same(d, u, v) ensures Near(h, u, v, m) {
      if !Same(c, u, v) {
        if Same(c, u, x) && Same(c, y, v) {
          NearTrans(h, u, x, y, m);
          NearTrans(h, u, y, v, m);
        } else {
          NearSym(h, x, y, m);
          NearTrans(h, u, y, x, m);
          NearTrans(h, u, x, v, m);
        }
      }
    }
  }

  /** How far one looks does not matter beyond the height of one of the values. */
  lemma {:induction false} BeforeMore(h: Heap, x: Value, y: Value, j: nat, k: nat)
    requires WellFormed(h) && Known(h, x) && Known(h, y) && j <= k && (Shallow(h, x, j) || Shallow(h, y, j))
    ensures Before(h, x, y, j) <==> Before(h, x, y, k)
    decreases j, 1
  {
    if x.Boxed? && y.Boxed? && !h[x.loc].Str? && !h[y.loc].Str? {
      PartsMore(h, x, y, j, k);
    }
    hide PartsBefore, Shallow, Bisimilar, TextLess;
  }

  lemma {:induction false} PartsMore(h: Heap, x: Value, y: Value, j: nat, k: nat)
    requires WellFormed(h) && x.Boxed? && y.Boxed? && Known(h, x) && Known(h, y) && !h[x.loc].Str? && !h[y.loc].Str?
    requires j <= k && (Shallow(h, x, j) || Shallow(h, y, j))
    ensures PartsBefore(h, x, y, j) <==> PartsBefore(h, x, y, k)
    decreases j, 0
  {
    hide PartsBefore, ListBefore, Before, Bisimilar;
    PartsCompared(h, x, y, j);
    PartsCompared(h, x, y, k);
    if |Items(h, x)| == |Items(h, y)| {
      ListMore(h, Items(h, x), Items(h, y), j - 1, k - 1);
    }
  }

  lemma {:induction false} ListMore(h: Heap, xs: seq<Value>, ys: seq<Value>, j: nat, k: nat)
    requires WellFormed(h) && ListKnown(h, xs) && ListKnown(h, ys) && j <= k && |xs| == |ys|
    requires forall i :: 0 <= i < |xs| ==> Shallow(h, xs[i], j) || Shallow(h, ys[i], j)
    ensures ListBefore(h, xs, ys, j) <==> ListBefore(h, xs, ys, k)
    decreases j, 2
  {
    hide Before, Shallow, Bisimilar;
    forall i | 0 <= i < |xs| ensures Before(h, xs[i], ys[i], j) <==> Before(h, xs[i], ys[i], k) {
      BeforeMore(h, xs[i], ys[i], j, k);
    }
  }

  // The answer

  /** What an answer has to say about two values. */
  ghost predicate Tells(h: Heap, x: Value, y: Value, k: nat, r: int)
    requires WellFormed(h) && Known(h, x) && Known(h, y)
  {
    (r == 0 <==> Bisimilar(h, x, y)) && (r < 0 <==> Before(h, x, y, k))
  }

  ghost predicate ListBisimilar(h: Heap, xs: seq<Value>, ys: seq<Value>)
    requires WellFormed(h) && ListKnown(h, xs) && ListKnown(h, ys)
  {
    |xs| == |ys| && forall i :: 0 <= i < |xs| ==> Bisimilar(h, xs[i], ys[i])
  }

  /** No component has to be looked at. */
  predicate Simple(h: Heap, x: Value, y: Value)
    requires Known(h, x) && Known(h, y)
  {
    || KindOf(h, x) != KindOf(h, y) || KindOf(h, x) in {0, 4} || Head(h, x) != Head(h, y)
    || |Items(h, x)| != |Items(h, y)|
  }

  function SimpleAnswer(h: Heap, x: Value, y: Value): int
    requires Known(h, x) && Known(h, y)
  {
    if KindOf(h, x) != KindOf(h, y) then KindOf(h, x) - KindOf(h, y)
    else if KindOf(h, x) in {0, 4} then Compare(h, x, y)
    else if Head(h, x) != Head(h, y) then Head(h, x) - Head(h, y)
    else |Items(h, x)| - |Items(h, y)|
  }

  lemma SimpleSign(h: Heap, x: Value, y: Value, k: nat)
    requires WellFormed(h) && Known(h, x) && Known(h, y) && Simple(h, x, y)
    ensures SimpleAnswer(h, x, y) < 0 <==> Before(h, x, y, k)
  {
    hide FlatOrder.Boxed, TextLess, StrCmp, Bisimilar;
    if x.Unboxed? && y.Unboxed? {
      BoxedDifference(x.n, y.n);
    } else if x.Boxed? && y.Boxed? && h[x.loc].Str? && h[y.loc].Str? {
      StrCmpSign(h[x.loc].chars, h[y.loc].chars);
    } else if x.Boxed? && y.Boxed? && !h[x.loc].Str? && !h[y.loc].Str? {
      PartsCompared(h, x, y, k);
    }
    hide PartsBefore;
  }

  lemma SimpleZero(h: Heap, x: Value, y: Value)
    requires WellFormed(h) && Known(h, x) && Known(h, y) && Simple(h, x, y)
    ensures SimpleAnswer(h, x, y) == 0 <==> Bisimilar(h, x, y)
  {
    hide FlatOrder.Boxed, StrCmp, Compare, Agreeing, KindOf, Head;
    AgreeingTested(h, x, y);
    if Bisimilar(h, x, y) {
      BisimilarStep(h, x, y);
      assert PartsBisimilar(h, x, y);
    }
  }

  lemma SimpleTells(h: Heap, U: set<Value>, c: Classes, x: Value, y: Value, k: nat)
    requires WellFormed(h) && Universe(h, U) && x in U && y in U && Within(h, U, c, k)
    requires !Met(c, x, y) && Simple(h, x, y)
    ensures var (r, e) := Answer(h, U, c, x, y); Tells(h, x, y, k, r) && (r == 0 ==> Within(h, U, e, k))
  {
    hide Measure, Within, Before, Shallow, Bisimilar, AnswerAll, Joins, Compare, KindOf, Head;
    SimpleSign(h, x, y, k);
    SimpleZero(h, x, y);
    if Bisimilar(h, x, y) {
      WithinJoins(h, U, c, x, y, JoinOf(U, c, x, y), k);
    }
  }

  lemma MetTells(h: Heap, U: set<Value>, c: Classes, x: Value, y: Value, k: nat)
    requires WellFormed(h) && Universe(h, U) && x in U && y in U && Within(h, U, c, k)
    requires Met(c, x, y) && (Shallow(h, x, k) || Shallow(h, y, k))
    ensures Tells(h, x, y, k, 0)
  {
    hide Before, Shallow, Bisimilar;
    assert Same(c, x, y);
    SameNotBefore(h, x, y, k);
  }

  lemma {:induction false} SameNotBefore(h: Heap, x: Value, y: Value, k: nat)
    requires WellFormed(h) && Known(h, x) && Known(h, y) && Bisimilar(h, x, y)
    ensures !Before(h, x, y, k)
    decreases k
  {
    hide Alike, Bisimilar;
    BisimilarStep(h, x, y);
    if Simple(h, x, y) {
      SimpleSign(h, x, y, k);
      SimpleZero(h, x, y);
    } else {
      var xs, ys := Items(h, x), Items(h, y);
      PartsDecide(h, x, y, k);
      hide Before;
      forall i | 0 <= i < |xs| && k > 0 ensures !Before(h, xs[i], ys[i], k - 1) {
        SameNotBefore(h, xs[i], ys[i], k - 1);
      }
    }
  }

  /** Where components decide. */
  lemma PartsDecide(h: Heap, x: Value, y: Value, k: nat)
    requires WellFormed(h) && Known(h, x) && Known(h, y) && !Simple(h, x, y)
    ensures ListKnown(h, Items(h, x)) && ListKnown(h, Items(h, y))
    ensures Bisimilar(h, x, y) <==> ListBisimilar(h, Items(h, x), Items(h, y))
    ensures Before(h, x, y, k) <==> k > 0 && ListBefore(h, Items(h, x), Items(h, y), k - 1)
  {
    hide ListBefore, Bisimilar;
    PartsCompared(h, x, y, k);
    hide PartsBefore;
    assert Agreeing(h, x, y) by { AgreeingTested(h, x, y); }
    if Bisimilar(h, x, y) {
      BisimilarStep(h, x, y);
    }
    if ListBisimilar(h, Items(h, x), Items(h, y)) {
      PartsSuffice(h, x, y);
    }
  }

  lemma PartsSuffice(h: Heap, x: Value, y: Value)
    requires WellFormed(h) && Known(h, x) && Known(h, y) && Agreeing(h, x, y) && PartsBisimilar(h, x, y)
    ensures Bisimilar(h, x, y)
  {
    hide Agreeing;
    forall k: nat ensures Alike(h, x, y, k) {
      forall i | 0 <= i < |Items(h, x)| && k > 0 ensures Alike(h, Items(h, x)[i], Items(h, y)[i], k - 1) {
        assert Bisimilar(h, Items(h, x)[i], Items(h, y)[i]);
      }
    }
  }

  /** The components of a pair of which one is no higher than `k`. */
  lemma PartsShallow(h: Heap, x: Value, y: Value, k: nat)
    requires WellFormed(h) && Known(h, x) && Known(h, y) && !Simple(h, x, y) && (Shallow(h, x, k) || Shallow(h, y, k))
    ensures k > 0 && forall i :: 0 <= i < |Items(h, x)| ==>
      Shallow(h, Items(h, x)[i], k - 1) || Shallow(h, Items(h, y)[i], k - 1)
  {
  }

  /** The least height that one of the values has. */
  lemma {:induction false} LeastHeight(h: Heap, x: Value, y: Value, k: nat) returns (j: nat)
    requires WellFormed(h) && Known(h, x) && Known(h, y) && (Shallow(h, x, k) || Shallow(h, y, k))
    ensures 0 < j <= k && (Shallow(h, x, j) || Shallow(h, y, j)) && !Shallow(h, x, j - 1) && !Shallow(h, y, j - 1)
    decreases k
  {
    j := k;
    if Shallow(h, x, k - 1) || Shallow(h, y, k - 1) {
      j := LeastHeight(h, x, y, k - 1);
    }
  }

  lemma PartsTell(h: Heap, U: set<Value>, c: Classes, x: Value, y: Value, k: nat)
    requires WellFormed(h) && Universe(h, U) && x in U && y in U
    requires Within(h, U, c, k) && (Shallow(h, x, k) || Shallow(h, y, k)) && !Met(c, x, y) && !Simple(h, x, y)
    ensures var (r, e) := Answer(h, U, c, x, y); Tells(h, x, y, k, r) && (r == 0 ==> Within(h, U, e, k))
    decreases Measure(U, c), 0, 0
  {
    hide Measure, Within, Before, Shallow, Bisimilar, AnswerAll, Joins, ListBefore, Compare, KindOf, Head,
      ListBisimilar;
    var d := JoinOf(U, c, x, y);
    var xs, ys := Items(h, x), Items(h, y);
    assert Answer(h, U, c, x, y) == AnswerAll(h, U, d, xs, ys);
    PartsDecide(h, x, y, k);
    var j := LeastHeight(h, x, y, k);
    PartsShallow(h, x, y, j);
    ListMore(h, xs, ys, j - 1, k - 1);
    if Bisimilar(h, x, y) {
      WithinJoins(h, U, c, x, y, d, k);
      forall i | 0 <= i < |xs| ensures Shallow(h, xs[i], k) || Shallow(h, ys[i], k) {
        PairMore(h, xs[i], ys[i], j - 1, k);
      }
      ListMore(h, xs, ys, j - 1, k);
      ListTells(h, U, d, xs, ys, k);
    } else {
      WithinLess(h, U, c, j - 1, k);
      WithinJoins(h, U, c, x, y, d, j - 1);
      ListTells(h, U, d, xs, ys, j - 1);
    }
  }

  lemma PairMore(h: Heap, x: Value, y: Value, j: nat, k: nat)
    requires WellFormed(h) && Known(h, x) && Known(h, y) && j <= k && (Shallow(h, x, j) || Shallow(h, y, j))
    ensures Shallow(h, x, k) || Shallow(h, y, k)
  {
    hide Shallow;
    if Shallow(h, x, j) {
      ShallowMore(h, x, j, k);
    } else {
      ShallowMore(h, y, j, k);
    }
  }

  lemma {:induction false} ListTells(h: Heap, U: set<Value>, c: Classes, xs: seq<Value>, ys: seq<Value>, k: nat)
    requires WellFormed(h) && Universe(h, U) && |xs| == |ys| && Within(h, U, c, k)
    requires forall i :: 0 <= i < |xs| ==> xs[i] in U && ys[i] in U
    requires forall i :: 0 <= i < |xs| ==>
      Known(h, xs[i]) && Known(h, ys[i]) && (Shallow(h, xs[i], k) || Shallow(h, ys[i], k))
    ensures var (r, e) := AnswerAll(h, U, c, xs, ys);
      && (r == 0 <==> ListBisimilar(h, xs, ys)) && (r < 0 <==> ListBefore(h, xs, ys, k))
      && (r == 0 ==> Within(h, U, e, k))
    decreases Measure(U, c), 2, |xs|
  {
    hide Measure, Within, Before, Shallow, Bisimilar, Answer;
    if xs != [] {
      AnswerTells(h, U, c, xs[0], ys[0], k);
      var (r, d) := Answer(h, U, c, xs[0], ys[0]);
      if r == 0 {
        ListTells(h, U, d, xs[1..], ys[1..], k);
        ListTail(h, xs, ys, k);
      } else {
        ListHead(h, xs, ys, k);
      }
    }
  }

  lemma ListTail(h: Heap, xs: seq<Value>, ys: seq<Value>, k: nat)
    requires WellFormed(h) && ListKnown(h, xs) && ListKnown(h, ys) && |xs| == |ys| > 0
    requires Bisimilar(h, xs[0], ys[0]) && !Before(h, xs[0], ys[0], k)
    ensures ListBisimilar(h, xs, ys) <==> ListBisimilar(h, xs[1..], ys[1..])
    ensures ListBefore(h, xs, ys, k) <==> ListBefore(h, xs[1..], ys[1..], k)
  {
    hide Before, Bisimilar;
    var xt, yt := xs[1..], ys[1..];
    if i :| 0 <= i < |xt| && (forall j :: 0 <= j < i ==> Bisimilar(h, xt[j], yt[j])) && Before(h, xt[i], yt[i], k) {
      forall j | 0 <= j < i + 1 ensures Bisimilar(h, xs[j], ys[j]) {
        assert j > 0 ==> xs[j] == xt[j - 1] && ys[j] == yt[j - 1];
      }
      assert Before(h, xs[i + 1], ys[i + 1], k);
    }
    if i :| 0 <= i < |xs| && (forall j :: 0 <= j < i ==> Bisimilar(h, xs[j], ys[j])) && Before(h, xs[i], ys[i], k) {
      assert i > 0 && Before(h, xt[i - 1], yt[i - 1], k);
    }
    if ListBisimilar(h, xt, yt) {
      forall i | 0 <= i < |xs| ensures Bisimilar(h, xs[i], ys[i]) {
        assert i > 0 ==> xs[i] == xt[i - 1] && ys[i] == yt[i - 1];
      }
    }
  }

  lemma ListHead(h: Heap, xs: seq<Value>, ys: seq<Value>, k: nat)
    requires WellFormed(h) && ListKnown(h, xs) && ListKnown(h, ys) && |xs| == |ys| > 0 && !Bisimilar(h, xs[0], ys[0])
    ensures !ListBisimilar(h, xs, ys)
    ensures ListBefore(h, xs, ys, k) <==> Before(h, xs[0], ys[0], k)
  {
    hide Before, Bisimilar;
  }

  /** Whatever has been met before, as long as it was not wrong about values of this height, the
      answer is that of the order. */
  lemma {:induction false} AnswerTells(h: Heap, U: set<Value>, c: Classes, x: Value, y: Value, k: nat)
    requires WellFormed(h) && Universe(h, U) && x in U && y in U
    requires Within(h, U, c, k) && (Shallow(h, x, k) || Shallow(h, y, k))
    ensures var (r, e) := Answer(h, U, c, x, y); Tells(h, x, y, k, r) && (r == 0 ==> Within(h, U, e, k))
    decreases Measure(U, c), 1, 0
  {
    hide Measure, Within, Before, Shallow, Bisimilar, AnswerAll, Joins;
    if Met(c, x, y) {
      MetTells(h, U, c, x, y, k);
    } else {
      hide Answer;
      if Simple(h, x, y) {
        SimpleTells(h, U, c, x, y, k);
      } else {
        PartsTell(h, U, c, x, y, k);
      }
    }
  }

  /** Which of two values `=?=` finds to be less, if one of them is a tree. */
  lemma LessExactly(h: Heap, x: Value, y: Value, k: nat)
    requires WellFormed(h) && Known(h, x) && Known(h, y) && (Shallow(h, x, k) || Shallow(h, y, k))
    ensures Difference(h, x, y) < 0 <==> Before(h, x, y, k)
    ensures Difference(h, x, y) == 0 <==> Bisimilar(h, x, y)
  {
    hide Answer, Before, Shallow, Bisimilar;
    ValuesClosed(h, x, y);
    var U := Values(h) + {x, y};
    forall u | u in U ensures Near(h, u, u, k) {
      BisimilarRefl(h, u);
    }
    AnswerTells(h, U, map[], x, y, k);
  }

  /** What needs no component decides on all values, cyclic ones too: kinds, integers, strings,
      tags, entry points and lengths. */
  lemma DecidedAtOnce(h: Heap, x: Value, y: Value)
    requires WellFormed(h) && Known(h, x) && Known(h, y)
    ensures KindLess(h, x, y) ==> Difference(h, x, y) < 0 && Difference(h, y, x) > 0
    ensures x.Unboxed? && y.Unboxed? ==> (Difference(h, x, y) < 0 <==> IntLess(x.n, y.n))
    ensures x.Boxed? && y.Boxed? ==>
      match (h[x.loc], h[y.loc])
      case (Str(s), Str(t)) => Difference(h, x, y) < 0 <==> TextLess(Text(s), Text(t))
      case (Arr(xs), Arr(ys)) => |xs| != |ys| ==> (Difference(h, x, y) < 0 <==> |xs| < |ys|)
      case (Sexp(t, xs), Sexp(u, ys)) =>
        t != u || |xs| != |ys| ==> (Difference(h, x, y) < 0 <==> t < u || (t == u && |xs| < |ys|))
      case (Fun(e, xs), Fun(f, ys)) =>
        e != f || |xs| != |ys| ==> (Difference(h, x, y) < 0 <==> e < f || (e == f && |xs| < |ys|))
      case _ => true
  {
    hide FlatOrder.Boxed, TextLess, StrCmp, Compare, Difference, PartsBefore, Bisimilar;
    SimplyAnswered(h, x, y);
    SimplyAnswered(h, y, x);
    if Simple(h, x, y) {
      SimpleSign(h, x, y, 0);
    }
    if x.Boxed? && y.Boxed? && !h[x.loc].Str? && !h[y.loc].Str? {
      PartsCompared(h, x, y, 0);
    }
  }

  lemma SimplyAnswered(h: Heap, x: Value, y: Value)
    requires WellFormed(h) && Known(h, x) && Known(h, y)
    ensures Simple(h, x, y) ==> Difference(h, x, y) == SimpleAnswer(h, x, y)
  {
    hide Compare, KindOf, Head, AnswerAll, Values;
  }

  /** Values of one kind, with the same head and as many components, of which one is a tree: the
      answer has the sign of that for the first components that differ. */
  lemma FirstDecides(h: Heap, x: Value, y: Value, k: nat, i: nat)
    requires WellFormed(h) && x.Boxed? && y.Boxed? && Known(h, x) && Known(h, y) && !Simple(h, x, y)
    requires Shallow(h, x, k) || Shallow(h, y, k)
    requires !h[x.loc].Str? && !h[y.loc].Str?
    requires var xs, ys := h[x.loc].items, h[y.loc].items;
      && ListKnown(h, xs) && ListKnown(h, ys) && |xs| == |ys| && i < |xs|
      && (forall j :: 0 <= j < i ==> Bisimilar(h, xs[j], ys[j])) && !Bisimilar(h, xs[i], ys[i])
    ensures var u, v := h[x.loc].items[i], h[y.loc].items[i];
      && (Difference(h, x, y) < 0 <==> Difference(h, u, v) < 0)
      && (Difference(h, x, y) > 0 <==> Difference(h, u, v) > 0)
  {
    hide Difference, Before, Bisimilar, ListBefore, ListBisimilar;
    var xs, ys := Items(h, x), Items(h, y);
    PartsShallow(h, x, y, k);
    hide Shallow;
    LessExactly(h, x, y, k);
    LessExactly(h, xs[i], ys[i], k - 1);
    PartsDecide(h, x, y, k);
    FirstInList(h, xs, ys, i, k - 1);
  }

  lemma {:induction false} FirstInList(h: Heap, xs: seq<Value>, ys: seq<Value>, i: nat, k: nat)
    requires WellFormed(h) && ListKnown(h, xs) && ListKnown(h, ys) && |xs| == |ys| && i < |xs|
    requires (forall j :: 0 <= j < i ==> Bisimilar(h, xs[j], ys[j])) && !Bisimilar(h, xs[i], ys[i])
    ensures !ListBisimilar(h, xs, ys) && (ListBefore(h, xs, ys, k) <==> Before(h, xs[i], ys[i], k))
    decreases i
  {
    hide Before, Bisimilar;
    if i == 0 {
      ListHead(h, xs, ys, k);
    } else {
      SameNotBefore(h, xs[0], ys[0], k);
      ListTail(h, xs, ys, k);
      hide ListBefore, ListBisimilar;
      FirstInList(h, xs[1..], ys[1..], i - 1, k);
    }
  }
}

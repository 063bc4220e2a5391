/** Closure conversion: the closures of functions grow until every recorded call can hand its
    callee the closure it needs. */
module Closures {
  import opened Wrappers

  type Name = string

  datatype Designation = Global(name: Name) | Local(index: nat) | Arg(index: nat) | Access(index: nat) | Fun(name: Name)

  type Closure = seq<Designation>

  /** Functions by name; what a closure holds is named as in the frame of the parent. */
  type Closed = map<Name, Closure>

  /** Which function each function is nested in. Top-level code is nested in nothing. */
  type Nesting = map<Name, Name>

  ghost predicate Nested(t: Nesting, depth: Name -> nat) {
    forall g :: g in t ==> depth(t[g]) < depth(g)
  }

  ghost predicate Distinct<T(!new)>(s: seq<T>) {
    forall i, j :: 0 <= i < j < |s| ==> s[i] != s[j]
  }

  // Positions

  /** `find_index`. */
  function IndexIn(cl: Closure, d: Designation, i: nat): (r: Option<nat>)
    requires i <= |cl|
    ensures r.Some? ==> i <= r.value < |cl| && cl[r.value] == d && forall j :: i <= j < r.value ==> cl[j] != d
    ensures r.None? ==> forall j :: i <= j < |cl| ==> cl[j] != d
    decreases |cl| - i
  {
    if i == |cl| then None else if cl[i] == d then Some(i) else IndexIn(cl, d, i + 1)
  }

  /** The members of `cur` that `cl` lacks, in order. */
  function Missing(cl: Closure, cur: Closure): Closure {
    if cur == [] then []
    else Missing(cl, cur[..|cur| - 1]) + if cur[|cur| - 1] in cl then [] else [cur[|cur| - 1]]
  }

  lemma {:induction false} MissingMembers(cl: Closure, cur: Closure)
    ensures forall d :: d in Missing(cl, cur) <==> d in cur && d !in cl
    ensures Distinct(cur) ==> Distinct(Missing(cl, cur))
    decreases |cur|
  {
    if cur != [] {
      var init, last := cur[..|cur| - 1], cur[|cur| - 1];
      MissingMembers(cl, init);
      assert cur == init + [last];
      if Distinct(cur) {
        assert Distinct(init);
        assert last !in init;
      }
    }
  }

  /** `closure` with what `cur` needs beyond it. */
  function Extended(cl: Closure, cur: Closure): Closure {
    cl + Missing(cl, cur)
  }

  lemma ExtendedHas(cl: Closure, cur: Closure)
    ensures cl <= Extended(cl, cur)
    ensures forall d :: d in Extended(cl, cur) <==> d in cl || d in cur
    ensures Distinct(cl) && Distinct(cur) ==> Distinct(Extended(cl, cur))
  {
    MissingMembers(cl, cur);
    var e, m := Extended(cl, cur), Missing(cl, cur);
    if Distinct(cl) && Distinct(cur) {
      forall i, j | 0 <= i < j < |e| ensures e[i] != e[j] {
        if i < |cl| <= j {
          assert e[j] == m[j - |cl|] && m[j - |cl|] in m;
        } else if |cl| <= i {
          assert e[i] == m[i - |cl|] && e[j] == m[j - |cl|];
        }
      }
    }
  }

  // Meaning

  /** The closure `cur`, named as in the frame above the path, as seen from its lower end. */
  ghost function Down(cl: Closed, path: seq<Name>, cur: Closure): Option<Closure>
    decreases |path|
  {
    if path == [] then Some(cur)
    else if path[0] !in cl then None
    else if exists k :: 0 <= k < |cur| && IndexIn(cl[path[0]], cur[k], 0).None? then None
    else Down(cl, path[1..], Accesses(cl[path[0]], cur))
  }

  /** Every member by its position. */
  function Accesses(cl: Closure, cur: Closure): (r: Closure)
    requires forall k :: 0 <= k < |cur| ==> IndexIn(cl, cur[k], 0).Some?
    ensures |r| == |cur| && forall k :: 0 <= k < |cur| ==> r[k] == Access(IndexIn(cl, cur[k], 0).value)
  {
    seq(|cur|, k requires 0 <= k < |cur| => Access(IndexIn(cl, cur[k], 0).value))
  }

  /** What a designation in the frame at the lower end of the path denotes above the path. */
  function Up(cl: Closed, path: seq<Name>, d: Designation): Option<Designation>
    decreases |path|
  {
    if path == [] then Some(d)
    else
      var g := path[|path| - 1];
      if g in cl && d.Access? && d.index < |cl[g]| then Up(cl, path[..|path| - 1], cl[g][d.index]) else None
  }

  lemma {:induction false} UpSplit(cl: Closed, g: Name, path: seq<Name>, d: Designation)
    ensures Up(cl, [g] + path, d) ==
      match Up(cl, path, d)
      case Some(e) => if g in cl && e.Access? && e.index < |cl[g]| then Some(cl[g][e.index]) else None
      case None => None
    decreases |path|
  {
    var p := [g] + path;
    if path == [] {
      assert p == [g] && p[..0] == [];
      assert forall e :: Up(cl, [], e) == Some(e);
    } else {
      assert p[..|p| - 1] == [g] + path[..|path| - 1] && p[|p| - 1] == path[|path| - 1];
      var h := path[|path| - 1];
      if h in cl && d.Access? && d.index < |cl[h]| {
        UpSplit(cl, g, path[..|path| - 1], cl[h][d.index]);
      }
    }
  }

  /** Going down and back up is where one started: the lower closure denotes the upper one. */
  lemma {:induction false} DownUp(cl: Closed, path: seq<Name>, cur: Closure)
    requires Down(cl, path, cur).Some?
    ensures var low := Down(cl, path, cur).value;
      |low| == |cur| && forall k :: 0 <= k < |cur| ==> Up(cl, path, low[k]) == Some(cur[k])
    decreases |path|
  {
    if path != [] {
      var next := Accesses(cl[path[0]], cur);
      DownUp(cl, path[1..], next);
      var low := Down(cl, path, cur).value;
      forall k | 0 <= k < |cur| ensures Up(cl, path, low[k]) == Some(cur[k]) {
        UpSplit(cl, path[0], path[1..], low[k]);
        assert path == [path[0]] + path[1..];
      }
    }
  }

  /** At the lower end everything is an access to a slot that exists. */
  lemma {:induction false} DownInRange(cl: Closed, path: seq<Name>, cur: Closure)
    requires Down(cl, path, cur).Some? && path != []
    ensures path[|path| - 1] in cl
    ensures forall d :: d in Down(cl, path, cur).value ==> d.Access? && d.index < |cl[path[|path| - 1]]|
    decreases |path|
  {
    var next := Accesses(cl[path[0]], cur);
    if |path| == 1 {
      assert path[1..] == [];
    } else {
      DownInRange(cl, path[1..], next);
      assert path[1..][|path| - 2] == path[|path| - 1];
    }
  }

  /** Closures only grow at their ends. */
  ghost predicate Grown(a: Closed, b: Closed) {
    a.Keys == b.Keys && forall g :: g in a ==> a[g] <= b[g]
  }

  lemma {:induction false} IndexGrown(a: Closure, b: Closure, d: Designation, i: nat)
    requires a <= b && i <= |a| && IndexIn(a, d, i).Some?
    ensures IndexIn(b, d, i) == IndexIn(a, d, i)
    decreases |a| - i
  {
    if a[i] != d {
      IndexGrown(a, b, d, i + 1);
    }
  }

  lemma {:induction false} DownGrown(a: Closed, b: Closed, path: seq<Name>, cur: Closure)
    requires Grown(a, b) && Down(a, path, cur).Some?
    ensures Down(b, path, cur) == Down(a, path, cur)
    decreases |path|
  {
    if path != [] {
      var g := path[0];
      forall k | 0 <= k < |cur| ensures IndexIn(b[g], cur[k], 0) == IndexIn(a[g], cur[k], 0) {
        IndexGrown(a[g], b[g], cur[k], 0);
      }
      assert Accesses(a[g], cur) == Accesses(b[g], cur);
      DownGrown(a, b, path[1..], Accesses(a[g], cur));
    }
  }

  // Paths

  /** `find_path`: from the parent of the callee (exclusive) down to the caller. */
  function FindPath(t: Nesting, ghost depth: Name -> nat, fp: Name, c: Name): Option<seq<Name>>
    requires forall g :: g in t ==> depth(t[g]) < depth(g)
    decreases depth(c)
  {
    if fp == c then Some([])
    else if c !in t then None
    else match FindPath(t, depth, fp, t[c])
      case Some(p) => Some(p + [c])
      case None => None
  }

  /** Every function on the path is nested in the one before, the first in `fp`. */
  ghost predicate PathFrom(t: Nesting, fp: Name, path: seq<Name>)
    decreases |path|
  {
    path == [] || (path[0] in t && t[path[0]] == fp && PathFrom(t, path[0], path[1..]))
  }

  lemma {:induction false} FoundPath(t: Nesting, depth: Name -> nat, fp: Name, c: Name)
    requires Nested(t, depth) && FindPath(t, depth, fp, c).Some?
    ensures var p := FindPath(t, depth, fp, c).value;
      PathFrom(t, fp, p) && if p == [] then c == fp else p[|p| - 1] == c
    decreases depth(c)
  {
    if fp != c {
      FoundPath(t, depth, fp, t[c]);
      PathSnoc(t, fp, FindPath(t, depth, fp, t[c]).value, c);
    }
  }

  /** The path ends at `c`. */
  predicate Ends(fp: Name, path: seq<Name>, c: Name) {
    if path == [] then c == fp else path[|path| - 1] == c
  }

  lemma {:induction false} PathInit(t: Nesting, fp: Name, path: seq<Name>)
    requires PathFrom(t, fp, path) && path != []
    ensures var init, c := path[..|path| - 1], path[|path| - 1];
      PathFrom(t, fp, init) && c in t && t[c] == if init == [] then fp else init[|init| - 1]
    decreases |path|
  {
    if |path| > 1 {
      PathInit(t, path[0], path[1..]);
      var init := path[..|path| - 1];
      assert init[1..] == path[1..][..|path| - 2];
    }
  }

  lemma {:induction false} PathDeeper(t: Nesting, depth: Name -> nat, fp: Name, path: seq<Name>)
    requires Nested(t, depth) && PathFrom(t, fp, path) && path != []
    ensures depth(fp) < depth(path[|path| - 1])
    decreases |path|
  {
    if |path| > 1 {
      PathDeeper(t, depth, path[0], path[1..]);
    }
  }

  /** There is one path at most, and it is found. */
  lemma {:induction false} PathIsFound(t: Nesting, depth: Name -> nat, fp: Name, path: seq<Name>, c: Name)
    requires Nested(t, depth) && PathFrom(t, fp, path) && Ends(fp, path, c)
    ensures FindPath(t, depth, fp, c) == Some(path)
    decreases |path|
  {
    if path != [] {
      PathDeeper(t, depth, fp, path);
      PathInit(t, fp, path);
      var init := path[..|path| - 1];
      PathIsFound(t, depth, fp, init, t[c]);
      assert path == init + [c];
    }
  }

  /** A function is found to be around another exactly if it is. */
  lemma PathExactly(t: Nesting, depth: Name -> nat, fp: Name, c: Name, path: seq<Name>)
    requires Nested(t, depth)
    ensures FindPath(t, depth, fp, c) == Some(path) <==> PathFrom(t, fp, path) && Ends(fp, path, c)
  {
    hide FindPath, PathFrom;
    if FindPath(t, depth, fp, c) == Some(path) {
      FoundPath(t, depth, fp, c);
    }
    if PathFrom(t, fp, path) && Ends(fp, path, c) {
      PathIsFound(t, depth, fp, path, c);
    }
  }

  lemma {:induction false} PathSnoc(t: Nesting, fp: Name, q: seq<Name>, c: Name)
    requires PathFrom(t, fp, q) && c in t && t[c] == (if q == [] then fp else q[|q| - 1])
    ensures PathFrom(t, fp, q + [c])
    decreases |q|
  {
    if q == [] {
      assert PathFrom(t, c, []);
      assert q + [c] == [c] && [c][1..] == [];
    } else {
      assert (q + [c])[1..] == q[1..] + [c];
      PathSnoc(t, q[0], q[1..], c);
    }
  }

  // What closures get

  /** Going down the path from a member `e` of `cur`, one comes through the closure of `g` as `d`. */
  ghost predicate ComesAt(cl: Closed, path: seq<Name>, i: nat, e: Designation, g: Name, d: Designation) {
    i < |path| && path[i] == g && Down(cl, path[..i], [e]) == Some([d])
  }

  ghost predicate Comes(cl: Closed, path: seq<Name>, cur: Closure, g: Name, d: Designation) {
    exists i: nat, e :: e in cur && ComesAt(cl, path, i, e, g, d)
  }

  lemma ComesFirst(cl: Closed, g: Name, rest: seq<Name>, cur: Closure, d: Designation)
    requires d in cur
    ensures Comes(cl, [g] + rest, cur, g, d)
  {
    assert ([g] + rest)[..0] == [];
    assert ComesAt(cl, [g] + rest, 0, d, g, d);
  }

  lemma ComesLater(cl: Closed, h: Name, rest: seq<Name>, cur: Closure, g: Name, d: Designation)
    requires h in cl && forall k :: 0 <= k < |cur| ==> IndexIn(cl[h], cur[k], 0).Some?
    requires Comes(cl, rest, Accesses(cl[h], cur), g, d)
    ensures Comes(cl, [h] + rest, cur, g, d)
  {
    var i: nat, e' :| e' in Accesses(cl[h], cur) && ComesAt(cl, rest, i, e', g, d);
    var k :| 0 <= k < |cur| && Accesses(cl[h], cur)[k] == e';
    var path := [h] + rest;
    assert path[..i + 1] == [h] + rest[..i];
    assert Accesses(cl[h], [cur[k]]) == [e'];
    DownOne(cl, h, [cur[k]]);
    DownFirst(cl, h, rest[..i], [cur[k]], [e']);
    assert ComesAt(cl, path, i + 1, cur[k], g, d);
  }

  lemma ComesGrown(a: Closed, b: Closed, path: seq<Name>, cur: Closure, cur': Closure, g: Name, d: Designation)
    requires Grown(a, b) && cur <= cur' && Comes(a, path, cur, g, d)
    ensures Comes(b, path, cur', g, d)
  {
    var i: nat, e :| e in cur && ComesAt(a, path, i, e, g, d);
    DownGrown(a, b, path[..i], [e]);
    assert ComesAt(b, path, i, e, g, d);
  }

  /** Some recorded call hands `d` through the closure of `g`, for its callee. */
  ghost predicate NeededFor(t: Nesting, depth: Name -> nat, cl: Closed, f: Name, c: Name, g: Name, d: Designation)
    requires Nested(t, depth)
  {
    f in t && f in cl && FindPath(t, depth, t[f], c).Some? && Comes(cl, FindPath(t, depth, t[f], c).value, cl[f], g, d)
  }

  ghost predicate Needed(t: Nesting, depth: Name -> nat, cl: Closed, calls: set<(Name, Name)>, g: Name, d: Designation)
    requires Nested(t, depth)
  {
    exists f, c :: (f, c) in calls && NeededFor(t, depth, cl, f, c, g, d)
  }

  /** What closures hold now and did not hold before is needed. */
  ghost predicate OnlyNeeded(t: Nesting, depth: Name -> nat, a: Closed, b: Closed, calls: set<(Name, Name)>)
    requires Nested(t, depth)
  {
    forall g, d :: g in a && g in b && d in b[g] && d !in a[g] ==> Needed(t, depth, b, calls, g, d)
  }

  lemma NeededGrown(t: Nesting, depth: Name -> nat, a: Closed, b: Closed, calls: set<(Name, Name)>, g: Name,
      d: Designation)
    requires Nested(t, depth) && Grown(a, b) && Needed(t, depth, a, calls, g, d)
    ensures Needed(t, depth, b, calls, g, d)
  {
    hide FindPath, Comes;
    var f, c :| (f, c) in calls && NeededFor(t, depth, a, f, c, g, d);
    ComesGrown(a, b, FindPath(t, depth, t[f], c).value, a[f], b[f], g, d);
    assert NeededFor(t, depth, b, f, c, g, d);
  }

  lemma OnlyNeededTrans(t: Nesting, depth: Name -> nat, a: Closed, b: Closed, c: Closed, calls: set<(Name, Name)>)
    requires Nested(t, depth) && Grown(a, b) && Grown(b, c)
    requires OnlyNeeded(t, depth, a, b, calls) && OnlyNeeded(t, depth, b, c, calls)
    ensures OnlyNeeded(t, depth, a, c, calls)
  {
    hide Needed, Nested;
    forall g, d | g in a && g in c && d in c[g] && d !in a[g] ensures Needed(t, depth, c, calls, g, d) {
      if d in b[g] {
        NeededGrown(t, depth, b, c, calls, g, d);
      }
    }
  }

  // How far closures can grow

  /** What the closures of the functions nested in `p` hold. */
  ghost function Held(t: Nesting, cl: Closed, p: Name): set<Designation> {
    set g, d | g in t && t[g] == p && g in cl && d in cl[g] :: d
  }

  /** The largest closure that `g` can get to, from the closures `cl` on. */
  ghost function Cap(t: Nesting, depth: Name -> nat, cl: Closed, g: Name): nat
    requires Nested(t, depth)
    decreases depth(g)
  {
    if g !in t then 0 else |Held(t, cl, t[g])| + Cap(t, depth, cl, t[g])
  }

  /** All that may ever be named in the frame of `p`. */
  ghost function Nameable(t: Nesting, depth: Name -> nat, cl: Closed, p: Name): set<Designation>
    requires Nested(t, depth)
  {
    Held(t, cl, p) + Slots(Cap(t, depth, cl, p))
  }

  /** Closures are free of duplicates and hold what may be named in the frame of the parent. */
  ghost predicate Bounded(t: Nesting, depth: Name -> nat, start: Closed, cl: Closed)
    requires Nested(t, depth)
  {
    && cl.Keys == start.Keys == t.Keys
    && forall g :: g in t ==> Distinct(cl[g]) && forall d :: d in cl[g] ==> d in Nameable(t, depth, start, t[g])
  }

  lemma {:induction false} DistinctSize<T(!new)>(s: seq<T>, S: set<T>)
    requires Distinct(s) && forall x :: x in s ==> x in S
    ensures |s| <= |S|
    decreases |s|
  {
    if s != [] {
      var last := s[|s| - 1];
      assert last in S;
      DistinctSize(s[..|s| - 1], S - {last});
    }
  }

  /** The accesses to the slots below `n`. */
  ghost function Slots(n: nat): (S: set<Designation>)
    ensures |S| == n && forall d :: d in S <==> d.Access? && d.index < n
  {
    if n == 0 then {} else Slots(n - 1) + {Access(n - 1)}
  }

  lemma NameableSize(t: Nesting, depth: Name -> nat, cl: Closed, p: Name)
    requires Nested(t, depth)
    ensures |Nameable(t, depth, cl, p)| <= |Held(t, cl, p)| + Cap(t, depth, cl, p)
  {
  }

  lemma BoundedSize(t: Nesting, depth: Name -> nat, start: Closed, cl: Closed, g: Name)
    requires Nested(t, depth) && Bounded(t, depth, start, cl) && g in t
    ensures |cl[g]| <= Cap(t, depth, start, g)
  {
    DistinctSize(cl[g], Nameable(t, depth, start, t[g]));
    NameableSize(t, depth, start, t[g]);
  }

  /** How much the closures of `S` can still grow. */
  ghost function Room(t: Nesting, depth: Name -> nat, start: Closed, cl: Closed, S: set<Name>): int
    requires Nested(t, depth) && S <= cl.Keys
    decreases S
  {
    if S == {} then 0
    else
      var g := Pick(S);
      Cap(t, depth, start, g) - |cl[g]| + Room(t, depth, start, cl, S - {g})
  }

  ghost function Pick(S: set<Name>): (g: Name)
    requires S != {}
    ensures g in S
  {
    var g :| g in S; g
  }

  lemma {:induction false} RoomShrinks(t: Nesting, depth: Name -> nat, start: Closed, a: Closed, b: Closed,
      S: set<Name>)
    requires Nested(t, depth) && S <= a.Keys && Grown(a, b)
    ensures Room(t, depth, start, b, S) <= Room(t, depth, start, a, S)
    ensures (exists g :: g in S && |a[g]| < |b[g]|) ==> Room(t, depth, start, b, S) < Room(t, depth, start, a, S)
    decreases S
  {
    if S != {} {
      RoomShrinks(t, depth, start, a, b, S - {Pick(S)});
    }
  }

  lemma {:induction false} RoomLeft(t: Nesting, depth: Name -> nat, start: Closed, cl: Closed, S: set<Name>)
    requires Nested(t, depth) && Bounded(t, depth, start, cl) && S <= t.Keys
    ensures Room(t, depth, start, cl, S) >= 0
    decreases S
  {
    if S != {} {
      BoundedSize(t, depth, start, cl, Pick(S));
      RoomLeft(t, depth, start, cl, S - {Pick(S)});
    }
  }

  /** Adding what a closure needs to the closure of a nested function. */
  lemma BoundedExtends(t: Nesting, depth: Name -> nat, start: Closed, cl: Closed, g: Name, cur: Closure)
    requires Nested(t, depth) && Bounded(t, depth, start, cl) && g in t && Distinct(cur)
    requires forall d :: d in cur ==> d in Nameable(t, depth, start, t[g])
    ensures Bounded(t, depth, start, cl[g := Extended(cl[g], cur)])
    ensures Grown(cl, cl[g := Extended(cl[g], cur)])
  {
    hide Nameable, Extended;
    ExtendedHas(cl[g], cur);
  }

  /** The accesses that replace a closure may be named one level further down. */
  lemma AccessesNameable(t: Nesting, depth: Name -> nat, start: Closed, cl: Closed, g: Name, cur: Closure)
    requires Nested(t, depth) && Bounded(t, depth, start, cl) && g in t && Distinct(cur)
    requires forall k :: 0 <= k < |cur| ==> IndexIn(cl[g], cur[k], 0).Some?
    ensures Distinct(Accesses(cl[g], cur))
    ensures forall d :: d in Accesses(cl[g], cur) ==> d in Nameable(t, depth, start, g)
  {
    BoundedSize(t, depth, start, cl, g);
    hide Held, Cap;
    var r := Accesses(cl[g], cur);
    forall i, j | 0 <= i < j < |r| ensures r[i] != r[j] {
      assert cl[g][IndexIn(cl[g], cur[i], 0).value] == cur[i];
    }
  }

  // The propagation

  class FunInfo {
    const funtree: Nesting
    ghost const depth: Name -> nat
    var closures: Closed
    var functx: map<(Name, Name), Closure>

    constructor (t: Nesting, ghost d: Name -> nat, cl: Closed, calls: set<(Name, Name)>)
      requires Nested(t, d)
      ensures funtree == t && depth == d && closures == cl && functx.Keys == calls
    {
      funtree, depth, closures, functx := t, d, cl, map p | p in calls :: [];
    }

    /** The closure of `g` gets what `cur` needs; the result names `cur` from inside `g`. */
    method ExtendOne(cur: Closure, g: Name) returns (next: Closure, added: bool)
      requires g in closures && Distinct(cur)
      modifies this`closures
      ensures closures == old(closures)[g := Extended(old(closures[g]), cur)]
      ensures added <==> Missing(old(closures[g]), cur) != []
      ensures forall k :: 0 <= k < |cur| ==> IndexIn(closures[g], cur[k], 0).Some?
      ensures next == Accesses(closures[g], cur)
    {
      hide Missing, Extended;
      var fclosure := closures[g];
      var delta := fclosure;
      next, added := [], false;
      NothingMissing(fclosure);
      for k := 0 to |cur|
        invariant closures == old(closures)
        invariant delta == Extended(fclosure, cur[..k]) && (added <==> Missing(fclosure, cur[..k]) != [])
        invariant |next| == k && forall i :: 0 <= i < k ==>
          next[i].Access? && IndexIn(delta, cur[i], 0) == Some(next[i].index)
      {
        MissingStep(fclosure, cur, k);
        var found := IndexIn(fclosure, cur[k], 0);
        match found
        case Some(i) =>
          next := next + [Access(i)];
          ExtendedHas(fclosure, cur[..k]);
          IndexGrown(fclosure, delta, cur[k], 0);
        case None =>
          added := true;
          NotYet(fclosure, cur, k);
          IndexLast(delta, cur[k], 0);
          StillFound(delta, cur[k], cur, k, next);
          delta := delta + [cur[k]];
          next := next + [Access(|delta| - 1)];
      }
      assert cur[..|cur|] == cur;
      assert next == Accesses(delta, cur);
      if added {
        closures := closures[g := delta];
      } else {
        NothingAdded(fclosure, cur);
        assert closures[g := delta] == closures;
      }
    }

    /** What every part of the propagation keeps, and the names it started from. */
    ghost predicate Good(start: Closed)
      requires Nested(funtree, depth)
      reads this
    {
      Bounded(funtree, depth, start, closures)
    }

    /** `propagate_downwards`. */
    method PropagateDownwards(cur: Closure, path: seq<Name>, ghost fp: Name, ghost start: Closed)
      returns (low: Closure, changed: bool)
      requires Nested(funtree, depth) && Good(start) && PathFrom(funtree, fp, path) && Distinct(cur)
      requires forall d :: d in cur ==> d in Nameable(funtree, depth, start, fp)
      modifies this`closures
      ensures Good(start) && Grown(old(closures), closures)
      ensures Down(closures, path, cur) == Some(low)
      ensures changed <==> closures != old(closures)
      ensures forall g, d :: g in closures && d in closures[g] && d !in old(closures)[g] ==>
        Comes(closures, path, cur, g, d)
      decreases |path|
    {
      hide Bounded, Nameable, Distinct, Extended, Missing, Nested, Comes, Accesses;
      if path == [] {
        return cur, false;
      }
      var g := path[0];
      BoundedKeys(funtree, depth, start, closures, g);
      BoundedExtends(funtree, depth, start, closures, g, cur);
      ghost var before := closures;
      var next, added := ExtendOne(cur, g);
      AccessesNameable(funtree, depth, start, closures, g, cur);
      ghost var between := closures;
      var more: bool;
      low, more := PropagateDownwards(next, path[1..], g, start);
      changed := added || more;
      assert Down(between, [g], cur) == Some(next) by { DownOne(between, g, cur); }
      DownGrown(between, closures, [g], cur);
      DownFirst(closures, g, path[1..], cur, next);
      assert path == [g] + path[1..];
      AddedChanged(before, g, cur, between, closures);
      AddedComes(before, between, closures, g, path[1..], cur, next);
    }

    /** `propagate_for_call`; the recorded closure names what the callee needs from inside the
        caller. Calls of functions that are nested nowhere, or not around the caller, are left
        alone. */
    method PropagateForCall(f: Name, c: Name, ghost start: Closed) returns (changed: bool)
      requires Nested(funtree, depth) && Good(start) && (f, c) in functx
      modifies this
      ensures Good(start) && Grown(old(closures), closures) && functx.Keys == old(functx.Keys)
      ensures changed <==> closures != old(closures)
      ensures forall p :: p in functx && p != (f, c) ==> functx[p] == old(functx)[p]
      ensures !changed ==> Settled(funtree, depth, closures, f, c, functx[(f, c)])
      ensures OnlyNeeded(funtree, depth, old(closures), closures, functx.Keys)
    {
      hide Comes;
      changed := false;
      if f in funtree {
        var fp := funtree[f];
        match FindPath(funtree, depth, fp, c)
        case None =>
        case Some(path) =>
          FoundPath(funtree, depth, fp, c);
          var low;
          ghost var before := closures;
          BoundedKeys(funtree, depth, start, closures, f);
          low, changed := PropagateDownwards(closures[f], path, fp, start);
          functx := functx[(f, c) := low];
          CallNeeded(funtree, depth, before, closures, f, c, functx.Keys);
      }
    }

    /** The calls recorded so far, in some order. */
    method Calls() returns (calls: seq<(Name, Name)>)
      ensures forall p :: p in calls <==> p in functx
    {
      calls := [];
      var left := functx.Keys;
      while left != {}
        invariant left <= functx.Keys && forall p :: p in calls <==> p in functx && p !in left
        decreases left
      {
        var p :| p in left;
        calls, left := calls + [p], left - {p};
      }
    }

    /** One round: calls in turn, up to the first that changes a closure. */
    method Round(ghost start: Closed) returns (flag: bool)
      requires Nested(funtree, depth) && Good(start)
      modifies this
      ensures Good(start) && Grown(old(closures), closures) && functx.Keys == old(functx.Keys)
      ensures flag <==> closures != old(closures)
      ensures !flag ==> forall f, c :: (f, c) in functx ==> Settled(funtree, depth, closures, f, c, functx[(f, c)])
      ensures OnlyNeeded(funtree, depth, old(closures), closures, functx.Keys)
    {
      hide Bounded, Settled, Nested, OnlyNeeded;
      flag := false;
      NothingNeeded(funtree, depth, closures, functx.Keys);
      var calls := Calls();
      for i := 0 to |calls|
        invariant Good(start) && Grown(old(closures), closures) && functx.Keys == old(functx.Keys)
        invariant flag <==> closures != old(closures)
        invariant OnlyNeeded(funtree, depth, old(closures), closures, functx.Keys)
        invariant !flag ==> forall j :: 0 <= j < i ==>
          Settled(funtree, depth, closures, calls[j].0, calls[j].1, functx[calls[j]])
      {
        if !flag {
          assert calls[i] in functx;
          flag := PropagateForCall(calls[i].0, calls[i].1, start);
        }
      }
      if !flag {
        forall f, c | (f, c) in functx ensures Settled(funtree, depth, closures, f, c, functx[(f, c)]) {
          assert (f, c) in calls;
        }
      }
    }

    /** `propagate_closures`: rounds until nothing changes. It ends, closures only grow at
        their ends and stay free of duplicates and within `Cap`, every recorded call then
        holds the callee's closure as named inside the caller, and what closures have got is
        needed for a recorded call. */
    method PropagateClosures()
      requires Nested(funtree, depth) && closures.Keys == funtree.Keys
      requires forall g :: g in closures ==> Distinct(closures[g])
      modifies this
      ensures Grown(old(closures), closures) && functx.Keys == old(functx.Keys)
      ensures forall g :: g in closures ==>
        Distinct(closures[g]) &&
        |closures[g]| <= Cap(funtree, depth, old(closures), g)
      ensures forall f, c :: (f, c) in functx ==> Settled(funtree, depth, closures, f, c, functx[(f, c)])
      ensures OnlyNeeded(funtree, depth, old(closures), closures, functx.Keys)
    {
      hide Settled, Nested, Cap, Room, Distinct, OnlyNeeded;
      ghost var start := closures;
      assert Good(start) by { StartBounded(funtree, depth, start); }
      hide Bounded;
      var again := Round(start);
      KeysOf(funtree, depth, start, closures);
      RoomLeft(funtree, depth, start, closures, funtree.Keys);
      while again
        invariant Good(start) && Grown(start, closures) && functx.Keys == old(functx.Keys)
        invariant OnlyNeeded(funtree, depth, start, closures, functx.Keys)
        invariant !again ==> forall f, c :: (f, c) in functx ==> Settled(funtree, depth, closures, f, c, functx[(f, c)])
        invariant funtree.Keys <= closures.Keys && Room(funtree, depth, start, closures, funtree.Keys) >= 0
        decreases Room(funtree, depth, start, closures, funtree.Keys), again
      {
        ghost var before := closures;
        again := Round(start);
        OnlyNeededTrans(funtree, depth, start, before, closures, functx.Keys);
        KeysOf(funtree, depth, start, closures);
        RoomLeft(funtree, depth, start, closures, funtree.Keys);
        if again {
          SomeGrown(before, closures);
        }
        RoomShrinks(funtree, depth, start, before, closures, funtree.Keys);
      }
      forall g | g in closures ensures Distinct(closures[g]) && |closures[g]| <= Cap(funtree, depth, start, g) {
        KeysOf(funtree, depth, start, closures);
        BoundedKeys(funtree, depth, start, closures, g);
        BoundedSize(funtree, depth, start, closures, g);
      }
    }
  }

  lemma CallNeeded(t: Nesting, depth: Name -> nat, a: Closed, b: Closed, f: Name, c: Name, calls: set<(Name, Name)>)
    requires Nested(t, depth) && f in t && f in a && FindPath(t, depth, t[f], c).Some? && (f, c) in calls && Grown(a, b)
    requires forall g, d :: g in b && d in b[g] && d !in a[g] ==>
      Comes(b, FindPath(t, depth, t[f], c).value, a[f], g, d)
    ensures OnlyNeeded(t, depth, a, b, calls)
  {
    hide Comes, FindPath;
    var path := FindPath(t, depth, t[f], c).value;
    GrownRefl(b);
    forall g, d | g in a && g in b && d in b[g] && d !in a[g] ensures Needed(t, depth, b, calls, g, d) {
      ComesGrown(b, b, path, a[f], b[f], g, d);
      assert NeededFor(t, depth, b, f, c, g, d);
    }
  }

  lemma GrownRefl(a: Closed)
    ensures Grown(a, a)
  {
  }

  lemma NothingNeeded(t: Nesting, depth: Name -> nat, a: Closed, calls: set<(Name, Name)>)
    requires Nested(t, depth)
    ensures OnlyNeeded(t, depth, a, a, calls)
  {
  }

  lemma StartBounded(t: Nesting, depth: Name -> nat, cl: Closed)
    requires Nested(t, depth) && cl.Keys == t.Keys && forall g :: g in cl ==> Distinct(cl[g])
    ensures Bounded(t, depth, cl, cl)
  {
  }

  lemma KeysOf(t: Nesting, depth: Name -> nat, start: Closed, cl: Closed)
    requires Nested(t, depth) && Bounded(t, depth, start, cl)
    ensures cl.Keys == start.Keys == t.Keys
  {
  }

  lemma SomeGrown(a: Closed, b: Closed)
    requires Grown(a, b) && a != b
    ensures exists g :: g in a && |a[g]| < |b[g]|
  {
    var g :| g in a && a[g] != b[g];
    assert a[g] <= b[g];
  }

  /** What a settled record means: seen from the caller, its members are the members of the
      callee's closure, found in slots that exist. */
  lemma SettledMeans(t: Nesting, depth: Name -> nat, cl: Closed, f: Name, c: Name, recorded: Closure)
    requires Nested(t, depth) && t.Keys <= cl.Keys && Settled(t, depth, cl, f, c, recorded)
    requires f in t && FindPath(t, depth, t[f], c).Some?
    ensures var path := FindPath(t, depth, t[f], c).value;
      && |recorded| == |cl[f]|
      && (forall k :: 0 <= k < |recorded| ==> Up(cl, path, recorded[k]) == Some(cl[f][k]))
      && (c != t[f] ==> c in cl && forall d :: d in recorded ==> d.Access? && d.index < |cl[c]|)
      && (c == t[f] ==> recorded == cl[f])
  {
    var path := FindPath(t, depth, t[f], c).value;
    FoundPath(t, depth, t[f], c);
    DownUp(cl, path, cl[f]);
    if path != [] {
      DownInRange(cl, path, cl[f]);
    }
  }

  /** The record of a call holds the closure of the callee, as it is named inside the caller. */
  ghost predicate Settled(t: Nesting, depth: Name -> nat, cl: Closed, f: Name, c: Name, recorded: Closure)
    requires Nested(t, depth)
  {
    f in t && f in cl && FindPath(t, depth, t[f], c).Some? ==>
      Down(cl, FindPath(t, depth, t[f], c).value, cl[f]) == Some(recorded)
  }

  lemma BoundedKeys(t: Nesting, depth: Name -> nat, start: Closed, cl: Closed, g: Name)
    requires Nested(t, depth) && Bounded(t, depth, start, cl) && g in t
    ensures g in cl && Distinct(cl[g]) && forall d :: d in cl[g] ==> d in Nameable(t, depth, start, t[g])
  {
  }

  lemma DownOne(cl: Closed, g: Name, cur: Closure)
    requires g in cl && forall k :: 0 <= k < |cur| ==> IndexIn(cl[g], cur[k], 0).Some?
    ensures Down(cl, [g], cur) == Some(Accesses(cl[g], cur))
  {
    assert [g][1..] == [];
    assert Down(cl, [], Accesses(cl[g], cur)) == Some(Accesses(cl[g], cur));
  }

  lemma DownFirst(cl: Closed, g: Name, rest: seq<Name>, cur: Closure, next: Closure)
    requires Down(cl, [g], cur) == Some(next)
    ensures Down(cl, [g] + rest, cur) == Down(cl, rest, next)
  {
    assert [g][1..] == [] && ([g] + rest)[1..] == rest;
    assert Down(cl, [], Accesses(cl[g], cur)) == Some(Accesses(cl[g], cur));
  }

  lemma AddedChanged(before: Closed, g: Name, cur: Closure, between: Closed, after: Closed)
    requires g in before && between == before[g := Extended(before[g], cur)] && Grown(between, after)
    ensures Grown(before, after)
    ensures after != before <==> (Missing(before[g], cur) != [] || after != between)
  {
    if Missing(before[g], cur) == [] {
      NothingAdded(before[g], cur);
      assert between == before;
    } else {
      assert |after[g]| > |before[g]|;
    }
  }

  /** What `g` and the functions below it have got comes from `cur`. */
  lemma AddedComes(before: Closed, between: Closed, after: Closed, g: Name, rest: seq<Name>, cur: Closure,
      next: Closure)
    requires g in before && between == before[g := Extended(before[g], cur)] && Grown(between, after)
    requires forall k :: 0 <= k < |cur| ==> IndexIn(between[g], cur[k], 0).Some?
    requires next == Accesses(between[g], cur)
    requires forall f, d :: f in after && d in after[f] && d !in between[f] ==> Comes(after, rest, next, f, d)
    ensures forall f, d :: f in after && d in after[f] && d !in before[f] ==> Comes(after, [g] + rest, cur, f, d)
  {
    hide Comes, Extended, Accesses;
    ExtendedHas(before[g], cur);
    AccessesGrown(between[g], after[g], cur);
    forall f, d | f in after && d in after[f] && d !in before[f] ensures Comes(after, [g] + rest, cur, f, d) {
      if d in between[f] {
        ComesFirst(after, g, rest, cur, d);
      } else {
        ComesLater(after, g, rest, cur, f, d);
      }
    }
  }

  lemma AccessesGrown(a: Closure, b: Closure, cur: Closure)
    requires a <= b && forall k :: 0 <= k < |cur| ==> IndexIn(a, cur[k], 0).Some?
    ensures (forall k :: 0 <= k < |cur| ==> IndexIn(b, cur[k], 0).Some?) && Accesses(b, cur) == Accesses(a, cur)
  {
    forall k | 0 <= k < |cur| ensures IndexIn(b, cur[k], 0) == IndexIn(a, cur[k], 0) {
      IndexGrown(a, b, cur[k], 0);
    }
  }

  lemma NothingMissing(cl: Closure)
    ensures Missing(cl, []) == [] && Extended(cl, []) == cl
  {
  }

  lemma NothingAdded(cl: Closure, cur: Closure)
    requires Missing(cl, cur) == []
    ensures Extended(cl, cur) == cl
  {
  }

  lemma MissingStep(cl: Closure, cur: Closure, k: nat)
    requires k < |cur|
    ensures Missing(cl, cur[..k + 1]) == Missing(cl, cur[..k]) + if cur[k] in cl then [] else [cur[k]]
    ensures Extended(cl, cur[..k + 1]) == Extended(cl, cur[..k]) + if cur[k] in cl then [] else [cur[k]]
  {
    assert cur[..k + 1][..k] == cur[..k] && cur[..k + 1][k] == cur[k];
  }

  lemma StillFound(delta: Closure, d: Designation, cur: Closure, k: nat, next: Closure)
    requires k <= |cur| && |next| == k
    requires forall i :: 0 <= i < k ==> next[i].Access? && IndexIn(delta, cur[i], 0) == Some(next[i].index)
    ensures forall i :: 0 <= i < k ==> IndexIn(delta + [d], cur[i], 0) == Some(next[i].index)
  {
    forall i | 0 <= i < k ensures IndexIn(delta + [d], cur[i], 0) == Some(next[i].index) {
      IndexGrown(delta, delta + [d], cur[i], 0);
    }
  }

  lemma NotYet(cl: Closure, cur: Closure, k: nat)
    requires Distinct(cur) && k < |cur| && cur[k] !in cl
    ensures cur[k] !in Extended(cl, cur[..k])
  {
    MissingMembers(cl, cur[..k]);
  }

  lemma {:induction false} IndexLast(cl: Closure, d: Designation, i: nat)
    requires d !in cl && i <= |cl|
    ensures IndexIn(cl + [d], d, i) == Some(|cl|)
    decreases |cl| - i
  {
    if i < |cl| {
      IndexLast(cl, d, i + 1);
    }
  }
}

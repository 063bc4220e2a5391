/** Reachability in the object graph of a snapshot, by explicit paths. */
module Reachability {
  import opened Words
  import opened Layout

  ghost predicate IsPath(s: Snapshot, path: seq<nat>) {
    && |path| > 0
    && forall i :: 0 < i < |path| ==> s.Edge(path[i - 1], path[i])
  }

  ghost predicate Reach(s: Snapshot, a: nat, b: nat) {
    exists path :: IsPath(s, path) && path[0] == a && path[|path| - 1] == b
  }

  /** The root values lead to object `p`. */
  ghost predicate ReachFrom(s: Snapshot, roots: set<Word>, p: nat) {
    exists v :: v in roots && s.IsPointer(v) && s.Target(v) >= 0 && Reach(s, s.Target(v), p)
  }

  ghost predicate Closed(s: Snapshot, M: set<nat>) {
    forall p, q :: p in M && s.Edge(p, q) ==> q in M
  }

  lemma ReachSelf(s: Snapshot, a: nat)
    ensures Reach(s, a, a)
  {
    assert IsPath(s, [a]);
  }

  lemma ReachStep(s: Snapshot, a: nat, b: nat, c: nat)
    requires Reach(s, a, b) && s.Edge(b, c)
    ensures Reach(s, a, c)
  {
    var path :| IsPath(s, path) && path[0] == a && path[|path| - 1] == b;
    assert IsPath(s, path + [c]);
  }

  lemma ReachFirst(s: Snapshot, a: nat, b: nat, c: nat)
    requires s.Edge(a, b) && Reach(s, b, c)
    ensures Reach(s, a, c)
  {
    var path :| IsPath(s, path) && path[0] == b && path[|path| - 1] == c;
    assert IsPath(s, [a] + path);
  }

  /** A set closed under edges that holds the start of a path holds its end. */
  lemma ClosedReach(s: Snapshot, M: set<nat>, a: nat, b: nat)
    requires Closed(s, M) && a in M && Reach(s, a, b)
    ensures b in M
  {
    var path :| IsPath(s, path) && path[0] == a && path[|path| - 1] == b;
    ClosedPath(s, M, path, |path| - 1);
  }

  lemma {:induction false} ClosedPath(s: Snapshot, M: set<nat>, path: seq<nat>, i: nat)
    requires Closed(s, M) && IsPath(s, path) && path[0] in M && i < |path|
    ensures path[i] in M
  {
    if i > 0 {
      ClosedPath(s, M, path, i - 1);
      assert s.Edge(path[i - 1], path[i]);
    }
  }

  lemma ReachFromUnion(s: Snapshot, V: set<Word>, W: set<Word>, p: nat)
    ensures ReachFrom(s, V + W, p) <==> ReachFrom(s, V, p) || ReachFrom(s, W, p)
  {
  }
}

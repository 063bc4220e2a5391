/** What a collection promises the program: the new heap is a copy of the reachable part
    of the old one. */
module Isomorphism {
  import opened Words
  import opened Layout
  import opened Reachability
  import opened Marking
  import opened Compaction

  /** Word `u` of object `p` and the corresponding word of its copy: fields are forwarded,
      everything else (string bytes, the tag of an s-expression, the entry address of a
      closure) is as it was. */
  ghost predicate CopiedSlot(s: Snapshot, t: Snapshot, F: map<nat, nat>, p: nat, u: nat)
    requires p in F && p < |s.h| && p <= u < |s.h| && F[p] + (u - p) < |t.h|
  {
    if s.IsField(p, u) then
      && t.h[F[p] + (u - p)] == Forward(s, F, t.base, s.h[u])
      && (s.IsPointer(s.h[u]) ==> s.Target(s.h[u]) >= 0 && s.Target(s.h[u]) in F)
    else
      CopiedWord(s.h[p], u - p, s.h[u], t.h[F[p] + (u - p)])
  }

  ghost predicate CopiedObject(s: Snapshot, t: Snapshot, F: map<nat, nat>, p: nat) {
    && p in F
    && p < |s.h|
    && p + SizeWords(s.h[p]) <= |s.h|
    && F[p] + SizeWords(s.h[p]) <= |t.h|
    && t.h[F[p]] == s.h[p]
    && forall u :: p + 2 <= u < p + SizeWords(s.h[p]) ==> CopiedSlot(s, t, F, p, u)
  }

  /** Every object that `F` is defined on has its copy in `t`, field by field. */
  ghost predicate Embeds(s: Snapshot, t: Snapshot, F: map<nat, nat>) {
    forall p :: p in F ==> p in s.objs && F[p] in t.objs && CopiedObject(s, t, F, p)
  }

  /** `F` is an order-preserving bijection from the objects it is defined on onto all the
      objects of `t`, and it commutes with every field. */
  ghost predicate Isomorphic(s: Snapshot, t: Snapshot, F: map<nat, nat>) {
    && Embeds(s, t, F)
    && (forall p, q :: p in F && q in F && p < q ==> F[p] < F[q])
    && (forall d :: d in t.objs ==> exists p :: p in F && F[p] == d)
  }

  // Assembling the phases

  lemma {:induction false} KeptTiles(s: Snapshot, M: set<nat>, h: seq<Word>, h': seq<Word>, k: nat)
    requires s.Laid() && k <= |s.objs| && SlideState(s, M, h, h', |s.objs|)
    ensures Dest(s, M, k) <= |h'|
    ensures Tiles(h'[..Dest(s, M, k)], Kept(s, M, k), 0)
  {
    DestOrder(s, M, k, k);
    if k > 0 {
      KeptTiles(s, M, h, h', k - 1);
      KeptTilesStep(s, M, h, h', k);
    }
  }

  lemma KeptTilesStep(s: Snapshot, M: set<nat>, h: seq<Word>, h': seq<Word>, k: nat)
    requires s.Laid() && 0 < k <= |s.objs| && SlideState(s, M, h, h', |s.objs|)
    requires Dest(s, M, k - 1) <= Dest(s, M, k) <= |h'|
    requires Tiles(h'[..Dest(s, M, k - 1)], Kept(s, M, k - 1), 0)
    ensures Tiles(h'[..Dest(s, M, k)], Kept(s, M, k), 0)
  {
    hide SizeBytes, BytesToWords, IsCopy, ValidTag;
    var K, K' := Kept(s, M, k - 1), Kept(s, M, k);
    var e, e' := Dest(s, M, k - 1), Dest(s, M, k);
    var g, g' := h'[..e], h'[..e'];
    var p := s.objs[k - 1];
    assert TileAt(s.h, s.objs, k - 1);
    if p in M {
      assert MovedAt(s, M, h, h', k - 1);
      assert MovedTo(h, h', p, e);
      MovedHeader(h, h', p, e);
      assert K' == K + [e];
      forall r | 0 <= r < |K'| ensures TileAt(g', K', r) {
        if r < |K| {
          assert TileAt(g, K, r);
          assert g'[K[r]] == g[K[r]];
        }
      }
    } else {
      assert K' == K;
    }
  }

  lemma MovedHeader(h: seq<Word>, h': seq<Word>, p: nat, d: nat)
    requires MovedTo(h, h', p, d)
    ensures p + 1 < |h| && d + 1 < |h'| && h'[d] == h[p] && h'[d + 1] == ResetMark(h[p + 1])
  {
    hide ResetMark, CopiedWord;
    var n := SizeWords(h[p]);
    var a, b := h[p..p + n], h'[d..d + n];
    assert a[0] == h[p] && b[0] == h'[d] && a[1] == h[p + 1] && b[1] == h'[d + 1];
  }

  lemma MovedSlot(h: seq<Word>, h': seq<Word>, p: nat, d: nat, i: nat)
    requires MovedTo(h, h', p, d) && 2 <= i < SizeWords(h[p])
    ensures p + i < |h| && d + i < |h'| && CopiedWord(h[p], i, h[p + i], h'[d + i])
  {
    hide ResetMark, CopiedWord;
    var n := SizeWords(h[p]);
    assert h'[d..d + n][i] == h'[d + i] && h[p..p + n][i] == h[p + i];
  }

  lemma {:induction false} KeptMembers(s: Snapshot, M: set<nat>, k: nat)
    requires s.Laid() && k <= |s.objs|
    ensures forall j :: 0 <= j < k && s.objs[j] in M ==> Dest(s, M, j) in Kept(s, M, k)
    ensures forall d :: d in Kept(s, M, k) ==> exists j :: 0 <= j < k && s.objs[j] in M && Dest(s, M, j) == d
  {
    if k > 0 {
      KeptMembers(s, M, k - 1);
    }
  }

  lemma PlanOrder(s: Snapshot, M: set<nat>, p: nat, q: nat)
    requires s.Laid() && p in Plan(s, M) && q in Plan(s, M) && p < q
    ensures Plan(s, M)[p] < Plan(s, M)[q]
  {
    var i, j := IndexOf(s.objs, p), IndexOf(s.objs, q);
    if j < i {
      Ordered(s, j, i);
    }
    DestOrder(s, M, i, j);
  }

  /** All the phases done: `h` is the heap after `update_references`, `h'` after sliding. */
  ghost predicate Phases(s: Snapshot, M: set<nat>, base: nat, h1: seq<Word>, h: seq<Word>, h': seq<Word>) {
    && s.Settled()
    && M <= Elements(s.objs) && Closed(s, M)
    && Located(s, h1, M, |s.objs|)
    && UpdateState(s, Plan(s, M), base, h1, h, |s.objs|)
    && SlideState(s, M, h, h', |s.objs|)
    && base > 0 && base % 4 == 0 && base + 4 * |s.h| < WORD_LIMIT
    && (forall v :: v in s.foreign ==> !(base <= v <= base + 4 * |s.h|))
  }

  ghost function Result(s: Snapshot, M: set<nat>, base: nat, h': seq<Word>): Snapshot
    requires s.Laid() && Dest(s, M, |s.objs|) <= |h'|
  {
    Snapshot(h'[..Dest(s, M, |s.objs|)], base, Kept(s, M, |s.objs|), s.foreign)
  }

  /** One word traced through the phases: forwarded if it is a field, then copied. */
  lemma SlotTrace(s: Snapshot, F: map<nat, nat>, base: nat, h1: seq<Word>, h: seq<Word>, h': seq<Word>, p: nat, u: nat)
    requires s.Laid() && p in s.objs && p in F && SameData(s, h1)
    requires p < |s.h| && UpdatedBelow(s, F, base, h1, h, p, |s.h|) && MovedTo(h, h', p, F[p])
    requires p + 2 <= u < p + SizeWords(s.h[p]) && F[p] + SizeWords(s.h[p]) <= |h'|
    ensures h[p] == s.h[p]
    ensures h[u] == if s.IsField(p, u) then Forward(s, F, base, s.h[u]) else s.h[u]
    ensures CopiedWord(s.h[p], u - p, h[u], h'[F[p] + (u - p)])
  {
    hide SizeBytes, BytesToWords, ValidTag, ResetMark, IsCopy, CopiedWord, Forward;
    NotForwardingWord(s, p, p);
    NotForwardingWord(s, p, u);
    MovedSlot(h, h', p, F[p], u - p);
    assert h1[u] == s.h[u];
  }

  lemma ResultSlot(s: Snapshot, t: Snapshot, M: set<nat>, h: seq<Word>, h': seq<Word>, p: nat, u: nat)
    requires s.Laid() && s.Settled() && Closed(s, M) && M <= Elements(s.objs) && p in Plan(s, M)
    requires p < |s.h| && p + 2 <= u < p + SizeWords(s.h[p]) <= |s.h| == |h|
    requires Plan(s, M)[p] + SizeWords(s.h[p]) <= |t.h| <= |h'| && t.h == h'[..|t.h|]
    requires h[u] == if s.IsField(p, u) then Forward(s, Plan(s, M), t.base, s.h[u]) else s.h[u]
    requires CopiedWord(s.h[p], u - p, h[u], h'[Plan(s, M)[p] + (u - p)])
    ensures CopiedSlot(s, t, Plan(s, M), p, u)
  {
    hide SizeWords, Snapshot.Settled, Closed, Forward;
    if s.IsField(p, u) {
      FieldsAreWholeWords(s, p, u);
      if s.IsPointer(s.h[u]) {
        PointerFieldKept(s, M, p, u);
      }
    }
  }

  lemma PhasesData(s: Snapshot, M: set<nat>, base: nat, h1: seq<Word>, h: seq<Word>, h': seq<Word>)
    requires Phases(s, M, base, h1, h, h')
    ensures SameData(s, h1)
  {
  }

  /** What the phases say about one marked object. */
  lemma PhasesAt(s: Snapshot, M: set<nat>, base: nat, h1: seq<Word>, h: seq<Word>, h': seq<Word>, p: nat)
    requires Phases(s, M, base, h1, h, h') && p in Plan(s, M)
    ensures p < |s.h| == |h| == |h1| == |h'| && p + SizeWords(s.h[p]) <= |s.h|
    ensures UpdatedBelow(s, Plan(s, M), base, h1, h, p, |s.h|)
    ensures MovedTo(h, h', p, Plan(s, M)[p])
    ensures p + 1 < |h1| && !Enqueued(h1[p + 1])
    ensures Dest(s, M, |s.objs|) <= |h'| && Plan(s, M)[p] in Kept(s, M, |s.objs|)
    ensures Plan(s, M)[p] + SizeWords(s.h[p]) <= Dest(s, M, |s.objs|)
  {
    hide SizeBytes, BytesToWords, ValidTag, Forward, UpdatedBelow, MovedTo, Marked, Enqueued, Closed;
    var k := IndexOf(s.objs, p);
    KeptMembers(s, M, |s.objs|);
    DestOrder(s, M, k, |s.objs|);
    DestOrder(s, M, |s.objs|, |s.objs|);
    Extent(s, p);
    assert Updated(s, Plan(s, M), base, h1, h, k);
    assert MovedAt(s, M, h, h', k);
    assert HasBits(h1, p, p in M, p in {});
  }

  lemma ResultObject(s: Snapshot, M: set<nat>, base: nat, h1: seq<Word>, h: seq<Word>, h': seq<Word>, p: nat)
    requires Phases(s, M, base, h1, h, h') && p in Plan(s, M)
    requires Dest(s, M, |s.objs|) <= |h'|
    ensures Plan(s, M)[p] in Kept(s, M, |s.objs|)
    ensures CopiedObject(s, Result(s, M, base, h'), Plan(s, M), p)
    ensures Result(s, M, base, h').Clean(Plan(s, M)[p])
  {
    hide SizeBytes, BytesToWords, ValidTag, CopiedWord, Forward, CopiedSlot, UpdatedBelow, MovedTo,
      Closed, Located, UpdateState, SlideState, Snapshot.GoodWord, Dest, Kept, Marked, Enqueued;
    var F, t := Plan(s, M), Result(s, M, base, h');
    var d := F[p];
    PhasesAt(s, M, base, h1, h, h', p);
    PhasesData(s, M, base, h1, h, h');
    ResultHeader(s, F, base, h1, h, h', p);
    forall u | p + 2 <= u < p + SizeWords(s.h[p]) ensures CopiedSlot(s, t, F, p, u) {
      SlotTrace(s, F, base, h1, h, h', p, u);
      ResultSlot(s, t, M, h, h', p, u);
    }
  }

  lemma ResultHeader(s: Snapshot, F: map<nat, nat>, base: nat, h1: seq<Word>, h: seq<Word>, h': seq<Word>, p: nat)
    requires s.Laid() && p in s.objs && p in F && SameData(s, h1)
    requires p < |s.h| && UpdatedBelow(s, F, base, h1, h, p, |s.h|) && MovedTo(h, h', p, F[p])
    requires p + 1 < |h1| && !Enqueued(h1[p + 1])
    ensures p + SizeWords(s.h[p]) <= |s.h| && F[p] + 1 < |h'|
    ensures h'[F[p]] == s.h[p] && !Marked(h'[F[p] + 1]) && !Enqueued(h'[F[p] + 1])
  {
    hide SizeBytes, BytesToWords, ValidTag, IsCopy, CopiedWord, Forward;
    NotForwardingWord(s, p, p);
    MovedHeader(h, h', p, F[p]);
  }

  lemma FieldsAreWholeWords(s: Snapshot, p: nat, u: nat)
    requires s.Laid() && p in s.objs && s.IsField(p, u)
    ensures 4 * (u - p + 1) <= SizeBytes(s.h[p])
  {
    Extent(s, p);
  }

  lemma PointerFieldKept(s: Snapshot, M: set<nat>, p: nat, u: nat)
    requires s.Settled() && Closed(s, M) && M <= Elements(s.objs)
    requires p in M && p in s.objs && s.IsField(p, u) && s.IsPointer(s.h[u])
    ensures s.Target(s.h[u]) >= 0 && s.Target(s.h[u]) in M && s.Target(s.h[u]) in Plan(s, M)
    ensures s.h[u] == s.ContentAddress(s.Target(s.h[u]))
  {
    assert s.GoodWord(s.h[u]);
    assert s.Edge(p, s.Target(s.h[u]));
  }

  lemma PlanOnto(s: Snapshot, M: set<nat>, d: nat)
    requires s.Laid() && d in Kept(s, M, |s.objs|)
    ensures exists p :: p in Plan(s, M) && Plan(s, M)[p] == d
  {
    KeptMembers(s, M, |s.objs|);
    var j :| 0 <= j < |s.objs| && s.objs[j] in M && Dest(s, M, j) == d;
    PlanAt(s, M, j);
  }

  lemma ResultIsomorphic(s: Snapshot, M: set<nat>, base: nat, h1: seq<Word>, h: seq<Word>, h': seq<Word>)
    requires Phases(s, M, base, h1, h, h')
    ensures Dest(s, M, |s.objs|) <= |h'|
    ensures Isomorphic(s, Result(s, M, base, h'), Plan(s, M))
  {
    hide CopiedObject, Kept, Dest, Phases, Snapshot.Clean, Snapshot.GoodWord;
    PhasesSizes(s, M, base, h1, h, h');
    DestOrder(s, M, |s.objs|, |s.objs|);
    var F, t := Plan(s, M), Result(s, M, base, h');
    forall p | p in F ensures p in s.objs && F[p] in t.objs && CopiedObject(s, t, F, p) {
      ResultObject(s, M, base, h1, h, h', p);
    }
    forall p, q | p in F && q in F && p < q ensures F[p] < F[q] {
      PlanOrder(s, M, p, q);
    }
    forall d | d in t.objs ensures exists p :: p in F && F[p] == d {
      PlanOnto(s, M, d);
    }
  }

  /** The new heap is well formed again. */
  lemma ResultSettled(s: Snapshot, M: set<nat>, base: nat, h1: seq<Word>, h: seq<Word>, h': seq<Word>)
    requires Phases(s, M, base, h1, h, h') && Dest(s, M, |s.objs|) <= |h'|
    ensures Result(s, M, base, h').Settled()
  {
    hide CopiedObject, Plan, Dest, Kept, Snapshot.GoodWord, Snapshot.Clean, UpdateState, Located, SlideState, IsMemmove;
    var F, t := Plan(s, M), Result(s, M, base, h');
    ResultIsomorphic(s, M, base, h1, h, h');
    KeptTiles(s, M, h, h', |s.objs|) by { hide Closed; }
    PhasesSizes(s, M, base, h1, h, h');
    forall d | d in t.objs ensures t.Clean(d) {
      var p :| p in F && F[p] == d;
      ResultObject(s, M, base, h1, h, h', p);
    }
    forall d, v: nat | d in t.objs && t.IsField(d, v) ensures t.GoodWord(t.h[v]) {
      var p :| p in F && F[p] == d;
      assert CopiedObject(s, t, F, p);
      CopiedFieldGood(s, t, F, p, v);
    }
  }

  lemma PhasesSizes(s: Snapshot, M: set<nat>, base: nat, h1: seq<Word>, h: seq<Word>, h': seq<Word>)
    requires Phases(s, M, base, h1, h, h')
    ensures s.Settled() && |h'| == |s.h|
  {
  }

  /** A forwarded good word is good in the new heap. */
  lemma ForwardGood(s: Snapshot, t: Snapshot, F: map<nat, nat>, v: Word)
    requires t.Laid() && t.foreign == s.foreign
    requires forall w :: w in s.foreign ==> !t.IsPointer(w)
    requires s.GoodWord(v)
    requires s.IsPointer(v) ==> s.Target(v) >= 0 && s.Target(v) in F && F[s.Target(v)] in t.objs
    ensures 0 <= Forward(s, F, t.base, v) < WORD_LIMIT
    ensures t.GoodWord(Forward(s, F, t.base, v))
  {
    if s.IsPointer(v) {
      AddressesDiffer(t, F[s.Target(v)]);
    }
  }

  lemma CopiedFieldGood(s: Snapshot, t: Snapshot, F: map<nat, nat>, p: nat, v: nat)
    requires s.Settled() && t.Laid() && t.foreign == s.foreign
    requires forall w :: w in s.foreign ==> !t.IsPointer(w)
    requires forall q :: q in F ==> q in s.objs && F[q] in t.objs
    requires CopiedObject(s, t, F, p) && t.IsField(F[p], v)
    ensures t.GoodWord(t.h[v])
  {
    hide Forward, Snapshot.GoodWord, SizeBytes, BytesToWords, Snapshot.Clean;
    var u := v - F[p] + p;
    assert p + 2 <= u < p + SizeWords(s.h[p]) by { Extent(t, F[p]); }
    assert CopiedSlot(s, t, F, p, u);
    assert s.IsField(p, u);
    ForwardGood(s, t, F, s.h[u]);
  }

  // One step of the rewriting loops

  /** Rewriting the field at `u`: what is read, what has to be written, and that writing it
      brings the loop one word further. */
  lemma FieldForward(s: Snapshot, M: set<nat>, h: seq<Word>, h': seq<Word>, base: nat, k: nat, u: nat)
    requires s.Settled() && Closed(s, M) && M <= Elements(s.objs) && Located(s, h, M, |s.objs|)
    requires base + 4 * |s.h| < WORD_LIMIT
    requires k < |s.objs| && UpdateInside(s, Plan(s, M), base, h, h', k, u)
    requires s.objs[k] in M && s.IsField(s.objs[k], u)
    ensures |h'| == |s.h| && h'[u] == s.h[u]
    ensures 0 <= Forward(s, Plan(s, M), base, s.h[u]) < WORD_LIMIT
    ensures UpdateInside(s, Plan(s, M), base, h, h'[u := Forward(s, Plan(s, M), base, s.h[u])], k, u + 1)
    ensures s.IsPointer(s.h[u]) ==>
      var o := s.Target(s.h[u]);
      o >= 0 && o + 1 < |h'| && base + (Address(h'[o + 1]) - s.base) + HEADER_BYTES
        == Forward(s, Plan(s, M), base, s.h[u])
    ensures !s.IsPointer(s.h[u]) ==> Forward(s, Plan(s, M), base, s.h[u]) == s.h[u]
  {
    hide Address, SizeWords, Closed, Snapshot.Clean, Snapshot.GoodWord, UpdateInside, Located;
    var F, p := Plan(s, M), s.objs[k];
    InsideField(s, F, base, h, h', k, u, M);
    PlanAt(s, M, k);
    if s.IsPointer(s.h[u]) {
      PointerFieldKept(s, M, p, u);
      KnowsInside(s, M, base, h, h', k, u);
      ForwardComputed(s, M, h', base, s.h[u]);
    }
    UpdateKeeps(s, F, base, h, h', k, u, Forward(s, F, base, s.h[u]));
  }

  lemma InsideField(s: Snapshot, F: map<nat, nat>, base: nat, h: seq<Word>, h': seq<Word>, k: nat, u: nat, M: set<nat>)
    requires s.Settled() && Located(s, h, M, |s.objs|)
    requires k < |s.objs| && UpdateInside(s, F, base, h, h', k, u)
    requires s.IsField(s.objs[k], u)
    ensures s.Laid() && s.GoodWord(s.h[u])
    ensures |h| == |h'| == |s.h| && h'[u] == h[u] == s.h[u]
  {
    hide Forward;
    SameObject(s, h, s.objs[k]);
  }

  lemma KnowsInside(s: Snapshot, M: set<nat>, base: nat, h: seq<Word>, h': seq<Word>, k: nat, limit: nat)
    requires s.Settled() && Located(s, h, M, |s.objs|)
    requires k < |s.objs| && UpdateInside(s, Plan(s, M), base, h, h', k, limit)
    ensures Knows(s, M, h')
  {
    hide Address, SizeWords;
    forall q | q in s.objs && q + 1 < |h| ensures h'[q + 1] == h[q + 1] {
      UpdateHeaders(s, Plan(s, M), base, h, h', k, limit, q);
    }
    LocatedKnows(s, M, h, h');
  }

  lemma UpdateStart(s: Snapshot, F: map<nat, nat>, base: nat, h: seq<Word>)
    requires s.Laid() && |h| == |s.h|
    ensures UpdateState(s, F, base, h, h, 0)
  {
  }

  lemma ObjectHeader(s: Snapshot, M: set<nat>, h: seq<Word>, h': seq<Word>, base: nat, k: nat)
    requires s.Settled() && Located(s, h, M, |s.objs|) && k < |s.objs|
    requires UpdateState(s, Plan(s, M), base, h, h', k)
    ensures var p := s.objs[k];
      && p + 1 < |h'| == |s.h| && h'[p] == s.h[p] && p + SizeWords(h'[p]) == At(s.objs, |s.h|, k + 1) <= |s.h|
      && (Marked(h'[p + 1]) <==> p in M)
    ensures s.Laid() && FirstField(s.objs[k], s.h[s.objs[k]]) == s.FieldLo(s.objs[k])
  {
    hide SizeWords, Snapshot.GoodWord, Snapshot.Clean, Updated, Marked, Enqueued;
    var p := s.objs[k];
    SameObject(s, h, p);
    assert TileAt(s.h, s.objs, k);
    assert HasBits(h, p, p in M, p in {});
    BitsMean(h, p);
  }

  lemma InsideHeader(s: Snapshot, M: set<nat>, h: seq<Word>, h': seq<Word>, base: nat, k: nat, limit: nat)
    requires s.Settled() && Located(s, h, M, |s.objs|) && k < |s.objs|
    requires UpdateInside(s, Plan(s, M), base, h, h', k, limit)
    ensures s.objs[k] < |h'| == |s.h| && h'[s.objs[k]] == s.h[s.objs[k]]
  {
    hide SizeWords, Snapshot.GoodWord, Snapshot.Clean, Updated;
    SameObject(s, h, s.objs[k]);
    UpdateHeaders(s, Plan(s, M), base, h, h', k, limit, s.objs[k]);
  }

  /** After object `k` has been dealt with its header still says where the next one is. */
  lemma StateHeader(s: Snapshot, M: set<nat>, h: seq<Word>, h': seq<Word>, base: nat, k: nat)
    requires s.Settled() && Located(s, h, M, |s.objs|) && k < |s.objs|
    requires UpdateState(s, Plan(s, M), base, h, h', k + 1)
    ensures s.objs[k] < |h'| && h'[s.objs[k]] == s.h[s.objs[k]]
    ensures s.objs[k] + SizeWords(s.h[s.objs[k]]) == At(s.objs, |s.h|, k + 1)
  {
    hide SizeWords, Snapshot.GoodWord, Snapshot.Clean, Forward;
    SameObject(s, h, s.objs[k]);
    assert TileAt(s.h, s.objs, k);
    assert Updated(s, Plan(s, M), base, h, h', k);
  }

  lemma SkipIntegers(s: Snapshot, M: set<nat>, h: seq<Word>, h': seq<Word>, base: nat, k: nat, u: nat, limit: nat)
    requires s.Settled() && k < |s.objs| && u <= limit
    requires UpdateInside(s, Plan(s, M), base, h, h', k, u)
    requires s.objs[k] < |s.h| && s.FieldLo(s.objs[k]) <= u
    requires forall t :: u <= t < limit && t < s.objs[k] + SizeWords(s.h[s.objs[k]]) ==> t < |h'| && Unboxed(h'[t])
    ensures UpdateInside(s, Plan(s, M), base, h, h', k, limit)
  {
    hide Forward, SizeWords, Updated, Snapshot.GoodWord, Snapshot.Clean;
    forall t: nat | u <= t < limit && s.IsField(s.objs[k], t) ensures Unboxed(h[t]) {
      Extent(s, s.objs[k]);
      assert h'[t] == h[t];
    }
    UpdateSkips(s, Plan(s, M), base, h, h', k, u, limit);
  }

  lemma UpdateDead(s: Snapshot, M: set<nat>, h: seq<Word>, h': seq<Word>, base: nat, k: nat)
    requires s.Laid() && k < |s.objs| && s.objs[k] !in M
    requires UpdateState(s, Plan(s, M), base, h, h', k)
    ensures UpdateState(s, Plan(s, M), base, h, h', k + 1)
  {
    hide UpdateInside, UpdateState;
    Extent(s, s.objs[k]);
    UpdateEnter(s, Plan(s, M), base, h, h', k, |s.h|);
    UpdateLeave(s, Plan(s, M), base, h, h', k, |s.h|);
  }

  // From rewriting to sliding

  ghost predicate MarkBits(s: Snapshot, M: set<nat>, h: seq<Word>) {
    forall p :: p in s.objs ==> p + 1 < |h| && (Marked(h[p + 1]) <==> p in M)
  }

  /** When every object has been rewritten the headers and forwarding words are intact. */
  lemma UpdatedHeaders(s: Snapshot, M: set<nat>, h: seq<Word>, h': seq<Word>, base: nat, q: nat)
    requires s.Settled() && Located(s, h, M, |s.objs|)
    requires UpdateState(s, Plan(s, M), base, h, h', |s.objs|) && q in s.objs
    ensures q + 1 < |h| == |h'| && h'[q] == h[q] == s.h[q] && h'[q + 1] == h[q + 1]
  {
    hide Forward, SizeWords, Snapshot.GoodWord, Snapshot.Clean, Bits;
    SameObject(s, h, q);
    assert Updated(s, Plan(s, M), base, h, h', IndexOf(s.objs, q));
  }

  lemma UpdatedKnows(s: Snapshot, M: set<nat>, h: seq<Word>, h': seq<Word>, base: nat)
    requires s.Settled() && Located(s, h, M, |s.objs|)
    requires UpdateState(s, Plan(s, M), base, h, h', |s.objs|)
    ensures Knows(s, M, h') && MarkBits(s, M, h') && SlideState(s, M, h', h', 0)
  {
    hide Snapshot.GoodWord, Snapshot.Clean, Updated, Address, Marked, Enqueued;
    forall q | q in s.objs
      ensures q + 1 < |h| == |h'| && h'[q] == s.h[q] && h'[q + 1] == h[q + 1]
      ensures Marked(h'[q + 1]) <==> q in M
    {
      UpdatedHeaders(s, M, h, h', base, q);
      assert HasBits(h, q, q in M, q in {});
      BitsMean(h, q);
    }
    LocatedKnows(s, M, h, h');
  }

  /** Object `k` is still intact when its turn comes: its header, mark bit and forwarding
      address can be read although lower objects have been moved. */
  lemma SlideReads(s: Snapshot, M: set<nat>, h: seq<Word>, h1: seq<Word>, k: nat)
    requires s.Laid() && k < |s.objs| && SlideState(s, M, h, h1, k) && Knows(s, M, h) && MarkBits(s, M, h)
    ensures var p := s.objs[k];
      && p + 1 < |h1| == |s.h| && h1[p] == s.h[p]
      && p + SizeWords(h1[p]) == At(s.objs, |s.h|, k + 1) <= |s.h|
      && (Marked(h1[p + 1]) <==> p in M)
      && (p in M ==> Address(h1[p + 1]) == s.base + 4 * Dest(s, M, k) && Dest(s, M, k) + SizeWords(s.h[p]) <= |s.h|)
  {
    hide SizeWords, Marked, Address, MovedAt, Dest;
    var p := s.objs[k];
    Extent(s, p);
    assert TileAt(s.h, s.objs, k);
    if p in M {
      PlanAt(s, M, k);
      DestOrder(s, M, k, |s.objs|);
    }
  }

  lemma SlideStart(s: Snapshot)
    requires s.Laid()
    ensures At(s.objs, |s.h|, 0) == 0
  {
  }

  lemma SlideEnd(s: Snapshot, k: nat)
    requires s.Laid() && k <= |s.objs| && At(s.objs, |s.h|, k) >= |s.h|
    ensures k == |s.objs|
  {
    if k < |s.objs| {
      Ordered(s, k, k + 1);
    }
  }

  lemma LiveFits(s: Snapshot, M: set<nat>)
    requires s.Settled()
    ensures Dest(s, M, |s.objs|) <= |s.h|
  {
    DestOrder(s, M, |s.objs|, |s.objs|);
  }
}

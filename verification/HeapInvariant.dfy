/** The invariant that holds between the operations of the runtime, and the lemmas that
    carry it from one operation to the next. */
module HeapInvariant {
  import opened Wrappers
  import opened Words
  import opened Layout
  import opened Reachability
  import opened Marking
  import opened Compaction
  import opened Isomorphism
  import opened Roots

  /** What the operating system guarantees about a mapping of `size` words at `base`: it is
      aligned, lies in the address space, and covers no address in use for something else. */
  ghost predicate HonestBase(base: nat, size: nat, foreign: set<Word>) {
    && base > 0 && base % 4 == 0 && base + 4 * size < WORD_LIMIT
    && forall w :: w in foreign ==> !(base <= w <= base + 4 * size)
  }

  ghost predicate Honest(remap: nat -> Option<nat>, foreign: set<Word>) {
    forall n :: remap(n).Some? ==> HonestBase(remap(n).value, n, foreign)
  }

  /** Marked cells hold good words; cells that are rewritten without being marked (the word
      past the end of the stack) hold no heap pointer. */
  ghost predicate GoodRoots(s: Snapshot, roots: Area, outer: map<nat, Word>) {
    && (forall a :: a in roots.Marked() ==> a in outer && s.GoodWord(outer[a]))
    && (forall a :: a in roots.Fixed() && a !in roots.Marked() ==>
          a in outer && s.GoodWord(outer[a]) && !s.IsPointer(outer[a]))
  }

  /** Two well-formed heaps, the second holding copies of part of the first. */
  ghost predicate Related(s: Snapshot, t: Snapshot, F: map<nat, nat>) {
    && s.Settled() && t.Settled()
    && s.foreign == t.foreign && (forall w :: w in s.foreign ==> !t.IsPointer(w))
    && Embeds(s, t, F)
  }

  /** Every root cell was forwarded, and what it leads to was kept. */
  ghost predicate RootsForwarded(s: Snapshot, base: nat, F: map<nat, nat>, roots: Area,
                                 before: map<nat, Word>, after: map<nat, Word>) {
    && after.Keys == before.Keys
    && (forall a :: a in before ==>
          after[a] == if a in roots.Fixed() then Forward(s, F, base, before[a]) else before[a])
    && (forall a :: a in roots.Marked() ==>
          && a in before && a in roots.Fixed()
          && (s.IsPointer(before[a]) ==> s.Target(before[a]) in F))
  }

  /** The program's data after an operation that may have moved it. */
  ghost predicate Preserved(s: Snapshot, t: Snapshot, F: map<nat, nat>, roots: Area,
                            before: map<nat, Word>, after: map<nat, Word>) {
    && Related(s, t, F)
    && Isomorphic(s, t, F)
    && RootsForwarded(s, t.base, F, roots, before, after)
  }

  /** What is kept is exactly what the roots reach. */
  ghost predicate OnlyReachable(s: Snapshot, F: map<nat, nat>, roots: Area, outer: map<nat, Word>) {
    forall p :: p in F <==> ReachFrom(s, Values(outer, roots.Marked()), p)
  }

  lemma RootsMarkable(s: Snapshot, roots: Area, outer: map<nat, Word>)
    requires GoodRoots(s, roots, outer)
    ensures forall a :: a in roots.Marked() ==> a in outer && s.GoodWord(outer[a])
  {
  }

  /** After marking, every cell that will be rewritten leads to a marked object. */
  lemma RootsRewritable(s: Snapshot, roots: Area, outer: map<nat, Word>, M: set<nat>, h: seq<Word>)
    requires s.Settled() && MarkState(s, h, M) && GoodRoots(s, roots, outer)
    requires forall p :: p in M <==> ReachFrom(s, Values(outer, roots.Marked()), p)
    ensures s.Laid() && Rewritable(s, Plan(s, M), outer, roots.Fixed())
    ensures OnlyReachable(s, Plan(s, M), roots, outer)
  {
    hide Cells, Dest;
    MarkStateParts(s, h, M);
    forall a | a in roots.Fixed()
      ensures a in outer && s.GoodWord(outer[a]) && (s.IsPointer(outer[a]) ==> s.Target(outer[a]) in Plan(s, M))
    {
      if a in roots.Marked() && s.IsPointer(outer[a]) {
        ReachSelf(s, s.Target(outer[a]));
        assert outer[a] in Values(outer, roots.Marked());
        assert ReachFrom(s, Values(outer, roots.Marked()), s.Target(outer[a]));
      }
    }
  }

  /** The root cells fit the new heap. */
  lemma RootsStillGood(s: Snapshot, t: Snapshot, F: map<nat, nat>, roots: Area,
                       before: map<nat, Word>, after: map<nat, Word>, size: nat)
    requires s.Settled() && t.Settled() && t.foreign == s.foreign && HonestBase(t.base, size, s.foreign) &&
      |t.h| <= size
    requires roots.Disciplined() && GoodRoots(s, roots, before) && Isomorphic(s, t, F)
    requires Rewritable(s, F, before, roots.Fixed()) && Rewritten(s, F, t.base, before, after, roots.Fixed())
    ensures GoodRoots(t, roots, after) && Preserved(s, t, F, roots, before, after)
  {
    hide Cells, Snapshot.GoodWord, Snapshot.Laid, Snapshot.Clean, CopiedObject, Area.Disciplined, Area.Marked,
      Area.Fixed;
    FixedOnce(roots);
    forall a | a in roots.Fixed() ensures a in after && t.GoodWord(after[a]) {
      ForwardGood(s, t, F, before[a]);
    }
    forall a | a in roots.Fixed() && a !in roots.Marked() ensures !t.IsPointer(after[a]) {
      ForeignStays(s, t, F, before[a]);
    }
  }

  lemma ForeignStays(s: Snapshot, t: Snapshot, F: map<nat, nat>, v: Word)
    requires s.GoodWord(v) && !s.IsPointer(v)
    requires forall w :: w in s.foreign ==> !t.IsPointer(w)
    ensures Forward(s, F, t.base, v) == v && !t.IsPointer(v)
  {
  }

  /** Every object stays where it is. */
  ghost function Identity(s: Snapshot): (F: map<nat, nat>)
    ensures forall q :: q in F <==> q in s.objs
    ensures forall q :: q in F ==> F[q] == q
  {
    map q | q in s.objs :: q
  }

  lemma NothingForwarded(s: Snapshot, v: Word)
    requires s.Laid() && s.GoodWord(v)
    ensures Forward(s, Identity(s), s.base, v) == v
    ensures s.IsPointer(v) ==> s.Target(v) >= 0 && s.Target(v) in Identity(s)
  {
  }

  lemma NothingCopied(s: Snapshot, p: nat)
    requires s.Settled() && p in s.objs
    ensures CopiedObject(s, s, Identity(s), p)
  {
    hide Snapshot.Clean, SizeWords, Forward, Snapshot.GoodWord;
    var F := Identity(s);
    Extent(s, p);
    forall u | p + 2 <= u < p + SizeWords(s.h[p]) ensures CopiedSlot(s, s, F, p, u) {
      if s.IsField(p, u) {
        NothingForwarded(s, s.h[u]);
      }
    }
  }

  lemma NothingIsomorphic(s: Snapshot)
    requires s.Settled()
    ensures Isomorphic(s, s, Identity(s))
  {
    hide Snapshot.Settled, SizeWords, CopiedObject;
    forall p | p in s.objs ensures CopiedObject(s, s, Identity(s), p) {
      NothingCopied(s, p);
    }
  }

  /** Nothing collected: every object keeps its place. */
  lemma NothingMoved(s: Snapshot, roots: Area, outer: map<nat, Word>, size: nat)
    requires HonestBase(s.base, size, s.foreign) && |s.h| <= size
    requires s.Settled() && roots.Disciplined() && GoodRoots(s, roots, outer)
    ensures Preserved(s, s, Identity(s), roots, outer, outer)
  {
    hide Cells, Area.Disciplined, Area.Marked, Area.Fixed, Snapshot.Clean, Snapshot.Laid, Snapshot.GoodWord, Forward,
      SizeWords, CopiedObject;
    FixedOnce(roots);
    NothingIsomorphic(s);
    forall a | a in roots.Fixed()
      ensures Forward(s, Identity(s), s.base, outer[a]) == outer[a]
      ensures s.IsPointer(outer[a]) ==> s.Target(outer[a]) >= 0 && s.Target(outer[a]) in Identity(s)
    {
      NothingForwarded(s, outer[a]);
    }
  }

  /** `u` is the heap `t` with one more object, zero apart from its header. */
  ghost predicate Appended(t: Snapshot, u: Snapshot, header: Word) {
    && u.base == t.base && u.foreign == t.foreign
    && u.objs == t.objs + [|t.h|]
    && |u.h| == |t.h| + SizeWords(header)
    && u.h[..|t.h|] == t.h
    && u.h[|t.h|] == header
    && forall i :: |t.h| < i < |u.h| ==> u.h[i] == 0
  }

  lemma AppendedAddress(t: Snapshot, u: Snapshot, header: Word)
    requires Appended(t, u, header) && u.Settled()
    ensures u.ContentAddress(|t.h|) < WORD_LIMIT
  {
    assert u.objs[|t.objs|] == |t.h|;
    AddressesDiffer(u, |t.h|);
  }

  lemma AppendedTiles(t: Snapshot, u: Snapshot, header: Word)
    requires Tiles(t.h, t.objs, 0) && ValidTag(header) && Appended(t, u, header)
    ensures Tiles(u.h, u.objs, 0)
  {
    hide SizeBytes, BytesToWords, ValidTag;
    forall k | 0 <= k < |u.objs| ensures TileAt(u.h, u.objs, k) {
      if k < |t.objs| {
        assert TileAt(t.h, t.objs, k);
        assert u.h[t.objs[k]] == t.h[t.objs[k]];
      }
    }
  }

  lemma AppendedGood(t: Snapshot, u: Snapshot, header: Word, size: nat, v: Word)
    requires Appended(t, u, header) && |u.h| <= size && HonestBase(u.base, size, u.foreign)
    requires t.GoodWord(v)
    ensures u.GoodWord(v)
  {
  }

  lemma AppendedSettled(t: Snapshot, u: Snapshot, header: Word, size: nat)
    requires t.Settled() && ValidTag(header) && Appended(t, u, header) && |u.h| <= size
    requires HonestBase(u.base, size, u.foreign) && 0 in u.foreign
    ensures u.Settled()
  {
    hide SizeBytes, BytesToWords, ValidTag, Snapshot.GoodWord, HonestBase;
    AppendedTiles(t, u, header);
    AppendedLaid(u, size);
    forall p | p in u.objs ensures u.Clean(p) {
      AppendedClean(t, u, header, p);
    }
    forall p, i: nat | p in u.objs && u.IsField(p, i) ensures u.GoodWord(u.h[i]) {
      if p in t.objs {
        Extent(t, p);
        assert t.h[p] == u.h[p] && t.h[i] == u.h[i];
        assert t.IsField(p, i);
        AppendedGood(t, u, header, size, u.h[i]);
      } else {
        Extent(u, p);
        NullGood(u, size);
      }
    }
  }

  lemma AppendedLaid(u: Snapshot, size: nat)
    requires Tiles(u.h, u.objs, 0) && |u.h| <= size && HonestBase(u.base, size, u.foreign)
    ensures u.Laid()
  {
  }

  lemma AppendedClean(t: Snapshot, u: Snapshot, header: Word, p: nat)
    requires t.Settled() && Appended(t, u, header) && p in u.objs
    ensures u.Clean(p)
  {
    if p in t.objs {
      assert t.Clean(p);
    }
  }

  lemma NullGood(u: Snapshot, size: nat)
    requires HonestBase(u.base, size, u.foreign) && 0 in u.foreign
    ensures u.GoodWord(0)
  {
  }

  lemma AppendedRoots(t: Snapshot, u: Snapshot, roots: Area, outer: map<nat, Word>, size: nat)
    requires GoodRoots(t, roots, outer)
    requires exists header :: Appended(t, u, header)
    requires |u.h| <= size && HonestBase(u.base, size, u.foreign)
    ensures GoodRoots(u, roots, outer)
  {
    hide Area.Marked, Area.Fixed;
    var header :| Appended(t, u, header);
    forall a | a in roots.Marked() ensures a in outer && u.GoodWord(outer[a]) {
      AppendedGood(t, u, header, size, outer[a]);
    }
    forall a | a in roots.Fixed() && a !in roots.Marked()
      ensures a in outer && u.GoodWord(outer[a]) && !u.IsPointer(outer[a])
    {
      AppendedGood(t, u, header, size, outer[a]);
    }
  }

  /** Writing a payload word leaves the layout, the forwarding words and all other fields. */
  lemma PayloadWord(s: Snapshot, p: nat, u: nat, v: Word)
    requires s.Settled() && p in s.objs && p < |s.h| && p + 2 <= u < p + SizeWords(s.h[p])
    requires s.IsField(p, u) ==> s.GoodWord(v)
    ensures u < |s.h| && s.(h := s.h[u := v]).Settled()
  {
    hide SizeBytes, BytesToWords, ValidTag, Marked, Enqueued;
    Extent(s, p);
    var t := s.(h := s.h[u := v]);
    forall q | q in s.objs ensures q + 2 <= |s.h| && t.h[q] == s.h[q] && t.h[q + 1] == s.h[q + 1] &&
      (s.IsField(q, u) ==> q == p) {
      Apart(s, p, q);
      Extent(s, q);
    }
    assert Tiles(t.h, t.objs, 0) by {
      forall k | 0 <= k < |t.objs| ensures TileAt(t.h, t.objs, k) {
        assert TileAt(s.h, s.objs, k);
        assert s.objs[k] in s.objs;
      }
    }
    forall q | q in t.objs ensures t.Clean(q) {
      assert s.Clean(q);
    }
    forall q, i: nat | q in t.objs && t.IsField(q, i) ensures t.GoodWord(t.h[i]) {
      assert s.IsField(q, i);
      assert i != u ==> s.GoodWord(s.h[i]);
    }
  }

  lemma SameRoots(s: Snapshot, t: Snapshot, roots: Area, outer: map<nat, Word>)
    requires |s.h| == |t.h| && s.base == t.base && s.objs == t.objs && s.foreign == t.foreign
    requires GoodRoots(s, roots, outer)
    ensures GoodRoots(t, roots, outer)
  {
    hide Area.Marked, Area.Fixed;
    assert forall v :: s.GoodWord(v) ==> t.GoodWord(v);
  }

  lemma PhasesDone(s: Snapshot, M: set<nat>, base: nat, h1: seq<Word>, h2: seq<Word>, h3: seq<Word>, size: nat)
    requires s.Settled() && M <= Elements(s.objs) && Closed(s, M)
    requires Located(s, h1, M, |s.objs|) && UpdateState(s, Plan(s, M), base, h1, h2, |s.objs|)
    requires SlideState(s, M, h2, h3, |s.objs|)
    requires HonestBase(base, size, s.foreign) && |s.h| <= size
    ensures s.Laid() && Dest(s, M, |s.objs|) <= |h3|
    ensures Isomorphic(s, Result(s, M, base, h3), Plan(s, M)) && Result(s, M, base, h3).Settled()
  {
    hide Located, UpdateState, SlideState, Isomorphic, Closed, Plan, Dest, Kept, Snapshot.GoodWord, Snapshot.Clean;
    assert Phases(s, M, base, h1, h2, h3);
    ResultIsomorphic(s, M, base, h1, h2, h3);
    ResultSettled(s, M, base, h1, h2, h3);
  }
}

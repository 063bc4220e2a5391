/** What LISP2 compaction keeps, phase by phase: forwarding addresses, rewritten
    references, and objects slid down over each other. */
module Compaction {
  import opened Words
  import opened Layout
  import opened Marking

  // Where objects go

  /** Words taken by the marked objects among the first `k`: the free pointer of
      `compute_locations` when it reaches object `k`. */
  ghost function Dest(s: Snapshot, M: set<nat>, k: nat): nat
    requires s.Laid() && k <= |s.objs|
  {
    if k == 0 then 0
    else
      assert TileAt(s.h, s.objs, k - 1);
      Dest(s, M, k - 1) + if s.objs[k - 1] in M then SizeWords(s.h[s.objs[k - 1]]) else 0
  }

  /** The forwarding map: new header offset of every marked object. */
  ghost function Plan(s: Snapshot, M: set<nat>): map<nat, nat>
    requires s.Laid()
  {
    map p | p in M && p in s.objs :: Dest(s, M, IndexOf(s.objs, p))
  }

  /** Header offsets of the compacted heap. */
  ghost function Kept(s: Snapshot, M: set<nat>, k: nat): seq<nat>
    requires s.Laid() && k <= |s.objs|
  {
    if k == 0 then []
    else Kept(s, M, k - 1) + if s.objs[k - 1] in M then [Dest(s, M, k - 1)] else []
  }

  lemma PlanAt(s: Snapshot, M: set<nat>, k: nat)
    requires s.Laid() && k < |s.objs| && s.objs[k] in M
    ensures s.objs[k] in Plan(s, M) && Plan(s, M)[s.objs[k]] == Dest(s, M, k)
  {
    Distinct(s, IndexOf(s.objs, s.objs[k]), k);
  }

  /** Destinations are packed, in address order and never above their sources. */
  lemma {:induction false} DestOrder(s: Snapshot, M: set<nat>, i: nat, j: nat)
    requires s.Laid() && i <= j <= |s.objs|
    ensures Dest(s, M, i) <= Dest(s, M, j) <= At(s.objs, |s.h|, j) <= |s.h|
    ensures i < j && s.objs[i] in M ==>
      s.objs[i] + 2 <= |s.h| && Dest(s, M, i) + SizeWords(s.h[s.objs[i]]) <= Dest(s, M, j)
    decreases j
  {
    if i < j {
      Ordered(s, i, j);
      DestOrder(s, M, i, j - 1);
      assert TileAt(s.h, s.objs, j - 1);
    } else if j > 0 {
      DestOrder(s, M, j - 1, j - 1);
      assert TileAt(s.h, s.objs, j - 1);
    }
    if j < |s.objs| {
      Ordered(s, j, j + 1);
    }
  }

  // Forwarding addresses

  ghost predicate LocatedAt(s: Snapshot, h: seq<Word>, M: set<nat>, k: nat)
    requires s.Laid() && k < |s.objs|
  {
    s.objs[k] in M ==>
      s.objs[k] + 1 < |h| && Address(h[s.objs[k] + 1]) == s.base + 4 * Dest(s, M, k)
  }

  /** The first `k` objects have been given their forwarding addresses. */
  ghost predicate Located(s: Snapshot, h: seq<Word>, M: set<nat>, k: nat)
    requires s.Laid() && k <= |s.objs|
  {
    && SameData(s, h)
    && Bits(s, h, M, {})
    && forall j :: 0 <= j < k ==> LocatedAt(s, h, M, j)
  }

  lemma LocateKeeps(s: Snapshot, h: seq<Word>, M: set<nat>, k: nat, a: Word)
    requires s.Laid() && k < |s.objs| && Located(s, h, M, k)
    requires s.objs[k] in M && a % 4 == 0 && a == s.base + 4 * Dest(s, M, k)
    ensures s.objs[k] + 1 < |h|
    ensures Located(s, h[s.objs[k] + 1 := SetAddress(h[s.objs[k] + 1], a)], M, k + 1)
  {
    hide Address, Marked, Enqueued, SetAddress, SizeWords;
    var p := s.objs[k];
    Extent(s, p);
    var h' := h[p + 1 := SetAddress(h[p + 1], a)];
    forall q | q in s.objs ensures HasBits(h', q, q in M, false) {
      assert HasBits(h, q, q in M, q in {});
    }
    forall j | 0 <= j < k + 1 ensures LocatedAt(s, h', M, j) {
      if j < k {
        assert LocatedAt(s, h, M, j);
        if s.objs[j] == p {
          Distinct(s, j, k);
        }
      }
    }
  }

  lemma LocateStart(s: Snapshot, h: seq<Word>, M: set<nat>)
    requires s.Settled() && MarkState(s, h, M)
    ensures Located(s, h, M, 0) && Dest(s, M, 0) == 0
  {
  }

  lemma DestStep(s: Snapshot, M: set<nat>, k: nat)
    requires s.Laid() && k < |s.objs|
    ensures s.objs[k] < |s.h|
    ensures Dest(s, M, k + 1) == Dest(s, M, k) + if s.objs[k] in M then SizeWords(s.h[s.objs[k]]) else 0
  {
    assert TileAt(s.h, s.objs, k);
  }

  /** What `compute_locations` finds at object `k`, and what it leaves behind. */
  lemma LocateStep(s: Snapshot, h: seq<Word>, M: set<nat>, k: nat)
    requires s.Laid() && k < |s.objs| && Located(s, h, M, k)
    ensures var p := s.objs[k];
      && p + 1 < |h| && h[p] == s.h[p] && p + SizeWords(h[p]) == At(s.objs, |s.h|, k + 1)
      && (Marked(h[p + 1]) <==> p in M)
    ensures (s.base + 4 * Dest(s, M, k)) % 4 == 0 && s.base + 4 * Dest(s, M, k) < WORD_LIMIT
    ensures var p := s.objs[k];
      if p in M then
        Located(s, h[p + 1 := SetAddress(h[p + 1], s.base + 4 * Dest(s, M, k))], M, k + 1)
      else
        Located(s, h, M, k + 1)
  {
    hide Address, Marked, Enqueued, SetAddress, SizeWords;
    var p := s.objs[k];
    SameObject(s, h, p);
    DestOrder(s, M, k, k);
    assert TileAt(s.h, s.objs, k);
    assert HasBits(h, p, p in M, p in {});
    BitsMean(h, p);
    if p in M {
      LocateKeeps(s, h, M, k, s.base + 4 * Dest(s, M, k));
    }
  }

  // References

  /** A word after compaction: pointers to kept objects follow them to the new base. */
  ghost function Forward(s: Snapshot, F: map<nat, nat>, base: nat, v: Word): nat {
    if s.IsPointer(v) && s.Target(v) >= 0 && s.Target(v) in F
    then base + 4 * (F[s.Target(v)] + 2)
    else v
  }

  /** Object `p` in `h'` is the object in `h` with its fields below `limit` forwarded. */
  ghost predicate UpdatedBelow(s: Snapshot, F: map<nat, nat>, base: nat,
                               h: seq<Word>, h': seq<Word>, p: nat, limit: nat)
    requires p < |s.h|
  {
    && |h| == |h'| == |s.h|
    && p + SizeWords(s.h[p]) <= |s.h|
    && forall u :: p <= u < p + SizeWords(s.h[p]) ==>
      h'[u] == if p in F && s.IsField(p, u) && u < limit then Forward(s, F, base, h[u]) else h[u]
  }

  ghost predicate Updated(s: Snapshot, F: map<nat, nat>, base: nat, h: seq<Word>, h': seq<Word>, k: nat)
    requires s.Laid() && k < |s.objs|
  {
    assert TileAt(s.h, s.objs, k);
    UpdatedBelow(s, F, base, h, h', s.objs[k], |s.h|)
  }

  /** `update_references` has dealt with the first `k` objects. */
  ghost predicate UpdateState(s: Snapshot, F: map<nat, nat>, base: nat, h: seq<Word>, h': seq<Word>, k: nat)
    requires s.Laid() && k <= |s.objs|
  {
    && |h| == |h'| == |s.h|
    && (forall j :: 0 <= j < k ==> Updated(s, F, base, h, h', j))
    && (forall i :: At(s.objs, |s.h|, k) <= i < |h| ==> h'[i] == h[i])
  }

  /** ... and with the fields of object `k` below `limit`. */
  ghost predicate UpdateInside(s: Snapshot, F: map<nat, nat>, base: nat, h: seq<Word>, h': seq<Word>, k: nat,
      limit: nat)
    requires s.Laid() && k < |s.objs|
  {
    assert TileAt(s.h, s.objs, k);
    && |h| == |h'| == |s.h|
    && (forall j :: 0 <= j < k ==> Updated(s, F, base, h, h', j))
    && UpdatedBelow(s, F, base, h, h', s.objs[k], limit)
    && (forall i :: At(s.objs, |s.h|, k + 1) <= i < |h| ==> h'[i] == h[i])
  }

  /** Headers and forwarding words are as they were, whichever object the loop is in. */
  lemma UpdateHeaders(s: Snapshot, F: map<nat, nat>, base: nat, h: seq<Word>, h': seq<Word>, k: nat, limit: nat, q: nat)
    requires s.Laid() && k < |s.objs| && UpdateInside(s, F, base, h, h', k, limit)
    requires q in s.objs
    ensures q + 1 < |h| && h'[q] == h[q] && h'[q + 1] == h[q + 1]
  {
    hide Forward, SizeWords;
    Extent(s, q);
    var i := IndexOf(s.objs, q);
    if i < k {
      assert Updated(s, F, base, h, h', i);
    } else if i > k {
      Ordered(s, k, i);
      assert TileAt(s.h, s.objs, k);
      TilesMonotone(s.h, s.objs, 0, k + 1, i);
    }
  }

  lemma UpdateEnter(s: Snapshot, F: map<nat, nat>, base: nat, h: seq<Word>, h': seq<Word>, k: nat, limit: nat)
    requires s.Laid() && k < |s.objs| && UpdateState(s, F, base, h, h', k)
    requires s.objs[k] !in F || (s.objs[k] < |s.h| && limit <= s.FieldLo(s.objs[k]))
    ensures UpdateInside(s, F, base, h, h', k, limit)
  {
    hide Forward;
    Ordered(s, k, k + 1);
  }

  lemma UpdateLeave(s: Snapshot, F: map<nat, nat>, base: nat, h: seq<Word>, h': seq<Word>, k: nat, limit: nat)
    requires s.Laid() && k < |s.objs| && UpdateInside(s, F, base, h, h', k, limit)
    requires s.objs[k] < |s.h| && limit >= s.FieldHi(s.objs[k])
    ensures UpdateState(s, F, base, h, h', k + 1)
  {
    hide Forward, SizeWords;
    assert Updated(s, F, base, h, h', k);
  }

  /** Rewriting field `u`, or passing over words up to `limit'` that hold no pointer. */
  lemma UpdateKeeps(s: Snapshot, F: map<nat, nat>, base: nat, h: seq<Word>, h': seq<Word>, k: nat, u: nat, w: Word)
    requires s.Laid() && k < |s.objs| && UpdateInside(s, F, base, h, h', k, u)
    requires s.objs[k] in F && s.IsField(s.objs[k], u) && w == Forward(s, F, base, h[u])
    ensures UpdateInside(s, F, base, h, h'[u := w], k, u + 1)
  {
    hide Forward, SizeWords;
    Extent(s, s.objs[k]);
    var h'' := h'[u := w];
    assert TileAt(s.h, s.objs, k);
    forall j | 0 <= j < k ensures Updated(s, F, base, h, h'', j) {
      assert Updated(s, F, base, h, h', j);
      Ordered(s, j, k);
      assert TileAt(s.h, s.objs, j);
    }
  }

  lemma UpdateSkips(s: Snapshot, F: map<nat, nat>, base: nat, h: seq<Word>, h': seq<Word>, k: nat, u: nat, limit: nat)
    requires s.Laid() && k < |s.objs| && UpdateInside(s, F, base, h, h', k, u)
    requires u <= limit
    requires forall t: nat :: u <= t < limit && s.IsField(s.objs[k], t) ==> Unboxed(h[t])
    ensures UpdateInside(s, F, base, h, h', k, limit)
  {
    hide SizeWords;
    assert TileAt(s.h, s.objs, k);
  }

  /** The word that the rewriting loops compute from the forwarding word of the target. */
  ghost predicate Knows(s: Snapshot, M: set<nat>, h: seq<Word>) {
    && |h| == |s.h|
    && forall p :: p in M && p in s.objs ==>
      p + 1 < |h| && s.Laid() && Address(h[p + 1]) == s.base + 4 * Plan(s, M)[p]
  }

  lemma LocatedKnows(s: Snapshot, M: set<nat>, h: seq<Word>, h': seq<Word>)
    requires s.Laid() && Located(s, h, M, |s.objs|) && |h'| == |h|
    requires forall q :: q in s.objs && q + 1 < |h| ==> h'[q + 1] == h[q + 1]
    ensures Knows(s, M, h')
  {
    hide Address, Bits;
    forall p | p in M && p in s.objs
      ensures p + 1 < |h'| && Address(h'[p + 1]) == s.base + 4 * Plan(s, M)[p]
    {
      var k := IndexOf(s.objs, p);
      assert LocatedAt(s, h, M, k);
    }
  }

  lemma ForwardComputed(s: Snapshot, M: set<nat>, h: seq<Word>, base: nat, v: Word)
    requires s.Laid() && Knows(s, M, h) && base + 4 * |s.h| < WORD_LIMIT
    requires s.GoodWord(v) && s.IsPointer(v) && s.Target(v) in Plan(s, M)
    ensures var o := s.Target(v);
      && o >= 0 && o + 1 < |h| && v % 4 == 0
      && base + (Address(h[o + 1]) - s.base) + HEADER_BYTES == Forward(s, Plan(s, M), base, v) < WORD_LIMIT
      && Forward(s, Plan(s, M), base, v) >= 0
  {
    hide Address;
    var o := s.Target(v);
    var k := IndexOf(s.objs, o);
    DestOrder(s, M, k, |s.objs|);
    AddressesDiffer(s, o);
  }

  // Sliding

  /** Word `i` of an object after a byte copy: a string's last word may only be copied in
      part, and then just the bytes of the string count. */
  ghost predicate CopiedWord(header: Word, i: nat, source: Word, target: Word) {
    if 4 * (i + 1) <= SizeBytes(header) then target == source
    else forall c :: 0 <= c < 4 && 4 * i + c < SizeBytes(header) ==> ByteOf(target, c) == ByteOf(source, c)
  }

  function MovedWord(bytes: nat, i: nat, source: Word, target: Word): Word {
    if 4 * (i + 1) <= bytes then source
    else if 4 * i < bytes then Splice(source, target, bytes - 4 * i)
    else target
  }

  /** `memmove` of `bytes` bytes between word offsets; source and target may overlap. */
  ghost predicate IsMemmove(h: seq<Word>, h': seq<Word>, to: nat, from: nat, bytes: nat)
    requires bytes > 0
    requires to + BytesToWords(bytes) <= |h| && from + BytesToWords(bytes) <= |h|
  {
    && |h'| == |h|
    && (forall j :: to <= j < to + BytesToWords(bytes) ==>
          h'[j] == MovedWord(bytes, j - to, h[j - to + from], h[j]))
    && (forall j :: 0 <= j < |h| && !(to <= j < to + BytesToWords(bytes)) ==> h'[j] == h[j])
  }

  /** The words `b` are the object `a` with its mark bit cleared. */
  ghost predicate IsCopy(a: seq<Word>, b: seq<Word>) {
    && |a| == |b| >= 2
    && b[0] == a[0]
    && b[1] == ResetMark(a[1])
    && forall i :: 2 <= i < |a| ==> CopiedWord(a[0], i, a[i], b[i])
  }

  /** The object at `p` in `h` now sits at `d` in `h'`. */
  ghost predicate MovedTo(h: seq<Word>, h': seq<Word>, p: nat, d: nat) {
    && p < |h|
    && p + SizeWords(h[p]) <= |h|
    && d + SizeWords(h[p]) <= |h'|
    && IsCopy(h[p..p + SizeWords(h[p])], h'[d..d + SizeWords(h[p])])
  }

  ghost predicate MovedAt(s: Snapshot, M: set<nat>, h: seq<Word>, h': seq<Word>, k: nat)
    requires s.Laid() && k < |s.objs|
  {
    s.objs[k] in M ==> MovedTo(h, h', s.objs[k], Dest(s, M, k))
  }

  /** `physically_relocate` before object `k`: every marked object below is at its
      destination, every object from `k` on is untouched at its old address. */
  ghost predicate SlideState(s: Snapshot, M: set<nat>, h: seq<Word>, h': seq<Word>, k: nat)
    requires s.Laid() && k <= |s.objs|
  {
    && |h| == |h'| == |s.h|
    && (forall p :: p in s.objs ==> p < |h| && h[p] == s.h[p])
    && (forall j :: 0 <= j < k ==> MovedAt(s, M, h, h', j))
    && (forall i :: At(s.objs, |s.h|, k) <= i < |h| ==> h'[i] == h[i])
  }

  lemma MoveIsCopy(h: seq<Word>, h1: seq<Word>, h2: seq<Word>, h3: seq<Word>, p: nat, d: nat)
    requires |h| == |h1| == |h2| && p < |h|
    requires p + SizeWords(h[p]) <= |h| && d + SizeWords(h[p]) <= |h|
    requires forall i :: p <= i < p + SizeWords(h[p]) ==> h1[i] == h[i]
    requires IsMemmove(h1, h2, d, p, SizeBytes(h[p]))
    requires h3 == h2[d + 1 := ResetMark(h2[d + 1])]
    ensures MovedTo(h, h3, p, d)
  {
    hide ResetMark, Splice, ByteOf, ValidTag;
    var bytes, n := SizeBytes(h[p]), SizeWords(h[p]);
    var a, b := h[p..p + n], h3[d..d + n];
    assert bytes >= 8;
    assert h2[d] == MovedWord(bytes, 0, h1[p], h1[d]);
    assert h2[d + 1] == MovedWord(bytes, 1, h1[p + 1], h1[d + 1]);
    forall i | 2 <= i < n ensures CopiedWord(a[0], i, a[i], b[i]) {
      assert h2[d + i] == MovedWord(bytes, i, h1[p + i], h1[d + i]);
      assert h1[p + i] == h[p + i];
    }
  }

  /** Moving object `k` disturbs neither an object already moved nor one still to come,
      although its source and target may overlap. */
  lemma SlideKeeps(s: Snapshot, M: set<nat>, h: seq<Word>, h1: seq<Word>, h2: seq<Word>, h3: seq<Word>, k: nat)
    requires s.Laid() && k < |s.objs| && s.objs[k] in M && SlideState(s, M, h, h1, k)
    requires s.objs[k] < |s.h| == |h|
    requires Dest(s, M, k) + SizeWords(s.h[s.objs[k]]) <= |h| && s.objs[k] + SizeWords(s.h[s.objs[k]]) <= |h|
    requires IsMemmove(h1, h2, Dest(s, M, k), s.objs[k], SizeBytes(s.h[s.objs[k]]))
    requires h3 == h2[Dest(s, M, k) + 1 := ResetMark(h2[Dest(s, M, k) + 1])]
    ensures SlideState(s, M, h, h3, k + 1)
  {
    hide ResetMark, MovedWord, SizeBytes, Dest, ValidTag, MovedTo;
    var p, d := s.objs[k], Dest(s, M, k);
    var n := SizeWords(s.h[p]);
    assert TileAt(s.h, s.objs, k);
    assert MovedTo(h, h3, p, d) by {
      assert h[p] == s.h[p];
      MoveIsCopy(h, h1, h2, h3, p, d);
    }
    assert forall i :: 0 <= i < |h| && !(d <= i < d + n) ==> h3[i] == h1[i];
    SlideElsewhere(s, M, h, h1, h3, k);
  }

  lemma SlideElsewhere(s: Snapshot, M: set<nat>, h: seq<Word>, h1: seq<Word>, h3: seq<Word>, k: nat)
    requires s.Laid() && k < |s.objs| && s.objs[k] in M && SlideState(s, M, h, h1, k)
    requires s.objs[k] < |s.h| == |h| == |h3|
    requires MovedTo(h, h3, s.objs[k], Dest(s, M, k))
    requires forall i :: 0 <= i < |h| && !(Dest(s, M, k) <= i < Dest(s, M, k) + SizeWords(s.h[s.objs[k]])) ==>
      h3[i] == h1[i]
    ensures SlideState(s, M, h, h3, k + 1)
  {
    hide SizeBytes, Dest, ValidTag, IsCopy;
    var p, d := s.objs[k], Dest(s, M, k);
    DestOrder(s, M, k, k);
    assert TileAt(s.h, s.objs, k);
    forall j | 0 <= j < k + 1 ensures MovedAt(s, M, h, h3, j) {
      if j < k && s.objs[j] in M {
        DestOrder(s, M, j, k);
        assert MovedAt(s, M, h, h1, j);
        MovedElsewhere(h, h1, h3, s.objs[j], Dest(s, M, j), d);
      }
    }
  }

  lemma MovedElsewhere(h: seq<Word>, h1: seq<Word>, h3: seq<Word>, p: nat, d: nat, e: nat)
    requires MovedTo(h, h1, p, d) && d + SizeWords(h[p]) <= e <= |h1| <= |h3|
    requires forall i :: 0 <= i < e ==> h3[i] == h1[i]
    ensures MovedTo(h, h3, p, d)
  {
    hide IsCopy, SizeBytes;
    var n := SizeWords(h[p]);
    assert h3[d..d + n] == h1[d..d + n];
  }

  lemma SlideSkips(s: Snapshot, M: set<nat>, h: seq<Word>, h1: seq<Word>, k: nat)
    requires s.Laid() && k < |s.objs| && s.objs[k] !in M && SlideState(s, M, h, h1, k)
    ensures SlideState(s, M, h, h1, k + 1)
  {
    hide MovedTo;
    Ordered(s, k, k + 1);
    assert TileAt(s.h, s.objs, k);
  }
}

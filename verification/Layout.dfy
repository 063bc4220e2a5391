/** The heap as a sequence of objects, and the object graph it stores.

    A `Snapshot` is the words in use (from `heap.begin` up to `heap.current`), the byte
    address of the first of them, the header offsets found by walking the heap by object
    sizes, and the set of even words that are known not to be heap addresses (null, code,
    statics). Offsets are in words relative to `heap.begin`. */
module Layout {
  import opened Words

  /** Offset of object `k`; the offset after the last object is the end of the heap. */
  function At(objs: seq<nat>, end: nat, k: nat): nat {
    if k < |objs| then objs[k] else end
  }

  /** The heap iterator: the header offsets met by stepping over whole objects. */
  function Walk(h: seq<Word>, from: nat): (r: (bool, seq<nat>))
    requires from <= |h|
    decreases |h| - from
  {
    if from == |h| then (true, [])
    else if !ValidTag(h[from]) || from + SizeWords(h[from]) > |h| then (false, [])
    else
      var rest := Walk(h, from + SizeWords(h[from]));
      (rest.0, [from] + rest.1)
  }

  ghost predicate Tiles(h: seq<Word>, objs: seq<nat>, from: nat) {
    && At(objs, |h|, 0) == from
    && forall k :: 0 <= k < |objs| ==> TileAt(h, objs, k)
  }

  ghost predicate TileAt(h: seq<Word>, objs: seq<nat>, k: nat)
    requires k < |objs|
  {
    && objs[k] + 2 <= |h|
    && ValidTag(h[objs[k]])
    && objs[k] + SizeWords(h[objs[k]]) == At(objs, |h|, k + 1)
  }

  /** Walking lands exactly on the end of the heap precisely when the offsets tile it. */
  lemma {:induction false} WalkTiles(h: seq<Word>, objs: seq<nat>, from: nat)
    requires from <= |h|
    ensures Walk(h, from) == (true, objs) <==> Tiles(h, objs, from)
    decreases |h| - from
  {
    if from == |h| {
      if |objs| > 0 {
        assert objs[0] == from ==> !TileAt(h, objs, 0);
      }
    } else if Tiles(h, objs, from) {
      assert |objs| > 0 && objs[0] == from;
      assert TileAt(h, objs, 0);
      TilesMonotone(h, objs, from, 1, |objs|);
      var rest := objs[1..];
      var next := from + SizeWords(h[from]);
      forall k | 0 <= k < |rest| ensures TileAt(h, rest, k) {
        assert TileAt(h, objs, k + 1);
      }
      WalkTiles(h, rest, next);
      assert objs == [from] + rest;
    } else if Walk(h, from) == (true, objs) {
      var next := from + SizeWords(h[from]);
      var rest := objs[1..];
      assert Walk(h, next) == (true, rest);
      WalkTiles(h, rest, next);
      assert objs == [from] + rest;
      forall k | 0 <= k < |objs| ensures TileAt(h, objs, k) {
        if k > 0 {
          assert TileAt(h, rest, k - 1);
        }
      }
    }
  }

  lemma TilesMonotone(h: seq<Word>, objs: seq<nat>, from: nat, i: nat, j: nat)
    requires Tiles(h, objs, from) && i <= j <= |objs|
    ensures At(objs, |h|, i) + 2 * (j - i) <= At(objs, |h|, j) <= |h|
    decreases j - i, |objs| - i
  {
    if i < j {
      assert TileAt(h, objs, i);
      TilesMonotone(h, objs, from, i + 1, j);
    } else if i < |objs| {
      assert TileAt(h, objs, i);
    }
  }

  /** `field_begin_iterator`, for the object at `p` with the given header word. */
  function FirstField(p: nat, header: Word): nat {
    if Tag(header) == STRING_TAG then p + SizeWords(header)
    else if Tag(header) == ARRAY_TAG then p + 2
    else p + 3
  }

  datatype Snapshot = Snapshot(h: seq<Word>, base: nat, objs: seq<nat>, foreign: set<Word>) {

    ghost predicate Laid() {
      && Tiles(h, objs, 0)
      && base > 0 && base % 4 == 0
      && base + 4 * |h| < WORD_LIMIT
    }

    // Pointers

    /** `is_valid_heap_pointer`; the upper bound is inclusive because the content of a
        zero-length object at the end of the heap starts at `heap.current`. */
    predicate IsPointer(v: Word) {
      !Unboxed(v) && base <= v <= base + 4 * |h|
    }

    /** Header offset of the object whose content address is `v`. */
    function Target(v: Word): int {
      (v - base) / 4 - 2
    }

    function ContentAddress(p: nat): nat {
      base + 4 * (p + 2)
    }

    /** A value the collector may meet: an integer, a foreign address, or the content
        address of an object; never an interior pointer. */
    ghost predicate GoodWord(v: Word) {
      || Unboxed(v)
      || (v in foreign && !IsPointer(v))
      || (IsPointer(v) && Target(v) in objs && v == ContentAddress(Target(v)))
    }

    // Objects

    /** First slot that the field iterator looks at: the tag word of an
        s-expression and the entry address of a closure are skipped, strings have none. */
    function FieldLo(p: nat): nat
      requires p < |h|
    {
      FirstField(p, h[p])
    }

    function FieldHi(p: nat): nat
      requires p < |h|
    {
      p + SizeWords(h[p])
    }

    predicate IsField(p: nat, t: nat) {
      p < |h| && FieldLo(p) <= t < FieldHi(p) && t < |h|
    }

    /** No mark or enqueued bit is set and every field holds a good word. */
    ghost predicate Settled() {
      && Laid()
      && (forall p :: p in objs ==> Clean(p))
      && (forall p, t: nat :: p in objs && IsField(p, t) ==> GoodWord(h[t]))
    }

    predicate Clean(p: nat) {
      p + 1 < |h| && !Marked(h[p + 1]) && !Enqueued(h[p + 1])
    }

    /** Object `p` holds a pointer to object `q`. */
    ghost predicate Edge(p: nat, q: nat) {
      p in objs && exists t: nat :: IsField(p, t) && IsPointer(h[t]) && Target(h[t]) == q
    }
  }

  // Arithmetic of the layout

  ghost function IndexOf(objs: seq<nat>, p: nat): (k: nat)
    requires p in objs
    ensures k < |objs| && objs[k] == p
  {
    var k :| 0 <= k < |objs| && objs[k] == p;
    k
  }

  lemma Ordered(s: Snapshot, i: nat, j: nat)
    requires s.Laid() && i < j <= |s.objs|
    ensures s.objs[i] + 2 <= |s.h|
    ensures s.objs[i] + SizeWords(s.h[s.objs[i]]) <= At(s.objs, |s.h|, j) <= |s.h|
  {
    assert TileAt(s.h, s.objs, i);
    TilesMonotone(s.h, s.objs, 0, i + 1, j);
  }

  /** An object occupies its own words: the words of two objects never overlap. */
  lemma Apart(s: Snapshot, p: nat, q: nat)
    requires s.Laid() && p in s.objs && q in s.objs
    ensures p + 2 <= |s.h| && q + 2 <= |s.h|
    ensures p + SizeWords(s.h[p]) <= |s.h|
    ensures p == q || p + SizeWords(s.h[p]) <= q || q + SizeWords(s.h[q]) <= p
  {
    var i, j := IndexOf(s.objs, p), IndexOf(s.objs, q);
    Ordered(s, i, i + 1);
    Ordered(s, j, j + 1);
    if i < j {
      Ordered(s, i, j);
    } else if j < i {
      Ordered(s, j, i);
    }
  }

  lemma Extent(s: Snapshot, p: nat)
    requires s.Laid() && p in s.objs
    ensures p + 2 <= |s.h| && p + SizeWords(s.h[p]) <= |s.h| && ValidTag(s.h[p])
    ensures forall t: nat :: s.IsField(p, t) ==> p + 2 <= t
  {
    Apart(s, p, p);
    assert TileAt(s.h, s.objs, IndexOf(s.objs, p));
  }

  /** Which words are fields, by kind and length: all elements of an array, the members of an
      s-expression after its tag, what a closure has captured after its entry, nothing of a
      string. */
  lemma FieldsAt(s: Snapshot, p: nat, t: nat)
    requires s.Laid() && p in s.objs
    ensures p < |s.h| && Tag(s.h[p]) in {STRING_TAG, ARRAY_TAG, SEXP_TAG, CLOSURE_TAG}
    ensures Tag(s.h[p]) == STRING_TAG ==> !s.IsField(p, t)
    ensures Tag(s.h[p]) == ARRAY_TAG ==> (s.IsField(p, t) <==> p + 2 <= t < p + 2 + Len(s.h[p]))
    ensures Tag(s.h[p]) == SEXP_TAG ==> (s.IsField(p, t) <==> p + 3 <= t < p + 3 + Len(s.h[p]))
    ensures Tag(s.h[p]) == CLOSURE_TAG ==> (s.IsField(p, t) <==> p + 3 <= t < p + 2 + Len(s.h[p]))
  {
    Extent(s, p);
  }

  /** How many words an object has, by kind and length. A string has as many as hold its bytes
      and the terminating one. */
  lemma WordsOf(s: Snapshot, p: nat)
    requires s.Laid() && p in s.objs
    ensures p < |s.h|
    ensures var words, len := SizeWords(s.h[p]), Len(s.h[p]);
      && p + words <= |s.h|
      && (Tag(s.h[p]) == STRING_TAG ==> 4 * (words - 3) < len + 1 <= 4 * (words - 2))
      && (Tag(s.h[p]) == SEXP_TAG ==> words == 3 + len)
      && (Tag(s.h[p]) in {ARRAY_TAG, CLOSURE_TAG} ==> words == 2 + len)
  {
    Extent(s, p);
  }

  /** No word of an object other than its second one is a forwarding word. */
  lemma NotForwardingWord(s: Snapshot, p: nat, t: nat)
    requires s.Laid() && p in s.objs
    requires p < |s.h| && p <= t < p + SizeWords(s.h[p]) && t != p + 1
    ensures (t - 1) !in s.objs
  {
    if t - 1 in s.objs {
      Apart(s, p, t - 1);
    }
  }

  lemma Distinct(s: Snapshot, i: nat, j: nat)
    requires s.Laid() && i < |s.objs| && j < |s.objs| && s.objs[i] == s.objs[j]
    ensures i == j
  {
    if i < j {
      Ordered(s, i, j);
    } else if j < i {
      Ordered(s, j, i);
    }
  }

  lemma AddressesDiffer(s: Snapshot, p: nat)
    requires s.Laid() && p in s.objs
    ensures s.ContentAddress(p) % 4 == 0 && s.ContentAddress(p) < WORD_LIMIT
    ensures s.IsPointer(s.ContentAddress(p)) && s.Target(s.ContentAddress(p)) == p
  {
    Apart(s, p, p);
  }
}

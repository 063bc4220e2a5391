/** What the program can see of a value: the tree it unfolds to, to any depth. A collection
    moves objects and changes addresses but no unfolding. */
module Observation {
  import opened Words
  import opened Layout
  import opened Reachability
  import opened Compaction
  import opened Isomorphism
  import opened Roots
  import opened HeapInvariant

  datatype Tree =
    | Cut
    | Number(w: Word)
    | Foreign(w: Word)
    | Str(bytes: seq<nat>)
    | Arr(items: seq<Tree>)
    | Sexp(tag: Word, items: seq<Tree>)
    | Closure(entry: Word, items: seq<Tree>)

  /** Byte `i` of the string object at `p`. */
  ghost function StringByte(s: Snapshot, p: nat, i: nat): nat
    requires p + 2 + i / 4 < |s.h|
  {
    ByteOf(s.h[p + 2 + i / 4], i % 4)
  }

  /** The bytes of a string with the terminating one. */
  ghost function Bytes(s: Snapshot, p: nat): (bytes: seq<nat>)
    requires p < |s.h| && p + SizeWords(s.h[p]) <= |s.h| && ValidTag(s.h[p]) && Tag(s.h[p]) == STRING_TAG
    ensures |bytes| == Len(s.h[p]) + 1
  {
    SizeParts(s.h[p]);
    seq(Len(s.h[p]) + 1, i requires 0 <= i < Len(s.h[p]) + 1 => StringByte(s, p, i))
  }

  ghost function Unfold(s: Snapshot, v: Word, depth: nat): Tree
    requires s.Settled() && s.GoodWord(v)
    decreases depth, 0
  {
    if Unboxed(v) then Number(v)
    else if !s.IsPointer(v) then Foreign(v)
    else if depth == 0 then Cut
    else
      var p: nat := s.Target(v);
      Extent(s, p);
      SizeParts(s.h[p]);
      if Tag(s.h[p]) == STRING_TAG then
        Str(Bytes(s, p))
      else if Tag(s.h[p]) == ARRAY_TAG then
        Arr(Items(s, p, depth - 1))
      else if Tag(s.h[p]) == SEXP_TAG then
        Sexp(s.h[p + 2], Items(s, p, depth - 1))
      else
        Closure(if Len(s.h[p]) > 0 then s.h[p + 2] else 0, Items(s, p, depth - 1))
  }

  /** The fields of an object, each unfolded. */
  ghost function Items(s: Snapshot, p: nat, depth: nat): seq<Tree>
    requires s.Settled() && p in s.objs
    decreases depth, 1
  {
    Extent(s, p);
    var lo, hi := s.FieldLo(p), s.FieldHi(p);
    seq(if lo < hi then hi - lo else 0, i requires 0 <= i < hi - lo =>
      assert s.IsField(p, lo + i);
      Unfold(s, s.h[lo + i], depth))
  }

  lemma SizeParts(header: Word)
    requires ValidTag(header)
    ensures Tag(header) == STRING_TAG ==> 2 + Len(header) / 4 < SizeWords(header)
    ensures Tag(header) == SEXP_TAG ==> SizeWords(header) == 3 + Len(header)
    ensures Tag(header) == ARRAY_TAG || Tag(header) == CLOSURE_TAG ==> SizeWords(header) == 2 + Len(header)
  {
  }

  // What an object shows, by its kind, its length and its words

  /** The object that a word points to. */
  ghost predicate PointsTo(s: Snapshot, v: Word, p: nat) {
    s.Settled() && s.GoodWord(v) && s.IsPointer(v) && p == s.Target(v)
  }

  lemma Pointed(s: Snapshot, v: Word, p: nat)
    requires PointsTo(s, v, p)
    ensures s.Laid() && p in s.objs && p < |s.h| && p + SizeWords(s.h[p]) <= |s.h| && ValidTag(s.h[p])
  {
    Extent(s, p);
  }

  /** The fields that a node of the tree stands for, from the word `lo` on. */
  ghost predicate ItemsFrom(s: Snapshot, items: seq<Tree>, lo: nat, count: nat, depth: nat) {
    && s.Settled() && |items| == count && lo + count <= |s.h|
    && forall i: nat :: i < count ==> s.GoodWord(s.h[lo + i]) && items[i] == Unfold(s, s.h[lo + i], depth)
  }

  lemma ItemsAt(s: Snapshot, p: nat, depth: nat, lo: nat, count: nat)
    requires s.Settled() && p in s.objs && lo + count <= |s.h|
    requires forall t: nat :: s.IsField(p, t) <==> lo <= t < lo + count
    requires p < |s.h| && (count > 0 ==> s.FieldLo(p) == lo) && s.FieldHi(p) <= |s.h|
    ensures ItemsFrom(s, Items(s, p, depth), lo, count, depth)
  {
    hide Unfold, Snapshot.GoodWord, Snapshot.Laid, Snapshot.Clean, SizeBytes, BytesToWords;
    var hi := s.FieldHi(p);
    assert s.FieldLo(p) < hi ==> s.IsField(p, s.FieldLo(p));
    if count > 0 {
      assert s.IsField(p, lo + count - 1) && !s.IsField(p, lo + count);
      assert hi == lo + count;
    }
    forall i: nat | i < count
      ensures s.GoodWord(s.h[lo + i]) && Items(s, p, depth)[i] == Unfold(s, s.h[lo + i], depth)
    {
      assert s.IsField(p, lo + i);
    }
  }

  /** An array shows its elements: as many as its length says, in their order. */
  lemma ArrayShown(s: Snapshot, v: Word, p: nat, depth: nat)
    requires PointsTo(s, v, p) && p < |s.h| && Tag(s.h[p]) == ARRAY_TAG
    ensures Unfold(s, v, depth + 1).Arr?
    ensures ItemsFrom(s, Unfold(s, v, depth + 1).items, p + 2, Len(s.h[p]), depth)
  {
    hide Items, ItemsFrom;
    forall t: nat ensures s.IsField(p, t) <==> p + 2 <= t < p + 2 + Len(s.h[p]) {
      FieldsAt(s, p, t);
    }
    WordsOf(s, p);
    ItemsAt(s, p, depth, p + 2, Len(s.h[p]));
  }

  /** An s-expression shows its tag and its members. */
  lemma SexpShown(s: Snapshot, v: Word, p: nat, depth: nat)
    requires PointsTo(s, v, p) && p < |s.h| && Tag(s.h[p]) == SEXP_TAG
    ensures Unfold(s, v, depth + 1).Sexp? && p + 2 < |s.h| && Unfold(s, v, depth + 1).tag == s.h[p + 2]
    ensures ItemsFrom(s, Unfold(s, v, depth + 1).items, p + 3, Len(s.h[p]), depth)
  {
    hide Items, ItemsFrom;
    forall t: nat ensures s.IsField(p, t) <==> p + 3 <= t < p + 3 + Len(s.h[p]) {
      FieldsAt(s, p, t);
    }
    WordsOf(s, p);
    ItemsAt(s, p, depth, p + 3, Len(s.h[p]));
  }

  /** A closure shows its entry, which its length counts, and what it has captured. */
  lemma ClosureShown(s: Snapshot, v: Word, p: nat, depth: nat)
    requires PointsTo(s, v, p) && p < |s.h| && Tag(s.h[p]) == CLOSURE_TAG && Len(s.h[p]) > 0
    ensures Unfold(s, v, depth + 1).Closure? && p + 2 < |s.h| && Unfold(s, v, depth + 1).entry == s.h[p + 2]
    ensures ItemsFrom(s, Unfold(s, v, depth + 1).items, p + 3, Len(s.h[p]) - 1, depth)
  {
    hide Items, ItemsFrom;
    forall t: nat ensures s.IsField(p, t) <==> p + 3 <= t < p + 2 + Len(s.h[p]) {
      FieldsAt(s, p, t);
    }
    WordsOf(s, p);
    ItemsAt(s, p, depth, p + 3, Len(s.h[p]) - 1);
  }

  /** A string shows its bytes, four to a word, and the terminating one. */
  lemma StringShown(s: Snapshot, v: Word, p: nat, depth: nat)
    requires PointsTo(s, v, p) && p < |s.h| && Tag(s.h[p]) == STRING_TAG
    ensures Unfold(s, v, depth + 1).Str? && |Unfold(s, v, depth + 1).bytes| == Len(s.h[p]) + 1
    ensures forall i: nat :: i <= Len(s.h[p]) ==>
      p + 2 + i / 4 < |s.h| && Unfold(s, v, depth + 1).bytes[i] == ByteOf(s.h[p + 2 + i / 4], i % 4)
  {
    hide ByteOf;
    WordsOf(s, p);
  }

  /** Element `i` of the object at `p` lies in the word `u`. */
  predicate ElementAt(s: Snapshot, p: nat, i: nat, u: nat) {
    p < |s.h| && (
      var tag, len := Tag(s.h[p]), Len(s.h[p]);
      || (tag == ARRAY_TAG && i < len && u == p + 2 + i)
      || (tag == SEXP_TAG && i < len && u == p + 3 + i)
      || (tag == CLOSURE_TAG && i + 1 < len && u == p + 3 + i))
  }

  /** Objects with elements, and the elements that are shown. */
  lemma ElementShown(s: Snapshot, v: Word, p: nat, i: nat, u: nat, depth: nat)
    requires PointsTo(s, v, p) && ElementAt(s, p, i, u)
    ensures s.IsField(p, u) && u < p + SizeWords(s.h[p]) && s.GoodWord(s.h[u])
    ensures var tree := Unfold(s, v, depth + 1);
      && (tree.Arr? || tree.Sexp? || tree.Closure?) && i < |tree.items| && tree.items[i] == Unfold(s, s.h[u], depth)
  {
    Pointed(s, v, p);
    hide Unfold, Snapshot.GoodWord;
    FieldsAt(s, p, u);
    if Tag(s.h[p]) == ARRAY_TAG {
      ArrayShown(s, v, p, depth);
    } else if Tag(s.h[p]) == SEXP_TAG {
      SexpShown(s, v, p, depth);
    } else {
      ClosureShown(s, v, p, depth);
    }
  }

  /** After an element has been written, it shows the tree of what was written, and every other
      element that of what it held. */
  lemma ElementWritten(s: Snapshot, v: Word, p: nat, i: nat, u: nat, w: Word, depth: nat)
    requires PointsTo(s, v, p) && ElementAt(s, p, i, u) && s.GoodWord(w)
    ensures u < |s.h|
    ensures var t := s.(h := s.h[u := w]);
      && PointsTo(t, v, p) && t.GoodWord(w) && i < |Unfold(t, v, depth + 1).items|
      && Unfold(t, v, depth + 1).items[i] == Unfold(t, w, depth)
      && forall j: nat, x: nat :: j != i && ElementAt(s, p, j, x) ==>
           && x < |s.h| && t.GoodWord(s.h[x]) && j < |Unfold(t, v, depth + 1).items|
           && Unfold(t, v, depth + 1).items[j] == Unfold(t, s.h[x], depth)
  {
    hide Unfold, SizeBytes, BytesToWords;
    ElementShown(s, v, p, i, u, depth);
    Extent(s, p);
    PayloadWord(s, p, u, w);
    var t := s.(h := s.h[u := w]);
    SameGood(s, t);
    hide Snapshot.Settled, Snapshot.GoodWord, Snapshot.IsPointer;
    ElementShown(t, v, p, i, u, depth);
    forall j: nat, x: nat | j != i && ElementAt(s, p, j, x)
      ensures x < |s.h| && t.GoodWord(s.h[x]) && j < |Unfold(t, v, depth + 1).items|
      ensures Unfold(t, v, depth + 1).items[j] == Unfold(t, s.h[x], depth)
    {
      ElementShown(t, v, p, j, x, depth);
    }
  }

  /** What counts as a good word depends on where objects are, not on what they hold. */
  lemma SameGood(s: Snapshot, t: Snapshot)
    requires t == s.(h := t.h) && |t.h| == |s.h|
    ensures forall v: Word :: t.GoodWord(v) <==> s.GoodWord(v)
    ensures forall v: Word :: (t.IsPointer(v) <==> s.IsPointer(v)) && t.Target(v) == s.Target(v)
  {
  }

  /** Objects that hold the same words, with fields that unfold alike. */
  lemma SameShown(s: Snapshot, t: Snapshot, v: Word, q: nat, depth: nat)
    requires PointsTo(s, v, q) && PointsTo(t, v, q) && q < |s.h| && |t.h| == |s.h| && q + SizeWords(s.h[q]) <= |s.h|
    requires forall x :: q <= x < q + SizeWords(s.h[q]) && x != q + 1 && !s.IsField(q, x) ==> t.h[x] == s.h[x]
    requires forall x: nat :: s.IsField(q, x) ==>
      s.GoodWord(s.h[x]) && t.GoodWord(t.h[x]) && Unfold(t, t.h[x], depth) == Unfold(s, s.h[x], depth)
    ensures Unfold(t, v, depth + 1) == Unfold(s, v, depth + 1)
  {
    Pointed(s, v, q);
    Pointed(t, v, q);
    WordsOf(s, q);
    SameFields(s, t, q, depth);
    hide Snapshot.Settled, Snapshot.GoodWord, Items, ByteOf, SizeWords;
    if Tag(s.h[q]) == STRING_TAG {
      forall x ensures !s.IsField(q, x) { FieldsAt(s, q, x); }
      assert Bytes(t, q) == Bytes(s, q);
    } else if Tag(s.h[q]) == SEXP_TAG || (Tag(s.h[q]) == CLOSURE_TAG && Len(s.h[q]) > 0) {
      FieldsAt(s, q, q + 2);
      assert t.h[q + 2] == s.h[q + 2];
    }
  }

  lemma SameFields(s: Snapshot, t: Snapshot, q: nat, depth: nat)
    requires s.Settled() && t.Settled() && q in s.objs && q in t.objs && q < |s.h| && |t.h| == |s.h| && t.h[q] == s.h[q]
    requires forall x: nat :: s.IsField(q, x) ==>
      s.GoodWord(s.h[x]) && t.GoodWord(t.h[x]) && Unfold(t, t.h[x], depth) == Unfold(s, s.h[x], depth)
    ensures Items(t, q, depth) == Items(s, q, depth)
  {
    hide Unfold, Snapshot.GoodWord, Snapshot.Laid, Snapshot.Clean, SizeBytes, BytesToWords;
    Extent(s, q);
    var a, b := Items(s, q, depth), Items(t, q, depth);
    forall i | 0 <= i < |a| ensures a[i] == b[i] {
      assert s.IsField(q, s.FieldLo(q) + i);
    }
  }

  /** The two heaps differ in what the object at `p` holds, and in nothing else. */
  ghost predicate WrittenIn(s: Snapshot, t: Snapshot, p: nat) {
    && s.Settled() && t.Settled() && p in s.objs && p < |s.h|
    && t == s.(h := t.h) && |t.h| == |s.h|
    && forall x :: 0 <= x < |s.h| && !(p + 2 <= x < p + SizeWords(s.h[p])) ==> t.h[x] == s.h[x]
  }

  lemma PayloadWritten(s: Snapshot, p: nat, u: nat, w: Word)
    requires s.Settled() && p in s.objs && p < |s.h| && p + 2 <= u < p + SizeWords(s.h[p])
    requires s.IsField(p, u) ==> s.GoodWord(w)
    ensures u < |s.h| && WrittenIn(s, s.(h := s.h[u := w]), p)
  {
    hide Snapshot.Settled, Snapshot.GoodWord, SizeWords, Snapshot.IsField;
    PayloadWord(s, p, u, w);
  }

  /** Another object holds the same words in both. */
  lemma WordsElsewhere(s: Snapshot, t: Snapshot, p: nat, q: nat)
    requires WrittenIn(s, t, p) && q in s.objs && q != p
    ensures q < |s.h| && q + SizeWords(s.h[q]) <= |s.h| && s.Laid()
    ensures forall x :: q <= x < q + SizeWords(s.h[q]) ==> t.h[x] == s.h[x]
    ensures forall x: nat :: s.IsField(q, x) ==> t.h[x] == s.h[x]
  {
    hide Snapshot.GoodWord, Snapshot.Clean, SizeWords;
    Apart(s, p, q);
    Extent(s, q);
    hide Snapshot.Settled, Snapshot.Laid;
  }

  lemma WrittenGood(s: Snapshot, t: Snapshot, p: nat)
    requires WrittenIn(s, t, p)
    ensures forall v: Word :: t.GoodWord(v) <==> s.GoodWord(v)
    ensures forall v: Word :: (t.IsPointer(v) <==> s.IsPointer(v)) && t.Target(v) == s.Target(v)
  {
    hide Snapshot.Settled, SizeWords;
    SameGood(s, t);
  }

  /** A write into an object shows in no value that does not lead to it. */
  lemma {:induction false} WrittenElsewhere(s: Snapshot, t: Snapshot, p: nat, v: Word, depth: nat)
    requires WrittenIn(s, t, p) && s.GoodWord(v) && (s.IsPointer(v) ==> !Reach(s, s.Target(v), p))
    ensures s.Settled() && t.Settled() && t.GoodWord(v) && Unfold(t, v, depth) == Unfold(s, v, depth)
    decreases depth
  {
    hide Snapshot.GoodWord, Snapshot.IsPointer, Snapshot.Settled, SizeWords, Reach, Snapshot.IsField, WrittenIn, Items;
    WrittenGood(s, t, p);
    BothSettled(s, t, p);
    if s.IsPointer(v) && depth > 0 {
      hide Unfold;
      var q: nat := TargetObject(s, v);
      var _ := TargetObject(t, v);
      ReachSelf(s, q);
      WordsElsewhere(s, t, p, q);
      forall x: nat | s.IsField(q, x)
        ensures x < |s.h| && x < |t.h| && s.GoodWord(s.h[x]) && t.GoodWord(t.h[x])
        ensures Unfold(t, t.h[x], depth - 1) == Unfold(s, s.h[x], depth - 1)
      {
        FieldUnled(s, p, q, x);
        WrittenElsewhere(s, t, p, s.h[x], depth - 1);
      }
      SameShown(s, t, v, q, depth - 1);
    }
  }

  lemma BothSettled(s: Snapshot, t: Snapshot, p: nat)
    requires WrittenIn(s, t, p)
    ensures s.Settled() && t.Settled() && |t.h| == |s.h|
  {
  }

  lemma TargetObject(s: Snapshot, v: Word) returns (q: nat)
    requires s.Settled() && s.GoodWord(v) && s.IsPointer(v)
    ensures s.Laid() && q == s.Target(v) && q in s.objs && PointsTo(s, v, q)
  {
    q := s.Target(v);
  }

  lemma FieldUnled(s: Snapshot, p: nat, q: nat, x: nat)
    requires s.Settled() && q in s.objs && s.IsField(q, x) && !Reach(s, q, p)
    ensures x < |s.h| && s.GoodWord(s.h[x]) &&
      (s.IsPointer(s.h[x]) ==> s.Target(s.h[x]) >= 0 && !Reach(s, s.Target(s.h[x]), p))
  {
    hide Reach;
    if s.IsPointer(s.h[x]) && Reach(s, s.Target(s.h[x]), p) {
      assert s.Edge(q, s.Target(s.h[x]));
      ReachFirst(s, q, s.Target(s.h[x]), p);
    }
  }

  // A new object

  ghost function Nulls(n: nat): (items: seq<Tree>)
    ensures |items| == n && forall i :: 0 <= i < n ==> items[i] == Foreign(0)
  {
    seq(n, _ => Foreign(0))
  }

  /** A new object is pointed to, has its header and holds zeros. */
  lemma NewPointed(t: Snapshot, u: Snapshot, header: Word)
    requires Appended(t, u, header) && u.Settled()
    ensures u.ContentAddress(|t.h|) < WORD_LIMIT && PointsTo(u, u.ContentAddress(|t.h|), |t.h|)
    ensures |t.h| < |u.h| && u.h[|t.h|] == header && forall i :: |t.h| < i < |u.h| ==> u.h[i] == 0
  {
    hide SizeWords;
    assert u.objs[|t.objs|] == |t.h|;
    AddressesDiffer(u, |t.h|);
  }

  /** A new object shows the kind and the length of its header, and nothing but zeros. */
  ghost predicate Blank(tree: Tree, tag: nat, len: nat) {
    && (tag == STRING_TAG ==> tree == Str(seq(len + 1, _ => 0)))
    && (tag == ARRAY_TAG ==> tree == Arr(Nulls(len)))
    && (tag == SEXP_TAG ==> tree == Sexp(0, Nulls(len)))
    && (tag == CLOSURE_TAG && len > 0 ==> tree == Closure(0, Nulls(len - 1)))
  }

  lemma NewShown(t: Snapshot, u: Snapshot, tag: nat, len: nat, depth: nat)
    requires tag in {STRING_TAG, ARRAY_TAG, SEXP_TAG, CLOSURE_TAG} && len < 0x1000_0000
    requires Appended(t, u, MakeHeader(tag, len)) && u.Settled() && !u.IsPointer(0)
    ensures u.ContentAddress(|t.h|) < WORD_LIMIT && u.GoodWord(u.ContentAddress(|t.h|))
    ensures Blank(Unfold(u, u.ContentAddress(|t.h|), depth + 1), tag, len)
  {
    hide MakeHeader, Snapshot.Settled, Snapshot.GoodWord, Snapshot.IsPointer, Unfold, SizeWords, Appended, Nulls,
      ItemsFrom, Snapshot.ContentAddress;
    var p := |t.h|;
    NewPointed(t, u, MakeHeader(tag, len));
    var v := u.ContentAddress(p);
    var tree := Unfold(u, v, depth + 1);
    if tag == STRING_TAG {
      StringShown(u, v, p, depth);
      forall i: nat | i <= len ensures tree.bytes[i] == 0 {
        assert tree.bytes[i] == ByteOf(0, i % 4);
      }
    } else if tag == ARRAY_TAG {
      ArrayShown(u, v, p, depth);
      NullItems(u, tree.items, p + 2, len, depth);
    } else if tag == SEXP_TAG {
      SexpShown(u, v, p, depth);
      NullItems(u, tree.items, p + 3, len, depth);
    } else if len > 0 {
      ClosureShown(u, v, p, depth);
      NullItems(u, tree.items, p + 3, len - 1, depth);
    }
  }

  ghost predicate ShowsBlank(s: Snapshot, v: Word, tag: nat, len: nat)
    requires s.Settled()
  {
    s.GoodWord(v) && forall depth :: depth > 0 ==> Blank(Unfold(s, v, depth), tag, len)
  }

  lemma NewKind(t: Snapshot, u: Snapshot, size: nat, tag: nat, len: nat)
    requires tag in {STRING_TAG, ARRAY_TAG, SEXP_TAG, CLOSURE_TAG} && len < 0x1000_0000
    requires Appended(t, u, MakeHeader(tag, len)) && u.Settled() && HonestBase(u.base, size, u.foreign)
    ensures u.ContentAddress(|t.h|) < WORD_LIMIT && ShowsBlank(u, u.ContentAddress(|t.h|), tag, len)
  {
    hide Appended, Blank, Snapshot.Settled, Unfold, MakeHeader;
    NewPointed(t, u, MakeHeader(tag, len));
    forall depth: nat | depth > 0 ensures Blank(Unfold(u, u.ContentAddress(|t.h|), depth), tag, len) {
      NewShown(t, u, tag, len, depth - 1);
    }
  }

  lemma NullItems(s: Snapshot, items: seq<Tree>, lo: nat, count: nat, depth: nat)
    requires ItemsFrom(s, items, lo, count, depth) && !s.IsPointer(0)
    requires forall i :: lo <= i < |s.h| ==> s.h[i] == 0
    ensures items == Nulls(count)
  {
    hide Snapshot.Settled, Snapshot.GoodWord, Snapshot.IsPointer;
    forall i: nat | i < count ensures items[i] == Foreign(0) {
      var tree := items[i];
      assert s.GoodWord(s.h[lo + i]) && tree == Unfold(s, 0, depth);
    }
  }

  lemma ForwardWord(s: Snapshot, t: Snapshot, F: map<nat, nat>, v: Word)
    requires Related(s, t, F) && s.GoodWord(v) && (s.IsPointer(v) ==> s.Target(v) in F)
    ensures s.Settled() && t.Settled()
    ensures 0 <= Forward(s, F, t.base, v) < WORD_LIMIT && t.GoodWord(Forward(s, F, t.base, v))
    ensures if s.IsPointer(v) then
        && !Unboxed(v) && !Unboxed(Forward(s, F, t.base, v))
        && s.Target(v) in F && s.Target(v) in s.objs && F[s.Target(v)] in t.objs
        && t.IsPointer(Forward(s, F, t.base, v)) && t.Target(Forward(s, F, t.base, v)) == F[s.Target(v)]
      else
        Forward(s, F, t.base, v) == v && !t.IsPointer(v)
  {
    hide CopiedObject;
    ForwardGood(s, t, F, v);
    if s.IsPointer(v) {
      AddressesDiffer(t, F[s.Target(v)]);
    }
  }

  /** A kept object and its copy: same kind, same length, same words outside the fields. */
  lemma SamePayload(s: Snapshot, t: Snapshot, F: map<nat, nat>, p: nat)
    requires Related(s, t, F) && p in F
    ensures s.Settled() && t.Settled() && p in s.objs && F[p] in t.objs
    ensures p + 2 <= |s.h| && F[p] + 2 <= |t.h| && t.h[F[p]] == s.h[p] && ValidTag(s.h[p])
    ensures p + SizeWords(s.h[p]) <= |s.h| && F[p] + SizeWords(s.h[p]) <= |t.h|
    ensures (Tag(s.h[p]) == SEXP_TAG || (Tag(s.h[p]) == CLOSURE_TAG && Len(s.h[p]) > 0)) ==>
      SizeWords(s.h[p]) >= 3 && t.h[F[p] + 2] == s.h[p + 2]
  {
    hide CopiedSlot;
    Extent(s, p);
    Extent(t, F[p]);
    SizeParts(s.h[p]);
    assert CopiedObject(s, t, F, p);
    if Tag(s.h[p]) == SEXP_TAG || (Tag(s.h[p]) == CLOSURE_TAG && Len(s.h[p]) > 0) {
      assert CopiedSlot(s, t, F, p, p + 2);
      SameWord(s, t, F, p);
    }
  }

  lemma SameWord(s: Snapshot, t: Snapshot, F: map<nat, nat>, p: nat)
    requires p in F && p + 2 < |s.h| && F[p] + 2 < |t.h| && CopiedSlot(s, t, F, p, p + 2)
    requires Tag(s.h[p]) == SEXP_TAG || (Tag(s.h[p]) == CLOSURE_TAG && Len(s.h[p]) > 0)
    ensures t.h[F[p] + 2] == s.h[p + 2]
  {
  }

  lemma SameByte(s: Snapshot, t: Snapshot, F: map<nat, nat>, p: nat, i: nat)
    requires Related(s, t, F) && p in F && p < |s.h| && Tag(s.h[p]) == STRING_TAG && i <= Len(s.h[p])
    ensures p + 2 + i / 4 < |s.h| && F[p] + 2 + i / 4 < |t.h|
    ensures StringByte(t, F[p], i) == StringByte(s, p, i)
  {
    hide ByteOf, CopiedSlot;
    SamePayload(s, t, F, p);
    SizeParts(s.h[p]);
    var u := p + 2 + i / 4;
    assert CopiedObject(s, t, F, p);
    assert CopiedSlot(s, t, F, p, u);
    SlotByte(s, t, F, p, i);
  }

  lemma SlotByte(s: Snapshot, t: Snapshot, F: map<nat, nat>, p: nat, i: nat)
    requires p in F && p < |s.h| && p + 2 + i / 4 < |s.h| && F[p] + 2 + i / 4 < |t.h|
    requires Tag(s.h[p]) == STRING_TAG && i <= Len(s.h[p])
    requires CopiedSlot(s, t, F, p, p + 2 + i / 4)
    ensures StringByte(t, F[p], i) == StringByte(s, p, i)
  {
    hide ByteOf;
    var w, c := 2 + i / 4, i % 4;
    assert !s.IsField(p, p + w);
    assert 4 * w + c < SizeBytes(s.h[p]);
  }

  lemma SameBytes(s: Snapshot, t: Snapshot, F: map<nat, nat>, p: nat)
    requires Related(s, t, F) && p in F && p < |s.h| && ValidTag(s.h[p]) && Tag(s.h[p]) == STRING_TAG
    ensures F[p] < |t.h| && t.h[F[p]] == s.h[p]
    ensures p + SizeWords(s.h[p]) <= |s.h| && F[p] + SizeWords(s.h[p]) <= |t.h|
    ensures Bytes(t, F[p]) == Bytes(s, p)
  {
    hide Related, SizeBytes, BytesToWords, StringByte;
    SamePayload(s, t, F, p);
    SizeParts(s.h[p]);
    var a, b := Bytes(s, p), Bytes(t, F[p]);
    forall i | 0 <= i < |a| ensures a[i] == b[i] {
      SameByte(s, t, F, p, i);
    }
  }

  /** Two heaps related by a collection show the same tree behind corresponding words. */
  lemma {:induction false} SameTree(s: Snapshot, t: Snapshot, F: map<nat, nat>, v: Word, depth: nat)
    requires Related(s, t, F) && s.GoodWord(v) && (s.IsPointer(v) ==> s.Target(v) in F)
    ensures s.Settled() && t.Settled()
    ensures 0 <= Forward(s, F, t.base, v) < WORD_LIMIT && t.GoodWord(Forward(s, F, t.base, v))
    ensures Unfold(t, Forward(s, F, t.base, v), depth) == Unfold(s, v, depth)
    decreases depth, 0
  {
    hide Related, Snapshot.GoodWord, Bytes, Items, Forward, Snapshot.IsPointer, SizeBytes, BytesToWords;
    ForwardWord(s, t, F, v);
    if s.IsPointer(v) && depth > 0 {
      var p: nat := s.Target(v);
      SamePayload(s, t, F, p);
      SameItems(s, t, F, p, depth - 1);
      if Tag(s.h[p]) == STRING_TAG {
        SameBytes(s, t, F, p);
      }
    }
  }

  lemma {:induction false} SameItems(s: Snapshot, t: Snapshot, F: map<nat, nat>, p: nat, depth: nat)
    requires Related(s, t, F) && p in F
    ensures s.Settled() && t.Settled() && p in s.objs && F[p] in t.objs
    ensures Items(t, F[p], depth) == Items(s, p, depth)
    decreases depth, 1
  {
    hide Related, Snapshot.GoodWord, Forward, SizeBytes, BytesToWords, Unfold, Snapshot.IsPointer;
    SamePayload(s, t, F, p);
    var d, lo := F[p], s.FieldLo(p);
    Extent(s, p);
    Extent(t, d);
    var a, b := Items(s, p, depth), Items(t, d, depth);
    forall i | 0 <= i < |a| ensures a[i] == b[i] {
      FieldForwarded(s, t, F, p, lo + i);
      SameTree(s, t, F, s.h[lo + i], depth);
    }
    assert a == b;
  }

  lemma FieldForwarded(s: Snapshot, t: Snapshot, F: map<nat, nat>, p: nat, u: nat)
    requires Related(s, t, F) && p in F && s.IsField(p, u) && p + 2 <= u
    ensures s.GoodWord(s.h[u]) && (s.IsPointer(s.h[u]) ==> s.Target(s.h[u]) >= 0 && s.Target(s.h[u]) in F)
    ensures F[p] + (u - p) < |t.h| && t.h[F[p] + (u - p)] == Forward(s, F, t.base, s.h[u])
  {
    hide Forward, SizeBytes, BytesToWords;
    assert CopiedObject(s, t, F, p);
    assert CopiedSlot(s, t, F, p, u);
  }

  ghost predicate SameCell(s: Snapshot, t: Snapshot, before: map<nat, Word>, after: map<nat, Word>, a: nat, depth: nat)
  {
    && s.Settled() && t.Settled()
    && a in before && a in after && s.GoodWord(before[a]) && t.GoodWord(after[a])
    && Unfold(t, after[a], depth) == Unfold(s, before[a], depth)
  }

  /** The promise to the program: behind every root cell there are the same integers,
      strings, arrays, s-expressions and closures as before. */
  ghost predicate SameView(s: Snapshot, t: Snapshot, roots: Area, before: map<nat, Word>, after: map<nat, Word>) {
    forall a, depth :: a in roots.Marked() ==> SameCell(s, t, before, after, a, depth)
  }

  lemma ViewKept(s: Snapshot, t: Snapshot, F: map<nat, nat>, roots: Area, before: map<nat, Word>, after: map<nat, Word>)
    requires Related(s, t, F) && RootsForwarded(s, t.base, F, roots, before, after)
    requires GoodRoots(s, roots, before)
    ensures SameView(s, t, roots, before, after)
  {
    hide Unfold, Embeds, Forward, Snapshot.GoodWord, Snapshot.Laid, Snapshot.Clean, Area.Marked, Area.Fixed;
    forall a, depth: nat | a in roots.Marked() ensures SameCell(s, t, before, after, a, depth) {
      SameTree(s, t, F, before[a], depth);
    }
  }

  /** A new object at the end of the heap is no part of what was there. */
  lemma AppendedEmbeds(s: Snapshot, t: Snapshot, u: Snapshot, F: map<nat, nat>, header: Word, size: nat)
    requires Related(s, t, F) && Appended(t, u, header) && u.Settled()
    requires HonestBase(u.base, size, u.foreign) && |u.h| <= size
    ensures Related(s, u, F)
  {
    hide Snapshot.Settled, Snapshot.GoodWord, Forward, CopiedWord, Snapshot.IsField, SizeWords;
    forall p | p in F ensures p in s.objs && F[p] in u.objs && CopiedObject(s, u, F, p) {
      assert CopiedObject(s, t, F, p);
      assert u.h[F[p]] == t.h[F[p]];
      forall v | p + 2 <= v < p + SizeWords(s.h[p]) ensures CopiedSlot(s, u, F, p, v) {
        assert CopiedSlot(s, t, F, p, v);
        assert u.h[F[p] + (v - p)] == t.h[F[p] + (v - p)];
      }
    }
  }

  lemma ViewAfterAppend(s: Snapshot, t: Snapshot, u: Snapshot, F: map<nat, nat>, roots: Area,
                        before: map<nat, Word>, after: map<nat, Word>, header: Word, size: nat)
    requires Preserved(s, t, F, roots, before, after) && GoodRoots(s, roots, before)
    requires Appended(t, u, header) && u.Settled() && HonestBase(u.base, size, u.foreign) && |u.h| <= size
    ensures SameView(s, u, roots, before, after)
  {
    hide Related, Isomorphic, GoodRoots, SameView, Snapshot.Settled, HonestBase, RootsForwarded;
    AppendedEmbeds(s, t, u, F, header, size);
    ViewKept(s, u, F, roots, before, after);
  }
}

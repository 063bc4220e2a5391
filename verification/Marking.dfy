/** What the mark phase keeps: the queue that lives in the forwarding words of the first
    objects of the heap, and the mark and enqueued bits that share those words. */
module Marking {
  import opened Words
  import opened Layout
  import opened Reachability

  /** Only forwarding words differ. */
  ghost predicate SameData(s: Snapshot, h: seq<Word>) {
    && |h| == |s.h|
    && forall i :: 0 <= i < |h| && (i - 1) !in s.objs ==> h[i] == s.h[i]
  }

  ghost predicate HasBits(h: seq<Word>, p: nat, marked: bool, enqueued: bool) {
    p + 1 < |h| && Marked(h[p + 1]) == marked && Enqueued(h[p + 1]) == enqueued
  }

  ghost predicate Bits(s: Snapshot, h: seq<Word>, M: set<nat>, E: set<nat>) {
    forall p :: p in s.objs ==> HasBits(h, p, p in M, p in E)
  }

  /** Between two calls of `mark`: `M` is the marked set and nothing is enqueued. */
  ghost predicate MarkState(s: Snapshot, h: seq<Word>, M: set<nat>) {
    && SameData(s, h)
    && Bits(s, h, M, {})
    && M <= Elements(s.objs)
    && Closed(s, M)
  }

  ghost function Elements(q: seq<nat>): set<nat> {
    set p | p in q
  }

  ghost predicate NoDuplicates<T>(q: seq<T>) {
    forall i, j :: 0 <= i < j < |q| ==> q[i] != q[j]
  }

  /** Inside a call of `mark` on object `a`: `Q` is everything enqueued so far, the first
      `head` of it already dequeued and marked. Queue slot `j` is the forwarding address
      of object `j` of the heap. */
  ghost predicate QueueState(s: Snapshot, h: seq<Word>, M: set<nat>, Q: seq<nat>, head: nat, a: nat) {
    && SameData(s, h)
    && head <= |Q| <= |s.objs|
    && NoDuplicates(Q)
    && (forall j :: 0 <= j < |Q| ==> Q[j] in s.objs && Q[j] !in M && Reach(s, a, Q[j]))
    && Bits(s, h, M + Elements(Q[..head]), Elements(Q[head..]))
    && (forall j :: head <= j < |Q| ==> PendingSlot(s, h, j, Q[j]))
  }

  ghost predicate PendingSlot(s: Snapshot, h: seq<Word>, j: nat, p: nat)
    requires j < |s.objs|
  {
    s.objs[j] + 1 < |h| && Address(h[s.objs[j] + 1]) == s.ContentAddress(p)
  }

  lemma SameObject(s: Snapshot, h: seq<Word>, p: nat)
    requires s.Laid() && SameData(s, h) && p in s.objs
    ensures p + 2 <= |h| && h[p] == s.h[p] && p + SizeWords(h[p]) <= |h|
    ensures forall t: nat :: s.IsField(p, t) ==> p + 2 <= t && h[t] == s.h[t]
  {
    Extent(s, p);
    NotForwardingWord(s, p, p);
    forall t: nat | s.IsField(p, t) ensures h[t] == s.h[t] {
      NotForwardingWord(s, p, t);
    }
  }

  /** Pigeonhole: a queue of distinct objects that misses one is shorter than the heap,
      so the tail iterator is still below `heap.current`. */
  lemma TailBelowEnd(s: Snapshot, Q: seq<nat>, x: nat)
    requires s.Laid() && NoDuplicates(Q)
    requires forall j :: 0 <= j < |Q| ==> Q[j] in s.objs
    requires x in s.objs && x !in Q
    ensures |Q| < |s.objs|
  {
    var all := Elements(s.objs);
    CountElements(Q);
    CountElementsAtMost(s.objs);
    assert Elements(Q) <= all - {x};
    CardinalitySubset(Elements(Q), all - {x});
  }

  lemma {:induction false} CountElements(q: seq<nat>)
    requires NoDuplicates(q)
    ensures |Elements(q)| == |q|
  {
    if q != [] {
      var init, last := q[..|q| - 1], q[|q| - 1];
      CountElements(init);
      assert q == init + [last];
      assert Elements(q) == Elements(init) + {last};
      assert last !in Elements(init);
    } else {
      assert Elements(q) == {};
    }
  }

  lemma {:induction false} CountElementsAtMost(q: seq<nat>)
    ensures |Elements(q)| <= |q|
  {
    if q != [] {
      var init, last := q[..|q| - 1], q[|q| - 1];
      CountElementsAtMost(init);
      assert q == init + [last];
      assert Elements(q) == Elements(init) + {last};
    } else {
      assert Elements(q) == {};
    }
  }

  lemma {:induction false} CardinalitySubset(a: set<nat>, b: set<nat>)
    requires a <= b
    ensures |a| <= |b|
  {
    if a != {} {
      var x :| x in a;
      CardinalitySubset(a - {x}, b - {x});
    }
  }

  /** The word at `t` does not lead to an object that still has to be found. */
  ghost predicate Handled(s: Snapshot, M: set<nat>, Q: seq<nat>, t: nat)
    requires t < |s.h|
  {
    s.IsPointer(s.h[t]) ==> s.Target(s.h[t]) >= 0 && (s.Target(s.h[t]) in M || s.Target(s.h[t]) in Q)
  }

  // The two queue operations

  /** `queue_enqueue`: the new slot is the forwarding address of object `|Q|`; the
      enqueued bit goes into the word of the enqueued object, which may be the same word. */
  lemma EnqueueKeeps(s: Snapshot, h: seq<Word>, M: set<nat>, Q: seq<nat>, head: nat, a: nat, x: nat)
    requires s.Laid() && QueueState(s, h, M, Q, head, a)
    requires x in s.objs && x !in M && x !in Q && Reach(s, a, x)
    requires s.ContentAddress(x) % 4 == 0 && s.ContentAddress(x) < WORD_LIMIT
    ensures |Q| < |s.objs| && s.objs[|Q|] + 1 < |h| && x + 1 < |h|
    ensures var slot := s.objs[|Q|] + 1;
      var h1 := h[slot := SetAddress(h[slot], s.ContentAddress(x))];
      QueueState(s, h1[x + 1 := MakeEnqueued(h1[x + 1])], M, Q + [x], head, a)
  {
    hide Address, Marked, Enqueued, SetAddress, SetMark, MakeEnqueued, MakeDequeued, SizeWords;
    TailBelowEnd(s, Q, x);
    var tail := s.objs[|Q|];
    Extent(s, tail);
    Extent(s, x);
    var h1 := h[tail + 1 := SetAddress(h[tail + 1], s.ContentAddress(x))];
    var h2 := h1[x + 1 := MakeEnqueued(h1[x + 1])];
    EnqueueBits(s, h, h1, h2, M, Q, head, tail, x);
    EnqueuePending(s, h, h2, Q, head, x);
  }

  lemma EnqueueBits(s: Snapshot, h: seq<Word>, h1: seq<Word>, h2: seq<Word>, M: set<nat>, Q: seq<nat>, head: nat,
      tail: nat, x: nat)
    requires head <= |Q| && x !in M && tail + 1 < |h| && x + 1 < |h| && s.ContentAddress(x) % 4 == 0 &&
      s.ContentAddress(x) < WORD_LIMIT
    requires x !in Q
    requires Bits(s, h, M + Elements(Q[..head]), Elements(Q[head..]))
    requires h1 == h[tail + 1 := SetAddress(h[tail + 1], s.ContentAddress(x))]
    requires h2 == h1[x + 1 := MakeEnqueued(h1[x + 1])]
    ensures Bits(s, h2, M + Elements((Q + [x])[..head]), Elements((Q + [x])[head..]))
  {
    hide Address, Marked, Enqueued, SetAddress, MakeEnqueued;
    var Q' := Q + [x];
    assert Q'[..head] == Q[..head];
    assert Q'[head..] == Q[head..] + [x];
    forall p | p in s.objs
      ensures HasBits(h2, p, p in M + Elements(Q'[..head]), p in Elements(Q'[head..]))
    {
      assert HasBits(h, p, p in M + Elements(Q[..head]), p in Elements(Q[head..]));
      assert p in Elements(Q'[head..]) <==> p in Elements(Q[head..]) || p == x;
    }
  }

  lemma EnqueuePending(s: Snapshot, h: seq<Word>, h2: seq<Word>, Q: seq<nat>, head: nat, x: nat)
    requires s.Laid() && head <= |Q| < |s.objs| && |h| == |h2| && s.objs[|Q|] + 1 < |h| && x + 1 < |h|
    requires s.ContentAddress(x) % 4 == 0 && s.ContentAddress(x) < WORD_LIMIT
    requires forall j :: head <= j < |Q| ==> PendingSlot(s, h, j, Q[j])
    requires var h1 := h[s.objs[|Q|] + 1 := SetAddress(h[s.objs[|Q|] + 1], s.ContentAddress(x))];
      h2 == h1[x + 1 := MakeEnqueued(h1[x + 1])]
    ensures forall j :: head <= j < |Q| + 1 ==> PendingSlot(s, h2, j, (Q + [x])[j])
  {
    hide Address, Marked, Enqueued, SetAddress, MakeEnqueued, Snapshot.Laid;
    forall j | head <= j < |Q| + 1 ensures PendingSlot(s, h2, j, (Q + [x])[j]) {
      if j < |Q| {
        assert PendingSlot(s, h, j, Q[j]);
        if s.objs[j] == s.objs[|Q|] {
          Distinct(s, j, |Q|);
        }
      }
    }
  }

  /** Where the next queue slot is: the tail iterator stands on a whole object, and its
      header is not the word that receives the enqueued bit. */
  lemma TailReady(s: Snapshot, h: seq<Word>, M: set<nat>, Q: seq<nat>, head: nat, a: nat, x: nat)
    requires s.Laid() && QueueState(s, h, M, Q, head, a)
    requires x in s.objs && x !in Q
    ensures |Q| < |s.objs| && s.objs[|Q|] + 1 < |h| && x + 1 < |h|
    ensures x + 1 != s.objs[|Q|] && h[s.objs[|Q|]] == s.h[s.objs[|Q|]]
    ensures s.objs[|Q|] + SizeWords(h[s.objs[|Q|]]) == At(s.objs, |s.h|, |Q| + 1)
  {
    hide SizeWords, Bits;
    TailBelowEnd(s, Q, x);
    var tail := s.objs[|Q|];
    SameObject(s, h, tail);
    SameObject(s, h, x);
    NotForwardingWord(s, tail, tail);
    assert TileAt(s.h, s.objs, |Q|);
  }

  /** An object with neither bit set is neither marked nor pending. */
  lemma NotQueued(s: Snapshot, h: seq<Word>, M: set<nat>, Q: seq<nat>, head: nat, a: nat, x: nat)
    requires QueueState(s, h, M, Q, head, a) && x in s.objs
    ensures head <= |Q| && HasBits(h, x, x in M + Elements(Q[..head]), x in Elements(Q[head..]))
    ensures (x in Q <==> x in Q[..head] || x in Q[head..])
  {
    hide Marked, Enqueued;
    assert Q == Q[..head] + Q[head..];
    assert HasBits(h, x, x in M + Elements(Q[..head]), x in Elements(Q[head..]));
  }

  ghost function AfterEnqueue(h: seq<Word>, tail: nat, x: nat, v: Word): seq<Word>
    requires tail + 1 < |h| && x + 1 < |h| && v % 4 == 0
  {
    var h1 := h[tail + 1 := SetAddress(h[tail + 1], v)];
    h1[x + 1 := MakeEnqueued(h1[x + 1])]
  }

  /** The test in the inner loop of `mark`: a target with a bit set has been dealt with,
      any other is enqueued in the slot at the tail iterator. */
  lemma EnqueueField(s: Snapshot, h: seq<Word>, M: set<nat>, Q: seq<nat>, head: nat, a: nat, x: nat, u: nat)
    requires s.Settled() && QueueState(s, h, M, Q, head, a)
    requires x in s.objs && Reach(s, a, x) && s.IsField(x, u) && s.IsPointer(s.h[u])
    ensures s.Target(s.h[u]) in s.objs && 0 <= s.Target(s.h[u]) && s.Target(s.h[u]) + 1 < |h|
    ensures s.h[u] % 4 == 0
    ensures var o := s.Target(s.h[u]);
      if Marked(h[o + 1]) || Enqueued(h[o + 1]) then o in M || o in Q
      else
        && |Q| < |s.objs| && s.objs[|Q|] + 1 < |h|
        && o + 1 != s.objs[|Q|] && h[s.objs[|Q|]] == s.h[s.objs[|Q|]]
        && s.objs[|Q|] + SizeWords(h[s.objs[|Q|]]) == At(s.objs, |s.h|, |Q| + 1)
        && QueueState(s, AfterEnqueue(h, s.objs[|Q|], o, s.h[u]), M, Q + [o], head, a)
  {
    hide Address, Marked, Enqueued, SetAddress, MakeEnqueued, SizeWords, HasBits, QueueState, Snapshot.Laid;
    var o := s.Target(s.h[u]);
    assert s.GoodWord(s.h[u]);
    AddressesDiffer(s, o);
    NotQueued(s, h, M, Q, head, a, o);
    BitsMean(h, o);
    if !Marked(h[o + 1]) && !Enqueued(h[o + 1]) {
      assert s.Edge(x, o);
      ReachStep(s, a, x, o);
      TailReady(s, h, M, Q, head, a, o);
      EnqueueKeeps(s, h, M, Q, head, a, o);
    }
  }

  lemma BitsMean(h: seq<Word>, p: nat)
    ensures forall marked, enqueued :: HasBits(h, p, marked, enqueued) ==>
      p + 1 < |h| && Marked(h[p + 1]) == marked && Enqueued(h[p + 1]) == enqueued
  {
  }

  lemma QueuedObject(s: Snapshot, h: seq<Word>, M: set<nat>, Q: seq<nat>, head: nat, a: nat, x: nat)
    requires s.Settled() && QueueState(s, h, M, Q, head, a) && x in s.objs
    ensures x + 2 <= |h| == |s.h| && h[x] == s.h[x] && x + SizeWords(h[x]) <= |h|
    ensures forall t: nat :: s.IsField(x, t) ==> x + 2 <= t && h[t] == s.h[t]
  {
    SameObject(s, h, x);
  }

  /** `queue_dequeue` followed by `mark_object`. */
  lemma DequeueKeeps(s: Snapshot, h: seq<Word>, M: set<nat>, Q: seq<nat>, head: nat, a: nat)
    requires s.Laid() && QueueState(s, h, M, Q, head, a) && head < |Q|
    ensures Q[head] in s.objs && Q[head] + 1 < |h|
    ensures PendingSlot(s, h, head, Q[head])
    ensures var w := Q[head] + 1; var h1 := h[w := MakeDequeued(h[w])];
      QueueState(s, h1[w := SetMark(h1[w])], M, Q, head + 1, a)
  {
    hide Address, Marked, Enqueued, SetAddress, SetMark, MakeEnqueued, MakeDequeued, SizeWords, Snapshot.Laid;
    var x := Q[head];
    Extent(s, x);
    var h1 := h[x + 1 := MakeDequeued(h[x + 1])];
    var h2 := h1[x + 1 := SetMark(h1[x + 1])];
    assert forall i :: 0 <= i < |h| && i != x + 1 ==> h2[i] == h[i];
    assert Address(h2[x + 1]) == Address(h[x + 1]);
    assert HasBits(h2, x, true, false);
    DequeueBits(s, h, h2, M, Q, head);
    DequeuePending(s, h, h2, Q, head);
  }

  lemma DequeuePending(s: Snapshot, h: seq<Word>, h2: seq<Word>, Q: seq<nat>, head: nat)
    requires head < |Q| <= |s.objs| && |h| == |h2| && Q[head] + 1 < |h|
    requires forall j :: head <= j < |Q| ==> PendingSlot(s, h, j, Q[j])
    requires forall i :: 0 <= i < |h| && i != Q[head] + 1 ==> h2[i] == h[i]
    requires Address(h2[Q[head] + 1]) == Address(h[Q[head] + 1])
    ensures forall j :: head + 1 <= j < |Q| ==> PendingSlot(s, h2, j, Q[j])
  {
    hide Address;
    forall j | head + 1 <= j < |Q| ensures PendingSlot(s, h2, j, Q[j]) {
      assert PendingSlot(s, h, j, Q[j]);
    }
  }

  lemma DequeueBits(s: Snapshot, h: seq<Word>, h2: seq<Word>, M: set<nat>, Q: seq<nat>, head: nat)
    requires head < |Q| && NoDuplicates(Q) && |h| == |h2| && Q[head] + 1 < |h|
    requires Bits(s, h, M + Elements(Q[..head]), Elements(Q[head..]))
    requires HasBits(h2, Q[head], true, false)
    requires forall i :: 0 <= i < |h| && i != Q[head] + 1 ==> h2[i] == h[i]
    ensures Bits(s, h2, M + Elements(Q[..head + 1]), Elements(Q[head + 1..]))
  {
    hide Marked, Enqueued;
    var x := Q[head];
    assert Q[..head + 1] == Q[..head] + [x];
    assert Q[head..] == [x] + Q[head + 1..];
    assert x !in Q[head + 1..] by {
      assert forall j :: head + 1 <= j < |Q| ==> Q[j] != x;
    }
    forall p | p in s.objs
      ensures HasBits(h2, p, p in M + Elements(Q[..head + 1]), p in Elements(Q[head + 1..]))
    {
      assert HasBits(h, p, p in M + Elements(Q[..head]), p in Elements(Q[head..]));
      assert p in Elements(Q[head..]) <==> p == x || p in Elements(Q[head + 1..]);
      assert p in Elements(Q[..head + 1]) <==> p == x || p in Elements(Q[..head]);
    }
  }

  /** Everything that `x` points to has been found. */
  ghost predicate Scanned(s: Snapshot, M: set<nat>, Q: seq<nat>, x: nat) {
    forall q :: s.Edge(x, q) ==> q in M || q in Q
  }

  lemma StillScanned(s: Snapshot, M: set<nat>, Q: seq<nat>, Q': seq<nat>, n: nat)
    requires Q <= Q' && n <= |Q|
    requires forall j :: 0 <= j < n ==> Scanned(s, M, Q, Q[j])
    ensures forall j :: 0 <= j < n ==> Scanned(s, M, Q', Q'[j])
  {
    forall j | 0 <= j < n ensures Scanned(s, M, Q', Q'[j]) {
      assert Scanned(s, M, Q, Q[j]);
      assert forall q :: q in Q ==> q in Q';
    }
  }

  // The entry to `mark` and the ends of its loop

  lemma NothingMarked(s: Snapshot)
    requires s.Settled()
    ensures MarkState(s, s.h, {})
    ensures forall p :: !ReachFrom(s, {}, p)
  {
    hide Marked, Enqueued, Snapshot.Laid;
    forall p | p in s.objs ensures HasBits(s.h, p, p in {}, p in {}) {
      assert s.Clean(p);
    }
  }

  lemma MarkStateParts(s: Snapshot, h: seq<Word>, M: set<nat>)
    requires MarkState(s, h, M)
    ensures M <= Elements(s.objs) && Closed(s, M)
  {
  }

  lemma RootObject(s: Snapshot, h: seq<Word>, M: set<nat>, v: Word)
    requires s.Settled() && MarkState(s, h, M) && s.GoodWord(v) && s.IsPointer(v)
    ensures var a := s.Target(v);
      && a in s.objs && 0 <= a && a + 1 < |h| && v % 4 == 0
      && (Marked(h[a + 1]) <==> a in M)
    ensures M <= Elements(s.objs) && Closed(s, M)
    ensures s.Target(v) in M ==> forall p :: ReachFrom(s, {v}, p) ==> p in M
  {
    hide Marked, Enqueued;
    var a := s.Target(v);
    AddressesDiffer(s, a);
    assert HasBits(h, a, a in M, a in {});
    BitsMean(h, a);
    if a in M {
      forall p | ReachFrom(s, {v}, p) ensures p in M {
        ClosedReach(s, M, a, p);
      }
    }
  }

  lemma QueueStart(s: Snapshot, h: seq<Word>, M: set<nat>, v: Word)
    requires s.Settled() && MarkState(s, h, M) && s.GoodWord(v) && s.IsPointer(v) && s.Target(v) !in M
    ensures var a := s.Target(v);
      && |s.objs| > 0 && a in s.objs && a >= 0 && a + 1 < |h| && v % 4 == 0
      && s.objs[0] == 0 && 1 < |h| && a + 1 != 0
      && 0 + SizeWords(h[0]) == At(s.objs, |s.h|, 1)
      && QueueState(s, AfterEnqueue(h, 0, a, v), M, [a], 0, a)
  {
    hide Address, Marked, Enqueued, SizeWords, MakeEnqueued, SetAddress;
    var a := s.Target(v);
    assert Elements([]) == {};
    QueueFresh(s, h, M, a);
    AddressesDiffer(s, a);
    ReachSelf(s, a);
    TailReady(s, h, M, [], 0, a, a);
    EnqueueKeeps(s, h, M, [], 0, a, a);
    assert [] + [a] == [a];
  }

  lemma QueueFresh(s: Snapshot, h: seq<Word>, M: set<nat>, a: nat)
    requires MarkState(s, h, M)
    ensures QueueState(s, h, M, [], 0, a)
  {
    hide Marked, Enqueued;
    var Q: seq<nat> := [];
    assert Elements(Q[..0]) == {} && Elements(Q[0..]) == {};
    assert M + Elements(Q[..0]) == M;
  }

  /** Head and tail iterators differ only while something is pending. */
  lemma QueueNotEmpty(s: Snapshot, h: seq<Word>, M: set<nat>, Q: seq<nat>, head: nat, a: nat)
    requires s.Settled() && QueueState(s, h, M, Q, head, a)
    requires At(s.objs, |s.h|, head) != At(s.objs, |s.h|, |Q|)
    ensures head < |Q| <= |s.objs| && s.objs[head] + 1 < |h| && Q[head] + 1 < |h|
    ensures Q[head] in s.objs && Reach(s, a, Q[head])
    ensures Address(h[s.objs[head] + 1]) == s.ContentAddress(Q[head])
    ensures s.Target(Address(h[s.objs[head] + 1])) == Q[head]
    ensures Q[head] + 1 != s.objs[head]
    ensures s.objs[head] + SizeWords(h[s.objs[head]]) == At(s.objs, |s.h|, head + 1)
    ensures QueueState(s, AfterDequeue(h, Q[head]), M, Q, head + 1, a)
  {
    hide Address, Marked, Enqueued, SizeWords, MakeDequeued, SetMark, Bits, PendingSlot, Snapshot.Clean,
      Snapshot.GoodWord;
    DequeueKeeps(s, h, M, Q, head, a);
    HeadReady(s, h, head, Q[head]);
  }

  lemma HeadReady(s: Snapshot, h: seq<Word>, head: nat, x: nat)
    requires s.Laid() && SameData(s, h) && head < |s.objs| && x in s.objs && PendingSlot(s, h, head, x)
    ensures s.objs[head] + 1 < |h| && x + 1 < |h| && x + 1 != s.objs[head]
    ensures Address(h[s.objs[head] + 1]) == s.ContentAddress(x)
    ensures s.Target(Address(h[s.objs[head] + 1])) == x
    ensures s.objs[head] + SizeWords(h[s.objs[head]]) == At(s.objs, |s.h|, head + 1)
  {
    hide Address, SizeWords;
    AddressesDiffer(s, x);
    SameObject(s, h, x);
    SameObject(s, h, s.objs[head]);
    NotForwardingWord(s, s.objs[head], s.objs[head]);
    assert TileAt(s.h, s.objs, head);
  }

  ghost function AfterDequeue(h: seq<Word>, x: nat): seq<Word>
    requires x + 1 < |h|
  {
    var h1 := h[x + 1 := MakeDequeued(h[x + 1])];
    h1[x + 1 := SetMark(h1[x + 1])]
  }

  lemma QueueEmpty(s: Snapshot, h: seq<Word>, M: set<nat>, Q: seq<nat>, head: nat, a: nat)
    requires s.Settled() && QueueState(s, h, M, Q, head, a)
    requires At(s.objs, |s.h|, head) == At(s.objs, |s.h|, |Q|)
    ensures head == |Q|
  {
    if head < |Q| {
      TilesMonotone(s.h, s.objs, 0, head, |Q|);
    }
  }

  /** When the queue has run empty the mark state is back, grown by what was reachable. */
  lemma MarkDone(s: Snapshot, h: seq<Word>, M: set<nat>, Q: seq<nat>, head: nat, v: Word)
    requires s.IsPointer(v) && s.Target(v) >= 0 && s.Target(v) in Q
    requires s.Settled() && QueueState(s, h, M, Q, head, s.Target(v))
    requires At(s.objs, |s.h|, head) == At(s.objs, |s.h|, |Q|)
    requires M <= Elements(s.objs) && Closed(s, M)
    requires forall j :: 0 <= j < head ==> Scanned(s, M, Q, Q[j])
    ensures MarkState(s, h, M + Elements(Q))
    ensures forall p :: p in M + Elements(Q) <==> p in M || ReachFrom(s, {v}, p)
  {
    hide Marked, Enqueued, HasBits, Snapshot.Settled, Snapshot.Edge;
    var a := s.Target(v);
    QueueEmpty(s, h, M, Q, head, a);
    var M' := M + Elements(Q);
    assert Q[..|Q|] == Q && Q[|Q|..] == [];
    assert Elements(Q[|Q|..]) == {};
    forall p, q | p in M' && s.Edge(p, q) ensures q in M' {
      if p in Q {
        var j :| 0 <= j < |Q| && Q[j] == p;
        assert Scanned(s, M, Q, Q[j]);
      }
    }
    forall p ensures p in M' <==> p in M || ReachFrom(s, {v}, p) {
      if ReachFrom(s, {v}, p) {
        ClosedReach(s, M', a, p);
      }
    }
  }
}

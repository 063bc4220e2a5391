/** The collector itself: one heap, the root cells outside it, and the operations of
    `runtime/gc.c` on them.

    Pointers into the heap are kept as word offsets from `begin`; a value stored in a cell
    is the byte address `begin + 4 * offset`. */
module GarbageCollector {
  import opened Wrappers
  import opened Words
  import opened Layout
  import opened Reachability
  import opened Marking
  import opened Compaction
  import opened Isomorphism
  import opened Roots
  import opened Accounting
  import opened HeapInvariant
  import opened Observation

  class Collector {
    var mem: array<Word>
    var begin: nat
    var current: nat
    var size: nat
    var outer: map<nat, Word>
    var roots: Area
    const foreign: set<Word>

    ghost var objs: seq<nat>
    ghost var cycles: seq<Cycle>
    ghost var total: nat

    ghost function Heap(): seq<Word>
      requires current <= mem.Length
      reads this, mem
    {
      mem[..current]
    }

    /** The collector is at work on the heap that `s` describes. */
    ghost predicate Views(s: Snapshot)
      reads this
    {
      && current <= mem.Length
      && |s.h| == current
      && begin == s.base
      && s.Settled()
    }

    predicate IsHeapPointer(v: Word)
      reads this
    {
      !Unboxed(v) && begin <= v <= begin + 4 * current
    }

    /** `TO_DATA`: header offset of the object whose content address is `v`. */
    function HeaderOf(v: Word): int
      reads this
    {
      (v - begin) / 4 - 2
    }

    // Object and field iterators

    method NextObject(p: nat) returns (q: nat)
      requires p < mem.Length
      ensures q == p + SizeWords(mem[p])
    {
      q := p + SizeWords(mem[p]);
    }

    method PointerFieldBegin(p: nat) returns (u: nat)
      requires p < mem.Length && p + SizeWords(mem[p]) <= mem.Length
      ensures FirstField(p, mem[p]) <= u
      ensures forall t :: FirstField(p, mem[p]) <= t < u && t < p + SizeWords(mem[p]) ==> Unboxed(mem[t])
      ensures u < p + SizeWords(mem[p]) ==> !Unboxed(mem[u])
    {
      u := FirstField(p, mem[p]);
      if u >= p + SizeWords(mem[p]) || !Unboxed(mem[u]) {
        return;
      }
      u := NextPointerField(p, u);
    }

    method NextPointerField(p: nat, u: nat) returns (next: nat)
      requires p < mem.Length && p + SizeWords(mem[p]) <= mem.Length
      ensures u < next
      ensures forall t :: u < t < next && t < p + SizeWords(mem[p]) ==> 0 <= t < mem.Length && Unboxed(mem[t])
      ensures next < p + SizeWords(mem[p]) ==> !Unboxed(mem[next])
    {
      next := u + 1;
      while next < p + SizeWords(mem[p]) && Unboxed(mem[next])
        invariant u < next
        invariant forall t :: u < t < next && t < p + SizeWords(mem[p]) ==> 0 <= t < mem.Length && Unboxed(mem[t])
      {
        next := next + 1;
      }
    }

    // Marking

    method QueueEnqueue(tail: nat, v: Word) returns (next: nat)
      requires current <= mem.Length && v % 4 == 0
      requires tail + 1 < current && 0 <= HeaderOf(v) && HeaderOf(v) + 1 < current
      requires HeaderOf(v) + 1 != tail
      modifies mem
      ensures Heap() == AfterEnqueue(old(Heap()), tail, HeaderOf(v), v)
      ensures next == tail + SizeWords(Heap()[tail])
    {
      var x := HeaderOf(v);
      mem[tail + 1] := SetAddress(mem[tail + 1], v);
      mem[x + 1] := MakeEnqueued(mem[x + 1]);
      next := NextObject(tail);
    }

    method QueueDequeue(head: nat) returns (v: Word, next: nat)
      requires current <= mem.Length && head + 1 < current
      requires 0 <= HeaderOf(Address(mem[head + 1])) && HeaderOf(Address(mem[head + 1])) + 1 < current
      requires HeaderOf(Address(mem[head + 1])) + 1 != head
      modifies mem
      ensures v == Address(old(mem[head + 1]))
      ensures Heap() == old(Heap())[HeaderOf(v) + 1 := MakeDequeued(old(Heap())[HeaderOf(v) + 1])]
      ensures next == head + SizeWords(Heap()[head])
    {
      v := Address(mem[head + 1]);
      var x := HeaderOf(v);
      mem[x + 1] := MakeDequeued(mem[x + 1]);
      next := NextObject(head);
    }

    /** One field of the object being scanned: its target is enqueued unless it is marked
        or enqueued already. */
    method VisitField(x: nat, u: nat, tail: nat, ghost s: Snapshot, ghost M: set<nat>, ghost Q: seq<nat>,
                      ghost head: nat, ghost a: nat)
      returns (next: nat, ghost Q': seq<nat>)
      requires Views(s) && QueueState(s, Heap(), M, Q, head, a)
      requires x in s.objs && Reach(s, a, x) && s.IsField(x, u)
      requires tail == At(s.objs, current, |Q|)
      modifies mem
      ensures QueueState(s, Heap(), M, Q', head, a)
      ensures next == At(s.objs, current, |Q'|)
      ensures Q <= Q'
      ensures Handled(s, M, Q', u)
    {
      hide Address, Marked, Enqueued, SetAddress, MakeEnqueued, SizeWords, QueueState, Snapshot.Settled, Reach;
      next, Q' := tail, Q;
      QueuedObject(s, Heap(), M, Q, head, a, x);
      var w := mem[u];
      assert w == s.h[u];
      if s.IsPointer(w) {
        EnqueueField(s, Heap(), M, Q', head, a, x, u);
      }
      if IsHeapPointer(w) && !Marked(mem[HeaderOf(w) + 1]) && !Enqueued(mem[HeaderOf(w) + 1]) {
        next := QueueEnqueue(next, w);
        Q' := Q' + [HeaderOf(w)];
      }
    }

    /** The inner loop of `mark`: every pointer field of the object just marked is marked,
        enqueued already, or enqueued now. */
    method ScanFields(x: nat, tail: nat, ghost s: Snapshot, ghost M: set<nat>, ghost Q: seq<nat>,
                      ghost head: nat, ghost a: nat)
      returns (next: nat, ghost Q': seq<nat>)
      requires Views(s) && QueueState(s, Heap(), M, Q, head, a)
      requires x in s.objs && Reach(s, a, x)
      requires tail == At(s.objs, current, |Q|)
      modifies mem
      ensures QueueState(s, Heap(), M, Q', head, a)
      ensures next == At(s.objs, current, |Q'|)
      ensures Q <= Q'
      ensures Scanned(s, M, Q', x)
    {
      hide Address, Marked, Enqueued, SizeWords, QueueState, Snapshot.Settled, Reach, Unboxed, Snapshot.Target;
      next, Q' := tail, Q;
      QueuedObject(s, Heap(), M, Q', head, a, x);
      var u := PointerFieldBegin(x);
      while u < x + SizeWords(mem[x])
        invariant QueueState(s, Heap(), M, Q', head, a)
        invariant next == At(s.objs, current, |Q'|)
        invariant Q <= Q' && mem[x] == s.h[x]
        invariant FirstField(x, mem[x]) <= u
        invariant forall t: nat :: s.IsField(x, t) && t < u ==> Handled(s, M, Q', t)
      {
        QueuedObject(s, Heap(), M, Q', head, a, x);
        next, Q' := VisitField(x, u, next, s, M, Q', head, a);
        QueuedObject(s, Heap(), M, Q', head, a, x);
        u := NextPointerField(x, u);
      }
    }


    /** One turn of the loop of `mark`: the object at the head of the queue is dequeued,
        marked and scanned. */
    method MarkNext(head: nat, tail: nat, ghost s: Snapshot, ghost M: set<nat>, ghost Q: seq<nat>,
                    ghost done: nat, ghost a: nat)
      returns (head': nat, tail': nat, ghost Q': seq<nat>)
      requires Views(s) && QueueState(s, Heap(), M, Q, done, a)
      requires head == At(s.objs, current, done) && tail == At(s.objs, current, |Q|) && head != tail
      modifies mem
      ensures done < |s.objs| && done < |Q| && Q <= Q'
      ensures QueueState(s, Heap(), M, Q', done + 1, a)
      ensures head' == At(s.objs, current, done + 1) && tail' == At(s.objs, current, |Q'|)
      ensures Scanned(s, M, Q', Q[done])
    {
      hide Address, Marked, Enqueued, SetMark, MakeDequeued, SizeWords, Snapshot.Settled, Snapshot.Edge, Reach,
        QueueState;
      QueueNotEmpty(s, Heap(), M, Q, done, a);
      ghost var h := Heap();
      var c: Word;
      c, head' := QueueDequeue(head);
      var x := HeaderOf(c);
      mem[x + 1] := SetMark(mem[x + 1]);
      assert Heap() == AfterDequeue(h, Q[done]);
      tail', Q' := ScanFields(x, tail, s, M, Q, done + 1, a);
    }

    /** `mark`: breadth first from one root value, with the queue kept in the forwarding
        words of the first objects of the heap. */
    method Mark(v: Word, ghost s: Snapshot, ghost M: set<nat>) returns (ghost M': set<nat>)
      requires Views(s) && MarkState(s, Heap(), M) && s.GoodWord(v)
      modifies mem
      ensures MarkState(s, Heap(), M')
      ensures forall p :: p in M' <==> p in M || ReachFrom(s, {v}, p)
    {
      hide Address, Marked, Enqueued, SizeWords, Snapshot.Settled, Reach, Snapshot.GoodWord, QueueState, MarkState,
        Scanned;
      M' := M;
      if !IsHeapPointer(v) {
        return;
      }
      var a := HeaderOf(v);
      RootObject(s, Heap(), M, v);
      if Marked(mem[a + 1]) {
        return;
      }
      var head: nat, tail: nat := 0, 0;
      ghost var done: nat, Q: seq<nat> := 0, [a];
      QueueStart(s, Heap(), M, v);
      tail := QueueEnqueue(tail, v);
      while head != tail
        invariant QueueState(s, Heap(), M, Q, done, a)
        invariant head == At(s.objs, current, done) && tail == At(s.objs, current, |Q|)
        invariant done <= |Q| && a in Q
        invariant forall j :: 0 <= j < done ==> Scanned(s, M, Q, Q[j])
        decreases |s.objs| - done
      {
        ghost var Q0 := Q;
        head, tail, Q := MarkNext(head, tail, s, M, Q, done, a);
        StillScanned(s, M, Q0, Q, done);
        done := done + 1;
      }
      MarkDone(s, Heap(), M, Q, done, v);
      M' := M + Elements(Q);
    }

    /** One scanned area: the words from `lo` up to `hi`. */
    method MarkRange(lo: nat, hi: nat, ghost s: Snapshot, ghost M: set<nat>, ghost V: set<Word>)
      returns (ghost M': set<nat>)
      requires Views(s) && MarkState(s, Heap(), M)
      requires forall a :: a in Cells(lo, hi) ==> a in outer && s.GoodWord(outer[a])
      requires forall p :: p in M <==> ReachFrom(s, V, p)
      modifies mem
      ensures MarkState(s, Heap(), M')
      ensures forall p :: p in M' <==> ReachFrom(s, V + Values(outer, Cells(lo, hi)), p)
    {
      hide MarkState, Snapshot.Settled, Snapshot.GoodWord, ReachFrom, Values, Cells;
      ghost var cells, i: nat := Cells(lo, hi), 0;
      M' := M;
      NoValues(outer, cells, V);
      var a := lo;
      while a < hi
        invariant a == lo + 4 * i && i <= |cells|
        invariant MarkState(s, Heap(), M')
        invariant forall p :: p in M' <==> ReachFrom(s, V + Values(outer, cells[..i]), p)
      {
        assert cells[i] == a && a in cells;
        M' := MarkRoot(outer[a], s, M', V + Values(outer, cells[..i]));
        ValuesStep(outer, cells, i, V);
        a, i := a + 4, i + 1;
      }
      assert cells[..i] == cells;
    }

    method MarkRoot(v: Word, ghost s: Snapshot, ghost M: set<nat>, ghost V: set<Word>) returns (ghost M': set<nat>)
      requires Views(s) && MarkState(s, Heap(), M) && s.GoodWord(v)
      requires forall p :: p in M <==> ReachFrom(s, V, p)
      modifies mem
      ensures MarkState(s, Heap(), M')
      ensures forall p :: p in M' <==> ReachFrom(s, V + {v}, p)
    {
      hide MarkState, Snapshot.Settled, Snapshot.GoodWord, ReachFrom;
      M' := Mark(v, s, M);
      forall p ensures p in M' <==> ReachFrom(s, V + {v}, p) {
        ReachFromUnion(s, V, {v}, p);
      }
    }

    method MarkExtraRoots(ghost s: Snapshot, ghost M: set<nat>, ghost V: set<Word>) returns (ghost M': set<nat>)
      requires Views(s) && MarkState(s, Heap(), M)
      requires forall a :: a in roots.extra ==> a in outer && s.GoodWord(outer[a])
      requires forall p :: p in M <==> ReachFrom(s, V, p)
      modifies mem
      ensures MarkState(s, Heap(), M')
      ensures forall p :: p in M' <==> ReachFrom(s, V + Values(outer, roots.extra), p)
    {
      hide MarkState, Snapshot.Settled, Snapshot.GoodWord, ReachFrom, Values;
      M' := M;
      NoValues(outer, roots.extra, V);
      for i := 0 to |roots.extra|
        invariant MarkState(s, Heap(), M')
        invariant forall p :: p in M' <==> ReachFrom(s, V + Values(outer, roots.extra[..i]), p)
      {
        var a := roots.extra[i];
        M' := MarkRoot(outer[a], s, M', V + Values(outer, roots.extra[..i]));
        ValuesStep(outer, roots.extra, i, V);
      }
      assert roots.extra[..|roots.extra|] == roots.extra;
    }

    /** `mark_phase`: afterwards exactly the objects reachable from the roots are marked. */
    method MarkPhase(ghost s: Snapshot) returns (ghost M: set<nat>)
      requires Views(s) && Heap() == s.h
      requires forall a :: a in roots.Marked() ==> a in outer && s.GoodWord(outer[a])
      modifies mem
      ensures MarkState(s, Heap(), M)
      ensures forall p :: p in M <==> ReachFrom(s, Values(outer, roots.Marked()), p)
    {
      hide Snapshot.GoodWord, Snapshot.Settled, ReachFrom, MarkState, Values, Cells;
      NothingMarked(s);
      ghost var stack, globals := roots.StackMarked(), roots.Globals();
      ValuesAppend(outer, stack, roots.extra);
      ValuesAppend(outer, stack + roots.extra, globals);
      ghost var V1 := {} + Values(outer, stack);
      ghost var V2 := V1 + Values(outer, roots.extra);
      M := MarkRange(roots.top + 4, roots.bottom, s, {}, {});
      M := MarkExtraRoots(s, M, V1);
      M := MarkRange(roots.start, roots.stop, s, M, V2);
      assert V2 + Values(outer, globals) == Values(outer, roots.Marked());
    }

    // Compaction

    /** `compute_locations`: returns the number of words in live objects. */
    method ComputeLocations(ghost s: Snapshot, ghost M: set<nat>) returns (live: nat)
      requires Views(s) && MarkState(s, Heap(), M)
      modifies mem
      ensures Located(s, Heap(), M, |s.objs|)
      ensures live == Dest(s, M, |s.objs|)
    {
      hide Address, Marked, Enqueued, SetAddress, SizeWords, Located, Dest;
      live := 0;
      var p := 0;
      ghost var k := 0;
      LocateStart(s, Heap(), M);
      while p < current
        invariant k <= |s.objs| && p == At(s.objs, current, k)
        invariant Located(s, Heap(), M, k) && live == Dest(s, M, k)
        decreases |s.objs| - k
      {
        assert k < |s.objs|;
        LocateStep(s, Heap(), M, k);
        DestStep(s, M, k);
        var next := NextObject(p);
        if Marked(mem[p + 1]) {
          ghost var h := Heap();
          mem[p + 1] := SetAddress(mem[p + 1], begin + 4 * live);
          assert Heap() == h[p + 1 := SetAddress(h[p + 1], s.base + 4 * live)];
          live := live + SizeWords(mem[p]);
        }
        p, k := next, k + 1;
      }
      if k < |s.objs| {
        Ordered(s, k, k + 1);
      }
    }

    /** `mremap`: the contents are kept, the size grows, the base may change. */
    method Remap(newSize: nat, newBegin: nat)
      requires current <= mem.Length <= newSize
      modifies this`mem, this`begin, this`size
      ensures fresh(mem) && mem.Length == size == newSize && begin == newBegin
      ensures current == old(current) && mem[..current] == old(mem[..current])
    {
      var grown := new Word[newSize](_ => 0);
      forall i | 0 <= i < mem.Length {
        grown[i] := mem[i];
      }
      mem, begin, size := grown, newBegin, newSize;
    }

    /** Where a pointer into the old heap leads: the forwarding address of its target,
        rebased, plus the header that content addresses skip. */
    function Relocated(v: Word, oldBegin: nat): int
      requires 0 <= (v - oldBegin) / 4 - 2 && (v - oldBegin) / 4 - 1 < mem.Length
      reads this, mem
    {
      begin + (Address(mem[(v - oldBegin) / 4 - 1]) - oldBegin) + HEADER_BYTES
    }

    /** The heap is being rewritten: `h` is the heap with forwarding addresses in place. */
    ghost predicate Rewriting(s: Snapshot, M: set<nat>, h: seq<Word>)
      reads this
    {
      && current <= mem.Length
      && |s.h| == current
      && s.Settled() && Closed(s, M) && M <= Elements(s.objs)
      && Located(s, h, M, |s.objs|)
      && begin + 4 * current < WORD_LIMIT
    }

    method UpdateField(u: nat, oldBegin: nat, oldCurrent: nat, ghost s: Snapshot, ghost M: set<nat>,
        ghost h: seq<Word>, ghost k: nat)
      requires Rewriting(s, M, h) && k < |s.objs| && oldBegin == s.base && oldCurrent == |s.h|
      requires UpdateInside(s, Plan(s, M), begin, h, Heap(), k, u)
      requires s.objs[k] in M && s.IsField(s.objs[k], u) && !Unboxed(mem[u])
      modifies mem
      ensures UpdateInside(s, Plan(s, M), begin, h, Heap(), k, u + 1)
    {
      hide Address, SizeWords, UpdateInside, Located, Snapshot.Settled, Closed, Plan;
      ghost var h' := Heap();
      FieldForward(s, M, h, h', begin, k, u);
      var w := mem[u];
      if w < oldBegin || w > oldBegin + 4 * oldCurrent {
        assert h'[u := w] == h';
        return;
      }
      assert s.IsPointer(w);
      mem[u] := Relocated(w, oldBegin);
      assert Heap() == h'[u := mem[u]];
    }

    /** The fields of one live object. */
    method UpdateObject(p: nat, oldBegin: nat, oldCurrent: nat, ghost s: Snapshot, ghost M: set<nat>,
        ghost h: seq<Word>, ghost k: nat)
      requires Rewriting(s, M, h) && k < |s.objs| && oldBegin == s.base && oldCurrent == |s.h|
      requires UpdateState(s, Plan(s, M), begin, h, Heap(), k)
      requires p == s.objs[k] && p in M
      modifies mem
      ensures UpdateState(s, Plan(s, M), begin, h, Heap(), k + 1)
    {
      hide Address, SizeWords, UpdateInside, Located, Closed, Plan, UpdateState, Snapshot.GoodWord, Snapshot.Clean;
      ObjectHeader(s, M, h, Heap(), begin, k);
      UpdateEnter(s, Plan(s, M), begin, h, Heap(), k, FirstField(p, mem[p]));
      var u: nat := PointerFieldBegin(p);
      SkipIntegers(s, M, h, Heap(), begin, k, FirstField(p, mem[p]), u);
      while u < p + SizeWords(mem[p])
        invariant UpdateInside(s, Plan(s, M), begin, h, Heap(), k, u)
        invariant mem[p] == s.h[p] && FirstField(p, mem[p]) <= u
        invariant u < p + SizeWords(mem[p]) ==> !Unboxed(mem[u])
      {
        UpdateField(u, oldBegin, oldCurrent, s, M, h, k);
        InsideHeader(s, M, h, Heap(), begin, k, u + 1);
        var next := NextPointerField(p, u);
        SkipIntegers(s, M, h, Heap(), begin, k, u + 1, next);
        u := next;
      }
      UpdateLeave(s, Plan(s, M), begin, h, Heap(), k, u);
    }

    method UpdateObjects(oldBegin: nat, oldCurrent: nat, ghost s: Snapshot, ghost M: set<nat>, ghost h: seq<Word>)
      requires Rewriting(s, M, h) && oldBegin == s.base && oldCurrent == |s.h| && Heap() == h
      modifies mem
      ensures UpdateState(s, Plan(s, M), begin, h, Heap(), |s.objs|)
    {
      hide Address, SizeWords, Located, Closed, Plan, UpdateState, Snapshot.GoodWord, Snapshot.Clean, Marked;
      var p := 0;
      ghost var k := 0;
      UpdateStart(s, Plan(s, M), begin, h);
      while p < current
        invariant k <= |s.objs| && p == At(s.objs, current, k)
        invariant UpdateState(s, Plan(s, M), begin, h, Heap(), k)
        decreases |s.objs| - k
      {
        assert k < |s.objs|;
        ObjectHeader(s, M, h, Heap(), begin, k);
        if Marked(mem[p + 1]) {
          UpdateObject(p, oldBegin, oldCurrent, s, M, h, k);
        } else {
          UpdateDead(s, M, h, Heap(), begin, k);
        }
        StateHeader(s, M, h, Heap(), begin, k);
        p := NextObject(p);
        k := k + 1;
      }
      if k < |s.objs| {
        Ordered(s, k, k + 1);
      }
    }

    /** One root cell. */
    method FixCell(a: nat, oldBegin: nat, oldCurrent: nat, ghost s: Snapshot, ghost M: set<nat>)
      requires a in outer && oldBegin == s.base && oldCurrent == |s.h| == current <= mem.Length
      requires s.Laid() && Knows(s, M, Heap()) && begin + 4 * current < WORD_LIMIT
      requires s.GoodWord(outer[a]) && (s.IsPointer(outer[a]) ==> s.Target(outer[a]) in Plan(s, M))
      modifies this`outer
      ensures 0 <= Forward(s, Plan(s, M), begin, old(outer)[a]) < WORD_LIMIT
      ensures outer == old(outer)[a := Forward(s, Plan(s, M), begin, old(outer)[a])]
    {
      hide Address, Plan, Knows;
      var v := outer[a];
      if !Unboxed(v) && oldBegin <= v <= oldBegin + 4 * oldCurrent {
        ForwardComputed(s, M, Heap(), begin, v);
        outer := outer[a := Relocated(v, oldBegin)];
      } else {
        assert outer == outer[a := v];
      }
    }

    /** `scan_and_fix_region`. */
    method FixRange(lo: nat, hi: nat, oldBegin: nat, oldCurrent: nat, ghost s: Snapshot, ghost M: set<nat>,
                    ghost before: map<nat, Word>, ghost done: seq<nat>)
      requires oldBegin == s.base && oldCurrent == |s.h| == current <= mem.Length
      requires s.Laid() && Knows(s, M, Heap()) && begin + 4 * current < WORD_LIMIT
      requires Rewritable(s, Plan(s, M), before, Cells(lo, hi))
      requires NoDuplicates(done + Cells(lo, hi))
      requires Rewritten(s, Plan(s, M), begin, before, outer, done)
      modifies this`outer
      ensures Rewritten(s, Plan(s, M), begin, before, outer, done + Cells(lo, hi))
    {
      hide Address, Plan, Knows, Rewritten, Rewritable, Snapshot.GoodWord, Snapshot.Laid, NoDuplicates, Cells;
      ghost var cells, i: nat := Cells(lo, hi), 0;
      assert done + cells[..0] == done;
      var a := lo;
      while a < hi
        invariant a == lo + 4 * i && i <= |cells|
        invariant Rewritten(s, Plan(s, M), begin, before, outer, done + cells[..i])
      {
        assert cells[i] == a;
        CellReady(s, Plan(s, M), begin, before, outer, done, cells, i);
        FixCell(a, oldBegin, oldCurrent, s, M);
        a, i := a + 4, i + 1;
      }
      assert cells[..i] == cells;
    }

    /** `scan_and_fix_region_roots`: cells that the other scans meet are left to them. */
    method FixExtraRoots(oldBegin: nat, oldCurrent: nat, ghost s: Snapshot, ghost M: set<nat>,
                         ghost before: map<nat, Word>, ghost done: seq<nat>)
      requires oldBegin == s.base && oldCurrent == |s.h| == current <= mem.Length
      requires s.Laid() && Knows(s, M, Heap()) && begin + 4 * current < WORD_LIMIT
      requires Rewritable(s, Plan(s, M), before, roots.Unskipped(|roots.extra|))
      requires NoDuplicates(done + roots.Unskipped(|roots.extra|))
      requires forall a :: a in roots.extra ==> a in outer
      requires Rewritten(s, Plan(s, M), begin, before, outer, done)
      modifies this`outer
      ensures Rewritten(s, Plan(s, M), begin, before, outer, done + roots.Unskipped(|roots.extra|))
    {
      hide Address, Plan, Knows, Rewritten, Rewritable, Snapshot.GoodWord, Snapshot.Laid, NoDuplicates;
      ghost var cells := roots.Unskipped(|roots.extra|);
      assert done + [] == done;
      for i := 0 to |roots.extra|
        invariant Rewritten(s, Plan(s, M), begin, before, outer, done + roots.Unskipped(i))
      {
        var a := roots.extra[i];
        RewrittenDomain(s, Plan(s, M), begin, before, outer, done + roots.Unskipped(i));
        UnskippedPrefix(roots, i, |roots.extra|);
        UnskippedPrefix(roots, i + 1, |roots.extra|);
        assert roots.Skipped(a) ==> roots.Unskipped(i + 1) == roots.Unskipped(i);
        if !roots.Skipped(a) {
          ghost var n := |roots.Unskipped(i)|;
          assert cells[..n] == roots.Unskipped(i) && cells[..n + 1] == roots.Unskipped(i + 1) && cells[n] == a;
          CellReady(s, Plan(s, M), begin, before, outer, done, cells, n);
          FixCell(a, oldBegin, oldCurrent, s, M);
        }
      }
    }

    /** All the root areas, after the heap has been rewritten. */
    method FixRoots(oldBegin: nat, oldCurrent: nat, ghost s: Snapshot, ghost M: set<nat>)
      requires oldBegin == s.base && oldCurrent == |s.h| == current <= mem.Length
      requires s.Laid() && Knows(s, M, Heap()) && begin + 4 * current < WORD_LIMIT
      requires roots.Disciplined()
      requires Rewritable(s, Plan(s, M), outer, roots.Fixed())
      modifies this`outer
      ensures Rewritten(s, Plan(s, M), begin, old(outer), outer, roots.Fixed())
    {
      hide Address, Plan, Knows, Rewritten, Rewritable, Snapshot.Laid, NoDuplicates, Cells, Area.Disciplined,
        Area.Unskipped, Area.StackFixed, Area.Globals, Area.Fixed, Snapshot.GoodWord;
      ghost var before := outer;
      ghost var stack, extra, globals := roots.StackFixed(), roots.Unskipped(|roots.extra|), roots.Globals();
      RewrittenNone(s, Plan(s, M), begin, before);
      FixedParts(s, Plan(s, M), before, roots);
      FixedScans(roots);
      FixRange(roots.top + 4, roots.bottom + 4, oldBegin, oldCurrent, s, M, before, []);
      RewrittenDomain(s, Plan(s, M), begin, before, outer, stack);
      FixExtraRoots(oldBegin, oldCurrent, s, M, before, stack);
      FixRange(roots.start, roots.stop, oldBegin, oldCurrent, s, M, before, stack + extra);
    }

    /** `update_references`. */
    method UpdateReferences(oldBegin: nat, oldCurrent: nat, ghost s: Snapshot, ghost M: set<nat>)
      requires current <= mem.Length && Rewriting(s, M, Heap()) && oldBegin == s.base && oldCurrent == |s.h|
      requires roots.Disciplined()
      requires Rewritable(s, Plan(s, M), outer, roots.Fixed())
      modifies mem, this`outer
      ensures UpdateState(s, Plan(s, M), begin, old(Heap()), Heap(), |s.objs|)
      ensures Rewritten(s, Plan(s, M), begin, old(outer), outer, roots.Fixed())
    {
      hide Located, Closed, Plan, UpdateState, Rewritten, Rewritable, Area.Disciplined, Snapshot.GoodWord,
        Snapshot.Clean;
      ghost var h := Heap();
      UpdateObjects(oldBegin, oldCurrent, s, M, h);
      UpdatedKnows(s, M, h, Heap(), begin);
      FixRoots(oldBegin, oldCurrent, s, M);
    }

    // Sliding

    /** `memmove` inside the heap: the regions may overlap, and the last word may be copied
        only in part. */
    method Memmove(to: nat, from: nat, bytes: nat)
      requires bytes > 0 && current <= mem.Length
      requires to + BytesToWords(bytes) <= current && from + BytesToWords(bytes) <= current
      modifies mem
      ensures IsMemmove(old(Heap()), Heap(), to, from, bytes)
    {
      hide Splice, BytesToWords;
      forall j | to <= j < to + BytesToWords(bytes) {
        mem[j] := MovedWord(bytes, j - to, mem[j - to + from], mem[j]);
      }
    }

    /** `physically_relocate`. */
    method PhysicallyRelocate(oldBegin: nat, ghost s: Snapshot, ghost M: set<nat>)
      requires oldBegin == s.base && |s.h| == current <= mem.Length && s.Settled()
      requires SlideState(s, M, Heap(), Heap(), 0) && Knows(s, M, Heap()) && MarkBits(s, M, Heap())
      modifies mem
      ensures SlideState(s, M, old(Heap()), Heap(), |s.objs|)
    {
      hide Address, Marked, Knows, MarkBits, SlideState, Snapshot.Laid, ResetMark, IsMemmove, SizeBytes, BytesToWords,
        Dest, Tag;
      ghost var h := Heap();
      SlideStart(s);
      var p := 0;
      ghost var k := 0;
      while p < current
        invariant k <= |s.objs| && p == At(s.objs, current, k)
        invariant SlideState(s, M, h, Heap(), k)
        decreases |s.objs| - k
      {
        assert k < |s.objs|;
        SlideReads(s, M, h, Heap(), k);
        var next := NextObject(p);
        if Marked(mem[p + 1]) {
          var to := (Address(mem[p + 1]) - oldBegin) / 4;
          ghost var h1 := Heap();
          Memmove(to, p, SizeBytes(mem[p]));
          ghost var h2 := Heap();
          mem[to + 1] := ResetMark(mem[to + 1]);
          assert Heap() == h2[to + 1 := ResetMark(h2[to + 1])];
          SlideKeeps(s, M, h, h1, h2, Heap(), k);
        } else {
          SlideSkips(s, M, h, Heap(), k);
        }
        p, k := next, k + 1;
      }
      SlideEnd(s, k);
    }

    ghost predicate RootsGood(s: Snapshot)
      reads this
    {
      && roots.Disciplined()
      && GoodRoots(s, roots, outer)
    }

    /** The second half of `compact_phase`, on the heap as `mremap` left it. */
    method MoveObjects(oldBegin: nat, oldCurrent: nat, live: nat, ghost s: Snapshot, ghost M: set<nat>)
      returns (ghost t: Snapshot)
      requires current <= size == mem.Length && Rewriting(s, M, Heap()) && oldBegin == s.base && oldCurrent == |s.h|
      requires roots.Disciplined() && Rewritable(s, Plan(s, M), outer, roots.Fixed())
      requires HonestBase(begin, size, s.foreign) && live == Dest(s, M, |s.objs|)
      modifies this`outer, this`current, mem
      ensures current == live <= old(current)
      ensures t == Snapshot(Heap(), begin, t.objs, s.foreign) && t.Settled()
      ensures Isomorphic(s, t, Plan(s, M))
      ensures Rewritten(s, Plan(s, M), begin, old(outer), outer, roots.Fixed())
    {
      hide Plan, Dest, Located, UpdateState, SlideState, Isomorphic, Rewritten, Rewritable, Area.Disciplined,
        Closed, Kept, HonestBase, Snapshot.GoodWord, Snapshot.Clean, Snapshot.Laid, Snapshot.Settled, Area.Fixed;
      LiveFits(s, M);
      ghost var h1 := Heap();
      UpdateReferences(oldBegin, oldCurrent, s, M);
      ghost var h2 := Heap();
      UpdatedKnows(s, M, h1, h2, begin);
      PhysicallyRelocate(oldBegin, s, M);
      ghost var h3 := Heap();
      PhasesDone(s, M, begin, h1, h2, h3, size);
      t := Result(s, M, begin, h3);
      current := live;
      assert Heap() == h3[..live];
    }

    /** `compact_phase`: `None` when `mremap` fails, otherwise the number of live words. */
    method CompactPhase(additional: nat, remap: nat -> Option<nat>, ghost s: Snapshot, ghost M: set<nat>)
      returns (live: Option<nat>, ghost t: Snapshot)
      requires Views(s) && MarkState(s, Heap(), M) && mem.Length == size && s.foreign == foreign
      requires roots.Disciplined() && s.Laid() && Rewritable(s, Plan(s, M), outer, roots.Fixed())
      requires Honest(remap, foreign)
      modifies this`mem, this`begin, this`size, this`current, this`outer, mem
      ensures live.None? ==> exists m :: remap(m).None?
      ensures live.Some? ==> fresh(mem) && live.value == current <= old(current)
      ensures live.Some? ==> current <= size == mem.Length == NextSize(live.value, additional, old(size))
      ensures live.Some? ==> HonestBase(begin, size, foreign)
      ensures live.Some? ==> t == Snapshot(Heap(), begin, t.objs, foreign) && t.Settled()
      ensures live.Some? ==> Isomorphic(s, t, Plan(s, M))
      ensures live.Some? ==> Rewritten(s, Plan(s, M), begin, old(outer), outer, roots.Fixed())
    {
      hide Plan, Dest, Located, MarkState, Isomorphic, Rewritten, Rewritable, Area.Disciplined, Closed, Kept,
        Snapshot.Settled, Snapshot.Laid, NextSize;
      MarkStateParts(s, Heap(), M);
      var n := ComputeLocations(s, M);
      var newSize := NextSize(n, additional, size);
      live, t := None, s;
      match remap(newSize)
      case None =>
      case Some(newBegin) =>
        var oldBegin, oldCurrent := begin, current;
        ghost var h := Heap();
        Remap(newSize, newBegin);
        assert Heap() == h;
        t := MoveObjects(oldBegin, oldCurrent, n, s, M);
        live := Some(n);
    }

    // Allocation, and the invariant that every run keeps

    ghost function SnapTo(end: nat): Snapshot
      requires end <= mem.Length
      reads this, mem
    {
      Snapshot(mem[..end], begin, objs, foreign)
    }

    ghost function Snap(): Snapshot
      requires current <= mem.Length
      reads this, mem
    {
      SnapTo(current)
    }

    /** The heap is well formed up to `end`; what follows is not formatted yet. */
    ghost predicate Sound(end: nat)
      reads this, mem
    {
      && end <= current <= size == mem.Length
      && HonestBase(begin, size, foreign)
      && 0 in foreign
      && SnapTo(end).Settled()
      && RootsGood(SnapTo(end))
    }

    ghost predicate Valid()
      reads this, mem
    {
      Sound(current) && Balanced(cycles, total, current, size)
    }

    /** `__init`. */
    constructor (base: nat, roots: Area, outer: map<nat, Word>, foreign: set<Word>)
      requires HonestBase(base, MINIMUM_HEAP_CAPACITY, foreign) && 0 in foreign
      requires roots.Disciplined() && roots.extra == []
      requires GoodRoots(Snapshot([], base, [], foreign), roots, outer)
      ensures Valid() && fresh(mem)
      ensures current == 0 && this.roots == roots && this.outer == outer && this.foreign == foreign
    {
      mem := new Word[MINIMUM_HEAP_CAPACITY](_ => 0);
      begin, current, size := base, 0, MINIMUM_HEAP_CAPACITY;
      this.roots, this.outer, this.foreign := roots, outer, foreign;
      objs, cycles, total := [], [], 0;
      new;
      assert Snap() == Snapshot([], base, [], foreign);
    }

    /** `gc_alloc_on_existing_heap`. */
    method AllocOnExistingHeap(n: nat) returns (p: Option<nat>)
      requires current <= size == mem.Length
      modifies this`current, mem
      ensures p.None? <==> old(current) + n > size
      ensures p.None? ==> current == old(current) && mem[..] == old(mem[..])
      ensures p.Some? ==> p.value == old(current) && current == old(current) + n
      ensures p.Some? ==> mem[..p.value] == old(mem[..p.value])
      ensures p.Some? ==> forall i :: p.value <= i < current ==> mem[i] == 0
    {
      if current + n > size {
        return None;
      }
      var start := current;
      current := current + n;
      forall i | start <= i < start + n {
        mem[i] := 0;
      }
      p := Some(start);
    }

    /** Marking, seen from the compaction that follows. */
    method MarkForCompaction(ghost s: Snapshot) returns (ghost M: set<nat>)
      requires Views(s) && Heap() == s.h && RootsGood(s)
      modifies mem
      ensures MarkState(s, Heap(), M) && s.Laid()
      ensures Rewritable(s, Plan(s, M), outer, roots.Fixed())
      ensures OnlyReachable(s, Plan(s, M), roots, outer)
    {
      hide Snapshot.Settled, MarkState, ReachFrom, Rewritable, Plan, Area.Disciplined, GoodRoots, OnlyReachable,
        Area.Marked, Area.Fixed;
      RootsMarkable(s, roots, outer);
      M := MarkPhase(s);
      RootsRewritable(s, roots, outer, M, Heap());
    }

    /** The two phases of a collection; `false` only when `mremap` failed. */
    method Collect(n: nat, remap: nat -> Option<nat>) returns (ok: bool, ghost F: map<nat, nat>)
      requires Sound(current) && Honest(remap, foreign)
      modifies this`mem, this`begin, this`size, this`current, this`outer, this`objs, mem
      ensures !ok ==> exists m :: remap(m).None?
      ensures ok ==>
        && fresh(mem) && Sound(current) && current <= old(current) && size == NextSize(current, n, old(size))
        && Preserved(old(Snap()), Snap(), F, roots, old(outer), outer)
        && OnlyReachable(old(Snap()), F, roots, old(outer))
    {
      hide Snapshot.Settled, MarkState, ReachFrom, Rewritable, Isomorphic, Rewritten, Dest, Kept, Plan, HonestBase,
        Honest, Area.Disciplined, GoodRoots, Preserved, OnlyReachable, NextSize;
      ghost var s := Snap();
      ghost var M := MarkForCompaction(s);
      F := Plan(s, M);
      var live;
      ghost var t;
      live, t := CompactPhase(n, remap, s, M);
      ok := live.Some?;
      if ok {
        objs := t.objs;
        assert Snap() == t;
        RootsStillGood(s, t, F, roots, old(outer), outer, size);
      }
    }

    /** `gc_alloc`: mark, compact, then allocate; `None` only when `mremap` failed. */
    method GcAlloc(n: nat, remap: nat -> Option<nat>) returns (p: Option<nat>, ghost F: map<nat, nat>)
      requires Valid() && current + n > size && Honest(remap, foreign)
      modifies this, mem
      ensures roots == old(roots)
      ensures p.None? ==> exists m :: remap(m).None?
      ensures p.Some? ==>
        fresh(mem) && Sound(p.value) && current == p.value + n &&
        Balanced(cycles, total, current, size)
      ensures p.Some? ==> Preserved(old(Snap()), SnapTo(p.value), F, roots, old(outer), outer)
      ensures p.Some? ==> OnlyReachable(old(Snap()), F, roots, old(outer))
      ensures p.Some? ==> cycles == old(cycles) + [Cycle(old(current), p.value, n)]
      ensures p.Some? ==> total == old(total) + n && SumUsed(cycles) <= 2 * old(total) + n
      ensures p.Some? ==> forall i :: p.value <= i < current ==> mem[i] == 0
    {
      hide Snapshot.Settled, GoodRoots, Area.Disciplined, HonestBase, Preserved, OnlyReachable, Balanced, NextSize,
        SumUsed;
      var ok;
      ok, F := Collect(n, remap);
      if !ok {
        return None, F;
      }
      BalancedCollect(cycles, total, old(current), old(size), current, n);
      cycles, total := cycles + [Cycle(old(current), current, n)], total + n;
      ghost var t := Snap();
      p := AllocOnExistingHeap(n);
      assert SnapTo(|t.h|) == t;
    }

    /** `alloc`: `t` is the heap as it was when the new object was cut off it. */
    method Alloc(bytes: nat, remap: nat -> Option<nat>)
      returns (p: Option<nat>, ghost t: Snapshot, ghost F: map<nat, nat>)
      requires Valid() && bytes > 0 && Honest(remap, foreign)
      modifies this, mem
      ensures roots == old(roots)
      ensures p.None? ==> exists m :: remap(m).None?
      ensures p.Some? ==> mem == old(mem) || fresh(mem)
      ensures p.Some? ==>
        Sound(p.value) && current == p.value + BytesToWords(bytes) &&
        Balanced(cycles, total, current, size)
      ensures p.Some? ==> t == SnapTo(p.value) && Preserved(old(Snap()), t, F, roots, old(outer), outer)
      ensures p.Some? ==>
        if old(current) + BytesToWords(bytes) <= old(size)
        then t == old(Snap()) && outer == old(outer)
        else OnlyReachable(old(Snap()), F, roots, old(outer))
      ensures p.Some? ==> forall i :: p.value <= i < current ==> mem[i] == 0
      ensures p.None? ==> old(current) + BytesToWords(bytes) > old(size)
    {
      hide Snapshot.Settled, GoodRoots, Area.Disciplined, HonestBase, Preserved, OnlyReachable, Balanced, SumUsed;
      var n := BytesToWords(bytes);
      ghost var s := Snap();
      p := AllocOnExistingHeap(n);
      if p.None? {
        assert Snap() == s;
        p, F := GcAlloc(n, remap);
        t := if p.Some? then SnapTo(p.value) else s;
      } else {
        t, F := s, Identity(s);
        assert SnapTo(p.value) == s;
        NothingMoved(s, roots, outer, size);
        BalancedAlloc(cycles, total, |s.h|, size, n);
        total := total + n;
      }
    }

    method Format(p: nat, header: Word, ghost t: Snapshot)
      requires p + SizeWords(header) == current <= mem.Length && t == SnapTo(p)
      requires forall i :: p <= i < current ==> mem[i] == 0
      modifies mem, this`objs
      ensures Appended(t, Snap(), header) && objs == old(objs) + [p]
    {
      hide SizeBytes, BytesToWords;
      mem[p] := header;
      mem[p + 1] := 0;
      objs := objs + [p];
      assert mem[..p] == t.h;
      assert Snap().h[..|t.h|] == mem[..p];
    }

    /** What `alloc_string`, `alloc_array`, `alloc_sexp` and `alloc_closure` share: allocate,
        then write the header. The payload is zero until the program fills it. */
    method NewObject(header: Word, remap: nat -> Option<nat>)
      returns (v: Option<Word>, ghost t: Snapshot, ghost F: map<nat, nat>)
      requires Valid() && ValidTag(header) && Honest(remap, foreign)
      modifies this, mem
      ensures v.None? ==> exists m :: remap(m).None?
      ensures v.Some? ==> mem == old(mem) || fresh(mem)
      ensures roots == old(roots)
      ensures v.Some? ==> Valid() && Appended(t, Snap(), header) && v.value == Snap().ContentAddress(|t.h|)
      ensures v.Some? ==> Preserved(old(Snap()), t, F, roots, old(outer), outer)
      ensures v.Some? ==> SameView(old(Snap()), Snap(), roots, old(outer), outer)
    {
      hide Snapshot.Settled, Area.Disciplined, Preserved, OnlyReachable, Balanced, ValidTag, BytesToWords, GoodRoots,
        SameView, HonestBase, Appended;
      ghost var s := Snap();
      var p;
      p, t, F := Alloc(SizeBytes(header), remap);
      if p.None? {
        return None, t, F;
      }
      Format(p.value, header, t);
      AppendedSettled(t, Snap(), header, size);
      AppendedRoots(t, Snap(), roots, outer, size);
      ViewAfterAppend(s, t, Snap(), F, roots, old(outer), outer, header, size);
      AppendedAddress(t, Snap(), header);
      v := Some(begin + 4 * p.value + HEADER_BYTES);
    }

    method AllocString(len: nat, remap: nat -> Option<nat>)
      returns (v: Option<Word>, ghost t: Snapshot, ghost F: map<nat, nat>)
      requires Valid() && len < 0x1000_0000 && Honest(remap, foreign)
      modifies this, mem
      ensures v.None? ==> exists m :: remap(m).None?
      ensures v.Some? ==> mem == old(mem) || fresh(mem)
      ensures roots == old(roots)
      ensures v.Some? ==>
        Valid() && Appended(t, Snap(), MakeHeader(STRING_TAG, len)) &&
        v.value == Snap().ContentAddress(|t.h|)
      ensures v.Some? ==> Snap().Settled() && ShowsBlank(Snap(), v.value, STRING_TAG, len)
      ensures v.Some? ==> SameView(old(Snap()), Snap(), roots, old(outer), outer)
    {
      hide Balanced, Appended, SameView, ShowsBlank, MakeHeader, GoodRoots, HonestBase, Snapshot.Settled;
      v, t, F := NewObject(MakeHeader(STRING_TAG, len), remap);
      if v.Some? {
        NewKind(t, Snap(), size, STRING_TAG, len);
      }
    }

    method AllocArray(len: nat, remap: nat -> Option<nat>)
      returns (v: Option<Word>, ghost t: Snapshot, ghost F: map<nat, nat>)
      requires Valid() && len < 0x1000_0000 && Honest(remap, foreign)
      modifies this, mem
      ensures v.None? ==> exists m :: remap(m).None?
      ensures v.Some? ==> mem == old(mem) || fresh(mem)
      ensures roots == old(roots)
      ensures v.Some? ==>
        Valid() && Appended(t, Snap(), MakeHeader(ARRAY_TAG, len)) &&
        v.value == Snap().ContentAddress(|t.h|)
      ensures v.Some? ==> Snap().Settled() && ShowsBlank(Snap(), v.value, ARRAY_TAG, len)
      ensures v.Some? ==> SameView(old(Snap()), Snap(), roots, old(outer), outer)
    {
      hide Balanced, Appended, SameView, ShowsBlank, MakeHeader, GoodRoots, HonestBase, Snapshot.Settled;
      v, t, F := NewObject(MakeHeader(ARRAY_TAG, len), remap);
      if v.Some? {
        NewKind(t, Snap(), size, ARRAY_TAG, len);
      }
    }

    method AllocSexp(members: nat, remap: nat -> Option<nat>)
      returns (v: Option<Word>, ghost t: Snapshot, ghost F: map<nat, nat>)
      requires Valid() && members < 0x1000_0000 && Honest(remap, foreign)
      modifies this, mem
      ensures v.None? ==> exists m :: remap(m).None?
      ensures v.Some? ==> mem == old(mem) || fresh(mem)
      ensures roots == old(roots)
      ensures v.Some? ==>
        Valid() && Appended(t, Snap(), MakeHeader(SEXP_TAG, members)) &&
        v.value == Snap().ContentAddress(|t.h|)
      ensures v.Some? ==> Snap().Settled() && ShowsBlank(Snap(), v.value, SEXP_TAG, members)
      ensures v.Some? ==> SameView(old(Snap()), Snap(), roots, old(outer), outer)
    {
      hide Balanced, Appended, SameView, ShowsBlank, MakeHeader, GoodRoots, HonestBase, Snapshot.Settled;
      v, t, F := NewObject(MakeHeader(SEXP_TAG, members), remap);
      if v.Some? {
        NewKind(t, Snap(), size, SEXP_TAG, members);
      }
    }

    method AllocClosure(captured: nat, remap: nat -> Option<nat>)
      returns (v: Option<Word>, ghost t: Snapshot, ghost F: map<nat, nat>)
      requires Valid() && captured < 0x1000_0000 && Honest(remap, foreign)
      modifies this, mem
      ensures v.None? ==> exists m :: remap(m).None?
      ensures v.Some? ==> mem == old(mem) || fresh(mem)
      ensures roots == old(roots)
      ensures v.Some? ==>
        Valid() && Appended(t, Snap(), MakeHeader(CLOSURE_TAG, captured)) &&
        v.value == Snap().ContentAddress(|t.h|)
      ensures v.Some? ==> Snap().Settled() && ShowsBlank(Snap(), v.value, CLOSURE_TAG, captured)
      ensures v.Some? ==> SameView(old(Snap()), Snap(), roots, old(outer), outer)
    {
      hide Balanced, Appended, SameView, ShowsBlank, MakeHeader, GoodRoots, HonestBase, Snapshot.Settled;
      v, t, F := NewObject(MakeHeader(CLOSURE_TAG, captured), remap);
      if v.Some? {
        NewKind(t, Snap(), size, CLOSURE_TAG, captured);
      }
    }

    // The program between collections

    /** A write into an object: any word into string bytes, an s-expression tag or a closure
        entry, a good word into a field. */
    method WritePayload(p: nat, u: nat, v: Word)
      requires Valid() && p in objs && p < current && p + 2 <= u < p + SizeWords(mem[p])
      requires Snap().IsField(p, u) ==> Snap().GoodWord(v)
      modifies mem
      ensures Valid() && u < |old(Heap())| && Heap() == old(Heap())[u := v]
    {
      hide Area.Disciplined, Balanced, GoodRoots, HonestBase, Area.Fixed, Area.Marked;
      ghost var s := Snap();
      PayloadWord(s, p, u, v);
      mem[u] := v;
      assert Snap() == s.(h := s.h[u := v]);
      SameRoots(s, Snap(), roots, outer);
    }

    /** Everything the program may do to the cells outside the heap: write good words, move
        the stack top, push and pop extra roots, as long as the discipline is kept. */
    method ChangeRoots(roots': Area, outer': map<nat, Word>)
      requires Valid() && roots'.Disciplined() && GoodRoots(Snap(), roots', outer')
      modifies this`roots, this`outer
      ensures Valid() && roots == roots' && outer == outer' && Heap() == old(Heap())
    {
      hide Snapshot.Settled, Area.Disciplined, Balanced, GoodRoots, HonestBase;
      ghost var s := Snap();
      roots, outer := roots', outer';
      assert Snap() == s;
    }
  }
}

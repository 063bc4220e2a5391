/** Which cells outside the heap the collector marks from, and which it rewrites. */
module Roots {
  import opened Words
  import opened Layout
  import opened Marking
  import opened Compaction

  /** Addresses of the words from `lo` up to `hi`. */
  function Cells(lo: nat, hi: nat): (cells: seq<nat>)
    ensures forall i :: 0 <= i < |cells| ==> cells[i] == lo + 4 * i < hi
    ensures lo + 4 * |cells| >= hi
    decreases hi - lo
  {
    if lo >= hi then []
    else
      var rest := Cells(lo + 4, hi);
      var cells := [lo] + rest;
      assert forall i :: 0 < i < |cells| ==> cells[i] == rest[i - 1];
      cells
  }

  lemma CellsMember(lo: nat, hi: nat, i: nat)
    requires lo + 4 * i < hi
    ensures lo + 4 * i in Cells(lo, hi)
  {
    assert Cells(lo, hi)[i] == lo + 4 * i;
  }

  lemma CellsPrefix(lo: nat, hi: nat, more: nat)
    requires hi <= more
    ensures forall a :: a in Cells(lo, hi) ==> a in Cells(lo, more)
  {
    hide Cells;
    var cells := Cells(lo, hi);
    forall a | a in cells ensures a in Cells(lo, more) {
      var i :| 0 <= i < |cells| && cells[i] == a;
      CellsMember(lo, more, i);
    }
  }

  /** The values held by some cells. */
  ghost function Values(outer: map<nat, Word>, cells: seq<nat>): set<Word> {
    set a | a in cells && a in outer :: outer[a]
  }

  lemma ValuesAppend(outer: map<nat, Word>, cells: seq<nat>, more: seq<nat>)
    ensures Values(outer, cells + more) == Values(outer, cells) + Values(outer, more)
  {
    forall v | v in Values(outer, cells) + Values(outer, more) ensures v in Values(outer, cells + more) {
      var a :| a in cells + more && a in outer && outer[a] == v;
    }
  }

  lemma NoValues(outer: map<nat, Word>, cells: seq<nat>, V: set<Word>)
    ensures V + Values(outer, cells[..0]) == V
  {
  }

  lemma ValuesStep(outer: map<nat, Word>, cells: seq<nat>, i: nat, V: set<Word>)
    requires i < |cells| && cells[i] in outer
    ensures V + Values(outer, cells[..i + 1]) == V + Values(outer, cells[..i]) + {outer[cells[i]]}
  {
    assert cells[..i + 1] == cells[..i] + [cells[i]];
    assert Values(outer, [cells[i]]) == {outer[cells[i]]};
    ValuesAppend(outer, cells[..i], [cells[i]]);
  }

  /** Every cell of `cells` can be rewritten: a pointer in it leads to a kept object. */
  ghost predicate Rewritable(s: Snapshot, F: map<nat, nat>, outer: map<nat, Word>, cells: seq<nat>) {
    forall a :: a in cells ==>
      a in outer && s.GoodWord(outer[a]) && (s.IsPointer(outer[a]) ==> s.Target(outer[a]) in F)
  }

  /** Cells in `done` hold forwarded values, all others what they held before. */
  ghost predicate Rewritten(s: Snapshot, F: map<nat, nat>, base: nat, before: map<nat, Word>,
                            after: map<nat, Word>, done: seq<nat>) {
    && after.Keys == before.Keys
    && forall a :: a in before ==>
      after[a] == if a in done then Forward(s, F, base, before[a]) else before[a]
  }

  /** The addresses that delimit the root areas, and the extra-root pool. */
  datatype Area = Area(top: nat, bottom: nat, start: nat, stop: nat, extra: seq<nat>) {

    function StackMarked(): seq<nat> {
      Cells(top + 4, bottom)
    }

    /** One word more than is marked. */
    function StackFixed(): seq<nat> {
      Cells(top + 4, bottom + 4)
    }

    function Globals(): seq<nat> {
      Cells(start, stop)
    }

    /** The test by which `scan_and_fix_region_roots` leaves a cell to the other scans. */
    predicate Skipped(a: nat) {
      (top <= a < bottom) || (start <= a <= stop)
    }

    function Unskipped(n: nat): seq<nat>
      requires n <= |extra|
    {
      if n == 0 then [] else Unskipped(n - 1) + if Skipped(extra[n - 1]) then [] else [extra[n - 1]]
    }

    function Marked(): seq<nat> {
      StackMarked() + extra + Globals()
    }

    function Fixed(): seq<nat> {
      StackFixed() + Unskipped(|extra|) + Globals()
    }

    /** The scanned areas do not overlap, and an extra-root cell left to neither of them
        is registered once. */
    ghost predicate Separate() {
      && (forall a, b :: a in StackFixed() && b in Globals() ==> a != b)
      && (forall i :: 0 <= i < |extra| && !Skipped(extra[i]) ==> extra[i] !in StackFixed())
      && (forall i, j :: 0 <= i < j < |extra| && !Skipped(extra[i]) ==> extra[i] != extra[j])
    }

    /** An extra-root cell that is left to the other scans is met by one of them. */
    ghost predicate Covered() {
      forall i :: 0 <= i < |extra| && Skipped(extra[i]) ==>
        extra[i] in StackFixed() || extra[i] in Globals()
    }

    /** What the runtime must guarantee so that each root cell is rewritten exactly once. */
    ghost predicate Disciplined() {
      Separate() && Covered()
    }
  }

  lemma {:induction false} UnskippedMembers(r: Area, n: nat)
    requires n <= |r.extra|
    ensures forall a :: a in r.Unskipped(n) <==> exists i :: 0 <= i < n && r.extra[i] == a && !r.Skipped(a)
  {
    if n > 0 {
      UnskippedMembers(r, n - 1);
    }
  }

  lemma {:induction false} UnskippedDistinct(r: Area, n: nat)
    requires n <= |r.extra|
    ensures NoDuplicates(r.Unskipped(n)) <==>
      forall i, j :: 0 <= i < j < n && !r.Skipped(r.extra[i]) ==> r.extra[i] != r.extra[j]
  {
    if n > 0 {
      UnskippedDistinct(r, n - 1);
      UnskippedMembers(r, n - 1);
      var u, a := r.Unskipped(n - 1), r.extra[n - 1];
      if r.Skipped(a) {
        assert r.Unskipped(n) == u;
      } else {
        AppendDistinct(u, a);
        assert a in u <==> exists i :: 0 <= i < n - 1 && r.extra[i] == a;
      }
    }
  }

  lemma AppendDistinct<T>(u: seq<T>, a: T)
    ensures NoDuplicates(u + [a]) <==> NoDuplicates(u) && a !in u
  {
    var v := u + [a];
    if NoDuplicates(v) {
      forall i, j | 0 <= i < j < |u| ensures u[i] != u[j] {
        assert v[i] != v[j];
      }
      forall i | 0 <= i < |u| ensures u[i] != a {
        assert v[i] != v[|u|];
      }
    }
  }

  lemma ConcatDistinct<T>(u: seq<T>, v: seq<T>)
    ensures NoDuplicates(u + v) <==>
      NoDuplicates(u) && NoDuplicates(v) && forall a, b :: a in u && b in v ==> a != b
  {
    var w := u + v;
    if NoDuplicates(w) {
      forall i, j | 0 <= i < j < |u| ensures u[i] != u[j] {
        assert w[i] != w[j];
      }
      forall i, j | 0 <= i < j < |v| ensures v[i] != v[j] {
        assert w[|u| + i] != w[|u| + j];
      }
      forall a, b | a in u && b in v ensures a != b {
        var i :| 0 <= i < |u| && u[i] == a;
        var j :| 0 <= j < |v| && v[j] == b;
        assert w[i] != w[|u| + j];
      }
    } else {
      var i, j :| 0 <= i < j < |w| && w[i] == w[j];
      if j < |u| {
        assert u[i] == u[j];
      } else if i >= |u| {
        assert v[i - |u|] == v[j - |u|];
      } else {
        assert u[i] in u && v[j - |u|] in v;
      }
    }
  }

  lemma FixedDistinct(r: Area)
    ensures NoDuplicates(r.Fixed()) <==> r.Separate()
  {
    hide Cells, Area.Unskipped;
    var x, y, z := r.StackFixed(), r.Unskipped(|r.extra|), r.Globals();
    UnskippedMembers(r, |r.extra|);
    UnskippedDistinct(r, |r.extra|);
    ConcatDistinct(x + y, z);
    ConcatDistinct(x, y);
    assert forall a :: a in z ==> r.Skipped(a);
    assert forall a :: a in x + y <==> a in x || a in y;
  }

  lemma FixedCovers(r: Area)
    ensures (forall a :: a in r.Marked() ==> a in r.Fixed()) <==> r.Covered()
  {
    hide Cells, Area.Unskipped, Area.Skipped;
    if r.Covered() {
      forall a | a in r.Marked() ensures a in r.Fixed() {
        CellCovered(r, a);
      }
    } else {
      var i :| 0 <= i < |r.extra| && r.Skipped(r.extra[i]) && r.extra[i] !in r.StackFixed() &&
        r.extra[i] !in r.Globals();
      UnskippedMembers(r, |r.extra|);
      assert r.extra[i] in r.Marked() && r.extra[i] !in r.Fixed();
    }
  }

  lemma CellCovered(r: Area, a: nat)
    requires r.Covered() && a in r.Marked()
    ensures a in r.Fixed()
  {
    hide Cells, Area.Unskipped, Area.Skipped;
    UnskippedMembers(r, |r.extra|);
    CellsPrefix(r.top + 4, r.bottom, r.bottom + 4);
    if a in r.extra {
      var i :| 0 <= i < |r.extra| && r.extra[i] == a;
    }
  }

  /** No cell is rewritten twice and every marked cell is rewritten, exactly when the
      runtime keeps the discipline. */
  lemma FixedOnce(r: Area)
    ensures r.Disciplined() <==>
      NoDuplicates(r.Fixed()) && forall a :: a in r.Marked() ==> a in r.Fixed()
  {
    hide Area.Separate, Area.Covered;
    FixedDistinct(r);
    FixedCovers(r);
  }

  // The discipline as a test on addresses

  /** The words from `lo` up to `hi`. */
  predicate OnGrid(lo: nat, hi: nat, a: nat) {
    lo <= a < hi && (a - lo) % 4 == 0
  }

  lemma Fours(i: nat)
    ensures (4 * i) % 4 == 0
  {
  }

  lemma CellsExactly(lo: nat, hi: nat, a: nat)
    ensures a in Cells(lo, hi) <==> OnGrid(lo, hi, a)
  {
    hide Cells;
    var cells := Cells(lo, hi);
    if a in cells {
      var i :| 0 <= i < |cells| && cells[i] == a;
      Fours(i);
    } else if OnGrid(lo, hi, a) {
      var i := (a - lo) / 4;
      assert a == lo + 4 * i;
      CellsMember(lo, hi, i);
    }
  }

  lemma GridsMeet(lo: nat, hi: nat, lo': nat, hi': nat, a: nat)
    requires OnGrid(lo, hi, a) && OnGrid(lo', hi', a)
    ensures SameGrid(lo, lo') && lo < hi && lo' < hi' && lo < hi' && lo' < hi
  {
    var i, j := (a - lo) / 4, (a - lo') / 4;
    assert a == lo + 4 * i == lo' + 4 * j;
  }

  predicate SameGrid(lo: nat, lo': nat) {
    lo % 4 == lo' % 4
  }

  lemma GridStart(lo: nat, hi: nat, lo': nat)
    requires SameGrid(lo, lo') && lo <= lo' < hi
    ensures OnGrid(lo, hi, lo')
  {
    assert lo == 4 * (lo / 4) + lo % 4 && lo' == 4 * (lo' / 4) + lo' % 4;
    Fours(lo' / 4 - lo / 4);
  }

  /** The fixing scan of the stack meets the address. */
  predicate OnStack(r: Area, a: nat) {
    OnGrid(r.top + 4, r.bottom + 4, a)
  }

  predicate AmongGlobals(r: Area, a: nat) {
    OnGrid(r.start, r.stop, a)
  }

  /** Stack and globals overlap in a word of both. */
  predicate Overlap(r: Area) {
    && SameGrid(r.top + 4, r.start) && r.top < r.bottom && r.start < r.stop
    && r.top + 4 < r.stop && r.start < r.bottom + 4
  }

  /** Stack and globals are aligned differently or do not overlap; an extra root past the end
      of the stack is not on its grid; no extra root that is not skipped is registered twice. */
  predicate ApartByAddress(r: Area) {
    && !Overlap(r)
    && (forall i :: 0 <= i < |r.extra| && !r.Skipped(r.extra[i]) ==> !OnStack(r, r.extra[i]))
    && (forall i, j :: 0 <= i < j < |r.extra| && !r.Skipped(r.extra[i]) ==> r.extra[i] != r.extra[j])
  }

  /** A skipped extra root is on the grid of the stack or of the globals. */
  predicate CoveredByAddress(r: Area) {
    forall i :: 0 <= i < |r.extra| && r.Skipped(r.extra[i]) ==> OnStack(r, r.extra[i]) || AmongGlobals(r, r.extra[i])
  }

  lemma AddressOnGrids(r: Area, a: nat)
    ensures a in r.StackFixed() <==> OnStack(r, a)
    ensures a in r.Globals() <==> AmongGlobals(r, a)
  {
    hide Cells, OnGrid;
    CellsExactly(r.top + 4, r.bottom + 4, a);
    CellsExactly(r.start, r.stop, a);
  }

  lemma AreasOverlap(r: Area)
    ensures (exists a :: a in r.StackFixed() && a in r.Globals()) <==> Overlap(r)
  {
    hide OnGrid, SameGrid, Area.StackFixed, Area.Globals;
    if a :| a in r.StackFixed() && a in r.Globals() {
      AddressOnGrids(r, a);
      GridsMeet(r.top + 4, r.bottom + 4, r.start, r.stop, a);
    }
    if Overlap(r) {
      var low := if r.top + 4 < r.start then r.start else r.top + 4;
      GridStarts(r.top + 4, r.bottom + 4, r.start, r.stop);
      AddressOnGrids(r, low);
    }
  }

  lemma GridStarts(lo: nat, hi: nat, lo': nat, hi': nat)
    requires SameGrid(lo, lo') && lo < hi && lo' < hi' && lo < hi' && lo' < hi
    ensures var low := if lo < lo' then lo' else lo; OnGrid(lo, hi, low) && OnGrid(lo', hi', low)
  {
    if lo < lo' {
      GridStart(lo, hi, lo');
    } else {
      GridStart(lo', hi', lo);
    }
  }

  lemma ApartTested(r: Area)
    ensures r.Separate() <==> ApartByAddress(r)
  {
    hide Cells, Area.Skipped, OnStack, Overlap, Area.StackFixed, Area.Globals;
    AreasOverlap(r);
    forall i | 0 <= i < |r.extra| ensures r.extra[i] in r.StackFixed() <==> OnStack(r, r.extra[i]) {
      AddressOnGrids(r, r.extra[i]);
    }
  }

  lemma CoveredTested(r: Area)
    ensures r.Covered() <==> CoveredByAddress(r)
  {
    hide Cells, Area.Skipped, OnStack, AmongGlobals, Area.StackFixed, Area.Globals;
    forall i | 0 <= i < |r.extra|
      ensures r.extra[i] in r.StackFixed() <==> OnStack(r, r.extra[i])
      ensures r.extra[i] in r.Globals() <==> AmongGlobals(r, r.extra[i])
    {
      AddressOnGrids(r, r.extra[i]);
    }
  }

  /** Each marked root cell is rewritten exactly once if and only if the addresses pass these
      tests. */
  lemma DisciplineTested(r: Area)
    ensures r.Disciplined() <==> ApartByAddress(r) && CoveredByAddress(r)
    ensures NoDuplicates(r.Fixed()) <==> ApartByAddress(r)
    ensures (forall a :: a in r.Marked() ==> a in r.Fixed()) <==> CoveredByAddress(r)
  {
    hide Area.Separate, Area.Covered, Area.Fixed, Area.Marked, NoDuplicates, ApartByAddress, CoveredByAddress;
    FixedDistinct(r);
    FixedCovers(r);
    ApartTested(r);
    CoveredTested(r);
  }

  /** A root cell at `stack_top` itself is marked but never rewritten. */
  lemma TopCell(r: Area)
    requires r.top < r.bottom && r.stop < r.top && r.extra == [r.top]
    ensures r.top in r.Marked() && r.top !in r.Fixed()
  {
    hide Cells;
    UnskippedMembers(r, 1);
    assert r.top in r.extra;
  }

  /** A root cell at the word by which the stack is read past its end is rewritten twice. */
  lemma BottomCell(r: Area)
    requires r.top < r.bottom && r.stop < r.top && (r.bottom - r.top) % 4 == 0 && r.extra == [r.bottom]
    ensures r.bottom in r.Marked() && !NoDuplicates(r.Fixed())
  {
    hide Cells;
    FixedDistinct(r);
    CellsMember(r.top + 4, r.bottom + 4, (r.bottom - r.top) / 4 - 1);
    assert r.bottom in r.extra && !r.Skipped(r.extra[0]);
  }

  /** A root cell at the end of the globals is marked but never rewritten. */
  lemma StopCell(r: Area)
    requires r.start < r.stop < r.top && r.extra == [r.stop]
    ensures r.stop in r.Marked() && r.stop !in r.Fixed()
  {
    hide Cells;
    UnskippedMembers(r, 1);
    assert r.stop in r.extra;
  }

  /** A root cell that is a word of the stack or of the globals is rewritten once. */
  lemma AreaCell(r: Area, a: nat)
    requires r.stop < r.top && r.extra == [a] && (OnGrid(r.top + 4, r.bottom, a) || OnGrid(r.start, r.stop, a))
    ensures a in r.Marked() && a in r.Fixed() && NoDuplicates(r.Fixed())
  {
    hide Cells, NoDuplicates;
    assert r.Skipped(a) && a in r.extra;
    assert OnGrid(r.top + 4, r.bottom, a) ==> OnStack(r, a);
    assert a in r.Marked();
    DisciplineTested(r);
  }

  lemma {:induction false} UnskippedPrefix(r: Area, m: nat, n: nat)
    requires m <= n <= |r.extra|
    ensures r.Unskipped(m) <= r.Unskipped(n)
    decreases n
  {
    if m < n {
      UnskippedPrefix(r, m, n - 1);
    }
  }

  lemma RewrittenDomain(s: Snapshot, F: map<nat, nat>, base: nat, before: map<nat, Word>, after: map<nat, Word>,
      done: seq<nat>)
    requires Rewritten(s, F, base, before, after, done)
    ensures before.Keys == after.Keys
  {
  }

  /** The next cell still holds what it held before the rewriting started, and rewriting it
      makes the prefix one longer. */
  lemma CellReady(s: Snapshot, F: map<nat, nat>, base: nat, before: map<nat, Word>, after: map<nat, Word>,
                  done: seq<nat>, cells: seq<nat>, i: nat)
    requires i < |cells| && Rewritable(s, F, before, cells) && NoDuplicates(done + cells)
    requires Rewritten(s, F, base, before, after, done + cells[..i])
    ensures cells[i] in after && cells[i] in before && after[cells[i]] == before[cells[i]]
    ensures s.GoodWord(after[cells[i]]) && (s.IsPointer(after[cells[i]]) ==> s.Target(after[cells[i]]) in F)
    ensures var w := Forward(s, F, base, after[cells[i]]);
      0 <= w < WORD_LIMIT ==> Rewritten(s, F, base, before, after[cells[i] := w], done + cells[..i + 1])
  {
    hide Forward, Snapshot.GoodWord;
    var a := cells[i];
    var all := done + cells;
    assert a in cells;
    assert a !in done + cells[..i] by {
      assert forall j :: 0 <= j < |done| + i ==> all[j] == (done + cells[..i])[j];
      assert all[|done| + i] == a;
    }
    assert done + cells[..i + 1] == done + cells[..i] + [a];
  }

  lemma RewrittenNone(s: Snapshot, F: map<nat, nat>, base: nat, before: map<nat, Word>)
    ensures Rewritten(s, F, base, before, before, [])
  {
  }

  /** The scans in their order. */
  lemma FixedScans(r: Area)
    ensures [] + r.StackFixed() == r.StackFixed() == Cells(r.top + 4, r.bottom + 4)
    ensures r.Globals() == Cells(r.start, r.stop)
    ensures r.Fixed() == r.StackFixed() + r.Unskipped(|r.extra|) + r.Globals()
  {
    hide Cells, Area.Unskipped;
    AfterNothing(r.StackFixed());
  }

  lemma AfterNothing<T>(s: seq<T>)
    ensures [] + s == s
  {
  }

  lemma FixedParts(s: Snapshot, F: map<nat, nat>, outer: map<nat, Word>, r: Area)
    requires r.Disciplined() && Rewritable(s, F, outer, r.Fixed())
    ensures NoDuplicates(r.StackFixed()) && NoDuplicates(r.StackFixed() + r.Unskipped(|r.extra|))
    ensures NoDuplicates(r.Fixed())
    ensures Rewritable(s, F, outer, r.StackFixed()) && Rewritable(s, F, outer, r.Unskipped(|r.extra|))
    ensures Rewritable(s, F, outer, r.Globals())
    ensures forall a :: a in r.extra ==> a in outer
  {
    hide Cells, Snapshot.GoodWord, NoDuplicates, Area.Disciplined;
    FixedOnce(r);
    ConcatDistinct(r.StackFixed() + r.Unskipped(|r.extra|), r.Globals());
    ConcatDistinct(r.StackFixed(), r.Unskipped(|r.extra|));
    forall a | a in r.extra ensures a in outer {
      assert a in r.Marked();
    }
  }
}

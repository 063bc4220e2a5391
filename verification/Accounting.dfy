/** The sizing policy over whole runs: how large the heap gets and how much work all the
    collections do together. */
module Accounting {
  import opened Wrappers

  const MINIMUM_HEAP_CAPACITY := 4
  const EXTRA_ROOM_HEAP_COEFFICIENT := 2

  /** One collection: words in use when it started, words live, words requested. */
  datatype Cycle = Cycle(used: nat, live: nat, request: nat)

  /** Heap size in words after a collection: the least size that is no smaller than before,
      than the minimum, or than the demand. */
  function NextSize(live: nat, additional: nat, size: nat): (next: nat)
    ensures size <= next && MINIMUM_HEAP_CAPACITY <= next && 2 * live + additional <= next
    ensures next == size || next == MINIMUM_HEAP_CAPACITY || next == 2 * live + additional
  {
    Max(Max(live * EXTRA_ROOM_HEAP_COEFFICIENT + additional, MINIMUM_HEAP_CAPACITY), size)
  }

  ghost function SumUsed(cycles: seq<Cycle>): nat {
    if cycles == [] then 0 else SumUsed(cycles[..|cycles| - 1]) + cycles[|cycles| - 1].used
  }

  ghost function LastLive(cycles: seq<Cycle>): nat {
    if cycles == [] then 0 else cycles[|cycles| - 1].live
  }

  ghost function LastRequest(cycles: seq<Cycle>): nat {
    if cycles == [] then 0 else cycles[|cycles| - 1].request
  }

  /** `size` is the largest demand of any collection so far, or the minimum capacity. */
  ghost predicate IsPeak(cycles: seq<Cycle>, size: nat) {
    && size >= MINIMUM_HEAP_CAPACITY
    && (forall c :: c in cycles ==> 2 * c.live + c.request <= size)
    && (size == MINIMUM_HEAP_CAPACITY || exists c :: c in cycles && 2 * c.live + c.request == size)
  }

  /** Invariant over a run: `total` words have been handed out in all, `current` are in
      use. Words allocated since the last collection pay for scanning what it left. */
  ghost predicate Balanced(cycles: seq<Cycle>, total: nat, current: nat, size: nat) {
    var live, request := LastLive(cycles), LastRequest(cycles);
    && IsPeak(cycles, size)
    && live + request <= current <= size
    && SumUsed(cycles) + 2 * (current - live) <= 2 * total + request
  }

  lemma BalancedAlloc(cycles: seq<Cycle>, total: nat, current: nat, size: nat, n: nat)
    requires Balanced(cycles, total, current, size) && current + n <= size
    ensures Balanced(cycles, total + n, current + n, size)
  {
  }

  /** A collection that was needed, followed by the allocation it was for. The allocation
      fits, and the scanning done so far is paid for by what had been allocated. */
  lemma BalancedCollect(cycles: seq<Cycle>, total: nat, current: nat, size: nat, live: nat, n: nat)
    requires Balanced(cycles, total, current, size) && current + n > size
    requires live <= current
    ensures var cycles' := cycles + [Cycle(current, live, n)];
      var size' := NextSize(live, n, size);
      && live + n <= size'
      && SumUsed(cycles') <= 2 * total + n
      && Balanced(cycles', total + n, live + n, size')
  {
    var c := Cycle(current, live, n);
    var cycles' := cycles + [c];
    assert cycles'[..|cycles|] == cycles;
    assert c in cycles';
    forall d | d in cycles ensures d in cycles' {
    }
    var size' := NextSize(live, n, size);
    if size' == size && size != MINIMUM_HEAP_CAPACITY {
      var d :| d in cycles && 2 * d.live + d.request == size;
      assert d in cycles';
    }
  }
}

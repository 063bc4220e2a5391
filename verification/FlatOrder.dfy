/** `flatCompare`, the comparison of identities that keys the classes of `=?=`. Words are
    signed 32-bit; an odd word is an integer, an even one an address. */
module FlatOrder {

  const HALF: int := 0x4000_0000

  predicate IsWord(n: int) {
    -2 * HALF <= n < 2 * HALF
  }

  /** What is left of a difference after boxing: 31 bits, signed. */
  function Boxed(n: int): int {
    var m := n % (2 * HALF);
    if m >= HALF then m - 2 * HALF else m
  }

  /** The test of the second word is `~UNBOXED(q)`, which is never zero: a difference is
      taken whenever the first word is an address. */
  function FlatCompare(p: int, q: int): int {
    if p % 2 == 1 then (if q % 2 == 1 then Boxed(p / 2 - q / 2) else -1)
    else Boxed(p - q)
  }

  function Sign(n: int): int {
    if n < 0 then -1 else if n > 0 then 1 else 0
  }

  // What boxing does to the difference of two words

  /** Differences that come out negative. */
  predicate Negative(d: int) {
    -3 * HALF <= d < -2 * HALF || -HALF <= d < 0 || HALF <= d < 2 * HALF || 3 * HALF <= d
  }

  /** Differences that come out zero. */
  predicate Vanishes(d: int) {
    d == 0 || d == 2 * HALF || d == -2 * HALF
  }

  /** Differences whose sign survives. */
  predicate Keeps(d: int) {
    -3 * HALF <= d < -2 * HALF || -HALF <= d < HALF || 2 * HALF < d < 3 * HALF
  }

  lemma BoxedSign(d: int)
    requires -4 * HALF < d < 4 * HALF
    ensures Sign(Boxed(d)) == if Negative(d) then -1 else if Vanishes(d) then 0 else 1
    ensures Boxed(d) == -HALF <==> d == HALF || d == -HALF || d == 3 * HALF || d == -3 * HALF
  {
    var k := if d < -2 * HALF then -2 else if d < 0 then -1 else if d < 2 * HALF then 0 else 1;
    Remainder(d, k);
  }

  lemma Remainder(d: int, k: int)
    requires 0 <= d - k * (2 * HALF) < 2 * HALF
    ensures d % (2 * HALF) == d - k * (2 * HALF)
  {
  }

  /** The difference that is boxed for two words of one kind. */
  function Gap(p: int, q: int): int {
    if p % 2 == 1 && q % 2 == 1 then p / 2 - q / 2 else p - q
  }

  // Main results

  /** When the comparison is the order of the words. */
  lemma FlatCompareOrders(p: int, q: int)
    requires IsWord(p) && IsWord(q)
    ensures Sign(FlatCompare(p, q)) == Sign(p - q) <==>
      if p % 2 == 1 && q % 2 == 0 then p < q else Keeps(Gap(p, q))
  {
    BoxedSign(Gap(p, q));
  }

  /** When each of two words counts as less than the other. */
  lemma FlatCompareContradicts(p: int, q: int)
    requires IsWord(p) && IsWord(q)
    ensures FlatCompare(p, q) < 0 && FlatCompare(q, p) < 0 <==>
      if p % 2 == 1 && q % 2 == 0 then Negative(q - p)
      else if p % 2 == 0 && q % 2 == 1 then Negative(p - q)
      else Gap(p, q) in {HALF, -HALF, 3 * HALF, -3 * HALF}
  {
    BoxedSign(Gap(p, q));
    BoxedSign(Gap(q, p));
  }

  /** When two words count as equal: equal words, and addresses 2^31 apart. */
  lemma FlatCompareEqual(p: int, q: int)
    requires IsWord(p) && IsWord(q)
    ensures FlatCompare(p, q) == 0 <==> p == q || (p % 2 == 0 && (p - q == 2 * HALF || q - p == 2 * HALF))
  {
    BoxedSign(Gap(p, q));
  }

  /** When two addresses are compared as they lie, both ways. */
  lemma AddressesOrdered(p: int, q: int)
    requires IsWord(p) && IsWord(q) && p % 2 == 0 && q % 2 == 0
    ensures (Sign(FlatCompare(p, q)) == Sign(p - q) && Sign(FlatCompare(q, p)) == Sign(q - p)) <==>
      -HALF < p - q < HALF || 2 * HALF < p - q < 3 * HALF || 2 * HALF < q - p < 3 * HALF
  {
    FlatCompareOrders(p, q);
    FlatCompareOrders(q, p);
  }

  // Words that fail

  /** The integer 0 and an address above it, and one below it. */
  lemma IntegersContradict()
    ensures FlatCompare(1, 0x5000_0000) < 0 && FlatCompare(0x5000_0000, 1) < 0
    ensures FlatCompare(1, -0x1000) < 0 && FlatCompare(-0x1000, 1) < 0
  {
  }

  /** Two different addresses, one identity. */
  lemma AddressesCollide()
    ensures FlatCompare(0x4000_0000, -0x4000_0000) == 0
  {
  }

  /** Two addresses, each less than the other; and two integers. */
  lemma FarWordsContradict()
    ensures FlatCompare(0x4000_0000, 0) < 0 && FlatCompare(0, 0x4000_0000) < 0
    ensures FlatCompare(0x4000_0001, -0x3fff_ffff) < 0 && FlatCompare(-0x3fff_ffff, 0x4000_0001) < 0
  {
  }
}

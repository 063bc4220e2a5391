/** Types and small functions used throughout. */
module Wrappers {

  datatype Option<+T> = None | Some(value: T)

  function Max(a: nat, b: nat): nat {
    if a > b then a else b
  }

  function Reverse<T>(s: seq<T>): (r: seq<T>)
    ensures |r| == |s|
    ensures forall i :: 0 <= i < |s| ==> r[i] == s[|s| - 1 - i]
  {
    seq(|s|, i requires 0 <= i < |s| => s[|s| - 1 - i])
  }

  lemma ReverseSnoc<T>(vs: seq<T>, v: T)
    ensures Reverse(vs + [v]) == [v] + Reverse(vs)
  {
  }

  lemma ReverseTwice<T>(vs: seq<T>)
    ensures Reverse(Reverse(vs)) == vs
  {
  }
}

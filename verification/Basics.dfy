/** The value of a step that may have none. */
module Options {
  datatype Option<T> = None | Some(value: T)
}

/** Counts and positions. */
module Naturals {

  function Product(a: nat, b: nat): (r: nat)
    ensures r == a * b
  {
    NotNegative(a, b);
    a * b
  }

  lemma {:induction false} NotNegative(a: nat, b: nat)
    ensures a * b >= 0
  {
  }

  function Min(a: int, b: int): int {
    if a < b then a else b
  }

  function Max(a: int, b: int): int {
    if a < b then b else a
  }

  /** At most one apart. */
  ghost predicate Near(a: int, b: int) {
    -1 <= a - b <= 1
  }
}

/** Sequences of reals, entry by entry. */
module Entrywise {

  function Zeros(n: nat): (z: seq<real>)
    ensures |z| == n && forall i :: 0 <= i < n ==> z[i] == 0.0
  {
    seq(n, _ => 0.0)
  }

  function Plus(p: seq<real>, q: seq<real>): (r: seq<real>)
    requires |p| == |q|
    ensures |r| == |p| && forall i :: 0 <= i < |p| ==> r[i] == p[i] + q[i]
  {
    seq(|p|, i requires 0 <= i < |p| == |q| => p[i] + q[i])
  }

  function Minus(p: seq<real>, q: seq<real>): (r: seq<real>)
    requires |p| == |q|
    ensures |r| == |p| && forall i :: 0 <= i < |p| ==> r[i] == p[i] - q[i]
  {
    seq(|p|, i requires 0 <= i < |p| == |q| => p[i] - q[i])
  }

  ghost predicate NonNegative(s: seq<real>) {
    forall i :: 0 <= i < |s| ==> s[i] >= 0.0
  }
}

/** Definitions shared by all components. */
module Basics {

  datatype Option<T> = None | Some(value: T)

  datatype Result<T> = Ok(value: T) | Err(error: string)

  predicate NoDup<T(==)>(xs: seq<T>)
  {
    forall i, j :: 0 <= i < j < |xs| ==> xs[i] != xs[j]
  }

  /** `x` occurs in `xs` at exactly one position. */
  ghost predicate OnceIn<T>(xs: seq<T>, x: T)
  {
    exists k :: 0 <= k < |xs| && xs[k] == x && (forall j :: 0 <= j < |xs| && xs[j] == x ==> j == k)
  }

  function Min(a: nat, b: nat): nat
  {
    if a < b then a else b
  }

  lemma MulMono(a: nat, b: nat, y: nat)
    requires a <= b
    ensures a * y <= b * y
  {
    assert b * y == a * y + (b - a) * y;
  }
}

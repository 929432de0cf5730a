/** Sums of the ranks that progress proofs add up. */
module Sums {
  ghost function Sum(xs: seq<nat>): nat
  {
    if xs == [] then 0 else Sum(xs[..|xs| - 1]) + xs[|xs| - 1]
  }

  lemma {:induction false} SumUpdate(xs: seq<nat>, i: nat, y: nat)
    requires i < |xs|
    ensures Sum(xs[i := y]) == Sum(xs) - xs[i] + y
  {
    var n := |xs| - 1;
    if i == n {
      assert xs[i := y][..n] == xs[..n];
    } else {
      SumUpdate(xs[..n], i, y);
      assert xs[i := y][..n] == xs[..n][i := y];
    }
  }

  lemma {:induction false} SumAtMost(xs: seq<nat>, ys: seq<nat>)
    requires |xs| == |ys| && forall i :: 0 <= i < |xs| ==> xs[i] <= ys[i]
    ensures Sum(xs) <= Sum(ys)
  {
    if xs == [] {
    } else {
      SumAtMost(xs[..|xs| - 1], ys[..|ys| - 1]);
    }
  }

  lemma {:induction false} SumConstant(xs: seq<nat>, c: nat)
    requires forall i :: 0 <= i < |xs| ==> xs[i] == c
    ensures Sum(xs) == |xs| * c
  {
    if xs == [] {
    } else {
      SumConstant(xs[..|xs| - 1], c);
      assert |xs| * c == (|xs| - 1) * c + c;
    }
  }

  lemma {:induction false} SumRaised(xs: seq<nat>, ys: seq<nat>, c: nat)
    requires |xs| == |ys| && forall i :: 0 <= i < |xs| ==> xs[i] <= ys[i] + c
    ensures Sum(xs) <= Sum(ys) + Scaled(|xs|, c)
  {
    if xs == [] {
    } else {
      SumRaised(xs[..|xs| - 1], ys[..|ys| - 1], c);
      ScaledNext(|xs| - 1, c);
    }
  }

  /** `n` times the cost `c`. */
  function Scaled(n: nat, c: nat): nat
  {
    n * c
  }

  lemma ScaledNext(n: nat, c: nat)
    ensures Scaled(n + 1, c) == Scaled(n, c) + c
  {
  }
}

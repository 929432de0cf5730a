/**
  Comparators, sortedness and order statistics.

  The runtime is handed a comparison function by generated code. `std::sort`,
  `std::lower_bound` and the heap all rely on it being a strict weak order;
  nothing else is known about it, so every theorem here is for all such orders.
*/
module Orders {

  /** Irreflexive, transitive, and with transitive incomparability. */
  ghost predicate StrictWeakOrder<T(!new)>(less: (T, T) -> bool)
  {
    forall x, y, z :: OrderLaws(less, x, y, z)
  }

  /** The laws at three elements; proofs name the triples they need. */
  ghost predicate OrderLaws<T>(less: (T, T) -> bool, x: T, y: T, z: T)
  {
    && !less(x, x)
    && (less(x, y) && less(y, z) ==> less(x, z))
    && (!less(x, y) && !less(y, z) ==> !less(x, z))
  }

  ghost predicate Sorted<T>(less: (T, T) -> bool, s: seq<T>)
  {
    SortedRange(less, s, 0, |s|)
  }

  ghost predicate SortedRange<T>(less: (T, T) -> bool, s: seq<T>, lo: nat, hi: nat)
    requires hi <= |s|
  {
    forall p, q :: lo <= p < q < hi ==> !less(s[q], s[p])
  }

  /** `p` is what std::lower_bound returns for `v` in the sorted range [lo, hi). */
  ghost predicate IsLowerBound<T>(less: (T, T) -> bool, s: seq<T>, lo: nat, hi: nat, v: T, p: nat)
    requires hi <= |s|
  {
    && lo <= p <= hi
    && (forall q :: lo <= q < p ==> less(s[q], v))
    && (forall q :: p <= q < hi ==> !less(s[q], v))
  }

  /** Raising the probed value never moves the lower bound to the left. */
  lemma LowerBoundMonotone<T(!new)>(less: (T, T) -> bool, s: seq<T>, lo: nat, hi: nat, v: T, p: nat, w: T, q: nat)
    requires StrictWeakOrder(less)
    requires hi <= |s|
    requires IsLowerBound(less, s, lo, hi, v, p) && IsLowerBound(less, s, lo, hi, w, q)
    requires !less(w, v)
    ensures p <= q
  {
    if q < |s| {
      var x := s[q];
      assert q < p ==> less(x, v);
      assert OrderLaws(less, x, w, v);
    }
  }

  // ----- A sort on values, standing for std::sort -----

  function Insert<T>(less: (T, T) -> bool, x: T, s: seq<T>): (r: seq<T>)
    ensures multiset(r) == multiset(s) + multiset{x}
    ensures |r| == |s| + 1
  {
    if s == [] then [x]
    else if less(x, s[0]) then [x] + s
    else
      assert s == [s[0]] + s[1..];
      [s[0]] + Insert(less, x, s[1..])
  }

  function InsertionSort<T>(less: (T, T) -> bool, s: seq<T>): (r: seq<T>)
    ensures multiset(r) == multiset(s)
    ensures |r| == |s|
  {
    if s == [] then []
    else
      assert s == [s[0]] + s[1..];
      Insert(less, s[0], InsertionSort(less, s[1..]))
  }

  lemma {:induction false} InsertSorted<T(!new)>(less: (T, T) -> bool, x: T, s: seq<T>)
    requires StrictWeakOrder(less) && Sorted(less, s)
    ensures Sorted(less, Insert(less, x, s))
  {
    assert forall q :: 0 <= q < |s| && less(x, s[0]) ==> OrderLaws(less, s[q], x, s[0]);
    if s == [] || less(x, s[0]) {
    } else {
      var t := Insert(less, x, s[1..]);
      InsertSorted(less, x, s[1..]);
      forall q | 0 <= q < |t|
        ensures !less(t[q], s[0])
      {
        assert t[q] in multiset(t);
        assert t[q] in multiset(s[1..]) + multiset{x};
      }
    }
  }

  lemma {:induction false} InsertionSortSorted<T(!new)>(less: (T, T) -> bool, s: seq<T>)
    requires StrictWeakOrder(less)
    ensures Sorted(less, InsertionSort(less, s))
  {
    if s == [] {
    } else {
      InsertionSortSorted(less, s[1..]);
      InsertSorted(less, s[0], InsertionSort(less, s[1..]));
    }
  }

  // ----- Order statistics -----

  ghost function Count<T>(p: T -> bool, s: seq<T>): nat
  {
    if s == [] then 0 else (if p(s[0]) then 1 else 0) + Count(p, s[1..])
  }

  lemma {:induction false} CountAppend<T>(p: T -> bool, s: seq<T>, t: seq<T>)
    ensures Count(p, s + t) == Count(p, s) + Count(p, t)
  {
    if s == [] {
      assert s + t == t;
    } else {
      assert (s + t)[1..] == s[1..] + t;
      CountAppend(p, s[1..], t);
    }
  }

  /** Counting does not depend on the order of the elements. */
  lemma RestPermutation<T>(s: seq<T>, t: seq<T>, k: nat)
    requires s != [] && k < |t| && multiset(s) == multiset(t) && t[k] == s[0]
    ensures multiset(t[..k] + t[k + 1..]) == multiset(s[1..])
  {
    assert t == t[..k] + ([t[k]] + t[k + 1..]);
    assert s == [s[0]] + s[1..];
    assert multiset(t[..k] + t[k + 1..]) == multiset(t) - multiset{t[k]};
    assert multiset(s[1..]) == multiset(s) - multiset{s[0]};
  }

  lemma {:induction false} CountPermutation<T>(p: T -> bool, s: seq<T>, t: seq<T>)
    requires multiset(s) == multiset(t)
    ensures Count(p, s) == Count(p, t)
    decreases |s|
  {
    if s == [] {
      assert |multiset(t)| == 0;
    } else {
      assert s[0] in multiset(t);
      var k :| 0 <= k < |t| && t[k] == s[0];
      var rest := t[..k] + t[k + 1..];
      RestPermutation(s, t, k);
      assert t == t[..k] + ([t[k]] + t[k + 1..]);
      CountPermutation(p, s[1..], rest);
      CountAppend(p, t[..k], t[k + 1..]);
      CountAppend(p, t[..k], [t[k]] + t[k + 1..]);
      assert ([t[k]] + t[k + 1..])[1..] == t[k + 1..];
    }
  }

  lemma {:induction false} CountWeaken<T>(p: T -> bool, s: seq<T>, q: T -> bool, t: seq<T>)
    requires |s| == |t|
    requires forall i :: 0 <= i < |s| && p(s[i]) ==> q(t[i])
    ensures Count(p, s) <= Count(q, t)
  {
    if s == [] {
    } else {
      CountWeaken(p, s[1..], q, t[1..]);
    }
  }

  lemma {:induction false} CountAtLeast<T>(p: T -> bool, s: seq<T>, k: nat)
    requires k <= |s| && forall i :: 0 <= i < k ==> p(s[i])
    ensures Count(p, s) >= k
  {
    if k == 0 {
    } else {
      CountAtLeast(p, s[1..], k - 1);
    }
  }

  lemma {:induction false} CountAtMost<T>(p: T -> bool, s: seq<T>, k: nat)
    requires k <= |s| && forall i :: k <= i < |s| ==> !p(s[i])
    ensures Count(p, s) <= k
  {
    if s == [] {
    } else {
      CountAtMost(p, s[1..], if k == 0 then 0 else k - 1);
    }
  }

  /**
    Pointwise domination carries over to order statistics: if every u[i] is at
    most v[i], then the k-th smallest of u is at most the k-th smallest of v.
  */
  lemma OrderStatisticDomination<T(!new)>(less: (T, T) -> bool, u: seq<T>, v: seq<T>, su: seq<T>, sv: seq<T>, k: nat)
    requires StrictWeakOrder(less)
    requires |u| == |v| && forall i :: 0 <= i < |u| ==> !less(v[i], u[i])
    requires multiset(su) == multiset(u) && Sorted(less, su)
    requires multiset(sv) == multiset(v) && Sorted(less, sv)
    requires |su| == |u| && |sv| == |v| && k < |u|
    ensures !less(sv[k], su[k])
  {
    if less(sv[k], su[k]) {
      var x := su[k];
      var below := (y: T) => less(y, x);
      assert forall i :: 0 <= i < |sv| ==> OrderLaws(less, sv[k], sv[i], x);
      assert forall i :: 0 <= i < |u| ==> OrderLaws(less, v[i], u[i], x);
      assert OrderLaws(less, x, x, x);
      CountAtLeast(below, sv, k + 1);
      CountPermutation(below, sv, v);
      CountWeaken(below, v, below, u);
      CountPermutation(below, u, su);
      CountAtMost(below, su, k);
      assert false;
    }
  }
}

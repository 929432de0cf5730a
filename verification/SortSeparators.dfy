/**
  Parallel sort, separator phase (src/runtime/Sorting.cpp): medians of the local
  separators, lower bounds in every split, and the grid of cuts they define.
*/
module SortSeparators {
  import opened Orders
  import opened SortLocal
  import opened SortSegments
  import opened Tickets

  // ----- Phase 2: global separators -----

  /** Positions compared by the value they point at; positions outside the vector come first. */
  function ByValue<T>(less: (T, T) -> bool, s: seq<T>): (nat, nat) -> bool
  {
    (l: nat, r: nat) => r < |s| && (l < |s| ==> less(s[l], s[r]))
  }

  lemma ByValueOrder<T(!new)>(less: (T, T) -> bool, s: seq<T>)
    requires StrictWeakOrder(less)
    ensures StrictWeakOrder(ByValue(less, s))
  {
    var order := ByValue(less, s);
    forall x: nat, y: nat, z: nat
      ensures OrderLaws(order, x, y, z)
    {
      assert x < |s| ==> OrderLaws(less, s[x], s[x], s[x]);
      assert x < |s| && y < |s| && z < |s| ==> OrderLaws(less, s[x], s[y], s[z]);
    }
  }

  ghost predicate IsMedian(less: (nat, nat) -> bool, ps: seq<nat>, g: nat)
  {
    ps != [] && exists t: seq<nat> :: SortedPermutation(less, ps, t) && t[|t| / 2] == g
  }

  ghost predicate SortedPermutation(less: (nat, nat) -> bool, ps: seq<nat>, t: seq<nat>)
  {
    multiset(t) == multiset(ps) && |t| == |ps| && Sorted(less, t)
  }

  ghost function Column(states: seq<Split>, j: nat): seq<nat>
    requires forall i :: 0 <= i < |states| ==> j < |states[i].localSeparators|
  {
    seq(|states|, i requires 0 <= i < |states| => states[i].localSeparators[j])
  }

  method LowerBound<T(!new)>(a: array<T>, lo: nat, hi: nat, v: T, less: (T, T) -> bool) returns (p: nat)
    requires StrictWeakOrder(less) && lo <= hi <= a.Length && SortedRange(less, a[..], lo, hi)
    ensures IsLowerBound(less, a[..], lo, hi, v, p)
  {
    p := lo;
    var q := hi;
    while p < q
      invariant lo <= p <= q <= hi
      invariant forall r :: lo <= r < p ==> less(a[r], v)
      invariant forall r :: q <= r < hi ==> !less(a[r], v)
    {
      var mid := p + (q - p) / 2;
      if less(a[mid], v) {
        forall r | lo <= r < mid
          ensures less(a[r], v)
        {
          assert !less(a[..][mid], a[..][r]);
          assert OrderLaws(less, a[mid], a[r], v);
        }
        p := mid + 1;
      } else {
        forall r | mid < r < hi
          ensures !less(a[r], v)
        {
          assert !less(a[..][r], a[..][mid]);
          assert OrderLaws(less, a[r], a[mid], v);
        }
        q := mid;
      }
    }
  }

  /**
    Separator `j` of every split is the lower bound of one common value, the median of the
    splits' j-th local separators.
  */
  ghost predicate Aligned<T>(less: (T, T) -> bool, s: seq<T>, states: seq<Split>, j: nat)
  {
    && (forall i :: 0 <= i < |states| ==>
         states[i].end <= |s| && j < |states[i].localSeparators| && j < |states[i].globalSeparators|)
    && exists g :: AlignedAt(less, s, states, j, g)
  }

  ghost predicate AlignedAt<T>(less: (T, T) -> bool, s: seq<T>, states: seq<Split>, j: nat, g: nat)
    requires forall i :: 0 <= i < |states| ==>
         states[i].end <= |s| && j < |states[i].localSeparators| && j < |states[i].globalSeparators|
  {
    && g < |s| && IsMedian(ByValue(less, s), Column(states, j), g)
    && forall i :: 0 <= i < |states| ==>
         IsLowerBound(less, s, states[i].begin, states[i].end, s[g], states[i].globalSeparators[j])
  }

  lemma MediansDominated(order: (nat, nat) -> bool, u: seq<nat>, v: seq<nat>, g: nat, h: nat)
    requires StrictWeakOrder(order)
    requires |u| == |v| && forall k :: 0 <= k < |u| ==> !order(v[k], u[k])
    requires IsMedian(order, u, g) && IsMedian(order, v, h)
    ensures !order(h, g)
  {
    var su: seq<nat> :| SortedPermutation(order, u, su) && su[|su| / 2] == g;
    var sv: seq<nat> :| SortedPermutation(order, v, sv) && sv[|sv| / 2] == h;
    OrderStatisticDomination(order, u, v, su, sv, |u| / 2);
  }

  /** The separators of every split are non-decreasing, because dominated vectors have dominated medians. */
  lemma SeparatorsSorted<T(!new)>(less: (T, T) -> bool, s: seq<T>, b: seq<nat>, m: nat, k: nat, sp: Split, j: nat)
    requires StrictWeakOrder(less) && LocallySorted(less, s, b, m, k, sp) && j + 1 < m
    ensures !less(s[sp.localSeparators[j + 1]], s[sp.localSeparators[j]])
  {
    var x := s[sp.localSeparators[j]];
    assert OrderLaws(less, x, x, x);
  }

  lemma SeparatorsMonotone<T(!new)>(less: (T, T) -> bool, s: seq<T>, b: seq<nat>, m: nat, states: seq<Split>, j: nat,
      i: nat)
    requires StrictWeakOrder(less) && j + 1 < m
    requires forall k :: 0 <= k < |states| ==> LocallySorted(less, s, b, m, k, states[k])
    requires Aligned(less, s, states, j) && Aligned(less, s, states, j + 1)
    requires i < |states|
    ensures states[i].globalSeparators[j] <= states[i].globalSeparators[j + 1]
  {
    var g: nat :| AlignedAt(less, s, states, j, g);
    var h: nat :| AlignedAt(less, s, states, j + 1, h);
    var u, v := Column(states, j), Column(states, j + 1);
    var order := ByValue(less, s);
    ByValueOrder(less, s);
    forall k | 0 <= k < |states|
      ensures !order(v[k], u[k])
    {
      assert LocallySorted(less, s, b, m, k, states[k]);
      SeparatorsSorted(less, s, b, m, k, states[k], j);
    }
    hide StrictWeakOrder, LocallySorted, IsMedian;
    MediansDominated(order, u, v, g, h);
    LowerBoundMonotone(less, s, states[i].begin, states[i].end,
      s[g], states[i].globalSeparators[j], s[h], states[i].globalSeparators[j + 1]);
  }

  /** Every split is sorted and every separator column below `m` is aligned. */
  ghost predicate Partitioned<T>(less: (T, T) -> bool, s: seq<T>, b: seq<nat>, m: nat, states: seq<Split>)
  {
    && Bounds(b, |s|) && |states| == |b| - 1 && m > 0
    && (forall i :: 0 <= i < |states| ==>
      LocallySorted(less, s, b, m, i, states[i]) && |states[i].globalSeparators| == m)
    && (forall j :: 0 <= j < m ==> Aligned(less, s, states, j))
  }

  /** `r` is `states` with separator `j` written in every split. */
  ghost predicate OnlyColumn(states: seq<Split>, r: seq<Split>, j: nat)
  {
    && |r| == |states|
    && forall i :: 0 <= i < |r| ==>
      && j < |states[i].globalSeparators| == |r[i].globalSeparators|
      && r[i] == states[i].(globalSeparators := states[i].globalSeparators[j := r[i].globalSeparators[j]])
  }

  lemma LocalFrame<T>(less: (T, T) -> bool, s: seq<T>, b: seq<nat>, m: nat, states: seq<Split>, r: seq<Split>, j: nat)
    requires OnlyColumn(states, r, j)
    requires forall i :: 0 <= i < |states| ==>
      LocallySorted(less, s, b, m, i, states[i]) && |states[i].globalSeparators| == m
    ensures |r| == |states|
    ensures forall i :: 0 <= i < |r| ==> LocallySorted(less, s, b, m, i, r[i]) && |r[i].globalSeparators| == m
  {
    hide SortedRange;
    forall i | 0 <= i < |r|
      ensures LocallySorted(less, s, b, m, i, r[i]) && |r[i].globalSeparators| == m
    {
      assert LocallySorted(less, s, b, m, i, states[i]);
    }
  }

  lemma AlignedFrame<T>(less: (T, T) -> bool, s: seq<T>, states: seq<Split>, r: seq<Split>, j: nat, k: nat)
    requires OnlyColumn(states, r, j) && j != k
    requires Aligned(less, s, states, k)
    ensures Aligned(less, s, r, k)
  {
    assert forall i :: 0 <= i < |r| ==> r[i].globalSeparators[k] == states[i].globalSeparators[k];
    assert Column(r, k) == Column(states, k);
    var g: nat :| AlignedAt(less, s, states, k, g);
    assert AlignedAt(less, s, r, k, g);
  }

  method CollectColumn(states: seq<Split>, j: nat) returns (samePos: seq<nat>)
    requires forall i :: 0 <= i < |states| ==> j < |states[i].localSeparators|
    ensures samePos == Column(states, j)
  {
    samePos := [];
    for i := 0 to |states|
      invariant samePos == Column(states, j)[..i]
    {
      samePos := samePos + [states[i].localSeparators[j]];
    }
  }

  method Median<T(!new)>(s: seq<T>, less: (T, T) -> bool, ps: seq<nat>) returns (g: nat)
    requires StrictWeakOrder(less) && ps != []
    ensures IsMedian(ByValue(less, s), ps, g) && g in ps
  {
    var byValue := ByValue(less, s);
    var sorted := InsertionSort(byValue, ps);
    assert SortedPermutation(byValue, ps, sorted) by {
      ByValueOrder(less, s);
      InsertionSortSorted(byValue, ps);
    }
    g := sorted[|sorted| / 2];
    assert g in multiset(sorted);
  }

  lemma BecomesAligned<T>(less: (T, T) -> bool, s: seq<T>, states: seq<Split>, r: seq<Split>, j: nat, g: nat)
    requires OnlyColumn(states, r, j) && g < |s|
    requires forall i :: 0 <= i < |states| ==> states[i].end <= |s| && j < |states[i].localSeparators|
    requires IsMedian(ByValue(less, s), Column(states, j), g)
    requires forall i :: 0 <= i < |states| ==>
      IsLowerBound(less, s, states[i].begin, states[i].end, s[g], r[i].globalSeparators[j])
    ensures Aligned(less, s, r, j)
  {
    assert Column(r, j) == Column(states, j);
    assert AlignedAt(less, s, r, j, g);
  }

  method SepSearchTicket<T(!new)>(a: array<T>, less: (T, T) -> bool, ghost b: seq<nat>, m: nat, states: seq<Split>,
      j: nat)
    returns (r: seq<Split>)
    requires StrictWeakOrder(less) && states != [] && j < m
    requires forall i :: 0 <= i < |states| ==>
      LocallySorted(less, a[..], b, m, i, states[i]) && |states[i].globalSeparators| == m
    ensures OnlyColumn(states, r, j)
    ensures Aligned(less, a[..], r, j)
  {
    hide StrictWeakOrder, IsMedian, IsLowerBound, Aligned, SortedRange, ByValue;
    forall i | 0 <= i < |states|
      ensures LocalShape(less, a[..], m, states[i])
    {
      assert LocallySorted(less, a[..], b, m, i, states[i]);
    }
    hide LocallySorted;
    var samePos := CollectColumn(states, j);
    var g := Median(a[..], less, samePos);
    assert exists i :: 0 <= i < |states| && g == states[i].localSeparators[j];
    r := states;
    for i := 0 to |states|
      invariant OnlyColumn(states, r, j)
      invariant forall k :: 0 <= k < i ==>
        IsLowerBound(less, a[..], states[k].begin, states[k].end, a[..][g], r[k].globalSeparators[j])
    {
      assert LocalShape(less, a[..], m, states[i]);
      ColumnAt(states, r, j, i);
      hide OnlyColumn;
      var p := LowerBound(a, r[i].begin, r[i].end, a[g], less);
      ColumnPut(states, r, j, i, p);
      r := r[i := r[i].(globalSeparators := r[i].globalSeparators[j := p])];
    }
    BecomesAligned(less, a[..], states, r, j, g);
  }

  lemma ColumnAt(states: seq<Split>, r: seq<Split>, j: nat, i: nat)
    requires OnlyColumn(states, r, j) && i < |r|
    ensures j < |r[i].globalSeparators| && r[i].begin == states[i].begin && r[i].end == states[i].end
  {
  }

  lemma ColumnPut(states: seq<Split>, r: seq<Split>, j: nat, i: nat, p: nat)
    requires OnlyColumn(states, r, j) && i < |r| && j < |r[i].globalSeparators|
    ensures OnlyColumn(states, r[i := r[i].(globalSeparators := r[i].globalSeparators[j := p])], j)
  {
  }

  /** What the search needs to know of a split. */
  ghost predicate LocalShape<T>(less: (T, T) -> bool, s: seq<T>, m: nat, sp: Split)
  {
    && sp.begin <= sp.end <= |s| && SortedRange(less, s, sp.begin, sp.end) && |sp.localSeparators| == m
    && forall j :: 0 <= j < m ==> sp.localSeparators[j] < |s|
  }

  method SepSearchPhase<T(!new)>(a: array<T>, less: (T, T) -> bool, ghost b: seq<nat>, m: nat, states0: seq<Split>,
      order: seq<nat>)
    returns (states: seq<Split>)
    requires StrictWeakOrder(less) && Bounds(b, a.Length) && |states0| == |b| - 1 && m > 0
    requires forall i :: 0 <= i < |states0| ==> LocallySorted(less, a[..], b, m, i, states0[i])
    requires TicketOrder(order, m)
    ensures Partitioned(less, a[..], b, m, states)
  {
    states := seq(|states0|, i requires 0 <= i < |states0| => states0[i].(globalSeparators := seq(m, _ => 0)));
    hide Aligned, OnlyColumn, StrictWeakOrder;
    for k := 0 to |order|
      invariant |states| == |states0|
      invariant forall i :: 0 <= i < |states| ==>
        LocallySorted(less, a[..], b, m, i, states[i]) && |states[i].globalSeparators| == m
      invariant forall j :: j in order[..k] ==> Aligned(less, a[..], states, j)
    {
      var j := order[k];
      assert j in order;
      hide LocallySorted;
      var r := SepSearchTicket(a, less, b, m, states, j);
      LocalFrame(less, a[..], b, m, states, r, j);
      forall d | d in order[..k]
        ensures Aligned(less, a[..], r, d)
      {
        AlignedFrame(less, a[..], states, r, j, d);
      }
      states := r;
      assert order[..k + 1] == order[..k] + [j];
    }
    assert order[..|order|] == order;
  }

  // ----- Phase 3: the segments between separators -----

  /** Where segment `j` starts in a split; segment `m` is the last one. */
  function Cut(sp: Split, m: nat, j: nat): nat
    requires |sp.globalSeparators| == m && j <= m + 1
  {
    if j == 0 then sp.begin else if j == m + 1 then sp.end else sp.globalSeparators[j - 1]
  }

  lemma CutBounds<T>(less: (T, T) -> bool, s: seq<T>, b: seq<nat>, m: nat, states: seq<Split>, i: nat, j: nat)
    requires Partitioned(less, s, b, m, states) && i < |states| && j <= m + 1
    ensures states[i].begin <= Cut(states[i], m, j) <= states[i].end
  {
    if 0 < j <= m {
      assert Aligned(less, s, states, j - 1);
    }
  }

  /** No `end - begin` of a segment can underflow. */
  lemma {:induction false} CutsOrdered<T(!new)>(less: (T, T) -> bool, s: seq<T>, b: seq<nat>, m: nat,
      states: seq<Split>, i: nat, j: nat, k: nat)
    requires StrictWeakOrder(less) && Partitioned(less, s, b, m, states)
    requires i < |states| && j <= k <= m + 1
    ensures Cut(states[i], m, j) <= Cut(states[i], m, k)
    decreases k - j
  {
    CutBounds(less, s, b, m, states, i, j);
    CutBounds(less, s, b, m, states, i, k);
    if 0 < j < k <= m {
      SeparatorsMonotone(less, s, b, m, states, j - 1, i);
      CutsOrdered(less, s, b, m, states, i, j + 1, k);
    }
  }

  /** Everything before a cut, in any split, is no greater than everything after it, in any split. */
  lemma CutSeparates<T(!new)>(less: (T, T) -> bool, s: seq<T>, b: seq<nat>, m: nat, states: seq<Split>, j: nat,
      i: nat, p: nat, i': nat, p': nat)
    requires StrictWeakOrder(less) && Partitioned(less, s, b, m, states)
    requires i < |states| && i' < |states| && 0 < j <= m
    requires states[i].begin <= p < Cut(states[i], m, j)
    requires Cut(states[i'], m, j) <= p' < states[i'].end
    ensures p < |s| && p' < |s| && !less(s[p'], s[p])
  {
    assert Aligned(less, s, states, j - 1);
    var g: nat :| AlignedAt(less, s, states, j - 1, g);
    assert OrderLaws(less, s[p'], s[p], s[g]);
  }

  lemma BagSnoc<T>(s: seq<T>, lo: seq<nat>, hi: seq<nat>, x: nat, y: nat)
    requires Intervals(lo, hi, |s|) && x <= y <= |s|
    ensures Intervals(lo + [x], hi + [y], |s|) && Bag(s, lo + [x], hi + [y]) == Bag(s, lo, hi) + multiset(s[x..y])
  {
    assert (lo + [x])[..|lo|] == lo && (hi + [y])[..|lo|] == hi;
  }

  lemma {:induction false} BagWhole<T>(s: seq<T>, b: seq<nat>, k: nat)
    requires Bounds(b, |s|) && k < |b|
    ensures Intervals(b[..k], b[1..k + 1], |s|)
    ensures Bag(s, b[..k], b[1..k + 1]) == multiset(s[..b[k]])
  {
    hide Bag, Intervals;
    if k == 0 {
      assert b[..0] == [] && b[1..1] == [];
      NoIntervals(s);
      assert s[..b[0]] == [];
    } else {
      BagWhole(s, b, k - 1);
      BoundsStep(b, |s|, k);
      BagSnoc(s, b[..k - 1], b[1..k], b[k - 1], b[k]);
      SplitAt(s, b[k - 1], b[k]);
    }
  }

  lemma NoIntervals<T>(s: seq<T>)
    ensures Intervals([], [], |s|) && Bag(s, [], []) == multiset{}
  {
  }

  lemma BoundsStep(b: seq<nat>, n: nat, k: nat)
    requires Bounds(b, n) && 0 < k < |b|
    ensures b[k - 1] <= b[k] <= n && b[..k] == b[..k - 1] + [b[k - 1]] && b[1..k + 1] == b[1..k] + [b[k]]
  {
  }

  lemma SplitAt<T>(s: seq<T>, x: nat, y: nat)
    requires x <= y <= |s|
    ensures multiset(s[..y]) == multiset(s[..x]) + multiset(s[x..y])
  {
    assert s[..y] == s[..x] + s[x..y];
  }

  ghost function Cuts(states: seq<Split>, m: nat, j: nat): seq<nat>
    requires j <= m + 1 && forall i :: 0 <= i < |states| ==> |states[i].globalSeparators| == m
  {
    seq(|states|, i requires 0 <= i < |states| => Cut(states[i], m, j))
  }

  lemma CutsIntervals<T(!new)>(less: (T, T) -> bool, s: seq<T>, b: seq<nat>, m: nat, states: seq<Split>, j: nat, k: nat)
    requires StrictWeakOrder(less) && Partitioned(less, s, b, m, states) && j <= k <= m + 1
    ensures Intervals(Cuts(states, m, j), Cuts(states, m, k), |s|)
  {
    forall i | 0 <= i < |states|
      ensures Cut(states[i], m, j) <= Cut(states[i], m, k) <= |s|
    {
      CutsOrdered(less, s, b, m, states, i, j, k);
      CutBounds(less, s, b, m, states, i, k);
    }
  }

  /** All segments together are the whole input. */
  lemma SegmentsCover<T(!new)>(less: (T, T) -> bool, s: seq<T>, b: seq<nat>, m: nat, states: seq<Split>)
    requires StrictWeakOrder(less) && Partitioned(less, s, b, m, states)
    ensures Intervals(Cuts(states, m, 0), Cuts(states, m, m + 1), |s|)
    ensures Bag(s, Cuts(states, m, 0), Cuts(states, m, m + 1)) == multiset(s)
  {
    var c := |states|;
    CutsIntervals(less, s, b, m, states, 0, m + 1);
    assert forall i :: 0 <= i < c ==> LocallySorted(less, s, b, m, i, states[i]);
    hide StrictWeakOrder, Aligned, SortedRange, Intervals, Bag;
    assert Cuts(states, m, 0) == b[..c];
    assert Cuts(states, m, m + 1) == b[1..c + 1];
    BagWhole(s, b, c);
    assert s[..b[c]] == s;
  }

  lemma LaterIsNotLess<T(!new)>(less: (T, T) -> bool, s: seq<T>, b: seq<nat>, m: nat, states: seq<Split>, j: nat,
      x: T, y: T)
    requires StrictWeakOrder(less) && Partitioned(less, s, b, m, states) && 0 < j <= m
    requires Intervals(Cuts(states, m, 0), Cuts(states, m, j), |s|)
      && x in Bag(s, Cuts(states, m, 0), Cuts(states, m, j))
    requires Intervals(Cuts(states, m, j), Cuts(states, m, j + 1), |s|)
      && y in Bag(s, Cuts(states, m, j), Cuts(states, m, j + 1))
    ensures !less(y, x)
  {
    hide StrictWeakOrder, Aligned, LocallySorted, Bag;
    var i, p := BagMember(s, Cuts(states, m, 0), Cuts(states, m, j), x);
    var i', p' := BagMember(s, Cuts(states, m, j), Cuts(states, m, j + 1), y);
    CutBounds(less, s, b, m, states, i', j + 1);
    CutSeparates(less, s, b, m, states, j, i, p, i', p');
  }

  lemma SegmentSourcesSorted<T(!new)>(less: (T, T) -> bool, s: seq<T>, b: seq<nat>, m: nat, states: seq<Split>, j: nat)
    requires StrictWeakOrder(less) && Partitioned(less, s, b, m, states) && j <= m
    ensures Intervals(Cuts(states, m, j), Cuts(states, m, j + 1), |s|)
    ensures forall i :: 0 <= i < |states| ==> SortedRange(less, s, Cuts(states, m, j)[i], Cuts(states, m, j + 1)[i])
  {
    CutsIntervals(less, s, b, m, states, j, j + 1);
    forall i | 0 <= i < |states|
      ensures SortedRange(less, s, Cuts(states, m, j)[i], Cuts(states, m, j + 1)[i])
    {
      CutBounds(less, s, b, m, states, i, j);
      CutBounds(less, s, b, m, states, i, j + 1);
      assert LocallySorted(less, s, b, m, i, states[i]);
    }
  }

  ghost function AllCuts(states: seq<Split>, m: nat): (cuts: seq<seq<nat>>)
    requires forall i :: 0 <= i < |states| ==> |states[i].globalSeparators| == m
    ensures |cuts| == m + 2 && forall j :: 0 <= j <= m + 1 ==> cuts[j] == Cuts(states, m, j)
  {
    seq(m + 2, j requires 0 <= j < m + 2 => Cuts(states, m, j))
  }

  /** The separators found by medians and binary search divide the splits as the merge needs. */
  lemma SeparatorsGiveGoodCuts<T(!new)>(less: (T, T) -> bool, s: seq<T>, b: seq<nat>, m: nat, states: seq<Split>)
    requires StrictWeakOrder(less) && Partitioned(less, s, b, m, states)
    ensures GoodCuts(less, s, AllCuts(states, m))
  {
    var cuts := AllCuts(states, m);
    forall j, k | 0 <= j <= k < |cuts|
      ensures Intervals(cuts[j], cuts[k], |s|)
    {
      CutsIntervals(less, s, b, m, states, j, k);
    }
    forall j | 0 <= j < |cuts| - 1
      ensures SegmentSorted(less, s, cuts, j)
    {
      SegmentSourcesSorted(less, s, b, m, states, j);
    }
    forall j | 0 < j < |cuts| - 1
      ensures SegmentFollows(less, s, cuts, j)
    {
      forall x, y | x in Bag(s, cuts[0], cuts[j]) && y in Bag(s, cuts[j], cuts[j + 1])
        ensures !less(y, x)
      {
        LaterIsNotLess(less, s, b, m, states, j, x, y);
      }
    }
    SegmentsCover(less, s, b, m, states);
  }
}

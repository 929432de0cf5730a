/**
  One interval per split, its elements taken together, and the grid of cuts that
  divides every split into segments (src/runtime/Sorting.cpp).
*/
module SortSegments {
  import opened Orders

  ghost predicate Intervals(lo: seq<nat>, hi: seq<nat>, n: nat)
  {
    |lo| == |hi| && forall i :: 0 <= i < |lo| ==> lo[i] <= hi[i] <= n
  }

  /** The elements of one interval per split, taken together. */
  ghost function Bag<T>(s: seq<T>, lo: seq<nat>, hi: seq<nat>): multiset<T>
    requires Intervals(lo, hi, |s|)
    decreases |lo|
  {
    if lo == [] then multiset{} else
      var k := |lo| - 1;
      Bag(s, lo[..k], hi[..k]) + multiset(s[lo[k]..hi[k]])
  }

  ghost function Span(lo: seq<nat>, hi: seq<nat>): int
    requires |lo| == |hi|
    decreases |lo|
  {
    if lo == [] then 0 else
      var k := |lo| - 1;
      Span(lo[..k], hi[..k]) + hi[k] - lo[k]
  }

  lemma {:induction false} BagSize<T>(s: seq<T>, lo: seq<nat>, hi: seq<nat>)
    requires Intervals(lo, hi, |s|)
    ensures |Bag(s, lo, hi)| == Span(lo, hi)
    decreases |lo|
  {
    if lo == [] {
    } else {
      var k := |lo| - 1;
      BagSize(s, lo[..k], hi[..k]);
    }
  }

  lemma {:induction false} BagJoin<T>(s: seq<T>, lo: seq<nat>, mid: seq<nat>, hi: seq<nat>)
    requires Intervals(lo, mid, |s|) && Intervals(mid, hi, |s|)
    ensures Bag(s, lo, mid) + Bag(s, mid, hi) == Bag(s, lo, hi)
    decreases |lo|
  {
    if lo == [] {
    } else {
      var k := |lo| - 1;
      BagJoin(s, lo[..k], mid[..k], hi[..k]);
      assert s[lo[k]..hi[k]] == s[lo[k]..mid[k]] + s[mid[k]..hi[k]];
    }
  }

  lemma {:induction false} BagEmpty<T>(s: seq<T>, lo: seq<nat>)
    requires Intervals(lo, lo, |s|)
    ensures Bag(s, lo, lo) == multiset{}
    decreases |lo|
  {
    if lo == [] {
    } else {
      BagEmpty(s, lo[..|lo| - 1]);
    }
  }

  lemma {:induction false} BagSingle<T>(s: seq<T>, lo: seq<nat>, i: nat)
    requires i < |lo| && Intervals(lo, lo[i := lo[i] + 1], |s|)
    ensures Bag(s, lo, lo[i := lo[i] + 1]) == multiset{s[lo[i]]}
    decreases |lo|
  {
    var k, next := |lo| - 1, lo[i := lo[i] + 1];
    if i == k {
      assert next[..k] == lo[..k];
      BagEmpty(s, lo[..k]);
      assert s[lo[k]..lo[k] + 1] == [s[lo[k]]];
    } else {
      assert next[..k] == lo[..k][i := lo[i] + 1];
      BagSingle(s, lo[..k], i);
      assert s[lo[k]..next[k]] == [];
    }
  }

  lemma BagStep<T>(s: seq<T>, lo: seq<nat>, hi: seq<nat>, i: nat)
    requires Intervals(lo, hi, |s|) && i < |lo| && lo[i] < hi[i]
    ensures Bag(s, lo, hi) == Bag(s, lo[i := lo[i] + 1], hi) + multiset{s[lo[i]]}
  {
    BagJoin(s, lo, lo[i := lo[i] + 1], hi);
    BagSingle(s, lo, i);
  }

  lemma SpanSnoc(lo: seq<nat>, hi: seq<nat>, x: nat, y: nat)
    requires |lo| == |hi|
    ensures Span(lo + [x], hi + [y]) == Span(lo, hi) + y - x
  {
    var k := |lo|;
    assert (lo + [x])[..k] == lo && (hi + [y])[..k] == hi;
  }

  lemma {:induction false} BagMember<T>(s: seq<T>, lo: seq<nat>, hi: seq<nat>, x: T) returns (i: nat, p: nat)
    requires Intervals(lo, hi, |s|) && x in Bag(s, lo, hi)
    ensures i < |lo| && lo[i] <= p < hi[i] && s[p] == x
    decreases |lo|
  {
    var k := |lo| - 1;
    if x in s[lo[k]..hi[k]] {
      var d :| 0 <= d < hi[k] - lo[k] && s[lo[k]..hi[k]][d] == x;
      i, p := k, lo[k] + d;
    } else {
      i, p := BagMember(s, lo[..k], hi[..k], x);
    }
  }

  /** Row `j` of `cuts` says where segment `j` starts in every split. Rows never move left. */
  ghost predicate Rows(cuts: seq<seq<nat>>, n: nat)
  {
    |cuts| >= 2 && forall j, k :: 0 <= j <= k < |cuts| ==> Intervals(cuts[j], cuts[k], n)
  }

  /** Within every split, segment `j` is sorted. */
  ghost predicate SegmentSorted<T>(less: (T, T) -> bool, s: seq<T>, cuts: seq<seq<nat>>, j: nat)
    requires Rows(cuts, |s|) && j + 1 < |cuts|
  {
    forall i :: 0 <= i < |cuts[j]| ==> SortedRange(less, s, cuts[j][i], cuts[j + 1][i])
  }

  /** No element of segment `j` is below an element of an earlier segment, in whichever splits they lie. */
  ghost predicate SegmentFollows<T(!new)>(less: (T, T) -> bool, s: seq<T>, cuts: seq<seq<nat>>, j: nat)
    requires Rows(cuts, |s|) && j + 1 < |cuts|
  {
    forall x, y :: x in Bag(s, cuts[0], cuts[j]) && y in Bag(s, cuts[j], cuts[j + 1]) ==> !less(y, x)
  }

  /** What the separators achieve for the merge; nothing of the input is lost. */
  ghost predicate GoodCuts<T(!new)>(less: (T, T) -> bool, s: seq<T>, cuts: seq<seq<nat>>)
  {
    && Rows(cuts, |s|)
    && (forall j :: 0 <= j < |cuts| - 1 ==> SegmentSorted(less, s, cuts, j))
    && (forall j :: 0 < j < |cuts| - 1 ==> SegmentFollows(less, s, cuts, j))
    && Bag(s, cuts[0], cuts[|cuts| - 1]) == multiset(s)
  }

  // ----- Output ranges -----

  /** Segment `j` of the output starts where the previous segments' lengths add up to. */
  ghost function RangeStart(cuts: seq<seq<nat>>, j: nat): int
    requires j < |cuts| && |cuts[0]| == |cuts[j]|
  {
    Span(cuts[0], cuts[j])
  }

  lemma RangeStartStep<T>(s: seq<T>, cuts: seq<seq<nat>>, j: nat)
    requires Rows(cuts, |s|) && j + 1 < |cuts|
    ensures RangeStart(cuts, j + 1) == RangeStart(cuts, j) + Span(cuts[j], cuts[j + 1])
    ensures 0 <= RangeStart(cuts, j) <= RangeStart(cuts, j + 1)
  {
    BagJoin(s, cuts[0], cuts[j], cuts[j + 1]);
    BagSize(s, cuts[0], cuts[j]);
    BagSize(s, cuts[j], cuts[j + 1]);
    BagSize(s, cuts[0], cuts[j + 1]);
  }

  lemma {:induction false} RangeStartMonotone<T>(s: seq<T>, cuts: seq<seq<nat>>, j: nat, k: nat)
    requires Rows(cuts, |s|) && j <= k < |cuts|
    ensures 0 <= RangeStart(cuts, j) <= RangeStart(cuts, k)
    decreases k - j
  {
    if j < k {
      RangeStartStep(s, cuts, j);
      RangeStartMonotone(s, cuts, j + 1, k);
    } else {
      BagSize(s, cuts[0], cuts[j]);
    }
  }

  /** The ranges tile the output: they start at 0 and end at n. */
  lemma RangesTile<T(!new)>(less: (T, T) -> bool, s: seq<T>, cuts: seq<seq<nat>>)
    requires GoodCuts(less, s, cuts)
    ensures RangeStart(cuts, 0) == 0 && RangeStart(cuts, |cuts| - 1) == |s|
  {
    BagEmpty(s, cuts[0]);
    BagSize(s, cuts[0], cuts[0]);
    BagSize(s, cuts[0], cuts[|cuts| - 1]);
  }

  /** Range `j` is exactly as long as segment `j`; this is the assertion of line 271. */
  ghost predicate RangeFits(cuts: seq<seq<nat>>, ranges: seq<nat>, j: nat)
  {
    && j + 1 < |cuts| && j + 1 < |ranges| && |cuts[j]| == |cuts[j + 1]|
    && ranges[j + 1] == ranges[j] + Span(cuts[j], cuts[j + 1])
  }

  /** The ranges up to index `last` tile 0..n in order, one per segment. */
  ghost predicate TilingRanges(cuts: seq<seq<nat>>, ranges: seq<nat>, n: nat)
  {
    && 2 <= |cuts| <= |ranges| && ranges[0] == 0 && ranges[|cuts| - 1] == n
    && (forall j, k :: 0 <= j <= k < |cuts| ==> ranges[j] <= ranges[k])
    && (forall j :: 0 <= j < |cuts| - 1 ==> RangeFits(cuts, ranges, j))
  }

  lemma PrefixSumsTile<T(!new)>(less: (T, T) -> bool, s: seq<T>, cuts: seq<seq<nat>>, ranges: seq<nat>)
    requires GoodCuts(less, s, cuts) && |cuts| <= |ranges|
    requires forall j :: 0 <= j < |cuts| ==> |cuts[j]| == |cuts[0]| && ranges[j] == RangeStart(cuts, j)
    ensures TilingRanges(cuts, ranges, |s|)
  {
    RangesTile(less, s, cuts);
    forall j | 0 <= j < |cuts| - 1
      ensures RangeFits(cuts, ranges, j)
    {
      RangeStartStep(s, cuts, j);
    }
    forall j, k | 0 <= j <= k < |cuts|
      ensures ranges[j] <= ranges[k]
    {
      RangeStartMonotone(s, cuts, j, k);
    }
  }
}

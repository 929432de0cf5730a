/**
  Choosing how many splits and separators the parallel sort uses, and where the
  splits and their local separators lie (src/runtime/Sorting.cpp).

  Sizes are unbounded naturals. The separator position of line 131 is computed
  in `double` by the source; the exact floor stands for it, and RoundedSeparatorExact
  says when the two are equal.
*/
module SortSplits {
  import opened Basics

  const MIN_SPLIT_SIZE: nat := 512

  predicate CanParallelSort(valueSize: nat)
  {
    valueSize > MIN_SPLIT_SIZE
  }

  function NormalizeSeparators(inputSize: nat, splitCnt: nat, separatorCnt: nat): nat
    requires splitCnt > 0
  {
    if 8 * separatorCnt > inputSize / splitCnt then inputSize / splitCnt / 8 else separatorCnt
  }

  function SplitCount(inputSize: nat, workerNum: nat): (splitCnt: nat)
    requires workerNum > 0
  {
    var sizePerWorker := inputSize / workerNum;
    if sizePerWorker < MIN_SPLIT_SIZE * 4 then inputSize / MIN_SPLIT_SIZE
    else if sizePerWorker > 32768 * 4 then
      inputSize / (if sizePerWorker > 32768 * 16 then 32768 * 4 else 32768 * 2)
    else if sizePerWorker > 65536 then workerNum * 4
    else workerNum * 2
  }

  function SeparatorCount(inputSize: nat, workerNum: nat): (separatorCnt: nat)
    requires workerNum > 0 && SplitCount(inputSize, workerNum) > 0
  {
    var sizePerWorker := inputSize / workerNum;
    NormalizeSeparators(inputSize, SplitCount(inputSize, workerNum),
      if sizePerWorker < MIN_SPLIT_SIZE * 4 then workerNum
      else if sizePerWorker > 32768 * 4 then workerNum * 4
      else workerNum * 2)
  }

  lemma DivAtLeast(x: nat, y: nat, q: nat)
    requires y > 0 && q * y <= x
    ensures x / y >= q
  {
    if x / y < q {
      assert (x / y + 1) * y <= q * y by { MulMono(x / y + 1, q, y); }
      assert false;
    }
  }

  lemma MulCancel(a: nat, b: nat, y: nat)
    requires y > 0 && a * y <= b * y
    ensures a <= b
  {
  }

  /** Every split is at least 512 long on average, so there is always a split and a separator. */
  lemma SplitParametersPositive(n: nat, w: nat)
    requires CanParallelSort(n) && w > 0
    ensures SplitCount(n, w) >= 1
    ensures n / SplitCount(n, w) >= MIN_SPLIT_SIZE
    ensures SeparatorCount(n, w) >= 1
  {
    var q, c := n / w, SplitCount(n, w);
    assert q * w <= n;
    if q < 2048 {
    } else if q > 131072 {
    } else if q > 65536 {
      assert 65537 * w <= n by { MulMono(65537, q, w); }
    } else {
      assert 2048 * w <= n by { MulMono(2048, q, w); }
    }
    assert 1 <= c && 512 * c <= n;
    DivAtLeast(n, c, 512);
  }

  lemma QuotientAtLeast(n: nat, w: nat, b: nat)
    requires w > 0
    ensures n / w >= b <==> b * w <= n
  {
    if n / w >= b {
      MulMono(b, n / w, w);
    } else {
      MulMono(n / w + 1, b, w);
    }
  }

  /** The separators wanted before they are limited to one per eight elements of a split. */
  function WantedSeparators(n: nat, w: nat): nat
  {
    if n < 2048 * w then w else if n < 131_073 * w then 2 * w else 4 * w
  }

  /**
    How many splits each size leads to: 512 elements a split for small inputs, two or four
    splits per worker in between, 2^16 or 2^17 elements a split for large ones.
  */
  lemma SplitSizes(n: nat, w: nat)
    requires w > 0
    ensures var c := SplitCount(n, w);
      && (n < 2048 * w ==> c * 512 <= n < (c + 1) * 512)
      && (2048 * w <= n < 65_537 * w ==> c == 2 * w)
      && (65_537 * w <= n < 131_073 * w ==> c == 4 * w)
      && (131_073 * w <= n < 524_289 * w ==> c * 65_536 <= n < (c + 1) * 65_536)
      && (524_289 * w <= n ==> c * 131_072 <= n < (c + 1) * 131_072)
  {
    QuotientAtLeast(n, w, 2048);
    QuotientAtLeast(n, w, 65_537);
    QuotientAtLeast(n, w, 131_073);
    QuotientAtLeast(n, w, 524_289);
  }

  /** As many separators as wanted, or as many as leave eight elements to each. */
  lemma SeparatorsPerSplit(n: nat, w: nat)
    requires w > 0 && SplitCount(n, w) > 0
    ensures var m, size := SeparatorCount(n, w), n / SplitCount(n, w);
      m <= WantedSeparators(n, w) && 8 * m <= size && (m == WantedSeparators(n, w) || size < 8 * (m + 1))
  {
    QuotientAtLeast(n, w, 2048);
    QuotientAtLeast(n, w, 131_073);
  }

  // ----- Where the splits lie -----

  function SplitSize(n: nat, c: nat): nat
    requires c > 0
  {
    (n + c - 1) / c
  }

  function SplitBegin(n: nat, c: nat, i: nat): nat
    requires c > 0
  {
    i * SplitSize(n, c)
  }

  function SplitEnd(n: nat, c: nat, i: nat): nat
    requires c > 0
  {
    if (i + 1) * SplitSize(n, c) > n then n else (i + 1) * SplitSize(n, c)
  }

  /** The last of `c` ceil-sized splits still starts inside the input. */
  predicate SplitsFit(n: nat, c: nat)
  {
    c > 0 && (c - 1) * SplitSize(n, c) < n
  }

  lemma SplitSizeCeil(n: nat, c: nat)
    requires c > 0
    ensures n <= c * SplitSize(n, c) < n + c
  {
    var s := SplitSize(n, c);
    assert s * c + (n + c - 1) % c == n + c - 1;
    assert s * c == c * s;
  }

  /** The splits tile 0..n with no empty split. */
  lemma SplitsTile(n: nat, c: nat, i: nat)
    requires SplitsFit(n, c) && i < c
    ensures SplitBegin(n, c, 0) == 0
    ensures SplitBegin(n, c, i) < SplitEnd(n, c, i) <= n
    ensures i + 1 < c ==> SplitEnd(n, c, i) == SplitBegin(n, c, i + 1)
    ensures i + 1 == c ==> SplitEnd(n, c, i) == n
  {
    var s := SplitSize(n, c);
    SplitSizeCeil(n, c);
    assert s > 0;
    assert (i + 1) * s == i * s + s;
    MulMono(i, c - 1, s);
    if i + 1 < c {
      MulMono(i + 1, c - 1, s);
    }
  }

  lemma SplitsOrdered(n: nat, c: nat, i: nat, k: nat)
    requires SplitsFit(n, c) && i < k < c
    ensures SplitEnd(n, c, i) <= SplitBegin(n, c, k)
  {
    MulMono(i + 1, k, SplitSize(n, c));
  }

  /** `SplitsFit` is exact: it holds just when no ticket of the local sort sees `end <= begin`. */
  lemma SplitsFitExactly(n: nat, c: nat)
    requires c > 0
    ensures SplitsFit(n, c) <==> forall i :: 0 <= i < c ==> SplitBegin(n, c, i) < SplitEnd(n, c, i)
  {
    if SplitsFit(n, c) {
      forall i | 0 <= i < c
        ensures SplitBegin(n, c, i) < SplitEnd(n, c, i)
      {
        SplitsTile(n, c, i);
      }
    } else {
      assert SplitBegin(n, c, c - 1) >= SplitEnd(n, c, c - 1);
    }
  }

  lemma FewSplitsFit(n: nat, c: nat)
    requires c > 0 && n / c >= c
    ensures SplitsFit(n, c)
  {
    var s := SplitSize(n, c);
    SplitSizeCeil(n, c);
    assert (c - 1) * s == c * s - s;
    assert s >= c by { DivAtLeast(n + c - 1, c, c); }
  }

  lemma QuotientBelow(n: nat, w: nat, b: nat)
    requires w > 0 && n / w < b
    ensures n < b * w
  {
    MulMono(n / w + 1, b, w);
  }

  /** Up to 2^33 elements and 128 workers the chosen split count always fits. */
  lemma RealisticSplitsFit(n: nat, w: nat)
    requires CanParallelSort(n) && n <= 0x2_0000_0000 && 1 <= w <= 128
    ensures SplitsFit(n, SplitCount(n, w))
  {
    var c := SplitCount(n, w);
    SplitParametersPositive(n, w);
    if n / w > 524288 {
      assert c <= 65536 && 131072 * c <= n;
      DivAtLeast(n, c, 131072);
    } else if n / w > 131072 {
      QuotientBelow(n, w, 524289);
      assert c <= 1025 && 65536 * c <= n;
      DivAtLeast(n, c, 65536);
    } else if n / w < 2048 {
      QuotientBelow(n, w, 2048);
      assert c <= 512;
    }
    FewSplitsFit(n, c);
  }

  /** One worker more, and the last of 514 splits is empty; with 1000 workers it even starts past the end. */
  lemma ManyWorkersOverrun()
    ensures SplitCount(263_169, 129) == 514 && !SplitsFit(263_169, 514)
    ensures SplitBegin(263_169, 514, 513) == SplitEnd(263_169, 514, 513) == 263_169
    ensures SplitCount(2_000_000, 1000) == 3906 && !SplitsFit(2_000_000, 3906)
    ensures SplitBegin(2_000_000, 3906, 3905) > 2_000_000
  {
  }

  lemma QuotientUnique(x: nat, y: nat, q: nat, r: nat)
    requires x == q * y + r && r < y
    ensures x / y == q
  {
    DivAtLeast(x, y, q);
    assert (q + 1) * y == q * y + y;
    if x / y > q {
      MulMono(q + 1, x / y, y);
      assert false;
    }
  }

  lemma EvenQuotientFits(n: nat, c: nat, s: nat)
    requires c > 0 && s > 0 && n == s * c
    ensures SplitsFit(n, c)
  {
    QuotientUnique(n + c - 1, c, s, c - 1);
    assert (c - 1) * s == s * c - s;
  }

  lemma OddQuotientFits(n: nat, c: nat, s: nat, r: nat)
    requires s > 0 && n == s * c + r && 1 <= r <= c
    ensures SplitsFit(n, c) <==> c < s + 1 + r
  {
    assert (s + 1) * c == s * c + c;
    QuotientUnique(n + c - 1, c, s + 1, r - 1);
    assert (c - 1) * (s + 1) == s * c + c - s - 1;
  }

  /** A split count that is a quotient of the input size, as for small and for large inputs: exactly when it fits. */
  lemma QuotientSplitsFit(n: nat, s: nat)
    requires 0 < s <= n
    ensures SplitsFit(n, n / s) <==> n % s == 0 || n / s < s + 1 + n % s
  {
    hide SplitsFit;
    var c, r := n / s, n % s;
    DivAtLeast(n, s, 1);
    assert n == s * c + r;
    if r == 0 {
      EvenQuotientFits(n, c, s);
    } else if r <= c {
      OddQuotientFits(n, c, s, r);
    } else {
      DivAtLeast(n, c, s);
      FewSplitsFit(n, c);
    }
  }

  // ----- Local separators -----

  function StartOffset(begin: nat, range: nat, m: nat): nat
    requires m > 0
  {
    begin + range / m / 2
  }

  /** Position of separator `k` of `m` in the split [begin, begin + range). */
  function LocalSeparator(begin: nat, range: nat, m: nat, k: nat): nat
    requires m > 0
  {
    StartOffset(begin, range, m) + k * range / m
  }

  /** Separators lie inside their own split. */
  lemma LocalSeparatorInside(begin: nat, range: nat, m: nat, k: nat)
    requires m > 0 && range > 0 && k < m
    ensures begin <= LocalSeparator(begin, range, m, k) < begin + range
  {
    ScaledFloor(range, m, k);
    Halved(range / m, k * range / m, range);
  }

  lemma Halved(u: nat, d: nat, range: nat)
    requires d + u <= range && d < range
    ensures d + u / 2 < range
  {
  }

  /** Separators never move left. */
  lemma LocalSeparatorMonotone(begin: nat, range: nat, m: nat, k: nat, l: nat)
    requires m > 0 && k <= l
    ensures LocalSeparator(begin, range, m, k) <= LocalSeparator(begin, range, m, l)
  {
    MulMono(k, l, range);
    DivMono(k * range, l * range, m);
  }

  lemma DivMono(x: nat, x': nat, m: nat)
    requires m > 0 && x <= x'
    ensures x / m <= x' / m
  {
    DivAtLeast(x', m, x / m);
  }

  lemma ScaledFloor(range: nat, m: nat, k: nat)
    requires m > 0 && range > 0 && k < m
    ensures k * range / m + range / m <= range
    ensures k * range / m < range
  {
    var d, u := k * range / m, range / m;
    assert d * m <= k * range && u * m <= range;
    assert k * range + range <= range * m by {
      MulMono(k + 1, m, range);
      assert (k + 1) * range == k * range + range;
    }
    SumOfFloors(d, u, range, m, k * range);
  }

  lemma SumOfFloors(d: nat, u: nat, range: nat, m: nat, scaled: nat)
    requires m > 0 && range > 0
    requires d * m <= scaled && u * m <= range && scaled + range <= range * m
    ensures d + u <= range && d < range
  {
    assert (d + u) * m == d * m + u * m;
    MulCancel(d + u, range, m);
    assert d != range;
  }

  // ----- Rounding -----

  const TWO53: int := 0x20_0000_0000_0000

  /** What is used of IEEE 754 double precision: order, integers up to 2^53, and a relative error of at most 2^-53. */
  ghost predicate DoubleRounding(rnd: real -> real)
  {
    && (forall x, y :: x <= y ==> rnd(x) <= rnd(y))
    && (forall x :: 0.0 <= x <= TWO53 as real && x == x.Floor as real ==> rnd(x) == x)
    && (forall x :: x * TWO53 as real >= 1.0 ==> rnd(x) <= x + x / TWO53 as real)
  }

  lemma RoundMono(rnd: real -> real, x: real, y: real)
    requires DoubleRounding(rnd) && x <= y
    ensures rnd(x) <= rnd(y)
  {
  }

  lemma RoundInt(rnd: real -> real, n: nat)
    requires DoubleRounding(rnd) && n <= TWO53
    ensures rnd(n as real) == n as real
  {
  }

  lemma RoundUp(rnd: real -> real, x: real)
    requires DoubleRounding(rnd) && x * TWO53 as real >= 1.0
    ensures rnd(x) <= x + x / TWO53 as real
  {
  }

  /** Every conversion and every operation rounds. */
  ghost function RoundedSum(rnd: real -> real, offset: nat, range: nat, m: nat, k: nat): real
    requires rnd(m as real) != 0.0
  {
    rnd(rnd(offset as real) + rnd(rnd(rnd(k as real) * rnd(range as real)) / rnd(m as real)))
  }

  /** Line 131 as it is computed, down to the truncation at the end. */
  ghost function RoundedSeparator(rnd: real -> real, begin: nat, range: nat, m: nat, k: nat): int
    requires m > 0 && rnd(m as real) != 0.0
  {
    RoundedSum(rnd, StartOffset(begin, range, m), range, m, k).Floor
  }

  ghost function Ratio(p: nat, m: nat): real
    requires m > 0
  {
    p as real / m as real
  }

  /** Positions up to `n`, with `m` separators per split. */
  ghost predicate WellBelow(n: nat, m: nat)
  {
    3 * (n * m) < TWO53
  }

  lemma RealOfProduct(a: nat, b: nat)
    ensures (a * b) as real == a as real * b as real
  {
  }

  lemma ExactOperands(rnd: real -> real, offset: nat, range: nat, m: nat, k: nat, p: nat)
    requires DoubleRounding(rnd) && 0 < m <= TWO53 && offset <= TWO53 && range <= TWO53 && k <= TWO53
    requires p == k * range <= TWO53
    ensures rnd(m as real) == m as real
    ensures RoundedSum(rnd, offset, range, m, k) == rnd(offset as real + rnd(Ratio(p, m)))
  {
    hide DoubleRounding;
    RoundInt(rnd, m); RoundInt(rnd, offset); RoundInt(rnd, range); RoundInt(rnd, k); RoundInt(rnd, p);
    RealOfProduct(k, range);
    assert rnd(k as real) * rnd(range as real) == p as real;
  }

  lemma OperandsBounded(begin: nat, range: nat, m: nat, k: nat)
    requires range > 0 && k < m && WellBelow(begin + range, m)
    ensures m <= TWO53 && begin + range <= TWO53 && k * range <= TWO53 && k <= TWO53
  {
    MulMono(1, begin + range, m);
    MulMono(1, m, begin + range);
    MulMono(k, m, range);
    MulMono(range, begin + range, m);
  }

  /** A quotient is its floor, or at least one m-th away from the integers around it. */
  ghost predicate ApartBy(x: real, d: nat, q: real)
  {
    x == d as real || (x + q <= (d + 1) as real && x >= q && x >= d as real)
  }

  lemma QuotientReal(p: nat, m: nat, d: nat)
    requires m > 0 && d == p / m
    ensures ApartBy(Ratio(p, m), d, Ratio(1, m))
  {
    var r, x := p % m, Ratio(p, m);
    assert p == d * m + r;
    RealOfProduct(d, m);
    assert x == d as real + r as real / m as real;
    if r > 0 {
      ScaledDown(r as real, 1.0, m as real);
      ScaledDown((m - 1) as real, r as real, m as real);
      assert (m - 1) as real / m as real == 1.0 - 1.0 / m as real;
    }
  }

  lemma ScaledDown(a: real, c: real, m: real)
    requires m > 0.0 && a >= c
    ensures a / m >= c / m
  {
  }

  lemma Reciprocal(a: nat, m: nat)
    requires m > 0 && WellBelow(a, m)
    ensures 3.0 * a as real < TWO53 as real * Ratio(1, m)
  {
    var q, n, e := Ratio(1, m), a as real, TWO53 as real;
    RealOfProduct(a, m);
    assert 3.0 * (n * m as real) < e;
    assert q > 0.0 && q * m as real == 1.0;
    MulStrict(3.0 * (n * m as real), e, q);
    assert 3.0 * (n * m as real) * q == 3.0 * n * (q * m as real);
  }

  lemma MulStrict(a: real, c: real, q: real)
    requires a < c && q > 0.0
    ensures a * q < c * q
  {
  }

  lemma SumKeepsFloor(rnd: real -> real, b: nat, d: nat, x: real, q: real, n: nat)
    requires DoubleRounding(rnd) && b + d + 1 <= n <= TWO53 && 3.0 * n as real < TWO53 as real * q && ApartBy(x, d, q)
    ensures rnd(b as real + rnd(x)).Floor == b + d
  {
    hide DoubleRounding;
    var e := TWO53 as real;
    RoundInt(rnd, d);
    RoundInt(rnd, b + d);
    if x == d as real {
    } else {
      var s := b as real + x + x / e;
      RoundUp(rnd, x);
      RoundMono(rnd, d as real, x);
      RoundUp(rnd, s);
      RoundMono(rnd, b as real + rnd(x), s);
      RoundMono(rnd, (b + d) as real, b as real + rnd(x));
      BelowNext(b, d, x, q, n, e);
    }
  }

  lemma BelowNext(b: nat, d: nat, x: real, q: real, n: nat, e: real)
    requires e == TWO53 as real && b + d + 1 <= n && 3.0 * n as real < e * q && x + q <= (d + 1) as real && x >= q
    ensures var s := b as real + x + x / e; s + s / e < (b + d + 1) as real
  {
  }

  lemma RoundedOffset(rnd: real -> real, offset: nat, range: nat, m: nat, k: nat, p: nat, n: nat)
    requires DoubleRounding(rnd) && 0 < m <= TWO53 && range <= TWO53 && k <= TWO53 && p == k * range <= TWO53
    requires offset + p / m < n <= TWO53 && WellBelow(n, m)
    ensures rnd(m as real) == m as real
    ensures RoundedSum(rnd, offset, range, m, k).Floor == offset + p / m
  {
    hide DoubleRounding, RoundedSum, ApartBy, Ratio, WellBelow;
    var d := p / m;
    ExactOperands(rnd, offset, range, m, k, p);
    QuotientReal(p, m, d);
    Reciprocal(n, m);
    SumKeepsFloor(rnd, offset, d, Ratio(p, m), Ratio(1, m), n);
  }

  /** Rounding does not move a separator as long as positions times separators stay well below 2^53. */
  lemma RoundedSeparatorExact(rnd: real -> real, begin: nat, range: nat, m: nat, k: nat)
    requires DoubleRounding(rnd) && range > 0 && k < m && WellBelow(begin + range, m)
    ensures rnd(m as real) == m as real
    ensures RoundedSeparator(rnd, begin, range, m, k) == LocalSeparator(begin, range, m, k)
  {
    hide DoubleRounding, RoundedSum, WellBelow, StartOffset;
    OperandsBounded(begin, range, m, k);
    LocalSeparatorInside(begin, range, m, k);
    RoundedOffset(rnd, StartOffset(begin, range, m), range, m, k, k * range, begin + range);
  }

  lemma FewSeparators(n: nat, w: nat)
    requires CanParallelSort(n) && 1 <= w <= 128
    ensures SplitCount(n, w) > 0 && 1 <= SeparatorCount(n, w) <= 512
  {
    SplitParametersPositive(n, w);
  }

  /** For the sizes of RealisticSplitsFit the source's separators are the exact ones. */
  lemma RealisticSeparatorsExact(rnd: real -> real, n: nat, w: nat, i: nat, k: nat)
    requires DoubleRounding(rnd) && CanParallelSort(n) && n <= 0x2_0000_0000 && 1 <= w <= 128
    requires SplitCount(n, w) > 0 && i < SplitCount(n, w) && k < SeparatorCount(n, w)
    ensures var c, m := SplitCount(n, w), SeparatorCount(n, w);
      var begin, end := SplitBegin(n, c, i), SplitEnd(n, c, i);
      end > begin && rnd(m as real) == m as real
      && RoundedSeparator(rnd, begin, end - begin, m, k) == LocalSeparator(begin, end - begin, m, k)
  {
    hide DoubleRounding, RoundedSeparator, LocalSeparator, SplitCount, SeparatorCount, SplitBegin, SplitEnd, SplitsFit;
    RealisticSplitsFit(n, w);
    var c, m := SplitCount(n, w), SeparatorCount(n, w);
    var begin, end := SplitBegin(n, c, i), SplitEnd(n, c, i);
    SplitsTile(n, c, i);
    FewSeparators(n, w);
    MulMono(m, 512, end);
    assert end * m == m * end;
    RoundedSeparatorExact(rnd, begin, end - begin, m, k);
  }
}

/**
  Bitwise operations on natural numbers, as the runtime uses them on 64-bit words:
  masking a hash with `&`, and the `|=` cascade of `nextPow2`.
*/
module Bits {
  import opened Basics

  function And(a: nat, b: nat): (r: nat)
    ensures r <= a && r <= b
  {
    if a == 0 || b == 0 then 0 else 2 * And(a / 2, b / 2) + (if a % 2 == 1 && b % 2 == 1 then 1 else 0)
  }

  function Or(a: nat, b: nat): nat
  {
    if a == 0 && b == 0 then 0 else 2 * Or(a / 2, b / 2) + (if a % 2 == 1 || b % 2 == 1 then 1 else 0)
  }

  function Shr(x: nat, k: nat): nat
    decreases k
  {
    if k == 0 then x else Shr(x / 2, k - 1)
  }

  function Pow2(k: nat): (r: nat)
    ensures r >= 1
  {
    if k == 0 then 1 else 2 * Pow2(k - 1)
  }

  // ----- Bit by bit -----

  /** Bit `i` of `x`. */
  predicate Bit(x: nat, i: nat)
  {
    x / Pow2(i) % 2 == 1
  }

  lemma BitZero(x: nat)
    ensures Bit(x, 0) <==> x % 2 == 1
  {
  }

  lemma BitNext(x: nat, i: nat)
    ensures Bit(x, i + 1) <==> Bit(x / 2, i)
  {
    var p, q := Pow2(i), x / 2 / Pow2(i);
    assert x == (2 * p) * q + (2 * (x / 2 % p) + x % 2);
    DivModUnique(x, 2 * p, q, 2 * (x / 2 % p) + x % 2);
  }

  /** `&` works bit by bit. */
  lemma {:induction false} AndBits(a: nat, b: nat, i: nat)
    ensures Bit(And(a, b), i) <==> Bit(a, i) && Bit(b, i)
    decreases i
  {
    hide Bit, Pow2;
    var c := And(a, b);
    AndStep(a, b);
    if i == 0 {
      BitZero(a); BitZero(b); BitZero(c);
    } else {
      BitNext(a, i - 1); BitNext(b, i - 1); BitNext(c, i - 1);
      AndBits(a / 2, b / 2, i - 1);
    }
  }

  lemma AndStep(a: nat, b: nat)
    ensures And(a, b) / 2 == And(a / 2, b / 2) && (And(a, b) % 2 == 1 <==> a % 2 == 1 && b % 2 == 1)
  {
  }

  // ----- Masks -----

  /** A mask of `k` ones keeps the remainder modulo the power of two: the table index reaches every slot. */
  lemma {:induction false} MaskIsRemainder(h: nat, k: nat)
    ensures And(h, Pow2(k) - 1) == h % Pow2(k)
  {
    if k == 0 {
    } else {
      var p := Pow2(k - 1);
      MaskIsRemainder(h / 2, k - 1);
      AndLowest(h, p);
      HalfRemainder(h, p);
    }
  }

  lemma AndLowest(h: nat, p: nat)
    requires p >= 1
    ensures And(h, 2 * p - 1) == 2 * And(h / 2, p - 1) + h % 2
  {
    assert (2 * p - 1) / 2 == p - 1 && (2 * p - 1) % 2 == 1;
    AndZero(p - 1);
  }

  lemma AndZero(b: nat)
    ensures And(0, b) == 0
  {
  }

  lemma HalfRemainder(h: nat, p: nat)
    requires p >= 1
    ensures h % (2 * p) == 2 * (h / 2 % p) + h % 2
  {
    var q, r := h / 2 / p, h / 2 % p;
    assert h == (2 * p) * q + (2 * r + h % 2);
    DivModUnique(h, 2 * p, q, 2 * r + h % 2);
  }

  lemma DivModUnique(h: nat, d: nat, q: nat, r: nat)
    requires r < d && h == d * q + r
    ensures h / d == q && h % d == r
  {
    var k := q - h / d;
    assert d * k == h % d - r;
    SmallMultiple(d, k);
  }

  lemma SmallMultiple(d: int, k: int)
    requires -d < d * k < d
    ensures k == 0
  {
    assert k >= 1 ==> d * k >= d * 1;
    assert k <= -1 ==> d * k <= d * -1;
  }

  // ----- The next power of two -----

  const WORD: nat := 0x1_0000_0000_0000_0000

  /** `nextPow2` on 64-bit words, wrap-around at both ends included. */
  function NextPow2(v: nat): nat
    requires v < WORD
  {
    (Smear(if v == 0 then WORD - 1 else v - 1) + 1) % WORD
  }

  /** The cascade `v |= v >> 1; v |= v >> 2; ...; v |= v >> 32`. */
  function Smear(x: nat): nat
  {
    Spread(Spread(Spread(Spread(Spread(Spread(x, 1), 2), 4), 8), 16), 32)
  }

  function Spread(x: nat, w: nat): nat
  {
    Or(x, Shr(x, w))
  }

  /** The least power of two that is at least `v`, where it fits a word; zero for all other words. */
  lemma NextPow2IsLeast(v: nat)
    requires v < WORD
    ensures 1 <= v <= WORD / 2 ==> exists n :: NextPow2(v) == Pow2(n) && LeastAbove(v, n)
    ensures v == 0 || v > WORD / 2 ==> NextPow2(v) == 0
  {
    hide Smear, BitLength, Pow2, Shr, LeastAbove;
    var x := if v == 0 then WORD - 1 else v - 1;
    if x == 0 {
      SmearZero();
      LeastOfOne();
      assert NextPow2(v) == Pow2(0);
    } else {
      var n := BitLength(x);
      Pow2Of64();
      BitLengthBounds(x);
      BitLengthFits(x, 64);
      SmearFills(x, n);
      if n < 64 {
        Pow2Mono(n, 63);
        Above(v, n);
        assert NextPow2(v) == Pow2(n);
      }
    }
  }

  /** The number of buckets for `total` entries: nextPow2 of 1.25 times as many, but at least one. */
  function TableSize(total: nat): (size: nat)
    ensures size >= 1
  {
    var n := NextPow2(total * 5 / 4 % WORD);
    if n < 1 then 1 else n
  }

  /** There is always a power of two of buckets; the least one above 1.25 times the entries, while it fits a word. */
  lemma TableSizeIsPow2(total: nat) returns (k: nat)
    ensures TableSize(total) == Pow2(k)
    ensures 1 <= total * 5 / 4 <= WORD / 2 ==> LeastAbove(total * 5 / 4, k) && TableSize(total) >= total
  {
    hide NextPow2, LeastAbove;
    var v := total * 5 / 4 % WORD;
    NextPow2IsLeast(v);
    if 1 <= v <= WORD / 2 {
      k :| NextPow2(v) == Pow2(k) && LeastAbove(v, k);
      AtLeast(v, k);
    } else {
      k := 0;
    }
  }

  lemma AtLeast(v: nat, k: nat)
    requires LeastAbove(v, k)
    ensures Pow2(k) >= v
  {
  }

  ghost predicate LeastAbove(v: nat, n: nat)
  {
    Pow2(n) >= v && forall k :: Pow2(k) >= v ==> Pow2(k) >= Pow2(n)
  }

  lemma LeastOfOne()
    ensures Pow2(0) == 1 && LeastAbove(1, 0)
  {
  }

  lemma Above(v: nat, n: nat)
    requires v >= 2 && n >= 1 && Pow2(n - 1) <= v - 1 < Pow2(n)
    ensures LeastAbove(v, n)
  {
    forall k: nat | Pow2(k) >= v
      ensures Pow2(k) >= Pow2(n)
    {
      if k < n {
        Pow2Mono(k, n - 1);
      } else {
        Pow2Mono(n, k);
      }
    }
  }

  lemma {:induction false} Pow2Mono(a: nat, b: nat)
    requires a <= b
    ensures Pow2(a) <= Pow2(b)
  {
    if a >= b {
    } else {
      Pow2Mono(a, b - 1);
    }
  }

  lemma Pow2Of64()
    ensures Pow2(64) == WORD && Pow2(63) == WORD / 2
  {
    hide Pow2;
    Pow2Of8();
    Pow2Double(8);
    Pow2Double(16);
    Pow2Double(32);
    Pow2Step(63);
  }

  lemma Pow2Of8()
    ensures Pow2(8) == 256
  {
  }

  lemma Pow2Step(k: nat)
    ensures Pow2(k + 1) == 2 * Pow2(k)
  {
  }

  lemma Pow2Double(k: nat)
    ensures Pow2(2 * k) == Pow2(k) * Pow2(k)
  {
    hide Pow2;
    Pow2Add(k, k);
  }

  lemma {:induction false} Pow2Add(a: nat, b: nat)
    ensures Pow2(a + b) == Pow2(a) * Pow2(b)
  {
    if a == 0 {
    } else {
      Pow2Add(a - 1, b);
      assert 2 * Pow2(a - 1) * Pow2(b) == Pow2(a) * Pow2(b);
    }
  }

  lemma SmearZero()
    ensures Smear(0) == 0
  {
    ShrZero(1); ShrZero(2); ShrZero(4); ShrZero(8); ShrZero(16); ShrZero(32);
  }

  lemma {:induction false} ShrZero(k: nat)
    ensures Shr(0, k) == 0
    decreases k
  {
    if k == 0 {
    } else {
      ShrZero(k - 1);
    }
  }

  // ----- Length of a word -----

  function BitLength(x: nat): nat
  {
    if x == 0 then 0 else 1 + BitLength(x / 2)
  }

  lemma {:induction false} BitLengthBounds(x: nat)
    requires x > 0
    ensures BitLength(x) >= 1 && Shr(x, BitLength(x) - 1) == 1
    ensures Pow2(BitLength(x) - 1) <= x < Pow2(BitLength(x))
  {
    if x <= 1 {
    } else {
      BitLengthBounds(x / 2);
    }
  }

  lemma {:induction false} BitLengthFits(x: nat, k: nat)
    requires x < Pow2(k)
    ensures BitLength(x) <= k
    decreases k
  {
    if k == 0 || x == 0 {
    } else {
      BitLengthFits(x / 2, k - 1);
    }
  }

  // ----- Spreading the leading one -----

  /** The top `w` of the `n` bits of `x` are ones, and there are no bits above them. */
  ghost predicate TopOnes(x: nat, n: nat, w: nat)
  {
    w <= n && Shr(x, n - w) == Pow2(w) - 1
  }

  lemma SmearFills(x: nat, n: nat)
    requires 1 <= n <= 64 && Shr(x, n - 1) == 1
    ensures Smear(x) == Pow2(n) - 1
  {
    hide Spread;
    var x1 := Spread(x, 1);
    var x2 := Spread(x1, 2);
    var x4 := Spread(x2, 4);
    var x8 := Spread(x4, 8);
    var x16 := Spread(x8, 16);
    assert TopOnes(x, n, 1);
    SpreadDoubles(x, n, 1);
    FillOrDouble(x1, n, 2);
    FillOrDouble(x2, n, 4);
    FillOrDouble(x4, n, 8);
    FillOrDouble(x8, n, 16);
    FillOrDouble(x16, n, 32);
    assert Shr(Smear(x), 0) == Smear(x);
  }

  lemma FillOrDouble(x: nat, n: nat, w: nat)
    requires TopOnes(x, n, Min(w, n))
    ensures TopOnes(Spread(x, w), n, Min(2 * w, n))
  {
    if w <= n {
      SpreadDoubles(x, n, w);
    } else {
      ShrOnes(n, n);
      ShrSplit(x, n, w - n);
      ShrZero(w - n);
      OrZero(x);
    }
  }

  /** A shift by `w` copies the leading ones right behind themselves. */
  lemma SpreadDoubles(x: nat, n: nat, w: nat)
    requires TopOnes(x, n, w)
    ensures TopOnes(Spread(x, w), n, Min(2 * w, n))
  {
    hide Pow2, Or, Shr;
    var m := Min(w, n - w);
    var k := n - w - m;
    var a := Shr(x, k);
    OrShr(x, Shr(x, w), k);
    ShrSplit(x, w, k);
    assert Shr(Shr(x, w), k) == Shr(x, n - m);
    ShrSplit(x, n - w, w - m);
    ShrOnes(w, w - m);
    assert Shr(x, n - m) == Pow2(m) - 1;
    ShrSplit(x, k, m);
    assert Shr(a, m) == Pow2(w) - 1;
    OrOnes(a, m);
    Pow2Add(w, m);
    assert (Pow2(w) - 1) * Pow2(m) + Pow2(m) - 1 == Pow2(w + m) - 1;
  }

  lemma {:induction false} ShrSplit(x: nat, a: nat, b: nat)
    ensures Shr(Shr(x, a), b) == Shr(x, a + b)
    decreases a
  {
    if a == 0 {
    } else {
      ShrSplit(x / 2, a - 1, b);
    }
  }

  lemma {:induction false} ShrOnes(w: nat, k: nat)
    requires k <= w
    ensures Shr(Pow2(w) - 1, k) == Pow2(w - k) - 1
    decreases k
  {
    if k == 0 {
    } else {
      assert (Pow2(w) - 1) / 2 == Pow2(w - 1) - 1;
      ShrOnes(w - 1, k - 1);
    }
  }

  lemma {:induction false} OrShr(a: nat, b: nat, k: nat)
    ensures Shr(Or(a, b), k) == Or(Shr(a, k), Shr(b, k))
    decreases k
  {
    if k == 0 {
    } else {
      assert Or(a, b) / 2 == Or(a / 2, b / 2);
      OrShr(a / 2, b / 2, k - 1);
    }
  }

  lemma {:induction false} OrZero(a: nat)
    ensures Or(a, 0) == a
  {
    if a == 0 {
    } else {
      OrZero(a / 2);
    }
  }

  /** Setting the low `m` bits. */
  lemma {:induction false} OrOnes(a: nat, m: nat)
    ensures Or(a, Pow2(m) - 1) == Shr(a, m) * Pow2(m) + Pow2(m) - 1
    decreases m
  {
    if m == 0 {
      OrZero(a);
    } else {
      assert (Pow2(m) - 1) / 2 == Pow2(m - 1) - 1;
      OrOnes(a / 2, m - 1);
      assert Shr(a, m) * Pow2(m) == 2 * (Shr(a, m) * Pow2(m - 1));
    }
  }
}

/**
  A pattern that is not harmless changes its meaning: comparing how often the special
  characters occur as literals in the two readings gives a string that tells them apart.
*/
module LikeExact {
  import opened Basics
  import opened LikeTokens

  ghost function Count<T>(s: seq<T>, c: T): nat
  {
    if s == [] then 0 else (if s[0] == c then 1 else 0) + Count(s[1..], c)
  }

  ghost function Literals<T>(ts: seq<Token<T>>, c: T): nat
  {
    if ts == [] then 0 else (if ts[0] == Lit(c) then 1 else 0) + Literals(ts[1..], c)
  }

  lemma {:induction false} CountSuffix<T>(s: seq<T>, j: nat, c: T)
    requires j <= |s|
    ensures Count(s[j..], c) <= Count(s, c)
  {
    if j == 0 {
    } else {
      CountSuffix(s[1..], j - 1, c);
      assert s[1..][j - 1..] == s[j..];
    }
  }

  /** A string that matches holds every literal at least as often as the pattern. */
  lemma {:induction false} MatchCounts<T>(ts: seq<Token<T>>, s: seq<T>, c: T)
    requires Match(ts, s)
    ensures Count(s, c) >= Literals(ts, c)
    decreases |ts|
  {
    if ts == [] {
    } else {
      match ts[0]
      case Lit(_) => MatchCounts(ts[1..], s[1..], c);
      case One => MatchCounts(ts[1..], s[1..], c);
      case Any =>
        var j :| 0 <= j <= |s| && Match(ts[1..], s[j..]);
        MatchCounts(ts[1..], s[j..], c);
        CountSuffix(s, j, c);
      case More => MatchCounts(ts[1..], s, c);
    }
  }

  // ----- Least strings -----

  /** A shortest string that matches, with `z` where any character will do. */
  ghost function Least<T>(ts: seq<Token<T>>, z: T): seq<T>
  {
    if ts == [] then []
    else
      var rest := Least(ts[1..], z);
      match ts[0]
      case Lit(c) => [c] + rest
      case One => [z] + rest
      case Any => rest
      case More => if rest == [] then [z] else rest
  }

  /** Every guard is followed by something. */
  ghost predicate Guarded<T>(ts: seq<Token<T>>)
  {
    ts == [] || ((ts[0] == More ==> |ts| >= 2) && Guarded(ts[1..]))
  }

  lemma {:induction false} LeastEmpty<T>(ts: seq<Token<T>>, z: T, s: seq<T>)
    requires ts != [] && Least(ts, z) == []
    ensures Match(ts, s)
    decreases |ts|
  {
    if |ts| == 1 {
      assert ts[1..] == [] && s[|s|..] == [];
      assert Match(ts[1..], s[|s|..]);
    } else {
      LeastEmpty(ts[1..], z, s);
      assert s[0..] == s;
    }
  }

  lemma {:induction false} LeastMatches<T>(ts: seq<Token<T>>, z: T)
    requires Guarded(ts)
    ensures Match(ts, Least(ts, z))
  {
    if ts == [] {
    } else {
      var rest := Least(ts[1..], z);
      LeastMatches(ts[1..], z);
      match ts[0]
      case Lit(c) => assert Least(ts, z)[1..] == rest;
      case One => assert Least(ts, z)[1..] == rest;
      case Any => assert rest[0..] == rest;
      case More =>
        if rest == [] {
          LeastEmpty(ts[1..], z, [z]);
        }
    }
  }

  lemma {:induction false} LeastCounts<T>(ts: seq<Token<T>>, z: T, c: T)
    requires c != z
    ensures Count(Least(ts, z), c) == Literals(ts, c)
  {
    if ts == [] {
    } else {
      var rest := Least(ts[1..], z);
      LeastCounts(ts[1..], z, c);
      match ts[0]
      case Lit(d) => assert ([d] + rest)[1..] == rest;
      case One => assert ([z] + rest)[1..] == rest;
      case Any =>
      case More => assert [z][1..] == [];
    }
  }

  // ----- The code's reading never has more special literals -----

  lemma {:induction false} CodeGuarded<T>(p: seq<T>, k: Specials<T>, run: bool)
    requires Code(p, k, run).Some?
    ensures Guarded(Code(p, k, run).value) && (p != [] ==> Code(p, k, run).value != [])
    decreases |p|
  {
    if p == [] {
    } else {
      var ts := Code(p, k, run).value;
      if run && (p[0] == k.pct || p[0] == k.und) {
        CodeGuarded(p[1..], k, true);
        assert ts[1..] == Code(p[1..], k, true).value;
      } else if p[0] == k.esc {
        if run {
          CodeGuarded(p[1..], k, false);
          assert ts[1..] == Code(p[1..], k, false).value;
        } else {
          CodeGuarded(p[2..], k, false);
          assert ts[1..] == Code(p[2..], k, false).value;
        }
      } else {
        CodeGuarded(p[1..], k, p[0] == k.pct);
        assert ts[1..] == Code(p[1..], k, p[0] == k.pct).value;
      }
    }
  }

  ghost function Lits<T>(reading: Option<seq<Token<T>>>, c: T): int
  {
    if reading.Some? then Literals(reading.value, c) else 0
  }

  lemma LitsPrepend<T>(t: Token<T>, a: Option<seq<Token<T>>>, c: T)
    requires a.Some?
    ensures Lits(Prepend(t, a), c) == Lits(a, c) + if t == Lit(c) then 1 else 0
  {
    assert ([t] + a.value)[1..] == a.value;
  }

  /** Neither reading is dead. */
  ghost predicate Alive<T>(a: Option<seq<Token<T>>>, b: Option<seq<Token<T>>>)
  {
    a.Some? && b.Some?
  }

  /** `a` has at least the special literals of `b`, escapes first; equal counts only if `same`. */
  ghost predicate AtLeast<T>(a: Option<seq<Token<T>>>, b: Option<seq<Token<T>>>, k: Specials<T>, same: bool)
  {
    && Lits(a, k.esc) >= Lits(b, k.esc)
    && (Lits(a, k.esc) == Lits(b, k.esc) ==>
          && Lits(a, k.pct) >= Lits(b, k.pct) && Lits(a, k.und) >= Lits(b, k.und)
          && (Lits(a, k.pct) == Lits(b, k.pct) && Lits(a, k.und) == Lits(b, k.und) ==> same))
  }

  lemma AtLeastPrepend<T>(t: Token<T>, a: Option<seq<Token<T>>>, b: Option<seq<Token<T>>>, k: Specials<T>, same: bool)
    requires Alive(a, b) && AtLeast(a, b, k, same)
    ensures AtLeast(Prepend(t, a), Prepend(t, b), k, same)
  {
    LitsPrepend(t, a, k.esc); LitsPrepend(t, a, k.pct); LitsPrepend(t, a, k.und);
    LitsPrepend(t, b, k.esc); LitsPrepend(t, b, k.pct); LitsPrepend(t, b, k.und);
  }

  lemma AtLeastMore<T>(a: Option<seq<Token<T>>>, b: Option<seq<Token<T>>>, k: Specials<T>, same: bool)
    requires Alive(a, b) && AtLeast(a, b, k, same)
    ensures AtLeast(a, Prepend(More, b), k, same)
  {
    LitsPrepend(More, b, k.esc); LitsPrepend(More, b, k.pct); LitsPrepend(More, b, k.und);
  }

  lemma {:induction false} ReadingCounts<T>(p: seq<T>, k: Specials<T>, run: bool)
    requires Distinct(k) && Alive(Standard(p, k), Code(p, k, run))
    ensures AtLeast(Standard(p, k), Code(p, k, run), k, Harmless(p, k, run))
    decreases |p|
  {
    hide AtLeast, Lits;
    if p == [] {
      assert AtLeast(Standard(p, k), Code(p, k, run), k, true) by { AtLeastRefl(Standard(p, k), k); }
    } else if p[0] == k.esc && run {
      assert [k.esc] + p[1..] == p;
      LaggingCounts(p[1..], k);
      AtLeastMore(Standard(p, k), Code(p[1..], k, false), k, Lagging(p[1..], k));
    } else if p[0] == k.esc {
      ReadingCounts(p[2..], k, false);
      AtLeastPrepend(Lit(p[1]), Standard(p[2..], k), Code(p[2..], k, false), k, Harmless(p[2..], k, false));
    } else {
      var r := p[0] == k.pct || (run && p[0] == k.und);
      ReadingCounts(p[1..], k, r);
      AtLeastPrepend(Plain(p[0], k), Standard(p[1..], k), Code(p[1..], k, r), k, Harmless(p[1..], k, r));
    }
  }

  lemma AtLeastRefl<T>(a: Option<seq<Token<T>>>, k: Specials<T>)
    ensures AtLeast(a, a, k, true)
  {
  }

  lemma {:induction false} LaggingCounts<T>(w: seq<T>, k: Specials<T>)
    requires Distinct(k) && Alive(Standard([k.esc] + w, k), Code(w, k, false))
    ensures AtLeast(Standard([k.esc] + w, k), Code(w, k, false), k, Lagging(w, k))
    decreases |w|
  {
    hide AtLeast, Lits;
    var p := [k.esc] + w;
    if w[0] != k.esc {
      assert p[2..] == w[1..];
      var a, r := Standard(w[1..], k), w[0] == k.pct;
      var b := Code(w[1..], k, r);
      ReadingCounts(w[1..], k, r);
      if w[0] == k.pct {
        MoreLiterals(k.pct, Any, a, b, k, Harmless(w[1..], k, r));
      } else if w[0] == k.und {
        MoreLiterals(k.und, One, a, b, k, Harmless(w[1..], k, r));
      } else {
        AtLeastPrepend(Lit(w[0]), a, b, k, Harmless(w[1..], k, r));
      }
    } else {
      assert p[2..] == w[1..];
      assert |w| >= 2;
      if w[1] == k.esc {
        assert w[1..] == [k.esc] + w[2..];
        LaggingCounts(w[2..], k);
        AtLeastPrepend(Lit(k.esc), Standard(w[1..], k), Code(w[2..], k, false), k, Lagging(w[2..], k));
      } else {
        assert w[1..][1..] == w[2..];
        ReadingCounts(w[2..], k, false);
        MoreEscapes(w[1], Standard(w[2..], k), Code(w[2..], k, false), k, Harmless(w[2..], k, false));
      }
    }
  }

  /** The standard reading has a literal wildcard where the code reads a wildcard. */
  lemma MoreLiterals<T>(c: T, t: Token<T>, a: Option<seq<Token<T>>>, b: Option<seq<Token<T>>>, k: Specials<T>,
      same: bool)
    requires Distinct(k) && Alive(a, b) && AtLeast(a, b, k, same) && (c == k.pct || c == k.und)
      && (t == Any || t == One)
    ensures AtLeast(Prepend(Lit(c), a), Prepend(t, b), k, false)
  {
    LitsPrepend(Lit(c), a, k.esc); LitsPrepend(Lit(c), a, k.pct); LitsPrepend(Lit(c), a, k.und);
    LitsPrepend(t, b, k.esc); LitsPrepend(t, b, k.pct); LitsPrepend(t, b, k.und);
  }

  /** The standard reading has a literal escape character that the code takes for an escape. */
  lemma MoreEscapes<T>(y: T, a: Option<seq<Token<T>>>, b: Option<seq<Token<T>>>, k: Specials<T>, same: bool)
    requires Distinct(k) && Alive(a, b) && AtLeast(a, b, k, same) && y != k.esc
    ensures AtLeast(Prepend(Lit(k.esc), Prepend(Plain(y, k), a)), Prepend(Lit(y), b), k, false)
  {
    LitsPrepend(Plain(y, k), a, k.esc);
    LitsPrepend(Lit(k.esc), Prepend(Plain(y, k), a), k.esc);
    LitsPrepend(Lit(y), b, k.esc);
  }

  // ----- Telling the readings apart -----

  /**
    The least string of the code's reading matches there, and not in the standard reading of a
    pattern that is not harmless.
  */
  lemma HarmfulDiffers<T>(p: seq<T>, k: Specials<T>, z: T)
    requires Distinct(k) && z != k.esc && z != k.pct && z != k.und
    requires Alive(Standard(p, k), Code(p, k, false)) && !Harmless(p, k, false)
    ensures Match(Code(p, k, false).value, Least(Code(p, k, false).value, z))
    ensures !Match(Standard(p, k).value, Least(Code(p, k, false).value, z))
  {
    var ts, us := Code(p, k, false).value, Standard(p, k).value;
    var s := Least(ts, z);
    CodeGuarded(p, k, false);
    LeastMatches(ts, z);
    ReadingCounts(p, k, false);
    LeastCounts(ts, z, k.esc); LeastCounts(ts, z, k.pct); LeastCounts(ts, z, k.und);
    if Match(us, s) {
      MatchCounts(us, s, k.esc); MatchCounts(us, s, k.pct); MatchCounts(us, s, k.und);
      assert false;
    }
  }

  lemma {:induction false} StandardGuarded<T>(p: seq<T>, k: Specials<T>)
    requires Standard(p, k).Some?
    ensures Guarded(Standard(p, k).value)
  {
    if p == [] {
    } else {
      var ts, rest := Standard(p, k).value, if p[0] == k.esc then p[2..] else p[1..];
      StandardGuarded(rest, k);
      assert ts[1..] == Standard(rest, k).value;
    }
  }

  ghost predicate BothDead<T>(p: seq<T>, k: Specials<T>)
  {
    Standard(p, k).None? && Code(p, k, false).None?
  }

  // ----- Where the literals come from -----

  ghost predicate AllIn<T>(s: seq<T>, ok: T -> bool)
  {
    forall i :: 0 <= i < |s| ==> ok(s[i])
  }

  ghost predicate LiteralsIn<T>(ts: seq<Token<T>>, ok: T -> bool)
  {
    forall i :: 0 <= i < |ts| && ts[i].Lit? ==> ok(ts[i].c)
  }

  lemma {:induction false} StandardLiterals<T>(p: seq<T>, k: Specials<T>, ok: T -> bool)
    requires AllIn(p, ok) && Standard(p, k).Some?
    ensures LiteralsIn(Standard(p, k).value, ok)
  {
    if p == [] {
    } else {
      StandardLiterals(if p[0] == k.esc then p[2..] else p[1..], k, ok);
    }
  }

  lemma {:induction false} CodeLiterals<T>(p: seq<T>, k: Specials<T>, run: bool, ok: T -> bool)
    requires AllIn(p, ok) && Code(p, k, run).Some?
    ensures LiteralsIn(Code(p, k, run).value, ok)
    decreases |p|
  {
    if p == [] {
    } else if run && (p[0] == k.pct || p[0] == k.und) {
      CodeLiterals(p[1..], k, true, ok);
    } else if p[0] == k.esc {
      CodeLiterals(if run then p[1..] else p[2..], k, false, ok);
    } else {
      CodeLiterals(p[1..], k, p[0] == k.pct, ok);
    }
  }

  lemma {:induction false} LeastIn<T>(ts: seq<Token<T>>, z: T, ok: T -> bool)
    requires LiteralsIn(ts, ok) && ok(z)
    ensures AllIn(Least(ts, z), ok)
  {
    if ts == [] {
    } else {
      LeastIn(ts[1..], z, ok);
    }
  }

  /**
    The two readings agree on every string over a set of characters exactly for harmless
    patterns over that set, and for those that match nothing in either.
  */
  lemma ReadingsAgreeExactlyWhenHarmless<T(!new)>(p: seq<T>, k: Specials<T>, z: T, ok: T -> bool)
    requires Distinct(k) && z != k.esc && z != k.pct && z != k.und && ok(z) && AllIn(p, ok)
    ensures (forall s :: AllIn(s, ok) ==> (Like(Code(p, k, false), s) <==> Like(Standard(p, k), s))) <==>
      Harmless(p, k, false) || BothDead(p, k)
  {
    hide AllIn, LiteralsIn, Match, Code, Standard;
    var a, b := Code(p, k, false), Standard(p, k);
    if Harmless(p, k, false) {
      HarmlessAgrees(p, k, false);
    } else if Alive(b, a) {
      CodeLiterals(p, k, false, ok);
      LeastIn(a.value, z, ok);
      HarmfulDiffers(p, k, z);
      assert Like(a, Least(a.value, z)) && !Like(b, Least(a.value, z));
    } else if a.Some? {
      CodeLiterals(p, k, false, ok);
      LeastIn(a.value, z, ok);
      CodeGuarded(p, k, false);
      LeastMatches(a.value, z);
      assert Like(a, Least(a.value, z)) && !Like(b, Least(a.value, z));
    } else if b.Some? {
      StandardLiterals(p, k, ok);
      LeastIn(b.value, z, ok);
      StandardGuarded(p, k);
      LeastMatches(b.value, z);
      assert Like(b, Least(b.value, z)) && !Like(a, Least(b.value, z));
    }
  }
}

/**
  LIKE patterns: the declarative relation, the standard reading of a pattern and the
  reading of `iterativeLike` (src/runtime/StringRuntime.cpp), and exactly when the two
  readings mean the same.

  The code differs from the standard in one place: after a run of wildcards that holds a
  `%`, it skips an escape character and reads what follows as if nothing preceded it.
*/
module LikeTokens {
  import opened Basics

  /** `More` consumes nothing and needs a character to be left; only the code's reading produces it. */
  datatype Token<T> = Lit(c: T) | One | Any | More

  /** The escape character and the two wildcards. */
  datatype Specials<T> = Specials(esc: T, pct: T, und: T)

  ghost predicate Distinct<T>(k: Specials<T>)
  {
    k.esc != k.pct && k.esc != k.und && k.pct != k.und
  }

  /** The declarative LIKE relation. */
  ghost predicate Match<T>(ts: seq<Token<T>>, s: seq<T>)
    decreases |ts|
  {
    if ts == [] then s == []
    else
      match ts[0]
      case Lit(c) => s != [] && s[0] == c && Match(ts[1..], s[1..])
      case One => s != [] && Match(ts[1..], s[1..])
      case Any => exists k :: 0 <= k <= |s| && Match(ts[1..], s[k..])
      case More => s != [] && Match(ts[1..], s)
  }

  function Prepend<T>(t: Token<T>, ts: Option<seq<Token<T>>>): Option<seq<Token<T>>>
  {
    if ts.None? then None else Some([t] + ts.value)
  }

  /** How a character reads that is not escaped and not the escape character. */
  function Plain<T(==)>(x: T, k: Specials<T>): Token<T>
  {
    if x == k.pct then Any else if x == k.und then One else Lit(x)
  }

  /** The standard reading; a pattern that ends in a lone escape character matches nothing. */
  function Standard<T(==)>(p: seq<T>, k: Specials<T>): Option<seq<Token<T>>>
  {
    if p == [] then Some([])
    else if p[0] == k.esc then if |p| == 1 then None else Prepend(Lit(p[1]), Standard(p[2..], k))
    else Prepend(Plain(p[0], k), Standard(p[1..], k))
  }

  /** The code's reading; `run` holds right after a run of wildcards with a `%` in it, where wildcards come first. */
  function Code<T(==)>(p: seq<T>, k: Specials<T>, run: bool): Option<seq<Token<T>>>
    decreases |p|
  {
    if p == [] then Some([])
    else if run && (p[0] == k.pct || p[0] == k.und) then Prepend(Plain(p[0], k), Code(p[1..], k, true))
    else if p[0] == k.esc then
      if |p| == 1 then None
      else if run then Prepend(More, Code(p[1..], k, false))
      else Prepend(Lit(p[1]), Code(p[2..], k, false))
    else Prepend(Plain(p[0], k), Code(p[1..], k, p[0] == k.pct))
  }

  ghost predicate Like<T>(reading: Option<seq<Token<T>>>, s: seq<T>)
  {
    reading.Some? && Match(reading.value, s)
  }

  // ----- Harmless patterns -----

  /** Every escape sequence after a `%` run is read alike; see Lagging for what follows the skipped escape. */
  predicate Harmless<T(==)>(p: seq<T>, k: Specials<T>, run: bool)
    decreases |p|
  {
    if p == [] then true
    else if p[0] == k.esc then
      if |p| == 1 then true
      else if run then Lagging(p[1..], k)
      else Harmless(p[2..], k, false)
    else Harmless(p[1..], k, p[0] == k.pct || (run && p[0] == k.und))
  }

  /**
    The code has skipped an escape character that the standard reading still has to
    read: an even number of further escapes and then an ordinary character bring the two
    together again.
  */
  predicate Lagging<T(==)>(w: seq<T>, k: Specials<T>)
    decreases |w|
  {
    if w == [] then false
    else if w[0] == k.esc then |w| >= 2 && w[1] == k.esc && Lagging(w[2..], k)
    else w[0] != k.pct && w[0] != k.und && Harmless(w[1..], k, false)
  }

  ghost predicate Equivalent<T(!new)>(ts: seq<Token<T>>, us: seq<Token<T>>)
  {
    forall s :: Match(ts, s) <==> Match(us, s)
  }

  ghost predicate SameReading<T(!new)>(a: Option<seq<Token<T>>>, b: Option<seq<Token<T>>>)
  {
    (a.None? <==> b.None?) && (a.Some? && b.Some? ==> Equivalent(a.value, b.value))
  }

  lemma SamePrepend<T(!new)>(t: Token<T>, a: Option<seq<Token<T>>>, b: Option<seq<Token<T>>>)
    requires SameReading(a, b)
    ensures SameReading(Prepend(t, a), Prepend(t, b))
  {
    if a.Some? {
      var ts, us := [t] + a.value, [t] + b.value;
      assert ts[1..] == a.value && us[1..] == b.value;
      assert ts[0] == us[0] == t;
    }
  }

  lemma MoreLit<T(!new)>(c: T, a: Option<seq<Token<T>>>)
    ensures SameReading(Prepend(More, Prepend(Lit(c), a)), Prepend(Lit(c), a))
  {
    if a.Some? {
      var us := [Lit(c)] + a.value;
      var ts := [More] + us;
      assert ts[1..] == us;
    }
  }

  lemma SameTwice<T(!new)>(a: Option<seq<Token<T>>>, b: Option<seq<Token<T>>>, c: Option<seq<Token<T>>>)
    requires SameReading(a, b) && SameReading(b, c)
    ensures SameReading(a, c)
  {
  }

  /** A harmless pattern means the same in both readings. */
  lemma {:induction false} HarmlessAgrees<T(!new)>(p: seq<T>, k: Specials<T>, run: bool)
    requires Distinct(k) && Harmless(p, k, run)
    ensures SameReading(Code(p, k, run), Standard(p, k))
    decreases |p|
  {
    hide SameReading;
    if p == [] || (p[0] == k.esc && |p| == 1) {
      SameRefl(Standard(p, k));
    } else if p[0] == k.esc && run {
      LaggingAgrees(p[1..], k);
      assert [k.esc] + p[1..] == p;
    } else if p[0] == k.esc {
      HarmlessAgrees(p[2..], k, false);
      SamePrepend(Lit(p[1]), Code(p[2..], k, false), Standard(p[2..], k));
    } else {
      var r := p[0] == k.pct || (run && p[0] == k.und);
      HarmlessAgrees(p[1..], k, r);
      SamePrepend(Plain(p[0], k), Code(p[1..], k, r), Standard(p[1..], k));
    }
  }

  lemma SameRefl<T(!new)>(a: Option<seq<Token<T>>>)
    ensures SameReading(a, a)
  {
  }

  lemma {:induction false} LaggingAgrees<T(!new)>(w: seq<T>, k: Specials<T>)
    requires Distinct(k) && Lagging(w, k)
    ensures SameReading(Prepend(More, Code(w, k, false)), Standard([k.esc] + w, k))
    decreases |w|
  {
    hide SameReading;
    var p := [k.esc] + w;
    if w[0] == k.esc {
      assert p[2..] == [k.esc] + w[2..];
      LaggingAgrees(w[2..], k);
      MoreRestAgrees(w[2..], k);
      var a, b := Code(w[2..], k, false), Standard([k.esc] + w[2..], k);
      SamePrepend(Lit(k.esc), a, b);
      MoreLit(k.esc, a);
      SameTwice(Prepend(More, Code(w, k, false)), Prepend(Lit(k.esc), a), Prepend(Lit(k.esc), b));
    } else {
      assert p[2..] == w[1..];
      HarmlessAgrees(w[1..], k, false);
      var a, b := Code(w[1..], k, false), Standard(w[1..], k);
      SamePrepend(Lit(w[0]), a, b);
      MoreLit(w[0], a);
      SameTwice(Prepend(More, Code(w, k, false)), Prepend(Lit(w[0]), a), Prepend(Lit(w[0]), b));
    }
  }

  /** Without the guard: what a lagging reading starts with is a literal. */
  lemma {:induction false} MoreRestAgrees<T(!new)>(w: seq<T>, k: Specials<T>)
    requires Distinct(k) && Lagging(w, k) && SameReading(Prepend(More, Code(w, k, false)), Standard([k.esc] + w, k))
    ensures SameReading(Code(w, k, false), Standard([k.esc] + w, k))
  {
    hide SameReading;
    var c := w[0];
    var rest := if c == k.esc then Code(w[2..], k, false) else Code(w[1..], k, false);
    assert Code(w, k, false) == Prepend(Lit(c), rest);
    MoreLit(c, rest);
    SameSym(Prepend(More, Code(w, k, false)), Code(w, k, false));
    SameTwice(Code(w, k, false), Prepend(More, Code(w, k, false)), Standard([k.esc] + w, k));
  }

  lemma SameSym<T(!new)>(a: Option<seq<Token<T>>>, b: Option<seq<Token<T>>>)
    requires SameReading(a, b)
    ensures SameReading(b, a)
  {
  }
}

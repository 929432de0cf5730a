/**
  `iterativeLike` on bytes (src/runtime/StringRuntime.cpp). It moves by whole UTF-8
  characters but compares only their first bytes.
*/
module Like {
  import opened Basics
  import opened LikeTokens

  type Byte = b: nat | b < 256

  predicate Continuation(b: Byte)
  {
    b / 64 == 2
  }

  /** What is left after the first character: its first byte and the continuation bytes behind it are skipped. */
  function SkipContinuations(s: seq<Byte>): (r: seq<Byte>)
    ensures |r| <= |s|
  {
    if s != [] && Continuation(s[0]) then SkipContinuations(s[1..]) else s
  }

  /** The first byte of every character. */
  function LeadBytes(s: seq<Byte>): seq<Byte>
    decreases |s|
  {
    if s == [] then [] else [s[0]] + LeadBytes(SkipContinuations(s[1..]))
  }

  method NextChar(s: seq<Byte>) returns (r: seq<Byte>)
    requires s != []
    ensures LeadBytes(s) == [s[0]] + LeadBytes(r) && |r| < |s|
  {
    r := s[1..];
    while r != [] && Continuation(r[0])
      invariant SkipContinuations(r) == SkipContinuations(s[1..]) && |r| < |s|
    {
      r := r[1..];
    }
  }

  function Marks(escape: Byte): Specials<Byte>
  {
    Specials(escape, '%' as int, '_' as int)
  }

  /** The answer on first bytes. */
  ghost predicate CodeLike(s: seq<Byte>, p: seq<Byte>, escape: Byte)
  {
    LikeTokens.Like(Code(p, Marks(escape), false), s)
  }

  // ----- Steps of the matching loop -----

  /** What is left of the string after a `%`: some suffix matches. */
  ghost predicate SuffixLike(s: seq<Byte>, p: seq<Byte>, escape: Byte)
  {
    exists j :: 0 <= j <= |s| && LikeTokens.Like(Code(p, Marks(escape), true), s[j..])
  }

  /** A `%`, then the rest of its run. */
  lemma LikePercent(s: seq<Byte>, p: seq<Byte>, escape: Byte)
    requires p != [] && p[0] == '%' as int && escape != '%' as int
    ensures CodeLike(s, p, escape) <==> SuffixLike(s, p[1..], escape)
  {
    var rest := Code(p[1..], Marks(escape), true);
    if rest.Some? {
      assert ([Any] + rest.value)[1..] == rest.value;
    }
  }

  lemma SuffixPercent(s: seq<Byte>, p: seq<Byte>, escape: Byte)
    requires p != [] && p[0] == '%' as int
    ensures SuffixLike(s, p, escape) <==> SuffixLike(s, p[1..], escape)
  {
    var rest := Code(p[1..], Marks(escape), true);
    if rest.Some? {
      var ts := [Any] + rest.value;
      assert ts[1..] == rest.value && Code(p, Marks(escape), true) == Some(ts);
      if i :| 0 <= i <= |s| && Match(ts, s[i..]) {
        var j :| 0 <= j <= |s[i..]| && Match(rest.value, s[i..][j..]);
        assert s[i..][j..] == s[i + j..];
      }
      if j :| 0 <= j <= |s| && Match(rest.value, s[j..]) {
        assert s[j..][0..] == s[j..];
        assert Match(ts, s[j..]);
      }
    }
  }

  lemma SuffixOne(s: seq<Byte>, p: seq<Byte>, escape: Byte)
    requires p != [] && p[0] == '_' as int
    ensures SuffixLike(s, p, escape) <==> s != [] && SuffixLike(s[1..], p[1..], escape)
  {
    var rest := Code(p[1..], Marks(escape), true);
    if rest.Some? {
      var ts := [One] + rest.value;
      assert ts[1..] == rest.value && Code(p, Marks(escape), true) == Some(ts);
      if i :| 0 <= i <= |s| && Match(ts, s[i..]) {
        assert s[i..][1..] == s[1..][i..];
      }
      if s != [] {
        if j :| 0 <= j <= |s[1..]| && Match(rest.value, s[1..][j..]) {
          assert s[j..][1..] == s[1..][j..] && s[j..] != [];
          assert Match(ts, s[j..]);
        }
      }
    }
  }

  /** The end of the run: a suffix with at least one character must match the rest, read afresh. */
  ghost predicate LaterLike(s: seq<Byte>, p: seq<Byte>, escape: Byte)
  {
    exists j :: 0 <= j < |s| && CodeLike(s[j..], p, escape)
  }

  lemma SuffixEscape(s: seq<Byte>, p: seq<Byte>, escape: Byte)
    requires |p| >= 2 && p[0] == escape != '%' as int && escape != '_' as int
    ensures SuffixLike(s, p, escape) <==> LaterLike(s, p[1..], escape)
  {
    var rest := Code(p[1..], Marks(escape), false);
    if rest.Some? {
      var ts := [More] + rest.value;
      assert ts[1..] == rest.value && Code(p, Marks(escape), true) == Some(ts);
      if i :| 0 <= i <= |s| && Match(ts, s[i..]) {
        assert CodeLike(s[i..], p[1..], escape);
      }
      if j :| 0 <= j < |s| && CodeLike(s[j..], p[1..], escape) {
        assert Match(ts, s[j..]);
      }
    }
  }

  lemma SuffixLiteral(s: seq<Byte>, p: seq<Byte>, escape: Byte)
    requires p != [] && p[0] != escape && p[0] != '%' as int && p[0] != '_' as int
    ensures SuffixLike(s, p, escape) <==> LaterLike(s, p, escape)
  {
    var a := Code(p, Marks(escape), true);
    assert a == Code(p, Marks(escape), false);
    if a.Some? {
      if j :| 0 <= j <= |s| && Match(a.value, s[j..]) {
        assert CodeLike(s[j..], p, escape);
      }
    }
  }

  lemma LaterStep(s: seq<Byte>, p: seq<Byte>, escape: Byte)
    requires s != []
    ensures LaterLike(s, p, escape) <==> CodeLike(s, p, escape) || LaterLike(s[1..], p, escape)
  {
    if CodeLike(s, p, escape) {
      assert s[0..] == s;
    }
    if j :| 0 <= j < |s| && CodeLike(s[j..], p, escape) && j > 0 {
      assert s[1..][j - 1..] == s[j..];
    }
    if j :| 0 <= j < |s[1..]| && CodeLike(s[1..][j..], p, escape) {
      assert s[1..][j..] == s[j + 1..];
    }
  }

  /** A literal, escaped or not, or a `_`. */
  lemma LikeOneChar(s: seq<Byte>, p: seq<Byte>, escape: Byte)
    requires p != [] && s != [] && (p[0] == '%' as int ==> p[0] == escape) && (p[0] == escape ==> |p| >= 2)
    ensures var rest := if p[0] == escape then p[2..] else p[1..];
      var ok := if p[0] == escape then p[1] == s[0] else p[0] == '_' as int || p[0] == s[0];
      CodeLike(s, p, escape) <==> ok && CodeLike(s[1..], rest, escape)
  {
    var rest := Code(if p[0] == escape then p[2..] else p[1..], Marks(escape), false);
    if rest.Some? {
      var ts := Code(p, Marks(escape), false).value;
      assert ts[1..] == rest.value;
    }
  }

  /** The empty string matches exactly the patterns of `%` signs. */
  lemma {:induction false} LikeEmpty(p: seq<Byte>, escape: Byte, run: bool)
    requires escape != '%' as int
    ensures LikeTokens.Like(Code(p, Marks(escape), run), []) <==> forall i :: 0 <= i < |p| ==> p[i] == '%' as int
    decreases |p|
  {
    if p == [] {
    } else {
      var a := Code(p, Marks(escape), run);
      if p[0] == '%' as int {
        LikeEmpty(p[1..], escape, true);
        var rest := Code(p[1..], Marks(escape), true);
        if rest.Some? {
          assert a.value[1..] == rest.value;
          var none: seq<Byte> := [];
          assert none[0..] == none;
          assert Match(a.value, []) <==> Match(rest.value, []);
        }
        assert p == [p[0]] + p[1..];
      }
    }
  }

  lemma Heads(s: seq<Byte>)
    requires s != []
    ensures LeadBytes(s) != [] && LeadBytes(s)[0] == s[0]
  {
  }

  lemma LoneEscape(s: seq<Byte>, p: seq<Byte>, escape: Byte)
    requires p == [escape]
    ensures !CodeLike(s, p, escape) && (escape != '%' as int && escape != '_' as int ==> !SuffixLike(s, p, escape))
  {
  }

  lemma NoPattern(s: seq<Byte>, escape: Byte)
    ensures SuffixLike(s, [], escape) && (CodeLike(s, [], escape) <==> s == [])
  {
    assert s[|s|..] == [];
    assert LikeTokens.Like(Code([], Marks(escape), true), s[|s|..]);
  }

  // ----- `%` as the escape character -----

  ghost predicate Percents(p: seq<Byte>)
  {
    forall i :: 0 <= i < |p| ==> p[i] == '%' as int
  }

  /** No wildcard `%` is left, but `%` signs at the end of the pattern are still skipped. */
  ghost predicate TrimmedLike(s: seq<Byte>, p: seq<Byte>, escape: Byte)
  {
    exists i :: 0 <= i <= |p| && Percents(p[i..]) && CodeLike(s, p[..i], escape)
  }

  lemma TrimmedOneChar(s: seq<Byte>, p: seq<Byte>)
    requires p != [] && s != [] && (p[0] == '%' as int ==> |p| >= 2)
    ensures var escape := '%' as int;
      var rest := if p[0] == escape then p[2..] else p[1..];
      var ok := if p[0] == escape then p[1] == s[0] else p[0] == '_' as int || p[0] == s[0];
      TrimmedLike(s, p, escape) <==> ok && TrimmedLike(s[1..], rest, escape)
  {
    hide CodeLike, Percents;
    var escape: Byte, n := '%' as int, if p[0] == '%' as int then 2 else 1;
    assert p[..0] == [] && (n == 2 ==> p[..1] == [escape]);
    if i :| 0 <= i <= |p| && Percents(p[i..]) && CodeLike(s, p[..i], escape) {
      NoPattern(s, escape);
      LoneEscape(s, [escape], escape);
      assert i >= n;
      TrimmedPrefix(s, p, n, i);
    }
    if j :| 0 <= j <= |p[n..]| && Percents(p[n..][j..]) && CodeLike(s[1..], p[n..][..j], escape) {
      TrimmedPrefix(s, p, n, n + j);
    }
  }

  lemma TrimmedPrefix(s: seq<Byte>, p: seq<Byte>, n: nat, i: nat)
    requires p != [] && s != [] && (p[0] == '%' as int ==> |p| >= 2)
    requires n == (if p[0] == '%' as int then 2 else 1) && n <= i <= |p|
    ensures p[i..] == p[n..][i - n..]
    ensures var ok := if p[0] == '%' as int then p[1] == s[0] else p[0] == '_' as int || p[0] == s[0];
      CodeLike(s, p[..i], '%' as int) <==> ok && CodeLike(s[1..], p[n..][..i - n], '%' as int)
  {
    LikeOneChar(s, p[..i], '%' as int);
    assert p[..i][n..] == p[n..][..i - n];
  }

  lemma TrimmedEmpty(p: seq<Byte>)
    ensures TrimmedLike([], p, '%' as int) <==> Percents(p)
  {
    NoPattern([], '%' as int);
    if Percents(p) {
      assert p[0..] == p && p[..0] == [];
    }
    if i :| 0 <= i <= |p| && Percents(p[i..]) && CodeLike([], p[..i], '%' as int) {
      if i > 0 {
        NeedsChar(p[..i]);
        assert false;
      }
      assert p[0..] == p;
    }
  }

  lemma NeedsChar(p: seq<Byte>)
    requires p != []
    ensures !CodeLike([], p, '%' as int)
  {
  }

  lemma TrimmedNoPattern(s: seq<Byte>)
    ensures TrimmedLike(s, [], '%' as int) <==> s == []
  {
    NoPattern(s, '%' as int);
    var none: seq<Byte> := [];
    assert none[..0] == none && none[0..] == none;
  }

  lemma TrimmedLone(s: seq<Byte>, p: seq<Byte>)
    requires s != [] && p == ['%' as int]
    ensures !TrimmedLike(s, p, '%' as int)
  {
    NoPattern(s, '%' as int);
    LoneEscape(s, p, '%' as int);
    assert p[..0] == [] && p[..1] == p;
  }

  lemma LaterEmpty(p: seq<Byte>, escape: Byte)
    ensures !LaterLike([], p, escape)
  {
  }

  lemma EmptyLikePercents(p: seq<Byte>, escape: Byte)
    requires p != [] && escape != '%' as int
    ensures CodeLike([], p, escape) <==> p[0] == '%' as int && CodeLike([], p[1..], escape)
  {
    LikeEmpty(p, escape, false);
    LikeEmpty(p[1..], escape, false);
    assert p == [p[0]] + p[1..];
  }

  // ----- The answer -----

  /** What the loop decides, for every escape character. */
  ghost predicate Answer(s: seq<Byte>, p: seq<Byte>, escape: Byte)
  {
    if escape == '%' as int then TrimmedLike(s, p, escape) else CodeLike(s, p, escape)
  }

  // ----- ASCII -----

  ghost predicate IsAscii(s: seq<Byte>)
  {
    forall i :: 0 <= i < |s| ==> s[i] < 128
  }

  /** On ASCII text a byte is a character. */
  lemma {:induction false} AsciiLeads(s: seq<Byte>)
    requires IsAscii(s)
    ensures LeadBytes(s) == s
  {
    if s == [] {
    } else {
      assert s == [s[0]] + s[1..];
      AsciiLeads(s[1..]);
    }
  }

  lemma AsciiAnswer(s: seq<Byte>, p: seq<Byte>, escape: Byte)
    requires IsAscii(s) && IsAscii(p) && Distinct(Marks(escape)) && Harmless(p, Marks(escape), false)
    ensures Answer(LeadBytes(s), LeadBytes(p), escape) <==> LikeTokens.Like(Standard(p, Marks(escape)), s)
  {
    AsciiLeads(s);
    AsciiLeads(p);
    HarmlessAgrees(p, Marks(escape), false);
  }

  // ----- The matching loop -----

  lemma AnswerOneChar(s: seq<Byte>, p: seq<Byte>, escape: Byte)
    requires p != [] && s != [] && (p[0] == '%' as int ==> p[0] == escape) && (p[0] == escape ==> |p| >= 2)
    ensures var rest := if p[0] == escape then p[2..] else p[1..];
      var ok := if p[0] == escape then p[1] == s[0] else p[0] == '_' as int || p[0] == s[0];
      Answer(s, p, escape) <==> ok && Answer(s[1..], rest, escape)
  {
    hide CodeLike, TrimmedLike;
    if escape == '%' as int {
      TrimmedOneChar(s, p);
    } else {
      LikeOneChar(s, p, escape);
    }
  }

  lemma AnswerPercent(s: seq<Byte>, p: seq<Byte>, escape: Byte)
    requires p != [] && p[0] == '%' as int && escape != '%' as int
    ensures Answer(s, p, escape) <==> SuffixLike(s, p[1..], escape)
  {
    LikePercent(s, p, escape);
  }

  lemma AnswerEmpty(p: seq<Byte>, escape: Byte)
    requires p != []
    ensures Answer([], p, escape) <==> p[0] == '%' as int && Answer([], p[1..], escape)
  {
    hide CodeLike, TrimmedLike;
    if escape == '%' as int {
      TrimmedEmpty(p);
      TrimmedEmpty(p[1..]);
      assert p == [p[0]] + p[1..];
    } else {
      EmptyLikePercents(p, escape);
    }
  }

  lemma AnswerNoPattern(s: seq<Byte>, escape: Byte)
    ensures Answer(s, [], escape) <==> s == []
  {
    NoPattern(s, escape);
    TrimmedNoPattern(s);
  }

  lemma AnswerLone(s: seq<Byte>, p: seq<Byte>, escape: Byte)
    requires s != [] && p == [escape]
    ensures !Answer(s, p, escape)
  {
    LoneEscape(s, p, escape);
    if escape == '%' as int {
      TrimmedLone(s, p);
    }
  }

  /** The answer for a string and a pattern, by characters' first bytes; on ASCII, LIKE itself for harmless patterns. */
  method IterativeLike(str: seq<Byte>, pattern: seq<Byte>, escape: Byte) returns (r: bool)
    ensures r <==> Answer(LeadBytes(str), LeadBytes(pattern), escape)
    ensures IsAscii(str) && IsAscii(pattern) && Distinct(Marks(escape)) && Harmless(pattern, Marks(escape), false) ==>
      (r <==> LikeTokens.Like(Standard(pattern, Marks(escape)), str))
    decreases |pattern|, 0
  {
    hide Code, Match, LeadBytes, CodeLike, SuffixLike, LaterLike, Answer, IsAscii, Harmless, Standard, Distinct;
    if IsAscii(str) && IsAscii(pattern) && Distinct(Marks(escape)) && Harmless(pattern, Marks(escape), false) {
      AsciiAnswer(str, pattern, escape);
    }
    var s, p := str, pattern;
    while p != [] && s != []
      invariant |p| <= |pattern|
      invariant Answer(LeadBytes(str), LeadBytes(pattern), escape) <==> Answer(LeadBytes(s), LeadBytes(p), escape)
      decreases |p|
    {
      Heads(s); Heads(p);
      var q := NextChar(p);
      if p[0] == escape {
        if q == [] {
          EmptyLeads();
          AnswerLone(LeadBytes(s), LeadBytes(p), escape);
          return false;
        }
        Heads(q);
        AnswerOneChar(LeadBytes(s), LeadBytes(p), escape);
        if q[0] != s[0] {
          return false;
        }
        s := NextChar(s);
        ghost var leads := LeadBytes(p);
        p := NextChar(q);
        assert leads[2..] == LeadBytes(p);
      } else if p[0] == '%' as int {
        AnswerPercent(LeadBytes(s), LeadBytes(p), escape);
        r := MatchSuffixes(s, q, escape);
        return;
      } else {
        AnswerOneChar(LeadBytes(s), LeadBytes(p), escape);
        if p[0] != '_' as int && p[0] != s[0] {
          return false;
        }
        s := NextChar(s);
        p := q;
      }
    }
    EmptyLeads();
    while p != [] && p[0] == '%' as int
      invariant s == [] || p == []
      invariant Answer(LeadBytes(str), LeadBytes(pattern), escape) <==> Answer(LeadBytes(s), LeadBytes(p), escape)
      decreases |p|
    {
      Heads(p);
      AnswerEmpty(LeadBytes(p), escape);
      p := NextChar(p);
    }
    if p == [] {
      AnswerNoPattern(LeadBytes(s), escape);
      if s != [] {
        Heads(s);
      }
    } else {
      Heads(p);
      AnswerEmpty(LeadBytes(p), escape);
    }
    r := s == [] && p == [];
  }

  lemma EmptyLeads()
    ensures LeadBytes([]) == []
  {
  }

  /** Behind a `%`: the rest of the run, then every suffix in turn. */
  method MatchSuffixes(str: seq<Byte>, pattern: seq<Byte>, escape: Byte) returns (r: bool)
    requires escape != '%' as int
    ensures r <==> SuffixLike(LeadBytes(str), LeadBytes(pattern), escape)
    decreases |pattern|, 1
  {
    hide Code, Match, LeadBytes, CodeLike, SuffixLike, LaterLike, IsAscii, Harmless, Standard, Distinct;
    EmptyLeads();
    var s, p := str, pattern;
    while p != [] && (p[0] == '%' as int || p[0] == '_' as int)
      invariant |p| <= |pattern|
      invariant SuffixLike(LeadBytes(str), LeadBytes(pattern), escape) <==>
        SuffixLike(LeadBytes(s), LeadBytes(p), escape)
      decreases |p|
    {
      Heads(p);
      if p[0] == '%' as int {
        SuffixPercent(LeadBytes(s), LeadBytes(p), escape);
        p := NextChar(p);
      } else {
        SuffixOne(LeadBytes(s), LeadBytes(p), escape);
        if s == [] {
          return false;
        }
        Heads(s);
        s := NextChar(s);
        p := NextChar(p);
      }
    }
    if p == [] {
      NoPattern(LeadBytes(s), escape);
      return true;
    }
    Heads(p);
    if p[0] == escape {
      var q := NextChar(p);
      if q == [] {
        LoneEscape(LeadBytes(s), LeadBytes(p), escape);
        return false;
      }
      Heads(q);
      SuffixEscape(LeadBytes(s), LeadBytes(p), escape);
      p := q;
    } else {
      SuffixLiteral(LeadBytes(s), LeadBytes(p), escape);
    }
    while s != []
      invariant SuffixLike(LeadBytes(str), LeadBytes(pattern), escape) <==>
        LaterLike(LeadBytes(s), LeadBytes(p), escape)
      decreases |s|
    {
      Heads(s);
      LaterStep(LeadBytes(s), LeadBytes(p), escape);
      r := IterativeLike(s, p, escape);
      if r {
        return;
      }
      s := NextChar(s);
    }
    LaterEmpty(LeadBytes(p), escape);
    return false;
  }
}

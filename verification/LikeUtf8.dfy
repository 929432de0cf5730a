/**
  LIKE on UTF-8 text: `iterativeLike` (src/runtime/StringRuntime.cpp) compares first
  bytes only, so a literal outside ASCII also matches its neighbours.

  A character is a first byte and its continuation bytes. The further restrictions of
  UTF-8 (overlong forms, surrogates) only narrow the second byte of a character; the
  characters built below differ in their last byte, so they are text whenever the
  pattern is.
*/
module LikeUtf8 {
  import opened Basics
  import opened Like
  import opened LikeExact
  import opened LikeTokens

  datatype UChar = UChar(lead: Byte, tail: seq<Byte>)

  ghost predicate IsChar(c: UChar)
  {
    && !Continuation(c.lead) && (c.lead < 128 <==> c.tail == [])
    && forall i :: 0 <= i < |c.tail| ==> Continuation(c.tail[i])
  }

  ghost predicate IsText(cs: seq<UChar>)
  {
    forall i :: 0 <= i < |cs| ==> IsChar(cs[i])
  }

  ghost function Bytes(cs: seq<UChar>): seq<Byte>
  {
    if cs == [] then [] else [cs[0].lead] + cs[0].tail + Bytes(cs[1..])
  }

  ghost function Leads(cs: seq<UChar>): seq<Byte>
  {
    seq(|cs|, i requires 0 <= i < |cs| => cs[i].lead)
  }

  function Ascii(b: Byte): UChar
  {
    UChar(b, [])
  }

  /** Wildcards and escape as characters; the source passes a backslash. */
  ghost function Signs(escape: Byte): Specials<UChar>
  {
    Specials(Ascii(escape), Ascii('%' as int), Ascii('_' as int))
  }

  // ----- The bytes of a text -----

  lemma {:induction false} SkipTail(tail: seq<Byte>, rest: seq<Byte>)
    requires (forall i :: 0 <= i < |tail| ==> Continuation(tail[i])) && (rest != [] ==> !Continuation(rest[0]))
    ensures SkipContinuations(tail + rest) == rest
  {
    if tail == [] {
      assert tail + rest == rest;
    } else {
      assert (tail + rest)[1..] == tail[1..] + rest;
      SkipTail(tail[1..], rest);
    }
  }

  /** Walking the bytes of a text visits exactly the first bytes of its characters. */
  lemma {:induction false} LeadBytesOfText(cs: seq<UChar>)
    requires IsText(cs)
    ensures LeadBytes(Bytes(cs)) == Leads(cs)
  {
    if cs == [] {
    } else {
      var rest := Bytes(cs[1..]);
      LeadBytesOfText(cs[1..]);
      assert Bytes(cs) == [cs[0].lead] + (cs[0].tail + rest);
      assert Bytes(cs)[1..] == cs[0].tail + rest;
      assert cs[1..] != [] ==> rest[0] == cs[1].lead;
      SkipTail(cs[0].tail, rest);
      assert Leads(cs) == [cs[0].lead] + Leads(cs[1..]);
    }
  }

  // ----- Tokens of characters and tokens of first bytes -----

  ghost function LeadToken(t: Token<UChar>): Token<Byte>
  {
    match t
    case Lit(c) => Lit(c.lead)
    case One => One
    case Any => Any
    case More => More
  }

  ghost function LeadTokens(ts: seq<Token<UChar>>): seq<Token<Byte>>
  {
    seq(|ts|, i requires 0 <= i < |ts| => LeadToken(ts[i]))
  }

  ghost function LeadReading(r: Option<seq<Token<UChar>>>): Option<seq<Token<Byte>>>
  {
    if r.Some? then Some(LeadTokens(r.value)) else None
  }

  lemma LeadPrepend(t: Token<UChar>, r: Option<seq<Token<UChar>>>)
    ensures LeadReading(Prepend(t, r)) == Prepend(LeadToken(t), LeadReading(r))
  {
    if r.Some? {
      assert LeadTokens([t] + r.value) == [LeadToken(t)] + LeadTokens(r.value);
    }
  }

  lemma SignLeads(c: UChar, b: Byte)
    requires IsChar(c) && b < 128
    ensures c.lead == b <==> c == Ascii(b)
  {
  }

  /** The code reads the first bytes of a pattern as it would read its characters. */
  lemma {:induction false} CodeOfLeads(p: seq<UChar>, escape: Byte, run: bool)
    requires IsText(p) && escape < 128
    ensures Code(Leads(p), Marks(escape), run) == LeadReading(Code(p, Signs(escape), run))
    decreases |p|
  {
    if p == [] {
      assert LeadTokens([]) == [];
    } else {
      var ls, k := Leads(p), Signs(escape);
      assert ls[1..] == Leads(p[1..]);
      SignLeads(p[0], escape); SignLeads(p[0], '%' as int); SignLeads(p[0], '_' as int);
      if run && (p[0] == k.pct || p[0] == k.und) {
        CodeOfLeads(p[1..], escape, true);
        LeadPrepend(Plain(p[0], k), Code(p[1..], k, true));
      } else if p[0] == k.esc {
        if |p| >= 2 {
          assert ls[2..] == Leads(p[2..]);
          if run {
            CodeOfLeads(p[1..], escape, false);
            LeadPrepend(More, Code(p[1..], k, false));
          } else {
            CodeOfLeads(p[2..], escape, false);
            LeadPrepend(Lit(p[1]), Code(p[2..], k, false));
          }
        }
      } else {
        CodeOfLeads(p[1..], escape, p[0] == k.pct);
        LeadPrepend(Plain(p[0], k), Code(p[1..], k, p[0] == k.pct));
      }
    }
  }

  lemma {:induction false} MatchLeads(ts: seq<Token<UChar>>, s: seq<UChar>)
    requires Match(ts, s)
    ensures Match(LeadTokens(ts), Leads(s))
    decreases |ts|
  {
    if ts == [] {
    } else {
      assert LeadTokens(ts)[1..] == LeadTokens(ts[1..]);
      match ts[0]
      case Lit(_) => MatchLeads(ts[1..], s[1..]); assert Leads(s)[1..] == Leads(s[1..]);
      case One => MatchLeads(ts[1..], s[1..]); assert Leads(s)[1..] == Leads(s[1..]);
      case Any =>
        var j :| 0 <= j <= |s| && Match(ts[1..], s[j..]);
        MatchLeads(ts[1..], s[j..]);
        assert Leads(s)[j..] == Leads(s[j..]);
      case More => MatchLeads(ts[1..], s);
    }
  }

  ghost predicate AsciiLiterals(ts: seq<Token<UChar>>)
  {
    forall i :: 0 <= i < |ts| && ts[i].Lit? ==> ts[i].c.lead < 128
  }

  /** With ASCII literals, first bytes decide. */
  lemma {:induction false} LeadsMatch(ts: seq<Token<UChar>>, s: seq<UChar>)
    requires AsciiLiterals(ts) && LiteralsIn(ts, IsChar) && IsText(s) && Match(LeadTokens(ts), Leads(s))
    ensures Match(ts, s)
    decreases |ts|
  {
    if ts == [] {
    } else {
      assert LeadTokens(ts)[1..] == LeadTokens(ts[1..]);
      match ts[0]
      case Lit(c) =>
        assert Leads(s)[1..] == Leads(s[1..]);
        SignLeads(s[0], c.lead);
        LeadsMatch(ts[1..], s[1..]);
      case One =>
        assert Leads(s)[1..] == Leads(s[1..]);
        LeadsMatch(ts[1..], s[1..]);
      case Any =>
        var j :| 0 <= j <= |Leads(s)| && Match(LeadTokens(ts[1..]), Leads(s)[j..]);
        assert Leads(s)[j..] == Leads(s[j..]);
        LeadsMatch(ts[1..], s[j..]);
      case More => LeadsMatch(ts[1..], s);
    }
  }

  // ----- Exactly when the code is LIKE -----

  /** What `iterativeLike` answers for a text. */
  ghost predicate CodeSays(s: seq<UChar>, p: seq<UChar>, escape: Byte)
  {
    Answer(LeadBytes(Bytes(s)), LeadBytes(Bytes(p)), escape)
  }

  /** What LIKE means. */
  ghost predicate LikeSays(s: seq<UChar>, p: seq<UChar>, escape: Byte)
  {
    LikeTokens.Like(Standard(p, Signs(escape)), s)
  }

  lemma CodeSaysLeads(s: seq<UChar>, p: seq<UChar>, escape: Byte)
    requires IsText(s) && IsText(p) && escape < 128 && escape != '%' as int
    ensures CodeSays(s, p, escape) <==> LikeTokens.Like(LeadReading(Code(p, Signs(escape), false)), Leads(s))
  {
    LeadBytesOfText(s);
    LeadBytesOfText(p);
    CodeOfLeads(p, escape, false);
  }

  ghost predicate AsciiPattern(p: seq<UChar>, escape: Byte)
  {
    var r := Standard(p, Signs(escape));
    r.Some? ==> AsciiLiterals(r.value)
  }

  /** Harmless and with ASCII literals only: the code decides LIKE on every text. */
  lemma AgreesOnText(s: seq<UChar>, p: seq<UChar>, escape: Byte)
    requires IsText(s) && IsText(p) && escape < 128 && escape != '%' as int && escape != '_' as int
    requires Harmless(p, Signs(escape), false) && AsciiPattern(p, escape)
    ensures CodeSays(s, p, escape) <==> LikeSays(s, p, escape)
  {
    var k := Signs(escape);
    var a, b := Code(p, k, false), Standard(p, k);
    CodeSaysLeads(s, p, escape);
    HarmlessAgrees(p, k, false);
    if a.Some? {
      StandardLiterals(p, k, IsChar);
      if Match(b.value, s) {
        MatchLeads(a.value, s);
      }
      HarmlessLeads(p, k, false);
      if Match(LeadTokens(a.value), Leads(s)) {
        CodeLiterals(p, k, false, IsChar);
        LeadsMatch(a.value, s);
      }
    }
  }

  /** The code's reading of a harmless pattern has the literals of the standard one. */
  lemma {:induction false} HarmlessLeads(p: seq<UChar>, k: Specials<UChar>, run: bool)
    requires Distinct(k) && Harmless(p, k, run) && Code(p, k, run).Some? && Standard(p, k).Some?
      && AsciiLiterals(Standard(p, k).value)
    ensures AsciiLiterals(Code(p, k, run).value)
    decreases |p|
  {
    if p == [] {
    } else {
      var ts := Standard(p, k).value;
      if p[0] == k.esc && run {
        assert [k.esc] + p[1..] == p;
        LaggingLeads(p[1..], k);
      } else if p[0] == k.esc {
        assert ts[1..] == Standard(p[2..], k).value;
        HarmlessLeads(p[2..], k, false);
      } else {
        assert ts[1..] == Standard(p[1..], k).value;
        HarmlessLeads(p[1..], k, p[0] == k.pct || (run && p[0] == k.und));
      }
    }
  }

  lemma {:induction false} LaggingLeads(w: seq<UChar>, k: Specials<UChar>)
    requires Distinct(k) && Lagging(w, k) && Code(w, k, false).Some? && Standard([k.esc] + w, k).Some?
    requires AsciiLiterals(Standard([k.esc] + w, k).value)
    ensures AsciiLiterals(Code(w, k, false).value)
    decreases |w|
  {
    var p := [k.esc] + w;
    var ts := Standard(p, k).value;
    if w[0] == k.esc {
      assert p[2..] == [k.esc] + w[2..];
      assert ts[1..] == Standard(p[2..], k).value;
      LaggingLeads(w[2..], k);
    } else {
      assert p[2..] == w[1..];
      assert ts[1..] == Standard(p[2..], k).value;
      HarmlessLeads(w[1..], k, false);
    }
  }

  // ----- Telling them apart -----

  /** A different character with the same first byte. */
  ghost function Neighbour(c: UChar): UChar
    requires c.tail != []
  {
    var i := |c.tail| - 1;
    UChar(c.lead, c.tail[i := if c.tail[i] == 128 then 129 else 128])
  }

  lemma NeighbourIsChar(c: UChar)
    requires IsChar(c) && c.tail != []
    ensures IsChar(Neighbour(c)) && Neighbour(c) != c && Neighbour(c).lead == c.lead
  {
    var i := |c.tail| - 1;
    assert Neighbour(c).tail[i] != c.tail[i];
  }

  ghost function Replace(s: seq<UChar>, c: UChar, d: UChar): seq<UChar>
  {
    seq(|s|, i requires 0 <= i < |s| => if s[i] == c then d else s[i])
  }

  lemma {:induction false} ReplacedIsGone(s: seq<UChar>, c: UChar, d: UChar)
    requires c != d
    ensures Count(Replace(s, c, d), c) == 0
  {
    if s == [] {
    } else {
      ReplacedIsGone(s[1..], c, d);
      assert Replace(s, c, d)[1..] == Replace(s[1..], c, d);
    }
  }

  lemma {:induction false} LiteralCounts(ts: seq<Token<UChar>>, i: nat)
    requires i < |ts| && ts[i].Lit?
    ensures Literals(ts, ts[i].c) >= 1
  {
    if i == 0 {
    } else {
      LiteralCounts(ts[1..], i - 1);
    }
  }

  /** A literal outside ASCII: the code also accepts its neighbour. */
  lemma ForeignLiteralDiffers(p: seq<UChar>, escape: Byte, z: UChar, i: nat) returns (s: seq<UChar>)
    requires IsText(p) && escape < 128 && escape != '%' as int && escape != '_' as int && IsChar(z)
    requires var r := Standard(p, Signs(escape));
      r.Some? && i < |r.value| && r.value[i].Lit? && r.value[i].c.lead >= 128
    requires Harmless(p, Signs(escape), false)
    ensures IsText(s) && CodeSays(s, p, escape) && !LikeSays(s, p, escape)
  {
    var k := Signs(escape);
    var a, b := Code(p, k, false), Standard(p, k);
    var c := b.value[i].c;
    StandardLiterals(p, k, IsChar);
    NeighbourIsChar(c);
    StandardGuarded(p, k);
    LeastMatches(b.value, z);
    LeastIn(b.value, z, IsChar);
    var least := Least(b.value, z);
    s := Replace(least, c, Neighbour(c));
    assert Leads(s) == Leads(least);
    HarmlessAgrees(p, k, false);
    MatchLeads(a.value, least);
    CodeSaysLeads(s, p, escape);
    ReplacedIsGone(least, c, Neighbour(c));
    LiteralCounts(b.value, i);
    if LikeSays(s, p, escape) {
      MatchCounts(b.value, s, c);
      assert false;
    }
  }

  /** A text on which the code and LIKE differ, whenever a pattern is neither harmless with ASCII literals nor dead. */
  lemma DiffersOnText(p: seq<UChar>, escape: Byte) returns (s: seq<UChar>)
    requires IsText(p) && escape < 128 && escape != '%' as int && escape != '_' as int
    requires !(Harmless(p, Signs(escape), false) && AsciiPattern(p, escape)) && !BothDead(p, Signs(escape))
    ensures IsText(s) && (CodeSays(s, p, escape) <==> !LikeSays(s, p, escape))
  {
    var k, z := Signs(escape), Ascii(if escape == 'z' as int then 'y' as int else 'z' as int);
    var a, b := Code(p, k, false), Standard(p, k);
    if a.Some? {
      CodeGuarded(p, k, false);
      CodeLiterals(p, k, false, IsChar);
      LeastMatches(a.value, z);
      LeastIn(a.value, z, IsChar);
      MatchLeads(a.value, Least(a.value, z));
      CodeSaysLeads(Least(a.value, z), p, escape);
    }
    if Harmless(p, k, false) {
      var i :| 0 <= i < |b.value| && b.value[i].Lit? && !(b.value[i].c.lead < 128);
      s := ForeignLiteralDiffers(p, escape, z, i);
    } else if a.Some? && b.Some? {
      HarmfulDiffers(p, k, z);
      s := Least(a.value, z);
    } else if a.Some? {
      s := Least(a.value, z);
    } else {
      StandardGuarded(p, k);
      StandardLiterals(p, k, IsChar);
      LeastMatches(b.value, z);
      LeastIn(b.value, z, IsChar);
      s := Least(b.value, z);
      CodeSaysLeads(s, p, escape);
    }
  }

  /**
    `iterativeLike` decides LIKE on every text exactly for patterns that are harmless and
    have ASCII literals only, and for patterns that match nothing in either reading.
  */
  lemma LikeExactly(p: seq<UChar>, escape: Byte)
    requires IsText(p) && escape < 128 && escape != '%' as int && escape != '_' as int
    ensures (forall s :: IsText(s) ==> (CodeSays(s, p, escape) <==> LikeSays(s, p, escape)))
      <==> (Harmless(p, Signs(escape), false) && AsciiPattern(p, escape)) || BothDead(p, Signs(escape))
  {
    hide Harmless, AsciiPattern, CodeSays, LikeSays;
    if Harmless(p, Signs(escape), false) && AsciiPattern(p, escape) {
      forall s | IsText(s)
        ensures CodeSays(s, p, escape) <==> LikeSays(s, p, escape)
      {
        AgreesOnText(s, p, escape);
      }
    } else if BothDead(p, Signs(escape)) {
      forall s | IsText(s)
        ensures CodeSays(s, p, escape) <==> LikeSays(s, p, escape)
      {
        DeadSaysNo(s, p, escape);
      }
    } else {
      var s := DiffersOnText(p, escape);
    }
  }

  lemma DeadSaysNo(s: seq<UChar>, p: seq<UChar>, escape: Byte)
    requires IsText(s) && IsText(p) && escape < 128 && escape != '%' as int && BothDead(p, Signs(escape))
    ensures !CodeSays(s, p, escape) && !LikeSays(s, p, escape)
  {
    CodeSaysLeads(s, p, escape);
  }

  /** On ASCII strings and patterns only the skipped escapes matter. */
  lemma AsciiLikeExactly(p: seq<Byte>, escape: Byte)
    requires IsAscii(p) && escape < 128 && escape != '%' as int && escape != '_' as int
    ensures var k := Marks(escape);
      (forall s :: IsAscii(s) ==> (Answer(LeadBytes(s), LeadBytes(p), escape) <==> LikeTokens.Like(Standard(p, k), s)))
      <==> Harmless(p, k, false) || BothDead(p, k)
  {
    hide Harmless, BothDead, Code, Standard, LeadBytes, Match;
    var z: Byte, ok := if escape == 'z' as int then 'y' as int else 'z' as int, (b: Byte) => b < 128;
    ReadingsAgreeExactlyWhenHarmless(p, Marks(escape), z, ok);
    AsciiLeads(p);
    forall s | IsAscii(s)
      ensures LeadBytes(s) == s && AllIn(s, ok)
    {
      AsciiLeads(s);
    }
    assert forall s :: AllIn(s, ok) ==> IsAscii(s);
  }

  lemma PrependSome(t: Token<UChar>, ts: seq<Token<UChar>>, us: seq<Token<UChar>>)
    requires us == [t] + ts
    ensures Prepend(t, Some(ts)) == Some(us)
  {
  }

  /** A pattern of one ordinary character. */
  lemma OneLiteral(c: UChar, k: Specials<UChar>)
    requires c != k.esc && c != k.pct && c != k.und
    ensures Code([c], k, false) == Some([Lit(c)]) && Standard([c], k) == Some([Lit(c)])
  {
    var none: seq<UChar> := [];
    assert [c][1..] == none && Code(none, k, false) == Some([]) && Standard(none, k) == Some([]);
    PrependSome(Lit(c), [], [Lit(c)]);
  }

  lemma MatchOne(c: UChar, d: UChar)
    ensures Match([Lit(c)], [d]) <==> d == c
  {
    var ts: seq<Token<UChar>> := [Lit(c)];
    assert ts[1..] == [] && [d][1..] == [];
  }

  /** In UTF-8, e with grave accent is accepted where e with acute accent is asked for. */
  lemma AccentsConfused()
    ensures var acute, grave := UChar(0xC3, [0xA9]), UChar(0xC3, [0xA8]);
      IsText([acute]) && IsText([grave])
        && CodeSays([grave], [acute], '\\' as int) && !LikeSays([grave], [acute], '\\' as int)
  {
    hide Match, Code, Standard;
    var acute, grave := UChar(0xC3, [0xA9]), UChar(0xC3, [0xA8]);
    OneLiteral(acute, Signs('\\' as int));
    MatchOne(acute, acute);
    MatchOne(acute, grave);
    MatchLeads([Lit(acute)], [acute]);
    assert Leads([grave]) == Leads([acute]);
    CodeSaysLeads([grave], [acute], '\\' as int);
  }

  /** How the two readings take the pattern `%\%`. */
  lemma EscapedPercentReadings(p: seq<UChar>, k: Specials<UChar>)
    requires Distinct(k) && p == [k.pct, k.esc, k.pct]
    ensures Code(p, k, false) == Some([Any, More, Any]) && Standard(p, k) == Some([Any, Lit(k.pct)])
  {
    var none: seq<UChar> := [];
    assert p[1..] == [k.esc, k.pct] && p[1..][2..] == none && p[1..][1..] == [k.pct] && [k.pct][1..] == none;
    PrependSome(Any, [], [Any]);
    PrependSome(More, [Any], [More, Any]);
    PrependSome(Any, [More, Any], [Any, More, Any]);
    PrependSome(Lit(k.pct), [], [Lit(k.pct)]);
    PrependSome(Any, [Lit(k.pct)], [Any, Lit(k.pct)]);
    assert Code([k.pct], k, false) == Some([Any]);
    assert Code(p[1..], k, true) == Some([More, Any]);
    assert Standard(p[1..], k) == Some([Lit(k.pct)]);
  }

  /** Any character gets through a guard between two wildcards. */
  lemma GuardedWildcards(z: UChar)
    ensures Match([Any, More, Any], [z])
  {
    var ts, s, none := [Any, More, Any], [z], [];
    assert ts[1..] == [More, Any] && ts[1..][1..] == [Any] && [Any][1..] == none;
    assert s[0..] == s && s[1..] == [];
    assert Match<UChar>(none, s[1..]);
    assert Match([Any], s);
    assert Match(ts[1..], s[0..]);
  }

  lemma PercentNeeded(z: UChar, pct: UChar)
    requires z != pct
    ensures !Match([Any, Lit(pct)], [z])
  {
    assert [Any, Lit(pct)][1..] == [Lit(pct)];
    if Match([Any, Lit(pct)], [z]) {
      MatchCounts([Any, Lit(pct)], [z], pct);
      assert false;
    }
  }

  /**
    After a `%`, an escaped `%` is read as a wildcard: the pattern `%\%` accepts a string
    without a percent sign.
  */
  lemma EscapedPercentConfused()
    ensures var p, s := [Ascii('%' as int), Ascii('\\' as int), Ascii('%' as int)], [Ascii('z' as int)];
      IsText(p) && IsText(s) && CodeSays(s, p, '\\' as int) && !LikeSays(s, p, '\\' as int)
  {
    hide Match, Code, Standard, LeadBytes;
    var p, s, k := [Ascii('%' as int), Ascii('\\' as int), Ascii('%' as int)], [Ascii('z' as int)], Signs('\\' as int);
    EscapedPercentReadings(p, k);
    GuardedWildcards(s[0]);
    PercentNeeded(s[0], k.pct);
    MatchLeads([Any, More, Any], s);
    CodeSaysLeads(s, p, '\\' as int);
  }
}

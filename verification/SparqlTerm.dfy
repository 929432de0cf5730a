/**
  The RDF term reader of the SPARQL endpoint (src/tools/sparql-endpoint.cpp) inverts
  canonical N-Triples printing (section 4 of W3C RDF 1.1 N-Triples: in a literal only
  the quote, the backslash, LF and CR are escaped).
*/
module SparqlTerm {
  import opened Basics

  datatype TermInfo = TermInfo(kind: string, value: string, datatypeIri: Option<string>, lang: Option<string>)

  datatype Term =
    | Iri(iri: string)
    | BlankNode(name: string)
    | Plain(value: string)
    | Tagged(value: string, lang: string)
    | Typed(value: string, iri: string)

  // ----- Canonical printing -----

  function EscapeChar(c: char): string
  {
    if c == '"' then "\\\"" else if c == '\\' then "\\\\" else if c == '\n' then "\\n" else if c == '\r' then "\\r"
      else [c]
  }

  function Escape(s: string): string
  {
    if s == [] then [] else EscapeChar(s[0]) + Escape(s[1..])
  }

  function Print(t: Term): string
  {
    match t
    case Iri(x) => "<" + x + ">"
    case BlankNode(x) => "_:" + x
    case Plain(v) => "\"" + Escape(v) + "\""
    case Tagged(v, lang) => "\"" + Escape(v) + "\"" + ("@" + lang)
    case Typed(v, x) => "\"" + Escape(v) + "\"" + ("^^<" + x + ">")
  }

  /** What the endpoint should say about a term. */
  function Info(t: Term): TermInfo
  {
    match t
    case Iri(x) => TermInfo("uri", x, None, None)
    case BlankNode(x) => TermInfo("bnode", x, None, None)
    case Plain(v) => TermInfo("literal", v, None, None)
    case Tagged(v, lang) => TermInfo("literal", v, None, Some(lang))
    case Typed(v, x) => TermInfo("literal", v, Some(x), None)
  }

  // ----- Unescaping -----

  /** The character an escape stands for, if it is one of the four. */
  function Unescaped(c: char): Option<char>
  {
    if c == '"' then Some('"') else if c == '\\' then Some('\\') else if c == 'n' then Some('\n')
      else if c == 'r' then Some('\r') else None
  }

  function Unescape(s: string): string
  {
    if s == [] then []
    else if s[0] == '\\' && |s| >= 2 && Unescaped(s[1]).Some? then [Unescaped(s[1]).value] + Unescape(s[2..])
    else [s[0]] + Unescape(s[1..])
  }

  method UnescapeLexicalForm(escaped: string) returns (out: string)
    ensures out == Unescape(escaped)
  {
    hide Unescape, Unescaped;
    out := "";
    var i := 0;
    assert escaped[0..] == escaped;
    while i < |escaped|
      invariant 0 <= i <= |escaped| && out + Unescape(escaped[i..]) == Unescape(escaped)
    {
      UnescapeStep(escaped, i);
      if escaped[i] == '\\' && i + 1 < |escaped| && Unescaped(escaped[i + 1]).Some? {
        var c := Unescaped(escaped[i + 1]).value;
        assert out + ([c] + Unescape(escaped[i + 2..])) == out + [c] + Unescape(escaped[i + 2..]);
        out := out + [c];
        i := i + 2;
      } else {
        var c := escaped[i];
        assert out + ([c] + Unescape(escaped[i + 1..])) == out + [c] + Unescape(escaped[i + 1..]);
        out := out + [c];
        i := i + 1;
      }
    }
    assert escaped[i..] == [];
    UnescapeNothing();
  }

  lemma UnescapeNothing()
    ensures Unescape("") == ""
  {
  }

  lemma UnescapeStep(s: string, i: nat)
    requires i < |s|
    ensures s[i] == '\\' && i + 1 < |s| && Unescaped(s[i + 1]).Some? ==>
      Unescape(s[i..]) == [Unescaped(s[i + 1]).value] + Unescape(s[i + 2..])
    ensures !(s[i] == '\\' && i + 1 < |s| && Unescaped(s[i + 1]).Some?) ==>
      Unescape(s[i..]) == [s[i]] + Unescape(s[i + 1..])
  {
    hide Unescaped;
    var rest := s[i..];
    assert rest[1..] == s[i + 1..];
    if i + 2 <= |s| {
      assert rest[2..] == s[i + 2..];
    }
  }

  lemma {:induction false} UnescapeInvertsEscape(v: string)
    ensures Unescape(Escape(v)) == v
  {
    if v == [] {
    } else {
      UnescapeInvertsEscape(v[1..]);
      UnescapeEscaped(v[0], Escape(v[1..]));
      assert Escape(v) == EscapeChar(v[0]) + Escape(v[1..]);
    }
  }

  lemma UnescapeEscaped(c: char, rest: string)
    ensures Unescape(EscapeChar(c) + rest) == [c] + Unescape(rest)
  {
    hide Unescape;
    var e := EscapeChar(c);
    var s := e + rest;
    assert s[0..] == s;
    UnescapeStep(s, 0);
    if |e| == 2 {
      assert s[2..] == rest && s[0] == '\\' && Unescaped(s[1]) == Some(c);
    } else {
      assert s[1..] == rest && s[0] == c && c != '\\';
    }
  }

  predicate KnownEscape(s: string, i: int)
  {
    0 <= i < |s| - 1 && s[i] == '\\' && s[i + 1] in "\"\\nr"
  }

  /** Anything but the four escapes stays as it is, backslashes included. */
  lemma {:induction false} UnknownEscapesStay(s: string)
    requires forall i :: !KnownEscape(s, i)
    ensures Unescape(s) == s
  {
    if s == [] {
    } else {
      assert !KnownEscape(s, 0);
      forall i | 0 <= i < |s[1..]| - 1
        ensures !KnownEscape(s[1..], i)
      {
        assert !KnownEscape(s, i + 1);
      }
      UnknownEscapesStay(s[1..]);
    }
  }

  // ----- Finding the closing quote -----

  /** The index of the first unescaped quote from `i` on, or a value past the end. */
  function ClosingQuote(s: string, i: nat): nat
    decreases |s| - i
  {
    if i >= |s| || s[i] == '"' then i
    else if s[i] == '\\' && i + 1 < |s| then ClosingQuote(s, i + 2)
    else ClosingQuote(s, i + 1)
  }

  /** The closing quote of an escaped value is where its printing put it. */
  lemma {:induction false} QuoteAfterEscape(before: string, v: string, suffix: string)
    ensures ClosingQuote(before + Escape(v) + "\"" + suffix, |before|) == |before| + |Escape(v)|
    decreases v
  {
    var s := before + Escape(v) + "\"" + suffix;
    if v == [] {
      assert s[|before|] == '"';
    } else {
      var e := EscapeChar(v[0]);
      QuoteAfterEscape(before + e, v[1..], suffix);
      assert Escape(v) == e + Escape(v[1..]);
      hide Escape;
      assert s == (before + e) + Escape(v[1..]) + "\"" + suffix;
      assert s[|before|] == e[0] && (|e| == 2 ==> e[0] == '\\') && (|e| == 1 ==> e[0] != '\\' && e[0] != '"');
      hide EscapeChar;
      assert ClosingQuote(s, |before|) == ClosingQuote(s, |before + e|);
    }
  }

  // ----- Classification -----

  predicate StartsWith(s: string, p: string)
  {
    |p| <= |s| && s[..|p|] == p
  }

  function Classify(s: string): TermInfo
  {
    if |s| >= 2 && s[0] == '<' && s[|s| - 1] == '>' then TermInfo("uri", s[1..|s| - 1], None, None)
    else if StartsWith(s, "_:") then TermInfo("bnode", s[2..], None, None)
    else if s != [] && s[0] == '"' && ClosingQuote(s, 1) < |s| then
      var i := ClosingQuote(s, 1);
      ClosingQuoteBounds(s, 1);
      Annotated(Unescape(s[1..i]), s[i + 1..])
    else TermInfo("literal", s, None, None)
  }

  /** What follows the closing quote decides between a language tag, a datatype and neither. */
  function Annotated(value: string, suffix: string): TermInfo
  {
    if suffix != [] && suffix[0] == '@' then TermInfo("literal", value, None, Some(suffix[1..]))
    else if |suffix| >= 4 && StartsWith(suffix, "^^<") && suffix[|suffix| - 1] == '>' then
      TermInfo("literal", value, Some(suffix[3..|suffix| - 1]), None)
    else TermInfo("literal", value, None, None)
  }

  lemma {:induction false} ClosingQuoteBounds(s: string, i: nat)
    ensures ClosingQuote(s, i) >= i
    decreases |s| - i
  {
    if i >= |s| || s[i] == '"' {
    } else {
      if s[i] == '\\' && i + 1 < |s| {
        ClosingQuoteBounds(s, i + 2);
      } else {
        ClosingQuoteBounds(s, i + 1);
      }
    }
  }

  method ClassifyTerm(lexical: string) returns (r: TermInfo)
    ensures r == Classify(lexical)
    ensures forall t :: lexical == Print(t) ==> r == Info(t)
  {
    forall t | lexical == Print(t)
      ensures Classify(lexical) == Info(t)
    {
      ClassifyInvertsPrint(t);
    }
    if |lexical| >= 2 && lexical[0] == '<' && lexical[|lexical| - 1] == '>' {
      return TermInfo("uri", lexical[1..|lexical| - 1], None, None);
    }
    if StartsWith(lexical, "_:") {
      return TermInfo("bnode", lexical[2..], None, None);
    }
    if lexical != [] && lexical[0] == '"' {
      var i := 1;
      while i < |lexical| && lexical[i] != '"'
        invariant 1 <= i && ClosingQuote(lexical, i) == ClosingQuote(lexical, 1)
        decreases |lexical| - i
      {
        if lexical[i] == '\\' && i + 1 < |lexical| {
          i := i + 1;
        }
        i := i + 1;
      }
      if i < |lexical| {
        var value := UnescapeLexicalForm(lexical[1..i]);
        var suffix := lexical[i + 1..];
        if suffix != [] && suffix[0] == '@' {
          return TermInfo("literal", value, None, Some(suffix[1..]));
        }
        if |suffix| >= 4 && StartsWith(suffix, "^^<") && suffix[|suffix| - 1] == '>' {
          return TermInfo("literal", value, Some(suffix[3..|suffix| - 1]), None);
        }
        return TermInfo("literal", value, None, None);
      }
    }
    return TermInfo("literal", lexical, None, None);
  }

  lemma LiteralParts(v: string, suffix: string)
    ensures var s := "\"" + Escape(v) + "\"" + suffix;
      var i := ClosingQuote(s, 1);
      1 <= i < |s| && Unescape(s[1..i]) == v && s[i + 1..] == suffix
  {
    var s := "\"" + Escape(v) + "\"" + suffix;
    QuoteAfterEscape("\"", v, suffix);
    var i := 1 + |Escape(v)|;
    assert s[1..i] == Escape(v) && s[i + 1..] == suffix;
    UnescapeInvertsEscape(v);
  }

  lemma ClassifyLiteral(v: string, suffix: string)
    ensures Classify("\"" + Escape(v) + "\"" + suffix) == Annotated(v, suffix)
  {
    LiteralParts(v, suffix);
    hide Escape, Unescape, ClosingQuote, Annotated;
    var s := "\"" + Escape(v) + "\"" + suffix;
    assert s[0] == '"' && !StartsWith(s, "_:");
  }

  /** Reading back what was printed gives the term: kind, value, datatype and language. */
  lemma ClassifyInvertsPrint(t: Term)
    ensures Classify(Print(t)) == Info(t)
  {
    hide Escape, Unescape, ClosingQuote;
    var s := Print(t);
    match t
    case Iri(x) => assert s[1..|s| - 1] == x;
    case BlankNode(x) => assert s[..2] == "_:" && s[2..] == x;
    case Plain(v) =>
      ClassifyLiteral(v, "");
      assert s == "\"" + Escape(v) + "\"" + "";
    case Tagged(v, lang) =>
      hide Classify;
      ClassifyLiteral(v, "@" + lang);
      assert ("@" + lang)[1..] == lang;
    case Typed(v, x) =>
      hide Classify;
      var suffix := "^^<" + x + ">";
      ClassifyLiteral(v, suffix);
      assert suffix[..3] == "^^<" && suffix[3..|suffix| - 1] == x;
  }

  lemma {:induction false} NoQuote(s: string, i: nat)
    requires forall j :: i <= j < |s| ==> s[j] != '"'
    ensures ClosingQuote(s, i) >= |s|
    decreases |s| - i
  {
    if i < |s| {
      NoQuote(s, i + 1);
      NoQuote(s, i + 2);
    }
  }

  /** A string that begins like no term, or like an IRI or a literal that is not closed, is its own literal value. */
  lemma OtherStringsAreLiterals(s: string)
    requires !("_:" <= s)
    requires s != "" && s[0] == '<' ==> |s| == 1 || s[|s| - 1] != '>'
    requires s != "" && s[0] == '"' ==> '"' !in s[1..]
    ensures Classify(s) == TermInfo("literal", s, None, None)
  {
    hide ClosingQuote;
    if s != "" && s[0] == '"' {
      assert forall j :: 1 <= j < |s| ==> s[j] == s[1..][j - 1];
      NoQuote(s, 1);
    }
  }

  /** What follows a literal is ignored unless it is a language tag or a datatype. */
  lemma OtherSuffixesAreIgnored(v: string, suffix: string)
    requires suffix == "" || (suffix[0] != '@' && suffix[0] != '^')
    ensures Classify("\"" + Escape(v) + "\"" + suffix) == TermInfo("literal", v, None, None)
  {
    hide Classify, Escape;
    ClassifyLiteral(v, suffix);
  }

  /** So no two terms print alike. */
  lemma PrintIsInjective(t: Term, u: Term)
    requires Print(t) == Print(u)
    ensures t == u
  {
    ClassifyInvertsPrint(t);
    ClassifyInvertsPrint(u);
  }
}

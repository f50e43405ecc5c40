/**
 The anchored regular expressions of the heredoc rewriter: sequences of
 literals and repeated character classes.
 */
module Patterns {
  import opened Basics

  datatype Class = Blank | NonBlank | Dash | Quote | IdentStart | IdentChar | Any

  predicate In(c: char, class': Class) {
    match class'
    case Blank => c == ' ' || c == '\t'
    case NonBlank => c != ' ' && c != '\t'
    case Dash => c == '-'
    case Quote => c == '\'' || c == '\"'
    case IdentStart => 'A' <= c <= 'Z' || 'a' <= c <= 'z' || c == '_'
    case IdentChar => 'A' <= c <= 'Z' || 'a' <= c <= 'z' || c == '_' || '0' <= c <= '9'
    case Any => true
  }

  /** `many` lifts the bound of one. */
  datatype Tok = Lit(text: string) | Rep(class': Class, optional: bool, many: bool)

  type Pattern = seq<Tok>

  predicate IsPiece(t: Tok, piece: string) {
    match t
    case Lit(text) => piece == text
    case Rep(class', optional, many) =>
      (optional || |piece| >= 1) && (many || |piece| <= 1) && forall i :: 0 <= i < |piece| ==> In(piece[i], class')
  }

  function Concat(pieces: seq<string>): string {
    if pieces == [] then [] else pieces[0] + Concat(pieces[1..])
  }

  /** What a regular expression match is: a way to cut the text into pieces. */
  predicate Matches(p: Pattern, pieces: seq<string>, s: string) {
    && |pieces| == |p|
    && (forall i :: 0 <= i < |p| ==> IsPiece(p[i], pieces[i]))
    && Concat(pieces) == s
  }

  /** The length of the longest prefix in the class. */
  function Span(s: string, class': Class): (n: nat)
    ensures n <= |s| && (forall i :: 0 <= i < n ==> In(s[i], class')) && (n < |s| ==> !In(s[n], class'))
  {
    if s == [] || !In(s[0], class') then 0 else 1 + Span(s[1..], class')
  }

  /** How much a token takes from the front of the text. */
  function Take(t: Tok, s: string): (r: Option<nat>)
    ensures r.Some? ==> r.value <= |s| && IsPiece(t, s[..r.value])
  {
    match t
    case Lit(text) => if text <= s then Some(|text|) else None
    case Rep(class', optional, many) =>
      var n := Span(s, class');
      var taken := if many || n <= 1 then n else 1;
      if taken == 0 && !optional then None else Some(taken)
  }

  /** Greedy matching without backtracking. */
  function Match(p: Pattern, s: string): Option<seq<string>> {
    if p == [] then if s == [] then Some([]) else None
    else
      match Take(p[0], s)
      case None => None
      case Some(n) =>
        match Match(p[1..], s[n..])
        case None => None
        case Some(rest) => Some([s[..n]] + rest)
  }

  lemma {:induction false} MatchSound(p: Pattern, s: string)
    ensures Match(p, s).Some? ==> Matches(p, Match(p, s).value, s)
  {
    if p != [] && Take(p[0], s).Some? {
      var n := Take(p[0], s).value;
      MatchSound(p[1..], s[n..]);
      if Match(p, s).Some? {
        var pieces := Match(p, s).value;
        assert pieces[1..] == Match(p[1..], s[n..]).value;
        assert s == s[..n] + s[n..];
      }
    }
  }

  // ------------------------------------------------- greedy finds what there is

  /** Some text matched by the pattern may start with the character. */
  predicate CanStart(p: Pattern, c: char) {
    if p == [] then false
    else
      match p[0]
      case Lit(text) => text != [] && text[0] == c
      case Rep(class', optional, _) => In(c, class') || (optional && CanStart(p[1..], c))
  }

  /** No repetition can be continued by what follows it. */
  ghost predicate Separated(p: Pattern) {
    p == []
    || (&& (p[0].Lit? ==> p[0].text != [])
        && (p[0].Rep? && (p[0].optional || p[0].many) ==> forall c :: In(c, p[0].class') ==> !CanStart(p[1..], c))
        && Separated(p[1..]))
  }

  lemma {:induction false} StartsRight(p: Pattern, pieces: seq<string>, s: string)
    requires Separated(p) && Matches(p, pieces, s) && s != []
    ensures CanStart(p, s[0])
  {
    assert IsPiece(p[0], pieces[0]);
    if pieces[0] == [] {
      StartsRight(p[1..], pieces[1..], s);
    } else {
      assert s[0] == pieces[0][0];
    }
  }

  lemma {:induction false} SpanIs(piece: string, rest: string, class': Class)
    requires forall i :: 0 <= i < |piece| ==> In(piece[i], class')
    requires rest == [] || !In(rest[0], class')
    ensures Span(piece + rest, class') == |piece|
  {
    if piece == [] {
      assert piece + rest == rest;
    } else {
      assert (piece + rest)[1..] == piece[1..] + rest;
      SpanIs(piece[1..], rest, class');
    }
  }

  lemma TakeIs(p: Pattern, piece: string, pieces: seq<string>, rest: string)
    requires p != [] && Separated(p) && IsPiece(p[0], piece) && Matches(p[1..], pieces, rest)
    ensures Take(p[0], piece + rest) == Some(|piece|)
  {
    match p[0]
    case Lit(text) =>
    case Rep(class', optional, many) =>
      if optional || many {
        if rest != [] {
          StartsRight(p[1..], pieces, rest);
        }
        SpanIs(piece, rest, class');
      } else {
        assert (piece + rest)[0] == piece[0];
      }
  }

  /** If there is any way to cut the text, greedy matching finds it; so it is the only one. */
  lemma {:induction false} MatchComplete(p: Pattern, pieces: seq<string>, s: string)
    requires Separated(p) && Matches(p, pieces, s)
    ensures Match(p, s) == Some(pieces)
  {
    if p != [] {
      var rest := Concat(pieces[1..]);
      assert IsPiece(p[0], pieces[0]);
      TakeIs(p, pieces[0], pieces[1..], rest);
      assert s[..|pieces[0]|] == pieces[0] && s[|pieces[0]|..] == rest;
      MatchComplete(p[1..], pieces[1..], rest);
      assert pieces == [pieces[0]] + pieces[1..];
    }
  }

  /** Greedy matching accepts exactly the language of the pattern. */
  lemma MatchIff(p: Pattern, s: string)
    requires Separated(p)
    ensures Match(p, s).Some? <==> exists pieces :: Matches(p, pieces, s)
  {
    MatchSound(p, s);
    if pieces :| Matches(p, pieces, s) {
      MatchComplete(p, pieces, s);
    }
  }
}

/** What the legacy patterns accept, and what is known of the parts they cut out. */
module HeredocForms {
  import opened Patterns
  import opened Heredoc

  // ------------------------------------------- greedy matching is exact for them

  lemma SeparatedStep(p: Pattern, k: nat)
    requires k < |p| && Separated(p[k + 1..])
    requires p[k].Lit? ==> p[k].text != []
    requires p[k].Rep? && (p[k].optional || p[k].many) ==> forall c :: In(c, p[k].class') ==> !CanStart(p[k + 1..], c)
    ensures Separated(p[k..])
  {
    assert p[k..][1..] == p[k + 1..];
  }

  lemma StartStep(p: Pattern, k: nat, c: char)
    requires k <= |p|
    ensures k == |p| ==> !CanStart(p[k..], c)
    ensures k < |p| ==> (CanStart(p[k..], c) <==>
              if p[k].Lit? then p[k].text != [] && p[k].text[0] == c
              else In(c, p[k].class') || (p[k].optional && CanStart(p[k + 1..], c)))
  {
    if k < |p| {
      assert p[k..][1..] == p[k + 1..];
    }
  }

  lemma SeparatedFrom(p: Pattern, k: nat)
    requires k < |p| && Separated(p[k + 1..])
    requires p[k].Lit? ==> p[k].text != []
    requires p[k].Rep? && (p[k].optional || p[k].many) ==>
               forall c :: In(c, p[k].class') ==> !Follows(p, k + 1, c)
    ensures Separated(p[k..])
  {
    if p[k].Rep? && (p[k].optional || p[k].many) {
      forall c | In(c, p[k].class')
        ensures !CanStart(p[k + 1..], c)
      {
        FollowsIsStart(p, k + 1, c);
      }
    }
    SeparatedStep(p, k);
  }

  predicate Follows(p: Pattern, k: nat, c: char)
    decreases |p| - k
  {
    k < |p| && if p[k].Lit? then p[k].text != [] && p[k].text[0] == c
               else In(c, p[k].class') || (p[k].optional && Follows(p, k + 1, c))
  }

  lemma {:induction false} FollowsIsStart(p: Pattern, k: nat, c: char)
    requires k <= |p|
    ensures CanStart(p[k..], c) <==> Follows(p, k, c)
    decreases |p| - k
  {
    StartStep(p, k, c);
    if k < |p| {
      FollowsIsStart(p, k + 1, c);
    }
  }

  ghost predicate Alternates(p: Pattern) {
    forall k :: 0 <= k < |p| ==>
      && (p[k].Lit? ==> p[k].text != [])
      && (p[k].Rep? && (p[k].optional || p[k].many) ==> forall c :: In(c, p[k].class') ==> !Follows(p, k + 1, c))
  }

  lemma {:induction false} AlternatesSeparated(p: Pattern, k: nat)
    requires Alternates(p) && k <= |p|
    ensures Separated(p[k..])
    decreases |p| - k
  {
    if k < |p| {
      AlternatesSeparated(p, k + 1);
      SeparatedFrom(p, k);
    }
  }

  /** The three patterns leave no choice: greedy matching decides them exactly. */
  lemma PatternsAreExact(line: string)
    ensures Match(CAT_REDIRECT, line).Some? <==> exists m :: Matches(CAT_REDIRECT, m, line)
    ensures Match(CAT_HEREDOC_REDIRECT, line).Some? <==> exists m :: Matches(CAT_HEREDOC_REDIRECT, m, line)
    ensures IsAppend(line) <==> exists m :: Matches(CAT_APPEND, m, line)
  {
    hide Separated, Matches, Match;
    RedirectSeparated();
    HeredocRedirectSeparated();
    AppendSeparated();
    MatchIff(CAT_REDIRECT, line);
    MatchIff(CAT_HEREDOC_REDIRECT, line);
    MatchIff(CAT_APPEND, line);
  }

  lemma RedirectSeparated()
    ensures Separated(CAT_REDIRECT)
  {
    assert forall c :: Follows(CAT_REDIRECT, 13, c) <==> In(c, IdentStart);
    assert forall c :: Follows(CAT_REDIRECT, 12, c) <==> In(c, Quote) || In(c, IdentStart);
    assert forall c :: Follows(CAT_REDIRECT, 11, c) <==> In(c, Blank) || In(c, Quote) || In(c, IdentStart);
    assert forall c :: Follows(CAT_REDIRECT, 16, c) <==> In(c, Blank);
    assert forall c :: Follows(CAT_REDIRECT, 15, c) <==> In(c, Quote) || In(c, Blank);
    assert Alternates(CAT_REDIRECT);
    AlternatesSeparated(CAT_REDIRECT, 0);
    assert CAT_REDIRECT[0..] == CAT_REDIRECT;
  }

  lemma HeredocRedirectSeparated()
    ensures Separated(CAT_HEREDOC_REDIRECT)
  {
    assert forall c :: Follows(CAT_HEREDOC_REDIRECT, 9, c) <==> In(c, IdentStart);
    assert forall c :: Follows(CAT_HEREDOC_REDIRECT, 8, c) <==> In(c, Quote) || In(c, IdentStart);
    assert forall c :: Follows(CAT_HEREDOC_REDIRECT, 7, c) <==> In(c, Blank) || In(c, Quote) || In(c, IdentStart);
    assert forall c :: Follows(CAT_HEREDOC_REDIRECT, 11, c) <==> In(c, Quote) || In(c, Blank);
    assert Alternates(CAT_HEREDOC_REDIRECT);
    AlternatesSeparated(CAT_HEREDOC_REDIRECT, 0);
    assert CAT_HEREDOC_REDIRECT[0..] == CAT_HEREDOC_REDIRECT;
  }

  lemma AppendSeparated()
    ensures Separated(CAT_APPEND)
  {
    assert Alternates(CAT_APPEND);
    AlternatesSeparated(CAT_APPEND, 0);
    assert CAT_APPEND[0..] == CAT_APPEND;
  }

  // ------------------------------------------------------------ the parts cut out

  ghost predicate AllIn(s: string, class': Class) {
    forall i :: 0 <= i < |s| ==> In(s[i], class')
  }

  ghost predicate TokenChar(c: char) {
    In(c, Dash) || In(c, Quote) || In(c, IdentChar)
  }

  /** What is known of a legacy form that was recognized in a line. */
  ghost predicate SpecOk(spec: LegacySpec, line: string) {
    && AllIn(spec.indent, Blank)
    && AllIn(spec.target, NonBlank) && spec.target != []
    && (forall i :: 0 <= i < |spec.token| ==> TokenChar(spec.token[i])) && spec.token != []
    && (forall c :: c in spec.target ==> c in line)
    && |spec.indent| + |spec.target| + |spec.token| + 13 <= |line|
  }

  lemma ConcatAt(pieces: seq<string>, k: nat)
    requires k < |pieces|
    ensures Concat(pieces[k..]) == pieces[k] + Concat(pieces[k + 1..])
  {
    assert pieces[k..][0] == pieces[k] && pieces[k..][1..] == pieces[k + 1..];
  }

  lemma {:induction false} ConcatHas(pieces: seq<string>, k: nat, c: char)
    requires k < |pieces| && c in pieces[k]
    ensures c in Concat(pieces)
  {
    if k > 0 {
      ConcatHas(pieces[1..], k - 1, c);
    }
  }

  /** The length of the whole is that of seventeen parts. */
  lemma ConcatLength17(m: seq<string>)
    requires |m| == 17
    ensures |Concat(m)|
            == |m[0]| + |m[1]| + |m[2]| + |m[3]| + |m[4]| + |m[5]| + |m[6]| + |m[7]| + |m[8]| + |m[9]| + |m[10]|
                         + |m[11]| + |m[12]| + |m[13]| + |m[14]| + |m[15]| + |m[16]|
  {
    assert m[0..] == m && m[17..] == [];
    ConcatAt(m, 0); ConcatAt(m, 1); ConcatAt(m, 2); ConcatAt(m, 3); ConcatAt(m, 4); ConcatAt(m, 5);
    ConcatAt(m, 6); ConcatAt(m, 7); ConcatAt(m, 8); ConcatAt(m, 9); ConcatAt(m, 10); ConcatAt(m, 11);
    ConcatAt(m, 12); ConcatAt(m, 13); ConcatAt(m, 14); ConcatAt(m, 15); ConcatAt(m, 16);
  }

  lemma TokenOk(dash: string, quote: string, first: string, rest: string)
    requires AllIn(dash, Dash) && AllIn(quote, Quote) && AllIn(first, IdentStart) && first != []
    requires AllIn(rest, IdentChar)
    ensures var token := dash + quote + first + rest + quote;
      token != [] && forall i :: 0 <= i < |token| ==> TokenChar(token[i])
  {
    assert AllIn(first, IdentChar);
  }

  lemma RedirectSpecOk(line: string, m: seq<string>)
    requires Matches(CAT_REDIRECT, m, line) && m[12] == m[15]
    ensures SpecOk(LegacySpec(m[0], m[7], m[10] + m[12] + m[13] + m[14] + m[15]), line)
  {
    var p := CAT_REDIRECT;
    assert IsPiece(p[0], m[0]) && IsPiece(p[1], m[1]) && IsPiece(p[2], m[2]) && IsPiece(p[3], m[3])
        && IsPiece(p[4], m[4])
        && IsPiece(p[5], m[5]) && IsPiece(p[6], m[6]) && IsPiece(p[7], m[7]) && IsPiece(p[8], m[8])
             && IsPiece(p[9], m[9])
        && IsPiece(p[10], m[10]) && IsPiece(p[12], m[12]) && IsPiece(p[13], m[13]) && IsPiece(p[14], m[14]);
    ConcatLength17(m);
    TokenOk(m[10], m[12], m[13], m[14]);
    forall c | c in m[7]
      ensures c in line
    {
      ConcatHas(m, 7, c);
    }
  }

  lemma HeredocRedirectSpecOk(line: string, m: seq<string>)
    requires Matches(CAT_HEREDOC_REDIRECT, m, line) && m[8] == m[11]
    ensures SpecOk(LegacySpec(m[0], m[15], m[6] + m[8] + m[9] + m[10] + m[11]), line)
  {
    var p := CAT_HEREDOC_REDIRECT;
    assert IsPiece(p[0], m[0]) && IsPiece(p[1], m[1]) && IsPiece(p[2], m[2]) && IsPiece(p[3], m[3])
        && IsPiece(p[4], m[4])
        && IsPiece(p[5], m[5]) && IsPiece(p[6], m[6]) && IsPiece(p[8], m[8]) && IsPiece(p[9], m[9])
             && IsPiece(p[10], m[10])
        && IsPiece(p[12], m[12]) && IsPiece(p[13], m[13]) && IsPiece(p[14], m[14]) && IsPiece(p[15], m[15]);
    ConcatLength17(m);
    TokenOk(m[6], m[8], m[9], m[10]);
    forall c | c in m[15]
      ensures c in line
    {
      ConcatHas(m, 15, c);
    }
  }

  lemma LegacySpecOk(line: string)
    ensures match ParseLegacy(line)
      case Ok(Some(spec)) => SpecOk(spec, line)
      case _ => true
  {
    hide Match, SpecOk, Matches;
    MatchSound(CAT_REDIRECT, line);
    MatchSound(CAT_HEREDOC_REDIRECT, line);
    match ParseLegacy(line)
    case Ok(Some(spec)) =>
      if Match(CAT_REDIRECT, line).Some? {
        RedirectSpecOk(line, Match(CAT_REDIRECT, line).value);
      } else {
        HeredocRedirectSpecOk(line, Match(CAT_HEREDOC_REDIRECT, line).value);
      }
    case _ =>
  }
}

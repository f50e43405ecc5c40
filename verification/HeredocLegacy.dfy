/**
 The legacy heredoc forms written out, without the patterns that recognize them:
 which lines have them, and what becomes of an instruction that has one.
 */
module HeredocLegacy {
  import opened Basics
  import opened Patterns
  import opened Heredoc
  import opened HeredocForms

  // -------------------------------------------------------------- the forms written out

  /** The parts of a legacy form: `b1` to `b6` are the blanks between the others. */
  datatype Form = Form(
    indent: string, b1: string, b2: string, b3: string, target: string, b4: string,
    dash: string, b5: string, left: string, word: string, right: string, b6: string)

  ghost predicate Blanks(s: string) {
    forall i :: 0 <= i < |s| ==> s[i] == ' ' || s[i] == '\t'
  }

  ghost predicate IsWord(s: string) {
    && s != "" && !('0' <= s[0] <= '9')
    && forall i :: 0 <= i < |s| ==> 'A' <= s[i] <= 'Z' || 'a' <= s[i] <= 'z' || s[i] == '_' || '0' <= s[i] <= '9'
  }

  ghost predicate IsPath(s: string) {
    s != "" && forall i :: 0 <= i < |s| ==> s[i] != ' ' && s[i] != '\t'
  }

  ghost predicate FormOk(f: Form) {
    && Blanks(f.indent) && Blanks(f.b1) && Blanks(f.b2) && Blanks(f.b3) && Blanks(f.b4) && Blanks(f.b5) && Blanks(f.b6)
    && f.b1 != "" && f.b2 != "" && f.b3 != "" && f.b4 != ""
    && IsPath(f.target) && IsWord(f.word)
    && (f.dash == "" || f.dash == "-")
    && (f.left == "" || f.left == "'" || f.left == "\"")
    && (f.right == "" || f.right == "'" || f.right == "\"")
  }

  function Redirect(f: Form): string {
    ">" + f.b3 + f.target
  }

  function Delimiter(f: Form): string {
    "<<" + f.dash + f.b5 + f.left + f.word + f.right
  }

  function Command(f: Form, redirectFirst: bool): string {
    if redirectFirst then "cat" + f.b2 + Redirect(f) + f.b4 + Delimiter(f)
    else "cat" + f.b2 + Delimiter(f) + f.b4 + Redirect(f)
  }

  /** `RUN cat > target <<word` or `RUN cat <<word > target`, with any blanks. */
  function FormLine(f: Form, redirectFirst: bool): string {
    f.indent + "RUN" + f.b1 + Command(f, redirectFirst) + f.b6
  }

  function SpecOf(f: Form): LegacySpec {
    LegacySpec(f.indent, f.target, f.dash + f.left + f.word + f.right)
  }

  // -------------------------------------------------------- the forms are the patterns

  lemma {:induction false} ConcatConcat(a: seq<string>, b: seq<string>)
    ensures Concat(a + b) == Concat(a) + Concat(b)
  {
    if a == [] {
      assert a + b == b;
    } else {
      assert (a + b)[1..] == a[1..] + b;
      ConcatConcat(a[1..], b);
    }
  }

  lemma One(a: string)
    ensures Concat([a]) == a
  {
    assert [a][1..] == [];
  }

  lemma Concat2(a: string, b: string)
    ensures Concat([a, b]) == a + b
  {
    assert [a, b][1..] == [b];
    One(b);
  }

  lemma Concat3(a: string, b: string, c: string)
    ensures Concat([a, b, c]) == a + b + c
  {
    assert [a, b, c][1..] == [b, c];
    Concat2(b, c);
  }

  lemma Concat5(a: string, b: string, c: string, d: string, e: string)
    ensures Concat([a, b, c, d, e]) == a + b + c + d + e
  {
    assert [a, b, c, d, e] == [a, b, c] + [d, e];
    ConcatConcat([a, b, c], [d, e]);
    Concat3(a, b, c);
    Concat2(d, e);
  }

  function HeadPieces(f: Form): seq<string> {
    [f.indent, "RUN", f.b1, "cat", f.b2]
  }

  function RedirectPieces(f: Form): seq<string> {
    [">", f.b3, f.target]
  }

  function DelimiterPieces(f: Form): seq<string>
    requires f.word != ""
  {
    ["<<", f.dash, f.b5, f.left, f.word[..1], f.word[1..], f.right]
  }

  function Pieces(f: Form, redirectFirst: bool): seq<string>
    requires f.word != ""
  {
    if redirectFirst then HeadPieces(f) + (RedirectPieces(f) + ([f.b4] + (DelimiterPieces(f) + [f.b6])))
    else HeadPieces(f) + (DelimiterPieces(f) + ([f.b4] + (RedirectPieces(f) + [f.b6])))
  }

  lemma DelimiterConcat(f: Form)
    requires f.word != ""
    ensures Concat(DelimiterPieces(f)) == Delimiter(f)
  {
    var front, back := ["<<", f.dash, f.b5, f.left, f.word[..1]], [f.word[1..], f.right];
    assert DelimiterPieces(f) == front + back;
    ConcatConcat(front, back);
    Concat5("<<", f.dash, f.b5, f.left, f.word[..1]);
    Concat2(f.word[1..], f.right);
    assert f.word == f.word[..1] + f.word[1..];
  }

  lemma PiecesConcat(f: Form, redirectFirst: bool)
    requires f.word != ""
    ensures Concat(Pieces(f, redirectFirst)) == FormLine(f, redirectFirst)
  {
    hide Concat;
    Concat5(f.indent, "RUN", f.b1, "cat", f.b2);
    Concat3(">", f.b3, f.target);
    DelimiterConcat(f);
    One(f.b4);
    One(f.b6);
    var head, first, second := HeadPieces(f), RedirectPieces(f), DelimiterPieces(f);
    if !redirectFirst {
      first, second := second, first;
    }
    ConcatConcat(head, first + ([f.b4] + (second + [f.b6])));
    ConcatConcat(first, [f.b4] + (second + [f.b6]));
    ConcatConcat([f.b4], second + [f.b6]);
    ConcatConcat(second, [f.b6]);
    LineShape(f, redirectFirst, Concat(first), Concat(second));
  }

  lemma LineShape(f: Form, redirectFirst: bool, first: string, second: string)
    requires first == if redirectFirst then Redirect(f) else Delimiter(f)
    requires second == if redirectFirst then Delimiter(f) else Redirect(f)
    ensures (f.indent + "RUN" + f.b1 + "cat" + f.b2) + (first + (f.b4 + (second + f.b6))) == FormLine(f, redirectFirst)
  {
    hide Redirect, Delimiter;
    assert Command(f, redirectFirst) == "cat" + f.b2 + first + f.b4 + second;
  }

  lemma BlanksAreBlank(s: string)
    ensures Blanks(s) <==> AllIn(s, Blank)
  {}

  lemma FormMatches(f: Form, redirectFirst: bool)
    requires FormOk(f)
    ensures Matches(if redirectFirst then CAT_REDIRECT else CAT_HEREDOC_REDIRECT, Pieces(f, redirectFirst),
                    FormLine(f, redirectFirst))
  {
    hide Concat, FormLine;
    PiecesConcat(f, redirectFirst);
    var p := if redirectFirst then CAT_REDIRECT else CAT_HEREDOC_REDIRECT;
    var m := Pieces(f, redirectFirst);
    assert |m| == 17 == |p|;
    if redirectFirst {
      RedirectPiecesFit(f);
    } else {
      HeredocPiecesFit(f);
    }
  }

  lemma PartsFit(f: Form)
    requires FormOk(f)
    ensures IsPiece(BLANKS, f.indent) && IsPiece(BLANKS1, f.b1) && IsPiece(BLANKS1, f.b2) && IsPiece(BLANKS1, f.b3)
    ensures IsPiece(BLANKS1, f.b4) && IsPiece(BLANKS, f.b5) && IsPiece(BLANKS, f.b6) && IsPiece(WORD, f.target)
    ensures IsPiece(Rep(Dash, true, false), f.dash)
    ensures IsPiece(Rep(Quote, true, false), f.left) && IsPiece(Rep(Quote, true, false), f.right)
    ensures IsPiece(Rep(IdentStart, false, false), f.word[..1]) && IsPiece(Rep(IdentChar, true, true), f.word[1..])
  {}

  lemma RedirectPiecesFit(f: Form)
    requires FormOk(f)
    ensures forall i :: 0 <= i < 17 ==> IsPiece(CAT_REDIRECT[i], Pieces(f, true)[i])
  {
    hide IsPiece, FormOk;
    PartsFit(f);
    LiteralsFit();
  }

  lemma HeredocPiecesFit(f: Form)
    requires FormOk(f)
    ensures forall i :: 0 <= i < 17 ==> IsPiece(CAT_HEREDOC_REDIRECT[i], Pieces(f, false)[i])
  {
    hide IsPiece, FormOk;
    PartsFit(f);
    LiteralsFit();
  }

  lemma LiteralsFit()
    ensures IsPiece(Lit("RUN"), "RUN") && IsPiece(Lit("cat"), "cat") && IsPiece(Lit(">"), ">")
    ensures IsPiece(Lit("<<"), "<<")
  {}

  /** The form that the pieces of a match make. */
  function FormFrom(m: seq<string>, redirectFirst: bool): Form
    requires |m| == 17
  {
    if redirectFirst then
      Form(m[0], m[2], m[4], m[6], m[7], m[8], m[10], m[11], m[12], m[13] + m[14], m[15], m[16])
    else Form(m[0], m[2], m[4], m[14], m[15], m[12], m[6], m[7], m[8], m[9] + m[10], m[11], m[16])
  }

  lemma MatchMakesForm(line: string, m: seq<string>, redirectFirst: bool)
    requires Matches(if redirectFirst then CAT_REDIRECT else CAT_HEREDOC_REDIRECT, m, line)
    ensures |m| == 17 && FormOk(FormFrom(m, redirectFirst))
    ensures line == FormLine(FormFrom(m, redirectFirst), redirectFirst)
  {
    hide Concat, FormLine;
    var p := if redirectFirst then CAT_REDIRECT else CAT_HEREDOC_REDIRECT;
    assert |p| == 17;
    var f := FormFrom(m, redirectFirst);
    PiecesMakeForm(m, redirectFirst);
    PiecesConcat(f, redirectFirst);
  }

  lemma PiecesMakeForm(m: seq<string>, redirectFirst: bool)
    requires |m| == 17
    requires var p := if redirectFirst then CAT_REDIRECT else CAT_HEREDOC_REDIRECT;
      |p| == 17 && forall i :: 0 <= i < 17 ==> IsPiece(p[i], m[i])
    ensures FormOk(FormFrom(m, redirectFirst)) && Pieces(FormFrom(m, redirectFirst), redirectFirst) == m
  {
    hide FormOk, IsPiece;
    var p := if redirectFirst then CAT_REDIRECT else CAT_HEREDOC_REDIRECT;
    assert IsPiece(p[0], m[0]) && IsPiece(p[1], m[1]) && IsPiece(p[2], m[2]) && IsPiece(p[3], m[3]);
    assert IsPiece(p[4], m[4]) && IsPiece(p[5], m[5]) && IsPiece(p[6], m[6]) && IsPiece(p[7], m[7]);
    assert IsPiece(p[8], m[8]) && IsPiece(p[9], m[9]) && IsPiece(p[10], m[10]) && IsPiece(p[11], m[11]);
    assert IsPiece(p[12], m[12]) && IsPiece(p[13], m[13]) && IsPiece(p[14], m[14]) && IsPiece(p[15], m[15]);
    assert IsPiece(p[16], m[16]);
    var f := FormFrom(m, redirectFirst);
    if redirectFirst {
      FittingParts(f, m[13], m[14]);
      LiteralIs("RUN", m[1]); LiteralIs("cat", m[3]); LiteralIs(">", m[5]); LiteralIs("<<", m[9]);
    } else {
      FittingParts(f, m[9], m[10]);
      LiteralIs("RUN", m[1]); LiteralIs("cat", m[3]); LiteralIs("<<", m[5]); LiteralIs(">", m[13]);
    }
  }

  lemma LiteralIs(text: string, piece: string)
    requires IsPiece(Lit(text), piece)
    ensures piece == text
  {}

  lemma FittingParts(f: Form, first: string, rest: string)
    requires IsPiece(BLANKS, f.indent) && IsPiece(BLANKS1, f.b1) && IsPiece(BLANKS1, f.b2) && IsPiece(BLANKS1, f.b3)
    requires IsPiece(BLANKS1, f.b4) && IsPiece(BLANKS, f.b5) && IsPiece(BLANKS, f.b6) && IsPiece(WORD, f.target)
    requires IsPiece(Rep(Dash, true, false), f.dash)
    requires IsPiece(Rep(Quote, true, false), f.left) && IsPiece(Rep(Quote, true, false), f.right)
    requires IsPiece(Rep(IdentStart, false, false), first) && IsPiece(Rep(IdentChar, true, true), rest)
    requires f.word == first + rest
    ensures FormOk(f) && f.word[..1] == first && f.word[1..] == rest
  {
    assert f.dash != "" ==> f.dash == [f.dash[0]];
    assert f.left != "" ==> f.left == [f.left[0]];
    assert f.right != "" ==> f.right == [f.right[0]];
  }

  // ------------------------------------------------------------------ what is recognized

  /** Two patterns that begin alike take the same pieces from a text. */
  lemma {:induction false} SameStart(p: Pattern, q: Pattern, s: string, k: nat)
    requires k <= |p| && k <= |q| && p[..k] == q[..k] && Match(p, s).Some?
    ensures |Match(p, s).value| == |p|
    ensures Match(q, s).Some? ==> Match(q[k..], Concat(Match(p, s).value[k..])).Some?
  {
    MatchSound(p, s);
    var m := Match(p, s).value;
    if k == 0 {
      assert q[0..] == q && m[0..] == m;
    } else {
      assert p[0] == p[..k][0] == q[..k][0] == q[0];
      var n := Take(p[0], s).value;
      assert p[1..][..k - 1] == p[..k][1..] && q[1..][..k - 1] == q[..k][1..];
      SameStart(p[1..], q[1..], s[n..], k - 1);
      assert m[1..] == Match(p[1..], s[n..]).value;
      assert m[1..][k - 1..] == m[k..] && q[1..][k - 1..] == q[k..];
    }
  }

  /** What follows the five parts up to `cat` and its blanks. */
  lemma AfterHead(f: Form, redirectFirst: bool)
    requires f.word != ""
    ensures |Pieces(f, redirectFirst)| == 17
    ensures (if redirectFirst then ">" + f.b3 else "<<") <= Concat(Pieces(f, redirectFirst)[5..])
  {
    hide Concat;
    var m := Pieces(f, redirectFirst);
    if redirectFirst {
      assert m[5..] == [">", f.b3] + m[7..];
      ConcatConcat([">", f.b3], m[7..]);
      Concat2(">", f.b3);
    } else {
      assert m[5..] == ["<<"] + m[6..];
      ConcatConcat(["<<"], m[6..]);
      One("<<");
    }
  }

  lemma Otherwise(f: Form, redirectFirst: bool, q: Pattern)
    requires FormOk(f) && |q| > 5 && q[..5] == CAT_REDIRECT[..5] && q[5].Lit?
    requires !(q[5].text <= Concat(Pieces(f, redirectFirst)[5..]))
    ensures Match(q, FormLine(f, redirectFirst)).None?
  {
    hide Matches, Match, Separated, Concat, FormLine;
    var p := if redirectFirst then CAT_REDIRECT else CAT_HEREDOC_REDIRECT;
    FormIsMatched(f, redirectFirst);
    assert p[..5] == CAT_REDIRECT[..5];
    SameStart(p, q, FormLine(f, redirectFirst), 5);
    NoLiteral(q[5..], Concat(Pieces(f, redirectFirst)[5..]));
  }

  lemma NoLiteral(q: Pattern, s: string)
    requires q != [] && q[0].Lit? && !(q[0].text <= s)
    ensures Match(q, s).None?
  {}

  lemma FormIsMatched(f: Form, redirectFirst: bool)
    requires FormOk(f)
    ensures Match(if redirectFirst then CAT_REDIRECT else CAT_HEREDOC_REDIRECT, FormLine(f, redirectFirst))
            == Some(Pieces(f, redirectFirst))
  {
    hide Matches, Match, Separated, FormLine;
    FormMatches(f, redirectFirst);
    RedirectSeparated();
    HeredocRedirectSeparated();
    MatchComplete(if redirectFirst then CAT_REDIRECT else CAT_HEREDOC_REDIRECT, Pieces(f, redirectFirst),
                  FormLine(f, redirectFirst));
  }

  /**
   A line of either form is recognized, with its target and with its delimiter's
   dash and quotes; quotes that differ are an error.
   */
  lemma FormParses(f: Form, redirectFirst: bool)
    requires FormOk(f)
    ensures f.left == f.right ==> ParseLegacy(FormLine(f, redirectFirst)) == Ok(Some(SpecOf(f)))
    ensures f.left != f.right ==> ParseLegacy(FormLine(f, redirectFirst)).Err?
    ensures !IsAppend(FormLine(f, redirectFirst))
  {
    hide Match, FormLine, Concat;
    FormIsMatched(f, redirectFirst);
    AfterHead(f, redirectFirst);
    NeitherPrefix(f, redirectFirst, Concat(Pieces(f, redirectFirst)[5..]));
    assert CAT_APPEND[..5] == CAT_REDIRECT[..5];
    Otherwise(f, redirectFirst, CAT_APPEND);
    if !redirectFirst {
      Otherwise(f, redirectFirst, CAT_REDIRECT);
    }
    assert f.word == f.word[..1] + f.word[1..];
    assert f.dash + f.left + f.word[..1] + f.word[1..] + f.right == f.dash + f.left + f.word + f.right;
  }

  lemma NeitherPrefix(f: Form, redirectFirst: bool, s: string)
    requires FormOk(f) && (if redirectFirst then ">" + f.b3 else "<<") <= s
    ensures !(">>" <= s) && (!redirectFirst ==> !(">" <= s))
  {
    assert redirectFirst ==> s[1] == (">" + f.b3)[1] == f.b3[0];
    assert !redirectFirst ==> s[0] == "<<"[0];
  }

  /** A line is no legacy form exactly when it has neither form. */
  lemma NoneIff(line: string)
    ensures ParseLegacy(line) == Ok(None) <==> forall f, first :: FormOk(f) ==> line != FormLine(f, first)
  {
    hide Match, FormLine, FormOk, Matches;
    forall f, first | FormOk(f) && line == FormLine(f, first)
      ensures ParseLegacy(line) != Ok(None)
    {
      FormParses(f, first);
    }
    if ParseLegacy(line) != Ok(None) {
      MatchSound(CAT_REDIRECT, line);
      MatchSound(CAT_HEREDOC_REDIRECT, line);
      if Match(CAT_REDIRECT, line).Some? {
        MatchMakesForm(line, Match(CAT_REDIRECT, line).value, true);
      } else {
        MatchMakesForm(line, Match(CAT_HEREDOC_REDIRECT, line).value, false);
      }
    }
  }

  // --------------------------------------------------------------------- the append form

  /** `RUN cat >> target <<` and anything. */
  function AppendLine(f: Form, rest: string): string {
    f.indent + "RUN" + f.b1 + "cat" + f.b2 + (">>" + f.b3 + f.target) + (f.b4 + "<<" + rest)
  }

  function AppendPieces(f: Form, rest: string): seq<string> {
    HeadPieces(f) + ([">>", f.b3, f.target] + [f.b4, "<<", rest])
  }

  ghost predicate AppendOk(f: Form) {
    && Blanks(f.indent) && Blanks(f.b1) && Blanks(f.b2) && Blanks(f.b3) && Blanks(f.b4)
    && f.b1 != "" && f.b2 != "" && f.b3 != "" && f.b4 != "" && IsPath(f.target)
  }

  lemma AppendConcat(f: Form, rest: string)
    ensures Concat(AppendPieces(f, rest)) == AppendLine(f, rest)
  {
    hide Concat;
    ConcatConcat(HeadPieces(f), [">>", f.b3, f.target] + [f.b4, "<<", rest]);
    ConcatConcat([">>", f.b3, f.target], [f.b4, "<<", rest]);
    Concat5(f.indent, "RUN", f.b1, "cat", f.b2);
    Concat3(">>", f.b3, f.target);
    Concat3(f.b4, "<<", rest);
  }

  lemma AppendMatches(f: Form, rest: string)
    requires AppendOk(f)
    ensures Matches(CAT_APPEND, AppendPieces(f, rest), AppendLine(f, rest))
  {
    hide Concat, AppendLine;
    AppendConcat(f, rest);
  }

  lemma MatchMakesAppend(line: string, m: seq<string>) returns (f: Form, rest: string)
    requires Matches(CAT_APPEND, m, line)
    ensures AppendOk(f) && line == AppendLine(f, rest)
  {
    hide Concat, AppendLine;
    var p := CAT_APPEND;
    assert |p| == 11;
    assert IsPiece(p[0], m[0]) && IsPiece(p[1], m[1]) && IsPiece(p[2], m[2]) && IsPiece(p[3], m[3]);
    assert IsPiece(p[4], m[4]) && IsPiece(p[5], m[5]) && IsPiece(p[6], m[6]) && IsPiece(p[7], m[7]);
    assert IsPiece(p[8], m[8]) && IsPiece(p[9], m[9]);
    f, rest := Form(m[0], m[2], m[4], m[6], m[7], m[8], "", "", "", "", "", ""), m[10];
    assert AppendPieces(f, rest) == m;
    AppendConcat(f, rest);
  }

  /** A line is an append exactly when it has that form. */
  lemma AppendIff(line: string)
    ensures IsAppend(line) <==> exists f, rest :: AppendOk(f) && line == AppendLine(f, rest)
  {
    hide Matches, Match, AppendLine, AppendOk, Separated;
    PatternsAreExact(line);
    if m :| Matches(CAT_APPEND, m, line) {
      var f, rest := MatchMakesAppend(line, m);
    }
    if f, rest :| AppendOk(f) && line == AppendLine(f, rest) {
      AppendMatches(f, rest);
    }
  }
}

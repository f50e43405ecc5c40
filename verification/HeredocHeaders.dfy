/**
 What the rewriter's small decisions mean: which lines are comments, continued or
 the end of a heredoc, how a header is put together, and which keyword it has.
 */
module HeredocHeaders {
  import opened Basics
  import opened Text
  import opened Patterns
  import opened Heredoc

  // -------------------------------------------------------------------------- lines

  /** An aside is a line of nothing but space, or whose first other character is a number sign. */
  lemma AsideIff(line: string)
    ensures IsAside(line) <==> AllSpace(line) || exists n :: IsComment(line, n)
  {
    hide TrimSpace, AllSpace;
    if n :| IsComment(line, n) {
      CommentTrimmed(line, n);
    }
    if AllSpace(line) {
      assert line + "" + "" == line;
      TrimSpaceIs(line, "", "");
    }
    Leading(line);
  }

  /** The first character that is not space is a number sign, at position `n`. */
  ghost predicate IsComment(line: string, n: int) {
    0 <= n < |line| && line[n] == '#' && forall i :: 0 <= i < n ==> IsSpace(line[i])
  }

  lemma CommentTrimmed(line: string, n: int)
    requires IsComment(line, n)
    ensures HasPrefix(TrimSpace(line), "#")
  {
    var before, rest := line[..n], line[n..];
    assert line == before + rest;
    TrimLeftSpaceIs(before, rest);
    TrimRightSpaceTrims(rest);
    KeepsFirst(rest);
  }

  lemma {:induction false} KeepsFirst(s: string)
    requires s != "" && !IsSpace(s[0])
    ensures TrimRightSpace(s) != "" && TrimRightSpace(s)[0] == s[0]
  {
    if |s| > 1 && IsSpace(s[|s| - 1]) {
      KeepsFirst(s[..|s| - 1]);
    }
  }

  /** What a line is when nothing or a number sign is left at its start. */
  lemma Leading(line: string)
    ensures TrimSpace(line) == "" ==> AllSpace(line)
    ensures HasPrefix(TrimSpace(line), "#") ==> exists n :: IsComment(line, n)
  {
    var left := TrimLeftSpace(line);
    var n := |line| - |left|;
    TrimLeftSpaceTrims(line);
    LeftIsSpace(line);
    TrimRightSpaceTrims(left);
    if left != "" {
      KeepsFirst(left);
      assert line[n] == left[0];
      if HasPrefix(TrimSpace(line), "#") {
        assert TrimSpace(line)[0] == "#"[0];
        assert IsComment(line, n);
      }
    }
  }

  lemma {:induction false} LeftIsSpace(s: string)
    ensures |TrimLeftSpace(s)| <= |s| && forall i :: 0 <= i < |s| - |TrimLeftSpace(s)| ==> IsSpace(s[i])
  {
    if s != "" && IsSpace(s[0]) {
      LeftIsSpace(s[1..]);
      assert forall i :: 1 <= i < |s| ==> s[i] == s[1..][i - 1];
    }
  }

  /**
   A line is continued exactly when, blanks at its end aside, it ends with one
   escape character and not with two; what is kept is what stands before it.
   */
  lemma ContinuedIff(line: string, escape: char)
    requires escape != ' ' && escape != '\t'
    ensures IsContinued(line, escape) <==> exists body, blanks :: IsContinuation(line, escape, body, blanks)
    ensures forall body, blanks :: IsContinuation(line, escape, body, blanks) ==> Unescaped(line, escape) == body
  {
    hide TrimRight;
    forall body, blanks | IsContinuation(line, escape, body, blanks)
      ensures IsContinued(line, escape) && Unescaped(line, escape) == body
    {
      var trimmed := body + [escape];
      TrimRightIs(trimmed, blanks, " \t");
      assert trimmed[..|body|] == body;
    }
    if IsContinued(line, escape) {
      var trimmed := TrimRight(line, " \t");
      TrimRightRest(line, " \t");
      var body := trimmed[..|trimmed| - 1];
      assert line == body + [escape] + line[|trimmed|..];
      assert IsContinuation(line, escape, body, line[|trimmed|..]);
    }
  }

  ghost predicate IsContinuation(line: string, escape: char, body: string, blanks: string) {
    && line == body + [escape] + blanks
    && (forall i :: 0 <= i < |blanks| ==> blanks[i] == ' ' || blanks[i] == '\t')
    && (body == "" || body[|body| - 1] != escape)
  }

  lemma {:induction false} TrimRightRest(s: string, cutset: string)
    ensures TrimRight(s, cutset) <= s
    ensures forall i :: |TrimRight(s, cutset)| <= i < |s| ==> s[i] in cutset
  {
    if s != "" && s[|s| - 1] in cutset {
      TrimRightRest(s[..|s| - 1], cutset);
    }
  }

  /** The line ends a heredoc: its name alone, behind tabs if they are stripped, with any line end. */
  ghost predicate IsEnd(line: string, doc: Doc, tabs: string, end: string) {
    && line == tabs + doc.name + end
    && (end == "" || end == "\n" || end == "\r" || end == "\r\n")
    && (tabs == "" || doc.chomp) && forall i :: 0 <= i < |tabs| ==> tabs[i] == '\t'
  }

  /** For a name that is a plain word. */
  lemma DelimiterIff(line: string, doc: Doc)
    requires doc.name != "" && doc.name[0] != '\t'
    requires doc.name[|doc.name| - 1] != '\r' && doc.name[|doc.name| - 1] != '\n'
    ensures IsDelimiter(line, doc) <==> exists tabs, end :: IsEnd(line, doc, tabs, end)
  {
    hide IsDelimiter, IsEnd;
    forall tabs, end | IsEnd(line, doc, tabs, end)
      ensures IsDelimiter(line, doc)
    {
      EndIsDelimiter(line, doc, tabs, end);
    }
    if IsDelimiter(line, doc) {
      var tabs, end := DelimiterIsEnd(line, doc);
    }
  }

  lemma EndIsDelimiter(line: string, doc: Doc, tabs: string, end: string)
    requires doc.name != "" && doc.name[0] != '\t' && IsEnd(line, doc, tabs, end)
    requires doc.name[|doc.name| - 1] != '\r' && doc.name[|doc.name| - 1] != '\n'
    ensures IsDelimiter(line, doc)
  {
    hide TrimLeftTabs, TrimSuffix;
    var bare := tabs + doc.name;
    LineEndTrimmed(bare, end);
    TabsTrimmed(tabs, doc.name);
    assert tabs == "" ==> bare == doc.name;
  }

  lemma DelimiterIsEnd(line: string, doc: Doc) returns (tabs: string, end: string)
    requires IsDelimiter(line, doc)
    ensures IsEnd(line, doc, tabs, end)
  {
    hide TrimLeftTabs, TrimSuffix;
    var bare := TrimSuffix(TrimSuffix(line, "\n"), "\r");
    LineEndIs(line);
    TabsBefore(bare);
    end := line[|bare|..];
    tabs := if doc.chomp then bare[..|bare| - |doc.name|] else "";
    assert bare == tabs + doc.name;
    assert line == bare + end;
  }

  lemma LineEndTrimmed(bare: string, end: string)
    requires bare != "" && bare[|bare| - 1] != '\r' && bare[|bare| - 1] != '\n'
    requires end == "" || end == "\n" || end == "\r" || end == "\r\n"
    ensures TrimSuffix(TrimSuffix(bare + end, "\n"), "\r") == bare
  {
    var line := bare + end;
    assert line[..|bare|] == bare;
    if end == "\r\n" {
      assert line[..|line| - 1] == bare + "\r";
      assert (bare + "\r")[..|bare|] == bare;
    }
    assert end == "" ==> line == bare;
  }

  lemma LineEndIs(line: string)
    ensures var bare := TrimSuffix(TrimSuffix(line, "\n"), "\r");
      bare <= line && var end := line[|bare|..]; end == "" || end == "\n" || end == "\r" || end == "\r\n"
  {
    var once := TrimSuffix(line, "\n");
    assert line == once || line == once + "\n";
    var bare := TrimSuffix(once, "\r");
    assert once == bare || once == bare + "\r";
    assert line == bare || line == bare + "\n" || line == bare + "\r" || line == bare + "\r\n";
  }

  lemma {:induction false} TabsTrimmed(tabs: string, s: string)
    requires (forall i :: 0 <= i < |tabs| ==> tabs[i] == '\t') && s != "" && s[0] != '\t'
    ensures TrimLeftTabs(tabs + s) == s
  {
    if tabs == "" {
      assert tabs + s == s;
    } else {
      assert (tabs + s)[1..] == tabs[1..] + s;
      TabsTrimmed(tabs[1..], s);
    }
  }

  lemma {:induction false} TabsBefore(s: string)
    ensures |TrimLeftTabs(s)| <= |s| && s[|s| - |TrimLeftTabs(s)|..] == TrimLeftTabs(s)
    ensures forall i :: 0 <= i < |s| - |TrimLeftTabs(s)| ==> s[i] == '\t'
  {
    if s != "" && s[0] == '\t' {
      TabsBefore(s[1..]);
      assert forall i :: 1 <= i < |s| ==> s[i] == s[1..][i - 1];
    }
  }

  // ------------------------------------------------------------------------ headers

  /** What a line adds to a header. */
  function Added(line: string, escape: char): string {
    var text := TrimRight(line, "\r\n");
    if IsAside(text) then "" else if IsContinued(text, escape) then Unescaped(text, escape) else text
  }

  /** The header goes on behind the line. */
  predicate GoesOn(line: string, escape: char) {
    var text := TrimRight(line, "\r\n");
    IsAside(text) || IsContinued(text, escape)
  }

  function AddedAll(lines: seq<string>, escape: char): string {
    if lines == [] then "" else AddedAll(lines[..|lines| - 1], escape) + Added(lines[|lines| - 1], escape)
  }

  lemma {:induction false} AddedCons(line: string, rest: seq<string>, escape: char)
    ensures AddedAll([line] + rest, escape) == Added(line, escape) + AddedAll(rest, escape)
  {
    hide Added;
    var all := [line] + rest;
    if rest == [] {
      assert all == [line] && all[..0] == [];
      assert "" + Added(line, escape) == Added(line, escape) + "";
    } else {
      var n := |rest| - 1;
      assert all[..n + 1] == [line] + rest[..n] && all[n + 1] == rest[n];
      AddedCons(line, rest[..n], escape);
      assert (Added(line, escape) + AddedAll(rest[..n], escape)) + Added(rest[n], escape)
          == Added(line, escape) + (AddedAll(rest[..n], escape) + Added(rest[n], escape));
    }
  }

  lemma {:induction false} ContinuationIs(rest: seq<string>, escape: char)
    ensures var h := Continuation(rest, escape);
      && h.text == AddedAll(rest[..h.lines], escape)
      && (h.closed ==> h.lines > 0 && !GoesOn(rest[h.lines - 1], escape))
      && forall i :: 0 <= i < (if h.closed then h.lines - 1 else h.lines) ==> GoesOn(rest[i], escape)
  {
    hide TrimRight, IsAside, IsContinued, Unescaped;
    if rest != [] {
      var h, t := Continuation(rest, escape), Continuation(rest[1..], escape);
      ContinuationIs(rest[1..], escape);
      if GoesOn(rest[0], escape) {
        assert rest[..h.lines] == [rest[0]] + rest[1..][..t.lines];
        AddedCons(rest[0], rest[1..][..t.lines], escape);
        assert forall i :: 1 <= i < |rest| ==> rest[i] == rest[1..][i - 1];
      } else {
        assert rest[..1] == [rest[0]] && [rest[0]][..0] == [];
      }
    }
  }

  /**
   A header is the aside that it starts with, or else runs to the first line that
   is neither an aside nor continued; its text is that of its lines without
   asides, escapes and the blanks behind them.
   */
  lemma HeaderIs(rest: seq<string>, escape: char)
    requires rest != []
    ensures var h := HeaderOf(rest, escape);
      if IsAside(TrimRight(rest[0], "\r\n")) then h.lines == 1 && h.text == TrimRight(rest[0], "\r\n")
      else
        && h.text == AddedAll(rest[..h.lines], escape)
        && (forall i :: 0 <= i < h.lines - 1 ==> GoesOn(rest[i], escape))
        && (h.lines == |rest| || !GoesOn(rest[h.lines - 1], escape))
  {
    hide TrimRight, IsAside, AddedAll, GoesOn;
    ContinuationIs(rest, escape);
  }

  // ----------------------------------------------------------------------- keywords

  /** An ASCII letter in either case. */
  predicate SameLetter(c: char, upper: char) {
    c == upper || (c as int == upper as int + 32)
  }

  /** A keyword is recognized in either case, letter by letter. */
  lemma KeywordIff(s: string, keyword: string)
    requires keyword in {"RUN", "COPY", "ADD"}
    ensures Upper(s) == keyword <==> |s| == |keyword| && forall i :: 0 <= i < |s| ==> SameLetter(s[i], keyword[i])
  {
    if |s| == |keyword| {
      assert forall i :: 0 <= i < |s| ==> 'A' <= keyword[i] <= 'Z' && keyword[i] != 'I' && keyword[i] != 'S';
      forall i | 0 <= i < |s|
        ensures Upper(s)[i] == keyword[i] <==> SameLetter(s[i], keyword[i])
      {
        UpperLetter(s[i], keyword[i]);
      }
      if Upper(s) == keyword {
        assert forall i :: 0 <= i < |s| ==> Upper(s)[i] == keyword[i];
      }
    }
  }

  lemma UpperLetter(c: char, upper: char)
    requires 'A' <= upper <= 'Z' && upper != 'I' && upper != 'S'
    ensures UpperChar(c) == upper <==> SameLetter(c, upper)
  {}

  lemma OnbuildIs(s: string)
    requires |s| == 7 && forall i :: 0 <= i < 7 ==> SameLetter(s[i], "ONBUILD"[i])
    ensures Upper(s) == "ONBUILD"
  {
    forall i | 0 <= i < 7
      ensures Upper(s)[i] == "ONBUILD"[i]
    {
      assert SameLetter(s[i], "ONBUILD"[i]);
    }
  }

  ghost predicate NoBlank(s: string) {
    forall i :: 0 <= i < |s| ==> s[i] != ' ' && s[i] != '\t'
  }

  /** An instruction is its first word and, trimmed, what follows the blank behind it. */
  lemma InstructionSplits(before: string, word: string, blank: char, rest: string, after: string)
    requires AllSpace(before) && AllSpace(after) && NoBlank(word) && word != "" && !IsSpace(word[0])
    requires (blank == ' ' || blank == '\t') && rest != "" && !IsSpace(rest[|rest| - 1])
    ensures SplitInstruction(before + (word + [blank] + rest) + after) == (Upper(word), TrimSpace(rest))
  {
    hide TrimSpace, Upper;
    var text := word + [blank] + rest;
    TrimSpaceIs(before, text, after);
    assert text == word + ([blank] + rest);
    SpanIs(word, [blank] + rest, NonBlank);
    assert text[..|word|] == word && text[|word| + 1..] == rest;
  }

  lemma BareInstruction(before: string, word: string, after: string)
    requires AllSpace(before) && AllSpace(after) && NoBlank(word)
    requires word != "" && !IsSpace(word[0]) && !IsSpace(word[|word| - 1])
    ensures SplitInstruction(before + word + after) == (Upper(word), "")
  {
    hide TrimSpace, Upper;
    TrimSpaceIs(before, word, after);
    assert word + "" == word;
    SpanIs(word, "", NonBlank);
  }

  // ---------------------------------------------------------------------- directives

  /** Only the directive named `escape` with one of two values changes the escape character. */
  lemma EscapeIs(escape: char, name: string, value: string)
    ensures EscapeAfter(escape, None) == escape
    ensures EscapeAfter(escape, Some((name, value)))
            == if name == "escape" && value == "\\" then '\\' else if name == "escape" && value == "`" then '`'
                else escape
  {}

  /** A directive is heeded only at the top of the file, and an error the second time. */
  lemma DirectivesAtTop(det: Detectors, d: DirectiveState, line: string)
    ensures d.done ==> ParseDirective(det, d, line) == Some((d, None))
    ensures !d.done && det.directive(line).NotDirective? ==>
              ParseDirective(det, d, line).Some? && ParseDirective(det, d, line).value.0.done
    ensures ParseDirective(det, d, line).None? <==>
              !d.done && det.directive(line).Directive? && det.directive(line).name in d.seen
    ensures ParseDirective(det, d, line).Some? ==>
              var (after, directive) := ParseDirective(det, d, line).value;
              && (after.done <==> d.done || det.directive(line).NotDirective?)
              && (directive.Some? <==> !d.done && det.directive(line).Directive?)
              && (directive.Some? ==> directive.value == (det.directive(line).name, det.directive(line).value))
              && after.seen == d.seen + (if directive.Some? then {directive.value.0} else {})
  {}
}

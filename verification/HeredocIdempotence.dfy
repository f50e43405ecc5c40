/**
 Rewriting a rewritten file changes nothing, given that the COPY detector finds
 in the new header the heredocs that the RUN detector found in the old one.
 */
module HeredocIdempotence {
  import opened Basics
  import opened Text
  import opened Lines
  import opened Patterns
  import opened Heredoc
  import opened HeredocForms
  import opened HeredocRewriter
  import opened HeredocTheorems

  /** The header of a COPY line. */
  function CopyHeader(spec: LegacySpec): string {
    TrimRight(CopyLine(spec), "\r\n")
  }

  /** What is asked of the detectors. */
  ghost predicate Agrees(det: Detectors) {
    && (forall line :: det.directive(line) != NotDirective ==> HasPrefix(line, "#"))
    && (forall header, line: nat {:trigger PlanOf(det, header, line)} ::
          PlanOf(det, header, line).Good? && PlanOf(det, header, line).value.spec.Some? ==>
            det.copyDocs(InstructionOf(CopyHeader(PlanOf(det, header, line).value.spec.value)).command)
            == Ok(PlanOf(det, header, line).value.docs))
  }

  // -------------------------------------------------------------- the COPY header

  ghost predicate NoEscape(s: string) {
    forall i :: 0 <= i < |s| ==> s[i] != '\\' && s[i] != '`'
  }

  /** A COPY line for a plain target. */
  ghost predicate GoodSpec(spec: LegacySpec) {
    && AllIn(spec.indent, Blank)
    && AllIn(spec.target, NonBlank) && spec.target != [] && IsPlainTarget(spec.target)
    && (forall i :: 0 <= i < |spec.token| ==> TokenChar(spec.token[i])) && spec.token != []
  }

  lemma {:induction false} TrimRightKeeps(s: string, tail: string, cutset: string)
    requires s != [] && s[|s| - 1] !in cutset
    ensures s <= TrimRight(s + tail, cutset)
    decreases |tail|
  {
    if tail == [] {
      assert s + tail == s;
    } else {
      var last := tail[|tail| - 1];
      assert (s + tail)[|s + tail| - 1] == last && (s + tail)[..|s + tail| - 1] == s + tail[..|tail| - 1];
      if last in cutset {
        TrimRightKeeps(s, tail[..|tail| - 1], cutset);
      }
    }
  }

  lemma {:induction false} TrimRightSpaceKeeps(s: string, tail: string)
    requires s != [] && !IsSpace(s[|s| - 1])
    ensures s <= TrimRightSpace(s + tail)
    decreases |tail|
  {
    if tail == [] {
      assert s + tail == s;
    } else {
      var last := tail[|tail| - 1];
      assert (s + tail)[|s + tail| - 1] == last && (s + tail)[..|s + tail| - 1] == s + tail[..|tail| - 1];
      if IsSpace(last) {
        TrimRightSpaceKeeps(s, tail[..|tail| - 1]);
      }
    }
  }

  lemma {:induction false} TrimLeftSpaceDrops(blanks: string, s: string)
    requires AllIn(blanks, Blank) && s != [] && !IsSpace(s[0])
    ensures TrimLeftSpace(blanks + s) == s
  {
    if blanks == [] {
      assert blanks + s == s;
    } else {
      assert (blanks + s)[0] == blanks[0] && (blanks + s)[1..] == blanks[1..] + s;
      TrimLeftSpaceDrops(blanks[1..], s);
    }
  }

  /** The fixed start of a COPY line. */
  function Front(spec: LegacySpec): string {
    "COPY <<" + spec.token
  }

  /** The header starts with the indent, the keyword and the delimiter; only the target's end may be trimmed. */
  lemma CopyHeaderShape(spec: LegacySpec) returns (tail: string)
    requires GoodSpec(spec)
    ensures CopyHeader(spec) == spec.indent + Front(spec) + tail
    ensures NoEscape(CopyHeader(spec))
  {
    hide NoEscape;
    var front := spec.indent + Front(spec);
    var rest := " " + spec.target + "\n";
    assert CopyLine(spec) == front + rest;
    assert front[|front| - 1] == spec.token[|spec.token| - 1];
    assert TokenChar(spec.token[|spec.token| - 1]);
    TrimRightKeeps(front, rest, "\r\n");
    tail := CopyHeader(spec)[|front|..];
    TrimRightShorter(CopyLine(spec), "\r\n");
    CopyNoEscape(spec);
    NoEscapePrefix(CopyLine(spec), CopyHeader(spec));
  }

  lemma NoEscapePrefix(s: string, prefix: string)
    requires NoEscape(s) && prefix <= s
    ensures NoEscape(prefix)
  {}

  lemma CopyNoEscape(spec: LegacySpec)
    requires GoodSpec(spec)
    ensures NoEscape(CopyLine(spec))
  {
    assert SHELL_CHARS[1] == '`' && SHELL_CHARS[2] == '\\';
    assert NoEscape(spec.indent) && NoEscape(spec.token) && NoEscape(spec.target);
    assert NoEscape("COPY <<") && NoEscape(" ") && NoEscape("\n");
  }

  /** Trimmed, a COPY header starts with the keyword. */
  lemma CopyHeaderTrimmed(spec: LegacySpec, tail: string, text: string)
    requires GoodSpec(spec) && text == spec.indent + Front(spec) + tail
    ensures Front(spec) <= TrimSpace(text)
    ensures !IsAside(text)
  {
    var front := Front(spec);
    assert text == spec.indent + (front + tail);
    assert front[0] == 'C' && (front + tail)[0] == 'C';
    TrimLeftSpaceDrops(spec.indent, front + tail);
    assert front[|front| - 1] == spec.token[|spec.token| - 1];
    assert TokenChar(spec.token[|spec.token| - 1]);
    TrimRightSpaceKeeps(front, tail);
    assert TrimSpace(text)[0] == 'C';
  }

  /** A COPY header is one instruction on one line: it is never continued. */
  lemma CopyNeverContinued(spec: LegacySpec, more: seq<string>, escape: char)
    requires GoodSpec(spec) && (escape == '\\' || escape == '`')
    ensures HeaderOf([CopyLine(spec)] + more, escape) == Header(CopyHeader(spec), 1, true)
  {
    hide IsAside;
    var tail := CopyHeaderShape(spec);
    CopyHeaderTrimmed(spec, tail, CopyHeader(spec));
    TrimRightShorter(CopyHeader(spec), " \t");
    assert ([CopyLine(spec)] + more)[0] == CopyLine(spec);
  }

  lemma SpanWord(word: string, rest: string)
    requires AllIn(word, NonBlank) && rest != [] && In(rest[0], Blank)
    ensures Span(word + rest, NonBlank) == |word|
  {
    SpanIs(word, rest, NonBlank);
  }

  lemma CopyInstruction(spec: LegacySpec)
    requires GoodSpec(spec)
    ensures InstructionOf(CopyHeader(spec)).name == "COPY" && !InstructionOf(CopyHeader(spec)).onbuild
  {
    var tail := CopyHeaderShape(spec);
    CopyHeaderTrimmed(spec, tail, CopyHeader(spec));
    var h := TrimSpace(CopyHeader(spec));
    assert h[..7] == Front(spec)[..7] == "COPY <<";
    assert h == h[..4] + h[4..] && h[..4] == h[..7][..4] == "COPY" && h[4..][0] == h[..7][4] == ' ';
    SpanWord("COPY", h[4..]);
    assert Upper("COPY") == "COPY";
  }

  /** No pattern that asks for RUN matches a COPY header. */
  lemma NoRun(p: Pattern, indent: string, rest: string)
    requires |p| >= 2 && p[0] == BLANKS && p[1] == Lit("RUN")
    requires AllIn(indent, Blank) && rest != [] && rest[0] == 'C'
    ensures Match(p, indent + rest) == None
  {
    SpanIs(indent, rest, Blank);
    assert (indent + rest)[|indent|..] == rest;
    assert p[1..][0] == Lit("RUN");
    assert !("RUN" <= rest);
  }

  lemma CopyIsNoLegacyForm(spec: LegacySpec, ins: Instruction)
    requires GoodSpec(spec) && ins.name == "COPY"
    ensures !IsAppend(Normalized(CopyHeader(spec), ins))
    ensures ParseLegacy(Normalized(CopyHeader(spec), ins)) == Ok(None)
  {
    hide Match;
    var tail := CopyHeaderShape(spec);
    var header := CopyHeader(spec);
    assert header == spec.indent + (Front(spec) + tail);
    SpanIs(spec.indent, Front(spec) + tail, Blank);
    assert Indent(header) == spec.indent;
    var rest := "COPY" + " " + TrimSpace(ins.command);
    assert Normalized(header, ins) == spec.indent + rest;
    NoRun(CAT_APPEND, spec.indent, rest);
    NoRun(CAT_REDIRECT, spec.indent, rest);
    NoRun(CAT_HEREDOC_REDIRECT, spec.indent, rest);
  }

  /** The plan for a COPY header: the heredocs the RUN had, and no replacement. */
  lemma CopyPlan(det: Detectors, header: string, line: nat, line': nat)
    requires Agrees(det) && PlanOf(det, header, line).Good? && PlanOf(det, header, line).value.spec.Some?
    ensures var plan := PlanOf(det, header, line).value;
      && GoodSpec(plan.spec.value)
      && PlanOf(det, CopyHeader(plan.spec.value), line') == Good(Plan(plan.docs, None))
  {
    hide ParseLegacy, InstructionOf, IsAppend, Normalized, CopyHeader, CopyLine;
    var plan := PlanOf(det, header, line).value;
    CopyShorter(det, header, line);
    CopyInstruction(plan.spec.value);
    var ins := InstructionOf(CopyHeader(plan.spec.value));
    CopyIsNoLegacyForm(plan.spec.value, ins);
    assert det.copyDocs(ins.command) == Ok(plan.docs);
  }

  // ----------------------------------------------------------------------- locality

  lemma DelimiterLocal(rest: seq<string>, doc: Doc, k: nat, post: seq<string>)
    requires DelimiterAt(rest, doc).Some? && DelimiterAt(rest, doc).value < k <= |rest|
    ensures DelimiterAt(rest[..k] + post, doc) == DelimiterAt(rest, doc)
  {
    hide DelimiterAt, IsDelimiter;
    var n := DelimiterAt(rest, doc).value;
    var longer := rest[..k] + post;
    assert forall i :: 0 <= i < k ==> longer[i] == rest[i];
    assert IsDelimiter(longer[n], doc);
  }

  lemma {:induction false} BodyLocal(rest: seq<string>, docs: seq<Doc>, k: nat, post: seq<string>)
    requires BodyLines(rest, docs).Some? && BodyLines(rest, docs).value <= k <= |rest|
    ensures BodyLines(rest[..k] + post, docs) == BodyLines(rest, docs)
    decreases |docs|
  {
    hide DelimiterAt, BodyLines, IsDelimiter;
    if docs == [] {
      NoBodies(rest, docs);
      NoBodies(rest[..k] + post, docs);
    } else {
      BodyStep(rest, docs);
      BodyStep(rest[..k] + post, docs);
      var n := DelimiterAt(rest, docs[0]).value;
      DelimiterLocal(rest, docs[0], k, post);
      BodyLocal(rest[n + 1..], docs[1..], k - (n + 1), post);
      assert (rest[..k] + post)[n + 1..] == rest[n + 1..][..k - (n + 1)] + post;
    }
  }

  lemma {:induction false} ContinuationLocal(rest: seq<string>, escape: char, k: nat, post: seq<string>)
    requires Continuation(rest, escape).lines <= k <= |rest|
    requires Continuation(rest, escape).closed || (post == [] && k == |rest|)
    ensures Continuation(rest[..k] + post, escape) == Continuation(rest, escape)
  {
    hide IsAside, IsContinued, TrimRight, Unescaped;
    if k == |rest| && post == [] {
      assert rest[..k] + post == rest;
    } else if rest != [] {
      var line := TrimRight(rest[0], "\r\n");
      assert (rest[..k] + post)[0] == rest[0] && (rest[..k] + post)[1..] == rest[1..][..k - 1] + post;
      if IsAside(line) || IsContinued(line, escape) {
        ContinuationLocal(rest[1..], escape, k - 1, post);
      }
    }
  }

  lemma HeaderLocal(rest: seq<string>, escape: char, k: nat, post: seq<string>)
    requires rest != [] && HeaderOf(rest, escape).lines <= k <= |rest|
    requires HeaderOf(rest, escape).closed || (post == [] && k == |rest|)
    ensures rest[..k] + post != [] && HeaderOf(rest[..k] + post, escape) == HeaderOf(rest, escape)
  {
    hide Continuation, IsAside, TrimRight;
    var line := TrimRight(rest[0], "\r\n");
    assert (rest[..k] + post)[0] == rest[0];
    if !IsAside(line) {
      ContinuationLocal(rest, escape, k, post);
    }
  }

  /** A plan does not depend on the line number. */
  lemma PlanAnywhere(det: Detectors, header: string, line: nat, line': nat)
    requires PlanOf(det, header, line).Good?
    ensures PlanOf(det, header, line') == PlanOf(det, header, line)
  {}

  /** A block that is kept is found again wherever its lines stand. */
  lemma KeptBlockAgain(det: Detectors, rest: seq<string>, line: nat, escape: char, d: DirectiveState, line': nat,
                       post: seq<string>)
    requires rest != [] && BlockOf(det, rest, line, escape, d).Good?
    requires BlockOf(det, rest, line, escape, d).value.copy.None?
    requires BlockOf(det, rest, line, escape, d).value.Size() == |rest| ==> post == []
    ensures var b := BlockOf(det, rest, line, escape, d).value;
      rest[..b.Size()] + post != [] && BlockOf(det, rest[..b.Size()] + post, line', escape, d) == Good(b)
  {
    hide HeaderOf, PlanOf, BodyLines, ParseDirective;
    var b := BlockOf(det, rest, line, escape, d).value;
    var k := b.Size();
    var h := HeaderOf(rest, b.escape);
    HeaderLocal(rest, b.escape, k, post);
    PlanAnywhere(det, h.text, line, line');
    var docs := PlanOf(det, h.text, line).value.docs;
    BodyLocal(rest[h.lines..], docs, b.body, post);
    assert (rest[..k] + post)[h.lines..] == rest[h.lines..][..b.body] + post;
    assert (rest[..k] + post)[0] == rest[0];
  }

  // ------------------------------------------------------------- the second pass

  lemma {:induction false} TrimRightSpaceOfLineEnd(s: string)
    ensures TrimRightSpace(TrimRight(s, "\r\n")) == TrimRightSpace(s)
  {
    if s != [] && s[|s| - 1] in "\r\n" {
      TrimRightSpaceOfLineEnd(s[..|s| - 1]);
    }
  }

  lemma {:induction false} TrimLeftSpaceEnd(s: string, c: char)
    requires IsSpace(c)
    ensures TrimRightSpace(TrimLeftSpace(s + [c])) == TrimRightSpace(TrimLeftSpace(s))
  {
    if s == [] {
      assert s + [c] == [c] && [c][1..] == [];
    } else if IsSpace(s[0]) {
      assert (s + [c])[1..] == s[1..] + [c];
      TrimLeftSpaceEnd(s[1..], c);
    } else {
      assert (s + [c])[..|s|] == s;
    }
  }

  /** A line end does not matter to trimming. */
  lemma {:induction false} TrimSpaceOfLine(s: string)
    ensures TrimSpace(TrimRight(s, "\r\n")) == TrimSpace(s)
  {
    if s != [] && s[|s| - 1] in "\r\n" {
      var front := s[..|s| - 1];
      assert s == front + [s[|s| - 1]];
      TrimLeftSpaceEnd(front, s[|s| - 1]);
      TrimSpaceOfLine(front);
    }
  }

  lemma CommentHasNoKeyword(line: string)
    requires HasPrefix(TrimSpace(line), "#")
    ensures InstructionOf(line).name !in {"RUN", "COPY", "ADD"} && InstructionOf(line).name != ""
    ensures !InstructionOf(line).onbuild
  {
    var h := TrimSpace(line);
    assert h[0] == '#';
    assert Span(h, NonBlank) > 0;
    assert SplitInstruction(line).0[0] == '#';
    assert "RUN"[0] == 'R' && "COPY"[0] == 'C' && "ADD"[0] == 'A' && "ONBUILD"[0] == 'O';
  }

  /** A header with a keyword does not start with a comment line. */
  lemma FirstLineIsNoComment(rest: seq<string>, escape: char)
    requires rest != [] && InstructionOf(HeaderOf(rest, escape).text).name in {"RUN", "COPY", "ADD"}
    ensures !HasPrefix(TrimSpace(rest[0]), "#")
  {
    hide Continuation, IsContinued, InstructionOf, TrimSpace, TrimRight;
    TrimSpaceOfLine(rest[0]);
    var line := TrimRight(rest[0], "\r\n");
    if HasPrefix(TrimSpace(line), "#") {
      CommentHasNoKeyword(line);
    }
  }

  /** A line that starts with no '#' ends the directives. */
  lemma DirectivesEnd(det: Detectors, d: DirectiveState, line: string)
    requires Agrees(det) && !HasPrefix(line, "#")
    ensures ParseDirective(det, d, line) == Some((d.(done := true), None))
  {}

  lemma CopyLineTrimmed(spec: LegacySpec)
    requires GoodSpec(spec)
    ensures !HasPrefix(TrimSpace(CopyLine(spec)), "#")
  {
    assert CopyLine(spec) == spec.indent + Front(spec) + (" " + spec.target + "\n");
    CopyHeaderTrimmed(spec, " " + spec.target + "\n", CopyLine(spec));
  }

  /** A rewritten block is kept when it is met again. */
  lemma RewrittenBlockAgain(det: Detectors, rest: seq<string>, line: nat, escape: char, d: DirectiveState, line': nat,
                            post: seq<string>)
    requires Agrees(det) && (escape == '\\' || escape == '`')
    requires rest != [] && BlockOf(det, rest, line, escape, d).Good?
    requires BlockOf(det, rest, line, escape, d).value.copy.Some?
    ensures var b := BlockOf(det, rest, line, escape, d).value;
      BlockOf(det, b.Emit(rest) + post, line', escape, d) == Good(Block(1, b.body, None, b.escape, b.directives))
  {
    hide HeaderOf, PlanOf, BodyLines, ParseDirective, CopyLine, CopyHeader, GoodSpec, TrimSpace, Agrees;
    var b := BlockOf(det, rest, line, escape, d).value;
    RewrittenState(det, rest, line, escape, d);
    var h := HeaderOf(rest, escape);
    var plan := PlanOf(det, h.text, line).value;
    var spec := plan.spec.value;
    CopyPlan(det, h.text, line, line');
    CopyLineTrimmed(spec);
    DirectivesEnd(det, d, TrimSpace(CopyLine(spec)));
    var body := rest[b.header..b.Size()];
    var again := b.Emit(rest) + post;
    assert again == [CopyLine(spec)] + (body + post);
    CopyNeverContinued(spec, body + post, escape);
    BodyLocal(rest[h.lines..], plan.docs, b.body, post);
    assert rest[h.lines..][..b.body] == body;
    assert again[1..] == body + post;
  }

  /** A rewritten block leaves the escape character alone and ends the directives. */
  lemma RewrittenState(det: Detectors, rest: seq<string>, line: nat, escape: char, d: DirectiveState)
    requires Agrees(det) && rest != [] && BlockOf(det, rest, line, escape, d).Good?
    requires BlockOf(det, rest, line, escape, d).value.copy.Some?
    ensures var b := BlockOf(det, rest, line, escape, d).value; b.escape == escape && b.directives == d.(done := true)
  {
    hide HeaderOf, BodyLines, InstructionOf, Replacement, IsAppend, Normalized, Agrees, TrimSpace;
    var b := BlockOf(det, rest, line, escape, d).value;
    FirstLineIsNoComment(rest, b.escape);
    DirectivesEnd(det, d, TrimSpace(rest[0]));
  }

  lemma EscapeKept(det: Detectors, rest: seq<string>, line: nat, escape: char, d: DirectiveState)
    requires rest != [] && BlockOf(det, rest, line, escape, d).Good? && (escape == '\\' || escape == '`')
    ensures var b := BlockOf(det, rest, line, escape, d).value; b.escape == '\\' || b.escape == '`'
  {
    hide HeaderOf, PlanOf, BodyLines, ParseDirective;
  }

  lemma OutputCons(rest: seq<string>, b: Block, bs: seq<Block>)
    requires b.Size() + TotalSize(bs) <= |rest|
    ensures TotalSize([b] + bs) == b.Size() + TotalSize(bs)
    ensures Output(rest, [b] + bs) == b.Emit(rest) + Output(rest[b.Size()..], bs)
  {
    assert ([b] + bs)[1..] == bs;
  }

  lemma OutputNone(rest: seq<string>)
    ensures TotalSize([]) == 0 && Output(rest, []) == []
  {}

  /** The second pass keeps every block. */
  lemma {:induction false} SecondPass(det: Detectors, rest: seq<string>, line: nat, escape: char, d: DirectiveState,
                                      line': nat)
    requires Agrees(det) && (escape == '\\' || escape == '`')
    requires Blocks(det, rest, line, escape, d).Good? && TotalSize(Blocks(det, rest, line, escape, d).value) == |rest|
    ensures var again := Blocks(det, Output(rest, Blocks(det, rest, line, escape, d).value), line', escape, d);
      again.Good? && !Changed(again.value)
    decreases |rest|
  {
    hide BlockOf, Agrees, Changed, Output, TotalSize;
    if rest == [] {
      NotChanged();
      OutputNone(rest);
    } else {
      var b := BlockOf(det, rest, line, escape, d).value;
      var tail := rest[b.Size()..];
      BlocksTile(det, tail, line + b.Size(), b.escape, b.directives);
      var bs := Blocks(det, tail, line + b.Size(), b.escape, b.directives).value;
      var post := Output(tail, bs);
      OutputCons(rest, b, bs);
      if tail == [] {
        OutputNone(tail);
      }
      EscapeKept(det, rest, line, escape, d);
      var kept := if b.copy.Some? then Block(1, b.body, None, b.escape, b.directives) else b;
      if b.copy.Some? {
        RewrittenBlockAgain(det, rest, line, escape, d, line', post);
      } else {
        KeptBlockAgain(det, rest, line, escape, d, line', post);
      }
      assert (b.Emit(rest) + post)[kept.Size()..] == post;
      SecondPass(det, tail, line + b.Size(), b.escape, b.directives, line' + kept.Size());
      var again := Blocks(det, post, line' + kept.Size(), b.escape, b.directives).value;
      ChangedCons(kept, again);
    }
  }

  // ------------------------------------------------------------ lines stay lines

  lemma {:induction false} TrimRightNoLineEnd(l: string)
    requires IsLine(l)
    ensures '\n' !in TrimRight(l, "\r\n")
  {
    if l[|l| - 1] in "\r\n" {
      var front := l[..|l| - 1];
      TrimRightShorter(front, "\r\n");
    } else {
      assert l == l[..|l| - 1] + [l[|l| - 1]];
    }
  }

  lemma {:induction false} ContinuationNoLineEnd(rest: seq<string>, escape: char)
    requires forall i :: 0 <= i < |rest| ==> IsLine(rest[i])
    ensures '\n' !in Continuation(rest, escape).text
  {
    if rest != [] {
      var line := TrimRight(rest[0], "\r\n");
      TrimRightNoLineEnd(rest[0]);
      TrimRightShorter(line, " \t");
      ContinuationNoLineEnd(rest[1..], escape);
    }
  }

  lemma HeaderNoLineEnd(rest: seq<string>, escape: char)
    requires rest != [] && forall i :: 0 <= i < |rest| ==> IsLine(rest[i])
    ensures '\n' !in HeaderOf(rest, escape).text
  {
    hide Continuation;
    ContinuationNoLineEnd(rest, escape);
    TrimRightNoLineEnd(rest[0]);
  }

  lemma TrimSpacePart(s: string)
    ensures forall c :: c in TrimSpace(s) ==> c in s
  {
    TrimLeftSpaceTrims(s);
    TrimRightSpaceTrims(TrimLeftSpace(s));
  }

  lemma SplitInstructionPart(header: string)
    ensures forall c :: c in SplitInstruction(header).1 ==> c in header
  {
    TrimSpacePart(header);
    var h := TrimSpace(header);
    var pos := Span(h, NonBlank);
    if pos < |h| {
      TrimSpacePart(h[pos + 1..]);
    }
  }

  lemma NormalizedNoLineEnd(header: string)
    requires '\n' !in header && InstructionOf(header).name in {"RUN", "COPY", "ADD"}
    ensures '\n' !in Normalized(header, InstructionOf(header))
  {
    hide SplitInstruction, TrimSpace;
    SplitInstructionPart(header);
    SplitInstructionPart(SplitInstruction(header).1);
    TrimSpacePart(InstructionOf(header).command);
    assert '\n' !in "RUN" && '\n' !in "COPY" && '\n' !in "ADD";
  }

  /** A COPY line is a complete line. */
  lemma CopyLineIsLine(det: Detectors, header: string, line: nat)
    requires '\n' !in header && PlanOf(det, header, line).Good? && PlanOf(det, header, line).value.spec.Some?
    ensures IsComplete(CopyLine(PlanOf(det, header, line).value.spec.value))
  {
    hide ParseLegacy, InstructionOf, IsAppend, Normalized;
    var spec := PlanOf(det, header, line).value.spec.value;
    CopyShorter(det, header, line);
    NormalizedNoLineEnd(header);
    var l := CopyLine(spec);
    assert l[..|l| - 1] == spec.indent + "COPY <<" + spec.token + " " + spec.target;
    assert '\n' !in spec.indent && '\n' !in spec.token && '\n' !in spec.target;
  }

  lemma CopyBlockLine(det: Detectors, rest: seq<string>, line: nat, escape: char, d: DirectiveState)
    requires rest != [] && BlockOf(det, rest, line, escape, d).Good?
    requires (forall i :: 0 <= i < |rest| ==> IsLine(rest[i]))
    ensures var b := BlockOf(det, rest, line, escape, d).value; b.copy.Some? ==> IsComplete(b.copy.value)
  {
    hide HeaderOf, PlanOf, BodyLines, CopyLine;
    var b := BlockOf(det, rest, line, escape, d).value;
    if b.copy.Some? {
      HeaderNoLineEnd(rest, b.escape);
      CopyLineIsLine(det, HeaderOf(rest, b.escape).text, line);
    }
  }

  lemma LinesConcat(a: seq<string>, b: seq<string>)
    requires LinesOk(a) && LinesOk(b)
    requires b == [] || forall i :: 0 <= i < |a| ==> IsComplete(a[i])
    ensures LinesOk(a + b)
  {}

  lemma EmitLines(b: Block, rest: seq<string>)
    requires LinesOk(rest) && b.Size() <= |rest| && (b.copy.Some? ==> IsComplete(b.copy.value))
    ensures LinesOk(b.Emit(rest))
    ensures b.Size() < |rest| ==> forall i :: 0 <= i < |b.Emit(rest)| ==> IsComplete(b.Emit(rest)[i])
  {}

  lemma {:induction false} OutputLines(det: Detectors, rest: seq<string>, line: nat, escape: char, d: DirectiveState)
    requires LinesOk(rest) && Blocks(det, rest, line, escape, d).Good?
    requires TotalSize(Blocks(det, rest, line, escape, d).value) == |rest|
    ensures LinesOk(Output(rest, Blocks(det, rest, line, escape, d).value))
    decreases |rest|
  {
    hide BlockOf, Output, TotalSize;
    if rest == [] {
      OutputNone(rest);
    } else {
      var b := BlockOf(det, rest, line, escape, d).value;
      var tail := rest[b.Size()..];
      BlocksTile(det, tail, line + b.Size(), b.escape, b.directives);
      var bs := Blocks(det, tail, line + b.Size(), b.escape, b.directives).value;
      OutputCons(rest, b, bs);
      OutputLines(det, tail, line + b.Size(), b.escape, b.directives);
      CopyBlockLine(det, rest, line, escape, d);
      EmitLines(b, rest);
      if tail == [] {
        OutputNone(tail);
      }
      LinesConcat(b.Emit(rest), Output(tail, bs));
    }
  }

  /** Rewriting what was written changes nothing. */
  lemma RewritingIsIdempotent(det: Detectors, raw: string)
    requires Agrees(det) && Transformed(det, raw).Good?
    ensures Transformed(det, Transformed(det, raw).value.0) == Good((Transformed(det, raw).value.0, false))
  {
    hide Blocks, Split, Join, Output, TotalSize, Agrees;
    var lines := Split(raw);
    TransformedIsBlocks(det, raw);
    var blocks := FileBlocks(det, lines).value;
    var out := Output(lines, blocks);
    JoinSplit(raw);
    OutputLines(det, lines, 1, '\\', START);
    SplitJoin(out);
    SecondPass(det, lines, 1, '\\', START, 1);
    TransformedIsBlocks(det, Join(out));
  }
}

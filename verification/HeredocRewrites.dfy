/**
 What becomes of a file: an instruction of a legacy form with a plain target is
 replaced by exactly one COPY line, and nothing else is; and which line an error
 is about.
 */
module HeredocRewrites {
  import opened Basics
  import opened Text
  import opened Lines
  import opened Patterns
  import opened Heredoc
  import opened HeredocRewriter
  import opened HeredocTheorems
  import opened HeredocHeaders
  import opened HeredocLegacy

  // ------------------------------------------------------------- one legacy instruction

  /** A path in which the shell would change nothing. */
  ghost predicate IsPlain(path: string) {
    forall i :: 0 <= i < |path| ==>
      path[i] !in {'$', '`', '\\', '\"', '\'', '~', '*', '?', '[', ']', '{', '}', ';', '&', '|', '<', '>', '(', ')'}
  }

  lemma PlainIff(path: string)
    ensures IsPlain(path) <==> IsPlainTarget(path)
  {
    forall c: char
      ensures c in SHELL_CHARS <==>
        c in {'$', '`', '\\', '\"', '\'', '~', '*', '?', '[', ']', '{', '}', ';', '&', '|', '<', '>', '(', ')'}
    {
      ShellChar(c);
    }
  }

  lemma ShellChar(c: char)
    ensures c in SHELL_CHARS <==>
      c in {'$', '`', '\\', '\"', '\'', '~', '*', '?', '[', ']', '{', '}', ';', '&', '|', '<', '>', '(', ')'}
  {
    assert SHELL_CHARS
        == ['$', '`', '\\', '\"', '\'', '~', '*', '?', '[', ']', '{', '}', ';', '&', '|', '<', '>', '(', ')'];
  }

  /** The header as it stands in a file: the keyword in either case. */
  function HeaderLine(f: Form, keyword: string, first: bool): string {
    f.indent + keyword + f.b1 + Command(f, first) + f.b6
  }

  ghost predicate IsRun(keyword: string) {
    |keyword| == 3 && SameLetter(keyword[0], 'R') && SameLetter(keyword[1], 'U') && SameLetter(keyword[2], 'N')
  }

  lemma CommandEnds(f: Form, first: bool)
    requires FormOk(f) && (!first ==> !IsSpace(f.target[|f.target| - 1]))
    ensures var c := Command(f, first); c != "" && !IsSpace(c[0]) && !IsSpace(c[|c| - 1])
  {
    var c := Command(f, first);
    assert c[0] == "cat"[0];
    if first {
      var d := Delimiter(f);
      assert c[|c| - 1] == d[|d| - 1];
      if f.right == "" {
        assert d[|d| - 1] == f.word[|f.word| - 1];
      } else {
        assert d[|d| - 1] == f.right[0];
      }
    } else {
      var r := Redirect(f);
      assert c[|c| - 1] == r[|r| - 1] == f.target[|f.target| - 1];
    }
  }

  lemma BlanksAreSpace(s: string)
    requires Blanks(s)
    ensures AllSpace(s)
  {}

  /** Read as an instruction, it is a RUN of the command, and normalized it is the form itself. */
  lemma LegacyInstruction(f: Form, keyword: string, first: bool)
    requires FormOk(f) && IsRun(keyword) && (!first ==> !IsSpace(f.target[|f.target| - 1]))
    ensures var header := HeaderLine(f, keyword, first);
      && InstructionOf(header) == Instruction("RUN", Command(f, first), false)
      && Normalized(header, InstructionOf(header)) == FormLine(f.(b1 := " ", b6 := ""), first)
  {
    hide SplitInstruction, TrimSpace, Command, Upper;
    var header, command := HeaderLine(f, keyword, first), Command(f, first);
    var blank, more := f.b1[0], f.b1[1..];
    CommandEnds(f, first);
    BlanksAreSpace(f.indent);
    BlanksAreSpace(f.b6);
    BlanksAreSpace(more);
    HeaderParts(f, keyword, first);
    KeywordRun(keyword);
    InstructionSplits(f.indent, keyword, blank, more + command, f.b6);
    assert more + command + "" == more + command;
    TrimSpaceIs(more, command, "");
    assert "" + command + "" == command;
    TrimSpaceIs("", command, "");
    IndentIs(f, keyword, first);
    var g := f.(b1 := " ", b6 := "");
    SameCommand(f, g, first);
    assert f.indent + "RUN" + " " + command + "" == f.indent + "RUN" + " " + command;
  }

  lemma SameCommand(f: Form, g: Form, first: bool)
    requires g == f.(b1 := " ", b6 := "")
    ensures Command(g, first) == Command(f, first)
  {}

  lemma HeaderParts(f: Form, keyword: string, first: bool)
    requires f.b1 != ""
    ensures HeaderLine(f, keyword, first)
            == f.indent + (keyword + [f.b1[0]] + (f.b1[1..] + Command(f, first))) + f.b6
  {
    hide Command;
    assert f.b1 == [f.b1[0]] + f.b1[1..];
  }

  lemma KeywordRun(keyword: string)
    requires IsRun(keyword)
    ensures Upper(keyword) == "RUN" && NoBlank(keyword) && !IsSpace(keyword[0])
  {
    KeywordIff(keyword, "RUN");
    assert forall i :: 0 <= i < 3 ==> SameLetter(keyword[i], "RUN"[i]);
  }

  lemma IndentIs(f: Form, keyword: string, first: bool)
    requires FormOk(f) && IsRun(keyword)
    ensures Indent(HeaderLine(f, keyword, first)) == f.indent
  {
    hide Command;
    var rest := keyword + f.b1 + Command(f, first) + f.b6;
    assert HeaderLine(f, keyword, first) == f.indent + rest;
    assert rest[0] == keyword[0];
    SpanIs(f.indent, rest, Blank);
  }

  /** Its plan is the replacement if the quotes are alike and the target is plain; an error if they differ. */
  lemma LegacyPlan(det: Detectors, f: Form, keyword: string, first: bool, line: nat)
    requires FormOk(f) && IsRun(keyword) && (!first ==> !IsSpace(f.target[|f.target| - 1]))
    ensures var plan := PlanOf(det, HeaderLine(f, keyword, first), line);
      && (f.left != f.right ==> plan == Bad(line, MismatchedQuotes))
      && (f.left == f.right && IsPlain(f.target) ==>
            match det.runDocs(Command(f, first))
            case Err(_) => plan == Bad(line, BadHeader)
            case Ok(docs) => plan == Good(Plan(docs, Some(SpecOf(f)))))
  {
    hide InstructionOf, Normalized, ParseLegacy, IsAppend, FormLine, Command, HeaderLine, FormOk, IsPlain;
    LegacyInstruction(f, keyword, first);
    var g := f.(b1 := " ", b6 := "");
    ShortForm(f);
    FormParses(g, first);
    PlainIff(f.target);
  }

  lemma ShortForm(f: Form)
    requires FormOk(f)
    ensures FormOk(f.(b1 := " ", b6 := ""))
  {}

  // ---------------------------------------------------------------------- in a file

  /** The text of the header of block `i`. */
  ghost function HeaderText(det: Detectors, lines: seq<string>, i: nat): string
    requires FileBlocks(det, lines).Good? && i < |FileBlocks(det, lines).value|
  {
    BlockReadAsTold(det, lines, i);
    var blocks := FileBlocks(det, lines).value;
    HeaderOf(lines[StartOf(blocks, i)..], blocks[i].escape).text
  }

  lemma BlockPlanned(det: Detectors, lines: seq<string>, i: nat)
    requires FileBlocks(det, lines).Good? && i < |FileBlocks(det, lines).value|
    ensures var blocks := FileBlocks(det, lines).value;
      var plan := PlanOf(det, HeaderText(det, lines, i), StartOf(blocks, i) + 1);
      && plan.Good?
      && blocks[i].copy == if plan.value.spec.Some? then Some(CopyLine(plan.value.spec.value)) else None
  {
    hide HeaderOf, PlanOf, BodyLines, Blocks, TotalSize, CopyLine;
    var blocks := FileBlocks(det, lines).value;
    var at := StartOf(blocks, i);
    BlockAt(det, lines, 1, '\\', START, i);
    BlockReadAsTold(det, lines, i);
  }

  /** An instruction of a legacy form with a plain target is replaced by this one line. */
  lemma LegacyBlockIsCopy(det: Detectors, lines: seq<string>, i: nat, f: Form, keyword: string, first: bool)
    requires FileBlocks(det, lines).Good? && i < |FileBlocks(det, lines).value|
    requires FormOk(f) && IsRun(keyword) && (!first ==> !IsSpace(f.target[|f.target| - 1]))
    requires HeaderText(det, lines, i) == HeaderLine(f, keyword, first) && IsPlain(f.target)
    ensures f.left == f.right
    ensures FileBlocks(det, lines).value[i].copy
            == Some(f.indent + "COPY <<" + f.dash + f.left + f.word + f.right + " " + f.target + "\n")
  {
    hide FileBlocks, HeaderText, HeaderLine, PlanOf, FormOk, IsPlain, IsRun;
    BlockPlanned(det, lines, i);
    LegacyPlan(det, f, keyword, first, StartOf(FileBlocks(det, lines).value, i) + 1);
    CopyText(f);
  }

  lemma CopyText(f: Form)
    ensures CopyLine(SpecOf(f)) == f.indent + "COPY <<" + f.dash + f.left + f.word + f.right + " " + f.target + "\n"
  {
    var token := f.dash + f.left + f.word + f.right;
    assert f.indent + "COPY <<" + token == f.indent + "COPY <<" + f.dash + f.left + f.word + f.right;
  }

  /** Only such an instruction is: a RUN, not in ONBUILD, whose keyword put right it has a legacy form. */
  lemma OnlyLegacyIsRewritten(det: Detectors, lines: seq<string>, i: nat)
    requires FileBlocks(det, lines).Good? && i < |FileBlocks(det, lines).value|
    requires FileBlocks(det, lines).value[i].copy.Some?
    ensures var header := HeaderText(det, lines, i);
      var ins := InstructionOf(header);
      && !ins.onbuild
      && exists f, first ::
           && FormOk(f) && f.left == f.right && IsPlain(f.target)
           && Indent(header) + ins.name + " " + TrimSpace(ins.command) == FormLine(f, first)
           && FileBlocks(det, lines).value[i].copy
              == Some(f.indent + "COPY <<" + f.dash + f.left + f.word + f.right + " " + f.target + "\n")
  {
    hide FileBlocks, HeaderText, PlanOf, FormOk, IsPlain, InstructionOf, Normalized, CopyLine, FormLine, TrimSpace,
        Indent;
    BlockPlanned(det, lines, i);
    var header := HeaderText(det, lines, i);
    PlannedSpec(det, header, StartOf(FileBlocks(det, lines).value, i) + 1);
    var text := Normalized(header, InstructionOf(header));
    NormalizedIs(header);
    NoneIff(text);
    var f, first :| FormOk(f) && text == FormLine(f, first);
    FormParses(f, first);
    PlainIff(f.target);
    CopyText(f);
  }

  lemma NormalizedIs(header: string)
    ensures var ins := InstructionOf(header);
      Normalized(header, ins) == Indent(header) + ins.name + " " + TrimSpace(ins.command)
  {}

  lemma PlannedSpec(det: Detectors, header: string, line: nat)
    requires PlanOf(det, header, line).Good? && PlanOf(det, header, line).value.spec.Some?
    ensures var spec := PlanOf(det, header, line).value.spec.value;
      && ParseLegacy(Normalized(header, InstructionOf(header))) == Ok(Some(spec))
      && !InstructionOf(header).onbuild && IsPlainTarget(spec.target)
  {
    hide InstructionOf, Normalized, ParseLegacy, IsAppend, IsPlainTarget;
  }

  /**
   The text written for a file with such an instruction: what is written for the
   blocks before it, the COPY line, the lines of its body as they are, and what
   is written for the blocks behind it.
   */
  lemma LegacyFileRewritten(det: Detectors, raw: string, i: nat, f: Form, keyword: string, first: bool)
    requires FileBlocks(det, Split(raw)).Good? && i < |FileBlocks(det, Split(raw)).value|
    requires FormOk(f) && IsRun(keyword) && (!first ==> !IsSpace(f.target[|f.target| - 1]))
    requires HeaderText(det, Split(raw), i) == HeaderLine(f, keyword, first) && IsPlain(f.target)
    ensures var lines, blocks := Split(raw), FileBlocks(det, Split(raw)).value;
      var at, b := StartOf(blocks, i), blocks[i];
      && TotalSize(blocks[..i]) <= |lines| && at + b.Size() <= |lines|
      && TotalSize(blocks[i + 1..]) <= |lines[at + b.Size()..]|
      && Transformed(det, raw) == Good((
           Join(Output(lines, blocks[..i]))
           + (f.indent + "COPY <<" + f.dash + f.left + f.word + f.right + " " + f.target + "\n")
           + Join(lines[at + b.header..at + b.Size()])
           + Join(Output(lines[at + b.Size()..], blocks[i + 1..])), true))
  {
    hide FileBlocks, HeaderText, HeaderLine, FormOk, IsPlain, IsRun, Transformed, Split, Join, Output, TotalSize;
    var lines, blocks := Split(raw), FileBlocks(det, Split(raw)).value;
    var before, b, after := blocks[..i], blocks[i], blocks[i + 1..];
    assert blocks == (before + [b]) + after;
    FileTiled(det, lines);
    LegacyBlockIsCopy(det, lines, i, f, keyword, first);
    TransformedIsBlocks(det, raw);
    assert Changed(blocks);
    BlockInPlace(lines, before, b, after);
    JoinThree(Output(lines, before), InPlace(lines, TotalSize(before), b),
        Output(lines[TotalSize(before) + b.Size()..], after));
    JoinCons(b.copy.value, lines[TotalSize(before) + b.header..TotalSize(before) + b.Size()]);
    var copy, body := b.copy.value, Join(lines[TotalSize(before) + b.header..TotalSize(before) + b.Size()]);
    var front, back := Join(Output(lines, before)), Join(Output(lines[TotalSize(before) + b.Size()..], after));
    assert front + (copy + body) + back == front + copy + body + back;
  }

  lemma JoinThree(a: seq<string>, b: seq<string>, c: seq<string>)
    ensures Join(a + b + c) == Join(a) + Join(b) + Join(c)
  {
    JoinConcat(a + b, c);
    JoinConcat(a, b);
  }

  lemma JoinCons(line: string, rest: seq<string>)
    ensures Join([line] + rest) == line + Join(rest)
  {
    assert ([line] + rest)[1..] == rest;
  }

  // ---------------------------------------------------------------------- what is refused

  /** The line has a legacy form, of which the quotes are alike or not. */
  ghost predicate IsLegacy(text: string, alike: bool) {
    exists f, first :: FormOk(f) && text == FormLine(f, first) && (f.left == f.right <==> alike)
  }

  ghost predicate IsReplaced(text: string, onbuild: bool) {
    !onbuild && exists f, first :: FormOk(f) && text == FormLine(f, first) && f.left == f.right && IsPlain(f.target)
  }

  lemma LegacyIff(text: string)
    ensures ParseLegacy(text).Err? <==> IsLegacy(text, false)
    ensures (ParseLegacy(text).Ok? && ParseLegacy(text).value.Some?) <==> IsLegacy(text, true)
    ensures ParseLegacy(text).Ok? && ParseLegacy(text).value.Some? ==>
              forall onbuild :: (!onbuild && IsPlainTarget(ParseLegacy(text).value.value.target)) <==>
                  IsReplaced(text, onbuild)
    ensures ParseLegacy(text) == Ok(None) ==> forall onbuild :: !IsReplaced(text, onbuild)
  {
    hide ParseLegacy, FormOk, FormLine, IsPlain, IsPlainTarget;
    NoneIff(text);
    forall f, first | FormOk(f) && text == FormLine(f, first)
      ensures f.left == f.right ==> ParseLegacy(text) == Ok(Some(SpecOf(f)))
      ensures f.left != f.right ==> ParseLegacy(text).Err?
      ensures IsPlain(f.target) <==> IsPlainTarget(f.target)
    {
      FormParses(f, first);
      PlainIff(f.target);
    }
  }

  /**
   When and why an instruction is refused, and what is planned otherwise. `text`
   is the instruction with its keyword put right.
   */
  lemma PlanIff(det: Detectors, header: string, line: nat)
    ensures var ins := InstructionOf(header);
      var text := Indent(header) + ins.name + " " + TrimSpace(ins.command);
      var docs := if ins.name == "RUN" then det.runDocs(ins.command) else det.copyDocs(ins.command);
      var plan := PlanOf(det, header, line);
      if ins.name != "RUN" && ins.name != "COPY" && ins.name != "ADD" then plan == Good(Plan([], None))
      else if exists f, rest :: AppendOk(f) && text == AppendLine(f, rest) then plan == Bad(line, AppendHeredoc)
      else if IsLegacy(text, false) then plan == Bad(line, MismatchedQuotes)
      else if docs.Err? then plan == Bad(line, BadHeader)
      else if ins.name == "RUN" && docs.value != [] && !IsReplaced(text, ins.onbuild) && !det.nativeRun(ins.command)
      then plan == Bad(line, Unsupported)
      else plan.Good? && plan.value.docs == docs.value && (plan.value.spec.Some? <==> IsReplaced(text, ins.onbuild))
  {
    hide InstructionOf, Indent, TrimSpace, IsAppend, ParseLegacy, AppendLine, AppendOk, IsLegacy, IsReplaced,
        IsPlainTarget;
    var ins := InstructionOf(header);
    var text := Indent(header) + ins.name + " " + TrimSpace(ins.command);
    assert text == Normalized(header, ins);
    AppendIff(text);
    LegacyIff(text);
  }

  /** Block `i` is what is read where the blocks before it end. */
  ghost predicate ReadAt(det: Detectors, rest: seq<string>, line: nat, escape: char, d: DirectiveState,
                         blocks: seq<Block>, i: nat) {
    && i < |blocks| && StartOf(blocks, i) < |rest|
    && BlockOf(det, rest[StartOf(blocks, i)..], line + StartOf(blocks, i), EscapeAt(blocks, i, escape),
               DirectivesAt(blocks, i, d)) == Good(blocks[i])
  }

  /** Reading the next block where these end fails, with an error about its first line. */
  ghost predicate StopsAfter(det: Detectors, rest: seq<string>, line: nat, escape: char, d: DirectiveState,
                             blocks: seq<Block>, reason: Reason) {
    && TotalSize(blocks) < |rest|
    && BlockOf(det, rest[TotalSize(blocks)..], line + TotalSize(blocks), EscapeAt(blocks, |blocks|, escape),
               DirectivesAt(blocks, |blocks|, d)) == Bad(line + TotalSize(blocks), reason)
  }

  /** A file that is refused is refused for its first bad block, at that block's line. */
  lemma {:induction false} ErrorIsFirst(det: Detectors, rest: seq<string>, line: nat, escape: char, d: DirectiveState)
    returns (blocks: seq<Block>)
    requires Blocks(det, rest, line, escape, d).Bad?
    ensures forall i :: 0 <= i < |blocks| ==> ReadAt(det, rest, line, escape, d, blocks, i)
    ensures StopsAfter(det, rest, line, escape, d, blocks, Blocks(det, rest, line, escape, d).reason)
    ensures Blocks(det, rest, line, escape, d).line == line + TotalSize(blocks)
    decreases |rest|
  {
    hide BlockOf, TotalSize, ReadAt, StopsAfter;
    match BlockOf(det, rest, line, escape, d)
    case Bad(_, _) =>
      blocks := [];
      BadAtOnce(det, rest, line, escape, d);
    case Good(b) =>
      var bs := ErrorIsFirst(det, rest[b.Size()..], line + b.Size(), b.escape, b.directives);
      blocks := [b] + bs;
      StopsLater(det, rest, line, escape, d, b, bs, Blocks(det, rest, line, escape, d).reason);
      forall i: nat | i < |blocks|
        ensures ReadAt(det, rest, line, escape, d, blocks, i)
      {
        ReadLater(det, rest, line, escape, d, b, bs, i);
      }
  }

  lemma BadAtOnce(det: Detectors, rest: seq<string>, line: nat, escape: char, d: DirectiveState)
    requires rest != [] && BlockOf(det, rest, line, escape, d).Bad?
    ensures TotalSize([]) == 0 && BlockOf(det, rest, line, escape, d).line == line
    ensures StopsAfter(det, rest, line, escape, d, [], BlockOf(det, rest, line, escape, d).reason)
  {
    hide BlockOf;
    BadAtItsLine(det, rest, line, escape, d);
    assert rest[0..] == rest;
  }

  lemma StopsLater(det: Detectors, rest: seq<string>, line: nat, escape: char, d: DirectiveState, b: Block,
                   bs: seq<Block>, reason: Reason)
    requires b.Size() <= |rest|
    requires StopsAfter(det, rest[b.Size()..], line + b.Size(), b.escape, b.directives, bs, reason)
    ensures StopsAfter(det, rest, line, escape, d, [b] + bs, reason)
    ensures TotalSize([b] + bs) == b.Size() + TotalSize(bs)
  {
    hide BlockOf, TotalSize;
    TotalSizeConcat([b], bs);
    TotalSizeOne(b);
    assert rest[b.Size()..][TotalSize(bs)..] == rest[TotalSize([b] + bs)..];
  }

  lemma ReadLater(det: Detectors, rest: seq<string>, line: nat, escape: char, d: DirectiveState, b: Block,
                  bs: seq<Block>, i: nat)
    requires rest != [] && BlockOf(det, rest, line, escape, d) == Good(b) && b.Size() <= |rest| && i <= |bs|
    requires i > 0 ==> ReadAt(det, rest[b.Size()..], line + b.Size(), b.escape, b.directives, bs, i - 1)
    ensures ReadAt(det, rest, line, escape, d, [b] + bs, i)
  {
    hide BlockOf, TotalSize;
    if i == 0 {
      NoneBefore([b] + bs);
      assert rest[0..] == rest;
    } else {
      StartOfTail(b, bs, i - 1);
      assert rest[b.Size()..][StartOf(bs, i - 1)..] == rest[StartOf([b] + bs, i)..];
    }
  }

  lemma BadAtItsLine(det: Detectors, rest: seq<string>, line: nat, escape: char, d: DirectiveState)
    requires rest != [] && BlockOf(det, rest, line, escape, d).Bad?
    ensures BlockOf(det, rest, line, escape, d).line == line
  {
    hide InstructionOf, Normalized, Replacement, IsAppend, DocsOf;
  }

  // ----------------------------------------------------------------- the escape character

  /** Once a line was no directive, the escape character of the file stays. */
  lemma {:induction false} EscapeStays(det: Detectors, lines: seq<string>, j: nat, i: nat)
    requires FileBlocks(det, lines).Good? && j <= i < |FileBlocks(det, lines).value|
    requires FileBlocks(det, lines).value[j].directives.done
    ensures var blocks := FileBlocks(det, lines).value;
      blocks[i].directives.done && blocks[i].escape == blocks[j].escape
    decreases i - j
  {
    hide Blocks, HeaderOf, PlanOf, BodyLines;
    if j < i {
      EscapeStays(det, lines, j, i - 1);
      BlockAt(det, lines, 1, '\\', START, i);
    }
  }
}

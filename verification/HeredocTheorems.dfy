/** What rewriting preserves: the order of lines, everything not rewritten, and heredoc bodies. */
module HeredocTheorems {
  import opened Text
  import opened Lines
  import opened Patterns
  import opened Heredoc
  import opened HeredocForms
  import opened HeredocRewriter

  // ------------------------------------------------------------ blocks in place

  /** Where a block starts in the input. */
  function StartOf(blocks: seq<Block>, i: nat): nat
    requires i <= |blocks|
  {
    TotalSize(blocks[..i])
  }

  lemma {:induction false} TotalSizeConcat(a: seq<Block>, b: seq<Block>)
    ensures TotalSize(a + b) == TotalSize(a) + TotalSize(b)
  {
    if a == [] {
      assert a + b == b;
    } else {
      assert (a + b)[1..] == a[1..] + b;
      TotalSizeConcat(a[1..], b);
    }
  }

  lemma TotalSizeOne(b: Block)
    ensures TotalSize([b]) == b.Size()
  {
    assert [b][1..] == [];
  }

  lemma StartsInOrder(blocks: seq<Block>, i: nat, j: nat)
    requires i < j <= |blocks|
    ensures StartOf(blocks, i) + blocks[i].Size() <= StartOf(blocks, j)
  {
    assert blocks[..j] == (blocks[..i] + [blocks[i]]) + blocks[i + 1..j];
    TotalSizeConcat(blocks[..i] + [blocks[i]], blocks[i + 1..j]);
    TotalSizeConcat(blocks[..i], [blocks[i]]);
    assert [blocks[i]][1..] == [];
  }

  /**
   Between what is written for the blocks before it and after it, a block's
   place holds its own lines, byte for byte, or the COPY line and its own body.
   */
  lemma BlockInPlace(lines: seq<string>, before: seq<Block>, b: Block, after: seq<Block>)
    requires TotalSize((before + [b]) + after) <= |lines|
    ensures TotalSize(before) + b.Size() + TotalSize(after) == TotalSize((before + [b]) + after)
    ensures var at := TotalSize(before);
      Output(lines, (before + [b]) + after)
          == Output(lines, before) + InPlace(lines, at, b) + Output(lines[at + b.Size()..], after)
  {
    hide Output, TotalSize, InPlace;
    TotalSizeConcat(before + [b], after);
    TotalSizeConcat(before, [b]);
    TotalSizeOne(b);
    OutputConcat(lines, before + [b], after);
    OutputSnoc(lines, before, b);
    EmitAt(lines, TotalSize(before), b);
  }

  /** Without a rewritten block the output is the input. */
  lemma {:induction false} UnchangedOutput(lines: seq<string>, blocks: seq<Block>)
    requires TotalSize(blocks) == |lines| && !Changed(blocks)
    ensures Output(lines, blocks) == lines
    decreases |blocks|
  {
    if blocks != [] {
      var k := blocks[0].Size();
      assert blocks[0].copy.None?;
      forall i | 0 <= i < |blocks[1..]|
        ensures blocks[1..][i].copy.None?
      {
        assert blocks[1..][i] == blocks[i + 1];
      }
      UnchangedOutput(lines[k..], blocks[1..]);
      assert lines == lines[..k] + lines[k..];
    }
  }

  /** On success the text is the input's blocks with headers replaced; without a replacement it is the input. */
  lemma TransformedIsBlocks(det: Detectors, raw: string)
    ensures Transformed(det, raw).Good? <==> FileBlocks(det, Split(raw)).Good?
    ensures Transformed(det, raw).Good? ==>
      var blocks := FileBlocks(det, Split(raw)).value;
      && TotalSize(blocks) == |Split(raw)|
      && Transformed(det, raw).value == (Join(Output(Split(raw), blocks)), Changed(blocks))
      && (!Changed(blocks) ==> Transformed(det, raw).value.0 == raw)
  {
    hide Blocks, Split, Join, Output, TotalSize;
    var lines := Split(raw);
    BlocksTile(det, lines, 1, '\\', START);
    JoinSplit(raw);
    if FileBlocks(det, lines).Good? && !Changed(FileBlocks(det, lines).value) {
      UnchangedOutput(lines, FileBlocks(det, lines).value);
    }
  }

  // ------------------------------------------------------------------------ bodies

  /** Each heredoc's body runs to the first line after its start that is its delimiter. */
  ghost predicate IsBody(lines: seq<string>, docs: seq<Doc>)
    decreases |docs|
  {
    if docs == [] then lines == []
    else exists n :: 0 <= n < |lines| && IsDelimiter(lines[n], docs[0])
                     && (forall i :: 0 <= i < n ==> !IsDelimiter(lines[i], docs[0]))
                     && IsBody(lines[n + 1..], docs[1..])
  }

  lemma {:induction false} BodyIsBody(rest: seq<string>, docs: seq<Doc>)
    ensures match BodyLines(rest, docs)
      case None => true
      case Some(n) => IsBody(rest[..n], docs)
    decreases |docs|
  {
    hide IsBody, BodyLines, DelimiterAt, IsDelimiter;
    if docs == [] {
      NoBodies(rest, docs);
      EmptyBody(rest[..0], docs);
    } else if BodyLines(rest, docs).Some? {
      BodyStep(rest, docs);
      var total, n := BodyLines(rest, docs).value, DelimiterAt(rest, docs[0]).value;
      BodyIsBody(rest[n + 1..], docs[1..]);
      assert rest[..total][n + 1..] == rest[n + 1..][..total - (n + 1)];
      assert rest[..total][n] == rest[n];
      BodyBegins(rest[..total], docs, n);
    }
  }

  lemma EmptyBody(lines: seq<string>, docs: seq<Doc>)
    requires lines == [] && docs == []
    ensures IsBody(lines, docs)
  {}

  lemma BodyBegins(lines: seq<string>, docs: seq<Doc>, n: nat)
    requires docs != [] && n < |lines| && IsDelimiter(lines[n], docs[0])
    requires (forall i :: 0 <= i < n ==> !IsDelimiter(lines[i], docs[0]))
    requires IsBody(lines[n + 1..], docs[1..])
    ensures IsBody(lines, docs)
  {}

  /** A block is a header and the bodies of the heredocs found in it. */
  lemma BlockIsHeaderAndBody(det: Detectors, rest: seq<string>, line: nat, escape: char, d: DirectiveState)
    requires rest != [] && BlockOf(det, rest, line, escape, d).Good?
    ensures var b := BlockOf(det, rest, line, escape, d).value;
      var h := HeaderOf(rest, b.escape);
      && b.header == h.lines
      && PlanOf(det, h.text, line).Good?
      && IsBody(rest[b.header..b.Size()], PlanOf(det, h.text, line).value.docs)
  {
    hide HeaderOf, PlanOf, BodyLines, IsBody;
    var b := BlockOf(det, rest, line, escape, d).value;
    var h := HeaderOf(rest, b.escape);
    BodyIsBody(rest[h.lines..], PlanOf(det, h.text, line).value.docs);
    assert rest[h.lines..][..b.body] == rest[b.header..b.Size()];
  }

  // -------------------------------------------------------------- what is read where

  /** The escape character and directive state in which a block is read: those the block before it leaves. */
  function EscapeAt(blocks: seq<Block>, i: nat, escape: char): char
    requires i <= |blocks|
  {
    if i == 0 then escape else blocks[i - 1].escape
  }

  function DirectivesAt(blocks: seq<Block>, i: nat, d: DirectiveState): DirectiveState
    requires i <= |blocks|
  {
    if i == 0 then d else blocks[i - 1].directives
  }

  lemma StartOfTail(b: Block, bs: seq<Block>, i: nat)
    requires i <= |bs|
    ensures StartOf([b] + bs, i + 1) == b.Size() + StartOf(bs, i)
  {
    assert ([b] + bs)[..i + 1] == [b] + bs[..i];
    TotalSizeConcat([b], bs[..i]);
    TotalSizeOne(b);
  }

  /** Each block is what is read where the blocks before it end, in the state they leave. */
  lemma {:induction false} BlockAt(det: Detectors, rest: seq<string>, line: nat, escape: char, d: DirectiveState,
                                   i: nat)
    requires Blocks(det, rest, line, escape, d).Good? && i < |Blocks(det, rest, line, escape, d).value|
    ensures var blocks := Blocks(det, rest, line, escape, d).value; var at := StartOf(blocks, i);
      && at < |rest|
      && BlockOf(det, rest[at..], line + at, EscapeAt(blocks, i, escape), DirectivesAt(blocks, i, d)) == Good(blocks[i])
    decreases |rest|
  {
    hide BlockOf, TotalSize;
    var b := BlockOf(det, rest, line, escape, d).value;
    var tail := rest[b.Size()..];
    var bs := Blocks(det, tail, line + b.Size(), b.escape, b.directives).value;
    if i == 0 {
      NoneBefore([b] + bs);
      assert rest[0..] == rest;
    } else {
      BlockAt(det, tail, line + b.Size(), b.escape, b.directives, i - 1);
      StartOfTail(b, bs, i - 1);
      var at := StartOf(bs, i - 1);
      assert tail[at..] == rest[b.Size() + at..];
    }
  }

  lemma NoneBefore(blocks: seq<Block>)
    ensures StartOf(blocks, 0) == 0
  {
    assert blocks[..0] == [];
  }

  /** The line is one of those that block `i` takes as its instruction. */
  predicate InHeader(blocks: seq<Block>, i: nat, line: nat) {
    i < |blocks| && StartOf(blocks, i) <= line < StartOf(blocks, i) + blocks[i].header
  }

  /** The line is one of those that block `i` takes as heredoc bodies. */
  predicate InBody(blocks: seq<Block>, i: nat, line: nat) {
    i < |blocks| && StartOf(blocks, i) + blocks[i].header <= line < StartOf(blocks, i) + blocks[i].Size()
  }

  predicate InBlock(blocks: seq<Block>, i: nat, line: nat) {
    InHeader(blocks, i, line) || InBody(blocks, i, line)
  }

  ghost predicate InSome(blocks: seq<Block>, line: nat) {
    exists i :: InBlock(blocks, i, line)
  }

  /** Two blocks have no line in common. */
  lemma OneBlock(blocks: seq<Block>, i: nat, j: nat, line: nat)
    requires InBlock(blocks, i, line) && InBlock(blocks, j, line)
    ensures i == j
  {
    if i < j {
      StartsInOrder(blocks, i, j);
    } else if j < i {
      StartsInOrder(blocks, j, i);
    }
  }

  lemma {:induction false} SomeBlock(blocks: seq<Block>, line: nat) returns (i: nat)
    requires line < TotalSize(blocks)
    ensures InBlock(blocks, i, line)
  {
    var b, bs := blocks[0], blocks[1..];
    assert blocks == [b] + bs;
    NoneBefore(blocks);
    if line < b.Size() {
      i := 0;
    } else {
      var k := SomeBlock(bs, line - b.Size());
      StartOfTail(b, bs, k);
      i := k + 1;
    }
  }

  /**
   Block `i` of a file: its header is the instruction read there, its body the
   bodies of that instruction's heredocs.
   */
  ghost predicate ReadAsTold(det: Detectors, lines: seq<string>, blocks: seq<Block>, i: nat) {
    && i < |blocks| && StartOf(blocks, i) < |lines| && StartOf(blocks, i) + blocks[i].Size() <= |lines|
    && var at := StartOf(blocks, i);
       var h := HeaderOf(lines[at..], blocks[i].escape);
       && blocks[i].header == h.lines
       && PlanOf(det, h.text, at + 1).Good?
       && IsBody(lines[at + blocks[i].header..at + blocks[i].Size()], PlanOf(det, h.text, at + 1).value.docs)
  }

  lemma BlockReadAsTold(det: Detectors, lines: seq<string>, i: nat)
    requires FileBlocks(det, lines).Good? && i < |FileBlocks(det, lines).value|
    ensures ReadAsTold(det, lines, FileBlocks(det, lines).value, i)
  {
    hide BlockOf, HeaderOf, PlanOf, IsBody, Blocks, TotalSize;
    var blocks := FileBlocks(det, lines).value;
    var at := StartOf(blocks, i);
    BlockAt(det, lines, 1, '\\', START, i);
    BlockIsHeaderAndBody(det, lines[at..], 1 + at, EscapeAt(blocks, i, '\\'), DirectivesAt(blocks, i, START));
    var b := blocks[i];
    assert lines[at..][b.header..b.Size()] == lines[at + b.header..at + b.Size()];
  }

  /**
   No heredoc body line is ever read as an instruction: every line of the file
   is in one block, in its header or in its body; a header is the instruction
   read there, a body is that of the header's heredocs, and no body line is in
   any header.
   */
  lemma BodyNeverRead(det: Detectors, raw: string)
    requires FileBlocks(det, Split(raw)).Good?
    ensures var lines, blocks := Split(raw), FileBlocks(det, Split(raw)).value;
      && (forall i :: 0 <= i < |blocks| ==> ReadAsTold(det, lines, blocks, i))
      && (forall line: nat :: line < |lines| ==> InSome(blocks, line))
      && (forall i, j, line :: InBlock(blocks, i, line) && InBlock(blocks, j, line) ==> i == j)
      && (forall i, j, line :: InBody(blocks, i, line) ==> !InHeader(blocks, j, line))
  {
    hide FileBlocks, ReadAsTold, Split, InHeader, InBody, TotalSize;
    var lines := Split(raw);
    var blocks := FileBlocks(det, lines).value;
    forall i: nat | i < |blocks|
      ensures ReadAsTold(det, lines, blocks, i)
    {
      BlockReadAsTold(det, lines, i);
    }
    FileTiled(det, lines);
    forall line: nat | line < |lines|
      ensures InSome(blocks, line)
    {
      var i := SomeBlock(blocks, line);
    }
    LinesApart(blocks);
  }

  lemma FileTiled(det: Detectors, lines: seq<string>)
    requires FileBlocks(det, lines).Good?
    ensures TotalSize(FileBlocks(det, lines).value) == |lines|
  {
    BlocksTile(det, lines, 1, '\\', START);
  }

  lemma LinesApart(blocks: seq<Block>)
    ensures forall i, j, line :: InBlock(blocks, i, line) && InBlock(blocks, j, line) ==> i == j
    ensures forall i, j, line :: InBody(blocks, i, line) ==> !InHeader(blocks, j, line)
  {
    hide StartOf;
    forall i: nat, j: nat, line: nat | InBlock(blocks, i, line) && InBlock(blocks, j, line)
      ensures i == j
    {
      OneBlock(blocks, i, j, line);
    }
    forall i: nat, j: nat, line: nat | InBody(blocks, i, line)
      ensures !InHeader(blocks, j, line)
    {
      if InHeader(blocks, j, line) {
        OneBlock(blocks, i, j, line);
      }
    }
  }

  // -------------------------------------------------------------------- shrinking

  lemma {:induction false} TrimRightShorter(s: string, cutset: string)
    ensures TrimRight(s, cutset) <= s
  {
    if s != [] && s[|s| - 1] in cutset {
      TrimRightShorter(s[..|s| - 1], cutset);
    }
  }

  /** A header is no longer than its lines. */
  lemma {:induction false} HeaderShorter(rest: seq<string>, escape: char)
    ensures var h := Continuation(rest, escape); |h.text| <= |Join(rest[..h.lines])|
  {
    if rest != [] {
      var line := TrimRight(rest[0], "\r\n");
      TrimRightShorter(rest[0], "\r\n");
      TrimRightShorter(line, " \t");
      HeaderShorter(rest[1..], escape);
      var n := Continuation(rest[1..], escape).lines;
      assert rest[..n + 1][1..] == rest[1..][..n];
      assert rest[..1] == [rest[0]] && [rest[0]][1..] == [];
    }
  }

  lemma {:induction false} BlanksAreSpace(s: string)
    ensures |TrimLeftSpace(s)| <= |s| - Span(s, Blank)
  {
    if s != [] && In(s[0], Blank) {
      BlanksAreSpace(s[1..]);
    } else {
      TrimLeftSpaceTrims(s);
    }
  }

  /** The normalized header is longer than the header by at most the blank after a lone keyword. */
  lemma NormalizedShorter(header: string)
    ensures var ins := InstructionOf(header); !ins.onbuild ==> |Normalized(header, ins)| <= |header| + 1
  {
    var h := TrimSpace(header);
    BlanksAreSpace(header);
    TrimRightSpaceTrims(TrimLeftSpace(header));
    var pos := Span(h, NonBlank);
    if pos < |h| {
      TrimSpaceTrims(h[pos + 1..]);
      TrimSpaceTrims(TrimSpace(h[pos + 1..]));
    } else {
      TrimSpaceTrims("");
    }
  }

  /** The COPY line is shorter than the header it replaces. */
  lemma CopyShorter(det: Detectors, header: string, line: nat)
    requires PlanOf(det, header, line).Good? && PlanOf(det, header, line).value.spec.Some?
    ensures |CopyLine(PlanOf(det, header, line).value.spec.value)| < |header|
    ensures SpecOk(PlanOf(det, header, line).value.spec.value, Normalized(header, InstructionOf(header)))
  {
    hide ParseLegacy, InstructionOf, IsAppend, Normalized;
    var ins := InstructionOf(header);
    LegacySpecOk(Normalized(header, ins));
    NormalizedShorter(header);
  }

  /** A rewritten block is strictly shorter than its source; any other block is as long. */
  lemma BlockShrinks(det: Detectors, rest: seq<string>, line: nat, escape: char, d: DirectiveState)
    requires rest != [] && BlockOf(det, rest, line, escape, d).Good?
    ensures var b := BlockOf(det, rest, line, escape, d).value;
      if b.copy.Some? then |Join(b.Emit(rest))| < |Join(rest[..b.Size()])|
      else Join(b.Emit(rest)) == Join(rest[..b.Size()])
  {
    hide PlanOf, BodyLines, Continuation, CopyLine, Join;
    var b := BlockOf(det, rest, line, escape, d).value;
    if b.copy.Some? {
      var h := HeaderOf(rest, b.escape);
      CopyShorter(det, h.text, line);
      HeaderShorter(rest, b.escape);
      AsideShorter(rest[0]);
      JoinConcat([b.copy.value], rest[b.header..b.Size()]);
      assert rest[..b.Size()] == rest[..b.header] + rest[b.header..b.Size()];
      JoinConcat(rest[..b.header], rest[b.header..b.Size()]);
      JoinOne(b.copy.value);
      assert h.lines == 1 ==> rest[..1] == [rest[0]];
      JoinOne(rest[0]);
    }
  }

  lemma JoinOne(line: string)
    ensures Join([line]) == line
  {
    assert [line][1..] == [];
  }

  lemma AsideShorter(line: string)
    ensures |TrimRight(line, "\r\n")| <= |line|
  {
    TrimRightShorter(line, "\r\n");
  }

  lemma {:induction false} BlocksShrink(det: Detectors, rest: seq<string>, line: nat, escape: char, d: DirectiveState)
    requires Blocks(det, rest, line, escape, d).Good?
    ensures var blocks := Blocks(det, rest, line, escape, d).value;
      && TotalSize(blocks) == |rest|
      && |Join(Output(rest, blocks))| <= |Join(rest)|
      && (Changed(blocks) ==> |Join(Output(rest, blocks))| < |Join(rest)|)
    decreases |rest|
  {
    hide BlockOf, Join, Changed;
    BlocksTile(det, rest, line, escape, d);
    if rest == [] {
      NotChanged();
    } else {
      var b := BlockOf(det, rest, line, escape, d).value;
      var tail := rest[b.Size()..];
      BlocksShrink(det, tail, line + b.Size(), b.escape, b.directives);
      var bs := Blocks(det, tail, line + b.Size(), b.escape, b.directives).value;
      BlockShrinks(det, rest, line, escape, d);
      assert ([b] + bs)[1..] == bs;
      JoinConcat(b.Emit(rest), Output(tail, bs));
      assert rest == rest[..b.Size()] + tail;
      JoinConcat(rest[..b.Size()], tail);
      ChangedCons(b, bs);
    }
  }

  lemma NotChanged()
    ensures !Changed([])
  {}

  lemma ChangedCons(b: Block, bs: seq<Block>)
    ensures Changed([b] + bs) <==> b.copy.Some? || Changed(bs)
  {
    assert ([b] + bs)[0] == b;
    if Changed(bs) {
      var i :| 0 <= i < |bs| && bs[i].copy.Some?;
      assert ([b] + bs)[i + 1] == bs[i];
    }
    if Changed([b] + bs) && b.copy.None? {
      var i :| 0 <= i < |[b] + bs| && ([b] + bs)[i].copy.Some?;
      assert bs[i - 1] == ([b] + bs)[i];
    }
  }

  /** Rewriting never makes a file longer, and makes it shorter exactly when it changed something. */
  lemma RewritingShrinks(det: Detectors, raw: string)
    requires Transformed(det, raw).Good?
    ensures var (text, changed) := Transformed(det, raw).value;
      if changed then |text| < |raw| else text == raw
  {
    hide Blocks, Split, Join, Output, TotalSize;
    TransformedIsBlocks(det, raw);
    BlocksShrink(det, Split(raw), 1, '\\', START);
    JoinSplit(raw);
  }
}

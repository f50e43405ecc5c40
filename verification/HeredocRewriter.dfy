/** The rewriting loop, and what it preserves. */
module HeredocRewriter {
  import opened Basics
  import opened Text
  import opened Lines
  import opened Heredoc

  // --------------------------------------------------------------------- the loop

  ghost function Plus(k: nat, n: Option<nat>): Option<nat> {
    match n
    case None => None
    case Some(m) => Some(k + m)
  }

  lemma BodyStep(rest: seq<string>, docs: seq<Doc>)
    requires docs != []
    ensures match DelimiterAt(rest, docs[0])
      case None => BodyLines(rest, docs) == None
      case Some(n) => BodyLines(rest, docs) == Plus(n + 1, BodyLines(rest[n + 1..], docs[1..]))
  {}

  /** Skips the bodies that follow a header, each searched after the one before. */
  method SkipBodies(lines: seq<string>, start: nat, docs: seq<Doc>) returns (next: Option<nat>)
    requires start <= |lines|
    ensures next == Plus(start, BodyLines(lines[start..], docs))
  {
    hide DelimiterAt, BodyLines;
    var idx := start;
    ghost var whole := BodyLines(lines[start..], docs);
    assert docs[0..] == docs;
    for i := 0 to |docs|
      invariant start <= idx <= |lines|
      invariant Plus(start, whole) == Plus(idx, BodyLines(lines[idx..], docs[i..]))
    {
      assert docs[i..][0] == docs[i] && docs[i..][1..] == docs[i + 1..];
      BodyStep(lines[idx..], docs[i..]);
      var end := FindHeredocEnd(lines, idx, docs[i]);
      if end < 0 {
        return None;
      }
      assert lines[idx..][end - idx + 1..] == lines[end + 1..];
      idx := end + 1;
    }
    NoBodies(lines[idx..], docs[|docs|..]);
    next := Some(idx);
  }

  lemma NoBodies(rest: seq<string>, docs: seq<Doc>)
    requires docs == []
    ensures BodyLines(rest, docs) == Some(0)
  {}

  /** The outcome of a file whose first blocks are known. */
  ghost function After(done: seq<Block>, rest: Outcome<seq<Block>>): Outcome<seq<Block>> {
    match rest
    case Bad(line, reason) => Bad(line, reason)
    case Good(blocks) => Good(done + blocks)
  }

  lemma AfterBlock(det: Detectors, done: seq<Block>, rest: seq<string>, line: nat, escape: char, d: DirectiveState)
    requires rest != []
    ensures match BlockOf(det, rest, line, escape, d)
      case Bad(l, reason) => After(done, Blocks(det, rest, line, escape, d)) == Bad(l, reason)
      case Good(b) => After(done, Blocks(det, rest, line, escape, d))
                      == After(done + [b], Blocks(det, rest[b.Size()..], line + b.Size(), b.escape, b.directives))
  {
    hide BlockOf;
    match BlockOf(det, rest, line, escape, d)
    case Bad(_, _) =>
    case Good(b) =>
      var tail := Blocks(det, rest[b.Size()..], line + b.Size(), b.escape, b.directives);
      if tail.Good? {
        assert done + ([b] + tail.value) == (done + [b]) + tail.value;
      }
  }

  /** The output is written block after block. */
  lemma {:induction false} OutputConcat(lines: seq<string>, a: seq<Block>, b: seq<Block>)
    requires TotalSize(a) + TotalSize(b) <= |lines|
    ensures TotalSize(a + b) == TotalSize(a) + TotalSize(b)
    ensures Output(lines, a + b) == Output(lines, a) + Output(lines[TotalSize(a)..], b)
    decreases |a|
  {
    if a == [] {
      assert a + b == b && lines[0..] == lines;
    } else {
      var k := a[0].Size();
      assert (a + b)[1..] == a[1..] + b;
      OutputConcat(lines[k..], a[1..], b);
      assert lines[k..][TotalSize(a[1..])..] == lines[TotalSize(a)..];
    }
  }

  lemma OutputOne(lines: seq<string>, b: Block)
    requires b.Size() <= |lines|
    ensures TotalSize([b]) == b.Size() && Output(lines, [b]) == b.Emit(lines)
  {
    assert [b][1..] == [];
  }

  lemma OutputSnoc(lines: seq<string>, done: seq<Block>, b: Block)
    requires TotalSize(done) + b.Size() <= |lines|
    ensures TotalSize(done + [b]) == TotalSize(done) + b.Size()
    ensures Output(lines, done + [b]) == Output(lines, done) + b.Emit(lines[TotalSize(done)..])
  {
    OutputOne(lines[TotalSize(done)..], b);
    OutputConcat(lines, done, [b]);
  }

  lemma ChangedSnoc(done: seq<Block>, b: Block)
    ensures Changed(done + [b]) <==> Changed(done) || b.copy.Some?
  {
    if Changed(done) {
      var i :| 0 <= i < |done| && done[i].copy.Some?;
      assert (done + [b])[i] == done[i];
    }
    assert (done + [b])[|done|] == b;
  }

  /** One round of the loop: the block at the front of the remaining lines. */
  method NextBlock(det: Detectors, lines: seq<string>, start: nat, escape: char, d: DirectiveState)
    returns (r: Outcome<Block>)
    requires start < |lines|
    ensures r == BlockOf(det, lines[start..], start + 1, escape, d)
  {
    hide HeaderOf, PlanOf, BodyLines, ParseDirective;
    ghost var rest := lines[start..];
    var directive := ParseDirective(det, d, TrimSpace(lines[start]));
    assert rest[0] == lines[start];
    if directive.None? {
      return Bad(start + 1, BadDirective);
    }
    var escape' := EscapeAfter(escape, directive.value.1);
    var header, headerEnd := InstructionHeader(lines, start, escape');
    var plan := PlanOf(det, header, start + 1);
    if plan.Bad? {
      return Bad(plan.line, plan.reason);
    }
    var next := SkipBodies(lines, headerEnd + 1, plan.value.docs);
    assert rest[HeaderOf(rest, escape').lines..] == lines[headerEnd + 1..];
    if next.None? {
      return Bad(start + 1, NoDelimiter);
    }
    var copy := if plan.value.spec.Some? then Some(CopyLine(plan.value.spec.value)) else None;
    r := Good(Block(headerEnd + 1 - start, next.value - (headerEnd + 1), copy, escape', directive.value.0));
  }

  method TransformLegacyHeredocs(det: Detectors, raw: string) returns (r: Outcome<(string, bool)>)
    ensures r == Transformed(det, raw)
  {
    hide BlockOf, Split, Join, Output, Changed, Blocks, After, TotalSize;
    var lines := Split(raw);
    var out: seq<string> := [];
    var changed, escape, directives, idx := false, '\\', START, 0;
    ghost var done: seq<Block> := [];
    assert lines[0..] == lines;
    NothingDone(lines, Blocks(det, lines, 1, '\\', START));
    while idx < |lines|
      invariant idx <= |lines| && TotalSize(done) == idx
      invariant FileBlocks(det, lines) == After(done, Blocks(det, lines[idx..], idx + 1, escape, directives))
      invariant out == Output(lines, done)
      invariant changed == Changed(done)
    {
      var b := NextBlock(det, lines, idx, escape, directives);
      AfterBlock(det, done, lines[idx..], idx + 1, escape, directives);
      if b.Bad? {
        return Bad(b.line, b.reason);
      }
      OutputSnoc(lines, done, b.value);
      ChangedSnoc(done, b.value);
      var size := b.value.Size();
      EmitAt(lines, idx, b.value);
      if b.value.copy.Some? {
        var written := [b.value.copy.value] + lines[idx + b.value.header..idx + size];
        out := out + written;
        changed := true;
      } else {
        out := out + lines[idx..idx + size];
      }
      assert lines[idx..][size..] == lines[idx + size..];
      done := done + [b.value];
      escape, directives, idx := b.value.escape, b.value.directives, idx + size;
    }
    AllDone(det, lines[idx..], idx + 1, escape, directives, done);
    assert FileBlocks(det, lines) == Good(done);
    if !changed {
      return Good((raw, false));
    }
    r := Good((Join(out), true));
  }

  lemma NothingDone(lines: seq<string>, rest: Outcome<seq<Block>>)
    ensures After([], rest) == rest && Output(lines, []) == [] && TotalSize([]) == 0 && !Changed([])
  {
    if rest.Good? {
      assert [] + rest.value == rest.value;
    }
  }

  lemma AllDone(det: Detectors, rest: seq<string>, line: nat, escape: char, d: DirectiveState, done: seq<Block>)
    requires rest == []
    ensures After(done, Blocks(det, rest, line, escape, d)) == Good(done)
  {
    assert done + [] == done;
  }

  /** What stands in the place of a block that starts at a line. */
  function InPlace(lines: seq<string>, at: nat, b: Block): seq<string>
    requires at + b.Size() <= |lines|
  {
    match b.copy
    case None => lines[at..at + b.Size()]
    case Some(line) => [line] + lines[at + b.header..at + b.Size()]
  }

  lemma EmitAt(lines: seq<string>, at: nat, b: Block)
    requires at + b.Size() <= |lines|
    ensures b.Emit(lines[at..]) == InPlace(lines, at, b)
  {
    assert lines[at..][..b.Size()] == lines[at..at + b.Size()];
    assert lines[at..][b.header..b.Size()] == lines[at + b.header..at + b.Size()];
  }
}

/**
 The rewriter of legacy shell heredocs in Dockerfiles
 (pkg/dockerfilepreprocess/heredoc.go and instructions.go).

 The parsers of shell commands, Dockerfile words and directive lines are
 parameters.
 */
module Heredoc {
  import opened Basics
  import opened Text
  import opened Lines
  import opened Patterns

  // ------------------------------------------------------------------- detectors

  datatype Doc = Doc(name: string, chomp: bool)

  datatype DirectiveMatch = NotDirective | UnknownDirective | Directive(name: string, value: string)

  datatype Detectors = Detectors(
    directive: string -> DirectiveMatch,
    runDocs: string -> Result<seq<Doc>>,
    copyDocs: string -> Result<seq<Doc>>,
    nativeRun: string -> bool)

  /** The directive parser stops at the first line that is no directive. */
  datatype DirectiveState = DirectiveState(done: bool, seen: set<string>)

  datatype Reason = BadDirective | AppendHeredoc | MismatchedQuotes | BadHeader | Unsupported | NoDelimiter

  datatype Outcome<+T> = Good(value: T) | Bad(line: nat, reason: Reason)

  /** The state after a line, and its directive if it has one; an error for a repeated directive. */
  function ParseDirective(det: Detectors, d: DirectiveState, line: string)
    : Option<(DirectiveState, Option<(string, string)>)>
  {
    if d.done then Some((d, None))
    else
      match det.directive(line)
      case NotDirective => Some((d.(done := true), None))
      case UnknownDirective => Some((d, None))
      case Directive(name, value) =>
        if name in d.seen then None else Some((d.(seen := d.seen + {name}), Some((name, value))))
  }

  function EscapeAfter(escape: char, directive: Option<(string, string)>): char {
    if directive.Some? && directive.value.0 == "escape" && (directive.value.1 == "\\" || directive.value.1 == "`")
    then directive.value.1[0] else escape
  }

  // ---------------------------------------------------------------------- headers

  /** A comment or an empty line. */
  predicate IsAside(line: string) {
    HasPrefix(TrimSpace(line), "#") || TrimSpace(line) == ""
  }

  predicate IsContinued(line: string, escape: char) {
    var trimmed := TrimRight(line, " \t");
    var n := |trimmed|;
    n > 0 && trimmed[n - 1] == escape && (n == 1 || trimmed[n - 2] != escape)
  }

  function Unescaped(line: string, escape: char): string
    requires IsContinued(line, escape)
  {
    var trimmed := TrimRight(line, " \t");
    trimmed[..|trimmed| - 1]
  }

  /** `closed` tells that a line without continuation ended the header. */
  datatype Header = Header(text: string, lines: nat, closed: bool)

  function Continuation(rest: seq<string>, escape: char): (h: Header)
    ensures h.lines <= |rest| && (!h.closed ==> h.lines == |rest|)
  {
    if rest == [] then Header("", 0, false)
    else
      var line := TrimRight(rest[0], "\r\n");
      var h := Continuation(rest[1..], escape);
      if IsAside(line) then h.(lines := h.lines + 1)
      else if IsContinued(line, escape) then Header(Unescaped(line, escape) + h.text, h.lines + 1, h.closed)
      else Header(line, 1, true)
  }

  /** An instruction's continuation lines joined, with comments between them dropped. */
  function HeaderOf(rest: seq<string>, escape: char): (h: Header)
    requires rest != []
    ensures 1 <= h.lines <= |rest| && (!h.closed ==> h.lines == |rest|)
  {
    var line := TrimRight(rest[0], "\r\n");
    if IsAside(line) then Header(line, 1, true) else Continuation(rest, escape)
  }

  method InstructionHeader(lines: seq<string>, start: nat, escape: char) returns (header: string, last: nat)
    requires start < |lines|
    ensures var h := HeaderOf(lines[start..], escape); header == h.text && last == start + h.lines - 1
  {
    hide TrimRight, IsAside, IsContinued, Unescaped;
    header := "";
    var end := start;
    ghost var whole := Continuation(lines[start..], escape);
    assert lines[start..][0] == lines[start];
    while end < |lines|
      invariant start <= end <= |lines|
      invariant end > start ==> !IsAside(TrimRight(lines[start], "\r\n"))
      invariant var t := Continuation(lines[end..], escape);
                whole == Header(header + t.text, end - start + t.lines, t.closed)
    {
      ghost var t := Continuation(lines[end + 1..], escape);
      assert lines[end..][0] == lines[end] && lines[end..][1..] == lines[end + 1..];
      var line := TrimRight(lines[end], "\r\n");
      if IsAside(line) {
        if end == start {
          return line, end;
        }
      } else if IsContinued(line, escape) {
        assert (header + Unescaped(line, escape)) + t.text == header + (Unescaped(line, escape) + t.text);
        header := header + Unescaped(line, escape);
      } else {
        return header + line, end;
      }
      end := end + 1;
    }
    assert lines[end..] == [];
    last := |lines| - 1;
  }

  /** Upper case as far as keywords need it: no other character becomes an ASCII letter. */
  function UpperChar(c: char): char {
    if 'a' <= c <= 'z' then (c as int - 32) as char
    else if c == '\U{131}' then 'I'
    else if c == '\U{17F}' then 'S'
    else c
  }

  function Upper(s: string): (r: string)
    ensures |r| == |s|
  {
    seq(|s|, i requires 0 <= i < |s| => UpperChar(s[i]))
  }

  function SplitInstruction(header: string): (string, string) {
    var h := TrimSpace(header);
    var pos := Span(h, NonBlank);
    if pos < |h| then (Upper(h[..pos]), TrimSpace(h[pos + 1..])) else (Upper(h), "")
  }

  // --------------------------------------------------------------- legacy forms

  const BLANKS := Rep(Blank, true, true)
  const BLANKS1 := Rep(Blank, false, true)
  const WORD := Rep(NonBlank, false, true)

  const CAT_REDIRECT: Pattern := [
    BLANKS, Lit("RUN"), BLANKS1, Lit("cat"), BLANKS1, Lit(">"), BLANKS1, WORD, BLANKS1, Lit("<<"),
    Rep(Dash, true, false), BLANKS, Rep(Quote, true, false), Rep(IdentStart, false, false), Rep(IdentChar, true, true),
    Rep(Quote, true, false), BLANKS]

  const CAT_HEREDOC_REDIRECT: Pattern := [
    BLANKS, Lit("RUN"), BLANKS1, Lit("cat"), BLANKS1, Lit("<<"),
    Rep(Dash, true, false), BLANKS, Rep(Quote, true, false), Rep(IdentStart, false, false), Rep(IdentChar, true, true),
    Rep(Quote, true, false), BLANKS1, Lit(">"), BLANKS1, WORD, BLANKS]

  const CAT_APPEND: Pattern := [
    BLANKS, Lit("RUN"), BLANKS1, Lit("cat"), BLANKS1, Lit(">>"), BLANKS1, WORD, BLANKS1, Lit("<<"),
        Rep(Any, true, true)]

  datatype LegacySpec = LegacySpec(indent: string, target: string, token: string)

  predicate IsAppend(line: string) {
    Match(CAT_APPEND, line).Some?
  }

  /** Ok(None) when the line is no legacy form; an error when the delimiter's quotes differ. */
  function ParseLegacy(line: string): Result<Option<LegacySpec>> {
    match Match(CAT_REDIRECT, line)
    case Some(m) =>
      MatchSound(CAT_REDIRECT, line);
      if m[12] != m[15] then Err("mismatched heredoc delimiter quotes")
      else Ok(Some(LegacySpec(m[0], m[7], m[10] + m[12] + m[13] + m[14] + m[15])))
    case None =>
      match Match(CAT_HEREDOC_REDIRECT, line)
      case Some(m) =>
        MatchSound(CAT_HEREDOC_REDIRECT, line);
        if m[8] != m[11] then Err("mismatched heredoc delimiter quotes")
        else Ok(Some(LegacySpec(m[0], m[15], m[6] + m[8] + m[9] + m[10] + m[11])))
      case None => Ok(None)
  }

  /** Characters with which COPY could not preserve what the shell makes of the target. */
  const SHELL_CHARS := "$`\\\"'~*?[]{};&|<>()"

  predicate IsPlainTarget(target: string) {
    forall i :: 0 <= i < |target| ==> target[i] !in SHELL_CHARS
  }

  function CopyLine(spec: LegacySpec): string {
    spec.indent + "COPY <<" + spec.token + " " + spec.target + "\n"
  }

  // ---------------------------------------------------------------------- bodies

  function TrimLeftTabs(s: string): string {
    if s != [] && s[0] == '\t' then TrimLeftTabs(s[1..]) else s
  }

  predicate IsDelimiter(line: string, doc: Doc) {
    var bare := TrimSuffix(TrimSuffix(line, "\n"), "\r");
    (if doc.chomp then TrimLeftTabs(bare) else bare) == doc.name
  }

  /** The index of the first line that ends the heredoc. */
  function DelimiterAt(rest: seq<string>, doc: Doc): (r: Option<nat>)
    ensures r.Some? ==> r.value < |rest| && IsDelimiter(rest[r.value], doc)
    ensures r.Some? ==> forall i :: 0 <= i < r.value ==> !IsDelimiter(rest[i], doc)
    ensures r.None? ==> forall i :: 0 <= i < |rest| ==> !IsDelimiter(rest[i], doc)
  {
    if rest == [] then None
    else if IsDelimiter(rest[0], doc) then Some(0)
    else
      match DelimiterAt(rest[1..], doc)
      case None => None
      case Some(n) => Some(n + 1)
  }

  method FindHeredocEnd(lines: seq<string>, start: nat, doc: Doc) returns (end: int)
    requires start <= |lines|
    ensures match DelimiterAt(lines[start..], doc)
      case None => end == -1
      case Some(n) => end == start + n
  {
    var idx := start;
    while idx < |lines|
      invariant start <= idx <= |lines|
      invariant forall i :: start <= i < idx ==> !IsDelimiter(lines[i], doc)
    {
      if IsDelimiter(lines[idx], doc) {
        assert lines[start..][idx - start] == lines[idx];
        return idx;
      }
      idx := idx + 1;
    }
    end := -1;
  }

  /** How many lines the bodies of the heredocs take, one after the other. */
  function BodyLines(rest: seq<string>, docs: seq<Doc>): (r: Option<nat>)
    ensures r.Some? ==> r.value <= |rest|
    decreases |docs|
  {
    if docs == [] then Some(0)
    else
      match DelimiterAt(rest, docs[0])
      case None => None
      case Some(n) =>
        match BodyLines(rest[n + 1..], docs[1..])
        case None => None
        case Some(m) => Some(n + 1 + m)
  }

  // -------------------------------------------------------------------- one block

  /** An instruction with its bodies: how many lines each takes, and the line that replaces the header, if any. */
  datatype Block = Block(header: nat, body: nat, copy: Option<string>, escape: char, directives: DirectiveState) {
    function Size(): nat {
      header + body
    }

    /** What is written for the block's lines. */
    function Emit(source: seq<string>): seq<string>
      requires Size() <= |source|
    {
      match copy
      case None => source[..Size()]
      case Some(line) => [line] + source[header..Size()]
    }
  }

  datatype Instruction = Instruction(name: string, command: string, onbuild: bool)

  function InstructionOf(header: string): Instruction {
    var (name, command) := SplitInstruction(header);
    if name == "ONBUILD" then
      var (inner, innerCommand) := SplitInstruction(command);
      Instruction(inner, innerCommand, true)
    else Instruction(name, command, false)
  }

  function Indent(header: string): string {
    header[..Span(header, Blank)]
  }

  function Normalized(header: string, ins: Instruction): string {
    Indent(header) + ins.name + " " + TrimSpace(ins.command)
  }

  /** The replacement of a header, if it has one. */
  function Replacement(header: string, ins: Instruction): Result<Option<LegacySpec>> {
    match ParseLegacy(Normalized(header, ins))
    case Err(e) => Err(e)
    case Ok(None) => Ok(None)
    case Ok(Some(spec)) => if ins.onbuild || !IsPlainTarget(spec.target) then Ok(None) else Ok(Some(spec))
  }

  function DocsOf(det: Detectors, ins: Instruction): Result<seq<Doc>> {
    if ins.name == "RUN" then det.runDocs(ins.command) else det.copyDocs(ins.command)
  }

  /** What is decided about an instruction from its header alone. */
  datatype Plan = Plan(docs: seq<Doc>, spec: Option<LegacySpec>)

  function PlanOf(det: Detectors, header: string, line: nat): Outcome<Plan> {
    var ins := InstructionOf(header);
    if ins.name !in {"RUN", "COPY", "ADD"} then Good(Plan([], None))
    else if IsAppend(Normalized(header, ins)) then Bad(line, AppendHeredoc)
    else
      match Replacement(header, ins)
      case Err(_) => Bad(line, MismatchedQuotes)
      case Ok(spec) =>
        match DocsOf(det, ins)
        case Err(_) => Bad(line, BadHeader)
        case Ok(docs) =>
          if ins.name == "RUN" && docs != [] && spec.None? && !det.nativeRun(ins.command) then Bad(line, Unsupported)
          else Good(Plan(docs, spec))
  }

  function BlockOf(det: Detectors, rest: seq<string>, line: nat, escape: char, d: DirectiveState): (r: Outcome<Block>)
    requires rest != []
    ensures r.Good? ==> 1 <= r.value.header && r.value.Size() <= |rest|
  {
    match ParseDirective(det, d, TrimSpace(rest[0]))
    case None => Bad(line, BadDirective)
    case Some((d', directive)) =>
      var escape' := EscapeAfter(escape, directive);
      var h := HeaderOf(rest, escape');
      match PlanOf(det, h.text, line)
      case Bad(l, reason) => Bad(l, reason)
      case Good(plan) =>
        match BodyLines(rest[h.lines..], plan.docs)
        case None => Bad(line, NoDelimiter)
        case Some(n) =>
          Good(Block(h.lines, n, if plan.spec.Some? then Some(CopyLine(plan.spec.value)) else None, escape', d'))
  }

  // --------------------------------------------------------------- the whole file

  /** The blocks of a file in order. */
  function Blocks(det: Detectors, rest: seq<string>, line: nat, escape: char, d: DirectiveState): Outcome<seq<Block>>
    decreases |rest|
  {
    if rest == [] then Good([])
    else
      match BlockOf(det, rest, line, escape, d)
      case Bad(l, reason) => Bad(l, reason)
      case Good(b) =>
        match Blocks(det, rest[b.Size()..], line + b.Size(), b.escape, b.directives)
        case Bad(l, reason) => Bad(l, reason)
        case Good(bs) => Good([b] + bs)
  }

  function TotalSize(blocks: seq<Block>): nat {
    if blocks == [] then 0 else blocks[0].Size() + TotalSize(blocks[1..])
  }

  function Output(lines: seq<string>, blocks: seq<Block>): seq<string>
    requires TotalSize(blocks) <= |lines|
    decreases |blocks|
  {
    if blocks == [] then []
    else blocks[0].Emit(lines) + Output(lines[blocks[0].Size()..], blocks[1..])
  }

  predicate Changed(blocks: seq<Block>) {
    exists i :: 0 <= i < |blocks| && blocks[i].copy.Some?
  }

  const START := DirectiveState(false, {})

  function FileBlocks(det: Detectors, lines: seq<string>): Outcome<seq<Block>> {
    Blocks(det, lines, 1, '\\', START)
  }

  lemma {:induction false} BlocksTile(det: Detectors, rest: seq<string>, line: nat, escape: char, d: DirectiveState)
    ensures Blocks(det, rest, line, escape, d).Good? ==> TotalSize(Blocks(det, rest, line, escape, d).value) == |rest|
    decreases |rest|
  {
    hide BlockOf;
    if rest != [] && BlockOf(det, rest, line, escape, d).Good? {
      var b := BlockOf(det, rest, line, escape, d).value;
      BlocksTile(det, rest[b.Size()..], line + b.Size(), b.escape, b.directives);
    }
  }

  /** The text written, and whether anything was rewritten. */
  function Transformed(det: Detectors, raw: string): Outcome<(string, bool)> {
    var lines := Split(raw);
    match FileBlocks(det, lines)
    case Bad(l, reason) => Bad(l, reason)
    case Good(blocks) =>
      BlocksTile(det, lines, 1, '\\', START);
      if Changed(blocks) then Good((Join(Output(lines, blocks)), true)) else Good((raw, false))
  }
}

/**
 The failure log: a file of one-line records that is trimmed at line
 boundaries, and the search for the longest prefix of a log that fits
 (internal/buildbatch/failure_log_store.go).

 The JSON encoder and decoder are parameters. Characters stand for bytes.
 */
module FailureLog {
  import opened Basics
  import opened Text
  import opened Lines

  datatype Record = Record(target: string, logs: string)

  datatype Entry = Entry(target: string, success: bool, logs: string)

  /** `canon` is the record with every malformed character replaced, as the encoder writes it. */
  datatype Codec = Codec(encode: Record -> string, canon: Record -> Record, decode: string -> Option<Entry>)

  /** An encoded record holds no line end. */
  ghost predicate LineSafe(codec: Codec) {
    forall r :: '\n' !in codec.encode(r)
  }

  /** An encoded record decodes to the record as the encoder writes it. */
  ghost predicate Faithful(codec: Codec) {
    && LineSafe(codec)
    && forall r :: && TrimSpace(codec.encode(r) + "\n") != ""
                   && codec.decode(TrimSpace(codec.encode(r) + "\n"))
                        == Some(Entry(codec.canon(r).target, false, codec.canon(r).logs))
  }

  const TRUNCATED_SUFFIX := "\n...[truncated to fit logs file limit]\n"

  predicate Fits(codec: Codec, limit: nat, r: Record) {
    |codec.encode(r)| + 1 <= limit
  }

  // --------------------------------------------------------- fitting one record

  function Cut(logs: string, n: nat): string
    requires n <= |logs|
  {
    logs[..n] + TRUNCATED_SUFFIX
  }

  ghost predicate IsCut(cut: string, logs: string) {
    exists n :: 0 <= n <= |logs| && cut == Cut(logs, n)
  }

  /** A longer prefix never encodes shorter. */
  ghost predicate Monotone(codec: Codec, target: string, logs: string) {
    forall i, j :: 0 <= i <= j <= |logs| ==>
        |codec.encode(Record(target, Cut(logs, i)))| <= |codec.encode(Record(target, Cut(logs, j)))|
  }

  /**
   The binary search: what it returns always fits, it fails only when not even
   the empty prefix fits, and if encoded length grows with the prefix it
   returns the longest prefix that fits.
   */
  method TruncatePayload(codec: Codec, limit: nat, target: string, logs: string) returns (r: Result<string>)
    ensures r.Ok? ==> |codec.encode(Record(target, r.value))| + 1 <= limit
    ensures r.Ok? ==> IsCut(r.value, logs)
    ensures r.Ok? ==>
              exists n :: 0 <= n <= |logs| && r.value == logs[..n] + "\n...[truncated to fit logs file limit]\n"
    ensures r.Err? ==> !Fits(codec, limit, Record(target, Cut(logs, 0)))
    ensures Monotone(codec, target, logs) ==> (r.Err? <==> !Fits(codec, limit, Record(target, Cut(logs, 0))))
    ensures Monotone(codec, target, logs) && r.Ok? ==>
              exists n :: 0 <= n <= |logs| && r.value == Cut(logs, n) && forall m :: n < m <= |logs| ==>
                      !Fits(codec, limit, Record(target, Cut(logs, m)))
  {
    var best := "";
    ghost var at := 0;
    var low, high := 0, |logs|;
    while low <= high
      invariant 0 <= low <= high + 1 <= |logs| + 1
      invariant best == "" ==> low == 0
      invariant best != "" ==> at == low - 1 && best == Cut(logs, at) && Fits(codec, limit, Record(target, best))
      invariant high < |logs| ==> !Fits(codec, limit, Record(target, Cut(logs, high + 1)))
      decreases high + 1 - low
    {
      var mid := low + (high - low) / 2;
      var candidate := logs[..mid] + TRUNCATED_SUFFIX;
      if |codec.encode(Record(target, candidate))| + 1 <= limit {
        best := candidate;
        at := mid;
        low := mid + 1;
      } else {
        high := mid - 1;
      }
    }
    if best != "" {
      assert best == Cut(logs, at);
      if Monotone(codec, target, logs) {
        LongestFits(codec, limit, target, logs, at);
      }
      return Ok(best);
    }
    // The search has tried the empty prefix by now, so the last resort of storing it alone is never reached.
    assert !Fits(codec, limit, Record(target, Cut(logs, 0)));
    r := Err("failure log metadata exceeds maximum file size");
  }

  lemma LongestFits(codec: Codec, limit: nat, target: string, logs: string, at: nat)
    requires Monotone(codec, target, logs) && at <= |logs|
    requires at < |logs| ==> !Fits(codec, limit, Record(target, Cut(logs, at + 1)))
    ensures forall m :: at < m <= |logs| ==> !Fits(codec, limit, Record(target, Cut(logs, m)))
  {
    forall m | at < m <= |logs|
      ensures !Fits(codec, limit, Record(target, Cut(logs, m)))
    {
      assert |codec.encode(Record(target, Cut(logs, at + 1)))| <= |codec.encode(Record(target, Cut(logs, m)))|;
    }
  }

  /** The line for a record: the record itself if it fits, else with its log cut so that it fits. */
  method MarshalLine(codec: Codec, limit: nat, r: Record) returns (line: Result<string>, ghost stored: Record)
    ensures line.Ok? ==> line.value == codec.encode(stored) + "\n" && |line.value| <= limit && stored.target == r.target
    ensures |codec.encode(r)| + 1 <= limit ==> line.Ok? && stored == r
    ensures line.Ok? && !Fits(codec, limit, r) ==> IsCut(stored.logs, r.logs)
    ensures line.Err? ==> stored == r
    ensures line.Err? ==> !Fits(codec, limit, r) && !Fits(codec, limit, Record(r.target, Cut(r.logs, 0)))
  {
    stored := r;
    var payload := codec.encode(r);
    if |payload| + 1 <= limit {
      return Ok(payload + "\n"), r;
    }
    var cut := TruncatePayload(codec, limit, r.target, r.logs);
    if cut.Err? {
      return Err(cut.error), r;
    }
    stored := Record(r.target, cut.value);
    line := Ok(codec.encode(Record(r.target, cut.value)) + "\n");
  }

  // -------------------------------------------------------------- trimming a file

  /** Where the first line that starts behind a position starts. */
  function NextLine(file: string, from: nat): (r: nat)
    requires from <= |file|
    ensures from <= r <= |file|
    decreases |file| - from
  {
    if from == |file| then from
    else if file[from] == '\n' then from + 1
    else NextLine(file, from + 1)
  }

  /** A line starts at `n`, or the file ends there, and none starts between `from` and `n`. */
  predicate FirstLineBehind(file: string, from: nat, n: nat) {
    && from <= n <= |file|
    && (n == |file| || (from < n && file[n - 1] == '\n'))
    && forall e :: from <= e < n - 1 ==> file[e] != '\n'
  }

  lemma {:induction false} NextLineIs(file: string, from: nat)
    requires from <= |file|
    ensures FirstLineBehind(file, from, NextLine(file, from)) && (from < |file| ==> from < NextLine(file, from))
    decreases |file| - from
  {
    if from < |file| && file[from] != '\n' {
      NextLineIs(file, from + 1);
    }
  }

  method FindKeepOffset(file: string, trimBytes: nat) returns (offset: nat)
    requires trimBytes <= |file|
    ensures offset == if trimBytes == 0 then 0 else NextLine(file, trimBytes)
    ensures 0 < trimBytes ==> FirstLineBehind(file, trimBytes, offset)
  {
    NextLineIs(file, trimBytes);
    if trimBytes == 0 {
      return 0;
    }
    offset := trimBytes;
    while offset < |file|
      invariant trimBytes <= offset <= |file|
      invariant NextLine(file, offset) == NextLine(file, trimBytes)
    {
      if file[offset] == '\n' {
        return offset + 1;
      }
      offset := offset + 1;
    }
  }

  /** The first line of the longest end of the file that is strictly shorter than the limit. */
  ghost function KeepFrom(lines: seq<string>, limit: nat): (k: nat)
    requires limit > 0
    ensures k <= |lines|
  {
    if |Join(lines)| < limit then 0 else 1 + KeepFrom(lines[1..], limit)
  }

  lemma {:induction false} KeepFromIsLongest(lines: seq<string>, limit: nat)
    requires limit > 0
    ensures |Join(lines[KeepFrom(lines, limit)..])| < limit
    ensures forall j :: 0 <= j < KeepFrom(lines, limit) ==> |Join(lines[j..])| >= limit
  {
    assert lines[0..] == lines;
    if |Join(lines)| >= limit {
      KeepFromIsLongest(lines[1..], limit);
      var k := KeepFrom(lines[1..], limit);
      assert lines[k + 1..] == lines[1..][k..];
      forall j | 0 <= j < k + 1
        ensures |Join(lines[j..])| >= limit
      {
        if j > 0 {
          assert lines[j..] == lines[1..][j - 1..];
        }
      }
    }
  }

  lemma KeepNone(lines: seq<string>, limit: nat)
    requires limit > 0 && |Join(lines)| < limit
    ensures KeepFrom(lines, limit) == 0
  {}

  lemma KeepStep(lines: seq<string>, limit: nat)
    requires limit > 0 && |Join(lines)| >= limit
    ensures lines != [] && KeepFrom(lines, limit) == 1 + KeepFrom(lines[1..], limit)
    ensures lines[KeepFrom(lines, limit)..] == lines[1..][KeepFrom(lines[1..], limit)..]
  {}

  lemma {:induction false} NextLineInside(l: string, rest: string, t: nat)
    requires IsLine(l) && (rest == "" || IsComplete(l)) && t < |l|
    ensures NextLine(l + rest, t) == |l|
    decreases |l| - t
  {
    if t < |l| - 1 {
      assert l[..|l| - 1][t] == l[t];
      NextLineInside(l, rest, t + 1);
    }
  }

  lemma {:induction false} NextLineBehind(l: string, rest: string, t: nat)
    requires t <= |rest|
    ensures NextLine(l + rest, |l| + t) == |l| + NextLine(rest, t)
    decreases |rest| - t
  {
    if t < |rest| {
      assert (l + rest)[|l| + t] == rest[t];
      if rest[t] != '\n' {
        NextLineBehind(l, rest, t + 1);
      }
    }
  }

  /** Cutting at the first line start behind the excess keeps the longest whole-line end shorter than the limit. */
  lemma {:induction false} TrimKeepsWholeLines(lines: seq<string>, limit: nat)
    requires limit > 0 && LinesOk(lines) && |Join(lines)| >= limit
    ensures var file := Join(lines);
      file[NextLine(file, |file| - limit)..] == Join(lines[KeepFrom(lines, limit)..])
  {
    hide KeepFrom, NextLine, Join;
    KeepStep(lines, limit);
    JoinCons(lines);
    NoLines();
    var l, tail := lines[0], lines[1..];
    var rest := Join(tail);
    var file := l + rest;
    var t := |file| - limit;
    assert tail != [] ==> IsComplete(l);
    if t < |l| {
      NextLineInside(l, rest, t);
      KeepNone(tail, limit);
    } else {
      NextLineBehind(l, rest, t - |l|);
      TrimKeepsWholeLines(tail, limit);
      var n := NextLine(rest, t - |l|);
      assert file[|l| + n..] == rest[n..];
    }
  }

  lemma JoinCons(lines: seq<string>)
    requires lines != []
    ensures Join(lines) == lines[0] + Join(lines[1..])
  {}

  lemma NoLines()
    ensures Join([]) == ""
  {}

  // -------------------------------------------------------------- many appends

  /**
   Where an append may fail: making the directory, opening, writing after some
   bytes, syncing or measuring, trimming.
   */
  datatype FileFault = NoFault | NoDirectory | OpenFails | WriteFails(taken: nat) | SyncFails | TrimFails

  /** What of a line reaches the file. */
  function Portion(line: string, fault: FileFault): string {
    match fault
    case NoDirectory => ""
    case OpenFails => ""
    case WriteFails(n) => if n <= |line| then line[..n] else line
    case _ => line
  }

  function Trimmed(file: string, limit: nat): (r: string)
    requires limit > 0
    ensures |r| <= limit
  {
    if |file| <= limit then file else file[NextLine(file, |file| - limit)..]
  }

  /** A file that is too long keeps its longest whole-line end that is shorter than the limit. */
  lemma TrimIsLongest(file: string, limit: nat)
    requires 0 < limit < |file|
    ensures var lines := Split(file);
      var k := KeepFrom(lines, limit);
      && Trimmed(file, limit) == Join(lines[k..]) && |Join(lines[k..])| < limit
      && forall j :: 0 <= j < k ==> |Join(lines[j..])| >= limit
  {
    hide Split, Join, KeepFrom, NextLine;
    JoinSplit(file);
    TrimKeepsWholeLines(Split(file), limit);
    KeepFromIsLongest(Split(file), limit);
  }

  /**
   What a file becomes within its limit: itself if it fits, else the lines that start where fewer
   bytes than the limit follow.
   */
  ghost predicate Shortened(all: string, limit: nat, file: string) {
    if |all| <= limit then file == all
    else exists n: nat :: FirstLineBehind(all, |all| - limit, n) && file == all[n..]
  }

  lemma FitsAsIs(all: string, limit: nat)
    requires limit > 0
    ensures |all| <= limit ==> Trimmed(all, limit) == all && Shortened(all, limit, all)
  {}

  lemma TrimmedIs(all: string, limit: nat)
    requires limit > 0
    ensures Shortened(all, limit, Trimmed(all, limit))
  {
    if |all| > limit {
      NextLineIs(all, |all| - limit);
    }
  }

  /** The file after an append. */
  function After(file: string, line: string, fault: FileFault, limit: nat): string
    requires limit > 0
  {
    var all := file + Portion(line, fault);
    if fault.NoFault? then Trimmed(all, limit) else all
  }

  /**
   What an append leaves and reports: nothing was written, or the first bytes of the line, or all of
   it with the trimming left out, or the file is shortened to its limit. Only the last is reported
   as done, or a file that needs no trimming.
   */
  ghost predicate Appended(before: string, line: string, fault: FileFault, limit: nat, file: string, ok: bool) {
    match fault
    case NoFault => Shortened(before + line, limit, file) && ok
    case NoDirectory => file == before && !ok
    case OpenFails => file == before && !ok
    case WriteFails(n) => file == before + line[..if n <= |line| then n else |line|] && !ok
    case SyncFails => file == before + line && !ok
    case TrimFails => file == before + line && (ok <==> |before + line| <= limit)
  }

  datatype Append = Append(line: string, fault: FileFault)

  /** The file after any appends, from a file that was there before. */
  function AllAppended(start: string, appends: seq<Append>, limit: nat): string
    requires limit > 0
  {
    if appends == [] then start
    else
      var last := appends[|appends| - 1];
      After(AllAppended(start, appends[..|appends| - 1], limit), last.line, last.fault, limit)
  }

  /** Everything that was ever in the file. */
  function Written(start: string, appends: seq<Append>): string {
    if appends == [] then start
    else
      var last := appends[|appends| - 1];
      Written(start, appends[..|appends| - 1]) + Portion(last.line, last.fault)
  }

  predicate EndsLine(s: string) {
    s == "" || s[|s| - 1] == '\n'
  }

  /** The file is everything behind some line end. */
  ghost predicate WholeLineSuffix(all: string, file: string) {
    exists dropped :: EndsLine(dropped) && all == dropped + file
  }

  lemma {:induction false} NextLineBefore(file: string, from: nat, e: nat)
    requires from <= e < |file| && file[e] == '\n'
    ensures NextLine(file, from) <= e + 1 && file[NextLine(file, from) - 1] == '\n'
    decreases |file| - from
  {
    if file[from] != '\n' {
      NextLineBefore(file, from + 1, e);
    }
  }

  lemma AfterIsSuffix(all: string, file: string, line: string, fault: FileFault, limit: nat)
    requires limit > 0 && WholeLineSuffix(all, file) && IsComplete(line)
    ensures WholeLineSuffix(all + Portion(line, fault), After(file, line, fault, limit))
  {
    hide NextLine, Portion;
    var dropped :| EndsLine(dropped) && all == dropped + file;
    var part := Portion(line, fault);
    var whole := file + part;
    assert (dropped + file) + part == dropped + whole;
    if fault.NoFault? && |whole| > limit {
      WholePart(line);
      var keep := NextLine(whole, |whole| - limit);
      NextLineBefore(whole, |whole| - limit, |whole| - 1);
      CutBehind(dropped, whole, keep);
    }
  }

  lemma WholePart(line: string)
    ensures Portion(line, NoFault) == line
  {}

  lemma CutBehind(dropped: string, whole: string, keep: nat)
    requires 0 < keep <= |whole| && whole[keep - 1] == '\n'
    ensures WholeLineSuffix(dropped + whole, whole[keep..])
  {
    var more := dropped + whole[..keep];
    assert more[|more| - 1] == whole[..keep][keep - 1];
    assert dropped + whole == more + whole[keep..];
  }

  /**
   Whatever the file held before and wherever appends fail, the file is a
   whole-line suffix of everything ever in it, and within its limit after an
   append that did not fail.
   */
  lemma {:induction false} LogIsWholeLineSuffix(start: string, appends: seq<Append>, limit: nat)
    requires limit > 0 && forall i :: 0 <= i < |appends| ==> IsComplete(appends[i].line)
    ensures WholeLineSuffix(Written(start, appends), AllAppended(start, appends, limit))
    ensures appends != [] && appends[|appends| - 1].fault.NoFault? ==> |AllAppended(start, appends, limit)| <= limit
  {
    hide After, Portion, IsComplete;
    if appends == [] {
      assert start == "" + start;
    } else {
      var front, last := appends[..|appends| - 1], appends[|appends| - 1];
      LogIsWholeLineSuffix(start, front, limit);
      AfterIsSuffix(Written(start, front), AllAppended(start, front, limit), last.line, last.fault, limit);
      AfterIsBounded(AllAppended(start, front, limit), last.line, limit);
    }
  }

  lemma AfterIsBounded(file: string, line: string, limit: nat)
    requires limit > 0
    ensures |After(file, line, NoFault, limit)| <= limit
  {}

  /**
   The newest line, behind a line that an earlier append left without its end,
   survives its own append exactly when it is shorter than the limit or all fits;
   else the file is empty.
   */
  lemma NewestSurvives(whole: string, part: string, line: string, limit: nat)
    requires limit > 0 && EndsLine(whole) && '\n' !in part && IsComplete(line)
    ensures var after := After(whole + part, line, NoFault, limit);
      && (after != "" <==> |part + line| < limit || |whole + part + line| <= limit)
      && (after != "" ==> exists kept :: EndsLine(kept) && after == kept + (part + line))
      && (part == "" && |line| <= limit ==> (after != "" <==> |line| < limit || whole == ""))
  {
    hide IsComplete, NextLine;
    var newest := part + line;
    var all := whole + newest;
    assert (whole + part) + line == all;
    NewestIsLine(part, line);
    if |all| <= limit {
      assert EndsLine(whole);
    } else if |newest| < limit {
      ShortNewestKept(whole, newest, limit);
    } else {
      LongNewestDropped(whole, newest, limit);
    }
  }

  lemma ShortNewestKept(whole: string, newest: string, limit: nat)
    requires |newest| < limit < |whole + newest| && EndsLine(whole)
    ensures exists kept :: EndsLine(kept) && Trimmed(whole + newest, limit) == kept + newest
  {
    var all := whole + newest;
    var t := |all| - limit;
    NextLineBefore(all, t, |whole| - 1);
    var keep := NextLine(all, t);
    assert all[keep..] == whole[keep..] + newest;
  }

  lemma LongNewestDropped(whole: string, newest: string, limit: nat)
    requires IsComplete(newest) && 0 < limit <= |newest| && limit < |whole + newest|
    ensures Trimmed(whole + newest, limit) == ""
  {
    var all := whole + newest;
    var t := |all| - limit;
    NextLineBehind(whole, newest, t - |whole|);
    assert newest + "" == newest;
    NextLineInside(newest, "", t - |whole|);
  }

  lemma NewestIsLine(part: string, line: string)
    requires '\n' !in part && IsComplete(line)
    ensures IsComplete(part + line) && part + line != ""
  {
    var newest := part + line;
    assert newest[..|newest| - 1] == part + line[..|line| - 1];
  }

  // ------------------------------------------------------------------- the store

  class FailureLogStore {
    const limit: nat
    const codec: Codec
    var file: string

    /** The file may be there from an earlier process, whatever it holds. */
    constructor (limit: nat, codec: Codec, existing: string)
      ensures this.limit == limit && this.codec == codec && file == existing
    {
      this.limit, this.codec, file := limit, codec, existing;
    }

    /** A failure is appended as one line and the oldest lines are trimmed. */
    method AppendFailure(target: string, logs: string, fault: FileFault) returns (ok: bool, ghost stored: Record)
      requires limit > 0
      modifies this
      ensures TrimSpace(target) == "" || logs == "" ==> ok && file == old(file)
      ensures TrimSpace(target) != "" && logs != "" ==>
                && stored.target == target
                && (|codec.encode(Record(target, logs))| + 1 <= limit ==> stored.logs == logs)
                && (!Fits(codec, limit, Record(target, logs)) && Fits(codec, limit, stored) ==>
                      IsCut(stored.logs, logs))
                && (Fits(codec, limit, Record(target, Cut(logs, 0))) ==> Fits(codec, limit, stored))
                && file == (if Fits(codec, limit, stored)
                     then After(old(file), codec.encode(stored) + "\n", fault, limit) else old(file))
                && (ok ==> Fits(codec, limit, stored) && |file| <= limit)
                && (Fits(codec, limit, stored) ==>
                      Appended(old(file), codec.encode(stored) + "\n", fault, limit, file, ok))
    {
      hide TrimSpace, Trimmed, Shortened, IsCut;
      ok, stored := true, Record(target, logs);
      if TrimSpace(target) == "" || logs == "" {
        return;
      }
      var line;
      line, stored := MarshalLine(codec, limit, Record(target, logs));
      if fault.NoDirectory? || line.Err? {
        ok := false;
        return;
      }
      file := file + Portion(line.value, fault);
      if fault.OpenFails? || fault.WriteFails? || fault.SyncFails? {
        ok := false;
        return;
      }
      FitsAsIs(file, limit);
      if |file| <= limit {
        return;
      }
      if fault.TrimFails? {
        ok := false;
        return;
      }
      TrimFile();
    }

    /** A file over the limit starts anew at the first line behind the excess. */
    method TrimFile()
      requires 0 < limit < |file|
      modifies this
      ensures file == Trimmed(old(file), limit) && Shortened(old(file), limit, file)
    {
      TrimmedIs(file, limit);
      var keep := FindKeepOffset(file, |file| - limit);
      file := file[keep..];
    }
  }

  lemma LineIsComplete(codec: Codec, r: Record)
    requires LineSafe(codec)
    ensures IsComplete(codec.encode(r) + "\n")
  {
    var l := codec.encode(r) + "\n";
    assert l[..|l| - 1] == codec.encode(r);
  }

  // ------------------------------------------------------------ reading it back

  /** What the lines say, line after line; an error at a line that does not decode. */
  function ReadLines(codec: Codec, lines: seq<string>, targets: Option<set<string>>): Result<map<string, string>> {
    if lines == [] then Ok(map[])
    else
      match ReadLines(codec, lines[..|lines| - 1], targets)
      case Err(e) => Err(e)
      case Ok(m) =>
        var text := TrimSpace(lines[|lines| - 1]);
        if text == "" then Ok(m)
        else
          match codec.decode(text)
          case None => Err("unmarshal")
          case Some(e) =>
            if !e.success && (targets.None? || e.target in targets.value) then Ok(m[e.target := e.logs]) else Ok(m)
  }

  method LoadLatestFailureLogs(codec: Codec, file: string, targets: Option<set<string>>)
    returns (r: Result<map<string, string>>)
    ensures r == ReadLines(codec, Split(file), targets)
    ensures r.Ok? <==> forall i :: 0 <= i < |Split(file)| ==> Reads(codec, Split(file)[i])
    ensures r.Ok? ==> forall t ::
              && (t in r.value <==> (targets.Some? ==> t in targets.value) && ToldIn(codec, Split(file), t))
              && (t in r.value ==> LastSays(codec, Split(file), t, r.value[t]))
  {
    hide TrimSpace, LastSays, Reads, ToldIn;
    var lines := Split(file);
    ReadsIff(codec, lines, targets);
    var result: map<string, string> := map[];
    for i := 0 to |lines|
      invariant ReadLines(codec, lines[..i], targets) == Ok(result)
    {
      assert lines[..i + 1][..i] == lines[..i];
      var text := TrimSpace(lines[i]);
      if text != "" {
        var entry := codec.decode(text);
        if entry.None? {
          ErrorStays(codec, lines, targets, i + 1);
          return Err("unmarshal");
        }
        if !entry.value.success && (targets.None? || entry.value.target in targets.value) {
          result := result[entry.value.target := entry.value.logs];
        }
      }
    }
    assert lines[..|lines|] == lines;
    r := Ok(result);
    forall t: string
      ensures t in result <==> (targets.Some? ==> t in targets.value) && ToldIn(codec, lines, t)
      ensures t in result ==> LastSays(codec, lines, t, result[t])
    {
      ReadSaysLast(codec, lines, targets, t);
    }
  }

  lemma {:induction false} ErrorStays(codec: Codec, lines: seq<string>, targets: Option<set<string>>, n: nat)
    requires n <= |lines| && ReadLines(codec, lines[..n], targets).Err?
    ensures ReadLines(codec, lines, targets) == ReadLines(codec, lines[..n], targets)
  {
    if n < |lines| {
      assert lines[..|lines| - 1][..n] == lines[..n];
      ErrorStays(codec, lines[..|lines| - 1], targets, n);
    } else {
      assert lines[..n] == lines;
    }
  }

  predicate Reads(codec: Codec, line: string) {
    TrimSpace(line) == "" || codec.decode(TrimSpace(line)).Some?
  }

  /** The log can be read exactly when each of its lines can. */
  lemma {:induction false} ReadsIff(codec: Codec, lines: seq<string>, targets: Option<set<string>>)
    ensures ReadLines(codec, lines, targets).Ok? <==> forall i :: 0 <= i < |lines| ==> Reads(codec, lines[i])
  {
    if lines != [] {
      var n := |lines| - 1;
      ReadsIff(codec, lines[..n], targets);
      assert forall i :: 0 <= i < n ==> lines[..n][i] == lines[i];
    }
  }

  function Wanted(targets: Option<set<string>>, target: string): bool {
    targets.None? || target in targets.value
  }

  /** The newest record of a target. */
  ghost predicate IsNewest(records: seq<Record>, target: string, logs: string) {
    exists i :: 0 <= i < |records| && records[i] == Record(target, logs) && forall j :: i < j < |records| ==>
            records[j].target != target
  }

  function LinesOf(codec: Codec, records: seq<Record>): seq<string> {
    seq(|records|, i requires 0 <= i < |records| => codec.encode(records[i]) + "\n")
  }

  /** The log of each wanted target's newest record. */
  function Newest(records: seq<Record>, targets: Option<set<string>>): map<string, string> {
    if records == [] then map[]
    else
      var m, last := Newest(records[..|records| - 1], targets), records[|records| - 1];
      if Wanted(targets, last.target) then m[last.target := last.logs] else m
  }

  lemma {:induction false} NewestKnows(records: seq<Record>, targets: Option<set<string>>, t: string)
    ensures t in Newest(records, targets) <==>
            Wanted(targets, t) && exists i :: 0 <= i < |records| && records[i].target == t
  {
    if records != [] {
      var front, last := records[..|records| - 1], records[|records| - 1];
      NewestKnows(front, targets, t);
      assert forall i :: 0 <= i < |front| ==> records[i] == front[i];
      assert records[|front|] == last;
    }
  }

  lemma IsNewestSnoc(front: seq<Record>, last: Record, t: string, logs: string)
    ensures t == last.target && logs == last.logs ==> IsNewest(front + [last], t, logs)
    ensures t != last.target && IsNewest(front, t, logs) ==> IsNewest(front + [last], t, logs)
  {
    var records := front + [last];
    assert records[|front|] == last;
    if t != last.target && IsNewest(front, t, logs) {
      var i :| 0 <= i < |front| && front[i] == Record(t, logs) && forall j :: i < j < |front| ==> front[j].target != t;
      assert records[i] == front[i];
      assert forall j :: i < j < |records| ==> records[j] == if j < |front| then front[j] else last;
    }
  }

  /** What is known of a target is its newest record. */
  lemma {:induction false} NewestIsNewest(records: seq<Record>, targets: Option<set<string>>, t: string)
    requires t in Newest(records, targets)
    ensures IsNewest(records, t, Newest(records, targets)[t])
  {
    hide IsNewest;
    var front, last := records[..|records| - 1], records[|records| - 1];
    assert records == front + [last];
    NewestKnows(records, targets, t);
    if t in Newest(front, targets) {
      NewestIsNewest(front, targets, t);
    }
    IsNewestSnoc(front, last, t, Newest(records, targets)[t]);
  }

  /** The records as the encoder writes them. */
  function Canonical(codec: Codec, records: seq<Record>): seq<Record> {
    seq(|records|, i requires 0 <= i < |records| => codec.canon(records[i]))
  }

  /** Reading the lines of records gives each wanted target's newest record and nothing else. */
  lemma {:induction false} ReadGivesNewest(codec: Codec, records: seq<Record>, targets: Option<set<string>>)
    requires Faithful(codec)
    ensures ReadLines(codec, LinesOf(codec, records), targets) == Ok(Newest(Canonical(codec, records), targets))
  {
    hide TrimSpace;
    if records != [] {
      var front, last := records[..|records| - 1], records[|records| - 1];
      var lines := LinesOf(codec, records);
      assert lines[..|lines| - 1] == LinesOf(codec, front);
      var canonical := Canonical(codec, records);
      assert canonical[..|canonical| - 1] == Canonical(codec, front);
      ReadGivesNewest(codec, front, targets);
      assert lines[|lines| - 1] == codec.encode(last) + "\n";
    }
  }

  // ------------------------------------------------------ from appends to reading

  datatype Attempt = Attempt(record: Record, fault: FileFault)

  function AppendsOf(codec: Codec, attempts: seq<Attempt>): seq<Append> {
    seq(|attempts|,
        i requires 0 <= i < |attempts| => Append(codec.encode(attempts[i].record) + "\n", attempts[i].fault))
  }

  /** What of a record's line reaches the file. */
  function PartOf(codec: Codec, a: Attempt): string {
    Portion(codec.encode(a.record) + "\n", a.fault)
  }

  /** No append stops in the middle of a line: all of it or nothing reaches the file. */
  ghost predicate NoTear(codec: Codec, attempts: seq<Attempt>) {
    forall i :: 0 <= i < |attempts| ==>
      PartOf(codec, attempts[i]) == "" || PartOf(codec, attempts[i]) == codec.encode(attempts[i].record) + "\n"
  }

  /** The records that reached the file. */
  function Reached(codec: Codec, attempts: seq<Attempt>): seq<Record> {
    if attempts == [] then []
    else
      var last := attempts[|attempts| - 1];
      Reached(codec, attempts[..|attempts| - 1]) + (if PartOf(codec, last) == "" then [] else [last.record])
  }

  lemma {:induction false} WrittenAreRecords(codec: Codec, earlier: seq<Record>, attempts: seq<Attempt>)
    requires NoTear(codec, attempts)
    ensures Written(Join(LinesOf(codec, earlier)), AppendsOf(codec, attempts))
            == Join(LinesOf(codec, earlier + Reached(codec, attempts)))
  {
    hide Join, Portion;
    if attempts == [] {
      assert earlier + Reached(codec, attempts) == earlier;
    } else {
      var front, last := attempts[..|attempts| - 1], attempts[|attempts| - 1];
      var appends := AppendsOf(codec, attempts);
      assert appends[..|appends| - 1] == AppendsOf(codec, front);
      WrittenAreRecords(codec, earlier, front);
      var records := earlier + Reached(codec, front);
      assert Portion(appends[|appends| - 1].line, last.fault) == PartOf(codec, last);
      if PartOf(codec, last) == "" {
        assert earlier + Reached(codec, attempts) == records;
      } else {
        assert earlier + Reached(codec, attempts) == records + [last.record];
        var line := codec.encode(last.record) + "\n";
        assert LinesOf(codec, records + [last.record]) == LinesOf(codec, records) + [line];
        JoinConcat(LinesOf(codec, records), [line]);
        OneLine(line);
      }
    }
  }

  lemma OneLine(p: string)
    ensures Join([p]) == p
  {
    assert [p][1..] == [];
  }

  lemma RecordLinesOk(codec: Codec, records: seq<Record>)
    requires LineSafe(codec)
    ensures LinesOk(LinesOf(codec, records)) && EndsLine(Join(LinesOf(codec, records)))
  {
    hide IsComplete, LineSafe;
    var lines := LinesOf(codec, records);
    forall i | 0 <= i < |lines|
      ensures IsComplete(lines[i]) && IsLine(lines[i])
    {
      LineIsComplete(codec, records[i]);
      CompleteIsLine(lines[i]);
    }
    if records == [] {
      NoLines();
    } else {
      var n := |lines| - 1;
      assert lines == lines[..n] + [lines[n]];
      JoinConcat(lines[..n], [lines[n]]);
      OneLine(lines[n]);
    }
  }

  lemma CompleteIsLine(l: string)
    requires IsComplete(l)
    ensures IsLine(l)
  {}

  /** What follows some line ends in a text of lines is some of the last lines. */
  lemma {:induction false} SuffixOfLines(lines: seq<string>, dropped: string, file: string)
    requires LinesOk(lines) && EndsLine(dropped) && Join(lines) == dropped + file
    ensures |Split(file)| <= |lines| && Split(file) == lines[|lines| - |Split(file)|..]
  {
    hide Split, Join, IsLine, IsComplete;
    if dropped == "" {
      assert dropped + file == file;
      SplitJoin(lines);
    } else {
      NoLines();
      JoinCons(lines);
      var l, tail := lines[0], lines[1..];
      FirstIsDropped(l, Join(tail), dropped, file, tail == []);
      var rest := dropped[|l|..];
      assert Join(tail) == rest + file;
      SuffixOfLines(tail, rest, file);
      var n := |Split(file)|;
      assert tail[|tail| - n..] == lines[|lines| - n..];
    }
  }

  /** Dropping a line end drops the first line. */
  lemma FirstIsDropped(l: string, rest: string, dropped: string, file: string, only: bool)
    requires IsLine(l) && (only ==> rest == "") && (!only ==> IsComplete(l))
    requires EndsLine(dropped) && dropped != "" && l + rest == dropped + file
    ensures |l| <= |dropped| && dropped[..|l|] == l && rest == dropped[|l|..] + file && EndsLine(dropped[|l|..])
  {
    forall k | 0 <= k < |l| - 1
      ensures (dropped + file)[k] != '\n'
    {
      assert l[..|l| - 1][k] == (l + rest)[k];
    }
    var n := |dropped| - 1;
    assert (dropped + file)[n] == '\n';
    assert dropped[..|l|] == (dropped + file)[..|l|] == (l + rest)[..|l|] == l;
    assert (l + rest)[|l|..] == rest && (dropped + file)[|l|..] == dropped[|l|..] + file;
  }

  /** The line is a record of a failure of this target. */
  predicate Tells(codec: Codec, line: string, target: string) {
    && TrimSpace(line) != "" && codec.decode(TrimSpace(line)).Some?
    && !codec.decode(TrimSpace(line)).value.success && codec.decode(TrimSpace(line)).value.target == target
  }

  ghost predicate ToldIn(codec: Codec, lines: seq<string>, target: string) {
    exists i :: 0 <= i < |lines| && Tells(codec, lines[i], target)
  }

  /** The target's last line says this. */
  ghost predicate LastSays(codec: Codec, lines: seq<string>, target: string, logs: string) {
    exists i :: 0 <= i < |lines| && Tells(codec, lines[i], target)
      && codec.decode(TrimSpace(lines[i])).value.logs == logs
      && forall j :: i < j < |lines| ==> !Tells(codec, lines[j], target)
  }

  lemma LastSaysSnoc(codec: Codec, front: seq<string>, last: string, target: string, logs: string)
    requires if Tells(codec, last, target) then codec.decode(TrimSpace(last)).value.logs == logs
             else LastSays(codec, front, target, logs)
    ensures LastSays(codec, front + [last], target, logs)
  {
    hide TrimSpace;
    var lines := front + [last];
    if Tells(codec, last, target) {
      assert lines[|front|] == last;
    } else {
      var i :| 0 <= i < |front| && Tells(codec, front[i], target)
        && codec.decode(TrimSpace(front[i])).value.logs == logs
        && forall j :: i < j < |front| ==> !Tells(codec, front[j], target);
      assert lines[i] == front[i];
      assert forall j :: i < j < |lines| ==> lines[j] == if j < |front| then front[j] else last;
    }
  }

  /** What is read of any lines: of each wanted target that some line tells of, what its last line says. */
  lemma {:induction false} ReadSaysLast(codec: Codec, lines: seq<string>, targets: Option<set<string>>, t: string)
    requires ReadLines(codec, lines, targets).Ok?
    ensures var m := ReadLines(codec, lines, targets).value;
      && (t in m <==> Wanted(targets, t) && ToldIn(codec, lines, t))
      && (t in m ==> LastSays(codec, lines, t, m[t]))
  {
    hide TrimSpace, LastSays;
    if lines != [] {
      var front, last := lines[..|lines| - 1], lines[|lines| - 1];
      assert lines == front + [last];
      ReadSaysLast(codec, front, targets, t);
      assert forall i :: 0 <= i < |front| ==> lines[i] == front[i];
      assert lines[|front|] == last;
      var m := ReadLines(codec, lines, targets).value;
      if t in m {
        LastSaysSnoc(codec, front, last, t, m[t]);
      }
    }
  }

  /**
   Whatever the file held before and wherever appends fail, torn lines included:
   the log can be read exactly when each line that survives of everything ever
   written can, and then gives what the last surviving line of each target says.
   */
  lemma LoadsIff(codec: Codec, start: string, appends: seq<Append>, limit: nat, targets: Option<set<string>>)
    requires limit > 0 && forall i :: 0 <= i < |appends| ==> IsComplete(appends[i].line)
    ensures var all, kept := Split(Written(start, appends)), Split(AllAppended(start, appends, limit));
      var read := ReadLines(codec, kept, targets);
      && |kept| <= |all| && kept == all[|all| - |kept|..]
      && (read.Ok? <==> forall i :: |all| - |kept| <= i < |all| ==> Reads(codec, all[i]))
      && (read.Ok? ==> forall t :: t in read.value <==> Wanted(targets, t) && ToldIn(codec, kept, t))
      && (read.Ok? ==> forall t :: t in read.value ==> LastSays(codec, kept, t, read.value[t]))
  {
    hide Split, AllAppended, Written, ReadLines, IsComplete, Reads, Tells, LastSays;
    LogIsWholeLineSuffix(start, appends, limit);
    var written, file := Written(start, appends), AllAppended(start, appends, limit);
    var dropped :| EndsLine(dropped) && written == dropped + file;
    JoinSplit(written);
    var all, kept := Split(written), Split(file);
    SuffixOfLines(all, dropped, file);
    ReadsIff(codec, kept, targets);
    assert forall i :: 0 <= i < |kept| ==> kept[i] == all[|all| - |kept| + i];
    assert forall i :: |all| - |kept| <= i < |all| ==> all[i] == kept[i - (|all| - |kept|)];
    var read := ReadLines(codec, kept, targets);
    if read.Ok? {
      forall t: string
        ensures t in read.value <==> Wanted(targets, t) && ToldIn(codec, kept, t)
        ensures t in read.value ==> LastSays(codec, kept, t, read.value[t])
      {
        ReadSaysLast(codec, kept, targets, t);
      }
    }
  }

  /**
   Unless an append stopped in the middle of a line, what is read from the file,
   with the records of an earlier process in it, is the newest surviving record
   of each wanted target.
   */
  lemma LoadGivesNewestSurviving(codec: Codec, earlier: seq<Record>, attempts: seq<Attempt>, limit: nat,
                                 targets: Option<set<string>>)
    requires Faithful(codec) && limit > 0 && NoTear(codec, attempts)
    ensures var kept := Split(AllAppended(Join(LinesOf(codec, earlier)), AppendsOf(codec, attempts), limit));
      var records := earlier + Reached(codec, attempts);
      && |kept| <= |records|
      && ReadLines(codec, kept, targets) == Ok(Newest(Canonical(codec, records[|records| - |kept|..]), targets))
  {
    hide AllAppended, Written, Split, Join, ReadLines, Newest, TrimSpace, IsComplete;
    var start, appends := Join(LinesOf(codec, earlier)), AppendsOf(codec, attempts);
    forall i | 0 <= i < |appends|
      ensures IsComplete(appends[i].line)
    {
      LineIsComplete(codec, attempts[i].record);
    }
    LogIsWholeLineSuffix(start, appends, limit);
    WrittenAreRecords(codec, earlier, attempts);
    var records := earlier + Reached(codec, attempts);
    RecordLinesOk(codec, records);
    var file := AllAppended(start, appends, limit);
    var dropped :| EndsLine(dropped) && Written(start, appends) == dropped + file;
    SuffixOfLines(LinesOf(codec, records), dropped, file);
    var survivors := records[|records| - |Split(file)|..];
    assert Split(file) == LinesOf(codec, survivors);
    ReadGivesNewest(codec, survivors, targets);
  }

  /**
   An append that stops in the middle of a line is joined by the next one. If the
   two together do not decode, the whole log cannot be read, whatever else it holds.
   */
  lemma TornLineStopsReading(codec: Codec, records: seq<Record>, torn: Record, n: nat, next: Record, limit: nat,
                             targets: Option<set<string>>)
    requires LineSafe(codec) && n <= |codec.encode(torn)|
    requires var joined := codec.encode(torn)[..n] + codec.encode(next) + "\n"; !Reads(codec, joined)
    requires |Join(LinesOf(codec, records))| + n + |codec.encode(next)| + 1 <= limit
    ensures var appends := AppendsOf(codec, [Attempt(torn, WriteFails(n)), Attempt(next, NoFault)]);
      ReadLines(codec, Split(AllAppended(Join(LinesOf(codec, records)), appends, limit)), targets).Err?
  {
    hide Split, Join, Reads, LineSafe, ReadLines;
    var start := Join(LinesOf(codec, records));
    var part, line := codec.encode(torn)[..n], codec.encode(next) + "\n";
    var appends := AppendsOf(codec, [Attempt(torn, WriteFails(n)), Attempt(next, NoFault)]);
    var joined := part + line;
    assert joined == codec.encode(torn)[..n] + codec.encode(next) + "\n";
    assert (codec.encode(torn) + "\n")[..n] == part;
    TwoAppends(start, appends, limit);
    assert AllAppended(start, appends, limit) == start + joined;
    JoinedLines(codec, records, torn, n, next);
    var lines := LinesOf(codec, records) + [joined];
    assert lines[|records|] == joined;
    ReadsIff(codec, lines, targets);
  }

  lemma TwoAppends(start: string, appends: seq<Append>, limit: nat)
    requires limit > 0 && |appends| == 2
    ensures AllAppended(start, appends, limit) ==
            After(After(start, appends[0].line, appends[0].fault, limit), appends[1].line, appends[1].fault, limit)
  {
    var front := appends[..1];
    assert front[..0] == [] && AllAppended(start, [], limit) == start;
    assert AllAppended(start, front, limit) == After(start, front[0].line, front[0].fault, limit);
  }

  lemma JoinedLines(codec: Codec, records: seq<Record>, torn: Record, n: nat, next: Record)
    requires LineSafe(codec) && n <= |codec.encode(torn)|
    ensures var joined := codec.encode(torn)[..n] + (codec.encode(next) + "\n");
      Split(Join(LinesOf(codec, records)) + joined) == LinesOf(codec, records) + [joined]
  {
    hide Split, Join;
    var joined := codec.encode(torn)[..n] + (codec.encode(next) + "\n");
    LineIsComplete(codec, next);
    NewestIsLine(codec.encode(torn)[..n], codec.encode(next) + "\n");
    var lines := LinesOf(codec, records) + [joined];
    forall i | 0 <= i < |lines|
      ensures IsComplete(lines[i])
    {
      if i < |records| {
        LineIsComplete(codec, records[i]);
      }
    }
    JoinConcat(LinesOf(codec, records), [joined]);
    OneLine(joined);
    SplitJoin(lines);
  }
}

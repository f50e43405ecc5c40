/**
 Bounded logs: the circular buffer that keeps the end of a build's output
 (internal/buildbatch/build_execution.go) and the writer that keeps the start
 of one (internal/builddaemon/workspace.go). Characters stand for bytes.
 */
module OutputCapture {

  /** The last bytes of a stream, at most `n` of them. */
  function Tail(s: string, n: nat): string {
    if |s| <= n then s else s[|s| - n..]
  }

  lemma TailSplit(s: string, d: string, n: nat)
    requires |s| > n
    ensures (s[|s| - n..] + d)[|d|..] == (s + d)[|s + d| - n..]
  {
    assert s + d == s[..|s| - n] + (s[|s| - n..] + d);
  }

  lemma TailOfTail(s: string, d: string, n: nat)
    ensures Tail(Tail(s, n) + d, n) == Tail(s + d, n)
  {
    if |s| > n {
      TailSplit(s, d, n);
    }
  }

  // ------------------------------------------------------- what the capture refines

  /** What reading gives and whether it is marked as truncated. */
  datatype Capture = Capture(contents: string, truncated: bool)

  function Written(c: Capture, data: string, capacity: nat): Capture {
    Capture(Tail(c.contents + data, capacity),
            c.truncated || |data| >= capacity || |c.contents| + |data| > capacity)
  }

  function AllWritten(writes: seq<string>, capacity: nat): Capture {
    if writes == [] then Capture("", false)
    else Written(AllWritten(writes[..|writes| - 1], capacity), writes[|writes| - 1], capacity)
  }

  function Stream(writes: seq<string>): string {
    if writes == [] then "" else Stream(writes[..|writes| - 1]) + writes[|writes| - 1]
  }

  ghost predicate HasLongWrite(writes: seq<string>, capacity: nat) {
    exists i :: 0 <= i < |writes| && |writes[i]| >= capacity
  }

  lemma LongWriteSnoc(front: seq<string>, last: string, capacity: nat)
    ensures HasLongWrite(front + [last], capacity) <==> HasLongWrite(front, capacity) || |last| >= capacity
  {
    var writes := front + [last];
    assert writes[|front|] == last;
    assert forall i :: 0 <= i < |front| ==> writes[i] == front[i];
  }

  /**
   After any writes the contents are the end of the stream, and the mark is set
   exactly when the stream did not fit or one write alone filled the buffer.
   */
  lemma {:induction false} CaptureKeepsTail(writes: seq<string>, capacity: nat)
    ensures var c, all := AllWritten(writes, capacity), Stream(writes);
      && c.contents == Tail(all, capacity)
      && c.contents == (if |all| <= capacity then all else all[|all| - capacity..])
      && (c.truncated <==> |Stream(writes)| > capacity || HasLongWrite(writes, capacity))
  {
    hide HasLongWrite;
    if writes == [] {
      NoLongWrite(capacity);
    } else {
      var front, last := writes[..|writes| - 1], writes[|writes| - 1];
      assert writes == front + [last];
      CaptureKeepsTail(front, capacity);
      TailOfTail(Stream(front), last, capacity);
      LongWriteSnoc(front, last, capacity);
    }
  }

  lemma NoLongWrite(capacity: nat)
    ensures !HasLongWrite([], capacity)
  {}

  /** Unmarked contents are the whole stream. */
  lemma UnmarkedIsWhole(writes: seq<string>, capacity: nat)
    requires !AllWritten(writes, capacity).truncated
    ensures AllWritten(writes, capacity).contents == Stream(writes)
  {
    CaptureKeepsTail(writes, capacity);
  }

  /** A single write that exactly fills the buffer is marked although nothing is lost. */
  lemma ExactFitIsMarked(data: string)
    ensures AllWritten([data], |data|) == Capture(data, true) && Stream([data]) == data
  {
    assert [data][..0] == [];
    assert AllWritten([], |data|) == Capture("", false);
    assert "" + data == data;
  }

  // -------------------------------------------------------------- the circular buffer

  function Wrap(i: nat, n: nat): (r: nat)
    requires i < 2 * n
    ensures r < n
  {
    if i < n then i else i - n
  }

  lemma WrapIsMod(i: nat, n: nat)
    requires n > 0 && i < 2 * n
    ensures Wrap(i, n) == i % n
  {}

  /** The byte at a position behind the start. */
  function Held(buf: seq<char>, start: nat, i: nat): char
    requires start < |buf| && i < |buf|
  {
    buf[Wrap(start + i, |buf|)]
  }

  /** The bytes held, in order. */
  function Ring(buf: seq<char>, start: nat, size: nat): (r: string)
    requires start < |buf| && size <= |buf|
    ensures |r| == size
  {
    seq(size, i requires 0 <= i < size => Held(buf, start, i))
  }

  lemma RingDrop(buf: seq<char>, start: nat, size: nat, drop: nat)
    requires start < |buf| && drop <= size <= |buf|
    ensures start + drop < 2 * |buf|
    ensures Ring(buf, Wrap(start + drop, |buf|), size - drop) == Ring(buf, start, size)[drop..]
  {
    var a, b := Ring(buf, Wrap(start + drop, |buf|), size - drop), Ring(buf, start, size)[drop..];
    forall i | 0 <= i < size - drop
      ensures a[i] == b[i]
    {
      assert b[i] == Ring(buf, start, size)[drop + i];
      assert Wrap(Wrap(start + drop, |buf|) + i, |buf|) == Wrap(start + (drop + i), |buf|);
    }
  }

  /** Bytes put behind the end, and nothing held overwritten. */
  lemma RingAppend(buf: seq<char>, buf': seq<char>, start: nat, size: nat, data: string)
    requires start < |buf| == |buf'| && size + |data| <= |buf|
    requires forall i :: 0 <= i < size ==> Held(buf', start, i) == Held(buf, start, i)
    requires forall i :: 0 <= i < |data| ==> Held(buf', start, size + i) == data[i]
    ensures Ring(buf', start, size + |data|) == Ring(buf, start, size) + data
  {
    var a, b := Ring(buf', start, size + |data|), Ring(buf, start, size) + data;
    forall i | 0 <= i < size + |data|
      ensures a[i] == b[i]
    {
      if i >= size {
        assert Held(buf', start, size + (i - size)) == data[i - size];
      }
    }
  }

  /** The two stretches of the buffer that hold the bytes. */
  lemma RingParts(buf: seq<char>, start: nat, size: nat)
    requires start < |buf| && size <= |buf|
    ensures var first := if size <= |buf| - start then size else |buf| - start;
      Ring(buf, start, size) == buf[start..start + first] + buf[..size - first]
  {
    var first := if size <= |buf| - start then size else |buf| - start;
    var a, b := Ring(buf, start, size), buf[start..start + first] + buf[..size - first];
    forall i | 0 <= i < size
      ensures a[i] == b[i]
    {
      assert a[i] == Held(buf, start, i);
    }
  }

  /** The buffer after data was copied to a position and its rest to the front. */
  function CopiedRound(buf: seq<char>, end: nat, data: string): seq<char>
    requires end < |buf| && |data| < |buf|
  {
    var first := if |data| <= |buf| - end then |data| else |buf| - end;
    data[first..] + (buf[..end] + data[..first] + buf[end + first..])[|data| - first..]
  }

  lemma CopiedAt(buf: seq<char>, end: nat, data: string, j: nat)
    requires end < |buf| && |data| < |buf| && j < |buf|
    ensures |CopiedRound(buf, end, data)| == |buf|
    ensures CopiedRound(buf, end, data)[j] ==
              if end <= j < end + |data| then data[j - end]
              else if j + |buf| < end + |data| then data[j + |buf| - end]
              else buf[j]
  {
    var first := if |data| <= |buf| - end then |data| else |buf| - end;
    var once := buf[..end] + data[..first] + buf[end + first..];
    assert j < |data| - first ==> CopiedRound(buf, end, data)[j] == data[first..][j];
    assert j >= |data| - first ==> CopiedRound(buf, end, data)[j] == once[j];
  }

  lemma CopiedTwice(buf: seq<char>, end: nat, data: string, first: nat, once: seq<char>, twice: seq<char>)
    requires end < |buf| && |data| < |buf|
    requires first == if |data| <= |buf| - end then |data| else |buf| - end
    requires once == buf[..end] + data[..first] + buf[end + first..]
    requires twice == once[..0] + data[first..][..|data| - first] + once[|data| - first..]
    ensures twice == CopiedRound(buf, end, data)
  {}

  /** Copying round at the end of the bytes held appends to them. */
  lemma CopiedRoundAppends(buf: seq<char>, start: nat, size: nat, data: string)
    requires start < |buf| && |data| < |buf| && size + |data| <= |buf|
    ensures start + size < 2 * |buf|
    ensures var after := CopiedRound(buf, Wrap(start + size, |buf|), data);
      |after| == |buf| && Ring(after, start, size + |data|) == Ring(buf, start, size) + data
  {
    var end := Wrap(start + size, |buf|);
    var after := CopiedRound(buf, end, data);
    CopiedAt(buf, end, data, 0);
    forall i | 0 <= i < size
      ensures Held(after, start, i) == Held(buf, start, i)
    {
      CopiedAt(buf, end, data, Wrap(start + i, |buf|));
    }
    forall i | 0 <= i < |data|
      ensures Held(after, start, size + i) == data[i]
    {
      CopiedAt(buf, end, data, Wrap(start + (size + i), |buf|));
    }
    RingAppend(buf, after, start, size, data);
  }

  lemma LongData(held: string, data: string, n: nat)
    requires n <= |data|
    ensures Tail(held + data, n) == data[|data| - n..]
  {
    assert (held + data)[|held + data| - n..] == data[|data| - n..];
  }

  lemma DropThenAppend(held: string, data: string, n: nat)
    requires |data| < n < |held| + |data| && |held| <= n
    ensures held[|held| + |data| - n..] + data == Tail(held + data, n)
  {}

  class BuildOutputCapture {
    const buffer: array<char>
    const marker: string
    var start: nat
    var size: nat
    var truncated: bool

    ghost predicate Valid()
      reads this
    {
      start < buffer.Length && size <= buffer.Length
    }

    ghost function Value(): Capture
      reads this, buffer
      requires Valid()
    {
      Capture(Ring(buffer[..], start, size), truncated)
    }

    constructor (capacity: nat, marker: string)
      requires capacity > 0
      ensures Valid() && fresh(buffer) && buffer.Length == capacity && this.marker == marker
      ensures Value() == Capture("", false)
    {
      buffer := new char[capacity];
      this.marker := marker;
      start, size, truncated := 0, 0, false;
    }

    /** `copy`: as much of the data as fits from a position on. */
    method Copy(at: nat, data: string) returns (n: nat)
      requires at <= buffer.Length
      modifies buffer
      ensures n == if |data| <= buffer.Length - at then |data| else buffer.Length - at
      ensures buffer[..] == old(buffer[..at]) + data[..n] + old(buffer[at + n..])
    {
      n := 0;
      while n < |data| && at + n < buffer.Length
        invariant n <= |data| && at + n <= buffer.Length
        invariant buffer[..] == old(buffer[..at]) + data[..n] + old(buffer[at + n..])
      {
        buffer[at + n] := data[n];
        n := n + 1;
      }
    }

    method Write(data: string) returns (written: nat)
      requires Valid()
      modifies this, buffer
      ensures Valid() && written == |data|
      ensures Value() == Written(old(Value()), data, buffer.Length)
      ensures var all := old(Value().contents) + data;
        Value().contents == (if |all| <= buffer.Length then all else all[|all| - buffer.Length..])
    {
      hide Ring;
      written := |data|;
      ghost var held := Ring(buffer[..], start, size);
      if |data| >= buffer.Length {
        Overwrite(data);
        LongData(held, data, buffer.Length);
        return;
      }
      if size + |data| > buffer.Length {
        var drop := size + |data| - buffer.Length;
        RingDrop(buffer[..], start, size, drop);
        WrapIsMod(start + drop, buffer.Length);
        start := (start + drop) % buffer.Length;
        size := size - drop;
        truncated := true;
        DropThenAppend(held, data, buffer.Length);
      }
      Append(data);
    }

    /** Data as long as the buffer leaves only its own end. */
    method Overwrite(data: string)
      requires Valid() && |data| >= buffer.Length
      modifies this, buffer
      ensures Valid() && Value() == Capture(data[|data| - buffer.Length..], true)
    {
      var all := Copy(0, data[|data| - buffer.Length..]);
      start, size, truncated := 0, buffer.Length, true;
      RingParts(buffer[..], 0, size);
    }

    /** Puts data behind the end, wrapping round. */
    method Append(data: string)
      requires Valid() && |data| < buffer.Length && size + |data| <= buffer.Length
      modifies this`size, buffer
      ensures Valid() && size == old(size) + |data|
      ensures Ring(buffer[..], start, size) == old(Ring(buffer[..], start, size)) + data
    {
      hide Ring, CopiedRound, Wrap;
      WrapIsMod(start + size, buffer.Length);
      CopiedRoundAppends(buffer[..], start, size, data);
      CopyRound((start + size) % buffer.Length, data);
      size := size + |data|;
    }

    /** Copies data to a position and what does not fit there to the front. */
    method CopyRound(end: nat, data: string)
      requires end < buffer.Length && |data| < buffer.Length
      modifies buffer
      ensures buffer[..] == CopiedRound(old(buffer[..]), end, data)
    {
      hide CopiedRound;
      ghost var before := buffer[..];
      var first := Copy(end, data);
      ghost var between := buffer[..];
      var rest := Copy(0, data[first..]);
      CopiedTwice(before, end, data, first, between, buffer[..]);
    }

    /** The bytes held, behind a marker line if the stream is marked as truncated. */
    method CloseAndReadTail(readLogs: bool) returns (text: string)
      requires Valid()
      ensures !readLogs ==> text == ""
      ensures readLogs ==> text == (if truncated then marker else "") + Value().contents
    {
      if !readLogs {
        return "";
      }
      RingParts(buffer[..], start, size);
      var first := if size <= buffer.Length - start then size else buffer.Length - start;
      var out := buffer[start..start + first] + buffer[..size - first];
      if truncated {
        return marker + out;
      }
      text := out;
    }
  }

  // ------------------------------------------------------------- the limited writer

  /** What the sink received and how much it may still receive. */
  datatype Limited = Limited(sink: string, remaining: int)

  /** How the underlying writer answers: how many bytes it takes, and whether it fails. */
  datatype Answer = Answer(taken: nat, failed: bool)

  function Offered(w: Limited, data: string): string {
    if w.remaining <= 0 then "" else if |data| > w.remaining then data[..w.remaining] else data
  }

  function Received(w: Limited, data: string, a: Answer): Limited
    requires a.taken <= |Offered(w, data)|
  {
    Limited(w.sink + Offered(w, data)[..a.taken], w.remaining - a.taken)
  }

  class LimitedLogWriter {
    var sink: string
    var remaining: int

    constructor (limit: int)
      ensures Value() == Limited("", limit)
    {
      sink, remaining := "", limit;
    }

    ghost function Value(): Limited
      reads this
    {
      Limited(sink, remaining)
    }

    method Write(data: string, answer: Answer) returns (n: nat, failed: bool)
      requires answer.taken <= |Offered(Value(), data)|
      modifies this
      ensures old(remaining) <= 0 || data == "" ==> Value() == old(Value()) && n == |data| && !failed
      ensures old(remaining) > 0 && data != "" ==>
                && Value() == Received(old(Value()), data, answer)
                && sink == old(sink) + data[..answer.taken] && remaining == old(remaining) - answer.taken
                && (failed <==> answer.failed || (answer.taken < |data| && answer.taken < old(remaining)))
                && n == if failed then answer.taken else |data|
    {
      if remaining <= 0 || |data| == 0 {
        return |data|, false;
      }
      var part := data;
      if |data| > remaining {
        part := data[..remaining];
      }
      sink := sink + part[..answer.taken];
      remaining := remaining - answer.taken;
      if answer.failed || answer.taken != |part| {
        return answer.taken, true;
      }
      return |data|, false;
    }
  }

  /** A write and the answer the underlying writer gives, if it is asked. */
  datatype LogWrite = LogWrite(data: string, answer: Answer)

  /** The writer after any writes; an answer takes at most what is offered. */
  function AllReceived(writes: seq<LogWrite>, limit: int): Limited {
    if writes == [] then Limited("", limit)
    else
      var w, last := AllReceived(writes[..|writes| - 1], limit), writes[|writes| - 1];
      Received(w, last.data, Taking(w, last))
  }

  function Taking(w: Limited, write: LogWrite): Answer {
    if write.answer.taken <= |Offered(w, write.data)| then write.answer
    else Answer(|Offered(w, write.data)|, write.answer.failed)
  }

  /** Every write so far was taken whole, as far as it was offered. */
  predicate AllTaken(writes: seq<LogWrite>, limit: int) {
    writes == [] ||
    var w, last := AllReceived(writes[..|writes| - 1], limit), writes[|writes| - 1];
    AllTaken(writes[..|writes| - 1], limit) && Taking(w, last).taken == |Offered(w, last.data)|
  }

  function LogStream(writes: seq<LogWrite>): string {
    if writes == [] then "" else LogStream(writes[..|writes| - 1]) + writes[|writes| - 1].data
  }

  /** What a limit allows: one that is not positive allows nothing. */
  function Allowance(limit: int): nat {
    if limit > 0 then limit else 0
  }

  /**
   Until a write is cut short the sink holds exactly the start of the stream, up
   to the limit; whatever happens, it never holds more than the limit and the
   count of what is left is right.
   */
  lemma {:induction false} LimitedKeepsHead(writes: seq<LogWrite>, limit: int)
    ensures var w, all := AllReceived(writes, limit), LogStream(writes);
      && |w.sink| + w.remaining == limit && |w.sink| <= Allowance(limit)
      && (AllTaken(writes, limit) ==> w.sink == (if |all| <= Allowance(limit) then all else all[..Allowance(limit)]))
  {
    if writes != [] {
      var front, last := writes[..|writes| - 1], writes[|writes| - 1];
      LimitedKeepsHead(front, limit);
      var w := AllReceived(front, limit);
      BudgetConserved(w, last.data, Taking(w, last));
    }
  }

  /** The first write cut short leaves the sink a prefix of the stream. */
  lemma CutShortIsPrefix(writes: seq<LogWrite>, limit: int)
    requires writes != [] && AllTaken(writes[..|writes| - 1], limit)
    ensures AllReceived(writes, limit).sink <= LogStream(writes)
  {
    var front, last := writes[..|writes| - 1], writes[|writes| - 1];
    LimitedKeepsHead(front, limit);
    var w := AllReceived(front, limit);
    if w.remaining > 0 {
      assert w.sink == LogStream(front);
    }
  }

  /** Whatever the underlying writer does, bytes taken and bytes left add up. */
  lemma BudgetConserved(w: Limited, data: string, a: Answer)
    requires a.taken <= |Offered(w, data)|
    ensures |Received(w, data, a).sink| + Received(w, data, a).remaining == |w.sink| + w.remaining
    ensures w.remaining >= 0 ==> Received(w, data, a).remaining >= 0
  {}
}

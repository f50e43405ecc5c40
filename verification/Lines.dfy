/** Text as a sequence of lines, each with its line end. */
module Lines {

  /** The length of the first line with its line end. */
  function LineEnd(s: string): (n: nat)
    requires s != []
    ensures 1 <= n <= |s| && '\n' !in s[..n - 1] && (n < |s| ==> s[n - 1] == '\n')
  {
    if s[0] == '\n' || |s| == 1 then 1
    else
      var n := LineEnd(s[1..]);
      assert s[..n] == [s[0]] + s[1..][..n - 1];
      1 + n
  }

  /** `strings.SplitAfter` at line ends, without an empty last part. */
  function Split(s: string): seq<string> {
    if s == [] then [] else [s[..LineEnd(s)]] + Split(s[LineEnd(s)..])
  }

  function Join(lines: seq<string>): string {
    if lines == [] then [] else lines[0] + Join(lines[1..])
  }

  predicate IsLine(l: string) {
    l != [] && '\n' !in l[..|l| - 1]
  }

  predicate IsComplete(l: string) {
    IsLine(l) && l[|l| - 1] == '\n'
  }

  /** Every line but the last has its line end. */
  ghost predicate LinesOk(lines: seq<string>) {
    && (forall i :: 0 <= i < |lines| ==> IsLine(lines[i]))
    && (forall i :: 0 <= i < |lines| - 1 ==> IsComplete(lines[i]))
  }

  lemma SplitStep(s: string)
    requires s != []
    ensures var n := LineEnd(s);
            IsLine(s[..n]) && (n < |s| ==> IsComplete(s[..n])) && Split(s) == [s[..n]] + Split(s[n..])
  {
    hide LineEnd;
    var n := LineEnd(s);
    assert s[..n][..n - 1] == s[..n - 1];
  }

  /** Splitting loses nothing. */
  lemma {:induction false} JoinSplit(s: string)
    ensures Join(Split(s)) == s && LinesOk(Split(s))
  {
    hide LineEnd, Split, IsLine, IsComplete;
    if s == [] {
      SplitNone();
    } else {
      var n := LineEnd(s);
      SplitStep(s);
      JoinSplit(s[n..]);
      var rest := Split(s[n..]);
      assert ([s[..n]] + rest)[1..] == rest;
      assert s == s[..n] + s[n..];
      if n == |s| {
        assert s[n..] == [];
        SplitNone();
      }
    }
  }

  lemma SplitNone()
    ensures Split([]) == []
  {}

  lemma {:induction false} FirstLine(l: string, rest: string)
    requires IsLine(l) && (rest == [] || IsComplete(l))
    ensures LineEnd(l + rest) == |l|
  {
    if |l| > 1 {
      assert l[0] == l[..|l| - 1][0] != '\n';
      assert l[1..][..|l| - 2] == l[..|l| - 1][1..];
      FirstLine(l[1..], rest);
      assert (l + rest)[1..] == l[1..] + rest;
    }
  }

  /** Lines put together split into the same lines. */
  lemma {:induction false} SplitJoin(lines: seq<string>)
    requires LinesOk(lines)
    ensures Split(Join(lines)) == lines
  {
    if lines != [] {
      var rest := Join(lines[1..]);
      assert |lines| == 1 ==> lines[1..] == [] && rest == [];
      FirstLine(lines[0], rest);
      SplitJoin(lines[1..]);
      assert (lines[0] + rest)[..|lines[0]|] == lines[0] && (lines[0] + rest)[|lines[0]|..] == rest;
    }
  }

  lemma {:induction false} JoinConcat(a: seq<string>, b: seq<string>)
    ensures Join(a + b) == Join(a) + Join(b)
  {
    if a == [] {
      assert a + b == b;
    } else {
      assert (a + b)[1..] == a[1..] + b;
      JoinConcat(a[1..], b);
    }
  }
}

/** The parts of Go's strings package that the models need. */
module Text {

  /** The characters that Unicode calls white space. */
  predicate IsSpace(c: char) {
    || c in {'\t', '\n', '\U{0B}', '\U{0C}', '\r', ' ', '\U{85}', '\U{A0}', '\U{1680}'}
    || '\U{2000}' <= c <= '\U{200A}'
    || c in {'\U{2028}', '\U{2029}', '\U{202F}', '\U{205F}', '\U{3000}'}
  }

  function TrimLeftSpace(s: string): string {
    if s != [] && IsSpace(s[0]) then TrimLeftSpace(s[1..]) else s
  }

  function TrimRightSpace(s: string): string {
    if s != [] && IsSpace(s[|s| - 1]) then TrimRightSpace(s[..|s| - 1]) else s
  }

  function TrimSpace(s: string): string {
    TrimRightSpace(TrimLeftSpace(s))
  }

  predicate HasPrefix(s: string, prefix: string) {
    prefix <= s
  }

  predicate HasSuffix(s: string, suffix: string) {
    |suffix| <= |s| && s[|s| - |suffix|..] == suffix
  }

  function TrimSuffix(s: string, suffix: string): string {
    if HasSuffix(s, suffix) then s[..|s| - |suffix|] else s
  }

  /** `strings.TrimRight` with a cutset. */
  function TrimRight(s: string, cutset: string): string {
    if s != [] && s[|s| - 1] in cutset then TrimRight(s[..|s| - 1], cutset) else s
  }

  lemma {:induction false} TrimLeftSpaceTrims(s: string)
    ensures |TrimLeftSpace(s)| <= |s| && TrimLeftSpace(s) == s[|s| - |TrimLeftSpace(s)|..]
    ensures TrimLeftSpace(s) != [] ==> !IsSpace(TrimLeftSpace(s)[0])
  {
    if s != [] && IsSpace(s[0]) {
      TrimLeftSpaceTrims(s[1..]);
    }
  }

  lemma {:induction false} TrimRightSpaceTrims(s: string)
    ensures TrimRightSpace(s) <= s
    ensures TrimRightSpace(s) != [] ==> !IsSpace(TrimRightSpace(s)[|TrimRightSpace(s)| - 1])
  {
    if s != [] && IsSpace(s[|s| - 1]) {
      TrimRightSpaceTrims(s[..|s| - 1]);
    }
  }

  /** Trimming leaves text that starts and ends with no space. */
  lemma TrimSpaceTrims(s: string)
    ensures |TrimSpace(s)| <= |s|
    ensures TrimSpace(s) != [] ==> !IsSpace(TrimSpace(s)[0]) && !IsSpace(TrimSpace(s)[|TrimSpace(s)| - 1])
  {
    TrimLeftSpaceTrims(s);
    TrimRightSpaceTrims(TrimLeftSpace(s));
  }

  /** Text that starts and ends with no space is left alone. */
  lemma TrimmedStays(s: string)
    requires s == [] || (!IsSpace(s[0]) && !IsSpace(s[|s| - 1]))
    ensures TrimSpace(s) == s
  {}

  ghost predicate AllSpace(s: string) {
    forall i :: 0 <= i < |s| ==> IsSpace(s[i])
  }

  lemma {:induction false} TrimLeftSpaceIs(before: string, s: string)
    requires AllSpace(before) && (s == "" || !IsSpace(s[0]))
    ensures TrimLeftSpace(before + s) == s
  {
    if before == "" {
      assert before + s == s;
    } else {
      assert (before + s)[1..] == before[1..] + s;
      TrimLeftSpaceIs(before[1..], s);
    }
  }

  lemma {:induction false} TrimRightSpaceIs(s: string, after: string)
    requires AllSpace(after) && (s == "" || !IsSpace(s[|s| - 1]))
    ensures TrimRightSpace(s + after) == s
  {
    if after == "" {
      assert s + after == s;
    } else {
      var n := |after| - 1;
      assert (s + after)[..|s| + n] == s + after[..n];
      TrimRightSpaceIs(s, after[..n]);
    }
  }

  lemma {:induction false} AllTrimmed(s: string)
    requires AllSpace(s)
    ensures TrimLeftSpace(s) == ""
  {
    if s != "" {
      AllTrimmed(s[1..]);
    }
  }

  /** Trimming removes exactly the space around. */
  lemma TrimSpaceIs(before: string, s: string, after: string)
    requires AllSpace(before) && AllSpace(after)
    requires s == "" || (!IsSpace(s[0]) && !IsSpace(s[|s| - 1]))
    ensures TrimSpace(before + s + after) == s
  {
    if s == "" {
      assert before + s + after == before + after;
      AllTrimmed(before + after);
    } else {
      assert before + s + after == before + (s + after);
      TrimLeftSpaceIs(before, s + after);
      TrimRightSpaceIs(s, after);
    }
  }

  lemma {:induction false} TrimRightIs(s: string, after: string, cutset: string)
    requires (forall i :: 0 <= i < |after| ==> after[i] in cutset) && (s == "" || s[|s| - 1] !in cutset)
    ensures TrimRight(s + after, cutset) == s
  {
    if after == "" {
      assert s + after == s;
    } else {
      var n := |after| - 1;
      assert (s + after)[..|s| + n] == s + after[..n];
      TrimRightIs(s, after[..n], cutset);
    }
  }
}

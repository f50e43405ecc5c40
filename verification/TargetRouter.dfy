/**
 The rendezvous router that spreads images over registries
 (internal/builddaemon/target_router.go).

 SHA-256 scores are numbers (their bytes compare like big-endian numbers); the
 image reference library is a parameter.
 */
module TargetRouter {
  import opened Basics
  import opened Sorting
  import opened Text

  datatype Target = Target(prefix: string, host: string, pathPrefix: string)

  datatype Named = Named(path: string, suffix: string)

  /** `probe` gives the domain and path of a normalized reference; `named` an image's path and its tag and digest. */
  datatype Library = Library(
    probe: string -> Option<(string, string)>,
    named: string -> Option<Named>,
    score: (string, string) -> nat)

  /** A reference's domain holds no slash. */
  ghost predicate LibraryOk(lib: Library) {
    forall s :: lib.probe(s).Some? ==> '/' !in lib.probe(s).value.0
  }

  const MIN_ROUTING_TARGETS := 2
  const MAX_ROUTING_TARGETS := 32
  const PROBE := "buildctl-route-probe"

  // --------------------------------------------------------------------- parsing

  predicate Contains(s: string, part: string) {
    part <= s || (s != [] && Contains(s[1..], part))
  }

  function FirstComponent(s: string): string {
    if s == [] || s[0] == '/' then [] else [s[0]] + FirstComponent(s[1..])
  }

  function ParseTarget(lib: Library, raw: string): Result<Target> {
    var prefix := TrimRight(TrimSpace(raw), "/");
    var first := FirstComponent(prefix);
    if prefix == "" || Contains(prefix, "://") then Err("invalid routing target")
    else if first != "localhost" && '.' !in first && ':' !in first then Err("invalid routing target")
    else
      match lib.probe(prefix + "/" + PROBE + ":latest")
      case None => Err("invalid routing target")
      case Some((host, path)) =>
        if path == PROBE then Ok(Target(host, host, ""))
        else if !HasSuffix(path, "/" + PROBE) then Err("invalid routing target")
        else
          var pathPrefix := TrimSuffix(path, "/" + PROBE);
          Ok(Target(if pathPrefix == "" then host else host + "/" + pathPrefix, host, pathPrefix))
  }

  lemma {:induction false} ContainsIff(s: string, part: string)
    ensures Contains(s, part) <==> exists a, b :: s == a + part + b
  {
    if part <= s {
      assert s == [] + part + s[|part|..];
    } else if s != [] {
      ContainsIff(s[1..], part);
      if Contains(s[1..], part) {
        var a, b :| s[1..] == a + part + b;
        assert s == ([s[0]] + a) + part + b;
      }
      if a, b :| s == a + part + b {
        assert a == [] ==> a + part + b == part + b;
        assert s[1..] == a[1..] + part + b;
      }
    } else {
      assert forall a, b: string :: [] == a + part + b ==> |a + part + b| == 0;
    }
  }

  /** A component that can only be a registry: not the start of an image path. */
  predicate IsRegistry(first: string) {
    first == "localhost" || '.' in first || ':' in first
  }

  lemma {:induction false} FirstComponentCuts(first: string, rest: string)
    requires '/' !in first && (rest == "" || rest[0] == '/')
    ensures FirstComponent(first + rest) == first
  {
    if first == "" {
      assert first + rest == rest;
    } else {
      assert (first + rest)[1..] == first[1..] + rest;
      FirstComponentCuts(first[1..], rest);
    }
  }

  /**
   What a prefix is parsed to, with space around it and slashes behind it: it is
   refused unless it has no scheme and its first component is a registry; then
   the library's host and the path before the probed repository.
   */
  lemma PrefixParses(lib: Library, before: string, first: string, rest: string, slashes: string, after: string)
    requires AllSpace(before) && AllSpace(after) && forall i :: 0 <= i < |slashes| ==> slashes[i] == '/'
    requires '/' !in first && (rest == "" || rest[0] == '/')
    requires var prefix := first + rest;
      prefix != "" && !IsSpace(prefix[0]) && !IsSpace(prefix[|prefix| - 1]) && prefix[|prefix| - 1] != '/'
    ensures var prefix := first + rest;
      var r := ParseTarget(lib, before + (prefix + slashes) + after);
      var probed := lib.probe(prefix + "/buildctl-route-probe:latest");
      && (!IsRegistry(first) || (exists a, b :: prefix == a + "://" + b) || probed.None? ==> r.Err?)
      && (IsRegistry(first) && !(exists a, b :: prefix == a + "://" + b) && probed.Some? ==>
            var (host, path) := probed.value;
            && (path == "buildctl-route-probe" ==> r == Ok(Target(host, host, "")))
            && (forall p :: p != "" && path == p + "/buildctl-route-probe" ==> r == Ok(Target(host + "/" + p, host, p)))
            && (path != "buildctl-route-probe" && (forall p :: path != p + "/buildctl-route-probe") ==> r.Err?))
  {
    hide TrimSpace, TrimRight, Contains, FirstComponent;
    var prefix := first + rest;
    var text := prefix + slashes;
    TrimSpaceIs(before, text, after);
    TrimRightIs(prefix, slashes, "/");
    FirstComponentCuts(first, rest);
    ContainsIff(prefix, "://");
    assert prefix + "/" + PROBE + ":latest" == prefix + "/buildctl-route-probe:latest";
    var probed := lib.probe(prefix + "/buildctl-route-probe:latest");
    if probed.Some? {
      ProbedPath(probed.value.1);
    }
  }

  lemma ProbedPath(path: string)
    ensures HasSuffix(path, "/" + PROBE) <==> exists p :: path == p + "/buildctl-route-probe"
    ensures forall p :: path == p + "/buildctl-route-probe" ==> TrimSuffix(path, "/" + PROBE) == p
  {
    var suffix := "/" + PROBE;
    assert suffix == "/buildctl-route-probe";
    forall p | path == p + "/buildctl-route-probe"
      ensures HasSuffix(path, suffix) && TrimSuffix(path, suffix) == p
    {
      assert path == p + suffix;
      assert path[|p|..] == suffix && path[..|p|] == p;
    }
    if HasSuffix(path, suffix) {
      assert path == path[..|path| - |suffix|] + suffix;
    }
  }

  /** Nothing but space and slashes is refused. */
  lemma EmptyPrefixRefused(lib: Library, before: string, slashes: string, after: string)
    requires AllSpace(before) && AllSpace(after) && forall i :: 0 <= i < |slashes| ==> slashes[i] == '/'
    ensures ParseTarget(lib, before + slashes + after).Err?
  {
    TrimSpaceIs(before, slashes, after);
    TrimRightIs("", slashes, "/");
    assert "" + slashes == slashes;
  }

  ghost predicate TargetOk(t: Target) {
    '/' !in t.host && t.prefix == if t.pathPrefix == "" then t.host else t.host + "/" + t.pathPrefix
  }

  lemma ParsedTargetOk(lib: Library, raw: string)
    requires LibraryOk(lib)
    ensures ParseTarget(lib, raw).Ok? ==> TargetOk(ParseTarget(lib, raw).value)
  {}

  lemma {:induction false} FirstComponentIs(a: string, b: string)
    requires '/' !in a
    ensures FirstComponent(a + "/" + b) == a
  {
    if a == [] {
      assert a + "/" + b == "/" + b;
    } else {
      assert (a + "/" + b)[1..] == a[1..] + "/" + b;
      FirstComponentIs(a[1..], b);
    }
  }

  /** A target is known by its prefix. */
  lemma PrefixDetermines(a: Target, b: Target)
    requires TargetOk(a) && TargetOk(b) && a.prefix == b.prefix
    ensures a == b
  {
    var x, y := a.host + "/" + a.pathPrefix, b.host + "/" + b.pathPrefix;
    FirstComponentIs(a.host, a.pathPrefix);
    FirstComponentIs(b.host, b.pathPrefix);
    assert x[|a.host|] == '/' && y[|b.host|] == '/';
    assert a.pathPrefix == x[|a.host| + 1..] && b.pathPrefix == y[|b.host| + 1..];
  }

  predicate TargetLe(a: Target, b: Target) {
    StrLe(a.prefix, b.prefix)
  }

  lemma TargetLeTotal()
    ensures IsTotalPreorder(TargetLe)
  {
    StrLeTotal();
  }

  function Prefixes(ts: seq<Target>): seq<string> {
    seq(|ts|, i requires 0 <= i < |ts| => ts[i].prefix)
  }

  /** The targets of a list of prefixes, in the order given. */
  function Parsed(lib: Library, raws: seq<string>): Result<seq<Target>> {
    if raws == [] then Ok([])
    else
      match (Parsed(lib, raws[..|raws| - 1]), ParseTarget(lib, raws[|raws| - 1]))
      case (Ok(ts), Ok(t)) => if t.prefix in Prefixes(ts) then Err("duplicate routing target") else Ok(ts + [t])
      case (Err(e), _) => Err(e)
      case (_, Err(e)) => Err(e)
  }

  /** The router's targets: between two and thirty-two, all valid, no two alike, in prefix order. */
  method ParseRoutingTargets(lib: Library, raws: seq<string>) returns (r: Result<seq<Target>>)
    ensures r.Ok? <==> 2 <= |raws| <= 32 && Parsed(lib, raws).Ok?
    ensures r.Ok? ==> r.value == Sort(Parsed(lib, raws).value, TargetLe)
  {
    hide ParseTarget;
    if |raws| < MIN_ROUTING_TARGETS || |raws| > MAX_ROUTING_TARGETS {
      return Err("routing targets must contain between 2 and 32 registry prefixes");
    }
    var unique: set<string> := {};
    var targets: seq<Target> := [];
    for i := 0 to |raws|
      invariant Parsed(lib, raws[..i]) == Ok(targets)
      invariant forall p :: p in unique <==> p in Prefixes(targets)
    {
      assert raws[..i + 1][..i] == raws[..i];
      var target := ParseTarget(lib, raws[i]);
      if target.Err? {
        ErrorStays(lib, raws, i + 1);
        return Err(target.error);
      }
      if target.value.prefix in unique {
        ErrorStays(lib, raws, i + 1);
        return Err("duplicate routing target");
      }
      assert Prefixes(targets + [target.value]) == Prefixes(targets) + [target.value.prefix];
      unique := unique + {target.value.prefix};
      targets := targets + [target.value];
    }
    assert raws[..|raws|] == raws;
    r := Ok(Sort(targets, TargetLe));
  }

  lemma {:induction false} ErrorStays(lib: Library, raws: seq<string>, n: nat)
    requires n <= |raws| && Parsed(lib, raws[..n]).Err?
    ensures Parsed(lib, raws).Err?
  {
    hide ParseTarget;
    if n < |raws| {
      assert raws[..|raws| - 1][..n] == raws[..n];
      ErrorStays(lib, raws[..|raws| - 1], n);
    } else {
      assert raws[..n] == raws;
    }
  }

  // ------------------------------------------------------------------- selection

  /** `a` is chosen before `b`: a higher score, or the same score and the lesser prefix. */
  predicate Beats(score: (string, string) -> nat, digest: string, a: string, b: string) {
    score(a, digest) > score(b, digest) || (score(a, digest) == score(b, digest) && StrLe(a, b))
  }

  /** The choice among a set of prefixes, whatever order they are listed in. */
  ghost predicate IsChoice(score: (string, string) -> nat, digest: string, pool: set<string>, p: string) {
    p in pool && forall q :: q in pool ==> Beats(score, digest, p, q)
  }

  lemma ChoiceUnique(score: (string, string) -> nat, digest: string, pool: set<string>, p: string, q: string)
    requires IsChoice(score, digest, pool, p) && IsChoice(score, digest, pool, q)
    ensures p == q
  {
    assert Beats(score, digest, p, q) && Beats(score, digest, q, p);
    StrLeTotal();
  }

  function Pool(ts: seq<Target>): set<string> {
    set i | 0 <= i < |ts| :: ts[i].prefix
  }

  /** The running maximum selects the choice. */
  method Select(score: (string, string) -> nat, digest: string, targets: seq<Target>) returns (k: nat)
    requires targets != [] && Sorted(targets, TargetLe)
    ensures k < |targets| && IsChoice(score, digest, Pool(targets), targets[k].prefix)
  {
    StrLeTotal();
    k := 0;
    var selectedScore := score(targets[0].prefix, digest);
    for i := 1 to |targets|
      invariant k < i && selectedScore == score(targets[k].prefix, digest)
      invariant forall j :: 0 <= j < i ==> Beats(score, digest, targets[k].prefix, targets[j].prefix)
    {
      var s := score(targets[i].prefix, digest);
      assert TargetLe(targets[k], targets[i]);
      if s > selectedScore {
        k, selectedScore := i, s;
      }
    }
  }

  /** Adding a prefix leaves a digest where it is or moves it to the new one. */
  lemma AddingMovesOnlyToNew(score: (string, string) -> nat, digest: string, pool: set<string>, added: string,
                             before: string, after: string)
    requires IsChoice(score, digest, pool, before) && IsChoice(score, digest, pool + {added}, after)
    ensures after == before || after == added
  {
    if after != added {
      assert IsChoice(score, digest, pool, after);
      ChoiceUnique(score, digest, pool, before, after);
    }
  }

  /** Removing a prefix moves only the digests that were there. */
  lemma RemovingMovesOnlyItsOwn(score: (string, string) -> nat, digest: string, pool: set<string>, removed: string,
                                before: string, after: string)
    requires IsChoice(score, digest, pool, before) && IsChoice(score, digest, pool - {removed}, after)
    ensures before != removed ==> after == before
  {
    if before != removed {
      assert IsChoice(score, digest, pool - {removed}, before);
      ChoiceUnique(score, digest, pool - {removed}, before, after);
    }
  }

  // ------------------------------------------------------- order of configuration

  /** A list that parses holds valid targets, no two with the same prefix; the next lemma is the converse. */
  lemma {:induction false} ParsedTargets(lib: Library, raws: seq<string>)
    requires LibraryOk(lib) && Parsed(lib, raws).Ok?
    ensures var ts := Parsed(lib, raws).value;
      && |ts| == |raws|
      && (forall i :: 0 <= i < |ts| ==> TargetOk(ts[i]) && ParseTarget(lib, raws[i]) == Ok(ts[i]))
      && NoDup(Prefixes(ts))
  {
    hide ParseTarget, TargetOk, LibraryOk;
    if raws != [] {
      var front, last := raws[..|raws| - 1], raws[|raws| - 1];
      ParsedTargets(lib, front);
      ParsedTargetOk(lib, last);
      var ts := Parsed(lib, front).value;
      var t := ParseTarget(lib, last).value;
      assert Prefixes(ts + [t]) == Prefixes(ts) + [t.prefix];
      assert forall i :: 0 <= i < |front| ==> front[i] == raws[i];
    }
  }

  lemma {:induction false} TargetsParse(lib: Library, raws: seq<string>)
    requires forall i :: 0 <= i < |raws| ==> ParseTarget(lib, raws[i]).Ok?
    requires forall i, j :: 0 <= i < j < |raws| ==>
               ParseTarget(lib, raws[i]).value.prefix != ParseTarget(lib, raws[j]).value.prefix
    ensures Parsed(lib, raws).Ok? && |Parsed(lib, raws).value| == |raws|
    ensures forall i :: 0 <= i < |raws| ==> Ok(Parsed(lib, raws).value[i]) == ParseTarget(lib, raws[i])
  {
    hide ParseTarget;
    if raws != [] {
      var front, last := raws[..|raws| - 1], raws[|raws| - 1];
      assert forall i :: 0 <= i < |front| ==> front[i] == raws[i];
      TargetsParse(lib, front);
      var ts := Parsed(lib, front).value;
      assert forall i :: 0 <= i < |ts| ==> Prefixes(ts)[i] == ParseTarget(lib, raws[i]).value.prefix;
    }
  }

  lemma RawsDiffer(lib: Library, raws: seq<string>)
    requires LibraryOk(lib) && Parsed(lib, raws).Ok?
    ensures NoDup(raws)
  {
    hide ParseTarget;
    ParsedTargets(lib, raws);
    var ts := Parsed(lib, raws).value;
    forall i, j | 0 <= i < j < |raws|
      ensures raws[i] != raws[j]
    {
      assert Prefixes(ts)[i] != Prefixes(ts)[j];
    }
  }

  /** A list parses when some permutation of it does. */
  lemma PermutedParses(lib: Library, a: seq<string>, b: seq<string>)
    requires LibraryOk(lib) && multiset(a) == multiset(b) && Parsed(lib, a).Ok?
    ensures Parsed(lib, b).Ok?
  {
    hide ParseTarget, Parsed;
    ParsedTargets(lib, a);
    RawsDiffer(lib, a);
    var ta := Parsed(lib, a).value;
    forall j | 0 <= j < |b|
      ensures ParseTarget(lib, b[j]).Ok?
    {
      var i := Occurs(a, b, j);
    }
    forall i, j | 0 <= i < j < |b|
      ensures ParseTarget(lib, b[i]).value.prefix != ParseTarget(lib, b[j]).value.prefix
    {
      var p := Occurs(a, b, i);
      var q := Occurs(a, b, j);
      if p == q {
        NoDupOnce(a, b[i]);
        Once(b, b[i], i, j);
      }
      assert Prefixes(ta)[p] != Prefixes(ta)[q];
    }
    TargetsParse(lib, b);
  }

  lemma Occurs(a: seq<string>, b: seq<string>, j: nat) returns (i: nat)
    requires multiset(a) == multiset(b) && j < |b|
    ensures i < |a| && a[i] == b[j]
  {
    assert b[j] in multiset(a);
    i :| 0 <= i < |a| && a[i] == b[j];
  }

  lemma SameFirstTarget(a: seq<Target>, b: seq<Target>)
    requires Sorted(a, TargetLe) && Sorted(b, TargetLe) && multiset(a) == multiset(b) && a != [] && b != []
    requires forall i :: 0 <= i < |a| ==> TargetOk(a[i])
    ensures a[0] == b[0]
  {
    hide TargetOk;
    StrLeTotal();
    assert a[0] in multiset(b) && b[0] in multiset(a);
    var i :| 0 <= i < |b| && b[i] == a[0];
    var j :| 0 <= j < |a| && a[j] == b[0];
    assert TargetLe(a[0], b[0]) && TargetLe(b[0], a[0]);
    PrefixDetermines(a[0], b[0]);
  }

  /** Targets with distinct prefixes can be put in order in one way only. */
  lemma {:induction false} SameTargets(a: seq<Target>, b: seq<Target>)
    requires Sorted(a, TargetLe) && Sorted(b, TargetLe) && multiset(a) == multiset(b)
    requires forall i :: 0 <= i < |a| ==> TargetOk(a[i])
    ensures a == b
    decreases |a|
  {
    hide TargetOk, TargetLe;
    assert |a| == |multiset(a)| == |multiset(b)| == |b|;
    if a != [] {
      SameFirstTarget(a, b);
      TailElements(a);
      TailElements(b);
      SameTargets(a[1..], b[1..]);
      assert a == [a[0]] + a[1..] && b == [b[0]] + b[1..];
    }
  }

  lemma SortedTargetsOk(ts: seq<Target>)
    requires forall i :: 0 <= i < |ts| ==> TargetOk(ts[i])
    ensures var sorted := Sort(ts, TargetLe);
      Sorted(sorted, TargetLe) && multiset(sorted) == multiset(ts) && forall i :: 0 <= i < |sorted| ==>
              TargetOk(sorted[i])
  {
    TargetLeTotal();
    SortSorts(ts, TargetLe);
    var sorted := Sort(ts, TargetLe);
    forall i | 0 <= i < |sorted|
      ensures TargetOk(sorted[i])
    {
      assert sorted[i] in multiset(ts);
    }
  }

  lemma {:induction false} TargetsOnce(ts: seq<Target>, t: Target)
    requires NoDup(Prefixes(ts))
    ensures multiset(ts)[t] <= 1
  {
    if ts != [] {
      var front, last := ts[..|ts| - 1], ts[|ts| - 1];
      assert ts == front + [last];
      assert Prefixes(front) == Prefixes(ts)[..|front|];
      TargetsOnce(front, t);
      forall i | 0 <= i < |front|
        ensures front[i] != last
      {
        assert Prefixes(ts)[i] != Prefixes(ts)[|front|];
      }
    }
  }

  /** A permutation parses to the same targets. */
  lemma TargetFound(lib: Library, a: seq<string>, b: seq<string>, t: Target)
    requires LibraryOk(lib) && multiset(a) == multiset(b) && Parsed(lib, a).Ok? && Parsed(lib, b).Ok?
    requires t in Parsed(lib, a).value
    ensures t in Parsed(lib, b).value
  {
    hide ParseTarget, Parsed;
    ParsedTargets(lib, a);
    ParsedTargets(lib, b);
    var i :| 0 <= i < |a| && Parsed(lib, a).value[i] == t;
    var j := Occurs(b, a, i);
    assert Parsed(lib, b).value[j] == t;
  }

  /** The router does not depend on the order in which its prefixes are listed. */
  lemma OrderDoesNotMatter(lib: Library, a: seq<string>, b: seq<string>)
    requires LibraryOk(lib) && multiset(a) == multiset(b)
    ensures Parsed(lib, a).Ok? <==> Parsed(lib, b).Ok?
    ensures Parsed(lib, a).Ok? ==> Sort(Parsed(lib, a).value, TargetLe) == Sort(Parsed(lib, b).value, TargetLe)
  {
    hide ParseTarget, Parsed, Sort;
    if Parsed(lib, a).Ok? {
      PermutedParses(lib, a, b);
    } else if Parsed(lib, b).Ok? {
      PermutedParses(lib, b, a);
    }
    if Parsed(lib, a).Ok? {
      var ta, tb := Parsed(lib, a).value, Parsed(lib, b).value;
      ParsedTargets(lib, a);
      ParsedTargets(lib, b);
      forall t: Target
        ensures multiset(ta)[t] == multiset(tb)[t]
      {
        if t in ta {
          TargetFound(lib, a, b, t);
        }
        if t in tb {
          TargetFound(lib, b, a, t);
        }
        TargetsOnce(ta, t);
        TargetsOnce(tb, t);
      }
      assert multiset(ta) == multiset(tb);
      SortedTargetsOk(ta);
      SortedTargetsOk(tb);
      SameTargets(Sort(ta, TargetLe), Sort(tb, TargetLe));
    }
  }

  // --------------------------------------------------------------------- routing

  /** The image's path under a target's own path. */
  function PathUnder(t: Target, path: string): string {
    if t.pathPrefix != "" && path != t.pathPrefix && !HasPrefix(path, t.pathPrefix + "/") then t.pathPrefix + "/" + path
    else path
  }

  predicate IsLowerHex(c: char) {
    '0' <= c <= '9' || 'a' <= c <= 'f'
  }

  predicate IsHexDigest(value: string) {
    |value| == 64 && forall i :: 0 <= i < |value| ==> IsLowerHex(value[i])
  }

  function LowerChar(c: char): char {
    if 'A' <= c <= 'Z' then (c as int + 32) as char else c
  }

  function Lower(s: string): string {
    seq(|s|, i requires 0 <= i < |s| => LowerChar(s[i]))
  }

  function NormalizeDigest(value: string): Result<string> {
    var v := Lower(TrimSpace(value));
    if IsHexDigest(v) then Ok(v) else Err("context_sha256 must be a 64-character hexadecimal digest")
  }

  /** The number a hexadecimal digit of either case stands for, or none. */
  function HexValue(c: char): Option<nat> {
    if '0' <= c <= '9' then Some(c as nat - '0' as nat)
    else if 'a' <= c <= 'f' then Some(c as nat - 'a' as nat + 10)
    else if 'A' <= c <= 'F' then Some(c as nat - 'A' as nat + 10)
    else None
  }

  /** A digest is accepted if it has 64 hexadecimal digits of either case, and is then the same in lower case. */
  lemma DigestIff(value: string)
    ensures var v, r := TrimSpace(value), NormalizeDigest(value);
      && (r.Ok? <==> |v| == 64 && forall i :: 0 <= i < |v| ==> HexValue(v[i]).Some?)
      && (r.Ok? ==> |r.value| == 64 && forall i :: 0 <= i < 64 ==>
            HexValue(r.value[i]) == HexValue(v[i]) && !('A' <= r.value[i] <= 'F'))
  {
    hide TrimSpace, HexValue, LowerChar, IsLowerHex;
    var v := TrimSpace(value);
    var lower := Lower(v);
    forall i | 0 <= i < |v|
      ensures IsLowerHex(lower[i]) <==> HexValue(v[i]).Some?
      ensures HexValue(v[i]).Some? ==> HexValue(lower[i]) == HexValue(v[i]) && !('A' <= lower[i] <= 'F')
    {
      LowerHex(v[i]);
    }
  }

  lemma LowerHex(c: char)
    ensures IsLowerHex(LowerChar(c)) <==> HexValue(c).Some?
    ensures HexValue(c).Some? ==> HexValue(LowerChar(c)) == HexValue(c) && !('A' <= LowerChar(c) <= 'F')
  {}

  /**
   What becomes of a path at a target: it stays as it is if the target has no path
   of its own or the path is already there, and is put there otherwise.
   */
  ghost predicate IsPlaced(t: Target, path: string, q: string) {
    && (t.pathPrefix == "" ==> q == path)
    && (t.pathPrefix != "" ==>
          && (q == t.pathPrefix || t.pathPrefix + "/" <= q)
          && (q == path <==> path == t.pathPrefix || t.pathPrefix + "/" <= path)
          && (q != path ==> q == t.pathPrefix + "/" + path))
  }

  lemma PathIsPlaced(t: Target, path: string)
    ensures IsPlaced(t, path, PathUnder(t, path))
  {
    var q := t.pathPrefix + "/" + path;
    assert t.pathPrefix + "/" <= q && |q| > |path|;
  }

  function Routed(t: Target, n: Named): string {
    t.host + "/" + PathUnder(t, n.path) + n.suffix
  }

  /**
   What routing an image gives: an error without targets, for a malformed
   digest or for an image that does not parse; else the choice's host, the path
   under its own and the suffix.
   */
  ghost predicate RoutesTo(lib: Library, targets: seq<Target>, image: string, contextDigest: string, r: Result<string>,
                           chosen: Target) {
    && (r.Ok? <==> targets != [] && NormalizeDigest(contextDigest).Ok? && lib.named(TrimSpace(image)).Some?)
    && (r.Ok? ==>
          && chosen in targets
          && IsChoice(lib.score, NormalizeDigest(contextDigest).value, Pool(targets), chosen.prefix)
          && r.value == Routed(chosen, lib.named(TrimSpace(image)).value))
  }

  method Route(lib: Library, targets: seq<Target>, image: string, contextDigest: string)
    returns (r: Result<string>, ghost chosen: Target)
    requires Sorted(targets, TargetLe)
    ensures RoutesTo(lib, targets, image, contextDigest, r, chosen)
    ensures r.Ok? ==>
              var named := lib.named(TrimSpace(image)).value;
              exists q :: IsPlaced(chosen, named.path, q) && r.value == chosen.host + "/" + q + named.suffix
  {
    chosen := Target("", "", "");
    if |targets| == 0 {
      return Err("routing targets are not configured"), chosen;
    }
    var digest := NormalizeDigest(contextDigest);
    if digest.Err? {
      return Err(digest.error), chosen;
    }
    var named := lib.named(TrimSpace(image));
    if named.None? {
      return Err("parse image for registry routing"), chosen;
    }
    var k := Select(lib.score, digest.value, targets);
    chosen := targets[k];
    var path := named.value.path;
    if targets[k].pathPrefix != "" && path != targets[k].pathPrefix && !HasPrefix(path, targets[k].pathPrefix + "/") {
      path := targets[k].pathPrefix + "/" + path;
    }
    PathIsPlaced(targets[k], named.value.path);
    r := Ok(targets[k].host + "/" + path + named.value.suffix);
  }

  lemma PathUnderTwice(t: Target, path: string)
    ensures PathUnder(t, PathUnder(t, path)) == PathUnder(t, path)
  {
    assert t.pathPrefix + "/" <= t.pathPrefix + "/" + path;
  }

  // ------------------------------------------------------------ routers as configured

  /** The router that a list of prefixes is parsed to. */
  ghost function Router(lib: Library, raws: seq<string>): seq<Target>
    requires Parsed(lib, raws).Ok?
  {
    Sort(Parsed(lib, raws).value, TargetLe)
  }

  lemma RouterTargets(lib: Library, raws: seq<string>)
    requires LibraryOk(lib) && Parsed(lib, raws).Ok?
    ensures |Router(lib, raws)| == |raws| && Sorted(Router(lib, raws), TargetLe)
    ensures forall t :: t in Router(lib, raws) <==> t in Parsed(lib, raws).value
    ensures forall t :: t in Router(lib, raws) ==> TargetOk(t)
  {
    hide Parsed, ParseTarget, TargetOk, Sort;
    ParsedTargets(lib, raws);
    var ts := Parsed(lib, raws).value;
    SortedTargetsOk(ts);
    var sorted := Sort(ts, TargetLe);
    assert |sorted| == |multiset(sorted)| == |multiset(ts)| == |ts|;
    assert forall t :: t in sorted <==> t in multiset(sorted);
  }

  lemma PoolMembers(ts: seq<Target>, p: string)
    ensures p in Pool(ts) <==> exists t :: t in ts && t.prefix == p
  {
    if p in Pool(ts) {
      var i :| 0 <= i < |ts| && ts[i].prefix == p;
      assert ts[i] in ts;
    }
    if t :| t in ts && t.prefix == p {
      var i :| 0 <= i < |ts| && ts[i] == t;
    }
  }

  /** One prefix more in the list is one target more in the router. */
  lemma OneTargetMore(lib: Library, smaller: seq<string>, x: string, larger: seq<string>)
    requires LibraryOk(lib) && multiset(larger) == multiset(smaller + [x]) && Parsed(lib, larger).Ok?
    ensures Parsed(lib, smaller).Ok? && ParseTarget(lib, x).Ok?
    ensures forall t :: t in Router(lib, larger) <==> t in Router(lib, smaller) || t == ParseTarget(lib, x).value
    ensures Pool(Router(lib, larger)) == Pool(Router(lib, smaller)) + {ParseTarget(lib, x).value.prefix}
  {
    hide ParseTarget, Sort, Pool;
    PermutedParses(lib, larger, smaller + [x]);
    assert (smaller + [x])[..|smaller|] == smaller;
    var t' := ParseTarget(lib, x).value;
    assert Parsed(lib, smaller + [x]).value == Parsed(lib, smaller).value + [t'];
    OrderDoesNotMatter(lib, larger, smaller + [x]);
    RouterTargets(lib, smaller);
    RouterTargets(lib, smaller + [x]);
    forall p
      ensures p in Pool(Router(lib, larger)) <==> p in Pool(Router(lib, smaller)) + {t'.prefix}
    {
      PoolMembers(Router(lib, larger), p);
      PoolMembers(Router(lib, smaller), p);
      assert t' in Router(lib, larger);
    }
  }

  /** Routing is a function of the set of prefixes, the image and the digest. */
  lemma RoutingIsDetermined(lib: Library, a: seq<string>, b: seq<string>, image: string, digest: string,
                            r: Result<string>, chosen: Target, r': Result<string>, chosen': Target)
    requires LibraryOk(lib) && multiset(a) == multiset(b) && Parsed(lib, a).Ok? && Parsed(lib, b).Ok?
    requires RoutesTo(lib, Router(lib, a), image, digest, r, chosen)
    requires RoutesTo(lib, Router(lib, b), image, digest, r', chosen')
    ensures r.Ok? <==> r'.Ok?
    ensures r.Ok? ==> r' == r && chosen' == chosen
  {
    hide Parsed, Sort, Routed, NormalizeDigest, TargetOk;
    OrderDoesNotMatter(lib, a, b);
    RouterTargets(lib, a);
    if r.Ok? {
      ChoiceUnique(lib.score, NormalizeDigest(digest).value, Pool(Router(lib, a)), chosen.prefix, chosen'.prefix);
      PrefixDetermines(chosen, chosen');
    }
  }

  /**
   A target more, wherever it is listed, leaves the reference an image is routed
   to as it is or routes it to the new target.
   */
  lemma AddingReroutesOnlyToNew(lib: Library, smaller: seq<string>, x: string, larger: seq<string>, image: string,
                                digest: string,
                                before: Result<string>, was: Target, after: Result<string>, is': Target)
    requires LibraryOk(lib) && smaller != [] && multiset(larger) == multiset(smaller + [x])
    requires Parsed(lib, larger).Ok? && Parsed(lib, smaller).Ok?
    requires RoutesTo(lib, Router(lib, smaller), image, digest, before, was)
    requires RoutesTo(lib, Router(lib, larger), image, digest, after, is')
    ensures before.Ok? <==> after.Ok?
    ensures before.Ok? ==> after == before || Ok(is') == ParseTarget(lib, x)
  {
    hide Parsed, Sort, Routed, NormalizeDigest, TargetOk, ParseTarget, Pool;
    OneTargetMore(lib, smaller, x, larger);
    RouterTargets(lib, smaller);
    RouterTargets(lib, larger);
    assert |larger| == |multiset(larger)| == |multiset(smaller + [x])| == |smaller| + 1;
    if before.Ok? {
      var added := ParseTarget(lib, x).value;
      AddingMovesOnlyToNew(lib.score, NormalizeDigest(digest).value, Pool(Router(lib, smaller)), added.prefix,
          was.prefix, is'.prefix);
      if is'.prefix == was.prefix {
        PrefixDetermines(is', was);
      } else {
        PrefixDetermines(is', added);
      }
    }
  }

  /** A target less, wherever it was listed, reroutes only the images that were routed to it. */
  lemma RemovingReroutesOnlyItsOwn(lib: Library, smaller: seq<string>, x: string, larger: seq<string>, image: string,
                                   digest: string,
                                   before: Result<string>, was: Target, after: Result<string>, is': Target)
    requires LibraryOk(lib) && smaller != [] && multiset(larger) == multiset(smaller + [x])
    requires Parsed(lib, larger).Ok? && Parsed(lib, smaller).Ok?
    requires RoutesTo(lib, Router(lib, larger), image, digest, before, was)
    requires RoutesTo(lib, Router(lib, smaller), image, digest, after, is')
    ensures before.Ok? <==> after.Ok?
    ensures before.Ok? && Ok(was) != ParseTarget(lib, x) ==> after == before
  {
    hide RoutesTo, Parsed, Router, ParseTarget, LibraryOk;
    AddingReroutesOnlyToNew(lib, smaller, x, larger, image, digest, after, is', before, was);
  }

  // ------------------------------------------------------------------- routing twice

  const DOCKER_HUB := "docker.io"

  /** A path of one component at Docker Hub. */
  predicate IsOfficial(host: string, path: string) {
    host == DOCKER_HUB && '/' !in path
  }

  /** How the reference library normalizes a path: official images of Docker Hub are in `library`. */
  function Normalized(host: string, path: string): string {
    if IsOfficial(host, path) then "library/" + path else path
  }

  /** The library reads back what was written for an image, with its path normalized. */
  ghost predicate ReadsBack(lib: Library, t: Target, n: Named) {
    lib.named(TrimSpace(Routed(t, n))) == Some(Named(Normalized(t.host, PathUnder(t, n.path)), n.suffix))
  }

  /** The second routing chooses the same target. */
  lemma SameChoice(lib: Library, raws: seq<string>, image: string, image': string, digest: string,
                   r: Result<string>, chosen: Target, r': Result<string>, chosen': Target)
    requires LibraryOk(lib) && Parsed(lib, raws).Ok? && r.Ok? && r'.Ok?
    requires RoutesTo(lib, Router(lib, raws), image, digest, r, chosen)
    requires RoutesTo(lib, Router(lib, raws), image', digest, r', chosen')
    ensures chosen' == chosen
  {
    hide Parsed, Sort, NormalizeDigest, TargetOk, Routed;
    RouterTargets(lib, raws);
    ChoiceUnique(lib.score, NormalizeDigest(digest).value, Pool(Router(lib, raws)), chosen.prefix, chosen'.prefix);
    PrefixDetermines(chosen, chosen');
  }

  /**
   Routing an already routed reference with the same digest keeps the target. It
   changes nothing if and only if the reference is not a single-component path at
   Docker Hub; otherwise it puts the path in `library` under the target's own path.
   */
  lemma RoutingTwice(lib: Library, raws: seq<string>, image: string, digest: string,
                     r: Result<string>, chosen: Target, again: Result<string>, chosen': Target)
    requires LibraryOk(lib) && Parsed(lib, raws).Ok?
    requires RoutesTo(lib, Router(lib, raws), image, digest, r, chosen) && r.Ok?
    requires RoutesTo(lib, Router(lib, raws), r.value, digest, again, chosen')
    requires ReadsBack(lib, chosen, lib.named(TrimSpace(image)).value)
    ensures again.Ok? && chosen' == chosen
    ensures again == r <==> !IsOfficial(chosen.host, PathUnder(chosen, lib.named(TrimSpace(image)).value.path))
    ensures again.value == Routed(chosen, lib.named(TrimSpace(r.value)).value)
  {
    hide Parsed, Sort, NormalizeDigest, PathUnder, Router;
    SameChoice(lib, raws, image, r.value, digest, r, chosen, again, chosen');
    var n := lib.named(TrimSpace(image)).value;
    var path := PathUnder(chosen, n.path);
    PathUnderTwice(chosen, n.path);
    PathUnderLonger(chosen, "library/" + path);
    if IsOfficial(chosen.host, path) {
      var longer := PathUnder(chosen, "library/" + path);
      assert r.value == (chosen.host + "/") + path + n.suffix;
      assert again.value == (chosen.host + "/") + longer + n.suffix;
    }
  }

  lemma PathUnderLonger(t: Target, path: string)
    ensures |PathUnder(t, path)| >= |path|
  {}

  /** A slash in a path stays there. */
  lemma PathUnderKeepsSlash(t: Target, path: string)
    requires '/' in path
    ensures '/' in PathUnder(t, path)
  {
    assert '/' in t.pathPrefix + "/" + path;
  }

  /** A reference that was routed twice stays as it is. */
  lemma RoutingSettles(lib: Library, raws: seq<string>, image: string, digest: string,
                       first: Result<string>, chosen: Target, second: Result<string>, chosen': Target,
                       third: Result<string>, chosen'': Target)
    requires LibraryOk(lib) && Parsed(lib, raws).Ok?
    requires RoutesTo(lib, Router(lib, raws), image, digest, first, chosen) && first.Ok?
    requires RoutesTo(lib, Router(lib, raws), first.value, digest, second, chosen') && second.Ok?
    requires RoutesTo(lib, Router(lib, raws), second.value, digest, third, chosen'')
    requires ReadsBack(lib, chosen, lib.named(TrimSpace(image)).value)
    requires ReadsBack(lib, chosen, lib.named(TrimSpace(first.value)).value)
    ensures third == second
  {
    hide RoutesTo, Parsed, Router, PathUnder, LibraryOk, Routed;
    RoutingTwice(lib, raws, image, digest, first, chosen, second, chosen');
    FirstIsRead(lib, Router(lib, raws), image, digest, first, chosen);
    var n := lib.named(TrimSpace(image)).value;
    var path := PathUnder(chosen, n.path);
    var back := lib.named(TrimSpace(first.value)).value;
    RoutingTwice(lib, raws, first.value, digest, second, chosen', third, chosen'');
    PathUnderTwice(chosen, n.path);
    if IsOfficial(chosen.host, path) {
      assert '/' in "library/" + path;
      PathUnderKeepsSlash(chosen, "library/" + path);
    }
    assert back.path == Normalized(chosen.host, path);
  }

  lemma FirstIsRead(lib: Library, targets: seq<Target>, image: string, digest: string, r: Result<string>,
                    chosen: Target)
    requires RoutesTo(lib, targets, image, digest, r, chosen) && r.Ok?
    ensures lib.named(TrimSpace(image)).Some? && r.value == Routed(chosen, lib.named(TrimSpace(image)).value)
  {}

  lemma AgainIsRead(lib: Library, targets: seq<Target>, image: string, image': string, digest: string,
                    r: Result<string>, chosen: Target, again: Result<string>, chosen': Target)
    requires RoutesTo(lib, targets, image, digest, r, chosen) && r.Ok?
    requires RoutesTo(lib, targets, image', digest, again, chosen') && lib.named(TrimSpace(image')).Some?
    ensures again == Ok(Routed(chosen', lib.named(TrimSpace(image')).value))
  {}

  /** One image that the second routing moves: `myorg` at a target `docker.io/myorg`. */
  lemma OfficialNameMoves(lib: Library, raws: seq<string>, image: string, digest: string,
                          r: Result<string>, chosen: Target, again: Result<string>, chosen': Target)
    requires LibraryOk(lib) && Parsed(lib, raws).Ok?
    requires RoutesTo(lib, Router(lib, raws), image, digest, r, chosen) && r.Ok?
    requires RoutesTo(lib, Router(lib, raws), r.value, digest, again, chosen')
    requires chosen == Target("docker.io/myorg", DOCKER_HUB, "myorg")
    requires lib.named(TrimSpace(image)) == Some(Named("myorg", ""))
    requires lib.named("docker.io/myorg") == Some(Named("library/myorg", ""))
    ensures r.value == "docker.io/myorg" && again == Ok("docker.io/myorg/library/myorg")
  {
    hide RoutesTo, Parsed, Router, TrimSpace, Routed, LibraryOk;
    MyOrg(chosen);
    FirstIsRead(lib, Router(lib, raws), image, digest, r, chosen);
    AgainIsRead(lib, Router(lib, raws), image, r.value, digest, r, chosen, again, chosen');
    SameChoice(lib, raws, image, r.value, digest, r, chosen, again, chosen');
  }

  lemma MyOrg(t: Target)
    requires t == Target("docker.io/myorg", DOCKER_HUB, "myorg")
    ensures Routed(t, Named("myorg", "")) == "docker.io/myorg" == TrimSpace("docker.io/myorg")
    ensures Routed(t, Named("library/myorg", "")) == "docker.io/myorg/library/myorg"
  {
    hide TrimSpace;
    TrimmedStays("docker.io/myorg");
    var path := "library/myorg";
    assert path[0] == 'l' && t.pathPrefix[0] == 'm' && (t.pathPrefix + "/")[0] == 'm';
    assert PathUnder(t, path) == "myorg/" + path;
  }
}

/**
 How a batch is put together: specs grouped into jobs, and jobs filtered
 against the results of earlier runs (internal/buildbatch/build_specs.go).
 */
module BatchPlan {
  import opened Basics
  import opened Sorting
  import opened Text
  import opened Targets
  import opened Batch
  import opened BatchInvariants

  // ------------------------------------------------------------------ grouping

  /** Nydus before OCI, then by target. */
  predicate SpecLe(a: Spec, b: Spec) {
    if a.oci != b.oci then !a.oci else StrLe(a.target, b.target)
  }

  lemma SpecLeTotal()
    ensures IsTotalPreorder(SpecLe)
  {
    StrLeTotal();
    forall a, b, c | SpecLe(a, b) && SpecLe(b, c)
      ensures SpecLe(a, c)
    {
      assert a.oci == b.oci == c.oci ==> StrLe(a.target, c.target);
    }
  }

  /** The specs whose target belongs to a key, in the order given. */
  function GroupOf(specs: seq<Spec>, key: string): seq<Spec> {
    if specs == [] then []
    else
      var front, last := GroupOf(specs[..|specs| - 1], key), specs[|specs| - 1];
      if StripNydusV3Suffix(last.target) == key then front + [last] else front
  }

  function JobFor(specs: seq<Spec>, key: string): Job {
    var sorted := Sort(GroupOf(specs, key), SpecLe);
    var scheduleKey := if sorted != [] && TrimSpace(sorted[0].scheduleKey) != "" then sorted[0].scheduleKey else key;
    Job(key, scheduleKey, sorted)
  }

  /** The specs collected under their keys. */
  method GroupByKey(specs: seq<Spec>) returns (grouped: map<string, seq<Spec>>)
    ensures forall k :: k in grouped <==> GroupOf(specs, k) != []
    ensures forall k :: k in grouped ==> grouped[k] == GroupOf(specs, k)
  {
    grouped := map[];
    for i := 0 to |specs|
      invariant forall k :: k in grouped <==> GroupOf(specs[..i], k) != []
      invariant forall k :: k in grouped ==> grouped[k] == GroupOf(specs[..i], k)
    {
      assert specs[..i + 1][..i] == specs[..i];
      var key := StripNydusV3Suffix(specs[i].target);
      grouped := grouped[key := (if key in grouped then grouped[key] else []) + [specs[i]]];
    }
    assert specs[..|specs|] == specs;
  }

  /** The keys of a map, met in any order, then sorted. */
  method KeysInOrder(all: set<string>) returns (keys: seq<string>)
    ensures NoDup(keys) && Sorted(keys, StrLe) && forall k :: k in keys <==> k in all
  {
    keys := [];
    var rest := all;
    while rest != {}
      invariant NoDup(keys)
      invariant forall k :: k in all <==> k in keys || k in rest
      invariant forall k :: k in rest ==> k !in keys
      decreases |rest|
    {
      var k :| k in rest;
      keys := keys + [k];
      rest := rest - {k};
    }
    SortedKeys(keys);
    keys := Sort(keys, StrLe);
  }

  /** No OCI spec stands before a Nydus one, and within a format targets are in order. */
  ghost predicate InBuildOrder(specs: seq<Spec>) {
    forall a, b :: 0 <= a < b < |specs| ==>
      && !(specs[a].oci && !specs[b].oci)
      && (specs[a].oci == specs[b].oci ==> StrLe(specs[a].target, specs[b].target))
  }

  /** The specs of one target and format, in the order in which they stand. */
  ghost function Alike(specs: seq<Spec>, spec: Spec): seq<Spec> {
    Where(specs, (x: Spec) => x.oci == spec.oci && x.target == spec.target)
  }

  /** What a job is to be for the specs given. */
  ghost predicate IsJobOf(specs: seq<Spec>, job: Job) {
    && job.specs != [] && InBuildOrder(job.specs)
    && (forall spec :: spec in job.specs <==> spec in specs && StripNydusV3Suffix(spec.target) == job.key)
    && (forall spec: Spec :: StripNydusV3Suffix(spec.target) == job.key ==>
          Alike(job.specs, spec) == Alike(specs, spec))
    && job.scheduleKey == (if TrimSpace(job.specs[0].scheduleKey) != "" then job.specs[0].scheduleKey else job.key)
  }

  /**
   The jobs in key order: one for each key that some target belongs to, with
   exactly its specs in build order, and scheduled by the first one's schedule key
   unless that is blank.
   */
  method GroupBuildSpecs(specs: seq<Spec>) returns (jobs: seq<Job>)
    ensures NoDup(JobKeys(jobs)) && Sorted(JobKeys(jobs), StrLe)
    ensures forall key :: key in JobKeys(jobs) <==> GroupOf(specs, key) != []
    ensures forall spec :: spec in specs ==> StripNydusV3Suffix(spec.target) in JobKeys(jobs)
    ensures forall j :: 0 <= j < |jobs| ==> jobs[j] == JobFor(specs, jobs[j].key) && IsJobOf(specs, jobs[j])
  {
    hide IsJobOf;
    jobs := [];
    if |specs| == 0 {
      return;
    }
    var grouped := GroupByKey(specs);
    var keys := KeysInOrder(grouped.Keys);
    for i := 0 to |keys|
      invariant JobKeys(jobs) == keys[..i]
      invariant forall j :: 0 <= j < |jobs| ==> jobs[j] == JobFor(specs, jobs[j].key)
    {
      assert keys[..i + 1] == keys[..i] + [keys[i]];
      assert keys[i] in keys;
      var jobSpecs := Sort(grouped[keys[i]], SpecLe);
      var scheduleKey := keys[i];
      if |jobSpecs| > 0 && TrimSpace(jobSpecs[0].scheduleKey) != "" {
        scheduleKey := jobSpecs[0].scheduleKey;
      }
      jobs := jobs + [Job(keys[i], scheduleKey, jobSpecs)];
    }
    assert keys[..|keys|] == keys;
    forall j | 0 <= j < |jobs|
      ensures IsJobOf(specs, jobs[j])
    {
      assert JobKeys(jobs)[j] == jobs[j].key;
      JobIsJobOf(specs, jobs[j].key);
    }
    forall spec | spec in specs
      ensures StripNydusV3Suffix(spec.target) in JobKeys(jobs)
    {
      GroupCounts(specs, StripNydusV3Suffix(spec.target), spec);
    }
  }

  lemma {:induction false} WhereConcat<T>(a: seq<T>, b: seq<T>, p: T -> bool)
    ensures Where(a + b, p) == Where(a, p) + Where(b, p)
  {
    hide Where;
    if a == [] {
      assert a + b == b;
      WhereNone(p);
      assert [] + Where(b, p) == Where(b, p);
    } else {
      var x, rest := a[0], a[1..];
      assert a == [x] + rest;
      assert a + b == [x] + (rest + b);
      WhereConcat(rest, b, p);
      WhereCons(x, rest + b, p);
      WhereCons(x, rest, p);
      assert ([x] + Where(rest, p)) + Where(b, p) == [x] + (Where(rest, p) + Where(b, p));
    }
  }

  lemma WhereNone<T>(p: T -> bool)
    ensures Where([], p) == []
  {}

  lemma {:induction false} GroupWhere(specs: seq<Spec>, key: string, p: Spec -> bool)
    requires forall x :: p(x) ==> StripNydusV3Suffix(x.target) == key
    ensures Where(GroupOf(specs, key), p) == Where(specs, p)
  {
    if specs != [] {
      var front, last := specs[..|specs| - 1], specs[|specs| - 1];
      assert specs == front + [last];
      GroupWhere(front, key, p);
      WhereConcat(front, [last], p);
      WhereConcat(GroupOf(front, key), [last], p);
      WhereCons(last, [], p);
      assert [last] + [] == [last];
    }
  }

  lemma JobIsJobOf(specs: seq<Spec>, key: string)
    requires GroupOf(specs, key) != []
    ensures IsJobOf(specs, JobFor(specs, key))
  {
    hide Sort, StripNydusV3Suffix, TrimSpace, Where, StrLe, GroupOf;
    var job := JobFor(specs, key);
    SpecLeTotal();
    SortSorts(GroupOf(specs, key), SpecLe);
    forall spec
      ensures spec in job.specs <==> spec in specs && StripNydusV3Suffix(spec.target) == key
    {
      GroupCounts(specs, key, spec);
      assert spec in multiset(job.specs) <==> spec in multiset(GroupOf(specs, key));
    }
    forall a, b | 0 <= a < b < |job.specs|
      ensures && !(job.specs[a].oci && !job.specs[b].oci)
              && (job.specs[a].oci == job.specs[b].oci ==> StrLe(job.specs[a].target, job.specs[b].target))
    {
      assert SpecLe(job.specs[a], job.specs[b]);
    }
    forall spec: Spec | StripNydusV3Suffix(spec.target) == key
      ensures Alike(job.specs, spec) == Alike(specs, spec)
    {
      var p := (x: Spec) => x.oci == spec.oci && x.target == spec.target;
      TiedSpecs(spec);
      SortStable(GroupOf(specs, key), SpecLe, p);
      GroupWhere(specs, key, p);
    }
  }

  lemma TiedSpecs(spec: Spec)
    ensures forall a: Spec, b: Spec ::
              a.oci == spec.oci && a.target == spec.target && b.oci == spec.oci && b.target == spec.target ==>
                  SpecLe(a, b)
  {
    StrLeCases(spec.target, spec.target);
  }

  lemma SortedKeys(keys: seq<string>)
    requires NoDup(keys)
    ensures Sorted(Sort(keys, StrLe), StrLe) && NoDup(Sort(keys, StrLe))
    ensures forall k :: k in Sort(keys, StrLe) <==> k in keys
  {
    StrLeTotal();
    SortSorts(keys, StrLe);
    var sorted := Sort(keys, StrLe);
    assert forall k :: k in sorted <==> k in multiset(sorted);
    forall i, j | 0 <= i < j < |sorted|
      ensures sorted[i] != sorted[j]
    {
      NoDupOnce(keys, sorted[i]);
      if sorted[i] == sorted[j] {
        Once(sorted, sorted[i], i, j);
      }
    }
  }

  /** A job holds each of its key's specs as often as the list of specs, and no other spec. */
  lemma {:induction false} GroupCounts(specs: seq<Spec>, key: string, spec: Spec)
    ensures multiset(GroupOf(specs, key))[spec] == if StripNydusV3Suffix(spec.target) == key then multiset(specs)[spec]
            else 0
  {
    if specs != [] {
      assert specs == specs[..|specs| - 1] + [specs[|specs| - 1]];
      GroupCounts(specs[..|specs| - 1], key, spec);
    }
  }

  /** A job's specs are the group in build order; tied ones stay as they came. */
  lemma JobHoldsGroup(specs: seq<Spec>, key: string, spec: Spec)
    ensures var job := JobFor(specs, key);
      && Sorted(job.specs, SpecLe)
      && multiset(job.specs)[spec] == (if StripNydusV3Suffix(spec.target) == key then multiset(specs)[spec] else 0)
      && Belongs(key, job.specs)
      && (job.specs == [] <==> GroupOf(specs, key) == [])
  {
    SpecLeTotal();
    var job := JobFor(specs, key);
    SortSorts(GroupOf(specs, key), SpecLe);
    GroupCounts(specs, key, spec);
    forall i | 0 <= i < |job.specs|
      ensures StripNydusV3Suffix(job.specs[i].target) == key
    {
      assert job.specs[i] in multiset(job.specs);
      GroupCounts(specs, key, job.specs[i]);
    }
  }

  // ----------------------------------------------------------------- filtering

  /** The stored results; reading some of them may fail. */
  datatype Results = Results(entries: map<string, bool>, unreadable: set<string>)

  datatype Outcome = Failed | Succeeded

  datatype Verdict = Skip(outcome: Outcome) | Build(job: Job)

  /** The specs that are not stored as success. */
  function Pending(db: map<string, bool>, specs: seq<Spec>): seq<Spec> {
    if specs == [] then []
    else
      var front, last := Pending(db, specs[..|specs| - 1]), specs[|specs| - 1];
      if last.target in db && db[last.target] then front else front + [last]
  }

  /** What happens to a job: skipped as done, skipped as failed, or run with what is pending. */
  ghost function VerdictOf(db: map<string, bool>, skipFail: bool, job: Job): Verdict {
    if job.specs != [] && Stored(db, job.specs) then Skip(Succeeded)
    else if skipFail && HasFailure(db, job.specs) then Skip(Failed)
    else Verdict.Build(job.(specs := Pending(db, job.specs)))
  }

  ghost function Kept(db: map<string, bool>, skipFail: bool, jobs: seq<Job>): seq<Job> {
    if jobs == [] then []
    else
      var front, v := Kept(db, skipFail, jobs[..|jobs| - 1]), VerdictOf(db, skipFail, jobs[|jobs| - 1]);
      if v.Build? then front + [v.job] else front
  }

  ghost function Skipped(db: map<string, bool>, skipFail: bool, jobs: seq<Job>, outcome: Outcome): nat {
    if jobs == [] then 0
    else Skipped(db, skipFail, jobs[..|jobs| - 1], outcome)
         + (if VerdictOf(db, skipFail, jobs[|jobs| - 1]) == Skip(outcome) then 1 else 0)
  }

  /** What is known of the skipped jobs. */
  ghost function Existing(db: map<string, bool>, skipFail: bool, jobs: seq<Job>): map<string, Outcome> {
    if jobs == [] then map[]
    else
      var front, last := Existing(db, skipFail, jobs[..|jobs| - 1]), jobs[|jobs| - 1];
      var v := VerdictOf(db, skipFail, last);
      if v.Skip? then front[last.key := v.outcome] else front
  }

  lemma {:induction false} ExistingKeys(db: map<string, bool>, skipFail: bool, jobs: seq<Job>)
    ensures forall k :: k in Existing(db, skipFail, jobs) ==> k in JobKeys(jobs)
  {
    if jobs != [] {
      ExistingKeys(db, skipFail, jobs[..|jobs| - 1]);
      assert JobKeys(jobs) == JobKeys(jobs[..|jobs| - 1]) + [jobs[|jobs| - 1].key];
    }
  }

  /** A job has an outcome exactly when it is skipped, and it is the verdict's. */
  lemma {:induction false} ExistingIsVerdict(db: map<string, bool>, skipFail: bool, jobs: seq<Job>, j: nat)
    requires NoDup(JobKeys(jobs)) && j < |jobs|
    ensures match VerdictOf(db, skipFail, jobs[j])
      case Skip(outcome) =>
        jobs[j].key in Existing(db, skipFail, jobs) && Existing(db, skipFail, jobs)[jobs[j].key] == outcome
      case Build(_) => jobs[j].key !in Existing(db, skipFail, jobs)
  {
    hide VerdictOf;
    var front, last := jobs[..|jobs| - 1], jobs[|jobs| - 1];
    var keys := JobKeys(jobs);
    assert JobKeys(front) == keys[..|keys| - 1];
    ExistingKeys(db, skipFail, front);
    assert keys[|keys| - 1] == last.key && keys[j] == jobs[j].key;
    if j < |front| {
      ExistingIsVerdict(db, skipFail, front, j);
      assert front[j] == jobs[j];
    } else {
      assert last.key !in JobKeys(front);
    }
  }

  ghost predicate Readable(results: Results, specs: seq<Spec>) {
    forall i :: 0 <= i < |specs| ==> specs[i].target !in results.unreadable
  }

  lemma StoredStep(db: map<string, bool>, specs: seq<Spec>, i: nat)
    requires i < |specs|
    ensures Stored(db, specs[..i + 1]) <==> Stored(db, specs[..i]) && specs[i].target in db && db[specs[i].target]
    ensures HasFailure(db, specs[..i + 1]) <==>
            HasFailure(db, specs[..i]) || (specs[i].target in db && !db[specs[i].target])
  {
    var longer := specs[..i + 1];
    assert longer == specs[..i] + [specs[i]];
    if HasFailure(db, specs[..i]) {
      var k :| 0 <= k < i && specs[..i][k].target in db && !db[specs[..i][k].target];
      assert longer[k] == specs[..i][k];
    }
    if specs[i].target in db && !db[specs[i].target] {
      assert longer[i] == specs[i];
    }
  }

  /** Not stored as success. */
  function Open(db: map<string, bool>): Spec -> bool {
    (x: Spec) => !(x.target in db && db[x.target])
  }

  lemma {:induction false} PendingIsOpen(db: map<string, bool>, specs: seq<Spec>)
    ensures Pending(db, specs) == Where(specs, Open(db))
  {
    if specs != [] {
      var front, last := specs[..|specs| - 1], specs[|specs| - 1];
      assert specs == front + [last];
      PendingIsOpen(db, front);
      WhereConcat(front, [last], Open(db));
      WhereCons(last, [], Open(db));
      assert [last] + [] == [last];
    }
  }

  /** One job against the stored results. */
  method FilterJob(job: Job, results: Results, skipFail: bool) returns (r: Result<Verdict>)
    ensures r.Err? <==> !Readable(results, job.specs)
    ensures r.Ok? ==> r.value == VerdictOf(results.entries, skipFail, job)
    ensures r.Ok? ==> (r.value == Skip(Succeeded) <==> job.specs != [] && Stored(results.entries, job.specs))
    ensures r.Ok? ==> (r.value == Skip(Failed) <==> skipFail && HasFailure(results.entries, job.specs))
    ensures r.Ok? && r.value.Build? ==>
              && r.value.job.key == job.key && r.value.job.scheduleKey == job.scheduleKey
              && r.value.job.specs == Where(job.specs, Open(results.entries))
  {
    PendingIsOpen(results.entries, job.specs);
    var db := results.entries;
    var pending: seq<Spec> := [];
    var allSucceeded, anyFailed := |job.specs| > 0, false;
    for i := 0 to |job.specs|
      invariant Readable(results, job.specs[..i])
      invariant allSucceeded <==> job.specs != [] && Stored(db, job.specs[..i])
      invariant anyFailed <==> HasFailure(db, job.specs[..i])
      invariant !(skipFail && anyFailed) ==> pending == Pending(db, job.specs[..i])
    {
      var spec := job.specs[i];
      assert job.specs[..i + 1][..i] == job.specs[..i];
      assert job.specs[..i + 1] == job.specs[..i] + [spec];
      StoredStep(db, job.specs, i);
      if spec.target in results.unreadable {
        r := Err("read result");
        return;
      }
      if spec.target !in db {
        allSucceeded := false;
        pending := pending + [spec];
      } else if !db[spec.target] {
        allSucceeded := false;
        anyFailed := true;
        if !skipFail {
          pending := pending + [spec];
        }
      }
    }
    assert job.specs[..|job.specs|] == job.specs;
    if allSucceeded {
      r := Ok(Skip(Succeeded));
    } else if anyFailed && skipFail {
      r := Ok(Skip(Failed));
    } else {
      r := Ok(Verdict.Build(job.(specs := pending)));
    }
  }

  datatype Filtered = Filtered(jobs: seq<Job>, existing: map<string, Outcome>, succeeded: nat, failed: nat)

  /** How many jobs are known with this outcome. */
  ghost function Known(existing: map<string, Outcome>, outcome: Outcome): set<string> {
    set key | key in existing && existing[key] == outcome
  }

  /** Each kept job is one of the jobs given with some of its specs, in the same order. */
  ghost predicate KeptFrom(jobs: seq<Job>, kept: seq<Job>, db: map<string, bool>, at: seq<nat>) {
    && |at| == |kept| && (forall a, b :: 0 <= a < b < |at| ==> at[a] < at[b])
    && forall k :: 0 <= k < |kept| ==> KeptAt(jobs, db, kept[k], at[k])
  }

  ghost predicate KeptAt(jobs: seq<Job>, db: map<string, bool>, job: Job, at: nat) {
    && at < |jobs| && job.key == jobs[at].key && job.scheduleKey == jobs[at].scheduleKey
    && job.specs == Where(jobs[at].specs, Open(db))
  }

  lemma {:induction false} KeptIsFrom(db: map<string, bool>, skipFail: bool, jobs: seq<Job>) returns (at: seq<nat>)
    ensures KeptFrom(jobs, Kept(db, skipFail, jobs), db, at)
    ensures forall j: nat :: j in at <==> j < |jobs| && VerdictOf(db, skipFail, jobs[j]).Build?
  {
    hide KeptAt, VerdictOf;
    at := [];
    if jobs != [] {
      var n := |jobs| - 1;
      var front := KeptIsFrom(db, skipFail, jobs[..n]);
      assert forall j :: 0 <= j < n ==> jobs[..n][j] == jobs[j];
      assert forall k :: 0 <= k < |front| ==> front[k] in front;
      var kept := Kept(db, skipFail, jobs[..n]);
      forall k | 0 <= k < |kept|
        ensures KeptAt(jobs, db, kept[k], front[k])
      {
        KeptLater(jobs, n, db, kept[k], front[k]);
      }
      at := front;
      if VerdictOf(db, skipFail, jobs[n]).Build? {
        KeptLast(jobs, db, skipFail);
        at := front + [n];
      }
    }
  }

  lemma KeptLater(jobs: seq<Job>, n: nat, db: map<string, bool>, job: Job, at: nat)
    requires n <= |jobs| && KeptAt(jobs[..n], db, job, at)
    ensures KeptAt(jobs, db, job, at)
  {}

  lemma KeptLast(jobs: seq<Job>, db: map<string, bool>, skipFail: bool)
    requires jobs != [] && VerdictOf(db, skipFail, jobs[|jobs| - 1]).Build?
    ensures KeptAt(jobs, db, VerdictOf(db, skipFail, jobs[|jobs| - 1]).job, |jobs| - 1)
  {
    PendingIsOpen(db, jobs[|jobs| - 1].specs);
  }

  lemma OneMoreKnown(existing: map<string, Outcome>, key: string, added: Outcome, outcome: Outcome)
    requires key !in existing
    ensures |Known(existing[key := added], outcome)| == |Known(existing, outcome)| + (if added == outcome then 1 else 0)
  {
    var before, after := Known(existing, outcome), Known(existing[key := added], outcome);
    assert key !in before;
    if added == outcome {
      assert after == before + {key};
    } else {
      assert after == before;
    }
  }

  lemma {:induction false} SkippedAreKnown(db: map<string, bool>, skipFail: bool, jobs: seq<Job>, outcome: Outcome)
    requires NoDup(JobKeys(jobs))
    ensures Skipped(db, skipFail, jobs, outcome) == |Known(Existing(db, skipFail, jobs), outcome)|
  {
    hide VerdictOf;
    if jobs != [] {
      var front, last := jobs[..|jobs| - 1], jobs[|jobs| - 1];
      var keys := JobKeys(jobs);
      assert JobKeys(front) == keys[..|keys| - 1] && keys[|keys| - 1] == last.key;
      SkippedAreKnown(db, skipFail, front, outcome);
      ExistingKeys(db, skipFail, front);
      assert last.key !in JobKeys(front);
      var verdict := VerdictOf(db, skipFail, last);
      if verdict.Skip? {
        OneMoreKnown(Existing(db, skipFail, front), last.key, verdict.outcome, outcome);
      }
    } else {
      assert Known(Existing(db, skipFail, jobs), outcome) == {};
    }
  }

  /**
   The jobs that still have something to do, and what is known of the others. A
   job that is kept keeps its key, its schedule key and its place.
   */
  method FilterBuildJobs(jobs: seq<Job>, results: Results, skipFail: bool)
    returns (r: Result<Filtered>, ghost at: seq<nat>)
    ensures r.Err? <==> exists j :: 0 <= j < |jobs| && !Readable(results, jobs[j].specs)
    ensures r.Ok? ==> r.value == FilteredBy(results.entries, skipFail, jobs)
    ensures r.Ok? ==> KeptFrom(jobs, r.value.jobs, results.entries, at)
    ensures r.Ok? ==> forall j: nat :: j in at <==> j < |jobs| && VerdictOf(results.entries, skipFail, jobs[j]).Build?
    ensures r.Ok? && NoDup(JobKeys(jobs)) ==>
              && r.value.succeeded == |Known(r.value.existing, Succeeded)|
              && r.value.failed == |Known(r.value.existing, Failed)|
  {
    hide VerdictOf, Readable, KeptFrom;
    at := KeptIsFrom(results.entries, skipFail, jobs);
    if NoDup(JobKeys(jobs)) {
      SkippedAreKnown(results.entries, skipFail, jobs, Succeeded);
      SkippedAreKnown(results.entries, skipFail, jobs, Failed);
    }
    ghost var db := results.entries;
    var out := Filtered([], map[], 0, 0);
    for i := 0 to |jobs|
      invariant forall j :: 0 <= j < i ==> Readable(results, jobs[j].specs)
      invariant out == FilteredBy(db, skipFail, jobs[..i])
    {
      assert jobs[..i + 1][..i] == jobs[..i];
      var v := FilterJob(jobs[i], results, skipFail);
      match v
      case Err(e) => return Err(e), at;
      case Ok(Skip(Succeeded)) =>
        out := out.(existing := out.existing[jobs[i].key := Succeeded], succeeded := out.succeeded + 1);
      case Ok(Skip(Failed)) =>
        out := out.(existing := out.existing[jobs[i].key := Failed], failed := out.failed + 1);
      case Ok(Build(job)) =>
        out := out.(jobs := out.jobs + [job]);
    }
    assert jobs[..|jobs|] == jobs;
    r := Ok(out);
  }

  ghost function FilteredBy(db: map<string, bool>, skipFail: bool, jobs: seq<Job>): Filtered {
    Filtered(Kept(db, skipFail, jobs), Existing(db, skipFail, jobs),
             Skipped(db, skipFail, jobs, Succeeded), Skipped(db, skipFail, jobs, Failed))
  }
}

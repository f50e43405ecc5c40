/** A later run of the same batch picks up where an earlier one ended. */
module BatchResume {
  import opened Basics
  import opened Targets
  import opened Batch
  import opened BatchInvariants
  import opened BatchTheorems
  import opened BatchPlan
  import opened BatchDropped

  /** Some spec of the jobs has the target. */
  ghost predicate IsTarget(jobs: seq<Job>, t: string) {
    exists j, i :: 0 <= j < |jobs| && 0 <= i < |jobs[j].specs| && jobs[j].specs[i].target == t
  }

  /** Results of other targets are as they were. */
  ghost predicate Untouched(jobs: seq<Job>, db: map<string, bool>, db': map<string, bool>) {
    forall t :: !IsTarget(jobs, t) ==> (t in db <==> t in db') && (t in db ==> db[t] == db'[t])
  }

  lemma {:induction false} SpecsAreTargets(jobs: seq<Job>, key: string, i: nat)
    requires i < |Specs(jobs, key)|
    ensures IsTarget(jobs, Specs(jobs, key)[i].target)
  {
    var t := Specs(jobs, key)[i].target;
    if jobs[0].key == key {
      assert jobs[0].specs[i].target == t;
    } else {
      SpecsAreTargets(jobs[1..], key, i);
      var j, k :| 0 <= j < |jobs[1..]| && 0 <= k < |jobs[1..][j].specs| && jobs[1..][j].specs[k].target == t;
      assert jobs[j + 1].specs[k].target == t;
    }
  }

  lemma StepTouches(cfg: Config, s: State, e: Event)
    requires Enabled(cfg, s, e) && AllItemsOk(cfg, s)
    ensures Untouched(cfg.jobs, s.db, Next(cfg, s, e).db)
  {
    hide IsTarget, Untouched, TaskOk, EntryOk, WorkerOk;
    if e.Work? && e.action == Store(false) {
      StoresOwnTarget(cfg, s, s.flight[e.i]);
      UntouchedUpdate(cfg.jobs, s.db, s.flight[e.i].task.job.specs[s.flight[e.i].idx].target, s.flight[e.i].pc.ok);
    } else {
      UntouchedSelf(cfg.jobs, s.db);
    }
  }

  lemma StoresOwnTarget(cfg: Config, s: State, w: Worker)
    requires WorkerOk(cfg, s.db, s.log, w) && w.idx < |w.task.job.specs|
    ensures IsTarget(cfg.jobs, w.task.job.specs[w.idx].target)
  {
    hide IsTarget, DoneStored, HasFailure, LogBefore, Builds, Belongs;
    var all := Specs(cfg.jobs, w.task.job.key);
    var n := |all| - |w.task.job.specs| + w.idx;
    assert all[n] == w.task.job.specs[w.idx];
    SpecsAreTargets(cfg.jobs, w.task.job.key, n);
  }

  lemma UntouchedUpdate(jobs: seq<Job>, db: map<string, bool>, t: string, ok: bool)
    requires IsTarget(jobs, t)
    ensures Untouched(jobs, db, db[t := ok])
  {
    hide IsTarget;
  }

  /** In every run only results of the batch's own targets change. */
  lemma {:induction false} RunTouches(cfg: Config, db: map<string, bool>, states: seq<State>, events: seq<Event>,
                                      k: nat)
    requires ConfigOk(cfg) && IsRun(cfg, db, states, events) && k < |states|
    ensures Untouched(cfg.jobs, db, states[k].db)
  {
    hide Inv, Enabled, Next, ConfigOk, Untouched, AllItemsOk;
    if k == 0 {
      UntouchedSelf(cfg.jobs, db);
    } else {
      RunTouches(cfg, db, states, events, k - 1);
      RunInv(cfg, db, states, events, k - 1);
      ItemsHold(cfg, states[k - 1]);
      assert states[k - 1 + 1] == Next(cfg, states[k - 1], events[k - 1]);
      StepTouches(cfg, states[k - 1], events[k - 1]);
      UntouchedTransitive(cfg.jobs, db, states[k - 1].db, states[k].db);
    }
  }

  lemma UntouchedSelf(jobs: seq<Job>, db: map<string, bool>)
    ensures Untouched(jobs, db, db)
  {}

  lemma UntouchedTransitive(jobs: seq<Job>, a: map<string, bool>, b: map<string, bool>, c: map<string, bool>)
    requires Untouched(jobs, a, b) && Untouched(jobs, b, c)
    ensures Untouched(jobs, a, c)
  {
    hide IsTarget;
  }

  // ------------------------------------------------------------- the jobs kept

  lemma {:induction false} PendingMembers(db: map<string, bool>, specs: seq<Spec>)
    ensures forall x :: x in Pending(db, specs) <==> x in specs && !(x.target in db && db[x.target])
  {
    if specs != [] {
      assert specs == specs[..|specs| - 1] + [specs[|specs| - 1]];
      PendingMembers(db, specs[..|specs| - 1]);
    }
  }

  /** The jobs kept are those with a build verdict, in the same order. */
  lemma {:induction false} KeptJobs(db: map<string, bool>, skipFail: bool, jobs: seq<Job>)
    requires NoDup(JobKeys(jobs))
    ensures NoDup(JobKeys(Kept(db, skipFail, jobs)))
    ensures forall v :: v in Kept(db, skipFail, jobs) <==>
              exists j :: 0 <= j < |jobs| && VerdictOf(db, skipFail, jobs[j]) == Verdict.Build(v)
  {
    hide VerdictOf;
    if jobs != [] {
      var front, last := jobs[..|jobs| - 1], jobs[|jobs| - 1];
      var keys := JobKeys(jobs);
      assert JobKeys(front) == keys[..|keys| - 1];
      KeptJobs(db, skipFail, front);
      assert forall j :: 0 <= j < |front| ==> front[j] == jobs[j];
      var kept := Kept(db, skipFail, front);
      var v := VerdictOf(db, skipFail, last);
      if v.Build? {
        forall k | 0 <= k < |kept|
          ensures kept[k].key != v.job.key
        {
          assert kept[k] in kept;
          var j :| 0 <= j < |front| && VerdictOf(db, skipFail, front[j]) == Verdict.Build(kept[k]);
          VerdictKey(db, skipFail, front[j]);
          VerdictKey(db, skipFail, last);
          assert keys[j] != keys[|keys| - 1];
        }
        assert Kept(db, skipFail, jobs) == kept + [v.job];
        assert JobKeys(kept + [v.job]) == JobKeys(kept) + [v.job.key];
      }
    }
  }

  lemma VerdictKey(db: map<string, bool>, skipFail: bool, job: Job)
    ensures var v := VerdictOf(db, skipFail, job);
      v.Build? ==> v.job.key == job.key && v.job.specs == Pending(db, job.specs)
  {}

  /** Jobs as grouping makes them. */
  ghost predicate Grouped(jobs: seq<Job>) {
    && NoDup(JobKeys(jobs))
    && forall j :: 0 <= j < |jobs| ==> jobs[j].specs != [] && Belongs(jobs[j].key, jobs[j].specs)
  }

  /** What grouping makes of any list of specs is grouped. */
  lemma GroupingIsGrouped(specs: seq<Spec>, jobs: seq<Job>)
    requires NoDup(JobKeys(jobs))
    requires forall j :: 0 <= j < |jobs| ==> jobs[j] == JobFor(specs, jobs[j].key)
    requires forall key :: key in JobKeys(jobs) ==> GroupOf(specs, key) != []
    ensures Grouped(jobs)
  {
    hide JobFor, GroupOf;
    forall j | 0 <= j < |jobs|
      ensures jobs[j].specs != [] && Belongs(jobs[j].key, jobs[j].specs)
    {
      assert JobKeys(jobs)[j] == jobs[j].key;
      JobHoldsGroup(specs, jobs[j].key, Spec("", "", "", false));
    }
  }

  lemma KeptJob(db: map<string, bool>, skipFail: bool, jobs: seq<Job>, i: nat) returns (j: nat)
    requires Grouped(jobs) && i < |Kept(db, skipFail, jobs)|
    ensures j < |jobs| && VerdictOf(db, skipFail, jobs[j]) == Verdict.Build(Kept(db, skipFail, jobs)[i])
    ensures Belongs(Kept(db, skipFail, jobs)[i].key, Kept(db, skipFail, jobs)[i].specs)
  {
    hide VerdictOf;
    KeptJobs(db, skipFail, jobs);
    var job := Kept(db, skipFail, jobs)[i];
    assert job in Kept(db, skipFail, jobs);
    var k :| 0 <= k < |jobs| && VerdictOf(db, skipFail, jobs[k]) == Verdict.Build(job);
    j := k;
    VerdictKey(db, skipFail, jobs[j]);
    PendingMembers(db, jobs[j].specs);
    assert forall m :: 0 <= m < |job.specs| ==> job.specs[m] in jobs[j].specs;
  }

  lemma KeptIsConfigOk(db: map<string, bool>, skipFail: bool, jobs: seq<Job>, retry: nat, failfast: bool,
                       concurrency: nat, workers: nat)
    requires Grouped(jobs) && concurrency >= 1 && workers >= 1
    ensures ConfigOk(Config(Kept(db, skipFail, jobs), retry, failfast, concurrency, workers))
  {
    KeptJobs(db, skipFail, jobs);
    forall i | 0 <= i < |Kept(db, skipFail, jobs)|
      ensures Belongs(Kept(db, skipFail, jobs)[i].key, Kept(db, skipFail, jobs)[i].specs)
    {
      var _ := KeptJob(db, skipFail, jobs, i);
    }
  }

  /** A target of one job is a target of the kept jobs only through that job's own verdict. */
  lemma TargetOfKept(db: map<string, bool>, skipFail: bool, jobs: seq<Job>, j: nat, i: nat)
    requires Grouped(jobs) && j < |jobs| && i < |jobs[j].specs|
    requires IsTarget(Kept(db, skipFail, jobs), jobs[j].specs[i].target)
    ensures VerdictOf(db, skipFail, jobs[j]).Build?
    ensures var t := jobs[j].specs[i].target; !(t in db && db[t])
  {
    hide VerdictOf;
    var kept := Kept(db, skipFail, jobs);
    var t := jobs[j].specs[i].target;
    var a, b :| 0 <= a < |kept| && 0 <= b < |kept[a].specs| && kept[a].specs[b].target == t;
    var o := KeptJob(db, skipFail, jobs, a);
    VerdictKey(db, skipFail, jobs[o]);
    assert jobs[o].key == StripNydusV3Suffix(t) == jobs[j].key;
    assert JobKeys(jobs)[o] == JobKeys(jobs)[j];
    PendingMembers(db, jobs[o].specs);
    assert kept[a].specs[b] in Pending(db, jobs[o].specs);
  }

  // ------------------------------------------------------------------ the next run

  /** A skipped job is skipped again. */
  lemma SkippedAgain(db: map<string, bool>, db': map<string, bool>, skipFail: bool, jobs: seq<Job>, j: nat)
    requires Grouped(jobs) && j < |jobs| && Untouched(Kept(db, skipFail, jobs), db, db')
    requires VerdictOf(db, skipFail, jobs[j]).Skip?
    ensures VerdictOf(db', skipFail, jobs[j]) == VerdictOf(db, skipFail, jobs[j])
  {
    var specs := jobs[j].specs;
    forall i | 0 <= i < |specs|
      ensures (specs[i].target in db <==> specs[i].target in db')
      ensures (specs[i].target in db ==> db[specs[i].target] == db'[specs[i].target])
    {
      if IsTarget(Kept(db, skipFail, jobs), specs[i].target) {
        TargetOfKept(db, skipFail, jobs, j, i);
      }
    }
    if HasFailure(db, specs) {
      var i :| 0 <= i < |specs| && specs[i].target in db && !db[specs[i].target];
      assert specs[i].target in db' && !db'[specs[i].target];
    }
    if HasFailure(db', specs) {
      var i :| 0 <= i < |specs| && specs[i].target in db' && !db'[specs[i].target];
      assert specs[i].target in db && !db[specs[i].target];
    }
  }

  /** A spec that was not pending is still stored as success. */
  lemma DoneStaysDone(db: map<string, bool>, db': map<string, bool>, skipFail: bool, jobs: seq<Job>, j: nat, i: nat)
    requires Grouped(jobs) && j < |jobs| && i < |jobs[j].specs| && Untouched(Kept(db, skipFail, jobs), db, db')
    requires var t := jobs[j].specs[i].target; t in db && db[t]
    ensures var t := jobs[j].specs[i].target; t in db' && db'[t]
  {
    hide IsTarget, Kept, Grouped;
    if IsTarget(Kept(db, skipFail, jobs), jobs[j].specs[i].target) {
      TargetOfKept(db, skipFail, jobs, j, i);
    }
  }

  /** A job that was run is done when what was pending is stored as success. */
  lemma BuiltJobIsDone(db: map<string, bool>, db': map<string, bool>, skipFail: bool, jobs: seq<Job>, j: nat)
    requires Grouped(jobs) && j < |jobs| && Untouched(Kept(db, skipFail, jobs), db, db')
    requires Stored(db', Pending(db, jobs[j].specs))
    ensures VerdictOf(db', skipFail, jobs[j]) == Skip(Succeeded)
  {
    hide IsTarget, Kept, Pending, Untouched;
    var specs := jobs[j].specs;
    PendingMembers(db, specs);
    forall i | 0 <= i < |specs|
      ensures specs[i].target in db' && db'[specs[i].target]
    {
      if specs[i].target in db && db[specs[i].target] {
        DoneStaysDone(db, db', skipFail, jobs, j, i);
      } else {
        assert specs[i] in Pending(db, specs);
      }
    }
    assert Stored(db', specs);
  }

  /** A job that was run and failed is skipped only if failed targets are to be skipped. */
  lemma FailedJobAgain(db: map<string, bool>, db': map<string, bool>, skipFail: bool, job: Job)
    requires HasFailure(db', Pending(db, job.specs))
    ensures VerdictOf(db', skipFail, job).Skip? == skipFail
  {
    hide Pending;
    PendingMembers(db, job.specs);
    var pending := Pending(db, job.specs);
    var i :| 0 <= i < |pending| && pending[i].target in db' && !db'[pending[i].target];
    assert pending[i] in job.specs;
    var m :| 0 <= m < |job.specs| && job.specs[m] == pending[i];
    assert !Stored(db', job.specs) && HasFailure(db', job.specs);
  }

  /**
   After an undisturbed run without fail-fast, filtering the same jobs against
   the resulting store leaves nothing to do exactly when the run returned nil
   or failed targets are to be skipped.
   */
  lemma NextRunHasNothingToDo(jobs: seq<Job>, skipFail: bool, retry: nat, concurrency: nat, workers: nat,
                              db: map<string, bool>, states: seq<State>, events: seq<Event>)
    requires Grouped(jobs) && concurrency >= 1 && workers >= 1
    requires IsRun(Config(Kept(db, skipFail, jobs), retry, false, concurrency, workers), db, states, events)
    requires Undisturbed(events) && states[|events|].main.Done?
    ensures Kept(states[|events|].db, skipFail, jobs) == [] <==> ReturnsNil(states[|events|]) || skipFail
  {
    var cfg := Config(Kept(db, skipFail, jobs), retry, false, concurrency, workers);
    var s := states[|events|];
    KeptIsConfigOk(db, skipFail, jobs, retry, false, concurrency, workers);
    CleanRunOutcome(cfg, db, states, events);
    RunTouches(cfg, db, states, events, |events|);
    if ReturnsNil(s) || skipFail {
      NothingKept(db, s.db, skipFail, jobs);
    } else {
      SomethingKept(db, s.db, jobs);
    }
  }

  lemma VerdictAgain(db: map<string, bool>, db': map<string, bool>, skipFail: bool, jobs: seq<Job>, j: nat)
    requires Grouped(jobs) && j < |jobs| && Untouched(Kept(db, skipFail, jobs), db, db')
    requires forall i :: 0 <= i < |Kept(db, skipFail, jobs)| ==>
               Stored(db', Kept(db, skipFail, jobs)[i].specs)
                   || (skipFail && HasFailure(db', Kept(db, skipFail, jobs)[i].specs))
    ensures VerdictOf(db', skipFail, jobs[j]).Skip?
  {
    hide Stored, HasFailure;
    var v := VerdictOf(db, skipFail, jobs[j]);
    if v.Skip? {
      SkippedAgain(db, db', skipFail, jobs, j);
    } else {
      KeptJobs(db, skipFail, jobs);
      assert v.job in Kept(db, skipFail, jobs);
      VerdictKey(db, skipFail, jobs[j]);
      if Stored(db', v.job.specs) {
        BuiltJobIsDone(db, db', skipFail, jobs, j);
      } else {
        FailedJobAgain(db, db', skipFail, jobs[j]);
      }
    }
  }

  lemma NothingKept(db: map<string, bool>, db': map<string, bool>, skipFail: bool, jobs: seq<Job>)
    requires Grouped(jobs) && Untouched(Kept(db, skipFail, jobs), db, db')
    requires forall i :: 0 <= i < |Kept(db, skipFail, jobs)| ==>
               Stored(db', Kept(db, skipFail, jobs)[i].specs)
                   || (skipFail && HasFailure(db', Kept(db, skipFail, jobs)[i].specs))
    ensures Kept(db', skipFail, jobs) == []
  {
    hide VerdictOf;
    KeptJobs(db', skipFail, jobs);
    var again := Kept(db', skipFail, jobs);
    if again != [] {
      assert again[0] in again;
      var j :| 0 <= j < |jobs| && VerdictOf(db', skipFail, jobs[j]) == Verdict.Build(again[0]);
      VerdictAgain(db, db', skipFail, jobs, j);
    }
  }

  lemma SomethingKept(db: map<string, bool>, db': map<string, bool>, jobs: seq<Job>)
    requires Grouped(jobs) && Untouched(Kept(db, false, jobs), db, db')
    requires exists i :: 0 <= i < |Kept(db, false, jobs)| && !Stored(db', Kept(db, false, jobs)[i].specs)
    requires forall i :: 0 <= i < |Kept(db, false, jobs)| ==>
               Stored(db', Kept(db, false, jobs)[i].specs) || HasFailure(db', Kept(db, false, jobs)[i].specs)
    ensures Kept(db', false, jobs) != []
  {
    var i :| 0 <= i < |Kept(db, false, jobs)| && !Stored(db', Kept(db, false, jobs)[i].specs);
    var j := KeptJob(db, false, jobs, i);
    VerdictKey(db, false, jobs[j]);
    FailedJobAgain(db, db', false, jobs[j]);
    KeptJobs(db', false, jobs);
    var v := VerdictOf(db', false, jobs[j]);
    assert v.Build? && v.job in Kept(db', false, jobs);
  }

  // ------------------------------------------------------- the jobs that are run are fresh

  /** What filtering keeps is not stored as success, and no kept job is empty. */
  lemma KeptIsFresh(db: map<string, bool>, skipFail: bool, jobs: seq<Job>, retry: nat, failfast: bool, concurrency: nat,
                    workers: nat)
    requires Grouped(jobs)
    ensures Fresh(Config(Kept(db, skipFail, jobs), retry, failfast, concurrency, workers), db)
  {
    hide Kept, Grouped;
    var kept := Kept(db, skipFail, jobs);
    forall i: nat | i < |kept|
      ensures kept[i].specs != [] && NotDone(db, kept[i].specs)
    {
      var j := KeptJob(db, skipFail, jobs, i);
      GroupedJob(jobs, j);
      PendingIsOpen(db, skipFail, jobs[j]);
    }
  }

  lemma GroupedJob(jobs: seq<Job>, j: nat)
    requires Grouped(jobs) && j < |jobs|
    ensures jobs[j].specs != []
  {}

  lemma PendingIsOpen(db: map<string, bool>, skipFail: bool, job: Job)
    requires job.specs != [] && VerdictOf(db, skipFail, job).Build?
    ensures var v := VerdictOf(db, skipFail, job); v.job.specs != [] && NotDone(db, v.job.specs)
  {
    hide Pending;
    PendingMembers(db, job.specs);
    var pending := Pending(db, job.specs);
    forall i | 0 <= i < |pending|
      ensures !IsDone(db, pending[i])
    {
      assert pending[i] in pending;
    }
    var i :| 0 <= i < |job.specs| && !(job.specs[i].target in db && db[job.specs[i].target]);
    assert job.specs[i] in pending;
  }

  ghost predicate DistinctTargets(specs: seq<Spec>) {
    forall i, j :: 0 <= i < j < |specs| ==> specs[i].target != specs[j].target
  }

  lemma {:induction false} PendingCounts(db: map<string, bool>, specs: seq<Spec>, x: Spec)
    ensures multiset(Pending(db, specs))[x] <= multiset(specs)[x]
  {
    if specs != [] {
      assert specs == specs[..|specs| - 1] + [specs[|specs| - 1]];
      PendingCounts(db, specs[..|specs| - 1], x);
    }
  }

  /** Of specs with distinct targets, any that occur no more often have distinct targets too. */
  lemma FewerStayDistinct(specs: seq<Spec>, some: seq<Spec>)
    requires DistinctTargets(specs) && forall x :: multiset(some)[x] <= multiset(specs)[x]
    ensures DistinctTargets(some)
  {
    forall i, j | 0 <= i < j < |some|
      ensures some[i].target != some[j].target
    {
      var x, y := some[i], some[j];
      assert x in multiset(some) && y in multiset(some);
      assert multiset(specs)[x] >= 1 && multiset(specs)[y] >= 1;
      var a :| 0 <= a < |specs| && specs[a] == x;
      var b :| 0 <= b < |specs| && specs[b] == y;
      if x == y {
        Twice(some, i, j);
        NoDupOnce(specs, x);
      }
      assert a < b || b < a;
    }
  }

  lemma PendingStaysDistinct(specs: seq<Spec>, db: map<string, bool>, key: string)
    requires DistinctTargets(specs)
    ensures DistinctTargets(Pending(db, JobFor(specs, key).specs))
  {
    hide DistinctTargets, Pending, JobFor;
    var mine := JobFor(specs, key).specs;
    var pending := Pending(db, mine);
    forall x
      ensures multiset(pending)[x] <= multiset(specs)[x]
    {
      PendingCounts(db, mine, x);
      JobHoldsGroup(specs, key, x);
    }
    FewerStayDistinct(specs, pending);
  }

  /**
   The jobs that a batch of specs with distinct targets comes down to, filtered
   against any store: when a run of them returns nil, everything is stored as
   success if and only if no job was dropped.
   */
  lemma FilteredRunIsReliable(specs: seq<Spec>, jobs: seq<Job>, skipFail: bool, cfg: Config, db: map<string, bool>,
                              states: seq<State>, events: seq<Event>, k: nat)
    requires DistinctTargets(specs) && NoDup(JobKeys(jobs))
    requires forall j :: 0 <= j < |jobs| ==> jobs[j] == JobFor(specs, jobs[j].key)
    requires forall key :: key in JobKeys(jobs) ==> GroupOf(specs, key) != []
    requires cfg.jobs == Kept(db, skipFail, jobs) && cfg.concurrency >= 1 && cfg.workers >= 1
    requires IsRun(cfg, db, states, events) && k < |states|
    ensures NilIsReliable(cfg, states[k])
  {
    hide Kept, DistinctTargets, JobFor, GroupOf, IsRun, NilIsReliable, NoDup;
    GroupingIsGrouped(specs, jobs);
    KeptIsConfigOk(db, skipFail, jobs, cfg.retry, cfg.failfast, cfg.concurrency, cfg.workers);
    KeptIsFresh(db, skipFail, jobs, cfg.retry, cfg.failfast, cfg.concurrency, cfg.workers);
    assert cfg == Config(Kept(db, skipFail, jobs), cfg.retry, cfg.failfast, cfg.concurrency, cfg.workers);
    forall i: nat | i < |cfg.jobs|
      ensures LastOnce(cfg.jobs[i].specs)
    {
      var j := KeptJob(db, skipFail, jobs, i);
      VerdictKey(db, skipFail, jobs[j]);
      PendingStaysDistinct(specs, db, jobs[j].key);
      DistinctLast(cfg.jobs[i].specs);
    }
    NilMeansDoneIffNothingDropped(cfg, db, states, events, k);
  }

  lemma DistinctLast(specs: seq<Spec>)
    requires DistinctTargets(specs)
    ensures LastOnce(specs)
  {}
}

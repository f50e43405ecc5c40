/**
 Why the last target of a job must occur in it only once: otherwise a run can
 drop the job after its last target was stored, and still return nil.
 */
module BatchRepeated {
  import opened Batch
  import opened BatchInvariants
  import opened BatchTheorems
  import opened BatchDropped

  ghost predicate Reaches(cfg: Config, db: map<string, bool>, s: State) {
    exists states: seq<State>, events: seq<Event> :: IsRun(cfg, db, states, events) && states[|events|] == s
  }

  lemma ReachStart(cfg: Config, db: map<string, bool>)
    ensures Reaches(cfg, db, Init(cfg, db))
  {
    hide Init;
    assert IsRun(cfg, db, [Init(cfg, db)], []);
  }

  lemma ReachNext(cfg: Config, db: map<string, bool>, s: State, e: Event)
    requires Reaches(cfg, db, s) && Enabled(cfg, s, e)
    ensures Reaches(cfg, db, Next(cfg, s, e))
  {
    hide Enabled, Next, Init;
    var states: seq<State>, events: seq<Event> :| IsRun(cfg, db, states, events) && states[|events|] == s;
    RunExtended(cfg, db, states, events, e);
    var longer := states + [Next(cfg, s, e)];
    assert longer[|events + [e]|] == Next(cfg, s, e);
  }

  lemma ReachedInv(cfg: Config, db: map<string, bool>, s: State)
    requires ConfigOk(cfg) && Reaches(cfg, db, s)
    ensures Inv(cfg, s)
  {
    hide Inv, Enabled, Next, Init, ConfigOk;
    var states: seq<State>, events: seq<Event> :| IsRun(cfg, db, states, events) && states[|events|] == s;
    RunInv(cfg, db, states, events, |events|);
  }

  // ---------------------------------------------------------------- one job alone

  predicate Quiet(s: State) {
    !s.failed && !s.fatal && !s.canceled && s.dropped == []
  }

  /** What was stored as success stays so. */
  ghost predicate Grows(a: map<string, bool>, b: map<string, bool>) {
    forall t :: t in a && a[t] ==> t in b && b[t]
  }

  /** The first task at hand gets a worker slot and the global slot. */
  lemma StartJob(cfg: Config, db: map<string, bool>, s: State, t: Task, rest: seq<Task>) returns (u: State, slot: nat)
    requires ConfigOk(cfg) && Reaches(cfg, db, s) && Quiet(s) && s.flight == []
    requires s.main == Schedule([t] + rest, Ready)
    ensures Reaches(cfg, db, u) && Quiet(u) && u.main == Schedule(rest, Ready) && u.flight == [Worker(t, 0, Run, slot)]
    ensures u.retry == s.retry && u.db == s.db
  {
    hide Reaches, Apply, EffectOf, Inv;
    ReachNext(cfg, db, s, Check);
    var a := Next(cfg, s, Check);
    ReachedInv(cfg, db, a);
    SlotsFree(cfg, a);
    slot := a.pool[0];
    ReachNext(cfg, db, a, Pick(slot));
    var b := Next(cfg, a, Pick(slot));
    ReachNext(cfg, db, b, Acquire);
    u := Next(cfg, b, Acquire);
    assert ([t] + rest)[1..] == rest;
  }

  lemma SlotsFree(cfg: Config, s: State)
    requires ConfigOk(cfg) && Inv(cfg, s) && s.flight == [] && s.main.Schedule? && s.main.stage == WantWorker
    ensures s.pool != [] && Enabled(cfg, s, Pick(s.pool[0]))
  {
    hide Partitioned, AllItemsOk, FlagsOk, LogOk, MainOk, BuildsBounded;
    PoolThere(cfg, s);
    NobodyHolds(cfg, s);
  }

  /** One spec is built and stored. */
  lemma BuildSpec(cfg: Config, db: map<string, bool>, s: State, t: Task, idx: nat, slot: nat) returns (u: State)
    requires Reaches(cfg, db, s) && Quiet(s) && s.flight == [Worker(t, idx, Run, slot)] && idx < |t.job.specs|
    ensures Reaches(cfg, db, u) && Quiet(u) && u.main == s.main && u.flight == [Worker(t, idx + 1, Run, slot)]
    ensures u.retry == s.retry && u.db == s.db[t.job.specs[idx].target := true]
  {
    hide Reaches, Release;
    ReachNext(cfg, db, s, Work(0, Execute(true)));
    var a := Next(cfg, s, Work(0, Execute(true)));
    assert a.flight == [Worker(t, idx, Storing(true), slot)];
    ReachNext(cfg, db, a, Work(0, Store(false)));
    u := Next(cfg, a, Work(0, Store(false)));
  }

  lemma {:induction false} BuildSpecs(cfg: Config, db: map<string, bool>, s: State, t: Task, idx: nat, stop: nat,
                                      slot: nat)
    returns (u: State)
    requires Reaches(cfg, db, s) && Quiet(s) && s.flight == [Worker(t, idx, Run, slot)] && idx <= stop <= |t.job.specs|
    ensures Reaches(cfg, db, u) && Quiet(u) && u.main == s.main && u.flight == [Worker(t, stop, Run, slot)]
    ensures u.retry == s.retry && Grows(s.db, u.db)
    ensures forall i :: idx <= i < stop ==> IsDone(u.db, t.job.specs[i])
    decreases stop - idx
  {
    hide Reaches;
    u := s;
    if idx < stop {
      u := BuildSpec(cfg, db, s, t, idx, slot);
      assert IsDone(u.db, t.job.specs[idx]);
      u := BuildSpecs(cfg, db, u, t, idx + 1, stop, slot);
    }
  }

  lemma EndJob(cfg: Config, db: map<string, bool>, s: State, t: Task, slot: nat) returns (u: State)
    requires Reaches(cfg, db, s) && Quiet(s) && s.flight == [Worker(t, |t.job.specs|, Run, slot)]
    ensures Reaches(cfg, db, u) && Quiet(u) && u.main == s.main && u.flight == [] && u.retry == s.retry && u.db == s.db
  {
    hide Reaches, Release;
    ReachNext(cfg, db, s, Work(0, Finish));
    u := Next(cfg, s, Work(0, Finish));
  }

  /** A spec fails and the job goes to the retry channel. */
  lemma FailSpec(cfg: Config, db: map<string, bool>, s: State, t: Task, idx: nat, slot: nat) returns (u: State)
    requires Reaches(cfg, db, s) && Quiet(s) && s.flight == [Worker(t, idx, Run, slot)] && idx < |t.job.specs|
    requires t.attempt < cfg.retry && |s.retry| < |cfg.jobs|
    ensures Reaches(cfg, db, u) && Quiet(u) && u.main == s.main && u.flight == [] && |u.retry| == |s.retry| + 1
    ensures u.db == s.db
  {
    hide Reaches, Release;
    ReachNext(cfg, db, s, Work(0, Execute(false)));
    var a := Next(cfg, s, Work(0, Execute(false)));
    assert a.flight == [Worker(t, idx, Sending, slot)];
    ReachNext(cfg, db, a, Work(0, Send));
    u := Next(cfg, a, Work(0, Send));
  }

  // ---------------------------------------------------------------------- all jobs

  /** The first `k` jobs ran: all their specs are stored as success, and job `bad` among them waits for a retry. */
  ghost predicate Progress(cfg: Config, s: State, k: nat, bad: nat) {
    && k <= |cfg.jobs| && Quiet(s) && s.flight == []
    && s.main == Schedule(FirstTasks(cfg.jobs)[k..], Ready)
    && |s.retry| == (if k > bad then 1 else 0)
    && forall j :: 0 <= j < k ==> Stored(s.db, cfg.jobs[j].specs)
  }

  lemma StoredGrows(a: map<string, bool>, b: map<string, bool>, specs: seq<Spec>)
    requires Grows(a, b) && Stored(a, specs)
    ensures Stored(b, specs)
  {}

  lemma AllDone(db: map<string, bool>, specs: seq<Spec>)
    requires forall i :: 0 <= i < |specs| ==> IsDone(db, specs[i])
    ensures Stored(db, specs)
  {}

  /** The last spec is done when an earlier one with its target is. */
  lemma RepeatedDone(db: map<string, bool>, specs: seq<Spec>)
    requires !LastOnce(specs) && forall i :: 0 <= i < |specs| - 1 ==> IsDone(db, specs[i])
    ensures Stored(db, specs)
  {
    var i :| 0 <= i < |specs| - 1 && specs[i].target == specs[|specs| - 1].target;
    assert IsDone(db, specs[i]);
    assert forall j :: 0 <= j < |specs| ==> IsDone(db, specs[j]);
    AllDone(db, specs);
  }

  lemma OneJob(cfg: Config, db: map<string, bool>, s: State, k: nat, bad: nat) returns (u: State)
    requires ConfigOk(cfg) && Reaches(cfg, db, s) && Progress(cfg, s, k, bad) && k < |cfg.jobs|
    requires bad < |cfg.jobs| && cfg.retry > 0 && !LastOnce(cfg.jobs[bad].specs)
    ensures Reaches(cfg, db, u) && Progress(cfg, u, k + 1, bad)
  {
    hide Reaches, ConfigOk, LastOnce, Stored, Grows, IsDone, FirstTasks;
    var t, specs := Task(cfg.jobs[k], 0), cfg.jobs[k].specs;
    TasksFrom(cfg.jobs, k);
    var slot;
    u, slot := StartJob(cfg, db, s, t, FirstTasks(cfg.jobs)[k + 1..]);
    var stop := if k == bad then |specs| - 1 else |specs|;
    if k == bad {
      RepeatedThere(specs);
    }
    var v := BuildSpecs(cfg, db, u, t, 0, stop, slot);
    forall j | 0 <= j < k
      ensures Stored(v.db, cfg.jobs[j].specs)
    {
      StoredGrows(s.db, v.db, cfg.jobs[j].specs);
    }
    if k == bad {
      RepeatedDone(v.db, specs);
      u := FailSpec(cfg, db, v, t, stop, slot);
    } else {
      AllDone(v.db, specs);
      u := EndJob(cfg, db, v, t, slot);
    }
  }

  lemma TasksFrom(jobs: seq<Job>, k: nat)
    requires k < |jobs|
    ensures FirstTasks(jobs)[k..] == [Task(jobs[k], 0)] + FirstTasks(jobs)[k + 1..]
  {}

  lemma RepeatedThere(specs: seq<Spec>)
    requires !LastOnce(specs)
    ensures |specs| >= 2
  {}

  lemma {:induction false} AllJobs(cfg: Config, db: map<string, bool>, k: nat, bad: nat) returns (s: State)
    requires ConfigOk(cfg) && k <= |cfg.jobs|
    requires bad < |cfg.jobs| && cfg.retry > 0 && !LastOnce(cfg.jobs[bad].specs)
    ensures Reaches(cfg, db, s) && Progress(cfg, s, k, bad)
  {
    hide Reaches, ConfigOk, LastOnce;
    if k == 0 {
      ReachStart(cfg, db);
      s := Init(cfg, db);
      assert FirstTasks(cfg.jobs)[0..] == FirstTasks(cfg.jobs);
    } else {
      s := AllJobs(cfg, db, k - 1, bad);
      s := OneJob(cfg, db, s, k - 1, bad);
    }
  }

  /** The job that waits for its retry is dropped when the run is canceled. */
  lemma DropRetry(cfg: Config, db: map<string, bool>, s: State) returns (u: State)
    requires Reaches(cfg, db, s) && Quiet(s) && s.flight == [] && s.main == Schedule([], Ready) && |s.retry| == 1
    ensures Reaches(cfg, db, u) && u.main.Done? && ReturnsNil(u) && u.dropped != [] && u.db == s.db
  {
    hide Reaches, Apply, EffectOf;
    ReachNext(cfg, db, s, LoopEnd);
    var a := Next(cfg, s, LoopEnd);
    ReachNext(cfg, db, a, Joined);
    var b := Next(cfg, a, Joined);
    ReachNext(cfg, db, b, More);
    var c := Next(cfg, b, More);
    ReachNext(cfg, db, c, Cancel);
    var d := Next(cfg, c, Cancel);
    ReachNext(cfg, db, d, Check);
    var e := Next(cfg, d, Check);
    ReachNext(cfg, db, e, Joined);
    u := Next(cfg, e, Joined);
    assert TaskKeys(d.main.tasks)[0] in u.dropped;
  }

  /** A job whose last target occurs in it twice can be dropped with all its targets stored, and the run returns nil. */
  lemma RepeatedLastTargetMisleads(cfg: Config, db: map<string, bool>, bad: nat) returns (s: State)
    requires ConfigOk(cfg) && bad < |cfg.jobs| && cfg.retry > 0 && !LastOnce(cfg.jobs[bad].specs)
    ensures Reaches(cfg, db, s) && s.main.Done? && ReturnsNil(s) && AllStored(cfg, s.db) && s.dropped != []
  {
    hide Reaches, ConfigOk, LastOnce, Stored;
    var a := AllJobs(cfg, db, |cfg.jobs|, bad);
    assert FirstTasks(cfg.jobs)[|cfg.jobs|..] == [];
    s := DropRetry(cfg, db, a);
  }

  /**
   For every batch of specs that are not stored as success: a run that returns
   nil has built everything exactly if it dropped nothing, in all runs, if and
   only if there are no retries or no job's last target occurs in it twice.
   */
  lemma NilIsReliableIff(cfg: Config, db: map<string, bool>)
    requires ConfigOk(cfg) && Fresh(cfg, db)
    ensures (forall s :: Reaches(cfg, db, s) ==> NilIsReliable(cfg, s)) <==> LastTargetsOnce(cfg)
  {
    hide IsRun, ConfigOk, Fresh, LastOnce, AllStored;
    if LastTargetsOnce(cfg) {
      forall s | Reaches(cfg, db, s)
        ensures NilIsReliable(cfg, s)
      {
        ReachedReliable(cfg, db, s);
      }
    } else {
      var bad :| 0 <= bad < |cfg.jobs| && !LastOnce(cfg.jobs[bad].specs);
      var s := RepeatedLastTargetMisleads(cfg, db, bad);
      assert !NilIsReliable(cfg, s);
    }
  }

  lemma ReachedReliable(cfg: Config, db: map<string, bool>, s: State)
    requires ConfigOk(cfg) && Fresh(cfg, db) && LastTargetsOnce(cfg) && Reaches(cfg, db, s)
    ensures NilIsReliable(cfg, s)
  {
    hide NilIsReliable, ConfigOk, Fresh, LastTargetsOnce, Enabled, Next, Init;
    var states: seq<State>, events: seq<Event> :| IsRun(cfg, db, states, events) && states[|events|] == s;
    NilMeansDoneIffNothingDropped(cfg, db, states, events, |events|);
  }
}

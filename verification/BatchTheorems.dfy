/** What the batch engine guarantees over whole runs. */
module BatchTheorems {
  import opened Basics
  import opened Batch
  import opened BatchInvariants

  // -------------------------------------------------------- the retry channel

  lemma SubmultisetSize(a: multiset<string>, b: multiset<string>)
    requires a <= b
    ensures |a| <= |b|
  {
    assert b == a + (b - a);
  }

  /** Jobs in flight and jobs queued for retry together never exceed the number of jobs. */
  lemma QueueAndFlightFit(cfg: Config, s: State)
    requires Partitioned(cfg, s)
    ensures |s.retry| + |s.flight| <= |cfg.jobs|
  {
    var a, b := multiset(TaskKeys(s.retry)), multiset(WorkerKeys(s.flight));
    var all := multiset(JobKeys(cfg.jobs));
    forall key
      ensures (a + b)[key] <= all[key]
    {
      assert PlacesOf(s, key) == all[key];
    }
    SubmultisetSize(a + b, all);
    assert |a + b| == |s.retry| + |s.flight| && |all| == |cfg.jobs|;
  }

  /** In every run a send on the retry channel finds room. */
  lemma SendNeverBlocks(cfg: Config, db: map<string, bool>, states: seq<State>, events: seq<Event>, k: nat, i: nat)
    requires ConfigOk(cfg) && IsRun(cfg, db, states, events) && k < |states|
    requires i < |states[k].flight| && states[k].flight[i].pc == Sending
    ensures Enabled(cfg, states[k], Work(i, Send))
  {
    RunInv(cfg, db, states, events, k);
    QueueAndFlightFit(cfg, states[k]);
    assert WorkerOk(cfg, states[k].db, states[k].log, states[k].flight[i]);
  }

  /** What a build goroutine does next, whatever the build's outcome. */
  function NextAction(w: Worker): Action {
    match w.pc
    case Run => if w.idx < |w.task.job.specs| then Execute(true) else Finish
    case Sending => Send
    case Storing(_) => Store(false)
    case Broken => Finish
  }

  /**
   In every run each worker slot's count is the number of its holders, and a
   worker never has more builds than its capacity.
   */
  lemma WorkerSlotsCounted(cfg: Config, db: map<string, bool>, states: seq<State>, events: seq<Event>, i: nat, k: nat)
    requires ConfigOk(cfg) && IsRun(cfg, db, states, events) && i < |states| && k < |states[i].slots|
    ensures states[i].slots[k] == Holders(states[i].flight, states[i].main, k) <= cfg.concurrency
    ensures multiset(WorkerSlots(states[i].flight))[k] <= cfg.concurrency
  {
    hide IsRun, Partitioned, AllItemsOk, FlagsOk, LogOk, MainOk, BuildsBounded;
    RunInv(cfg, db, states, events, i);
  }

  /** An event of the batch itself, not from outside. */
  predicate Own(e: Event) {
    !e.Cancel? && !e.Refresh?
  }

  /**
   A run that has not returned can always go on without outside help: the wait
   for a worker slot, for the global slot and for the builds in flight included.
   */
  lemma NeverStuck(cfg: Config, db: map<string, bool>, states: seq<State>, events: seq<Event>, k: nat)
    requires ConfigOk(cfg) && IsRun(cfg, db, states, events) && k < |states| && !states[k].main.Done?
    ensures exists e :: Own(e) && Enabled(cfg, states[k], e)
  {
    RunInv(cfg, db, states, events, k);
    CanStep(cfg, states[k]);
  }

  /** With no build in flight every slot in the pool is free. */
  lemma NobodyHolds(cfg: Config, s: State)
    requires AllSlotsOk(cfg, s) && s.flight == [] && s.main.Schedule? && s.main.stage == WantWorker
    ensures s.pool[0] < |s.slots| && s.slots[s.pool[0]] == 0
  {
    assert s.pool[0] in s.pool;
    assert WorkerSlots(s.flight) == [];
  }

  lemma CanStep(cfg: Config, s: State)
    requires cfg.concurrency >= 1 && Partitioned(cfg, s) && AllItemsOk(cfg, s) && MainOk(s) && AllSlotsOk(cfg, s)
    requires !s.main.Done?
    ensures exists e :: Own(e) && Enabled(cfg, s, e)
  {
    hide AllSlotsOk, Partitioned, Enabled;
    if s.flight != [] {
      QueueAndFlightFit(cfg, s);
      assert WorkerOk(cfg, s.db, s.log, s.flight[0]);
      WorkerCanStep(cfg, s);
    } else {
      MainCanStep(cfg, s);
    }
  }

  lemma WorkerCanStep(cfg: Config, s: State)
    requires s.flight != [] && WorkerOk(cfg, s.db, s.log, s.flight[0]) && |s.retry| + |s.flight| <= |cfg.jobs|
    ensures Enabled(cfg, s, Work(0, NextAction(s.flight[0])))
  {}

  lemma MainCanStep(cfg: Config, s: State)
    requires cfg.concurrency >= 1 && MainOk(s) && AllSlotsOk(cfg, s)
    requires s.flight == [] && !s.main.Done?
    ensures exists e :: Own(e) && Enabled(cfg, s, e)
  {
    hide AllSlotsOk;
    match s.main
    case Schedule(tasks, stage) =>
      if stage == Ready {
        assert Enabled(cfg, s, if tasks == [] then LoopEnd else Check);
      } else if stage == WantWorker {
        PoolThere(cfg, s);
        NobodyHolds(cfg, s);
        assert Enabled(cfg, s, Pick(s.pool[0]));
      } else {
        assert Enabled(cfg, s, Acquire);
      }
    case Wait => assert Enabled(cfg, s, Joined);
    case Drain(_) => assert Enabled(cfg, s, More);
  }

  lemma PoolThere(cfg: Config, s: State)
    requires AllSlotsOk(cfg, s)
    ensures s.pool != []
  {}

  // --------------------------------------------------------------- termination

  /** What a task can still cost: specs not yet built and retries not yet used. */
  function Left(cfg: Config, t: Task): nat {
    |t.job.specs| + Minus(cfg.retry, t.attempt)
  }

  function TasksWeight(cfg: Config, ts: seq<Task>, base: nat): nat {
    if ts == [] then 0 else 10 * Left(cfg, ts[0]) + base + TasksWeight(cfg, ts[1..], base)
  }

  function WorkerWeight(cfg: Config, w: Worker): nat {
    if w.pc == Broken then 1
    else 10 * (Minus(|w.task.job.specs|, w.idx) + Minus(cfg.retry, w.task.attempt)) + (if w.pc == Run then 3 else 2)
  }

  function FlightWeight(cfg: Config, ws: seq<Worker>): nat {
    if ws == [] then 0 else WorkerWeight(cfg, ws[0]) + FlightWeight(cfg, ws[1..])
  }

  function MainWeight(m: Main): nat {
    match m
    case Schedule(_, stage) => if stage == Ready then 4 else if stage == WantWorker then 3 else 2
    case Wait => 1
    case Drain(_) => 5
    case Done => 0
  }

  function Weight(cfg: Config, s: State): nat {
    MainWeight(s.main) + TasksWeight(cfg, MainTasks(s.main), 6) + FlightWeight(cfg, s.flight)
    + TasksWeight(cfg, s.retry, 11) + (if s.canceled then 0 else 1)
  }

  lemma {:induction false} TasksWeightConcat(cfg: Config, a: seq<Task>, b: seq<Task>, base: nat)
    ensures TasksWeight(cfg, a + b, base) == TasksWeight(cfg, a, base) + TasksWeight(cfg, b, base)
  {
    if a == [] {
      assert a + b == b;
    } else {
      assert (a + b)[1..] == a[1..] + b;
      TasksWeightConcat(cfg, a[1..], b, base);
    }
  }

  lemma {:induction false} FlightWeightConcat(cfg: Config, a: seq<Worker>, b: seq<Worker>)
    ensures FlightWeight(cfg, a + b) == FlightWeight(cfg, a) + FlightWeight(cfg, b)
  {
    if a == [] {
      assert a + b == b;
    } else {
      assert (a + b)[1..] == a[1..] + b;
      FlightWeightConcat(cfg, a[1..], b);
    }
  }

  lemma FlightWeightSplice(cfg: Config, ws: seq<Worker>, i: nat, stay: seq<Worker>)
    requires i < |ws|
    ensures FlightWeight(cfg, ws[..i] + stay + ws[i + 1..]) + WorkerWeight(cfg, ws[i])
            == FlightWeight(cfg, ws) + FlightWeight(cfg, stay)
  {
    assert ws == ws[..i] + ([ws[i]] + ws[i + 1..]);
    FlightWeightConcat(cfg, ws[..i], [ws[i]] + ws[i + 1..]);
    FlightWeightConcat(cfg, [ws[i]], ws[i + 1..]);
    FlightWeightConcat(cfg, ws[..i] + stay, ws[i + 1..]);
    FlightWeightConcat(cfg, ws[..i], stay);
    assert FlightWeight(cfg, [ws[i]]) == WorkerWeight(cfg, ws[i]);
  }

  /** A goroutine's step costs more than what it leaves. */
  lemma EffectWeight(cfg: Config, s: State, w: Worker, a: Action)
    requires CanAct(cfg, s, w, a) && (w.pc == Sending ==> w.task.attempt < cfg.retry)
    ensures var e := EffectOf(cfg, s, w, a);
      FlightWeight(cfg, e.stay) + TasksWeight(cfg, e.retried, 11) < WorkerWeight(cfg, w) && (s.canceled ==> e.canceled)
  {
    var e := EffectOf(cfg, s, w, a);
    assert e.stay != [] ==> e.stay[1..] == [];
    assert e.retried != [] ==> e.retried[1..] == [];
  }

  lemma WorkWeighs(cfg: Config, s: State, i: nat, a: Action)
    requires i < |s.flight| && CanAct(cfg, s, s.flight[i], a) && AllItemsOk(cfg, s)
    ensures Weight(cfg, Apply(s, i, EffectOf(cfg, s, s.flight[i], a))) < Weight(cfg, s)
  {
    hide EffectOf, FlightWeight, TasksWeight, WorkerWeight, CanAct, TaskOk, EntryOk;
    var e := EffectOf(cfg, s, s.flight[i], a);
    assert WorkerOk(cfg, s.db, s.log, s.flight[i]);
    EffectWeight(cfg, s, s.flight[i], a);
    FlightWeightSplice(cfg, s.flight, i, e.stay);
    TasksWeightConcat(cfg, s.retry, e.retried, 11);
  }

  lemma OneTaskWeight(cfg: Config, t: Task, base: nat)
    ensures TasksWeight(cfg, [t], base) == 10 * Left(cfg, t) + base
  {
    assert [t][1..] == [];
  }

  lemma OneWorkerWeight(cfg: Config, flight: seq<Worker>, t: Task, slot: nat)
    ensures FlightWeight(cfg, flight + [Worker(t, 0, Run, slot)]) == FlightWeight(cfg, flight) + 10 * Left(cfg, t) + 3
  {
    FlightWeightConcat(cfg, flight, [Worker(t, 0, Run, slot)]);
    assert [Worker(t, 0, Run, slot)][1..] == [];
  }

  lemma MainWeighs(cfg: Config, s: State, e: Event)
    requires Enabled(cfg, s, e) && !e.Work? && !e.Refresh?
    ensures Weight(cfg, Next(cfg, s, e)) < Weight(cfg, s)
  {
    hide Apply, EffectOf, CanAct, FlightWeight, Release;
    match e
    case Acquire => OneWorkerWeight(cfg, s.flight, s.main.tasks[0], s.main.stage.slot);
    case Joined =>
      if s.retry != [] {
        OneTaskWeight(cfg, s.retry[0], 6);
      }
    case More =>
      if s.retry != [] {
        TasksWeightConcat(cfg, s.main.drained, [s.retry[0]], 6);
        OneTaskWeight(cfg, s.retry[0], 6);
      }
    case _ =>
  }

  /** Every step but a refresh of the pool uses up some of the remaining work, and a refresh adds none. */
  lemma StepWeighs(cfg: Config, s: State, e: Event)
    requires Enabled(cfg, s, e) && AllItemsOk(cfg, s)
    ensures if e.Refresh? then Weight(cfg, Next(cfg, s, e)) == Weight(cfg, s)
            else Weight(cfg, Next(cfg, s, e)) < Weight(cfg, s)
  {
    hide AllItemsOk, Apply, EffectOf, TasksWeight, FlightWeight, MainWeight;
    if e.Work? {
      WorkWeighs(cfg, s, e.i, e.action);
    } else if !e.Refresh? {
      MainWeighs(cfg, s, e);
    }
  }

  /** The steps of a run that are no refresh of the pool. */
  function Steps(events: seq<Event>): nat {
    if events == [] then 0
    else Steps(events[..|events| - 1]) + (if events[|events| - 1].Refresh? then 0 else 1)
  }

  /** No run has more steps than the work it starts with: the drain loop ends. */
  lemma {:induction false} RunsEnd(cfg: Config, db: map<string, bool>, states: seq<State>, events: seq<Event>, k: nat)
    requires ConfigOk(cfg) && IsRun(cfg, db, states, events) && k < |states|
    ensures Steps(events[..k]) + Weight(cfg, states[k]) <= Weight(cfg, Init(cfg, db))
  {
    hide Weight, ConfigOk, Inv, Enabled, Next, Init, AllItemsOk;
    if k > 0 {
      RunsEnd(cfg, db, states, events, k - 1);
      RunInv(cfg, db, states, events, k - 1);
      ItemsHold(cfg, states[k - 1]);
      assert states[k - 1 + 1] == Next(cfg, states[k - 1], events[k - 1]);
      StepWeighs(cfg, states[k - 1], events[k - 1]);
      assert events[..k][..k - 1] == events[..k - 1];
    } else {
      assert events[..0] == [];
    }
  }

  lemma ItemsHold(cfg: Config, s: State)
    requires Inv(cfg, s)
    ensures AllItemsOk(cfg, s)
  {}

  function TotalSpecs(jobs: seq<Job>): nat {
    if jobs == [] then 0 else |jobs[0].specs| + TotalSpecs(jobs[1..])
  }

  lemma {:induction false} FirstTasksWeight(cfg: Config, jobs: seq<Job>)
    ensures TasksWeight(cfg, FirstTasks(jobs), 6) == 10 * TotalSpecs(jobs) + |jobs| * (10 * cfg.retry + 6)
  {
    if jobs != [] {
      assert FirstTasks(jobs)[1..] == FirstTasks(jobs[1..]);
      FirstTasksWeight(cfg, jobs[1..]);
    }
  }

  lemma StartWeight(cfg: Config, db: map<string, bool>)
    ensures Weight(cfg, Init(cfg, db)) == TasksWeight(cfg, FirstTasks(cfg.jobs), 6) + 5
  {}

  /** The number of steps of a run is bounded by its specs and its retry budget, however often the pool is refreshed. */
  lemma RunLength(cfg: Config, db: map<string, bool>, states: seq<State>, events: seq<Event>)
    requires ConfigOk(cfg) && IsRun(cfg, db, states, events)
    ensures Steps(events) <= 10 * TotalSpecs(cfg.jobs) + |cfg.jobs| * (10 * cfg.retry + 6) + 5
  {
    hide Weight, Steps;
    RunsEnd(cfg, db, states, events, |events|);
    assert events[..|events|] == events;
    StartWeight(cfg, db);
    FirstTasksWeight(cfg, cfg.jobs);
  }

  lemma RunExtended(cfg: Config, db: map<string, bool>, states: seq<State>, events: seq<Event>, e: Event)
    requires IsRun(cfg, db, states, events) && Enabled(cfg, states[|events|], e)
    ensures IsRun(cfg, db, states + [Next(cfg, states[|events|], e)], events + [e])
  {
    hide Enabled, Next, Init;
    var longer, all := states + [Next(cfg, states[|events|], e)], events + [e];
    forall i | 0 <= i < |all|
      ensures Enabled(cfg, longer[i], all[i]) && longer[i + 1] == Next(cfg, longer[i], all[i])
    {
      if i < |events| {
        assert states[i + 1] == Next(cfg, states[i], events[i]);
      }
    }
  }

  /** Every run can be continued, without outside help, until the batch returns. */
  lemma {:induction false} RunFinishes(cfg: Config, db: map<string, bool>, states: seq<State>, events: seq<Event>)
    returns (all: seq<State>, evs: seq<Event>)
    requires ConfigOk(cfg) && IsRun(cfg, db, states, events)
    ensures IsRun(cfg, db, all, evs) && states <= all && events <= evs && all[|evs|].main.Done?
    ensures forall i :: |events| <= i < |evs| ==> Own(evs[i])
    decreases Weight(cfg, states[|events|])
  {
    hide Weight, ConfigOk, Enabled, Next, Init, Inv, AllItemsOk;
    all, evs := states, events;
    var s := states[|events|];
    if !s.main.Done? {
      NeverStuck(cfg, db, states, events, |events|);
      var e :| Own(e) && Enabled(cfg, s, e);
      RunInv(cfg, db, states, events, |events|);
      ItemsHold(cfg, s);
      StepWeighs(cfg, s, e);
      RunExtended(cfg, db, states, events, e);
      all, evs := RunFinishes(cfg, db, states + [Next(cfg, s, e)], events + [e]);
      assert evs[|events|] == (events + [e])[|events|];
    }
  }

  // ------------------------------------------------------------------- the outcome

  /** Every spec of every job is stored as success. */
  ghost predicate AllStored(cfg: Config, db: map<string, bool>) {
    forall j :: 0 <= j < |cfg.jobs| ==> Stored(db, cfg.jobs[j].specs)
  }

  /** A job that was not dropped has a result when the run returns. */
  lemma JobFinished(cfg: Config, s: State, j: nat) returns (i: nat)
    requires Partitioned(cfg, s) && MainOk(s) && s.main.Done? && s.dropped == [] && j < |cfg.jobs|
    ensures i < |s.results| && s.results[i].key == cfg.jobs[j].key
  {
    var key := cfg.jobs[j].key;
    assert JobKeys(cfg.jobs)[j] == key;
    assert key in multiset(JobKeys(cfg.jobs));
    assert PlacesOf(s, key) >= 1;
    assert key in multiset(EntryKeys(s.results));
    assert key in EntryKeys(s.results);
    i :| 0 <= i < |s.results| && EntryKeys(s.results)[i] == key;
  }

  lemma ResultIsJob(cfg: Config, s: State, i: nat) returns (j: nat)
    requires Partitioned(cfg, s) && i < |s.results|
    ensures j < |cfg.jobs| && s.results[i].key == cfg.jobs[j].key
  {
    var key := s.results[i].key;
    assert EntryKeys(s.results)[i] == key;
    assert key in multiset(EntryKeys(s.results));
    assert PlacesOf(s, key) >= 1;
    assert key in multiset(JobKeys(cfg.jobs));
    assert key in JobKeys(cfg.jobs);
    j :| 0 <= j < |cfg.jobs| && JobKeys(cfg.jobs)[j] == key;
  }

  lemma OutcomeHolds(cfg: Config, s: State)
    requires ConfigOk(cfg) && Inv(cfg, s) && s.main.Done? && s.dropped == []
    ensures ReturnsNil(s) <==> AllStored(cfg, s.db)
    ensures forall j :: 0 <= j < |cfg.jobs| ==> Stored(s.db, cfg.jobs[j].specs) || HasFailure(s.db, cfg.jobs[j].specs)
  {
    forall j | 0 <= j < |cfg.jobs|
      ensures Stored(s.db, cfg.jobs[j].specs) || HasFailure(s.db, cfg.jobs[j].specs)
      ensures ReturnsNil(s) ==> Stored(s.db, cfg.jobs[j].specs)
    {
      var i := JobFinished(cfg, s, j);
      assert EntryOk(cfg, s.db, s.log, s.results[i]);
      SpecsOf(cfg.jobs, j);
    }
    if !ReturnsNil(s) {
      var i :| 0 <= i < |s.results| && !s.results[i].success;
      assert EntryOk(cfg, s.db, s.log, s.results[i]);
      var j := ResultIsJob(cfg, s, i);
      SpecsOf(cfg.jobs, j);
      assert !Stored(s.db, cfg.jobs[j].specs);
    }
  }

  /** A run that dropped nothing returns nil exactly when every spec is stored as success. */
  lemma OutcomeIsAccurate(cfg: Config, db: map<string, bool>, states: seq<State>, events: seq<Event>, k: nat)
    requires ConfigOk(cfg) && IsRun(cfg, db, states, events) && k < |states|
    requires states[k].main.Done? && states[k].dropped == []
    ensures ReturnsNil(states[k]) <==> AllStored(cfg, states[k].db)
  {
    RunInv(cfg, db, states, events, k);
    OutcomeHolds(cfg, states[k]);
  }

  /** Nobody canceled the run and every result could be stored. */
  ghost predicate Undisturbed(events: seq<Event>) {
    forall i :: 0 <= i < |events| ==> events[i] != Cancel && !(events[i].Work? && events[i].action == Store(true))
  }

  /** Without fail-fast an undisturbed run drops nothing. */
  lemma {:induction false} NothingDropped(cfg: Config, db: map<string, bool>, states: seq<State>, events: seq<Event>,
                                          k: nat)
    requires IsRun(cfg, db, states, events) && Undisturbed(events) && !cfg.failfast && k < |states|
    ensures states[k].dropped == [] && !states[k].canceled
  {
    hide Enabled, Next;
    if k > 0 {
      NothingDropped(cfg, db, states, events, k - 1);
      assert states[k - 1 + 1] == Next(cfg, states[k - 1], events[k - 1]);
      StepDropsNothing(cfg, states[k - 1], events[k - 1]);
    }
  }

  lemma StepDropsNothing(cfg: Config, s: State, e: Event)
    requires Enabled(cfg, s, e) && e != Cancel && !(e.Work? && e.action == Store(true)) && !cfg.failfast
    requires s.dropped == [] && !s.canceled
    ensures Next(cfg, s, e).dropped == [] && !Next(cfg, s, e).canceled
  {}

  /**
   The result of an undisturbed run: nil exactly when every spec is stored as
   success, and every job has a verdict.
   */
  lemma CleanRunOutcome(cfg: Config, db: map<string, bool>, states: seq<State>, events: seq<Event>)
    requires ConfigOk(cfg) && IsRun(cfg, db, states, events) && Undisturbed(events) && !cfg.failfast
    requires states[|events|].main.Done?
    ensures ReturnsNil(states[|events|]) <==> AllStored(cfg, states[|events|].db)
    ensures forall j :: 0 <= j < |cfg.jobs| ==>
              Stored(states[|events|].db, cfg.jobs[j].specs) || HasFailure(states[|events|].db, cfg.jobs[j].specs)
  {
    NothingDropped(cfg, db, states, events, |events|);
    RunInv(cfg, db, states, events, |events|);
    OutcomeHolds(cfg, states[|events|]);
  }

  // -------------------------------------------------------------- builds executed

  /** In every run a job executes at most as many builds as it has specs and retries. */
  lemma JobBuildBound(cfg: Config, db: map<string, bool>, states: seq<State>, events: seq<Event>, k: nat, j: nat)
    requires ConfigOk(cfg) && IsRun(cfg, db, states, events) && k < |states| && j < |cfg.jobs|
    ensures Builds(states[k].log, cfg.jobs[j].key) <= |cfg.jobs[j].specs| + cfg.retry
  {
    RunInv(cfg, db, states, events, k);
    SpecsOf(cfg.jobs, j);
  }

  /** In every run, once a spec of a job was built successfully only later specs of the job are built. */
  lemma NeverRebuildsSuccess(cfg: Config, db: map<string, bool>, states: seq<State>, events: seq<Event>, k: nat, a: nat,
                             b: nat)
    requires ConfigOk(cfg) && IsRun(cfg, db, states, events) && k < |states| && a < b < |states[k].log|
    requires states[k].log[a].key == states[k].log[b].key && states[k].log[a].ok
    ensures states[k].log[a].pos < states[k].log[b].pos
  {
    RunInv(cfg, db, states, events, k);
  }

  /** A job fails for good exactly when one of its builds and all of its retries have failed. */
  lemma RetriesAreUsedUp(cfg: Config, db: map<string, bool>, states: seq<State>, events: seq<Event>, k: nat, i: nat)
    requires ConfigOk(cfg) && IsRun(cfg, db, states, events) && k < |states| && i < |states[k].results|
    ensures var r := states[k].results[i];
      r.success <==> Fails(states[k].log, r.key) <= cfg.retry
    ensures !states[k].results[i].success ==> Fails(states[k].log, states[k].results[i].key) == cfg.retry + 1
  {
    RunInv(cfg, db, states, events, k);
    assert EntryOk(cfg, states[k].db, states[k].log, states[k].results[i]);
  }

  /** A result that cannot be stored cancels the run, and so does a failure with fail-fast. */
  lemma FailureCancels(cfg: Config, db: map<string, bool>, states: seq<State>, events: seq<Event>, k: nat)
    requires ConfigOk(cfg) && IsRun(cfg, db, states, events) && k < |states|
    ensures states[k].fatal ==> states[k].canceled
    ensures cfg.failfast && (exists i :: 0 <= i < |states[k].results| && !states[k].results[i].success) ==>
              states[k].canceled
  {
    RunInv(cfg, db, states, events, k);
  }

  // --------------------------------------------------------------- where jobs are

  /** In every run each job is in exactly one place. */
  lemma EachJobInOnePlace(cfg: Config, db: map<string, bool>, states: seq<State>, events: seq<Event>, k: nat, j: nat)
    requires ConfigOk(cfg) && IsRun(cfg, db, states, events) && k < |states| && j < |cfg.jobs|
    ensures PlacesOf(states[k], cfg.jobs[j].key) == 1
  {
    RunInv(cfg, db, states, events, k);
    assert JobKeys(cfg.jobs)[j] == cfg.jobs[j].key;
    assert cfg.jobs[j].key in multiset(JobKeys(cfg.jobs));
    NoDupOnce(JobKeys(cfg.jobs), cfg.jobs[j].key);
  }
}

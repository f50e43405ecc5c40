/** What a dropped job leaves undone, and so when a run's answer can be relied on. */
module BatchDropped {
  import opened Basics
  import opened Targets
  import opened Batch
  import opened BatchInvariants
  import opened BatchTheorems

  ghost predicate IsDone(db: map<string, bool>, spec: Spec) {
    spec.target in db && db[spec.target]
  }

  ghost predicate NotDone(db: map<string, bool>, specs: seq<Spec>) {
    forall i :: 0 <= i < |specs| ==> !IsDone(db, specs[i])
  }

  /** The last target occurs only once. */
  ghost predicate LastOnce(specs: seq<Spec>) {
    forall i :: 0 <= i < |specs| - 1 ==> specs[i].target != specs[|specs| - 1].target
  }

  /** No stored success tells of the last spec. */
  ghost predicate LastOpen(db: map<string, bool>, specs: seq<Spec>) {
    specs != [] && !IsDone(db, specs[|specs| - 1])
  }

  ghost predicate KeyLeft(cfg: Config, db: map<string, bool>, key: string) {
    LastOpen(db, Specs(cfg.jobs, key))
  }

  ghost predicate TaskLeft(cfg: Config, db: map<string, bool>, t: Task) {
    LastOpen(db, t.job.specs) && (cfg.retry > 0 ==> LastOnce(t.job.specs))
  }

  /** A goroutine that can still be retried has its last spec before it. */
  ghost predicate WorkerLeft(cfg: Config, db: map<string, bool>, w: Worker) {
    cfg.retry > 0 ==>
        LastOnce(w.task.job.specs) && (w.pc != Broken && w.idx < |w.task.job.specs| ==> LastOpen(db, w.task.job.specs))
  }

  ghost predicate AllLeft(cfg: Config, db: map<string, bool>, fatal: bool, tasks: seq<Task>, flight: seq<Worker>,
                          retry: seq<Task>, dropped: seq<string>) {
    && (forall i :: 0 <= i < |tasks| ==> TaskLeft(cfg, db, tasks[i]))
    && (forall i :: 0 <= i < |flight| ==> WorkerLeft(cfg, db, flight[i]))
    && (forall i :: 0 <= i < |retry| ==> TaskLeft(cfg, db, retry[i]))
    && (!fatal ==> forall i :: 0 <= i < |dropped| ==>
                     KeyLeft(cfg, db, dropped[i]) && Belongs(dropped[i], Specs(cfg.jobs, dropped[i])))
  }

  ghost predicate LeftOk(cfg: Config, s: State) {
    AllLeft(cfg, s.db, s.fatal, MainTasks(s.main), s.flight, s.retry, s.dropped)
  }

  // --------------------------------------------------------------- other jobs

  lemma LastOpenFrame(key: string, other: string, specs: seq<Spec>, db: map<string, bool>, log: seq<Build>,
                      db': map<string, bool>, log': seq<Build>)
    requires OnlyFor(key, db, log, db', log') && other != key && Belongs(other, specs)
    ensures LastOpen(db, specs) <==> LastOpen(db', specs)
  {
    hide StripNydusV3Suffix;
    if specs != [] {
      assert StripNydusV3Suffix(specs[|specs| - 1].target) == other;
    }
  }

  lemma TailBelongs(cfg: Config, t: Task, done: nat)
    requires Tail(cfg, t, done)
    ensures Belongs(t.job.key, t.job.specs)
  {
    hide StripNydusV3Suffix;
    var all := Specs(cfg.jobs, t.job.key);
    assert forall i :: 0 <= i < |t.job.specs| ==> t.job.specs[i] == all[|all| - |t.job.specs| + i];
  }

  lemma TaskLeftFrame(cfg: Config, key: string, t: Task, db: map<string, bool>, log: seq<Build>, db': map<string, bool>,
                      log': seq<Build>)
    requires OnlyFor(key, db, log, db', log') && t.job.key != key && TaskOk(cfg, db, log, t) && TaskLeft(cfg, db, t)
    ensures TaskLeft(cfg, db', t)
  {
    hide OnlyFor, LastOpen, LastOnce, Belongs, DoneStored, LogBefore, Builds, Tail;
    TailBelongs(cfg, t, 0);
    LastOpenFrame(key, t.job.key, t.job.specs, db, log, db', log');
  }

  lemma WorkerLeftFrame(cfg: Config, key: string, w: Worker, db: map<string, bool>, log: seq<Build>,
                        db': map<string, bool>, log': seq<Build>)
    requires OnlyFor(key, db, log, db', log') && w.task.job.key != key && WorkerOk(cfg, db, log, w)
    requires WorkerLeft(cfg, db, w)
    ensures WorkerLeft(cfg, db', w)
  {
    hide OnlyFor, LastOpen, LastOnce, Belongs, DoneStored, HasFailure, LogBefore, Builds, Tail;
    TailBelongs(cfg, w.task, w.idx);
    LastOpenFrame(key, w.task.job.key, w.task.job.specs, db, log, db', log');
  }

  // ------------------------------------------------------------------ one's own

  ghost predicate EffectLeft(cfg: Config, e: Effect) {
    && (forall i :: 0 <= i < |e.stay| ==> WorkerLeft(cfg, e.db, e.stay[i]))
    && (forall i :: 0 <= i < |e.retried| ==> TaskLeft(cfg, e.db, e.retried[i]))
    && (e.lost != [] ==> e.fatal)
  }

  /** The last spec of what is left of a job is the job's last spec. */
  lemma TailLast(cfg: Config, db: map<string, bool>, t: Task, done: nat)
    requires Tail(cfg, t, done) && LastOpen(db, t.job.specs)
    ensures KeyLeft(cfg, db, t.job.key)
  {
    hide IsDone;
    var all := Specs(cfg.jobs, t.job.key);
    assert all[|all| - 1] == t.job.specs[|t.job.specs| - 1];
  }

  lemma StoredLeft(cfg: Config, db: map<string, bool>, w: Worker, ok: bool)
    requires WorkerLeft(cfg, db, w) && w.pc.Storing? && w.idx < |w.task.job.specs|
    ensures WorkerLeft(cfg, db[w.task.job.specs[w.idx].target := ok], w.(idx := w.idx + 1, pc := Run))
  {}

  lemma ActionLeft(cfg: Config, s: State, w: Worker, a: Action)
    requires CanAct(cfg, s, w, a) && WorkerOk(cfg, s.db, s.log, w) && WorkerLeft(cfg, s.db, w)
    ensures EffectLeft(cfg, EffectOf(cfg, s, w, a))
  {
    hide IsDone, DoneStored, HasFailure, LogBefore, Builds, Tail;
    match a
    case Send =>
      var rest := w.task.job.specs[w.idx..];
      assert rest[|rest| - 1] == w.task.job.specs[|w.task.job.specs| - 1];
      assert LastOnce(rest);
    case Store(err) =>
      if !err && w.pc.ok {
        StoredLeft(cfg, s.db, w, true);
      }
    case _ =>
  }

  // ------------------------------------------------------------- all jobs together

  lemma DroppedApart(cfg: Config, s: State, i: nat)
    requires NoDup(JobKeys(cfg.jobs)) && Partitioned(cfg, s) && i < |s.flight|
    ensures forall j :: 0 <= j < |s.dropped| ==> s.dropped[j] != s.flight[i].task.job.key
  {
    var key := s.flight[i].task.job.key;
    NoDupOnce(JobKeys(cfg.jobs), key);
    assert PlacesOf(s, key) <= 1;
    assert WorkerKeys(s.flight)[i] == key;
    assert key in multiset(WorkerKeys(s.flight));
    assert key !in multiset(s.dropped);
    assert key !in s.dropped;
  }

  lemma TasksLeftFrame(cfg: Config, key: string, ts: seq<Task>, db: map<string, bool>, log: seq<Build>,
                       db': map<string, bool>, log': seq<Build>)
    requires OnlyFor(key, db, log, db', log')
    requires forall j :: 0 <= j < |ts| ==>
               ts[j].job.key != key && TaskOk(cfg, db, log, ts[j]) && TaskLeft(cfg, db, ts[j])
    ensures forall j :: 0 <= j < |ts| ==> TaskLeft(cfg, db', ts[j])
  {
    hide TaskOk, TaskLeft, OnlyFor;
    forall j | 0 <= j < |ts|
      ensures TaskLeft(cfg, db', ts[j])
    {
      TaskLeftFrame(cfg, key, ts[j], db, log, db', log');
    }
  }

  lemma FlightLeftFrame(cfg: Config, s: State, i: nat, e: Effect)
    requires i < |s.flight| && OnlyFor(s.flight[i].task.job.key, s.db, s.log, e.db, e.log)
    requires forall j :: 0 <= j < |s.flight| ==>
               WorkerOk(cfg, s.db, s.log, s.flight[j]) && WorkerLeft(cfg, s.db, s.flight[j])
    requires forall j :: 0 <= j < |s.flight| && j != i ==> s.flight[j].task.job.key != s.flight[i].task.job.key
    requires forall j :: 0 <= j < |e.stay| ==> WorkerLeft(cfg, e.db, e.stay[j])
    ensures var flight := s.flight[..i] + e.stay + s.flight[i + 1..]; forall j :: 0 <= j < |flight| ==>
            WorkerLeft(cfg, e.db, flight[j])
  {
    hide WorkerOk, WorkerLeft, OnlyFor;
    forall j | 0 <= j < |s.flight| && j != i
      ensures WorkerLeft(cfg, e.db, s.flight[j])
    {
      WorkerLeftFrame(cfg, s.flight[i].task.job.key, s.flight[j], s.db, s.log, e.db, e.log);
    }
  }

  lemma DroppedLeftFrame(cfg: Config, key: string, dropped: seq<string>, db: map<string, bool>, log: seq<Build>,
                         db': map<string, bool>, log': seq<Build>)
    requires OnlyFor(key, db, log, db', log')
    requires forall j :: 0 <= j < |dropped| ==>
               dropped[j] != key && KeyLeft(cfg, db, dropped[j]) && Belongs(dropped[j], Specs(cfg.jobs, dropped[j]))
    ensures forall j :: 0 <= j < |dropped| ==> KeyLeft(cfg, db', dropped[j])
  {
    hide LastOpen, OnlyFor, Belongs;
    forall j | 0 <= j < |dropped|
      ensures KeyLeft(cfg, db', dropped[j])
    {
      LastOpenFrame(key, dropped[j], Specs(cfg.jobs, dropped[j]), db, log, db', log');
    }
  }

  lemma FatalStays(cfg: Config, s: State, w: Worker, a: Action)
    requires CanAct(cfg, s, w, a)
    ensures s.fatal ==> EffectOf(cfg, s, w, a).fatal
  {}

  lemma WorkKeepsLeft(cfg: Config, s: State, i: nat, a: Action)
    requires NoDup(JobKeys(cfg.jobs)) && Partitioned(cfg, s) && AllItemsOk(cfg, s) && LeftOk(cfg, s)
    requires i < |s.flight| && CanAct(cfg, s, s.flight[i], a)
    ensures LeftOk(cfg, Apply(s, i, EffectOf(cfg, s, s.flight[i], a)))
  {
    hide EffectOf, TaskOk, WorkerOk, EntryOk, CanAct, Partitioned, NoDup, TaskLeft, WorkerLeft, KeyLeft, Belongs;
    var e := EffectOf(cfg, s, s.flight[i], a);
    var key := s.flight[i].task.job.key;
    ActionOk(cfg, s, s.flight[i], a);
    ActionLeft(cfg, s, s.flight[i], a);
    FatalStays(cfg, s, s.flight[i], a);
    Apart(cfg, s, i);
    DroppedApart(cfg, s, i);
    TasksLeftFrame(cfg, key, MainTasks(s.main), s.db, s.log, e.db, e.log);
    TasksLeftFrame(cfg, key, s.retry, s.db, s.log, e.db, e.log);
    if !e.fatal {
      DroppedLeftFrame(cfg, key, s.dropped, s.db, s.log, e.db, e.log);
    }
    FlightLeftFrame(cfg, s, i, e);
  }

  lemma TaskDropped(cfg: Config, db: map<string, bool>, log: seq<Build>, t: Task)
    requires TaskOk(cfg, db, log, t) && TaskLeft(cfg, db, t)
    ensures KeyLeft(cfg, db, t.job.key) && Belongs(t.job.key, Specs(cfg.jobs, t.job.key))
  {
    hide LastOpen, DoneStored, LogBefore, Builds, KeyLeft, Belongs;
    TailLast(cfg, db, t, 0);
  }

  lemma GiveUpLeaves(cfg: Config, s: State)
    requires AllItemsOk(cfg, s) && LeftOk(cfg, s)
    ensures LeftOk(cfg, GiveUp(s))
  {
    hide TaskOk, WorkerOk, EntryOk, TaskLeft, WorkerLeft, KeyLeft, Belongs, Release;
    var tasks := MainTasks(s.main);
    forall i | 0 <= i < |tasks|
      ensures KeyLeft(cfg, s.db, tasks[i].job.key) && Belongs(tasks[i].job.key, Specs(cfg.jobs, tasks[i].job.key))
    {
      TaskDropped(cfg, s.db, s.log, tasks[i]);
    }
  }

  lemma LaunchLeaves(cfg: Config, db: map<string, bool>, t: Task, slot: nat)
    requires TaskLeft(cfg, db, t)
    ensures WorkerLeft(cfg, db, Worker(t, 0, Run, slot))
  {}

  lemma MainKeepsLeft(cfg: Config, s: State, e: Event)
    requires Enabled(cfg, s, e) && !e.Work? && AllItemsOk(cfg, s) && LeftOk(cfg, s)
    ensures LeftOk(cfg, Next(cfg, s, e))
  {
    hide TaskOk, WorkerOk, EntryOk, TaskLeft, WorkerLeft, KeyLeft, Belongs, Apply, EffectOf, AllItemsOk, Release;
    match e
    case Check => GiveUpLeaves(cfg, s);
    case Refuse => GiveUpLeaves(cfg, s);
    case Acquire => LaunchLeaves(cfg, s.db, s.main.tasks[0], s.main.stage.slot);
    case _ =>
  }

  /** The batch is given specs that are not stored as success, at least one for each job. */
  ghost predicate Fresh(cfg: Config, db: map<string, bool>) {
    forall j :: 0 <= j < |cfg.jobs| ==> cfg.jobs[j].specs != [] && NotDone(db, cfg.jobs[j].specs)
  }

  /** There are no retries, or no job's last target occurs in it twice. */
  ghost predicate LastTargetsOnce(cfg: Config) {
    cfg.retry > 0 ==> forall j :: 0 <= j < |cfg.jobs| ==> LastOnce(cfg.jobs[j].specs)
  }

  lemma {:induction false} RunLeft(cfg: Config, db: map<string, bool>, states: seq<State>, events: seq<Event>, k: nat)
    requires ConfigOk(cfg) && Fresh(cfg, db) && LastTargetsOnce(cfg) && IsRun(cfg, db, states, events) && k < |states|
    ensures LeftOk(cfg, states[k])
  {
    hide LeftOk, ConfigOk, Enabled, Next, Init, Inv, Fresh, LastTargetsOnce;
    if k == 0 {
      InitLeft(cfg, db);
    } else {
      RunLeft(cfg, db, states, events, k - 1);
      RunInv(cfg, db, states, events, k - 1);
      assert states[k - 1 + 1] == Next(cfg, states[k - 1], events[k - 1]);
      NextLeft(cfg, states[k - 1], events[k - 1]);
    }
  }

  lemma InitLeft(cfg: Config, db: map<string, bool>)
    requires Fresh(cfg, db) && LastTargetsOnce(cfg)
    ensures LeftOk(cfg, Init(cfg, db))
  {
    hide LastOnce, IsDone;
  }

  lemma NextLeft(cfg: Config, s: State, e: Event)
    requires ConfigOk(cfg) && Inv(cfg, s) && LeftOk(cfg, s) && Enabled(cfg, s, e)
    ensures LeftOk(cfg, Next(cfg, s, e))
  {
    hide LeftOk, Partitioned, AllItemsOk, FlagsOk, LogOk, MainOk, BuildsBounded, AllSlotsOk, Apply, EffectOf;
    if e.Work? {
      WorkKeepsLeft(cfg, s, e.i, e.action);
    } else {
      MainKeepsLeft(cfg, s, e);
    }
  }

  lemma DroppedIsJob(cfg: Config, s: State) returns (j: nat)
    requires Partitioned(cfg, s) && s.dropped != []
    ensures j < |cfg.jobs| && s.dropped[0] == cfg.jobs[j].key
  {
    var key := s.dropped[0];
    assert key in multiset(s.dropped);
    assert PlacesOf(s, key) >= 1;
    assert key in multiset(JobKeys(cfg.jobs));
    assert key in JobKeys(cfg.jobs);
    j :| 0 <= j < |cfg.jobs| && JobKeys(cfg.jobs)[j] == key;
  }

  /** When a run returns nil, every spec is stored as success if and only if no job was dropped. */
  ghost predicate NilIsReliable(cfg: Config, s: State) {
    s.main.Done? && ReturnsNil(s) ==> (AllStored(cfg, s.db) <==> s.dropped == [])
  }

  lemma NilMeansDoneIffNothingDropped(cfg: Config, db: map<string, bool>, states: seq<State>, events: seq<Event>,
                                      k: nat)
    requires ConfigOk(cfg) && Fresh(cfg, db) && LastTargetsOnce(cfg) && IsRun(cfg, db, states, events) && k < |states|
    ensures NilIsReliable(cfg, states[k])
  {
    hide IsRun, Fresh, FlagsOk, LogOk, BuildsBounded, AllSlotsOk, LastTargetsOnce;
    RunInv(cfg, db, states, events, k);
    var s := states[k];
    if s.main.Done? && ReturnsNil(s) {
      if s.dropped == [] {
        OutcomeHolds(cfg, s);
      } else {
        RunLeft(cfg, db, states, events, k);
        var j := DroppedIsJob(cfg, s);
        SpecsOf(cfg.jobs, j);
        assert KeyLeft(cfg, s.db, s.dropped[0]);
        assert !Stored(s.db, cfg.jobs[j].specs);
      }
    }
  }
}

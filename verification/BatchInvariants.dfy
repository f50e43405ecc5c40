/** What every step of a batch run keeps. */
module BatchInvariants {
  import opened Basics
  import opened Targets
  import opened Batch

  // ------------------------------------------------- every job is in one place

  /**
   In how many places a job is: waiting to be scheduled or drained, in flight,
   queued for retry, finished, dropped.
   */
  ghost function Places(key: string, tasks: seq<Task>, flight: seq<Worker>, retry: seq<Task>, results: seq<Entry>,
                        dropped: seq<string>): nat {
    multiset(TaskKeys(tasks))[key] + multiset(WorkerKeys(flight))[key] + multiset(TaskKeys(retry))[key]
    + multiset(EntryKeys(results))[key] + multiset(dropped)[key]
  }

  ghost function PlacesOf(s: State, key: string): nat {
    Places(key, MainTasks(s.main), s.flight, s.retry, s.results, s.dropped)
  }

  ghost predicate Partitioned(cfg: Config, s: State) {
    forall key :: PlacesOf(s, key) == multiset(JobKeys(cfg.jobs))[key]
  }

  lemma TaskKeysConcat(a: seq<Task>, b: seq<Task>)
    ensures TaskKeys(a + b) == TaskKeys(a) + TaskKeys(b)
  {}

  lemma EntryKeysConcat(a: seq<Entry>, b: seq<Entry>)
    ensures EntryKeys(a + b) == EntryKeys(a) + EntryKeys(b)
  {}

  ghost function Is(a: string, b: string): nat {
    if a == b then 1 else 0
  }

  lemma WorkerKeysSplice(a: seq<Worker>, i: nat, stay: seq<Worker>, key: string)
    requires i < |a|
    ensures multiset(WorkerKeys(a[..i] + stay + a[i + 1..]))[key] + Is(key, a[i].task.job.key)
         == multiset(WorkerKeys(a))[key] + multiset(WorkerKeys(stay))[key]
  {
    var keys := WorkerKeys(a);
    assert keys == keys[..i] + [a[i].task.job.key] + keys[i + 1..];
    assert WorkerKeys(a[..i] + stay + a[i + 1..]) == keys[..i] + WorkerKeys(stay) + keys[i + 1..];
  }

  lemma HeadTask(tasks: seq<Task>, key: string)
    requires tasks != []
    ensures multiset(TaskKeys(tasks))[key] == Is(key, tasks[0].job.key) + multiset(TaskKeys(tasks[1..]))[key]
  {
    assert TaskKeys(tasks) == [tasks[0].job.key] + TaskKeys(tasks[1..]);
  }

  lemma OneTask(t: Task, key: string)
    ensures multiset(TaskKeys([t]))[key] == Is(key, t.job.key)
  {
    assert TaskKeys([t]) == [t.job.key];
  }

  lemma OneWorker(w: Worker, key: string)
    ensures multiset(WorkerKeys([w]))[key] == Is(key, w.task.job.key)
  {
    assert WorkerKeys([w]) == [w.task.job.key];
  }

  lemma OneEntry(r: Entry, key: string)
    ensures multiset(EntryKeys([r]))[key] == Is(key, r.key)
  {
    assert EntryKeys([r]) == [r.key];
  }

  /** A step of a build goroutine moves its job to exactly one place. */
  lemma EffectMoves(cfg: Config, s: State, w: Worker, a: Action, key: string)
    requires CanAct(cfg, s, w, a)
    ensures var e := EffectOf(cfg, s, w, a);
      multiset(WorkerKeys(e.stay))[key] + multiset(TaskKeys(e.retried))[key] + multiset(EntryKeys(e.finished))[key]
          + multiset(e.lost)[key]
      == Is(key, w.task.job.key)
  {
    hide TaskKeys, WorkerKeys, EntryKeys;
    var e := EffectOf(cfg, s, w, a);
    NoTasks();
    NoWorkers();
    if e.stay != [] { OneWorker(e.stay[0], key); }
    if e.retried != [] { OneTask(e.retried[0], key); }
    if e.finished != [] { OneEntry(e.finished[0], key); }
  }

  lemma WorkKeepsPlaces(cfg: Config, s: State, i: nat, a: Action, key: string)
    requires i < |s.flight| && CanAct(cfg, s, s.flight[i], a)
    ensures PlacesOf(Apply(s, i, EffectOf(cfg, s, s.flight[i], a)), key) == PlacesOf(s, key)
  {
    hide EffectOf, CanAct, TaskKeys, WorkerKeys, EntryKeys;
    var e := EffectOf(cfg, s, s.flight[i], a);
    EffectMoves(cfg, s, s.flight[i], a, key);
    WorkerKeysSplice(s.flight, i, e.stay, key);
    TaskKeysConcat(s.retry, e.retried);
    EntryKeysConcat(s.results, e.finished);
  }

  lemma LaunchKeepsPlaces(cfg: Config, s: State, key: string)
    requires Enabled(cfg, s, Acquire)
    ensures PlacesOf(Next(cfg, s, Acquire), key) == PlacesOf(s, key)
  {
    hide TaskKeys, WorkerKeys, EntryKeys;
    HeadTask(s.main.tasks, key);
    WorkerKeysConcat(s.flight, Worker(s.main.tasks[0], 0, Run, s.main.stage.slot));
  }

  lemma DrainKeepsPlaces(cfg: Config, s: State, e: Event, key: string)
    requires Enabled(cfg, s, e) && (e.Joined? || e.More?) && s.retry != []
    ensures PlacesOf(Next(cfg, s, e), key) == PlacesOf(s, key)
  {
    hide TaskKeys, WorkerKeys, EntryKeys;
    NoTasks();
    HeadTask(s.retry, key);
    OneTask(s.retry[0], key);
    if e.More? {
      TaskKeysConcat(s.main.drained, [s.retry[0]]);
    }
  }

  lemma MainKeepsPlaces(cfg: Config, s: State, e: Event, key: string)
    requires Enabled(cfg, s, e) && !e.Work?
    ensures PlacesOf(Next(cfg, s, e), key) == PlacesOf(s, key)
  {
    hide TaskKeys, WorkerKeys, EntryKeys, EffectOf, Apply, CanAct, Release, Empty;
    NoTasks();
    if e.Acquire? {
      LaunchKeepsPlaces(cfg, s, key);
    } else if (e.Joined? || e.More?) && s.retry != [] {
      DrainKeepsPlaces(cfg, s, e, key);
    }
  }

  lemma NoTasks()
    ensures TaskKeys([]) == []
  {}

  lemma NoWorkers()
    ensures WorkerKeys([]) == [] && EntryKeys([]) == []
  {}

  lemma WorkerKeysConcat(flight: seq<Worker>, w: Worker)
    ensures WorkerKeys(flight + [w]) == WorkerKeys(flight) + [w.task.job.key]
  {}

  /** In every step each job stays in exactly one place. */
  lemma PartitionKept(cfg: Config, s: State, e: Event)
    requires Enabled(cfg, s, e) && Partitioned(cfg, s)
    ensures Partitioned(cfg, Next(cfg, s, e))
  {
    forall key
      ensures PlacesOf(Next(cfg, s, e), key) == PlacesOf(s, key)
    {
      PlacesKept(cfg, s, e, key);
    }
  }

  lemma PlacesKept(cfg: Config, s: State, e: Event, key: string)
    requires Enabled(cfg, s, e)
    ensures PlacesOf(Next(cfg, s, e), key) == PlacesOf(s, key)
  {
    hide PlacesOf, Apply, EffectOf;
    match e
    case Work(i, a) => WorkKeepsPlaces(cfg, s, i, a, key);
    case _ => MainKeepsPlaces(cfg, s, e, key);
  }

  // -------------------------------------------------------- what is known of a job

  ghost predicate Stored(db: map<string, bool>, specs: seq<Spec>) {
    forall i :: 0 <= i < |specs| ==> specs[i].target in db && db[specs[i].target]
  }

  ghost predicate HasFailure(db: map<string, bool>, specs: seq<Spec>) {
    exists i :: 0 <= i < |specs| && specs[i].target in db && !db[specs[i].target]
  }

  /** How many builds of a job were executed. */
  ghost function Builds(log: seq<Build>, key: string): nat {
    if log == [] then 0
    else Builds(log[..|log| - 1], key) + (if log[|log| - 1].key == key then 1 else 0)
  }

  /** How many builds of a job failed. */
  ghost function Fails(log: seq<Build>, key: string): nat {
    if log == [] then 0
    else Fails(log[..|log| - 1], key) + (if log[|log| - 1].key == key && !log[|log| - 1].ok then 1 else 0)
  }

  /** The goroutine's last build failed and nothing came of it yet. */
  predicate Failing(pc: Pc) {
    pc == Sending || pc == Storing(false) || pc == Broken
  }

  /** No successful build of the job was at or after the position. */
  ghost predicate LogBefore(log: seq<Build>, key: string, pos: int) {
    forall i :: 0 <= i < |log| && log[i].key == key ==> log[i].pos <= pos && (log[i].ok ==> log[i].pos < pos)
  }

  /** A task holds the tail of its job's specs, and `done` of them are behind it. */
  ghost predicate Tail(cfg: Config, t: Task, done: nat) {
    var all := Specs(cfg.jobs, t.job.key);
    && |t.job.specs| <= |all| && t.job.specs == all[|all| - |t.job.specs|..]
    && t.attempt <= cfg.retry && done <= |t.job.specs|
    && Belongs(t.job.key, all)
  }

  ghost predicate DoneStored(cfg: Config, db: map<string, bool>, t: Task, done: nat)
    requires Tail(cfg, t, done)
  {
    var all := Specs(cfg.jobs, t.job.key);
    Stored(db, all[..|all| - |t.job.specs| + done])
  }

  ghost predicate TaskOk(cfg: Config, db: map<string, bool>, log: seq<Build>, t: Task) {
    var pos := |Specs(cfg.jobs, t.job.key)| - |t.job.specs|;
    && Tail(cfg, t, 0) && DoneStored(cfg, db, t, 0)
    && Builds(log, t.job.key) == pos + t.attempt && Fails(log, t.job.key) == t.attempt
    && LogBefore(log, t.job.key, pos)
  }

  ghost predicate WorkerOk(cfg: Config, db: map<string, bool>, log: seq<Build>, w: Worker) {
    && Tail(cfg, w.task, w.idx)
    && (w.pc != Broken ==> DoneStored(cfg, db, w.task, w.idx))
    && (w.pc != Run ==> w.idx < |w.task.job.specs|)
    && (w.pc == Sending ==> w.task.attempt < cfg.retry)
    && (w.pc == Broken ==> HasFailure(db, Specs(cfg.jobs, w.task.job.key)))
    && Builds(log, w.task.job.key) == Pos(cfg, w) + w.task.attempt + (if w.pc == Run then 0 else 1)
    && Fails(log, w.task.job.key) == w.task.attempt + (if Failing(w.pc) then 1 else 0)
    && (w.pc == Storing(false) || w.pc == Broken ==> w.task.attempt == cfg.retry)
    && (w.pc == Run || w.pc == Sending ==> LogBefore(log, w.task.job.key, Pos(cfg, w)))
    && (w.pc == Storing(true) ==> LogBefore(log, w.task.job.key, Pos(cfg, w) + 1))
  }

  ghost predicate EntryOk(cfg: Config, db: map<string, bool>, log: seq<Build>, r: Entry) {
    var all := Specs(cfg.jobs, r.key);
    && Belongs(r.key, all)
    && (if r.success then Stored(db, all) else HasFailure(db, all))
    && Builds(log, r.key) <= |all| + cfg.retry
    && (if r.success then Fails(log, r.key) <= cfg.retry else Fails(log, r.key) == cfg.retry + 1)
  }

  ghost predicate ItemsOk(cfg: Config, db: map<string, bool>, log: seq<Build>,
                          tasks: seq<Task>, flight: seq<Worker>, retry: seq<Task>, results: seq<Entry>) {
    && (forall i :: 0 <= i < |tasks| ==> TaskOk(cfg, db, log, tasks[i]))
    && (forall i :: 0 <= i < |flight| ==> WorkerOk(cfg, db, log, flight[i]))
    && (forall i :: 0 <= i < |retry| ==> TaskOk(cfg, db, log, retry[i]))
    && (forall i :: 0 <= i < |results| ==> EntryOk(cfg, db, log, results[i]))
  }

  ghost predicate AllItemsOk(cfg: Config, s: State) {
    ItemsOk(cfg, s.db, s.log, MainTasks(s.main), s.flight, s.retry, s.results)
  }

  // ------------------------------------------------------------ one job's steps

  /** Only what concerns `key` differs. */
  ghost predicate OnlyFor(key: string, db: map<string, bool>, log: seq<Build>, db': map<string, bool>,
                          log': seq<Build>) {
    && (forall t :: StripNydusV3Suffix(t) != key ==> (t in db <==> t in db') && (t in db ==> db[t] == db'[t]))
    && (log' == log || exists b: Build :: b.key == key && log' == log + [b])
  }

  lemma StoredFrame(key: string, other: string, specs: seq<Spec>, db: map<string, bool>, log: seq<Build>,
                    db': map<string, bool>, log': seq<Build>)
    requires OnlyFor(key, db, log, db', log') && other != key && Belongs(other, specs)
    ensures Stored(db, specs) <==> Stored(db', specs)
    ensures HasFailure(db, specs) <==> HasFailure(db', specs)
  {
    assert forall i :: 0 <= i < |specs| ==> StripNydusV3Suffix(specs[i].target) == other;
  }

  lemma LogFrame(key: string, other: string, db: map<string, bool>, log: seq<Build>, db': map<string, bool>,
                 log': seq<Build>)
    requires OnlyFor(key, db, log, db', log') && other != key
    ensures Builds(log', other) == Builds(log, other) && Fails(log', other) == Fails(log, other)
    ensures forall pos :: LogBefore(log, other, pos) ==> LogBefore(log', other, pos)
  {
    if log' != log {
      var b: Build :| b.key == key && log' == log + [b];
      assert log'[..|log'| - 1] == log;
    }
  }

  lemma BelongsPrefix(key: string, specs: seq<Spec>, n: nat)
    requires Belongs(key, specs) && n <= |specs|
    ensures Belongs(key, specs[..n])
  {}

  lemma TaskFrame(cfg: Config, key: string, t: Task, db: map<string, bool>, log: seq<Build>, db': map<string, bool>,
                  log': seq<Build>)
    requires OnlyFor(key, db, log, db', log') && t.job.key != key && TaskOk(cfg, db, log, t)
    ensures TaskOk(cfg, db', log', t)
  {
    hide OnlyFor, Stored, Belongs, Builds, Fails, LogBefore;
    var all := Specs(cfg.jobs, t.job.key);
    BelongsPrefix(t.job.key, all, |all| - |t.job.specs|);
    StoredFrame(key, t.job.key, all[..|all| - |t.job.specs|], db, log, db', log');
    LogFrame(key, t.job.key, db, log, db', log');
  }

  lemma WorkerFrame(cfg: Config, key: string, w: Worker, db: map<string, bool>, log: seq<Build>, db': map<string, bool>,
                    log': seq<Build>)
    requires OnlyFor(key, db, log, db', log') && w.task.job.key != key && WorkerOk(cfg, db, log, w)
    ensures WorkerOk(cfg, db', log', w)
  {
    hide OnlyFor, Stored, HasFailure, Belongs, Builds, Fails, LogBefore;
    var all := Specs(cfg.jobs, w.task.job.key);
    var done := |all| - |w.task.job.specs| + w.idx;
    BelongsPrefix(w.task.job.key, all, done);
    StoredFrame(key, w.task.job.key, all[..done], db, log, db', log');
    StoredFrame(key, w.task.job.key, all, db, log, db', log');
    LogFrame(key, w.task.job.key, db, log, db', log');
  }

  lemma EntryFrame(cfg: Config, key: string, r: Entry, db: map<string, bool>, log: seq<Build>, db': map<string, bool>,
                   log': seq<Build>)
    requires OnlyFor(key, db, log, db', log') && r.key != key && EntryOk(cfg, db, log, r)
    ensures EntryOk(cfg, db', log', r)
  {
    StoredFrame(key, r.key, Specs(cfg.jobs, r.key), db, log, db', log');
    LogFrame(key, r.key, db, log, db', log');
  }

  /** What a goroutine's step leaves for its own job. */
  ghost predicate EffectOk(cfg: Config, e: Effect) {
    && (forall i :: 0 <= i < |e.stay| ==> WorkerOk(cfg, e.db, e.log, e.stay[i]))
    && (forall i :: 0 <= i < |e.retried| ==> TaskOk(cfg, e.db, e.log, e.retried[i]))
    && (forall i :: 0 <= i < |e.finished| ==> EntryOk(cfg, e.db, e.log, e.finished[i]))
  }

  lemma LogGrows(log: seq<Build>, b: Build)
    requires LogBefore(log, b.key, b.pos)
    ensures Builds(log + [b], b.key) == Builds(log, b.key) + 1
    ensures Fails(log + [b], b.key) == Fails(log, b.key) + (if b.ok then 0 else 1)
    ensures b.ok ==> LogBefore(log + [b], b.key, b.pos + 1)
    ensures !b.ok ==> LogBefore(log + [b], b.key, b.pos)
  {
    assert (log + [b])[..|log|] == log;
  }

  lemma ExecuteOk(cfg: Config, s: State, w: Worker, ok: bool)
    requires CanAct(cfg, s, w, Execute(ok)) && WorkerOk(cfg, s.db, s.log, w)
    ensures EffectOk(cfg, EffectOf(cfg, s, w, Execute(ok)))
    ensures OnlyFor(w.task.job.key, s.db, s.log, EffectOf(cfg, s, w, Execute(ok)).db,
            EffectOf(cfg, s, w, Execute(ok)).log)
  {
    hide Stored, LogBefore, Builds, Fails, Belongs, Specs;
    var b := Build(w.task.job.key, Pos(cfg, w), ok);
    LogGrows(s.log, b);
  }

  lemma SendOk(cfg: Config, s: State, w: Worker)
    requires CanAct(cfg, s, w, Send) && WorkerOk(cfg, s.db, s.log, w)
    ensures EffectOk(cfg, EffectOf(cfg, s, w, Send))
  {
    var all := Specs(cfg.jobs, w.task.job.key);
    var t := EffectOf(cfg, s, w, Send).retried[0];
    assert t.job.specs == all[|all| - |t.job.specs|..];
    assert all[..|all| - |t.job.specs|] == all[..|all| - |w.task.job.specs| + w.idx];
  }

  /** Storing a success extends the stored part by one. */
  lemma StoreSuccess(cfg: Config, db: map<string, bool>, t: Task, idx: nat)
    requires Tail(cfg, t, idx) && DoneStored(cfg, db, t, idx) && idx < |t.job.specs|
    ensures DoneStored(cfg, db[t.job.specs[idx].target := true], t, idx + 1)
  {
    var all := Specs(cfg.jobs, t.job.key);
    var n := |all| - |t.job.specs| + idx;
    assert all[n] == t.job.specs[idx];
    assert all[..n + 1] == all[..n] + [all[n]];
  }

  lemma StoreFailure(cfg: Config, db: map<string, bool>, t: Task, idx: nat)
    requires Tail(cfg, t, idx) && idx < |t.job.specs|
    ensures HasFailure(db[t.job.specs[idx].target := false], Specs(cfg.jobs, t.job.key))
  {
    var all := Specs(cfg.jobs, t.job.key);
    var n := |all| - |t.job.specs| + idx;
    assert all[n] == t.job.specs[idx];
  }

  lemma StoreOk(cfg: Config, s: State, w: Worker, err: bool)
    requires CanAct(cfg, s, w, Store(err)) && WorkerOk(cfg, s.db, s.log, w)
    ensures EffectOk(cfg, EffectOf(cfg, s, w, Store(err)))
    ensures OnlyFor(w.task.job.key, s.db, s.log, EffectOf(cfg, s, w, Store(err)).db,
            EffectOf(cfg, s, w, Store(err)).log)
  {
    hide DoneStored, LogBefore, Builds, Fails, HasFailure;
    if !err {
      if w.pc.ok {
        StoreSuccess(cfg, s.db, w.task, w.idx);
      } else {
        StoreFailure(cfg, s.db, w.task, w.idx);
      }
      var all := Specs(cfg.jobs, w.task.job.key);
      assert all[|all| - |w.task.job.specs| + w.idx] == w.task.job.specs[w.idx];
      assert StripNydusV3Suffix(w.task.job.specs[w.idx].target) == w.task.job.key;
    }
  }

  lemma FinishOk(cfg: Config, s: State, w: Worker)
    requires CanAct(cfg, s, w, Finish) && WorkerOk(cfg, s.db, s.log, w)
    ensures EffectOk(cfg, EffectOf(cfg, s, w, Finish))
  {
    var all := Specs(cfg.jobs, w.task.job.key);
    if w.pc == Run {
      assert all[..|all|] == all;
    }
  }

  lemma ActionOk(cfg: Config, s: State, w: Worker, a: Action)
    requires CanAct(cfg, s, w, a) && WorkerOk(cfg, s.db, s.log, w)
    ensures EffectOk(cfg, EffectOf(cfg, s, w, a))
    ensures OnlyFor(w.task.job.key, s.db, s.log, EffectOf(cfg, s, w, a).db, EffectOf(cfg, s, w, a).log)
  {
    hide WorkerOk, EffectOk;
    match a
    case Execute(ok) => ExecuteOk(cfg, s, w, ok);
    case Send => SendOk(cfg, s, w);
    case Store(err) => StoreOk(cfg, s, w, err);
    case Finish => FinishOk(cfg, s, w);
  }

  // ------------------------------------------------------------- all jobs together

  /** A job in flight is nowhere else. */
  lemma Apart(cfg: Config, s: State, i: nat)
    requires NoDup(JobKeys(cfg.jobs)) && Partitioned(cfg, s) && i < |s.flight|
    ensures var key := s.flight[i].task.job.key;
      && (forall j :: 0 <= j < |MainTasks(s.main)| ==> MainTasks(s.main)[j].job.key != key)
      && (forall j :: 0 <= j < |s.flight| && j != i ==> s.flight[j].task.job.key != key)
      && (forall j :: 0 <= j < |s.retry| ==> s.retry[j].job.key != key)
      && (forall j :: 0 <= j < |s.results| ==> s.results[j].key != key)
  {
    var key := s.flight[i].task.job.key;
    NoDupOnce(JobKeys(cfg.jobs), key);
    assert PlacesOf(s, key) <= 1;
    assert WorkerKeys(s.flight)[i] == key;
    assert key in multiset(WorkerKeys(s.flight));
    forall j | 0 <= j < |s.flight| && j != i
      ensures s.flight[j].task.job.key != key
    {
      if s.flight[j].task.job.key == key {
        Once(WorkerKeys(s.flight), key, i, j);
      }
    }
    ElsewhereNot(key, MainTasks(s.main), s.retry, s.results);
  }

  lemma ElsewhereNot(key: string, tasks: seq<Task>, retry: seq<Task>, results: seq<Entry>)
    requires multiset(TaskKeys(tasks))[key] == 0 && multiset(TaskKeys(retry))[key] == 0
    requires multiset(EntryKeys(results))[key] == 0
    ensures forall j :: 0 <= j < |tasks| ==> tasks[j].job.key != key
    ensures forall j :: 0 <= j < |retry| ==> retry[j].job.key != key
    ensures forall j :: 0 <= j < |results| ==> results[j].key != key
  {
    assert key !in TaskKeys(tasks) && key !in TaskKeys(retry) && key !in EntryKeys(results);
    assert forall j :: 0 <= j < |tasks| ==> TaskKeys(tasks)[j] == tasks[j].job.key;
    assert forall j :: 0 <= j < |retry| ==> TaskKeys(retry)[j] == retry[j].job.key;
    assert forall j :: 0 <= j < |results| ==> EntryKeys(results)[j] == results[j].key;
  }

  lemma TasksFrame(cfg: Config, key: string, ts: seq<Task>, db: map<string, bool>, log: seq<Build>,
                   db': map<string, bool>, log': seq<Build>)
    requires OnlyFor(key, db, log, db', log')
    requires forall j :: 0 <= j < |ts| ==> ts[j].job.key != key && TaskOk(cfg, db, log, ts[j])
    ensures forall j :: 0 <= j < |ts| ==> TaskOk(cfg, db', log', ts[j])
  {
    hide TaskOk, OnlyFor;
    forall j | 0 <= j < |ts|
      ensures TaskOk(cfg, db', log', ts[j])
    {
      TaskFrame(cfg, key, ts[j], db, log, db', log');
    }
  }

  lemma FlightFrame(cfg: Config, s: State, i: nat, e: Effect)
    requires i < |s.flight|
    requires OnlyFor(s.flight[i].task.job.key, s.db, s.log, e.db, e.log)
    requires forall j :: 0 <= j < |s.flight| ==> WorkerOk(cfg, s.db, s.log, s.flight[j])
    requires forall j :: 0 <= j < |s.flight| && j != i ==> s.flight[j].task.job.key != s.flight[i].task.job.key
    requires forall j :: 0 <= j < |e.stay| ==> WorkerOk(cfg, e.db, e.log, e.stay[j])
    ensures var flight := s.flight[..i] + e.stay + s.flight[i + 1..];
      forall j :: 0 <= j < |flight| ==> WorkerOk(cfg, e.db, e.log, flight[j])
  {
    hide WorkerOk, OnlyFor;
    forall j | 0 <= j < |s.flight| && j != i
      ensures WorkerOk(cfg, e.db, e.log, s.flight[j])
    {
      WorkerFrame(cfg, s.flight[i].task.job.key, s.flight[j], s.db, s.log, e.db, e.log);
    }
  }

  lemma ResultsFrame(cfg: Config, key: string, rs: seq<Entry>, db: map<string, bool>, log: seq<Build>,
                     db': map<string, bool>, log': seq<Build>)
    requires OnlyFor(key, db, log, db', log')
    requires forall j :: 0 <= j < |rs| ==> rs[j].key != key && EntryOk(cfg, db, log, rs[j])
    ensures forall j :: 0 <= j < |rs| ==> EntryOk(cfg, db', log', rs[j])
  {
    hide EntryOk, OnlyFor;
    forall j | 0 <= j < |rs|
      ensures EntryOk(cfg, db', log', rs[j])
    {
      EntryFrame(cfg, key, rs[j], db, log, db', log');
    }
  }

  lemma WorkKeepsItems(cfg: Config, s: State, i: nat, a: Action)
    requires NoDup(JobKeys(cfg.jobs)) && Partitioned(cfg, s) && AllItemsOk(cfg, s)
    requires i < |s.flight| && CanAct(cfg, s, s.flight[i], a)
    ensures AllItemsOk(cfg, Apply(s, i, EffectOf(cfg, s, s.flight[i], a)))
  {
    hide EffectOf, TaskOk, WorkerOk, EntryOk, CanAct, Partitioned, NoDup;
    var e := EffectOf(cfg, s, s.flight[i], a);
    var key := s.flight[i].task.job.key;
    ActionOk(cfg, s, s.flight[i], a);
    Apart(cfg, s, i);
    TasksFrame(cfg, key, MainTasks(s.main), s.db, s.log, e.db, e.log);
    TasksFrame(cfg, key, s.retry, s.db, s.log, e.db, e.log);
    ResultsFrame(cfg, key, s.results, s.db, s.log, e.db, e.log);
    FlightFrame(cfg, s, i, e);
  }

  /** A launched task starts at its first remaining spec. */
  lemma LaunchOk(cfg: Config, s: State, t: Task, slot: nat)
    requires TaskOk(cfg, s.db, s.log, t)
    ensures WorkerOk(cfg, s.db, s.log, Worker(t, 0, Run, slot))
  {}

  lemma MainKeepsItems(cfg: Config, s: State, e: Event)
    requires Enabled(cfg, s, e) && !e.Work? && AllItemsOk(cfg, s)
    ensures AllItemsOk(cfg, Next(cfg, s, e))
  {
    hide TaskOk, WorkerOk, EntryOk, Apply, EffectOf;
    if e.Acquire? {
      LaunchOk(cfg, s, s.main.tasks[0], s.main.stage.slot);
    }
  }

  // -------------------------------------------------------------------- the flags

  /** What the error flags say about the jobs. */
  ghost predicate FlagsOk(cfg: Config, s: State) {
    && (s.fatal ==> s.failed && s.dropped != [])
    && (s.failed <==> s.fatal || exists i :: 0 <= i < |s.results| && !s.results[i].success)
    && (s.dropped != [] ==> s.canceled || (s.failed && cfg.failfast))
    && (s.fatal || (s.failed && cfg.failfast) ==> s.canceled)
  }

  lemma FlagsKept(cfg: Config, s: State, e: Event)
    requires Enabled(cfg, s, e) && FlagsOk(cfg, s)
    ensures FlagsOk(cfg, Next(cfg, s, e))
  {
    match e
    case Work(i, a) => WorkKeepsFlags(cfg, s, i, a);
    case _ =>
  }

  lemma WorkKeepsFlags(cfg: Config, s: State, i: nat, a: Action)
    requires i < |s.flight| && CanAct(cfg, s, s.flight[i], a) && FlagsOk(cfg, s)
    ensures FlagsOk(cfg, Apply(s, i, EffectOf(cfg, s, s.flight[i], a)))
  {
    var e := EffectOf(cfg, s, s.flight[i], a);
    var s' := Apply(s, i, e);
    if s.failed && !s.fatal {
      var k :| 0 <= k < |s.results| && !s.results[k].success;
      assert s'.results[k] == s.results[k];
    }
    if e.finished != [] && !e.finished[0].success {
      assert s'.results[|s.results|] == e.finished[0];
    }
  }

  /** After a success at some position of a job only later positions are built. */
  ghost predicate LogOk(log: seq<Build>) {
    forall i, j :: 0 <= i < j < |log| && log[i].key == log[j].key ==>
        log[i].pos <= log[j].pos && (log[i].ok ==> log[i].pos < log[j].pos)
  }

  lemma LogKept(cfg: Config, s: State, e: Event)
    requires Enabled(cfg, s, e) && AllItemsOk(cfg, s) && LogOk(s.log)
    ensures LogOk(Next(cfg, s, e).log)
  {
    if e.Work? && e.action.Execute? {
      var w := s.flight[e.i];
      assert WorkerOk(cfg, s.db, s.log, w);
      var b := Build(w.task.job.key, Pos(cfg, w), e.action.ok);
      assert Next(cfg, s, e).log == s.log + [b];
    }
  }

  /** The scheduling goroutine waits for a slot only with a task at hand, and returns only when nothing is left. */
  ghost predicate MainOk(s: State) {
    && (s.main.Schedule? && s.main.stage != Ready ==> s.main.tasks != [])
    && (s.main.Done? || s.main.Drain? ==> s.flight == [])
    && (s.main.Done? ==> s.retry == [])
  }

  lemma MainKept(cfg: Config, s: State, e: Event)
    requires Enabled(cfg, s, e) && MainOk(s)
    ensures MainOk(Next(cfg, s, e))
  {}

  /** No job is built more often than it has specs and retries. */
  ghost predicate BuildsBounded(cfg: Config, log: seq<Build>) {
    forall key :: Builds(log, key) <= |Specs(cfg.jobs, key)| + cfg.retry
  }

  lemma BuildsKept(cfg: Config, s: State, e: Event)
    requires Enabled(cfg, s, e) && AllItemsOk(cfg, s) && BuildsBounded(cfg, s.log)
    ensures BuildsBounded(cfg, Next(cfg, s, e).log)
  {
    if e.Work? && e.action.Execute? {
      var w := s.flight[e.i];
      assert WorkerOk(cfg, s.db, s.log, w);
      var b := Build(w.task.job.key, Pos(cfg, w), e.action.ok);
      assert Next(cfg, s, e).log == s.log + [b] && (s.log + [b])[..|s.log|] == s.log;
    }
  }

  // ------------------------------------------------------------- the worker slots

  function WorkerSlots(flight: seq<Worker>): seq<nat> {
    seq(|flight|, i requires 0 <= i < |flight| => flight[i].slot)
  }

  /** How often a slot is held: by goroutines, and by the scheduling goroutine while it waits for the global slot. */
  ghost function Holders(flight: seq<Worker>, main: Main, k: nat): nat {
    multiset(WorkerSlots(flight))[k] + (if main.Schedule? && main.stage == WantGlobal(k) then 1 else 0)
  }

  /** Every slot's count is the number of its holders and within its capacity, and the pool is not empty. */
  ghost predicate SlotsOk(cfg: Config, flight: seq<Worker>, main: Main, slots: seq<nat>, pool: seq<nat>) {
    && pool != [] && (forall k :: k in pool ==> k < |slots|)
    && (forall i :: 0 <= i < |flight| ==> flight[i].slot < |slots|)
    && (main.Schedule? && main.stage.WantGlobal? ==> main.stage.slot < |slots|)
    && (forall k :: 0 <= k < |slots| ==> slots[k] == Holders(flight, main, k) <= cfg.concurrency)
  }

  ghost predicate AllSlotsOk(cfg: Config, s: State) {
    SlotsOk(cfg, s.flight, s.main, s.slots, s.pool)
  }

  lemma WorkerSlotsSplice(a: seq<Worker>, i: nat, stay: seq<Worker>, k: nat)
    requires i < |a|
    ensures multiset(WorkerSlots(a[..i] + stay + a[i + 1..]))[k] + (if a[i].slot == k then 1 else 0)
         == multiset(WorkerSlots(a))[k] + multiset(WorkerSlots(stay))[k]
  {
    var slots := WorkerSlots(a);
    assert slots == slots[..i] + [a[i].slot] + slots[i + 1..];
    assert WorkerSlots(a[..i] + stay + a[i + 1..]) == slots[..i] + WorkerSlots(stay) + slots[i + 1..];
  }

  /** A goroutine stays in its slot or gives it back. */
  lemma EffectSlots(cfg: Config, s: State, w: Worker, a: Action, k: nat)
    requires CanAct(cfg, s, w, a)
    ensures var e := EffectOf(cfg, s, w, a);
      && (e.stay == [] || (|e.stay| == 1 && e.stay[0].slot == w.slot))
      && multiset(WorkerSlots(e.stay))[k] == if e.stay != [] && w.slot == k then 1 else 0
  {
    var e := EffectOf(cfg, s, w, a);
    assert WorkerSlots(e.stay) == if e.stay == [] then [] else [w.slot];
  }

  lemma WorkKeepsSlots(cfg: Config, s: State, i: nat, a: Action)
    requires i < |s.flight| && CanAct(cfg, s, s.flight[i], a) && AllSlotsOk(cfg, s)
    ensures AllSlotsOk(cfg, Apply(s, i, EffectOf(cfg, s, s.flight[i], a)))
  {
    hide EffectOf, CanAct, WorkerSlots;
    var w := s.flight[i];
    var e := EffectOf(cfg, s, w, a);
    var t := Apply(s, i, e);
    EffectSlots(cfg, s, w, a, 0);
    forall k: nat | k < |s.slots|
      ensures t.slots[k] == Holders(t.flight, t.main, k) <= cfg.concurrency
    {
      EffectSlots(cfg, s, w, a, k);
      WorkerSlotsSplice(s.flight, i, e.stay, k);
    }
  }

  lemma WorkerSlotsSnoc(flight: seq<Worker>, w: Worker)
    ensures WorkerSlots(flight + [w]) == WorkerSlots(flight) + [w.slot]
  {}

  lemma SlotsBelow(flight: seq<Worker>, n: nat, k: nat)
    requires (forall i :: 0 <= i < |flight| ==> flight[i].slot < n) && n <= k
    ensures multiset(WorkerSlots(flight))[k] == 0
  {
    assert k !in WorkerSlots(flight);
  }

  /** The slot at hand goes to the new goroutine. */
  lemma LaunchKeepsSlots(cfg: Config, s: State)
    requires Enabled(cfg, s, Acquire) && AllSlotsOk(cfg, s)
    ensures AllSlotsOk(cfg, Next(cfg, s, Acquire))
  {
    hide WorkerSlots, EffectOf, Apply;
    var w, t := Worker(s.main.tasks[0], 0, Run, s.main.stage.slot), Next(cfg, s, Acquire);
    WorkerSlotsSnoc(s.flight, w);
    forall k: nat | k < |s.slots|
      ensures Holders(t.flight, t.main, k) == Holders(s.flight, s.main, k)
    {
      assert multiset(WorkerSlots(s.flight) + [w.slot])[k] == multiset(WorkerSlots(s.flight))[k] + multiset{w.slot}[k];
    }
  }

  lemma MainKeepsSlots(cfg: Config, s: State, e: Event)
    requires Enabled(cfg, s, e) && !e.Work? && AllSlotsOk(cfg, s)
    ensures AllSlotsOk(cfg, Next(cfg, s, e))
  {
    hide WorkerSlots, EffectOf, Apply, TaskKeys;
    if e.Acquire? {
      LaunchKeepsSlots(cfg, s);
    } else if e.Refresh? {
      RefreshKeepsSlots(cfg, s, e.listed, e.added);
    } else if e.Pick? {
      PickKeepsSlots(cfg, s, e.slot);
    } else {
      GiveUpKeepsSlots(cfg, s);
      if !e.Refuse? && !e.Cancel? {
        OnlyHolders(cfg, s, Next(cfg, s, e).main);
      }
    }
  }

  lemma PickKeepsSlots(cfg: Config, s: State, slot: nat)
    requires Enabled(cfg, s, Pick(slot)) && AllSlotsOk(cfg, s)
    ensures AllSlotsOk(cfg, Next(cfg, s, Pick(slot)))
  {
    hide WorkerSlots, EffectOf, Apply;
    var t := Next(cfg, s, Pick(slot));
    forall k: nat | k < |t.slots|
      ensures t.slots[k] == Holders(t.flight, t.main, k) <= cfg.concurrency
    {
      assert s.slots[k] == Holders(s.flight, s.main, k);
    }
  }

  lemma GiveUpKeepsSlots(cfg: Config, s: State)
    requires AllSlotsOk(cfg, s)
    ensures AllSlotsOk(cfg, GiveUp(s))
  {
    hide WorkerSlots, TaskKeys;
    var t := GiveUp(s);
    forall k: nat | k < |t.slots|
      ensures t.slots[k] == Holders(t.flight, t.main, k) <= cfg.concurrency
    {
      assert s.slots[k] == Holders(s.flight, s.main, k);
    }
  }

  /** Where the scheduling goroutine is matters only while it holds a slot. */
  lemma OnlyHolders(cfg: Config, s: State, main: Main)
    requires AllSlotsOk(cfg, s)
    requires !(s.main.Schedule? && s.main.stage.WantGlobal?) && !(main.Schedule? && main.stage.WantGlobal?)
    ensures SlotsOk(cfg, s.flight, main, s.slots, s.pool)
  {
    hide WorkerSlots;
    forall k: nat | k < |s.slots|
      ensures s.slots[k] == Holders(s.flight, main, k) <= cfg.concurrency
    {
      assert s.slots[k] == Holders(s.flight, s.main, k);
    }
  }

  lemma RefreshKeepsSlots(cfg: Config, s: State, listed: seq<nat>, added: nat)
    requires Enabled(cfg, s, Refresh(listed, added)) && AllSlotsOk(cfg, s)
    ensures AllSlotsOk(cfg, Next(cfg, s, Refresh(listed, added)))
  {
    hide WorkerSlots, Apply, EffectOf;
    forall k: nat | |s.slots| <= k < |s.slots| + added
      ensures Holders(s.flight, s.main, k) == 0
    {
      SlotsBelow(s.flight, |s.slots|, k);
    }
  }

  lemma InitSlots(cfg: Config, db: map<string, bool>)
    requires cfg.workers >= 1
    ensures AllSlotsOk(cfg, Init(cfg, db))
  {
    var s := Init(cfg, db);
    assert WorkerSlots(s.flight) == [];
    assert s.pool[0] == 0;
  }

  // ---------------------------------------------------------------- the invariant

  ghost predicate Inv(cfg: Config, s: State) {
    Partitioned(cfg, s) && AllItemsOk(cfg, s) && FlagsOk(cfg, s) && LogOk(s.log) && MainOk(s)
        && BuildsBounded(cfg, s.log)
    && AllSlotsOk(cfg, s)
  }

  lemma {:induction false} SpecsOf(jobs: seq<Job>, i: nat)
    requires i < |jobs| && NoDup(JobKeys(jobs))
    ensures Specs(jobs, jobs[i].key) == jobs[i].specs
  {
    if i > 0 {
      assert JobKeys(jobs)[0] == jobs[0].key && JobKeys(jobs)[i] == jobs[i].key;
      assert JobKeys(jobs[1..]) == JobKeys(jobs)[1..];
      SpecsOf(jobs[1..], i - 1);
    }
  }

  lemma InitInv(cfg: Config, db: map<string, bool>)
    requires ConfigOk(cfg)
    ensures Inv(cfg, Init(cfg, db))
  {
    InitSlots(cfg, db);
    var s := Init(cfg, db);
    assert TaskKeys(FirstTasks(cfg.jobs)) == JobKeys(cfg.jobs);
    assert TaskKeys([]) == [] && WorkerKeys([]) == [] && EntryKeys([]) == [];
    forall i | 0 <= i < |cfg.jobs|
      ensures TaskOk(cfg, db, [], Task(cfg.jobs[i], 0))
    {
      SpecsOf(cfg.jobs, i);
      assert Belongs(cfg.jobs[i].key, cfg.jobs[i].specs);
    }
  }

  lemma NextInv(cfg: Config, s: State, e: Event)
    requires ConfigOk(cfg) && Inv(cfg, s) && Enabled(cfg, s, e)
    ensures Inv(cfg, Next(cfg, s, e))
  {
    hide Partitioned, AllItemsOk, FlagsOk, LogOk, MainOk, BuildsBounded, AllSlotsOk, Apply, EffectOf, CanAct;
    PartitionKept(cfg, s, e);
    FlagsKept(cfg, s, e);
    LogKept(cfg, s, e);
    MainKept(cfg, s, e);
    BuildsKept(cfg, s, e);
    if e.Work? {
      WorkKeepsItems(cfg, s, e.i, e.action);
      WorkKeepsSlots(cfg, s, e.i, e.action);
    } else {
      MainKeepsItems(cfg, s, e);
      MainKeepsSlots(cfg, s, e);
    }
  }

  lemma {:induction false} RunInv(cfg: Config, db: map<string, bool>, states: seq<State>, events: seq<Event>, k: nat)
    requires ConfigOk(cfg) && IsRun(cfg, db, states, events) && k < |states|
    ensures Inv(cfg, states[k])
  {
    hide Inv, Enabled, Next, Init, ConfigOk;
    if k == 0 {
      InitInv(cfg, db);
    } else {
      RunInv(cfg, db, states, events, k - 1);
      assert states[k - 1 + 1] == Next(cfg, states[k - 1], events[k - 1]);
      NextInv(cfg, states[k - 1], events[k - 1]);
    }
  }
}

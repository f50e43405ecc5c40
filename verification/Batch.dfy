/**
 The batch build and retry engine (internal/buildbatch/build_command_batch.go)
 as a transition system: the scheduling goroutine, one goroutine for each build
 in flight, the bounded retry channel, the wait group and the result store.
 */
module Batch {
  import opened Basics
  import opened Targets

  datatype Spec = Spec(dir: string, target: string, scheduleKey: string, oci: bool)

  datatype Job = Job(key: string, scheduleKey: string, specs: seq<Spec>)

  datatype Task = Task(job: Job, attempt: nat)

  /** `workers` is the number of worker addresses at the start; each has as many slots as builds may run at once. */
  datatype Config = Config(jobs: seq<Job>, retry: nat, failfast: bool, concurrency: nat, workers: nat)

  /**
   Where a build goroutine is: running its next spec, sending itself to the
   retry channel, storing a result, or past the break.
   */
  datatype Pc = Run | Sending | Storing(ok: bool) | Broken

  /** A build goroutine and the worker slot that it holds. */
  datatype Worker = Worker(task: Task, idx: nat, pc: Pc, slot: nat)

  /** What `scheduleTask` waits for: nothing yet, a worker slot, or the global slot with a worker slot at hand. */
  datatype Stage = Ready | WantWorker | WantGlobal(slot: nat)

  /** Where the scheduling goroutine is. */
  datatype Main =
    | Schedule(tasks: seq<Task>, stage: Stage)
    | Wait
    | Drain(drained: seq<Task>)
    | Done

  datatype Entry = Entry(key: string, success: bool)

  /** One executed build: of which job, at which position of its specs, and how it ended. */
  datatype Build = Build(key: string, pos: int, ok: bool)

  /**
   `slots` are the counts of all slot objects ever made and `pool` those in the
   pool now; `dropped` and `log` are history: the jobs given up and the builds
   executed.
   */
  datatype State = State(
    main: Main,
    flight: seq<Worker>,
    retry: seq<Task>,
    results: seq<Entry>,
    dropped: seq<string>,
    db: map<string, bool>,
    log: seq<Build>,
    failed: bool,
    fatal: bool,
    canceled: bool,
    slots: seq<nat>,
    pool: seq<nat>)

  function Init(cfg: Config, db: map<string, bool>): State {
    State(Schedule(FirstTasks(cfg.jobs), Ready), [], [], [], [], db, [], false, false, false,
          Empty(cfg.workers), seq(cfg.workers, i => i))
  }

  /** New slots, nobody in them. */
  function Empty(n: nat): (r: seq<nat>)
    ensures |r| == n && forall i :: 0 <= i < n ==> r[i] == 0
  {
    seq(n, i => 0)
  }

  function FirstTasks(jobs: seq<Job>): (r: seq<Task>)
    ensures |r| == |jobs| && forall i :: 0 <= i < |r| ==> r[i] == Task(jobs[i], 0)
  {
    seq(|jobs|, i requires 0 <= i < |jobs| => Task(jobs[i], 0))
  }

  function MainTasks(m: Main): seq<Task> {
    match m
    case Schedule(tasks, _) => tasks
    case Drain(tasks) => tasks
    case _ => []
  }

  function TaskKeys(tasks: seq<Task>): seq<string> {
    seq(|tasks|, i requires 0 <= i < |tasks| => tasks[i].job.key)
  }

  function WorkerKeys(workers: seq<Worker>): seq<string> {
    seq(|workers|, i requires 0 <= i < |workers| => workers[i].task.job.key)
  }

  function EntryKeys(entries: seq<Entry>): seq<string> {
    seq(|entries|, i requires 0 <= i < |entries| => entries[i].key)
  }

  function JobKeys(jobs: seq<Job>): seq<string> {
    seq(|jobs|, i requires 0 <= i < |jobs| => jobs[i].key)
  }

  /** The specs a job started with. */
  function Specs(jobs: seq<Job>, key: string): seq<Spec> {
    if jobs == [] then []
    else if jobs[0].key == key then jobs[0].specs
    else Specs(jobs[1..], key)
  }

  /** What one step of a build goroutine does. */
  datatype Action = Execute(ok: bool) | Send | Store(err: bool) | Finish

  datatype Effect = Effect(
    stay: seq<Worker>,
    retried: seq<Task>,
    finished: seq<Entry>,
    lost: seq<string>,
    db: map<string, bool>,
    log: seq<Build>,
    failed: bool,
    fatal: bool,
    canceled: bool)

  predicate CanAct(cfg: Config, s: State, w: Worker, a: Action) {
    match a
    case Execute(_) => w.pc == Run && w.idx < |w.task.job.specs|
    case Send => w.pc == Sending && w.idx < |w.task.job.specs| && |s.retry| < |cfg.jobs|
    case Store(_) => w.pc.Storing? && w.idx < |w.task.job.specs|
    case Finish => (w.pc == Run && w.idx >= |w.task.job.specs|) || w.pc == Broken
  }

  /** The position a goroutine is at, counted in the job's original specs. */
  function Pos(cfg: Config, w: Worker): int {
    |Specs(cfg.jobs, w.task.job.key)| - |w.task.job.specs| + w.idx
  }

  function EffectOf(cfg: Config, s: State, w: Worker, a: Action): Effect
    requires CanAct(cfg, s, w, a)
  {
    var t := w.task;
    var none := Effect([], [], [], [], s.db, s.log, s.failed, s.fatal, s.canceled);
    match a
    case Execute(ok) =>
      var pc := if !ok && t.attempt < cfg.retry then Sending else Storing(ok);
      none.(stay := [w.(pc := pc)], log := s.log + [Build(t.job.key, Pos(cfg, w), ok)])
    case Send =>
      none.(retried := [Task(Job(t.job.key, t.job.scheduleKey, t.job.specs[w.idx..]), t.attempt + 1)])
    case Store(err) =>
      if err then none.(lost := [t.job.key], failed := true, fatal := true, canceled := true)
      else none.(stay := [if w.pc.ok then w.(idx := w.idx + 1, pc := Run) else w.(pc := Broken)],
                 db := s.db[t.job.specs[w.idx].target := w.pc.ok])
    case Finish =>
      var success := w.pc == Run;
      none.(finished := [Entry(t.job.key, success)], failed := s.failed || !success,
            canceled := s.canceled || (!success && cfg.failfast))
  }

  /** A slot is given back. */
  function Release(slots: seq<nat>, slot: nat): (r: seq<nat>)
    ensures |r| == |slots|
  {
    if slot < |slots| && slots[slot] > 0 then slots[slot := slots[slot] - 1] else slots
  }

  /** A goroutine that ends gives its worker slot and its global slot back. */
  function Apply(s: State, i: nat, e: Effect): State
    requires i < |s.flight|
  {
    State(s.main, s.flight[..i] + e.stay + s.flight[i + 1..], s.retry + e.retried, s.results + e.finished,
          s.dropped + e.lost, e.db, e.log, e.failed, e.fatal, e.canceled,
          if e.stay == [] then Release(s.slots, s.flight[i].slot) else s.slots, s.pool)
  }

  datatype Event =
    | Check
    | Pick(slot: nat)
    | Acquire
    | Refuse
    | LoopEnd
    | Joined
    | More
    | Work(i: nat, action: Action)
    | Cancel
    | Refresh(listed: seq<nat>, added: nat)

  /** `scheduleTask` gives up before waiting for a slot. */
  predicate Stopped(cfg: Config, s: State) {
    (s.failed && cfg.failfast) || s.canceled
  }

  predicate Enabled(cfg: Config, s: State, e: Event) {
    match e
    case Check => s.main.Schedule? && s.main.stage == Ready && s.main.tasks != []
    case Pick(slot) =>
      s.main.Schedule? && s.main.stage == WantWorker && slot in s.pool && slot < |s.slots|
          && s.slots[slot] < cfg.concurrency
    case Acquire => s.main.Schedule? && s.main.stage.WantGlobal? && s.main.tasks != [] && |s.flight| < cfg.concurrency
    case Refuse => s.main.Schedule? && s.main.stage != Ready && s.canceled
    case LoopEnd => s.main.Schedule? && s.main.stage == Ready && s.main.tasks == []
    case Joined => s.main.Wait? && s.flight == []
    case More => s.main.Drain?
    case Work(i, action) => i < |s.flight| && CanAct(cfg, s, s.flight[i], action)
    case Cancel => !s.canceled
    case Refresh(listed, added) =>
      !s.main.Done? && listed != [] && forall k :: k in listed ==> k in s.pool || |s.slots| <= k < |s.slots| + added
  }

  /**
   The scheduling loop breaks: the task at hand and those behind it are given
   up, and a worker slot at hand goes back.
   */
  function GiveUp(s: State): State {
    s.(main := Wait, dropped := s.dropped + TaskKeys(MainTasks(s.main)),
       slots := if s.main.Schedule? && s.main.stage.WantGlobal? then Release(s.slots, s.main.stage.slot) else s.slots)
  }

  function Next(cfg: Config, s: State, e: Event): State
    requires Enabled(cfg, s, e)
  {
    match e
    case Check => if Stopped(cfg, s) then GiveUp(s) else s.(main := Schedule(s.main.tasks, WantWorker))
    case Pick(slot) => s.(main := Schedule(s.main.tasks, WantGlobal(slot)), slots := s.slots[slot := s.slots[slot] + 1])
    case Acquire =>
      s.(main := Schedule(s.main.tasks[1..], Ready),
          flight := s.flight + [Worker(s.main.tasks[0], 0, Run, s.main.stage.slot)])
    case Refuse => GiveUp(s)
    case LoopEnd => s.(main := Wait)
    case Joined =>
      if s.retry == [] then s.(main := Done)
      else s.(main := Drain([s.retry[0]]), retry := s.retry[1..])
    case More =>
      if s.retry == [] then s.(main := Schedule(s.main.drained, Ready))
      else s.(main := Drain(s.main.drained + [s.retry[0]]), retry := s.retry[1..])
    case Work(i, action) => Apply(s, i, EffectOf(cfg, s, s.flight[i], action))
    case Cancel => s.(canceled := true)
    case Refresh(listed, added) => s.(slots := s.slots + Empty(added), pool := listed)
  }

  ghost predicate IsRun(cfg: Config, db: map<string, bool>, states: seq<State>, events: seq<Event>) {
    && |states| == |events| + 1
    && states[0] == Init(cfg, db)
    && forall i :: 0 <= i < |events| ==>
         Enabled(cfg, states[i], events[i]) && states[i + 1] == Next(cfg, states[i], events[i])
  }

  /**
   What the batch was given: a worker, and jobs with distinct keys, each holding
   the specs whose target belongs to the key.
   */
  ghost predicate ConfigOk(cfg: Config) {
    && cfg.concurrency >= 1 && cfg.workers >= 1
    && NoDup(JobKeys(cfg.jobs))
    && forall j :: 0 <= j < |cfg.jobs| ==> Belongs(cfg.jobs[j].key, cfg.jobs[j].specs)
  }

  ghost predicate Belongs(key: string, specs: seq<Spec>) {
    forall i :: 0 <= i < |specs| ==> StripNydusV3Suffix(specs[i].target) == key
  }

  /** What the run returns: no error. */
  predicate ReturnsNil(s: State) {
    !s.fatal && !s.failed
  }
}

/**
 In which order a batch launches its jobs and their retries, what it launches,
 and that it launches nothing once it is stopped.
 */
module BatchOrder {
  import opened Batch
  import opened BatchInvariants

  // ----------------------------------------------------------------- launches and retries

  /** The task that a step launches. */
  function Launch(s: State, e: Event): seq<Task> {
    if e == Acquire && s.main.Schedule? && s.main.tasks != [] then [s.main.tasks[0]] else []
  }

  /** What a step sends to be tried again: the rest of the job from the spec that failed on, one attempt later. */
  function Resend(s: State, e: Event): seq<Task> {
    if e.Work? && e.action == Send && e.i < |s.flight| && s.flight[e.i].idx <= |s.flight[e.i].task.job.specs| then
      var w := s.flight[e.i];
      [Task(Job(w.task.job.key, w.task.job.scheduleKey, w.task.job.specs[w.idx..]), w.task.attempt + 1)]
    else []
  }

  function Launched(states: seq<State>, events: seq<Event>, k: nat): seq<Task>
    requires k <= |events| <= |states|
  {
    if k == 0 then [] else Launched(states, events, k - 1) + Launch(states[k - 1], events[k - 1])
  }

  function Resent(states: seq<State>, events: seq<Event>, k: nat): seq<Task>
    requires k <= |events| <= |states|
  {
    if k == 0 then [] else Resent(states, events, k - 1) + Resend(states[k - 1], events[k - 1])
  }

  /** The step gives up what is still to be scheduled. */
  predicate GivesUp(cfg: Config, s: State, e: Event) {
    e == Refuse || (e == Check && Stopped(cfg, s))
  }

  predicate GaveUp(cfg: Config, states: seq<State>, events: seq<Event>, k: nat)
    requires k <= |events| <= |states|
  {
    k > 0 && (GaveUp(cfg, states, events, k - 1) || GivesUp(cfg, states[k - 1], events[k - 1]))
  }

  /**
   As long as nothing is given up, what was launched, what is at hand and what
   waits in the channel are the jobs and their retries in order; from then on
   nothing is launched.
   */
  ghost predicate Orderly(cfg: Config, s: State, launched: seq<Task>, resent: seq<Task>, gaveUp: bool) {
    var all := FirstTasks(cfg.jobs) + resent;
    if gaveUp then launched <= all && Stopped(cfg, s) && (s.main.Schedule? ==> s.main.stage == Ready)
    else launched + MainTasks(s.main) + s.retry == all
  }

  lemma StepIsOrderly(cfg: Config, s: State, e: Event, launched: seq<Task>, resent: seq<Task>, gaveUp: bool)
    requires Enabled(cfg, s, e) && Orderly(cfg, s, launched, resent, gaveUp)
    ensures Orderly(cfg, Next(cfg, s, e), launched + Launch(s, e), resent + Resend(s, e), gaveUp || GivesUp(cfg, s, e))
  {
    hide Release, FirstTasks;
    var first := FirstTasks(cfg.jobs);
    if e.Work? {
      WorkIsOrderly(cfg, s, e.i, e.action, launched, resent, gaveUp);
    } else {
      assert resent + Resend(s, e) == resent;
      MainIsOrderly(cfg, s, e, launched, resent, gaveUp);
    }
  }

  lemma WorkIsOrderly(cfg: Config, s: State, i: nat, a: Action, launched: seq<Task>, resent: seq<Task>, gaveUp: bool)
    requires Enabled(cfg, s, Work(i, a)) && Orderly(cfg, s, launched, resent, gaveUp)
    ensures Orderly(cfg, Next(cfg, s, Work(i, a)), launched, resent + Resend(s, Work(i, a)), gaveUp)
    ensures launched + Launch(s, Work(i, a)) == launched
  {
    hide Release, FirstTasks;
    var first, more := FirstTasks(cfg.jobs), Resend(s, Work(i, a));
    assert first + (resent + more) == (first + resent) + more;
    assert Next(cfg, s, Work(i, a)).retry == s.retry + more;
    assert launched + MainTasks(s.main) + (s.retry + more) == (launched + MainTasks(s.main) + s.retry) + more;
  }

  lemma MainIsOrderly(cfg: Config, s: State, e: Event, launched: seq<Task>, resent: seq<Task>, gaveUp: bool)
    requires Enabled(cfg, s, e) && !e.Work? && Orderly(cfg, s, launched, resent, gaveUp)
    ensures Orderly(cfg, Next(cfg, s, e), launched + Launch(s, e), resent, gaveUp || GivesUp(cfg, s, e))
  {
    hide Release, FirstTasks, Next, Enabled, MainTasks, Launch;
    var t := Next(cfg, s, e);
    var new', rest, before := Launch(s, e), MainTasks(t.main), MainTasks(s.main);
    Associate(launched, before, s.retry);
    if gaveUp || GivesUp(cfg, s, e) {
      StoppedStays(cfg, s, e, gaveUp);
      assert launched + [] == launched;
    } else {
      TasksMove(cfg, s, e);
      Associate(launched + new', rest, t.retry);
      Associate(launched, new', rest + t.retry);
    }
  }

  lemma Associate<T>(a: seq<T>, b: seq<T>, c: seq<T>)
    ensures (a + b) + c == a + (b + c)
  {}

  lemma StoppedStays(cfg: Config, s: State, e: Event, gaveUp: bool)
    requires Enabled(cfg, s, e) && (gaveUp || GivesUp(cfg, s, e))
    requires gaveUp ==> Stopped(cfg, s) && (s.main.Schedule? ==> s.main.stage == Ready)
    ensures var t := Next(cfg, s, e);
      Stopped(cfg, t) && (t.main.Schedule? ==> t.main.stage == Ready) && Launch(s, e) == []
  {
    hide Release;
  }

  /** A step that gives nothing up moves tasks from the channel to the hand and from the hand to a goroutine. */
  lemma TasksMove(cfg: Config, s: State, e: Event)
    requires Enabled(cfg, s, e) && !e.Work? && !GivesUp(cfg, s, e)
    ensures var t := Next(cfg, s, e);
      Launch(s, e) + (MainTasks(t.main) + t.retry) == MainTasks(s.main) + s.retry
  {
    hide Apply, EffectOf;
    if e == Acquire {
      HeadFirst(s.main.tasks, s.retry);
    } else if (e == Joined || e == More) && s.retry != [] {
      HeadMoves(MainTasks(s.main), s.retry);
      assert [] + [s.retry[0]] == [s.retry[0]];
      NothingBefore(MainTasks(Next(cfg, s, e).main) + Next(cfg, s, e).retry);
    } else {
      var t := Next(cfg, s, e);
      assert MainTasks(t.main) == MainTasks(s.main) && t.retry == s.retry;
      NothingBefore(MainTasks(t.main) + t.retry);
    }
  }

  lemma HeadFirst<T>(a: seq<T>, b: seq<T>)
    requires a != []
    ensures [a[0]] + (a[1..] + b) == a + b
  {}

  lemma HeadMoves<T>(a: seq<T>, b: seq<T>)
    requires b != []
    ensures (a + [b[0]]) + b[1..] == a + b
  {}

  lemma NothingBefore<T>(a: seq<T>)
    ensures [] + a == a
  {}

  lemma {:induction false} RunIsOrderly(
    cfg: Config, db: map<string, bool>, states: seq<State>, events: seq<Event>, k: nat)
    requires IsRun(cfg, db, states, events) && k < |states|
    ensures Orderly(cfg, states[k], Launched(states, events, k), Resent(states, events, k),
            GaveUp(cfg, states, events, k))
  {
    hide Enabled, Next, Orderly, Launch, Resend, GivesUp;
    if k == 0 {
      StartIsOrderly(cfg, db);
    } else {
      RunIsOrderly(cfg, db, states, events, k - 1);
      assert states[k - 1 + 1] == Next(cfg, states[k - 1], events[k - 1]);
      StepIsOrderly(cfg, states[k - 1], events[k - 1], Launched(states, events, k - 1), Resent(states, events, k - 1),
                    GaveUp(cfg, states, events, k - 1));
    }
  }

  lemma StartIsOrderly(cfg: Config, db: map<string, bool>)
    ensures Orderly(cfg, Init(cfg, db), [], [], false)
  {
    var first := FirstTasks(cfg.jobs);
    assert [] + first + [] == first == first + [];
  }

  /**
   In every run jobs are launched in the order given, and then what was sent to be
   tried again, in the order in which it was sent.
   */
  lemma LaunchedInOrder(cfg: Config, db: map<string, bool>, states: seq<State>, events: seq<Event>, k: nat)
    requires IsRun(cfg, db, states, events) && k < |states|
    ensures Launched(states, events, k) <= FirstTasks(cfg.jobs) + Resent(states, events, k)
    ensures !GaveUp(cfg, states, events, k) && states[k].main.Done? ==>
              Launched(states, events, k) == FirstTasks(cfg.jobs) + Resent(states, events, k)
  {
    hide FirstTasks, Launched, Resent, Enabled, Next, Init;
    RunIsOrderly(cfg, db, states, events, k);
    var s, launched := states[k], Launched(states, events, k);
    assert launched + MainTasks(s.main) + s.retry == launched + (MainTasks(s.main) + s.retry);
    if s.main.Done? {
      DoneIsEmpty(cfg, db, states, events, k);
      assert launched + [] + [] == launched;
    }
  }

  lemma {:induction false} DoneIsEmpty(
    cfg: Config, db: map<string, bool>, states: seq<State>, events: seq<Event>, k: nat)
    requires IsRun(cfg, db, states, events) && k < |states|
    ensures MainOk(states[k])
  {
    hide Enabled, Next, MainOk;
    if k == 0 {
      StartIsFine(cfg, db);
    } else {
      DoneIsEmpty(cfg, db, states, events, k - 1);
      assert states[k - 1 + 1] == Next(cfg, states[k - 1], events[k - 1]);
      MainKept(cfg, states[k - 1], events[k - 1]);
    }
  }

  lemma StartIsFine(cfg: Config, db: map<string, bool>)
    ensures MainOk(Init(cfg, db))
  {}

  // -------------------------------------------------------------------- once it is stopped

  /** How many tasks can still be launched once the batch is stopped: the one that is past the check. */
  function StillToLaunch(s: State): nat {
    if s.main.Schedule? && s.main.stage != Ready then 1 else 0
  }

  lemma StoppedLaunchesLess(cfg: Config, s: State, e: Event)
    requires Enabled(cfg, s, e) && Stopped(cfg, s)
    ensures Stopped(cfg, Next(cfg, s, e))
    ensures |Launch(s, e)| + StillToLaunch(Next(cfg, s, e)) <= StillToLaunch(s)
  {
    hide Release;
  }

  /**
   Once a run is canceled, or a job has failed with fail-fast, at most one more
   task is launched, and none unless one was past its check already.
   */
  lemma {:induction false} StoppedLaunchesNoMore(
    cfg: Config, db: map<string, bool>, states: seq<State>, events: seq<Event>, i: nat, j: nat)
    requires IsRun(cfg, db, states, events) && i <= j < |states|
    requires states[i].canceled || (states[i].failed && cfg.failfast)
    ensures Stopped(cfg, states[j])
    ensures |Launched(states, events, j)| + StillToLaunch(states[j])
            <= |Launched(states, events, i)| + StillToLaunch(states[i])
    decreases j - i
  {
    hide Enabled, Next, Launch, StillToLaunch;
    if i < j {
      StoppedLaunchesNoMore(cfg, db, states, events, i, j - 1);
      assert states[j - 1 + 1] == Next(cfg, states[j - 1], events[j - 1]);
      StoppedLaunchesLess(cfg, states[j - 1], events[j - 1]);
    }
  }

  // --------------------------------------------------------------------- what a task is

  /** The task is the end of a job, with the job's key and schedule key. */
  ghost predicate OfJob(cfg: Config, t: Task) {
    exists j, n :: EndOf(cfg, t, j, n)
  }

  predicate EndOf(cfg: Config, t: Task, j: int, n: int) {
    0 <= j < |cfg.jobs| && 0 <= n <= |cfg.jobs[j].specs|
    && t.job == Job(cfg.jobs[j].key, cfg.jobs[j].scheduleKey, cfg.jobs[j].specs[n..])
  }

  ghost predicate AllOfJobs(cfg: Config, s: State) {
    && (forall t :: t in MainTasks(s.main) ==> OfJob(cfg, t))
    && (forall w :: w in s.flight ==> OfJob(cfg, w.task))
    && (forall t :: t in s.retry ==> OfJob(cfg, t))
  }

  lemma ResentIsOfJob(cfg: Config, s: State, i: nat)
    requires i < |s.flight| && OfJob(cfg, s.flight[i].task) && s.flight[i].idx <= |s.flight[i].task.job.specs|
    ensures forall t :: t in Resend(s, Work(i, Send)) ==> OfJob(cfg, t)
  {
    var w := s.flight[i];
    var j, n :| EndOf(cfg, w.task, j, n);
    assert w.task.job.specs[w.idx..] == cfg.jobs[j].specs[n + w.idx..];
    forall t | t in Resend(s, Work(i, Send))
      ensures OfJob(cfg, t)
    {
      assert EndOf(cfg, t, j, n + w.idx);
    }
  }

  lemma WorkKeepsJobs(cfg: Config, s: State, i: nat, a: Action)
    requires Enabled(cfg, s, Work(i, a)) && AllOfJobs(cfg, s)
    ensures AllOfJobs(cfg, Next(cfg, s, Work(i, a)))
  {
    hide OfJob, Release;
    var more := Resend(s, Work(i, a));
    if a == Send {
      ResentIsOfJob(cfg, s, i);
    }
    var t := Next(cfg, s, Work(i, a));
    assert t.retry == s.retry + more;
    var stay := EffectOf(cfg, s, s.flight[i], a).stay;
    assert t.flight == s.flight[..i] + stay + s.flight[i + 1..];
    assert forall k :: 0 <= k < |stay| ==> stay[k].task == s.flight[i].task;
  }

  lemma StepKeepsJobs(cfg: Config, s: State, e: Event)
    requires Enabled(cfg, s, e) && AllOfJobs(cfg, s)
    ensures AllOfJobs(cfg, Next(cfg, s, e))
  {
    hide OfJob, Release, Apply, EffectOf;
    if e.Work? {
      WorkKeepsJobs(cfg, s, e.i, e.action);
    }
  }

  /** In every run each task keeps the key and schedule key of its job and holds the end of the job's specs. */
  lemma {:induction false} TasksKeepTheirJob(
    cfg: Config, db: map<string, bool>, states: seq<State>, events: seq<Event>, k: nat)
    requires IsRun(cfg, db, states, events) && k < |states|
    ensures AllOfJobs(cfg, states[k])
  {
    hide Enabled, Next, AllOfJobs;
    if k == 0 {
      FirstOfJobs(cfg, db);
    } else {
      TasksKeepTheirJob(cfg, db, states, events, k - 1);
      assert states[k - 1 + 1] == Next(cfg, states[k - 1], events[k - 1]);
      StepKeepsJobs(cfg, states[k - 1], events[k - 1]);
    }
  }

  lemma FirstOfJobs(cfg: Config, db: map<string, bool>)
    ensures AllOfJobs(cfg, Init(cfg, db))
  {
    var tasks := FirstTasks(cfg.jobs);
    forall i | 0 <= i < |tasks|
      ensures OfJob(cfg, tasks[i])
    {
      assert cfg.jobs[i].specs[0..] == cfg.jobs[i].specs;
      assert EndOf(cfg, tasks[i], i, 0);
    }
  }
}

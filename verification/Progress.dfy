/**
 The daemon's goroutines come to an end on their own. Every step of one uses up
 some of the steps, retries and workers that its task still has, so goroutines
 alone cannot go on forever, and from every state of every run they can go on
 until none is busy and every open queue is empty.
 */
module Progress {
  import opened Basics
  import opened Tasks
  import opened Ledger
  import opened TaskQueue
  import opened Daemon
  import opened Semaphores
  import opened Ownership
  import opened Lifecycle
  import opened RunnerCalls
  import opened DaemonTheorems
  import opened Occupancy
  import opened Reachability
  import opened Sums
  import BuildModes

  // ------------------------------------------------------------- what a task has left

  /** Workers not yet excluded, retries and steps that remain, the later ones weighing more. */
  ghost function AttemptsLeft(universe: set<Addr>, job: Job, run: Run): nat {
    |universe - run.excluded|
    + (|universe| + 1) * (Minus(job.retry, run.attempt) + (job.retry + 1) * Minus(job.steps, run.step))
  }

  lemma NoneExcluded(universe: set<Addr>)
    ensures universe - {} == universe
  {}

  lemma OneLess(n: nat, a: int, b: int)
    requires a < b
    ensures n * a + n <= n * b
  {
    assert n * (b - a - 1) >= 0;
  }

  lemma NextStepCosts(universe: set<Addr>, job: Job, run: Run)
    requires run.step < job.steps
    ensures AttemptsLeft(universe, job, Run(run.id, run.step + 1, 0, {})) < AttemptsLeft(universe, job, run)
  {
    NoneExcluded(universe);
    var r := job.retry + 1;
    var before := Minus(job.retry, run.attempt) + r * Minus(job.steps, run.step);
    var after := job.retry + r * Minus(job.steps, run.step + 1);
    OneLess(r, Minus(job.steps, run.step + 1), Minus(job.steps, run.step));
    OneLess(|universe| + 1, after, before);
  }

  lemma RetryCosts(universe: set<Addr>, job: Job, run: Run)
    requires run.attempt < job.retry
    ensures AttemptsLeft(universe, job, Run(run.id, run.step, run.attempt + 1, {})) < AttemptsLeft(universe, job, run)
  {
    NoneExcluded(universe);
    var rest := (job.retry + 1) * Minus(job.steps, run.step);
    OneLess(|universe| + 1, Minus(job.retry, run.attempt + 1) + rest, Minus(job.retry, run.attempt) + rest);
  }

  lemma FailoverCosts(universe: set<Addr>, job: Job, run: Run, addr: Addr)
    requires addr in universe && addr !in run.excluded
    ensures AttemptsLeft(universe, job, run.(excluded := run.excluded + {addr})) < AttemptsLeft(universe, job, run)
  {
    var after := run.excluded + {addr};
    assert universe - run.excluded == (universe - after) + {addr};
  }

  // ------------------------------------------------------------ what a goroutine weighs

  /** How far an attempt is from its end, with at most `width` workers in the pool. */
  function Rank(pc: Pc, width: nat): nat
    requires HasRun(pc)
  {
    match pc
    case Requeueing(_) => width + 13
    case BackingOff(_) => width + 12
    case AtStep(_) => width + 12
    case Refreshing(_) => width + 12
    case Marking(_) => width + 11
    case WantGlobal(_) => width + 10
    case Snapshotting(_) => width + 9
    case Trying(_, cands, k) => Minus(|cands|, k) + 8
    case WantSlot(_, _) => 7
    case Assigning(_, _) => 6
    case Building(_, _) => 5
    case FreeingSlot(_, _, _) => 4
    case FreeingGlobal(_, _) => 3
    case Returned(_, _) => 2
  }

  function JobAt(jobs: map<Id, Job>, id: Id): Job {
    if id in jobs then jobs[id] else Job("", 0, 0)
  }

  ghost function RunWeight(cfg: Config, jobs: map<Id, Job>, run: Run, width: nat): nat {
    (width + 14) * AttemptsLeft(cfg.universe, JobAt(jobs, run.id), run) + 3
  }

  ghost function StartWeight(cfg: Config, jobs: map<Id, Job>, id: Id, width: nat): nat {
    RunWeight(cfg, jobs, Run(id, 0, 0, {}), width) + width + 14
  }

  ghost function PcWeight(cfg: Config, jobs: map<Id, Job>, pc: Pc, width: nat): nat {
    if HasRun(pc) then RunWeight(cfg, jobs, pc.run, width) + Rank(pc, width)
    else match pc
      case Starting(id) => StartWeight(cfg, jobs, id, width)
      case Finishing(_, _) => 3
      case Closing(_) => 2
      case Idle => 1
      case _ => 0
  }

  lemma {:induction false} CandidatesInPool(slots: seq<Slot>, pool: seq<nat>, order: seq<nat>, excluded: set<Addr>)
    requires forall i :: 0 <= i < |order| ==> order[i] < |pool|
    requires forall i :: 0 <= i < |pool| ==> pool[i] < |slots|
    ensures |Candidates(slots, pool, order, excluded)| <= |order|
  {
    if order != [] {
      CandidatesInPool(slots, pool, order[..|order| - 1], excluded);
    }
  }

  /** A step other than the decision after an attempt stays with its run and comes nearer to its end. */
  lemma RankFalls(cfg: Config, s: State, p: Pid, pc: Pc, a: Act, width: nat)
    requires Busy(pc) && !a.Decide? && EffectOf(cfg, s, p, pc, a).Some? && |s.pool| <= width
    ensures var pc' := EffectOf(cfg, s, p, pc, a).value.pc;
      && (HasRun(pc) ==> pc'.Finishing? || (HasRun(pc') && pc'.run == pc.run && Rank(pc', width) < Rank(pc, width)))
      && (pc.Starting? ==> pc' == AtStep(Run(pc.id, 0, 0, {})) || pc'.Finishing? || pc'.Closing?)
      && (pc.Finishing? ==> pc'.Closing?)
      && (pc.Closing? ==> pc'.Idle? || pc'.Exited?)
  {
    hide Candidates;
    if a.TakeSnapshot? {
      CandidatesInPool(s.slots, s.pool, a.order, pc.run.excluded);
    }
  }

  /** The decision after an attempt ends the task or uses up a step, a retry or a worker. */
  lemma DecisionCosts(cfg: Config, s: State, p: Pid)
    requires Inv(cfg, s) && p in s.procs && s.procs[p].Returned?
    ensures s.procs[p].run.id in s.book.jobs
    ensures var pc := s.procs[p];
      var job := s.book.jobs[pc.run.id];
      var pc' := AfterAttempt(job, pc.run.id in s.ctxDone, pc.run, pc.outcome);
      && (pc'.Finishing? || pc'.AtStep? || pc'.Refreshing? || pc'.Requeueing?)
      && (!pc'.Finishing? ==>
            && pc'.run.id == pc.run.id
            && AttemptsLeft(cfg.universe, job, pc'.run) < AttemptsLeft(cfg.universe, job, pc.run))
  {
    hide Inv, AttemptsLeft;
    var pc := s.procs[p];
    RunInRange(cfg, s, p);
    var job := s.book.jobs[pc.run.id];
    NextStepCosts(cfg.universe, job, pc.run);
    if pc.run.attempt < job.retry {
      RetryCosts(cfg.universe, job, pc.run);
    }
    if pc.outcome.BuildError? {
      FailedWorkerKnown(cfg, s, p);
      FailoverCosts(cfg.universe, job, pc.run, pc.outcome.addr);
    }
  }

  lemma RunInRange(cfg: Config, s: State, p: Pid)
    requires Inv(cfg, s) && p in s.procs && s.procs[p].Returned?
    ensures s.procs[p].run.id in s.book.jobs && s.procs[p].run.step < s.book.jobs[s.procs[p].run.id].steps
  {
    hide BookOk, SemOk, OwnOk, LifeOk, LogsOk, Behind, InStep;
    OwnerLogged(cfg, s, p);
  }

  lemma ProcWeighs(cfg: Config, s: State, p: Pid, a: Act, width: nat)
    requires Inv(cfg, s) && Enabled(cfg, s, ProcEv(p, a)) && |s.pool| <= width
    ensures PcWeight(cfg, s.book.jobs, EffectOf(cfg, s, p, s.procs[p], a).value.pc, width)
            < PcWeight(cfg, s.book.jobs, s.procs[p], width)
  {
    hide Inv, EffectOf, AttemptsLeft;
    if a.Decide? {
      DecideIs(cfg, s, p);
      DecisionCosts(cfg, s, p);
      var pc := s.procs[p];
      var pc' := EffectOf(cfg, s, p, pc, a).value.pc;
      if !pc'.Finishing? {
        var job := s.book.jobs[pc.run.id];
        OneLess(width + 14, AttemptsLeft(cfg.universe, job, pc'.run), AttemptsLeft(cfg.universe, job, pc.run));
      }
    } else {
      RankFalls(cfg, s, p, s.procs[p], a, width);
    }
  }

  lemma DecideIs(cfg: Config, s: State, p: Pid)
    requires p in s.procs && EffectOf(cfg, s, p, s.procs[p], Decide).Some?
    ensures var pc := s.procs[p];
      && pc.Returned? && pc.run.id in s.book.jobs
      && EffectOf(cfg, s, p, pc, Decide).value.pc
         == AfterAttempt(s.book.jobs[pc.run.id], pc.run.id in s.ctxDone, pc.run, pc.outcome)
  {}

  // ---------------------------------------------------------------- what all of it weighs

  ghost function ProcWeights(cfg: Config, s: State, width: nat): map<Pid, int> {
    map p | p in s.procs :: PcWeight(cfg, s.book.jobs, s.procs[p], width)
  }

  ghost function IdsWeight(cfg: Config, jobs: map<Id, Job>, ids: seq<Id>, width: nat): nat {
    if ids == [] then 0 else StartWeight(cfg, jobs, ids[0], width) + IdsWeight(cfg, jobs, ids[1..], width)
  }

  ghost function QueueWeights(cfg: Config, s: State, width: nat): map<string, int> {
    map mode | mode in s.queues :: IdsWeight(cfg, s.book.jobs, s.queues[mode].ids, width)
  }

  /** What the goroutines and the queued tasks can still do. */
  ghost function Weight(cfg: Config, s: State, width: nat): nat {
    TotalNotNegative(ProcWeights(cfg, s, width));
    TotalNotNegative(QueueWeights(cfg, s, width));
    Total(ProcWeights(cfg, s, width)) + Total(QueueWeights(cfg, s, width))
  }

  /** A step of one of the daemon's goroutines on its own. */
  predicate Own(ev: Event) {
    ev.ProcEv? || ev.PopEv? || ev.RetireEv?
  }

  lemma ProcStepWeighs(cfg: Config, s: State, p: Pid, a: Act, width: nat)
    requires Inv(cfg, s) && Enabled(cfg, s, ProcEv(p, a)) && |s.pool| <= width
    ensures Weight(cfg, Next(cfg, s, ProcEv(p, a)), width) < Weight(cfg, s, width)
  {
    hide Inv, EffectOf, Next, PcWeight, IdsWeight;
    var t := Next(cfg, s, ProcEv(p, a));
    var pc' := EffectOf(cfg, s, p, s.procs[p], a).value.pc;
    ProcFrame(cfg, s, p, a);
    JobsStay(cfg, s, p, a);
    ProcWeighs(cfg, s, p, a, width);
    var before := ProcWeights(cfg, s, width);
    assert ProcWeights(cfg, t, width) == before[p := PcWeight(cfg, s.book.jobs, pc', width)];
    assert QueueWeights(cfg, t, width) == QueueWeights(cfg, s, width);
    TotalStored(before, p, PcWeight(cfg, s.book.jobs, pc', width));
  }

  lemma JobsStay(cfg: Config, s: State, p: Pid, a: Act)
    requires Enabled(cfg, s, ProcEv(p, a))
    ensures Next(cfg, s, ProcEv(p, a)).book.jobs == s.book.jobs
  {
    hide EffectOf, Perform, SlotsAfter, Replace;
    OnlyAdmissionAdds(cfg, s, p, s.procs[p], a);
    PerformFrame(cfg.keepTtl, s.book, EffectOf(cfg, s, p, s.procs[p], a).value.op);
  }

  lemma PopWeighs(cfg: Config, s: State, p: Pid, width: nat)
    requires Enabled(cfg, s, PopEv(p))
    ensures Weight(cfg, Next(cfg, s, PopEv(p)), width) < Weight(cfg, s, width)
  {
    hide EffectOf, PcWeight, StartWeight, IdsWeight, Next;
    var t := Next(cfg, s, PopEv(p));
    PopIs(cfg, s, p);
    var jobs, ids := s.book.jobs, s.queues[p.mode].ids;
    FirstIdWeighs(cfg, jobs, ids, width);
    RestWeighs(cfg, jobs, ids[0], width);
    var procs, queues := ProcWeights(cfg, s, width), QueueWeights(cfg, s, width);
    assert ProcWeights(cfg, t, width) == procs[p := StartWeight(cfg, jobs, ids[0], width)];
    assert QueueWeights(cfg, t, width) == queues[p.mode := IdsWeight(cfg, jobs, ids[1..], width)];
    TotalStored(procs, p, StartWeight(cfg, jobs, ids[0], width));
    TotalStored(queues, p.mode, IdsWeight(cfg, jobs, ids[1..], width));
  }

  lemma FirstIdWeighs(cfg: Config, jobs: map<Id, Job>, ids: seq<Id>, width: nat)
    requires ids != []
    ensures IdsWeight(cfg, jobs, ids, width)
            == StartWeight(cfg, jobs, ids[0], width) + IdsWeight(cfg, jobs, ids[1..], width)
  {}

  lemma RestWeighs(cfg: Config, jobs: map<Id, Job>, id: Id, width: nat)
    ensures PcWeight(cfg, jobs, Idle, width) == 1 && PcWeight(cfg, jobs, Exited, width) == 0
    ensures PcWeight(cfg, jobs, Starting(id), width) == StartWeight(cfg, jobs, id, width)
  {}

  lemma RetireWeighs(cfg: Config, s: State, p: Pid, width: nat)
    requires Enabled(cfg, s, RetireEv(p))
    ensures Weight(cfg, Next(cfg, s, RetireEv(p)), width) < Weight(cfg, s, width)
  {
    hide EffectOf, ApplyEffect, PcWeight, IdsWeight, Perform;
    var t := Next(cfg, s, RetireEv(p));
    RestWeighs(cfg, s.book.jobs, 0, width);
    assert ProcWeights(cfg, t, width) == ProcWeights(cfg, s, width)[p := 0];
    assert QueueWeights(cfg, t, width) == QueueWeights(cfg, s, width);
    TotalStored(ProcWeights(cfg, s, width), p, 0);
  }

  /** Every step of a goroutine lowers the weight. */
  lemma OwnStepWeighs(cfg: Config, s: State, ev: Event, width: nat)
    requires Inv(cfg, s) && Enabled(cfg, s, ev) && Own(ev) && |s.pool| <= width
    ensures Weight(cfg, Next(cfg, s, ev), width) < Weight(cfg, s, width)
  {
    hide Inv, Enabled, Next, Weight;
    match ev
    case ProcEv(p, a) => ProcStepWeighs(cfg, s, p, a, width);
    case PopEv(p) => PopWeighs(cfg, s, p, width);
    case RetireEv(p) => RetireWeighs(cfg, s, p, width);
  }

  /**
   Goroutines alone do not go on forever: in every run, a stretch of nothing but
   their steps, while the pool has at most `width` workers, is no longer than what
   the state before it weighs.
   */
  lemma {:induction false} OwnStepsEnd(
    cfg: Config, addrs: seq<Addr>, states: seq<State>, events: seq<Event>, i: nat, j: nat, width: nat)
    requires IsRun(cfg, addrs, states, events) && i <= j < |states|
    requires forall k :: i <= k < j ==> Own(events[k]) && |states[k].pool| <= width
    ensures j - i + Weight(cfg, states[j], width) <= Weight(cfg, states[i], width)
    decreases j - i
  {
    hide Inv, Enabled, Next, Init, Weight, Own;
    if i < j {
      OwnStepsEnd(cfg, addrs, states, events, i, j - 1, width);
      RunInv(cfg, addrs, states, events, j - 1);
      assert states[j - 1 + 1] == Next(cfg, states[j - 1], events[j - 1]);
      OwnStepWeighs(cfg, states[j - 1], events[j - 1], width);
    }
  }

  // ------------------------------------------------------------------ until all is done

  /** A mode worker leaves only a closed queue. */
  ghost predicate Retired(s: State) {
    forall p :: p in s.procs && p.ModeWorker? && s.procs[p].Exited? ==> p.mode in s.queues && s.queues[p.mode].closed
  }

  lemma NextKeepsRetired(cfg: Config, s: State, ev: Event)
    requires Retired(s) && Enabled(cfg, s, ev)
    ensures Retired(Next(cfg, s, ev))
  {
    hide Next, EffectOf;
    if ev.ProcEv? {
      ProcFrame(cfg, s, ev.p, ev.a);
      NeverExits(cfg, s, ev.p, s.procs[ev.p], ev.a);
    } else {
      OthersKeepRetired(cfg, s, ev);
    }
  }

  lemma OthersKeepRetired(cfg: Config, s: State, ev: Event)
    requires Retired(s) && Enabled(cfg, s, ev) && !ev.ProcEv?
    ensures Retired(Next(cfg, s, ev))
  {
    hide EffectOf, ApplyEffect, Perform, Replace, SweepAfter, LiveIds, CancelsAfter, RefuseAfter;
  }

  lemma NeverExits(cfg: Config, s: State, p: Pid, pc: Pc, a: Act)
    requires Busy(pc) && EffectOf(cfg, s, p, pc, a).Some?
    ensures p.ModeWorker? ==> !EffectOf(cfg, s, p, pc, a).value.pc.Exited?
  {}

  lemma {:induction false} RunRetired(
    cfg: Config, addrs: seq<Addr>, states: seq<State>, events: seq<Event>, i: nat)
    requires IsRun(cfg, addrs, states, events) && i < |states|
    ensures Retired(states[i])
  {
    hide Enabled, Next, Retired;
    if i == 0 {
      NobodyRetired(cfg, addrs);
    } else {
      RunRetired(cfg, addrs, states, events, i - 1);
      assert states[i - 1 + 1] == Next(cfg, states[i - 1], events[i - 1]);
      NextKeepsRetired(cfg, states[i - 1], events[i - 1]);
    }
  }

  lemma NobodyRetired(cfg: Config, addrs: seq<Addr>)
    ensures Retired(Init(cfg, addrs))
  {}

  /** No goroutine works on a task and no open queue holds one. */
  ghost predicate Settled(s: State) {
    && (forall p :: p in s.procs ==> !Busy(s.procs[p]))
    && (forall mode :: mode in s.queues ==> !Ready(s.queues[mode]))
  }

  /** A goroutine that pops, or takes a step without giving up and without touching the pool. */
  ghost predicate GoesOn(ev: Event) {
    ev.PopEv? || (ev.ProcEv? && !GivesUp(ev.a) && Request(ev).None?)
  }

  /** Until all is settled some goroutine can go on. */
  lemma SomeoneGoesOn(cfg: Config, s: State) returns (ev: Event)
    requires ConfigOk(cfg) && Inv(cfg, s) && Retired(s) && !Settled(s)
    ensures Enabled(cfg, s, ev) && GoesOn(ev)
  {
    hide Inv, EffectOf, Forward;
    if p :| p in s.procs && Busy(s.procs[p]) {
      var q := SomeoneSteps(cfg, s, p);
      ForwardIsQuiet(s, q);
      ev := ProcEv(q, Forward(s, s.procs[q]));
    } else {
      var mode :| mode in s.queues && Ready(s.queues[mode]);
      WorkerThere(cfg, s, mode);
      ev := PopEv(ModeWorker(mode, 0));
    }
  }

  lemma ForwardIsQuiet(s: State, q: Pid)
    requires q in s.procs && Busy(s.procs[q])
    ensures Request(ProcEv(q, Forward(s, s.procs[q]))).None?
  {}

  lemma WorkerThere(cfg: Config, s: State, mode: string)
    requires ConfigOk(cfg) && Inv(cfg, s) && mode in s.queues
    ensures ModeWorker(mode, 0) in s.procs
  {
    hide BookOk, SemOk, LifeOk, CallInv, ProcsOwn, QueuesOwn, AdmOwns, ClosedOk;
    assert (mode, 0) in BuildModes.Workers(cfg.modes);
  }

  lemma GoingOnKeepsPool(cfg: Config, s: State, ev: Event)
    requires Enabled(cfg, s, ev) && GoesOn(ev)
    ensures Next(cfg, s, ev).pool == s.pool && Own(ev)
  {
    hide EffectOf, Perform;
    if ev.ProcEv? {
      RefreshActs(cfg, s, ev.p, s.procs[ev.p], ev.a);
    }
  }

  /**
   From every state that a run reaches, goroutine steps alone, none of them
   giving up, lead to a state in which no goroutine is busy and every open queue
   is empty, within the weight of that state.
   */
  lemma {:induction false} GoroutinesFinish(cfg: Config, addrs: seq<Addr>, events: seq<Event>, s: State)
    returns (more: seq<Event>, t: State)
    requires Reaches(cfg, addrs, events, s)
    ensures Reaches(cfg, addrs, events + more, t) && Settled(t)
    ensures forall i :: 0 <= i < |more| ==> GoesOn(more[i])
    ensures |more| <= Weight(cfg, s, |s.pool|)
    decreases Weight(cfg, s, |s.pool|)
  {
    hide Reaches, Inv, Retired, Enabled, Next, Settled, GoesOn, Weight, ConfigOk;
    if Settled(s) {
      more, t := [], s;
      assert events + more == events;
    } else {
      ReachedFacts(cfg, addrs, events, s);
      var ev := SomeoneGoesOn(cfg, s);
      GoingOnKeepsPool(cfg, s, ev);
      OwnStepWeighs(cfg, s, ev, |s.pool|);
      ReachNext(cfg, addrs, events, s, ev);
      more, t := GoroutinesFinish(cfg, addrs, events + [ev], Next(cfg, s, ev));
      assert events + ([ev] + more) == events + [ev] + more;
      more := [ev] + more;
    }
  }

  lemma ReachedFacts(cfg: Config, addrs: seq<Addr>, events: seq<Event>, s: State)
    requires Reaches(cfg, addrs, events, s)
    ensures ConfigOk(cfg) && Inv(cfg, s) && Retired(s)
  {
    hide Inv, Retired, Init, Next, Enabled;
    var states := RunOf(cfg, addrs, events, s);
    RunInv(cfg, addrs, states, events, |events|);
    RunRetired(cfg, addrs, states, events, |events|);
  }
}

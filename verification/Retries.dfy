/**
 The two retry loops of a build task: what follows a failed attempt, why a task
 is given up as failed or as canceled, and that all the retries a request asked
 for are made.
 */
module Retries {
  import opened Basics
  import opened Tasks
  import opened Ledger
  import opened Daemon
  import opened Semaphores
  import opened Ownership
  import opened Lifecycle
  import opened RunnerCalls
  import opened DaemonTheorems
  import opened Reachability
  import opened History
  import BuildModes

  // ------------------------------------------------------------ after an attempt

  /** The build service may do better on another worker. */
  predicate MayFailOver(outcome: Outcome) {
    outcome.BuildError? && outcome.retryable
  }

  /** No further attempt can help, or none is left. */
  predicate Hopeless(job: Job, run: Run, outcome: Outcome) {
    !MayFailOver(outcome) && ((outcome.BuildError? && outcome.deterministic) || run.attempt == job.retry)
  }

  lemma AttemptInRange(cfg: Config, s: State, p: Pid)
    requires Inv(cfg, s) && p in s.procs && s.procs[p].Returned?
    ensures s.procs[p].run.id in s.book.jobs && s.procs[p].run.attempt <= s.book.jobs[s.procs[p].run.id].retry
  {
    hide BookOk, SemOk, OwnOk, LifeOk, LogsOk, Behind, InStep;
    OwnerLogged(cfg, s, p);
  }

  /**
   A built step leads to the next one, an ended context to a canceled task. After any other
   attempt the task fails exactly when no failover is left to try and the error is
   deterministic or the retries are used up; else a failover goes on without the worker
   that failed, and a retry with the next attempt and all workers.
   */
  lemma AttemptDecided(cfg: Config, addrs: seq<Addr>, states: seq<State>, events: seq<Event>, i: nat, p: Pid)
    requires IsRun(cfg, addrs, states, events) && i < |events| && events[i] == ProcEv(p, Decide)
    ensures p in states[i].procs && states[i].procs[p].Returned? && states[i].procs[p].run.id in states[i].book.jobs
    ensures p in states[i + 1].procs
    ensures var s, run, outcome, next := states[i], states[i].procs[p].run, states[i].procs[p].outcome,
                                         states[i + 1].procs[p];
      var job := s.book.jobs[run.id];
      && (outcome.Built? ==> next == AtStep(Run(run.id, run.step + 1, 0, {})))
      && (!outcome.Built? && run.id in s.ctxDone ==> next == Finishing(run.id, Canceled))
      && (!outcome.Built? && run.id !in s.ctxDone ==>
            && (next == Finishing(run.id, Failed) <==> Hopeless(job, run, outcome))
            && (MayFailOver(outcome) ==> next == Refreshing(run.(excluded := run.excluded + {outcome.addr})))
            && (!MayFailOver(outcome) && !Hopeless(job, run, outcome) ==>
                  run.attempt < job.retry && next == Requeueing(Run(run.id, run.step, run.attempt + 1, {}))))
  {
    hide Inv, Init, EffectOf, Next;
    assert states[i + 1] == Next(cfg, states[i], events[i]);
    RunInv(cfg, addrs, states, events, i);
    DecisionIs(cfg, states[i], p);
    AttemptInRange(cfg, states[i], p);
    ProcFrame(cfg, states[i], p, Decide);
  }

  lemma DecisionIs(cfg: Config, s: State, p: Pid)
    requires Enabled(cfg, s, ProcEv(p, Decide))
    ensures p in s.procs && s.procs[p].Returned? && s.procs[p].run.id in s.book.jobs
    ensures var run, outcome, next := s.procs[p].run, s.procs[p].outcome,
                                      EffectOf(cfg, s, p, s.procs[p], Decide).value.pc;
      var job := s.book.jobs[run.id];
      && (outcome.Built? ==> next == AtStep(Run(run.id, run.step + 1, 0, {})))
      && (!outcome.Built? && run.id in s.ctxDone ==> next == Finishing(run.id, Canceled))
      && (!outcome.Built? && run.id !in s.ctxDone && run.attempt <= job.retry ==>
            && (next == Finishing(run.id, Failed) <==> Hopeless(job, run, outcome))
            && (MayFailOver(outcome) ==> next == Refreshing(run.(excluded := run.excluded + {outcome.addr})))
            && (!MayFailOver(outcome) && !Hopeless(job, run, outcome) ==>
                  run.attempt < job.retry && next == Requeueing(Run(run.id, run.step, run.attempt + 1, {}))))
  {}

  /**
   A task that is gone or canceled is closed without an attempt; a task succeeds exactly when no
   step is left; every other step is attempted, unless its build context cannot be made.
   */
  lemma StepDecided(cfg: Config, addrs: seq<Addr>, states: seq<State>, events: seq<Event>, i: nat, p: Pid)
    requires IsRun(cfg, addrs, states, events) && i < |events| && events[i].ProcEv? && events[i].p == p
    requires events[i].a.Begin? || events[i].a.BeginStep?
    ensures p in states[i].procs && p in states[i + 1].procs
    ensures var s, a, pc, next := states[i], events[i].a, states[i].procs[p], states[i + 1].procs[p];
      && (a.Begin? ==>
            && pc.Starting?
            && var gone := pc.id !in s.book.store || s.book.store[pc.id].status == Canceled;
              && (next == Closing(pc.id) <==> gone)
              && (next == Finishing(pc.id, Failed) <==> !gone && !a.logOk)
              && (next == AtStep(Run(pc.id, 0, 0, {})) <==> !gone && a.logOk))
      && (a.BeginStep? ==>
            && pc.AtStep? && pc.run.id in s.book.jobs
            && var done := pc.run.step == s.book.jobs[pc.run.id].steps;
              && (next == Finishing(pc.run.id, Succeeded) <==> done)
              && (next == Finishing(pc.run.id, Failed) <==> !done && !a.contextOk && pc.run.step > 0)
              && (next == Marking(pc.run) <==> !done && (a.contextOk || pc.run.step == 0)))
  {
    hide Inv, Init, Next;
    assert states[i + 1] == Next(cfg, states[i], events[i]);
    RunInv(cfg, addrs, states, events, i);
    StepInRange(cfg, states[i], p);
    ProcFrame(cfg, states[i], p, events[i].a);
  }

  lemma StepInRange(cfg: Config, s: State, p: Pid)
    requires Inv(cfg, s) && p in s.procs
    ensures s.procs[p].AtStep? ==>
              s.procs[p].run.id in s.book.jobs && s.procs[p].run.step <= s.book.jobs[s.procs[p].run.id].steps
  {
    hide BookOk, SemOk, OwnOk, LifeOk, LogsOk, Behind, InStep;
    if s.procs[p].AtStep? {
      OwnerLogged(cfg, s, p);
    }
  }

  // ------------------------------------------------------------ why a task is given up

  /** By this event the goroutine gives the task up as failed. */
  ghost predicate GivesUpTask(s: State, p: Pid, ev: Event, id: Id) {
    p in s.procs && ev.ProcEv? && ev.p == p &&
    match s.procs[p]
    case Starting(x) => x == id && ev.a == Begin(false)
    case AtStep(run) => run.id == id && run.step > 0 && ev.a == BeginStep(false)
    case Returned(run, outcome) =>
      && run.id == id && ev.a == Decide && id in s.book.jobs && id !in s.ctxDone
      && !outcome.Built? && Hopeless(s.book.jobs[id], run, outcome)
    case _ => false
  }

  lemma TurnsToFailed(cfg: Config, s: State, p: Pid, a: Act, id: Id)
    requires Inv(cfg, s) && p in s.procs && Busy(s.procs[p]) && EffectOf(cfg, s, p, s.procs[p], a).Some?
    ensures EffectOf(cfg, s, p, s.procs[p], a).value.pc == Finishing(id, Failed) ==>
              GivesUpTask(s, p, ProcEv(p, a), id)
    ensures EffectOf(cfg, s, p, s.procs[p], a).value.pc == Finishing(id, Canceled) ==> id in s.ctxDone
  {
    hide Inv;
    if a.Decide? {
      AttemptInRange(cfg, s, p);
    }
  }

  /** A goroutine that is about to conclude its task as failed gave it up for one of the reasons above. */
  lemma FailureHasCause(cfg: Config, addrs: seq<Addr>, states: seq<State>, events: seq<Event>, j: nat, p: Pid, id: Id)
    returns (i: nat)
    requires IsRun(cfg, addrs, states, events) && j < |states|
    requires p in states[j].procs && states[j].procs[p] == Finishing(id, Failed)
    ensures i < j && GivesUpTask(states[i], p, events[i], id)
  {
    hide IsRun, Inv, EffectOf, GivesUpTask;
    i := LastStep(cfg, addrs, states, events, j, p);
    RunInv(cfg, addrs, states, events, i);
    TurnsToFailed(cfg, states[i], p, events[i].a, id);
  }

  /** A goroutine concludes its task as canceled only when the task's context has ended. */
  lemma CancellationHasCause(cfg: Config, addrs: seq<Addr>, states: seq<State>, events: seq<Event>, j: nat, p: Pid,
                             id: Id)
    requires IsRun(cfg, addrs, states, events) && j < |states|
    requires p in states[j].procs && states[j].procs[p] == Finishing(id, Canceled)
    ensures id in states[j].ctxDone
  {
    hide IsRun, Inv, EffectOf, GivesUpTask;
    var i := LastStep(cfg, addrs, states, events, j, p);
    RunInv(cfg, addrs, states, events, i);
    TurnsToFailed(cfg, states[i], p, events[i].a, id);
    CtxDoneForGood(cfg, addrs, states, events, i, j);
  }

  /** A wait for a semaphore or for the next attempt is given up only when the task's context has ended. */
  lemma WaitGivenUp(cfg: Config, addrs: seq<Addr>, states: seq<State>, events: seq<Event>, i: nat, p: Pid)
    requires IsRun(cfg, addrs, states, events) && i < |events| && events[i].ProcEv? && events[i].p == p
    requires events[i].a.AbandonGlobal? || events[i].a.AbandonSlot? || events[i].a.BackoffCanceled?
    ensures p in states[i].procs && Busy(states[i].procs[p]) && TaskOf(states[i].procs[p]) in states[i].ctxDone
  {
    hide Next, Init;
  }

  // ------------------------------------------------------------ what is observed

  lemma ObservationOp(keepTtl: nat, b: Book, op: Op, id: Id)
    requires id !in b.observed && id in Perform(keepTtl, b, op).observed
    ensures op == Finish(id, Perform(keepTtl, b, op).observed[id])
  {}

  lemma ConclusionEvent(cfg: Config, s: State, ev: Event, id: Id, status: Status)
    requires Enabled(cfg, s, ev) && OpOf(cfg, s, ev) == Finish(id, status) && status != Canceled
    ensures ev.ProcEv? && ev.a == FinishNow && ev.p in s.procs && s.procs[ev.p] == Finishing(id, status)
  {}

  /** A task is observed as succeeded or failed only by its own goroutine, which came to that end. */
  lemma ObservedByOwner(cfg: Config, addrs: seq<Addr>, states: seq<State>, events: seq<Event>, i: nat, id: Id)
    requires IsRun(cfg, addrs, states, events) && i < |events|
    requires id !in states[i].book.observed && id in states[i + 1].book.observed
    requires states[i + 1].book.observed[id] != Canceled
    ensures events[i].ProcEv? && events[i].a == FinishNow && events[i].p in states[i].procs
    ensures states[i].procs[events[i].p] == Finishing(id, states[i + 1].book.observed[id])
  {
    hide Init, Next, Enabled, Perform, OpOf;
    BookFollows(cfg, states[i], events[i]);
    ObservationOp(cfg.keepTtl, states[i].book, OpOf(cfg, states[i], events[i]), id);
    ConclusionEvent(cfg, states[i], events[i], id, states[i + 1].book.observed[id]);
  }

  /** Every task that was ever observed as failed was given up for one of the reasons above. */
  lemma {:induction false} ObservedFailureHasCause(cfg: Config, addrs: seq<Addr>, states: seq<State>,
                                                   events: seq<Event>, j: nat, id: Id) returns (i: nat, p: Pid)
    requires IsRun(cfg, addrs, states, events) && j < |states|
    requires id in states[j].book.observed && states[j].book.observed[id] == Failed
    ensures i < j && GivesUpTask(states[i], p, events[i], id)
    decreases j
  {
    hide Inv, Init, Next, Enabled, GivesUpTask, Advances;
    if j == 0 {
      NothingObserved(cfg, addrs);
    }
    i := j - 1;
    assert states[i + 1] == Next(cfg, states[i], events[i]);
    if id in states[i].book.observed {
      TerminalIsFinal(cfg, addrs, states, events, i, j, id);
      i, p := ObservedFailureHasCause(cfg, addrs, states, events, i, id);
    } else {
      ObservedByOwner(cfg, addrs, states, events, i, id);
      p := events[i].p;
      i := FailureHasCause(cfg, addrs, states, events, i, p, id);
    }
  }

  lemma NothingObserved(cfg: Config, addrs: seq<Addr>)
    ensures Init(cfg, addrs).book.observed == map[]
  {}

  /** A goroutine's conclusion is shown and observed, unless the task was canceled before. */
  lemma ConclusionShown(cfg: Config, addrs: seq<Addr>, states: seq<State>, events: seq<Event>, i: nat, p: Pid)
    requires IsRun(cfg, addrs, states, events) && i < |events| && events[i] == ProcEv(p, FinishNow)
    ensures p in states[i].procs && states[i].procs[p].Finishing?
    ensures var id, status, b, c := states[i].procs[p].id, states[i].procs[p].status, states[i].book,
            states[i + 1].book;
      id in b.store && !b.store[id].observed && (status == Canceled || b.store[id].status != Canceled) ==>
        && id in c.store && c.store[id].status == status && c.store[id].finishedAt == Some(b.clock)
        && id in c.observed && c.observed[id] == status
  {
    hide Init, Next;
    assert states[i + 1] == Next(cfg, states[i], events[i]);
    BookFollows(cfg, states[i], events[i]);
  }

  // ------------------------------------------------------------ all retries are made

  /** The calls of the first `n` attempts at the first step, all of which failed. */
  predicate FailedCalls(calls: seq<Call>, n: nat) {
    |calls| == n
    && forall i :: 0 <= i < n ==> calls[i].step == 0 && calls[i].attempt == i && calls[i].result == CallFailed
  }

  /** The goroutine is at `pc` with its task, which nobody canceled, and the first worker of the pool is there. */
  ghost predicate Underway(s: State, p: Pid, pc: Pc, id: Id, retry: nat) {
    && p in s.procs && s.procs[p] == pc
    && id in s.book.jobs && s.book.jobs[id].steps == 1 && s.book.jobs[id].retry == retry
    && id in s.book.store && Live(s.book.store[id]) && !s.book.store[id].observed
    && id !in s.ctxDone && id in s.calls && PoolOk(s) && s.pool != []
  }

  lemma RequeueLives(keepTtl: nat, b: Book, id: Id)
    requires id in b.store && Live(b.store[id]) && !b.store[id].observed
    ensures var c := Perform(keepTtl, b, Requeue(id));
      c.jobs == b.jobs && id in c.store && Live(c.store[id]) && !c.store[id].observed
  {}

  lemma AssignLives(keepTtl: nat, b: Book, id: Id, addr: Addr)
    requires id in b.store && Live(b.store[id]) && !b.store[id].observed
    ensures var c := Perform(keepTtl, b, Assign(id, addr));
      c.jobs == b.jobs && id in c.store && Live(c.store[id]) && !c.store[id].observed
  {}

  /** An attempt comes to look at the pool. */
  lemma AttemptStarts(cfg: Config, addrs: seq<Addr>, events: seq<Event>, s: State, p: Pid, run: Run, retry: nat)
    returns (all: seq<Event>, t: State)
    requires Reaches(cfg, addrs, events, s) && Underway(s, p, Marking(run), run.id, retry) && GlobalRoom(cfg, s)
    ensures Reaches(cfg, addrs, all, t) && Underway(t, p, Snapshotting(run), run.id, retry)
    ensures t.slots == s.slots && t.pool == s.pool && t.calls == s.calls
    ensures t.global == s.global + (if cfg.globalCap == 0 then 0 else 1)
  {
    hide Reaches, Requests, Perform;
    RequeueLives(cfg.keepTtl, s.book, run.id);
    all, t := ProcStep(cfg, addrs, events, s, p, MarkTask);
    SkipIs(cfg.keepTtl, t.book);
    all, t := ProcStep(cfg, addrs, all, t, p, AcquireGlobal);
  }

  lemma SkipIs(keepTtl: nat, b: Book)
    ensures Perform(keepTtl, b, Skip) == b
  {}

  /** It looks at the pool, the first slot first. */
  lemma AttemptLooks(cfg: Config, addrs: seq<Addr>, events: seq<Event>, s: State, p: Pid, run: Run, retry: nat)
    returns (all: seq<Event>, t: State)
    requires Reaches(cfg, addrs, events, s) && Underway(s, p, Snapshotting(run), run.id, retry) && run.excluded == {}
    ensures Reaches(cfg, addrs, all, t) && p in t.procs && Underway(t, p, t.procs[p], run.id, retry)
    ensures var pc := t.procs[p]; pc.Trying? && pc.run == run && pc.k == 0 && pc.cands != [] && pc.cands[0] == s.pool[0]
    ensures t.slots == s.slots && t.pool == s.pool && t.calls == s.calls && t.global == s.global
  {
    hide Reaches, Requests, EffectOf, IsOrder, Perform, Candidates;
    var order := From(0, |s.pool|);
    SnapshotIs(cfg, s, p, run, order);
    SkipIs(cfg.keepTtl, s.book);
    all, t := ProcStep(cfg, addrs, events, s, p, TakeSnapshot(order));
  }

  /** It takes the first slot of the pool. */
  lemma AttemptTakesSlot(cfg: Config, addrs: seq<Addr>, events: seq<Event>, s: State, p: Pid, run: Run, retry: nat)
    returns (all: seq<Event>, t: State)
    requires Reaches(cfg, addrs, events, s) && Underway(s, p, Snapshotting(run), run.id, retry)
    requires run.excluded == {} && HasRoom(cfg, s, s.pool[0])
    ensures Reaches(cfg, addrs, all, t) && Underway(t, p, Assigning(run, s.pool[0]), run.id, retry)
    ensures var k := s.pool[0]; t.slots == s.slots[k := s.slots[k].(used := s.slots[k].used + 1)]
    ensures t.pool == s.pool && t.calls == s.calls && t.global == s.global
  {
    hide Reaches, Requests, EffectOf, IsOrder, Perform, Candidates;
    all, t := AttemptLooks(cfg, addrs, events, s, p, run, retry);
    SkipIs(cfg.keepTtl, t.book);
    TryIs(cfg, t, p);
    all, t := ProcStep(cfg, addrs, all, t, p, TryNext);
  }

  /** The runner is called and fails. */
  lemma AttemptCalls(cfg: Config, addrs: seq<Addr>, events: seq<Event>, s: State, p: Pid, run: Run, retry: nat, k: nat)
    returns (all: seq<Event>, t: State)
    requires Reaches(cfg, addrs, events, s) && Underway(s, p, Assigning(run, k), run.id, retry) && k < |s.slots|
    requires FailedCalls(s.calls[run.id], run.attempt) && run.step == 0
    ensures Reaches(cfg, addrs, all, t)
    ensures Underway(t, p, FreeingSlot(run, k, BuildError(s.slots[k].addr, false, false)), run.id, retry)
    ensures FailedCalls(t.calls[run.id], run.attempt + 1)
    ensures t.slots == s.slots && t.pool == s.pool && t.global == s.global
  {
    hide Reaches, Requests, EffectOf, Perform;
    AssignCalls(cfg, s, p, run, k);
    AssignLives(cfg.keepTtl, s.book, run.id, s.slots[k].addr);
    all, t := ProcStep(cfg, addrs, events, s, p, TryAssign);
    ReturnIs(cfg, t, p, run, k);
    SkipIs(cfg.keepTtl, t.book);
    all, t := ProcStep(cfg, addrs, all, t, p, BuildReturns(BuildError(s.slots[k].addr, false, false)));
  }

  lemma AssignCalls(cfg: Config, s: State, p: Pid, run: Run, k: nat)
    requires p in s.procs && s.procs[p] == Assigning(run, k) && k < |s.slots|
    requires run.id in s.book.store && Assignable(s.book.store[run.id])
    ensures EffectOf(cfg, s, p, s.procs[p], TryAssign)
         == Some(Effect(Building(run, k), Keep, Assign(run.id, s.slots[k].addr),
                        CallStarted(Call(run.step, run.attempt, s.slots[k].addr, Pending)), None))
  {}

  lemma ReturnIs(cfg: Config, s: State, p: Pid, run: Run, k: nat)
    requires p in s.procs && s.procs[p] == Building(run, k) && k < |s.slots|
    ensures var failed := BuildError(s.slots[k].addr, false, false);
      EffectOf(cfg, s, p, s.procs[p], BuildReturns(failed))
      == Some(Effect(FreeingSlot(run, k, failed), Keep, Skip, CallEnded(false), None))
  {}

  /** The attempt gives everything back and returns. */
  lemma AttemptReturns(cfg: Config, addrs: seq<Addr>, events: seq<Event>, s: State, p: Pid, run: Run, retry: nat,
                       k: nat, outcome: Outcome) returns (all: seq<Event>, t: State)
    requires Reaches(cfg, addrs, events, s) && Underway(s, p, FreeingSlot(run, k, outcome), run.id, retry)
    requires k < |s.slots| && s.slots[k].used > 0 && (cfg.globalCap == 0 || s.global > 0)
    ensures Reaches(cfg, addrs, all, t) && Underway(t, p, Returned(run, outcome), run.id, retry)
    ensures t.slots == s.slots[k := s.slots[k].(used := s.slots[k].used - 1)]
    ensures t.global == s.global - (if cfg.globalCap == 0 then 0 else 1)
    ensures t.pool == s.pool && t.calls == s.calls
  {
    hide Reaches, Requests, Perform, EffectOf;
    SkipIs(cfg.keepTtl, s.book);
    ReleaseIs(cfg, s, p, run, k, outcome);
    all, t := ProcStep(cfg, addrs, events, s, p, ReleaseSlot);
    ReleaseIs(cfg, t, p, run, k, outcome);
    all, t := ProcStep(cfg, addrs, all, t, p, ReleaseGlobal);
  }

  lemma ReleaseIs(cfg: Config, s: State, p: Pid, run: Run, k: nat, outcome: Outcome)
    ensures EffectOf(cfg, s, p, FreeingSlot(run, k, outcome), ReleaseSlot)
         == Some(MoveSem(FreeingGlobal(run, outcome), GiveSlot(k)))
    ensures EffectOf(cfg, s, p, FreeingGlobal(run, outcome), ReleaseGlobal)
         == Some(MoveSem(Returned(run, outcome), GiveGlobal))
  {}

  lemma RetryIs(cfg: Config, s: State, p: Pid, run: Run, addr: Addr)
    requires run.id in s.book.jobs && run.id !in s.ctxDone
    ensures EffectOf(cfg, s, p, Returned(run, BuildError(addr, false, false)), Decide)
         == Some(Move(if run.attempt < s.book.jobs[run.id].retry
             then Requeueing(Run(run.id, run.step, run.attempt + 1, {}))
                      else Finishing(run.id, Failed)))
    ensures EffectOf(cfg, s, p, Requeueing(run), RequeueForRetry) == Some(MoveOp(BackingOff(run), Requeue(run.id)))
    ensures EffectOf(cfg, s, p, BackingOff(run), BackoffOver) == Some(Move(Marking(run)))
    ensures EffectOf(cfg, s, p, Finishing(run.id, Failed), FinishNow)
         == Some(MoveOp(Closing(run.id), Finish(run.id, Failed)))
  {}

  /** The goroutine is about to make the attempt, after as many failed ones. */
  ghost predicate AboutTo(cfg: Config, s: State, p: Pid, id: Id, retry: nat, attempt: nat) {
    && Underway(s, p, Marking(Run(id, 0, attempt, {})), id, retry)
    && HasRoom(cfg, s, s.pool[0]) && GlobalRoom(cfg, s) && FailedCalls(s.calls[id], attempt)
  }

  /** An attempt comes to hold the global slot and a worker. */
  lemma AttemptAcquires(cfg: Config, addrs: seq<Addr>, events: seq<Event>, s: State, p: Pid, run: Run, retry: nat)
    returns (all: seq<Event>, t: State)
    requires Reaches(cfg, addrs, events, s) && Underway(s, p, Marking(run), run.id, retry) && GlobalRoom(cfg, s)
    requires run.excluded == {} && HasRoom(cfg, s, s.pool[0])
    ensures Reaches(cfg, addrs, all, t) && Underway(t, p, Assigning(run, s.pool[0]), run.id, retry)
    ensures var k := s.pool[0]; t.slots == s.slots[k := s.slots[k].(used := s.slots[k].used + 1)]
    ensures t.pool == s.pool && t.calls == s.calls
    ensures t.global == s.global + (if cfg.globalCap == 0 then 0 else 1)
  {
    hide Reaches;
    all, t := AttemptStarts(cfg, addrs, events, s, p, run, retry);
    all, t := AttemptTakesSlot(cfg, addrs, all, t, p, run, retry);
  }

  lemma UnderwayPool(s: State, p: Pid, pc: Pc, id: Id, retry: nat)
    requires Underway(s, p, pc, id, retry)
    ensures id in s.calls && PoolOk(s) && s.pool != []
  {}

  /** One attempt that fails. */
  lemma OneAttempt(cfg: Config, addrs: seq<Addr>, events: seq<Event>, s: State, p: Pid, id: Id, retry: nat,
                   attempt: nat) returns (all: seq<Event>, t: State, addr: Addr)
    requires Reaches(cfg, addrs, events, s) && AboutTo(cfg, s, p, id, retry, attempt)
    ensures Reaches(cfg, addrs, all, t)
    ensures Underway(t, p, Returned(Run(id, 0, attempt, {}), BuildError(addr, false, false)), id, retry)
    ensures HasRoom(cfg, t, t.pool[0]) && GlobalRoom(cfg, t) && FailedCalls(t.calls[id], attempt + 1)
  {
    hide Reaches, FailedCalls, Underway;
    var run := Run(id, 0, attempt, {});
    UnderwayPool(s, p, Marking(run), id, retry);
    var k := s.pool[0];
    addr := s.slots[k].addr;
    all, t := AttemptAcquires(cfg, addrs, events, s, p, run, retry);
    UnderwayPool(t, p, Assigning(run, k), id, retry);
    all, t := AttemptCalls(cfg, addrs, all, t, p, run, retry, k);
    all, t := AttemptReturns(cfg, addrs, all, t, p, run, retry, k, BuildError(addr, false, false));
    UnderwayPool(t, p, Returned(run, BuildError(addr, false, false)), id, retry);
  }

  /** While retries are left, the next attempt follows. */
  lemma TryAgain(cfg: Config, addrs: seq<Addr>, events: seq<Event>, s: State, p: Pid, id: Id, retry: nat, attempt: nat,
                 addr: Addr) returns (all: seq<Event>, t: State)
    requires Reaches(cfg, addrs, events, s) && attempt < retry
    requires Underway(s, p, Returned(Run(id, 0, attempt, {}), BuildError(addr, false, false)), id, retry)
    requires HasRoom(cfg, s, s.pool[0]) && GlobalRoom(cfg, s) && FailedCalls(s.calls[id], attempt + 1)
    ensures Reaches(cfg, addrs, all, t) && AboutTo(cfg, t, p, id, retry, attempt + 1)
  {
    hide Reaches, Requests, FailedCalls, Perform, EffectOf;
    var run := Run(id, 0, attempt + 1, {});
    SkipIs(cfg.keepTtl, s.book);
    RetryIs(cfg, s, p, Run(id, 0, attempt, {}), addr);
    all, t := ProcStep(cfg, addrs, events, s, p, Decide);
    RequeueLives(cfg.keepTtl, t.book, id);
    RetryIs(cfg, t, p, run, addr);
    all, t := ProcStep(cfg, addrs, all, t, p, RequeueForRetry);
    SkipIs(cfg.keepTtl, t.book);
    RetryIs(cfg, t, p, run, addr);
    all, t := ProcStep(cfg, addrs, all, t, p, BackoffOver);
  }

  /** From the first attempt to the last. */
  lemma {:induction false} AllAttempts(cfg: Config, addrs: seq<Addr>, events: seq<Event>, s: State, p: Pid, id: Id,
                                       retry: nat, attempt: nat) returns (all: seq<Event>, t: State, addr: Addr)
    requires Reaches(cfg, addrs, events, s) && AboutTo(cfg, s, p, id, retry, attempt) && attempt <= retry
    ensures Reaches(cfg, addrs, all, t)
    ensures Underway(t, p, Returned(Run(id, 0, retry, {}), BuildError(addr, false, false)), id, retry)
    ensures FailedCalls(t.calls[id], retry + 1)
    decreases retry - attempt
  {
    hide Reaches, FailedCalls, AboutTo;
    all, t, addr := OneAttempt(cfg, addrs, events, s, p, id, retry, attempt);
    if attempt < retry {
      all, t := TryAgain(cfg, addrs, all, t, p, id, retry, attempt, addr);
      all, t, addr := AllAttempts(cfg, addrs, all, t, p, id, retry, attempt + 1);
    }
  }

  lemma StartTidy(cfg: Config, addrs: seq<Addr>)
    requires ConfigOk(cfg)
    ensures var s := Init(cfg, addrs);
      && Tidy(cfg, s, 0) && |s.pool| == |addrs| && s.global == 0 && s.ctxDone == {}
      && (forall k :: 0 <= k < |s.slots| ==> s.slots[k].used == 0)
  {}

  /** A goroutine that can run the first task. */
  lemma StartFree(cfg: Config, addrs: seq<Addr>) returns (p: Pid)
    requires ConfigOk(cfg)
    ensures Free(cfg, Init(cfg, addrs), p, 0)
  {
    if Explicit(cfg) {
      p := ModeWorker(cfg.defaultMode, 0);
      assert (cfg.defaultMode, 0) in BuildModes.Workers(cfg.modes);
    } else {
      p := TaskRunner(0);
    }
  }

  /** The first request is admitted. */
  lemma FirstAdmitted(cfg: Config, addrs: seq<Addr>, retry: nat) returns (events: seq<Event>, s: State, p: Pid)
    requires ConfigOk(cfg) && ValidAddrs(cfg, addrs) && addrs != []
    ensures Reaches(cfg, addrs, events, s) && Underway(s, p, Starting(0), 0, retry)
    ensures HasRoom(cfg, s, s.pool[0]) && GlobalRoom(cfg, s) && s.calls[0] == []
  {
    hide Reaches, Requests, Init, Tidy, Free, SameQueues;
    var start := Init(cfg, addrs);
    StartTidy(cfg, addrs);
    p := StartFree(cfg, addrs);
    ReachStart(cfg, addrs);
    TidyPool(cfg, start, 0);
    events, s := AdmitTask(cfg, addrs, [], start, 0, p, retry);
  }

  /** The first request is admitted and its task about to make its first attempt. */
  lemma FirstAttempt(cfg: Config, addrs: seq<Addr>, retry: nat) returns (events: seq<Event>, s: State, p: Pid)
    requires ConfigOk(cfg) && ValidAddrs(cfg, addrs) && addrs != []
    ensures Reaches(cfg, addrs, events, s) && AboutTo(cfg, s, p, 0, retry, 0)
  {
    hide Reaches, Requests, Perform, EffectOf;
    events, s, p := FirstAdmitted(cfg, addrs, retry);
    BeginsIs(cfg, s, p, 0);
    SkipIs(cfg.keepTtl, s.book);
    events, s := ProcStep(cfg, addrs, events, s, p, Begin(true));
    StepIs(cfg, s, p, 0);
    events, s := ProcStep(cfg, addrs, events, s, p, BeginStep(true));
  }

  lemma BeginsIs(cfg: Config, s: State, p: Pid, id: Id)
    requires id in s.book.store && s.book.store[id].status != Canceled
    ensures EffectOf(cfg, s, p, Starting(id), Begin(true)) == Some(Move(AtStep(Run(id, 0, 0, {}))))
  {}

  lemma StepIs(cfg: Config, s: State, p: Pid, id: Id)
    requires id in s.book.jobs && s.book.jobs[id].steps > 0
    ensures EffectOf(cfg, s, p, AtStep(Run(id, 0, 0, {})), BeginStep(true)) == Some(Move(Marking(Run(id, 0, 0, {}))))
  {}

  /**
   Every retry is made: for every daemon with a worker and every number of retries there is
   a run in which the runner is called that many times and once more for one step, each call
   fails, and the task is observed as failed.
   */
  lemma RetriesAreMade(cfg: Config, addrs: seq<Addr>, retry: nat) returns (events: seq<Event>, s: State, id: Id)
    requires ConfigOk(cfg) && ValidAddrs(cfg, addrs) && addrs != []
    ensures Reaches(cfg, addrs, events, s)
    ensures id in s.book.jobs && s.book.jobs[id].retry == retry && id in s.calls
    ensures |s.calls[id]| == retry + 1
    ensures forall i :: 0 <= i <= retry ==>
              s.calls[id][i].step == 0 && s.calls[id][i].attempt == i && s.calls[id][i].result == CallFailed
    ensures id in s.book.observed && s.book.observed[id] == Failed
  {
    hide Reaches, AboutTo, Underway;
    var p, addr;
    id := 0;
    events, s, p := FirstAttempt(cfg, addrs, retry);
    events, s, addr := AllAttempts(cfg, addrs, events, s, p, id, retry, 0);
    UnderwayPool(s, p, Returned(Run(id, 0, retry, {}), BuildError(addr, false, false)), id, retry);
    events, s := GiveUp(cfg, addrs, events, s, p, id, retry, addr);
  }

  /** After the last attempt the task is observed as failed. */
  lemma GiveUp(cfg: Config, addrs: seq<Addr>, events: seq<Event>, s: State, p: Pid, id: Id, retry: nat, addr: Addr)
    returns (all: seq<Event>, t: State)
    requires Reaches(cfg, addrs, events, s)
    requires Underway(s, p, Returned(Run(id, 0, retry, {}), BuildError(addr, false, false)), id, retry)
    ensures Reaches(cfg, addrs, all, t) && t.calls == s.calls
    ensures id in t.book.jobs && t.book.jobs[id].retry == retry
    ensures id in t.book.observed && t.book.observed[id] == Failed
  {
    hide Reaches, Requests, Perform, EffectOf;
    SkipIs(cfg.keepTtl, s.book);
    RetryIs(cfg, s, p, Run(id, 0, retry, {}), addr);
    all, t := ProcStep(cfg, addrs, events, s, p, Decide);
    FinishIs(cfg.keepTtl, t.book, id);
    RetryIs(cfg, t, p, Run(id, 0, retry, {}), addr);
    all, t := ProcStep(cfg, addrs, all, t, p, FinishNow);
  }

  lemma FinishIs(keepTtl: nat, b: Book, id: Id)
    requires id in b.store && Live(b.store[id]) && !b.store[id].observed
    ensures var c := Perform(keepTtl, b, Finish(id, Failed));
      c.jobs == b.jobs && id in c.observed && c.observed[id] == Failed
  {}
}

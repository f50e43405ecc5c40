/**
 The calls the daemon makes to the build runner: never twice to one worker
 within an attempt, a later step only after the earlier one was built, success
 only after the last step was built, and a bounded number in all.
 */
module RunnerCalls {
  import opened Basics
  import opened Tasks
  import opened Ledger
  import opened TaskQueue
  import opened Daemon
  import opened Ownership
  import opened Lifecycle

  predicate SameCall(a: Call, b: Call) {
    a.step == b.step && a.attempt == b.attempt && a.addr == b.addr
  }

  /** What the history of one task's runner calls always looks like. */
  ghost predicate CallsOk(universe: set<Addr>, job: Job, calls: seq<Call>) {
    && (forall i :: 0 <= i < |calls| ==>
          calls[i].step < job.steps && calls[i].attempt <= job.retry && calls[i].addr in universe)
    && (forall i, j :: 0 <= i < j < |calls| ==> !SameCall(calls[i], calls[j]))
    && (forall i :: 0 <= i < |calls| ==> StepStartsInOrder(calls, i))
  }

  /** A call is for the first step, for the step of the call before it, or for the next one after a success. */
  predicate StepStartsInOrder(calls: seq<Call>, i: nat)
    requires i < |calls|
  {
    if i == 0 then calls[i].step == 0
    else calls[i].step == calls[i - 1].step || (calls[i].step == calls[i - 1].step + 1 && calls[i - 1].result == CallOk)
  }

  /** The calls so far belong to earlier attempts, or to this one and excluded workers. */
  ghost predicate Behind(calls: seq<Call>, step: nat, attempt: nat, excluded: set<Addr>) {
    forall i :: 0 <= i < |calls| ==>
      || calls[i].step < step
      || (calls[i].step == step && calls[i].attempt < attempt)
      || (calls[i].step == step && calls[i].attempt == attempt && calls[i].addr in excluded)
  }

  predicate StepDone(calls: seq<Call>, step: nat) {
    if step == 0 then calls == []
    else calls != [] && calls[|calls| - 1].step == step - 1 && calls[|calls| - 1].result == CallOk
  }

  predicate InStep(calls: seq<Call>, step: nat) {
    StepDone(calls, step) || (calls != [] && calls[|calls| - 1].step == step)
  }

  /** Every step of the task was built. */
  predicate Completed(job: Job, calls: seq<Call>) {
    job.steps >= 1 && StepDone(calls, job.steps)
  }

  /** Ready for another call of `run`. */
  ghost predicate ReadyToCall(job: Job, run: Run, calls: seq<Call>) {
    && run.step < job.steps && run.attempt <= job.retry
    && Behind(calls, run.step, run.attempt, run.excluded)
    && InStep(calls, run.step)
  }

  ghost predicate AfterCall(job: Job, run: Run, addr: Addr, calls: seq<Call>) {
    && run.step < job.steps && run.attempt <= job.retry
    && Behind(calls, run.step, run.attempt, run.excluded + {addr})
    && calls != [] && calls[|calls| - 1].step == run.step
    && calls[|calls| - 1].addr == addr && addr !in run.excluded
  }

  ghost predicate OutcomeFits(job: Job, run: Run, outcome: Outcome, calls: seq<Call>) {
    match outcome
    case Built => exists addr :: AfterCall(job, run, addr, calls) && calls[|calls| - 1].result == CallOk
    case BuildError(addr, _, _) => AfterCall(job, run, addr, calls)
    case _ => ReadyToCall(job, run, calls)
  }

  predicate Untried(slots: seq<Slot>, run: Run, slot: nat) {
    slot < |slots| && slots[slot].addr !in run.excluded
  }

  ghost predicate PcFits(slots: seq<Slot>, job: Job, pc: Pc, calls: seq<Call>) {
    match pc
    case Starting(_) => calls == []
    case AtStep(run) => StepDone(calls, run.step) && Behind(calls, run.step, 0, {}) && run.step <= job.steps
        && run.attempt == 0 && run.excluded == {}
    case Trying(run, cands, _) =>
      ReadyToCall(job, run, calls) && forall i :: 0 <= i < |cands| ==> Untried(slots, run, cands[i])
    case WantSlot(run, cands) =>
      ReadyToCall(job, run, calls) && forall i :: 0 <= i < |cands| ==> Untried(slots, run, cands[i])
    case Assigning(run, slot) => ReadyToCall(job, run, calls) && Untried(slots, run, slot)
    case Building(run, slot) =>
      slot < |slots| && AfterCall(job, run, slots[slot].addr, calls) && calls[|calls| - 1].result == Pending
    case FreeingSlot(run, _, outcome) => OutcomeFits(job, run, outcome, calls)
    case FreeingGlobal(run, outcome) => OutcomeFits(job, run, outcome, calls)
    case Returned(run, outcome) => OutcomeFits(job, run, outcome, calls)
    case Finishing(_, status) => status == Succeeded ==> Completed(job, calls)
    case Closing(_) => true
    case Idle => true
    case Exited => true
    case _ => ReadyToCall(job, pc.run, calls)
  }

  ghost predicate KnownSlots(universe: set<Addr>, slots: seq<Slot>) {
    forall i :: 0 <= i < |slots| ==> slots[i].addr in universe
  }

  ghost predicate ProcsFit(s: State) {
    forall p ::
      && p in s.procs && Busy(s.procs[p])
      && TaskOf(s.procs[p]) in s.book.jobs && TaskOf(s.procs[p]) in s.calls
      ==> PcFits(s.slots, s.book.jobs[TaskOf(s.procs[p])], s.procs[p], s.calls[TaskOf(s.procs[p])])
  }

  ghost predicate LogsOk(cfg: Config, s: State) {
    forall id :: id in s.calls && id in s.book.jobs ==> CallsOk(cfg.universe, s.book.jobs[id], s.calls[id])
  }

  /** A task observed as succeeded had every step built. */
  ghost predicate SuccessEarned(s: State) {
    forall id :: id in s.book.observed && s.book.observed[id] == Succeeded && id in s.book.jobs && id in s.calls ==>
      Completed(s.book.jobs[id], s.calls[id])
  }

  ghost predicate CallInv(cfg: Config, s: State) {
    && KnownSlots(cfg.universe, s.slots)
    && LogsOk(cfg, s)
    && ProcsFit(s)
    && SuccessEarned(s)
    && (forall id :: id in s.book.jobs ==> s.book.jobs[id].steps >= 1)
    && FreshFits(s)
  }

  /** Tasks that no goroutine took up yet have no calls. */
  ghost predicate FreshFits(s: State) {
    && (forall mode, id :: mode in s.queues && id in s.queues[mode].ids && id in s.calls ==> s.calls[id] == [])
    && (s.adm.Added? && s.adm.id in s.calls ==> s.calls[s.adm.id] == [])
  }

  // -------------------------------------------------- one goroutine's step

  lemma CallAppended(universe: set<Addr>, job: Job, run: Run, addr: Addr, calls: seq<Call>)
    requires CallsOk(universe, job, calls) && ReadyToCall(job, run, calls)
    requires addr !in run.excluded && addr in universe
    ensures var calls' := calls + [Call(run.step, run.attempt, addr, Pending)];
      CallsOk(universe, job, calls') && AfterCall(job, run, addr, calls') && calls'[|calls'| - 1].result == Pending
  {
    var calls' := calls + [Call(run.step, run.attempt, addr, Pending)];
    forall i | 0 <= i < |calls'|
      ensures StepStartsInOrder(calls', i)
    {
      if i < |calls| {
        assert StepStartsInOrder(calls, i);
      }
    }
  }

  lemma CallConcluded(universe: set<Addr>, job: Job, run: Run, addr: Addr, calls: seq<Call>, ok: bool)
    requires CallsOk(universe, job, calls) && AfterCall(job, run, addr, calls) && calls[|calls| - 1].result == Pending
    ensures var calls' := CallsAfter(calls, CallEnded(ok));
      && CallsOk(universe, job, calls') && AfterCall(job, run, addr, calls')
      && calls'[|calls'| - 1].result == (if ok then CallOk else CallFailed)
  {
    var calls' := CallsAfter(calls, CallEnded(ok));
    assert forall i :: 0 <= i < |calls| ==> SameCall(calls'[i], calls[i]);
    forall i | 0 <= i < |calls'|
      ensures StepStartsInOrder(calls', i)
    {
      assert StepStartsInOrder(calls, i);
    }
    forall i, j | 0 <= i < j < |calls'|
      ensures !SameCall(calls'[i], calls'[j])
    {
      assert !SameCall(calls[i], calls[j]);
    }
  }

  lemma DecisionFits(slots: seq<Slot>, job: Job, ctxDone: bool, run: Run, outcome: Outcome, calls: seq<Call>)
    requires OutcomeFits(job, run, outcome, calls)
    ensures PcFits(slots, job, AfterAttempt(job, ctxDone, run, outcome), calls)
  {}

  lemma CandidatesUntried(s: State, order: seq<nat>, run: Run)
    requires IsOrder(order, |s.pool|) && PoolOk(s)
    ensures var cands := Candidates(s.slots, s.pool, order, run.excluded);
      forall i :: 0 <= i < |cands| ==> Untried(s.slots, run, cands[i])
  {
    var cands := Candidates(s.slots, s.pool, order, run.excluded);
    assert forall i :: 0 <= i < |cands| ==> cands[i] in cands;
  }

  lemma EffectFits(cfg: Config, s: State, p: Pid, pc: Pc, a: Act, job: Job, calls: seq<Call>)
    requires Busy(pc) && EffectOf(cfg, s, p, pc, a).Some?
    requires TaskOf(pc) in s.book.jobs && job == s.book.jobs[TaskOf(pc)] && job.steps >= 1
    requires KnownSlots(cfg.universe, s.slots)
    requires CallsOk(cfg.universe, job, calls) && PcFits(s.slots, job, pc, calls)
    ensures var e := EffectOf(cfg, s, p, pc, a).value; var calls' := CallsAfter(calls, e.log);
      CallsOk(cfg.universe, job, calls') && PcFits(s.slots, job, e.pc, calls')
  {
    hide CallsOk, PcFits, KnownSlots, EffectOf;
    match a
    case TakeSnapshot(order) => SnapshotFits(cfg, s, p, pc, order, job, calls);
    case TryAssign => AssignFits(cfg, s, p, pc, job, calls);
    case BuildReturns(outcome) => ReturnFits(cfg, s, p, pc, outcome, job, calls);
    case Decide => DecideFits(cfg, s, p, pc, job, calls);
    case _ => QuietFits(cfg, s, p, pc, a, job, calls);
  }

  lemma DecideFits(cfg: Config, s: State, p: Pid, pc: Pc, job: Job, calls: seq<Call>)
    requires Busy(pc) && EffectOf(cfg, s, p, pc, Decide).Some? && PcFits(s.slots, job, pc, calls)
    requires TaskOf(pc) in s.book.jobs && job == s.book.jobs[TaskOf(pc)]
    ensures var e := EffectOf(cfg, s, p, pc, Decide).value; e.log.Quiet? && PcFits(s.slots, job, e.pc, calls)
  {
    hide ReadyToCall, AfterCall;
    DecisionFits(s.slots, job, pc.run.id in s.ctxDone, pc.run, pc.outcome, calls);
  }

  /** The other steps call no runner and carry what is known of the calls on. */
  lemma QuietFits(cfg: Config, s: State, p: Pid, pc: Pc, a: Act, job: Job, calls: seq<Call>)
    requires Busy(pc) && EffectOf(cfg, s, p, pc, a).Some? && PcFits(s.slots, job, pc, calls)
    requires TaskOf(pc) in s.book.jobs && job == s.book.jobs[TaskOf(pc)] && job.steps >= 1
    requires !a.TakeSnapshot? && !a.TryAssign? && !a.BuildReturns? && !a.Decide?
    ensures var e := EffectOf(cfg, s, p, pc, a).value; e.log.Quiet? && PcFits(s.slots, job, e.pc, calls)
  {
    hide Behind, SameCall, AfterCall;
    NothingBehind(0, 0, {});
  }

  lemma NothingBehind(step: nat, attempt: nat, excluded: set<Addr>)
    ensures Behind([], step, attempt, excluded)
  {}

  lemma SnapshotFits(cfg: Config, s: State, p: Pid, pc: Pc, order: seq<nat>, job: Job, calls: seq<Call>)
    requires Busy(pc) && EffectOf(cfg, s, p, pc, TakeSnapshot(order)).Some?
    requires PcFits(s.slots, job, pc, calls)
    ensures var e := EffectOf(cfg, s, p, pc, TakeSnapshot(order)).value;
            e.log.Quiet? && PcFits(s.slots, job, e.pc, calls)
  {
    hide ReadyToCall;
    CandidatesUntried(s, order, pc.run);
    assert EffectOf(cfg, s, p, pc, TakeSnapshot(order)).value.pc.cands
        == Candidates(s.slots, s.pool, order, pc.run.excluded);
  }

  lemma AssignFits(cfg: Config, s: State, p: Pid, pc: Pc, job: Job, calls: seq<Call>)
    requires Busy(pc) && EffectOf(cfg, s, p, pc, TryAssign).Some?
    requires KnownSlots(cfg.universe, s.slots)
    requires CallsOk(cfg.universe, job, calls) && PcFits(s.slots, job, pc, calls)
    ensures var e := EffectOf(cfg, s, p, pc, TryAssign).value; var calls' := CallsAfter(calls, e.log);
      CallsOk(cfg.universe, job, calls') && PcFits(s.slots, job, e.pc, calls')
  {
    hide CallsOk, ReadyToCall, AfterCall;
    CallAppended(cfg.universe, job, pc.run, s.slots[pc.slot].addr, calls);
  }

  lemma ReturnFits(cfg: Config, s: State, p: Pid, pc: Pc, outcome: Outcome, job: Job, calls: seq<Call>)
    requires Busy(pc) && EffectOf(cfg, s, p, pc, BuildReturns(outcome)).Some?
    requires CallsOk(cfg.universe, job, calls) && PcFits(s.slots, job, pc, calls)
    ensures var e := EffectOf(cfg, s, p, pc, BuildReturns(outcome)).value; var calls' := CallsAfter(calls, e.log);
      CallsOk(cfg.universe, job, calls') && PcFits(s.slots, job, e.pc, calls')
  {
    hide CallsOk, CallsAfter;
    CallConcluded(cfg.universe, job, pc.run, s.slots[pc.slot].addr, calls, outcome.Built?);
  }

  // ------------------------------------------------------ one step of a run

  predicate SlotsExtend(slots: seq<Slot>, slots': seq<Slot>) {
    |slots| <= |slots'| && forall i :: 0 <= i < |slots| ==> slots'[i].addr == slots[i].addr
  }

  lemma FitsWithMoreSlots(slots: seq<Slot>, slots': seq<Slot>, job: Job, pc: Pc, calls: seq<Call>)
    requires PcFits(slots, job, pc, calls) && SlotsExtend(slots, slots')
    ensures PcFits(slots', job, pc, calls)
  {
    hide ReadyToCall, AfterCall, StepDone, Behind, OutcomeFits, Completed;
  }

  lemma NextSlots(cfg: Config, s: State, ev: Event)
    requires Enabled(cfg, s, ev) && KnownSlots(cfg.universe, s.slots)
    ensures SlotsExtend(s.slots, Next(cfg, s, ev).slots)
    ensures KnownSlots(cfg.universe, Next(cfg, s, ev).slots)
  {
    hide EffectOf, Perform, OpOf, CallsAfter, GlobalAfter;
    if ev.ProcEv? {
      ProcSlots(cfg, s, ev.p, ev.a);
    } else if ev.RefreshEv? {
      ReplacedSlots(cfg, s.slots, s.pool, ev.addrs);
    } else {
      assert Next(cfg, s, ev).slots == s.slots;
    }
  }

  lemma ReplacedSlots(cfg: Config, slots: seq<Slot>, pool: seq<nat>, addrs: seq<Addr>)
    requires KnownSlots(cfg.universe, slots) && ValidAddrs(cfg, addrs)
    ensures SlotsExtend(slots, Replace(slots, pool, addrs).0)
    ensures KnownSlots(cfg.universe, Replace(slots, pool, addrs).0)
  {}

  lemma ProcSlots(cfg: Config, s: State, p: Pid, a: Act)
    requires Enabled(cfg, s, ProcEv(p, a)) && KnownSlots(cfg.universe, s.slots)
    ensures SlotsExtend(s.slots, Next(cfg, s, ProcEv(p, a)).slots)
    ensures KnownSlots(cfg.universe, Next(cfg, s, ProcEv(p, a)).slots)
  {
    hide EffectOf, Perform, OpOf, CallsAfter, GlobalAfter;
    var e := EffectOf(cfg, s, p, s.procs[p], a).value;
    assert KnownSlots(cfg.universe, SlotsAfter(s.slots, e.sem));
    if e.refresh.Some? {
      RefreshValid(cfg, s, p, s.procs[p], a);
      ReplacedSlots(cfg, SlotsAfter(s.slots, e.sem), s.pool, e.refresh.value);
    }
  }

  lemma RefreshValid(cfg: Config, s: State, p: Pid, pc: Pc, a: Act)
    requires EffectOf(cfg, s, p, pc, a).Some?
    ensures var e := EffectOf(cfg, s, p, pc, a).value; e.refresh.Some? ==> ValidAddrs(cfg, e.refresh.value)
  {}

  /** The calls of the goroutine's own task move on, all others stay. */
  lemma ProcCalls(cfg: Config, s: State, p: Pid, a: Act)
    requires Enabled(cfg, s, ProcEv(p, a)) && OwnOk(cfg, s)
    ensures var next, id := Next(cfg, s, ProcEv(p, a)), TaskOf(s.procs[p]);
      && id in s.calls && id in s.book.jobs
      && next.calls == s.calls[id := CallsAfter(s.calls[id], EffectOf(cfg, s, p, s.procs[p], a).value.log)]
      && next.book.jobs == s.book.jobs
  {
    hide EffectOf, CallsAfter, GlobalAfter, SlotsAfter, Replace;
    OwnerAdmitted(cfg, s, p);
    BookFollows(cfg, s, ProcEv(p, a));
    PerformFrame(cfg.keepTtl, s.book, OpOf(cfg, s, ProcEv(p, a)));
    OnlyAdmissionAdds(cfg, s, p, s.procs[p], a);
  }

  lemma ProcKeepsFit(cfg: Config, s: State, p: Pid, a: Act)
    requires OwnOk(cfg, s) && CallInv(cfg, s) && Enabled(cfg, s, ProcEv(p, a))
    ensures var next := Next(cfg, s, ProcEv(p, a)); LogsOk(cfg, next) && ProcsFit(next)
  {
    hide EffectOf, Enabled, OwnOk, CallsOk, PcFits, Completed, Next, CallsAfter, KnownSlots, SlotsExtend;
    ProcEnabled(cfg, s, p, a);
    var next, id := Next(cfg, s, ProcEv(p, a)), TaskOf(s.procs[p]);
    ProcCalls(cfg, s, p, a);
    ProcFrame(cfg, s, p, a);
    NextSlots(cfg, s, ProcEv(p, a));
    EffectFits(cfg, s, p, s.procs[p], a, s.book.jobs[id], s.calls[id]);
    EffectStays(cfg, s, p, s.procs[p], a);
    forall q | q in next.procs && Busy(next.procs[q]) && TaskOf(next.procs[q]) in next.book.jobs
        && TaskOf(next.procs[q]) in next.calls
      ensures PcFits(next.slots, next.book.jobs[TaskOf(next.procs[q])], next.procs[q],
              next.calls[TaskOf(next.procs[q])])
    {
      if q == p {
        FitsWithMoreSlots(s.slots, next.slots, s.book.jobs[id], next.procs[p], next.calls[id]);
      } else {
        DifferentTasks(cfg, s, p, q);
        var other := TaskOf(s.procs[q]);
        FitsWithMoreSlots(s.slots, next.slots, s.book.jobs[other], s.procs[q], s.calls[other]);
      }
    }
  }

  lemma ProcEnabled(cfg: Config, s: State, p: Pid, a: Act)
    requires Enabled(cfg, s, ProcEv(p, a))
    ensures p in s.procs && Busy(s.procs[p]) && EffectOf(cfg, s, p, s.procs[p], a).Some?
  {}

  lemma DifferentTasks(cfg: Config, s: State, p: Pid, q: Pid)
    requires OwnOk(cfg, s) && p in s.procs && q in s.procs && Busy(s.procs[p]) && Busy(s.procs[q]) && p != q
    ensures TaskOf(s.procs[p]) != TaskOf(s.procs[q])
  {}

  /** Success is only ever recorded by the goroutine that completed the task. */
  lemma ProcKeepsSuccess(cfg: Config, s: State, p: Pid, a: Act)
    requires BookOk(s.book) && OwnOk(cfg, s) && CallInv(cfg, s) && Enabled(cfg, s, ProcEv(p, a))
    ensures SuccessEarned(Next(cfg, s, ProcEv(p, a)))
  {
    hide EffectOf, Enabled, OwnOk, CallsOk, Completed, Next, KnownSlots, BookOk, Perform, PcFits;
    ProcEnabled(cfg, s, p, a);
    var next, id := Next(cfg, s, ProcEv(p, a)), TaskOf(s.procs[p]);
    var e := EffectOf(cfg, s, p, s.procs[p], a).value;
    ProcCalls(cfg, s, p, a);
    BookFollows(cfg, s, ProcEv(p, a));
    assert OpOf(cfg, s, ProcEv(p, a)) == e.op;
    FinishesOwn(cfg, s, p, s.procs[p], a);
    forall x | x in next.book.observed && next.book.observed[x] == Succeeded && x in next.book.jobs && x in next.calls
      ensures Completed(next.book.jobs[x], next.calls[x])
    {
      ObservedGrowth(cfg.keepTtl, s.book, e.op, x);
      LoggedNotSucceeded(cfg, s, p, a);
    }
  }

  lemma ObservedGrowth(keepTtl: nat, b: Book, op: Op, id: Id)
    requires var c := Perform(keepTtl, b, op); id in c.observed && c.observed[id] == Succeeded
    ensures (id in b.observed && b.observed[id] == Succeeded) || op == Finish(id, Succeeded)
  {}

  lemma EffectLogs(cfg: Config, s: State, p: Pid, pc: Pc, a: Act)
    requires Busy(pc) && EffectOf(cfg, s, p, pc, a).Some?
    ensures var e := EffectOf(cfg, s, p, pc, a).value;
      && (e.op.Finish? ==> e.log.Quiet? && pc.Finishing? && e.op == Finish(pc.id, pc.status))
      && (e.log.CallStarted? ==> TaskOf(pc) in s.book.store && !s.book.store[TaskOf(pc)].observed)
      && (e.log.CallEnded? ==> pc.Building?)
  {}

  /** A goroutine that logs a call has not succeeded, and one that succeeds has completed. */
  lemma LoggedNotSucceeded(cfg: Config, s: State, p: Pid, a: Act)
    requires BookOk(s.book) && CallInv(cfg, s) && OwnOk(cfg, s) && Enabled(cfg, s, ProcEv(p, a))
    ensures var e, id := EffectOf(cfg, s, p, s.procs[p], a).value, TaskOf(s.procs[p]);
      && (e.op.Finish? ==> e.log.Quiet?)
      && (!e.log.Quiet? && id in s.book.observed ==> s.book.observed[id] != Succeeded)
      && (e.op == Finish(id, Succeeded) ==>
            id in s.calls && id in s.book.jobs && Completed(s.book.jobs[id], s.calls[id]))
  {
    hide OwnOk, CallsOk, KnownSlots, Behind, EffectOf, Partitioned, CountersOk;
    OwnerLogged(cfg, s, p);
    EffectLogs(cfg, s, p, s.procs[p], a);
  }

  lemma OwnerLogged(cfg: Config, s: State, p: Pid)
    requires OwnOk(cfg, s) && p in s.procs && Busy(s.procs[p])
    ensures TaskOf(s.procs[p]) in s.book.jobs && TaskOf(s.procs[p]) in s.calls
  {}

  lemma ProcKeepsFresh(cfg: Config, s: State, p: Pid, a: Act)
    requires OwnOk(cfg, s) && FreshFits(s) && Enabled(cfg, s, ProcEv(p, a))
    ensures FreshFits(Next(cfg, s, ProcEv(p, a)))
  {
    hide EffectOf, Enabled, OwnOk, Next, CallsAfter;
    ProcEnabled(cfg, s, p, a);
    ProcCalls(cfg, s, p, a);
    ProcFrame(cfg, s, p, a);
    OwnedElsewhere(cfg, s, p);
  }

  lemma ProcKeepsCalls(cfg: Config, s: State, p: Pid, a: Act)
    requires BookOk(s.book) && OwnOk(cfg, s) && CallInv(cfg, s) && Enabled(cfg, s, ProcEv(p, a))
    ensures CallInv(cfg, Next(cfg, s, ProcEv(p, a)))
  {
    hide EffectOf, Enabled, OwnOk, BookOk, Next, LogsOk, ProcsFit, SuccessEarned, FreshFits, KnownSlots;
    NextSlots(cfg, s, ProcEv(p, a));
    ProcCalls(cfg, s, p, a);
    ProcKeepsFit(cfg, s, p, a);
    ProcKeepsSuccess(cfg, s, p, a);
    ProcKeepsFresh(cfg, s, p, a);
  }

  lemma PopKeepsCalls(cfg: Config, s: State, p: Pid)
    requires OwnOk(cfg, s) && CallInv(cfg, s) && Enabled(cfg, s, PopEv(p))
    ensures CallInv(cfg, Next(cfg, s, PopEv(p)))
  {
    hide EffectOf, OwnOk, CallsOk, Completed, KnownSlots, ReadyToCall, AfterCall, OutcomeFits, StepDone, Behind;
    var q := s.queues[p.mode];
    assert q.ids[0] in q.ids;
    assert forall id :: id in Pop(q).ids ==> id in q.ids;
  }

  lemma StartKeepsCalls(cfg: Config, s: State)
    requires OwnOk(cfg, s) && CallInv(cfg, s) && Enabled(cfg, s, AdmStart)
    ensures CallInv(cfg, Next(cfg, s, AdmStart))
  {
    hide EffectOf, OwnOk, CallsOk, Completed, KnownSlots, ReadyToCall, AfterCall, OutcomeFits, StepDone, Behind;
    RefusedAdmitted(cfg, s);
    if Explicit(cfg) && s.book.jobs[s.adm.id].mode in s.queues {
      var q := s.queues[s.book.jobs[s.adm.id].mode];
      assert forall id :: id in Push(q, s.adm.id).ids ==> id in q.ids || id == s.adm.id;
    }
  }

  lemma AddKeepsCalls(cfg: Config, s: State, id: Id, job: Job)
    requires BookOk(s.book) && OwnOk(cfg, s) && CallInv(cfg, s) && Enabled(cfg, s, AdmAdd(id, job))
    ensures CallInv(cfg, Next(cfg, s, AdmAdd(id, job)))
  {
    hide EffectOf, OwnOk, KnownSlots, PcFits, Partitioned, CountersOk;
    var next := Next(cfg, s, AdmAdd(id, job));
    assert CallsOk(cfg.universe, job, []);
    NoRunnerYet(cfg, s, id);
  }

  lemma NoRunnerYet(cfg: Config, s: State, id: Id)
    requires OwnOk(cfg, s) && id !in s.book.jobs
    ensures Unowned(s.procs, id)
  {}

  lemma CloseKeepsCalls(cfg: Config, s: State, mode: string)
    requires CallInv(cfg, s) && Enabled(cfg, s, CloseQueueEv(mode))
    ensures CallInv(cfg, Next(cfg, s, CloseQueueEv(mode)))
  {
    hide EffectOf, CallsOk, Completed, KnownSlots, PcFits;
  }

  lemma RetireKeepsCalls(cfg: Config, s: State, p: Pid)
    requires CallInv(cfg, s) && Enabled(cfg, s, RetireEv(p))
    ensures CallInv(cfg, Next(cfg, s, RetireEv(p)))
  {
    hide EffectOf, CallsOk, Completed, KnownSlots, PcFits;
  }

  /** Events of nobody's task: the calls, the goroutines and the queues stay. */
  lemma OthersKeepCalls(cfg: Config, s: State, s': State)
    requires CallInv(cfg, s)
    requires s'.procs == s.procs && s'.queues == s.queues && s'.calls == s.calls && s'.book.jobs == s.book.jobs
    requires s'.adm == s.adm || !s'.adm.Added?
    requires KnownSlots(cfg.universe, s'.slots) && SlotsExtend(s.slots, s'.slots)
    requires forall id :: id in s'.book.observed && s'.book.observed[id] == Succeeded ==>
               id in s.book.observed && s.book.observed[id] == Succeeded
    ensures CallInv(cfg, s')
  {
    hide CallsOk, Completed, KnownSlots, PcFits, SlotsExtend;
    forall p | p in s'.procs && Busy(s'.procs[p]) && TaskOf(s'.procs[p]) in s'.book.jobs
        && TaskOf(s'.procs[p]) in s'.calls
      ensures PcFits(s'.slots, s'.book.jobs[TaskOf(s'.procs[p])], s'.procs[p], s'.calls[TaskOf(s'.procs[p])])
    {
      FitsWithMoreSlots(s.slots, s'.slots, s.book.jobs[TaskOf(s.procs[p])], s.procs[p], s.calls[TaskOf(s.procs[p])]);
    }
  }

  lemma AsideKeepsCalls(cfg: Config, s: State, ev: Event)
    requires CallInv(cfg, s) && Enabled(cfg, s, ev) && Aside(ev)
    ensures CallInv(cfg, Next(cfg, s, ev))
  {
    hide Next, LogsOk, ProcsFit, SuccessEarned, FreshFits, KnownSlots, Perform, EffectOf;
    var next, op := Next(cfg, s, ev), OpOf(cfg, s, ev);
    AsideOp(cfg, s, ev);
    AsideFrame(cfg, s, ev);
    PerformFrame(cfg.keepTtl, s.book, op);
    NextSlots(cfg, s, ev);
    forall id | id in next.book.observed && next.book.observed[id] == Succeeded
      ensures id in s.book.observed && s.book.observed[id] == Succeeded
    {
      ObservedGrowth(cfg.keepTtl, s.book, op, id);
    }
    OthersKeepCalls(cfg, s, next);
  }

  lemma RefuseKeepsCalls(cfg: Config, s: State)
    requires CallInv(cfg, s) && Enabled(cfg, s, AdmRefuse)
    ensures CallInv(cfg, Next(cfg, s, AdmRefuse))
  {
    hide LogsOk, ProcsFit, SuccessEarned, FreshFits, KnownSlots, Perform, EffectOf;
    var next, op := Next(cfg, s, AdmRefuse), OpOf(cfg, s, AdmRefuse);
    PerformFrame(cfg.keepTtl, s.book, op);
    BookFollows(cfg, s, AdmRefuse);
    NextSlots(cfg, s, AdmRefuse);
    forall id | id in next.book.observed && next.book.observed[id] == Succeeded
      ensures id in s.book.observed && s.book.observed[id] == Succeeded
    {
      ObservedGrowth(cfg.keepTtl, s.book, op, id);
    }
    OthersKeepCalls(cfg, s, next);
  }

  lemma NextKeepsCalls(cfg: Config, s: State, ev: Event)
    requires BookOk(s.book) && OwnOk(cfg, s) && CallInv(cfg, s) && Enabled(cfg, s, ev)
    ensures CallInv(cfg, Next(cfg, s, ev))
  {
    hide BookOk, OwnOk, CallInv, Enabled, Next;
    match ev
    case ProcEv(p, a) => ProcKeepsCalls(cfg, s, p, a);
    case PopEv(p) => PopKeepsCalls(cfg, s, p);
    case RetireEv(p) => RetireKeepsCalls(cfg, s, p);
    case AdmAdd(id, job) => AddKeepsCalls(cfg, s, id, job);
    case AdmStart => StartKeepsCalls(cfg, s);
    case AdmRefuse => RefuseKeepsCalls(cfg, s);
    case CloseQueueEv(mode) => CloseKeepsCalls(cfg, s, mode);
    case _ => AsideKeepsCalls(cfg, s, ev);
  }

  lemma InitCalls(cfg: Config, addrs: seq<Addr>)
    requires ValidAddrs(cfg, addrs)
    ensures CallInv(cfg, Init(cfg, addrs))
  {
    ReplacedSlots(cfg, [], [], addrs);
  }

  // ------------------------------------------------------------- the bound

  /** The distinct calls that could be made for one attempt, for one step, and for a whole task. */
  ghost function AttemptSpace(step: int, attempt: int, universe: set<Addr>): set<(int, int, Addr)> {
    set a | a in universe :: (step, attempt, a)
  }

  ghost function StepSpace(step: int, attempts: nat, universe: set<Addr>): set<(int, int, Addr)> {
    if attempts == 0 then {} else StepSpace(step, attempts - 1, universe) + AttemptSpace(step, attempts - 1, universe)
  }

  ghost function CallSpace(steps: nat, attempts: nat, universe: set<Addr>): set<(int, int, Addr)> {
    if steps == 0 then {} else CallSpace(steps - 1, attempts, universe) + StepSpace(steps - 1, attempts, universe)
  }

  lemma {:induction false} AttemptSpaceSize(step: int, attempt: int, universe: set<Addr>)
    ensures |AttemptSpace(step, attempt, universe)| == |universe|
  {
    if universe == {} {
      assert AttemptSpace(step, attempt, universe) == {};
    } else {
      var x :| x in universe;
      var rest := universe - {x};
      AttemptSpaceSize(step, attempt, rest);
      assert AttemptSpace(step, attempt, universe) == AttemptSpace(step, attempt, rest) + {(step, attempt, x)};
    }
  }

  lemma {:induction false} InStepSpace(step: int, attempts: nat, universe: set<Addr>, x: (int, int, Addr))
    ensures x in StepSpace(step, attempts, universe) <==> x.0 == step && 0 <= x.1 < attempts && x.2 in universe
  {
    if attempts > 0 {
      InStepSpace(step, attempts - 1, universe, x);
      assert x in AttemptSpace(step, attempts - 1, universe) <==>
          x.0 == step && x.1 == attempts - 1 && x.2 in universe by {
        assert x == (x.0, x.1, x.2);
      }
    }
  }

  lemma {:induction false} InCallSpace(steps: nat, attempts: nat, universe: set<Addr>, x: (int, int, Addr))
    ensures x in CallSpace(steps, attempts, universe) <==> 0 <= x.0 < steps && 0 <= x.1 < attempts && x.2 in universe
  {
    if steps > 0 {
      InCallSpace(steps - 1, attempts, universe, x);
      InStepSpace(steps - 1, attempts, universe, x);
    }
  }

  lemma {:induction false} StepSpaceSize(step: int, attempts: nat, universe: set<Addr>)
    ensures |StepSpace(step, attempts, universe)| == attempts * |universe|
  {
    if attempts > 0 {
      StepSpaceSize(step, attempts - 1, universe);
      AttemptSpaceSize(step, attempts - 1, universe);
      var fewer, last := StepSpace(step, attempts - 1, universe), AttemptSpace(step, attempts - 1, universe);
      forall x | x in fewer
        ensures x !in last
      {
        InStepSpace(step, attempts - 1, universe, x);
      }
      DisjointUnion(fewer, last);
      OneMore(attempts, |universe|);
    }
  }

  lemma OneMore(k: nat, n: nat)
    requires k > 0
    ensures (k - 1) * n + n == k * n
  {}

  lemma {:induction false} CallSpaceSize(steps: nat, attempts: nat, universe: set<Addr>)
    ensures |CallSpace(steps, attempts, universe)| == steps * (attempts * |universe|)
  {
    hide StepSpace;
    if steps > 0 {
      CallSpaceSize(steps - 1, attempts, universe);
      StepSpaceSize(steps - 1, attempts, universe);
      var fewer, last := CallSpace(steps - 1, attempts, universe), StepSpace(steps - 1, attempts, universe);
      forall x | x in fewer
        ensures x !in last
      {
        InCallSpace(steps - 1, attempts, universe, x);
        InStepSpace(steps - 1, attempts, universe, x);
      }
      DisjointUnion(fewer, last);
      OneMore(steps, attempts * |universe|);
    }
  }

  /** All calls of a task are different, so there are at most steps x (retry + 1) x workers of them. */
  lemma CallBound(universe: set<Addr>, job: Job, calls: seq<Call>)
    requires CallsOk(universe, job, calls)
    ensures |calls| <= job.steps * ((job.retry + 1) * |universe|)
  {
    var keys := seq(|calls|,
        i requires 0 <= i < |calls| => (calls[i].step as int, calls[i].attempt as int, calls[i].addr));
    forall i, j | 0 <= i < j < |keys|
      ensures keys[i] != keys[j]
    {
      assert !SameCall(calls[i], calls[j]);
    }
    forall i | 0 <= i < |keys|
      ensures keys[i] in CallSpace(job.steps, job.retry + 1, universe)
    {
      InCallSpace(job.steps, job.retry + 1, universe, keys[i]);
    }
    CallSpaceSize(job.steps, job.retry + 1, universe);
    NoDupBound(keys, CallSpace(job.steps, job.retry + 1, universe));
  }

  /** Every step up to the last one has a successful call. */
  lemma {:induction false} StepsBuilt(universe: set<Addr>, job: Job, calls: seq<Call>, step: nat)
    requires CallsOk(universe, job, calls) && calls != []
    requires step < calls[|calls| - 1].step || (step == calls[|calls| - 1].step && calls[|calls| - 1].result == CallOk)
    ensures exists i :: 0 <= i < |calls| && calls[i].step == step && calls[i].result == CallOk
  {
    var last := |calls| - 1;
    if step < calls[last].step {
      assert StepStartsInOrder(calls, last);
      var front := calls[..last];
      forall i | 0 <= i < |front|
        ensures StepStartsInOrder(front, i)
      {
        assert StepStartsInOrder(calls, i);
      }
      StepsBuilt(universe, job, front, step);
      var i :| 0 <= i < |front| && front[i].step == step && front[i].result == CallOk;
      assert calls[i].step == step;
    }
  }
}

/**
 What holds in every state of every run of the build daemon.
 */
module DaemonTheorems {
  import opened Basics
  import opened Tasks
  import opened Ledger
  import opened Daemon
  import opened Semaphores
  import opened Ownership
  import opened Lifecycle
  import opened RunnerCalls
  import BuildModes
  import Sums
  import HashRing

  ghost predicate Inv(cfg: Config, s: State) {
    && BookOk(s.book)
    && SemOk(cfg, s)
    && OwnOk(cfg, s)
    && LifeOk(cfg, s)
    && CallInv(cfg, s)
  }

  lemma InitInv(cfg: Config, addrs: seq<Addr>)
    requires ConfigOk(cfg) && ValidAddrs(cfg, addrs)
    ensures Inv(cfg, Init(cfg, addrs))
  {
    hide BookOk, SemOk, OwnOk, LifeOk, CallInv, Init;
    InitSem(cfg, addrs);
    InitOwn(cfg, addrs);
    InitLife(cfg, addrs);
    InitCalls(cfg, addrs);
  }

  lemma NextInv(cfg: Config, s: State, ev: Event)
    requires Inv(cfg, s) && Enabled(cfg, s, ev)
    ensures Inv(cfg, Next(cfg, s, ev)) && Advances(s.book, Next(cfg, s, ev).book)
  {
    hide BookOk, SemOk, OwnOk, LifeOk, CallInv, Next, Enabled;
    FreshRunner(cfg, s);
    NextKeepsSem(cfg, s, ev);
    NextKeepsOwn(cfg, s, ev);
    NextKeepsLife(cfg, s, ev);
    NextKeepsCalls(cfg, s, ev);
  }

  lemma FreshRunner(cfg: Config, s: State)
    requires OwnOk(cfg, s)
    ensures s.adm.Added? ==> TaskRunner(s.adm.id) !in s.procs
  {}

  /** The invariant holds in every state of every run. */
  lemma {:induction false} RunInv(cfg: Config, addrs: seq<Addr>, states: seq<State>, events: seq<Event>, i: nat)
    requires IsRun(cfg, addrs, states, events) && i < |states|
    ensures Inv(cfg, states[i])
    decreases i
  {
    hide Inv, Init, Next, Enabled;
    if i == 0 {
      InitInv(cfg, addrs);
    } else {
      RunInv(cfg, addrs, states, events, i - 1);
      assert states[i - 1 + 1] == Next(cfg, states[i - 1], events[i - 1]);
      NextInv(cfg, states[i - 1], events[i - 1]);
    }
  }

  lemma {:induction false} RunAdvances(cfg: Config, addrs: seq<Addr>, states: seq<State>, events: seq<Event>, i: nat,
                                       j: nat)
    requires IsRun(cfg, addrs, states, events) && i <= j < |states|
    ensures Advances(states[i].book, states[j].book)
    decreases j
  {
    hide Inv, Init, Next, Enabled, StoreOk;
    if i < j {
      RunAdvances(cfg, addrs, states, events, i, j - 1);
      RunInv(cfg, addrs, states, events, i);
      RunInv(cfg, addrs, states, events, j - 1);
      assert states[j - 1 + 1] == Next(cfg, states[j - 1], events[j - 1]);
      NextInv(cfg, states[j - 1], events[j - 1]);
      InvStore(cfg, states[i]);
      InvStore(cfg, states[j - 1]);
      AdvancesTransitive(states[i].book, states[j - 1].book, states[j].book);
    }
  }

  lemma InvStore(cfg: Config, s: State)
    requires Inv(cfg, s)
    ensures StoreOk(s.book)
  {}

  // ------------------------------------------------------------ semaphores

  /**
   The global semaphore and every slot semaphore count exactly the goroutines
   between their acquire and their release and never exceed their capacity; a
   release never blocks; and when no attempt is under way nothing is held.
   */
  lemma SemaphoresCountHolders(cfg: Config, addrs: seq<Addr>, states: seq<State>, events: seq<Event>, i: nat)
    requires IsRun(cfg, addrs, states, events) && i < |states|
    ensures var s := states[i];
      && (cfg.globalCap > 0 ==> s.global == |GlobalHolders(s.procs)| <= cfg.globalCap)
      && (forall k :: 0 <= k < |s.slots| ==> s.slots[k].used == |SlotHolders(s.procs, k)| <= cfg.slotCap)
      && (forall p :: p in s.procs && s.procs[p].FreeingSlot? ==>
            s.procs[p].slot < |s.slots| && s.slots[s.procs[p].slot].used > 0)
      && (forall p :: p in s.procs && s.procs[p].FreeingGlobal? && cfg.globalCap > 0 ==> s.global > 0)
      && ((forall p :: p in s.procs ==> !HoldsGlobal(s.procs[p])) ==>
            s.global == 0 && forall k :: 0 <= k < |s.slots| ==> s.slots[k].used == 0)
  {
    hide IsRun, BookOk, OwnOk, LifeOk, CallInv;
    RunInv(cfg, addrs, states, events, i);
    var s := states[i];
    forall p | p in s.procs && s.procs[p].FreeingSlot?
      ensures s.procs[p].slot < |s.slots| && s.slots[s.procs[p].slot].used > 0
    {
      assert p in SlotHolders(s.procs, s.procs[p].slot);
    }
    forall p | p in s.procs && s.procs[p].FreeingGlobal? && cfg.globalCap > 0
      ensures s.global > 0
    {
      assert p in GlobalHolders(s.procs);
    }
    if forall p :: p in s.procs ==> !HoldsGlobal(s.procs[p]) {
      assert GlobalHolders(s.procs) == {};
      forall k | 0 <= k < |s.slots|
        ensures s.slots[k].used == 0
      {
        assert SlotHolders(s.procs, k) == {};
      }
    }
  }

  // -------------------------------------------------------------- progress

  /** Leaving a wait because the task's context ended. */
  predicate GivesUp(a: Act) {
    a.AbandonGlobal? || a.AbandonSlot? || a.BackoffCanceled?
  }

  function PoolOrder(n: nat): (order: seq<nat>)
    ensures |order| == n && forall i :: 0 <= i < n ==> order[i] == i
  {
    seq(n, i => i)
  }

  /** What a goroutine would do next on its own. */
  function Forward(s: State, pc: Pc): Act
    requires Busy(pc)
  {
    match pc
    case Starting(_) => Begin(true)
    case AtStep(_) => BeginStep(true)
    case Requeueing(_) => RequeueForRetry
    case BackingOff(_) => BackoffOver
    case Marking(_) => MarkTask
    case WantGlobal(_) => AcquireGlobal
    case Snapshotting(_) => TakeSnapshot(PoolOrder(|s.pool|))
    case Trying(_, _, _) => TryNext
    case WantSlot(_, _) => GrabSlot(0)
    case Assigning(_, _) => TryAssign
    case Building(_, _) => BuildReturns(Built)
    case FreeingSlot(_, _, _) => ReleaseSlot
    case FreeingGlobal(_, _) => ReleaseGlobal
    case Returned(_, _) => Decide
    case Refreshing(_) => RefreshPool(None)
    case Finishing(_, _) => FinishNow
    case Closing(_) => CloseNow
  }

  /** Only the two semaphores can hold a goroutine up. */
  lemma ForwardEnabled(cfg: Config, s: State, p: Pid)
    requires SemOk(cfg, s) && OwnOk(cfg, s) && p in s.procs && Busy(s.procs[p])
    requires s.procs[p].WantGlobal? ==> GlobalRoom(cfg, s)
    requires s.procs[p].WantSlot? ==> s.procs[p].cands != [] && HasRoom(cfg, s, s.procs[p].cands[0])
    ensures Enabled(cfg, s, ProcEv(p, Forward(s, s.procs[p])))
    ensures !GivesUp(Forward(s, s.procs[p]))
  {
    hide OwnOk, SlotsOk, GlobalOk;
    OwnerAdmitted(cfg, s, p);
    assert PcSlots(|s.slots|, s.procs[p]);
  }

  /** A goroutine that holds the global slot can step, or one that holds a worker slot can. */
  lemma HolderCanStep(cfg: Config, s: State, p: Pid) returns (q: Pid)
    requires cfg.slotCap >= 1 && SemOk(cfg, s) && OwnOk(cfg, s) && p in s.procs && HoldsGlobal(s.procs[p])
    ensures q in s.procs && HoldsGlobal(s.procs[q]) && Enabled(cfg, s, ProcEv(q, Forward(s, s.procs[q])))
    ensures !GivesUp(Forward(s, s.procs[q]))
  {
    hide OwnOk, Enabled, GlobalOk, Forward, GivesUp;
    q := p;
    if s.procs[p].WantSlot? {
      assert PcSlots(|s.slots|, s.procs[p]);
      var slot := s.procs[p].cands[0];
      if !HasRoom(cfg, s, slot) {
        assert SlotHolders(s.procs, slot) != {};
        q :| q in SlotHolders(s.procs, slot);
      }
    }
    ForwardEnabled(cfg, s, q);
  }

  /**
   No deadlock: while any goroutine works on a task, some goroutine can take a
   step other than giving up. The step waits for the outside world only when a
   build is running.
   */
  lemma NoDeadlock(cfg: Config, addrs: seq<Addr>, states: seq<State>, events: seq<Event>, i: nat, p: Pid)
    requires IsRun(cfg, addrs, states, events) && i < |states|
    requires p in states[i].procs && Busy(states[i].procs[p])
    ensures exists q, a :: Enabled(cfg, states[i], ProcEv(q, a)) && !GivesUp(a)
              && (a.BuildReturns? ==> states[i].procs[q].Building?)
  {
    hide Inv, Enabled, Next, Init, Forward;
    RunInv(cfg, addrs, states, events, i);
    var q := SomeoneSteps(cfg, states[i], p);
    OnlyBuildersReturn(cfg, states[i], q);
  }

  lemma OnlyBuildersReturn(cfg: Config, s: State, q: Pid)
    requires q in s.procs && Busy(s.procs[q])
    ensures Forward(s, s.procs[q]).BuildReturns? ==> s.procs[q].Building?
  {}

  lemma SomeoneSteps(cfg: Config, s: State, p: Pid) returns (q: Pid)
    requires ConfigOk(cfg) && Inv(cfg, s) && p in s.procs && Busy(s.procs[p])
    ensures q in s.procs && Busy(s.procs[q])
    ensures Enabled(cfg, s, ProcEv(q, Forward(s, s.procs[q]))) && !GivesUp(Forward(s, s.procs[q]))
    ensures s.procs[p].WantGlobal? || s.procs[p].WantSlot? ==> s.procs[q].WantGlobal? || HoldsGlobal(s.procs[q])
  {
    hide BookOk, OwnOk, LifeOk, CallInv, Enabled, Forward, SlotsOk, PcsOk, GivesUp;
    if HoldsGlobal(s.procs[p]) {
      q := HolderCanStep(cfg, s, p);
    } else if s.procs[p].WantGlobal? && !GlobalRoom(cfg, s) {
      assert GlobalHolders(s.procs) != {};
      var holder :| holder in GlobalHolders(s.procs);
      q := HolderCanStep(cfg, s, holder);
    } else {
      q := p;
      ForwardEnabled(cfg, s, p);
    }
  }

  /**
   While some attempt waits for a semaphore and none occupies a worker slot, an
   attempt that is acquiring can step, whatever snapshot of the pool it waits on.
   */
  lemma WaiterCanStep(cfg: Config, addrs: seq<Addr>, states: seq<State>, events: seq<Event>, i: nat, p: Pid)
    requires IsRun(cfg, addrs, states, events) && i < |states|
    requires p in states[i].procs && (states[i].procs[p].WantGlobal? || states[i].procs[p].WantSlot?)
    requires forall k :: 0 <= k < |states[i].slots| ==> states[i].slots[k].used == 0
    ensures exists q, a :: Enabled(cfg, states[i], ProcEv(q, a)) && !GivesUp(a) && !a.BuildReturns?
                           && (states[i].procs[q].WantGlobal? || HoldsGlobal(states[i].procs[q]))
  {
    hide Enabled, Next, Init, Forward, BookOk, OwnOk, LifeOk, CallInv, GivesUp;
    RunInv(cfg, addrs, states, events, i);
    var q := SomeoneSteps(cfg, states[i], p);
    OnlyBuildersReturn(cfg, states[i], q);
    SlotOccupied(cfg, states[i], q);
  }

  lemma SlotOccupied(cfg: Config, s: State, q: Pid)
    requires SemOk(cfg, s) && q in s.procs
    ensures s.procs[q].Building? ==> s.procs[q].slot < |s.slots| && s.slots[s.procs[q].slot].used > 0
  {
    assert PcSlots(|s.slots|, s.procs[q]);
    if s.procs[q].Building? {
      assert q in SlotHolders(s.procs, s.procs[q].slot);
    }
  }

  /**
   With explicit modes and a positive limit, a mode worker that reaches the
   global semaphore finds it with room: it never waits there.
   */
  lemma ModeWorkerNeverWaitsForGlobal(cfg: Config, addrs: seq<Addr>, states: seq<State>, events: seq<Event>, i: nat,
                                      p: Pid)
    requires IsRun(cfg, addrs, states, events) && i < |states|
    requires Explicit(cfg) && cfg.globalCap > 0
    requires p in states[i].procs && states[i].procs[p].WantGlobal?
    ensures states[i].global < cfg.globalCap
    ensures Enabled(cfg, states[i], ProcEv(p, AcquireGlobal))
  {
    hide Next, Init, BookOk, LifeOk, CallInv, ProcsOwn, QueuesOwn, AdmOwns, ClosedOk, SlotsOk, PcsOk;
    RunInv(cfg, addrs, states, events, i);
    var s := states[i];
    WorkerIds(cfg.modes);
    assert |s.procs.Keys| <= cfg.globalCap;
    assert GlobalHolders(s.procs) <= s.procs.Keys - {p};
    SubsetSize(GlobalHolders(s.procs), s.procs.Keys - {p});
  }

  lemma WorkerIds(modes: map<string, int>)
    requires forall name :: name in modes ==> modes[name] >= 0
    ensures |set w | w in BuildModes.Workers(modes) :: ModeWorker(w.0, w.1)| == Sums.Total(modes)
  {
    BuildModes.WorkerCount(modes);
    ImageSize(BuildModes.Workers(modes));
  }

  lemma {:induction false} ImageSize(workers: set<(string, int)>)
    ensures |set w | w in workers :: ModeWorker(w.0, w.1)| == |workers|
  {
    if workers == {} {
      assert (set w | w in workers :: ModeWorker(w.0, w.1)) == {};
    } else {
      var x :| x in workers;
      var rest := workers - {x};
      ImageSize(rest);
      assert (set w | w in workers :: ModeWorker(w.0, w.1))
          == (set w | w in rest :: ModeWorker(w.0, w.1)) + {ModeWorker(x.0, x.1)};
      assert ModeWorker(x.0, x.1) !in (set w | w in rest :: ModeWorker(w.0, w.1));
    }
  }

  // ------------------------------------------------------------ task status

  /** A terminal status is final, an observation is made once and for all, and a deleted task stays away. */
  lemma TerminalIsFinal(cfg: Config, addrs: seq<Addr>, states: seq<State>, events: seq<Event>, i: nat, j: nat, id: Id)
    requires IsRun(cfg, addrs, states, events) && i <= j < |states|
    ensures var b, c := states[i].book, states[j].book;
      && (id in b.store && !Live(b.store[id]) && id in c.store ==> c.store[id].status == b.store[id].status)
      && (id in b.observed ==> id in c.observed && c.observed[id] == b.observed[id])
      && (id in b.jobs && id !in b.store ==> id !in c.store)
  {
    hide IsRun;
    RunAdvances(cfg, addrs, states, events, i, j);
  }

  /** What a stored task shows: finished exactly when terminal, no worker while queued, a worker while running. */
  lemma StatusShape(cfg: Config, addrs: seq<Addr>, states: seq<State>, events: seq<Event>, i: nat, id: Id)
    requires IsRun(cfg, addrs, states, events) && i < |states| && id in states[i].book.store
    ensures var t := states[i].book.store[id];
      && (t.finishedAt.Some? <==> !Live(t))
      && (t.status == Queued ==> t.worker.None?)
      && (t.status == Running ==> t.worker.Some? && t.startedAt.Some?)
      && (t.observed <==> id in states[i].book.observed)
      && (t.status == Succeeded || t.status == Failed ==> t.observed)
  {
    hide IsRun, SemOk, OwnOk, LifeOk, CallInv;
    RunInv(cfg, addrs, states, events, i);
  }

  /** Every admitted task is unobserved in the store, observed and counted or about to be, or was canceled and lost. */
  lemma TasksConserved(cfg: Config, addrs: seq<Addr>, states: seq<State>, events: seq<Event>, i: nat)
    requires IsRun(cfg, addrs, states, events) && i < |states|
    ensures var b := states[i].book;
      && |b.jobs| == |Unobserved(b.store)| + |b.unreported| + b.succeeded + b.failed + b.canceled + |b.lost|
      && (forall id :: id in b.lost ==> b.lost[id].status == Canceled)
  {
    hide IsRun, SemOk, OwnOk, LifeOk, CallInv, StoreOk, CountersOk;
    RunInv(cfg, addrs, states, events, i);
    Conservation(states[i].book);
  }

  /** A canceled task that is not observed yet has a handler or the shutdown sweep still at it. */
  lemma CanceledTaskIsAwaited(cfg: Config, addrs: seq<Addr>, states: seq<State>, events: seq<Event>, i: nat, id: Id)
    requires IsRun(cfg, addrs, states, events) && i < |states|
    requires id in states[i].book.store && !Live(states[i].book.store[id]) && !states[i].book.store[id].observed
    ensures Awaited(states[i].cancels, states[i].sweep, id)
  {
    hide IsRun, BookOk, SemOk, OwnOk, CallInv, Awaited;
    RunInv(cfg, addrs, states, events, i);
  }

  /** The store never holds more tasks than configured. */
  lemma RetainedWithinLimit(cfg: Config, addrs: seq<Addr>, states: seq<State>, events: seq<Event>, i: nat)
    requires IsRun(cfg, addrs, states, events) && i < |states|
    ensures |states[i].book.store| <= cfg.maxRetained
  {
    hide IsRun, BookOk, SemOk, OwnOk, CallInv;
    RunInv(cfg, addrs, states, events, i);
  }

  /** When the shutdown sweep is through, every task it found live is observed or gone. */
  lemma SweepLeavesNothingLive(cfg: Config, addrs: seq<Addr>, states: seq<State>, events: seq<Event>, i: nat, id: Id)
    requires IsRun(cfg, addrs, states, events) && i < |states|
    requires states[i].sweep.Swept? && id in states[i].sweep.listed && id in states[i].book.store
    ensures states[i].book.store[id].observed && !Live(states[i].book.store[id])
  {
    hide IsRun, SemOk, OwnOk, CallInv;
    RunInv(cfg, addrs, states, events, i);
    StatusShape(cfg, addrs, states, events, i, id);
    assert Settled(states[i].book, id);
  }

  // ------------------------------------------------------ the preference order

  /** What the hash ring computes for any key is one of the orders a snapshot of the pool may be tried in. */
  lemma RingOrderIsOrder(ring: seq<nat>, nodeMap: map<nat, nat>, numNodes: nat, start: nat)
    requires HashRing.RingOk(ring, nodeMap, numNodes) && HashRing.AllSurvive(ring, nodeMap, numNodes) && start <= |ring|
    ensures IsOrder(HashRing.FirstOcc(HashRing.Walk(ring, nodeMap, start)), numNodes)
  {
    HashRing.AllVisited(ring, nodeMap, numNodes, start);
  }

  // ------------------------------------------------- queues and done channels

  /** Each mode hands out a prefix of what was pushed to it, and no task is ever pushed twice, to any mode. */
  lemma QueuesAreFifo(cfg: Config, addrs: seq<Addr>, states: seq<State>, events: seq<Event>, i: nat, mode: string)
    requires IsRun(cfg, addrs, states, events) && i < |states| && mode in states[i].queues
    ensures var q := states[i].queues[mode];
      && q.popped <= q.pushed && NoDup(q.pushed) && (!q.closed ==> q.pushed == q.popped + q.ids)
           && (q.closed ==> q.ids == [])
      && forall other :: other in states[i].queues && other != mode ==>
           forall id :: id in q.pushed ==> id !in states[i].queues[other].pushed
  {
    hide IsRun, BookOk, SemOk, LifeOk, CallInv;
    RunInv(cfg, addrs, states, events, i);
    var s := states[i];
    assert QueueOwns(s.book.jobs, s.book.closed, s.procs, mode, s.queues[mode]);
    forall other | other in s.queues && other != mode
      ensures forall id :: id in s.queues[mode].pushed ==> id !in s.queues[other].pushed
    {
      assert QueueOwns(s.book.jobs, s.book.closed, s.procs, other, s.queues[other]);
    }
  }

  /** A closed queue stays closed and hands out nothing more. */
  lemma {:induction false} NothingAfterClose(cfg: Config, addrs: seq<Addr>, states: seq<State>, events: seq<Event>,
                                             i: nat, j: nat, mode: string)
    requires IsRun(cfg, addrs, states, events) && i <= j < |states|
    requires mode in states[i].queues && states[i].queues[mode].closed
    ensures mode in states[j].queues && states[j].queues[mode].closed
    ensures states[j].queues[mode].popped == states[i].queues[mode].popped
    decreases j
  {
    hide Init, Next, Enabled;
    if i < j {
      NothingAfterClose(cfg, addrs, states, events, i, j - 1, mode);
      assert states[j - 1 + 1] == Next(cfg, states[j - 1], events[j - 1]);
      ClosedStays(cfg, states[j - 1], events[j - 1], mode);
    }
  }

  lemma ClosedStays(cfg: Config, s: State, ev: Event, mode: string)
    requires Enabled(cfg, s, ev) && mode in s.queues && s.queues[mode].closed
    ensures var next := Next(cfg, s, ev);
            mode in next.queues && next.queues[mode].closed && next.queues[mode].popped == s.queues[mode].popped
  {
    hide EffectOf, ApplyEffect, Perform, OpOf;
    if ev.ProcEv? {
      ProcFrame(cfg, s, ev.p, ev.a);
    } else if Aside(ev) {
      AsideFrame(cfg, s, ev);
    }
  }

  /** A task's done channel is closed at most once, and only once the task has ended. */
  lemma DoneClosedOnce(cfg: Config, addrs: seq<Addr>, states: seq<State>, events: seq<Event>, i: nat, id: Id)
    requires IsRun(cfg, addrs, states, events) && i < |states|
    ensures states[i].book.closed[id] <= 1
    ensures id in states[i].book.closed && id in states[i].book.store ==> !Live(states[i].book.store[id])
    ensures forall p :: p in states[i].procs && Busy(states[i].procs[p]) && TaskOf(states[i].procs[p]) == id ==>
              id !in states[i].book.closed
  {
    hide IsRun, BookOk, SemOk, CallInv;
    RunInv(cfg, addrs, states, events, i);
    if id in states[i].book.closed {
      assert Ended(states[i].book, id);
    }
  }

  // ------------------------------------------------------------ runner calls

  /**
   The runner is never called twice on one worker within an attempt, a step is
   started only after the one before it was built, all calls stay within the
   task's steps and retries, and their number is bounded.
   */
  lemma RunnerCallDiscipline(cfg: Config, addrs: seq<Addr>, states: seq<State>, events: seq<Event>, i: nat, id: Id)
    requires IsRun(cfg, addrs, states, events) && i < |states| && id in states[i].calls
    ensures id in states[i].book.jobs
    ensures var calls, job := states[i].calls[id], states[i].book.jobs[id];
      && (forall k, l :: 0 <= k < l < |calls| ==> !SameCall(calls[k], calls[l]))
      && (forall k :: 0 <= k < |calls| ==> StepStartsInOrder(calls, k))
      && (forall k :: 0 <= k < |calls| ==> calls[k].step < job.steps && calls[k].attempt <= job.retry)
      && |calls| <= job.steps * ((job.retry + 1) * |cfg.universe|)
  {
    hide IsRun, Inv, SameCall, StepStartsInOrder;
    RunInv(cfg, addrs, states, events, i);
    LogOf(cfg, states[i], id);
    CallBound(cfg.universe, states[i].book.jobs[id], states[i].calls[id]);
  }

  lemma LogOf(cfg: Config, s: State, id: Id)
    requires Inv(cfg, s) && id in s.calls
    ensures id in s.book.jobs && CallsOk(cfg.universe, s.book.jobs[id], s.calls[id])
  {
    hide BookOk, SemOk, LifeOk, CallsOk, ProcsFit, ProcsOwn, QueuesOwn, AdmOwns;
  }

  /** A task observed as succeeded had every one of its steps built. */
  lemma SuccessMeansAllStepsBuilt(cfg: Config, addrs: seq<Addr>, states: seq<State>, events: seq<Event>, i: nat, id: Id,
                                  step: nat)
    requires IsRun(cfg, addrs, states, events) && i < |states|
    requires id in states[i].book.observed && states[i].book.observed[id] == Succeeded
    requires id in states[i].book.jobs && step < states[i].book.jobs[id].steps
    ensures id in states[i].calls
    ensures exists k :: 0 <= k < |states[i].calls[id]| && states[i].calls[id][k].step == step
              && states[i].calls[id][k].result == CallOk
  {
    hide IsRun, BookOk, SemOk, LifeOk, CallsOk;
    RunInv(cfg, addrs, states, events, i);
    StepsBuilt(cfg.universe, states[i].book.jobs[id], states[i].calls[id], step);
  }

  /** Each failover strictly shrinks the set of workers the attempt may still try, so the failover loop ends. */
  lemma FailoverShrinks(cfg: Config, addrs: seq<Addr>, states: seq<State>, events: seq<Event>, i: nat)
    requires IsRun(cfg, addrs, states, events) && i < |events|
    requires events[i].ProcEv? && events[i].a.Decide? && states[i + 1].procs[events[i].p].Refreshing?
    ensures states[i].procs[events[i].p].Returned?
    ensures var before, after := states[i].procs[events[i].p].run, states[i + 1].procs[events[i].p].run;
      && before.excluded < after.excluded
      && |cfg.universe - after.excluded| < |cfg.universe - before.excluded|
  {
    hide Inv, EffectOf, Next, Init;
    assert states[i + 1] == Next(cfg, states[i], events[i]);
    var p := events[i].p;
    var pc := states[i].procs[p];
    RunInv(cfg, addrs, states, events, i);
    ProcFrame(cfg, states[i], p, Decide);
    DecidesFailover(cfg, states[i], p, pc);
    FailedWorkerKnown(cfg, states[i], p);
    var before, after := pc.run.excluded, states[i + 1].procs[p].run.excluded;
    assert cfg.universe - before == (cfg.universe - after) + {pc.outcome.addr};
  }

  lemma DecidesFailover(cfg: Config, s: State, p: Pid, pc: Pc)
    requires EffectOf(cfg, s, p, pc, Decide).Some? && EffectOf(cfg, s, p, pc, Decide).value.pc.Refreshing?
    ensures pc.Returned? && pc.outcome.BuildError?
    ensures EffectOf(cfg, s, p, pc, Decide).value.pc.run.excluded == pc.run.excluded + {pc.outcome.addr}
  {}

  lemma FailedWorkerKnown(cfg: Config, s: State, p: Pid)
    requires Inv(cfg, s) && p in s.procs && s.procs[p].Returned? && s.procs[p].outcome.BuildError?
    ensures s.procs[p].outcome.addr in cfg.universe && s.procs[p].outcome.addr !in s.procs[p].run.excluded
  {
    hide BookOk, SemOk, LifeOk, OwnOk, Behind;
    OwnerLogged(cfg, s, p);
    LogOf(cfg, s, s.procs[p].run.id);
  }
}

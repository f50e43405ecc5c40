/**
 Which worker an attempt gets: the candidates of its snapshot in preference
 order, the first of them that has room when it is looked at, and none only when
 every worker of the pool was excluded. And which slot an address gets when the
 pool is replaced.
 */
module Placement {
  import opened Basics
  import opened Tasks
  import opened Ledger
  import opened Daemon
  import opened Semaphores
  import opened Ownership
  import opened Lifecycle
  import opened RunnerCalls
  import opened DaemonTheorems
  import opened History

  // ------------------------------------------------------------ replacing the pool

  /** Position `n` is the last one of the pool with this address. */
  ghost predicate LastOf(slots: seq<Slot>, pool: seq<nat>, addr: Addr, n: nat) {
    && n < |pool| && pool[n] < |slots| && slots[pool[n]].addr == addr
    && forall m :: n < m < |pool| && pool[m] < |slots| ==> slots[pool[m]].addr != addr
  }

  lemma {:induction false} LookupIsLast(slots: seq<Slot>, pool: seq<nat>, addr: Addr) returns (n: nat)
    ensures Lookup(slots, pool, addr).Some? ==>
              LastOf(slots, pool, addr, n) && Lookup(slots, pool, addr) == Some(pool[n])
  {
    n := 0;
    if pool != [] {
      var last := |pool| - 1;
      if pool[last] < |slots| && slots[pool[last]].addr == addr {
        n := last;
      } else {
        n := LookupIsLast(slots, pool[..last], addr);
      }
    }
  }

  /** An address of the pool keeps the slot it had there last, and any other address gets a slot of its own. */
  ghost predicate Replaced(slots: seq<Slot>, pool: seq<nat>, addrs: seq<Addr>, fresh': seq<nat>, i: nat)
    requires i < |addrs| == |fresh'|
  {
    || (exists n: nat :: LastOf(slots, pool, addrs[i], n) && fresh'[i] == pool[n])
    || (&& |slots| <= fresh'[i]
        && (forall n :: 0 <= n < |pool| && pool[n] < |slots| ==> slots[pool[n]].addr != addrs[i])
        && (forall j :: 0 <= j < |addrs| && j != i ==> fresh'[j] != fresh'[i]))
  }

  lemma {:induction false} ReplaceAt(slots: seq<Slot>, pool: seq<nat>, addrs: seq<Addr>, i: nat)
    requires i < |addrs|
    ensures var r := Replace(slots, pool, addrs);
      match Lookup(slots, pool, addrs[i])
      case Some(k) => r.1[i] == k < |slots|
      case None => |slots| <= r.1[i]
  {
    if i < |addrs| - 1 {
      ReplaceAt(slots, pool, addrs[..|addrs| - 1], i);
    }
  }

  lemma {:induction false} FreshApart(slots: seq<Slot>, pool: seq<nat>, addrs: seq<Addr>, i: nat, j: nat)
    requires i < j < |addrs|
    requires Lookup(slots, pool, addrs[i]).None? || Lookup(slots, pool, addrs[j]).None?
    ensures Replace(slots, pool, addrs).1[i] != Replace(slots, pool, addrs).1[j]
  {
    var n := |addrs| - 1;
    if j < n {
      FreshApart(slots, pool, addrs[..n], i, j);
    } else {
      ReplaceAt(slots, pool, addrs, i);
    }
  }

  lemma ReplaceIs(slots: seq<Slot>, pool: seq<nat>, addrs: seq<Addr>, i: nat)
    requires i < |addrs|
    ensures Replaced(slots, pool, addrs, Replace(slots, pool, addrs).1, i)
  {
    hide Replace, Lookup;
    ReplaceAt(slots, pool, addrs, i);
    var n := LookupIsLast(slots, pool, addrs[i]);
    if Lookup(slots, pool, addrs[i]).None? {
      forall j | 0 <= j < |addrs| && j != i
        ensures Replace(slots, pool, addrs).1[j] != Replace(slots, pool, addrs).1[i]
      {
        FreshApart(slots, pool, addrs, if i < j then i else j, if i < j then j else i);
      }
    }
  }

  // ------------------------------------------------------------ the candidates

  /** `r` is the pool at the positions `order[at[0]], order[at[1]], ...`: an increasing choice of the order. */
  ghost predicate InOrder(pool: seq<nat>, order: seq<nat>, at: seq<nat>, r: seq<nat>) {
    && |at| == |r|
    && (forall k :: 0 <= k < |at| ==> at[k] < |order| && order[at[k]] < |pool| && r[k] == pool[order[at[k]]])
    && (forall k, l :: 0 <= k < l < |at| ==> at[k] < at[l])
  }

  /** The candidates are exactly the workers that are not excluded, in preference order. */
  lemma {:induction false} CandidatesInOrder(slots: seq<Slot>, pool: seq<nat>, order: seq<nat>, excluded: set<Addr>)
    returns (at: seq<nat>)
    requires forall i :: 0 <= i < |order| ==> order[i] < |pool|
    requires forall i :: 0 <= i < |pool| ==> pool[i] < |slots|
    ensures InOrder(pool, order, at, Candidates(slots, pool, order, excluded))
    ensures forall i :: 0 <= i < |order| ==> (i in at <==> slots[pool[order[i]]].addr !in excluded)
  {
    at := [];
    if order != [] {
      var n := |order| - 1;
      var front := CandidatesInOrder(slots, pool, order[..n], excluded);
      OrderGrows(pool, order, n, front, Candidates(slots, pool, order[..n], excluded));
      if slots[pool[order[n]]].addr in excluded {
        at := front;
      } else {
        at := front + [n];
      }
    }
  }

  lemma OrderGrows(pool: seq<nat>, order: seq<nat>, n: nat, at: seq<nat>, r: seq<nat>)
    requires n + 1 == |order| && order[n] < |pool| && InOrder(pool, order[..n], at, r)
    ensures InOrder(pool, order, at, r) && InOrder(pool, order, at + [n], r + [pool[order[n]]]) && n !in at
  {
    assert forall k :: 0 <= k < |at| ==> at[k] < n && order[..n][at[k]] == order[at[k]];
  }

  // ------------------------------------------------------------ the choice

  /** Event `i` is the goroutine's snapshot, in some preference order, and gave it these candidates. */
  ghost predicate Snapshot(cfg: Config, states: seq<State>, events: seq<Event>, i: nat, p: Pid, run: Run,
                           cands: seq<nat>)
    requires i < |events| < |states|
  {
    && p in states[i].procs && states[i].procs[p] == Snapshotting(run)
    && exists order, at ::
         && events[i] == ProcEv(p, TakeSnapshot(order)) && IsOrder(order, |states[i].pool|)
         && PoolOk(states[i]) && InOrder(states[i].pool, order, at, cands)
         && forall k :: 0 <= k < |order| ==>
              (k in at <==> states[i].slots[states[i].pool[order[k]]].addr !in run.excluded)
  }

  /** At event `i` the goroutine looked at this candidate and found it full. */
  ghost predicate FoundFull(cfg: Config, states: seq<State>, events: seq<Event>, i: int, p: Pid, run: Run,
                            cands: seq<nat>, k: nat)
    requires 0 <= i < |events| < |states|
  {
    && events[i] == ProcEv(p, TryNext) && p in states[i].procs && states[i].procs[p] == Trying(run, cands, k)
    && k < |cands| && !(cands[k] < |states[i].slots| && states[i].slots[cands[k]].used < cfg.slotCap)
  }

  lemma TryingStep(cfg: Config, s: State, p: Pid, pc: Pc, a: Act)
    requires Busy(pc) && EffectOf(cfg, s, p, pc, a).Some?
    ensures var next := EffectOf(cfg, s, p, pc, a).value.pc;
      && (next.Trying? && next.k > 0 ==>
            && a.TryNext? && pc == Trying(next.run, next.cands, next.k - 1) && next.k <= |next.cands|
            && !HasRoom(cfg, s, next.cands[next.k - 1]))
      && (next.Trying? && next.k == 0 ==>
            && a.TakeSnapshot? && pc == Snapshotting(next.run) && IsOrder(a.order, |s.pool|) && PoolOk(s)
            && (forall i :: 0 <= i < |a.order| ==> a.order[i] < |s.pool|)
            && next.cands == Candidates(s.slots, s.pool, a.order, next.run.excluded))
      && (next.WantSlot? ==>
            a.TryNext? && pc.Trying? && pc == Trying(next.run, next.cands, pc.k) && pc.k >= |next.cands| > 0)
      && (next.Assigning? ==>
            || (pc.Trying? && pc.run == next.run && pc.k < |pc.cands| && next.slot == pc.cands[pc.k])
            || (pc.WantSlot? && pc.run == next.run && next.slot in pc.cands))
      && (next.Assigning? ==> HasRoom(cfg, s, next.slot))
      && (next.FreeingSlot? ==> !next.outcome.NoWorker?)
      && (next.FreeingGlobal? && next.outcome.NoWorker? ==>
            || (pc.FreeingSlot? && pc.outcome.NoWorker?)
            || (pc.Trying? && pc.run == next.run && pc.cands == []))
      && (next.Returned? && next.outcome.NoWorker? ==> pc == FreeingGlobal(next.run, NoWorker))
  {}

  /** The candidates that an attempt tries come from a snapshot it took. */
  lemma {:induction false} TriesSnapshot(cfg: Config, addrs: seq<Addr>, states: seq<State>, events: seq<Event>, j: nat,
                                         p: Pid) returns (i: nat)
    requires IsRun(cfg, addrs, states, events) && j < |states| && p in states[j].procs && states[j].procs[p].Trying?
    ensures i < j <= |events| < |states|
    ensures Snapshot(cfg, states, events, i, p, states[j].procs[p].run, states[j].procs[p].cands)
    decreases j
  {
    hide IsRun, EffectOf, Snapshot;
    var pc := states[j].procs[p];
    i := LastStep(cfg, addrs, states, events, j, p);
    TryingStep(cfg, states[i], p, states[i].procs[p], events[i].a);
    if pc.k > 0 {
      i := TriesSnapshot(cfg, addrs, states, events, i, p);
    } else {
      SnapshotTaken(cfg, states, events, i, p, pc);
    }
  }

  lemma SnapshotTaken(cfg: Config, states: seq<State>, events: seq<Event>, i: nat, p: Pid, pc: Pc)
    requires i < |events| < |states| && p in states[i].procs && pc.Trying? && states[i].procs[p] == Snapshotting(pc.run)
    requires events[i].ProcEv? && events[i].p == p && events[i].a.TakeSnapshot?
    requires IsOrder(events[i].a.order, |states[i].pool|) && PoolOk(states[i])
    requires pc.cands == Candidates(states[i].slots, states[i].pool, events[i].a.order, pc.run.excluded)
    ensures Snapshot(cfg, states, events, i, p, pc.run, pc.cands)
  {
    hide Candidates;
    var at := CandidatesInOrder(states[i].slots, states[i].pool, events[i].a.order, pc.run.excluded);
  }

  /** Whatever candidate an attempt passed over was full when it looked at it. */
  lemma {:induction false} PassedOverWasFull(cfg: Config, addrs: seq<Addr>, states: seq<State>, events: seq<Event>,
                                             j: nat, p: Pid, k: nat) returns (i: nat)
    requires IsRun(cfg, addrs, states, events) && j < |states| && p in states[j].procs && states[j].procs[p].Trying?
    requires k < states[j].procs[p].k
    ensures i < j <= |events| < |states|
    ensures FoundFull(cfg, states, events, i, p, states[j].procs[p].run, states[j].procs[p].cands, k)
    decreases j
  {
    hide IsRun, EffectOf;
    i := LastStep(cfg, addrs, states, events, j, p);
    TryingStep(cfg, states[i], p, states[i].procs[p], events[i].a);
    if k < states[j].procs[p].k - 1 {
      i := PassedOverWasFull(cfg, addrs, states, events, i, p, k);
    }
  }

  /** An attempt waits for any of its candidates only after it found every one of them full. */
  lemma WaitsOnlyWhenFull(cfg: Config, addrs: seq<Addr>, states: seq<State>, events: seq<Event>, j: nat, p: Pid, k: nat)
    returns (i: nat)
    requires IsRun(cfg, addrs, states, events) && j < |states| && p in states[j].procs && states[j].procs[p].WantSlot?
    requires k < |states[j].procs[p].cands|
    ensures i < j <= |events| < |states|
    ensures FoundFull(cfg, states, events, i, p, states[j].procs[p].run, states[j].procs[p].cands, k)
  {
    hide IsRun, EffectOf, FoundFull;
    i := LastStep(cfg, addrs, states, events, j, p);
    TryingStep(cfg, states[i], p, states[i].procs[p], events[i].a);
    i := PassedOverWasFull(cfg, addrs, states, events, i, p, k);
  }

  /**
   The step that gives an attempt its worker takes the candidate it looks at, or
   any of those it waits for, with room.
   */
  lemma SlotHadRoom(cfg: Config, addrs: seq<Addr>, states: seq<State>, events: seq<Event>, j: nat, p: Pid)
    returns (i: nat)
    requires IsRun(cfg, addrs, states, events) && j < |states| && p in states[j].procs && states[j].procs[p].Assigning?
    ensures i < j <= |events| < |states| && p in states[i].procs
    ensures var pc, slot := states[i].procs[p], states[j].procs[p].slot;
      && slot < |states[i].slots| && states[i].slots[slot].used < cfg.slotCap
      && (|| (pc.Trying? && pc.run == states[j].procs[p].run && pc.k < |pc.cands| && pc.cands[pc.k] == slot)
          || (pc.WantSlot? && pc.run == states[j].procs[p].run && slot in pc.cands))
  {
    hide IsRun, EffectOf;
    i := LastStep(cfg, addrs, states, events, j, p);
    TryingStep(cfg, states[i], p, states[i].procs[p], events[i].a);
  }

  /** All workers of the pool were excluded from the run when the goroutine took its snapshot. */
  ghost predicate SawOnlyExcluded(states: seq<State>, events: seq<Event>, i: int, p: Pid, run: Run)
    requires 0 <= i < |events| < |states|
  {
    && events[i].ProcEv? && events[i].p == p && events[i].a.TakeSnapshot? && PoolOk(states[i])
    && forall k :: 0 <= k < |states[i].pool| ==> states[i].slots[states[i].pool[k]].addr in run.excluded
  }

  /** A preference order leaves no position out. */
  lemma OrderIsComplete(order: seq<nat>, n: nat, k: nat)
    requires IsOrder(order, n) && k < n
    ensures k in order
  {
    var positions := PoolOrder(n);
    NoDupSize(positions);
    assert positions[k] in positions;
    if k !in order {
      forall i | 0 <= i < |order|
        ensures order[i] in Elements(positions) - {k}
      {
        assert positions[order[i]] == order[i];
      }
      NoDupBound(order, Elements(positions) - {k});
    }
  }

  lemma EmptySnapshot(cfg: Config, states: seq<State>, events: seq<Event>, i: nat, p: Pid, run: Run)
    requires i < |events| < |states| && Snapshot(cfg, states, events, i, p, run, [])
    ensures SawOnlyExcluded(states, events, i, p, run)
  {
    hide IsOrder;
    var s := states[i];
    var order := events[i].a.order;
    forall k | 0 <= k < |s.pool|
      ensures s.slots[s.pool[k]].addr in run.excluded
    {
      OrderIsComplete(order, |s.pool|, k);
    }
  }

  /** An attempt finds no worker only when every worker of the pool it saw was excluded. */
  lemma NoWorkerHasCause(cfg: Config, addrs: seq<Addr>, states: seq<State>, events: seq<Event>, j: nat, p: Pid)
    returns (i: nat)
    requires IsRun(cfg, addrs, states, events) && j < |states| && p in states[j].procs
    requires states[j].procs[p].Returned? && states[j].procs[p].outcome.NoWorker?
    ensures i < j <= |events| < |states|
    ensures SawOnlyExcluded(states, events, i, p, states[j].procs[p].run)
  {
    hide IsRun, EffectOf, Snapshot, SawOnlyExcluded;
    var run := states[j].procs[p].run;
    i := LastStep(cfg, addrs, states, events, j, p);
    TryingStep(cfg, states[i], p, states[i].procs[p], events[i].a);
    i := LastStep(cfg, addrs, states, events, i, p);
    TryingStep(cfg, states[i], p, states[i].procs[p], events[i].a);
    if states[i].procs[p].FreeingSlot? {
      var h := LastStep(cfg, addrs, states, events, i, p);
      TryingStep(cfg, states[h], p, states[h].procs[p], events[h].a);
    }
    i := TriesSnapshot(cfg, addrs, states, events, i, p);
    EmptySnapshot(cfg, states, events, i, p, run);
  }

  // ------------------------------------------------------------ the mode

  /** Every mode worker works on a task of its mode. */
  ghost predicate ModesKept(jobs: map<Id, Job>, procs: map<Pid, Pc>) {
    forall p :: p in procs && p.ModeWorker? && Busy(procs[p]) ==>
      TaskOf(procs[p]) in jobs && jobs[TaskOf(procs[p])].mode == p.mode
  }

  lemma JobsOnly(b: Book, c: Book, procs: map<Pid, Pc>)
    requires Advances(b, c) && ModesKept(b.jobs, procs)
    ensures ModesKept(c.jobs, procs)
  {}

  lemma NextKeepsModes(cfg: Config, s: State, ev: Event)
    requires Inv(cfg, s) && Enabled(cfg, s, ev) && ModesKept(s.book.jobs, s.procs)
    ensures ModesKept(Next(cfg, s, ev).book.jobs, Next(cfg, s, ev).procs)
  {
    hide Inv, EffectOf, Perform, OpOf, Advances;
    NextInv(cfg, s, ev);
    JobsOnly(s.book, Next(cfg, s, ev).book, s.procs);
    if ev.ProcEv? {
      ProcFrame(cfg, s, ev.p, ev.a);
      EffectStays(cfg, s, ev.p, s.procs[ev.p], ev.a);
    } else if ev.PopEv? {
      HeadOfMode(cfg, s, ev.p);
    } else if Aside(ev) {
      AsideFrame(cfg, s, ev);
    }
  }

  lemma HeadOfMode(cfg: Config, s: State, p: Pid)
    requires Inv(cfg, s) && Enabled(cfg, s, PopEv(p))
    ensures var id := s.queues[p.mode].ids[0]; id in s.book.jobs && s.book.jobs[id].mode == p.mode
  {
    hide BookOk, SemOk, LifeOk, CallInv, ProcsOwn, AdmOwns, ClosedOk, Staffed;
    var q := s.queues[p.mode];
    assert QueueOwns(s.book.jobs, s.book.closed, s.procs, p.mode, q);
    assert q.ids[0] in q.popped + q.ids;
  }

  /**
   In every run the workers of a mode build only tasks that asked for it, and a
   task's own goroutine only that task.
   */
  lemma {:induction false} TasksRunInTheirMode(cfg: Config, addrs: seq<Addr>, states: seq<State>, events: seq<Event>,
                                               i: nat)
    requires IsRun(cfg, addrs, states, events) && i < |states|
    ensures forall p :: p in states[i].procs && Busy(states[i].procs[p]) ==>
              && TaskOf(states[i].procs[p]) in states[i].book.jobs
              && (p.ModeWorker? ==> states[i].book.jobs[TaskOf(states[i].procs[p])].mode == p.mode)
              && (p.TaskRunner? ==> TaskOf(states[i].procs[p]) == p.id)
    ensures ModesKept(states[i].book.jobs, states[i].procs)
    decreases i
  {
    hide Inv, Init, Next, Enabled;
    if i == 0 {
      AllIdle(cfg, addrs);
    } else {
      TasksRunInTheirMode(cfg, addrs, states, events, i - 1);
      RunInv(cfg, addrs, states, events, i - 1);
      assert states[i - 1 + 1] == Next(cfg, states[i - 1], events[i - 1]);
      NextKeepsModes(cfg, states[i - 1], events[i - 1]);
    }
    RunInv(cfg, addrs, states, events, i);
    OwnTasks(cfg, states[i]);
  }

  lemma OwnTasks(cfg: Config, s: State)
    requires Inv(cfg, s)
    ensures forall p :: p in s.procs && Busy(s.procs[p]) ==>
              TaskOf(s.procs[p]) in s.book.jobs && (p.TaskRunner? ==> TaskOf(s.procs[p]) == p.id)
  {
    hide BookOk, SemOk, LifeOk, CallInv, QueuesOwn, AdmOwns, ClosedOk, Staffed;
  }

  /** An admitted task gets a goroutine of its own or the last place of its mode's queue, unless that is closed. */
  lemma TaskHandedOver(cfg: Config, addrs: seq<Addr>, states: seq<State>, events: seq<Event>, i: nat)
    requires IsRun(cfg, addrs, states, events) && i < |events| && events[i] == AdmStart
    ensures states[i].adm.Added? && states[i].adm.id in states[i].book.jobs
    ensures var s, t, id, mode := states[i], states[i + 1], states[i].adm.id,
            states[i].book.jobs[states[i].adm.id].mode;
      && (!Explicit(cfg) ==> TaskRunner(id) !in s.procs && t.procs == s.procs[TaskRunner(id) := Starting(id)])
      && (Explicit(cfg) && mode in s.queues && !s.queues[mode].closed ==>
            mode in t.queues && t.queues[mode].ids == s.queues[mode].ids + [id] && t.adm.AdmIdle?)
      && (t.adm == RefusedCancel(id) <==> Explicit(cfg) && (mode in s.queues ==> s.queues[mode].closed))
  {
    hide Init, Next, BookOk, SemOk, LifeOk, CallInv, ProcsOwn, QueuesOwn, ClosedOk, Staffed;
    assert states[i + 1] == Next(cfg, states[i], events[i]);
    RunInv(cfg, addrs, states, events, i);
    StartIs(cfg, states[i]);
  }

  lemma StartIs(cfg: Config, s: State)
    requires Enabled(cfg, s, AdmStart)
    ensures s.adm.Added? && Next(cfg, s, AdmStart) == StartTask(cfg, s, s.adm.id)
  {
    hide EffectOf, ApplyEffect, Perform;
  }
}

/** Runs of the daemon built step by step, and the address lists they ask for. */
module Reachability {
  import opened Basics
  import opened Tasks
  import opened Ledger
  import opened TaskQueue
  import opened Daemon
  import opened Occupancy

  /** The events lead from the start to this state. */
  ghost predicate Reaches(cfg: Config, addrs: seq<Addr>, events: seq<Event>, s: State) {
    exists states: seq<State> :: IsRun(cfg, addrs, states, events) && states[|events|] == s
  }

  lemma RunOf(cfg: Config, addrs: seq<Addr>, events: seq<Event>, s: State) returns (states: seq<State>)
    requires Reaches(cfg, addrs, events, s)
    ensures IsRun(cfg, addrs, states, events) && |states| == |events| + 1 && states[|events|] == s
  {
    hide Init, ConfigOk, Enabled, Next;
    states :| IsRun(cfg, addrs, states, events) && states[|events|] == s;
  }

  lemma ReachStart(cfg: Config, addrs: seq<Addr>)
    requires ConfigOk(cfg) && ValidAddrs(cfg, addrs)
    ensures Reaches(cfg, addrs, [], Init(cfg, addrs))
  {
    hide Init, ConfigOk, Enabled, Next;
    assert IsRun(cfg, addrs, [Init(cfg, addrs)], []);
  }

  lemma ReachNext(cfg: Config, addrs: seq<Addr>, events: seq<Event>, s: State, ev: Event)
    requires Reaches(cfg, addrs, events, s) && Enabled(cfg, s, ev)
    ensures Reaches(cfg, addrs, events + [ev], Next(cfg, s, ev))
  {
    hide Init, ConfigOk, Enabled, Next;
    var states: seq<State> :| IsRun(cfg, addrs, states, events) && states[|events|] == s;
    var longer, all := states + [Next(cfg, s, ev)], events + [ev];
    forall i | 0 <= i < |all|
      ensures Enabled(cfg, longer[i], all[i]) && longer[i + 1] == Next(cfg, longer[i], all[i])
    {
      if i < |events| {
        assert states[i + 1] == Next(cfg, states[i], events[i]);
      }
    }
    assert IsRun(cfg, addrs, longer, all);
  }

  /** The list that an event puts in place of the pool. */
  function Request(ev: Event): Option<seq<Addr>> {
    match ev
    case RefreshEv(addrs) => Some(addrs)
    case ProcEv(_, RefreshPool(addrs)) => addrs
    case _ => None
  }

  function Requests(events: seq<Event>): seq<seq<Addr>> {
    if events == [] then []
    else
      var front, last := Requests(events[..|events| - 1]), Request(events[|events| - 1]);
      if last.Some? then front + [last.value] else front
  }

  lemma RequestsSnoc(events: seq<Event>, ev: Event)
    ensures Requests(events + [ev]) == if Request(ev).Some? then Requests(events) + [Request(ev).value]
            else Requests(events)
  {
    assert (events + [ev])[..|events|] == events;
  }

  /** One step that asks for no addresses. */
  lemma QuietStep(cfg: Config, addrs: seq<Addr>, events: seq<Event>, s: State, ev: Event) returns (t: State)
    requires Reaches(cfg, addrs, events, s) && Enabled(cfg, s, ev) && Request(ev).None?
    ensures t == Next(cfg, s, ev)
    ensures Reaches(cfg, addrs, events + [ev], t) && Requests(events + [ev]) == Requests(events)
  {
    hide Reaches, Enabled, Next, Requests, Request;
    ReachNext(cfg, addrs, events, s, ev);
    RequestsSnoc(events, ev);
    t := Next(cfg, s, ev);
  }

  /** One step of a goroutine that asks for no addresses. */
  lemma ProcStep(cfg: Config, addrs: seq<Addr>, events: seq<Event>, s: State, p: Pid, a: Act)
    returns (all: seq<Event>, t: State)
    requires Reaches(cfg, addrs, events, s) && p in s.procs && Busy(s.procs[p]) && !a.RefreshPool?
    requires EffectOf(cfg, s, p, s.procs[p], a).Some?
    ensures Reaches(cfg, addrs, all, t) && Requests(all) == Requests(events)
    ensures var e := EffectOf(cfg, s, p, s.procs[p], a).value;
      && t.procs == s.procs[p := e.pc] && t.slots == SlotsAfter(s.slots, e.sem)
      && t.queues == s.queues && t.pool == s.pool && t.adm == s.adm && t.cancels == s.cancels
      && t.global == GlobalAfter(cfg, s.global, e.sem) && t.book == Perform(cfg.keepTtl, s.book, e.op)
      && t.ctxDone == s.ctxDone
      && (TaskOf(s.procs[p]) in s.calls ==>
            t.calls == s.calls[TaskOf(s.procs[p]) := CallsAfter(s.calls[TaskOf(s.procs[p])], e.log)])
  {
    hide EffectOf, Perform, SlotsAfter, CallsAfter, Reaches, Requests;
    RefreshActs(cfg, s, p, s.procs[p], a);
    t := QuietStep(cfg, addrs, events, s, ProcEv(p, a));
    all := events + [ProcEv(p, a)];
  }

  lemma {:induction false} TimePasses(cfg: Config, addrs: seq<Addr>, events: seq<Event>, s: State, ticks: nat)
    returns (all: seq<Event>, t: State)
    requires Reaches(cfg, addrs, events, s)
    ensures Reaches(cfg, addrs, all, t) && Requests(all) == Requests(events)
    ensures t == s.(book := s.book.(clock := s.book.clock + ticks))
  {
    hide Reaches, Requests, EffectOf, ApplyEffect;
    all, t := events, s;
    if ticks > 0 {
      all, t := TimePasses(cfg, addrs, events, s, ticks - 1);
      t := QuietStep(cfg, addrs, all, t, TickEv);
      all := all + [TickEv];
    }
  }

  // ----------------------------------------------------- one task brought to a worker

  /** Nothing is under way in admission, no task is stored, and later ids are unused. */
  ghost predicate Tidy(cfg: Config, s: State, n: nat) {
    && s.adm.AdmIdle? && PoolOk(s) && s.book.store == map[]
    && (forall id :: id in s.book.jobs ==> id < n)
    && (forall mode :: mode in cfg.modes ==> mode in s.queues && !s.queues[mode].closed && s.queues[mode].ids == [])
  }

  /** A goroutine that is free to run the task: an idle worker of some mode, or the task's own. */
  ghost predicate Free(cfg: Config, s: State, p: Pid, id: Id) {
    if Explicit(cfg) then p in s.procs && s.procs[p].Idle? && p.ModeWorker? && p.mode in cfg.modes
    else p == TaskRunner(id)
  }

  /** `t` is `s` with one more task, alone in the store, whose goroutine is at `pc`. */
  ghost predicate Carried(s: State, t: State, id: Id, p: Pid, pc: Pc, status: Status) {
    && t.procs == s.procs[p := pc] && SameQueues(s, t) && t.pool == s.pool && t.adm.AdmIdle?
    && t.book.jobs.Keys == s.book.jobs.Keys + {id} && t.book.jobs[id].steps == 1
    && t.book.store.Keys == {id} && t.book.store[id].status == status && !t.book.store[id].observed
  }

  /** The queues hold the same and are open alike. */
  ghost predicate SameQueues(s: State, t: State) {
    && t.queues.Keys == s.queues.Keys
    && forall mode :: mode in s.queues ==>
         t.queues[mode].ids == s.queues[mode].ids && t.queues[mode].closed == s.queues[mode].closed
  }

  /** A request is admitted, and its task not yet handed over. */
  lemma AddTask(cfg: Config, addrs: seq<Addr>, events: seq<Event>, s: State, n: nat, job: Job)
    returns (all: seq<Event>, t: State)
    requires ConfigOk(cfg) && Reaches(cfg, addrs, events, s) && Tidy(cfg, s, n)
    requires job.steps >= 1 && (Explicit(cfg) ==> job.mode in cfg.modes)
    ensures Reaches(cfg, addrs, all, t) && Requests(all) == Requests(events)
    ensures t == s.(adm := Added(n), calls := s.calls[n := []],
                    book := s.book.(jobs := s.book.jobs[n := job], store := map[n := NewTask()]))
  {
    hide EffectOf, ApplyEffect, Replace, SweepAfter, RefuseAfter, Reaches, Requests;
    t := QuietStep(cfg, addrs, events, s, AdmCheck);
    all := events + [AdmCheck];
    t := QuietStep(cfg, addrs, all, t, AdmAdd(n, job));
    all := all + [AdmAdd(n, job)];
    assert s.book.store[n := NewTask()] == map[n := NewTask()];
  }

  /** A request is admitted and its task handed to a goroutine. */
  lemma AdmitTask(cfg: Config, addrs: seq<Addr>, events: seq<Event>, s: State, n: nat, p: Pid, retry: nat)
    returns (all: seq<Event>, t: State)
    requires ConfigOk(cfg) && Reaches(cfg, addrs, events, s) && Tidy(cfg, s, n) && Free(cfg, s, p, n)
    ensures Reaches(cfg, addrs, all, t) && Requests(all) == Requests(events)
    ensures Carried(s, t, n, p, Starting(n), Queued) && t.slots == s.slots && t.global == s.global
    ensures t.book.jobs[n].retry == retry && t.ctxDone == s.ctxDone && t.calls == s.calls[n := []]
  {
    hide Reaches, Requests, Enabled, Next;
    var job := Job(if Explicit(cfg) then p.mode else "", 1, retry);
    all, t := AddTask(cfg, addrs, events, s, n, job);
    var added := t;
    AdmStartIs(cfg, added);
    t := QuietStep(cfg, addrs, all, added, AdmStart);
    all := all + [AdmStart];
    if Explicit(cfg) {
      var queued := t;
      PopIs(cfg, queued, p);
      t := QuietStep(cfg, addrs, all, queued, PopEv(p));
      all := all + [PopEv(p)];
      assert queued.queues[p.mode].ids == [] + [n];
      assert t.queues[p.mode].ids == [];
    }
  }

  lemma AdmStartIs(cfg: Config, s: State)
    requires s.adm.Added?
    ensures Enabled(cfg, s, AdmStart) && Next(cfg, s, AdmStart) == StartTask(cfg, s, s.adm.id)
  {
    hide StartTask, EffectOf, ApplyEffect;
  }

  lemma PopIs(cfg: Config, s: State, p: Pid)
    requires p in s.procs && s.procs[p].Idle? && p.ModeWorker? && p.mode in s.queues && Ready(s.queues[p.mode])
    ensures Enabled(cfg, s, PopEv(p))
    ensures Next(cfg, s, PopEv(p)) == s.(procs := s.procs[p := Starting(s.queues[p.mode].ids[0])],
                                         queues := s.queues[p.mode := Pop(s.queues[p.mode])])
  {
    hide EffectOf, ApplyEffect;
  }

  /** It comes to the point at which it looks at the pool. */
  lemma ReachSnapshot(cfg: Config, addrs: seq<Addr>, events: seq<Event>, base: State, s: State, id: Id, p: Pid)
    returns (all: seq<Event>, t: State)
    requires Reaches(cfg, addrs, events, s) && Carried(base, s, id, p, Starting(id), Queued) && GlobalRoom(cfg, s)
    ensures Reaches(cfg, addrs, all, t) && Requests(all) == Requests(events)
    ensures Carried(base, t, id, p, Snapshotting(Run(id, 0, 0, {})), Queued) && t.slots == s.slots
  {
    hide Reaches, Requests, SameQueues;
    all, t := ProcStep(cfg, addrs, events, s, p, Begin(true));
    all, t := ProcStep(cfg, addrs, all, t, p, BeginStep(true));
    QueuesStay(base, s, t);
    all, t := ReachGlobal(cfg, addrs, all, base, t, id, p);
  }

  lemma ReachGlobal(cfg: Config, addrs: seq<Addr>, events: seq<Event>, base: State, s: State, id: Id, p: Pid)
    returns (all: seq<Event>, t: State)
    requires Reaches(cfg, addrs, events, s) && GlobalRoom(cfg, s)
    requires Carried(base, s, id, p, Marking(Run(id, 0, 0, {})), Queued)
    ensures Reaches(cfg, addrs, all, t) && Requests(all) == Requests(events)
    ensures Carried(base, t, id, p, Snapshotting(Run(id, 0, 0, {})), Queued) && t.slots == s.slots
  {
    hide Reaches, Requests, SameQueues;
    RequeueKeeps(cfg.keepTtl, s.book, id);
    all, t := ProcStep(cfg, addrs, events, s, p, MarkTask);
    all, t := ProcStep(cfg, addrs, all, t, p, AcquireGlobal);
    QueuesStay(base, s, t);
  }

  lemma QueuesStay(base: State, s: State, t: State)
    requires SameQueues(base, s) && t.queues == s.queues
    ensures SameQueues(base, t)
  {}

  lemma RequeueKeeps(keepTtl: nat, b: Book, id: Id)
    requires id in b.store && b.store[id].status == Queued
    ensures var c := Perform(keepTtl, b, Requeue(id));
      && c.jobs == b.jobs && c.store.Keys == b.store.Keys
      && c.store[id].status == Queued && c.store[id].observed == b.store[id].observed
  {
    var c := Perform(keepTtl, b, Requeue(id));
    assert c.store.Keys == b.store.Keys;
  }

  lemma AssignKeeps(keepTtl: nat, b: Book, id: Id, addr: Addr)
    requires id in b.store && b.store[id].status == Queued && !b.store[id].observed
    ensures var c := Perform(keepTtl, b, Assign(id, addr));
      && c.jobs == b.jobs && c.store.Keys == b.store.Keys
      && c.store[id].status == Running && !c.store[id].observed
  {
    var c := Perform(keepTtl, b, Assign(id, addr));
    assert c.store.Keys == b.store.Keys;
  }

  lemma {:induction false} FirstCandidate(slots: seq<Slot>, pool: seq<nat>, order: seq<nat>)
    requires order != [] && (forall i :: 0 <= i < |order| ==> order[i] < |pool|)
             && (forall i :: 0 <= i < |pool| ==> pool[i] < |slots|)
    ensures Candidates(slots, pool, order, {}) != [] && Candidates(slots, pool, order, {})[0] == pool[order[0]]
  {
    if |order| > 1 {
      FirstCandidate(slots, pool, order[..|order| - 1]);
    }
  }

  /** A preference order that starts at position `j`. */
  function From(j: nat, m: nat): (r: seq<nat>)
    requires j < m
    ensures IsOrder(r, m) && r[0] == j
  {
    seq(m, i => if i == 0 then j else if i == j then 0 else i)
  }

  /** It takes a slot of the pool that has room. */
  lemma ReachSlot(cfg: Config, addrs: seq<Addr>, events: seq<Event>, base: State, s: State, id: Id, p: Pid, j: nat)
    returns (all: seq<Event>, t: State)
    requires Reaches(cfg, addrs, events, s) && PoolOk(s)
    requires Carried(base, s, id, p, Snapshotting(Run(id, 0, 0, {})), Queued)
    requires j < |s.pool| && s.slots[s.pool[j]].used < cfg.slotCap
    ensures Reaches(cfg, addrs, all, t) && Requests(all) == Requests(events)
    ensures Carried(base, t, id, p, Assigning(Run(id, 0, 0, {}), s.pool[j]), Queued)
    ensures var k := s.pool[j]; t.slots == s.slots[k := s.slots[k].(used := s.slots[k].used + 1)]
  {
    hide Reaches, Requests, SameQueues, EffectOf, IsOrder;
    var order := From(j, |s.pool|);
    SnapshotIs(cfg, s, p, Run(id, 0, 0, {}), order);
    all, t := ProcStep(cfg, addrs, events, s, p, TakeSnapshot(order));
    TryIs(cfg, t, p);
    all, t := ProcStep(cfg, addrs, all, t, p, TryNext);
    QueuesStay(base, s, t);
  }

  /** And the runner is called. */
  lemma ReachWorker(cfg: Config, addrs: seq<Addr>, events: seq<Event>, base: State, s: State, id: Id, p: Pid, k: nat)
    returns (all: seq<Event>, t: State)
    requires Reaches(cfg, addrs, events, s) && k < |s.slots|
    requires Carried(base, s, id, p, Assigning(Run(id, 0, 0, {}), k), Queued)
    ensures Reaches(cfg, addrs, all, t) && Requests(all) == Requests(events)
    ensures Carried(base, t, id, p, Building(Run(id, 0, 0, {}), k), Running) && t.slots == s.slots
  {
    hide Reaches, Requests, SameQueues, EffectOf, Perform;
    AssignIs(cfg, s, p, Run(id, 0, 0, {}), k);
    AssignKeeps(cfg.keepTtl, s.book, id, s.slots[k].addr);
    all, t := ProcStep(cfg, addrs, events, s, p, TryAssign);
    QueuesStay(base, s, t);
  }

  lemma SnapshotIs(cfg: Config, s: State, p: Pid, run: Run, order: seq<nat>)
    requires PoolOk(s) && run.excluded == {} && s.pool != [] && IsOrder(order, |s.pool|)
    ensures order[0] < |s.pool|
    ensures var e := EffectOf(cfg, s, p, Snapshotting(run), TakeSnapshot(order));
      && e.Some? && e.value == Move(e.value.pc)
      && e.value.pc.Trying? && e.value.pc.run == run && e.value.pc.k == 0
      && e.value.pc.cands != [] && e.value.pc.cands[0] == s.pool[order[0]]
  {
    hide IsOrder, Candidates;
    OrderBelow(order, |s.pool|);
    FirstCandidate(s.slots, s.pool, order);
  }

  lemma TryIs(cfg: Config, s: State, p: Pid)
    requires p in s.procs && s.procs[p].Trying? && s.procs[p].k == 0 && s.procs[p].cands != []
    requires HasRoom(cfg, s, s.procs[p].cands[0])
    ensures var k := s.procs[p].cands[0];
      EffectOf(cfg, s, p, s.procs[p], TryNext) == Some(MoveSem(Assigning(s.procs[p].run, k), TakeSlot(k)))
  {}

  lemma AssignIs(cfg: Config, s: State, p: Pid, run: Run, k: nat)
    requires p in s.procs && s.procs[p] == Assigning(run, k) && k < |s.slots|
    requires run.id in s.book.store && Assignable(s.book.store[run.id])
    ensures var e := EffectOf(cfg, s, p, s.procs[p], TryAssign);
      && e.Some? && e.value.pc == Building(run, k) && e.value.sem == Keep && e.value.refresh.None?
      && e.value.op == Assign(run.id, s.slots[k].addr)
  {}

  lemma OrderBelow(order: seq<nat>, m: nat)
    requires IsOrder(order, m)
    ensures |order| == m && forall i :: 0 <= i < m ==> order[i] < m
  {}

  /** The task is canceled, observed and reaped while its build goes on. */
  lemma Forget(cfg: Config, addrs: seq<Addr>, events: seq<Event>, s: State, id: Id)
    returns (all: seq<Event>, t: State)
    requires Reaches(cfg, addrs, events, s) && s.adm.AdmIdle?
    requires s.book.store.Keys == {id} && s.book.store[id].status == Running && !s.book.store[id].observed
    ensures Reaches(cfg, addrs, all, t) && Requests(all) == Requests(events)
    ensures t.book.store == map[] && t.book.jobs == s.book.jobs && t.adm.AdmIdle?
    ensures t.procs == s.procs && t.queues == s.queues && t.pool == s.pool && t.slots == s.slots
  {
    hide Reaches, Requests, EffectOf, ApplyEffect, Replace, Perform;
    CancelAndFinish(cfg.keepTtl, s.book, id);
    t := QuietStep(cfg, addrs, events, s, CancelEv(id));
    all := events + [CancelEv(id)];
    t := QuietStep(cfg, addrs, all, t, CancelCtxEv(id));
    all := all + [CancelCtxEv(id)];
    t := QuietStep(cfg, addrs, all, t, CancelFinEv(id));
    all := all + [CancelFinEv(id)];
    all, t := TimePasses(cfg, addrs, all, t, cfg.keepTtl);
    ReapTakes(cfg.keepTtl, t.book, id);
    var now := t.book.clock;
    t := QuietStep(cfg, addrs, all, t, ReapEv(now));
    all := all + [ReapEv(now)];
  }

  lemma CancelAndFinish(keepTtl: nat, b: Book, id: Id)
    requires b.store.Keys == {id} && b.store[id].status == Running && !b.store[id].observed
    ensures var c := Perform(keepTtl, Perform(keepTtl, b, Cancel(id)), Finish(id, Canceled));
      c.jobs == b.jobs && c.clock == b.clock && c.store.Keys == {id} && c.store[id].finishedAt == Some(b.clock)
  {
    var a := Perform(keepTtl, b, Cancel(id));
    assert a.store == b.store[id := CancelTask(b.store[id], b.clock)];
    assert a.store.Keys == {id};
  }

  lemma ReapTakes(keepTtl: nat, b: Book, id: Id)
    requires b.store.Keys == {id} && b.store[id].finishedAt == Some(b.clock - keepTtl)
    ensures Perform(keepTtl, b, Reap(b.clock)).store == map[] && Perform(keepTtl, b, Reap(b.clock)).jobs == b.jobs
  {
    assert Reaped(b.store, b.clock, keepTtl) == map[];
  }

  /** A task is admitted and comes to look at the pool. */
  lemma Employ(cfg: Config, addrs: seq<Addr>, events: seq<Event>, s: State, n: nat, p: Pid)
    returns (all: seq<Event>, t: State)
    requires ConfigOk(cfg) && Reaches(cfg, addrs, events, s) && Tidy(cfg, s, n)
    requires Free(cfg, s, p, n) && GlobalRoom(cfg, s)
    ensures Reaches(cfg, addrs, all, t) && Requests(all) == Requests(events)
    ensures Carried(s, t, n, p, Snapshotting(Run(n, 0, 0, {})), Queued) && t.slots == s.slots
  {
    hide Reaches, Requests, ConfigOk, Free, Tidy, Carried;
    all, t := AdmitTask(cfg, addrs, events, s, n, p, 0);
    all, t := ReachSnapshot(cfg, addrs, all, s, t, n, p);
  }

  lemma TidyPool(cfg: Config, s: State, n: nat)
    requires Tidy(cfg, s, n)
    ensures PoolOk(s)
  {}

  lemma TidyAgain(cfg: Config, s: State, t: State, n: nat)
    requires Tidy(cfg, s, n) && SameQueues(s, t) && t.adm.AdmIdle? && t.book.store == map[]
    requires t.book.jobs.Keys == s.book.jobs.Keys + {n} && t.pool == s.pool && |t.slots| == |s.slots|
    ensures Tidy(cfg, t, n + 1)
  {}

  /** One more build comes to occupy a slot of the pool that has room, and nothing else is left of its task. */
  lemma Occupy(cfg: Config, addrs: seq<Addr>, events: seq<Event>, s: State, n: nat, p: Pid, j: nat)
    returns (all: seq<Event>, t: State)
    requires ConfigOk(cfg) && Reaches(cfg, addrs, events, s) && Tidy(cfg, s, n)
    requires Free(cfg, s, p, n) && GlobalRoom(cfg, s)
    requires j < |s.pool| && HasRoom(cfg, s, s.pool[j])
    ensures Reaches(cfg, addrs, all, t) && Requests(all) == Requests(events)
    ensures Tidy(cfg, t, n + 1) && t.pool == s.pool
    ensures t.procs == s.procs[p := Building(Run(n, 0, 0, {}), s.pool[j])]
    ensures var k := s.pool[j]; t.slots == s.slots[k := s.slots[k].(used := s.slots[k].used + 1)]
  {
    hide Reaches, Requests, ConfigOk, Free, Tidy, SameQueues;
    TidyPool(cfg, s, n);
    all, t := Employ(cfg, addrs, events, s, n, p);
    all, t := ReachSlot(cfg, addrs, all, s, t, n, p, j);
    all, t := ReachWorker(cfg, addrs, all, s, t, n, p, s.pool[j]);
    var building := t;
    all, t := Forget(cfg, addrs, all, building, n);
    QueuesStay(s, building, t);
    TidyAgain(cfg, s, t, n);
  }
}

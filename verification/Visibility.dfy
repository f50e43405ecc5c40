/**
 What clients see of a task agrees with what the daemon does with it: a live
 task under construction is shown as running on the worker that builds it, and
 a task shown as running is in the hands of a goroutine that assigned it.
 */
module Visibility {
  import opened Basics
  import opened Tasks
  import opened Ledger
  import opened Daemon
  import opened Semaphores
  import opened Ownership
  import opened Lifecycle
  import opened RunnerCalls
  import opened DaemonTheorems

  /** Between an assignment and the next requeue or the end. */
  predicate PastAssignment(pc: Pc) {
    pc.Building? || pc.FreeingSlot? || pc.FreeingGlobal? || pc.Returned? || pc.Refreshing? || pc.AtStep?
    || pc.Requeueing? || pc.Marking? || pc.Finishing?
  }

  ghost predicate BuilderShown(b: Book, slots: seq<Slot>, pc: Pc) {
    pc.Building? && pc.slot < |slots| && pc.run.id in b.store && Live(b.store[pc.run.id]) ==>
      b.store[pc.run.id].status == Running && b.store[pc.run.id].worker == Some(slots[pc.slot].addr)
  }

  ghost predicate Builds(procs: map<Pid, Pc>, p: Pid, id: Id) {
    p in procs && Busy(procs[p]) && TaskOf(procs[p]) == id && PastAssignment(procs[p])
  }

  ghost predicate ShownOk(s: State) {
    && (forall p :: p in s.procs ==> BuilderShown(s.book, s.slots, s.procs[p]))
    && (forall id :: id in s.book.store && s.book.store[id].status == Running ==> exists p :: Builds(s.procs, p, id))
  }

  /** An operation on another task, or on none, leaves a task that stays as it is. */
  lemma OpElsewhere(keepTtl: nat, b: Book, op: Op, id: Id)
    requires op.Skip? || op.Reap? || op.Report? || op.Tick? || op.ForceClose? || op.id != id
    requires id in Perform(keepTtl, b, op).store
    ensures id in b.store && Perform(keepTtl, b, op).store[id] == b.store[id]
  {}

  /** Only an assignment makes a task run, and only its own goroutine touches a live task's worker. */
  lemma OpShows(keepTtl: nat, b: Book, op: Op, id: Id)
    requires StoreOk(b) && Allowed(b, op)
    requires var c := Perform(keepTtl, b, op); id in c.store && Live(c.store[id])
    ensures var c := Perform(keepTtl, b, op);
      && (op.Add? && op.id == id ==> c.store[id].status == Queued)
      && (!op.Add? || op.id != id ==> id in b.store && Live(b.store[id]))
      && (op == Requeue(id) ==> c.store[id].status == Queued)
      && (op.Assign? && op.id == id ==> c.store[id].status == Running && c.store[id].worker == Some(op.addr))
      && (!(op.Finish? && op.id == id))
      && ((!op.Add? && !op.Requeue? && !op.Assign?) || op.id != id ==>
            id in b.store && c.store[id].status == b.store[id].status && c.store[id].worker == b.store[id].worker)
  {
    if op.Skip? || op.Reap? || op.Report? || op.Tick? || op.ForceClose? || op.id != id {
      OpElsewhere(keepTtl, b, op, id);
    }
  }

  /** How a goroutine's step and its store operation go together. */
  lemma EffectShows(cfg: Config, s: State, p: Pid, pc: Pc, a: Act)
    requires Busy(pc) && EffectOf(cfg, s, p, pc, a).Some?
    ensures var e, id := EffectOf(cfg, s, p, pc, a).value, TaskOf(pc);
      && (e.op.Skip? || e.op.id == id) && !e.op.Add?
      && (e.pc.Building? ==> pc.Assigning? && pc.slot < |s.slots| && e.pc == Building(pc.run, pc.slot)
                             && e.op == Assign(id, s.slots[pc.slot].addr))
      && (e.op.Assign? ==> e.pc.Building?)
      && (PastAssignment(pc) && !PastAssignment(e.pc) ==> e.op == Requeue(id) || (e.op.Finish? && e.op.id == id))
      && (PastAssignment(pc) && PastAssignment(e.pc) ==> Busy(e.pc) && TaskOf(e.pc) == id)
  {}

  lemma ProcShowsBuilders(cfg: Config, s: State, p: Pid, a: Act)
    requires Inv(cfg, s) && ShownOk(s) && Enabled(cfg, s, ProcEv(p, a))
    ensures var next := Next(cfg, s, ProcEv(p, a)); forall q :: q in next.procs ==>
                                                      BuilderShown(next.book, next.slots, next.procs[q])
  {
    hide Inv, Enabled, Next, Perform, EffectOf, Allowed, StoreOk;
    var next, op := Next(cfg, s, ProcEv(p, a)), OpOf(cfg, s, ProcEv(p, a));
    ProcEnabled(cfg, s, p, a);
    ProcFrame(cfg, s, p, a);
    EffectShows(cfg, s, p, s.procs[p], a);
    StepFacts(cfg, s, ProcEv(p, a));
    forall q | q in next.procs
      ensures BuilderShown(next.book, next.slots, next.procs[q])
    {
      var pc := next.procs[q];
      if pc.Building? && pc.slot < |next.slots| && pc.run.id in next.book.store && Live(next.book.store[pc.run.id]) {
        OpShows(cfg.keepTtl, s.book, op, pc.run.id);
        if q != p {
          OtherTask(cfg, s, p, q);
          BuilderSlot(cfg, s, q);
          assert BuilderShown(s.book, s.slots, s.procs[q]);
        }
      }
    }
  }

  /** What the invariant yields for one step. */
  lemma StepFacts(cfg: Config, s: State, ev: Event)
    requires Inv(cfg, s) && Enabled(cfg, s, ev)
    ensures StoreOk(s.book) && Allowed(s.book, OpOf(cfg, s, ev))
    ensures Next(cfg, s, ev).book == Perform(cfg.keepTtl, s.book, OpOf(cfg, s, ev))
    ensures SlotsExtend(s.slots, Next(cfg, s, ev).slots)
    ensures ev.ProcEv? ==> OpOf(cfg, s, ev) == EffectOf(cfg, s, ev.p, s.procs[ev.p], ev.a).value.op
  {
    hide Next, Perform, Allowed, SemOk, OwnOk, EffectOf;
    OpAllowed(cfg, s, ev);
    BookFollows(cfg, s, ev);
    NextSlots(cfg, s, ev);
  }

  lemma OtherTask(cfg: Config, s: State, p: Pid, q: Pid)
    requires Inv(cfg, s) && p in s.procs && q in s.procs && Busy(s.procs[p]) && Busy(s.procs[q]) && p != q
    ensures TaskOf(s.procs[p]) != TaskOf(s.procs[q])
  {
    hide BookOk, SemOk, LifeOk, CallInv;
    DifferentTasks(cfg, s, p, q);
  }

  lemma BuilderSlot(cfg: Config, s: State, q: Pid)
    requires Inv(cfg, s) && q in s.procs && s.procs[q].Building?
    ensures s.procs[q].slot < |s.slots|
  {
    hide BookOk, OwnOk, LifeOk, CallInv;
    assert PcSlots(|s.slots|, s.procs[q]);
  }

  lemma ProcShowsRunning(cfg: Config, s: State, p: Pid, a: Act, id: Id)
    requires Inv(cfg, s) && ShownOk(s) && Enabled(cfg, s, ProcEv(p, a))
    requires var next := Next(cfg, s, ProcEv(p, a)); id in next.book.store && next.book.store[id].status == Running
    ensures exists q :: Builds(Next(cfg, s, ProcEv(p, a)).procs, q, id)
  {
    hide Inv, Enabled, Next, Perform, EffectOf, Allowed, StoreOk, BuilderShown;
    var next, op := Next(cfg, s, ProcEv(p, a)), OpOf(cfg, s, ProcEv(p, a));
    ProcEnabled(cfg, s, p, a);
    ProcFrame(cfg, s, p, a);
    EffectShows(cfg, s, p, s.procs[p], a);
    StepFacts(cfg, s, ProcEv(p, a));
    OpShows(cfg.keepTtl, s.book, op, id);
    if op.Assign? && op.id == id {
      assert Builds(next.procs, p, id);
    } else {
      var q :| Builds(s.procs, q, id);
      assert Builds(next.procs, q, id);
    }
  }

  /** Everything but a runner goroutine's step. */
  lemma AsideShows(cfg: Config, s: State, ev: Event)
    requires Inv(cfg, s) && ShownOk(s) && Enabled(cfg, s, ev) && !ev.ProcEv?
    ensures ShownOk(Next(cfg, s, ev))
  {
    hide Inv, Perform, EffectOf, Allowed, StoreOk, Next;
    var next, op := Next(cfg, s, ev), OpOf(cfg, s, ev);
    StepFacts(cfg, s, ev);
    ProcsStay(cfg, s, ev);
    AsideOps(cfg, s, ev);
    forall q | q in next.procs
      ensures BuilderShown(next.book, next.slots, next.procs[q])
    {
      var pc := next.procs[q];
      if pc.Building? && pc.slot < |next.slots| && pc.run.id in next.book.store && Live(next.book.store[pc.run.id]) {
        assert s.procs[q] == pc;
        BuilderSlot(cfg, s, q);
        BuilderAdmitted(cfg, s, q);
        OpShows(cfg.keepTtl, s.book, op, pc.run.id);
        assert BuilderShown(s.book, s.slots, s.procs[q]);
      }
    }
    forall id | id in next.book.store && next.book.store[id].status == Running
      ensures exists q :: Builds(next.procs, q, id)
    {
      OpShows(cfg.keepTtl, s.book, op, id);
      var q :| Builds(s.procs, q, id);
      assert Builds(next.procs, q, id);
    }
  }

  lemma BuilderAdmitted(cfg: Config, s: State, q: Pid)
    requires Inv(cfg, s) && q in s.procs && s.procs[q].Building?
    ensures s.procs[q].run.id in s.book.jobs
  {
    hide BookOk, SemOk, LifeOk, CallInv;
    OwnerAdmitted(cfg, s, q);
  }

  /** No other event moves a goroutine that is past its assignment, or brings one there. */
  lemma ProcsStay(cfg: Config, s: State, ev: Event)
    requires Inv(cfg, s) && Enabled(cfg, s, ev) && !ev.ProcEv?
    ensures var procs := Next(cfg, s, ev).procs;
      && (forall p :: p in s.procs && PastAssignment(s.procs[p]) ==> p in procs && procs[p] == s.procs[p])
      && (forall p :: p in procs && procs[p].Building? ==> p in s.procs && s.procs[p] == procs[p])
  {
    hide Perform, EffectOf, ApplyEffect, Replace, SweepAfter, LiveIds, CancelsAfter, RefuseAfter, BookOk, SemOk, LifeOk,
         CallInv, OwnOk, OpOf;
    FreshRunner(cfg, s);
    if ev.PopEv? || ev.RetireEv? || ev.AdmStart? {
    } else {
      assert Next(cfg, s, ev).procs == s.procs;
    }
  }

  lemma AsideOps(cfg: Config, s: State, ev: Event)
    requires Enabled(cfg, s, ev) && !ev.ProcEv?
    ensures var op := OpOf(cfg, s, ev); !op.Requeue? && !op.Assign? && (op.Add? ==> op.id !in s.book.jobs)
  {
    hide EffectOf;
  }

  lemma NextShows(cfg: Config, s: State, ev: Event)
    requires Inv(cfg, s) && ShownOk(s) && Enabled(cfg, s, ev)
    ensures ShownOk(Next(cfg, s, ev))
  {
    hide Inv, Enabled, Next, BuilderShown, Builds;
    if ev.ProcEv? {
      var next := Next(cfg, s, ev);
      ProcShowsBuilders(cfg, s, ev.p, ev.a);
      forall id | id in next.book.store && next.book.store[id].status == Running
        ensures exists q :: Builds(next.procs, q, id)
      {
        ProcShowsRunning(cfg, s, ev.p, ev.a, id);
      }
    } else {
      AsideShows(cfg, s, ev);
    }
  }

  lemma {:induction false} RunShows(cfg: Config, addrs: seq<Addr>, states: seq<State>, events: seq<Event>, i: nat)
    requires IsRun(cfg, addrs, states, events) && i < |states|
    ensures ShownOk(states[i])
    decreases i
  {
    hide Inv, Next, Enabled;
    if i > 0 {
      RunShows(cfg, addrs, states, events, i - 1);
      RunInv(cfg, addrs, states, events, i - 1);
      assert states[i - 1 + 1] == Next(cfg, states[i - 1], events[i - 1]);
      NextShows(cfg, states[i - 1], events[i - 1]);
    }
  }

  /** The worker shown for a task under construction is the one whose slot its builder holds. */
  lemma BuilderIsShown(cfg: Config, addrs: seq<Addr>, states: seq<State>, events: seq<Event>, i: nat, p: Pid)
    requires IsRun(cfg, addrs, states, events) && i < |states| && p in states[i].procs && states[i].procs[p].Building?
    ensures var s, pc := states[i], states[i].procs[p];
      && pc.slot < |s.slots|
      && (pc.run.id in s.book.store && Live(s.book.store[pc.run.id]) ==>
            s.book.store[pc.run.id].status == Running && s.book.store[pc.run.id].worker == Some(s.slots[pc.slot].addr))
  {
    hide IsRun, Inv;
    RunInv(cfg, addrs, states, events, i);
    RunShows(cfg, addrs, states, events, i);
    BuilderSlot(cfg, states[i], p);
    assert BuilderShown(states[i].book, states[i].slots, states[i].procs[p]);
  }

  /** A task shown as running belongs to exactly one goroutine, which is past its assignment. */
  lemma RunningIsOwned(cfg: Config, addrs: seq<Addr>, states: seq<State>, events: seq<Event>, i: nat, id: Id)
    requires IsRun(cfg, addrs, states, events) && i < |states|
    requires id in states[i].book.store && states[i].book.store[id].status == Running
    ensures exists p :: Builds(states[i].procs, p, id)
    ensures forall p, q :: Builds(states[i].procs, p, id) && Builds(states[i].procs, q, id) ==> p == q
  {
    hide IsRun, BuilderShown, Builds, Inv;
    RunShows(cfg, addrs, states, events, i);
    RunInv(cfg, addrs, states, events, i);
    OneBuilder(cfg, states[i], id);
  }

  lemma OneBuilder(cfg: Config, s: State, id: Id)
    requires Inv(cfg, s)
    ensures forall p, q :: Builds(s.procs, p, id) && Builds(s.procs, q, id) ==> p == q
  {
    hide BookOk, SemOk, LifeOk, CallInv, QueuesOwn, AdmOwns, ClosedOk, Staffed, PastAssignment;
  }
}

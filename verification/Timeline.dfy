/**
 When a task is shown as started and as finished, how long it is kept, and that
 a task which was canceled or observed is not built any more.
 */
module Timeline {
  import opened Basics
  import opened Tasks
  import opened Ledger
  import opened Daemon
  import opened Semaphores
  import opened Ownership
  import opened Lifecycle
  import opened RunnerCalls
  import opened DaemonTheorems
  import opened History

  // ------------------------------------------------------------ one critical section

  /** Only an assignment sets the start of a task, and only its cancellation or its conclusion the end. */
  lemma OpTimes(keepTtl: nat, b: Book, op: Op, id: Id)
    requires id in Perform(keepTtl, b, op).store
    ensures var u := Perform(keepTtl, b, op).store[id];
      && (id !in b.store ==> op.Add? && op.id == id && u.startedAt.None? && u.finishedAt.None?)
      && (id in b.store && u.startedAt != b.store[id].startedAt ==>
            (op.Add? || op.Assign?) && op.id == id && u.startedAt == (if op.Assign? then Some(b.clock) else None))
      && (id in b.store && u.finishedAt != b.store[id].finishedAt ==>
            (op.Add? || op.Cancel? || op.Finish?) && op.id == id
            && u.finishedAt == (if op.Add? then None else Some(b.clock)))
  {}

  /** Only the reaper and a refused admission remove a task. */
  lemma OpRemoves(keepTtl: nat, b: Book, op: Op, id: Id)
    requires id in b.store && id !in Perform(keepTtl, b, op).store
    ensures op == Delete(id)
         || (op.Reap? && b.store[id].finishedAt.Some? && b.store[id].finishedAt.value + keepTtl <= op.now)
  {}

  /** Where an assignment comes from. */
  lemma AssignEvent(cfg: Config, s: State, ev: Event)
    requires Enabled(cfg, s, ev) && OpOf(cfg, s, ev).Assign?
    ensures ev.ProcEv? && ev.a == TryAssign && s.procs[ev.p].Assigning? && OpOf(cfg, s, ev).id == s.procs[ev.p].run.id
  {}

  // ------------------------------------------------------------ started once

  /** The time at which a task was started never changes while it is stored. */
  lemma StartedOnce(cfg: Config, addrs: seq<Addr>, states: seq<State>, events: seq<Event>, i: nat, j: nat, id: Id)
    requires IsRun(cfg, addrs, states, events) && i <= j < |states|
    requires id in states[i].book.store && states[i].book.store[id].startedAt.Some? && id in states[j].book.store
    ensures states[j].book.store[id].startedAt == states[i].book.store[id].startedAt
  {
    hide IsRun;
    RunAdvances(cfg, addrs, states, events, i, j);
  }

  /** Event `i` is the assignment of a task that shows no start yet. */
  ghost predicate FirstAssignment(states: seq<State>, events: seq<Event>, i: int, id: Id)
    requires 0 <= i < |events| < |states|
  {
    && events[i].ProcEv? && events[i].a == TryAssign && events[i].p in states[i].procs
    && states[i].procs[events[i].p].Assigning? && states[i].procs[events[i].p].run.id == id
    && id in states[i].book.store && states[i].book.store[id].startedAt.None?
  }

  /** A task shows the time of its first assignment. */
  lemma {:induction false} StartIsFirstAssignment(cfg: Config, addrs: seq<Addr>, states: seq<State>,
                                                  events: seq<Event>, j: nat, id: Id) returns (i: nat)
    requires IsRun(cfg, addrs, states, events) && j < |states|
    requires id in states[j].book.store && states[j].book.store[id].startedAt.Some?
    ensures i < j && FirstAssignment(states, events, i, id)
    ensures states[j].book.store[id].startedAt == Some(states[i].book.clock)
    decreases j
  {
    hide Init, Next, Enabled, Perform, OpOf;
    if j == 0 {
      NothingStored(cfg, addrs);
    }
    i := j - 1;
    var b := states[i].book;
    assert states[i + 1] == Next(cfg, states[i], events[i]);
    BookFollows(cfg, states[i], events[i]);
    OpTimes(cfg.keepTtl, b, OpOf(cfg, states[i], events[i]), id);
    RunInv(cfg, addrs, states, events, i);
    NotAddedAgain(cfg, states[i], events[i], id);
    if b.store[id].startedAt.Some? {
      StartedOnce(cfg, addrs, states, events, i, j, id);
      i := StartIsFirstAssignment(cfg, addrs, states, events, i, id);
    } else {
      AssignEvent(cfg, states[i], events[i]);
      AssignIn(cfg, states[i], events[i]);
    }
  }

  lemma NothingStored(cfg: Config, addrs: seq<Addr>)
    ensures Init(cfg, addrs).book.store == map[]
  {}

  lemma AssignIn(cfg: Config, s: State, ev: Event)
    requires Enabled(cfg, s, ev) && ev.ProcEv?
    ensures ev.p in s.procs
  {}

  lemma NotAddedAgain(cfg: Config, s: State, ev: Event, id: Id)
    requires Inv(cfg, s) && Enabled(cfg, s, ev)
    ensures id in s.book.store && OpOf(cfg, s, ev).Add? ==> OpOf(cfg, s, ev).id != id
  {
    hide SemOk, OwnOk, CallInv;
    OpAllowed(cfg, s, ev);
  }

  // ------------------------------------------------------------ finished

  /** The event cancels or concludes the task. */
  ghost predicate Ends(s: State, ev: Event, id: Id) {
    || ev == CancelEv(id)
    || ev == CancelFinEv(id)
    || (ev == SweepStep && s.sweep.Sweeping? && s.sweep.todo != [] && s.sweep.todo[0] == id && s.sweep.phase != EndCtx)
    || (ev == AdmRefuse && s.adm == RefusedFinish(id))
    || (ev.ProcEv? && ev.a == FinishNow && ev.p in s.procs && s.procs[ev.p].Finishing? && s.procs[ev.p].id == id)
  }

  lemma EndEvent(cfg: Config, s: State, ev: Event, id: Id)
    requires Enabled(cfg, s, ev)
    requires OpOf(cfg, s, ev) == Cancel(id) || (OpOf(cfg, s, ev).Finish? && OpOf(cfg, s, ev).id == id)
    ensures Ends(s, ev, id)
  {}

  /** A finish time that changes is the time of the event, which cancels or concludes that task; none is taken back. */
  lemma FinishTime(cfg: Config, addrs: seq<Addr>, states: seq<State>, events: seq<Event>, i: nat, id: Id)
    requires IsRun(cfg, addrs, states, events) && i < |events|
    requires id in states[i].book.store && id in states[i + 1].book.store
    requires states[i + 1].book.store[id].finishedAt != states[i].book.store[id].finishedAt
    ensures states[i + 1].book.store[id].finishedAt == Some(states[i].book.clock)
    ensures !states[i].book.store[id].observed && Ends(states[i], events[i], id)
  {
    hide Init, Next, Enabled, Perform, OpOf, Ends;
    BookFollows(cfg, states[i], events[i]);
    OpTimes(cfg.keepTtl, states[i].book, OpOf(cfg, states[i], events[i]), id);
    RunInv(cfg, addrs, states, events, i);
    NotAddedAgain(cfg, states[i], events[i], id);
    EndEvent(cfg, states[i], events[i], id);
    RunAdvances(cfg, addrs, states, events, i, i + 1);
  }

  /** A stored task leaves the store when its keep time is over, or when its admission was refused. */
  lemma KeptLongEnough(cfg: Config, addrs: seq<Addr>, states: seq<State>, events: seq<Event>, i: nat, id: Id)
    requires IsRun(cfg, addrs, states, events) && i < |events| && id in states[i].book.store
    ensures id !in states[i + 1].book.store <==>
            || (events[i] == AdmRefuse && states[i].adm == RefusedDelete(id))
            || (&& events[i].ReapEv? && states[i].book.store[id].finishedAt.Some?
                && states[i].book.store[id].finishedAt.value + cfg.keepTtl <= events[i].now)
  {
    hide Init, Next, Enabled, Perform, OpOf;
    var s, ev := states[i], events[i];
    assert states[i + 1] == Next(cfg, s, ev);
    BookFollows(cfg, s, ev);
    RemoveEvent(cfg, s, ev);
    RemovesIt(cfg.keepTtl, s.book, OpOf(cfg, s, ev), id);
    if id !in states[i + 1].book.store {
      OpRemoves(cfg.keepTtl, s.book, OpOf(cfg, s, ev), id);
    }
  }

  lemma RemovesIt(keepTtl: nat, b: Book, op: Op, id: Id)
    requires id in b.store
    ensures op == Delete(id) ==> id !in Perform(keepTtl, b, op).store
    ensures op.Reap? && b.store[id].finishedAt.Some? && b.store[id].finishedAt.value + keepTtl <= op.now ==>
              id !in Perform(keepTtl, b, op).store
  {}

  lemma RemoveEvent(cfg: Config, s: State, ev: Event)
    requires Enabled(cfg, s, ev)
    ensures var op := OpOf(cfg, s, ev);
      && (op.Delete? ==> ev == AdmRefuse && s.adm == RefusedDelete(op.id))
      && (op.Reap? ==> ev == ReapEv(op.now))
      && (ev == AdmRefuse && s.adm.RefusedDelete? ==> op == Delete(s.adm.id))
      && (ev.ReapEv? ==> op == Reap(ev.now))
  {}

  // ------------------------------------------------------------ no build after the end

  /** Nothing more is to be built for the task. */
  ghost predicate Over(b: Book, id: Id) {
    id in b.jobs && (id in b.store ==> b.store[id].status == Canceled || b.store[id].observed)
  }

  lemma OverStays(b: Book, c: Book, id: Id)
    requires StoreOk(b) && Advances(b, c) && Over(b, id)
    ensures Over(c, id)
  {}

  /** A step starts a call only for a task that is stored, not canceled and not observed. */
  lemma CallStarts(cfg: Config, s: State, ev: Event, id: Id)
    requires Inv(cfg, s) && Enabled(cfg, s, ev) && Over(s.book, id) && id in s.calls
    ensures var next := Next(cfg, s, ev); id in next.calls && |next.calls[id]| == |s.calls[id]|
  {
    hide Inv, EffectOf, Perform, OpOf;
    if ev.ProcEv? {
      ProcCallStarts(cfg, s, ev.p, ev.a);
    } else if ev.AdmAdd? {
      AdmittedAnew(cfg, s, ev);
    } else {
      CallsAside(cfg, s, ev);
    }
  }

  lemma AdmittedAnew(cfg: Config, s: State, ev: Event)
    requires Enabled(cfg, s, ev) && ev.AdmAdd?
    ensures ev.id !in s.book.jobs
  {}

  lemma CallsAside(cfg: Config, s: State, ev: Event)
    requires Enabled(cfg, s, ev) && !ev.ProcEv? && !ev.AdmAdd?
    ensures Next(cfg, s, ev).calls == s.calls
  {
    hide EffectOf, ApplyEffect, Perform, OpOf, Replace, SweepAfter, CancelsAfter, RefuseAfter;
    if Aside(ev) {
      AsideFrame(cfg, s, ev);
    } else if ev.AdmStart? {
      assert StartTask(cfg, s, s.adm.id).calls == s.calls;
    }
  }

  lemma ProcCallStarts(cfg: Config, s: State, p: Pid, a: Act)
    requires Inv(cfg, s) && Enabled(cfg, s, ProcEv(p, a))
    ensures var next, id := Next(cfg, s, ProcEv(p, a)), TaskOf(s.procs[p]);
      && next.calls.Keys == s.calls.Keys
      && (forall x :: x in s.calls && x != id ==> next.calls[x] == s.calls[x])
      && (id in s.calls && Over(s.book, id) ==> |next.calls[id]| == |s.calls[id]|)
  {
    hide EffectOf, Next, OwnOk, BookOk, SemOk, LifeOk, CallInv, Over;
    NoCallWhenOver(cfg, s, p, s.procs[p], a);
    ProcCalls(cfg, s, p, a);
  }

  lemma NoCallWhenOver(cfg: Config, s: State, p: Pid, pc: Pc, a: Act)
    requires Busy(pc) && EffectOf(cfg, s, p, pc, a).Some?
    ensures Over(s.book, TaskOf(pc)) ==> !EffectOf(cfg, s, p, pc, a).value.log.CallStarted?
  {}

  /** Once a task is canceled, observed or gone, the runner is not called for it again. */
  lemma {:induction false} NoCallOnceOver(cfg: Config, addrs: seq<Addr>, states: seq<State>, events: seq<Event>,
                                          i: nat, j: nat, id: Id)
    requires IsRun(cfg, addrs, states, events) && i <= j < |states|
    requires id in states[i].calls && id in states[i].book.jobs
    requires id in states[i].book.store ==>
               states[i].book.store[id].status == Canceled || states[i].book.store[id].observed
    ensures id in states[j].calls && |states[j].calls[id]| == |states[i].calls[id]|
    decreases j
  {
    hide Init, Next, Enabled, Inv, StoreOk, Advances;
    if i < j {
      NoCallOnceOver(cfg, addrs, states, events, i, j - 1, id);
      RunInv(cfg, addrs, states, events, i);
      RunInv(cfg, addrs, states, events, j - 1);
      InvStore(cfg, states[i]);
      RunAdvances(cfg, addrs, states, events, i, j - 1);
      OverStays(states[i].book, states[j - 1].book, id);
      assert states[j - 1 + 1] == Next(cfg, states[j - 1], events[j - 1]);
      CallStarts(cfg, states[j - 1], events[j - 1], id);
    }
  }

  lemma NotAssignedStep(cfg: Config, s: State, p: Pid, pc: Pc, a: Act)
    requires Busy(pc) && EffectOf(cfg, s, p, pc, a).Some?
    ensures var next := EffectOf(cfg, s, p, pc, a).value.pc;
      && (next.FreeingSlot? && next.outcome.NotAssigned? ==>
            && pc.Assigning? && pc.run == next.run
            && (pc.run.id in s.book.store ==>
                  s.book.store[pc.run.id].status == Canceled || s.book.store[pc.run.id].observed))
      && (next.FreeingGlobal? && next.outcome.NotAssigned? ==>
            pc.FreeingSlot? && pc.run == next.run && pc.outcome.NotAssigned?)
      && (next.Returned? && next.outcome.NotAssigned? ==> pc == FreeingGlobal(next.run, NotAssigned))
  {}

  lemma BusyAdmitted(cfg: Config, s: State, p: Pid)
    requires Inv(cfg, s) && p in s.procs && Busy(s.procs[p])
    ensures TaskOf(s.procs[p]) in s.book.jobs
  {
    hide BookOk, SemOk, LifeOk, CallInv, QueuesOwn, AdmOwns, ClosedOk, Staffed;
  }

  /** An attempt is turned away with a worker in hand only when its task is canceled, observed or gone. */
  lemma NotAssignedHasCause(cfg: Config, addrs: seq<Addr>, states: seq<State>, events: seq<Event>, j: nat, p: Pid)
    requires IsRun(cfg, addrs, states, events) && j < |states| && p in states[j].procs
    requires states[j].procs[p].Returned? && states[j].procs[p].outcome.NotAssigned?
    ensures var id, b := states[j].procs[p].run.id, states[j].book;
      id in b.store ==> b.store[id].status == Canceled || b.store[id].observed
  {
    hide IsRun, EffectOf, Inv, StoreOk, Advances;
    var i := LastStep(cfg, addrs, states, events, j, p);
    NotAssignedStep(cfg, states[i], p, states[i].procs[p], events[i].a);
    i := LastStep(cfg, addrs, states, events, i, p);
    NotAssignedStep(cfg, states[i], p, states[i].procs[p], events[i].a);
    i := LastStep(cfg, addrs, states, events, i, p);
    NotAssignedStep(cfg, states[i], p, states[i].procs[p], events[i].a);
    RunInv(cfg, addrs, states, events, i);
    InvStore(cfg, states[i]);
    BusyAdmitted(cfg, states[i], p);
    RunAdvances(cfg, addrs, states, events, i, j);
    OverStays(states[i].book, states[j].book, states[j].procs[p].run.id);
  }

  // ------------------------------------------------------------ the done channel

  lemma OpClosesDone(keepTtl: nat, b: Book, op: Op, id: Id)
    requires id in b.store && !b.store[id].doneOpen ==> id in b.closed
    ensures var c := Perform(keepTtl, b, op); id in c.store && !c.store[id].doneOpen ==> id in c.closed
  {}

  lemma {:induction false} OpenUnlessClosed(cfg: Config, addrs: seq<Addr>, states: seq<State>, events: seq<Event>,
                                            i: nat, id: Id)
    requires IsRun(cfg, addrs, states, events) && i < |states|
    ensures id in states[i].book.store && !states[i].book.store[id].doneOpen ==> id in states[i].book.closed
    decreases i
  {
    hide Init, Next, Enabled, Perform, OpOf;
    if i == 0 {
      NothingStored(cfg, addrs);
    } else {
      OpenUnlessClosed(cfg, addrs, states, events, i - 1, id);
      assert states[i - 1 + 1] == Next(cfg, states[i - 1], events[i - 1]);
      BookFollows(cfg, states[i - 1], events[i - 1]);
      OpClosesDone(cfg.keepTtl, states[i - 1].book, OpOf(cfg, states[i - 1], events[i - 1]), id);
    }
  }

  lemma LeavingIs(cfg: Config, s: State, p: Pid, pc: Pc, a: Act)
    requires Busy(pc) && EffectOf(cfg, s, p, pc, a).Some?
    ensures !Busy(EffectOf(cfg, s, p, pc, a).value.pc) ==>
              pc.Closing? && EffectOf(cfg, s, p, pc, a).value.op == CloseDone(TaskOf(pc))
  {}

  lemma OwnedIsOpen(cfg: Config, s: State, p: Pid)
    requires Inv(cfg, s) && p in s.procs && Busy(s.procs[p])
    ensures TaskOf(s.procs[p]) !in s.book.closed
  {
    hide BookOk, SemOk, LifeOk, CallInv, QueuesOwn, AdmOwns, ClosedOk, Staffed;
  }

  /** A goroutine that leaves its task has closed the task's done channel, unless the task is no longer stored. */
  lemma LeavingClosesDone(cfg: Config, addrs: seq<Addr>, states: seq<State>, events: seq<Event>, i: nat, p: Pid)
    requires IsRun(cfg, addrs, states, events) && i < |events| && events[i].ProcEv? && events[i].p == p
    ensures p in states[i].procs && Busy(states[i].procs[p]) && p in states[i + 1].procs
    ensures var id := TaskOf(states[i].procs[p]);
      !Busy(states[i + 1].procs[p]) && id in states[i].book.store ==> states[i + 1].book.closed[id] == 1
  {
    hide Init, Next, EffectOf, Inv;
    var s, a := states[i], events[i].a;
    assert states[i + 1] == Next(cfg, s, ProcEv(p, a));
    RunInv(cfg, addrs, states, events, i);
    OwnedIsOpen(cfg, s, p);
    OpenUnlessClosed(cfg, addrs, states, events, i, TaskOf(s.procs[p]));
    LeavingIs(cfg, s, p, s.procs[p], a);
    ProcFrame(cfg, s, p, a);
    BookFollows(cfg, s, ProcEv(p, a));
  }
}

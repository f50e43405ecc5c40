/**
 What a cancellation brings about: the context of a canceled task ends, and a
 task whose admission was refused is closed before it is deleted.
 */
module Cancellation {
  import opened Tasks
  import opened Ledger
  import opened Daemon
  import opened Semaphores
  import opened Ownership
  import opened Lifecycle
  import opened RunnerCalls
  import opened DaemonTheorems
  import opened History
  import opened Retries

  /** The task's context has ended, or a handler or the sweep is about to end it. */
  ghost predicate CtxEnding(ctxDone: set<Id>, cancels: multiset<CancelPc>, sweep: Sweep, id: Id) {
    || id in ctxDone
    || CancelCtx(id) in cancels
    || (sweep.Sweeping? && sweep.phase == EndCtx && sweep.todo != [] && sweep.todo[0] == id)
  }

  ghost predicate CanceledReached(s: State) {
    && (forall id :: id in s.book.store && s.book.store[id].status == Canceled ==>
          CtxEnding(s.ctxDone, s.cancels, s.sweep, id))
    && (s.adm.RefusedFinish? ==> s.adm.id in s.ctxDone)
    && (s.adm.RefusedDelete? ==> s.adm.id in s.book.closed)
  }

  /** Which operations make a task canceled. */
  lemma OpCancels(keepTtl: nat, b: Book, op: Op, id: Id)
    requires var c := Perform(keepTtl, b, op); id in c.store && c.store[id].status == Canceled
    ensures || (id in b.store && b.store[id].status == Canceled)
            || (op == Cancel(id) && id in b.store && Live(b.store[id]))
            || (op == Finish(id, Canceled) && id in b.store && (Live(b.store[id]) || !b.store[id].observed))
  {}

  /** An event ends contexts and leaves those that are ending. */
  lemma EndingStays(cfg: Config, s: State, ev: Event, id: Id)
    requires Enabled(cfg, s, ev) && CtxEnding(s.ctxDone, s.cancels, s.sweep, id)
    ensures var t := Next(cfg, s, ev); CtxEnding(t.ctxDone, t.cancels, t.sweep, id)
  {
    hide EffectOf, Perform, OpOf;
    if ev.ProcEv? {
      ProcFrame(cfg, s, ev.p, ev.a);
    }
  }

  /** An event that cancels a live task has its context ended. */
  lemma CancelStarts(cfg: Config, s: State, ev: Event, id: Id)
    requires Enabled(cfg, s, ev) && OpOf(cfg, s, ev) == Cancel(id) && id in s.book.store && Live(s.book.store[id])
    ensures var t := Next(cfg, s, ev); CtxEnding(t.ctxDone, t.cancels, t.sweep, id)
  {
    if ev.ProcEv? {
      FinishesOwn(cfg, s, ev.p, s.procs[ev.p], ev.a);
    }
  }

  /** A task that is concluded as canceled while live has no context left. */
  lemma ConcludedHasEnded(cfg: Config, s: State, ev: Event, id: Id)
    requires Inv(cfg, s) && CanceledReached(s) && Enabled(cfg, s, ev) && OpOf(cfg, s, ev) == Finish(id, Canceled)
    requires id in s.book.store
    requires forall p :: p in s.procs && s.procs[p] == Finishing(id, Canceled) ==> id in s.ctxDone
    ensures Live(s.book.store[id]) ==> id in s.ctxDone
  {
    hide SemOk, OwnOk, CallInv, BookOk, AllAwaited, Retained, EffectOf;
    if ev.ProcEv? {
      FinishesOwn(cfg, s, ev.p, s.procs[ev.p], ev.a);
    }
  }

  lemma UnobservedIsCanceled(cfg: Config, s: State, id: Id)
    requires Inv(cfg, s) && id in s.book.store
    ensures s.book.store[id].observed || Live(s.book.store[id]) || s.book.store[id].status == Canceled
  {
    hide SemOk, OwnOk, CallInv, LifeOk;
  }

  lemma NextReaches(cfg: Config, s: State, ev: Event, id: Id)
    requires Inv(cfg, s) && CanceledReached(s) && Enabled(cfg, s, ev)
    requires forall p :: p in s.procs && s.procs[p] == Finishing(id, Canceled) ==> id in s.ctxDone
    requires id in Next(cfg, s, ev).book.store && Next(cfg, s, ev).book.store[id].status == Canceled
    ensures var t := Next(cfg, s, ev); CtxEnding(t.ctxDone, t.cancels, t.sweep, id)
  {
    hide Inv, Next, Enabled, OpOf, Perform, CtxEnding;
    BookFollows(cfg, s, ev);
    OpCancels(cfg.keepTtl, s.book, OpOf(cfg, s, ev), id);
    if id in s.book.store && s.book.store[id].status == Canceled {
      EndingStays(cfg, s, ev, id);
    } else if OpOf(cfg, s, ev) == Cancel(id) {
      CancelStarts(cfg, s, ev, id);
    } else {
      ConcludedHasEnded(cfg, s, ev, id);
      UnobservedIsCanceled(cfg, s, id);
      EndedIsEnding(s, id);
      EndingStays(cfg, s, ev, id);
    }
  }

  lemma EndedIsEnding(s: State, id: Id)
    ensures id in s.ctxDone ==> CtxEnding(s.ctxDone, s.cancels, s.sweep, id)
  {}

  lemma NextRefuses(cfg: Config, s: State, ev: Event)
    requires CanceledReached(s) && Enabled(cfg, s, ev)
    ensures var t := Next(cfg, s, ev);
      && (t.adm.RefusedFinish? ==> t.adm.id in t.ctxDone)
      && (t.adm.RefusedDelete? ==> t.adm.id in t.book.closed)
  {
    hide EffectOf, CtxEnding, SweepAfter, Replace;
    CtxStaysDone(cfg, s, ev);
    BookFollows(cfg, s, ev);
    ClosedStays(cfg.keepTtl, s.book, OpOf(cfg, s, ev));
    if ev.ProcEv? {
      ProcFrame(cfg, s, ev.p, ev.a);
    }
  }

  lemma ClosedStays(keepTtl: nat, b: Book, op: Op)
    ensures forall id :: id in b.closed ==> id in Perform(keepTtl, b, op).closed
  {}

  lemma {:induction false} RunReaches(cfg: Config, addrs: seq<Addr>, states: seq<State>, events: seq<Event>, i: nat)
    requires IsRun(cfg, addrs, states, events) && i < |states|
    ensures CanceledReached(states[i])
    decreases i
  {
    hide Inv, Next, Enabled, CtxEnding;
    if i > 0 {
      RunReaches(cfg, addrs, states, events, i - 1);
      RunInv(cfg, addrs, states, events, i - 1);
      var s, ev := states[i - 1], events[i - 1];
      assert states[i - 1 + 1] == Next(cfg, s, ev);
      NextRefuses(cfg, s, ev);
      forall id | id in states[i].book.store && states[i].book.store[id].status == Canceled
        ensures CtxEnding(states[i].ctxDone, states[i].cancels, states[i].sweep, id)
      {
        forall p | p in s.procs && s.procs[p] == Finishing(id, Canceled)
          ensures id in s.ctxDone
        {
          CancellationHasCause(cfg, addrs, states, events, i - 1, p, id);
        }
        NextReaches(cfg, s, ev, id);
      }
    }
  }

  /** In every state the context of a canceled task has ended, or a cancel handler or the sweep is about to end it. */
  lemma CanceledContextEnds(cfg: Config, addrs: seq<Addr>, states: seq<State>, events: seq<Event>, i: nat, id: Id)
    requires IsRun(cfg, addrs, states, events) && i < |states|
    requires id in states[i].book.store && states[i].book.store[id].status == Canceled
    ensures || id in states[i].ctxDone
            || CancelCtx(id) in states[i].cancels
            || (&& states[i].sweep.Sweeping? && states[i].sweep.phase == EndCtx
                && states[i].sweep.todo != [] && states[i].sweep.todo[0] == id)
  {
    hide IsRun;
    RunReaches(cfg, addrs, states, events, i);
  }

  /** A task whose admission is refused has its done channel closed and its outcome observed before it is deleted. */
  lemma RefusedIsClosed(cfg: Config, addrs: seq<Addr>, states: seq<State>, events: seq<Event>, i: nat)
    requires IsRun(cfg, addrs, states, events) && i < |states| && states[i].adm.RefusedDelete?
    ensures var id, b := states[i].adm.id, states[i].book;
      id in b.closed && (id in b.store ==> b.store[id].status == Canceled && b.store[id].observed)
  {
    hide IsRun, CtxEnding;
    RunReaches(cfg, addrs, states, events, i);
    RunInv(cfg, addrs, states, events, i);
    RefusedIsSettled(cfg, states[i]);
    RefusedCanceled(cfg, addrs, states, events, i);
  }

  lemma RefusedIsSettled(cfg: Config, s: State)
    requires Inv(cfg, s) && s.adm.RefusedDelete?
    ensures s.adm.id in s.book.store ==> s.book.store[s.adm.id].observed
  {
    hide SemOk, OwnOk, CallInv, BookOk;
  }

  /** Only its own goroutine gives a task another end, and a refused task has none. */
  lemma {:induction false} RefusedCanceled(cfg: Config, addrs: seq<Addr>, states: seq<State>, events: seq<Event>,
                                           i: nat)
    requires IsRun(cfg, addrs, states, events) && i < |states|
    ensures Holding(states[i].adm) && states[i].adm.id in states[i].book.observed ==>
              states[i].book.observed[states[i].adm.id] == Canceled
    ensures Holding(states[i].adm) && states[i].adm.id in states[i].book.store
            && states[i].book.store[states[i].adm.id].observed ==>
              states[i].book.store[states[i].adm.id].status == Canceled
    decreases i
  {
    hide Inv, Init, Next, Enabled;
    if i == 0 {
      StartsIdle(cfg, addrs);
    } else {
      RefusedCanceled(cfg, addrs, states, events, i - 1);
      RunInv(cfg, addrs, states, events, i - 1);
      assert states[i - 1 + 1] == Next(cfg, states[i - 1], events[i - 1]);
      StaysUnobserved(cfg, states[i - 1], events[i - 1]);
    }
    RunInv(cfg, addrs, states, events, i);
    ObservedShows(cfg, states[i]);
  }

  lemma StartsIdle(cfg: Config, addrs: seq<Addr>)
    ensures Init(cfg, addrs).adm == AdmIdle
  {}

  lemma ObservedShows(cfg: Config, s: State)
    requires Inv(cfg, s)
    ensures forall id :: id in s.book.store && s.book.store[id].observed ==>
              id in s.book.observed && s.book.store[id].status == s.book.observed[id]
  {
    hide SemOk, OwnOk, CallInv, LifeOk, Partitioned, CountersOk;
  }

  lemma StaysUnobserved(cfg: Config, s: State, ev: Event)
    requires Inv(cfg, s) && Enabled(cfg, s, ev)
    requires Holding(s.adm) && s.adm.id in s.book.observed ==> s.book.observed[s.adm.id] == Canceled
    ensures var t := Next(cfg, s, ev);
      Holding(t.adm) && t.adm.id in t.book.observed ==> t.book.observed[t.adm.id] == Canceled
  {
    hide EffectOf, Next, SemOk, LifeOk, CallInv, OpOf, Perform;
    BookFollows(cfg, s, ev);
    HoldingStays(cfg, s, ev);
    var op := OpOf(cfg, s, ev);
    ObservedBy(cfg.keepTtl, s.book, op);
    if op.Finish? && op.status != Canceled {
      ConclusionEvent(cfg, s, ev, op.id, op.status);
    }
  }

  lemma ObservedBy(keepTtl: nat, b: Book, op: Op)
    ensures forall id :: id in Perform(keepTtl, b, op).observed ==>
              || (id in b.observed && Perform(keepTtl, b, op).observed[id] == b.observed[id])
              || (op.Finish? && op.id == id && op.status == Perform(keepTtl, b, op).observed[id])
  {}

  lemma HoldingStays(cfg: Config, s: State, ev: Event)
    requires Enabled(cfg, s, ev)
    ensures Holding(Next(cfg, s, ev).adm) ==>
              Next(cfg, s, ev).adm.id !in s.book.jobs || (Holding(s.adm) && Next(cfg, s, ev).adm.id == s.adm.id)
  {
    hide EffectOf, Perform, OpOf;
    if ev.ProcEv? {
      ProcFrame(cfg, s, ev.p, ev.a);
    } else if Aside(ev) {
      AsideFrame(cfg, s, ev);
    }
  }
}

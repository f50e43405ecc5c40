/**
 What cancel, shutdown, the reaper and the runner goroutines may rely on about
 each other's tasks: nothing that ended comes back, whoever cancels a task sees
 to its observation, and the store never outgrows its limit.
 */
module Lifecycle {
  import opened Basics
  import opened Tasks
  import opened Ledger
  import opened Daemon
  import opened Ownership

  /** Admitted, and terminal unless it is gone from the store. */
  ghost predicate Ended(b: Book, id: Id) {
    id in b.jobs && (id in b.store ==> !Live(b.store[id]))
  }

  /** Admitted, and observed unless it is gone from the store. */
  ghost predicate Settled(b: Book, id: Id) {
    id in b.jobs && (id in b.store ==> b.store[id].observed)
  }

  lemma EndedPersists(b: Book, c: Book, id: Id)
    requires StoreOk(b) && StoreOk(c) && Advances(b, c)
    ensures Ended(b, id) ==> Ended(c, id)
    ensures Settled(b, id) ==> Settled(c, id)
    ensures Settled(b, id) ==> Ended(b, id)
  {}

  ghost predicate PcsLive(b: Book, procs: map<Pid, Pc>) {
    && (forall p :: p in procs && procs[p].Finishing? ==> Terminal(procs[p].status))
    && (forall p :: p in procs && procs[p].Closing? ==> Ended(b, procs[p].id))
  }

  ghost predicate ClosedEnded(b: Book) {
    forall id :: id in b.closed ==> Ended(b, id)
  }

  ghost predicate AdmSettled(b: Book, adm: Adm) {
    adm.RefusedClose? || adm.RefusedDelete? ==> Settled(b, adm.id)
  }

  ghost predicate CancelsEnded(b: Book, cancels: multiset<CancelPc>) {
    forall c :: c in cancels ==> Ended(b, c.id)
  }

  ghost predicate SweepSettles(b: Book, sweep: Sweep) {
    match sweep
    case NoSweep => true
    case Sweeping(todo, phase, listed) =>
      && (forall id :: id in listed ==> id in b.jobs)
      && (forall id :: id in listed && id !in todo ==> Settled(b, id))
      && (forall id :: id in todo ==> id in listed)
      && (phase != Pick ==> todo != [] && Ended(b, todo[0]))
    case Swept(listed) => forall id :: id in listed ==> Settled(b, id)
  }

  /** A cancel handler or the sweep still has to conclude `id`. */
  ghost predicate Awaited(cancels: multiset<CancelPc>, sweep: Sweep, id: Id) {
    || CancelCtx(id) in cancels
    || CancelFin(id) in cancels
    || (sweep.Sweeping? && sweep.phase != Pick && sweep.todo != [] && sweep.todo[0] == id)
  }

  ghost predicate AllAwaited(b: Book, cancels: multiset<CancelPc>, sweep: Sweep) {
    forall id :: id in b.store && !Live(b.store[id]) && !b.store[id].observed ==> Awaited(cancels, sweep, id)
  }

  predicate Retained(cfg: Config, b: Book, adm: Adm) {
    |b.store| <= cfg.maxRetained && (adm.Uploading? ==> |b.store| < cfg.maxRetained)
  }

  ghost predicate LifeOk(cfg: Config, s: State) {
    && PcsLive(s.book, s.procs)
    && ClosedEnded(s.book)
    && AdmSettled(s.book, s.adm)
    && CancelsEnded(s.book, s.cancels)
    && SweepSettles(s.book, s.sweep)
    && AllAwaited(s.book, s.cancels, s.sweep)
    && Retained(cfg, s.book, s.adm)
  }

  // ------------------------------------------------ the book moves forward

  /** What one ledger operation does to the facts above when nothing else moves. */
  lemma FactsPersist(b: Book, c: Book, procs: map<Pid, Pc>, adm: Adm, cancels: multiset<CancelPc>, sweep: Sweep)
    requires StoreOk(b) && StoreOk(c) && Advances(b, c)
    ensures PcsLive(b, procs) ==> PcsLive(c, procs)
    ensures AdmSettled(b, adm) ==> AdmSettled(c, adm)
    ensures CancelsEnded(b, cancels) ==> CancelsEnded(c, cancels)
    ensures SweepSettles(b, sweep) ==> SweepSettles(c, sweep)
  {
    forall id
      ensures Ended(b, id) ==> Ended(c, id)
      ensures Settled(b, id) ==> Settled(c, id)
    {
      EndedPersists(b, c, id);
    }
  }

  lemma FinishEnds(keepTtl: nat, b: Book, id: Id, status: Status)
    requires BookOk(b) && id in b.jobs && Terminal(status)
    ensures var c := Perform(keepTtl, b, Finish(id, status));
      Ended(c, id) && (status == Canceled ==> Settled(c, id))
  {}

  lemma CancelEnds(keepTtl: nat, b: Book, id: Id)
    requires BookOk(b) && id in b.jobs
    ensures Ended(Perform(keepTtl, b, Cancel(id)), id)
  {}

  /** Only a cancel leaves a task terminal and unobserved. */
  lemma OnlyCancelLeavesUnobserved(keepTtl: nat, b: Book, op: Op, id: Id)
    requires StoreOk(b) && Allowed(b, op)
    requires var c := Perform(keepTtl, b, op); id in c.store && !Live(c.store[id]) && !c.store[id].observed
    ensures id in b.store && !b.store[id].observed
    ensures !Live(b.store[id]) || op == Cancel(id)
    ensures !(op.Finish? && op.id == id && op.status == Canceled)
  {}

  lemma StoreKeys(keepTtl: nat, b: Book, op: Op)
    ensures !op.Add? ==> Perform(keepTtl, b, op).store.Keys <= b.store.Keys
    ensures op.Add? ==> Perform(keepTtl, b, op).store.Keys == b.store.Keys + {op.id}
  {}

  lemma StoreSize(keepTtl: nat, b: Book, op: Op)
    requires StoreOk(b) && Allowed(b, op)
    ensures !op.Add? ==> |Perform(keepTtl, b, op).store| <= |b.store|
    ensures op.Add? ==> |Perform(keepTtl, b, op).store| == |b.store| + 1
  {
    hide Perform;
    StoreKeys(keepTtl, b, op);
    var c := Perform(keepTtl, b, op);
    if op.Add? {
      assert op.id !in b.store;
    } else {
      SubsetSize(c.store.Keys, b.store.Keys);
    }
  }

  /** New closes are closes of an ended task. */
  lemma ClosesOnlyEnded(keepTtl: nat, b: Book, op: Op)
    requires BookOk(b) && Allowed(b, op) && ClosedEnded(b)
    requires op.CloseDone? || op.ForceClose? ==> Ended(b, op.id)
    ensures ClosedEnded(Perform(keepTtl, b, op))
  {
    var c := Perform(keepTtl, b, op);
    BookKept(keepTtl, b, op);
    forall id | id in c.closed
      ensures Ended(c, id)
    {
      assert Ended(b, id) by { ClosedGrowth(keepTtl, b, op, id); }
      EndedPersists(b, c, id);
    }
  }

  lemma ClosedGrowth(keepTtl: nat, b: Book, op: Op, id: Id)
    requires id in Perform(keepTtl, b, op).closed
    ensures id in b.closed || ((op.CloseDone? || op.ForceClose?) && op.id == id)
  {}

  // ------------------------------------------------------ one step of a run

  /** The book of the next state is the book after the event's critical section. */
  lemma BookFollows(cfg: Config, s: State, ev: Event)
    requires Enabled(cfg, s, ev)
    ensures Next(cfg, s, ev).book == Perform(cfg.keepTtl, s.book, OpOf(cfg, s, ev))
  {
    hide EffectOf;
    if ev.ProcEv? || ev.AdmAdd? || ev.AdmRefuse? || ev.SweepStep? {
    }
  }

  /** A runner goroutine only touches its own program counter, the book, the semaphores and the pool. */
  lemma ProcFrame(cfg: Config, s: State, p: Pid, a: Act)
    requires Enabled(cfg, s, ProcEv(p, a))
    ensures var next := Next(cfg, s, ProcEv(p, a));
      && next.adm == s.adm && next.cancels == s.cancels && next.sweep == s.sweep
      && next.queues == s.queues && next.ctxDone == s.ctxDone
      && next.procs == s.procs[p := EffectOf(cfg, s, p, s.procs[p], a).value.pc]
  {
    hide EffectOf, Perform;
  }

  lemma OpAllowed(cfg: Config, s: State, ev: Event)
    requires Enabled(cfg, s, ev)
    requires PcsLive(s.book, s.procs) && AdmSettled(s.book, s.adm)
    ensures Allowed(s.book, OpOf(cfg, s, ev))
  {
    if ev.ProcEv? {
      EffectStays(cfg, s, ev.p, s.procs[ev.p], ev.a);
      FinishesOwn(cfg, s, ev.p, s.procs[ev.p], ev.a);
    }
  }

  lemma FinishesOwn(cfg: Config, s: State, p: Pid, pc: Pc, a: Act)
    requires Busy(pc) && EffectOf(cfg, s, p, pc, a).Some?
    ensures var e := EffectOf(cfg, s, p, pc, a).value;
      && (e.op.Finish? ==> pc.Finishing? && e.op == Finish(pc.id, pc.status) && e.pc == Closing(pc.id))
      && (e.op.CloseDone? ==> pc.Closing? && e.op.id == pc.id)
      && (e.pc.Finishing? ==> Terminal(e.pc.status))
      && (e.pc.Closing? ==>
            e.op.Finish? || (e.op.Skip? && (e.pc.id in s.book.store ==> s.book.store[e.pc.id].status == Canceled)))
      && !e.op.Cancel? && !e.op.Add? && !e.op.ForceClose?
  {}

  /** A goroutine only concludes a task that has ended. */
  lemma EffectCloses(cfg: Config, s: State, p: Pid, a: Act)
    requires BookOk(s.book) && OwnOk(cfg, s) && PcsLive(s.book, s.procs) && Enabled(cfg, s, ProcEv(p, a))
    ensures var pc' := EffectOf(cfg, s, p, s.procs[p], a).value.pc;
      && (pc'.Finishing? ==> Terminal(pc'.status))
      && (pc'.Closing? ==> Ended(Next(cfg, s, ProcEv(p, a)).book, pc'.id))
  {
    hide OwnOk, BookOk, EffectOf, ApplyEffect, Ended;
    var pc := s.procs[p];
    var e := EffectOf(cfg, s, p, pc, a).value;
    OwnerAdmitted(cfg, s, p);
    EffectStays(cfg, s, p, pc, a);
    FinishesOwn(cfg, s, p, pc, a);
    BookFollows(cfg, s, ProcEv(p, a));
    if e.pc.Closing? {
      if e.op.Finish? {
        FinishEnds(cfg.keepTtl, s.book, pc.id, pc.status);
      } else {
        CanceledEnded(s.book, e.pc.id);
      }
    }
  }

  lemma CanceledEnded(b: Book, id: Id)
    requires id in b.jobs && (id in b.store ==> b.store[id].status == Canceled)
    ensures Ended(b, id)
  {}

  lemma PcsWith(b: Book, procs: map<Pid, Pc>, p: Pid, pc': Pc)
    requires PcsLive(b, procs)
    requires (pc'.Finishing? ==> Terminal(pc'.status)) && (pc'.Closing? ==> Ended(b, pc'.id))
    ensures PcsLive(b, procs[p := pc'])
  {}

  lemma ProcKeepsPcs(cfg: Config, s: State, p: Pid, a: Act)
    requires BookOk(s.book) && OwnOk(cfg, s) && PcsLive(s.book, s.procs) && Enabled(cfg, s, ProcEv(p, a))
    requires PcsLive(Next(cfg, s, ProcEv(p, a)).book, s.procs)
    ensures var next := Next(cfg, s, ProcEv(p, a)); PcsLive(next.book, next.procs)
  {
    EffectCloses(cfg, s, p, a);
    ProcFrame(cfg, s, p, a);
    PcsWith(Next(cfg, s, ProcEv(p, a)).book, s.procs, p, EffectOf(cfg, s, p, s.procs[p], a).value.pc);
  }

  lemma OwnerAdmitted(cfg: Config, s: State, p: Pid)
    requires OwnOk(cfg, s) && p in s.procs && Busy(s.procs[p])
    ensures TaskOf(s.procs[p]) in s.book.jobs
  {}

  lemma NextKeepsPcs(cfg: Config, s: State, ev: Event)
    requires BookOk(s.book) && OwnOk(cfg, s) && PcsLive(s.book, s.procs) && Enabled(cfg, s, ev)
    requires var next := Next(cfg, s, ev); BookOk(next.book) && PcsLive(next.book, s.procs)
    ensures var next := Next(cfg, s, ev); PcsLive(next.book, next.procs)
  {
    hide BookOk, OwnOk, EffectOf, ApplyEffect, Perform, Ended;
    if ev.ProcEv? {
      ProcKeepsPcs(cfg, s, ev.p, ev.a);
    } else if ev.PopEv? || ev.RetireEv? || ev.AdmStart? {
    } else {
      assert Next(cfg, s, ev).procs == s.procs;
    }
  }

  lemma NextKeepsCancels(cfg: Config, s: State, ev: Event)
    requires BookOk(s.book) && CancelsEnded(s.book, s.cancels) && Enabled(cfg, s, ev)
    requires CancelsEnded(Next(cfg, s, ev).book, s.cancels)
    ensures var next := Next(cfg, s, ev); CancelsEnded(next.book, next.cancels)
  {
    hide BookOk, EffectOf, ApplyEffect, Perform, Ended;
    if ev.ProcEv? {
      ProcFrame(cfg, s, ev.p, ev.a);
    } else if ev.CancelEv? {
      if ev.id in s.book.store {
        StoredAdmitted(s.book, ev.id);
        CancelEnds(cfg.keepTtl, s.book, ev.id);
      }
    } else if ev.CancelCtxEv? {
      assert CancelCtx(ev.id) in s.cancels;
    }
  }

  lemma StoredAdmitted(b: Book, id: Id)
    requires BookOk(b) && id in b.store
    ensures id in b.jobs
  {}

  lemma SweepStepSettles(cfg: Config, s: State)
    requires BookOk(s.book) && SweepSettles(s.book, s.sweep) && Enabled(cfg, s, SweepStep)
    requires SweepSettles(Next(cfg, s, SweepStep).book, s.sweep)
    ensures var next := Next(cfg, s, SweepStep); SweepSettles(next.book, next.sweep)
  {
    hide BookOk, EffectOf, ApplyEffect, Perform, Ended, Settled;
    var id := s.sweep.todo[0];
    assert id in s.sweep.todo && id in s.book.jobs;
    match s.sweep.phase
    case Pick => CancelEnds(cfg.keepTtl, s.book, id);
    case EndCtx =>
    case Conclude =>
      FinishEnds(cfg.keepTtl, s.book, id, Canceled);
      assert forall x :: x in s.sweep.todo[1..] ==> x in s.sweep.todo;
      assert forall x :: x in s.sweep.todo && x !in s.sweep.todo[1..] ==> x == id;
  }

  lemma SweepStartSettles(cfg: Config, s: State, todo: seq<Id>)
    requires BookOk(s.book) && Enabled(cfg, s, SweepStart(todo))
    ensures var next := Next(cfg, s, SweepStart(todo)); next.book == s.book && SweepSettles(next.book, next.sweep)
  {
    hide Perform, Ended, Settled;
    assert forall id :: id in todo <==> id in Elements(todo);
    assert forall id :: id in LiveIds(s.book) ==> id in s.book.jobs;
  }

  lemma SweepUntouched(cfg: Config, s: State, ev: Event)
    requires Enabled(cfg, s, ev) && !ev.SweepStart? && !ev.SweepStep? && !ev.SweepEnd?
    ensures Next(cfg, s, ev).sweep == s.sweep
  {
    hide Perform, EffectOf, ApplyEffect;
    if ev.ProcEv? {
      ProcFrame(cfg, s, ev.p, ev.a);
    }
  }

  lemma NextKeepsSweep(cfg: Config, s: State, ev: Event)
    requires BookOk(s.book) && SweepSettles(s.book, s.sweep) && Enabled(cfg, s, ev)
    requires var next := Next(cfg, s, ev); BookOk(next.book) && SweepSettles(next.book, s.sweep)
    ensures var next := Next(cfg, s, ev); SweepSettles(next.book, next.sweep)
  {
    hide BookOk, EffectOf, ApplyEffect, Perform, Ended, Settled;
    if ev.SweepStep? {
      SweepStepSettles(cfg, s);
    } else if ev.SweepStart? {
      SweepStartSettles(cfg, s, ev.todo);
    } else if !ev.SweepEnd? {
      SweepUntouched(cfg, s, ev);
    }
  }

  lemma NextKeepsAwaited(cfg: Config, s: State, ev: Event)
    requires BookOk(s.book) && AllAwaited(s.book, s.cancels, s.sweep) && Enabled(cfg, s, ev)
    requires Allowed(s.book, OpOf(cfg, s, ev))
    ensures var next := Next(cfg, s, ev); AllAwaited(next.book, next.cancels, next.sweep)
  {
    var next, op := Next(cfg, s, ev), OpOf(cfg, s, ev);
    BookFollows(cfg, s, ev);
    forall id | id in next.book.store && !Live(next.book.store[id]) && !next.book.store[id].observed
      ensures Awaited(next.cancels, next.sweep, id)
    {
      OnlyCancelLeavesUnobserved(cfg.keepTtl, s.book, op, id);
      AwaitedKept(cfg, s, ev, id);
    }
  }

  lemma AwaitedKept(cfg: Config, s: State, ev: Event, id: Id)
    requires Enabled(cfg, s, ev) && id in s.book.store
    requires Live(s.book.store[id]) ==> OpOf(cfg, s, ev) == Cancel(id)
    requires !Live(s.book.store[id]) ==> Awaited(s.cancels, s.sweep, id)
    requires OpOf(cfg, s, ev) != Finish(id, Canceled)
    ensures var next := Next(cfg, s, ev); Awaited(next.cancels, next.sweep, id)
  {
    hide EffectOf, ApplyEffect, Perform, Awaited, Next;
    if ev.ProcEv? {
      EffectStays(cfg, s, ev.p, s.procs[ev.p], ev.a);
      ProcFrame(cfg, s, ev.p, ev.a);
    } else {
      AwaitedAside(cfg, s, ev, id);
    }
  }

  lemma AwaitedAside(cfg: Config, s: State, ev: Event, id: Id)
    requires Enabled(cfg, s, ev) && !ev.ProcEv? && id in s.book.store
    requires Live(s.book.store[id]) ==> OpOf(cfg, s, ev) == Cancel(id)
    requires !Live(s.book.store[id]) ==> Awaited(s.cancels, s.sweep, id)
    requires OpOf(cfg, s, ev) != Finish(id, Canceled)
    ensures var next := Next(cfg, s, ev); Awaited(next.cancels, next.sweep, id)
  {
    hide EffectOf, ApplyEffect, Perform, RefuseAfter;
  }

  lemma NextKeepsRetained(cfg: Config, s: State, ev: Event)
    requires BookOk(s.book) && Retained(cfg, s.book, s.adm) && Enabled(cfg, s, ev)
    requires Allowed(s.book, OpOf(cfg, s, ev))
    ensures var next := Next(cfg, s, ev); Retained(cfg, next.book, next.adm)
  {
    hide Perform, Next, EffectOf, StoreOk, Partitioned, CountersOk, Allowed, OpOf, Enabled;
    BookFollows(cfg, s, ev);
    StoreSize(cfg.keepTtl, s.book, OpOf(cfg, s, ev));
    AdmissionSteps(cfg, s, ev);
  }

  lemma AdmissionSteps(cfg: Config, s: State, ev: Event)
    requires Enabled(cfg, s, ev)
    ensures var next, op := Next(cfg, s, ev), OpOf(cfg, s, ev);
      && (op.Add? ==> s.adm.Uploading? && !next.adm.Uploading?)
      && (next.adm.Uploading? ==> s.adm.Uploading? || (|s.book.store| < cfg.maxRetained && op.Skip?))
  {
    hide EffectOf, ApplyEffect, Perform;
    if ev.ProcEv? {
      ProcFrame(cfg, s, ev.p, ev.a);
      OnlyAdmissionAdds(cfg, s, ev.p, s.procs[ev.p], ev.a);
    }
  }

  lemma OnlyAdmissionAdds(cfg: Config, s: State, p: Pid, pc: Pc, a: Act)
    requires Busy(pc) && EffectOf(cfg, s, p, pc, a).Some?
    ensures !EffectOf(cfg, s, p, pc, a).value.op.Add?
  {}

  lemma RefusedAdmitted(cfg: Config, s: State)
    requires OwnOk(cfg, s) && Holding(s.adm)
    ensures s.adm.id in s.book.jobs
  {}

  lemma RefusedSettled(cfg: Config, s: State)
    requires BookOk(s.book) && OwnOk(cfg, s) && Enabled(cfg, s, AdmRefuse) && s.adm.RefusedFinish?
    ensures Settled(Next(cfg, s, AdmRefuse).book, s.adm.id)
  {
    hide OwnOk, BookOk, EffectOf, ApplyEffect, Perform, Settled, Ended;
    RefusedAdmitted(cfg, s);
    FinishEnds(cfg.keepTtl, s.book, s.adm.id, Canceled);
  }

  lemma NextKeepsAdm(cfg: Config, s: State, ev: Event)
    requires BookOk(s.book) && OwnOk(cfg, s) && AdmSettled(s.book, s.adm) && Enabled(cfg, s, ev)
    requires AdmSettled(Next(cfg, s, ev).book, s.adm)
    ensures var next := Next(cfg, s, ev); AdmSettled(next.book, next.adm)
  {
    hide EffectOf, ApplyEffect, Perform, BookOk, OwnOk, Settled;
    if ev.ProcEv? {
      ProcFrame(cfg, s, ev.p, ev.a);
    } else if ev.AdmRefuse? && s.adm.RefusedFinish? {
      RefusedSettled(cfg, s);
    }
  }

  lemma ClosesEnded(cfg: Config, s: State, ev: Event)
    requires PcsLive(s.book, s.procs) && AdmSettled(s.book, s.adm) && StoreOk(s.book) && Enabled(cfg, s, ev)
    ensures var op := OpOf(cfg, s, ev); op.CloseDone? || op.ForceClose? ==> Ended(s.book, op.id)
  {
    if ev.ProcEv? {
      FinishesOwn(cfg, s, ev.p, s.procs[ev.p], ev.a);
    }
  }

  lemma NextKeepsLife(cfg: Config, s: State, ev: Event)
    requires BookOk(s.book) && OwnOk(cfg, s) && LifeOk(cfg, s) && Enabled(cfg, s, ev)
    ensures BookOk(Next(cfg, s, ev).book) && Advances(s.book, Next(cfg, s, ev).book)
    ensures LifeOk(cfg, Next(cfg, s, ev))
  {
    hide Next, OpOf, Enabled, Perform, Allowed, OwnOk, StoreOk, Partitioned, CountersOk, Advances,
         PcsLive, ClosedEnded, AdmSettled, CancelsEnded, SweepSettles, AllAwaited, Retained;
    var next, op := Next(cfg, s, ev), OpOf(cfg, s, ev);
    OpAllowed(cfg, s, ev);
    BookFollows(cfg, s, ev);
    BookKept(cfg.keepTtl, s.book, op);
    ClosesEnded(cfg, s, ev);
    ClosesOnlyEnded(cfg.keepTtl, s.book, op);
    FactsPersist(s.book, next.book, s.procs, s.adm, s.cancels, s.sweep);
    NextKeepsPcs(cfg, s, ev);
    NextKeepsAdm(cfg, s, ev);
    NextKeepsCancels(cfg, s, ev);
    NextKeepsSweep(cfg, s, ev);
    NextKeepsAwaited(cfg, s, ev);
    NextKeepsRetained(cfg, s, ev);
  }

  lemma InitLife(cfg: Config, addrs: seq<Addr>)
    requires ConfigOk(cfg)
    ensures BookOk(Init(cfg, addrs).book) && LifeOk(cfg, Init(cfg, addrs))
  {
    EmptyBookOk();
  }
}

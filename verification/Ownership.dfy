/**
 Who works on which task: every admitted task is with the admission handler, in
 one queue, with one goroutine, or done, and its done channel is closed at most
 once.
 */
module Ownership {
  import opened Basics
  import opened Tasks
  import opened Ledger
  import opened TaskQueue
  import opened Daemon
  import BuildModes

  /** No goroutine works on `id`. */
  ghost predicate Unowned(procs: map<Pid, Pc>, id: Id) {
    forall p :: p in procs && Busy(procs[p]) ==> TaskOf(procs[p]) != id
  }

  ghost predicate Unqueued(queues: map<string, Queue>, id: Id) {
    forall mode :: mode in queues ==> id !in queues[mode].pushed
  }

  ghost predicate ProcsOwn(jobs: map<Id, Job>, closed: multiset<Id>, procs: map<Pid, Pc>) {
    && (forall p :: p in procs && Busy(procs[p]) ==> TaskOf(procs[p]) in jobs && TaskOf(procs[p]) !in closed)
    && (forall p, q ::
          && p in procs && q in procs && Busy(procs[p]) && Busy(procs[q])
          && TaskOf(procs[p]) == TaskOf(procs[q])
          ==> p == q)
    && (forall p :: p in procs && p.TaskRunner? ==>
          p.id in jobs && !procs[p].Idle? && (Busy(procs[p]) ==> TaskOf(procs[p]) == p.id))
  }

  ghost predicate QueueOwns(jobs: map<Id, Job>, closed: multiset<Id>, procs: map<Pid, Pc>, mode: string, q: Queue) {
    && Fifo(q)
    && NoDup(q.pushed)
    && (forall id :: id in q.pushed ==> id in jobs && jobs[id].mode == mode)
    && (forall id :: id in q.ids ==> id !in closed && Unowned(procs, id))
  }

  ghost predicate QueuesOwn(jobs: map<Id, Job>, closed: multiset<Id>, procs: map<Pid, Pc>, queues: map<string, Queue>) {
    forall mode :: mode in queues ==> QueueOwns(jobs, closed, procs, mode, queues[mode])
  }

  predicate Holding(adm: Adm) {
    !adm.AdmIdle? && !adm.Uploading?
  }

  ghost predicate AdmOwns(jobs: map<Id, Job>, closed: multiset<Id>, procs: map<Pid, Pc>, queues: map<string, Queue>,
                          adm: Adm) {
    Holding(adm) ==>
      && adm.id in jobs
      && Unowned(procs, adm.id)
      && Unqueued(queues, adm.id)
      && TaskRunner(adm.id) !in procs
      && (!adm.RefusedDelete? ==> adm.id !in closed)
  }

  ghost predicate ClosedOk(jobs: map<Id, Job>, closed: multiset<Id>) {
    forall id :: id in closed ==> id in jobs && closed[id] == 1
  }

  /** The goroutines are exactly the workers of the modes, or one per task. */
  ghost predicate Staffed(cfg: Config, s: State) {
    && s.queues.Keys == cfg.modes.Keys
    && (if Explicit(cfg) then s.procs.Keys == set w | w in BuildModes.Workers(cfg.modes) :: ModeWorker(w.0, w.1)
        else forall p :: p in s.procs ==> p.TaskRunner?)
  }

  ghost predicate OwnOk(cfg: Config, s: State) {
    && ProcsOwn(s.book.jobs, s.book.closed, s.procs)
    && QueuesOwn(s.book.jobs, s.book.closed, s.procs, s.queues)
    && AdmOwns(s.book.jobs, s.book.closed, s.procs, s.queues, s.adm)
    && ClosedOk(s.book.jobs, s.book.closed)
    && Staffed(cfg, s)
    && s.calls.Keys == s.book.jobs.Keys
  }

  /** A step stays with its task; only the last one lets go of it, closing its channel. */
  lemma EffectStays(cfg: Config, s: State, p: Pid, pc: Pc, a: Act)
    requires Busy(pc) && EffectOf(cfg, s, p, pc, a).Some?
    ensures var e := EffectOf(cfg, s, p, pc, a).value;
      && (Busy(e.pc) ==> TaskOf(e.pc) == TaskOf(pc) && !e.op.CloseDone?)
      && (!Busy(e.pc) ==> e.op == CloseDone(TaskOf(pc)) && (p.TaskRunner? ==> e.pc.Exited?))
      && (e.op.Skip? || e.op.Requeue? || e.op.Assign? || e.op.Finish? || e.op.CloseDone?)
      && (e.op.Finish? ==> Terminal(e.op.status) || pc.Finishing?)
      && !e.pc.Starting?
  {}

  /** Neither waiting in a queue nor with the admission handler. */
  ghost predicate Elsewhere(queues: map<string, Queue>, adm: Adm, id: Id) {
    && (forall mode :: mode in queues ==> id !in queues[mode].ids)
    && (Holding(adm) ==> adm.id != id)
  }

  /** A task that a goroutine works on is neither queued nor with the admission handler. */
  lemma OwnedElsewhere(cfg: Config, s: State, p: Pid)
    requires OwnOk(cfg, s) && p in s.procs && Busy(s.procs[p])
    ensures Elsewhere(s.queues, s.adm, TaskOf(s.procs[p]))
  {
    forall mode | mode in s.queues
      ensures TaskOf(s.procs[p]) !in s.queues[mode].ids
    {
      assert QueueOwns(s.book.jobs, s.book.closed, s.procs, mode, s.queues[mode]);
    }
  }

  /** A goroutine moves on with its task, or lets go of it. */
  lemma ProcsStep(jobs: map<Id, Job>, closed: multiset<Id>, procs: map<Pid, Pc>, p: Pid, pc': Pc, closed': multiset<Id>)
    requires ProcsOwn(jobs, closed, procs)
    requires p in procs && Busy(procs[p])
    requires Busy(pc') ==> TaskOf(pc') == TaskOf(procs[p]) && closed' == closed
    requires !Busy(pc') ==>
             (closed' == closed || closed' == closed + multiset{TaskOf(procs[p])}) && (p.TaskRunner? ==> pc'.Exited?)
    ensures ProcsOwn(jobs, closed', procs[p := pc'])
  {}

  /** An idle or new goroutine takes up a task, or retires. */
  lemma ProcsTakeUp(jobs: map<Id, Job>, closed: multiset<Id>, procs: map<Pid, Pc>, p: Pid, pc': Pc)
    requires ProcsOwn(jobs, closed, procs)
    requires p in procs ==> !Busy(procs[p])
    requires Busy(pc') ==> TaskOf(pc') in jobs && TaskOf(pc') !in closed && Unowned(procs, TaskOf(pc'))
    requires p.TaskRunner? ==> Busy(pc') && TaskOf(pc') == p.id
    ensures ProcsOwn(jobs, closed, procs[p := pc'])
  {}

  /** What one goroutine does to its own task `x` leaves the queues and the admission handler alone. */
  lemma OthersKept(jobs: map<Id, Job>, closed: multiset<Id>, procs: map<Pid, Pc>, queues: map<string, Queue>, adm: Adm,
                   p: Pid, pc': Pc, closed': multiset<Id>, x: Id)
    requires QueuesOwn(jobs, closed, procs, queues) && AdmOwns(jobs, closed, procs, queues, adm)
    requires Elsewhere(queues, adm, x)
    requires Busy(pc') ==> TaskOf(pc') == x
    requires closed' == closed || closed' == closed + multiset{x}
    requires p in procs || (p.TaskRunner? && p.id == x)
    ensures QueuesOwn(jobs, closed', procs[p := pc'], queues)
    ensures AdmOwns(jobs, closed', procs[p := pc'], queues, adm)
  {
    forall mode | mode in queues
      ensures QueueOwns(jobs, closed', procs[p := pc'], mode, queues[mode])
    {
      assert QueueOwns(jobs, closed, procs, mode, queues[mode]);
      UnownedKept(procs, p, pc', x, queues[mode].ids);
    }
  }

  lemma UnownedKept(procs: map<Pid, Pc>, p: Pid, pc': Pc, x: Id, ids: seq<Id>)
    requires Busy(pc') ==> TaskOf(pc') == x
    requires x !in ids
    requires forall id :: id in ids ==> Unowned(procs, id)
    ensures forall id :: id in ids ==> Unowned(procs[p := pc'], id)
  {}

  /** The task part of a goroutine's step, and what it leaves alone. */
  lemma ProcEffectOwn(cfg: Config, s: State, p: Pid, a: Act)
    requires p in s.procs && Busy(s.procs[p]) && Enabled(cfg, s, ProcEv(p, a))
    ensures var next, e := Next(cfg, s, ProcEv(p, a)), EffectOf(cfg, s, p, s.procs[p], a).value;
      && next.procs == s.procs[p := e.pc] && next.queues == s.queues && next.adm == s.adm
      && next.calls.Keys == s.calls.Keys
      && next.book.jobs == s.book.jobs
      && (next.book.closed == s.book.closed
            || (!Busy(e.pc) && next.book.closed == s.book.closed + multiset{TaskOf(s.procs[p])}))
  {
    hide EffectOf;
    EffectStays(cfg, s, p, s.procs[p], a);
  }

  lemma ProcKeepsOwn(cfg: Config, s: State, p: Pid, a: Act)
    requires OwnOk(cfg, s) && Enabled(cfg, s, ProcEv(p, a))
    ensures OwnOk(cfg, Next(cfg, s, ProcEv(p, a)))
  {
    hide ProcsOwn, QueuesOwn, AdmOwns, Staffed, EffectOf, Next, Perform, Elsewhere;
    var pc := s.procs[p];
    var e := EffectOf(cfg, s, p, pc, a).value;
    var next := Next(cfg, s, ProcEv(p, a));
    EffectStays(cfg, s, p, pc, a);
    ProcEffectOwn(cfg, s, p, a);
    OwnedElsewhere(cfg, s, p);
    OwnedOpen(cfg, s, p);
    ProcsStep(s.book.jobs, s.book.closed, s.procs, p, e.pc, next.book.closed);
    OthersKept(s.book.jobs, s.book.closed, s.procs, s.queues, s.adm, p, e.pc, next.book.closed, TaskOf(pc));
    assert next.procs.Keys == s.procs.Keys;
    SameStaff(cfg, s, next);
  }

  lemma OwnedOpen(cfg: Config, s: State, p: Pid)
    requires OwnOk(cfg, s) && p in s.procs && Busy(s.procs[p])
    ensures TaskOf(s.procs[p]) in s.book.jobs && TaskOf(s.procs[p]) !in s.book.closed
  {}

  /** The head of a queue occurs nowhere else in it. */
  lemma HeadLeaves(q: Queue)
    requires Fifo(q) && NoDup(q.pushed) && Ready(q)
    ensures q.ids[0] in q.pushed
    ensures q.ids[0] !in Pop(q).ids
    ensures Fifo(Pop(q)) && Pop(q).pushed == q.pushed
    ensures forall id :: id in Pop(q).ids ==> id in q.ids
  {
    FifoKept(q, 0);
    var n := |q.popped|;
    assert forall k :: 0 <= k < |q.ids| ==> q.ids[k] == q.pushed[n + k];
  }

  lemma PushedIncludes(q: Queue, id: Id)
    requires Fifo(q)
    ensures id in q.ids ==> id in q.pushed
  {}

  lemma PopOwns(s: State, p: Pid)
    requires QueuesOwn(s.book.jobs, s.book.closed, s.procs, s.queues)
    requires ProcsOwn(s.book.jobs, s.book.closed, s.procs)
    requires AdmOwns(s.book.jobs, s.book.closed, s.procs, s.queues, s.adm)
    requires p in s.procs && s.procs[p].Idle? && p.ModeWorker? && p.mode in s.queues && Ready(s.queues[p.mode])
    ensures var q := s.queues[p.mode];
      var procs, queues := s.procs[p := Starting(q.ids[0])], s.queues[p.mode := Pop(q)];
      && ProcsOwn(s.book.jobs, s.book.closed, procs)
      && QueuesOwn(s.book.jobs, s.book.closed, procs, queues)
      && AdmOwns(s.book.jobs, s.book.closed, procs, queues, s.adm)
  {
    var q := s.queues[p.mode];
    var id := q.ids[0];
    assert QueueOwns(s.book.jobs, s.book.closed, s.procs, p.mode, q);
    HeadLeaves(q);
    var queues := s.queues[p.mode := Pop(q)];
    assert QueueOwns(s.book.jobs, s.book.closed, s.procs, p.mode, Pop(q));
    HeadElsewhere(s, p.mode, id);
    ProcsTakeUp(s.book.jobs, s.book.closed, s.procs, p, Starting(id));
    assert QueuesOwn(s.book.jobs, s.book.closed, s.procs, queues);
    OthersKept(s.book.jobs, s.book.closed, s.procs, queues, s.adm, p, Starting(id), s.book.closed, id);
  }

  lemma PopKeepsOwn(cfg: Config, s: State, p: Pid)
    requires OwnOk(cfg, s) && Enabled(cfg, s, PopEv(p))
    ensures OwnOk(cfg, Next(cfg, s, PopEv(p)))
  {
    hide ProcsOwn, QueuesOwn, AdmOwns, ClosedOk;
    PopOwns(s, p);
    var q := s.queues[p.mode];
    assert s.procs[p := Starting(q.ids[0])].Keys == s.procs.Keys;
    assert s.queues[p.mode := Pop(q)].Keys == s.queues.Keys;
  }

  lemma HeadElsewhere(s: State, mode: string, id: Id)
    requires QueuesOwn(s.book.jobs, s.book.closed, s.procs, s.queues)
    requires AdmOwns(s.book.jobs, s.book.closed, s.procs, s.queues, s.adm)
    requires mode in s.queues && Ready(s.queues[mode]) && id == s.queues[mode].ids[0]
    ensures Elsewhere(s.queues[mode := Pop(s.queues[mode])], s.adm, id)
  {
    assert QueueOwns(s.book.jobs, s.book.closed, s.procs, mode, s.queues[mode]);
    HeadLeaves(s.queues[mode]);
    forall other | other in s.queues && other != mode
      ensures id !in s.queues[other].ids
    {
      assert QueueOwns(s.book.jobs, s.book.closed, s.procs, other, s.queues[other]);
      PushedIncludes(s.queues[other], id);
    }
  }

  lemma PushKeepsOwn(jobs: map<Id, Job>, closed: multiset<Id>, procs: map<Pid, Pc>, mode: string, q: Queue, id: Id)
    requires QueueOwns(jobs, closed, procs, mode, q)
    requires id in jobs && jobs[id].mode == mode && id !in q.pushed && id !in closed && Unowned(procs, id)
    ensures QueueOwns(jobs, closed, procs, mode, Push(q, id))
  {
    FifoKept(q, id);
  }

  /** The queue of its mode takes over a task from the admission handler. */
  lemma StartQueued(s: State, id: Id, mode: string)
    requires QueuesOwn(s.book.jobs, s.book.closed, s.procs, s.queues)
    requires AdmOwns(s.book.jobs, s.book.closed, s.procs, s.queues, s.adm)
    requires s.adm == Added(id) && id in s.book.jobs && mode == s.book.jobs[id].mode && mode in s.queues
    ensures QueuesOwn(s.book.jobs, s.book.closed, s.procs, s.queues[mode := Push(s.queues[mode], id)])
  {
    assert QueueOwns(s.book.jobs, s.book.closed, s.procs, mode, s.queues[mode]);
    PushKeepsOwn(s.book.jobs, s.book.closed, s.procs, mode, s.queues[mode], id);
  }

  lemma StartKeepsOwn(cfg: Config, s: State)
    requires OwnOk(cfg, s) && Enabled(cfg, s, AdmStart)
    ensures OwnOk(cfg, Next(cfg, s, AdmStart))
  {
    hide ProcsOwn, QueuesOwn, ClosedOk;
    var id := s.adm.id;
    if !Explicit(cfg) {
      assert s.queues == map[];
      ProcsTakeUp(s.book.jobs, s.book.closed, s.procs, TaskRunner(id), Starting(id));
      assert QueuesOwn(s.book.jobs, s.book.closed, s.procs[TaskRunner(id) := Starting(id)], map[]) by {
        NoQueues(s.book.jobs, s.book.closed, s.procs[TaskRunner(id) := Starting(id)]);
      }
    } else {
      var mode := s.book.jobs[id].mode;
      if mode in s.queues && !s.queues[mode].closed {
        StartQueued(s, id, mode);
        assert s.queues[mode := Push(s.queues[mode], id)].Keys == s.queues.Keys;
      }
    }
  }

  lemma NoQueues(jobs: map<Id, Job>, closed: multiset<Id>, procs: map<Pid, Pc>)
    ensures QueuesOwn(jobs, closed, procs, map[])
  {}

  /** A fresh task is nobody's. */
  lemma AddKeepsOwn(cfg: Config, s: State, id: Id, job: Job)
    requires OwnOk(cfg, s) && Enabled(cfg, s, AdmAdd(id, job))
    ensures OwnOk(cfg, Next(cfg, s, AdmAdd(id, job)))
  {
    var jobs := s.book.jobs[id := job];
    assert s.calls[id := []].Keys == jobs.Keys;
    assert ProcsOwn(jobs, s.book.closed, s.procs);
    forall mode | mode in s.queues
      ensures QueueOwns(jobs, s.book.closed, s.procs, mode, s.queues[mode]) && id !in s.queues[mode].pushed
    {
      assert QueueOwns(s.book.jobs, s.book.closed, s.procs, mode, s.queues[mode]);
    }
  }

  /** Closing the channel of a refused task, which only the admission handler knows. */
  lemma RefusedClosed(jobs: map<Id, Job>, closed: multiset<Id>, procs: map<Pid, Pc>, queues: map<string, Queue>, x: Id)
    requires ProcsOwn(jobs, closed, procs) && QueuesOwn(jobs, closed, procs, queues) && ClosedOk(jobs, closed)
    requires Unowned(procs, x) && Unqueued(queues, x) && x in jobs && x !in closed
    ensures ProcsOwn(jobs, closed + multiset{x}, procs)
    ensures QueuesOwn(jobs, closed + multiset{x}, procs, queues)
    ensures ClosedOk(jobs, closed + multiset{x})
  {
    forall mode | mode in queues
      ensures QueueOwns(jobs, closed + multiset{x}, procs, mode, queues[mode])
    {
      assert QueueOwns(jobs, closed, procs, mode, queues[mode]);
      PushedIncludes(queues[mode], x);
    }
  }

  lemma RefuseKeepsOwn(cfg: Config, s: State)
    requires OwnOk(cfg, s) && Enabled(cfg, s, AdmRefuse)
    ensures OwnOk(cfg, Next(cfg, s, AdmRefuse))
  {
    hide ProcsOwn, QueuesOwn, ClosedOk, Staffed;
    var next := Next(cfg, s, AdmRefuse);
    if s.adm.RefusedClose? {
      RefusedClosed(s.book.jobs, s.book.closed, s.procs, s.queues, s.adm.id);
      assert next.book.closed == s.book.closed + multiset{s.adm.id};
    } else {
      assert next.book.closed == s.book.closed;
    }
    assert next.book.jobs == s.book.jobs;
    SameStaff(cfg, s, next);
  }

  lemma SameStaff(cfg: Config, s: State, s': State)
    requires Staffed(cfg, s) && s'.queues.Keys == s.queues.Keys && s'.procs.Keys == s.procs.Keys
    ensures Staffed(cfg, s')
  {}

  lemma CloseOwns(s: State, mode: string)
    requires QueuesOwn(s.book.jobs, s.book.closed, s.procs, s.queues) && mode in s.queues
    requires AdmOwns(s.book.jobs, s.book.closed, s.procs, s.queues, s.adm)
    ensures QueuesOwn(s.book.jobs, s.book.closed, s.procs, s.queues[mode := Close(s.queues[mode])])
    ensures AdmOwns(s.book.jobs, s.book.closed, s.procs, s.queues[mode := Close(s.queues[mode])], s.adm)
  {
    assert QueueOwns(s.book.jobs, s.book.closed, s.procs, mode, s.queues[mode]);
    FifoKept(s.queues[mode], 0);
    assert QueueOwns(s.book.jobs, s.book.closed, s.procs, mode, Close(s.queues[mode]));
  }

  lemma CloseKeepsOwn(cfg: Config, s: State, mode: string)
    requires OwnOk(cfg, s) && Enabled(cfg, s, CloseQueueEv(mode))
    ensures OwnOk(cfg, Next(cfg, s, CloseQueueEv(mode)))
  {
    hide ProcsOwn, QueuesOwn, AdmOwns, ClosedOk, Staffed;
    CloseOwns(s, mode);
    assert s.queues[mode := Close(s.queues[mode])].Keys == s.queues.Keys;
    SameStaff(cfg, s, Next(cfg, s, CloseQueueEv(mode)));
  }

  lemma RetireOwns(s: State, p: Pid)
    requires QueuesOwn(s.book.jobs, s.book.closed, s.procs, s.queues)
    requires AdmOwns(s.book.jobs, s.book.closed, s.procs, s.queues, s.adm) && p in s.procs
    ensures QueuesOwn(s.book.jobs, s.book.closed, s.procs[p := Exited], s.queues)
    ensures AdmOwns(s.book.jobs, s.book.closed, s.procs[p := Exited], s.queues, s.adm)
  {
    forall mode | mode in s.queues
      ensures QueueOwns(s.book.jobs, s.book.closed, s.procs[p := Exited], mode, s.queues[mode])
    {
      assert QueueOwns(s.book.jobs, s.book.closed, s.procs, mode, s.queues[mode]);
      RetireUnowned(s.procs, p, s.queues[mode].ids);
    }
  }

  lemma RetireKeepsOwn(cfg: Config, s: State, p: Pid)
    requires OwnOk(cfg, s) && Enabled(cfg, s, RetireEv(p))
    ensures OwnOk(cfg, Next(cfg, s, RetireEv(p)))
  {
    hide ProcsOwn, QueuesOwn, AdmOwns, ClosedOk, Staffed;
    ProcsTakeUp(s.book.jobs, s.book.closed, s.procs, p, Exited);
    RetireOwns(s, p);
    assert s.procs[p := Exited].Keys == s.procs.Keys;
    SameStaff(cfg, s, Next(cfg, s, RetireEv(p)));
  }

  lemma RetireUnowned(procs: map<Pid, Pc>, p: Pid, ids: seq<Id>)
    requires forall id :: id in ids ==> Unowned(procs, id)
    ensures forall id :: id in ids ==> Unowned(procs[p := Exited], id)
  {}

  /** Events that neither move a goroutine nor a queue nor a task between hands. */
  predicate Aside(ev: Event) {
    !ev.ProcEv? && !ev.PopEv? && !ev.RetireEv? && !ev.AdmAdd? && !ev.AdmStart? && !ev.AdmRefuse? && !ev.CloseQueueEv?
  }

  lemma AsideOp(cfg: Config, s: State, ev: Event)
    requires Enabled(cfg, s, ev) && Aside(ev)
    ensures var op := OpOf(cfg, s, ev); !op.Add? && !op.CloseDone? && !op.ForceClose?
    ensures Next(cfg, s, ev).book == Perform(cfg.keepTtl, s.book, OpOf(cfg, s, ev))
  {
    hide EffectOf, ApplyEffect, StartTask;
  }

  lemma AsideFrame(cfg: Config, s: State, ev: Event)
    requires Enabled(cfg, s, ev) && Aside(ev)
    ensures var next := Next(cfg, s, ev);
      && next.calls == s.calls && next.procs == s.procs && next.queues == s.queues
      && (next.adm == s.adm || !Holding(next.adm))
  {
    hide EffectOf, ApplyEffect, StartTask, Perform, OpOf, Enabled;
    var next := Next(cfg, s, ev);
    assert next.procs == s.procs;
    assert next.queues == s.queues;
    assert next.calls == s.calls;
  }

  lemma OtherKeepsOwn(cfg: Config, s: State, ev: Event)
    requires OwnOk(cfg, s) && Enabled(cfg, s, ev)
    requires Aside(ev)
    ensures OwnOk(cfg, Next(cfg, s, ev))
  {
    hide ProcsOwn, QueuesOwn, ClosedOk, Staffed, Next, Enabled, Perform, OpOf;
    AsideOp(cfg, s, ev);
    AsideFrame(cfg, s, ev);
    PerformFrame(cfg.keepTtl, s.book, OpOf(cfg, s, ev));
    SameStaff(cfg, s, Next(cfg, s, ev));
  }

  lemma NextKeepsOwn(cfg: Config, s: State, ev: Event)
    requires OwnOk(cfg, s) && Enabled(cfg, s, ev)
    ensures OwnOk(cfg, Next(cfg, s, ev))
  {
    hide OwnOk, Enabled, Next;
    match ev
    case ProcEv(p, a) => ProcKeepsOwn(cfg, s, p, a);
    case PopEv(p) => PopKeepsOwn(cfg, s, p);
    case RetireEv(p) => RetireKeepsOwn(cfg, s, p);
    case AdmAdd(id, job) => AddKeepsOwn(cfg, s, id, job);
    case AdmStart => StartKeepsOwn(cfg, s);
    case AdmRefuse => RefuseKeepsOwn(cfg, s);
    case CloseQueueEv(mode) => CloseKeepsOwn(cfg, s, mode);
    case _ => OtherKeepsOwn(cfg, s, ev);
  }

  lemma InitOwn(cfg: Config, addrs: seq<Addr>)
    ensures OwnOk(cfg, Init(cfg, addrs))
  {
    var s := Init(cfg, addrs);
    if !Explicit(cfg) {
      assert BuildModes.Workers(cfg.modes) == {};
    }
  }
}

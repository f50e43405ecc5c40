/**
 The build daemon as a transition system (internal/builddaemon: tasks.go,
 scheduler.go, mode_scheduler.go, build_request.go, server.go, run.go).

 One event is one atomic step of one goroutine: a critical section of the task
 store, a send to or receive from a semaphore channel, a queue operation, a
 pool replacement, a return of the build runner. Whatever the code leaves to
 the scheduler or to the outside world is a parameter of the event.
 */
module Daemon {
  import opened Basics
  import opened Tasks
  import opened Ledger
  import opened TaskQueue
  import BuildModes

  /** `globalCap == 0` means no global limit; no `modes` means one goroutine per task. */
  datatype Config = Config(
    modes: map<string, int>,
    defaultMode: string,
    globalCap: nat,
    slotCap: nat,
    maxRetained: nat,
    keepTtl: nat,
    universe: set<Addr>
  )

  predicate Explicit(cfg: Config) {
    cfg.modes != map[]
  }

  ghost predicate ConfigOk(cfg: Config) {
    && cfg.slotCap >= 1
    && cfg.maxRetained >= 1
    && (Explicit(cfg) ==> BuildModes.Accepted(cfg.modes, cfg.defaultMode, cfg.globalCap))
  }

  datatype Pid = ModeWorker(mode: string, index: int) | TaskRunner(id: Id)

  /** How one call of `runBuildStepAttempt` or of the runner ended. */
  datatype Outcome =
    | Built
    | BuildError(addr: Addr, retryable: bool, deterministic: bool)
    | NotAssigned
    | NoWorker
    | CtxDone

  /** The locals of `runBuildTask` and `runBuildStepAttempt`. */
  datatype Run = Run(id: Id, step: nat, attempt: nat, excluded: set<Addr>)

  datatype Pc =
    | Idle
    | Exited
    | Starting(id: Id)
    | AtStep(run: Run)
    | Requeueing(run: Run)
    | BackingOff(run: Run)
    | Marking(run: Run)
    | WantGlobal(run: Run)
    | Snapshotting(run: Run)
    | Trying(run: Run, cands: seq<nat>, k: nat)
    | WantSlot(run: Run, cands: seq<nat>)
    | Assigning(run: Run, slot: nat)
    | Building(run: Run, slot: nat)
    | FreeingSlot(run: Run, slot: nat, outcome: Outcome)
    | FreeingGlobal(run: Run, outcome: Outcome)
    | Returned(run: Run, outcome: Outcome)
    | Refreshing(run: Run)
    | Finishing(id: Id, status: Status)
    | Closing(id: Id)

  predicate HasRun(pc: Pc) {
    pc.AtStep? || pc.Requeueing? || pc.BackingOff? || pc.Marking? || pc.WantGlobal? || pc.Snapshotting? || pc.Trying?
    || pc.WantSlot? || pc.Assigning? || pc.Building? || pc.FreeingSlot? || pc.FreeingGlobal? || pc.Returned?
        || pc.Refreshing?
  }

  /** The goroutine is working on a task. */
  predicate Busy(pc: Pc) {
    !pc.Idle? && !pc.Exited?
  }

  function TaskOf(pc: Pc): Id
    requires Busy(pc)
  {
    if HasRun(pc) then pc.run.id else pc.id
  }

  predicate HoldsGlobal(pc: Pc) {
    pc.Snapshotting? || pc.Trying? || pc.WantSlot? || pc.Assigning? || pc.Building? || pc.FreeingSlot?
        || pc.FreeingGlobal?
  }

  predicate HoldsSlot(pc: Pc, slot: nat) {
    (pc.Assigning? || pc.Building? || pc.FreeingSlot?) && pc.slot == slot
  }

  /** A slot object: its position in `slots` is its identity. */
  datatype Slot = Slot(addr: Addr, used: nat)

  datatype CallResult = Pending | CallOk | CallFailed

  datatype Call = Call(step: nat, attempt: nat, addr: Addr, result: CallResult)

  datatype Adm =
    | AdmIdle
    | Uploading
    | Added(id: Id)
    | RefusedCancel(id: Id)
    | RefusedFinish(id: Id)
    | RefusedClose(id: Id)
    | RefusedDelete(id: Id)

  datatype CancelPc = CancelCtx(id: Id) | CancelFin(id: Id)

  datatype Phase = Pick | EndCtx | Conclude

  datatype Sweep =
    | NoSweep
    | Sweeping(todo: seq<Id>, phase: Phase, listed: set<Id>)
    | Swept(listed: set<Id>)

  datatype State = State(
    book: Book,
    ctxDone: set<Id>,
    procs: map<Pid, Pc>,
    queues: map<string, Queue>,
    global: nat,
    slots: seq<Slot>,
    pool: seq<nat>,
    calls: map<Id, seq<Call>>,
    adm: Adm,
    cancels: multiset<CancelPc>,
    sweep: Sweep
  )

  // ------------------------------------------------------------ worker pool

  /** The last slot of `pool` with this address, as `existing[addr]` is filled. */
  function Lookup(slots: seq<Slot>, pool: seq<nat>, addr: Addr): (r: Option<nat>)
    ensures r.Some? ==> r.value in pool && r.value < |slots| && slots[r.value].addr == addr
    ensures r.None? ==> forall i :: 0 <= i < |pool| && pool[i] < |slots| ==> slots[pool[i]].addr != addr
  {
    if pool == [] then None
    else
      var last := pool[|pool| - 1];
      if last < |slots| && slots[last].addr == addr then Some(last)
      else Lookup(slots, pool[..|pool| - 1], addr)
  }

  /** All slot objects, old and new, and the new pool: an address that stays keeps its slot. */
  function Replace(slots: seq<Slot>, pool: seq<nat>, addrs: seq<Addr>): (r: (seq<Slot>, seq<nat>))
    ensures slots <= r.0
    ensures forall i :: |slots| <= i < |r.0| ==> r.0[i].used == 0 && r.0[i].addr in addrs
    ensures |r.1| == |addrs|
    ensures forall i :: 0 <= i < |addrs| ==> r.1[i] < |r.0| && r.0[r.1[i]].addr == addrs[i]
  {
    if addrs == [] then (slots, [])
    else
      var (all, fresh') := Replace(slots, pool, addrs[..|addrs| - 1]);
      var addr := addrs[|addrs| - 1];
      match Lookup(slots, pool, addr)
      case Some(i) => (all, fresh' + [i])
      case None => (all + [Slot(addr, 0)], fresh' + [|all|])
  }

  /** A preference order of the pool's positions, as the hash ring yields one. */
  ghost predicate IsOrder(order: seq<nat>, n: nat) {
    |order| == n && NoDup(order) && forall i :: 0 <= i < n ==> order[i] < n
  }

  /** The pool in preference order without the excluded addresses. */
  function Candidates(slots: seq<Slot>, pool: seq<nat>, order: seq<nat>, excluded: set<Addr>): (r: seq<nat>)
    requires forall i :: 0 <= i < |order| ==> order[i] < |pool|
    requires forall i :: 0 <= i < |pool| ==> pool[i] < |slots|
    ensures forall c :: c in r ==> c < |slots| && slots[c].addr !in excluded
    ensures forall i :: 0 <= i < |order| && slots[pool[order[i]]].addr !in excluded ==> pool[order[i]] in r
    ensures forall c :: c in r ==> exists i :: 0 <= i < |order| && pool[order[i]] == c
  {
    if order == [] then []
    else
      var front := Candidates(slots, pool, order[..|order| - 1], excluded);
      var c := pool[order[|order| - 1]];
      if slots[c].addr in excluded then front else front + [c]
  }

  // ------------------------------------------------------ runner goroutines

  datatype Act =
    | Begin(logOk: bool)
    | BeginStep(contextOk: bool)
    | RequeueForRetry
    | BackoffOver
    | BackoffCanceled
    | MarkTask
    | AcquireGlobal
    | AbandonGlobal
    | TakeSnapshot(order: seq<nat>)
    | TryNext
    | GrabSlot(i: nat)
    | AbandonSlot
    | TryAssign
    | BuildReturns(outcome: Outcome)
    | ReleaseSlot
    | ReleaseGlobal
    | Decide
    | RefreshPool(addrs: Option<seq<Addr>>)
    | FinishNow
    | CloseNow

  datatype Sem = Keep | TakeGlobal | GiveGlobal | TakeSlot(slot: nat) | GiveSlot(slot: nat)

  datatype CallLog = Quiet | CallStarted(call: Call) | CallEnded(ok: bool)

  datatype Effect = Effect(pc: Pc, sem: Sem, op: Op, log: CallLog, refresh: Option<seq<Addr>>)

  function Move(pc: Pc): Effect {
    Effect(pc, Keep, Skip, Quiet, None)
  }

  function MoveSem(pc: Pc, sem: Sem): Effect {
    Effect(pc, sem, Skip, Quiet, None)
  }

  function MoveOp(pc: Pc, op: Op): Effect {
    Effect(pc, Keep, op, Quiet, None)
  }

  predicate ValidAddrs(cfg: Config, addrs: seq<Addr>) {
    forall i :: 0 <= i < |addrs| ==> addrs[i] in cfg.universe
  }

  predicate PoolOk(s: State) {
    forall i :: 0 <= i < |s.pool| ==> s.pool[i] < |s.slots|
  }

  predicate HasRoom(cfg: Config, s: State, slot: nat) {
    slot < |s.slots| && s.slots[slot].used < cfg.slotCap
  }

  predicate GlobalRoom(cfg: Config, s: State) {
    cfg.globalCap == 0 || s.global < cfg.globalCap
  }

  /** Where an attempt that returned leads: the rest of both retry loops. */
  function AfterAttempt(job: Job, ctxDone: bool, run: Run, outcome: Outcome): Pc {
    if outcome.Built? then AtStep(Run(run.id, run.step + 1, 0, {}))
    else if ctxDone then Finishing(run.id, Canceled)
    else if outcome.BuildError? && outcome.retryable then Refreshing(run.(excluded := run.excluded + {outcome.addr}))
    else if outcome.BuildError? && outcome.deterministic then Finishing(run.id, Failed)
    else if run.attempt < job.retry then Requeueing(Run(run.id, run.step, run.attempt + 1, {}))
    else Finishing(run.id, Failed)
  }

  /** What goroutine `p` at `pc` does by `a`, or nothing if it cannot do that now. */
  ghost function EffectOf(cfg: Config, s: State, p: Pid, pc: Pc, a: Act): Option<Effect> {
    match a
    case Begin(logOk) =>
      if !pc.Starting? then None
      else if pc.id !in s.book.store || s.book.store[pc.id].status == Canceled then Some(Move(Closing(pc.id)))
      else if !logOk then Some(Move(Finishing(pc.id, Failed)))
      else Some(Move(AtStep(Run(pc.id, 0, 0, {}))))
    case BeginStep(contextOk) =>
      if !pc.AtStep? || pc.run.id !in s.book.jobs then None
      else if pc.run.step >= s.book.jobs[pc.run.id].steps then Some(Move(Finishing(pc.run.id, Succeeded)))
      else if !contextOk && pc.run.step > 0 then Some(Move(Finishing(pc.run.id, Failed)))
      else Some(Move(Marking(pc.run)))
    case RequeueForRetry =>
      if pc.Requeueing? then Some(MoveOp(BackingOff(pc.run), Requeue(pc.run.id))) else None
    case BackoffOver =>
      if pc.BackingOff? then Some(Move(Marking(pc.run))) else None
    case BackoffCanceled =>
      if pc.BackingOff? && pc.run.id in s.ctxDone then Some(Move(Finishing(pc.run.id, Canceled))) else None
    case MarkTask =>
      if pc.Marking? then Some(MoveOp(WantGlobal(pc.run), Requeue(pc.run.id))) else None
    case AcquireGlobal =>
      if pc.WantGlobal? && GlobalRoom(cfg, s) then Some(MoveSem(Snapshotting(pc.run), TakeGlobal)) else None
    case AbandonGlobal =>
      if pc.WantGlobal? && pc.run.id in s.ctxDone then Some(Move(Returned(pc.run, CtxDone))) else None
    case TakeSnapshot(order) =>
      if pc.Snapshotting? && IsOrder(order, |s.pool|) && PoolOk(s)
      then Some(Move(Trying(pc.run, Candidates(s.slots, s.pool, order, pc.run.excluded), 0)))
      else None
    case TryNext =>
      if !pc.Trying? then None
      else if pc.k < |pc.cands| then
        if HasRoom(cfg, s, pc.cands[pc.k])
        then Some(MoveSem(Assigning(pc.run, pc.cands[pc.k]), TakeSlot(pc.cands[pc.k])))
        else Some(Move(Trying(pc.run, pc.cands, pc.k + 1)))
      else if pc.cands == [] then Some(Move(FreeingGlobal(pc.run, NoWorker)))
      else Some(Move(WantSlot(pc.run, pc.cands)))
    case GrabSlot(i) =>
      if pc.WantSlot? && i < |pc.cands| && HasRoom(cfg, s, pc.cands[i])
      then Some(MoveSem(Assigning(pc.run, pc.cands[i]), TakeSlot(pc.cands[i])))
      else None
    case AbandonSlot =>
      if pc.WantSlot? && pc.run.id in s.ctxDone then Some(Move(FreeingGlobal(pc.run, CtxDone))) else None
    case TryAssign =>
      if !pc.Assigning? || pc.slot >= |s.slots| then None
      else
        var addr := s.slots[pc.slot].addr;
        if pc.run.id in s.book.store && Assignable(s.book.store[pc.run.id])
        then Some(Effect(Building(pc.run, pc.slot), Keep, Assign(pc.run.id, addr),
                         CallStarted(Call(pc.run.step, pc.run.attempt, addr, Pending)), None))
        else Some(Move(FreeingSlot(pc.run, pc.slot, NotAssigned)))
    case BuildReturns(outcome) =>
      if pc.Building? && pc.slot < |s.slots|
         && (outcome.Built? || (outcome.BuildError? && outcome.addr == s.slots[pc.slot].addr))
      then Some(Effect(FreeingSlot(pc.run, pc.slot, outcome), Keep, Skip, CallEnded(outcome.Built?), None))
      else None
    case ReleaseSlot =>
      if pc.FreeingSlot? then Some(MoveSem(FreeingGlobal(pc.run, pc.outcome), GiveSlot(pc.slot))) else None
    case ReleaseGlobal =>
      if pc.FreeingGlobal? then Some(MoveSem(Returned(pc.run, pc.outcome), GiveGlobal)) else None
    case Decide =>
      if pc.Returned? && pc.run.id in s.book.jobs
      then Some(Move(AfterAttempt(s.book.jobs[pc.run.id], pc.run.id in s.ctxDone, pc.run, pc.outcome)))
      else None
    case RefreshPool(addrs) =>
      if pc.Refreshing? && (addrs.Some? ==> ValidAddrs(cfg, addrs.value))
      then Some(Effect(Marking(pc.run), Keep, Skip, Quiet, addrs))
      else None
    case FinishNow =>
      if pc.Finishing? then Some(MoveOp(Closing(pc.id), Finish(pc.id, pc.status))) else None
    case CloseNow =>
      if pc.Closing? then Some(MoveOp(if p.ModeWorker? then Idle else Exited, CloseDone(pc.id))) else None
  }

  function GlobalAfter(cfg: Config, global: nat, sem: Sem): nat {
    if cfg.globalCap == 0 then global
    else match sem
      case TakeGlobal => global + 1
      case GiveGlobal => if global > 0 then global - 1 else 0
      case _ => global
  }

  function SlotsAfter(slots: seq<Slot>, sem: Sem): (r: seq<Slot>)
    ensures |r| == |slots|
    ensures forall i :: 0 <= i < |slots| ==> r[i].addr == slots[i].addr
  {
    match sem
    case TakeSlot(i) => if i < |slots| then slots[i := slots[i].(used := slots[i].used + 1)] else slots
    case GiveSlot(i) =>
      if i < |slots| && slots[i].used > 0 then slots[i := slots[i].(used := slots[i].used - 1)] else slots
    case _ => slots
  }

  function CallsAfter(calls: seq<Call>, log: CallLog): seq<Call> {
    match log
    case Quiet => calls
    case CallStarted(call) => calls + [call]
    case CallEnded(ok) =>
      if calls == [] then calls
      else
        var last := calls[|calls| - 1];
        calls[..|calls| - 1] + [last.(result := if ok then CallOk else CallFailed)]
  }

  function ApplyEffect(cfg: Config, s: State, p: Pid, pc: Pc, e: Effect): State
    requires Busy(pc)
  {
    var id := TaskOf(pc);
    var slots := SlotsAfter(s.slots, e.sem);
    var replaced := if e.refresh.Some? then Replace(slots, s.pool, e.refresh.value) else (slots, s.pool);
    s.(procs := s.procs[p := e.pc],
       global := GlobalAfter(cfg, s.global, e.sem),
       slots := replaced.0,
       pool := replaced.1,
       calls := if id in s.calls then s.calls[id := CallsAfter(s.calls[id], e.log)] else s.calls,
       book := Perform(cfg.keepTtl, s.book, e.op))
  }

  // ---------------------------------------------------------------- events

  datatype Event =
    | ProcEv(p: Pid, a: Act)
    | PopEv(p: Pid)
    | RetireEv(p: Pid)
    | AdmCheck
    | AdmAbort
    | AdmAdd(id: Id, job: Job)
    | AdmStart
    | AdmRefuse
    | CancelEv(id: Id)
    | CancelCtxEv(id: Id)
    | CancelFinEv(id: Id)
    | SweepStart(todo: seq<Id>)
    | SweepStep
    | SweepEnd
    | CloseQueueEv(mode: string)
    | ReapEv(now: nat)
    | RefreshEv(addrs: seq<Addr>)
    | CtxEndsEv(id: Id)
    | ReportEv(id: Id)
    | TickEv

  ghost function LiveIds(b: Book): set<Id> {
    set id | id in b.store && Live(b.store[id])
  }

  ghost predicate Enabled(cfg: Config, s: State, ev: Event) {
    match ev
    case ProcEv(p, a) => p in s.procs && Busy(s.procs[p]) && EffectOf(cfg, s, p, s.procs[p], a).Some?
    case PopEv(p) => p in s.procs && s.procs[p].Idle? && p.ModeWorker? && p.mode in s.queues && Ready(s.queues[p.mode])
    case RetireEv(p) =>
      p in s.procs && s.procs[p].Idle? && p.ModeWorker? && p.mode in s.queues && s.queues[p.mode].closed
    case AdmCheck => s.adm.AdmIdle? && |s.book.store| < cfg.maxRetained
    case AdmAbort => s.adm.Uploading?
    case AdmAdd(id, job) =>
      s.adm.Uploading? && id !in s.book.jobs && job.steps >= 1 && (Explicit(cfg) ==> job.mode in cfg.modes)
    case AdmStart => s.adm.Added?
    case AdmRefuse => s.adm.RefusedCancel? || s.adm.RefusedFinish? || s.adm.RefusedClose? || s.adm.RefusedDelete?
    case CancelEv(_) => true
    case CancelCtxEv(id) => CancelCtx(id) in s.cancels
    case CancelFinEv(id) => CancelFin(id) in s.cancels
    case SweepStart(todo) => s.sweep.NoSweep? && NoDup(todo) && Elements(todo) == LiveIds(s.book)
    case SweepStep => s.sweep.Sweeping? && s.sweep.todo != []
    case SweepEnd => s.sweep.Sweeping? && s.sweep.todo == []
    case CloseQueueEv(mode) => mode in s.queues
    case ReapEv(now) => now <= s.book.clock
    case RefreshEv(addrs) => ValidAddrs(cfg, addrs)
    case CtxEndsEv(id) => id in s.book.jobs
    case ReportEv(id) => id in s.book.unreported
    case TickEv => true
  }

  /** The critical section of the task store in this event, if it has one. */
  ghost function OpOf(cfg: Config, s: State, ev: Event): Op
    requires Enabled(cfg, s, ev)
  {
    match ev
    case ProcEv(p, a) => EffectOf(cfg, s, p, s.procs[p], a).value.op
    case AdmAdd(id, job) => Add(id, job)
    case AdmRefuse =>
      (match s.adm
       case RefusedFinish(id) => Finish(id, Canceled)
       case RefusedClose(id) => ForceClose(id)
       case RefusedDelete(id) => Delete(id)
       case _ => Skip)
    case CancelEv(id) => Cancel(id)
    case CancelFinEv(id) => Finish(id, Canceled)
    case SweepStep =>
      (match s.sweep.phase
       case Pick => Cancel(s.sweep.todo[0])
       case EndCtx => Skip
       case Conclude => Finish(s.sweep.todo[0], Canceled))
    case ReapEv(now) => Reap(now)
    case ReportEv(id) => Report(id)
    case TickEv => Tick
    case _ => Skip
  }

  function CancelsAfter(b: Book, cancels: multiset<CancelPc>, id: Id): multiset<CancelPc> {
    if id !in b.store then cancels
    else if Live(b.store[id]) then cancels + multiset{CancelCtx(id)}
    else if b.store[id].status == Canceled then cancels + multiset{CancelFin(id)}
    else cancels
  }

  function SweepAfter(b: Book, sweep: Sweep): Sweep
    requires sweep.Sweeping? && sweep.todo != []
  {
    var id := sweep.todo[0];
    match sweep.phase
    case Pick => sweep.(phase := if id in b.store && Live(b.store[id]) then EndCtx else Conclude)
    case EndCtx => sweep.(phase := Conclude)
    case Conclude => Sweeping(sweep.todo[1..], Pick, sweep.listed)
  }

  function RefuseAfter(adm: Adm): Adm {
    match adm
    case RefusedCancel(id) => RefusedFinish(id)
    case RefusedFinish(id) => RefusedClose(id)
    case RefusedClose(id) => RefusedDelete(id)
    case _ => AdmIdle
  }

  /** Hands the added task to its queue or to a goroutine of its own. */
  function StartTask(cfg: Config, s: State, id: Id): State {
    if !Explicit(cfg) then s.(adm := AdmIdle, procs := s.procs[TaskRunner(id) := Starting(id)])
    else if id !in s.book.jobs || s.book.jobs[id].mode !in s.queues then s.(adm := RefusedCancel(id))
    else
      var mode := s.book.jobs[id].mode;
      if s.queues[mode].closed then s.(adm := RefusedCancel(id))
      else s.(adm := AdmIdle, queues := s.queues[mode := Push(s.queues[mode], id)])
  }

  ghost function Next(cfg: Config, s: State, ev: Event): State
    requires Enabled(cfg, s, ev)
  {
    var b := Perform(cfg.keepTtl, s.book, OpOf(cfg, s, ev));
    match ev
    case ProcEv(p, a) => ApplyEffect(cfg, s, p, s.procs[p], EffectOf(cfg, s, p, s.procs[p], a).value)
    case PopEv(p) => s.(procs := s.procs[p := Starting(s.queues[p.mode].ids[0])],
                        queues := s.queues[p.mode := Pop(s.queues[p.mode])])
    case RetireEv(p) => s.(procs := s.procs[p := Exited])
    case AdmCheck => s.(adm := Uploading)
    case AdmAbort => s.(adm := AdmIdle)
    case AdmAdd(id, job) => s.(book := b, adm := Added(id), calls := s.calls[id := []])
    case AdmStart => StartTask(cfg, s, s.adm.id)
    case AdmRefuse => s.(book := b, adm := RefuseAfter(s.adm),
                         ctxDone := if s.adm.RefusedCancel? then s.ctxDone + {s.adm.id} else s.ctxDone)
    case CancelEv(id) => s.(book := b, cancels := CancelsAfter(s.book, s.cancels, id))
    case CancelCtxEv(id) =>
      s.(ctxDone := s.ctxDone + {id}, cancels := s.cancels - multiset{CancelCtx(id)} + multiset{CancelFin(id)})
    case CancelFinEv(id) => s.(book := b, cancels := s.cancels - multiset{CancelFin(id)})
    case SweepStart(todo) => s.(sweep := Sweeping(todo, Pick, LiveIds(s.book)))
    case SweepStep => s.(book := b, sweep := SweepAfter(s.book, s.sweep),
                         ctxDone := if s.sweep.phase == EndCtx then s.ctxDone + {s.sweep.todo[0]} else s.ctxDone)
    case SweepEnd => s.(sweep := Swept(s.sweep.listed))
    case CloseQueueEv(mode) => s.(queues := s.queues[mode := Close(s.queues[mode])])
    case ReapEv(_) => s.(book := b)
    case RefreshEv(addrs) =>
      var replaced := Replace(s.slots, s.pool, addrs);
      s.(slots := replaced.0, pool := replaced.1)
    case CtxEndsEv(id) => s.(ctxDone := s.ctxDone + {id})
    case ReportEv(_) => s.(book := b)
    case TickEv => s.(book := b)
  }

  ghost function Init(cfg: Config, addrs: seq<Addr>): State {
    var replaced := Replace([], [], addrs);
    State(EmptyBook(), {},
          map w | w in BuildModes.Workers(cfg.modes) :: ModeWorker(w.0, w.1) := Idle,
          map mode | mode in cfg.modes :: NewQueue(),
          0, replaced.0, replaced.1, map[], AdmIdle, multiset{}, NoSweep)
  }

  /** A run: the states it passes through and the events between them. */
  ghost predicate IsRun(cfg: Config, addrs: seq<Addr>, states: seq<State>, events: seq<Event>) {
    && ConfigOk(cfg)
    && ValidAddrs(cfg, addrs)
    && |states| == |events| + 1
    && states[0] == Init(cfg, addrs)
    && (forall i :: 0 <= i < |events| ==>
          Enabled(cfg, states[i], events[i]) && states[i + 1] == Next(cfg, states[i], events[i]))
  }
}

/**
 The task store together with the history that the daemon's promises speak of:
 which tasks were ever admitted, which were observed with what outcome, which
 were deleted before they were observed, and how often each task's done channel
 was closed. Every critical section of the daemon is one `Op`.
 */
module Ledger {
  import opened Tasks

  /** What a request fixes when it is admitted. */
  datatype Job = Job(mode: string, steps: nat, retry: nat)

  datatype Op =
    | Skip
    | Add(id: Id, job: Job)
    | Requeue(id: Id)
    | Assign(id: Id, addr: Addr)
    | Finish(id: Id, status: Status)
    | CloseDone(id: Id)
    | ForceClose(id: Id)
    | Cancel(id: Id)
    | Delete(id: Id)
    | Reap(now: nat)
    | Report(id: Id)
    | Tick

  datatype Book = Book(
    clock: nat,
    jobs: map<Id, Job>,
    store: map<Id, Task>,
    observed: map<Id, Status>,
    unreported: set<Id>,
    lost: map<Id, Task>,
    closed: multiset<Id>,
    succeeded: nat,
    failed: nat,
    canceled: nat
  )

  function EmptyBook(): Book {
    Book(0, map[], map[], map[], {}, map[], multiset{}, 0, 0, 0)
  }

  predicate Terminal(status: Status) {
    status != Queued && status != Running
  }

  /** What the daemon guarantees about the operations it performs. */
  predicate Allowed(b: Book, op: Op) {
    match op
    case Add(id, job) => id !in b.jobs
    case Finish(id, status) => Terminal(status)
    case Delete(id) => id in b.store ==> b.store[id].observed
    case Reap(now) => now <= b.clock
    case Report(id) => id in b.unreported
    case _ => true
  }

  function Gone(store: map<Id, Task>, keep: map<Id, Task>): map<Id, Task> {
    map id | id in store && id !in keep && !store[id].observed :: store[id]
  }

  /** Removes the tasks outside `keep`; the unobserved ones among them are lost. */
  function Drop(b: Book, keep: map<Id, Task>): Book {
    b.(store := keep,
       lost := b.lost + Gone(b.store, keep))
  }

  function Put(b: Book, id: Id, t: Task): Book {
    b.(store := b.store[id := t])
  }

  function DoFinish(b: Book, id: Id, status: Status): Book {
    if id in b.store && FinishApplies(b.store[id], status) then
      b.(store := b.store[id := FinishTask(b.store[id], status, b.clock)],
         observed := b.observed[id := status],
         unreported := b.unreported + {id})
    else b
  }

  function DoReport(b: Book, id: Id): Book
    requires id in b.observed
  {
    var rest := b.(unreported := b.unreported - {id});
    match b.observed[id]
    case Succeeded => rest.(succeeded := b.succeeded + 1)
    case Failed => rest.(failed := b.failed + 1)
    case _ => rest.(canceled := b.canceled + 1)
  }

  function Perform(keepTtl: nat, b: Book, op: Op): Book {
    match op
    case Skip => b
    case Add(id, job) => b.(jobs := b.jobs[id := job], store := b.store[id := NewTask()])
    case Requeue(id) => if id in b.store then Put(b, id, MarkQueued(b.store[id])) else b
    case Assign(id, addr) => if id in b.store then Put(b, id, AssignTask(b.store[id], addr, b.clock)) else b
    case Finish(id, status) => DoFinish(b, id, status)
    case CloseDone(id) =>
      if id in b.store && b.store[id].doneOpen
      then Put(b, id, CloseTask(b.store[id])).(closed := b.closed + multiset{id})
      else b
    case ForceClose(id) => b.(closed := b.closed + multiset{id})
    case Cancel(id) => if id in b.store then Put(b, id, CancelTask(b.store[id], b.clock)) else b
    case Delete(id) => Drop(b, b.store - {id})
    case Reap(now) => Drop(b, Reaped(b.store, now, keepTtl))
    case Report(id) => if id in b.observed then DoReport(b, id) else b
    case Tick => b.(clock := b.clock + 1)
  }

  /** Only adding a task extends the admitted ones, and only closing touches a channel. */
  lemma PerformFrame(keepTtl: nat, b: Book, op: Op)
    ensures !op.Add? ==> Perform(keepTtl, b, op).jobs == b.jobs
    ensures !op.CloseDone? && !op.ForceClose? ==> Perform(keepTtl, b, op).closed == b.closed
  {}

  ghost function Unobserved(store: map<Id, Task>): set<Id> {
    set id | id in store && !store[id].observed
  }

  /** Observed with `status` and already counted. */
  ghost function Counted(observed: map<Id, Status>, unreported: set<Id>, status: Status): set<Id> {
    set id | id in observed && id !in unreported && observed[id] == status
  }

  ghost predicate StoreOk(b: Book) {
    && (forall id :: id in b.observed ==> id in b.jobs)
    && (forall id :: id in b.store ==>
          && id in b.jobs
          && TaskOk(b.store[id])
          && (b.store[id].observed <==> id in b.observed)
          && (id in b.observed ==> b.store[id].status == b.observed[id]))
  }

  /** Admitted tasks are the unobserved ones in the store, the observed ones and the lost ones. */
  ghost predicate Partitioned(admitted: set<Id>, store: map<Id, Task>, observed: set<Id>, lost: map<Id, Task>) {
    && admitted == Unobserved(store) + observed + lost.Keys
    && Unobserved(store) !! observed
    && lost.Keys !! observed
    && lost.Keys !! store.Keys
    && (forall id :: id in lost ==> lost[id].status == Canceled)
  }

  ghost predicate CountersOk(observed: map<Id, Status>, unreported: set<Id>, succeeded: nat, failed: nat,
                             canceled: nat) {
    && unreported <= observed.Keys
    && (forall id :: id in observed ==> Terminal(observed[id]))
    && succeeded == |Counted(observed, unreported, Succeeded)|
    && failed == |Counted(observed, unreported, Failed)|
    && canceled == |Counted(observed, unreported, Canceled)|
  }

  ghost predicate BookOk(b: Book) {
    && StoreOk(b)
    && Partitioned(b.jobs.Keys, b.store, b.observed.Keys, b.lost)
    && CountersOk(b.observed, b.unreported, b.succeeded, b.failed, b.canceled)
  }

  lemma EmptyBookOk()
    ensures BookOk(EmptyBook())
  {
    assert Unobserved(EmptyBook().store) == {};
    assert forall status :: Counted(map[], {}, status) == {};
  }

  lemma CountersAfterFinish(b: Book, id: Id, status: Status)
    requires CountersOk(b.observed, b.unreported, b.succeeded, b.failed, b.canceled)
    requires id !in b.observed && Terminal(status)
    ensures CountersOk(b.observed[id := status], b.unreported + {id}, b.succeeded, b.failed, b.canceled)
  {
    assert forall st ::
             Counted(b.observed[id := status], b.unreported + {id}, st) == Counted(b.observed, b.unreported, st);
  }

  lemma CountersAfterReport(b: Book, id: Id)
    requires CountersOk(b.observed, b.unreported, b.succeeded, b.failed, b.canceled)
    requires id in b.unreported
    ensures var c := DoReport(b, id); CountersOk(c.observed, c.unreported, c.succeeded, c.failed, c.canceled)
  {
    CountedAfterReport(b, id, Succeeded);
    CountedAfterReport(b, id, Failed);
    CountedAfterReport(b, id, Canceled);
  }

  lemma CountedAfterReport(b: Book, id: Id, status: Status)
    requires id in b.unreported && id in b.observed
    ensures |Counted(b.observed, b.unreported - {id}, status)|
         == |Counted(b.observed, b.unreported, status)| + (if b.observed[id] == status then 1 else 0)
  {
    assert Counted(b.observed, b.unreported - {id}, status)
        == Counted(b.observed, b.unreported, status) + (if b.observed[id] == status then {id} else {});
  }

  lemma CountersKept(keepTtl: nat, b: Book, op: Op)
    requires BookOk(b) && Allowed(b, op)
    ensures var c := Perform(keepTtl, b, op); CountersOk(c.observed, c.unreported, c.succeeded, c.failed, c.canceled)
  {
    if op.Report? {
      CountersAfterReport(b, op.id);
    } else if op.Finish? && op.id in b.store && FinishApplies(b.store[op.id], op.status) {
      CountersAfterFinish(b, op.id, op.status);
    }
  }

  lemma GoneUnobserved(store: map<Id, Task>, keep: map<Id, Task>)
    requires forall id :: id in keep ==> id in store && keep[id] == store[id]
    ensures Unobserved(store) == Unobserved(keep) + Gone(store, keep).Keys
    ensures Unobserved(keep) !! Gone(store, keep).Keys
  {}

  /** Dropping observed or canceled tasks keeps the partition, and only canceled ones get lost. */
  lemma DropKeepsPartition(b: Book, keep: map<Id, Task>)
    requires Partitioned(b.jobs.Keys, b.store, b.observed.Keys, b.lost)
    requires forall id :: id in keep ==> id in b.store && keep[id] == b.store[id]
    requires forall id :: id in b.store && id !in keep ==> b.store[id].observed || b.store[id].status == Canceled
    ensures Partitioned(b.jobs.Keys, keep, b.observed.Keys, b.lost + Gone(b.store, keep))
  {
    GoneUnobserved(b.store, keep);
    var gone := Gone(b.store, keep);
    var lost := b.lost + gone;
    assert lost.Keys == b.lost.Keys + gone.Keys;
    assert forall id :: id in lost ==> lost[id] == (if id in gone then gone[id] else b.lost[id]);
  }

  lemma PartitionAfterUpdate(b: Book, id: Id, t: Task)
    requires BookOk(b) && id in b.store && t.observed == b.store[id].observed
    ensures Partitioned(b.jobs.Keys, b.store[id := t], b.observed.Keys, b.lost)
  {
    assert Unobserved(b.store[id := t]) == Unobserved(b.store);
  }

  lemma PartitionAfterFinish(b: Book, id: Id, status: Status)
    requires Partitioned(b.jobs.Keys, b.store, b.observed.Keys, b.lost)
    ensures var c := DoFinish(b, id, status); Partitioned(c.jobs.Keys, c.store, c.observed.Keys, c.lost)
  {
    if id in b.store && FinishApplies(b.store[id], status) {
      var store := b.store[id := FinishTask(b.store[id], status, b.clock)];
      assert Unobserved(store) == Unobserved(b.store) - {id};
      assert store.Keys == b.store.Keys;
      assert b.observed[id := status].Keys == b.observed.Keys + {id};
    }
  }

  lemma PartitionAfterAdd(b: Book, id: Id)
    requires BookOk(b) && id !in b.jobs
    ensures Partitioned(b.jobs.Keys + {id}, b.store[id := NewTask()], b.observed.Keys, b.lost)
  {
    assert Unobserved(b.store[id := NewTask()]) == Unobserved(b.store) + {id};
  }

  lemma PartitionKept(keepTtl: nat, b: Book, op: Op)
    requires BookOk(b) && Allowed(b, op)
    ensures var c := Perform(keepTtl, b, op); Partitioned(c.jobs.Keys, c.store, c.observed.Keys, c.lost)
  {
    match op
    case Add(id, job) =>
      PartitionAfterAdd(b, id);
      assert b.jobs[id := job].Keys == b.jobs.Keys + {id};
    case Requeue(id) => if id in b.store { PartitionAfterUpdate(b, id, MarkQueued(b.store[id])); }
    case Assign(id, addr) => if id in b.store { PartitionAfterUpdate(b, id, AssignTask(b.store[id], addr, b.clock)); }
    case Cancel(id) => if id in b.store { PartitionAfterUpdate(b, id, CancelTask(b.store[id], b.clock)); }
    case CloseDone(id) => if id in b.store { PartitionAfterUpdate(b, id, CloseTask(b.store[id])); }
    case Finish(id, status) => PartitionAfterFinish(b, id, status);
    case Delete(id) => DropKeepsPartition(b, b.store - {id});
    case Reap(now) => DropKeepsPartition(b, Reaped(b.store, now, keepTtl));
    case _ =>
  }

  /**
   One operation never revives a task: a terminal status stays what it is, an
   observation is never repeated or revised, an absent task never comes back,
   what a request fixed never changes, and neither does the time at which a
   task was first started or at which an observed one finished.
   */
  ghost predicate Advances(b: Book, c: Book) {
    && (forall id :: id in b.store && id in c.store && !Live(b.store[id]) ==> c.store[id].status == b.store[id].status)
    && (forall id :: id in b.store && id in c.store && b.store[id].observed ==>
          c.store[id].observed && c.store[id].finishedAt == b.store[id].finishedAt)
    && (forall id :: id in b.store && id in c.store && b.store[id].startedAt.Some? ==>
          c.store[id].startedAt == b.store[id].startedAt)
    && (forall id :: id in b.observed ==> id in c.observed && c.observed[id] == b.observed[id])
    && (forall id :: id in b.jobs ==> id in c.jobs && c.jobs[id] == b.jobs[id])
    && (forall id :: id in b.jobs && id !in b.store ==> id !in c.store)
    && b.clock <= c.clock
  }

  /** A change of one stored task that respects its observation. */
  lemma TaskReplaced(b: Book, id: Id, t: Task)
    requires StoreOk(b) && id in b.store
    requires TaskOk(t) && t.observed == b.store[id].observed
    requires !Live(b.store[id]) ==> t.status == b.store[id].status && t.finishedAt == b.store[id].finishedAt
    requires b.store[id].startedAt.Some? ==> t.startedAt == b.store[id].startedAt
    ensures StoreOk(Put(b, id, t))
    ensures Advances(b, Put(b, id, t))
  {}

  lemma TaskFinished(b: Book, id: Id, status: Status)
    requires StoreOk(b) && Terminal(status)
    ensures StoreOk(DoFinish(b, id, status))
    ensures Advances(b, DoFinish(b, id, status))
  {}

  lemma TasksDropped(b: Book, keep: map<Id, Task>)
    requires StoreOk(b)
    requires forall id :: id in keep ==> id in b.store && keep[id] == b.store[id]
    ensures StoreOk(Drop(b, keep))
    ensures Advances(b, Drop(b, keep))
  {}

  lemma TasksUntouched(b: Book, c: Book)
    requires StoreOk(b)
    requires c.store == b.store && c.jobs == b.jobs && c.observed == b.observed && b.clock <= c.clock
    ensures StoreOk(c) && Advances(b, c)
  {}

  lemma TaskAdded(b: Book, id: Id, job: Job)
    requires StoreOk(b) && id !in b.jobs
    ensures StoreOk(b.(jobs := b.jobs[id := job], store := b.store[id := NewTask()]))
    ensures Advances(b, b.(jobs := b.jobs[id := job], store := b.store[id := NewTask()]))
  {}

  lemma StoreKept(keepTtl: nat, b: Book, op: Op)
    requires StoreOk(b) && Allowed(b, op)
    ensures StoreOk(Perform(keepTtl, b, op))
    ensures Advances(b, Perform(keepTtl, b, op))
  {
    match op
    case Add(id, job) => TaskAdded(b, id, job);
    case Requeue(id) => if id in b.store { TaskReplaced(b, id, MarkQueued(b.store[id])); }
    case Assign(id, addr) => if id in b.store { TaskReplaced(b, id, AssignTask(b.store[id], addr, b.clock)); }
    case Cancel(id) => if id in b.store { TaskReplaced(b, id, CancelTask(b.store[id], b.clock)); }
    case CloseDone(id) =>
      if id in b.store && b.store[id].doneOpen {
        TaskReplaced(b, id, CloseTask(b.store[id]));
        TasksUntouched(Put(b, id, CloseTask(b.store[id])), Perform(keepTtl, b, op));
      }
    case Finish(id, status) => TaskFinished(b, id, status);
    case Delete(id) => TasksDropped(b, b.store - {id});
    case Reap(now) => TasksDropped(b, Reaped(b.store, now, keepTtl));
    case _ => TasksUntouched(b, Perform(keepTtl, b, op));
  }

  /** The ledger's invariant is kept by every operation the daemon performs, and none goes back. */
  lemma BookKept(keepTtl: nat, b: Book, op: Op)
    requires BookOk(b) && Allowed(b, op)
    ensures BookOk(Perform(keepTtl, b, op))
    ensures Advances(b, Perform(keepTtl, b, op))
  {
    StoreKept(keepTtl, b, op);
    PartitionKept(keepTtl, b, op);
    CountersKept(keepTtl, b, op);
  }

  lemma AdvancesTransitive(a: Book, b: Book, c: Book)
    requires StoreOk(a) && StoreOk(b)
    requires Advances(a, b) && Advances(b, c)
    ensures Advances(a, c)
  {}

  /** Conservation: every admitted task is accounted for exactly once. */
  lemma Conservation(b: Book)
    requires BookOk(b)
    ensures |b.jobs| == |Unobserved(b.store)| + |b.unreported| + b.succeeded + b.failed + b.canceled + |b.lost|
  {
    ObservedSize(b.observed, b.unreported);
    DisjointSizes(Unobserved(b.store), b.observed.Keys, b.lost.Keys);
    assert |b.jobs.Keys| == |Unobserved(b.store)| + |b.observed.Keys| + |b.lost.Keys|;
  }

  lemma ObservedSize(observed: map<Id, Status>, unreported: set<Id>)
    requires unreported <= observed.Keys
    requires forall id :: id in observed ==> Terminal(observed[id])
    ensures |observed| == |unreported| + |Counted(observed, unreported, Succeeded)|
                          + |Counted(observed, unreported, Failed)| + |Counted(observed, unreported, Canceled)|
  {
    var s := Counted(observed, unreported, Succeeded);
    var f := Counted(observed, unreported, Failed);
    var c := Counted(observed, unreported, Canceled);
    DisjointSizes(s, f, c);
    assert observed.Keys - unreported == s + f + c;
    assert observed.Keys == unreported + (observed.Keys - unreported);
  }

  lemma DisjointSizes(p: set<Id>, q: set<Id>, r: set<Id>)
    requires p !! q && p !! r && q !! r
    ensures |p + q + r| == |p| + |q| + |r|
  {
    assert |p + q| == |p| + |q|;
  }
}

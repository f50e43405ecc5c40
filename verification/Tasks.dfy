/**
 The life of one build task and the store that keeps the tasks
 (internal/builddaemon/tasks.go).

 Each closure that the daemon passes to `taskStore.update` is a function on a
 task value here; the class `TaskStore` performs them in place on its map.
 */
module Tasks {
  import opened Basics

  type Id = nat
  type Addr = string

  datatype Status = Queued | Running | Succeeded | Failed | Canceled

  datatype Task = Task(
    status: Status,
    worker: Option<Addr>,
    startedAt: Option<nat>,
    finishedAt: Option<nat>,
    observed: bool,
    doneOpen: bool
  )

  /** Not terminal: the statuses that `cancel` and `markTaskQueued` act on. */
  predicate Live(t: Task) {
    t.status == Queued || t.status == Running
  }

  function NewTask(): Task {
    Task(Queued, None, None, None, false, true)
  }

  function CancelTask(t: Task, now: nat): Task {
    if Live(t) then t.(status := Canceled, finishedAt := Some(now)) else t
  }

  function MarkQueued(t: Task): Task {
    if Live(t) then t.(status := Queued, worker := None) else t
  }

  /** The guard of the assignment closure. */
  predicate Assignable(t: Task) {
    t.status != Canceled && !t.observed
  }

  function AssignTask(t: Task, addr: Addr, now: nat): Task {
    if !Assignable(t) then t
    else t.(status := Running,
            worker := Some(addr),
            startedAt := if t.startedAt.None? then Some(now) else t.startedAt)
  }

  /** The guard of the finishing closure. */
  predicate FinishApplies(t: Task, status: Status) {
    !t.observed && (t.status == Canceled ==> status == Canceled)
  }

  function FinishTask(t: Task, status: Status, now: nat): Task {
    if FinishApplies(t, status)
    then t.(status := status, finishedAt := Some(now), observed := true)
    else t
  }

  function CloseTask(t: Task): Task {
    t.(doneOpen := false)
  }

  predicate Expired(t: Task, now: nat, keepTtl: nat) {
    t.finishedAt.Some? && t.finishedAt.value + keepTtl <= now
  }

  /** What every stored task satisfies at all times. */
  predicate TaskOk(t: Task) {
    && (t.finishedAt.Some? <==> !Live(t))
    && (t.status == Queued ==> t.worker.None?)
    && (t.status == Running ==> t.worker.Some? && t.startedAt.Some?)
    && (t.observed ==> !Live(t))
    && (t.status == Succeeded || t.status == Failed ==> t.observed)
  }

  function Reaped(store: map<Id, Task>, now: nat, keepTtl: nat): map<Id, Task> {
    map id | id in store && !Expired(store[id], now, keepTtl) :: store[id]
  }

  /** The closures keep `TaskOk`, and a terminal status never changes again. */
  lemma TaskClosuresKeepShape(t: Task, addr: Addr, status: Status, now: nat)
    requires TaskOk(t)
    requires status != Queued && status != Running
    ensures TaskOk(CancelTask(t, now)) && TaskOk(MarkQueued(t)) && TaskOk(AssignTask(t, addr, now))
    ensures TaskOk(FinishTask(t, status, now)) && TaskOk(CloseTask(t))
    ensures !Live(t) ==>
              t.status == CancelTask(t, now).status == MarkQueued(t).status
              == AssignTask(t, addr, now).status == FinishTask(t, status, now).status == CloseTask(t).status
  {}

  /** The daemon's in-memory store; every method is one critical section. */
  class TaskStore {
    var tasks: map<Id, Task>

    constructor ()
      ensures tasks == map[]
    {
      tasks := map[];
    }

    method Add(id: Id, t: Task)
      modifies this
      ensures tasks == old(tasks)[id := t]
    {
      tasks := tasks[id := t];
    }

    method Get(id: Id) returns (r: Option<Task>)
      ensures r.Some? <==> id in tasks
      ensures r.Some? ==> r.value == tasks[id]
    {
      r := if id in tasks then Some(tasks[id]) else None;
    }

    /** `cancelFunc` tells the caller to cancel the context afterwards, outside the lock. */
    method Cancel(id: Id, now: nat) returns (snapshot: Option<Task>, cancelFunc: bool)
      modifies this
      ensures tasks == if id in old(tasks) then old(tasks)[id := CancelTask(old(tasks)[id], now)] else old(tasks)
      ensures cancelFunc <==> id in old(tasks) && Live(old(tasks)[id])
      ensures snapshot == if id in tasks then Some(tasks[id]) else None
    {
      cancelFunc := false;
      if id !in tasks {
        return None, false;
      }
      var t := tasks[id];
      if t.status == Queued || t.status == Running {
        t := t.(status := Canceled, finishedAt := Some(now));
        cancelFunc := true;
      }
      tasks := tasks[id := t];
      snapshot := Some(t);
    }

    method MarkTaskQueued(id: Id)
      modifies this
      ensures tasks == if id in old(tasks) then old(tasks)[id := MarkQueued(old(tasks)[id])] else old(tasks)
    {
      if id in tasks && (tasks[id].status == Queued || tasks[id].status == Running) {
        tasks := tasks[id := tasks[id].(status := Queued, worker := None)];
      }
    }

    method Assign(id: Id, addr: Addr, now: nat) returns (ok: bool)
      modifies this
      ensures tasks == if id in old(tasks) then old(tasks)[id := AssignTask(old(tasks)[id], addr, now)] else old(tasks)
      ensures ok <==> id in old(tasks) && Assignable(old(tasks)[id])
    {
      ok := false;
      if id in tasks && tasks[id].status != Canceled && !tasks[id].observed {
        var t := tasks[id];
        ok := true;
        if t.startedAt.None? {
          t := t.(startedAt := Some(now));
        }
        tasks := tasks[id := t.(status := Running, worker := Some(addr))];
      }
    }

    /** `applied` tells the caller to report the outcome afterwards, outside the lock. */
    method Finish(id: Id, status: Status, now: nat) returns (applied: bool)
      modifies this
      ensures tasks == if id in old(tasks) then old(tasks)[id := FinishTask(old(tasks)[id], status, now)]
              else old(tasks)
      ensures applied <==> id in old(tasks) && FinishApplies(old(tasks)[id], status)
    {
      applied := false;
      if id !in tasks || tasks[id].observed {
        return;
      }
      if tasks[id].status == Canceled && status != Canceled {
        return;
      }
      tasks := tasks[id := tasks[id].(status := status, finishedAt := Some(now), observed := true)];
      applied := true;
    }

    method Delete(id: Id) returns (snapshot: Option<Task>)
      modifies this
      ensures tasks == old(tasks) - {id}
      ensures snapshot == if id in old(tasks) then Some(old(tasks)[id]) else None
    {
      if id !in tasks {
        return None;
      }
      snapshot := Some(tasks[id]);
      tasks := tasks - {id};
    }

    /** Walks the map in no particular order, deleting as it goes. */
    method DeleteExpired(now: nat, keepTtl: nat) returns (expired: map<Id, Task>)
      modifies this
      ensures tasks == Reaped(old(tasks), now, keepTtl)
      ensures expired == old(tasks) - tasks.Keys
    {
      var todo := tasks.Keys;
      expired := map[];
      while todo != {}
        invariant todo <= old(tasks).Keys
        invariant tasks == map id | id in old(tasks)
                  && (id in todo || !Expired(old(tasks)[id], now, keepTtl)) :: old(tasks)[id]
        invariant expired == map id | id in old(tasks) && id !in todo
                  && Expired(old(tasks)[id], now, keepTtl) :: old(tasks)[id]
        decreases |todo|
      {
        var id :| id in todo;
        todo := todo - {id};
        if tasks[id].finishedAt.Some? && tasks[id].finishedAt.value + keepTtl <= now {
          expired := expired[id := tasks[id]];
          tasks := tasks - {id};
        }
      }
    }
  }
}

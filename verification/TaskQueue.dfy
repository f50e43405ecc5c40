/**
 The queue of one build mode (internal/builddaemon/mode_scheduler.go), with the
 history of what was pushed and handed out.
 */
module TaskQueue {
  import opened Tasks

  datatype Queue = Queue(ids: seq<Id>, closed: bool, pushed: seq<Id>, popped: seq<Id>)

  function NewQueue(): Queue {
    Queue([], false, [], [])
  }

  function Push(q: Queue, id: Id): Queue {
    if q.closed then q else q.(ids := q.ids + [id], pushed := q.pushed + [id])
  }

  /** `pop` waits until this holds or the queue is closed. */
  predicate Ready(q: Queue) {
    !q.closed && q.ids != []
  }

  function Pop(q: Queue): Queue
    requires Ready(q)
  {
    q.(ids := q.ids[1..], popped := q.popped + [q.ids[0]])
  }

  function Close(q: Queue): Queue {
    q.(ids := [], closed := true)
  }

  /** What was handed out is a prefix of what was pushed; an open queue holds exactly the rest. */
  predicate Fifo(q: Queue) {
    if q.closed then q.ids == [] && q.popped <= q.pushed
    else q.pushed == q.popped + q.ids
  }

  lemma FifoKept(q: Queue, id: Id)
    requires Fifo(q)
    ensures Fifo(Push(q, id)) && Fifo(Close(q))
    ensures Ready(q) ==> Fifo(Pop(q))
  {
    if Ready(q) {
      assert q.popped + q.ids == (q.popped + [q.ids[0]]) + q.ids[1..];
    }
    if !q.closed {
      assert (q.popped + q.ids) + [id] == q.popped + (q.ids + [id]);
    }
  }

  class BuildTaskQueue {
    var ids: seq<Id>
    var closed: bool
    ghost var pushed: seq<Id>
    ghost var popped: seq<Id>

    ghost function Value(): Queue
      reads this
    {
      Queue(ids, closed, pushed, popped)
    }

    constructor ()
      ensures Value() == NewQueue()
    {
      ids, closed, pushed, popped := [], false, [], [];
    }

    /** Refused once the queue is closed. */
    method PushId(id: Id) returns (ok: bool)
      requires Fifo(Value())
      modifies this
      ensures Value() == Push(old(Value()), id) && Fifo(Value())
      ensures ok <==> !old(closed)
    {
      FifoKept(Value(), id);
      if closed {
        return false;
      }
      ids, pushed := ids + [id], pushed + [id];
      ok := true;
    }

    /** Called in a state in which the condition wait has ended. */
    method PopId() returns (id: Id, ok: bool)
      requires Fifo(Value())
      requires ids != [] || closed
      modifies this
      ensures ok <==> Ready(old(Value()))
      ensures ok ==> Value() == Pop(old(Value())) && [id] == old(ids)[..1]
      ensures !ok ==> Value() == old(Value())
      ensures Fifo(Value())
    {
      FifoKept(Value(), 0);
      if closed {
        return 0, false;
      }
      id := ids[0];
      ids, popped := ids[1..], popped + [id];
      ok := true;
    }

    method CloseQueue()
      requires Fifo(Value())
      modifies this
      ensures Value() == Close(old(Value())) && Fifo(Value())
    {
      FifoKept(Value(), 0);
      closed := true;
      ids := [];
    }
  }
}

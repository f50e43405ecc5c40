/** Tasks that the reaper deletes before anyone observed them. */
module Reaping {
  import opened Tasks
  import opened Ledger
  import opened Daemon
  import opened Semaphores
  import opened Ownership
  import opened Lifecycle
  import opened RunnerCalls
  import opened DaemonTheorems
  import opened Reachability

  // ------------------------------------------------------------ when nothing is lost

  /** A cancellation that is not concluded yet is older than the keep time. */
  ghost predicate Overdue(cfg: Config, s: State, now: nat, id: Id) {
    && id in s.book.store && !s.book.store[id].observed && Awaited(s.cancels, s.sweep, id)
    && Expired(s.book.store[id], now, cfg.keepTtl)
  }

  lemma DeletedIsSettled(cfg: Config, s: State)
    requires Inv(cfg, s) && s.adm.RefusedDelete?
    ensures s.adm.id in s.book.store ==> s.book.store[s.adm.id].observed
  {
    hide SemOk, OwnOk, CallInv;
  }

  /** Only the reaper deletes a task that nobody observed. */
  lemma OnlyReapLoses(cfg: Config, s: State, ev: Event)
    requires Inv(cfg, s) && Enabled(cfg, s, ev) && !ev.ReapEv?
    ensures Next(cfg, s, ev).book.lost == s.book.lost
  {
    hide Inv, Next, EffectOf, ApplyEffect;
    BookFollows(cfg, s, ev);
    if ev.AdmRefuse? && s.adm.RefusedDelete? {
      DeletedIsSettled(cfg, s);
      assert Gone(s.book.store, s.book.store - {s.adm.id}) == map[];
    } else {
      OpDeletesNothing(cfg, s, ev);
      LostFrame(cfg.keepTtl, s.book, OpOf(cfg, s, ev));
    }
  }

  lemma OpDeletesNothing(cfg: Config, s: State, ev: Event)
    requires Enabled(cfg, s, ev) && !ev.ReapEv? && !(ev.AdmRefuse? && s.adm.RefusedDelete?)
    ensures !OpOf(cfg, s, ev).Delete? && !OpOf(cfg, s, ev).Reap?
  {}

  lemma LostFrame(keepTtl: nat, b: Book, op: Op)
    requires !op.Delete? && !op.Reap?
    ensures Perform(keepTtl, b, op).lost == b.lost
  {}

  /**
   The reaper loses exactly the tasks whose cancellation is overdue: those that
   someone still is about to conclude.
   */
  lemma ReaperLoses(cfg: Config, addrs: seq<Addr>, states: seq<State>, events: seq<Event>, i: nat, id: Id)
    requires IsRun(cfg, addrs, states, events) && i < |events|
    requires events[i].ReapEv? && id !in states[i].book.lost
    ensures id in states[i + 1].book.lost <==> Overdue(cfg, states[i], events[i].now, id)
  {
    hide BookOk, SemOk, OwnOk, LifeOk, CallInv, Awaited, EffectOf, ApplyEffect;
    assert states[i + 1] == Next(cfg, states[i], events[i]);
    if id in states[i + 1].book.lost {
      StatusShape(cfg, addrs, states, events, i, id);
      CanceledTaskIsAwaited(cfg, addrs, states, events, i, id);
    }
  }

  lemma ReapLoses(cfg: Config, addrs: seq<Addr>, states: seq<State>, events: seq<Event>, i: nat)
    requires IsRun(cfg, addrs, states, events) && i < |events| && events[i].ReapEv? && states[i].book.lost == map[]
    ensures states[i + 1].book.lost == map[] <==> forall id :: !Overdue(cfg, states[i], events[i].now, id)
  {
    hide Init, Next, Enabled, ConfigOk, Overdue;
    var lost := states[i + 1].book.lost;
    if lost == map[] {
      forall id
        ensures !Overdue(cfg, states[i], events[i].now, id)
      {
        ReaperLoses(cfg, addrs, states, events, i, id);
      }
    } else {
      var id :| id in lost;
      ReaperLoses(cfg, addrs, states, events, i, id);
    }
  }

  /** Nothing is lost up to a state of a run exactly when no reap met an overdue cancellation. */
  lemma {:induction false} NothingLostIff(cfg: Config, addrs: seq<Addr>, states: seq<State>, events: seq<Event>, n: nat)
    requires IsRun(cfg, addrs, states, events) && n < |states|
    ensures states[n].book.lost == map[] <==>
            forall i, id :: 0 <= i < n && events[i].ReapEv? ==> !Overdue(cfg, states[i], events[i].now, id)
  {
    hide Inv, Next, Enabled, Init, Overdue;
    if n == 0 {
      NothingLostYet(cfg, addrs);
    } else {
      var s, ev := states[n - 1], events[n - 1];
      NothingLostIff(cfg, addrs, states, events, n - 1);
      RunInv(cfg, addrs, states, events, n - 1);
      assert states[n - 1 + 1] == Next(cfg, s, ev);
      if ev.ReapEv? {
        if s.book.lost == map[] {
          ReapLoses(cfg, addrs, states, events, n - 1);
        } else {
          ReapForgetsNothing(cfg, s, ev);
        }
      } else {
        OnlyReapLoses(cfg, s, ev);
      }
    }
  }

  lemma NothingLostYet(cfg: Config, addrs: seq<Addr>)
    ensures Init(cfg, addrs).book.lost == map[]
  {}

  lemma ReapForgetsNothing(cfg: Config, s: State, ev: Event)
    requires Enabled(cfg, s, ev) && ev.ReapEv? && s.book.lost != map[]
    ensures Next(cfg, s, ev).book.lost != map[]
  {
    hide EffectOf, ApplyEffect;
    var id :| id in s.book.lost;
    assert id in Next(cfg, s, ev).book.lost;
  }

  // -------------------------------------------------------- no keep time is long enough

  /** A task that was canceled at time zero and is not observed is lost when its keep time is over. */
  lemma BookLoses(keepTtl: nat, b: Book, id: Id, job: Job)
    requires b.store == map[] && b.clock == 0
    ensures var canceled := Perform(keepTtl, Perform(keepTtl, b, Add(id, job)), Cancel(id));
      id in Perform(keepTtl, canceled.(clock := keepTtl), Reap(keepTtl)).lost
  {
    var added := Perform(keepTtl, b, Add(id, job));
    assert added.store[id] == NewTask();
    var canceled := Perform(keepTtl, added, Cancel(id));
    assert Expired(canceled.store[id], keepTtl, keepTtl) && !canceled.store[id].observed;
  }

  lemma CancelAtOnce(cfg: Config, addrs: seq<Addr>, id: Id, job: Job) returns (events: seq<Event>, s: State)
    requires ConfigOk(cfg) && ValidAddrs(cfg, addrs) && job.steps >= 1 && (Explicit(cfg) ==> job.mode in cfg.modes)
    ensures Reaches(cfg, addrs, events, s)
    ensures s.book == Perform(cfg.keepTtl, Perform(cfg.keepTtl, EmptyBook(), Add(id, job)), Cancel(id))
  {
    hide Reaches, EffectOf, ApplyEffect, Perform, Replace, CancelsAfter;
    ReachStart(cfg, addrs);
    var s0 := Init(cfg, addrs);
    ReachNext(cfg, addrs, [], s0, AdmCheck);
    var s1 := Next(cfg, s0, AdmCheck);
    ReachNext(cfg, addrs, [] + [AdmCheck], s1, AdmAdd(id, job));
    var s2 := Next(cfg, s1, AdmAdd(id, job));
    ReachNext(cfg, addrs, [] + [AdmCheck] + [AdmAdd(id, job)], s2, CancelEv(id));
    s := Next(cfg, s2, CancelEv(id));
    events := [] + [AdmCheck] + [AdmAdd(id, job)] + [CancelEv(id)];
  }

  /**
   Under every configuration, whatever its keep time, the reaper can delete a
   canceled task before anyone observes it.
   */
  lemma ReaperCanLoseATask(cfg: Config, addrs: seq<Addr>) returns (events: seq<Event>, s: State)
    requires ConfigOk(cfg) && ValidAddrs(cfg, addrs)
    ensures Reaches(cfg, addrs, events, s) && s.book.lost != map[]
  {
    hide Reaches, EffectOf, ApplyEffect, Perform;
    var id, job := 7, Job(cfg.defaultMode, 1, 0);
    events, s := CancelAtOnce(cfg, addrs, id, job);
    CancelKeepsTime(cfg.keepTtl, id, job);
    events, s := TimePasses(cfg, addrs, events, s, cfg.keepTtl);
    BookLoses(cfg.keepTtl, EmptyBook(), id, job);
    ReachNext(cfg, addrs, events, s, ReapEv(cfg.keepTtl));
    events, s := events + [ReapEv(cfg.keepTtl)], Next(cfg, s, ReapEv(cfg.keepTtl));
    assert id in s.book.lost;
  }

  lemma CancelKeepsTime(keepTtl: nat, id: Id, job: Job)
    ensures Perform(keepTtl, Perform(keepTtl, EmptyBook(), Add(id, job)), Cancel(id)).clock == 0
  {}
}

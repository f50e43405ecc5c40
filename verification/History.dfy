/** How a goroutine came to be where it is. */
module History {
  import opened Tasks
  import opened Ledger
  import opened Daemon
  import opened Ownership
  import opened Lifecycle

  /** A step of the daemon that is not the goroutine's own leaves it where it is, unless it starts or retires it. */
  lemma ProcElsewhere(cfg: Config, s: State, ev: Event, p: Pid)
    requires Enabled(cfg, s, ev) && p in Next(cfg, s, ev).procs && !(ev.ProcEv? && ev.p == p)
    ensures var pc := Next(cfg, s, ev).procs[p];
      pc.Starting? || pc.Exited? || (p in s.procs && s.procs[p] == pc)
  {
    hide EffectOf, Perform, OpOf;
    if ev.ProcEv? {
      ProcFrame(cfg, s, ev.p, ev.a);
    } else if Aside(ev) {
      AsideFrame(cfg, s, ev);
    }
  }

  /** Event `i` is the goroutine's own and took it to `pc`. */
  ghost predicate CameBy(cfg: Config, states: seq<State>, events: seq<Event>, i: nat, p: Pid, pc: Pc)
    requires i < |events| < |states|
  {
    && events[i].ProcEv? && events[i].p == p && p in states[i].procs && Busy(states[i].procs[p])
    && EffectOf(cfg, states[i], p, states[i].procs[p], events[i].a).Some?
    && EffectOf(cfg, states[i], p, states[i].procs[p], events[i].a).value.pc == pc
  }

  /** A goroutine that works on a task was taken to where it is by a step of its own. */
  lemma {:induction false} LastStep(cfg: Config, addrs: seq<Addr>, states: seq<State>, events: seq<Event>, j: nat,
                                    p: Pid)
    returns (i: nat)
    requires IsRun(cfg, addrs, states, events) && j < |states| && p in states[j].procs
    requires Busy(states[j].procs[p]) && !states[j].procs[p].Starting?
    ensures i < j <= |events| < |states| && CameBy(cfg, states, events, i, p, states[j].procs[p])
    decreases j
  {
    hide Init, EffectOf, Next;
    if j == 0 {
      AllIdle(cfg, addrs);
    }
    i := j - 1;
    assert states[i + 1] == Next(cfg, states[i], events[i]);
    if events[i].ProcEv? && events[i].p == p {
      ProcFrame(cfg, states[i], p, events[i].a);
    } else {
      ProcElsewhere(cfg, states[i], events[i], p);
      i := LastStep(cfg, addrs, states, events, i, p);
    }
  }

  lemma AllIdle(cfg: Config, addrs: seq<Addr>)
    ensures forall p :: p in Init(cfg, addrs).procs ==> Init(cfg, addrs).procs[p].Idle?
  {}

  lemma CtxStaysDone(cfg: Config, s: State, ev: Event)
    requires Enabled(cfg, s, ev)
    ensures s.ctxDone <= Next(cfg, s, ev).ctxDone
  {
    hide EffectOf, Perform, OpOf;
    if ev.ProcEv? {
      ProcFrame(cfg, s, ev.p, ev.a);
    }
  }

  /** A context that has ended stays so. */
  lemma {:induction false} CtxDoneForGood(cfg: Config, addrs: seq<Addr>, states: seq<State>, events: seq<Event>, i: nat,
                                          j: nat)
    requires IsRun(cfg, addrs, states, events) && i <= j < |states|
    ensures states[i].ctxDone <= states[j].ctxDone
    decreases j
  {
    hide Init, Enabled, Next;
    if i < j {
      CtxDoneForGood(cfg, addrs, states, events, i, j - 1);
      assert states[j - 1 + 1] == Next(cfg, states[j - 1], events[j - 1]);
      CtxStaysDone(cfg, states[j - 1], events[j - 1]);
    }
  }
}

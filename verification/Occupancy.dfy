/**
 The capacity of a worker address. The semaphore belongs to a slot object, so
 the bound carries over to the address exactly as long as the address keeps one
 slot: while it stays in the pool without a gap.
 */
module Occupancy {
  import opened Tasks
  import opened Ledger
  import opened Daemon
  import opened Semaphores
  import opened Ownership
  import opened Lifecycle
  import opened RunnerCalls
  import opened DaemonTheorems

  /** Slot `k` is the only one with this address, and it is in the pool. */
  ghost predicate SoleSlot(slots: seq<Slot>, pool: seq<nat>, addr: Addr, k: nat) {
    && k < |slots| && slots[k].addr == addr && k in pool
    && (forall i :: 0 <= i < |slots| && slots[i].addr == addr ==> i == k)
  }

  lemma {:induction false} NoSecondSlot(slots: seq<Slot>, pool: seq<nat>, addrs: seq<Addr>, addr: Addr)
    requires Lookup(slots, pool, addr).Some?
    ensures forall i :: |slots| <= i < |Replace(slots, pool, addrs).0| ==> Replace(slots, pool, addrs).0[i].addr != addr
  {
    if addrs != [] {
      NoSecondSlot(slots, pool, addrs[..|addrs| - 1], addr);
    }
  }

  /** An address that is asked for again keeps its slot and what is in it. */
  lemma SoleSlotKept(slots: seq<Slot>, pool: seq<nat>, addrs: seq<Addr>, addr: Addr, k: nat)
    requires SoleSlot(slots, pool, addr, k) && addr in addrs
    requires forall i :: 0 <= i < |pool| ==> pool[i] < |slots|
    ensures SoleSlot(Replace(slots, pool, addrs).0, Replace(slots, pool, addrs).1, addr, k)
    ensures Replace(slots, pool, addrs).0[k] == slots[k]
  {
    var (all, next) := Replace(slots, pool, addrs);
    NoSecondSlot(slots, pool, addrs, addr);
    var j :| 0 <= j < |addrs| && addrs[j] == addr;
    assert all[next[j]].addr == addr;
    assert next[j] in next;
  }

  /** `addr` occurs exactly once. */
  predicate ListedOnce(addrs: seq<Addr>, addr: Addr) {
    multiset(addrs)[addr] == 1
  }

  lemma {:induction false} FirstSlotIsSole(addrs: seq<Addr>, addr: Addr) returns (k: nat)
    requires ListedOnce(addrs, addr)
    ensures SoleSlot(Replace([], [], addrs).0, Replace([], [], addrs).1, addr, k)
  {
    var front, last := addrs[..|addrs| - 1], addrs[|addrs| - 1];
    assert addrs == front + [last];
    if last == addr {
      k := |Replace([], [], front).0|;
      assert addr !in front;
      LastSlotIsSole(front, addr);
    } else {
      k := FirstSlotIsSole(front, addr);
      OtherSlotAdded(front, last, addr, k);
    }
  }

  lemma LastSlotIsSole(front: seq<Addr>, addr: Addr)
    requires addr !in front
    ensures SoleSlot(Replace([], [], front + [addr]).0, Replace([], [], front + [addr]).1, addr,
            |Replace([], [], front).0|)
  {
    var before := Replace([], [], front);
    assert (front + [addr])[..|front|] == front;
    assert Replace([], [], front + [addr]) == (before.0 + [Slot(addr, 0)], before.1 + [|before.0|]);
  }

  lemma OtherSlotAdded(front: seq<Addr>, last: Addr, addr: Addr, k: nat)
    requires last != addr && SoleSlot(Replace([], [], front).0, Replace([], [], front).1, addr, k)
    ensures SoleSlot(Replace([], [], front + [last]).0, Replace([], [], front + [last]).1, addr, k)
  {
    var before := Replace([], [], front);
    assert (front + [last])[..|front|] == front;
    assert Replace([], [], front + [last]) == (before.0 + [Slot(last, 0)], before.1 + [|before.0|]);
  }

  /** Every refresh of the pool in this run still names the address. */
  predicate Stays(ev: Event, addr: Addr) {
    && (ev.RefreshEv? ==> addr in ev.addrs)
    && (ev.ProcEv? && ev.a.RefreshPool? && ev.a.addrs.Some? ==> addr in ev.a.addrs.value)
  }

  lemma SemKeepsSole(slots: seq<Slot>, pool: seq<nat>, sem: Sem, addr: Addr, k: nat)
    requires SoleSlot(slots, pool, addr, k)
    ensures SoleSlot(SlotsAfter(slots, sem), pool, addr, k)
  {}

  lemma RefreshActs(cfg: Config, s: State, p: Pid, pc: Pc, a: Act)
    requires EffectOf(cfg, s, p, pc, a).Some?
    ensures EffectOf(cfg, s, p, pc, a).value.refresh.Some? ==>
            a == RefreshPool(EffectOf(cfg, s, p, pc, a).value.refresh)
  {}

  lemma NextKeepsSole(cfg: Config, s: State, ev: Event, addr: Addr, k: nat)
    requires SoleSlot(s.slots, s.pool, addr, k) && PoolOk(s) && Enabled(cfg, s, ev) && Stays(ev, addr)
    ensures SoleSlot(Next(cfg, s, ev).slots, Next(cfg, s, ev).pool, addr, k)
  {
    hide EffectOf, Perform, OpOf, SoleSlot, SlotsAfter, Replace, CallsAfter;
    if ev.ProcEv? {
      var e := EffectOf(cfg, s, ev.p, s.procs[ev.p], ev.a).value;
      SemKeepsSole(s.slots, s.pool, e.sem, addr, k);
      RefreshActs(cfg, s, ev.p, s.procs[ev.p], ev.a);
      if e.refresh.Some? {
        SoleSlotKept(SlotsAfter(s.slots, e.sem), s.pool, e.refresh.value, addr, k);
      }
    } else if ev.RefreshEv? {
      SoleSlotKept(s.slots, s.pool, ev.addrs, addr, k);
    } else {
      assert Next(cfg, s, ev).slots == s.slots && Next(cfg, s, ev).pool == s.pool;
    }
  }

  lemma {:induction false} RunKeepsSole(cfg: Config, addrs: seq<Addr>, states: seq<State>, events: seq<Event>, i: nat,
                                        addr: Addr, k: nat)
    requires IsRun(cfg, addrs, states, events) && i < |states|
    requires SoleSlot(states[0].slots, states[0].pool, addr, k)
    requires forall j :: 0 <= j < i ==> Stays(events[j], addr)
    ensures SoleSlot(states[i].slots, states[i].pool, addr, k)
    decreases i
  {
    hide Inv, Next, Enabled, SoleSlot, Init;
    if i > 0 {
      RunKeepsSole(cfg, addrs, states, events, i - 1, addr, k);
      RunInv(cfg, addrs, states, events, i - 1);
      InvPool(cfg, states[i - 1]);
      assert states[i - 1 + 1] == Next(cfg, states[i - 1], events[i - 1]);
      NextKeepsSole(cfg, states[i - 1], events[i - 1], addr, k);
    }
  }

  lemma InvPool(cfg: Config, s: State)
    requires Inv(cfg, s)
    ensures PoolOk(s)
  {
    hide BookOk, OwnOk, LifeOk, CallInv;
  }

  /** The goroutines that occupy the worker at this address. */
  ghost function OnAddress(s: State, addr: Addr): set<Pid> {
    set p | p in s.procs && (s.procs[p].Assigning? || s.procs[p].Building? || s.procs[p].FreeingSlot?)
            && s.procs[p].slot < |s.slots| && s.slots[s.procs[p].slot].addr == addr
  }

  /**
   A worker address that was listed once at the start and has stayed in the
   pool ever since never has more builds than its configured concurrency.
   */
  lemma AddressWithinCapacity(cfg: Config, addrs: seq<Addr>, states: seq<State>, events: seq<Event>, i: nat, addr: Addr)
    requires IsRun(cfg, addrs, states, events) && i < |states| && ListedOnce(addrs, addr)
    requires forall j :: 0 <= j < i ==> Stays(events[j], addr)
    ensures |OnAddress(states[i], addr)| <= cfg.slotCap
  {
    hide BookOk, OwnOk, LifeOk, CallInv, Next, Enabled, Replace;
    var k := FirstSlotIsSole(addrs, addr);
    RunKeepsSole(cfg, addrs, states, events, i, addr, k);
    RunInv(cfg, addrs, states, events, i);
    assert OnAddress(states[i], addr) == SlotHolders(states[i].procs, k);
  }
}

/**
 How many builds one worker address can have. The bound is the concurrency for
 each slot object that the sequence of address lists makes for the address, and
 what the daemon runs at once; for every sequence of lists there is a run that
 reaches it.
 */
module Crowding {
  import opened Basics
  import opened Tasks
  import opened Ledger
  import opened Daemon
  import opened Semaphores
  import opened Ownership
  import opened Lifecycle
  import opened RunnerCalls
  import opened DaemonTheorems
  import opened Occupancy
  import opened Reachability
  import opened Sums

  // -------------------------------------------------------------- slots of an address

  function CountAt(slots: seq<Slot>, addr: Addr): nat {
    if slots == [] then 0
    else CountAt(slots[..|slots| - 1], addr) + (if slots[|slots| - 1].addr == addr then 1 else 0)
  }

  function UsedAt(slots: seq<Slot>, addr: Addr): nat {
    if slots == [] then 0
    else UsedAt(slots[..|slots| - 1], addr) + (if slots[|slots| - 1].addr == addr then slots[|slots| - 1].used else 0)
  }

  /** How many slots the lists make: each time the address comes in, one for each time it is listed. */
  function Made(lists: seq<seq<Addr>>, addr: Addr): nat {
    if lists == [] then 0
    else
      var front, last := lists[..|lists| - 1], lists[|lists| - 1];
      Made(front, addr) + (if front != [] && addr in front[|front| - 1] then 0 else multiset(last)[addr])
  }

  lemma ReplaceSnoc(slots: seq<Slot>, pool: seq<nat>, addrs: seq<Addr>, last: Addr)
    ensures var (all, next) := Replace(slots, pool, addrs);
      match Lookup(slots, pool, last)
      case Some(i) => Replace(slots, pool, addrs + [last]) == (all, next + [i])
      case None => Replace(slots, pool, addrs + [last]) == (all + [Slot(last, 0)], next + [|all|])
  {
    assert (addrs + [last])[..|addrs|] == addrs;
  }

  lemma CountSnoc(slots: seq<Slot>, slot: Slot, addr: Addr)
    ensures CountAt(slots + [slot], addr) == CountAt(slots, addr) + (if slot.addr == addr then 1 else 0)
  {
    assert (slots + [slot])[..|slots|] == slots;
  }

  /** Replacing adds a slot for each mention of an address that has none in the pool. */
  lemma {:induction false} ReplaceCounts(slots: seq<Slot>, pool: seq<nat>, addrs: seq<Addr>, addr: Addr)
    ensures CountAt(Replace(slots, pool, addrs).0, addr)
         == CountAt(slots, addr) + (if Lookup(slots, pool, addr).Some? then 0 else multiset(addrs)[addr])
  {
    hide CountAt, Lookup;
    if addrs != [] {
      var front, last := addrs[..|addrs| - 1], addrs[|addrs| - 1];
      assert addrs == front + [last];
      ReplaceCounts(slots, pool, front, addr);
      ReplaceSnoc(slots, pool, front, last);
      CountSnoc(Replace(slots, pool, front).0, Slot(last, 0), addr);
    }
  }

  lemma {:induction false} NewSlotsInPool(slots: seq<Slot>, pool: seq<nat>, addrs: seq<Addr>, i: nat)
    requires |slots| <= i < |Replace(slots, pool, addrs).0|
    ensures i in Replace(slots, pool, addrs).1
  {
    var front := addrs[..|addrs| - 1];
    var before, after := Replace(slots, pool, front), Replace(slots, pool, addrs);
    if i < |before.0| {
      NewSlotsInPool(slots, pool, front, i);
      assert before.1 <= after.1;
    } else {
      assert after.1[|after.1| - 1] == i;
    }
  }

  /** The pool is what was asked for last. */
  ghost predicate Lists(s: State, last: seq<Addr>) {
    |s.pool| == |last| && forall j :: 0 <= j < |last| ==> s.pool[j] < |s.slots| && s.slots[s.pool[j]].addr == last[j]
  }

  lemma LookupListed(s: State, last: seq<Addr>, addr: Addr)
    requires Lists(s, last)
    ensures Lookup(s.slots, s.pool, addr).Some? <==> addr in last
  {
    if Lookup(s.slots, s.pool, addr).Some? {
      var j :| 0 <= j < |s.pool| && s.pool[j] == Lookup(s.slots, s.pool, addr).value;
      assert last[j] == addr;
    }
    if addr in last {
      var j :| 0 <= j < |last| && last[j] == addr;
    }
  }

  lemma SnocLists(lists: seq<seq<Addr>>, l: seq<Addr>, addr: Addr)
    requires lists != []
    ensures Made(lists + [l], addr) == Made(lists, addr) + (if addr in lists[|lists| - 1] then 0 else multiset(l)[addr])
  {
    assert (lists + [l])[..|lists|] == lists;
  }

  /** The pool lists what was asked for last, and the address has as many slots as the lists made. */
  ghost predicate Counted(s: State, lists: seq<seq<Addr>>, addr: Addr) {
    lists != [] && Lists(s, lists[|lists| - 1]) && CountAt(s.slots, addr) == Made(lists, addr)
  }

  /** A replacement of the pool, whatever else the step does. */
  lemma ReplaceCounted(s: State, lists: seq<seq<Addr>>, l: seq<Addr>, addr: Addr, t: State)
    requires Counted(s, lists, addr) && (t.slots, t.pool) == Replace(s.slots, s.pool, l)
    ensures Counted(t, lists + [l], addr)
  {
    ReplaceCounts(s.slots, s.pool, l, addr);
    LookupListed(s, lists[|lists| - 1], addr);
    SnocLists(lists, l, addr);
  }

  lemma {:induction false} SemCounts(slots: seq<Slot>, slots': seq<Slot>, addr: Addr)
    requires |slots| == |slots'| && forall i :: 0 <= i < |slots| ==> slots'[i].addr == slots[i].addr
    ensures CountAt(slots', addr) == CountAt(slots, addr)
  {
    if slots != [] {
      SemCounts(slots[..|slots| - 1], slots'[..|slots| - 1], addr);
    }
  }

  lemma SemCounted(s: State, lists: seq<seq<Addr>>, addr: Addr, sem: Sem)
    requires Counted(s, lists, addr)
    ensures Counted(s.(slots := SlotsAfter(s.slots, sem)), lists, addr)
  {
    hide SlotsAfter;
    SemCounts(s.slots, SlotsAfter(s.slots, sem), addr);
  }

  lemma NextCounted(cfg: Config, s: State, ev: Event, lists: seq<seq<Addr>>, addr: Addr)
    requires Counted(s, lists, addr) && Enabled(cfg, s, ev)
    ensures Counted(Next(cfg, s, ev), if Request(ev).Some? then lists + [Request(ev).value] else lists, addr)
  {
    hide EffectOf, Perform, OpOf, SlotsAfter, Replace, CallsAfter, CountAt, Made, Lists;
    var t := Next(cfg, s, ev);
    if ev.ProcEv? {
      var e := EffectOf(cfg, s, ev.p, s.procs[ev.p], ev.a).value;
      SemCounted(s, lists, addr, e.sem);
      RefreshActs(cfg, s, ev.p, s.procs[ev.p], ev.a);
      RefreshTold(cfg, s, ev.p, s.procs[ev.p], ev.a);
      if e.refresh.Some? {
        ReplaceCounted(s.(slots := SlotsAfter(s.slots, e.sem)), lists, e.refresh.value, addr, t);
      } else {
        ListsOnly(s.(slots := SlotsAfter(s.slots, e.sem)), t, lists[|lists| - 1]);
      }
    } else if ev.RefreshEv? {
      ReplaceCounted(s, lists, ev.addrs, addr, t);
    } else {
      assert t.slots == s.slots && t.pool == s.pool;
      ListsOnly(s, t, lists[|lists| - 1]);
    }
  }

  lemma RefreshTold(cfg: Config, s: State, p: Pid, pc: Pc, a: Act)
    requires EffectOf(cfg, s, p, pc, a).Some?
    ensures a.RefreshPool? ==> EffectOf(cfg, s, p, pc, a).value.refresh == a.addrs
  {}

  lemma ListsOnly(s: State, t: State, last: seq<Addr>)
    requires Lists(s, last) && t.slots == s.slots && t.pool == s.pool
    ensures Lists(t, last)
  {}

  lemma InitCounted(cfg: Config, addrs: seq<Addr>, addr: Addr)
    ensures Counted(Init(cfg, addrs), [addrs], addr)
  {
    ReplaceCounts([], [], addrs, addr);
    assert [addrs][..0] == [];
  }

  /** In every run the address has exactly as many slots as the lists asked for so far make. */
  lemma {:induction false} RunCounted(cfg: Config, addrs: seq<Addr>, states: seq<State>, events: seq<Event>, i: nat,
                                      addr: Addr)
    requires IsRun(cfg, addrs, states, events) && i < |states|
    ensures Counted(states[i], [addrs] + Requests(events[..i]), addr)
  {
    hide Init, Next, Enabled, Counted, ConfigOk, Requests;
    if i == 0 {
      InitCounted(cfg, addrs, addr);
      NoRequests();
      assert events[..0] == [] && [addrs] + [] == [addrs];
    } else {
      RunCounted(cfg, addrs, states, events, i - 1, addr);
      assert states[i - 1 + 1] == Next(cfg, states[i - 1], events[i - 1]);
      var lists := [addrs] + Requests(events[..i - 1]);
      NextCounted(cfg, states[i - 1], events[i - 1], lists, addr);
      assert events[..i] == events[..i - 1] + [events[i - 1]];
      RequestsSnoc(events[..i - 1], events[i - 1]);
      if Request(events[i - 1]).Some? {
        var l := Request(events[i - 1]).value;
        assert [addrs] + (Requests(events[..i - 1]) + [l]) == lists + [l];
      }
    }
  }

  lemma NoRequests()
    ensures Requests([]) == []
  {}

  // ------------------------------------------------------------------- upper bound

  ghost function OnFirst(s: State, addr: Addr, n: nat): set<Pid>
    requires n <= |s.slots|
  {
    if n == 0 then {}
    else OnFirst(s, addr, n - 1) + (if s.slots[n - 1].addr == addr then SlotHolders(s.procs, n - 1) else {})
  }

  lemma {:induction false} OnFirstMembers(s: State, addr: Addr, n: nat, p: Pid)
    requires n <= |s.slots|
    ensures p in OnFirst(s, addr, n) <==>
              p in s.procs && (s.procs[p].Assigning? || s.procs[p].Building? || s.procs[p].FreeingSlot?)
              && s.procs[p].slot < n && s.slots[s.procs[p].slot].addr == addr
  {
    if n > 0 {
      OnFirstMembers(s, addr, n - 1, p);
    }
  }

  lemma {:induction false} OnFirstSize(cfg: Config, s: State, addr: Addr, n: nat)
    requires SlotsOk(cfg, s.procs, s.slots) && n <= |s.slots|
    ensures |OnFirst(s, addr, n)| == UsedAt(s.slots[..n], addr)
  {
    if n > 0 {
      OnFirstSize(cfg, s, addr, n - 1);
      assert s.slots[..n][..n - 1] == s.slots[..n - 1];
      if s.slots[n - 1].addr == addr {
        var before, here := OnFirst(s, addr, n - 1), SlotHolders(s.procs, n - 1);
        forall p | p in before
          ensures p !in here
        {
          OnFirstMembers(s, addr, n - 1, p);
        }
        DisjointUnion(before, here);
      }
    }
  }

  /** The builds on an address are those in its slots. */
  lemma OnAddressSize(cfg: Config, s: State, addr: Addr)
    requires SlotsOk(cfg, s.procs, s.slots)
    ensures |OnAddress(s, addr)| == UsedAt(s.slots, addr)
  {
    hide SlotsOk, OnFirst;
    forall p
      ensures p in OnFirst(s, addr, |s.slots|) <==> p in OnAddress(s, addr)
    {
      OnFirstMembers(s, addr, |s.slots|, p);
    }
    assert OnFirst(s, addr, |s.slots|) == OnAddress(s, addr);
    OnFirstSize(cfg, s, addr, |s.slots|);
    assert s.slots[..|s.slots|] == s.slots;
  }

  lemma {:induction false} UsedWithin(slots: seq<Slot>, addr: Addr, cap: nat)
    requires forall i :: 0 <= i < |slots| ==> slots[i].used <= cap
    ensures UsedAt(slots, addr) <= cap * CountAt(slots, addr)
  {
    if slots != [] {
      UsedWithin(slots[..|slots| - 1], addr, cap);
    }
  }

  lemma SlotsWithin(cfg: Config, s: State)
    requires SlotsOk(cfg, s.procs, s.slots)
    ensures forall i :: 0 <= i < |s.slots| ==> s.slots[i].used <= cfg.slotCap
  {}

  lemma InvSlots(cfg: Config, s: State)
    requires Inv(cfg, s)
    ensures SlotsOk(cfg, s.procs, s.slots)
  {
    hide BookOk, OwnOk, LifeOk, CallInv;
  }

  /** In every run an address has at most its concurrency of builds for each slot that the lists made for it. */
  lemma BuildsWithinSlots(cfg: Config, addrs: seq<Addr>, states: seq<State>, events: seq<Event>, i: nat, addr: Addr)
    requires IsRun(cfg, addrs, states, events) && i < |states|
    ensures |OnAddress(states[i], addr)| <= cfg.slotCap * Made([addrs] + Requests(events[..i]), addr)
  {
    hide IsRun, Inv, SlotsOk, OnAddress, Requests, Lists;
    RunInv(cfg, addrs, states, events, i);
    InvSlots(cfg, states[i]);
    OnAddressSize(cfg, states[i], addr);
    SlotsWithin(cfg, states[i]);
    UsedWithin(states[i].slots, addr, cfg.slotCap);
    RunCounted(cfg, addrs, states, events, i, addr);
  }

  /** What the daemon runs at once of so many builds: one for each mode worker, or within the global limit. */
  ghost function AtOnce(cfg: Config, wanted: int): int {
    if Explicit(cfg) then (if wanted <= Total(cfg.modes) then wanted else Total(cfg.modes))
    else if cfg.globalCap > 0 && cfg.globalCap < wanted then cfg.globalCap
    else wanted
  }

  /** The daemon can run no more builds than these. */
  ghost predicate AtLimit(cfg: Config, n: int) {
    if Explicit(cfg) then n >= Total(cfg.modes) else 0 < cfg.globalCap <= n
  }

  lemma WithinLimit(cfg: Config, s: State, addr: Addr)
    requires ConfigOk(cfg) && Inv(cfg, s)
    ensures Explicit(cfg) ==> |OnAddress(s, addr)| <= |s.procs.Keys| == Total(cfg.modes)
    ensures cfg.globalCap > 0 ==> |OnAddress(s, addr)| <= s.global <= cfg.globalCap
  {
    hide BookOk, LifeOk, CallInv, ProcsOwn, QueuesOwn, AdmOwns, ClosedOk, SlotsOk, PcsOk;
    var on := OnAddress(s, addr);
    SubsetSize(on, s.procs.Keys);
    SubsetSize(on, GlobalHolders(s.procs));
    if Explicit(cfg) {
      WorkerIds(cfg.modes);
    }
  }

  /**
   In every run an address has at most its concurrency of builds for each slot
   that the lists made for it, and at most what the daemon runs at once.
   */
  lemma MostBuilds(cfg: Config, addrs: seq<Addr>, states: seq<State>, events: seq<Event>, i: nat, addr: Addr)
    requires IsRun(cfg, addrs, states, events) && i < |states|
    ensures |OnAddress(states[i], addr)| <= AtOnce(cfg, cfg.slotCap * Made([addrs] + Requests(events[..i]), addr))
  {
    hide Inv, OnAddress, Requests, Made, Init, Next, Enabled;
    BuildsWithinSlots(cfg, addrs, states, events, i, addr);
    RunInv(cfg, addrs, states, events, i);
    WithinLimit(cfg, states[i], addr);
  }

  // ------------------------------------------------------------------ it is reached

  lemma {:induction false} UsedPlusOne(slots: seq<Slot>, k: nat, addr: Addr)
    requires k < |slots| && slots[k].addr == addr
    ensures var after := slots[k := slots[k].(used := slots[k].used + 1)];
            UsedAt(after, addr) == UsedAt(slots, addr) + 1
  {
    var after := slots[k := slots[k].(used := slots[k].used + 1)];
    var n := |slots| - 1;
    if k < n {
      UsedPlusOne(slots[..n], k, addr);
      assert after[..n] == slots[..n][k := slots[k].(used := slots[k].used + 1)];
    } else {
      assert after[..n] == slots[..n];
    }
  }

  lemma {:induction false} AllFull(slots: seq<Slot>, addr: Addr, cap: nat)
    requires forall i :: 0 <= i < |slots| && slots[i].addr == addr ==> slots[i].used == cap
    ensures UsedAt(slots, addr) == cap * CountAt(slots, addr)
  {
    if slots != [] {
      AllFull(slots[..|slots| - 1], addr, cap);
    }
  }

  /** Only slots in the pool have room. */
  ghost predicate FullOutside(cfg: Config, s: State, addr: Addr) {
    forall i :: 0 <= i < |s.slots| && s.slots[i].addr == addr && i !in s.pool ==> s.slots[i].used == cfg.slotCap
  }

  /** Every goroutine is idle or builds on this address. */
  ghost predicate OnlyBuilders(s: State, addr: Addr) {
    forall p :: p in s.procs ==>
      s.procs[p].Idle?
      || (s.procs[p].Building? && s.procs[p].slot < |s.slots| && s.slots[s.procs[p].slot].addr == addr)
  }

  /** Nothing else goes on but builds on this address, one for each task there ever was. */
  ghost predicate Steady(cfg: Config, s: State, addr: Addr) {
    Tidy(cfg, s, UsedAt(s.slots, addr)) && OnlyBuilders(s, addr)
  }

  /** Below its limit the daemon has a goroutine and the global slot to spare. */
  lemma RoomForOneMore(cfg: Config, s: State, addr: Addr, n: nat) returns (p: Pid)
    requires ConfigOk(cfg) && Inv(cfg, s) && OnlyBuilders(s, addr)
    requires !AtLimit(cfg, UsedAt(s.slots, addr))
    ensures Free(cfg, s, p, n) && GlobalRoom(cfg, s)
  {
    hide BookOk, LifeOk, CallInv, ProcsOwn, QueuesOwn, AdmOwns, ClosedOk, SlotsOk, PcsOk, UsedAt;
    InvSlots(cfg, s);
    OnAddressSize(cfg, s, addr);
    var on := OnAddress(s, addr);
    assert GlobalHolders(s.procs) <= on;
    SubsetSize(GlobalHolders(s.procs), on);
    if Explicit(cfg) {
      WithinLimit(cfg, s, addr);
      if s.procs.Keys <= on {
        SubsetSize(s.procs.Keys, on);
      }
      p :| p in s.procs.Keys && p !in on;
      WorkerMode(cfg, s, p);
    } else {
      p := TaskRunner(n);
    }
  }

  lemma WorkerMode(cfg: Config, s: State, p: Pid)
    requires Staffed(cfg, s) && Explicit(cfg) && p in s.procs
    ensures p.ModeWorker? && p.mode in cfg.modes
  {}

  ghost predicate Below(cfg: Config, s: State) {
    forall i :: 0 <= i < |s.slots| ==> s.slots[i].used <= cfg.slotCap
  }

  /** The slot at position `j` of the pool is one of the address with room. */
  predicate Roomy(cfg: Config, s: State, addr: Addr, j: int) {
    && 0 <= j < |s.pool| && s.pool[j] < |s.slots|
    && s.slots[s.pool[j]].addr == addr && s.slots[s.pool[j]].used < cfg.slotCap
  }

  /** One more build comes to occupy a slot of the address. */
  lemma FillOne(cfg: Config, addrs: seq<Addr>, events: seq<Event>, s: State, addr: Addr, j: nat)
    returns (all: seq<Event>, t: State)
    requires Reaches(cfg, addrs, events, s) && Steady(cfg, s, addr) && Below(cfg, s) && FullOutside(cfg, s, addr)
    requires Roomy(cfg, s, addr, j) && !AtLimit(cfg, UsedAt(s.slots, addr))
    ensures Reaches(cfg, addrs, all, t) && Requests(all) == Requests(events)
    ensures Steady(cfg, t, addr) && Below(cfg, t) && FullOutside(cfg, t, addr)
    ensures CountAt(t.slots, addr) == CountAt(s.slots, addr) && UsedAt(t.slots, addr) == UsedAt(s.slots, addr) + 1
  {
    hide Reaches, Requests, Tidy, Free, GlobalRoom, CountAt, UsedAt, AtLimit, OnlyBuilders, Inv, ConfigOk;
    var n, k := UsedAt(s.slots, addr), s.pool[j];
    ReachedInv(cfg, addrs, events, s);
    var p := RoomForOneMore(cfg, s, addr, n);
    all, t := Occupy(cfg, addrs, events, s, n, p, j);
    OneBuilderMore(s, t, addr, p, k, n);
    UsedPlusOne(s.slots, k, addr);
    SemCounts(s.slots, t.slots, addr);
  }

  /** Builds come to occupy the address's slots until all are full or the daemon is at its limit. */
  lemma {:induction false} FillAddress(cfg: Config, addrs: seq<Addr>, events: seq<Event>, s: State, addr: Addr)
    returns (all: seq<Event>, t: State)
    requires Reaches(cfg, addrs, events, s) && Steady(cfg, s, addr) && Below(cfg, s)
    requires AtLimit(cfg, UsedAt(s.slots, addr)) || FullOutside(cfg, s, addr)
    ensures Reaches(cfg, addrs, all, t) && Requests(all) == Requests(events)
    ensures Steady(cfg, t, addr) && Below(cfg, t)
    ensures AtLimit(cfg, UsedAt(t.slots, addr)) || Full(cfg, t, addr)
    decreases cfg.slotCap * CountAt(s.slots, addr) - UsedAt(s.slots, addr)
  {
    hide Reaches, Requests, Steady, CountAt, UsedAt, AtLimit, FullOutside, Full, Roomy, Below;
    all, t := events, s;
    if !AtLimit(cfg, UsedAt(s.slots, addr)) {
      if j :| Roomy(cfg, s, addr, j) {
        RoomyBelow(cfg, s, addr, j);
        all, t := FillOne(cfg, addrs, events, s, addr, j);
        UsedBelow(cfg, t, addr);
        all, t := FillAddress(cfg, addrs, all, t, addr);
      } else {
        NoRoomIsFull(cfg, s, addr);
      }
    }
  }

  lemma RoomyBelow(cfg: Config, s: State, addr: Addr, j: int)
    requires Roomy(cfg, s, addr, j)
    ensures 0 <= j
  {}

  lemma UsedBelow(cfg: Config, s: State, addr: Addr)
    requires Below(cfg, s)
    ensures UsedAt(s.slots, addr) <= cfg.slotCap * CountAt(s.slots, addr)
  {
    UsedWithin(s.slots, addr, cfg.slotCap);
  }

  /** Every slot of the address is full. */
  ghost predicate Full(cfg: Config, s: State, addr: Addr) {
    forall i :: 0 <= i < |s.slots| && s.slots[i].addr == addr ==> s.slots[i].used == cfg.slotCap
  }

  lemma NoRoomIsFull(cfg: Config, s: State, addr: Addr)
    requires Steady(cfg, s, addr) && Below(cfg, s) && FullOutside(cfg, s, addr)
    requires forall j :: !Roomy(cfg, s, addr, j)
    ensures Full(cfg, s, addr)
  {
    forall i | 0 <= i < |s.slots| && s.slots[i].addr == addr
      ensures s.slots[i].used == cfg.slotCap
    {
      if i in s.pool {
        var j :| 0 <= j < |s.pool| && s.pool[j] == i;
        assert !Roomy(cfg, s, addr, j);
      }
    }
  }

  lemma OneBuilderMore(s: State, t: State, addr: Addr, p: Pid, k: nat, n: nat)
    requires OnlyBuilders(s, addr) && k < |s.slots| && s.slots[k].addr == addr
    requires t.procs == s.procs[p := Building(Run(n, 0, 0, {}), k)]
    requires t.slots == s.slots[k := s.slots[k].(used := s.slots[k].used + 1)]
    ensures OnlyBuilders(t, addr)
  {}

  lemma ReachedInv(cfg: Config, addrs: seq<Addr>, events: seq<Event>, s: State)
    requires Reaches(cfg, addrs, events, s)
    ensures Inv(cfg, s) && ConfigOk(cfg)
  {
    hide Inv, Init, Next, Enabled;
    var states := RunOf(cfg, addrs, events, s);
    RunInv(cfg, addrs, states, events, |events|);
  }

  lemma {:induction false} UsedAppend(slots: seq<Slot>, more: seq<Slot>, addr: Addr)
    requires forall i :: 0 <= i < |more| ==> more[i].used == 0
    ensures UsedAt(slots + more, addr) == UsedAt(slots, addr)
  {
    if more == [] {
      assert slots + more == slots;
    } else {
      var all := slots + more;
      assert all[..|all| - 1] == slots + more[..|more| - 1];
      UsedAppend(slots, more[..|more| - 1], addr);
    }
  }

  lemma ReplaceUsed(slots: seq<Slot>, pool: seq<nat>, l: seq<Addr>, addr: Addr)
    ensures UsedAt(Replace(slots, pool, l).0, addr) == UsedAt(slots, addr)
  {
    var after := Replace(slots, pool, l).0;
    var more := after[|slots|..];
    assert after == slots + more;
    UsedAppend(slots, more, addr);
  }

  /** After a replacement only new slots have room, and they are in the pool. */
  lemma RefreshLeavesRoom(cfg: Config, s: State, l: seq<Addr>, addr: Addr, t: State)
    requires (t.slots, t.pool) == Replace(s.slots, s.pool, l) && Full(cfg, s, addr)
    ensures FullOutside(cfg, t, addr)
  {
    forall i | 0 <= i < |t.slots| && t.slots[i].addr == addr && i !in t.pool
      ensures t.slots[i].used == cfg.slotCap
    {
      if i >= |s.slots| {
        NewSlotsInPool(s.slots, s.pool, l, i);
      } else {
        assert t.slots[i] == s.slots[i];
      }
    }
  }

  /** A replacement leaves the builds where they are. */
  lemma RefreshStep(cfg: Config, addrs: seq<Addr>, events: seq<Event>, s: State, addr: Addr, l: seq<Addr>)
    returns (t: State)
    requires Reaches(cfg, addrs, events, s) && Steady(cfg, s, addr) && Below(cfg, s) && ValidAddrs(cfg, l)
    ensures Reaches(cfg, addrs, events + [RefreshEv(l)], t)
    ensures Requests(events + [RefreshEv(l)]) == Requests(events) + [l]
    ensures (t.slots, t.pool) == Replace(s.slots, s.pool, l)
    ensures Steady(cfg, t, addr) && Below(cfg, t) && UsedAt(t.slots, addr) == UsedAt(s.slots, addr)
  {
    hide Reaches, Requests, EffectOf, Perform, Replace, UsedAt;
    ReachNext(cfg, addrs, events, s, RefreshEv(l));
    RequestsSnoc(events, RefreshEv(l));
    ReplaceUsed(s.slots, s.pool, l, addr);
    t := Next(cfg, s, RefreshEv(l));
    assert s.slots <= t.slots;
  }

  lemma StartSteady(cfg: Config, addrs: seq<Addr>, addr: Addr)
    ensures var s := Init(cfg, addrs); Steady(cfg, s, addr) && Below(cfg, s) && FullOutside(cfg, s, addr)
  {
    var s := Init(cfg, addrs);
    ReplaceUsed([], [], addrs, addr);
    forall i: nat | i < |s.slots|
      ensures i in s.pool
    {
      NewSlotsInPool([], [], addrs, i);
    }
  }

  /** The run asked for exactly these lists, and no more builds fit on the address. */
  ghost predicate Crowded(cfg: Config, lists: seq<seq<Addr>>, events: seq<Event>, s: State, addr: Addr) {
    && lists != [] && Reaches(cfg, lists[0], events, s) && [lists[0]] + Requests(events) == lists
    && Steady(cfg, s, addr) && Below(cfg, s)
    && (AtLimit(cfg, UsedAt(s.slots, addr)) || Full(cfg, s, addr))
  }

  /** A run asks for its lists so far; the count of slots is theirs. */
  lemma ReachCounted(cfg: Config, addrs: seq<Addr>, events: seq<Event>, s: State, addr: Addr)
    requires Reaches(cfg, addrs, events, s)
    ensures Counted(s, [addrs] + Requests(events), addr)
  {
    hide IsRun, Counted, Requests;
    var states := RunOf(cfg, addrs, events, s);
    RunCounted(cfg, addrs, states, events, |events|, addr);
    assert events[..|events|] == events;
  }

  lemma {:induction false} CrowdedRun(cfg: Config, lists: seq<seq<Addr>>, n: nat, addr: Addr)
    returns (events: seq<Event>, s: State)
    requires ConfigOk(cfg) && 0 < n <= |lists| && forall i :: 0 <= i < |lists| ==> ValidAddrs(cfg, lists[i])
    ensures Crowded(cfg, lists[..n], events, s, addr)
  {
    hide ConfigOk, Reaches, Requests, Steady, Below, UsedAt, Init, Replace, FullOutside, Full, AtLimit;
    var first := lists[0];
    var t: State;
    if n == 1 {
      ReachStart(cfg, first);
      StartSteady(cfg, first, addr);
      NoRequests();
      events, t := [], Init(cfg, first);
      assert [first] + [] == lists[..1];
    } else {
      events, t := CrowdedRun(cfg, lists, n - 1, addr);
      var before, l := t, lists[n - 1];
      t := RefreshStep(cfg, first, events, before, addr, l);
      if Full(cfg, before, addr) {
        RefreshLeavesRoom(cfg, before, l, addr, t);
      }
      events := events + [RefreshEv(l)];
      assert [first] + Requests(events) == lists[..n - 1] + [l] == lists[..n];
    }
    events, s := FillAddress(cfg, first, events, t, addr);
  }

  lemma SmallerProduct(a: nat, b: nat, c: nat)
    requires b <= c
    ensures a * b <= a * c
  {}

  /**
   For any daemon and lists there is a run that asks for exactly them and has as
   many builds on the address as its slots take or the daemon runs at once, each
   with the runner called.
   */
  lemma SlotsCanBeFilled(cfg: Config, lists: seq<seq<Addr>>, addr: Addr) returns (events: seq<Event>, s: State)
    requires ConfigOk(cfg) && lists != [] && forall i :: 0 <= i < |lists| ==> ValidAddrs(cfg, lists[i])
    ensures Reaches(cfg, lists[0], events, s) && [lists[0]] + Requests(events) == lists
    ensures |OnAddress(s, addr)| == AtOnce(cfg, cfg.slotCap * Made(lists, addr))
    ensures forall p :: p in OnAddress(s, addr) ==> s.procs[p].Building?
  {
    hide ConfigOk, Reaches, Requests, Made, UsedAt, Tidy;
    events, s := CrowdedRun(cfg, lists, |lists|, addr);
    assert lists[..|lists|] == lists;
    ReachedWithin(cfg, lists[0], events, s, addr);
    ReachedSize(cfg, lists[0], events, s, addr);
    if Full(cfg, s, addr) {
      ReachCounted(cfg, lists[0], events, s, addr);
      AllFull(s.slots, addr, cfg.slotCap);
    }
  }

  lemma ReachedSize(cfg: Config, addrs: seq<Addr>, events: seq<Event>, s: State, addr: Addr)
    requires Reaches(cfg, addrs, events, s)
    ensures |OnAddress(s, addr)| == UsedAt(s.slots, addr)
  {
    hide Inv, SlotsOk, OnAddress, Reaches;
    ReachedInv(cfg, addrs, events, s);
    InvSlots(cfg, s);
    OnAddressSize(cfg, s, addr);
  }

  lemma ReachedWithin(cfg: Config, addrs: seq<Addr>, events: seq<Event>, s: State, addr: Addr)
    requires Reaches(cfg, addrs, events, s)
    ensures |OnAddress(s, addr)| <= AtOnce(cfg, cfg.slotCap * Made([addrs] + Requests(events), addr))
  {
    hide IsRun, OnAddress, Requests, Made, AtOnce;
    var states := RunOf(cfg, addrs, events, s);
    MostBuilds(cfg, addrs, states, events, |events|, addr);
    assert events[..|events|] == events;
  }

  /** In every run that asks for these lists the address keeps within its concurrency. */
  ghost predicate Respected(cfg: Config, lists: seq<seq<Addr>>, addr: Addr)
    requires lists != []
  {
    forall events, s :: Reaches(cfg, lists[0], events, s) && [lists[0]] + Requests(events) == lists ==>
      |OnAddress(s, addr)| <= cfg.slotCap
  }

  /** The daemon runs no more builds at once than one slot takes. */
  ghost predicate Narrow(cfg: Config) {
    if Explicit(cfg) then Total(cfg.modes) <= cfg.slotCap else 0 < cfg.globalCap <= cfg.slotCap
  }

  /**
   An address keeps within its concurrency in every run that asks for given
   lists if and only if the lists make at most one slot for it or the daemon runs
   no more builds at once than one slot takes.
   */
  lemma RespectedIff(cfg: Config, lists: seq<seq<Addr>>, addr: Addr)
    requires ConfigOk(cfg) && lists != [] && forall i :: 0 <= i < |lists| ==> ValidAddrs(cfg, lists[i])
    ensures Respected(cfg, lists, addr) <==> Made(lists, addr) <= 1 || Narrow(cfg)
  {
    hide Reaches, Requests, Made, OnAddress, ConfigOk;
    var n := Made(lists, addr);
    MoreThanOne(cfg, n);
    if AtOnce(cfg, cfg.slotCap * n) <= cfg.slotCap {
      forall events, s | Reaches(cfg, lists[0], events, s) && [lists[0]] + Requests(events) == lists
        ensures |OnAddress(s, addr)| <= cfg.slotCap
      {
        ReachedWithin(cfg, lists[0], events, s, addr);
      }
    } else {
      var events, s := SlotsCanBeFilled(cfg, lists, addr);
      assert !Respected(cfg, lists, addr);
    }
  }

  lemma MoreThanOne(cfg: Config, n: nat)
    requires ConfigOk(cfg)
    ensures AtOnce(cfg, cfg.slotCap * n) <= cfg.slotCap <==> n <= 1 || Narrow(cfg)
  {
    hide Total;
    if n <= 1 {
      SmallerProduct(cfg.slotCap, n, 1);
    } else {
      SmallerProduct(cfg.slotCap, 2, n);
    }
  }

  // ---------------------------------------------------------------- two ways to fail

  function Simple(cap: nat, addr: Addr): Config {
    Config(map[], "", 0, cap, 1, 0, {addr})
  }

  /** An address that is dropped and listed again can have twice its concurrency of builds. */
  lemma GapDoublesCapacity(addr: Addr, cap: nat) returns (events: seq<Event>, s: State)
    requires cap >= 1
    ensures Reaches(Simple(cap, addr), [addr], events, s) && Requests(events) == [[], [addr]]
    ensures |OnAddress(s, addr)| == 2 * cap
  {
    hide Reaches, Requests, OnAddress;
    var lists := [[addr], [], [addr]];
    MadeOne([addr], addr);
    SnocLists([[addr]], [], addr);
    SnocLists([[addr], []], [addr], addr);
    assert [[addr]] + [[]] == [[addr], []] && [[addr], []] + [[addr]] == lists;
    events, s := SlotsCanBeFilled(Simple(cap, addr), lists, addr);
    assert Requests(events) == ([lists[0]] + Requests(events))[1..] == lists[1..];
  }

  /** So can an address that is listed twice from the start, without any refresh. */
  lemma TwiceListedDoublesCapacity(addr: Addr, cap: nat) returns (events: seq<Event>, s: State)
    requires cap >= 1
    ensures Reaches(Simple(cap, addr), [addr, addr], events, s) && Requests(events) == []
    ensures |OnAddress(s, addr)| == 2 * cap
  {
    hide Reaches, Requests, OnAddress;
    var lists := [[addr, addr]];
    MadeOne([addr, addr], addr);
    events, s := SlotsCanBeFilled(Simple(cap, addr), lists, addr);
    assert Requests(events) == ([lists[0]] + Requests(events))[1..] == lists[1..];
  }

  lemma MadeOne(l: seq<Addr>, addr: Addr)
    ensures Made([l], addr) == multiset(l)[addr]
  {
    assert [l][..0] == [];
  }
}

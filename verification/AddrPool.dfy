/**
 The pool of workers: replacing the address list while slots are occupied, and
 picking a slot in ring order (internal/buildbatch/scheduler.go; the daemon's
 pool in internal/builddaemon/scheduler.go replaces in the same way).
 */
module AddrPool {
  import opened Basics
  import opened Sorting
  import opened HashRing

  /** A worker's semaphore and the end of its cooldown. */
  class Slot {
    const addr: string
    const capacity: nat
    var used: nat
    var cooldownUntil: nat

    constructor (addr: string, capacity: nat)
      ensures this.addr == addr && this.capacity == capacity
      ensures used == 0 && cooldownUntil == 0
    {
      this.addr, this.capacity := addr, capacity;
      used, cooldownUntil := 0, 0;
    }

    predicate Free()
      reads this
    {
      used < capacity
    }

    predicate Ready(now: nat)
      reads this
    {
      cooldownUntil <= now
    }
  }

  function AddrList(slots: seq<Slot>): seq<string> {
    seq(|slots|, i requires 0 <= i < |slots| => slots[i].addr)
  }

  /** The slot that stands for an address: the last one listed under it. */
  function Latest(slots: seq<Slot>, addr: string): (r: Option<Slot>)
    ensures r.Some? ==> r.value in slots && r.value.addr == addr
    ensures r.None? <==> addr !in AddrList(slots)
  {
    if slots == [] then None
    else
      var last := slots[|slots| - 1];
      assert AddrList(slots) == AddrList(slots[..|slots| - 1]) + [last.addr];
      if last.addr == addr then Some(last) else Latest(slots[..|slots| - 1], addr)
  }

  /** Position `k` is the last one with this address. */
  ghost predicate LastWith(slots: seq<Slot>, addr: string, k: nat) {
    k < |slots| && slots[k].addr == addr && forall j :: k < j < |slots| ==> slots[j].addr != addr
  }

  lemma {:induction false} LatestIsLast(slots: seq<Slot>, addr: string)
    requires Latest(slots, addr).Some?
    ensures exists k: nat :: LastWith(slots, addr, k) && slots[k] == Latest(slots, addr).value
  {
    var n := |slots| - 1;
    if slots[n].addr == addr {
      assert LastWith(slots, addr, n);
    } else {
      LatestIsLast(slots[..n], addr);
      var k: nat :| LastWith(slots[..n], addr, k) && slots[..n][k] == Latest(slots[..n], addr).value;
      assert forall j :: 0 <= j < n ==> slots[..n][j] == slots[j];
      assert LastWith(slots, addr, k);
    }
  }

  /** What a replace does to the list of slots. */
  ghost predicate Replaced(before: seq<Slot>, addrs: seq<string>, after: seq<Slot>) {
    && AddrList(after) == Sort(addrs, StrLe)
    && forall s :: s in after ==> Latest(before, s.addr) in {None, Some(s)}
  }

  /** Insertion by address; slots with equal addresses may end up in any order. */
  method InsertSlot(slot: Slot, sorted: seq<Slot>) returns (r: seq<Slot>)
    requires Sorted(AddrList(sorted), StrLe)
    ensures Sorted(AddrList(r), StrLe)
    ensures multiset(r) == multiset(sorted) + multiset{slot}
    ensures multiset(AddrList(r)) == multiset(AddrList(sorted)) + multiset{slot.addr}
  {
    var i := 0;
    while i < |sorted| && StrLe(sorted[i].addr, slot.addr)
      invariant 0 <= i <= |sorted|
      invariant forall k :: 0 <= k < i ==> StrLe(sorted[k].addr, slot.addr)
    {
      i := i + 1;
    }
    r := sorted[..i] + [slot] + sorted[i..];
    ghost var names := AddrList(sorted);
    assert sorted == sorted[..i] + sorted[i..] && names == names[..i] + names[i..];
    assert AddrList(r) == names[..i] + [slot.addr] + names[i..];
    SortedSplice(names, i, slot.addr);
  }

  lemma SortedSplice(names: seq<string>, i: nat, name: string)
    requires i <= |names| && Sorted(names, StrLe)
    requires forall k :: 0 <= k < i ==> StrLe(names[k], name)
    requires i < |names| ==> !StrLe(names[i], name)
    ensures Sorted(names[..i] + [name] + names[i..], StrLe)
  {
    StrLeTotal();
    forall k | i <= k < |names|
      ensures StrLe(name, names[k])
    {
      assert StrLe(name, names[i]);
      assert k == i || StrLe(names[i], names[k]);
    }
  }

  method SortSlots(slots: seq<Slot>) returns (r: seq<Slot>)
    ensures AddrList(r) == Sort(AddrList(slots), StrLe)
    ensures multiset(r) == multiset(slots)
  {
    r := [];
    for i := 0 to |slots|
      invariant Sorted(AddrList(r), StrLe)
      invariant multiset(r) == multiset(slots[..i])
      invariant multiset(AddrList(r)) == multiset(AddrList(slots)[..i])
    {
      assert slots[..i + 1] == slots[..i] + [slots[i]];
      assert AddrList(slots)[..i + 1] == AddrList(slots)[..i] + [slots[i].addr];
      r := InsertSlot(slots[i], r);
    }
    assert slots[..|slots|] == slots && AddrList(slots)[..|slots|] == AddrList(slots);
    StrLeTotal();
    SortSorts(AddrList(slots), StrLe);
    SortedUnique(AddrList(r), Sort(AddrList(slots), StrLe), StrLe);
  }

  // ------------------------------------------------------------------- picking

  /** Which slots a pass over the order could take. */
  function Open(slots: seq<Slot>, now: nat, requireReady: bool): (r: seq<bool>)
    reads slots
    ensures |r| == |slots|
    ensures forall i :: 0 <= i < |r| ==> r[i] == (slots[i].Free() && (requireReady ==> slots[i].Ready(now)))
  {
    seq(|slots|, i requires 0 <= i < |slots| reads slots => slots[i].Free() && (requireReady ==> slots[i].Ready(now)))
  }

  /** The first slot in preference order that is open. */
  function FirstOpen(order: seq<nat>, open: seq<bool>): (r: Option<nat>)
    requires forall k :: 0 <= k < |order| ==> order[k] < |open|
    ensures r.Some? ==> r.value < |open| && open[r.value]
  {
    if order == [] then None
    else if open[order[0]] then Some(order[0])
    else FirstOpen(order[1..], open)
  }

  /** Two passes: a slot that is not cooling down is preferred to an earlier one that is. */
  function Picked(order: seq<nat>, ready: seq<bool>, free: seq<bool>): (r: Option<nat>)
    requires |ready| == |free|
    requires forall k :: 0 <= k < |order| ==> order[k] < |free|
    ensures r.Some? ==> r.value < |free|
  {
    var first := FirstOpen(order, ready);
    if first.Some? then first else FirstOpen(order, free)
  }

  /** A pass finds a slot exactly when there is one, and none before it would do. */
  lemma {:induction false} FirstOpenIsFirst(order: seq<nat>, open: seq<bool>)
    requires forall k :: 0 <= k < |order| ==> order[k] < |open|
    ensures match FirstOpen(order, open)
      case None => forall k :: 0 <= k < |order| ==> !open[order[k]]
      case Some(i) =>
        exists k :: 0 <= k < |order| && order[k] == i && open[i] && forall j :: 0 <= j < k ==> !open[order[j]]
  {
    if order != [] && !open[order[0]] {
      var rest := order[1..];
      FirstOpenIsFirst(rest, open);
      var found := FirstOpen(rest, open);
      forall k | 0 <= k < |order| && found.None?
        ensures !open[order[k]]
      {
        assert k == 0 || order[k] == rest[k - 1];
      }
      if found.Some? {
        var k :| 0 <= k < |rest| && rest[k] == found.value && forall j :: 0 <= j < k ==> !open[rest[j]];
        assert order[k + 1] == found.value;
        forall j | 0 <= j < k + 1
          ensures !open[order[j]]
        {
          assert j == 0 || order[j] == rest[j - 1];
        }
      }
    }
  }

  /**
   Position `k` of the order is the one to take: the first that is ready, or the
   first that is free when none is ready.
   */
  ghost predicate BestAt(order: seq<nat>, ready: seq<bool>, free: seq<bool>, k: nat)
    requires |ready| == |free| && k < |order|
    requires forall j :: 0 <= j < |order| ==> order[j] < |free|
  {
    && free[order[k]]
    && (if ready[order[k]] then forall j :: 0 <= j < k ==> !ready[order[j]]
        else (forall j :: 0 <= j < |order| ==> !ready[order[j]]) && forall j :: 0 <= j < k ==> !free[order[j]])
  }

  /**
   Picking takes the first slot in the order that is free and not cooling; a
   cooling one only when every free slot is cooling, and then the first free
   one. It fails only when every slot is full.
   */
  lemma PickedIsBest(order: seq<nat>, ready: seq<bool>, free: seq<bool>)
    requires |ready| == |free| && forall i :: 0 <= i < |free| ==> ready[i] ==> free[i]
    requires forall k :: 0 <= k < |order| ==> order[k] < |free|
    ensures Picked(order, ready, free).None? <==> forall k :: 0 <= k < |order| ==> !free[order[k]]
    ensures match Picked(order, ready, free)
      case None => true
      case Some(p) => exists k :: 0 <= k < |order| && order[k] == p && BestAt(order, ready, free, k)
  {
    FirstOpenIsFirst(order, ready);
    FirstOpenIsFirst(order, free);
    if FirstOpen(order, ready).Some? {
      var p := FirstOpen(order, ready).value;
      var k :| 0 <= k < |order| && order[k] == p && ready[p] && forall j :: 0 <= j < k ==> !ready[order[j]];
      assert BestAt(order, ready, free, k);
    } else if FirstOpen(order, free).Some? {
      var p := FirstOpen(order, free).value;
      var k :| 0 <= k < |order| && order[k] == p && free[p] && forall j :: 0 <= j < k ==> !free[order[j]];
      assert BestAt(order, ready, free, k);
    }
  }

  // ---------------------------------------------------------------- the pool

  const REPLICAS: nat := 150

  class Pool {
    const concurrency: nat
    const point: (nat, nat) -> nat
    var slots: seq<Slot>
    var ring: seq<nat>
    var nodeMap: map<nat, nat>

    ghost predicate Valid()
      reads this
    {
      && ring == Sort(Points(point, |slots|, REPLICAS), NatLe)
      && nodeMap == NodeMap(point, |slots|, REPLICAS)
    }

    /** Every node keeps a ring point that no later node overwrote. */
    ghost predicate RingComplete()
      reads this
    {
      |slots| > 0 ==> AllSurvive(ring, nodeMap, |slots|)
    }

    constructor (concurrency: nat, point: (nat, nat) -> nat)
      ensures Valid() && slots == [] && this.concurrency == concurrency && this.point == point
    {
      this.concurrency, this.point := concurrency, point;
      slots, ring, nodeMap := [], [], map[];
    }

    /**
     The slots become exactly the requested addresses in order. An address that
     stays keeps its slot object, and so its occupancy and cooldown; a new one
     gets an empty slot of its own.
     */
    method Replace(addrs: seq<string>)
      requires Valid()
      modifies this
      ensures Valid()
      ensures Replaced(old(slots), addrs, slots)
      ensures forall s :: s in slots && Latest(old(slots), s.addr).None? ==>
                fresh(s) && s.used == 0 && s.cooldownUntil == 0 && s.capacity == concurrency
      ensures forall s :: s in slots && Latest(old(slots), s.addr).None? ==> multiset(slots)[s] == 1
    {
      var existing := IndexSlots();
      var newSlots := SlotsFor(addrs, existing);
      var sorted := SortSlots(newSlots);
      assert forall s :: s in sorted <==> s in multiset(newSlots);
      slots := sorted;
      ring, nodeMap := NewConsistentHash(point, |sorted|, REPLICAS);
    }

    /** One slot for each address in the order given, old where there is one. */
    method SlotsFor(addrs: seq<string>, existing: map<string, Slot>) returns (r: seq<Slot>)
      requires forall a :: a in existing ==> existing[a].addr == a
      ensures AddrList(r) == addrs
      ensures forall s :: s in r && s.addr in existing ==> s == existing[s.addr]
      ensures forall s :: s in r && s.addr !in existing ==>
                fresh(s) && s.used == 0 && s.cooldownUntil == 0 && s.capacity == concurrency && multiset(r)[s] == 1
    {
      r := [];
      for i := 0 to |addrs|
        invariant AddrList(r) == addrs[..i]
        invariant forall s :: s in r && s.addr in existing ==> s == existing[s.addr]
        invariant forall s :: s in r && s.addr !in existing ==>
                    fresh(s) && s.used == 0 && s.cooldownUntil == 0 && s.capacity == concurrency && multiset(r)[s] == 1
      {
        assert addrs[..i + 1] == addrs[..i] + [addrs[i]];
        if addrs[i] in existing {
          r := r + [existing[addrs[i]]];
        } else {
          var s := new Slot(addrs[i], concurrency);
          assert s !in r;
          r := r + [s];
        }
      }
      assert addrs[..|addrs|] == addrs;
    }

    method IndexSlots() returns (existing: map<string, Slot>)
      ensures forall a :: a in existing <==> Latest(slots, a).Some?
      ensures forall a :: a in existing ==> Latest(slots, a) == Some(existing[a])
      ensures forall a :: a in existing ==> exists k: nat :: LastWith(slots, a, k) && slots[k] == existing[a]
    {
      existing := map[];
      for i := 0 to |slots|
        invariant forall a :: a in existing <==> Latest(slots[..i], a).Some?
        invariant forall a :: a in existing ==> Latest(slots[..i], a) == Some(existing[a])
      {
        assert slots[..i + 1][..i] == slots[..i];
        existing := existing[slots[i].addr := slots[i]];
      }
      assert slots[..|slots|] == slots;
      forall a | a in existing
        ensures exists k: nat :: LastWith(slots, a, k) && slots[k] == existing[a]
      {
        LatestIsLast(slots, a);
      }
    }

    /** The order in which the ring offers the slots to a key. */
    ghost function Preference(start: nat): seq<nat>
      reads this
      requires Valid() && start <= |ring|
    {
      BuiltRingOk(point, |slots|, REPLICAS);
      FirstOcc(Walk(ring, nodeMap, start))
    }

    /** The preference order lists every slot once, in the order in which the walk first meets them. */
    lemma PreferenceIsComplete(start: nat)
      requires Valid() && start <= |ring| && RingComplete() && slots != []
      ensures var order := Preference(start);
        && |order| == |slots| && NoDup(order)
        && (forall k :: 0 <= k < |order| ==> order[k] < |slots|)
        && (forall i: nat :: i < |slots| ==> i in order)
        && (forall k :: 0 <= k < |ring| ==> ring[k] in nodeMap) && AsFirstMet(ring, nodeMap, start, order)
    {
      hide AsFirstMet;
      BuiltRingOk(point, |slots|, REPLICAS);
      AllVisited(ring, nodeMap, |slots|, start);
      WalkIsFirstMet(ring, nodeMap, |slots|, start);
    }

    /**
     The slot at position `k` of the order is the one to take: no earlier one is
     free and not cooling; if it is cooling itself, no slot at all is free and not
     cooling, and no earlier one is free.
     */
    ghost predicate Best(order: seq<nat>, now: nat, k: nat)
      reads this, slots
      requires k < |order| && forall j :: 0 <= j < |order| ==> order[j] < |slots|
    {
      var slot := slots[order[k]];
      && slot.used < slot.capacity
      && (if slot.cooldownUntil <= now then forall j :: 0 <= j < k ==> !WarmAt(order, now, j)
          else && (forall j :: 0 <= j < |order| ==> !WarmAt(order, now, j))
               && (forall j :: 0 <= j < k ==> slots[order[j]].used >= slots[order[j]].capacity))
    }

    /** Free and not cooling. */
    ghost predicate WarmAt(order: seq<nat>, now: nat, j: nat)
      reads this, slots
      requires j < |order| && order[j] < |slots|
    {
      slots[order[j]].used < slots[order[j]].capacity && slots[order[j]].cooldownUntil <= now
    }

    /** What the two passes pick is the best of the order. */
    lemma PickedIsBestSlot(order: seq<nat>, now: nat)
      requires forall j :: 0 <= j < |order| ==> order[j] < |slots|
      ensures match Picked(order, Open(slots, now, true), Open(slots, now, false))
        case None => forall j :: 0 <= j < |order| ==> slots[order[j]].used >= slots[order[j]].capacity
        case Some(i) => exists k :: 0 <= k < |order| && order[k] == i && Best(order, now, k)
    {
      var ready, free := Open(slots, now, true), Open(slots, now, false);
      PickedIsBest(order, ready, free);
      match Picked(order, ready, free)
      case None =>
        forall j | 0 <= j < |order|
          ensures slots[order[j]].used >= slots[order[j]].capacity
        {
          assert !free[order[j]];
        }
      case Some(i) =>
        var k :| 0 <= k < |order| && order[k] == i && BestAt(order, ready, free, k);
        assert forall j :: 0 <= j < |order| ==> WarmAt(order, now, j) == ready[order[j]];
        assert Best(order, now, k);
    }

    /** One pass over the preference order. */
    method TryPass(order: seq<nat>, now: nat, requireReady: bool) returns (r: Slot?)
      requires forall k :: 0 <= k < |order| ==> order[k] < |slots|
      modifies slots
      ensures match old(FirstOpen(order, Open(slots, now, requireReady)))
        case None => r == null
        case Some(i) => r == slots[i]
      ensures forall s :: s in slots ==> s.used == old(s.used) + (if s == r then 1 else 0)
      ensures forall s :: s in slots ==> s.cooldownUntil == old(s.cooldownUntil)
    {
      ghost var open := Open(slots, now, requireReady);
      assert order[0..] == order;
      for i := 0 to |order|
        invariant forall s :: s in slots ==> s.used == old(s.used) && s.cooldownUntil == old(s.cooldownUntil)
        invariant FirstOpen(order[i..], open) == FirstOpen(order, open)
      {
        assert order[i..][0] == order[i] && order[i..][1..] == order[i + 1..];
        var slot := slots[order[i]];
        if requireReady && now < slot.cooldownUntil {
          continue;
        }
        if slot.used < slot.capacity {
          slot.used := slot.used + 1;
          return slot;
        }
      }
      r := null;
    }

    /**
     Picking takes the first free slot in ring order that is not cooling down,
     else the first free one, and raises exactly that slot's count.
     */
    method PickAvailable(h: nat, now: nat) returns (r: Slot?, ghost start: nat)
      requires Valid() && RingComplete()
      modifies slots
      ensures IsStart(ring, h, start)
      ensures slots == [] ==> r == null
      ensures slots != [] ==> (forall k :: 0 <= k < |Preference(start)| ==> Preference(start)[k] < |slots|)
      ensures slots != [] ==>
        match old(Picked(Preference(start), Open(slots, now, true), Open(slots, now, false)))
        case None => r == null
        case Some(i) => r == slots[i]
      ensures r != null ==>
                exists k :: 0 <= k < |Preference(start)| && r == slots[Preference(start)[k]]
                            && old(Best(Preference(start), now, k))
      ensures r == null <==> forall s :: s in slots ==> old(s.used >= s.capacity)
      ensures forall s :: s in slots ==> s.used == old(s.used) + (if s == r then 1 else 0)
    {
      hide AsFirstMet, Best, Picked;
      r, start := null, 0;
      BuiltRingOk(point, |slots|, REPLICAS);
      if |slots| == 0 {
        return;
      }
      var order;
      order, start := GetSlotOrder(ring, nodeMap, |slots|, h);
      assert order == Preference(start);
      PreferenceIsComplete(start);
      r := TwoPasses(order, now);
      if r == null {
        forall s | s in slots
          ensures old(s.used >= s.capacity)
        {
          var i: nat :| i < |slots| && slots[i] == s;
          assert i in order;
          var k :| 0 <= k < |order| && order[k] == i;
        }
      }
    }

    method TwoPasses(order: seq<nat>, now: nat) returns (r: Slot?)
      requires forall k :: 0 <= k < |order| ==> order[k] < |slots|
      modifies slots
      ensures match old(Picked(order, Open(slots, now, true), Open(slots, now, false)))
        case None => r == null
        case Some(i) => r == slots[i]
      ensures r != null ==> exists k :: 0 <= k < |order| && r == slots[order[k]] && old(Best(order, now, k))
      ensures r == null <==> forall k :: 0 <= k < |order| ==> old(slots[order[k]].used >= slots[order[k]].capacity)
      ensures forall s :: s in slots ==> s.used == old(s.used) + (if s == r then 1 else 0)
    {
      PickedIsBestSlot(order, now);
      ghost var free := Open(slots, now, false);
      r := TryPass(order, now, true);
      if r == null {
        assert Open(slots, now, false) == free;
        r := TryPass(order, now, false);
      }
    }

    /**
     A batch build takes a worker slot first and the global slot second. When it
     is canceled while waiting for the second, the first is given back: every
     count is as it was before.
     */
    method AcquireBoth(h: nat, now: nat, globalSem: Slot, canceled: bool) returns (r: Slot?, ghost start: nat)
      requires Valid() && RingComplete() && globalSem !in slots
      requires canceled || globalSem.Free()
      modifies slots, globalSem
      ensures r == null <==> canceled || old(forall s :: s in slots ==> !s.Free())
      ensures globalSem.used == old(globalSem.used) + (if r == null then 0 else 1)
      ensures IsStart(ring, h, start)
      ensures slots != [] ==> (forall k :: 0 <= k < |Preference(start)| ==> Preference(start)[k] < |slots|)
      ensures r != null ==>
                exists k :: slots != [] && 0 <= k < |Preference(start)| && r == slots[Preference(start)[k]]
                            && old(Best(Preference(start), now, k))
      ensures forall s :: s in slots ==> s.used == old(s.used) + (if s == r then 1 else 0)
    {
      r, start := PickAvailable(h, now);
      if r != null {
        if canceled {
          r.used := r.used - 1;
          r := null;
        } else {
          globalSem.used := globalSem.used + 1;
        }
      }
    }
  }

  // ----------------------------------------------------- sequences of replaces

  ghost predicate IsHistory(pools: seq<seq<Slot>>, requests: seq<seq<string>>) {
    && |pools| == |requests| + 1
    && forall i :: 0 <= i < |requests| ==> Replaced(pools[i], requests[i], pools[i + 1])
  }

  /**
   After any sequence of replaces the pool lists the addresses last requested, in
   order, and an address that was there before and is in every request keeps one
   and the same slot.
   */
  lemma {:induction false} StayingAddressKeepsSlot(pools: seq<seq<Slot>>, requests: seq<seq<string>>, addr: string)
    requires IsHistory(pools, requests)
    ensures requests != [] ==>
              && Sorted(AddrList(pools[|requests|]), StrLe)
              && multiset(AddrList(pools[|requests|])) == multiset(requests[|requests| - 1])
    ensures addr in AddrList(pools[0]) && (forall i :: 0 <= i < |requests| ==> addr in requests[i]) ==>
              Latest(pools[|requests|], addr) == Latest(pools[0], addr)
  {
    if requests != [] {
      var n := |requests| - 1;
      assert IsHistory(pools[..n + 1], requests[..n]);
      StayingAddressKeepsSlot(pools[..n + 1], requests[..n], addr);
      assert Replaced(pools[n], requests[n], pools[n + 1]);
      StrLeTotal();
      SortSorts(requests[n], StrLe);
      if addr in requests[n] {
        assert addr in multiset(AddrList(pools[n + 1]));
        assert addr in AddrList(pools[n + 1]);
        assert Latest(pools[n + 1], addr).value in pools[n + 1];
      }
    }
  }
}

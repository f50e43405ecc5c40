/**
 The semaphores of the daemon: in every reachable state their counts equal the
 number of goroutines holding them, so a capacity is never exceeded and nothing
 leaks on any exit of an attempt.
 */
module Semaphores {
  import opened Tasks
  import opened Daemon

  ghost function GlobalHolders(procs: map<Pid, Pc>): set<Pid> {
    set p | p in procs && HoldsGlobal(procs[p])
  }

  ghost function SlotHolders(procs: map<Pid, Pc>, slot: nat): set<Pid> {
    set p | p in procs && HoldsSlot(procs[p], slot)
  }

  /** The slot objects a program counter mentions exist. */
  predicate PcSlots(n: nat, pc: Pc) {
    && (pc.Trying? || pc.WantSlot? ==> forall i :: 0 <= i < |pc.cands| ==> pc.cands[i] < n)
    && (pc.WantSlot? ==> pc.cands != [])
    && (pc.Assigning? || pc.Building? || pc.FreeingSlot? ==> pc.slot < n)
  }

  ghost predicate GlobalOk(cfg: Config, procs: map<Pid, Pc>, global: nat) {
    if cfg.globalCap == 0 then global == 0
    else global == |GlobalHolders(procs)| && global <= cfg.globalCap
  }

  ghost predicate SlotsOk(cfg: Config, procs: map<Pid, Pc>, slots: seq<Slot>) {
    forall i :: 0 <= i < |slots| ==> slots[i].used == |SlotHolders(procs, i)| && slots[i].used <= cfg.slotCap
  }

  ghost predicate PcsOk(procs: map<Pid, Pc>, n: nat) {
    forall p :: p in procs ==> PcSlots(n, procs[p])
  }

  ghost predicate SemOk(cfg: Config, s: State) {
    && GlobalOk(cfg, s.procs, s.global)
    && SlotsOk(cfg, s.procs, s.slots)
    && PcsOk(s.procs, |s.slots|)
    && PoolOk(s)
  }

  /** The semaphore operation of a step is the change in what its goroutine holds. */
  ghost predicate HoldsAsTold(cfg: Config, s: State, pc: Pc, pc': Pc, sem: Sem) {
    match sem
    case Keep => HoldsGlobal(pc') == HoldsGlobal(pc) && forall i :: HoldsSlot(pc', i) == HoldsSlot(pc, i)
    case TakeGlobal => !HoldsGlobal(pc) && HoldsGlobal(pc') && GlobalRoom(cfg, s) && NoSlot(pc) && NoSlot(pc')
    case GiveGlobal => HoldsGlobal(pc) && !HoldsGlobal(pc') && NoSlot(pc) && NoSlot(pc')
    case TakeSlot(i) => HoldsGlobal(pc) && HoldsGlobal(pc') && HasRoom(cfg, s, i) && NoSlot(pc) && OnlySlot(pc', i)
    case GiveSlot(i) => HoldsGlobal(pc) && HoldsGlobal(pc') && i < |s.slots| && OnlySlot(pc, i) && NoSlot(pc')
  }

  ghost predicate NoSlot(pc: Pc) {
    forall i :: !HoldsSlot(pc, i)
  }

  ghost predicate OnlySlot(pc: Pc, i: nat) {
    forall j :: HoldsSlot(pc, j) <==> j == i
  }

  lemma EffectHolds(cfg: Config, s: State, p: Pid, pc: Pc, a: Act)
    requires EffectOf(cfg, s, p, pc, a).Some?
    requires PcSlots(|s.slots|, pc)
    ensures var e := EffectOf(cfg, s, p, pc, a).value;
      HoldsAsTold(cfg, s, pc, e.pc, e.sem) && PcSlots(|s.slots|, e.pc)
  {
    if a.TakeSnapshot? {
      CandidatesExist(s, a.order, pc.run.excluded);
      assert EffectOf(cfg, s, p, pc, a).value.pc.cands == Candidates(s.slots, s.pool, a.order, pc.run.excluded);
    }
  }

  lemma CandidatesExist(s: State, order: seq<nat>, excluded: set<Addr>)
    requires IsOrder(order, |s.pool|) && PoolOk(s)
    ensures var cands := Candidates(s.slots, s.pool, order, excluded);
      forall i :: 0 <= i < |cands| ==> cands[i] < |s.slots|
  {
    var cands := Candidates(s.slots, s.pool, order, excluded);
    assert forall i :: 0 <= i < |cands| ==> cands[i] in cands;
  }

  lemma GlobalStep(cfg: Config, s: State, p: Pid, pc': Pc, sem: Sem)
    requires p in s.procs && GlobalOk(cfg, s.procs, s.global)
    requires HoldsAsTold(cfg, s, s.procs[p], pc', sem)
    ensures GlobalOk(cfg, s.procs[p := pc'], GlobalAfter(cfg, s.global, sem))
  {
    HolderCount(s.procs, p, pc');
  }

  lemma HolderCount(procs: map<Pid, Pc>, p: Pid, pc': Pc)
    requires p in procs
    ensures |GlobalHolders(procs[p := pc'])|
         == |GlobalHolders(procs)| + (if HoldsGlobal(pc') then 1 else 0) - (if HoldsGlobal(procs[p]) then 1 else 0)
    ensures HoldsGlobal(procs[p]) ==> |GlobalHolders(procs)| > 0
  {
    var before, after := GlobalHolders(procs), GlobalHolders(procs[p := pc']);
    var others := before - {p};
    assert before == if HoldsGlobal(procs[p]) then others + {p} else others;
    assert after == if HoldsGlobal(pc') then others + {p} else others;
  }

  lemma SlotStep(procs: map<Pid, Pc>, p: Pid, pc': Pc, i: nat)
    requires p in procs
    ensures |SlotHolders(procs[p := pc'], i)|
         == |SlotHolders(procs, i)| + (if HoldsSlot(pc', i) then 1 else 0) - (if HoldsSlot(procs[p], i) then 1 else 0)
    ensures HoldsSlot(procs[p], i) ==> |SlotHolders(procs, i)| > 0
  {
    var before, after := SlotHolders(procs, i), SlotHolders(procs[p := pc'], i);
    var others := before - {p};
    assert before == if HoldsSlot(procs[p], i) then others + {p} else others;
    assert after == if HoldsSlot(pc', i) then others + {p} else others;
  }

  lemma SlotsStep(cfg: Config, s: State, p: Pid, pc': Pc, sem: Sem)
    requires p in s.procs && SlotsOk(cfg, s.procs, s.slots)
    requires HoldsAsTold(cfg, s, s.procs[p], pc', sem)
    ensures SlotsOk(cfg, s.procs[p := pc'], SlotsAfter(s.slots, sem))
  {
    forall i | 0 <= i < |s.slots|
      ensures SlotsAfter(s.slots, sem)[i].used == |SlotHolders(s.procs[p := pc'], i)| <= cfg.slotCap
    {
      SlotStep(s.procs, p, pc', i);
    }
  }

  lemma NobodyHoldsNewSlot(procs: map<Pid, Pc>, n: nat, i: nat)
    requires PcsOk(procs, n) && i >= n
    ensures SlotHolders(procs, i) == {}
  {}

  lemma ReplaceStep(cfg: Config, procs: map<Pid, Pc>, slots: seq<Slot>, pool: seq<nat>, addrs: seq<Addr>)
    requires SlotsOk(cfg, procs, slots) && PcsOk(procs, |slots|)
    ensures SlotsOk(cfg, procs, Replace(slots, pool, addrs).0)
    ensures PcsOk(procs, |Replace(slots, pool, addrs).0|)
  {
    var all := Replace(slots, pool, addrs).0;
    forall i | 0 <= i < |all|
      ensures all[i].used == |SlotHolders(procs, i)| <= cfg.slotCap
    {
      if i < |slots| {
        assert all[i] == slots[i];
      } else {
        NobodyHoldsNewSlot(procs, |slots|, i);
      }
    }
  }

  lemma ProcKeepsSem(cfg: Config, s: State, p: Pid, a: Act)
    requires SemOk(cfg, s) && Enabled(cfg, s, ProcEv(p, a))
    ensures SemOk(cfg, Next(cfg, s, ProcEv(p, a)))
  {
    var pc := s.procs[p];
    var e := EffectOf(cfg, s, p, pc, a).value;
    EffectHolds(cfg, s, p, pc, a);
    GlobalStep(cfg, s, p, e.pc, e.sem);
    SlotsStep(cfg, s, p, e.pc, e.sem);
    if e.refresh.Some? {
      ReplaceStep(cfg, s.procs[p := e.pc], SlotsAfter(s.slots, e.sem), s.pool, e.refresh.value);
    }
  }

  /** Goroutines that hold nothing may come, go and change without touching a count. */
  lemma EmptyHandedStep(cfg: Config, s: State, p: Pid, pc': Pc)
    requires SemOk(cfg, s)
    requires p in s.procs ==> !HoldsGlobal(s.procs[p]) && NoSlot(s.procs[p])
    requires !HoldsGlobal(pc') && NoSlot(pc') && PcSlots(|s.slots|, pc')
    ensures GlobalOk(cfg, s.procs[p := pc'], s.global)
    ensures SlotsOk(cfg, s.procs[p := pc'], s.slots)
    ensures PcsOk(s.procs[p := pc'], |s.slots|)
  {
    assert GlobalHolders(s.procs[p := pc']) == GlobalHolders(s.procs);
    forall i | 0 <= i < |s.slots|
      ensures SlotHolders(s.procs[p := pc'], i) == SlotHolders(s.procs, i)
    {}
  }

  lemma NextKeepsSem(cfg: Config, s: State, ev: Event)
    requires SemOk(cfg, s) && Enabled(cfg, s, ev)
    requires s.adm.Added? ==> TaskRunner(s.adm.id) !in s.procs
    ensures SemOk(cfg, Next(cfg, s, ev))
  {
    match ev
    case ProcEv(p, a) => ProcKeepsSem(cfg, s, p, a);
    case PopEv(p) => EmptyHandedStep(cfg, s, p, Starting(s.queues[p.mode].ids[0]));
    case RetireEv(p) => EmptyHandedStep(cfg, s, p, Exited);
    case RefreshEv(addrs) => ReplaceStep(cfg, s.procs, s.slots, s.pool, addrs);
    case AdmStart =>
      var id := s.adm.id;
      if !Explicit(cfg) {
        EmptyHandedStep(cfg, s, TaskRunner(id), Starting(id));
      }
    case _ =>
  }

  lemma InitSem(cfg: Config, addrs: seq<Addr>)
    requires ConfigOk(cfg)
    ensures SemOk(cfg, Init(cfg, addrs))
  {
    var s := Init(cfg, addrs);
    assert GlobalHolders(s.procs) == {};
    forall i | 0 <= i < |s.slots|
      ensures SlotHolders(s.procs, i) == {}
    {}
  }
}

/** When a batch that returns no error has built everything. */
module BatchTruth {
  import opened Batch
  import opened BatchInvariants
  import opened BatchTheorems
  import opened BatchRepeated

  // ------------------------------------------------------ nobody cancels from outside

  /** Whatever was given up was given up because of a failure. */
  ghost predicate GivenUpForFailure(s: State) {
    && (s.canceled ==> s.failed)
    && (s.dropped != [] ==> s.failed)
  }

  lemma StepGivesUpForFailure(cfg: Config, s: State, e: Event)
    requires Enabled(cfg, s, e) && e != Cancel && GivenUpForFailure(s)
    ensures GivenUpForFailure(Next(cfg, s, e))
  {}

  lemma {:induction false} RunGivesUpForFailure(
    cfg: Config, db: map<string, bool>, states: seq<State>, events: seq<Event>, k: nat)
    requires IsRun(cfg, db, states, events) && k < |states|
    requires forall i :: 0 <= i < k ==> events[i] != Cancel
    ensures GivenUpForFailure(states[k])
  {
    hide Enabled, Next, GivenUpForFailure;
    if k == 0 {
      StartGivesUpNothing(cfg, db);
    } else {
      RunGivesUpForFailure(cfg, db, states, events, k - 1);
      assert states[k - 1 + 1] == Next(cfg, states[k - 1], events[k - 1]);
      StepGivesUpForFailure(cfg, states[k - 1], events[k - 1]);
    }
  }

  lemma StartGivesUpNothing(cfg: Config, db: map<string, bool>)
    ensures GivenUpForFailure(Init(cfg, db))
  {}

  /**
   A run that nobody cancels from outside and that returns nil has dropped
   nothing and built everything, fail-fast and store errors included.
   */
  lemma UncanceledNilMeansDone(
    cfg: Config, db: map<string, bool>, states: seq<State>, events: seq<Event>, k: nat)
    requires ConfigOk(cfg) && IsRun(cfg, db, states, events) && k < |states|
    requires forall i :: 0 <= i < k ==> events[i] != Cancel
    ensures states[k].main.Done? && ReturnsNil(states[k]) ==>
              states[k].dropped == [] && AllStored(cfg, states[k].db)
  {
    hide IsRun, AllStored;
    RunGivesUpForFailure(cfg, db, states, events, k);
    if states[k].main.Done? && ReturnsNil(states[k]) {
      OutcomeIsAccurate(cfg, db, states, events, k);
    }
  }

  // --------------------------------------------------------------- a cancellation

  /** Canceled at once, a batch that is not done yet returns nil all the same. */
  lemma InterruptedRunReturnsNil(cfg: Config, db: map<string, bool>)
    returns (states: seq<State>, events: seq<Event>)
    requires ConfigOk(cfg) && !AllStored(cfg, db)
    ensures IsRun(cfg, db, states, events) && events == [Cancel, Check, Joined] && |states| == 4
    ensures states[3].main.Done? && ReturnsNil(states[3]) && states[3].db == db
  {
    hide Apply, EffectOf;
    events := [Cancel, Check, Joined];
    var s0 := Init(cfg, db);
    var s1 := Next(cfg, s0, Cancel);
    var s2 := Next(cfg, s1, Check);
    states := [s0, s1, s2, Next(cfg, s2, Joined)];
  }

  // ------------------------------------------------- successes stored before the run

  /** What was stored as success still is, unless a build failed for good. */
  ghost predicate SuccessesKept(db: map<string, bool>, s: State) {
    s.failed || (exists i :: 0 <= i < |s.flight| && s.flight[i].pc == Broken) || Grows(db, s.db)
  }

  lemma StepKeepsSuccesses(cfg: Config, db: map<string, bool>, s: State, e: Event)
    requires Enabled(cfg, s, e) && SuccessesKept(db, s)
    ensures SuccessesKept(db, Next(cfg, s, e))
  {
    if e.Work? {
      WorkKeepsSuccesses(cfg, db, s, e.i, e.action);
    } else if e == Acquire && !s.failed && !Grows(db, s.db) {
      var i :| 0 <= i < |s.flight| && s.flight[i].pc == Broken;
      assert Next(cfg, s, e).flight[i] == s.flight[i];
    }
  }

  lemma WorkKeepsSuccesses(cfg: Config, db: map<string, bool>, s: State, i: nat, a: Action)
    requires i < |s.flight| && CanAct(cfg, s, s.flight[i], a) && SuccessesKept(db, s)
    ensures SuccessesKept(db, Apply(s, i, EffectOf(cfg, s, s.flight[i], a)))
  {
    hide Release;
    var e := EffectOf(cfg, s, s.flight[i], a);
    var t := Apply(s, i, e);
    if !s.failed && !Grows(db, s.db) {
      var j :| 0 <= j < |s.flight| && s.flight[j].pc == Broken;
      if j < i {
        assert t.flight[j] == s.flight[j];
      } else if j > i {
        assert t.flight[j - 1 + |e.stay|] == s.flight[j];
      }
    } else if a.Store? && !a.err && !s.flight[i].pc.ok {
      assert t.flight[i] == e.stay[0];
    }
  }

  lemma {:induction false} RunKeepsSuccesses(
    cfg: Config, db: map<string, bool>, states: seq<State>, events: seq<Event>, k: nat)
    requires IsRun(cfg, db, states, events) && k < |states|
    ensures SuccessesKept(db, states[k])
  {
    hide Enabled, Next;
    if k > 0 {
      RunKeepsSuccesses(cfg, db, states, events, k - 1);
      assert states[k - 1 + 1] == Next(cfg, states[k - 1], events[k - 1]);
      StepKeepsSuccesses(cfg, db, states[k - 1], events[k - 1]);
    }
  }

  lemma StoredStaysStored(cfg: Config, db: map<string, bool>, s: State)
    requires ConfigOk(cfg) && Reaches(cfg, db, s) && AllStored(cfg, db)
    requires s.main.Done? && ReturnsNil(s)
    ensures AllStored(cfg, s.db)
  {
    hide Enabled, Next, Init, ConfigOk, Stored;
    var states: seq<State>, events: seq<Event> :| IsRun(cfg, db, states, events) && states[|events|] == s;
    RunKeepsSuccesses(cfg, db, states, events, |events|);
    RunInv(cfg, db, states, events, |events|);
    forall j | 0 <= j < |cfg.jobs|
      ensures Stored(s.db, cfg.jobs[j].specs)
    {
      StoredGrows(db, s.db, cfg.jobs[j].specs);
    }
  }

  /**
   Of the runs of a batch, canceled ones included, all that return nil have
   everything stored as success if and only if everything was stored before.
   */
  lemma NilIsTruthfulIff(cfg: Config, db: map<string, bool>)
    requires ConfigOk(cfg)
    ensures (forall s :: Reaches(cfg, db, s) && s.main.Done? && ReturnsNil(s) ==> AllStored(cfg, s.db))
            <==> AllStored(cfg, db)
  {
    hide IsRun, ConfigOk, AllStored;
    if AllStored(cfg, db) {
      forall s | Reaches(cfg, db, s) && s.main.Done? && ReturnsNil(s)
        ensures AllStored(cfg, s.db)
      {
        StoredStaysStored(cfg, db, s);
      }
    } else {
      var states, events := InterruptedRunReturnsNil(cfg, db);
      assert Reaches(cfg, db, states[|events|]);
    }
  }
}

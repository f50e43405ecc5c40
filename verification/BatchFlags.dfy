/** When a batch run is marked as failed, broken off or canceled, and so what it returns. */
module BatchFlags {
  import opened Batch

  /** Event `k` is a result that could not be stored. */
  predicate StoreFails(events: seq<Event>, k: nat)
    requires k < |events|
  {
    events[k].Work? && events[k].action == Store(true)
  }

  /** Event `k` is the end of a build goroutine whose job was not built. */
  predicate JobFails(states: seq<State>, events: seq<Event>, k: nat)
    requires k < |events| < |states|
  {
    events[k].Work? && events[k].action == Finish && events[k].i < |states[k].flight|
    && states[k].flight[events[k].i].pc == Broken
  }

  ghost predicate StoreFailed(events: seq<Event>, n: nat)
    requires n <= |events|
  {
    exists k: nat :: k < n && StoreFails(events, k)
  }

  ghost predicate JobFailed(states: seq<State>, events: seq<Event>, n: nat)
    requires n <= |events| < |states|
  {
    exists k: nat :: k < n && JobFails(states, events, k)
  }

  ghost predicate CanceledOutside(events: seq<Event>, n: nat)
    requires n <= |events|
  {
    exists k: nat :: k < n && events[k].Cancel?
  }

  lemma WorkFlags(cfg: Config, s: State, w: Worker, a: Action)
    requires CanAct(cfg, s, w, a)
    ensures var t := EffectOf(cfg, s, w, a);
      var storeFails := a == Store(true);
      var jobFails := a == Finish && w.pc == Broken;
      && t.fatal == (s.fatal || storeFails)
      && t.failed == (s.failed || storeFails || jobFails)
      && t.canceled == (s.canceled || storeFails || (jobFails && cfg.failfast))
  {}

  lemma FlagsMove(cfg: Config, s: State, e: Event)
    requires Enabled(cfg, s, e)
    ensures var t := Next(cfg, s, e);
      var storeFails := e.Work? && e.action == Store(true);
      var jobFails := e.Work? && e.action == Finish && s.flight[e.i].pc == Broken;
      && t.fatal == (s.fatal || storeFails)
      && t.failed == (s.failed || storeFails || jobFails)
      && t.canceled == (s.canceled || storeFails || (jobFails && cfg.failfast) || e.Cancel?)
  {
    hide EffectOf, CanAct, Release;
    if e.Work? {
      Acts(cfg, s, e);
      WorkFlags(cfg, s, s.flight[e.i], e.action);
    }
  }

  lemma Acts(cfg: Config, s: State, e: Event)
    requires Enabled(cfg, s, e) && e.Work?
    ensures e.i < |s.flight| && CanAct(cfg, s, s.flight[e.i], e.action)
  {}

  /**
   A run is broken off exactly when a result could not be stored, failed exactly when that happened or
   a job was not built, and canceled exactly when that happened, someone canceled it or, failing
   fast, a job was not built. It returns no error exactly when every result was stored and every
   job that ended was built.
   */
  lemma {:induction false} FlagsSay(cfg: Config, db: map<string, bool>, states: seq<State>, events: seq<Event>, n: nat)
    requires IsRun(cfg, db, states, events) && n <= |events|
    ensures var s := states[n];
      && (s.fatal <==> StoreFailed(events, n))
      && (s.failed <==> StoreFailed(events, n) || JobFailed(states, events, n))
      && (s.canceled <==>
            || StoreFailed(events, n) || CanceledOutside(events, n)
            || (cfg.failfast && JobFailed(states, events, n)))
      && (ReturnsNil(s) <==> !StoreFailed(events, n) && !JobFailed(states, events, n))
  {
    hide Next, EffectOf;
    if n > 0 {
      FlagsSay(cfg, db, states, events, n - 1);
      var k := n - 1;
      assert states[k + 1] == Next(cfg, states[k], events[k]);
      FlagsMove(cfg, states[k], events[k]);
      OneMore(cfg, states, events, k);
    }
  }

  lemma OneMore(cfg: Config, states: seq<State>, events: seq<Event>, k: nat)
    requires k < |events| < |states|
    ensures StoreFailed(events, k + 1) <==> StoreFailed(events, k) || StoreFails(events, k)
    ensures JobFailed(states, events, k + 1) <==> JobFailed(states, events, k) || JobFails(states, events, k)
    ensures CanceledOutside(events, k + 1) <==> CanceledOutside(events, k) || events[k].Cancel?
  {
    assert StoreFails(events, k) ==> StoreFailed(events, k + 1);
  }
}

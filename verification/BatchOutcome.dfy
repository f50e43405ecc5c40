/** The running totals printed with each result (internal/buildbatch/results.go). */
module BatchOutcome {
  import opened Basics
  import opened BatchPlan

  ghost function WithOutcome(states: map<string, Outcome>, outcome: Outcome): set<string> {
    set k | k in states && states[k] == outcome
  }

  class OutcomeCounters {
    var total: nat
    var succeeded: nat
    var failed: nat
    var states: map<string, Outcome>

    /** The counts are the numbers of targets with that outcome. */
    ghost predicate Valid()
      reads this
    {
      && succeeded == |WithOutcome(states, Succeeded)|
      && failed == |WithOutcome(states, Failed)|
    }

    constructor (total: nat, existing: map<string, Outcome>)
      ensures Valid() && this.total == total && states == existing
    {
      this.total := total;
      states, succeeded, failed := map[], 0, 0;
      new;
      NoneYet();
      var rest := existing.Keys;
      while rest != {}
        invariant Valid() && this.total == total
        invariant rest <= existing.Keys
        invariant states == map k | k in existing && k !in rest :: existing[k]
        decreases |rest|
      {
        var k :| k in rest;
        Record(states, k, existing[k], Succeeded);
        Record(states, k, existing[k], Failed);
        states := states[k := existing[k]];
        match existing[k] {
          case Succeeded => succeeded := succeeded + 1;
          case Failed => failed := failed + 1;
        }
        rest := rest - {k};
      }
      assert states == existing;
    }

    /** A new outcome replaces the target's earlier one in the counts. */
    method Apply(target: string, success: bool)
      requires Valid()
      modifies this
      ensures Valid() && total == old(total)
      ensures states == old(states)[target := if success then Succeeded else Failed]
    {
      var next := if success then Succeeded else Failed;
      ApplyExisting(target, next);
    }

    method ApplyExisting(target: string, next: Outcome)
      requires Valid()
      modifies this
      ensures Valid() && total == old(total)
      ensures states == old(states)[target := next]
    {
      if target in states && states[target] == next {
        return;
      }
      Record(states, target, next, Succeeded);
      Record(states, target, next, Failed);
      if target in states {
        match states[target] {
          case Succeeded => succeeded := succeeded - 1;
          case Failed => failed := failed - 1;
        }
      }
      match next {
        case Succeeded => succeeded := succeeded + 1;
        case Failed => failed := failed + 1;
      }
      states := states[target := next];
    }

    method DecrementTotal()
      requires Valid()
      modifies this
      ensures Valid() && states == old(states)
      ensures total == if old(total) > 0 then old(total) - 1 else 0
    {
      if total > 0 {
        total := total - 1;
      }
    }
  }

  lemma NoneYet()
    ensures |WithOutcome(map[], Succeeded)| == 0 && |WithOutcome(map[], Failed)| == 0
  {
    assert WithOutcome(map[], Succeeded) == {} && WithOutcome(map[], Failed) == {};
  }

  /** How recording an outcome changes the number of targets with either outcome. */
  lemma Record(states: map<string, Outcome>, target: string, next: Outcome, o: Outcome)
    requires target in states ==> states[target] != next
    ensures |WithOutcome(states[target := next], o)| ==
              |WithOutcome(states, o)|
                  + (if o == next then 1 else 0) - (if target in states && states[target] == o then 1 else 0)
  {
    if o == next {
      OutcomeGained(states, target, next);
    } else if target in states && states[target] == o {
      OutcomeLost(states, target, next);
    } else {
      assert WithOutcome(states, o) == WithOutcome(states[target := next], o);
    }
  }

  lemma OutcomeGained(states: map<string, Outcome>, target: string, next: Outcome)
    requires target in states ==> states[target] != next
    ensures |WithOutcome(states[target := next], next)| == |WithOutcome(states, next)| + 1
  {
    assert target !in WithOutcome(states, next);
    assert WithOutcome(states[target := next], next) == WithOutcome(states, next) + {target};
  }

  lemma OutcomeLost(states: map<string, Outcome>, target: string, next: Outcome)
    requires target in states && states[target] != next
    ensures |WithOutcome(states[target := next], states[target])| == |WithOutcome(states, states[target])| - 1
  {
    var after := WithOutcome(states[target := next], states[target]);
    assert target !in after;
    assert WithOutcome(states, states[target]) == after + {target};
  }

  /** The two counts never add up to more than the targets seen. */
  lemma CountsWithinTargets(states: map<string, Outcome>)
    ensures |WithOutcome(states, Succeeded)| + |WithOutcome(states, Failed)| == |states|
  {
    assert states.Keys == WithOutcome(states, Succeeded) + WithOutcome(states, Failed);
    DisjointUnion(WithOutcome(states, Succeeded), WithOutcome(states, Failed));
  }
}

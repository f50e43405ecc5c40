/**
 The start-up check of explicit build modes and the workers started for them
 (internal/builddaemon/mode_scheduler.go).
 */
module BuildModes {

  import opened Sums

  predicate ValidNameChar(c: char) {
    'a' <= c <= 'z' || 'A' <= c <= 'Z' || '0' <= c <= '9' || c == '_' || c == '-'
  }

  predicate ValidModeName(name: string) {
    name != "" && forall i :: 0 <= i < |name| ==> ValidNameChar(name[i])
  }

  /** Explicit modes that the daemon accepts; `limit` at most zero means no global limit. */
  ghost predicate Accepted(modes: map<string, int>, defaultMode: string, limit: int) {
    && defaultMode in modes
    && (forall name :: name in modes ==> ValidModeName(name) && modes[name] > 0)
    && (limit > 0 ==> Total(modes) <= limit)
  }

  /** Visits the modes in no particular order, stopping at the first invalid one. */
  method CheckModes(modes: map<string, int>, defaultMode: string, limit: int) returns (ok: bool)
    ensures ok <==> Accepted(modes, defaultMode, limit)
  {
    var total := 0;
    var todo := modes;
    while todo != map[]
      invariant todo.Keys <= modes.Keys
      invariant forall name :: name in todo ==> todo[name] == modes[name]
      invariant forall name :: name in modes && name !in todo ==> ValidModeName(name) && modes[name] > 0
      invariant total + Total(todo) == Total(modes)
      decreases |todo|
    {
      var name :| name in todo;
      if !ValidModeName(name) || todo[name] <= 0 {
        return false;
      }
      TotalWithout(todo, name);
      total := total + todo[name];
      todo := todo - {name};
    }
    if defaultMode !in modes {
      return false;
    }
    ok := !(limit > 0 && total > limit);
  }

  /** One goroutine per unit of a mode's concurrency. */
  ghost function Workers(modes: map<string, int>): set<(string, int)> {
    set name, i | name in modes && 0 <= i < modes[name] :: (name, i)
  }

  lemma {:induction false} RangeSize(name: string, n: nat)
    ensures |set i | 0 <= i < n :: (name, i)| == n
  {
    if n > 0 {
      RangeSize(name, n - 1);
      assert (set i | 0 <= i < n :: (name, i)) == (set i | 0 <= i < n - 1 :: (name, i)) + {(name, n - 1)};
    } else {
      assert (set i | 0 <= i < n :: (name, i)) == {};
    }
  }

  /** The scheduler starts exactly `Total` workers. */
  lemma {:induction false} WorkerCount(modes: map<string, int>)
    requires forall name :: name in modes ==> modes[name] >= 0
    ensures |Workers(modes)| == Total(modes)
    decreases |modes|
  {
    if modes == map[] {
      assert Workers(modes) == {};
    } else {
      var name :| name in modes && Total(modes) == modes[name] + Total(modes - {name});
      WorkerCount(modes - {name});
      RangeSize(name, modes[name]);
      assert Workers(modes) == Workers(modes - {name}) + set i | 0 <= i < modes[name] :: (name, i);
      assert Workers(modes - {name}) !! set i | 0 <= i < modes[name] :: (name, i);
    }
  }
}

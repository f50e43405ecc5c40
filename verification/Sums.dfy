/** The sum of the values of a map. */
module Sums {

  ghost function Total<K>(amounts: map<K, int>): int
    decreases |amounts|
  {
    if amounts == map[] then 0
    else
      var name :| name in amounts;
      amounts[name] + Total(amounts - {name})
  }

  /** The sum does not depend on the order in which the names are visited. */
  lemma {:induction false} TotalWithout<K>(amounts: map<K, int>, name: K)
    requires name in amounts
    ensures Total(amounts) == amounts[name] + Total(amounts - {name})
    decreases |amounts|
  {
    var first :| first in amounts && Total(amounts) == amounts[first] + Total(amounts - {first});
    if first != name {
      var rest := amounts - {first};
      TotalWithout(rest, name);
      TotalWithout(amounts - {name}, first);
      assert rest - {name} == (amounts - {name}) - {first};
    }
  }

  /** Storing an amount under a name replaces the one that was there. */
  lemma TotalStored<K>(amounts: map<K, int>, name: K, amount: int)
    ensures Total(amounts[name := amount]) == Total(amounts) + amount - (if name in amounts then amounts[name] else 0)
  {
    var stored := amounts[name := amount];
    TotalWithout(stored, name);
    assert stored - {name} == amounts - {name};
    if name in amounts {
      TotalWithout(amounts, name);
    } else {
      assert amounts - {name} == amounts;
    }
  }

  lemma {:induction false} TotalNotNegative<K>(amounts: map<K, int>)
    requires forall name :: name in amounts ==> amounts[name] >= 0
    ensures Total(amounts) >= 0
    decreases |amounts|
  {
    if amounts != map[] {
      var name :| name in amounts && Total(amounts) == amounts[name] + Total(amounts - {name});
      TotalNotNegative(amounts - {name});
    }
  }
}

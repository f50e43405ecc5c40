/** Small datatypes shared by every module. */
module Basics {

  datatype Option<+T> = None | Some(value: T)

  datatype Result<+T> = Ok(value: T) | Err(error: string)

  /** No element of `s` occurs twice. */
  ghost predicate NoDup<T>(s: seq<T>) {
    forall i, j :: 0 <= i < j < |s| ==> s[i] != s[j]
  }

  ghost function Elements<T>(s: seq<T>): set<T> {
    set x | x in s
  }

  /** A duplicate-free sequence drawn from a finite set is no longer than the set. */
  lemma {:induction false} NoDupBound<T>(s: seq<T>, universe: set<T>)
    requires NoDup(s)
    requires forall i :: 0 <= i < |s| ==> s[i] in universe
    ensures |s| <= |universe|
  {
    if s != [] {
      var last := s[|s| - 1];
      NoDupBound(s[..|s| - 1], universe - {last});
    }
  }

  /** A duplicate-free sequence has as many elements as positions. */
  lemma {:induction false} NoDupSize<T>(s: seq<T>)
    requires NoDup(s)
    ensures |Elements(s)| == |s|
  {
    if s != [] {
      var front, last := s[..|s| - 1], s[|s| - 1];
      NoDupSize(front);
      assert last !in front;
      assert s == front + [last];
      assert Elements(s) == Elements(front) + {last};
    }
  }

  lemma DisjointUnion<T>(a: set<T>, b: set<T>)
    requires a !! b
    ensures |a + b| == |a| + |b|
  {}

  lemma SubsetSize<T>(a: set<T>, b: set<T>)
    requires a <= b
    ensures |a| <= |b|
    ensures |a| == |b| ==> a == b
  {
    assert b == a + (b - a);
  }

  lemma Twice<T>(s: seq<T>, i: nat, j: nat)
    requires i < j < |s| && s[i] == s[j]
    ensures multiset(s)[s[i]] >= 2
  {
    assert s == s[..i] + [s[i]] + s[i + 1..j] + [s[j]] + s[j + 1..];
  }

  lemma Once<T>(s: seq<T>, x: T, i: nat, j: nat)
    requires i < |s| && j < |s| && s[i] == x && s[j] == x && multiset(s)[x] <= 1
    ensures i == j
  {
    if i < j {
      Twice(s, i, j);
    } else if j < i {
      Twice(s, j, i);
    }
  }

  lemma {:induction false} NoDupOnce<T>(s: seq<T>, x: T)
    requires NoDup(s)
    ensures multiset(s)[x] <= 1
  {
    if s != [] {
      var front, last := s[..|s| - 1], s[|s| - 1];
      assert s == front + [last];
      NoDupOnce(front, x);
    }
  }

  /** The difference, or nothing. */
  function Minus(a: nat, b: nat): nat {
    if a >= b then a - b else 0
  }
}

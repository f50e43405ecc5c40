/** Sorting by a total order, and the order of strings. */
module Sorting {

  /** An order in which different elements may be tied. */
  ghost predicate IsTotalPreorder<T(!new)>(le: (T, T) -> bool) {
    && (forall a, b :: le(a, b) || le(b, a))
    && (forall a, b, c :: le(a, b) && le(b, c) ==> le(a, c))
  }

  ghost predicate IsTotalOrder<T(!new)>(le: (T, T) -> bool) {
    && IsTotalPreorder(le)
    && (forall a, b :: le(a, b) && le(b, a) ==> a == b)
  }

  ghost predicate Sorted<T>(s: seq<T>, le: (T, T) -> bool) {
    forall i, j :: 0 <= i < j < |s| ==> le(s[i], s[j])
  }

  function Insert<T>(x: T, s: seq<T>, le: (T, T) -> bool): seq<T> {
    if s == [] then [x]
    else if le(x, s[0]) then [x] + s
    else [s[0]] + Insert(x, s[1..], le)
  }

  function Sort<T>(s: seq<T>, le: (T, T) -> bool): seq<T> {
    if s == [] then [] else Insert(s[0], Sort(s[1..], le), le)
  }

  lemma {:induction false} InsertSorts<T(!new)>(x: T, s: seq<T>, le: (T, T) -> bool)
    requires IsTotalPreorder(le) && Sorted(s, le)
    ensures Sorted(Insert(x, s, le), le)
    ensures multiset(Insert(x, s, le)) == multiset(s) + multiset{x}
  {
    if s == [] {
    } else if le(x, s[0]) {
      assert [x] + s == Insert(x, s, le);
    } else {
      var tail := s[1..];
      assert s == [s[0]] + tail;
      InsertSorts(x, tail, le);
      var rest := Insert(x, tail, le);
      forall i | 0 <= i < |rest|
        ensures le(s[0], rest[i])
      {
        assert rest[i] in multiset(rest);
        assert rest[i] == x || rest[i] in tail;
      }
    }
  }

  /** Sorting yields the elements in order. */
  lemma {:induction false} SortSorts<T(!new)>(s: seq<T>, le: (T, T) -> bool)
    requires IsTotalPreorder(le)
    ensures Sorted(Sort(s, le), le)
    ensures multiset(Sort(s, le)) == multiset(s)
    ensures |Sort(s, le)| == |s|
  {
    if s != [] {
      assert s == [s[0]] + s[1..];
      SortSorts(s[1..], le);
      InsertSorts(s[0], Sort(s[1..], le), le);
      assert |Sort(s, le)| == |multiset(Sort(s, le))|;
    }
  }

  function Where<T>(s: seq<T>, p: T -> bool): seq<T> {
    if s == [] then [] else (if p(s[0]) then [s[0]] else []) + Where(s[1..], p)
  }

  lemma WhereCons<T>(x: T, s: seq<T>, p: T -> bool)
    ensures Where([x] + s, p) == if p(x) then [x] + Where(s, p) else Where(s, p)
  {
    assert ([x] + s)[1..] == s;
    assert [] + Where(s, p) == Where(s, p);
  }

  lemma {:induction false} InsertStable<T(!new)>(x: T, s: seq<T>, le: (T, T) -> bool, p: T -> bool)
    requires forall a, b :: p(a) && p(b) ==> le(a, b)
    ensures Where(Insert(x, s, le), p) == Where([x] + s, p)
  {
    hide Where;
    if s == [] {
      assert [x] + s == [x];
    } else if !le(x, s[0]) {
      var tail := s[1..];
      assert s == [s[0]] + tail;
      InsertStable(x, tail, le, p);
      WhereCons(x, tail, p);
      WhereCons(x, s, p);
      WhereCons(s[0], tail, p);
      WhereCons(s[0], Insert(x, tail, le), p);
    }
  }

  /** Sorting keeps tied elements in the order in which they came. */
  lemma {:induction false} SortStable<T(!new)>(s: seq<T>, le: (T, T) -> bool, p: T -> bool)
    requires forall a, b :: p(a) && p(b) ==> le(a, b)
    ensures Where(Sort(s, le), p) == Where(s, p)
  {
    hide Where, Insert;
    if s != [] {
      var rest := Sort(s[1..], le);
      SortStable(s[1..], le, p);
      InsertStable(s[0], rest, le, p);
      assert s == [s[0]] + s[1..];
      WhereCons(s[0], s[1..], p);
      WhereCons(s[0], rest, p);
    }
  }

  lemma SameFirst<T(!new)>(a: seq<T>, b: seq<T>, le: (T, T) -> bool)
    requires IsTotalOrder(le) && Sorted(a, le) && Sorted(b, le) && multiset(a) == multiset(b)
    requires a != [] && b != []
    ensures a[0] == b[0]
  {
    assert a[0] in multiset(b) && b[0] in multiset(a);
    var i :| 0 <= i < |b| && b[i] == a[0];
    var j :| 0 <= j < |a| && a[j] == b[0];
    assert le(a[0], b[0]) && le(b[0], a[0]);
  }

  lemma TailElements<T>(a: seq<T>)
    requires a != []
    ensures multiset(a[1..]) == multiset(a) - multiset{a[0]}
  {
    assert a == [a[0]] + a[1..];
  }

  /** There is only one way to put given elements in order. */
  lemma {:induction false} SortedUnique<T(!new)>(a: seq<T>, b: seq<T>, le: (T, T) -> bool)
    requires IsTotalOrder(le) && Sorted(a, le) && Sorted(b, le) && multiset(a) == multiset(b)
    ensures a == b
  {
    hide IsTotalOrder;
    assert |a| == |multiset(a)| == |multiset(b)| == |b|;
    if a != [] {
      SameFirst(a, b, le);
      TailElements(a);
      TailElements(b);
      SortedUnique(a[1..], b[1..], le);
      assert a == [a[0]] + a[1..] && b == [b[0]] + b[1..];
    }
  }

  predicate NatLe(a: nat, b: nat) {
    a <= b
  }

  lemma NatLeTotal()
    ensures IsTotalOrder(NatLe)
  {}

  /** Strings in the order in which their first different characters are. */
  predicate StrLe(a: string, b: string) {
    if a == [] then true
    else if b == [] then false
    else if a[0] != b[0] then a[0] < b[0]
    else StrLe(a[1..], b[1..])
  }

  lemma {:induction false} StrLeCases(a: string, b: string)
    ensures StrLe(a, b) || StrLe(b, a)
    ensures StrLe(a, b) && StrLe(b, a) ==> a == b
  {
    if a != [] && b != [] && a[0] == b[0] {
      assert a == [a[0]] + a[1..] && b == [b[0]] + b[1..];
      StrLeCases(a[1..], b[1..]);
    }
  }

  lemma {:induction false} StrLeTransitive(a: string, b: string, c: string)
    requires StrLe(a, b) && StrLe(b, c)
    ensures StrLe(a, c)
  {
    if a != [] && b != [] && c != [] && a[0] == b[0] == c[0] {
      StrLeTransitive(a[1..], b[1..], c[1..]);
    }
  }

  lemma StrLeTotal()
    ensures IsTotalOrder(StrLe)
  {
    forall a, b
      ensures StrLe(a, b) || StrLe(b, a)
      ensures StrLe(a, b) && StrLe(b, a) ==> a == b
    {
      StrLeCases(a, b);
    }
    forall a, b, c | StrLe(a, b) && StrLe(b, c)
      ensures StrLe(a, c)
    {
      StrLeTransitive(a, b, c);
    }
  }

  /** The two first differ at `k`, and there the first has the lesser character. */
  predicate LessAt(a: string, b: string, k: nat) {
    k < |a| && k < |b| && a[..k] == b[..k] && a[k] < b[k]
  }

  lemma LessAtTail(a: string, b: string, k: nat)
    requires a != [] && b != [] && a[0] == b[0]
    ensures LessAt(a, b, k + 1) <==> LessAt(a[1..], b[1..], k)
  {
    if k < |a| - 1 && k < |b| - 1 {
      assert a[..k + 1] == [a[0]] + a[1..][..k] && b[..k + 1] == [b[0]] + b[1..][..k];
      assert a[1..][..k] == a[..k + 1][1..] && b[1..][..k] == b[..k + 1][1..];
    }
  }

  /** A string is before another if it is its prefix or has the lesser character where they first differ. */
  lemma {:induction false} StrLeIff(a: string, b: string)
    ensures StrLe(a, b) <==> a <= b || exists k: nat :: LessAt(a, b, k)
  {
    hide LessAt;
    if a == [] || b == [] {
      NoneLess(a, b);
    } else if a[0] != b[0] {
      FirstDiffers(a, b);
    } else {
      StrLeIff(a[1..], b[1..]);
      assert a == [a[0]] + a[1..] && b == [b[0]] + b[1..];
      if k: nat :| LessAt(a[1..], b[1..], k) {
        LessAtTail(a, b, k);
      }
      if k: nat :| LessAt(a, b, k) {
        NotAtZero(a, b, k);
        LessAtTail(a, b, k - 1);
      }
    }
  }

  lemma NoneLess(a: string, b: string)
    requires a == [] || b == []
    ensures forall k: nat :: !LessAt(a, b, k)
  {}

  lemma NotAtZero(a: string, b: string, k: nat)
    requires LessAt(a, b, k) && a[0] == b[0]
    ensures k > 0
  {}

  lemma FirstDiffers(a: string, b: string)
    requires a != [] && b != [] && a[0] != b[0]
    ensures (exists k: nat :: LessAt(a, b, k)) <==> a[0] < b[0]
  {
    assert a[..0] == b[..0];
    assert LessAt(a, b, 0) <==> a[0] < b[0];
    forall k: nat | k > 0
      ensures !LessAt(a, b, k)
    {
      assert k < |a| && k < |b| ==> a[..k][0] == a[0] && b[..k][0] == b[0];
    }
  }
}

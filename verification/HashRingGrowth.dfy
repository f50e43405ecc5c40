/**
 What makes the ring a consistent hash: adding a node at the end leaves the
 preference order among the old nodes as it was, for every key.
 */
module HashRingGrowth {
  import opened Sorting
  import opened HashRing

  function Keep(s: seq<nat>, p: nat -> bool): seq<nat> {
    if s == [] then []
    else
      var front := Keep(s[..|s| - 1], p);
      if p(s[|s| - 1]) then front + [s[|s| - 1]] else front
  }

  function AtLeast(h: nat): nat -> bool {
    x => x >= h
  }

  function Under(h: nat): nat -> bool {
    x => x < h
  }

  function NotIn(points: seq<nat>): nat -> bool {
    x => x !in points
  }

  function Not(node: nat): nat -> bool {
    i => i != node
  }

  lemma {:induction false} KeepMembers(s: seq<nat>, p: nat -> bool)
    ensures forall x :: x in Keep(s, p) <==> x in s && p(x)
  {
    if s != [] {
      assert s == s[..|s| - 1] + [s[|s| - 1]];
      KeepMembers(s[..|s| - 1], p);
    }
  }

  lemma KeepSnoc(s: seq<nat>, x: nat, p: nat -> bool)
    ensures Keep(s + [x], p) == if p(x) then Keep(s, p) + [x] else Keep(s, p)
  {
    assert (s + [x])[..|s|] == s;
  }

  lemma {:induction false} KeepConcat(a: seq<nat>, b: seq<nat>, p: nat -> bool)
    ensures Keep(a + b, p) == Keep(a, p) + Keep(b, p)
  {
    if b == [] {
      assert a + b == a;
    } else {
      var front, last := b[..|b| - 1], b[|b| - 1];
      assert b == front + [last] && a + b == (a + front) + [last];
      KeepConcat(a, front, p);
      KeepSnoc(a + front, last, p);
    }
  }

  lemma {:induction false} KeepCounts(s: seq<nat>, p: nat -> bool, x: nat)
    ensures multiset(Keep(s, p))[x] == if p(x) then multiset(s)[x] else 0
  {
    if s != [] {
      var front, last := s[..|s| - 1], s[|s| - 1];
      assert s == front + [last];
      KeepCounts(front, p, x);
      KeepSnoc(front, last, p);
    }
  }

  lemma {:induction false} KeepSorted(s: seq<nat>, p: nat -> bool)
    requires Sorted(s, NatLe)
    ensures Sorted(Keep(s, p), NatLe)
  {
    if s != [] {
      var front, last := s[..|s| - 1], s[|s| - 1];
      KeepSorted(front, p);
      KeepMembers(front, p);
      var kept := Keep(front, p);
      forall i | 0 <= i < |kept|
        ensures NatLe(kept[i], last)
      {
        assert kept[i] in front;
      }
    }
  }

  lemma {:induction false} KeepCommutes(s: seq<nat>, p: nat -> bool, q: nat -> bool)
    ensures Keep(Keep(s, p), q) == Keep(Keep(s, q), p)
  {
    if s != [] {
      var front, last := s[..|s| - 1], s[|s| - 1];
      KeepCommutes(front, p, q);
      if p(last) { KeepSnoc(Keep(front, p), last, q); }
      if q(last) { KeepSnoc(Keep(front, q), last, p); }
    }
  }

  lemma {:induction false} KeepAll(s: seq<nat>, p: nat -> bool)
    requires forall x :: x in s ==> p(x)
    ensures Keep(s, p) == s
  {
    if s != [] {
      var front, last := s[..|s| - 1], s[|s| - 1];
      assert s == front + [last];
      KeepAll(front, p);
    }
  }

  lemma KeepNone(s: seq<nat>, p: nat -> bool)
    requires forall x :: x in s ==> !p(x)
    ensures Keep(s, p) == []
  {
    KeepMembers(s, p);
    if Keep(s, p) != [] {
      assert Keep(s, p)[0] in Keep(s, p);
    }
  }

  lemma {:induction false} KeepHead(s: seq<nat>, p: nat -> bool)
    requires s != [] && p(s[0])
    ensures Keep(s, p) != [] && Keep(s, p)[0] == s[0]
  {
    if |s| > 1 {
      KeepHead(s[..|s| - 1], p);
    }
  }

  /** Dropping an element and taking first occurrences can be done in either order. */
  lemma {:induction false} FirstOccKeep(s: seq<nat>, p: nat -> bool)
    ensures FirstOcc(Keep(s, p)) == Keep(FirstOcc(s), p)
  {
    if s != [] {
      var front, last := s[..|s| - 1], s[|s| - 1];
      FirstOccKeep(front, p);
      var first := FirstOcc(front);
      KeepMembers(first, p);
      if last !in first {
        KeepSnoc(first, last, p);
      }
      if p(last) {
        assert (Keep(front, p) + [last])[..|Keep(front, p)|] == Keep(front, p);
      }
    }
  }

  lemma {:induction false} NodesKeep(s: seq<nat>, nodeMap: map<nat, nat>, p: nat -> bool, q: nat -> bool)
    requires forall k :: 0 <= k < |s| ==> s[k] in nodeMap
    requires forall k :: 0 <= k < |s| ==> p(s[k]) == q(nodeMap[s[k]])
    ensures forall k :: 0 <= k < |Keep(s, p)| ==> Keep(s, p)[k] in nodeMap
    ensures Keep(Nodes(s, nodeMap), q) == Nodes(Keep(s, p), nodeMap)
  {
    KeepMembers(s, p);
    forall k | 0 <= k < |Keep(s, p)|
      ensures Keep(s, p)[k] in nodeMap
    {
      assert Keep(s, p)[k] in s;
    }
    if s != [] {
      var front, last := s[..|s| - 1], s[|s| - 1];
      NodesKeep(front, nodeMap, p, q);
      assert Nodes(s, nodeMap)[..|s| - 1] == Nodes(front, nodeMap);
    }
  }

  /** A lap from the key's hash is the points not below it, then the points below it. */
  lemma LapSplits(ring: seq<nat>, h: nat, start: nat)
    requires IsStart(ring, h, start)
    ensures Lap(ring, start) == Keep(ring, AtLeast(h)) + Keep(ring, Under(h))
  {
    assert ring == ring[..start] + ring[start..];
    KeepParts(ring[..start], ring[start..], h);
  }

  lemma KeepParts(low: seq<nat>, high: seq<nat>, h: nat)
    requires forall x :: x in low ==> x < h
    requires forall x :: x in high ==> x >= h
    ensures Keep(low + high, AtLeast(h)) == high
    ensures Keep(low + high, Under(h)) == low
  {
    KeepConcat(low, high, AtLeast(h));
    KeepConcat(low, high, Under(h));
    KeepNone(low, AtLeast(h));
    KeepAll(low, Under(h));
    KeepAll(high, AtLeast(h));
    KeepNone(high, Under(h));
  }

  // ------------------------------------------------------------ one node more

  function Ring(point: (nat, nat) -> nat, numNodes: nat, replicas: nat): seq<nat> {
    Sort(Points(point, numNodes, replicas), NatLe)
  }

  /** The ring is sorted and every point in it has an owner. */
  lemma RingKnown(point: (nat, nat) -> nat, numNodes: nat, replicas: nat)
    ensures Sorted(Ring(point, numNodes, replicas), NatLe)
    ensures forall x :: x in Ring(point, numNodes, replicas) <==> x in Points(point, numNodes, replicas)
    ensures forall x :: x in Points(point, numNodes, replicas) ==> x in NodeMap(point, numNodes, replicas)
  {
    NatLeTotal();
    SortSorts(Points(point, numNodes, replicas), NatLe);
    forall x: nat
      ensures x in Ring(point, numNodes, replicas) <==> x in Points(point, numNodes, replicas)
      ensures x in Points(point, numNodes, replicas) ==> x in NodeMap(point, numNodes, replicas)
    {
      RingHolds(Points(point, numNodes, replicas), x);
      LastWriterOwns(point, numNodes, replicas, x);
    }
  }

  /** The points met by a key, clockwise. */
  function Clockwise(point: (nat, nat) -> nat, numNodes: nat, replicas: nat, h: nat): seq<nat> {
    var ring := Ring(point, numNodes, replicas);
    Lap(ring, Start(ring, h))
  }

  lemma ClockwiseKnown(point: (nat, nat) -> nat, numNodes: nat, replicas: nat, h: nat)
    ensures forall x :: x in Clockwise(point, numNodes, replicas, h) <==> x in Points(point, numNodes, replicas)
    ensures forall x :: x in Points(point, numNodes, replicas) ==> x in NodeMap(point, numNodes, replicas)
    ensures Clockwise(point, numNodes, replicas, h)
         == Keep(Ring(point, numNodes, replicas), AtLeast(h)) + Keep(Ring(point, numNodes, replicas), Under(h))
  {
    hide Ring, Points, NodeMap, Start;
    var ring := Ring(point, numNodes, replicas);
    RingKnown(point, numNodes, replicas);
    StartIsStart(ring, h, Start(ring, h));
    LapSplits(ring, h, Start(ring, h));
    assert ring == ring[..Start(ring, h)] + ring[Start(ring, h)..];
  }

  /** The order in which the ring offers the nodes to a key. */
  ghost function Preference(point: (nat, nat) -> nat, numNodes: nat, replicas: nat, h: nat): seq<nat> {
    ClockwiseKnown(point, numNodes, replicas, h);
    FirstOcc(Nodes(Clockwise(point, numNodes, replicas, h), NodeMap(point, numNodes, replicas)))
  }

  /** It is what the walk returns from the start it finds. */
  lemma PreferenceIsWalk(point: (nat, nat) -> nat, numNodes: nat, replicas: nat, h: nat, start: nat)
    requires IsStart(Ring(point, numNodes, replicas), h, start)
    ensures RingOk(Ring(point, numNodes, replicas), NodeMap(point, numNodes, replicas), numNodes)
    ensures Preference(point, numNodes, replicas, h)
            == FirstOcc(Walk(Ring(point, numNodes, replicas), NodeMap(point, numNodes, replicas), start))
  {
    BuiltRingOk(point, numNodes, replicas);
    StartIsStart(Ring(point, numNodes, replicas), h, start);
  }

  /** Points of old nodes that the new node does not share keep their owner; all its own points are its own. */
  lemma OwnerUnchanged(point: (nat, nat) -> nat, numNodes: nat, replicas: nat, x: nat)
    requires x in Points(point, numNodes + 1, replicas)
    ensures x in NodeMap(point, numNodes + 1, replicas)
    ensures x !in NodePoints(point, numNodes, replicas) <==> NodeMap(point, numNodes + 1, replicas)[x] != numNodes
    ensures x !in NodePoints(point, numNodes, replicas) ==>
              x in NodeMap(point, numNodes, replicas)
                  && NodeMap(point, numNodes + 1, replicas)[x] == NodeMap(point, numNodes, replicas)[x]
  {
    LastWriterOwns(point, numNodes, replicas, x);
    LastWriterOwns(point, numNodes + 1, replicas, x);
  }

  /** Without the new node's points both rings are the same. */
  lemma SameRest(point: (nat, nat) -> nat, numNodes: nat, replicas: nat)
    ensures var added := NotIn(NodePoints(point, numNodes, replicas));
      Keep(Ring(point, numNodes + 1, replicas), added) == Keep(Ring(point, numNodes, replicas), added)
  {
    var old', added := Points(point, numNodes, replicas), NodePoints(point, numNodes, replicas);
    var ring, larger := Ring(point, numNodes, replicas), Ring(point, numNodes + 1, replicas);
    NatLeTotal();
    SortSorts(old' + added, NatLe);
    SortSorts(old', NatLe);
    KeepSorted(ring, NotIn(added));
    KeepSorted(larger, NotIn(added));
    KeepSameRest(ring, larger, old', added);
    SortedUnique(Keep(larger, NotIn(added)), Keep(ring, NotIn(added)), NatLe);
  }

  lemma KeepSameRest(ring: seq<nat>, larger: seq<nat>, first: seq<nat>, added: seq<nat>)
    requires multiset(ring) == multiset(first) && multiset(larger) == multiset(first + added)
    ensures multiset(Keep(larger, NotIn(added))) == multiset(Keep(ring, NotIn(added)))
  {
    var a, b := multiset(Keep(larger, NotIn(added))), multiset(Keep(ring, NotIn(added)));
    forall x: nat
      ensures a[x] == b[x]
    {
      KeepCounts(ring, NotIn(added), x);
      KeepCounts(larger, NotIn(added), x);
      assert multiset(first + added)[x] == multiset(first)[x] + multiset(added)[x];
    }
  }

  /** So a key meets the points that are not the new node's in the same order. */
  lemma ClockwiseKeeps(point: (nat, nat) -> nat, numNodes: nat, replicas: nat, h: nat)
    ensures var added := NotIn(NodePoints(point, numNodes, replicas));
      Keep(Clockwise(point, numNodes + 1, replicas, h), added) == Keep(Clockwise(point, numNodes, replicas, h), added)
  {
    hide Ring, Points, NodeMap, Clockwise, NotIn, NodePoints;
    var p := NotIn(NodePoints(point, numNodes, replicas));
    var ring, larger := Ring(point, numNodes, replicas), Ring(point, numNodes + 1, replicas);
    ClockwiseKnown(point, numNodes, replicas, h);
    ClockwiseKnown(point, numNodes + 1, replicas, h);
    SameRest(point, numNodes, replicas);
    SplitKeeps(ring, h, p);
    SplitKeeps(larger, h, p);
  }

  lemma SplitKeeps(ring: seq<nat>, h: nat, p: nat -> bool)
    ensures Keep(Keep(ring, AtLeast(h)) + Keep(ring, Under(h)), p)
            == Keep(Keep(ring, p), AtLeast(h)) + Keep(Keep(ring, p), Under(h))
  {
    KeepConcat(Keep(ring, AtLeast(h)), Keep(ring, Under(h)), p);
    KeepCommutes(ring, AtLeast(h), p);
    KeepCommutes(ring, Under(h), p);
  }

  /** With one node more the old nodes are offered in the order in which their points that are left are met. */
  lemma GrownPreference(point: (nat, nat) -> nat, numNodes: nat, replicas: nat, h: nat)
    ensures var left := Keep(Clockwise(point, numNodes, replicas, h), NotIn(NodePoints(point, numNodes, replicas)));
      && (forall k :: 0 <= k < |left| ==> left[k] in NodeMap(point, numNodes, replicas))
      && Keep(Preference(point, numNodes + 1, replicas, h), Not(numNodes))
           == FirstOcc(Nodes(left, NodeMap(point, numNodes, replicas)))
  {
    hide Ring, Points, NodeMap, Clockwise;
    var map1, map2 := NodeMap(point, numNodes, replicas), NodeMap(point, numNodes + 1, replicas);
    var p := NotIn(NodePoints(point, numNodes, replicas));
    var lap := Clockwise(point, numNodes + 1, replicas, h);
    ClockwiseKnown(point, numNodes + 1, replicas, h);
    ClockwiseKeeps(point, numNodes, replicas, h);
    forall k | 0 <= k < |lap|
      ensures lap[k] in map2 && p(lap[k]) == (map2[lap[k]] != numNodes)
      ensures p(lap[k]) ==> lap[k] in map1 && map1[lap[k]] == map2[lap[k]]
    {
      OwnerUnchanged(point, numNodes, replicas, lap[k]);
    }
    NodesKeep(lap, map2, p, Not(numNodes));
    FirstOccKeep(Nodes(lap, map2), Not(numNodes));
    var left := Keep(lap, p);
    KeepMembers(lap, p);
    forall k | 0 <= k < |left|
      ensures left[k] in map1 && map1[left[k]] == map2[left[k]]
    {
      assert left[k] in left;
    }
    assert Nodes(left, map2) == Nodes(left, map1);
  }

  // --------------------------------------------------- when the old order is kept

  function NextOf(k: nat, n: nat): (r: nat)
    requires k < n
    ensures r < n
  {
    if k + 1 < n then k + 1 else 0
  }

  /** A point is left, and each point that is taken over is followed by one of the same owner. */
  ghost predicate Harmless(ring: seq<nat>, owner: map<nat, nat>, p: nat -> bool)
    requires forall k :: 0 <= k < |ring| ==> ring[k] in owner
  {
    && (ring != [] ==> exists k :: 0 <= k < |ring| && p(ring[k]))
    && (forall k :: 0 <= k < |ring| && !p(ring[k]) ==> owner[ring[k]] == owner[ring[NextOf(k, |ring|)]])
  }

  lemma FirstOccSnoc(s: seq<nat>, a: nat)
    ensures FirstOcc(s + [a]) == if a in s then FirstOcc(s) else FirstOcc(s) + [a]
  {
    assert (s + [a])[..|s|] == s;
  }

  lemma NodesSnoc(s: seq<nat>, x: nat, owner: map<nat, nat>)
    requires x in owner && forall k :: 0 <= k < |s| ==> s[k] in owner
    ensures Nodes(s + [x], owner) == Nodes(s, owner) + [owner[x]]
  {}

  lemma KeptKnown(s: seq<nat>, owner: map<nat, nat>, p: nat -> bool)
    requires forall k :: 0 <= k < |s| ==> s[k] in owner
    ensures forall k :: 0 <= k < |Keep(s, p)| ==> Keep(s, p)[k] in owner
  {
    KeepMembers(s, p);
    forall k | 0 <= k < |Keep(s, p)|
      ensures Keep(s, p)[k] in owner
    {
      assert Keep(s, p)[k] in Keep(s, p);
    }
  }

  /** The owner of a point that was taken over and is not yet met again. */
  function Owed(s: seq<nat>, owner: map<nat, nat>, p: nat -> bool): seq<nat>
    requires forall k :: 0 <= k < |s| ==> s[k] in owner
  {
    if s != [] && !p(s[|s| - 1]) then [owner[s[|s| - 1]]] else []
  }

  lemma {:induction false} HarmlessPrefix(s: seq<nat>, owner: map<nat, nat>, p: nat -> bool)
    requires forall k :: 0 <= k < |s| ==> s[k] in owner
    requires forall k :: 0 <= k < |s| - 1 && !p(s[k]) ==> owner[s[k]] == owner[s[k + 1]]
    ensures forall k :: 0 <= k < |Keep(s, p)| ==> Keep(s, p)[k] in owner
    ensures FirstOcc(Nodes(s, owner)) == FirstOcc(Nodes(Keep(s, p), owner) + Owed(s, owner, p))
  {
    hide FirstOcc, Keep;
    KeptKnown(s, owner, p);
    if s == [] {
      NothingKept(p);
      assert Nodes(Keep(s, p), owner) + Owed(s, owner, p) == Nodes(s, owner);
    } else {
      var front, x := s[..|s| - 1], s[|s| - 1];
      assert s == front + [x];
      assert forall k :: 0 <= k < |front| ==> front[k] == s[k];
      HarmlessPrefix(front, owner, p);
      var kept := Nodes(Keep(front, p), owner);
      KeepSnoc(front, x, p);
      NodesSnoc(front, x, owner);
      NodesSnoc(Keep(front, p), x, owner);
      FirstOccSnoc(Nodes(front, owner), owner[x]);
      FirstOccSnoc(kept, owner[x]);
      FirstOccSnoc(kept + Owed(front, owner, p), owner[x]);
      assert kept + [] == kept;
      assert Nodes(Keep(s, p), owner) + Owed(s, owner, p) == kept + [owner[x]];
    }
  }

  lemma NothingKept(p: nat -> bool)
    ensures Keep([], p) == []
  {}

  lemma {:induction false} SameUpTo(s: seq<nat>, owner: map<nat, nat>, p: nat -> bool, k: nat)
    requires forall k :: 0 <= k < |s| ==> s[k] in owner
    requires forall k :: 0 <= k < |s| - 1 && !p(s[k]) ==> owner[s[k]] == owner[s[k + 1]]
    requires k < |s| && p(s[k])
    ensures exists m :: 0 <= m <= k && p(s[m]) && owner[s[m]] == owner[s[0]]
  {
    if !p(s[0]) {
      var tail := s[1..];
      assert forall i :: 0 <= i < |tail| ==> tail[i] == s[i + 1];
      SameUpTo(tail, owner, p, k - 1);
      var m :| 0 <= m <= k - 1 && p(tail[m]) && owner[tail[m]] == owner[tail[0]];
      assert s[m + 1] == tail[m];
    }
  }

  /** Harmless take-overs on a lap leave the order as it was. */
  lemma HarmlessLap(s: seq<nat>, owner: map<nat, nat>, p: nat -> bool)
    requires forall k :: 0 <= k < |s| ==> s[k] in owner
    requires Harmless(s, owner, p)
    ensures forall k :: 0 <= k < |Keep(s, p)| ==> Keep(s, p)[k] in owner
    ensures FirstOcc(Nodes(Keep(s, p), owner)) == FirstOcc(Nodes(s, owner))
  {
    hide FirstOcc, Keep;
    forall k | 0 <= k < |s| - 1 && !p(s[k])
      ensures owner[s[k]] == owner[s[k + 1]]
    {
      assert NextOf(k, |s|) == k + 1;
    }
    HarmlessPrefix(s, owner, p);
    var kept := Nodes(Keep(s, p), owner);
    if s != [] && !p(s[|s| - 1]) {
      var last := |s| - 1;
      assert NextOf(last, |s|) == 0;
      var k :| 0 <= k < |s| && p(s[k]);
      SameUpTo(s, owner, p, k);
      var m :| 0 <= m <= k && p(s[m]) && owner[s[m]] == owner[s[0]];
      KeepMembers(s, p);
      assert s[m] in Keep(s, p);
      var i :| 0 <= i < |Keep(s, p)| && Keep(s, p)[i] == s[m];
      assert kept[i] == owner[s[last]];
      FirstOccSnoc(kept, owner[s[last]]);
    } else {
      assert kept + [] == kept;
    }
  }

  /** What is harmless on the ring is harmless on every lap of it. */
  lemma HarmlessTurned(ring: seq<nat>, owner: map<nat, nat>, p: nat -> bool, start: nat)
    requires forall k :: 0 <= k < |ring| ==> ring[k] in owner
    requires Harmless(ring, owner, p) && start <= |ring|
    ensures forall k :: 0 <= k < |ring| ==> Lap(ring, start)[k] in owner
    ensures Harmless(Lap(ring, start), owner, p)
  {
    var lap, n := Lap(ring, start), |ring|;
    if n > 0 {
      var k :| 0 <= k < n && p(ring[k]);
      assert lap[if k >= start then k - start else n - start + k] == ring[k];
    }
    forall k | 0 <= k < n && !p(lap[k])
      ensures owner[lap[k]] == owner[lap[NextOf(k, n)]]
    {
      var at := if k < n - start then start + k else k - (n - start);
      assert lap[k] == ring[at];
      assert lap[NextOf(k, n)] == ring[NextOf(at, n)];
    }
  }

  /** What the new node takes over from the old ones does them no harm. */
  ghost predicate ClashHarmless(point: (nat, nat) -> nat, numNodes: nat, replicas: nat) {
    RingKnown(point, numNodes, replicas);
    Harmless(Ring(point, numNodes, replicas), NodeMap(point, numNodes, replicas),
        NotIn(NodePoints(point, numNodes, replicas)))
  }

  /** The old nodes are offered to the key in the same order with one node more. */
  ghost predicate OrderKept(point: (nat, nat) -> nat, numNodes: nat, replicas: nat, h: nat) {
    Keep(Preference(point, numNodes + 1, replicas, h), Not(numNodes)) == Preference(point, numNodes, replicas, h)
  }

  lemma HarmlessKeepsOrder(point: (nat, nat) -> nat, numNodes: nat, replicas: nat, h: nat)
    requires ClashHarmless(point, numNodes, replicas)
    ensures OrderKept(point, numNodes, replicas, h)
  {
    hide Ring, Points, NodeMap, Start, Harmless;
    var ring, owner, p := Ring(point, numNodes, replicas), NodeMap(point, numNodes, replicas),
        NotIn(NodePoints(point, numNodes, replicas));
    RingKnown(point, numNodes, replicas);
    GrownPreference(point, numNodes, replicas, h);
    HarmlessTurned(ring, owner, p, Start(ring, h));
    HarmlessLap(Lap(ring, Start(ring, h)), owner, p);
  }

  // ----------------------------------------------------------------- and only then

  lemma FirstOccHead(s: seq<nat>)
    requires s != []
    ensures FirstOcc(s) != [] && FirstOcc(s)[0] == s[0]
  {
    FirstOccPrefix(s, 1);
    assert s[..1] == [s[0]] && [s[0]][..0] == [];
    assert FirstOcc([s[0]]) == [s[0]];
  }

  /** If the order is kept, the first point met belongs to the owner of the first point left. */
  lemma FirstLeftOwner(point: (nat, nat) -> nat, numNodes: nat, replicas: nat, h: nat)
    requires OrderKept(point, numNodes, replicas, h) && Points(point, numNodes, replicas) != []
    ensures var lap, owner := Clockwise(point, numNodes, replicas, h), NodeMap(point, numNodes, replicas);
      var left := Keep(lap, NotIn(NodePoints(point, numNodes, replicas)));
      && lap != [] && left != [] && lap[0] in owner && left[0] in owner && owner[lap[0]] == owner[left[0]]
  {
    hide Ring, Points, NodeMap, Clockwise, FirstOcc, NotIn;
    var lap, owner := Clockwise(point, numNodes, replicas, h), NodeMap(point, numNodes, replicas);
    ClockwiseKnown(point, numNodes, replicas, h);
    GrownPreference(point, numNodes, replicas, h);
    assert Points(point, numNodes, replicas)[0] in lap;
    var left := Keep(lap, NotIn(NodePoints(point, numNodes, replicas)));
    FirstOccHead(Nodes(lap, owner));
    EmptyFirst(Nodes(left, owner));
    FirstOccHead(Nodes(left, owner));
  }

  lemma EmptyFirst(s: seq<nat>)
    ensures s == [] ==> FirstOcc(s) == []
  {}

  /** A lap that starts at a point's own hash starts at the point. */
  lemma LapAtPoint(ring: seq<nat>, k: nat)
    requires Sorted(ring, NatLe) && k < |ring|
    ensures Start(ring, ring[k]) <= k && forall i :: Start(ring, ring[k]) <= i <= k ==> ring[i] == ring[k]
  {
    hide Start;
    var start := Start(ring, ring[k]);
    StartIsStart(ring, ring[k], start);
    forall i | start <= i <= k
      ensures ring[i] == ring[k]
    {
      assert i == k || NatLe(ring[i], ring[k]);
    }
  }

  /** Points taken over at the front of a lap can go to its end. */
  lemma TurnKeeps(lap: seq<nat>, j: nat, p: nat -> bool)
    requires j <= |lap| && forall i :: 0 <= i < j ==> !p(lap[i])
    ensures Keep(lap[j..] + lap[..j], p) == Keep(lap, p)
  {
    assert lap == lap[..j] + lap[j..];
    KeepConcat(lap[..j], lap[j..], p);
    KeepConcat(lap[j..], lap[..j], p);
    KeepNone(lap[..j], p);
    assert Keep(lap[j..], p) + [] == Keep(lap[j..], p) == [] + Keep(lap[j..], p);
  }

  /** One point taken over: the next point on the ring has the same owner. */
  lemma NextSameOwner(point: (nat, nat) -> nat, numNodes: nat, replicas: nat, k: nat)
    requires forall h :: OrderKept(point, numNodes, replicas, h)
    requires k < |Ring(point, numNodes, replicas)|
    requires Ring(point, numNodes, replicas)[k] in NodePoints(point, numNodes, replicas)
    ensures var ring, owner := Ring(point, numNodes, replicas), NodeMap(point, numNodes, replicas);
      var next := NextOf(k, |ring|);
      ring[k] in owner && ring[next] in owner && owner[ring[k]] == owner[ring[next]]
  {
    hide Ring, Points, NodeMap, NodePoints, Keep, Start, OrderKept;
    var ring, owner := Ring(point, numNodes, replicas), NodeMap(point, numNodes, replicas);
    var p := NotIn(NodePoints(point, numNodes, replicas));
    RingKnown(point, numNodes, replicas);
    var x, next := ring[k], NextOf(k, |ring|);
    var y := ring[next];
    assert x in ring && y in ring;
    if y != x {
      FirstLeftOwner(point, numNodes, replicas, x);
      LapAtPoint(ring, k);
      var start := Start(ring, x);
      var lap := Lap(ring, start);
      var j := k + 1 - start;
      TurnAt(ring, k, p);
      if p(y) {
        KeepHead(lap[j..] + lap[..j], p);
      } else {
        FirstLeftOwner(point, numNodes, replicas, y);
      }
    }
  }

  /** The lap from the point behind the last one equal to `ring[k]` is the lap from `ring[k]` turned on. */
  lemma TurnAt(ring: seq<nat>, k: nat, p: nat -> bool)
    requires Sorted(ring, NatLe) && k < |ring| && !p(ring[k]) && ring[NextOf(k, |ring|)] != ring[k]
    ensures var start := Start(ring, ring[k]);
            var lap, j, y := Lap(ring, start), k + 1 - start, ring[NextOf(k, |ring|)];
      && 0 < j < |lap| && lap[0] == ring[k] && lap[j] == y
      && (lap[j..] + lap[..j])[0] == y
      && Lap(ring, Start(ring, y)) == lap[j..] + lap[..j]
      && Keep(lap[j..] + lap[..j], p) == Keep(lap, p)
  {
    hide Start, Keep, Sorted, NotIn;
    LapAtPoint(ring, k);
    var start, next := Start(ring, ring[k]), NextOf(k, |ring|);
    var lap, j := Lap(ring, start), k + 1 - start;
    assert forall i :: 0 <= i < j ==> lap[i] == ring[start + i];
    TurnKeeps(lap, j, p);
    StartsAtNext(ring, k);
    TurnOn(ring, start, k);
  }

  lemma StartsAtNext(ring: seq<nat>, k: nat)
    requires Sorted(ring, NatLe) && k < |ring| && ring[NextOf(k, |ring|)] != ring[k]
    ensures Start(ring, ring[NextOf(k, |ring|)]) == NextOf(k, |ring|)
  {
    hide Start;
    var next := NextOf(k, |ring|);
    forall i | 0 <= i < next
      ensures ring[i] < ring[next]
    {
      assert i == k || NatLe(ring[i], ring[k]);
      assert NatLe(ring[k], ring[next]);
    }
    forall i | next <= i < |ring|
      ensures ring[i] >= ring[next]
    {
      assert i == next || NatLe(ring[next], ring[i]);
    }
    StartIsStart(ring, ring[next], next);
  }

  lemma TurnOn(ring: seq<nat>, start: nat, k: nat)
    requires start <= k < |ring| && (start == 0 ==> k + 1 < |ring|)
    ensures var lap, j := Lap(ring, start), k + 1 - start;
            j < |lap| && lap[j..] + lap[..j] == Lap(ring, NextOf(k, |ring|))
  {
    var lap, j := Lap(ring, start), k + 1 - start;
    if k + 1 < |ring| {
      assert lap[j..] == ring[k + 1..] + ring[..start];
      assert lap[..j] == ring[start..k + 1];
    } else {
      assert lap[j..] == ring[..start] && lap[..j] == ring[start..];
    }
  }

  lemma KeptOrderIsHarmless(point: (nat, nat) -> nat, numNodes: nat, replicas: nat)
    requires forall h :: OrderKept(point, numNodes, replicas, h)
    ensures ClashHarmless(point, numNodes, replicas)
  {
    hide Ring, Points, NodeMap, NodePoints, Keep, OrderKept, Clockwise;
    var ring, p := Ring(point, numNodes, replicas), NotIn(NodePoints(point, numNodes, replicas));
    RingKnown(point, numNodes, replicas);
    if ring != [] {
      assert ring[0] in ring;
      assert OrderKept(point, numNodes, replicas, 0);
      FirstLeftOwner(point, numNodes, replicas, 0);
      var lap := Clockwise(point, numNodes, replicas, 0);
      ClockwiseKnown(point, numNodes, replicas, 0);
      KeepMembers(lap, p);
      var x := Keep(lap, p)[0];
      assert x in Keep(lap, p);
      var k :| 0 <= k < |ring| && ring[k] == x;
    }
    forall k: nat | k < |ring| && !p(ring[k])
      ensures NodeMap(point, numNodes, replicas)[ring[k]] == NodeMap(point, numNodes, replicas)[ring[NextOf(k, |ring|)]]
    {
      NextSameOwner(point, numNodes, replicas, k);
    }
  }

  /**
   One node more leaves the order of the old nodes as it was for every key if
   and only if some old point is left and each point that the new node takes
   over is followed on the ring by a point of the same owner.
   */
  lemma GrowthKeepsPreferences(point: (nat, nat) -> nat, numNodes: nat, replicas: nat)
    ensures (forall h :: OrderKept(point, numNodes, replicas, h)) <==> ClashHarmless(point, numNodes, replicas)
  {
    hide OrderKept, ClashHarmless;
    if ClashHarmless(point, numNodes, replicas) {
      forall h: nat
        ensures OrderKept(point, numNodes, replicas, h)
      {
        HarmlessKeepsOrder(point, numNodes, replicas, h);
      }
    }
    if forall h :: OrderKept(point, numNodes, replicas, h) {
      KeptOrderIsHarmless(point, numNodes, replicas);
    }
  }

  /** Points that clash with none of the old ones do no harm. */
  lemma NewPointsAreHarmless(point: (nat, nat) -> nat, numNodes: nat, replicas: nat)
    requires forall x :: x in NodePoints(point, numNodes, replicas) ==> x !in Points(point, numNodes, replicas)
    ensures ClashHarmless(point, numNodes, replicas)
  {
    hide Ring, Points, NodeMap;
    RingKnown(point, numNodes, replicas);
    var ring, p := Ring(point, numNodes, replicas), NotIn(NodePoints(point, numNodes, replicas));
    assert forall k :: 0 <= k < |ring| ==> ring[k] in ring && p(ring[k]);
    assert ring != [] ==> p(ring[0]);
  }

  // ------------------------------------------------------------- the primary node

  /** No point comes before the first one met. */
  predicate NotAfter(h: nat, a: nat, b: nat) {
    if a >= h then b < h || a <= b else b < h && a <= b
  }

  lemma FirstMet(point: (nat, nat) -> nat, numNodes: nat, replicas: nat, h: nat, x: nat)
    requires x in Points(point, numNodes, replicas)
    ensures var lap := Clockwise(point, numNodes, replicas, h);
      lap != [] && lap[0] in Points(point, numNodes, replicas) && NotAfter(h, lap[0], x)
  {
    hide Points, NodeMap, Start, Ring;
    var ring := Ring(point, numNodes, replicas);
    var start := Start(ring, h);
    RingKnown(point, numNodes, replicas);
    StartIsStart(ring, h, start);
    var k :| 0 <= k < |ring| && ring[k] == x;
    var first := if start < |ring| then start else 0;
    assert Clockwise(point, numNodes, replicas, h)[0] == ring[first];
    assert ring[first] in ring;
    if first < k {
      assert NatLe(ring[first], ring[k]);
    } else if k < first {
      assert ring[k] < h <= ring[first];
    }
  }

  lemma PreferenceHead(point: (nat, nat) -> nat, numNodes: nat, replicas: nat, h: nat)
    requires Points(point, numNodes, replicas) != []
    ensures var lap := Clockwise(point, numNodes, replicas, h);
      && lap != [] && lap[0] in NodeMap(point, numNodes, replicas)
      && Preference(point, numNodes, replicas, h) != []
      && Preference(point, numNodes, replicas, h)[0] == NodeMap(point, numNodes, replicas)[lap[0]]
  {
    hide Points, NodeMap, Clockwise, FirstOcc;
    ClockwiseKnown(point, numNodes, replicas, h);
    assert Points(point, numNodes, replicas)[0] in Clockwise(point, numNodes, replicas, h);
    FirstOccHead(Nodes(Clockwise(point, numNodes, replicas, h), NodeMap(point, numNodes, replicas)));
  }

  /** A new node may take a key over; otherwise the key keeps its primary worker, whatever points clash. */
  lemma PrimaryMovesOnlyToNewNode(point: (nat, nat) -> nat, numNodes: nat, replicas: nat, h: nat)
    requires numNodes > 0 && replicas > 0
    ensures Preference(point, numNodes, replicas, h) != [] && Preference(point, numNodes + 1, replicas, h) != []
    ensures var before, after := Preference(point, numNodes, replicas, h)[0],
            Preference(point, numNodes + 1, replicas, h)[0];
      after == before || after == numNodes
  {
    hide Preference, Clockwise, NodeMap;
    PointOf(point, numNodes, replicas, 0, 0);
    PreferenceHead(point, numNodes, replicas, h);
    PreferenceHead(point, numNodes + 1, replicas, h);
    var x, y := Clockwise(point, numNodes, replicas, h)[0], Clockwise(point, numNodes + 1, replicas, h)[0];
    FirstMet(point, numNodes, replicas, h, point(0, 0));
    assert x in Points(point, numNodes + 1, replicas);
    FirstMet(point, numNodes + 1, replicas, h, x);
    OwnerUnchanged(point, numNodes, replicas, y);
    if y !in NodePoints(point, numNodes, replicas) {
      FirstMet(point, numNodes, replicas, h, y);
    }
  }

  /** Node 2 shares the second point of node 0. */
  function ClashingPoint(i: nat, r: nat): nat {
    if i == 0 then if r == 0 then 1 else 2
    else if i == 1 then if r == 0 then 3 else 4
    else if r == 0 then 2 else 9
  }

  lemma ClashingNode(i: nat)
    ensures NodePoints(ClashingPoint, i, 2) == [ClashingPoint(i, 0), ClashingPoint(i, 1)]
  {}

  lemma ClashingPoints()
    ensures Points(ClashingPoint, 2, 2) == [1, 2, 3, 4]
  {
    hide NodePoints;
    ClashingNode(0);
    ClashingNode(1);
    assert Points(ClashingPoint, 0, 2) == [];
    assert Points(ClashingPoint, 1, 2) == [1, 2];
    assert Points(ClashingPoint, 2, 2) == Points(ClashingPoint, 1, 2) + NodePoints(ClashingPoint, 1, 2);
  }

  lemma ClashingRing()
    ensures Ring(ClashingPoint, 2, 2) == [1, 2, 3, 4]
  {
    hide Points, Sort, IsTotalPreorder;
    ClashingPoints();
    var points: seq<nat> := [1, 2, 3, 4];
    NatLeTotal();
    SortSorts(points, NatLe);
    SortedUnique(Sort(points, NatLe), points, NatLe);
  }

  lemma ClashingOwners()
    ensures 2 in NodeMap(ClashingPoint, 2, 2) && 3 in NodeMap(ClashingPoint, 2, 2)
    ensures NodeMap(ClashingPoint, 2, 2)[2] == 0 && NodeMap(ClashingPoint, 2, 2)[3] == 1
  {
    hide NodePoints;
    ClashingNode(0);
    ClashingNode(1);
    assert 2 in NodeMap(ClashingPoint, 1, 2) && NodeMap(ClashingPoint, 1, 2)[2] == 0;
  }

  /** A point in a clash can turn the order of two old nodes round. */
  lemma ClashTurnsOrder()
    ensures exists h :: !OrderKept(ClashingPoint, 2, 2, h)
  {
    hide Ring, NodeMap, NodePoints, OrderKept;
    ClashingRing();
    ClashingOwners();
    ClashingNode(2);
    RingKnown(ClashingPoint, 2, 2);
    GrowthKeepsPreferences(ClashingPoint, 2, 2);
    assert NextOf(1, 4) == 2;
  }
}

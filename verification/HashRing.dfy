/**
 The consistent-hash ring that orders the workers for a key
 (internal/builddaemon/scheduler.go and internal/buildbatch/consistent_hash.go,
 which share the algorithm).

 The hash function is a parameter: `point(i, r)` is the hash of replica `r` of
 node `i`, and `h` the hash of the key.
 */
module HashRing {
  import opened Basics
  import opened Sorting

  function NodePoints(point: (nat, nat) -> nat, node: nat, replicas: nat): (r: seq<nat>)
    ensures |r| == replicas
  {
    seq(replicas, k requires 0 <= k < replicas => point(node, k))
  }

  /** All points in the order in which they are appended. */
  function Points(point: (nat, nat) -> nat, numNodes: nat, replicas: nat): seq<nat> {
    if numNodes == 0 then []
    else Points(point, numNodes - 1, replicas) + NodePoints(point, numNodes - 1, replicas)
  }

  /** Which node a point belongs to: with colliding hashes the last node written wins. */
  function NodeMap(point: (nat, nat) -> nat, numNodes: nat, replicas: nat): map<nat, nat> {
    if numNodes == 0 then map[]
    else NodeMap(point, numNodes - 1, replicas)
         + Owned(NodePoints(point, numNodes - 1, replicas), numNodes - 1)
  }

  function Owned(points: seq<nat>, node: nat): map<nat, nat> {
    map x | x in points :: node
  }

  method NewConsistentHash(point: (nat, nat) -> nat, numNodes: nat, replicas: nat)
    returns (ring: seq<nat>, nodeMap: map<nat, nat>)
    ensures ring == Sort(Points(point, numNodes, replicas), NatLe)
    ensures nodeMap == NodeMap(point, numNodes, replicas)
  {
    ring, nodeMap := [], map[];
    for i := 0 to numNodes
      invariant ring == Points(point, i, replicas)
      invariant nodeMap == NodeMap(point, i, replicas)
    {
      ghost var mine := NodePoints(point, i, replicas);
      for r := 0 to replicas
        invariant ring == Points(point, i, replicas) + mine[..r]
        invariant nodeMap == NodeMap(point, i, replicas) + Owned(mine[..r], i)
      {
        var h := point(i, r);
        assert mine[..r + 1] == mine[..r] + [h];
        ring := ring + [h];
        nodeMap := nodeMap[h := i];
      }
      assert mine[..replicas] == mine;
    }
    ring := Sort(ring, NatLe);
  }

  /** Every point has an owner, and it is the last node that has a replica there. */
  lemma {:induction false} LastWriterOwns(point: (nat, nat) -> nat, numNodes: nat, replicas: nat, x: nat)
    ensures x in NodeMap(point, numNodes, replicas) <==> x in Points(point, numNodes, replicas)
    ensures x in NodeMap(point, numNodes, replicas) ==>
      var owner := NodeMap(point, numNodes, replicas)[x];
      && owner < numNodes && x in NodePoints(point, owner, replicas)
      && forall later: nat :: owner < later < numNodes ==> x !in NodePoints(point, later, replicas)
  {
    if numNodes > 0 {
      LastWriterOwns(point, numNodes - 1, replicas, x);
    }
  }

  /** A freshly built ring is sorted and knows the owner of every point. */
  lemma BuiltRingOk(point: (nat, nat) -> nat, numNodes: nat, replicas: nat)
    ensures RingOk(Sort(Points(point, numNodes, replicas), NatLe), NodeMap(point, numNodes, replicas), numNodes)
  {
    var points := Points(point, numNodes, replicas);
    var ring := Sort(points, NatLe);
    NatLeTotal();
    SortSorts(points, NatLe);
    forall k | 0 <= k < |ring|
      ensures ring[k] in NodeMap(point, numNodes, replicas) && NodeMap(point, numNodes, replicas)[ring[k]] < numNodes
    {
      assert ring[k] in multiset(points);
      LastWriterOwns(point, numNodes, replicas, ring[k]);
    }
  }

  // ---------------------------------------------------------- preference order

  /** Each element at its first occurrence. */
  function FirstOcc(s: seq<nat>): (r: seq<nat>)
    ensures NoDup(r)
    ensures forall x :: x in r <==> x in s
    ensures |r| <= |s|
  {
    if s == [] then []
    else
      var front := FirstOcc(s[..|s| - 1]);
      assert s == s[..|s| - 1] + [s[|s| - 1]];
      if s[|s| - 1] in front then front else front + [s[|s| - 1]]
  }

  lemma {:induction false} FirstOccPrefix(s: seq<nat>, n: nat)
    requires n <= |s|
    ensures FirstOcc(s[..n]) <= FirstOcc(s)
  {
    if n < |s| {
      var front := s[..|s| - 1];
      assert s[..n] == front[..n];
      FirstOccPrefix(front, n);
    } else {
      assert s[..n] == s;
    }
  }

  /** The least index whose point is not below `h`, or the length if there is none. */
  ghost predicate IsStart(ring: seq<nat>, h: nat, start: nat) {
    && start <= |ring|
    && (forall k :: 0 <= k < start ==> ring[k] < h)
    && (forall k :: start <= k < |ring| ==> ring[k] >= h)
  }

  /** One lap around the ring. */
  function Lap(ring: seq<nat>, start: nat): (r: seq<nat>)
    requires start <= |ring|
    ensures |r| == |ring|
    ensures forall k :: 0 <= k < |r| ==> r[k] in ring
  {
    ring[start..] + ring[..start]
  }

  function Nodes(points: seq<nat>, nodeMap: map<nat, nat>): (r: seq<nat>)
    requires forall k :: 0 <= k < |points| ==> points[k] in nodeMap
    ensures |r| == |points|
    ensures forall k :: 0 <= k < |points| ==> r[k] == nodeMap[points[k]]
  {
    seq(|points|, k requires 0 <= k < |points| => nodeMap[points[k]])
  }

  /** The ring knows the owner of every point, and owners are nodes. */
  ghost predicate RingOk(ring: seq<nat>, nodeMap: map<nat, nat>, numNodes: nat) {
    && Sorted(ring, NatLe)
    && (forall k :: 0 <= k < |ring| ==> ring[k] in nodeMap && nodeMap[ring[k]] < numNodes)
  }

  predicate OwnsAt(ring: seq<nat>, nodeMap: map<nat, nat>, k: nat, node: nat) {
    k < |ring| && ring[k] in nodeMap && nodeMap[ring[k]] == node
  }

  ghost predicate Survives(ring: seq<nat>, nodeMap: map<nat, nat>, node: nat) {
    exists k: nat :: OwnsAt(ring, nodeMap, k, node)
  }

  /** Every node still owns a point after collisions. */
  ghost predicate AllSurvive(ring: seq<nat>, nodeMap: map<nat, nat>, numNodes: nat) {
    forall i: nat :: i < numNodes ==> Survives(ring, nodeMap, i)
  }

  /** The nodes met on one lap from `start`. */
  function Walk(ring: seq<nat>, nodeMap: map<nat, nat>, start: nat): (r: seq<nat>)
    requires start <= |ring| && forall k :: 0 <= k < |ring| ==> ring[k] in nodeMap
    ensures |r| == |ring|
    ensures forall k :: 0 <= k < |ring| ==> r[k] == nodeMap[Lap(ring, start)[k]]
  {
    Nodes(Lap(ring, start), nodeMap)
  }

  /** `sort.Search`: a binary search for the first point not below the key's hash. */
  method SearchRing(ring: seq<nat>, h: nat) returns (start: nat)
    requires Sorted(ring, NatLe)
    ensures IsStart(ring, h, start)
  {
    var lo, hi := 0, |ring|;
    while lo < hi
      invariant 0 <= lo <= hi <= |ring|
      invariant forall k :: 0 <= k < lo ==> ring[k] < h
      invariant forall k :: hi <= k < |ring| ==> ring[k] >= h
    {
      var mid := (lo + hi) / 2;
      assert forall k :: 0 <= k < mid ==> NatLe(ring[k], ring[mid]);
      assert forall k :: mid < k < |ring| ==> NatLe(ring[mid], ring[k]);
      if ring[mid] >= h {
        hi := mid;
      } else {
        lo := mid + 1;
      }
    }
    start := lo;
  }

  /** The ring's point under the running index is the lap's point at that step. */
  lemma StepPoint(ring: seq<nat>, start: nat, steps: nat)
    requires start <= |ring| && steps < |ring|
    ensures ring[((if start >= |ring| then 0 else start) + steps) % |ring|] == Lap(ring, start)[steps]
  {
    ModIndex((if start >= |ring| then 0 else start) + steps, |ring|);
  }

  lemma FirstOccStep(nodes: seq<nat>, steps: nat)
    requires steps < |nodes|
    ensures var front := FirstOcc(nodes[..steps]);
      FirstOcc(nodes[..steps + 1]) == if nodes[steps] in front then front else front + [nodes[steps]]
  {
    assert nodes[..steps + 1][..steps] == nodes[..steps];
  }

  /** Once every node was met nothing more is added. */
  lemma WalkOver(nodes: seq<nat>, steps: nat, numNodes: nat)
    requires steps <= |nodes| && |FirstOcc(nodes)| == numNodes
    ensures |FirstOcc(nodes[..steps])| <= numNodes
    ensures |FirstOcc(nodes[..steps])| >= numNodes ==> FirstOcc(nodes[..steps]) == FirstOcc(nodes)
    ensures |FirstOcc(nodes[..steps])| < numNodes ==> steps < |nodes|
  {
    FirstOccPrefix(nodes, steps);
    assert nodes[..|nodes|] == nodes;
  }

  /** The node that a clockwise walk is at after some steps. */
  function MetAt(ring: seq<nat>, nodeMap: map<nat, nat>, start: nat, steps: nat): nat
    requires steps < |ring| && forall k :: 0 <= k < |ring| ==> ring[k] in nodeMap
  {
    nodeMap[ring[(start + steps) % |ring|]]
  }

  /** A clockwise walk meets the node after so many steps and not before. */
  ghost predicate FirstMet(ring: seq<nat>, nodeMap: map<nat, nat>, start: nat, node: nat, steps: nat)
    requires forall k :: 0 <= k < |ring| ==> ring[k] in nodeMap
  {
    && steps < |ring| && MetAt(ring, nodeMap, start, steps) == node
    && forall earlier: nat :: earlier < steps ==> MetAt(ring, nodeMap, start, earlier) != node
  }

  /** Each node of the ring is listed once, and the nodes in the order in which a clockwise walk first meets them. */
  ghost predicate AsFirstMet(ring: seq<nat>, nodeMap: map<nat, nat>, start: nat, order: seq<nat>)
    requires forall k :: 0 <= k < |ring| ==> ring[k] in nodeMap
  {
    && NoDup(order)
    && (forall node :: node in order <==> exists k :: 0 <= k < |ring| && nodeMap[ring[k]] == node)
    && (forall i, j, a: nat, b: nat ::
          && 0 <= i < |order| && 0 <= j < |order|
          && FirstMet(ring, nodeMap, start, order[i], a) && FirstMet(ring, nodeMap, start, order[j], b)
          ==> (i < j <==> a < b))
  }

  lemma MetIsWalk(ring: seq<nat>, nodeMap: map<nat, nat>, start: nat, steps: nat)
    requires steps < |ring| && start <= |ring| && forall k :: 0 <= k < |ring| ==> ring[k] in nodeMap
    ensures MetAt(ring, nodeMap, start, steps) == Walk(ring, nodeMap, start)[steps]
  {
    StepPoint(ring, start, steps);
    ModIndex(start + steps, |ring|);
    ModIndex((if start >= |ring| then 0 else start) + steps, |ring|);
  }

  /** Where a listed element first occurs, and that earlier ones are listed before. */
  lemma {:induction false} OccursInOrder(s: seq<nat>, i: nat, j: nat, a: nat, b: nat)
    requires i < |FirstOcc(s)| && j < |FirstOcc(s)| && a < |s| && b < |s|
    requires s[a] == FirstOcc(s)[i] && forall k :: 0 <= k < a ==> s[k] != s[a]
    requires s[b] == FirstOcc(s)[j] && forall k :: 0 <= k < b ==> s[k] != s[b]
    ensures i < j <==> a < b
  {
    var n := |s| - 1;
    var front := FirstOcc(s[..n]);
    OccursBefore(s, i, a);
    OccursBefore(s, j, b);
    if i < |front| && j < |front| {
      OccursInOrder(s[..n], i, j, a, b);
    }
  }

  lemma OccursBefore(s: seq<nat>, i: nat, a: nat)
    requires s != [] && i < |FirstOcc(s)| && a < |s|
    requires s[a] == FirstOcc(s)[i] && forall k :: 0 <= k < a ==> s[k] != s[a]
    ensures i < |FirstOcc(s[..|s| - 1])| <==> a < |s| - 1
  {
    var n := |s| - 1;
    var front := FirstOcc(s[..n]);
    assert forall k :: 0 <= k < n ==> s[..n][k] == s[k];
    assert i < |front| <==> s[a] in front;
    assert s[a] in front <==> s[a] in s[..n];
  }

  lemma WalkIsFirstMet(ring: seq<nat>, nodeMap: map<nat, nat>, numNodes: nat, start: nat)
    requires RingOk(ring, nodeMap, numNodes) && start <= |ring|
    ensures AsFirstMet(ring, nodeMap, start, FirstOcc(Walk(ring, nodeMap, start)))
  {
    hide RingOk, Walk, Lap, MetAt;
    RingKnows(ring, nodeMap, numNodes);
    var nodes := Walk(ring, nodeMap, start);
    var order := FirstOcc(nodes);
    forall steps: nat | steps < |ring|
      ensures MetAt(ring, nodeMap, start, steps) == nodes[steps]
    {
      MetIsWalk(ring, nodeMap, start, steps);
    }
    forall node
      ensures node in order <==> exists k :: 0 <= k < |ring| && nodeMap[ring[k]] == node
    {
      WalkedIff(ring, nodeMap, numNodes, start, node);
    }
    forall i, j, a: nat, b: nat |
      && 0 <= i < |order| && 0 <= j < |order|
      && FirstMet(ring, nodeMap, start, order[i], a) && FirstMet(ring, nodeMap, start, order[j], b)
      ensures i < j <==> a < b
    {
      OccursInOrder(nodes, i, j, a, b);
    }
  }

  lemma RingKnows(ring: seq<nat>, nodeMap: map<nat, nat>, numNodes: nat)
    requires RingOk(ring, nodeMap, numNodes)
    ensures forall k :: 0 <= k < |ring| ==> ring[k] in nodeMap
  {}

  lemma WalkedIff(ring: seq<nat>, nodeMap: map<nat, nat>, numNodes: nat, start: nat, node: nat)
    requires RingOk(ring, nodeMap, numNodes) && start <= |ring|
    ensures node in Walk(ring, nodeMap, start) <==> exists k :: 0 <= k < |ring| && nodeMap[ring[k]] == node
  {
    if node in Walk(ring, nodeMap, start) {
      LapNodes(ring, nodeMap, numNodes, start, node);
      var k: nat :| OwnsAt(ring, nodeMap, k, node);
    }
    if k :| 0 <= k < |ring| && nodeMap[ring[k]] == node {
      assert OwnsAt(ring, nodeMap, k, node);
      SurvivorMet(ring, nodeMap, numNodes, start, node);
    }
  }

  /**
   The walk ends within one lap and returns the nodes in the order in which the
   clockwise walk from the key's hash first meets them.
   */
  method GetSlotOrder(ring: seq<nat>, nodeMap: map<nat, nat>, numNodes: nat, h: nat)
    returns (order: seq<nat>, ghost start: nat)
    requires RingOk(ring, nodeMap, numNodes)
    requires ring != [] ==> AllSurvive(ring, nodeMap, numNodes)
    ensures ring == [] ==> order == []
    ensures IsStart(ring, h, start)
    ensures ring != [] ==> order == FirstOcc(Walk(ring, nodeMap, start))
    ensures ring != [] ==> AsFirstMet(ring, nodeMap, start, order)
  {
    hide AllSurvive, Lap, Walk, FirstOcc, AsFirstMet;
    start := 0;
    order := [];
    if |ring| == 0 {
      return;
    }
    var found := SearchRing(ring, h);
    start := found;
    WalkIsFirstMet(ring, nodeMap, numNodes, start);
    var idx := found;
    if idx >= |ring| {
      idx := 0;
    }
    ghost var base := idx;
    ghost var nodes := Walk(ring, nodeMap, start);
    AllVisited(ring, nodeMap, numNodes, start);
    ghost var steps := 0;
    var seen: set<nat> := {};
    EmptyOcc(nodes);
    while |order| < numNodes
      invariant steps <= |ring|
      invariant idx == base + steps
      invariant order == FirstOcc(nodes[..steps])
      invariant forall x :: x in seen <==> x in order
      decreases |ring| - steps
    {
      WalkOver(nodes, steps, numNodes);
      StepPoint(ring, start, steps);
      FirstOccStep(nodes, steps);
      var nodeIdx := nodeMap[ring[idx % |ring|]];
      if nodeIdx !in seen {
        seen := seen + {nodeIdx};
        order := order + [nodeIdx];
      }
      idx := idx + 1;
      steps := steps + 1;
    }
    WalkOver(nodes, steps, numNodes);
  }

  lemma EmptyOcc(nodes: seq<nat>)
    ensures FirstOcc(nodes[..0]) == []
  {}

  lemma ModIndex(idx: nat, n: nat)
    requires 0 < n && idx < 2 * n
    ensures idx % n == if idx < n then idx else idx - n
  {}

  /** A surviving node is met in any full lap. */
  lemma SurvivorMet(ring: seq<nat>, nodeMap: map<nat, nat>, numNodes: nat, start: nat, node: nat)
    requires RingOk(ring, nodeMap, numNodes) && Survives(ring, nodeMap, node) && start <= |ring|
    ensures node in Walk(ring, nodeMap, start)
  {
    var k: nat :| OwnsAt(ring, nodeMap, k, node);
    var lap := Lap(ring, start);
    var at := if k >= start then k - start else |ring| - start + k;
    assert lap[at] == ring[k];
    assert Walk(ring, nodeMap, start)[at] == node;
  }

  lemma LapNodes(ring: seq<nat>, nodeMap: map<nat, nat>, numNodes: nat, start: nat, node: nat)
    requires RingOk(ring, nodeMap, numNodes) && start <= |ring|
    requires node in Walk(ring, nodeMap, start)
    ensures node < numNodes && Survives(ring, nodeMap, node)
  {
    var lap := Lap(ring, start);
    var at :| 0 <= at < |lap| && Walk(ring, nodeMap, start)[at] == node;
    var k := if at < |ring| - start then at + start else at - (|ring| - start);
    assert lap[at] == ring[k];
    assert OwnsAt(ring, nodeMap, k, node);
  }

  /** A full lap meets every node exactly once. */
  lemma AllVisited(ring: seq<nat>, nodeMap: map<nat, nat>, numNodes: nat, start: nat)
    requires RingOk(ring, nodeMap, numNodes) && AllSurvive(ring, nodeMap, numNodes) && start <= |ring|
    ensures var order := FirstOcc(Walk(ring, nodeMap, start));
      && |order| == numNodes && NoDup(order)
      && (forall i :: 0 <= i < |order| ==> order[i] < numNodes)
      && (forall i: nat :: i < numNodes ==> i in order)
  {
    hide Lap, Walk, Survives;
    var nodes := Walk(ring, nodeMap, start);
    var order := FirstOcc(nodes);
    forall i: nat | i < numNodes
      ensures i in order
    {
      SurvivorMet(ring, nodeMap, numNodes, start, i);
    }
    forall i | 0 <= i < |order|
      ensures order[i] < numNodes
    {
      assert order[i] in order;
      LapNodes(ring, nodeMap, numNodes, start, order[i]);
    }
    RangeCovered(order, numNodes);
  }

  lemma RangeCovered(order: seq<nat>, n: nat)
    requires NoDup(order) && (forall i :: 0 <= i < |order| ==> order[i] < n) && (forall i: nat :: i < n ==> i in order)
    ensures |order| == n
  {
    NodesBelow(n);
    NoDupBound(order, Below(n));
    NoDupSize(order);
    SubsetSize(Below(n), Elements(order));
  }

  ghost function Below(n: nat): set<nat> {
    if n == 0 then {} else Below(n - 1) + {n - 1}
  }

  lemma {:induction false} NodesBelow(n: nat)
    ensures |Below(n)| == n
    ensures forall i: nat :: i in Below(n) <==> i < n
  {
    if n > 0 {
      NodesBelow(n - 1);
    }
  }

  /** The nodes met in the first `steps` steps of the walk, however many laps that is. */
  function Visited(nodes: seq<nat>, steps: nat): (r: seq<nat>)
    requires nodes != []
    ensures |r| == steps
    ensures forall k :: 0 <= k < steps ==> r[k] == nodes[k % |nodes|]
  {
    seq(steps, k requires 0 <= k < steps => nodes[k % |nodes|])
  }

  /** The loop condition no longer holds after this many steps. */
  ghost predicate DoneAfter(ring: seq<nat>, nodeMap: map<nat, nat>, numNodes: nat, start: nat, steps: nat)
    requires RingOk(ring, nodeMap, numNodes) && ring != [] && start <= |ring|
  {
    |FirstOcc(Visited(Walk(ring, nodeMap, start), steps))| >= numNodes
  }

  /**
   The walk reaches its end if and only if every node owns a point: a node
   without one is never met, so the loop condition holds forever.
   */
  lemma WalkEndsIffAllSurvive(ring: seq<nat>, nodeMap: map<nat, nat>, numNodes: nat, start: nat)
    requires RingOk(ring, nodeMap, numNodes) && ring != [] && start <= |ring|
    ensures (exists steps: nat :: DoneAfter(ring, nodeMap, numNodes, start, steps)) <==>
            AllSurvive(ring, nodeMap, numNodes)
  {
    hide DoneAfter, RingOk, Survives;
    if AllSurvive(ring, nodeMap, numNodes) {
      LapSuffices(ring, nodeMap, numNodes, start);
    } else {
      var missing: nat :| missing < numNodes && !Survives(ring, nodeMap, missing);
      forall steps: nat
        ensures !DoneAfter(ring, nodeMap, numNodes, start, steps)
      {
        NeverMet(ring, nodeMap, numNodes, start, missing, steps);
      }
    }
  }

  lemma LapSuffices(ring: seq<nat>, nodeMap: map<nat, nat>, numNodes: nat, start: nat)
    requires RingOk(ring, nodeMap, numNodes) && ring != [] && start <= |ring| && AllSurvive(ring, nodeMap, numNodes)
    ensures DoneAfter(ring, nodeMap, numNodes, start, |ring|)
  {
    hide FirstOcc, Walk, Lap, AllSurvive, Survives;
    AllVisited(ring, nodeMap, numNodes, start);
    VisitedLap(Walk(ring, nodeMap, start));
  }

  lemma VisitedLap(nodes: seq<nat>)
    requires nodes != []
    ensures Visited(nodes, |nodes|) == nodes
  {
    assert forall k :: 0 <= k < |nodes| ==> k % |nodes| == k;
  }

  lemma NeverMet(ring: seq<nat>, nodeMap: map<nat, nat>, numNodes: nat, start: nat, missing: nat, steps: nat)
    requires RingOk(ring, nodeMap, numNodes) && ring != [] && start <= |ring| && missing < numNodes
    requires !Survives(ring, nodeMap, missing)
    ensures !DoneAfter(ring, nodeMap, numNodes, start, steps)
  {
    hide Lap, Walk, Survives, FirstOcc;
    var nodes := Walk(ring, nodeMap, start);
    var visited := Visited(nodes, steps);
    var order := FirstOcc(visited);
    NodesBelow(numNodes);
    forall i | 0 <= i < |order|
      ensures order[i] in Below(numNodes) - {missing}
    {
      assert order[i] in order;
      var k :| 0 <= k < |visited| && visited[k] == order[i];
      assert nodes[k % |nodes|] in nodes;
      LapNodes(ring, nodeMap, numNodes, start, order[i]);
    }
    NoDupBound(order, Below(numNodes) - {missing});
  }

  // -------------------------------------------------------- rings as they are built

  /** Replica `r` of node `i` is at a point where no later node has one. */
  ghost predicate KeepsPoint(point: (nat, nat) -> nat, numNodes: nat, replicas: nat, i: nat, r: nat) {
    r < replicas && forall later: nat :: i < later < numNodes ==> point(i, r) !in NodePoints(point, later, replicas)
  }

  ghost predicate KeepsSome(point: (nat, nat) -> nat, numNodes: nat, replicas: nat, i: nat) {
    exists r: nat :: KeepsPoint(point, numNodes, replicas, i, r)
  }

  lemma {:induction false} PointOf(point: (nat, nat) -> nat, numNodes: nat, replicas: nat, i: nat, r: nat)
    requires i < numNodes && r < replicas
    ensures point(i, r) in NodePoints(point, i, replicas) && point(i, r) in Points(point, numNodes, replicas)
  {
    assert NodePoints(point, i, replicas)[r] == point(i, r);
    if i < numNodes - 1 {
      PointOf(point, numNodes - 1, replicas, i, r);
    }
  }

  lemma RingHolds(points: seq<nat>, x: nat)
    ensures x in Sort(points, NatLe) <==> x in points
  {
    NatLeTotal();
    SortSorts(points, NatLe);
    assert x in multiset(Sort(points, NatLe)) <==> x in multiset(points);
  }

  /** In a built ring a node survives exactly when one of its replicas is overwritten by no later node. */
  lemma SurvivesIff(point: (nat, nat) -> nat, numNodes: nat, replicas: nat, i: nat)
    requires i < numNodes
    ensures Survives(Sort(Points(point, numNodes, replicas), NatLe), NodeMap(point, numNodes, replicas), i)
            <==> KeepsSome(point, numNodes, replicas, i)
  {
    hide Sort, Points, NodeMap;
    var points := Points(point, numNodes, replicas);
    var ring, owner := Sort(points, NatLe), NodeMap(point, numNodes, replicas);
    if r: nat :| KeepsPoint(point, numNodes, replicas, i, r) {
      var x := point(i, r);
      PointOf(point, numNodes, replicas, i, r);
      RingHolds(points, x);
      LastWriterOwns(point, numNodes, replicas, x);
      var k :| 0 <= k < |ring| && ring[k] == x;
      assert OwnsAt(ring, owner, k, i);
    }
    if k: nat :| OwnsAt(ring, owner, k, i) {
      var x := ring[k];
      LastWriterOwns(point, numNodes, replicas, x);
      var r :| 0 <= r < replicas && NodePoints(point, i, replicas)[r] == x;
      assert KeepsPoint(point, numNodes, replicas, i, r);
    }
  }

  /** The walk on a built ring ends if and only if every node has a replica that no later node overwrites. */
  lemma BuiltWalkEndsIff(point: (nat, nat) -> nat, numNodes: nat, replicas: nat, start: nat)
    requires var ring := Sort(Points(point, numNodes, replicas), NatLe); ring != [] && start <= |ring|
    ensures RingOk(Sort(Points(point, numNodes, replicas), NatLe), NodeMap(point, numNodes, replicas), numNodes)
    ensures (exists steps: nat ::
               DoneAfter(Sort(Points(point, numNodes, replicas), NatLe), NodeMap(point, numNodes, replicas), numNodes,
                   start, steps))
            <==> forall i: nat :: i < numNodes ==> KeepsSome(point, numNodes, replicas, i)
  {
    hide Sort, Points, NodeMap, Survives, KeepsSome, DoneAfter;
    BuiltRingOk(point, numNodes, replicas);
    WalkEndsIffAllSurvive(Sort(Points(point, numNodes, replicas), NatLe), NodeMap(point, numNodes, replicas), numNodes,
        start);
    forall i: nat | i < numNodes
      ensures Survives(Sort(Points(point, numNodes, replicas), NatLe), NodeMap(point, numNodes, replicas), i) <==>
              KeepsSome(point, numNodes, replicas, i)
    {
      SurvivesIff(point, numNodes, replicas, i);
    }
  }

  /** Two nodes whose replicas all hash alike: the walk never ends, whatever the key. */
  lemma CollidingNodesNeverEnd(x: nat, replicas: nat, start: nat, steps: nat)
    requires replicas > 0 && start <= 2 * replicas
    ensures var point := (i: nat, r: nat) => x;
            var ring, owner := Sort(Points(point, 2, replicas), NatLe), NodeMap(point, 2, replicas);
      && |ring| == 2 * replicas && RingOk(ring, owner, 2) && !DoneAfter(ring, owner, 2, start, steps)
  {
    hide Sort, DoneAfter, NodeMap;
    var point := (i: nat, r: nat) => x;
    TwoNodes(point, replicas);
    NatLeTotal();
    SortSorts(Points(point, 2, replicas), NatLe);
    BuiltRingOk(point, 2, replicas);
    forall r: nat
      ensures !KeepsPoint(point, 2, replicas, 0, r)
    {
      if r < replicas {
        PointOf(point, 2, replicas, 1, r);
      }
    }
    SurvivesIff(point, 2, replicas, 0);
    NeverMet(Sort(Points(point, 2, replicas), NatLe), NodeMap(point, 2, replicas), 2, start, 0, steps);
  }

  lemma TwoNodes(point: (nat, nat) -> nat, replicas: nat)
    ensures |Points(point, 2, replicas)| == 2 * replicas
  {
    assert Points(point, 1, replicas) == Points(point, 0, replicas) + NodePoints(point, 0, replicas);
  }

  // ------------------------------------------------------- the start as a function

  /** Where the walk of a key with this hash starts. */
  function Start(ring: seq<nat>, h: nat): (r: nat)
    ensures r <= |ring|
  {
    if ring == [] || ring[0] >= h then 0 else 1 + Start(ring[1..], h)
  }

  /** In a sorted ring there is one start, and this is it. */
  lemma {:induction false} StartIsStart(ring: seq<nat>, h: nat, start: nat)
    requires Sorted(ring, NatLe)
    ensures IsStart(ring, h, start) <==> start == Start(ring, h)
  {
    if ring != [] {
      assert forall k :: 0 < k < |ring| ==> NatLe(ring[0], ring[k]);
      if ring[0] < h {
        StartIsStart(ring[1..], h, if start == 0 then 0 else start - 1);
        assert forall k :: 0 <= k < |ring| - 1 ==> ring[1..][k] == ring[k + 1];
        assert forall k :: 0 < k < |ring| ==> ring[k] == ring[1..][k - 1];
      }
    }
  }
}

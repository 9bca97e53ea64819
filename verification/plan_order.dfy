/** The two graph searches of the plan validator: Kahn's algorithm over the edge table and the
    backward search inside one phase, each proved exact. */
module PlanOrder {
  import opened Values
  import opened Graphs
  import opened PlanDraft

  predicate Known(nodes: set<Key>, e: EdgeKey) {
    e.source in nodes && e.target in nodes
  }

  /** The directed graph behind an edge table; edges with an unknown end are skipped. */
  ghost function GraphOf(nodes: set<Key>, order: seq<EdgeKey>): Edges {
    set e | e in order && Known(nodes, e) :: (e.source, e.target)
  }

  // ---- Counting edges: several edges may join the same two nodes

  /** Known edges into `t` whose source is not yet done. */
  ghost function Loose(nodes: set<Key>, order: seq<EdgeKey>, done: set<Key>, t: Key): nat {
    if order == [] then 0
    else
      var last := order[|order| - 1];
      Loose(nodes, order[..|order| - 1], done, t)
      + if Known(nodes, last) && last.target == t && last.source !in done then 1 else 0
  }

  /** Known edges from `s` to `t`. */
  ghost function Links(nodes: set<Key>, order: seq<EdgeKey>, s: Key, t: Key): nat {
    if order == [] then 0
    else
      var last := order[|order| - 1];
      Links(nodes, order[..|order| - 1], s, t)
      + if Known(nodes, last) && last.source == s && last.target == t then 1 else 0
  }

  lemma {:induction false} LooseSplit(nodes: set<Key>, order: seq<EdgeKey>, done: set<Key>, key: Key, t: Key)
    requires key !in done
    ensures Loose(nodes, order, done, t) == Loose(nodes, order, done + {key}, t) + Links(nodes, order, key, t)
  {
    if order != [] {
      LooseSplit(nodes, order[..|order| - 1], done, key, t);
    }
  }

  ghost predicate Free(nodes: set<Key>, order: seq<EdgeKey>, done: set<Key>, t: Key) {
    forall e :: e in order && Known(nodes, e) && e.target == t ==> e.source in done
  }

  lemma {:induction false} LooseZero(nodes: set<Key>, order: seq<EdgeKey>, done: set<Key>, t: Key)
    ensures Loose(nodes, order, done, t) == 0 <==> Free(nodes, order, done, t)
  {
    if order != [] {
      var front, last := order[..|order| - 1], order[|order| - 1];
      assert order == front + [last];
      LooseZero(nodes, front, done, t);
      assert Free(nodes, order, done, t) <==>
             Free(nodes, front, done, t) && (Known(nodes, last) && last.target == t ==> last.source in done);
    }
  }

  ghost predicate Counted(nodes: set<Key>, order: seq<EdgeKey>, done: set<Key>, incoming: map<Key, int>) {
    incoming.Keys == nodes && forall t :: t in nodes ==> incoming[t] == Loose(nodes, order, done, t)
  }

  ghost predicate Listed(nodes: set<Key>, order: seq<EdgeKey>, outgoing: map<Key, seq<Key>>) {
    && outgoing.Keys == nodes
    && (forall s :: s in nodes ==> forall t :: t in outgoing[s] ==> t in nodes)
    && forall s, t :: s in nodes ==> multiset(outgoing[s])[t] == Links(nodes, order, s, t)
  }

  lemma CountedNext(nodes: set<Key>, front: seq<EdgeKey>, e: EdgeKey, incoming: map<Key, int>)
    requires Counted(nodes, front, {}, incoming)
    ensures Counted(nodes, front + [e], {},
                    if Known(nodes, e) then incoming[e.target := incoming[e.target] + 1] else incoming)
  {
    assert (front + [e])[..|front|] == front;
  }

  lemma ListedNext(nodes: set<Key>, front: seq<EdgeKey>, e: EdgeKey, outgoing: map<Key, seq<Key>>)
    requires Listed(nodes, front, outgoing)
    ensures Listed(nodes, front + [e],
                   if Known(nodes, e) then outgoing[e.source := outgoing[e.source] + [e.target]] else outgoing)
  {
    assert (front + [e])[..|front|] == front;
  }

  method Count(nodes: set<Key>, order: seq<EdgeKey>) returns (incoming: map<Key, int>, outgoing: map<Key, seq<Key>>)
    ensures Counted(nodes, order, {}, incoming) && Listed(nodes, order, outgoing)
  {
    incoming := map k | k in nodes :: 0;
    outgoing := map k | k in nodes :: [];
    for i := 0 to |order|
      invariant Counted(nodes, order[..i], {}, incoming)
      invariant Listed(nodes, order[..i], outgoing)
    {
      var e := order[i];
      CountedNext(nodes, order[..i], e, incoming);
      ListedNext(nodes, order[..i], e, outgoing);
      assert order[..i + 1] == order[..i] + [e];
      if Known(nodes, e) {
        incoming := incoming[e.target := incoming[e.target] + 1];
        outgoing := outgoing[e.source := outgoing[e.source] + [e.target]];
      }
    }
    assert order[..|order|] == order;
  }

  // ---- Kahn's algorithm

  /** Exactly the nodes without a loose incoming edge are done or available. */
  ghost predicate Queued(nodes: set<Key>, done: set<Key>, available: seq<Key>, incoming: map<Key, int>)
    requires incoming.Keys == nodes
  {
    && done <= nodes && Distinct(available)
    && (forall k :: k in available ==> k in nodes && k !in done)
    && forall k :: k in nodes ==> (incoming[k] == 0 <==> k in done || k in available)
  }

  /** Done nodes are numbered along every edge, and have only done nodes before them. */
  ghost predicate Ranked(nodes: set<Key>, order: seq<EdgeKey>, done: set<Key>, rank: map<Key, int>) {
    && rank.Keys == done
    && forall e :: e in order && Known(nodes, e) && e.target in done ==> e.source in done
                                                                         && rank[e.source] < rank[e.target]
  }

  /** The counters and the queue after the edges to `targets` were taken away. */
  ghost predicate Released(incoming: map<Key, int>, available: seq<Key>, targets: seq<Key>, left: map<Key, int>,
                           now: seq<Key>)
  {
    && left.Keys == incoming.Keys
    && (forall t :: t in incoming ==> left[t] == incoming[t] - multiset(targets)[t])
    && Distinct(now)
    && forall t :: t in now <==> t in available || (t in incoming && multiset(targets)[t] > 0 && left[t] == 0)
  }

  /** The targets have loose edges to take away, so none of them is available yet. */
  ghost predicate Releasable(incoming: map<Key, int>, available: seq<Key>, targets: seq<Key>) {
    && Distinct(available)
    && (forall t :: t in targets ==> t in incoming)
    && forall t :: t in incoming ==> incoming[t] >= multiset(targets)[t]
                                     && (multiset(targets)[t] > 0 ==> t !in available)
  }

  lemma PrefixCount(targets: seq<Key>, j: int)
    requires 0 <= j < |targets|
    ensures multiset(targets[..j + 1]) == multiset(targets[..j]) + multiset{targets[j]}
    ensures multiset(targets)[targets[j]] > multiset(targets[..j])[targets[j]]
  {
    assert targets[..j + 1] == targets[..j] + [targets[j]];
    assert targets == targets[..j + 1] + targets[j + 1..];
  }

  lemma ReleasedNext(incoming: map<Key, int>, available: seq<Key>, targets: seq<Key>, j: int, left: map<Key, int>,
                     now: seq<Key>)
    requires Releasable(incoming, available, targets) && 0 <= j < |targets|
    requires Released(incoming, available, targets[..j], left, now)
    ensures var t := targets[j];
            && t in left
            && var lower := left[t := left[t] - 1];
               Released(incoming, available, targets[..j + 1], lower, if lower[t] == 0 then now + [t] else now)
  {
    var t := targets[j];
    PrefixCount(targets, j);
    assert left[t] > 0;
    assert t !in now;
    DistinctAppend(now, t);
  }

  /** Lowers the counter of every target and appends the ones that reach zero. */
  method Release(incoming: map<Key, int>, available: seq<Key>, targets: seq<Key>)
    returns (left: map<Key, int>, now: seq<Key>)
    requires Releasable(incoming, available, targets)
    ensures Released(incoming, available, targets, left, now)
  {
    left, now := incoming, available;
    for j := 0 to |targets|
      invariant Released(incoming, available, targets[..j], left, now)
    {
      var t := targets[j];
      ReleasedNext(incoming, available, targets, j, left, now);
      left := left[t := left[t] - 1];
      if left[t] == 0 {
        now := now + [t];
      }
    }
    assert targets[..|targets|] == targets;
  }

  /** `targets` are the ends of the known edges out of `key`. */
  ghost predicate TargetsOf(nodes: set<Key>, order: seq<EdgeKey>, key: Key, targets: seq<Key>) {
    (forall t :: t in targets ==> t in nodes) && forall t :: multiset(targets)[t] == Links(nodes, order, key, t)
  }

  /** The last available node has all its sources done, and its targets are not available yet. */
  lemma MayRelease(nodes: set<Key>, order: seq<EdgeKey>, done: set<Key>, available: seq<Key>, incoming: map<Key, int>,
                   targets: seq<Key>)
    requires Counted(nodes, order, done, incoming) && Queued(nodes, done, available, incoming) && available != []
    requires TargetsOf(nodes, order, available[|available| - 1], targets)
    ensures var key := available[|available| - 1];
            && key in nodes && key !in done && Free(nodes, order, done, key)
            && Releasable(incoming, available[..|available| - 1], targets)
  {
    var key, rest := available[|available| - 1], available[..|available| - 1];
    LooseZero(nodes, order, done, key);
    assert key in available;
    forall i, j | 0 <= i < j < |rest| ensures Differ(rest, i, j) {
      assert Differ(available, i, j);
    }
    forall t | t in nodes ensures incoming[t] >= multiset(targets)[t] && (multiset(targets)[t] > 0 ==> t !in rest) {
      LooseSplit(nodes, order, done, key, t);
      assert t in rest ==> t in available;
    }
  }

  /** One round keeps the counters and the queue. */
  lemma ReleaseKeeps(nodes: set<Key>, order: seq<EdgeKey>, done: set<Key>, available: seq<Key>, incoming: map<Key, int>,
                     targets: seq<Key>, left: map<Key, int>, now: seq<Key>)
    requires Counted(nodes, order, done, incoming) && Queued(nodes, done, available, incoming) && available != []
    requires TargetsOf(nodes, order, available[|available| - 1], targets)
    requires Released(incoming, available[..|available| - 1], targets, left, now)
    ensures var key := available[|available| - 1];
            Counted(nodes, order, done + {key}, left) && Queued(nodes, done + {key}, now, left)
  {
    var key, rest := available[|available| - 1], available[..|available| - 1];
    assert available == rest + [key];
    forall t | t in nodes ensures left[t] == Loose(nodes, order, done + {key}, t) {
      LooseSplit(nodes, order, done, key, t);
    }
    forall i | 0 <= i < |rest| ensures rest[i] != key {
      assert Differ(available, i, |available| - 1);
    }
    LooseZero(nodes, order, done, key);
  }

  lemma RankNext(nodes: set<Key>, order: seq<EdgeKey>, done: set<Key>, rank: map<Key, int>, key: Key, visited: int)
    requires Ranked(nodes, order, done, rank) && key !in done && Free(nodes, order, done, key)
    requires forall k :: k in done ==> rank[k] < visited
    ensures Ranked(nodes, order, done + {key}, rank[key := visited])
  {
  }

  /** `left` holds exactly the nodes that a cycle leads to. */
  ghost predicate LeftOver(nodes: set<Key>, order: seq<EdgeKey>, left: set<Key>) {
    left <= nodes && forall n :: n in nodes ==> (n in left <==> Stuck(GraphOf(nodes, order), n))
  }

  /** With nothing available, the nodes left over are exactly the ones a cycle leads to. */
  lemma LeftIsStuck(nodes: set<Key>, order: seq<EdgeKey>, done: set<Key>, rank: map<Key, int>, incoming: map<Key, int>)
    requires Counted(nodes, order, done, incoming) && Queued(nodes, done, [], incoming)
             && Ranked(nodes, order, done, rank)
    ensures LeftOver(nodes, order, nodes - done)
  {
    var edges, left := GraphOf(nodes, order), nodes - done;
    forall n | n in left ensures Fed(edges, left, n) {
      LooseZero(nodes, order, done, n);
      var e :| e in order && Known(nodes, e) && e.target == n && e.source !in done;
      assert (e.source, n) in edges;
    }
    forall n | n in left ensures Stuck(edges, n) {
      AllFedIsStuck(edges, left, n);
    }
    forall n | n in done ensures !Stuck(edges, n) {
      DoneIsNotStuck(nodes, order, done, rank, n);
    }
  }

  lemma DoneIsNotStuck(nodes: set<Key>, order: seq<EdgeKey>, done: set<Key>, rank: map<Key, int>, n: Key)
    requires Ranked(nodes, order, done, rank) && n in done
    ensures !Stuck(GraphOf(nodes, order), n)
  {
    var edges := GraphOf(nodes, order);
    forall a, b | Reach(edges, b, n) ensures !OnCycle(edges, a, b) {
      var p :| PathFrom(edges, b, n, p);
      BackIntoDone(nodes, order, done, rank, p);
      forall q | PathFrom(edges, b, a, q) ensures (a, b) !in edges {
        if (a, b) in edges {
          Extended(edges, q, b);
          BackIntoDone(nodes, order, done, rank, q + [b]);
        }
      }
    }
  }

  /** A path that ends in a done node starts in one, and its numbers grow. */
  lemma {:induction false} BackIntoDone(nodes: set<Key>, order: seq<EdgeKey>, done: set<Key>, rank: map<Key, int>,
                                        p: seq<Key>)
    requires Ranked(nodes, order, done, rank) && IsPath(GraphOf(nodes, order), p) && p[|p| - 1] in done
    ensures p[0] in done && (|p| > 1 ==> rank[p[0]] < rank[p[|p| - 1]])
    decreases |p|
  {
    if |p| > 1 {
      Front(GraphOf(nodes, order), p);
      BackIntoDone(nodes, order, done, rank, p[..|p| - 1]);
    }
  }

  /** The first edge of the table with both ends left over. */
  ghost predicate FirstStuckEdge(nodes: set<Key>, order: seq<EdgeKey>, i: int) {
    && 0 <= i < |order| && BothStuck(nodes, order, order[i])
    && forall j :: 0 <= j < i ==> !BothStuck(nodes, order, order[j])
  }

  ghost predicate BothStuck(nodes: set<Key>, order: seq<EdgeKey>, e: EdgeKey) {
    Known(nodes, e) && Stuck(GraphOf(nodes, order), e.source) && Stuck(GraphOf(nodes, order), e.target)
  }

  /** The whole state of the algorithm between two rounds. */
  ghost predicate Peeling(nodes: set<Key>, order: seq<EdgeKey>, done: set<Key>, rank: map<Key, int>, visited: int,
                          available: seq<Key>, incoming: map<Key, int>) {
    && Counted(nodes, order, done, incoming) && Queued(nodes, done, available, incoming)
    && Ranked(nodes, order, done, rank) && visited == |done| && forall k :: k in done ==> rank[k] < visited
  }

  lemma PeelingNext(nodes: set<Key>, order: seq<EdgeKey>, done: set<Key>, rank: map<Key, int>, visited: int,
                    available: seq<Key>, incoming: map<Key, int>, targets: seq<Key>, left: map<Key, int>, now: seq<Key>)
    requires Peeling(nodes, order, done, rank, visited, available, incoming) && available != []
    requires TargetsOf(nodes, order, available[|available| - 1], targets)
    requires Released(incoming, available[..|available| - 1], targets, left, now)
    ensures var key := available[|available| - 1];
            key in nodes && key !in done && Peeling(nodes, order, done + {key}, rank[key := visited], visited + 1, now,
                                                    left)
  {
    var key := available[|available| - 1];
    MayRelease(nodes, order, done, available, incoming, targets);
    ReleaseKeeps(nodes, order, done, available, incoming, targets, left, now);
    RankNext(nodes, order, done, rank, key, visited);
  }

  lemma PeelingStart(nodes: set<Key>, keys: seq<Key>, order: seq<EdgeKey>, incoming: map<Key, int>)
    requires Distinct(keys) && forall k :: k in keys <==> k in nodes
    requires Counted(nodes, order, {}, incoming)
    ensures Peeling(nodes, order, {}, map[], 0, Zeros(keys, incoming), incoming)
  {
    ZerosAre(keys, incoming);
  }

  lemma PeelingReady(nodes: set<Key>, order: seq<EdgeKey>, done: set<Key>, rank: map<Key, int>, visited: int,
                     available: seq<Key>, incoming: map<Key, int>, outgoing: map<Key, seq<Key>>)
    requires Peeling(nodes, order, done, rank, visited, available, incoming) && available != []
    requires Listed(nodes, order, outgoing)
    ensures var key := available[|available| - 1];
            && key in outgoing && TargetsOf(nodes, order, key, outgoing[key])
            && Releasable(incoming, available[..|available| - 1], outgoing[key])
  {
    assert available[|available| - 1] in available;
    MayRelease(nodes, order, done, available, incoming, outgoing[available[|available| - 1]]);
  }

  lemma PeelingEnd(nodes: set<Key>, order: seq<EdgeKey>, done: set<Key>, rank: map<Key, int>, visited: int,
                   incoming: map<Key, int>, left: set<Key>)
    requires Peeling(nodes, order, done, rank, visited, [], incoming) && left == set k | k in nodes && incoming[k] > 0
    ensures visited == |nodes - left| && LeftOver(nodes, order, left)
  {
    LeftIsStuck(nodes, order, done, rank, incoming);
    assert left == nodes - done && nodes - left == done;
  }

  /** Removes nodes without loose incoming edges until none is available; what is left over is
      exactly what a cycle leads to. */
  method Peel(nodes: set<Key>, keys: seq<Key>, order: seq<EdgeKey>) returns (visited: nat, left: set<Key>)
    requires Distinct(keys) && forall k :: k in keys <==> k in nodes
    ensures visited == |nodes - left| && LeftOver(nodes, order, left)
  {
    var incoming, outgoing := Count(nodes, order);
    ghost var done: set<Key>, rank: map<Key, int> := {}, map[];
    var available := Zeros(keys, incoming);
    PeelingStart(nodes, keys, order, incoming);
    visited := 0;
    while available != []
      invariant Peeling(nodes, order, done, rank, visited, available, incoming)
      decreases nodes - done
    {
      var key := available[|available| - 1];
      PeelingReady(nodes, order, done, rank, visited, available, incoming, outgoing);
      var lowered, now := Release(incoming, available[..|available| - 1], outgoing[key]);
      PeelingNext(nodes, order, done, rank, visited, available, incoming, outgoing[key], lowered, now);
      done, rank := done + {key}, rank[key := visited];
      incoming, available, visited := lowered, now, visited + 1;
    }
    left := set k | k in nodes && incoming[k] > 0;
    PeelingEnd(nodes, order, done, rank, visited, incoming, left);
  }

  /** The keys whose counter is zero, in order. */
  function Zeros(keys: seq<Key>, incoming: map<Key, int>): seq<Key>
    requires forall k :: k in keys ==> k in incoming
  {
    if keys == [] then []
    else Zeros(keys[..|keys| - 1], incoming) + if incoming[keys[|keys| - 1]] == 0 then [keys[|keys| - 1]] else []
  }

  lemma {:induction false} ZerosAre(keys: seq<Key>, incoming: map<Key, int>)
    requires Distinct(keys) && forall k :: k in keys ==> k in incoming
    ensures Distinct(Zeros(keys, incoming)) && forall k :: k in Zeros(keys, incoming) <==> k in keys && incoming[k] == 0
  {
    if keys != [] {
      var front, last := keys[..|keys| - 1], keys[|keys| - 1];
      assert keys == front + [last];
      forall i, j | 0 <= i < j < |front| ensures Differ(front, i, j) {
        assert Differ(keys, i, j);
      }
      ZerosAre(front, incoming);
      forall i | 0 <= i < |front| ensures front[i] != last {
        assert Differ(keys, i, |keys| - 1);
      }
      var rest := Zeros(front, incoming);
      if incoming[last] == 0 {
        DistinctAppend(rest, last);
        assert Zeros(keys, incoming) == rest + [last];
      } else {
        assert Zeros(keys, incoming) == rest;
      }
    }
  }

  predicate Within(left: set<Key>, e: EdgeKey) {
    e.source in left && e.target in left
  }

  method FirstWithin(order: seq<EdgeKey>, left: set<Key>) returns (at: Option<EdgeKey>, ghost i: nat)
    ensures i <= |order| && (at.Some? <==> i < |order|)
    ensures at.Some? ==> order[i] == at.value && Within(left, order[i])
    ensures forall j :: 0 <= j < i ==> !Within(left, order[j])
  {
    at, i := None, 0;
    for k := 0 to |order|
      invariant i == k && forall j :: 0 <= j < k ==> !Within(left, order[j])
    {
      if Within(left, order[k]) {
        return Some(order[k]), k;
      }
      i := k + 1;
    }
  }

  /** Reports nothing exactly when the graph is acyclic; otherwise the first edge between two
      nodes that a cycle leads to, and there always is one. */
  method ValidateCycle(nodes: set<Key>, keys: seq<Key>, order: seq<EdgeKey>) returns (cyclic: bool, at: Option<EdgeKey>)
    requires Distinct(keys) && forall k :: k in keys <==> k in nodes
    ensures cyclic <==> !Acyclic(GraphOf(nodes, order))
    ensures cyclic <==> at.Some?
    ensures cyclic ==> exists i :: FirstStuckEdge(nodes, order, i) && at.value == order[i]
  {
    var visited, left := Peel(nodes, keys, order);
    KeyCount(nodes, keys);
    SubsetFull(nodes - left, nodes);
    if visited == |keys| {
      NoneStuck(nodes, order, left);
      return false, None;
    }
    StuckEdgeExists(nodes, order, left);
    ghost var i: nat;
    at, i := FirstWithin(order, left);
    FirstWithinIsStuck(nodes, order, left, i);
    cyclic := true;
  }

  lemma FirstWithinIsStuck(nodes: set<Key>, order: seq<EdgeKey>, left: set<Key>, i: nat)
    requires LeftOver(nodes, order, left)
    requires i <= |order| && (i < |order| ==> Within(left, order[i])) && forall j :: 0 <= j < i ==>
               !Within(left, order[j])
    requires exists j :: 0 <= j < |order| && BothStuck(nodes, order, order[j])
    ensures FirstStuckEdge(nodes, order, i) && !Acyclic(GraphOf(nodes, order))
  {
    var j :| 0 <= j < |order| && BothStuck(nodes, order, order[j]);
    assert Within(left, order[j]);
    StuckIsCyclic(GraphOf(nodes, order), order[j].source);
    forall k | 0 <= k < i ensures !BothStuck(nodes, order, order[k]) {
      assert !Within(left, order[k]);
    }
  }

  lemma {:induction false} KeyCount(nodes: set<Key>, keys: seq<Key>)
    requires Distinct(keys) && forall k :: k in keys <==> k in nodes
    ensures |keys| == |nodes|
    decreases |keys|
  {
    if keys != [] {
      var front, last := keys[..|keys| - 1], keys[|keys| - 1];
      assert keys == front + [last];
      forall i, j | 0 <= i < j < |front| ensures Differ(front, i, j) {
        assert Differ(keys, i, j);
      }
      forall i | 0 <= i < |front| ensures front[i] != last {
        assert Differ(keys, i, |keys| - 1);
      }
      KeyCount(nodes - {last}, front);
    } else {
      assert nodes == {};
    }
  }

  lemma SubsetFull(small: set<Key>, large: set<Key>)
    requires small <= large
    ensures |small| == |large| <==> small == large
  {
    if x :| x in large && x !in small {
      assert |large - {x}| < |large| && small <= large - {x};
      SubsetSize(small, large - {x});
    }
  }

  lemma {:induction false} SubsetSize(small: set<Key>, large: set<Key>)
    requires small <= large
    ensures |small| <= |large|
    decreases small
  {
    if x :| x in small {
      SubsetSize(small - {x}, large - {x});
    }
  }

  /** A cycle leads to its own nodes, which are nodes of the graph. */
  lemma NoneStuck(nodes: set<Key>, order: seq<EdgeKey>, left: set<Key>)
    requires LeftOver(nodes, order, left) && nodes - left == nodes
    ensures Acyclic(GraphOf(nodes, order))
  {
    var edges := GraphOf(nodes, order);
    forall a, b ensures !OnCycle(edges, a, b) {
      if OnCycle(edges, a, b) {
        ReachRefl(edges, b);
        assert Stuck(edges, b) && b in nodes - left;
      }
    }
  }

  lemma StuckEdgeExists(nodes: set<Key>, order: seq<EdgeKey>, left: set<Key>)
    requires LeftOver(nodes, order, left) && nodes - left != nodes
    ensures exists j :: 0 <= j < |order| && BothStuck(nodes, order, order[j])
  {
    var edges := GraphOf(nodes, order);
    var n :| n in nodes && n in left;
    var a, b :| OnCycle(edges, a, b) && Reach(edges, b, n);
    OnCycleBack(edges, a, b);
    var e :| e in order && Known(nodes, e) && (e.source, e.target) == (a, b);
    var j :| 0 <= j < |order| && order[j] == e;
    assert BothStuck(nodes, order, order[j]);
  }

  /** Both ends of an edge on a cycle have that cycle behind them. */
  lemma OnCycleBack(edges: Edges, a: Key, b: Key)
    requires OnCycle(edges, a, b)
    ensures Stuck(edges, a) && Stuck(edges, b)
  {
    ReachRefl(edges, b);
  }

  // ---- Backward search inside a phase

  /** The edges with both ends in `allowed`. */
  ghost function Inside(order: seq<EdgeKey>, allowed: set<Key>): Edges {
    GraphOf(allowed, order)
  }

  ghost predicate SourcesListed(order: seq<EdgeKey>, allowed: set<Key>, incoming: map<Key, seq<Key>>) {
    && incoming.Keys == allowed
    && forall s, t :: t in allowed ==> (s in incoming[t] <==> (s, t) in GraphOf(allowed, order))
  }

  method Sources(order: seq<EdgeKey>, allowed: set<Key>) returns (incoming: map<Key, seq<Key>>)
    ensures SourcesListed(order, allowed, incoming)
  {
    incoming := map k | k in allowed :: [];
    for i := 0 to |order|
      invariant SourcesListed(order[..i], allowed, incoming)
    {
      var e := order[i];
      assert order[..i + 1] == order[..i] + [e];
      assert GraphOf(allowed, order[..i + 1]) ==
             GraphOf(allowed, order[..i]) + if Known(allowed, e) then {(e.source, e.target)} else {};
      if Known(allowed, e) {
        incoming := incoming[e.target := incoming[e.target] + [e.source]];
      }
    }
    assert order[..|order|] == order;
  }

  /** What the search keeps: everything found leads to the target, and what leads to a reached
      node is reached or pending. */
  ghost predicate Searched(edges: Edges, target: Key, reached: set<Key>, pending: seq<Key>) {
    && (forall n :: n in reached ==> Reach(edges, n, target))
    && (forall n :: n in pending ==> Reach(edges, n, target))
    && (forall s, t :: (s, t) in edges && t in reached ==> s in reached || s in pending)
    && (target in reached || target in pending)
  }

  lemma SearchedNext(edges: Edges, target: Key, reached: set<Key>, pending: seq<Key>, sources: seq<Key>)
    requires Searched(edges, target, reached, pending) && pending != []
    requires forall s :: s in sources <==> (s, pending[|pending| - 1]) in edges
    ensures Searched(edges, target, reached + {pending[|pending| - 1]}, pending[..|pending| - 1] + sources)
  {
    var key, rest := pending[|pending| - 1], pending[..|pending| - 1];
    assert pending == rest + [key];
    forall s | s in sources ensures Reach(edges, s, target) {
      ReachEdge(edges, s, key);
      ReachTrans(edges, s, key, target);
    }
    assert forall n :: n in pending ==> n in rest || n == key;
  }

  lemma SearchedSkip(edges: Edges, target: Key, reached: set<Key>, pending: seq<Key>)
    requires Searched(edges, target, reached, pending) && pending != [] && pending[|pending| - 1] in reached
    ensures Searched(edges, target, reached, pending[..|pending| - 1])
  {
    assert pending == pending[..|pending| - 1] + [pending[|pending| - 1]];
  }

  /** A finished search holds every node that leads to the target. */
  lemma {:induction false} SearchedAll(edges: Edges, target: Key, reached: set<Key>, p: seq<Key>)
    requires Searched(edges, target, reached, []) && IsPath(edges, p) && p[|p| - 1] == target
    ensures p[0] in reached
    decreases |p|
  {
    if |p| > 1 {
      Segment(edges, p, 1, |p| - 1);
      EdgeAt(edges, p, 0);
      assert p[1..|p|] == p[1..];
      SearchedAll(edges, target, reached, p[1..]);
    }
  }

  /** The search computes exactly the allowed nodes with a path to the target inside `allowed`. */
  method ReverseReachable(order: seq<EdgeKey>, target: Key, allowed: set<Key>) returns (reached: set<Key>)
    requires target in allowed
    ensures reached == set n | n in allowed && Reach(Inside(order, allowed), n, target)
  {
    ghost var edges := Inside(order, allowed);
    var incoming := Sources(order, allowed);
    var pending := [target];
    reached := {};
    ReachRefl(edges, target);
    while pending != []
      invariant Searched(edges, target, reached, pending) && reached <= allowed && forall n :: n in pending ==>
                  n in allowed
      decreases allowed - reached, |pending|
    {
      var key := pending[|pending| - 1];
      if key in reached {
        SearchedSkip(edges, target, reached, pending);
        pending := pending[..|pending| - 1];
      } else {
        SearchedNext(edges, target, reached, pending, incoming[key]);
        pending := pending[..|pending| - 1] + incoming[key];
        reached := reached + {key};
      }
    }
    forall n | n in allowed && Reach(edges, n, target) ensures n in reached {
      var p :| PathFrom(edges, n, target, p);
      SearchedAll(edges, target, reached, p);
    }
  }
}

/** What acceptance of a plan means for its graph as a whole: no cycle, phases one after the
    other with their gates in between, one final reviewer, and branches that meet before a merge. */
module PlanTheorems {
  import opened Values
  import opened Graphs
  import opened PlanDraft
  import opened PlanIntegrity
  import opened PlanOrder
  import opened PlanChecks
  import opened PlanBranches
  import opened PlanPhases
  import opened PlanValidation

  lemma SoundIsCheckable(c: Config, d: Draft)
    requires Sound(c, d)
    ensures Checkable(d)
  {
    forall k | k in d.branches.values ensures d.branches.values[k].nodes != [] {
      assert BranchSound(d.nodes.values.Keys, k, d.branches.values[k]);
    }
    forall k | k in d.phases.values ensures d.phases.values[k].reviewer in d.phases.values[k].nodes {
      assert PhaseSound(d.nodes.values.Keys, k, d.phases.values[k]);
    }
  }

  lemma NoFault(c: Config, d: Draft, f: Finding)
    requires Checkable(d) && Accepted(c, d)
    ensures !ReferenceFault(c, d, f) && !StructureFault(c, d, f) && !PhaseFault(d, f) && !BudgetFault(c, d, f)
  {
    assert !Fault(c, d, f);
  }

  /** The drafts that `finish_plan` accepts. */
  ghost predicate Finished(c: Config, d: Draft) {
    Sound(c, d) && Checkable(d) && Accepted(c, d)
  }

  // ---- Acyclicity

  lemma {:induction false} FirstOf(nodes: set<Key>, order: seq<EdgeKey>, j: nat)
    requires j < |order| && BothStuck(nodes, order, order[j])
    ensures exists i :: FirstStuckEdge(nodes, order, i)
    decreases j
  {
    if i :| 0 <= i < j && BothStuck(nodes, order, order[i]) {
      FirstOf(nodes, order, i);
    } else {
      assert FirstStuckEdge(nodes, order, j);
    }
  }

  lemma NoStuckEdge(nodes: set<Key>, order: seq<EdgeKey>)
    requires forall i :: !FirstStuckEdge(nodes, order, i)
    ensures Acyclic(GraphOf(nodes, order))
  {
    var edges := GraphOf(nodes, order);
    forall a, b ensures !OnCycle(edges, a, b) {
      if OnCycle(edges, a, b) {
        OnCycleBack(edges, a, b);
        var e :| e in order && Known(nodes, e) && (e.source, e.target) == (a, b);
        var j :| 0 <= j < |order| && order[j] == e;
        FirstOf(nodes, order, j);
      }
    }
  }

  lemma AcceptedIsAcyclic(c: Config, d: Draft)
    requires Checkable(d) && Accepted(c, d)
    ensures Acyclic(PlanEdges(d))
  {
    forall i ensures !FirstStuckEdge(d.nodes.values.Keys, d.edges.order, i) {
      if FirstStuckEdge(d.nodes.values.Keys, d.edges.order, i) {
        assert CycleFault(d, CycleDetected(d.edges.order[i]));
        assert Fault(c, d, CycleDetected(d.edges.order[i]));
      }
    }
    NoStuckEdge(d.nodes.values.Keys, d.edges.order);
  }

  ghost predicate EdgesKnown(d: Draft) {
    d.edges.Valid() && forall e :: e in d.edges.values ==> Known(d.nodes.values.Keys, e)
  }

  lemma SoundEdgesKnown(c: Config, d: Draft)
    requires Sound(c, d)
    ensures EdgesKnown(d)
  {
    forall e | e in d.edges.values ensures Known(d.nodes.values.Keys, e) {
      assert EdgeSound(d.nodes.values.Keys, d.branches.values.Keys, e, d.edges.values[e]);
    }
  }

  /** Every edge of the table is an edge of the graph. */
  lemma EdgeOfPlan(d: Draft, e: EdgeKey)
    requires EdgesKnown(d) && e in d.edges.values
    ensures (e.source, e.target) in PlanEdges(d)
  {
    assert e in d.edges.order && Known(d.nodes.values.Keys, e);
  }

  lemma EdgeBehind(d: Draft, a: Key, b: Key) returns (e: EdgeKey)
    requires d.edges.Valid() && (a, b) in PlanEdges(d)
    ensures e in d.edges.values && e.source == a && e.target == b && b in d.nodes.values
  {
    e :| e in d.edges.order && Known(d.nodes.values.Keys, e) && (e.source, e.target) == (a, b);
  }

  lemma DependencyEdge(d: Draft, a: Key, b: Key)
    requires EdgesKnown(d) && a in Dependencies(d, b)
    ensures (a, b) in PlanEdges(d)
  {
    var e :| e in d.edges.values && e.target == b && e.kind.Dependency? && e.source == a;
    EdgeOfPlan(d, e);
  }

  // ---- Phases

  function PhaseAt(d: Draft, i: int): Phase
    requires 0 <= i < |d.phases.order| && d.phases.order[i] in d.phases.values
  {
    d.phases.values[d.phases.order[i]]
  }

  function GateAt(d: Draft, i: int): Key
    requires 0 <= i < |d.phases.order| && d.phases.order[i] in d.phases.values
  {
    PhaseAt(d, i).gate
  }

  /** The gate of a phase is its reviewer, and its nodes exist. */
  ghost predicate PhaseInside(d: Draft, p: Phase) {
    p.gate == p.reviewer && p.gate in p.nodes && AllKnown(d, p.nodes)
  }

  /** All that the order of the phases rests on. */
  ghost predicate PhasePlan(d: Draft) {
    && d.phases.Valid() && d.nodes.Valid() && EdgesKnown(d) && Acyclic(PlanEdges(d)) && PhasesOk(d)
    && forall k :: k in d.phases.values ==> PhaseInside(d, d.phases.values[k])
  }

  lemma FinishedIsPhasePlan(c: Config, d: Draft)
    requires Finished(c, d)
    ensures PhasePlan(d)
  {
    AcceptedIsAcyclic(c, d);
    SoundEdgesKnown(c, d);
    forall k | k in d.phases.values ensures PhaseInside(d, d.phases.values[k]) {
      assert PhaseSound(d.nodes.values.Keys, k, d.phases.values[k]);
    }
    forall f ensures !PhaseFault(d, f) {
      assert !Fault(c, d, f);
    }
  }

  lemma GateInPhase(d: Draft, i: int)
    requires PhasePlan(d) && 0 <= i < |d.phases.order|
    ensures d.phases.order[i] in d.phases.values && InPhase(d, GateAt(d, i), i) && PhaseInside(d, PhaseAt(d, i))
  {
    assert d.phases.order[i] in d.phases.order;
    assert PhaseInside(d, PhaseAt(d, i));
  }

  /** The phases partition the nodes. */
  lemma PhaseOf(d: Draft, n: Key) returns (i: int)
    requires PhasePlan(d) && n in d.nodes.values
    ensures InPhase(d, n, i)
  {
    assert !PhaseFault(d, PhaseOmits(n));
    i :| InKnownPhase(d, n, i);
  }

  lemma PhaseOnce(d: Draft, n: Key, i: int, j: int)
    requires PhasePlan(d) && InPhase(d, n, i) && InPhase(d, n, j)
    ensures i == j && n in d.nodes.values
  {
    assert !PhaseFault(d, PhaseOverlap(d.phases.order[i], n));
    assert d.phases.order[i] == d.phases.order[j];
    DistinctAt(d.phases.order, i, j);
    assert PhaseInside(d, d.phases.values[d.phases.order[i]]);
  }

  /** The node a root of a phase depends on: the gate of the phase before. */
  lemma RootAfterGate(d: Draft, i: int, root: Key)
    requires PhasePlan(d) && 0 < i < |d.phases.order| && InPhase(d, root, i)
    requires !Fed(PlanEdges(d), Elements(PhaseAt(d, i).nodes), root)
    ensures d.phases.order[i - 1] in d.phases.values && (GateAt(d, i - 1), root) in PlanEdges(d)
  {
    GateInPhase(d, i - 1);
    forall e | e in d.edges.values && e.target == root ensures e.source !in PhaseAt(d, i).nodes {
      EdgeOfPlan(d, e);
      assert e.source in Elements(PhaseAt(d, i).nodes) <==> e.source in PhaseAt(d, i).nodes;
    }
    assert PhaseRoot(d, PhaseAt(d, i), root);
    assert !PhaseFault(d, PhaseRootUnguarded(d.phases.order[i], root));
    assert !Unguarded(d, i, root);
    DependencyEdge(d, GateAt(d, i - 1), root);
  }

  /** Every node of phase i has the gates of all earlier phases among its ancestors. */
  lemma {:induction false} GatesBehind(d: Draft, n: Key, i: int, j: int)
    requires PhasePlan(d) && InPhase(d, n, i) && 0 <= j < i
    ensures d.phases.order[j] in d.phases.values && Reach(PlanEdges(d), GateAt(d, j), n)
    decreases i
  {
    var root := RootBehind(PlanEdges(d), Elements(PhaseAt(d, i).nodes), n);
    RootAfterGate(d, i, root);
    ReachEdge(PlanEdges(d), GateAt(d, i - 1), root);
    ReachTrans(PlanEdges(d), GateAt(d, i - 1), root, n);
    if j < i - 1 {
      GateInPhase(d, i - 1);
      GatesBehind(d, GateAt(d, i - 1), i - 1, j);
      ReachTrans(PlanEdges(d), GateAt(d, j), GateAt(d, i - 1), n);
    }
  }

  /** An edge stays in its phase or leaves it forwards, from the gate. */
  lemma EdgeForward(d: Draft, a: Key, b: Key, i: int, j: int)
    requires PhasePlan(d) && (a, b) in PlanEdges(d) && InPhase(d, a, i) && InPhase(d, b, j)
    ensures i <= j && (i < j ==> a == GateAt(d, i))
  {
    var e := EdgeBehind(d, a, b);
    BackOrBypass(d, e, i, j);
    assert !PhaseFault(d, PhaseBackEdge(e)) && !PhaseFault(d, PhaseGateBypassed(e));
  }

  lemma BackOrBypass(d: Draft, e: EdgeKey, i: int, j: int)
    requires e in d.edges.values && InPhase(d, e.source, i) && InPhase(d, e.target, j)
    ensures i > j ==> PhaseFault(d, PhaseBackEdge(e))
    ensures i < j && e.source != GateAt(d, i) ==> PhaseFault(d, PhaseGateBypassed(e))
  {
  }

  /** No path leads to an earlier phase, and a path that leaves a phase goes through its gate. */
  lemma {:induction false} PathForward(d: Draft, p: seq<Key>, i: int, j: int)
    requires PhasePlan(d) && IsPath(PlanEdges(d), p) && InPhase(d, p[0], i) && InPhase(d, p[|p| - 1], j)
    ensures i <= j && (i < j ==> GateAt(d, i) in p)
    decreases |p|
  {
    if |p| == 1 {
      PhaseOnce(d, p[0], i, j);
    } else {
      EdgeAt(PlanEdges(d), p, 0);
      Segment(PlanEdges(d), p, 1, |p| - 1);
      assert p[1..|p|] == p[1..];
      var e := EdgeBehind(d, p[0], p[1]);
      var k := PhaseOf(d, p[1]);
      EdgeForward(d, p[0], p[1], i, k);
      PathForward(d, p[1..], k, j);
      assert i == k && i < j ==> GateAt(d, i) in p[1..];
    }
  }

  /** Inside its phase every node leads to the gate. */
  lemma LeadsToGate(d: Draft, n: Key, i: int)
    requires PhasePlan(d) && InPhase(d, n, i)
    ensures Reach(PlanEdges(d), n, GateAt(d, i))
  {
    var p := PhaseAt(d, i);
    assert PhaseInside(d, p);
    assert !PhaseFault(d, PhaseReviewIncomplete(d.phases.order[i]));
    assert Reach(PhaseEdges(d, p), n, p.reviewer);
    assert PhaseEdges(d, p) <= PlanEdges(d);
    ReachMonotone(PhaseEdges(d, p), PlanEdges(d), n, p.reviewer);
  }

  /** Every node leads to the gate of the last phase. */
  lemma LeadsToLastGate(d: Draft, n: Key)
    requires PhasePlan(d) && n in d.nodes.values
    ensures var last := |d.phases.order| - 1;
            last >= 0 && d.phases.order[last] in d.phases.values && Reach(PlanEdges(d), n, GateAt(d, last))
  {
    var i := PhaseOf(d, n);
    var last := |d.phases.order| - 1;
    LeadsToGate(d, n, i);
    GateInPhase(d, last);
    if i < last {
      GatesBehind(d, GateAt(d, last), last, i);
      ReachTrans(PlanEdges(d), n, GateAt(d, i), GateAt(d, last));
    }
  }

  /** A node without an outgoing edge is the gate of the last phase. */
  lemma SinkIsLastGate(d: Draft, t: Key)
    requires PhasePlan(d) && IsSink(d, t)
    ensures var last := |d.phases.order| - 1;
            last >= 0 && d.phases.order[last] in d.phases.values && t == GateAt(d, last)
  {
    LeadsToLastGate(d, t);
    ReachFirst(PlanEdges(d), t, GateAt(d, |d.phases.order| - 1));
    forall x ensures (t, x) !in PlanEdges(d) {
      if (t, x) in PlanEdges(d) {
        var e := EdgeBehind(d, t, x);
        assert HasOutgoing(d, t);
      }
    }
  }

  ghost predicate PhasesPartition(d: Draft) {
    && (forall i :: 0 <= i < |d.phases.order| ==> d.phases.order[i] in d.phases.values)
    && (forall n :: n in d.nodes.values ==> exists i :: InPhase(d, n, i))
    && forall n, i, j :: InPhase(d, n, i) && InPhase(d, n, j) ==> i == j
  }

  ghost predicate GateBefore(d: Draft, j: int, n: Key) {
    0 <= j < |d.phases.order| && d.phases.order[j] in d.phases.values && Reach(PlanEdges(d), GateAt(d, j), n)
  }

  ghost predicate EarlierGatesBehind(d: Draft) {
    forall n, i, j :: InPhase(d, n, i) && 0 <= j < i ==> GateBefore(d, j, n)
  }

  ghost predicate PassesGate(d: Draft, p: seq<Key>, i: int) {
    0 <= i < |d.phases.order| && d.phases.order[i] in d.phases.values && GateAt(d, i) in p
  }

  ghost predicate PathsLeaveThroughGates(d: Draft) {
    forall p, a, b, i, j :: PathFrom(PlanEdges(d), a, b, p) && InPhase(d, a, i) && InPhase(d, b, j)
                            ==> i <= j && (i < j ==> PassesGate(d, p, i))
  }

  ghost predicate EndsAtReviewer(d: Draft, t: Key) {
    && OnlySink(d, t) && d.nodes.values[t].kind.Reviewer?
    && |d.phases.order| > 0 && d.phases.order[|d.phases.order| - 1] in d.phases.values
    && t == GateAt(d, |d.phases.order| - 1)
    && forall n :: n in d.nodes.values ==> Reach(PlanEdges(d), n, t)
  }

  /** The global order of an accepted plan: every node has one phase, earlier gates are behind
      every node, every path leaves a phase through its gate and never goes back, and the only
      node without an outgoing edge is the last gate, a reviewer, which every node leads to. */
  ghost predicate InOrder(d: Draft) {
    PhasesPartition(d) && EarlierGatesBehind(d) && PathsLeaveThroughGates(d) && exists t :: EndsAtReviewer(d, t)
  }

  lemma PhasesArePartition(d: Draft)
    requires PhasePlan(d)
    ensures PhasesPartition(d)
  {
    forall i | 0 <= i < |d.phases.order| ensures d.phases.order[i] in d.phases.values {
      GateInPhase(d, i);
    }
    forall n | n in d.nodes.values ensures exists i :: InPhase(d, n, i) {
      var i := PhaseOf(d, n);
    }
    forall n, i, j | InPhase(d, n, i) && InPhase(d, n, j) ensures i == j {
      PhaseOnce(d, n, i, j);
    }
  }

  lemma GatesAreBehind(d: Draft)
    requires PhasePlan(d)
    ensures EarlierGatesBehind(d)
  {
    forall n, i, j | InPhase(d, n, i) && 0 <= j < i ensures GateBefore(d, j, n) {
      GatesBehind(d, n, i, j);
    }
  }

  lemma PathsAreForward(d: Draft)
    requires PhasePlan(d)
    ensures PathsLeaveThroughGates(d)
  {
    forall p, a, b, i, j | PathFrom(PlanEdges(d), a, b, p) && InPhase(d, a, i) && InPhase(d, b, j)
      ensures i <= j && (i < j ==> PassesGate(d, p, i))
    {
      PathForward(d, p, i, j);
    }
  }

  lemma LastGateIsEnd(d: Draft, t: Key)
    requires PhasePlan(d) && OnlySink(d, t)
    ensures EndsAtReviewer(d, t)
  {
    SinkIsLastGate(d, t);
    forall n | n in d.nodes.values ensures Reach(PlanEdges(d), n, t) {
      LeadsToLastGate(d, n);
    }
    GateInPhase(d, |d.phases.order| - 1);
    assert !PhaseFault(d, PhaseReviewerWrong(d.phases.order[|d.phases.order| - 1]));
  }

  /** Acceptance forces the global order. */
  lemma AcceptedInOrder(c: Config, d: Draft)
    requires Finished(c, d)
    ensures InOrder(d)
  {
    FinishedIsPhasePlan(c, d);
    var t := FinishedSink(c, d);
    PhasesArePartition(d);
    GatesAreBehind(d);
    PathsAreForward(d);
    LastGateIsEnd(d, t);
  }

  lemma FinishedSink(c: Config, d: Draft) returns (t: Key)
    requires Finished(c, d)
    ensures OnlySink(d, t)
  {
    NoFault(c, d, SingleSinkRequired);
    assert !SinkFault(c, d, SingleSinkRequired);
    t :| OnlySink(d, t);
  }

  // ---- Branches

  /** All that the order along the branches rests on. */
  ghost predicate BranchPlan(d: Draft) {
    && d.branches.Valid() && EdgesKnown(d) && NonEmptyBranches(d)
    && (forall k :: k in d.branches.values ==> KnownGroup(d, PairOf(d.branches.values[k])))
    && forall f :: !ExplorationFault(d, f)
  }

  lemma FinishedIsBranchPlan(c: Config, d: Draft)
    requires Finished(c, d) && d.branches.values != map[]
    ensures BranchPlan(d)
  {
    SoundEdgesKnown(c, d);
    forall k | k in d.branches.values ensures KnownGroup(d, PairOf(d.branches.values[k])) {
      assert BranchSound(d.nodes.values.Keys, k, d.branches.values[k]);
      assert Group(d, PairOf(d.branches.values[k]));
    }
    forall f ensures !ExplorationFault(d, f) {
      assert !Fault(c, d, f);
      assert !StructureFault(c, d, f);
    }
  }

  /** One evaluator that all branches of the group lead to and that the merge depends on; the
      merge takes nothing from inside a branch. */
  ghost predicate Judged(d: Draft, g: Pair, judge: Key)
    requires NonEmptyBranches(d)
  {
    && Judges(d, judge, GroupEnds(d, g)) && judge in Dependencies(d, g.1)
    && Dependencies(d, g.1) * Interior(d, MembersOf(d, g)) == {}
  }

  lemma GroupJudge(d: Draft, g: Pair) returns (judge: Key)
    requires NonEmptyBranches(d) && KnownGroup(d, g)
    requires !ExplorationFault(d, MissingEvaluator(g))
    requires !ExplorationFault(d, MissingMerge(g))
    requires !ExplorationFault(d, MergeUnselectedInput(g))
    ensures Judged(d, g, judge)
  {
    judge := FirstJudge(d, d.nodes.order, GroupEnds(d, g)).value;
  }

  lemma JudgeOf(d: Draft, g: Pair) returns (judge: Key)
    requires BranchPlan(d) && KnownGroup(d, g)
    ensures Judged(d, g, judge)
  {
    judge := GroupJudge(d, g);
  }

  lemma PathEdgePresent(d: Draft, k: Key, e: EdgeKey)
    requires BranchPlan(d) && k in d.branches.values && e in PathEdges(k, d.branches.values[k])
    ensures (e.source, e.target) in PlanEdges(d)
  {
    assert !ExplorationFault(d, PathEdgeMissing(k, e));
    EdgeOfPlan(d, e);
  }

  /** Along a branch, the fork leads to every node. */
  lemma {:induction false} AlongBranch(d: Draft, k: Key, i: nat)
    requires BranchPlan(d) && k in d.branches.values && i < |d.branches.values[k].nodes|
    ensures var b := d.branches.values[k]; Reach(PlanEdges(d), b.fork, b.nodes[i])
    decreases i
  {
    var b := d.branches.values[k];
    if i == 0 {
      PathEdgePresent(d, k, EdgeKey(b.fork, b.nodes[0], Exploration, Some(k)));
      ReachEdge(PlanEdges(d), b.fork, b.nodes[0]);
    } else {
      AlongBranch(d, k, i - 1);
      PathEdgePresent(d, k, StepEdge(k, b.nodes, i - 1));
      ReachEdge(PlanEdges(d), b.nodes[i - 1], b.nodes[i]);
      ReachTrans(PlanEdges(d), b.fork, b.nodes[i - 1], b.nodes[i]);
    }
  }

  /** Every node of a branch leads to its last one. */
  lemma {:induction false} DownBranch(d: Draft, k: Key, i: nat)
    requires BranchPlan(d) && k in d.branches.values && i < |d.branches.values[k].nodes|
    ensures var b := d.branches.values[k]; Reach(PlanEdges(d), b.nodes[i], LastNode(b))
    decreases |d.branches.values[k].nodes| - i
  {
    var b := d.branches.values[k];
    ReachRefl(PlanEdges(d), b.nodes[i]);
    if i + 1 < |b.nodes| {
      DownBranch(d, k, i + 1);
      PathEdgePresent(d, k, StepEdge(k, b.nodes, i));
      ReachEdge(PlanEdges(d), b.nodes[i], b.nodes[i + 1]);
      ReachTrans(PlanEdges(d), b.nodes[i], b.nodes[i + 1], LastNode(b));
    }
  }

  lemma LastReachesJudge(d: Draft, k: Key, judge: Key)
    requires BranchPlan(d) && k in d.branches.values && Judged(d, PairOf(d.branches.values[k]), judge)
    ensures var b := d.branches.values[k];
            Reach(PlanEdges(d), LastNode(b), judge) && Reach(PlanEdges(d), judge, b.merge)
  {
    var b := d.branches.values[k];
    MembersAre(d.branches.values, d.branches.order, PairOf(b));
    assert k in d.branches.order;
    assert k in MembersOf(d, PairOf(b));
    assert LastNode(b) in GroupEnds(d, PairOf(b));
    DependencyEdge(d, LastNode(b), judge);
    ReachEdge(PlanEdges(d), LastNode(b), judge);
    DependencyEdge(d, judge, b.merge);
    ReachEdge(PlanEdges(d), judge, b.merge);
  }

  /** Fork, every node of every branch, the evaluator of the group and the merge come in this order. */
  lemma ForkToMerge(c: Config, d: Draft, k: Key) returns (judge: Key)
    requires Finished(c, d) && k in d.branches.values
    ensures var b := d.branches.values[k];
            && Judged(d, PairOf(b), judge)
            && (forall n :: n in b.nodes ==> Reach(PlanEdges(d), b.fork, n) && Reach(PlanEdges(d), n, judge))
            && Reach(PlanEdges(d), judge, b.merge)
  {
    FinishedIsBranchPlan(c, d);
    judge := BranchOrder(d, k);
  }

  lemma BranchOrder(d: Draft, k: Key) returns (judge: Key)
    requires BranchPlan(d) && k in d.branches.values
    ensures var b := d.branches.values[k];
            && Judged(d, PairOf(b), judge)
            && (forall n :: n in b.nodes ==> Reach(PlanEdges(d), b.fork, n) && Reach(PlanEdges(d), n, judge))
            && Reach(PlanEdges(d), judge, b.merge)
  {
    var b := d.branches.values[k];
    judge := JudgeOf(d, PairOf(b));
    LastReachesJudge(d, k, judge);
    forall n | n in b.nodes ensures Reach(PlanEdges(d), b.fork, n) && Reach(PlanEdges(d), n, judge) {
      var i :| 0 <= i < |b.nodes| && b.nodes[i] == n;
      AlongBranch(d, k, i);
      DownBranch(d, k, i);
      ReachTrans(PlanEdges(d), n, LastNode(b), judge);
    }
  }
}

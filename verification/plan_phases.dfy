/** Validation of the phases: partition of the nodes, review of every node, and edges between
    phases only from the gate of the source phase. */
module PlanPhases {
  import opened Values
  import opened Graphs
  import opened PlanDraft
  import opened PlanOrder
  import opened PlanChecks

  predicate InPhase(d: Draft, n: Key, i: int) {
    0 <= i < |d.phases.order| && d.phases.order[i] in d.phases.values && n in d.phases.values[d.phases.order[i]].nodes
  }

  predicate AllKnown(d: Draft, keys: seq<Key>) {
    forall n :: n in keys ==> n in d.nodes.values
  }

  ghost predicate InKnownPhase(d: Draft, n: Key, i: int) {
    InPhase(d, n, i) && AllKnown(d, d.phases.values[d.phases.order[i]].nodes)
  }

  function Elements(s: seq<Key>): set<Key> {
    set n | n in s
  }

  predicate ReviewerFine(d: Draft, p: Phase) {
    p.reviewer in d.nodes.values && d.nodes.values[p.reviewer].kind.Reviewer?
  }

  predicate ReworkFine(d: Draft, p: Phase) {
    p.rework != [] && forall n :: n in p.rework ==> n in p.nodes && n in d.nodes.values
                                                    && CanRework(d.nodes.values[n].kind)
  }

  /** The edges of the plan inside a phase. */
  ghost function PhaseEdges(d: Draft, p: Phase): Edges {
    Inside(d.edges.order, Elements(p.nodes))
  }

  /** Every node of the phase leads to its reviewer without leaving the phase. */
  ghost predicate Reviewed(d: Draft, p: Phase) {
    forall n :: n in p.nodes ==> Reach(PhaseEdges(d, p), n, p.reviewer)
  }

  /** No node of the phase leads to `n`. */
  predicate PhaseRoot(d: Draft, p: Phase, n: Key) {
    n in p.nodes && !exists e :: e in d.edges.values && e.target == n && e.source in p.nodes
  }

  ghost predicate PhaseFault(d: Draft, f: Finding) {
    match f
    case PhasesRequired => d.phases.values == map[]
    case PhaseUnknownNode(k) => k in d.phases.values && !AllKnown(d, d.phases.values[k].nodes)
    case PhaseOverlap(k, n) =>
      && k in d.phases.values && n in d.phases.values[k].nodes
      && (!NoRepeat(d.phases.values[k].nodes) || exists j :: InPhase(d, n, j) && d.phases.order[j] != k)
    case PhaseReviewerWrong(k) => k in d.phases.values && !ReviewerFine(d, d.phases.values[k])
    case PhaseReworkWrong(k) => k in d.phases.values && !ReworkFine(d, d.phases.values[k])
    case PhaseReviewIncomplete(k) => k in d.phases.values && !Reviewed(d, d.phases.values[k])
    case PhaseOmits(n) => n in d.nodes.values && !exists i :: InKnownPhase(d, n, i)
    case PhaseBackEdge(e) => e in d.edges.values && exists i, j :: InPhase(d, e.source, i) && InPhase(d, e.target, j)
                                                                   && i > j
    case PhaseGateBypassed(e) =>
      && e in d.edges.values
      && exists i, j :: InPhase(d, e.source, i) && InPhase(d, e.target, j) && i < j
                        && e.source != d.phases.values[d.phases.order[i]].gate
    case PhaseRootUnguarded(k, n) => exists i :: 0 < i < |d.phases.order| && d.phases.order[i] == k
                                                 && Unguarded(d, i, n)
    case _ => false
  }

  /** A root of phase `i` that does not depend on the gate of the phase before. */
  predicate Unguarded(d: Draft, i: int, n: Key)
    requires 0 < i < |d.phases.order|
  {
    && d.phases.order[i] in d.phases.values && d.phases.order[i - 1] in d.phases.values
    && PhaseRoot(d, d.phases.values[d.phases.order[i]], n)
    && d.phases.values[d.phases.order[i - 1]].gate !in Dependencies(d, n)
  }

  ghost predicate AllTrue(d: Draft, found: set<Finding>) {
    forall f :: f in found ==> PhaseFault(d, f)
  }

  // ---- Phase by phase

  /** Puts the nodes of phase `i` into the index, reporting the ones that are there already. */
  method Place(d: Draft, i: nat, index: map<Key, int>) returns (now: map<Key, int>, found: set<Finding>)
    requires Tables(d) && i < |d.phases.order|
    requires forall n :: n in index ==> InPhase(d, n, index[n]) && index[n] < i
    ensures var nodes := d.phases.values[d.phases.order[i]].nodes;
            && (forall n :: n in now <==> n in index || n in nodes)
            && (forall n :: n in now ==> now[n] == if n in nodes then i else index[n])
            && (found == {} ==> NoRepeat(nodes) && forall n :: n in nodes ==> n !in index)
    ensures AllTrue(d, found)
  {
    var key := d.phases.order[i];
    var nodes := d.phases.values[key].nodes;
    now, found := index, {};
    for q := 0 to |nodes|
      invariant forall n :: n in now <==> n in index || n in nodes[..q]
      invariant forall n :: n in now ==> now[n] == if n in nodes[..q] then i else index[n]
      invariant found == {} ==> NoRepeat(nodes[..q]) && forall n :: n in nodes[..q] ==> n !in index
      invariant AllTrue(d, found)
    {
      var n := nodes[q];
      assert nodes[..q + 1] == nodes[..q] + [n];
      if n in now {
        OverlapIsTrue(d, i, index, q);
        found := found + {PhaseOverlap(key, n)};
      }
      now := now[n := i];
    }
    assert nodes[..|nodes|] == nodes;
  }

  lemma OverlapIsTrue(d: Draft, i: nat, index: map<Key, int>, q: nat)
    requires Tables(d) && i < |d.phases.order| && q < |d.phases.values[d.phases.order[i]].nodes|
    requires forall n :: n in index ==> InPhase(d, n, index[n]) && index[n] < i
    requires var nodes := d.phases.values[d.phases.order[i]].nodes; nodes[q] in index || nodes[q] in nodes[..q]
    ensures PhaseFault(d, PhaseOverlap(d.phases.order[i], d.phases.values[d.phases.order[i]].nodes[q]))
  {
    var nodes := d.phases.values[d.phases.order[i]].nodes;
    var n := nodes[q];
    if n in index {
      var j := index[n];
      assert Differ(d.phases.order, j, i);
      assert InPhase(d, n, j) && d.phases.order[j] != d.phases.order[i];
    } else {
      var j :| 0 <= j < q && nodes[j] == n;
      assert !NoRepeat(nodes);
    }
  }

  /** The reviewer, the rework nodes and the review of one phase. */
  method Review(d: Draft, key: Key) returns (found: set<Finding>)
    requires Tables(d) && key in d.phases.values && d.phases.values[key].reviewer in d.phases.values[key].nodes
    ensures AllTrue(d, found)
    ensures var p := d.phases.values[key]; found == {} ==> ReviewerFine(d, p) && ReworkFine(d, p) && Reviewed(d, p)
  {
    var p := d.phases.values[key];
    if !ReviewerFine(d, p) {
      assert PhaseFault(d, PhaseReviewerWrong(key));
      return {PhaseReviewerWrong(key)};
    }
    found := {};
    if !ReworkFine(d, p) {
      assert PhaseFault(d, PhaseReworkWrong(key));
      found := found + {PhaseReworkWrong(key)};
    }
    var reached := ReverseReachable(d.edges.order, p.reviewer, Elements(p.nodes));
    ReviewedExactly(d, p, reached);
    if reached != Elements(p.nodes) {
      assert PhaseFault(d, PhaseReviewIncomplete(key));
      found := found + {PhaseReviewIncomplete(key)};
    }
  }

  lemma ReviewedExactly(d: Draft, p: Phase, reached: set<Key>)
    requires reached == set n | n in Elements(p.nodes) && Reach(Inside(d.edges.order, Elements(p.nodes)), n, p.reviewer)
    ensures reached == Elements(p.nodes) <==> Reviewed(d, p)
  {
    if Reviewed(d, p) {
      forall n | n in Elements(p.nodes) ensures n in reached {
        assert Reach(PhaseEdges(d, p), n, p.reviewer);
      }
    }
    if reached == Elements(p.nodes) {
      forall n | n in p.nodes ensures Reach(PhaseEdges(d, p), n, p.reviewer) {
        assert n in reached;
      }
    }
  }

  /** Phase `i` is as the template wants it, and shares no node with the phases before it. */
  ghost predicate PhaseFine(d: Draft, i: int)
    requires 0 <= i < |d.phases.order| && d.phases.order[i] in d.phases.values
  {
    var p := d.phases.values[d.phases.order[i]];
    && AllKnown(d, p.nodes) && NoRepeat(p.nodes) && ReviewerFine(d, p) && ReworkFine(d, p) && Reviewed(d, p)
    && forall n, j :: n in p.nodes && j < i ==> !InPhase(d, n, j)
  }

  /** The index maps nodes to phases that hold them, and knows every node of a known phase. */
  ghost predicate Indexed(d: Draft, i: int, index: map<Key, int>) {
    && (forall n :: n in index ==> InPhase(d, n, index[n]) && index[n] < i)
    && (forall n, j :: j < i && InKnownPhase(d, n, j) ==> n in index)
    && (forall n :: n in index ==> InKnownPhase(d, n, index[n]))
  }

  ghost predicate AllFine(d: Draft, i: int)
    requires Tables(d) && 0 <= i <= |d.phases.order|
  {
    forall j :: 0 <= j < i ==> PhaseFine(d, j)
  }

  lemma PlacedNext(d: Draft, i: nat, index: map<Key, int>, now: map<Key, int>)
    requires Tables(d) && i < |d.phases.order| && Indexed(d, i, index)
    requires AllKnown(d, d.phases.values[d.phases.order[i]].nodes)
    requires var nodes := d.phases.values[d.phases.order[i]].nodes;
             && (forall n :: n in now <==> n in index || n in nodes)
             && (forall n :: n in now ==> now[n] == if n in nodes then i else index[n])
    ensures Indexed(d, i + 1, now)
  {
  }

  lemma SkippedNext(d: Draft, i: nat, index: map<Key, int>)
    requires Tables(d) && i < |d.phases.order| && Indexed(d, i, index)
    requires !AllKnown(d, d.phases.values[d.phases.order[i]].nodes)
    ensures Indexed(d, i + 1, index)
  {
  }

  lemma FineNext(d: Draft, i: nat, index: map<Key, int>)
    requires Tables(d) && i < |d.phases.order| && Indexed(d, i, index) && AllFine(d, i)
    requires var p := d.phases.values[d.phases.order[i]];
             && AllKnown(d, p.nodes) && NoRepeat(p.nodes) && (forall n :: n in p.nodes ==> n !in index)
             && ReviewerFine(d, p) && ReworkFine(d, p) && Reviewed(d, p)
    ensures AllFine(d, i + 1)
  {
    var p := d.phases.values[d.phases.order[i]];
    forall n, j | n in p.nodes && j < i ensures !InPhase(d, n, j) {
      if InPhase(d, n, j) {
        assert PhaseFine(d, j);
        assert InKnownPhase(d, n, j);
      }
    }
  }

  predicate ReviewersInside(d: Draft) {
    forall k :: k in d.phases.values ==> d.phases.values[k].reviewer in d.phases.values[k].nodes
  }

  method CheckEachPhase(d: Draft) returns (index: map<Key, int>, found: set<Finding>)
    requires Tables(d) && ReviewersInside(d)
    ensures Indexed(d, |d.phases.order|, index) && AllTrue(d, found)
    ensures found == {} ==> AllFine(d, |d.phases.order|)
  {
    index, found := map[], {};
    for i := 0 to |d.phases.order|
      invariant Indexed(d, i, index) && AllTrue(d, found)
      invariant found == {} ==> AllFine(d, i)
    {
      var key := d.phases.order[i];
      if !AllKnown(d, d.phases.values[key].nodes) {
        assert PhaseFault(d, PhaseUnknownNode(key));
        found := found + {PhaseUnknownNode(key)};
        SkippedNext(d, i, index);
      } else {
        var now, overlaps := Place(d, i, index);
        var reviews := Review(d, key);
        if found + overlaps + reviews == {} {
          FineNext(d, i, index);
        }
        PlacedNext(d, i, index, now);
        index, found := now, found + overlaps + reviews;
      }
    }
  }

  // ---- Between phases

  /** A node has one phase when every phase is fine. */
  lemma OnePhase(d: Draft, n: Key, i: int, j: int)
    requires Tables(d) && AllFine(d, |d.phases.order|) && InPhase(d, n, i) && InPhase(d, n, j)
    ensures i == j
  {
    assert PhaseFine(d, i) && PhaseFine(d, j);
  }

  function CrossFindings(d: Draft, index: map<Key, int>, e: EdgeKey): set<Finding>
  {
    if e.source !in index || e.target !in index then {}
    else if index[e.source] > index[e.target] then {PhaseBackEdge(e)}
    else if index[e.source] < index[e.target] && 0 <= index[e.source] < |d.phases.order|
      && d.phases.order[index[e.source]] in d.phases.values
            && e.source != d.phases.values[d.phases.order[index[e.source]]].gate
    then {PhaseGateBypassed(e)}
    else {}
  }

  lemma CrossFindingsTrue(d: Draft, index: map<Key, int>, e: EdgeKey, f: Finding)
    requires Indexed(d, |d.phases.order|, index) && e in d.edges.values && f in CrossFindings(d, index, e)
    ensures PhaseFault(d, f)
  {
    assert InPhase(d, e.source, index[e.source]) && InPhase(d, e.target, index[e.target]);
  }

  method CheckCrossPhase(d: Draft, index: map<Key, int>) returns (found: set<Finding>)
    requires Tables(d) && Indexed(d, |d.phases.order|, index)
    ensures AllTrue(d, found)
    ensures found == {} ==> forall e :: e in d.edges.values ==> CrossFindings(d, index, e) == {}
  {
    found := Gather(d.edges.order, e => CrossFindings(d, index, e));
    forall f | f in found ensures PhaseFault(d, f) {
      var e :| e in d.edges.order && f in CrossFindings(d, index, e);
      CrossFindingsTrue(d, index, e, f);
    }
    if found == {} {
      forall e | e in d.edges.values ensures CrossFindings(d, index, e) == {} {
        assert e in d.edges.order;
        forall f ensures f !in CrossFindings(d, index, e) {
          assert f in CrossFindings(d, index, e) ==> f in found;
        }
      }
    }
  }

  method CheckOmitted(d: Draft, index: map<Key, int>) returns (found: set<Finding>)
    requires Tables(d) && Indexed(d, |d.phases.order|, index)
    ensures AllTrue(d, found)
    ensures found == {} ==> forall n :: n in d.nodes.values ==> n in index
  {
    found := set n | n in d.nodes.order && n !in index :: PhaseOmits(n);
    forall f | f in found ensures PhaseFault(d, f) {
      forall i ensures !InKnownPhase(d, f.node, i) {
        assert InKnownPhase(d, f.node, i) ==> i < |d.phases.order|;
      }
    }
    if found == {} {
      forall n | n in d.nodes.values ensures n in index {
        assert n in d.nodes.order;
        assert n !in index ==> PhaseOmits(n) in found;
      }
    }
  }

  function RootFindings(d: Draft, i: int): set<Finding>
    requires 0 < i < |d.phases.order|
    requires d.phases.order[i] in d.phases.values && d.phases.order[i - 1] in d.phases.values
  {
    var nodes := d.phases.values[d.phases.order[i]].nodes;
    var targets := set e | e in d.edges.values && e.source in nodes && e.target in nodes :: e.target;
    set n | n in nodes && n !in targets && d.phases.values[d.phases.order[i - 1]].gate !in Dependencies(d, n)
      :: PhaseRootUnguarded(d.phases.order[i], n)
  }

  lemma RootFindingsAre(d: Draft, i: int)
    requires Tables(d) && 0 < i < |d.phases.order|
    ensures forall f :: f in RootFindings(d, i) <==>
              f.PhaseRootUnguarded? && f.key == d.phases.order[i] && Unguarded(d, i, f.node)
  {
    var p := d.phases.values[d.phases.order[i]];
    var targets := set e | e in d.edges.values && e.source in p.nodes && e.target in p.nodes :: e.target;
    forall n | n in p.nodes ensures n !in targets <==> PhaseRoot(d, p, n) {
    }
  }

  /** No root of the phases before `i` is unguarded. */
  ghost predicate GuardedUntil(d: Draft, i: int) {
    forall j, n :: 0 < j < i && j < |d.phases.order| ==> !Unguarded(d, j, n)
  }

  lemma RootsNext(d: Draft, i: int)
    requires Tables(d) && 0 < i < |d.phases.order|
    ensures AllTrue(d, RootFindings(d, i))
    ensures GuardedUntil(d, i) && RootFindings(d, i) == {} ==> GuardedUntil(d, i + 1)
  {
    RootFindingsAre(d, i);
    if RootFindings(d, i) == {} {
      forall n ensures !Unguarded(d, i, n) {
        assert PhaseRootUnguarded(d.phases.order[i], n) !in RootFindings(d, i);
      }
    }
  }

  method CheckRoots(d: Draft) returns (found: set<Finding>)
    requires Tables(d)
    ensures AllTrue(d, found)
    ensures found == {} ==> GuardedUntil(d, |d.phases.order|)
  {
    found := {};
    var i := 1;
    while i < |d.phases.order|
      invariant 1 <= i && AllTrue(d, found)
      invariant found == {} ==> GuardedUntil(d, i)
    {
      RootsNext(d, i);
      found := found + RootFindings(d, i);
      i := i + 1;
    }
  }

  ghost predicate PhasesOk(d: Draft) {
    forall f :: !PhaseFault(d, f)
  }

  lemma NoFaultLeft(d: Draft, index: map<Key, int>)
    requires Tables(d) && d.phases.values != map[] && Indexed(d, |d.phases.order|, index)
             && AllFine(d, |d.phases.order|)
    requires forall n :: n in d.nodes.values ==> n in index
    requires forall e :: e in d.edges.values ==> CrossFindings(d, index, e) == {}
    requires GuardedUntil(d, |d.phases.order|)
    ensures PhasesOk(d)
  {
    forall f ensures !PhaseFault(d, f) {
      if f.PhaseBackEdge? || f.PhaseGateBypassed? {
        NoCrossFault(d, index, f.edge);
      } else if f.PhaseOmits? {
        assert f.node in d.nodes.values ==> InKnownPhase(d, f.node, index[f.node]);
      } else if AboutOnePhase(f) {
        NoPhaseFault(d, f);
      }
    }
  }

  lemma NoCrossFault(d: Draft, index: map<Key, int>, e: EdgeKey)
    requires Tables(d) && Indexed(d, |d.phases.order|, index) && AllFine(d, |d.phases.order|)
    requires e in d.edges.values ==> CrossFindings(d, index, e) == {}
    ensures !PhaseFault(d, PhaseBackEdge(e)) && !PhaseFault(d, PhaseGateBypassed(e))
  {
    forall i, j | e in d.edges.values && InPhase(d, e.source, i) && InPhase(d, e.target, j)
      ensures e.source in index && e.target in index && index[e.source] == i && index[e.target] == j
    {
      assert PhaseFine(d, i) && PhaseFine(d, j);
      assert InKnownPhase(d, e.source, i) && InKnownPhase(d, e.target, j);
      OnePhase(d, e.source, i, index[e.source]);
      OnePhase(d, e.target, j, index[e.target]);
    }
  }

  ghost predicate AboutOnePhase(f: Finding) {
    f.PhaseUnknownNode? || f.PhaseOverlap? || f.PhaseReviewerWrong? || f.PhaseReworkWrong? || f.PhaseReviewIncomplete?
  }

  lemma NoPhaseFault(d: Draft, f: Finding)
    requires Tables(d) && AllFine(d, |d.phases.order|) && AboutOnePhase(f)
    ensures !PhaseFault(d, f)
  {
    if f.key in d.phases.values {
      assert f.key in d.phases.order;
      var i :| 0 <= i < |d.phases.order| && d.phases.order[i] == f.key;
      assert PhaseFine(d, i);
      if f.PhaseOverlap? {
        forall j | InPhase(d, f.node, j) && f.node in d.phases.values[f.key].nodes ensures j == i {
          OnePhase(d, f.node, i, j);
        }
      }
    }
  }

  /** Reports only faults of the phases, and nothing exactly when there are none. */
  method ValidatePhases(d: Draft) returns (found: set<Finding>)
    requires Tables(d) && ReviewersInside(d)
    ensures forall f :: f in found ==> PhaseFault(d, f)
    ensures found == {} <==> PhasesOk(d)
  {
    if d.phases.values == map[] {
      assert PhaseFault(d, PhasesRequired);
      return {PhasesRequired};
    }
    var index, each := CheckEachPhase(d);
    var omitted := CheckOmitted(d, index);
    var crossing := CheckCrossPhase(d, index);
    var roots := CheckRoots(d);
    found := each + omitted + crossing + roots;
    if found == {} {
      NoFaultLeft(d, index);
    } else {
      var f :| f in found;
      assert PhaseFault(d, f);
    }
  }
}

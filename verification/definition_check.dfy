/** The static check of a definition: one depth-first visit, one-pass dominator and reachable
    sets, and the reference and authorization rules. `Validate` is proved to refuse exactly
    the definitions that are at fault. */
module DefinitionCheck {
  import opened Values
  import opened Graphs
  import opened Definitions
  import C = Connectors

  // ---- The depth-first visit

  datatype Mark = Open | Done

  type Marks = map<Id, Mark>

  ghost predicate Closed(steps: Steps) {
    forall n, t :: n in steps && t in Successors(steps[n]) ==> t in steps
  }

  /** Post-order: every successor stands before its step. */
  ghost predicate PostOrder(steps: Steps, order: seq<Id>) {
    forall j, t :: 0 <= j < |order| && order[j] in steps && t in Successors(steps[order[j]]) ==> t in order[..j]
  }

  /** Every successor stands before its step, unless the edge to it was reported. */
  ghost predicate PostOrderBut(steps: Steps, order: seq<Id>, problems: set<Problem>) {
    forall j, t :: 0 <= j < |order| && order[j] in steps && t in Successors(steps[order[j]]) ==>
      t in order[..j] || BackEdge(order[j], t) in problems
  }

  /** A reported problem is an edge that closes a cycle below start. */
  ghost predicate ClosesCycle(steps: Steps, start: Id, p: Problem) {
    p.BackEdge? && Reach(EdgesOf(steps), start, p.step) && OnCycle(EdgesOf(steps), p.step, p.target)
  }

  /** What the visit keeps: marked steps are reachable, finished steps form a closed set listed
      in `order`, which is a post-order but for the reported edges. */
  ghost predicate Visited(steps: Steps, start: Id, marks: Marks, order: seq<Id>, problems: set<Problem>) {
    && (forall n :: n in marks ==> n in steps && Reach(EdgesOf(steps), start, n))
    && (forall n :: n in order <==> n in marks && marks[n].Done?)
    && (forall n, t :: n in marks && marks[n].Done? && t in Successors(steps[n]) ==> t in marks)
    && Distinct(order)
    && PostOrderBut(steps, order, problems)
    && (forall p :: p in problems ==> ClosesCycle(steps, start, p))
  }

  /** Marks are only added, and the open ones stay the same. */
  ghost predicate Extends(before: Marks, after: Marks) {
    && (forall n :: n in before ==> n in after && after[n] == before[n])
    && (forall n :: n in after && after[n].Open? ==> n in before)
  }

  ghost predicate Handled(node: Id, targets: seq<Id>, marks: Marks, problems: set<Problem>) {
    forall t :: t in targets ==> t in marks && (marks[t].Done? || BackEdge(node, t) in problems)
  }

  lemma HandledNext(node: Id, targets: seq<Id>, i: nat, marked: Marks, reported: set<Problem>, marks: Marks,
                    problems: set<Problem>)
    requires i < |targets| && Handled(node, targets[..i], marked, reported)
    requires Extends(marked, marks) && reported <= problems
    requires targets[i] in marks && (marks[targets[i]].Done? || BackEdge(node, targets[i]) in problems)
    ensures Handled(node, targets[..i + 1], marks, problems)
  {
    assert targets[..i + 1] == targets[..i] + [targets[i]];
  }

  lemma OpenKeepsVisited(steps: Steps, start: Id, marks: Marks, order: seq<Id>, problems: set<Problem>, node: Id)
    requires Visited(steps, start, marks, order, problems)
    requires node in steps && node !in marks && Reach(EdgesOf(steps), start, node)
    ensures Visited(steps, start, marks[node := Open], order, problems)
  {
  }

  /** Every open step reaches `node`. */
  ghost predicate OpenReach(steps: Steps, marks: Marks, node: Id) {
    forall g :: g in marks && marks[g].Open? ==> Reach(EdgesOf(steps), g, node)
  }

  lemma OpenStillReach(steps: Steps, before: Marks, marks: Marks, node: Id)
    requires OpenReach(steps, before, node) && Extends(before[node := Open], marks)
    ensures OpenReach(steps, marks, node)
  {
    ReachRefl(EdgesOf(steps), node);
  }

  /** An edge out of an open step: every open step reaches its target too. */
  lemma EdgeFromOpen(steps: Steps, start: Id, marks: Marks, node: Id, target: Id)
    requires node in steps && target in Successors(steps[node])
    requires Reach(EdgesOf(steps), start, node) && OpenReach(steps, marks, node)
    ensures Reach(EdgesOf(steps), start, target) && OpenReach(steps, marks, target)
    ensures target in marks && marks[target].Open? ==> ClosesCycle(steps, start, BackEdge(node, target))
  {
    var edges := EdgesOf(steps);
    assert (node, target) in edges;
    ReachEdge(edges, node, target);
    ReachTrans(edges, start, node, target);
    forall g | g in marks && marks[g].Open? ensures Reach(edges, g, target) {
      ReachTrans(edges, g, node, target);
    }
  }

  lemma CloseKeepsVisited(steps: Steps, start: Id, marks: Marks, order: seq<Id>, problems: set<Problem>, node: Id)
    requires Visited(steps, start, marks, order, problems)
    requires node in marks && marks[node].Open?
    requires Handled(node, Successors(steps[node]), marks, problems)
    ensures Visited(steps, start, marks[node := Done], order + [node], problems)
  {
    var after := order + [node];
    DistinctAppend(order, node);
    forall j, t | 0 <= j < |after| && after[j] in steps && t in Successors(steps[after[j]])
      ensures t in after[..j] || BackEdge(after[j], t) in problems
    {
      assert after[..j] == order[..j];
    }
  }

  /** Half-way through the visit of `node`: its first `i` targets are handled. */
  ghost predicate Midway(steps: Steps, start: Id, before: Marks, known: set<Problem>, node: Id, i: nat,
                         marks: Marks, order: seq<Id>, problems: set<Problem>)
  {
    && node in steps && i <= |Successors(steps[node])|
    && Visited(steps, start, marks, order, problems) && Extends(before[node := Open], marks) && known <= problems
    && Handled(node, Successors(steps[node])[..i], marks, problems)
  }

  lemma MidwayReady(steps: Steps, start: Id, before: Marks, known: set<Problem>, node: Id, i: nat,
                    marks: Marks, order: seq<Id>, problems: set<Problem>)
    requires Midway(steps, start, before, known, node, i, marks, order, problems) && OpenReach(steps, before, node)
    ensures node in marks && OpenReach(steps, marks, node) && Visited(steps, start, marks, order, problems)
    ensures before.Keys + {node} <= marks.Keys
  {
    OpenStillReach(steps, before, marks, node);
  }

  lemma MidwayNext(steps: Steps, start: Id, before: Marks, known: set<Problem>, node: Id, i: nat,
                   marked: Marks, listed: seq<Id>, reported: set<Problem>, marks: Marks, order: seq<Id>,
                     problems: set<Problem>)
    requires Midway(steps, start, before, known, node, i, marked, listed, reported) && i < |Successors(steps[node])|
    requires Visited(steps, start, marks, order, problems) && Extends(marked, marks) && reported <= problems
    requires var t := Successors(steps[node])[i]; t in marks && (marks[t].Done? || BackEdge(node, t) in problems)
    ensures Midway(steps, start, before, known, node, i + 1, marks, order, problems)
  {
    HandledNext(node, Successors(steps[node]), i, marked, reported, marks, problems);
  }

  lemma MidwayEnd(steps: Steps, start: Id, before: Marks, known: set<Problem>, node: Id,
                  marks: Marks, order: seq<Id>, problems: set<Problem>)
    requires node in steps && node !in before
    requires Midway(steps, start, before, known, node, |Successors(steps[node])|, marks, order, problems)
    ensures Visited(steps, start, marks[node := Done], order + [node], problems)
    ensures Extends(before, marks[node := Done]) && known <= problems
  {
    assert Successors(steps[node])[..|Successors(steps[node])|] == Successors(steps[node]);
    CloseKeepsVisited(steps, start, marks, order, problems, node);
  }

  class Traversal {
    const steps: Steps
    const start: Id
    var marks: Marks
    var order: seq<Id>
    var problems: set<Problem>

    constructor (steps: Steps, start: Id)
      ensures this.steps == steps && this.start == start
      ensures marks == map[] && order == [] && problems == {}
    {
      this.steps, this.start := steps, start;
      marks, order, problems := map[], [], {};
    }

    ghost predicate Valid()
      reads this
    {
      Visited(steps, start, marks, order, problems)
    }

    method Visit(node: Id)
      requires Valid() && Closed(steps) && node in steps && node !in marks
      requires Reach(EdgesOf(steps), start, node)
      requires OpenReach(steps, marks, node)
      modifies this
      ensures Valid() && node in marks && marks[node].Done?
      ensures Extends(old(marks), marks) && old(problems) <= problems
      decreases steps.Keys - marks.Keys, 0
    {
      ghost var before, known := marks, problems;
      OpenKeepsVisited(steps, start, marks, order, problems, node);
      marks := marks[node := Open];
      var targets := Successors(steps[node]);
      for i := 0 to |targets|
        invariant Midway(steps, start, before, known, node, i, marks, order, problems)
      {
        ghost var marked, listed, reported := marks, order, problems;
        MidwayReady(steps, start, before, known, node, i, marks, order, problems);
        Follow(node, targets[i]);
        MidwayNext(steps, start, before, known, node, i, marked, listed, reported, marks, order, problems);
      }
      MidwayEnd(steps, start, before, known, node, marks, order, problems);
      marks := marks[node := Done];
      order := order + [node];
    }

    /** One edge out of the open step `node`. */
    method Follow(node: Id, target: Id)
      requires Valid() && Closed(steps) && node in marks && target in Successors(steps[node])
      requires OpenReach(steps, marks, node)
      modifies this
      ensures Valid() && Extends(old(marks), marks) && old(problems) <= problems
      ensures target in marks && (marks[target].Done? || BackEdge(node, target) in problems)
      decreases steps.Keys - marks.Keys, 1
    {
      EdgeFromOpen(steps, start, marks, node, target);
      if target in marks && marks[target].Open? {
        problems := problems + {BackEdge(node, target)};
      } else if target !in marks {
        Visit(target);
      }
    }
  }

  // ---- Orders

  function Reversed(s: seq<Id>): (r: seq<Id>)
    ensures |r| == |s| && forall k :: 0 <= k < |s| ==> r[k] == s[|s| - 1 - k]
  {
    seq(|s|, k requires 0 <= k < |s| => s[|s| - 1 - k])
  }

  /** Every predecessor of a step stands before it. */
  ghost predicate Topological(steps: Steps, order: seq<Id>) {
    && Distinct(order)
    && (forall n :: n in order <==> n in steps)
    && forall j, p :: 0 <= j < |order| && p in steps && order[j] in Successors(steps[p]) ==> p in order[..j]
  }

  lemma ReversedBefore(order: seq<Id>, m: nat, k: nat)
    requires m < k < |order|
    ensures order[k] in Reversed(order)[..|order| - 1 - m]
  {
    var j := |order| - 1 - k;
    assert Reversed(order)[j] == order[k] && j < |order| - 1 - m;
    assert Reversed(order)[..|order| - 1 - m][j] == order[k];
  }

  lemma ReversedSame(order: seq<Id>)
    requires Distinct(order)
    ensures Distinct(Reversed(order))
    ensures forall n :: n in Reversed(order) <==> n in order
  {
    var topological := Reversed(order);
    forall i, j | 0 <= i < j < |topological| ensures Differ(topological, i, j) {
      assert Differ(order, |order| - 1 - j, |order| - 1 - i);
    }
    forall n | n in order ensures n in topological {
      var k := Position(order, n);
      assert topological[|order| - 1 - k] == n;
    }
  }

  /** Reversed post-order is a topological order of all steps. */
  lemma ReversedIsTopological(steps: Steps, order: seq<Id>)
    requires Distinct(order) && PostOrder(steps, order)
    requires forall n :: n in order <==> n in steps
    ensures Topological(steps, Reversed(order))
  {
    var topological := Reversed(order);
    ReversedSame(order);
    forall j, p | 0 <= j < |topological| && p in steps && topological[j] in Successors(steps[p])
      ensures p in topological[..j]
    {
      var k := Position(order, p);
      var n := topological[j];
      assert n in order[..k];
      DistinctAt(order, Position(order[..k], n), |order| - 1 - j);
      ReversedBefore(order, |order| - 1 - j, k);
    }
  }

  /** Nodes whose edges all lead to earlier ones are on no cycle. */
  lemma OrderedIsAcyclic(edges: Edges, order: seq<Id>)
    requires forall j, t :: 0 <= j < |order| && (order[j], t) in edges ==> t in order[..j]
    ensures forall a, b :: a in order ==> !OnCycle(edges, a, b)
  {
    var below := set e | e in edges && e.0 in order;
    var rank: map<Id, int> := map n | n in order :: -Position(order, n);
    forall a, b | (a, b) in below ensures a in rank && b in rank && rank[a] < rank[b] {
      var k := Position(order, a);
      assert b in order[..k];
      assert Position(order, b) < k;
    }
    RankedIsAcyclic(below, rank);
    forall a, b | a in order && OnCycle(edges, a, b) ensures false {
      assert (a, b) in below && b in rank;
      StaysBelow(edges, below, rank.Keys, b, a);
      assert OnCycle(below, a, b);
    }
  }

  /** A post-ordered set of steps that is closed under successors has no cycle through it. */
  lemma PostOrderIsAcyclic(steps: Steps, order: seq<Id>)
    requires PostOrder(steps, order) && forall n :: n in order ==> n in steps
    ensures forall a, b :: a in order ==> !OnCycle(EdgesOf(steps), a, b)
  {
    OrderedIsAcyclic(EdgesOf(steps), order);
  }

  /** The edges of the graph that were not reported. */
  ghost function Unreported(steps: Steps, problems: set<Problem>): Edges {
    set e | e in EdgesOf(steps) && BackEdge(e.0, e.1) !in problems
  }

  /** Below start every cycle goes through a reported edge. */
  ghost predicate CutsCycles(steps: Steps, start: Id, problems: set<Problem>) {
    forall a, b :: Reach(EdgesOf(steps), start, a) ==> !OnCycle(Unreported(steps, problems), a, b)
  }

  lemma ReportedCut(steps: Steps, start: Id, order: seq<Id>, problems: set<Problem>)
    requires PostOrderBut(steps, order, problems)
    requires forall n :: n in order <==> n in steps && Reach(EdgesOf(steps), start, n)
    ensures CutsCycles(steps, start, problems)
  {
    var kept := Unreported(steps, problems);
    forall j, t | 0 <= j < |order| && (order[j], t) in kept ensures t in order[..j] {
      assert order[j] in order;
    }
    OrderedIsAcyclic(kept, order);
    forall a, b | Reach(EdgesOf(steps), start, a) ensures !OnCycle(kept, a, b) {
      if a in steps {
        assert a in order;
      }
    }
  }

  /** A path that starts in a closed set uses only the edges that leave that set. */
  lemma StaysBelow(edges: Edges, below: Edges, nodes: set<Id>, a: Id, b: Id)
    requires below == set e | e in edges && e.0 in nodes
    requires forall x, y :: (x, y) in below ==> y in nodes
    requires a in nodes && Reach(edges, a, b)
    ensures Reach(below, a, b)
  {
    var p :| PathFrom(edges, a, b, p);
    forall i | 0 <= i < |p| - 1 ensures Link(below, p, i) {
      Segment(edges, p, 0, i);
      ClosedContains(edges, nodes, p[0..i + 1]);
      EdgeAt(edges, p, i);
    }
    assert PathFrom(below, a, b, p);
  }

  ghost function Position(s: seq<Id>, n: Id): (k: int)
    requires n in s
    ensures 0 <= k < |s| && s[k] == n && n !in s[..k]
  {
    if s[0] == n then 0 else 1 + Position(s[1..], n)
  }

  // ---- One-pass analyses

  ghost function DominatorSet(steps: Steps, start: Id, n: Id): set<Id> {
    set d | d in steps && Dominates(EdgesOf(steps), start, d, n)
  }

  ghost function Predecessors(steps: Steps, n: Id): set<Id> {
    set p | p in steps && n in Successors(steps[p])
  }

  ghost predicate Lists(steps: Steps, predecessors: map<Id, seq<Id>>) {
    && predecessors.Keys == steps.Keys
    && forall n, p :: n in steps ==> (p in predecessors[n] <==> p in Predecessors(steps, n))
  }

  /** The lists hold the predecessors among `seen`. */
  ghost predicate Collected(steps: Steps, seen: seq<Id>, predecessors: map<Id, seq<Id>>)
    requires forall p :: p in seen ==> p in steps
  {
    && predecessors.Keys == steps.Keys
    && forall n, p :: n in steps ==> (p in predecessors[n] <==> p in seen && n in Successors(steps[p]))
  }

  lemma CollectedAll(steps: Steps, topological: seq<Id>, predecessors: map<Id, seq<Id>>)
    requires forall n :: n in topological <==> n in steps
    requires Collected(steps, topological[..|topological|], predecessors)
    ensures Lists(steps, predecessors)
  {
    assert topological[..|topological|] == topological;
  }

  lemma CollectedNext(steps: Steps, topological: seq<Id>, k: nat, before: map<Id, seq<Id>>, after: map<Id, seq<Id>>)
    requires k < |topological| && forall n :: n in topological <==> n in steps
    requires Collected(steps, topological[..k], before) && after.Keys == before.Keys
    requires forall n, p :: n in before ==>
               (p in after[n] <==> p in before[n] || (p == topological[k] && n in Successors(steps[topological[k]])))
    ensures Collected(steps, topological[..k + 1], after)
  {
    assert topological[..k + 1] == topological[..k] + [topological[k]];
  }

  method CollectPredecessors(steps: Steps, topological: seq<Id>) returns (predecessors: map<Id, seq<Id>>)
    requires Closed(steps) && forall n :: n in topological <==> n in steps
    ensures Lists(steps, predecessors)
  {
    predecessors := map n | n in steps :: [];
    for k := 0 to |topological|
      invariant Collected(steps, topological[..k], predecessors)
    {
      var node := topological[k];
      ghost var before := predecessors;
      predecessors := AppendTo(predecessors, (set t | t in Successors(steps[node])), node);
      CollectedNext(steps, topological, k, before, predecessors);
    }
    CollectedAll(steps, topological, predecessors);
  }

  /** Append `node` to the list of every target. */
  method AppendTo(lists: map<Id, seq<Id>>, targets: set<Id>, node: Id) returns (after: map<Id, seq<Id>>)
    requires targets <= lists.Keys
    ensures after.Keys == lists.Keys
    ensures forall n, p :: n in lists ==> (p in after[n] <==> p in lists[n] || (p == node && n in targets))
  {
    after := lists;
    var todo := targets;
    while todo != {}
      invariant todo <= targets && after.Keys == lists.Keys
      invariant forall n, p :: n in lists ==> (p in after[n] <==> p in lists[n] || (p == node && n in targets - todo))
    {
      var target :| target in todo;
      after := after[target := after[target] + [node]];
      todo := todo - {target};
    }
  }

  lemma OnlyStartHasNoPredecessor(steps: Steps, start: Id, n: Id)
    requires Sound(steps, start) && n in steps
    ensures n == start <==> Predecessors(steps, n) == {}
  {
    var edges := EdgesOf(steps);
    if n == start {
      forall p | p in steps ensures n !in Successors(steps[p]) {
        assert Reach(edges, n, p);
        assert !OnCycle(edges, p, n);
      }
    } else {
      ReachLast(edges, start, n);
      var p :| Reach(edges, start, p) && (p, n) in edges;
      assert p in Predecessors(steps, n);
    }
  }

  /** The dominators of a step from those of its predecessors. */
  lemma DominatorEquation(steps: Steps, start: Id, n: Id, predecessors: set<Id>)
    requires Sound(steps, start) && n in steps && predecessors == Predecessors(steps, n)
    ensures predecessors == {} ==> DominatorSet(steps, start, n) == {n}
    ensures predecessors != {} ==>
              DominatorSet(steps, start, n) == {n} + set d | d in steps && forall p :: p in predecessors ==>
                d in DominatorSet(steps, start, p)
  {
    var edges := EdgesOf(steps);
    OnlyStartHasNoPredecessor(steps, start, n);
    if n == start {
      forall d | d in steps ensures d in DominatorSet(steps, start, n) <==> d == n {
        DominatesStart(edges, start, d);
      }
    } else {
      var common := set d | d in steps && forall p :: p in predecessors ==> d in DominatorSet(steps, start, p);
      forall d | d in steps ensures d in DominatorSet(steps, start, n) <==> d == n || d in common {
        DominatesStep(edges, start, d, n);
        assert forall p :: (p, n) in edges <==> p in predecessors;
      }
    }
  }

  ghost predicate DominatorsOf(steps: Steps, start: Id, done: set<Id>, dominators: map<Id, set<Id>>) {
    dominators.Keys == done && forall n :: n in done ==> dominators[n] == DominatorSet(steps, start, n)
  }

  /** The first k steps of the topological order have their dominators. */
  ghost predicate DominatorsUpTo(steps: Steps, start: Id, topological: seq<Id>, k: nat, dominators: map<Id, set<Id>>)
    requires k <= |topological|
  {
    && DominatorsOf(steps, start, dominators.Keys, dominators)
    && forall n :: n in dominators <==> n in topological[..k]
  }

  lemma DominatorsNext(steps: Steps, start: Id, topological: seq<Id>, k: nat, dominators: map<Id, set<Id>>)
    requires k < |topological| && DominatorsUpTo(steps, start, topological, k, dominators)
    ensures DominatorsUpTo(steps, start, topological, k + 1,
                           dominators[topological[k] := DominatorSet(steps, start, topological[k])])
  {
    assert topological[..k + 1] == topological[..k] + [topological[k]];
  }

  lemma DominatorsEnd(steps: Steps, start: Id, topological: seq<Id>, dominators: map<Id, set<Id>>)
    requires DominatorsUpTo(steps, start, topological, |topological|, dominators)
    requires forall n :: n in topological <==> n in steps
    ensures DominatorsOf(steps, start, steps.Keys, dominators)
  {
    assert topological[..|topological|] == topological;
  }

  lemma EarlierPredecessors(steps: Steps, start: Id, topological: seq<Id>, k: nat, predecessors: map<Id, seq<Id>>,
                            dominators: map<Id, set<Id>>)
    requires Topological(steps, topological) && Lists(steps, predecessors)
    requires k < |topological| && DominatorsUpTo(steps, start, topological, k, dominators)
    ensures topological[k] in predecessors
    ensures forall p :: p in predecessors[topological[k]] ==> p in dominators
                                                              && p in Predecessors(steps, topological[k])
    ensures forall p :: p in Predecessors(steps, topological[k]) ==> p in predecessors[topological[k]]
  {
    assert topological[k] in topological;
    forall p | p in predecessors[topological[k]] ensures p in dominators {
      assert p in Predecessors(steps, topological[k]);
      assert p in topological[..k];
    }
  }

  method DominatorSets(steps: Steps, start: Id, topological: seq<Id>, predecessors: map<Id, seq<Id>>)
    returns (dominators: map<Id, set<Id>>)
    requires Sound(steps, start) && Topological(steps, topological) && Lists(steps, predecessors)
    ensures DominatorsOf(steps, start, steps.Keys, dominators)
  {
    dominators := map[];
    for k := 0 to |topological|
      invariant DominatorsUpTo(steps, start, topological, k, dominators)
    {
      var node := topological[k];
      EarlierPredecessors(steps, start, topological, k, predecessors, dominators);
      var dominating := CommonDominators(steps, start, node, predecessors[node], dominators);
      DominatorsNext(steps, start, topological, k, dominators);
      dominators := dominators[node := dominating];
    }
    DominatorsEnd(steps, start, topological, dominators);
  }

  method CommonDominators(steps: Steps, start: Id, node: Id, incoming: seq<Id>, dominators: map<Id, set<Id>>)
    returns (dominating: set<Id>)
    requires Sound(steps, start) && node in steps
    requires DominatorsOf(steps, start, dominators.Keys, dominators)
    requires forall p :: p in incoming <==> p in Predecessors(steps, node)
    requires forall p :: p in incoming ==> p in dominators
    ensures dominating == DominatorSet(steps, start, node)
  {
    DominatorEquation(steps, start, node, Predecessors(steps, node));
    if incoming == [] {
      return {node};
    }
    assert incoming[0] in Predecessors(steps, node);
    var common := set d | d in dominators[incoming[0]] && forall p :: p in incoming ==> d in dominators[p];
    return common + {node};
  }

  ghost predicate ReachableOf(steps: Steps, done: set<Id>, reachable: map<Id, set<Id>>) {
    reachable.Keys == done && forall n :: n in done ==> reachable[n] == ReachSet(EdgesOf(steps), steps.Keys, n)
  }

  /** What a step reaches from what its successors reach. */
  lemma ReachableEquation(steps: Steps, n: Id)
    requires n in steps
    ensures ReachSet(EdgesOf(steps), steps.Keys, n) ==
            {n} + set t, x | t in Successors(steps[n]) && x in ReachSet(EdgesOf(steps), steps.Keys, t) :: x
  {
    var edges := EdgesOf(steps);
    forall x | x in steps
      ensures x in ReachSet(edges, steps.Keys, n) <==>
              x == n || exists t :: t in Successors(steps[n]) && x in ReachSet(edges, steps.Keys, t)
    {
      ReachFirst(edges, n, x);
      assert forall t :: (n, t) in edges <==> t in Successors(steps[n]);
    }
  }

  method ReachableSets(steps: Steps, order: seq<Id>) returns (reachable: map<Id, set<Id>>)
    requires PostOrder(steps, order) && forall n :: n in order <==> n in steps
    ensures ReachableOf(steps, steps.Keys, reachable)
  {
    reachable := map[];
    for i := 0 to |order|
      invariant ReachableOf(steps, reachable.Keys, reachable)
      invariant forall n :: n in reachable <==> n in order[..i]
    {
      var node := order[i];
      assert order[..i + 1] == order[..i] + [node];
      ReachableEquation(steps, node);
      var targets := Successors(steps[node]);
      assert forall t :: t in targets ==> t in order[..i];
      reachable := reachable[node := {node} + set t, x | t in targets && x in reachable[t] :: x];
    }
    assert order[..|order|] == order;
  }

  // ---- The rules for references and authorizations

  ghost predicate AllFaulty(body: Body, connections: map<Id, C.Connection>, problems: set<Problem>) {
    forall p :: p in problems ==> Faulty(body, connections, p)
  }

  /** Some reported problem names the step. */
  ghost predicate Names(problems: set<Problem>, n: Id) {
    exists p :: p in problems && (AboutReads(p) || AboutAction(p)) && p.step == n
  }

  lemma Both(body: Body, connections: map<Id, C.Connection>, a: set<Problem>, b: set<Problem>)
    requires AllFaulty(body, connections, a) && AllFaulty(body, connections, b)
    ensures AllFaulty(body, connections, a + b)
    ensures forall n :: Names(a, n) || Names(b, n) ==> Names(a + b, n)
  {
    forall n | Names(a, n) || Names(b, n) ensures Names(a + b, n) {
      var p :| (p in a || p in b) && (AboutReads(p) || AboutAction(p)) && p.step == n;
      assert p in a + b;
    }
  }

  ghost predicate AboutReads(problem: Problem) {
    problem.InvalidReference? || problem.UndeclaredInput? || problem.NotBefore? || problem.ReadsEnd?
  }

  ghost predicate ReadsHold(body: Body, connections: map<Id, C.Connection>, n: Id) {
    forall p :: AboutReads(p) && p.step == n ==> !Faulty(body, connections, p)
  }

  ghost predicate ActionHolds(body: Body, connections: map<Id, C.Connection>, n: Id) {
    forall p :: AboutAction(p) && p.step == n ==> !Faulty(body, connections, p)
  }

  function ReferenceProblems(body: Body, steps: Steps, n: Id, ref: Ref, dominating: set<Id>): set<Problem>
    requires dominating <= steps.Keys
  {
    match ref
    case BadRef(_) => {InvalidReference(n, ref)}
    case InputRef(keys) =>
      if |keys| > 0 && body.inputsSchema.properties.Some? && keys[0] !in body.inputsSchema.properties.value
      then {UndeclaredInput(n, keys[0])} else {}
    case StepRef(source, _) =>
      if source == n || source !in dominating then {NotBefore(n, source)}
      else if steps[source].EndStep? then {ReadsEnd(n, source)}
      else {}
  }

  lemma ReferenceProblemsTrue(body: Body, connections: map<Id, C.Connection>, steps: Steps, n: Id, ref: Ref,
                              dominating: set<Id>)
    requires steps == StepMap(body.steps) && n in steps && dominating == DominatorSet(steps, body.start, n)
    requires ref in StepRefs(steps[n])
    ensures var found := ReferenceProblems(body, steps, n, ref, dominating);
            AllFaulty(body, connections, found) && (found == {} || Names(found, n))
  {
    var found := ReferenceProblems(body, steps, n, ref, dominating);
    assert found != {} ==> exists p :: p in found;
  }

  /** A faulty read shows up as a problem of one of the step's references. */
  lemma ReferenceProblemsComplete(body: Body, connections: map<Id, C.Connection>, steps: Steps, n: Id,
                                  dominating: set<Id>, p: Problem)
    requires steps == StepMap(body.steps) && n in steps && dominating == DominatorSet(steps, body.start, n)
    requires AboutReads(p) && p.step == n && Faulty(body, connections, p)
    ensures exists ref :: ref in StepRefs(steps[n]) && ReferenceProblems(body, steps, n, ref, dominating) != {}
  {
    var ref :| ref in StepRefs(steps[n]) && match p
               case InvalidReference(_, r) => ref == r && ref.BadRef?
               case UndeclaredInput(_, name) => ref.InputRef? && |ref.keys| > 0 && ref.keys[0] == name
               case NotBefore(_, source) => ref.StepRef? && ref.step == source
               case ReadsEnd(_, source) => ref.StepRef? && ref.step == source;
    assert ReferenceProblems(body, steps, n, ref, dominating) != {};
  }

  method CheckReferences(body: Body, connections: map<Id, C.Connection>, steps: Steps, n: Id, dominating: set<Id>)
    returns (problems: set<Problem>)
    requires steps == StepMap(body.steps) && n in steps && dominating == DominatorSet(steps, body.start, n)
    ensures AllFaulty(body, connections, problems)
    ensures Names(problems, n) || ReadsHold(body, connections, n)
  {
    problems := {};
    var todo := StepRefs(steps[n]);
    while todo != {}
      invariant todo <= StepRefs(steps[n])
      invariant AllFaulty(body, connections, problems)
      invariant Names(problems, n) || forall ref :: ref in StepRefs(steps[n]) && ref !in todo ==>
                  ReferenceProblems(body, steps, n, ref, dominating) == {}
      decreases todo
    {
      var ref :| ref in todo;
      var found := ReferenceProblems(body, steps, n, ref, dominating);
      ReferenceProblemsTrue(body, connections, steps, n, ref, dominating);
      Both(body, connections, problems, found);
      problems := problems + found;
      todo := todo - {ref};
    }
    if !Names(problems, n) {
      forall p | AboutReads(p) && p.step == n ensures !Faulty(body, connections, p) {
        if Faulty(body, connections, p) {
          ReferenceProblemsComplete(body, connections, steps, n, dominating, p);
          assert false;
        }
      }
    }
  }

  function ActionProblems(step: Step, steps: Steps, connections: map<Id, C.Connection>,
                          dominating: set<Id>, reachable: map<Id, set<Id>>): set<Problem>
    requires step.ActionStep? && reachable.Keys == steps.Keys && Closed(steps)
  {
    if step.connector !in connections then {NoConnector(step.id)} else
    match ActionOf(step, connections)
    case None => {NoAction(step.id)}
    case Some(action) =>
      if action.readOnly then (if step.approval.Some? || step.standing then {ReadOnlyAuthorized(step.id)} else {})
      else if step.approval.Some? == step.standing then {AuthorizationCount(step.id)}
      else if step.approval.None? then {}
      else if step.approval.value !in steps || !steps[step.approval.value].HumanStep?
        then {NotHuman(step.id, step.approval.value)}
      else if step.approval.value !in dominating
              || exists exit :: exit in RefusalExits(steps[step.approval.value]) && exit in reachable
                                && step.id in reachable[exit]
      then {Unapproved(step.id, step.approval.value)}
      else {}
  }

  method InputProblems(step: Step, schema: Schema) returns (problems: set<Problem>)
    requires step.ActionStep?
    ensures forall p :: p in problems <==>
              || (p.MissingActionInput? && p.step == step.id && p.name in schema.required && p.name !in step.inputs)
              || (p.UnknownActionInput? && p.step == step.id && schema.closed && schema.properties.Some?
                  && p.name in step.inputs && p.name !in schema.properties.value)
  {
    problems := {};
    var todo := schema.required;
    while todo != {}
      invariant todo <= schema.required
      invariant forall p :: p in problems <==>
                  p.MissingActionInput? && p.step == step.id && p.name in schema.required - todo
                    && p.name !in step.inputs
      decreases todo
    {
      var name :| name in todo;
      if name !in step.inputs {
        problems := problems + {MissingActionInput(step.id, name)};
      }
      todo := todo - {name};
    }
    if schema.closed && schema.properties.Some? {
      todo := step.inputs.Keys;
      while todo != {}
        invariant todo <= step.inputs.Keys
        invariant forall p :: p in problems <==>
                    || (p.MissingActionInput? && p.step == step.id && p.name in schema.required
                        && p.name !in step.inputs)
                    || (p.UnknownActionInput? && p.step == step.id
                        && p.name in step.inputs.Keys - todo && p.name !in schema.properties.value)
        decreases todo
      {
        var name :| name in todo;
        if name !in schema.properties.value {
          problems := problems + {UnknownActionInput(step.id, name)};
        }
        todo := todo - {name};
      }
    }
  }

  /** The one-pass sets decide whether an approval guards a step. */
  lemma GuardsDecided(steps: Steps, start: Id, approval: Id, n: Id, dominating: set<Id>, reachable: map<Id, set<Id>>)
    requires Closed(steps) && n in steps && approval in steps && steps[approval].HumanStep?
    requires dominating == DominatorSet(steps, start, n) && ReachableOf(steps, steps.Keys, reachable)
    ensures Guards(steps, start, approval, n) <==>
            approval in dominating && forall exit :: exit in RefusalExits(steps[approval]) && exit in reachable ==>
              n !in reachable[exit]
  {
    forall exit | exit in RefusalExits(steps[approval])
      ensures exit in reachable && (n in reachable[exit] <==> Reach(EdgesOf(steps), exit, n))
    {
      assert exit in Successors(steps[approval]);
    }
  }

  lemma PlainActionProblems(body: Body, connections: map<Id, C.Connection>, steps: Steps, n: Id,
                            dominating: set<Id>, reachable: map<Id, set<Id>>, p: Problem)
    requires steps == StepMap(body.steps) && IsAction(steps, n) && steps[n].id == n
    requires Closed(steps) && reachable.Keys == steps.Keys
    requires (p.NoConnector? || p.NoAction? || p.ReadOnlyAuthorized? || p.AuthorizationCount?) && p.step == n
    ensures Faulty(body, connections, p) <==> p in ActionProblems(steps[n], steps, connections, dominating, reachable)
  {
  }

  lemma ApprovalProblems(body: Body, connections: map<Id, C.Connection>, steps: Steps, n: Id,
                         dominating: set<Id>, reachable: map<Id, set<Id>>, p: Problem)
    requires steps == StepMap(body.steps) && IsAction(steps, n) && steps[n].id == n
    requires Closed(steps) && reachable.Keys == steps.Keys
    requires (p.NotHuman? || p.Unapproved?) && p.step == n
    requires forall h :: h in steps && steps[h].HumanStep? ==>
               (Guards(steps, body.start, h, n) <==>
                h in dominating && forall exit :: exit in RefusalExits(steps[h]) && exit in reachable ==>
                  n !in reachable[exit])
    ensures Faulty(body, connections, p) <==> p in ActionProblems(steps[n], steps, connections, dominating, reachable)
  {
    if !SingleAuthorization(steps, connections, n) || steps[n].approval != Some(p.approval) {
      assert p !in ActionProblems(steps[n], steps, connections, dominating, reachable);
    }
  }

  lemma ActionProblemsExact(body: Body, connections: map<Id, C.Connection>, steps: Steps, n: Id,
                            dominating: set<Id>, reachable: map<Id, set<Id>>, p: Problem)
    requires steps == StepMap(body.steps) && Sound(steps, body.start) && IsAction(steps, n)
    requires dominating == DominatorSet(steps, body.start, n) && ReachableOf(steps, steps.Keys, reachable)
    requires AboutAction(p) && p.step == n && !p.MissingActionInput? && !p.UnknownActionInput?
    ensures Faulty(body, connections, p) <==> p in ActionProblems(steps[n], steps, connections, dominating, reachable)
  {
    if p.NotHuman? || p.Unapproved? {
      forall h | h in steps && steps[h].HumanStep?
        ensures Guards(steps, body.start, h, n) <==>
                h in dominating && forall exit :: exit in RefusalExits(steps[h]) && exit in reachable ==>
                  n !in reachable[exit]
      {
        GuardsDecided(steps, body.start, h, n, dominating, reachable);
      }
      ApprovalProblems(body, connections, steps, n, dominating, reachable, p);
    } else {
      PlainActionProblems(body, connections, steps, n, dominating, reachable, p);
    }
  }

  method CheckAction(body: Body, connections: map<Id, C.Connection>, steps: Steps, n: Id,
                     dominating: set<Id>, reachable: map<Id, set<Id>>)
    returns (problems: set<Problem>)
    requires steps == StepMap(body.steps) && Sound(steps, body.start) && IsAction(steps, n)
    requires dominating == DominatorSet(steps, body.start, n)
    requires ReachableOf(steps, steps.Keys, reachable)
    ensures AllFaulty(body, connections, problems)
    ensures Names(problems, n) || ActionHolds(body, connections, n)
  {
    var step := steps[n];
    problems := {};
    if step.connector in connections && ActionOf(step, connections).Some? {
      problems := InputProblems(step, ActionOf(step, connections).value.inputSchema);
    }
    ghost var inputs := problems;
    var rest := ActionProblems(step, steps, connections, dominating, reachable);
    problems := problems + rest;
    forall p ensures p in problems <==> AboutAction(p) && p.step == n && Faulty(body, connections, p) {
      assert p in problems <==> p in inputs || p in rest;
      assert p in rest ==> AboutAction(p) && p.step == n && !p.MissingActionInput? && !p.UnknownActionInput?;
      if AboutAction(p) && p.step == n && !p.MissingActionInput? && !p.UnknownActionInput? {
        ActionProblemsExact(body, connections, steps, n, dominating, reachable, p);
      }
    }
  }

  // ---- The whole check

  /** Two of the first `k` steps have the id `n`. */
  ghost predicate Twice(list: seq<Step>, k: nat, n: Id)
    requires k <= |list|
  {
    exists i, j :: 0 <= i < j < k && list[i].id == n == list[j].id
  }

  ghost predicate Listed(list: seq<Step>, k: nat, n: Id)
    requires k <= |list|
  {
    exists i :: 0 <= i < k && list[i].id == n
  }

  lemma TwiceNext(list: seq<Step>, k: nat, n: Id)
    requires k < |list|
    ensures Twice(list, k + 1, n) <==> Twice(list, k, n) || (list[k].id == n && Listed(list, k, n))
    ensures Listed(list, k + 1, n) <==> Listed(list, k, n) || list[k].id == n
  {
    if list[k].id == n {
      forall i | 0 <= i < k && list[i].id == n ensures Twice(list, k + 1, n) {
        assert list[k].id == n == list[i].id;
      }
    }
  }

  /** The first `k` steps are in the map, and the duplicates among them are reported. */
  ghost predicate Tabled(list: seq<Step>, k: nat, steps: Steps, problems: set<Problem>)
    requires k <= |list|
  {
    && steps == StepMap(list[..k])
    && (forall n :: n in steps <==> Listed(list, k, n))
    && forall p :: p in problems <==> p.DuplicateStep? && Twice(list, k, p.step)
  }

  lemma TabledNext(list: seq<Step>, k: nat, steps: Steps, problems: set<Problem>)
    requires k < |list| && Tabled(list, k, steps, problems)
    ensures var step := list[k];
            Tabled(list, k + 1, steps[step.id := step],
                   if step.id in steps then problems + {DuplicateStep(step.id)} else problems)
  {
    assert list[..k + 1][..k] == list[..k];
    forall n ensures (Twice(list, k + 1, n) <==> Twice(list, k, n) || (list[k].id == n && Listed(list, k, n)))
                     && (Listed(list, k + 1, n) <==> Listed(list, k, n) || list[k].id == n) {
      TwiceNext(list, k, n);
    }
  }

  method CollectSteps(list: seq<Step>) returns (steps: Steps, problems: set<Problem>)
    ensures steps == StepMap(list)
    ensures forall p :: p in problems <==> p.DuplicateStep? && Twice(list, |list|, p.step)
  {
    steps, problems := map[], {};
    for k := 0 to |list|
      invariant Tabled(list, k, steps, problems)
    {
      var step := list[k];
      TabledNext(list, k, steps, problems);
      if step.id in steps {
        problems := problems + {DuplicateStep(step.id)};
      }
      steps := steps[step.id := step];
    }
    assert list[..|list|] == list;
  }

  method CheckTargets(list: seq<Step>, steps: Steps) returns (problems: set<Problem>)
    ensures forall p :: p in problems <==>
              p.MissingTarget? && p.target !in steps && exists s :: s in list && s.id == p.step
                                                                    && p.target in Successors(s)
  {
    problems := {};
    for k := 0 to |list|
      invariant forall p :: p in problems <==>
                  p.MissingTarget? && p.target !in steps && exists s :: s in list[..k] && s.id == p.step
                                                                        && p.target in Successors(s)
    {
      assert list[..k + 1] == list[..k] + [list[k]];
      var targets := Successors(list[k]);
      ghost var before := problems;
      for m := 0 to |targets|
        invariant forall p :: p in problems <==>
                    p in before || (p.MissingTarget? && p.step == list[k].id && p.target in targets[..m]
                                    && p.target !in steps)
      {
        assert targets[..m + 1] == targets[..m] + [targets[m]];
        if targets[m] !in steps {
          problems := problems + {MissingTarget(list[k].id, targets[m])};
        }
      }
      assert targets[..|targets|] == targets;
    }
    assert list[..|list|] == list;
  }

  /** A problem with the shape of the graph: a cycle below start or an unreachable step. */
  ghost predicate ShapeFault(steps: Steps, start: Id, p: Problem) {
    ClosesCycle(steps, start, p) || (p.Unreachable? && p.step in steps && !Reach(EdgesOf(steps), start, p.step))
  }

  ghost predicate ShapeFaults(steps: Steps, start: Id, problems: set<Problem>) {
    forall p :: p in problems ==> ShapeFault(steps, start, p)
  }

  /** The visit of start marks exactly the reachable steps. */
  method VisitAll(steps: Steps, start: Id) returns (marks: Marks, order: seq<Id>, problems: set<Problem>)
    requires Closed(steps) && start in steps
    ensures Visited(steps, start, marks, order, problems)
    ensures forall n :: n in marks ==> marks[n].Done?
    ensures forall n :: n in marks <==> n in steps && Reach(EdgesOf(steps), start, n)
    ensures problems == {} <==> AcyclicBelow(steps, start)
  {
    var traversal := new Traversal(steps, start);
    ReachRefl(EdgesOf(steps), start);
    traversal.Visit(start);
    marks, order, problems := traversal.marks, traversal.order, traversal.problems;
    VisitedIsReachable(steps, start, marks, order, problems);
    VisitDecidesCycles(steps, start, marks, order, problems);
  }

  ghost predicate AcyclicBelow(steps: Steps, start: Id) {
    forall a, b :: Reach(EdgesOf(steps), start, a) ==> !OnCycle(EdgesOf(steps), a, b)
  }

  lemma VisitDecidesCycles(steps: Steps, start: Id, marks: Marks, order: seq<Id>, problems: set<Problem>)
    requires Visited(steps, start, marks, order, problems)
    requires forall n :: n in marks ==> marks[n].Done?
    requires forall n :: n in marks <==> n in steps && Reach(EdgesOf(steps), start, n)
    ensures problems == {} <==> AcyclicBelow(steps, start)
  {
    if problems == {} {
      assert PostOrder(steps, order);
      PostOrderIsAcyclic(steps, order);
      forall a, b | Reach(EdgesOf(steps), start, a) ensures !OnCycle(EdgesOf(steps), a, b) {
        if a in steps {
          assert a in order;
        }
      }
    } else {
      var p :| p in problems;
      assert ClosesCycle(steps, start, p);
    }
  }

  /** The unreachable steps and only true cycle edges are reported, and the reported edges cut every
      cycle; when nothing is, `order` is a post-order of all steps, which are all reachable. */
  ghost predicate Shaped(steps: Steps, start: Id, order: seq<Id>, problems: set<Problem>) {
    && ShapeFaults(steps, start, problems)
    && (forall n :: Unreachable(n) in problems <==> n in steps && !Reach(EdgesOf(steps), start, n))
    && CutsCycles(steps, start, problems)
    && (problems == {} ==>
          && Distinct(order) && PostOrder(steps, order)
          && (forall n :: n in order <==> n in steps)
          && (forall n :: n in steps ==> Reach(EdgesOf(steps), start, n)))
  }

  method CheckShape(steps: Steps, list: seq<Step>, start: Id) returns (order: seq<Id>, problems: set<Problem>)
    requires Closed(steps) && start in steps && forall s :: s in list ==> s.id in steps
    requires forall n :: n in steps ==> exists s :: s in list && s.id == n
    ensures Shaped(steps, start, order, problems)
  {
    var marks, cycles;
    marks, order, cycles := VisitAll(steps, start);
    var unreachable := FindUnreachable(marks, list);
    problems := cycles + unreachable;
    VisitedIsShaped(steps, start, marks, order, cycles, unreachable);
  }

  lemma VisitedIsShaped(steps: Steps, start: Id, marks: Marks, order: seq<Id>, cycles: set<Problem>,
                        unreachable: set<Problem>)
    requires Visited(steps, start, marks, order, cycles)
    requires forall n :: n in marks ==> marks[n].Done?
    requires forall n :: n in marks <==> n in steps && Reach(EdgesOf(steps), start, n)
    requires forall p :: p in unreachable <==> p.Unreachable? && p.step !in marks && p.step in steps
    ensures Shaped(steps, start, order, cycles + unreachable)
  {
    ReportedCut(steps, start, order, cycles);
    assert Unreported(steps, cycles + unreachable) == Unreported(steps, cycles);
    if cycles + unreachable == {} {
      assert PostOrder(steps, order);
      assert cycles == {} && unreachable == {};
      forall n | n in steps ensures n in marks {
        assert Unreachable(n) !in unreachable;
      }
    }
  }

  method FindUnreachable(marks: Marks, list: seq<Step>) returns (problems: set<Problem>)
    ensures forall p :: p in problems <==> p.Unreachable? && p.step !in marks && exists s :: s in list && s.id == p.step
  {
    problems := {};
    for k := 0 to |list|
      invariant forall p :: p in problems <==> p.Unreachable? && p.step !in marks && exists s ::
                  s in list[..k] && s.id == p.step
    {
      assert list[..k + 1] == list[..k] + [list[k]];
      if list[k].id !in marks {
        problems := problems + {Unreachable(list[k].id)};
      }
    }
    assert list[..|list|] == list;
  }

  /** When the visit of start is finished, the marked steps are exactly the reachable ones. */
  lemma VisitedIsReachable(steps: Steps, start: Id, marks: Marks, order: seq<Id>, problems: set<Problem>)
    requires Visited(steps, start, marks, order, problems) && start in marks
    requires forall n :: n in marks ==> marks[n].Done?
    ensures forall n :: n in marks <==> n in steps && Reach(EdgesOf(steps), start, n)
  {
    forall n | Reach(EdgesOf(steps), start, n) ensures n in marks {
      ReachStays(EdgesOf(steps), marks.Keys, start, n);
    }
  }

  ghost predicate RulesHold(body: Body, connections: map<Id, C.Connection>, n: Id) {
    ReadsHold(body, connections, n) && ActionHolds(body, connections, n)
  }

  /** The problems of one step are true, and a step without one obeys the rules. */
  ghost predicate StepChecked(body: Body, connections: map<Id, C.Connection>, n: Id, problems: set<Problem>) {
    AllFaulty(body, connections, problems) && (Names(problems, n) || RulesHold(body, connections, n))
  }

  lemma StepCheckedBoth(body: Body, connections: map<Id, C.Connection>, n: Id, misread: set<Problem>,
                        misused: set<Problem>)
    requires AllFaulty(body, connections, misread) && (Names(misread, n) || ReadsHold(body, connections, n))
    requires AllFaulty(body, connections, misused) && (Names(misused, n) || ActionHolds(body, connections, n))
    ensures StepChecked(body, connections, n, misread + misused)
  {
    Both(body, connections, misread, misused);
  }

  lemma NoActionHolds(body: Body, connections: map<Id, C.Connection>, n: Id)
    requires n in StepMap(body.steps) && !StepMap(body.steps)[n].ActionStep?
    ensures ActionHolds(body, connections, n)
  {
  }

  method CheckStep(body: Body, connections: map<Id, C.Connection>, steps: Steps, n: Id,
                   dominating: set<Id>, reachable: map<Id, set<Id>>)
    returns (problems: set<Problem>)
    requires steps == StepMap(body.steps) && Sound(steps, body.start) && n in steps
    requires dominating == DominatorSet(steps, body.start, n)
    requires ReachableOf(steps, steps.Keys, reachable)
    ensures StepChecked(body, connections, n, problems)
  {
    var misread := CheckReferences(body, connections, steps, n, dominating);
    var misused := {};
    if steps[n].ActionStep? {
      misused := CheckAction(body, connections, steps, n, dominating, reachable);
    } else {
      NoActionHolds(body, connections, n);
    }
    StepCheckedBoth(body, connections, n, misread, misused);
    problems := misread + misused;
  }

  method CheckRules(body: Body, connections: map<Id, C.Connection>, steps: Steps, order: seq<Id>)
    returns (problems: set<Problem>)
    requires steps == StepMap(body.steps) && Sound(steps, body.start)
    requires Distinct(order) && PostOrder(steps, order) && forall n :: n in order <==> n in steps
    ensures AllFaulty(body, connections, problems)
    ensures problems == {} ==> forall n :: n in steps ==> RulesHold(body, connections, n)
  {
    var topological := Reversed(order);
    ReversedIsTopological(steps, order);
    var predecessors := CollectPredecessors(steps, topological);
    var dominators := DominatorSets(steps, body.start, topological, predecessors);
    var reachable := ReachableSets(steps, order);
    problems := CheckEach(body, connections, steps, topological, dominators, reachable);
    AllChecked(body, connections, steps, topological, problems);
  }

  lemma AllChecked(body: Body, connections: map<Id, C.Connection>, steps: Steps, topological: seq<Id>,
                   problems: set<Problem>)
    requires Checked(body, connections, topological, |topological|, problems)
    requires forall n :: n in topological <==> n in steps
    ensures AllFaulty(body, connections, problems)
    ensures problems == {} ==> forall n :: n in steps ==> RulesHold(body, connections, n)
  {
  }

  /** The first k steps are checked: their problems are true, and a step without one obeys the rules. */
  ghost predicate Checked(body: Body, connections: map<Id, C.Connection>, topological: seq<Id>, k: nat,
                          problems: set<Problem>)
    requires k <= |topological|
  {
    && AllFaulty(body, connections, problems)
    && forall i :: 0 <= i < k ==> Names(problems, topological[i]) || RulesHold(body, connections, topological[i])
  }

  lemma CheckedNext(body: Body, connections: map<Id, C.Connection>, topological: seq<Id>, k: nat,
                    problems: set<Problem>, found: set<Problem>)
    requires k < |topological| && Checked(body, connections, topological, k, problems)
    requires StepChecked(body, connections, topological[k], found)
    ensures Checked(body, connections, topological, k + 1, problems + found)
  {
    Both(body, connections, problems, found);
  }

  method CheckEach(body: Body, connections: map<Id, C.Connection>, steps: Steps, topological: seq<Id>,
                   dominators: map<Id, set<Id>>, reachable: map<Id, set<Id>>)
    returns (problems: set<Problem>)
    requires steps == StepMap(body.steps) && Sound(steps, body.start)
    requires forall n :: n in topological <==> n in steps
    requires DominatorsOf(steps, body.start, steps.Keys, dominators)
    requires ReachableOf(steps, steps.Keys, reachable)
    ensures Checked(body, connections, topological, |topological|, problems)
  {
    problems := {};
    for k := 0 to |topological|
      invariant Checked(body, connections, topological, k, problems)
    {
      var node := topological[k];
      var found := CheckStep(body, connections, steps, node, dominators[node], reachable);
      CheckedNext(body, connections, topological, k, problems, found);
      problems := problems + found;
    }
  }

  lemma CheckedIsAcceptable(body: Body, connections: map<Id, C.Connection>)
    requires !ReservedPrefix(body.name) && body.inputsSchema.acceptable
    requires forall i, j :: 0 <= i < j < |body.steps| ==> body.steps[i].id != body.steps[j].id
    requires Sound(StepMap(body.steps), body.start)
    requires forall n :: n in StepMap(body.steps) ==> RulesHold(body, connections, n)
    ensures Acceptable(body, connections)
  {
    var steps := StepMap(body.steps);
    StepMapHolds(body.steps);
    forall p ensures !Faulty(body, connections, p) {
      if AboutReads(p) || AboutAction(p) {
        assert p.step in steps ==> RulesHold(body, connections, p.step);
      } else if p.BackEdge? {
        assert !OnCycle(EdgesOf(steps), p.step, p.target);
      }
    }
  }

  ghost predicate AboutTable(p: Problem) {
    p.BadInputsSchema? || p.DuplicateStep? || p.MissingStart? || p.MissingTarget?
  }

  /** Problems of the text and of the step table, before the graph is looked at. */
  method CheckTable(body: Body, ghost connections: map<Id, C.Connection>) returns (steps: Steps, problems: set<Problem>)
    requires !ReservedPrefix(body.name)
    ensures steps == StepMap(body.steps)
    ensures forall p :: p in problems <==> AboutTable(p) && Faulty(body, connections, p)
    ensures problems == {} ==>
              && body.inputsSchema.acceptable && body.start in steps && Closed(steps)
              && forall i, j :: 0 <= i < j < |body.steps| ==> body.steps[i].id != body.steps[j].id
  {
    var duplicates, missing;
    steps, duplicates := CollectSteps(body.steps);
    missing := CheckTargets(body.steps, steps);
    problems := (if body.inputsSchema.acceptable then {} else {BadInputsSchema})
                + duplicates
                + (if body.start in steps then {} else {MissingStart})
                + missing;
    if problems == {} {
      assert duplicates == {} && missing == {};
      forall i, j | 0 <= i < j < |body.steps| ensures body.steps[i].id != body.steps[j].id {
        assert DuplicateStep(body.steps[i].id) !in duplicates;
      }
      StepMapIds(body.steps);
      forall n, t | n in steps && t in Successors(steps[n]) ensures t in steps {
        assert MissingTarget(n, t) !in missing;
      }
    }
  }

  /** Refuse exactly the definitions that are at fault, and report only true problems. */
  method Validate(body: Body, connections: map<Id, C.Connection>) returns (problems: set<Problem>)
    ensures AllFaulty(body, connections, problems)
    ensures problems == {} <==> Acceptable(body, connections)
  {
    if ReservedPrefix(body.name) {
      assert Faulty(body, connections, ReservedName);
      return {ReservedName};
    }
    var steps;
    steps, problems := CheckTable(body, connections);
    if problems != {} {
      assert exists p :: p in problems && Faulty(body, connections, p);
      return;
    }
    StepMapIds(body.steps);
    StepMapHolds(body.steps);
    var order;
    order, problems := CheckShape(steps, body.steps, body.start);
    if problems != {} {
      forall p | p in problems ensures Faulty(body, connections, p) {
        assert ShapeFault(steps, body.start, p);
      }
      assert exists p :: p in problems && Faulty(body, connections, p);
      return;
    }
    assert Distinct(order) && PostOrder(steps, order);
    PostOrderIsAcyclic(steps, order);
    problems := CheckRules(body, connections, steps, order);
    if problems != {} {
      assert exists p :: p in problems && Faulty(body, connections, p);
    } else {
      CheckedIsAcceptable(body, connections);
    }
  }
}

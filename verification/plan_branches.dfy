/** Validation of the exploration structure: fork groups, branch paths, evaluators and merges. */
module PlanBranches {
  import opened Values
  import opened Graphs
  import opened PlanDraft
  import opened PlanOrder
  import opened PlanChecks

  function PairOf(b: Branch): Pair {
    (b.fork, b.merge)
  }

  /** The branches of `order` between the fork and the merge of `g`. */
  function Members(branches: map<Key, Branch>, order: seq<Key>, g: Pair): seq<Key> {
    if order == [] then []
    else
      var last := order[|order| - 1];
      Members(branches, order[..|order| - 1], g)
      + if last in branches && PairOf(branches[last]) == g then [last] else []
  }

  lemma {:induction false} MembersAre(branches: map<Key, Branch>, order: seq<Key>, g: Pair)
    ensures forall k :: k in Members(branches, order, g) <==> k in order && k in branches && PairOf(branches[k]) == g
  {
    if order != [] {
      var front, last := order[..|order| - 1], order[|order| - 1];
      assert order == front + [last];
      MembersAre(branches, front, g);
    }
  }

  ghost predicate Group(d: Draft, g: Pair) {
    exists k :: k in d.branches.values && PairOf(d.branches.values[k]) == g
  }

  /** A used fork and merge pair whose two nodes exist. */
  ghost predicate KnownGroup(d: Draft, g: Pair) {
    Group(d, g) && g.0 in d.nodes.values && g.1 in d.nodes.values
  }

  /** The i-th inner step of a branch. */
  function StepEdge(key: Key, nodes: seq<Key>, i: nat): EdgeKey
    requires i + 1 < |nodes|
  {
    EdgeKey(nodes[i], nodes[i + 1], Dependency, Some(key))
  }

  /** The edges that lead from the fork through the branch to the merge. */
  function PathEdges(key: Key, b: Branch): set<EdgeKey>
    requires b.nodes != []
  {
    {EdgeKey(b.fork, b.nodes[0], Exploration, Some(key)),
     EdgeKey(b.nodes[|b.nodes| - 1], b.merge, MergeEdge, Some(key))}
    + set i | 0 <= i < |b.nodes| - 1 :: StepEdge(key, b.nodes, i)
  }

  predicate NonEmptyBranches(d: Draft) {
    forall k :: k in d.branches.values ==> d.branches.values[k].nodes != []
  }

  function LastNode(b: Branch): Key
    requires b.nodes != []
  {
    b.nodes[|b.nodes| - 1]
  }

  /** The last nodes of the branches of a group. */
  function Ends(d: Draft, members: seq<Key>): set<Key>
    requires NonEmptyBranches(d)
  {
    set k | k in members && k in d.branches.values :: LastNode(d.branches.values[k])
  }

  function Interior(d: Draft, members: seq<Key>): set<Key> {
    set k, n | k in members && k in d.branches.values && n in d.branches.values[k].nodes :: n
  }

  predicate Judges(d: Draft, n: Key, ends: set<Key>) {
    n in d.nodes.values && d.nodes.values[n].kind.Evaluator? && ends <= Dependencies(d, n)
  }

  /** The first evaluator of the node table that depends on all of `ends`. */
  function FirstJudge(d: Draft, order: seq<Key>, ends: set<Key>): (r: Option<Key>)
    ensures r.Some? ==> r.value in order && Judges(d, r.value, ends)
    ensures r.None? ==> forall n :: n in order ==> !Judges(d, n, ends)
  {
    if order == [] then None
    else if Judges(d, order[0], ends) then Some(order[0])
    else FirstJudge(d, order[1..], ends)
  }

  /** The branch that holds `n`; the last one in the table when there are several. */
  function BranchOf(d: Draft, order: seq<Key>, n: Key): (r: Option<Key>)
    ensures r.Some? ==> r.value in order && r.value in d.branches.values && n in d.branches.values[r.value].nodes
    ensures r.None? ==> forall k :: k in order && k in d.branches.values ==> n !in d.branches.values[k].nodes
  {
    if order == [] then None
    else
      var last := order[|order| - 1];
      if last in d.branches.values && n in d.branches.values[last].nodes then Some(last)
      else BranchOf(d, order[..|order| - 1], n)
  }

  /** The edge joins the interiors of two branches of one group. */
  predicate Crosses(d: Draft, e: EdgeKey) {
    var s, t := BranchOf(d, d.branches.order, e.source), BranchOf(d, d.branches.order, e.target);
    s.Some? && t.Some? && s != t && PairOf(d.branches.values[s.value]) == PairOf(d.branches.values[t.value])
  }

  /** An exploration or merge edge that is not the first or last step of its branch. */
  predicate OffPath(d: Draft, e: EdgeKey)
    requires NonEmptyBranches(d)
  {
    && (e.kind.Exploration? || e.kind.MergeEdge?)
    && e.branch.Some? && e.branch.value in d.branches.values
    && var b := d.branches.values[e.branch.value];
       (e.source, e.target) != if e.kind.Exploration? then (b.fork, b.nodes[0]) else (LastNode(b), b.merge)
  }

  ghost predicate ExplorationFault(d: Draft, f: Finding)
    requires NonEmptyBranches(d)
  {
    match f
    case ForkKind(n) => n in d.nodes.values && !d.nodes.values[n].kind.Fork? && exists m :: KnownGroup(d, (n, m))
    case MergeKind(n) => n in d.nodes.values && !d.nodes.values[n].kind.Merge? && exists m :: KnownGroup(d, (m, n))
    case InsufficientBranches(g) => KnownGroup(d, g) && |Members(d.branches.values, d.branches.order, g)| < 2
    case PathEdgeMissing(k, e) =>
      && k in d.branches.values && KnownGroup(d, PairOf(d.branches.values[k]))
      && e in PathEdges(k, d.branches.values[k]) && e !in d.edges.values
    case MissingEvaluator(g) => KnownGroup(d, g) && FirstJudge(d, d.nodes.order, GroupEnds(d, g)).None?
    case MissingMerge(g) =>
      KnownGroup(d, g) && var judge :=
        FirstJudge(d, d.nodes.order, GroupEnds(d, g)); judge.Some? && judge.value !in Dependencies(d, g.1)
    case MergeUnselectedInput(g) =>
      && KnownGroup(d, g) && FirstJudge(d, d.nodes.order, GroupEnds(d, g)).Some?
      && Dependencies(d, g.1) * Interior(d, Members(d.branches.values, d.branches.order, g)) != {}
    case CrossBranch(e) => e in d.edges.values && Crosses(d, e)
    case OffBranchPath(e) => e in d.edges.values && OffPath(d, e)
    case EvaluatorIncomplete(n) =>
      n in d.nodes.values && d.nodes.values[n].kind.Evaluator? && !exists g :: Group(d, g)
                                                                               && GroupEnds(d, g) <= Dependencies(d, n)
    case _ => false
  }

  function GroupEnds(d: Draft, g: Pair): set<Key>
    requires NonEmptyBranches(d)
  {
    Ends(d, Members(d.branches.values, d.branches.order, g))
  }

  function JudgeFindings(d: Draft, g: Pair, members: seq<Key>): set<Finding>
    requires NonEmptyBranches(d)
  {
    match FirstJudge(d, d.nodes.order, Ends(d, members))
    case None => {MissingEvaluator(g)}
    case Some(judge) =>
      (if judge in Dependencies(d, g.1) then {} else {MissingMerge(g)})
      + if Dependencies(d, g.1) * Interior(d, members) == {} then {} else {MergeUnselectedInput(g)}
  }

  function GroupFindings(d: Draft, g: Pair, members: seq<Key>): set<Finding>
    requires NonEmptyBranches(d)
  {
    if g.0 !in d.nodes.values || g.1 !in d.nodes.values then {}
    else
      (if d.nodes.values[g.0].kind.Fork? then {} else {ForkKind(g.0)})
      + (if d.nodes.values[g.1].kind.Merge? then {} else {MergeKind(g.1)})
      + (if |members| < 2 then {InsufficientBranches(g)} else {})
      + PathFindings(d, members)
      + JudgeFindings(d, g, members)
  }

  // ---- Grouping branches by fork and merge

  ghost predicate Grouped(branches: map<Key, Branch>, order: seq<Key>, groups: map<Pair, seq<Key>>, pairs: seq<Pair>) {
    && (forall g :: g in groups <==> g in pairs)
    && (forall g :: g in groups <==> Members(branches, order, g) != [])
    && forall g :: g in groups ==> groups[g] == Members(branches, order, g)
  }

  lemma GroupedNext(branches: map<Key, Branch>, order: seq<Key>, i: nat, groups: map<Pair, seq<Key>>, pairs: seq<Pair>)
    requires i < |order| && order[i] in branches && Grouped(branches, order[..i], groups, pairs)
    ensures var g := PairOf(branches[order[i]]);
            Grouped(branches, order[..i + 1],
                    groups[g := (if g in groups then groups[g] else []) + [order[i]]], if g in groups then pairs
                      else pairs + [g])
  {
    assert order[..i + 1][..i] == order[..i];
  }

  method GroupBranches(d: Draft) returns (groups: map<Pair, seq<Key>>, pairs: seq<Pair>)
    requires Tables(d)
    ensures Grouped(d.branches.values, d.branches.order, groups, pairs)
  {
    groups, pairs := map[], [];
    for i := 0 to |d.branches.order|
      invariant Grouped(d.branches.values, d.branches.order[..i], groups, pairs)
    {
      var key := d.branches.order[i];
      GroupedNext(d.branches.values, d.branches.order, i, groups, pairs);
      var g := PairOf(d.branches.values[key]);
      if g !in groups {
        pairs := pairs + [g];
      }
      groups := groups[g := (if g in groups then groups[g] else []) + [key]];
    }
    assert d.branches.order[..|d.branches.order|] == d.branches.order;
  }

  lemma GroupIsUsed(d: Draft, g: Pair)
    requires Tables(d)
    ensures Group(d, g) <==> Members(d.branches.values, d.branches.order, g) != []
  {
    MembersAre(d.branches.values, d.branches.order, g);
    var members := Members(d.branches.values, d.branches.order, g);
    if members != [] {
      assert members[0] in members;
    }
    if Group(d, g) {
      var k :| k in d.branches.values && PairOf(d.branches.values[k]) == g;
      assert k in members;
    }
  }

  // ---- The check

  function MembersOf(d: Draft, g: Pair): seq<Key> {
    Members(d.branches.values, d.branches.order, g)
  }

  ghost predicate IsGroupFinding(f: Finding) {
    f.ForkKind? || f.MergeKind? || f.InsufficientBranches? || f.PathEdgeMissing?
    || f.MissingEvaluator? || f.MissingMerge? || f.MergeUnselectedInput?
  }

  lemma JudgeFindingsTrue(d: Draft, g: Pair, f: Finding)
    requires NonEmptyBranches(d) && KnownGroup(d, g) && f in JudgeFindings(d, g, MembersOf(d, g))
    ensures IsGroupFinding(f) && ExplorationFault(d, f)
  {
    var judge := FirstJudge(d, d.nodes.order, Ends(d, MembersOf(d, g)));
    assert judge == FirstJudge(d, d.nodes.order, GroupEnds(d, g));
  }

  function PathFindings(d: Draft, members: seq<Key>): set<Finding>
    requires NonEmptyBranches(d)
  {
    set k, e | k in members && k in d.branches.values && e in PathEdges(k, d.branches.values[k]) && e !in d.edges.values
      :: PathEdgeMissing(k, e)
  }

  lemma PathFindingsTrue(d: Draft, g: Pair, f: Finding)
    requires NonEmptyBranches(d) && KnownGroup(d, g) && f in PathFindings(d, MembersOf(d, g))
    ensures IsGroupFinding(f) && ExplorationFault(d, f)
  {
    MembersAre(d.branches.values, d.branches.order, g);
    assert f.key in MembersOf(d, g);
  }

  lemma GroupFindingsTrue(d: Draft, g: Pair, f: Finding)
    requires NonEmptyBranches(d) && Group(d, g) && f in GroupFindings(d, g, MembersOf(d, g))
    ensures IsGroupFinding(f) && ExplorationFault(d, f)
  {
    assert KnownGroup(d, (g.0, g.1));
    if f in JudgeFindings(d, g, MembersOf(d, g)) {
      JudgeFindingsTrue(d, g, f);
    } else if f in PathFindings(d, MembersOf(d, g)) {
      PathFindingsTrue(d, g, f);
    }
  }

  /** The group a group finding is about. */
  lemma GroupFindingsComplete(d: Draft, f: Finding) returns (g: Pair)
    requires Tables(d) && NonEmptyBranches(d) && IsGroupFinding(f) && ExplorationFault(d, f)
    ensures Group(d, g) && f in GroupFindings(d, g, MembersOf(d, g))
  {
    match f
    case ForkKind(n) =>
      var m :| KnownGroup(d, (n, m));
      g := (n, m);
    case MergeKind(n) =>
      var m :| KnownGroup(d, (m, n));
      g := (m, n);
    case InsufficientBranches(p) => g := p;
    case PathEdgeMissing(k, e) =>
      g := PairOf(d.branches.values[k]);
      MembersAre(d.branches.values, d.branches.order, g);
      assert k in MembersOf(d, g);
    case MissingEvaluator(p) => g := p;
    case MissingMerge(p) => g := p;
    case MergeUnselectedInput(p) => g := p;
  }

  function EdgeBranchFindings(d: Draft, e: EdgeKey): set<Finding>
    requires NonEmptyBranches(d)
  {
    (if Crosses(d, e) then {CrossBranch(e)} else {}) + if OffPath(d, e) then {OffBranchPath(e)} else {}
  }

  method CheckCrossings(d: Draft) returns (found: set<Finding>)
    requires Tables(d) && NonEmptyBranches(d)
    ensures forall f :: f in found <==> (f.CrossBranch? || f.OffBranchPath?) && ExplorationFault(d, f)
  {
    found := Gather(d.edges.order, e requires NonEmptyBranches(d) => EdgeBranchFindings(d, e));
  }

  function EvaluatorFindings(d: Draft, pairs: seq<Pair>, n: Key): set<Finding>
    requires NonEmptyBranches(d)
  {
    if n in d.nodes.values && d.nodes.values[n].kind.Evaluator? && !exists g :: g in pairs
                                                                                && GroupEnds(d, g) <= Dependencies(d, n)
    then {EvaluatorIncomplete(n)} else {}
  }

  method CheckEvaluators(d: Draft, pairs: seq<Pair>) returns (found: set<Finding>)
    requires Tables(d) && NonEmptyBranches(d) && forall g :: g in pairs <==> Group(d, g)
    ensures forall f :: f in found <==> f.EvaluatorIncomplete? && ExplorationFault(d, f)
  {
    found := Gather(d.nodes.order, n requires NonEmptyBranches(d) => EvaluatorFindings(d, pairs, n));
  }

  lemma PairsAreGroups(d: Draft, groups: map<Pair, seq<Key>>, pairs: seq<Pair>)
    requires Tables(d) && Grouped(d.branches.values, d.branches.order, groups, pairs)
    ensures forall g :: g in pairs <==> Group(d, g)
  {
    forall g ensures g in pairs <==> Group(d, g) {
      GroupIsUsed(d, g);
    }
  }

  /** The findings of the first `i` groups. */
  ghost predicate FoundIn(d: Draft, pairs: seq<Pair>, i: int, found: set<Finding>)
    requires NonEmptyBranches(d) && 0 <= i <= |pairs|
  {
    forall f :: f in found <==> exists j :: 0 <= j < i && f in GroupFindings(d, pairs[j], MembersOf(d, pairs[j]))
  }

  lemma FoundInNext(d: Draft, pairs: seq<Pair>, i: int, found: set<Finding>)
    requires NonEmptyBranches(d) && 0 <= i < |pairs| && FoundIn(d, pairs, i, found)
    ensures FoundIn(d, pairs, i + 1, found + GroupFindings(d, pairs[i], MembersOf(d, pairs[i])))
  {
  }

  method CheckGroups(d: Draft, groups: map<Pair, seq<Key>>, pairs: seq<Pair>) returns (found: set<Finding>)
    requires Tables(d) && NonEmptyBranches(d) && Grouped(d.branches.values, d.branches.order, groups, pairs)
    ensures forall f :: f in found <==> IsGroupFinding(f) && ExplorationFault(d, f)
    ensures forall g :: g in pairs <==> Group(d, g)
  {
    PairsAreGroups(d, groups, pairs);
    found := {};
    for i := 0 to |pairs|
      invariant FoundIn(d, pairs, i, found)
    {
      FoundInNext(d, pairs, i, found);
      found := found + GroupFindings(d, pairs[i], groups[pairs[i]]);
    }
    GroupsExact(d, pairs, found);
  }

  lemma GroupsExact(d: Draft, pairs: seq<Pair>, found: set<Finding>)
    requires Tables(d) && NonEmptyBranches(d) && forall g :: g in pairs <==> Group(d, g)
    requires FoundIn(d, pairs, |pairs|, found)
    ensures forall f :: f in found <==> IsGroupFinding(f) && ExplorationFault(d, f)
  {
    forall f ensures f in found <==> IsGroupFinding(f) && ExplorationFault(d, f) {
      if f in found {
        var j :| 0 <= j < |pairs| && f in GroupFindings(d, pairs[j], MembersOf(d, pairs[j]));
        GroupFindingsTrue(d, pairs[j], f);
      } else {
        forall g | Group(d, g) ensures f !in GroupFindings(d, g, MembersOf(d, g)) {
          assert g in pairs;
        }
        NoGroupFinding(d, f);
      }
    }
  }

  lemma NoGroupFinding(d: Draft, f: Finding)
    requires Tables(d) && NonEmptyBranches(d)
    requires forall g :: Group(d, g) ==> f !in GroupFindings(d, g, MembersOf(d, g))
    ensures !(IsGroupFinding(f) && ExplorationFault(d, f))
  {
    if IsGroupFinding(f) && ExplorationFault(d, f) {
      var g := GroupFindingsComplete(d, f);
    }
  }

  method CheckExploration(d: Draft) returns (found: set<Finding>)
    requires Tables(d) && NonEmptyBranches(d)
    ensures forall f :: f in found <==> ExplorationFault(d, f)
  {
    var groups, pairs := GroupBranches(d);
    var inGroups := CheckGroups(d, groups, pairs);
    var onEdges := CheckCrossings(d);
    var inNodes := CheckEvaluators(d, pairs);
    found := inGroups + onEdges + inNodes;
  }
}

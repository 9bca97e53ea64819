/** The whole validation of a draft: retained gate bindings, the exploration budget, and the
    union of all checks, which is empty exactly for the accepted drafts. */
module PlanValidation {
  import opened Values
  import opened Graphs
  import opened PlanDraft
  import opened PlanOrder
  import opened PlanChecks
  import opened PlanBranches
  import opened PlanPhases

  // ---- Retained gates in process mode

  ghost predicate RetainedFault(d: Draft, f: Finding) {
    match f
    case BindingIncomplete => d.checks.Keys != d.owners.Values
    case GateOwnerTwice(k) => exists a, b :: a in d.owners && b in d.owners && a != b && d.owners[a] == k
                                             && d.owners[b] == k
    case GateOwnerUnknown(k) => k in d.owners.Values + d.checks.Keys && k !in d.nodes.values
    case GateOwnerKind(k) => k in d.owners.Values && k in d.nodes.values && !CanOwnGate(d.nodes.values[k].kind)
    case ChecksMissing(k) => k in d.owners.Values && (k !in d.checks || d.checks[k] == [])
    case _ => false
  }

  /** No two of the gates share an owner. */
  ghost predicate OwnersDiffer(d: Draft, gates: set<string>) {
    forall a, b :: a in gates && b in gates && a in d.owners && b in d.owners && d.owners[a] == d.owners[b] ==> a == b
  }

  function OwnerFindings(d: Draft, k: Key): set<Finding> {
    (if k !in d.nodes.values then {GateOwnerUnknown(k)}
     else if CanOwnGate(d.nodes.values[k].kind) then {} else {GateOwnerKind(k)})
    + if k in d.checks && d.checks[k] != [] then {} else {ChecksMissing(k)}
  }

  lemma OwnerFindingsTrue(d: Draft, g: string)
    requires g in d.owners
    ensures forall f :: f in OwnerFindings(d, d.owners[g]) ==> RetainedFault(d, f)
  {
    assert d.owners[g] in d.owners.Values;
  }

  /** The state of the pass over the retained gates. */
  ghost predicate Bound(d: Draft, passed: set<string>, seen: set<Key>, found: set<Finding>) {
    && passed <= d.owners.Keys
    && (forall k :: k in seen <==> exists g :: g in passed && g in d.owners && d.owners[g] == k)
    && (forall f :: f in found ==> RetainedFault(d, f))
    && (found == {} ==> d.checks.Keys == d.owners.Values && OwnersDiffer(d, passed)
                        && forall g :: g in passed && g in d.owners ==> OwnerFindings(d, d.owners[g]) == {})
  }

  lemma BoundNext(d: Draft, passed: set<string>, seen: set<Key>, found: set<Finding>, g: string)
    requires Bound(d, passed, seen, found) && g in d.owners && g !in passed
    ensures var k := d.owners[g];
            Bound(d, passed + {g}, seen + {k}, found + (if k in seen then {GateOwnerTwice(k)} else {})
                  + OwnerFindings(d, k))
  {
    OwnerFindingsTrue(d, g);
  }

  /** Owners of a Check group that no gate names and that do not exist. */
  function StrayFindings(d: Draft): set<Finding> {
    set k | k in d.checks && k !in d.owners.Values && k !in d.nodes.values :: GateOwnerUnknown(k)
  }

  lemma StraysTrue(d: Draft)
    ensures forall f :: f in StrayFindings(d) ==> RetainedFault(d, f)
  {
  }

  method CheckRetained(d: Draft) returns (found: set<Finding>)
    ensures forall f :: f in found ==> RetainedFault(d, f)
    ensures found == {} ==> forall f :: !RetainedFault(d, f)
  {
    var seen: set<Key> := {};
    ghost var passed: set<string> := {};
    found := if d.checks.Keys == d.owners.Values then {} else {BindingIncomplete};
    var left := d.owners.Keys;
    while left != {}
      invariant left + passed == d.owners.Keys && left * passed == {} && Bound(d, passed, seen, found)
      decreases left
    {
      var g :| g in left;
      var k := d.owners[g];
      BoundNext(d, passed, seen, found, g);
      found := found + (if k in seen then {GateOwnerTwice(k)} else {}) + OwnerFindings(d, k);
      seen, passed, left := seen + {k}, passed + {g}, left - {g};
    }
    StraysTrue(d);
    found := found + StrayFindings(d);
    if found == {} {
      AllBound(d, seen);
    }
  }

  lemma AllBound(d: Draft, seen: set<Key>)
    requires Bound(d, d.owners.Keys, seen, {})
    ensures forall f :: !RetainedFault(d, f)
  {
    forall k | k in d.owners.Values ensures OwnerFindings(d, k) == {} {
      var g :| g in d.owners && d.owners[g] == k;
      assert g in d.owners.Keys;
    }
    forall f ensures !RetainedFault(d, f) {
      if f.ChecksMissing? || f.GateOwnerKind? || f.GateOwnerUnknown? {
        assert f.key in d.owners.Values ==> f !in OwnerFindings(d, f.key);
      }
    }
  }

  // ---- The exploration budget

  ghost predicate WiderThan(d: Draft, width: nat) {
    exists g :: |MembersOf(d, g)| > width
  }

  ghost predicate DeeperThan(d: Draft, depth: nat) {
    exists k :: k in d.branches.values && |d.branches.values[k].nodes| > depth
  }

  ghost predicate BudgetFault(c: Config, d: Draft, f: Finding) {
    f.BudgetExceeded? && (WiderThan(d, c.maxWidth) || DeeperThan(d, c.maxDepth) || |d.nodes.order| > c.maxAttempts)
  }

  ghost predicate Counts(branches: map<Key, Branch>, order: seq<Key>, counts: map<Pair, nat>) {
    forall g :: |Members(branches, order, g)| == if g in counts then counts[g] else 0
  }

  lemma CountsNext(branches: map<Key, Branch>, order: seq<Key>, i: nat, counts: map<Pair, nat>)
    requires i < |order| && order[i] in branches && Counts(branches, order[..i], counts)
    ensures var g := PairOf(branches[order[i]]);
            Counts(branches, order[..i + 1], counts[g := (if g in counts then counts[g] else 0) + 1])
  {
    assert order[..i + 1][..i] == order[..i];
  }

  /** The largest number in a table. */
  method Largest(counts: map<Pair, nat>) returns (width: nat)
    ensures forall g :: g in counts ==> counts[g] <= width
    ensures width > 0 ==> exists g :: g in counts && counts[g] == width
  {
    width := 0;
    var left := counts.Keys;
    while left != {}
      invariant left <= counts.Keys
      invariant forall g :: g in counts && g !in left ==> counts[g] <= width
      invariant width > 0 ==> exists g :: g in counts && counts[g] == width
      decreases left
    {
      var g :| g in left;
      if counts[g] > width {
        width := counts[g];
      }
      left := left - {g};
    }
  }

  /** How many branches the widest fork and merge pair has, how many nodes the longest branch
      has, and how many nodes the plan has. */
  method Usage(d: Draft) returns (width: nat, depth: nat, attempts: nat)
    requires Tables(d)
    ensures !WiderThan(d, width) && (width > 0 ==> WiderThan(d, width - 1))
    ensures !DeeperThan(d, depth) && (depth > 0 ==> DeeperThan(d, depth - 1))
    ensures attempts == |d.nodes.order|
  {
    var counts: map<Pair, nat> := map[];
    depth := 0;
    for i := 0 to |d.branches.order|
      invariant Counts(d.branches.values, d.branches.order[..i], counts)
      invariant forall j :: 0 <= j < i ==> |d.branches.values[d.branches.order[j]].nodes| <= depth
      invariant depth > 0 ==> DeeperThan(d, depth - 1)
    {
      var b := d.branches.values[d.branches.order[i]];
      CountsNext(d.branches.values, d.branches.order, i, counts);
      counts := counts[PairOf(b) := (if PairOf(b) in counts then counts[PairOf(b)] else 0) + 1];
      if |b.nodes| > depth {
        depth := |b.nodes|;
      }
    }
    assert d.branches.order[..|d.branches.order|] == d.branches.order;
    width := Largest(counts);
    WidthIs(d, counts, width);
    attempts := |d.nodes.order|;
  }

  lemma WidthIs(d: Draft, counts: map<Pair, nat>, width: nat)
    requires Counts(d.branches.values, d.branches.order, counts)
    requires forall g :: g in counts ==> counts[g] <= width
    requires width > 0 ==> exists g :: g in counts && counts[g] == width
    ensures !WiderThan(d, width) && (width > 0 ==> WiderThan(d, width - 1))
  {
    if width > 0 {
      var g :| g in counts && counts[g] == width;
      assert |MembersOf(d, g)| > width - 1;
    }
  }

  method CheckBudget(c: Config, d: Draft) returns (found: set<Finding>)
    requires Tables(d)
    ensures forall f :: f in found <==> BudgetFault(c, d, f)
  {
    var width, depth, attempts := Usage(d);
    LimitIs(c, d, width, depth);
    found := if width > c.maxWidth || depth > c.maxDepth || attempts > c.maxAttempts then {BudgetExceeded} else {};
  }

  lemma LimitIs(c: Config, d: Draft, width: nat, depth: nat)
    requires !WiderThan(d, width) && (width > 0 ==> WiderThan(d, width - 1))
    requires !DeeperThan(d, depth) && (depth > 0 ==> DeeperThan(d, depth - 1))
    ensures width > c.maxWidth <==> WiderThan(d, c.maxWidth)
    ensures depth > c.maxDepth <==> DeeperThan(d, c.maxDepth)
  {
  }

  // ---- Everything

  /** What a seeded or edited draft always has: valid tables, branches with nodes, and a
      reviewer inside every phase. */
  ghost predicate Checkable(d: Draft) {
    Tables(d) && NonEmptyBranches(d) && ReviewersInside(d)
  }

  ghost predicate ReferenceFault(c: Config, d: Draft, f: Finding) {
    EdgeFault(d, f) || BranchFault(d, f) || SinkFault(c, d, f) || GateFault(c, d, f) || QuestionFault(c, d, f)
  }

  ghost predicate StructureFault(c: Config, d: Draft, f: Finding)
    requires NonEmptyBranches(d)
  {
    CycleFault(d, f) || NodeFault(c, d, f) || (d.branches.values != map[] && ExplorationFault(d, f))
  }

  ghost predicate Fault(c: Config, d: Draft, f: Finding)
    requires Checkable(d)
  {
    || ReferenceFault(c, d, f) || StructureFault(c, d, f)
    || PhaseFault(d, f) || (c.processMode && RetainedFault(d, f)) || BudgetFault(c, d, f)
  }

  ghost predicate Accepted(c: Config, d: Draft)
    requires Checkable(d)
  {
    d.nodes.values != map[] && forall f :: !Fault(c, d, f)
  }

  method CheckReferences(c: Config, d: Draft) returns (found: set<Finding>, sinks: seq<Key>)
    requires Tables(d)
    ensures forall n :: n in sinks <==> IsSink(d, n)
    ensures forall f :: f in found <==> ReferenceFault(c, d, f)
  {
    var edges := CheckEdges(d);
    var branches := CheckBranches(d);
    var sink;
    sink, sinks := CheckSink(c, d);
    var gates := CheckGates(c, d);
    var questions := CheckQuestions(c, d);
    found := edges + branches + sink + gates + questions;
  }

  method CheckStructure(c: Config, d: Draft, sinks: seq<Key>) returns (found: set<Finding>)
    requires Tables(d) && NonEmptyBranches(d) && forall n :: n in sinks <==> IsSink(d, n)
    ensures forall f :: f in found <==> StructureFault(c, d, f)
  {
    var cycle := CheckCycle(d);
    var nodes := CheckNodes(c, d, sinks);
    found := cycle + nodes;
    if d.branches.values != map[] {
      var exploration := CheckExploration(d);
      found := found + exploration;
    }
  }

  /** Reports only faults, and nothing exactly when the draft is accepted. */
  method ValidateGraph(c: Config, d: Draft) returns (found: set<Finding>)
    requires Checkable(d)
    ensures d.nodes.values == map[] ==> found == {EmptyGraph}
    ensures d.nodes.values != map[] ==> forall f :: f in found ==> Fault(c, d, f)
    ensures found == {} <==> Accepted(c, d)
  {
    if d.nodes.values == map[] {
      return {EmptyGraph};
    }
    var references, sinks := CheckReferences(c, d);
    var structure := CheckStructure(c, d, sinks);
    var phases := ValidatePhases(d);
    var retained: set<Finding> := {};
    if c.processMode {
      retained := CheckRetained(d);
    }
    var budget := CheckBudget(c, d);
    found := references + structure + phases + retained + budget;
    if found == {} {
      forall f ensures !Fault(c, d, f) {
        assert f !in references && f !in structure && f !in budget;
      }
    } else {
      var f :| f in found;
      assert Fault(c, d, f);
    }
  }
}

/** The full validation of a draft, apart from branches and phases: references, the single sink,
    gates, human questions, cycles and node kinds. Each check reports exactly its faults. */
module PlanChecks {
  import opened Values
  import opened Graphs
  import opened PlanDraft
  import opened PlanOrder

  type Pair = (Key, Key)

  datatype Finding =
    | EmptyGraph
    | UnknownEnd(edge: EdgeKey) | UnknownEdgeBranch(edge: EdgeKey) | UnknownBranchNode(key: Key)
    | SingleSinkRequired | SinkInvalid(key: Key) | SinkPrunable(key: Key)
    | FinalGateLost | FinalGateMoved(key: Key) | SinkHasNodeGate(key: Key)
    | GateUnknownNode(key: Key) | GateInvalidKind(key: Key) | FinalGateRequired | QuestionRepeated(key: Key)
    | CycleDetected(edge: EdgeKey)
    | ForkUnused(key: Key) | MergeUnused(key: Key) | EvaluatorUnused(key: Key)
    | ReviewerDependencyRequired(key: Key) | ReviewerGateRequired(key: Key)
    | ForkKind(key: Key) | MergeKind(key: Key) | InsufficientBranches(pair: Pair)
    | PathEdgeMissing(key: Key, edge: EdgeKey)
    | MissingEvaluator(pair: Pair) | MissingMerge(pair: Pair) | MergeUnselectedInput(pair: Pair)
    | CrossBranch(edge: EdgeKey) | OffBranchPath(edge: EdgeKey) | EvaluatorIncomplete(key: Key)
    | PhasesRequired | PhaseUnknownNode(key: Key) | PhaseOverlap(key: Key, node: Key) | PhaseReviewerWrong(key: Key)
    | PhaseReworkWrong(key: Key) | PhaseReviewIncomplete(key: Key) | PhaseOmits(node: Key)
    | PhaseBackEdge(edge: EdgeKey) | PhaseGateBypassed(edge: EdgeKey) | PhaseRootUnguarded(key: Key, node: Key)
    | BindingIncomplete | GateOwnerTwice(key: Key) | GateOwnerUnknown(key: Key) | GateOwnerKind(key: Key)
    | ChecksMissing(key: Key)
    | BudgetExceeded | TemplateInvalid

  ghost predicate Tables(d: Draft) {
    d.nodes.Valid() && d.edges.Valid() && d.branches.Valid() && d.phases.Valid() && d.gates.Valid()
  }

  /** One pass over a table that collects the findings of every entry. */
  method Gather<K, F>(keys: seq<K>, check: K -> set<F>) returns (found: set<F>)
    ensures forall f :: f in found <==> exists k :: k in keys && f in check(k)
  {
    found := {};
    for i := 0 to |keys|
      invariant forall f :: f in found <==> exists k :: k in keys[..i] && f in check(k)
    {
      assert keys[..i + 1] == keys[..i] + [keys[i]];
      found := found + check(keys[i]);
    }
    assert keys[..|keys|] == keys;
  }

  // ---- References

  ghost predicate EdgeFault(d: Draft, f: Finding) {
    match f
    case UnknownEnd(e) => e in d.edges.values && !Known(d.nodes.values.Keys, e)
    case UnknownEdgeBranch(e) => e in d.edges.values && e.branch.Some? && e.branch.value !in d.branches.values
    case _ => false
  }

  function EdgeFindings(d: Draft, e: EdgeKey): set<Finding> {
    (if e.source !in d.nodes.values || e.target !in d.nodes.values then {UnknownEnd(e)} else {})
    + if e.branch.Some? && e.branch.value !in d.branches.values then {UnknownEdgeBranch(e)} else {}
  }

  method CheckEdges(d: Draft) returns (found: set<Finding>)
    requires Tables(d)
    ensures forall f :: f in found <==> EdgeFault(d, f)
  {
    found := Gather(d.edges.order, e => EdgeFindings(d, e));
  }

  ghost predicate BranchFault(d: Draft, f: Finding) {
    match f
    case UnknownBranchNode(k) => k in d.branches.values && exists n :: BranchUses(d.branches.values[k], n)
                                                                       && n !in d.nodes.values
    case _ => false
  }

  function BranchFindings(d: Draft, k: Key): set<Finding> {
    if k !in d.branches.values then {}
    else
      var b := d.branches.values[k];
      if b.fork in d.nodes.values && b.merge in d.nodes.values && forall n :: n in b.nodes ==>
        n in d.nodes.values then {}
      else {UnknownBranchNode(k)}
  }

  method CheckBranches(d: Draft) returns (found: set<Finding>)
    requires Tables(d)
    ensures forall f :: f in found <==> BranchFault(d, f)
  {
    found := Gather(d.branches.order, k => BranchFindings(d, k));
  }

  // ---- The single sink and the final gate

  predicate HasOutgoing(d: Draft, n: Key) {
    exists e :: e in d.edges.values && e.source == n
  }

  ghost predicate IsSink(d: Draft, n: Key) {
    n in d.nodes.values && !HasOutgoing(d, n)
  }

  ghost predicate OnlySink(d: Draft, t: Key) {
    IsSink(d, t) && forall n :: IsSink(d, n) ==> n == t
  }

  /** The nodes without an outgoing edge, in order. */
  method Terminals(d: Draft) returns (sinks: seq<Key>)
    requires Tables(d)
    ensures Distinct(sinks) && forall n :: n in sinks <==> IsSink(d, n)
  {
    var sources: set<Key> := {};
    for i := 0 to |d.edges.order|
      invariant forall n :: n in sources <==> exists j :: 0 <= j < i && d.edges.order[j].source == n
    {
      sources := sources + {d.edges.order[i].source};
    }
    SourcesAre(d, sources);
    sinks := [];
    for i := 0 to |d.nodes.order|
      invariant Distinct(sinks) && forall n :: n in sinks <==> n in d.nodes.order[..i] && n !in sources
    {
      var key := d.nodes.order[i];
      assert d.nodes.order[..i + 1] == d.nodes.order[..i] + [key];
      if key !in sources {
        NotYet(d.nodes.order, i);
        DistinctAppend(sinks, key);
        sinks := sinks + [key];
      }
    }
    assert d.nodes.order[..|d.nodes.order|] == d.nodes.order;
  }

  lemma SourcesAre(d: Draft, sources: set<Key>)
    requires Tables(d)
    requires forall n :: n in sources <==> exists j :: 0 <= j < |d.edges.order| && d.edges.order[j].source == n
    ensures forall n :: n in sources <==> HasOutgoing(d, n)
  {
    forall n | HasOutgoing(d, n) ensures n in sources {
      var e :| e in d.edges.values && e.source == n;
      assert e in d.edges.order;
    }
  }

  lemma NotYet<T>(s: seq<T>, i: int)
    requires Distinct(s) && 0 <= i < |s|
    ensures s[i] !in s[..i]
  {
    forall j | 0 <= j < i ensures s[j] != s[i] {
      assert Differ(s, j, i);
    }
  }

  lemma OneSink(d: Draft, sinks: seq<Key>)
    requires Distinct(sinks) && forall n :: n in sinks <==> IsSink(d, n)
    ensures |sinks| == 1 <==> exists t :: OnlySink(d, t)
    ensures |sinks| == 1 ==> OnlySink(d, sinks[0])
  {
    if |sinks| == 1 {
      assert OnlySink(d, sinks[0]);
    }
    if |sinks| > 1 {
      assert Differ(sinks, 0, 1);
      assert IsSink(d, sinks[0]) && IsSink(d, sinks[1]);
    }
  }

  ghost predicate SinkFault(c: Config, d: Draft, f: Finding) {
    match f
    case SingleSinkRequired => !exists t :: OnlySink(d, t)
    case SinkInvalid(t) => OnlySink(d, t) && (d.nodes.values[t].kind.Fork? || d.nodes.values[t].kind.Evaluator?)
    case SinkPrunable(t) => OnlySink(d, t) && exists b :: b in d.branches.values && t in d.branches.values[b].nodes
    case FinalGateLost => c.processMode && c.finalGateId.None? && exists t :: OnlySink(d, t)
    case FinalGateMoved(t) =>
      OnlySink(d, t) && c.processMode && c.finalGateId.Some?
      && !(c.finalGateId.value in d.owners && d.owners[c.finalGateId.value] == t)
    case SinkHasNodeGate(t) => OnlySink(d, t) && !c.processMode && t in d.gates.values
    case _ => false
  }

  function FinalGateFindings(c: Config, d: Draft, t: Key): set<Finding> {
    if c.processMode then
      if c.finalGateId.None? then {FinalGateLost}
      else if c.finalGateId.value in d.owners && d.owners[c.finalGateId.value] == t then {} else {FinalGateMoved(t)}
    else if t in d.gates.values then {SinkHasNodeGate(t)} else {}
  }

  method CheckSink(c: Config, d: Draft) returns (found: set<Finding>, sinks: seq<Key>)
    requires Tables(d)
    ensures forall n :: n in sinks <==> IsSink(d, n)
    ensures forall f :: f in found <==> SinkFault(c, d, f)
  {
    sinks := Terminals(d);
    OneSink(d, sinks);
    if |sinks| != 1 {
      found := {SingleSinkRequired};
    } else {
      var t := sinks[0];
      assert IsSink(d, t);
      var kind := d.nodes.values[t].kind;
      found := if kind.Fork? || kind.Evaluator? then {SinkInvalid(t)} else {};
      if exists b :: b in d.branches.values && t in d.branches.values[b].nodes {
        found := found + {SinkPrunable(t)};
      }
      found := found + FinalGateFindings(c, d, t);
    }
  }

  predicate HasFinalGate(c: Config, d: Draft) {
    !c.processMode && (d.finalArgv != [] || d.finalQuestion.Some?)
  }

  ghost predicate GateFault(c: Config, d: Draft, f: Finding) {
    match f
    case GateUnknownNode(k) => k in d.gates.values && k !in d.nodes.values
    case GateInvalidKind(k) => k in d.gates.values && k in d.nodes.values && !CanOwnGate(d.nodes.values[k].kind)
    case FinalGateRequired => c.requireFinalGate && !c.processMode && !HasFinalGate(c, d)
    case _ => false
  }

  function GateFindings(d: Draft, k: Key): set<Finding> {
    if k !in d.nodes.values then {GateUnknownNode(k)}
    else if !CanOwnGate(d.nodes.values[k].kind) then {GateInvalidKind(k)} else {}
  }

  method CheckGates(c: Config, d: Draft) returns (found: set<Finding>)
    requires Tables(d)
    ensures forall f :: f in found <==> GateFault(c, d, f)
  {
    found := Gather(d.gates.order, k => GateFindings(d, k));
    if c.requireFinalGate && !c.processMode && !(d.finalArgv != [] || d.finalQuestion.Some?) {
      found := found + {FinalGateRequired};
    }
  }

  // ---- Human questions

  /** Questions asked by the completion criteria and, outside process mode, by the final gate. */
  ghost predicate AskedAtEnd(c: Config, d: Draft, q: string) {
    || (exists i :: 0 <= i < |c.criteriaQuestions| && c.normalize(c.criteriaQuestions[i]) == q)
    || (!c.processMode && d.finalQuestion.Some? && c.normalize(d.finalQuestion.value) == q)
  }

  /** The j-th node gate asks the question with comparison form `q`. */
  ghost predicate AskedByGate(c: Config, d: Draft, j: int, q: string) {
    && 0 <= j < |d.gates.order| && d.gates.order[j] in d.gates.values
    && d.gates.values[d.gates.order[j]].question.Some? && c.normalize(d.gates.values[d.gates.order[j]].question.value)
       == q
  }

  /** The i-th node gate asks what the end or an earlier gate already asks. */
  ghost predicate Repeats(c: Config, d: Draft, i: int) {
    exists q :: AskedByGate(c, d, i, q) && (AskedAtEnd(c, d, q) || exists j :: 0 <= j < i && AskedByGate(c, d, j, q))
  }

  ghost predicate QuestionFault(c: Config, d: Draft, f: Finding) {
    f.QuestionRepeated? && exists i :: 0 <= i < |d.gates.order| && d.gates.order[i] == f.key && Repeats(c, d, i)
  }

  ghost predicate Seen(c: Config, d: Draft, i: int, seen: set<string>) {
    forall q :: q in seen <==> AskedAtEnd(c, d, q) || exists j :: 0 <= j < i && AskedByGate(c, d, j, q)
  }

  method CheckQuestions(c: Config, d: Draft) returns (found: set<Finding>)
    requires Tables(d)
    ensures forall f :: f in found <==> QuestionFault(c, d, f)
  {
    var seen := set i | 0 <= i < |c.criteriaQuestions| :: c.normalize(c.criteriaQuestions[i]);
    if !c.processMode && d.finalQuestion.Some? {
      seen := seen + {c.normalize(d.finalQuestion.value)};
    }
    found := {};
    for i := 0 to |d.gates.order|
      invariant Seen(c, d, i, seen)
      invariant forall f :: f in found <==> f.QuestionRepeated? && exists j :: 0 <= j < i && d.gates.order[j] == f.key
                                                                               && Repeats(c, d, j)
    {
      var gate := d.gates.values[d.gates.order[i]];
      if gate.question.Some? {
        var q := c.normalize(gate.question.value);
        assert AskedByGate(c, d, i, q);
        assert q in seen <==> Repeats(c, d, i);
        if q in seen {
          found := found + {QuestionRepeated(d.gates.order[i])};
        } else {
          seen := seen + {q};
        }
      }
    }
  }

  // ---- Cycles and node kinds

  ghost predicate CycleFault(d: Draft, f: Finding) {
    f.CycleDetected? && exists i :: FirstStuckEdge(d.nodes.values.Keys, d.edges.order, i) && f.edge == d.edges.order[i]
  }

  ghost function PlanEdges(d: Draft): Edges {
    GraphOf(d.nodes.values.Keys, d.edges.order)
  }

  method CheckCycle(d: Draft) returns (found: set<Finding>)
    requires Tables(d)
    ensures forall f :: f in found <==> CycleFault(d, f)
    ensures found == {} <==> Acyclic(PlanEdges(d))
  {
    var cyclic, at := ValidateCycle(d.nodes.values.Keys, d.nodes.order, d.edges.order);
    found := if at.Some? then {CycleDetected(at.value)} else {};
    OneStuckEdge(d);
  }

  lemma OneStuckEdge(d: Draft)
    ensures forall i, j ::
              FirstStuckEdge(d.nodes.values.Keys, d.edges.order, i)
              && FirstStuckEdge(d.nodes.values.Keys, d.edges.order, j)
              ==> i == j
    ensures Acyclic(PlanEdges(d)) ==> forall i :: !FirstStuckEdge(d.nodes.values.Keys, d.edges.order, i)
  {
    if Acyclic(PlanEdges(d)) {
      forall i ensures !FirstStuckEdge(d.nodes.values.Keys, d.edges.order, i) {
        if 0 <= i < |d.edges.order| && Stuck(PlanEdges(d), d.edges.order[i].source) {
          StuckIsCyclic(PlanEdges(d), d.edges.order[i].source);
        }
      }
    }
  }

  /** The nodes that `n` depends on directly. */
  function Dependencies(d: Draft, n: Key): set<Key> {
    set e | e in d.edges.values && e.target == n && e.kind.Dependency? :: e.source
  }

  predicate OwnsGate(d: Draft, n: Key) {
    n in d.gates.values || n in d.checks
  }

  ghost predicate NodeFault(c: Config, d: Draft, f: Finding) {
    match f
    case ForkUnused(n) => n in d.nodes.values && d.nodes.values[n].kind.Fork? && !exists b ::
      b in d.branches.values && d.branches.values[b].fork == n
    case MergeUnused(n) => n in d.nodes.values && d.nodes.values[n].kind.Merge? && !exists b ::
      b in d.branches.values && d.branches.values[b].merge == n
    case EvaluatorUnused(n) => n in d.nodes.values && d.nodes.values[n].kind.Evaluator? && d.branches.values == map[]
    case ReviewerDependencyRequired(n) => n in d.nodes.values && d.nodes.values[n].kind.Reviewer?
      && Dependencies(d, n) == {}
    case ReviewerGateRequired(n) =>
      n in d.nodes.values && d.nodes.values[n].kind.Reviewer? && !OwnsGate(d, n)
        && !(IsSink(d, n) && HasFinalGate(c, d))
    case _ => false
  }

  function NodeFindings(c: Config, d: Draft, forks: set<Key>, merges: set<Key>, sinks: seq<Key>, n: Key): set<Finding>
  {
    if n !in d.nodes.values then {}
    else
      match d.nodes.values[n].kind
      case Fork => if n in forks then {} else {ForkUnused(n)}
      case Merge => if n in merges then {} else {MergeUnused(n)}
      case Evaluator => if d.branches.values == map[] then {EvaluatorUnused(n)} else {}
      case Work => {}
      case Reviewer =>
        (if Dependencies(d, n) == {} then {ReviewerDependencyRequired(n)} else {})
        + if !OwnsGate(d, n) && !(n in sinks && HasFinalGate(c, d)) then {ReviewerGateRequired(n)} else {}
  }

  method CheckNodes(c: Config, d: Draft, sinks: seq<Key>) returns (found: set<Finding>)
    requires Tables(d) && forall n :: n in sinks <==> IsSink(d, n)
    ensures forall f :: f in found <==> NodeFault(c, d, f)
  {
    var forks := set b | b in d.branches.values :: d.branches.values[b].fork;
    var merges := set b | b in d.branches.values :: d.branches.values[b].merge;
    found := Gather(d.nodes.order, n => NodeFindings(c, d, forks, merges, sinks, n));
  }
}

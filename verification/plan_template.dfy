/** The plan template that an accepted draft becomes, every check its constructors make, and the
    proof that an accepted draft passes all of them. */
module PlanTemplate {
  import opened Values
  import opened Graphs
  import opened PlanDraft
  import opened PlanIntegrity
  import opened PlanOrder
  import opened PlanChecks
  import opened PlanBranches
  import opened PlanPhases
  import opened PlanValidation
  import opened PlanTheorems

  datatype NodeTemplate = NodeTemplate(key: Key, node: Node, dependencies: seq<Key>, completion: bool)
  datatype EdgeTemplate = EdgeTemplate(edge: EdgeKey, condition: Option<string>)
  datatype BranchTemplate = BranchTemplate(key: Key, branch: Branch)
  datatype PhaseTemplate = PhaseTemplate(key: Key, phase: Phase)
  datatype GateTemplate = GateTemplate(key: Key, gate: Gate)

  datatype Template = Template(
    nodes: seq<NodeTemplate>, edges: seq<EdgeTemplate>, branches: seq<BranchTemplate>, phases: seq<PhaseTemplate>,
    gates: seq<GateTemplate>, width: nat, depth: nat, attempts: nat,
    final: Key, finalArgv: seq<string>, finalQuestion: Option<string>,
    checks: map<Key, seq<string>>, owners: map<string, Key>, eventTypes: seq<string>)

  // ---- What the constructors check, part by part

  ghost predicate NodeOk(n: NodeTemplate) {
    n.key != "" && "" !in n.dependencies && Distinct(n.dependencies) && n.key !in n.dependencies
    && n.node.title != "" && n.node.instruction != ""
  }

  ghost predicate EdgeOk(e: EdgeTemplate) {
    e.edge.source != "" && e.edge.target != "" && e.edge.branch != Some("") && e.condition != Some("")
  }

  ghost predicate BranchOk(b: BranchTemplate) {
    && b.key != "" && b.branch.fork != "" && b.branch.merge != "" && KeyList(b.branch.nodes)
    && b.branch.fork != b.branch.merge && b.branch.fork !in b.branch.nodes && b.branch.merge !in b.branch.nodes
    && b.branch.caption != ""
  }

  ghost predicate PhaseOk(p: PhaseTemplate) {
    && p.key != "" && p.phase.title != "" && KeyList(p.phase.nodes)
    && p.phase.reviewer in p.phase.nodes && p.phase.gate in p.phase.nodes && p.phase.reviewer == p.phase.gate
    && KeyList(p.phase.rework) && (forall n :: n in p.phase.rework ==> n in p.phase.nodes)
    && p.phase.reviewer !in p.phase.rework
  }

  ghost predicate GateOk(g: GateTemplate) {
    && g.key != "" && g.gate.name != "" && ArgvOk(g.gate.argv) && !BlankOption(g.gate.question)
    && (g.gate.argv != [] || g.gate.question.Some?)
  }

  ghost predicate PartsOk(t: Template) {
    && (forall i :: 0 <= i < |t.nodes| ==> NodeOk(t.nodes[i]))
    && (forall i :: 0 <= i < |t.edges| ==> EdgeOk(t.edges[i]))
    && (forall i :: 0 <= i < |t.branches| ==> BranchOk(t.branches[i]))
    && (forall i :: 0 <= i < |t.phases| ==> PhaseOk(t.phases[i]))
    && forall i :: 0 <= i < |t.gates| ==> GateOk(t.gates[i])
  }

  // ---- What the template checks as a whole

  ghost predicate NodeAt(t: Template, i: int, key: Key) {
    0 <= i < |t.nodes| && t.nodes[i].key == key
  }

  ghost predicate HasNode(t: Template, key: Key) {
    exists i :: NodeAt(t, i, key)
  }

  ghost predicate HasBranch(t: Template, key: Key) {
    exists i :: 0 <= i < |t.branches| && t.branches[i].key == key
  }

  ghost predicate NodeKeysDiffer(nodes: seq<NodeTemplate>, i: int, j: int)
    requires 0 <= i < |nodes| && 0 <= j < |nodes|
  {
    nodes[i].key != nodes[j].key
  }

  ghost predicate BranchKeysDiffer(branches: seq<BranchTemplate>, i: int, j: int)
    requires 0 <= i < |branches| && 0 <= j < |branches|
  {
    branches[i].key != branches[j].key
  }

  ghost predicate PhaseKeysDiffer(phases: seq<PhaseTemplate>, i: int, j: int)
    requires 0 <= i < |phases| && 0 <= j < |phases|
  {
    phases[i].key != phases[j].key
  }

  ghost predicate GateKeysDiffer(gates: seq<GateTemplate>, i: int, j: int)
    requires 0 <= i < |gates| && 0 <= j < |gates|
  {
    gates[i].key != gates[j].key
  }

  ghost predicate KeysUnique(t: Template) {
    && t.nodes != []
    && (forall i, j :: 0 <= i < j < |t.nodes| ==> NodeKeysDiffer(t.nodes, i, j))
    && (forall i, j :: 0 <= i < j < |t.branches| ==> BranchKeysDiffer(t.branches, i, j))
    && (forall i, j :: 0 <= i < j < |t.phases| ==> PhaseKeysDiffer(t.phases, i, j))
    && (forall i, j :: 0 <= i < j < |t.gates| ==> GateKeysDiffer(t.gates, i, j))
  }

  ghost predicate EdgeRefersOk(t: Template, e: EdgeKey) {
    HasNode(t, e.source) && HasNode(t, e.target) && (e.branch.Some? ==> HasBranch(t, e.branch.value))
  }

  ghost predicate ReferencesOk(t: Template) {
    && (forall i, n :: 0 <= i < |t.nodes| && n in t.nodes[i].dependencies ==> HasNode(t, n))
    && (forall i :: 0 <= i < |t.edges| ==> EdgeRefersOk(t, t.edges[i].edge))
    && forall i, n :: 0 <= i < |t.branches| && BranchUses(t.branches[i].branch, n) ==> HasNode(t, n)
  }

  ghost predicate KindAt(t: Template, key: Key, allowed: set<Kind>) {
    forall i :: NodeAt(t, i, key) ==> t.nodes[i].node.kind in allowed
  }

  const REWORK_KINDS: set<Kind> := {Work, Merge}
  const GATE_KINDS: set<Kind> := {Work, Merge, Reviewer}

  /** The node lists of the phases, one after the other. */
  ghost function Memberships(phases: seq<PhaseTemplate>): seq<Key> {
    if phases == [] then [] else Memberships(phases[..|phases| - 1]) + phases[|phases| - 1].phase.nodes
  }

  /** The phases partition the nodes: the same keys and as many of them. */
  ghost predicate PhasesFit(t: Template) {
    && (forall n :: n in Memberships(t.phases) <==> HasNode(t, n)) && |Memberships(t.phases)| == |t.nodes|
    && forall i :: 0 <= i < |t.phases| ==>
         && HasNode(t, t.phases[i].phase.reviewer) && KindAt(t, t.phases[i].phase.reviewer, {Reviewer})
         && forall n :: n in t.phases[i].phase.rework ==> KindAt(t, n, REWORK_KINDS)
  }

  ghost predicate TerminalKey(t: Template, key: Key) {
    HasNode(t, key) && forall i :: 0 <= i < |t.edges| ==> t.edges[i].edge.source != key
  }

  ghost predicate FinalOk(t: Template) {
    && t.final != "" && TerminalKey(t, t.final) && (forall n :: TerminalKey(t, n) ==> n == t.final)
    && (forall i :: 0 <= i < |t.nodes| && t.nodes[i].completion ==> t.nodes[i].key == t.final)
    && ArgvOk(t.finalArgv) && !BlankOption(t.finalQuestion)
  }

  ghost predicate RetainedOk(t: Template) {
    && (forall k :: k in t.checks ==> k != "" && HasNode(t, k) && t.checks[k] != [] && NoRepeat(t.checks[k]))
    && (forall g :: g in t.owners ==> HasNode(t, t.owners[g]) && KindAt(t, t.owners[g], GATE_KINDS))
    && (forall a, b :: a in t.owners && b in t.owners && t.owners[a] == t.owners[b] ==> a == b)
    && t.checks.Keys == t.owners.Values
  }

  ghost predicate GatesFit(t: Template) {
    forall i :: 0 <= i < |t.gates| ==>
      HasNode(t, t.gates[i].key) && KindAt(t, t.gates[i].key, GATE_KINDS) && t.gates[i].key != t.final
  }

  ghost predicate GateOn(t: Template, key: Key) {
    exists j :: 0 <= j < |t.gates| && t.gates[j].key == key
  }

  ghost predicate ReviewersOk(t: Template) {
    forall i :: 0 <= i < |t.nodes| && t.nodes[i].node.kind.Reviewer? ==>
      && t.nodes[i].dependencies != []
      && (GateOn(t, t.nodes[i].key) || t.nodes[i].key in t.owners.Values
          || (t.nodes[i].key == t.final && (t.finalArgv != [] || t.finalQuestion.Some?)))
  }

  ghost predicate UsageOk(c: Config, t: Template) {
    t.width <= c.maxWidth && t.depth <= c.maxDepth && t.attempts <= c.maxAttempts
  }

  predicate MessagesOk(messages: seq<string>) {
    "" !in messages
  }

  ghost predicate TemplateOk(c: Config, t: Template) {
    && PartsOk(t) && KeysUnique(t) && ReferencesOk(t) && PhasesFit(t) && FinalOk(t)
    && RetainedOk(t) && GatesFit(t) && ReviewersOk(t) && UsageOk(c, t) && MessagesOk(t.eventTypes)
  }

  // ---- Composition

  /** Sources of the dependency edges into `n`, in table order. */
  function Sources(order: seq<EdgeKey>, n: Key): seq<Key> {
    if order == [] then []
    else
      var last := order[|order| - 1];
      Sources(order[..|order| - 1], n) + if last.kind.Dependency? && last.target == n then [last.source] else []
  }

  ghost predicate Filed(order: seq<EdgeKey>, dependencies: map<Key, seq<Key>>) {
    forall n :: Sources(order, n) == if n in dependencies then dependencies[n] else []
  }

  lemma FiledNext(order: seq<EdgeKey>, i: nat, dependencies: map<Key, seq<Key>>)
    requires i < |order| && Filed(order[..i], dependencies)
    ensures var e := order[i];
            Filed(order[..i + 1],
                  if e.kind.Dependency?
                  then dependencies[e.target := (if e.target in dependencies then dependencies[e.target] else [])
                                    + [e.source]]
                  else dependencies)
  {
    assert order[..i + 1][..i] == order[..i];
  }

  /** The dependency lists by target. */
  method FileDependencies(order: seq<EdgeKey>) returns (dependencies: map<Key, seq<Key>>)
    ensures Filed(order, dependencies)
  {
    dependencies := map[];
    for i := 0 to |order|
      invariant Filed(order[..i], dependencies)
    {
      var e := order[i];
      FiledNext(order, i, dependencies);
      if e.kind.Dependency? {
        dependencies := dependencies[e.target := (if e.target in dependencies then dependencies[e.target] else [])
                                     + [e.source]];
      }
    }
    assert order[..|order|] == order;
  }

  ghost function NodePart(c: Config, d: Draft, final: Key, key: Key): NodeTemplate
    requires key in d.nodes.values
  {
    NodeTemplate(key, d.nodes.values[key], Sources(d.edges.order, key), !c.processMode && key == final)
  }

  ghost predicate NodeParts(c: Config, d: Draft, final: Key, nodes: seq<NodeTemplate>)
    requires d.nodes.Valid()
  {
    |nodes| == |d.nodes.order| && forall i :: 0 <= i < |nodes| ==> nodes[i] == NodePart(c, d, final, d.nodes.order[i])
  }

  function ListNodes(c: Config, d: Draft, final: Key, dependencies: map<Key, seq<Key>>): (nodes: seq<NodeTemplate>)
    requires d.nodes.Valid() && Filed(d.edges.order, dependencies)
    ensures NodeParts(c, d, final, nodes)
  {
    seq(|d.nodes.order|, i requires 0 <= i < |d.nodes.order| && d.nodes.Valid() =>
      var key := d.nodes.order[i];
      NodeTemplate(key, d.nodes.values[key], if key in dependencies then dependencies[key] else [],
                   !c.processMode && key == final))
  }

  function EdgeParts(edges: EdgeTable): (r: seq<EdgeTemplate>)
    requires edges.Valid()
    ensures |r| == |edges.order| && forall i :: 0 <= i < |r| ==>
              r[i] == EdgeTemplate(edges.order[i], edges.values[edges.order[i]])
  {
    seq(|edges.order|, i requires 0 <= i < |edges.order| && edges.Valid() =>
      EdgeTemplate(edges.order[i], edges.values[edges.order[i]]))
  }

  function BranchParts(branches: Dict<Key, Branch>): (r: seq<BranchTemplate>)
    requires branches.Valid()
    ensures |r| == |branches.order| && forall i :: 0 <= i < |r| ==>
              r[i] == BranchTemplate(branches.order[i], branches.values[branches.order[i]])
  {
    seq(|branches.order|, i requires 0 <= i < |branches.order| && branches.Valid() =>
      BranchTemplate(branches.order[i], branches.values[branches.order[i]]))
  }

  function PhaseParts(phases: Dict<Key, Phase>): (r: seq<PhaseTemplate>)
    requires phases.Valid()
    ensures |r| == |phases.order| && forall i :: 0 <= i < |r| ==>
              r[i] == PhaseTemplate(phases.order[i], phases.values[phases.order[i]])
  {
    seq(|phases.order|, i requires 0 <= i < |phases.order| && phases.Valid() =>
      PhaseTemplate(phases.order[i], phases.values[phases.order[i]]))
  }

  function GateParts(gates: Dict<Key, Gate>): (r: seq<GateTemplate>)
    requires gates.Valid()
    ensures |r| == |gates.order| && forall i :: 0 <= i < |r| ==>
              r[i] == GateTemplate(gates.order[i], gates.values[gates.order[i]])
  {
    seq(|gates.order|, i requires 0 <= i < |gates.order| && gates.Valid() =>
      GateTemplate(gates.order[i], gates.values[gates.order[i]]))
  }

  ghost predicate UsageOf(d: Draft, width: nat, depth: nat, attempts: nat) {
    && !WiderThan(d, width) && (width > 0 ==> WiderThan(d, width - 1))
    && !DeeperThan(d, depth) && (depth > 0 ==> DeeperThan(d, depth - 1)) && attempts == |d.nodes.order|
  }

  /** `t` is the template of the draft: every table entry in order, every node with its
      dependencies, and the final node as the only one with completion checks. */
  ghost predicate Composes(c: Config, d: Draft, t: Template)
    requires Tables(d)
  {
    && NodeParts(c, d, t.final, t.nodes)
    && t.edges == EdgeParts(d.edges) && t.branches == BranchParts(d.branches) && t.phases == PhaseParts(d.phases)
    && t.gates == (if c.processMode then [] else GateParts(d.gates))
    && t.finalArgv == (if c.processMode then [] else d.finalArgv)
    && t.finalQuestion == (if c.processMode then None else d.finalQuestion)
    && t.checks == d.checks && t.owners == d.owners && t.eventTypes == c.eventTypes
    && UsageOf(d, t.width, t.depth, t.attempts)
  }

  method Compose(c: Config, d: Draft) returns (t: Template)
    requires Tables(d) && exists n :: IsSink(d, n)
    ensures IsSink(d, t.final) && Composes(c, d, t)
  {
    var sinks := Terminals(d);
    assert sinks != [];
    var final := sinks[0];
    var dependencies := FileDependencies(d.edges.order);
    var width, depth, attempts := Usage(d);
    t := Template(ListNodes(c, d, final, dependencies), EdgeParts(d.edges), BranchParts(d.branches),
                  PhaseParts(d.phases),
                  if c.processMode then [] else GateParts(d.gates), width, depth, attempts, final,
                  if c.processMode then [] else d.finalArgv, if c.processMode then None else d.finalQuestion,
                  d.checks, d.owners, c.eventTypes);
  }

  // ---- An accepted draft passes every check

  lemma {:induction false} SourcesAre(d: Draft, order: seq<EdgeKey>, n: Key)
    requires Distinct(order) && forall e :: e in order ==> e in d.edges.values && OneDependency(d.edges.values, e)
    ensures Distinct(Sources(order, n))
    ensures forall s :: s in Sources(order, n) <==> exists e :: e in order && e.kind.Dependency? && e.target == n
                                                                && e.source == s
    decreases |order|
  {
    if order != [] {
      var front, last := order[..|order| - 1], order[|order| - 1];
      assert order == front + [last];
      forall i, j | 0 <= i < j < |front| ensures Differ(front, i, j) {
        assert Differ(order, i, j);
      }
      SourcesAre(d, front, n);
      if last.kind.Dependency? && last.target == n {
        NewSource(d, order, n);
        DistinctAppend(Sources(front, n), last.source);
        assert Sources(order, n) == Sources(front, n) + [last.source];
      } else {
        assert Sources(order, n) == Sources(front, n);
      }
    }
  }

  /** The last edge brings a source that the edges before it do not have. */
  lemma NewSource(d: Draft, order: seq<EdgeKey>, n: Key)
    requires order != [] && Distinct(order) && forall e :: e in order ==> e in d.edges.values
                                                                          && OneDependency(d.edges.values, e)
    requires var last := order[|order| - 1]; last.kind.Dependency? && last.target == n
    requires var front := order[..|order| - 1];
             forall s :: s in Sources(front, n) <==> exists e :: e in front && e.kind.Dependency? && e.target == n
                                                                 && e.source == s
    ensures order[|order| - 1].source !in Sources(order[..|order| - 1], n)
  {
    var front, last := order[..|order| - 1], order[|order| - 1];
    forall e | e in front && e.kind.Dependency? && e.target == n ensures e.source != last.source {
      var i :| 0 <= i < |front| && front[i] == e;
      assert Differ(order, i, |order| - 1);
      assert OneDependency(d.edges.values, e);
      assert e.source == last.source ==> SameDependency(e, last);
    }
  }

  lemma SourcesAreDependencies(c: Config, d: Draft, n: Key)
    requires Sound(c, d)
    ensures Distinct(Sources(d.edges.order, n))
    ensures forall s :: s in Sources(d.edges.order, n) <==> s in Dependencies(d, n)
    ensures forall s :: s in Dependencies(d, n) ==> s in d.nodes.values && s != "" && s != n
  {
    SourcesAre(d, d.edges.order, n);
    forall s | s in Dependencies(d, n) ensures s in d.nodes.values && s != "" && s != n {
      var e :| e in d.edges.values && e.target == n && e.kind.Dependency? && e.source == s;
      assert EdgeSound(d.nodes.values.Keys, d.branches.values.Keys, e, d.edges.values[e]);
      assert NodeSound(s, d.nodes.values[s]);
    }
  }

  lemma NodeHere(c: Config, d: Draft, t: Template, k: Key)
    requires d.nodes.Valid() && NodeParts(c, d, t.final, t.nodes)
    ensures HasNode(t, k) <==> k in d.nodes.values
  {
    if k in d.nodes.values {
      assert k in d.nodes.order;
      var i :| 0 <= i < |d.nodes.order| && d.nodes.order[i] == k;
      assert NodeAt(t, i, k);
    }
    if HasNode(t, k) {
      var i :| NodeAt(t, i, k);
      assert d.nodes.order[i] in d.nodes.order;
    }
  }

  lemma KindHere(c: Config, d: Draft, t: Template, k: Key, allowed: set<Kind>)
    requires d.nodes.Valid() && NodeParts(c, d, t.final, t.nodes) && k in d.nodes.values
             && d.nodes.values[k].kind in allowed
    ensures KindAt(t, k, allowed)
  {
  }

  lemma NodePartsOk(c: Config, d: Draft, t: Template)
    requires Sound(c, d) && Tables(d) && Composes(c, d, t)
    ensures forall i :: 0 <= i < |t.nodes| ==> NodeOk(t.nodes[i])
  {
    forall i | 0 <= i < |t.nodes| ensures NodeOk(t.nodes[i]) {
      var key := d.nodes.order[i];
      assert NodeSound(key, d.nodes.values[key]);
      SourcesAreDependencies(c, d, key);
    }
  }

  lemma TablePartsOk(c: Config, d: Draft, t: Template)
    requires Sound(c, d) && Tables(d) && Composes(c, d, t)
    ensures forall i :: 0 <= i < |t.edges| ==> EdgeOk(t.edges[i])
    ensures forall i :: 0 <= i < |t.branches| ==> BranchOk(t.branches[i])
  {
    forall i | 0 <= i < |t.edges| ensures EdgeOk(t.edges[i]) {
      var e := d.edges.order[i];
      assert EdgeSound(d.nodes.values.Keys, d.branches.values.Keys, e, d.edges.values[e]);
      assert NodeSound(e.source, d.nodes.values[e.source]) && NodeSound(e.target, d.nodes.values[e.target]);
      if e.branch.Some? {
        assert BranchSound(d.nodes.values.Keys, e.branch.value, d.branches.values[e.branch.value]);
      }
    }
    forall i | 0 <= i < |t.branches| ensures BranchOk(t.branches[i]) {
      var b := d.branches.values[d.branches.order[i]];
      assert BranchSound(d.nodes.values.Keys, d.branches.order[i], b);
      assert NodeSound(b.fork, d.nodes.values[b.fork]) && NodeSound(b.merge, d.nodes.values[b.merge]);
    }
  }

  lemma PhasePartsOk(c: Config, d: Draft, t: Template)
    requires Sound(c, d) && Tables(d) && Composes(c, d, t)
    ensures forall i :: 0 <= i < |t.phases| ==> PhaseOk(t.phases[i])
    ensures forall i :: 0 <= i < |t.gates| ==> GateOk(t.gates[i])
  {
    forall i | 0 <= i < |t.phases| ensures PhaseOk(t.phases[i]) {
      assert PhaseSound(d.nodes.values.Keys, d.phases.order[i], d.phases.values[d.phases.order[i]]);
    }
    forall i | 0 <= i < |t.gates| ensures GateOk(t.gates[i]) {
      var k := d.gates.order[i];
      assert GateSound(d.nodes.values.Keys, k, d.gates.values[k]);
      assert NodeSound(k, d.nodes.values[k]);
    }
  }

  lemma KeysAreUnique(c: Config, d: Draft, t: Template)
    requires Tables(d) && Composes(c, d, t) && d.nodes.values != map[]
    ensures KeysUnique(t)
  {
    var k :| k in d.nodes.values;
    assert k in d.nodes.order;
    forall i, j | 0 <= i < j < |t.nodes| ensures NodeKeysDiffer(t.nodes, i, j) {
      assert Differ(d.nodes.order, i, j);
    }
    forall i, j | 0 <= i < j < |t.branches| ensures BranchKeysDiffer(t.branches, i, j) {
      assert Differ(d.branches.order, i, j);
    }
    forall i, j | 0 <= i < j < |t.phases| ensures PhaseKeysDiffer(t.phases, i, j) {
      assert Differ(d.phases.order, i, j);
    }
    forall i, j | 0 <= i < j < |t.gates| ensures GateKeysDiffer(t.gates, i, j) {
      assert Differ(d.gates.order, i, j);
    }
  }

  lemma DependenciesAreOk(c: Config, d: Draft, t: Template)
    requires Sound(c, d) && NodeParts(c, d, t.final, t.nodes)
    ensures forall i, n :: 0 <= i < |t.nodes| && n in t.nodes[i].dependencies ==> HasNode(t, n)
  {
    forall i, n | 0 <= i < |t.nodes| && n in t.nodes[i].dependencies ensures HasNode(t, n) {
      SourcesAreDependencies(c, d, d.nodes.order[i]);
      NodeHere(c, d, t, n);
    }
  }

  lemma EdgeRefers(c: Config, d: Draft, t: Template, e: EdgeKey)
    requires d.nodes.Valid() && NodeParts(c, d, t.final, t.nodes)
    requires d.branches.Valid() && t.branches == BranchParts(d.branches)
    requires EdgesSound(d.nodes.values.Keys, d.branches.values.Keys, d.edges) && e in d.edges.values
    ensures EdgeRefersOk(t, e)
  {
    assert EdgeSound(d.nodes.values.Keys, d.branches.values.Keys, e, d.edges.values[e]);
    NodeHere(c, d, t, e.source);
    NodeHere(c, d, t, e.target);
    if e.branch.Some? {
      assert e.branch.value in d.branches.order;
      var j :| 0 <= j < |d.branches.order| && d.branches.order[j] == e.branch.value;
      assert t.branches[j].key == e.branch.value;
    }
  }

  lemma BranchRefers(c: Config, d: Draft, t: Template, k: Key, n: Key)
    requires d.nodes.Valid() && NodeParts(c, d, t.final, t.nodes)
    requires BranchesSound(d.nodes.values.Keys, d.branches) && k in d.branches.values
             && BranchUses(d.branches.values[k], n)
    ensures HasNode(t, n)
  {
    assert BranchSound(d.nodes.values.Keys, k, d.branches.values[k]);
    NodeHere(c, d, t, n);
  }

  lemma ReferencesAreOk(c: Config, d: Draft, t: Template)
    requires Sound(c, d) && Tables(d) && Composes(c, d, t)
    ensures ReferencesOk(t)
  {
    DependenciesAreOk(c, d, t);
    forall i | 0 <= i < |t.edges| ensures EdgeRefersOk(t, t.edges[i].edge) {
      EdgeRefers(c, d, t, d.edges.order[i]);
    }
    forall i, n | 0 <= i < |t.branches| && BranchUses(t.branches[i].branch, n) ensures HasNode(t, n) {
      BranchRefers(c, d, t, d.branches.order[i], n);
    }
  }

  // ---- Phases of the template

  ghost predicate MemberOf(phases: seq<PhaseTemplate>, n: Key) {
    exists i :: 0 <= i < |phases| && n in phases[i].phase.nodes
  }

  /** No node twice in a phase or in two phases. */
  ghost predicate Disjoint(phases: seq<PhaseTemplate>) {
    && (forall i :: 0 <= i < |phases| ==> NoRepeat(phases[i].phase.nodes))
    && forall i, j, n :: 0 <= i < j < |phases| && n in phases[i].phase.nodes ==> n !in phases[j].phase.nodes
  }

  lemma {:induction false} MembershipsAre(phases: seq<PhaseTemplate>)
    requires Disjoint(phases)
    ensures Distinct(Memberships(phases)) && forall n :: n in Memberships(phases) <==> MemberOf(phases, n)
    decreases |phases|
  {
    if phases != [] {
      var front, last := phases[..|phases| - 1], phases[|phases| - 1];
      assert phases == front + [last];
      MembershipsAre(front);
      forall n ensures MemberOf(phases, n) <==> MemberOf(front, n) || n in last.phase.nodes {
        if n in last.phase.nodes {
          assert n in phases[|phases| - 1].phase.nodes;
        }
        if MemberOf(front, n) {
          var i :| 0 <= i < |front| && n in front[i].phase.nodes;
          assert n in phases[i].phase.nodes;
        }
      }
      forall n | n in last.phase.nodes ensures !MemberOf(front, n) {
        forall i | 0 <= i < |front| ensures n !in front[i].phase.nodes {
          assert phases[i] == front[i];
        }
      }
      JoinDistinct(Memberships(front), last.phase.nodes);
    }
  }

  lemma JoinDistinct(a: seq<Key>, b: seq<Key>)
    requires Distinct(a) && NoRepeat(b) && forall n :: n in b ==> n !in a
    ensures Distinct(a + b)
  {
    forall i, j | 0 <= i < j < |a + b| ensures Differ(a + b, i, j) {
      if j < |a| {
        assert Differ(a, i, j);
      } else if i < |a| {
        assert b[j - |a|] !in a;
      }
    }
  }

  lemma PhaseListsDisjoint(d: Draft, phases: seq<PhaseTemplate>)
    requires PhasePlan(d) && phases == PhaseParts(d.phases)
    ensures Disjoint(phases)
    ensures forall n :: MemberOf(phases, n) <==> n in d.nodes.values
  {
    forall i | 0 <= i < |phases| ensures NoRepeat(phases[i].phase.nodes) {
      if phases[i].phase.nodes != [] {
        assert !PhaseFault(d, PhaseOverlap(d.phases.order[i], phases[i].phase.nodes[0]));
      }
    }
    forall i, j, n | 0 <= i < j < |phases| && n in phases[i].phase.nodes ensures n !in phases[j].phase.nodes {
      if n in phases[j].phase.nodes {
        PhaseOnce(d, n, i, j);
      }
    }
    forall n | MemberOf(phases, n) ensures n in d.nodes.values {
      var i :| 0 <= i < |phases| && n in phases[i].phase.nodes;
      PhaseOnce(d, n, i, i);
    }
    forall n | n in d.nodes.values ensures MemberOf(phases, n) {
      var i := PhaseOf(d, n);
      assert n in phases[i].phase.nodes;
    }
  }

  lemma PhaseKinds(c: Config, d: Draft, t: Template, p: Phase)
    requires d.nodes.Valid() && NodeParts(c, d, t.final, t.nodes) && ReviewerFine(d, p) && ReworkFine(d, p)
    ensures HasNode(t, p.reviewer) && KindAt(t, p.reviewer, {Reviewer})
    ensures forall n :: n in p.rework ==> KindAt(t, n, REWORK_KINDS)
  {
    NodeHere(c, d, t, p.reviewer);
    KindHere(c, d, t, p.reviewer, {Reviewer});
    forall n | n in p.rework ensures KindAt(t, n, REWORK_KINDS) {
      KindHere(c, d, t, n, REWORK_KINDS);
    }
  }

  lemma PhaseIsFine(d: Draft, k: Key)
    requires PhasesOk(d) && k in d.phases.values
    ensures ReviewerFine(d, d.phases.values[k]) && ReworkFine(d, d.phases.values[k])
  {
    assert !PhaseFault(d, PhaseReviewerWrong(k));
    assert !PhaseFault(d, PhaseReworkWrong(k));
  }

  lemma MembersFit(c: Config, d: Draft, t: Template)
    requires PhasePlan(d) && NodeParts(c, d, t.final, t.nodes) && t.phases == PhaseParts(d.phases)
    ensures (forall n :: n in Memberships(t.phases) <==> HasNode(t, n)) && |Memberships(t.phases)| == |t.nodes|
  {
    PhaseListsDisjoint(d, t.phases);
    MembershipsAre(t.phases);
    KeyCount(d.nodes.values.Keys, Memberships(t.phases));
    KeyCount(d.nodes.values.Keys, d.nodes.order);
    forall n ensures n in Memberships(t.phases) <==> HasNode(t, n) {
      NodeHere(c, d, t, n);
    }
  }

  lemma PhasesDoFit(c: Config, d: Draft, t: Template)
    requires PhasePlan(d) && Tables(d) && Composes(c, d, t)
    ensures PhasesFit(t)
  {
    MembersFit(c, d, t);
    forall i | 0 <= i < |t.phases|
      ensures HasNode(t, t.phases[i].phase.reviewer) && KindAt(t, t.phases[i].phase.reviewer, {Reviewer})
              && forall n :: n in t.phases[i].phase.rework ==> KindAt(t, n, REWORK_KINDS)
    {
      assert d.phases.order[i] in d.phases.order;
      PhaseIsFine(d, d.phases.order[i]);
      PhaseKinds(c, d, t, d.phases.values[d.phases.order[i]]);
    }
  }

  // ---- Final node, gates and reviewers of the template

  lemma TerminalIsSink(c: Config, d: Draft, t: Template, n: Key)
    requires d.nodes.Valid() && d.edges.Valid() && NodeParts(c, d, t.final, t.nodes) && t.edges == EdgeParts(d.edges)
    ensures TerminalKey(t, n) <==> IsSink(d, n)
  {
    NodeHere(c, d, t, n);
    if HasOutgoing(d, n) {
      var e :| e in d.edges.values && e.source == n;
      assert e in d.edges.order;
      var i :| 0 <= i < |d.edges.order| && d.edges.order[i] == e;
      assert t.edges[i].edge.source == n;
    } else {
      forall i | 0 <= i < |t.edges| ensures t.edges[i].edge.source != n {
        assert d.edges.order[i] in d.edges.order;
      }
    }
  }

  lemma FinalIsOk(c: Config, d: Draft, t: Template)
    requires Sound(c, d) && Tables(d) && Composes(c, d, t) && OnlySink(d, t.final)
    ensures FinalOk(t)
  {
    assert NodeSound(t.final, d.nodes.values[t.final]);
    TerminalIsSink(c, d, t, t.final);
    forall n | TerminalKey(t, n) ensures n == t.final {
      TerminalIsSink(c, d, t, n);
    }
  }

  lemma RetainedAreOk(c: Config, d: Draft, t: Template)
    requires Sound(c, d) && Tables(d) && Composes(c, d, t)
    ensures RetainedOk(t)
  {
    forall k | k in t.checks ensures k != "" && HasNode(t, k) && t.checks[k] != [] && NoRepeat(t.checks[k]) {
      assert OwnerSound(d.nodes.values, k, d.checks[k]);
      assert NodeSound(k, d.nodes.values[k]);
      NodeHere(c, d, t, k);
    }
    forall g | g in t.owners ensures HasNode(t, t.owners[g]) && KindAt(t, t.owners[g], GATE_KINDS) {
      assert OwnerSound(d.nodes.values, d.owners[g], d.checks[d.owners[g]]);
      NodeHere(c, d, t, d.owners[g]);
      KindHere(c, d, t, d.owners[g], GATE_KINDS);
    }
    OwnersOnce(d.checks, d.owners);
  }

  lemma OwnersOnce(checks: map<Key, seq<string>>, owners: map<string, Key>)
    requires Bindings(checks, owners)
    ensures forall a, b :: a in owners && b in owners && owners[a] == owners[b] ==> a == b
    ensures checks.Keys == owners.Values
  {
    forall a, b | a in owners && b in owners && owners[a] == owners[b] ensures a == b {
      assert Owns(owners, a, owners[a]) && Owns(owners, b, owners[a]);
    }
    forall k | k in checks ensures k in owners.Values {
      var g :| Owns(owners, g, k);
    }
  }

  lemma GatesDoFit(c: Config, d: Draft, t: Template)
    requires Finished(c, d) && Composes(c, d, t) && OnlySink(d, t.final)
    ensures GatesFit(t)
  {
    forall i | 0 <= i < |t.gates|
      ensures HasNode(t, t.gates[i].key) && KindAt(t, t.gates[i].key, GATE_KINDS) && t.gates[i].key != t.final
    {
      AcceptedGate(c, d, d.gates.order[i], t.final);
      NodeHere(c, d, t, d.gates.order[i]);
      KindHere(c, d, t, d.gates.order[i], GATE_KINDS);
    }
  }

  lemma AcceptedGate(c: Config, d: Draft, k: Key, final: Key)
    requires Checkable(d) && Accepted(c, d) && OnlySink(d, final) && k in d.gates.values && !c.processMode
    ensures k in d.nodes.values && CanOwnGate(d.nodes.values[k].kind) && k != final
  {
    NoFault(c, d, GateUnknownNode(k));
    NoFault(c, d, GateInvalidKind(k));
    NoFault(c, d, SinkHasNodeGate(k));
    GateHasOwner(c, d, k, final);
  }

  lemma GateHasOwner(c: Config, d: Draft, k: Key, final: Key)
    requires k in d.gates.values && OnlySink(d, final) && !c.processMode
    requires !GateFault(c, d, GateUnknownNode(k)) && !GateFault(c, d, GateInvalidKind(k))
             && !SinkFault(c, d, SinkHasNodeGate(k))
    ensures k in d.nodes.values && CanOwnGate(d.nodes.values[k].kind) && k != final
  {
  }

  lemma AcceptedReviewer(c: Config, d: Draft, n: Key)
    requires Checkable(d) && Accepted(c, d) && n in d.nodes.values && d.nodes.values[n].kind.Reviewer?
    ensures Dependencies(d, n) != {} && (OwnsGate(d, n) || (IsSink(d, n) && HasFinalGate(c, d)))
  {
    NoFault(c, d, ReviewerDependencyRequired(n));
    NoFault(c, d, ReviewerGateRequired(n));
    assert !NodeFault(c, d, ReviewerDependencyRequired(n)) && !NodeFault(c, d, ReviewerGateRequired(n));
  }

  lemma GateListed(c: Config, d: Draft, t: Template, n: Key)
    requires Tables(d) && Composes(c, d, t) && n in d.gates.values && ModeSound(c, d)
    ensures GateOn(t, n)
  {
    assert n in d.gates.order;
    var j :| 0 <= j < |d.gates.order| && d.gates.order[j] == n;
    assert t.gates[j].key == n;
  }

  lemma ReviewersAreOk(c: Config, d: Draft, t: Template)
    requires Finished(c, d) && Composes(c, d, t) && OnlySink(d, t.final)
    ensures ReviewersOk(t)
  {
    OwnersOnce(d.checks, d.owners);
    forall i | 0 <= i < |t.nodes| && t.nodes[i].node.kind.Reviewer?
      ensures t.nodes[i].dependencies != []
              && (GateOn(t, t.nodes[i].key) || t.nodes[i].key in t.owners.Values
                  || (t.nodes[i].key == t.final && (t.finalArgv != [] || t.finalQuestion.Some?)))
    {
      var n := d.nodes.order[i];
      AcceptedReviewer(c, d, n);
      SourcesAreDependencies(c, d, n);
      var s :| s in Dependencies(d, n);
      assert s in t.nodes[i].dependencies;
      if n in d.gates.values {
        GateListed(c, d, t, n);
      }
    }
  }

  lemma UsageIsOk(c: Config, d: Draft, t: Template)
    requires Checkable(d) && Accepted(c, d) && Composes(c, d, t)
    ensures UsageOk(c, t)
  {
    NoFault(c, d, BudgetExceeded);
    LimitIs(c, d, t.width, t.depth);
  }

  lemma TablesPass(c: Config, d: Draft, t: Template)
    requires Sound(c, d) && Tables(d) && Composes(c, d, t) && d.nodes.values != map[]
    ensures PartsOk(t) && KeysUnique(t) && ReferencesOk(t)
  {
    NodePartsOk(c, d, t);
    TablePartsOk(c, d, t);
    PhasePartsOk(c, d, t);
    KeysAreUnique(c, d, t);
    ReferencesAreOk(c, d, t);
  }

  /** The template of an accepted draft passes every constructor check exactly when no planner event
      it is to name is blank: no check on the graph can fail. */
  lemma AcceptedComposes(c: Config, d: Draft, t: Template)
    requires Finished(c, d) && Composes(c, d, t) && IsSink(d, t.final)
    ensures TemplateOk(c, t) <==> MessagesOk(c.eventTypes)
  {
    var sink := FinishedSink(c, d);
    assert sink == t.final;
    FinishedIsPhasePlan(c, d);
    TablesPass(c, d, t);
    PhasesDoFit(c, d, t);
    FinalIsOk(c, d, t);
    RetainedAreOk(c, d, t);
    GatesDoFit(c, d, t);
    ReviewersAreOk(c, d, t);
    UsageIsOk(c, d, t);
  }
}

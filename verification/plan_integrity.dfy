/** Draft integrity: whatever tool calls are made, accepted or rejected, the draft stays sound,
    and in process mode the retained Gates are conserved. */
module PlanIntegrity {
  import opened Values
  import opened Graphs
  import opened PlanDraft

  type EdgeTable = Dict<EdgeKey, Option<string>>

  // ---- What every tool call keeps, table by table

  ghost predicate NodeSound(key: Key, n: Node) {
    key != "" && n.title != "" && n.instruction != ""
  }

  ghost predicate NodesSound(nodes: Dict<Key, Node>) {
    nodes.Valid() && forall k :: k in nodes.values ==> NodeSound(k, nodes.values[k])
  }

  /** Both ends exist and differ, and so does the branch; the condition is not blank. */
  ghost predicate EdgeSound(nodes: set<Key>, branches: set<Key>, e: EdgeKey, condition: Option<string>) {
    && e.source in nodes && e.target in nodes && e.source != e.target
    && (e.branch.Some? ==> e.branch.value in branches)
    && condition != Some("")
  }

  /** Two nodes are joined by at most one dependency. */
  ghost predicate OneDependency(edges: map<EdgeKey, Option<string>>, a: EdgeKey) {
    forall b :: b in edges && SameDependency(a, b) ==> a == b
  }

  ghost predicate EdgesSound(nodes: set<Key>, branches: set<Key>, edges: EdgeTable) {
    && edges.Valid()
    && (forall e :: e in edges.values ==> EdgeSound(nodes, branches, e, edges.values[e]))
    && forall e :: e in edges.values ==> OneDependency(edges.values, e)
  }

  ghost predicate BranchSound(nodes: set<Key>, key: Key, b: Branch) {
    && key != "" && b.caption != "" && KeyList(b.nodes)
    && b.fork != b.merge && b.fork !in b.nodes && b.merge !in b.nodes
    && b.fork in nodes && b.merge in nodes && forall n :: n in b.nodes ==> n in nodes
  }

  ghost predicate BranchesSound(nodes: set<Key>, branches: Dict<Key, Branch>) {
    branches.Valid() && forall k :: k in branches.values ==> BranchSound(nodes, k, branches.values[k])
  }

  ghost predicate PhaseSound(nodes: set<Key>, key: Key, p: Phase) {
    && key != "" && p.title != "" && KeyList(p.nodes) && KeyList(p.rework)
    && p.reviewer == p.gate && p.gate in p.nodes && p.reviewer !in p.rework
    && (forall n :: n in p.rework ==> n in p.nodes) && forall n :: n in p.nodes ==> n in nodes
  }

  ghost predicate PhasesSound(nodes: set<Key>, phases: Dict<Key, Phase>) {
    phases.Valid() && forall k :: k in phases.values ==> PhaseSound(nodes, k, phases.values[k])
  }

  ghost predicate GateSound(nodes: set<Key>, key: Key, g: Gate) {
    key in nodes && g.name != "" && ArgvOk(g.argv) && !BlankOption(g.question) && (g.argv != [] || g.question.Some?)
  }

  ghost predicate GatesSound(nodes: set<Key>, gates: Dict<Key, Gate>) {
    gates.Valid() && forall k :: k in gates.values ==> GateSound(nodes, k, gates.values[k])
  }

  ghost predicate Owns(owners: map<string, Key>, gate: string, key: Key) {
    gate in owners && owners[gate] == key
  }

  /** Retained Gates have different owners, and those are exactly the owners of a Check group. */
  ghost predicate Bindings(checks: map<Key, seq<string>>, owners: map<string, Key>) {
    && (forall a, b, k :: Owns(owners, a, k) && Owns(owners, b, k) ==> a == b)
    && (forall g :: g in owners ==> owners[g] in checks)
    && forall k :: k in checks ==> exists g :: Owns(owners, g, k)
  }

  ghost predicate OwnerSound(nodes: map<Key, Node>, key: Key, group: seq<string>) {
    key in nodes && CanOwnGate(nodes[key].kind) && group != [] && NoRepeat(group)
  }

  ghost predicate OwnersSound(nodes: map<Key, Node>, checks: map<Key, seq<string>>) {
    forall k :: k in checks ==> OwnerSound(nodes, k, checks[k])
  }

  /** Node Gates and the final Gate exist only outside process mode, retained Gates only inside it. */
  ghost predicate ModeSound(c: Config, d: Draft) {
    if c.processMode then d.gates == EmptyDict() && d.finalArgv == [] && d.finalQuestion.None?
    else d.checks == map[] && d.owners == map[]
  }

  /** Every reference in the draft is to an existing node or branch, and every entry is well formed. */
  ghost predicate Sound(c: Config, d: Draft) {
    && NodesSound(d.nodes)
    && EdgesSound(d.nodes.values.Keys, d.branches.values.Keys, d.edges)
    && BranchesSound(d.nodes.values.Keys, d.branches)
    && PhasesSound(d.nodes.values.Keys, d.phases)
    && GatesSound(d.nodes.values.Keys, d.gates)
    && ArgvOk(d.finalArgv) && !BlankOption(d.finalQuestion)
    && Bindings(d.checks, d.owners) && OwnersSound(d.nodes.values, d.checks)
    && ModeSound(c, d)
  }

  // ---- Tables under growth and removal

  lemma EdgesGrow(nodes: set<Key>, branches: set<Key>, nodes': set<Key>, branches': set<Key>, edges: EdgeTable)
    requires EdgesSound(nodes, branches, edges) && nodes <= nodes' && branches <= branches'
    ensures EdgesSound(nodes', branches', edges)
  {
    forall e | e in edges.values ensures EdgeSound(nodes', branches', e, edges.values[e]) {
      assert EdgeSound(nodes, branches, e, edges.values[e]);
    }
  }

  /** The same edges over tables that lost only keys the edges do not use. */
  lemma EdgesShrink(nodes: set<Key>, branches: set<Key>, nodes': set<Key>, branches': set<Key>, edges: EdgeTable,
                    kept: EdgeTable)
    requires EdgesSound(nodes, branches, edges) && kept.Valid()
    requires forall e :: e in kept.values ==> e in edges.values && kept.values[e] == edges.values[e]
    requires forall e :: e in kept.values ==> e.source in nodes' && e.target in nodes'
                                              && (e.branch.Some? ==> e.branch.value in branches')
    ensures EdgesSound(nodes', branches', kept)
  {
    forall e | e in kept.values ensures EdgeSound(nodes', branches', e, kept.values[e]) {
      assert EdgeSound(nodes, branches, e, edges.values[e]);
    }
    forall e | e in kept.values ensures OneDependency(kept.values, e) {
      assert OneDependency(edges.values, e);
    }
  }

  lemma EdgesAdd(nodes: set<Key>, branches: set<Key>, edges: EdgeTable, e: EdgeKey, condition: Option<string>)
    requires EdgesSound(nodes, branches, edges) && EdgeSound(nodes, branches, e, condition)
    requires forall other :: other in edges.values ==> !SameDependency(e, other)
    ensures EdgesSound(nodes, branches, edges.Put(e, condition))
  {
    edges.PutValid(e, condition);
    var all := edges.Put(e, condition).values;
    forall x | x in all ensures EdgeSound(nodes, branches, x, all[x]) {
      assert x != e ==> EdgeSound(nodes, branches, x, edges.values[x]);
    }
    forall x | x in all ensures OneDependency(all, x) {
      if x != e {
        assert OneDependency(edges.values, x);
        assert !SameDependency(e, x);
      }
    }
  }

  lemma BranchesMove(nodes: set<Key>, nodes': set<Key>, branches: Dict<Key, Branch>)
    requires BranchesSound(nodes, branches)
    requires forall k, n :: k in branches.values && BranchUses(branches.values[k], n) ==> n in nodes'
    ensures BranchesSound(nodes', branches)
  {
    forall k | k in branches.values ensures BranchSound(nodes', k, branches.values[k]) {
      var b := branches.values[k];
      assert BranchSound(nodes, k, b);
      assert BranchUses(b, b.fork) && BranchUses(b, b.merge);
      forall n | n in b.nodes ensures n in nodes' {
        assert BranchUses(b, n);
      }
    }
  }

  lemma BranchesGrow(nodes: set<Key>, nodes': set<Key>, branches: Dict<Key, Branch>)
    requires BranchesSound(nodes, branches) && nodes <= nodes'
    ensures BranchesSound(nodes', branches)
  {
    forall k | k in branches.values ensures BranchSound(nodes', k, branches.values[k]) {
      assert BranchSound(nodes, k, branches.values[k]);
    }
  }

  lemma PhasesMove(nodes: set<Key>, nodes': set<Key>, phases: Dict<Key, Phase>)
    requires PhasesSound(nodes, phases)
    requires forall k, n :: k in phases.values && n in phases.values[k].nodes && n in nodes ==> n in nodes'
    ensures PhasesSound(nodes', phases)
  {
    forall k | k in phases.values ensures PhaseSound(nodes', k, phases.values[k]) {
      assert PhaseSound(nodes, k, phases.values[k]);
    }
  }

  // ---- Node tools

  lemma NodesAdd(nodes: Dict<Key, Node>, key: Key, node: Node)
    requires NodesSound(nodes) && NodeSound(key, node)
    ensures NodesSound(nodes.Put(key, node)) && nodes.values.Keys <= nodes.Put(key, node).values.Keys
  {
    nodes.PutValid(key, node);
    forall k | k in nodes.Put(key, node).values ensures NodeSound(k, nodes.Put(key, node).values[k]) {
      assert k != key ==> NodeSound(k, nodes.values[k]);
    }
  }

  lemma PutNodeKeeps(c: Config, d: Draft, key: Key, node: Node)
    requires Sound(c, d) && NodeSound(key, node)
    requires c.processMode && key in d.checks ==> CanOwnGate(node.kind)
    ensures Sound(c, d.(nodes := d.nodes.Put(key, node)))
  {
    var nodes := d.nodes.Put(key, node);
    var was, now := d.nodes.values.Keys, nodes.values.Keys;
    NodesAdd(d.nodes, key, node);
    EdgesGrow(was, d.branches.values.Keys, now, d.branches.values.Keys, d.edges);
    BranchesGrow(was, now, d.branches);
    PhasesMove(was, now, d.phases);
    GatesKeep(was, now, d.gates);
    OwnersPut(c, d, key, node);
  }

  lemma GatesKeep(nodes: set<Key>, nodes': set<Key>, gates: Dict<Key, Gate>)
    requires GatesSound(nodes, gates) && nodes <= nodes'
    ensures GatesSound(nodes', gates)
  {
    forall k | k in gates.values ensures GateSound(nodes', k, gates.values[k]) {
      assert GateSound(nodes, k, gates.values[k]);
    }
  }

  lemma OwnersPut(c: Config, d: Draft, key: Key, node: Node)
    requires OwnersSound(d.nodes.values, d.checks) && ModeSound(c, d)
    requires c.processMode && key in d.checks ==> CanOwnGate(node.kind)
    ensures OwnersSound(d.nodes.Put(key, node).values, d.checks)
  {
    forall k | k in d.checks ensures OwnerSound(d.nodes.Put(key, node).values, k, d.checks[k]) {
      assert OwnerSound(d.nodes.values, k, d.checks[k]);
    }
  }

  lemma {:induction false} EdgesWithoutKeeps(order: seq<EdgeKey>, key: Key)
    requires Distinct(order)
    ensures Distinct(EdgesWithout(order, key))
    ensures forall e :: e in EdgesWithout(order, key) <==> e in order && e.source != key && e.target != key
    decreases |order|
  {
    if order != [] {
      var front, last := order[..|order| - 1], order[|order| - 1];
      forall i, j | 0 <= i < j < |front| ensures Differ(front, i, j) {
        assert Differ(order, i, j);
      }
      EdgesWithoutKeeps(front, key);
      assert order == front + [last];
      forall i | 0 <= i < |front| ensures front[i] != last {
        assert Differ(order, i, |order| - 1);
      }
      var rest := EdgesWithout(front, key);
      if last.source != key && last.target != key {
        DistinctAppend(rest, last);
        assert EdgesWithout(order, key) == rest + [last];
      } else {
        assert EdgesWithout(order, key) == rest;
      }
    }
  }

  function EdgesLeft(edges: EdgeTable, key: Key): EdgeTable {
    Dict(EdgesWithout(edges.order, key),
         map e | e in edges.values && e.source != key && e.target != key :: edges.values[e])
  }

  lemma RemoveNodeEdges(d: Draft, key: Key)
    requires EdgesSound(d.nodes.values.Keys, d.branches.values.Keys, d.edges)
    ensures EdgesSound(d.nodes.values.Keys - {key}, d.branches.values.Keys, EdgesLeft(d.edges, key))
  {
    EdgesWithoutKeeps(d.edges.order, key);
    var nodes, branches, left := d.nodes.values.Keys, d.branches.values.Keys, EdgesLeft(d.edges, key);
    forall e | e in left.values
      ensures e.source in nodes - {key} && e.target in nodes - {key} && (e.branch.Some? ==> e.branch.value in branches)
    {
      assert EdgeSound(nodes, branches, e, d.edges.values[e]);
    }
    EdgesShrink(nodes, branches, nodes - {key}, branches, d.edges, left);
  }

  lemma NodesDrop(nodes: Dict<Key, Node>, key: Key)
    requires NodesSound(nodes)
    ensures NodesSound(nodes.Del(key)) && nodes.Del(key).values.Keys == nodes.values.Keys - {key}
  {
    nodes.DelValid(key);
    forall k | k in nodes.Del(key).values ensures NodeSound(k, nodes.Del(key).values[k]) {
      assert NodeSound(k, nodes.values[k]);
    }
  }

  lemma GatesDrop(nodes: set<Key>, gates: Dict<Key, Gate>, key: Key, nodes': set<Key>)
    requires GatesSound(nodes, gates) && (nodes' == nodes || nodes' == nodes - {key})
    ensures GatesSound(nodes', gates.Del(key))
  {
    gates.DelValid(key);
    forall k | k in gates.Del(key).values ensures GateSound(nodes', k, gates.Del(key).values[k]) {
      assert GateSound(nodes, k, gates.values[k]);
    }
  }

  lemma RemoveNodeBranches(d: Draft, key: Key)
    requires BranchesSound(d.nodes.values.Keys, d.branches)
    requires !exists b :: b in d.branches.values && BranchUses(d.branches.values[b], key)
    ensures BranchesSound(d.nodes.values.Keys - {key}, d.branches)
  {
    forall k, n | k in d.branches.values && BranchUses(d.branches.values[k], n)
      ensures n in d.nodes.values.Keys - {key}
    {
      assert BranchSound(d.nodes.values.Keys, k, d.branches.values[k]);
    }
    BranchesMove(d.nodes.values.Keys, d.nodes.values.Keys - {key}, d.branches);
  }

  lemma RemoveNodeOwners(c: Config, d: Draft, key: Key)
    requires OwnersSound(d.nodes.values, d.checks) && ModeSound(c, d) && !(c.processMode && key in d.checks)
    ensures OwnersSound(d.nodes.Del(key).values, d.checks)
  {
    forall k | k in d.checks ensures OwnerSound(d.nodes.Del(key).values, k, d.checks[k]) {
      assert OwnerSound(d.nodes.values, k, d.checks[k]);
    }
  }

  lemma RemoveNodeKeeps(c: Config, d: Draft, key: Key)
    requires Sound(c, d) && DoRemoveNode(c, d, key).Ok?
    ensures Sound(c, DoRemoveNode(c, d, key).value)
  {
    var was := d.nodes.values.Keys;
    NodesDrop(d.nodes, key);
    RemoveNodeEdges(d, key);
    RemoveNodeBranches(d, key);
    PhasesMove(was, was - {key}, d.phases);
    GatesDrop(was, d.gates, key, was - {key});
    RemoveNodeOwners(c, d, key);
  }

  // ---- Edge tools

  lemma AddEdgeKeeps(c: Config, d: Draft, e: EdgeKey, condition: Option<string>)
    requires Sound(c, d) && DoAddEdge(d, e, condition).Ok?
    ensures Sound(c, DoAddEdge(d, e, condition).value)
  {
    EdgesAdd(d.nodes.values.Keys, d.branches.values.Keys, d.edges, e, condition);
  }

  lemma DropEdgeKeeps(c: Config, d: Draft, e: EdgeKey)
    requires Sound(c, d)
    ensures Sound(c, d.(edges := d.edges.Del(e)))
  {
    var nodes, branches := d.nodes.values.Keys, d.branches.values.Keys;
    d.edges.DelValid(e);
    forall x | x in d.edges.Del(e).values
      ensures x.source in nodes && x.target in nodes && (x.branch.Some? ==> x.branch.value in branches)
    {
      assert EdgeSound(nodes, branches, x, d.edges.values[x]);
    }
    EdgesShrink(nodes, branches, nodes, branches, d.edges, d.edges.Del(e));
  }

  lemma RemoveEdgeKeeps(c: Config, d: Draft, e: EdgeKey)
    requires Sound(c, d) && DoRemoveEdge(d, e).Ok?
    ensures Sound(c, DoRemoveEdge(d, e).value)
  {
    if e in d.edges.values {
      DropEdgeKeeps(c, d, e);
    } else {
      DropEdgeKeeps(c, d, FirstLike(d.edges.order, e).value);
    }
  }

  // ---- Branch, phase and gate tools

  lemma BranchesPut(nodes: set<Key>, branches: Dict<Key, Branch>, key: Key, b: Branch)
    requires BranchesSound(nodes, branches) && BranchSound(nodes, key, b)
    ensures BranchesSound(nodes, branches.Put(key, b))
  {
    branches.PutValid(key, b);
    forall k | k in branches.Put(key, b).values ensures BranchSound(nodes, k, branches.Put(key, b).values[k]) {
      assert k != key ==> BranchSound(nodes, k, branches.values[k]);
    }
  }

  lemma SetBranchKeeps(c: Config, d: Draft, key: Key, b: Branch)
    requires Sound(c, d) && DoSetBranch(d, key, b).Ok?
    ensures Sound(c, DoSetBranch(d, key, b).value)
  {
    var nodes := d.nodes.values.Keys;
    BranchesPut(nodes, d.branches, key, b);
    EdgesGrow(nodes, d.branches.values.Keys, nodes, d.branches.Put(key, b).values.Keys, d.edges);
  }

  lemma BranchesDrop(nodes: set<Key>, branches: Dict<Key, Branch>, key: Key)
    requires BranchesSound(nodes, branches)
    ensures BranchesSound(nodes, branches.Del(key))
  {
    branches.DelValid(key);
    forall k | k in branches.Del(key).values ensures BranchSound(nodes, k, branches.Del(key).values[k]) {
      assert BranchSound(nodes, k, branches.values[k]);
    }
  }

  lemma RemoveBranchKeeps(c: Config, d: Draft, key: Key)
    requires Sound(c, d) && DoRemoveBranch(d, key).Ok?
    ensures Sound(c, DoRemoveBranch(d, key).value)
  {
    var nodes, was, now := d.nodes.values.Keys, d.branches.values.Keys, d.branches.Del(key).values.Keys;
    BranchesDrop(nodes, d.branches, key);
    forall e | e in d.edges.values
      ensures e.source in nodes && e.target in nodes && (e.branch.Some? ==> e.branch.value in now)
    {
      assert EdgeSound(nodes, was, e, d.edges.values[e]);
    }
    EdgesShrink(nodes, was, nodes, now, d.edges, d.edges);
  }

  lemma PhasesPut(nodes: set<Key>, phases: Dict<Key, Phase>, key: Key, p: Phase)
    requires PhasesSound(nodes, phases) && PhaseSound(nodes, key, p)
    ensures PhasesSound(nodes, phases.Put(key, p))
  {
    phases.PutValid(key, p);
    forall k | k in phases.Put(key, p).values ensures PhaseSound(nodes, k, phases.Put(key, p).values[k]) {
      assert k != key ==> PhaseSound(nodes, k, phases.values[k]);
    }
  }

  lemma SetPhaseKeeps(c: Config, d: Draft, key: Key, p: Phase)
    requires Sound(c, d) && DoSetPhase(d, key, p).Ok?
    ensures Sound(c, DoSetPhase(d, key, p).value)
  {
    assert PhaseSound(d.nodes.values.Keys, key, p);
    PhasesPut(d.nodes.values.Keys, d.phases, key, p);
  }

  lemma RemovePhaseKeeps(c: Config, d: Draft, key: Key)
    requires Sound(c, d)
    ensures Sound(c, d.(phases := d.phases.Del(key)))
  {
    d.phases.DelValid(key);
    var left := d.phases.Del(key).values;
    forall k | k in left ensures PhaseSound(d.nodes.values.Keys, k, left[k]) {
      assert PhaseSound(d.nodes.values.Keys, k, d.phases.values[k]);
    }
  }

  lemma GatesPut(nodes: set<Key>, gates: Dict<Key, Gate>, key: Key, g: Gate)
    requires GatesSound(nodes, gates) && GateSound(nodes, key, g)
    ensures GatesSound(nodes, gates.Put(key, g))
  {
    gates.PutValid(key, g);
    forall k | k in gates.Put(key, g).values ensures GateSound(nodes, k, gates.Put(key, g).values[k]) {
      assert k != key ==> GateSound(nodes, k, gates.values[k]);
    }
  }

  lemma SetNodeGateKeeps(c: Config, d: Draft, key: Key, g: Gate)
    requires Sound(c, d) && DoSetNodeGate(c, d, key, g).Ok?
    ensures Sound(c, DoSetNodeGate(c, d, key, g).value)
  {
    GatesPut(d.nodes.values.Keys, d.gates, key, g);
  }

  lemma RemoveNodeGateKeeps(c: Config, d: Draft, key: Key)
    requires Sound(c, d) && DoRemoveNodeGate(c, d, key).Ok?
    ensures Sound(c, DoRemoveNodeGate(c, d, key).value)
  {
    GatesDrop(d.nodes.values.Keys, d.gates, key, d.nodes.values.Keys);
  }

  lemma SetFinalGateKeeps(c: Config, d: Draft, argv: seq<string>, question: Option<string>)
    requires Sound(c, d) && DoSetFinalGate(c, d, argv, question).Ok?
    ensures Sound(c, DoSetFinalGate(c, d, argv, question).value)
  {
  }

  lemma RemoveFinalGateKeeps(c: Config, d: Draft)
    requires Sound(c, d) && DoRemoveFinalGate(c, d).Ok?
    ensures Sound(c, DoRemoveFinalGate(c, d).value)
  {
  }

  // ---- Moving a retained Gate

  /** Moving a Gate keeps the one-to-one binding between Gates, owners and Check groups. */
  lemma MoveKeepsBindings(checks: map<Key, seq<string>>, owners: map<string, Key>, gate: string, key: Key)
    requires Bindings(checks, owners) && gate in owners && key !in checks && owners[gate] in checks
    ensures Bindings((checks - {owners[gate]})[key := checks[owners[gate]]], owners[gate := key])
  {
    var left, now := (checks - {owners[gate]})[key := checks[owners[gate]]], owners[gate := key];
    assert Owns(owners, gate, owners[gate]);
    forall a, b, k | Owns(now, a, k) && Owns(now, b, k) ensures a == b {
      assert a != gate ==> Owns(owners, a, k);
      assert b != gate ==> Owns(owners, b, k);
    }
    forall g | g in now ensures now[g] in left {
      assert g != gate ==> Owns(owners, g, owners[g]);
    }
    forall k | k in left ensures exists g :: Owns(now, g, k) {
      if k == key {
        assert Owns(now, gate, k);
      } else {
        var g :| Owns(owners, g, k);
        assert Owns(now, g, k);
      }
    }
  }

  lemma MoveKeeps(c: Config, d: Draft, gate: string, key: Key)
    requires Sound(c, d) && DoMoveGate(c, d, gate, key).Ok?
    ensures Sound(c, DoMoveGate(c, d, gate, key).value)
  {
    MoveKeepsBindings(d.checks, d.owners, gate, key);
    var left := (d.checks - {d.owners[gate]})[key := d.checks[d.owners[gate]]];
    assert OwnerSound(d.nodes.values, d.owners[gate], d.checks[d.owners[gate]]);
    forall k | k in left ensures OwnerSound(d.nodes.values, k, left[k]) {
      assert k != key ==> OwnerSound(d.nodes.values, k, d.checks[k]);
    }
  }

  /** Every accepted tool call keeps the draft sound. */
  lemma EditKeeps(c: Config, d: Draft, t: Tool)
    requires Sound(c, d) && Edit(c, d, t).Ok?
    ensures Sound(c, Edit(c, d, t).value)
  {
    match t
    case AddNode(key, node) => PutNodeKeeps(c, d, key, node);
    case UpdateNode(key, _, _, _, _, _) => PutNodeKeeps(c, d, key, Updated(d.nodes.values[key], t));
    case RemoveNode(key) => RemoveNodeKeeps(c, d, key);
    case AddEdge(e, condition) => AddEdgeKeeps(c, d, e, condition);
    case RemoveEdge(e) => RemoveEdgeKeeps(c, d, e);
    case SetBranch(key, b) => SetBranchKeeps(c, d, key, b);
    case RemoveBranch(key) => RemoveBranchKeeps(c, d, key);
    case SetPhase(key, p) => SetPhaseKeeps(c, d, key, p);
    case RemovePhase(key) => RemovePhaseKeeps(c, d, key);
    case SetNodeGate(key, g) => SetNodeGateKeeps(c, d, key, g);
    case RemoveNodeGate(key) => RemoveNodeGateKeeps(c, d, key);
    case SetFinalGate(argv, question) => SetFinalGateKeeps(c, d, argv, question);
    case RemoveFinalGate => RemoveFinalGateKeeps(c, d);
    case MoveProcessGate(gate, key) => MoveKeeps(c, d, gate, key);
  }

  // ---- Sequences of tool calls

  /** After any sequence of tool calls on a sound draft, accepted or rejected, the draft is sound. */
  lemma {:induction false} AlwaysSound(c: Config, seed: Draft, tools: seq<Tool>)
    requires Sound(c, seed)
    ensures Sound(c, After(c, seed, tools))
    decreases |tools|
  {
    if tools != [] {
      AlwaysSound(c, seed, tools[..|tools| - 1]);
      var before := After(c, seed, tools[..|tools| - 1]);
      if Edit(c, before, tools[|tools| - 1]).Ok? {
        EditKeeps(c, before, tools[|tools| - 1]);
      }
    }
  }

  lemma FreshDraftIsSound(c: Config, tools: seq<Tool>)
    requires !c.processMode
    ensures Sound(c, After(c, EMPTY_DRAFT, tools))
  {
    AlwaysSound(c, EMPTY_DRAFT, tools);
  }

  /** The Check group a retained Gate stands for. */
  function GroupOf(d: Draft, gate: string): Option<seq<string>> {
    if gate in d.owners && d.owners[gate] in d.checks then Some(d.checks[d.owners[gate]]) else None
  }

  /** The same Gates with the same Check groups, each still with its own owner. */
  ghost predicate SameGates(before: Draft, after: Draft) {
    && Bindings(after.checks, after.owners) && after.owners.Keys == before.owners.Keys
    && forall g :: g in before.owners ==> GroupOf(after, g) == GroupOf(before, g)
  }

  lemma MoveKeepsGroups(c: Config, d: Draft, gate: string, key: Key)
    requires Bindings(d.checks, d.owners) && DoMoveGate(c, d, gate, key).Ok?
    ensures SameGates(d, DoMoveGate(c, d, gate, key).value)
  {
    MoveKeepsBindings(d.checks, d.owners, gate, key);
    var after := DoMoveGate(c, d, gate, key).value;
    forall g | g in d.owners ensures GroupOf(after, g) == GroupOf(d, g) {
      assert Owns(d.owners, g, d.owners[g]) && Owns(d.owners, gate, d.owners[gate]);
      assert g != gate ==> !Owns(d.owners, g, d.owners[gate]);
    }
  }

  lemma OnlyMovesTouchGates(c: Config, d: Draft, t: Tool)
    requires !t.MoveProcessGate? && Edit(c, d, t).Ok?
    ensures Edit(c, d, t).value.owners == d.owners && Edit(c, d, t).value.checks == d.checks
  {
  }

  lemma EditKeepsGroups(c: Config, d: Draft, t: Tool)
    requires Bindings(d.checks, d.owners) && Edit(c, d, t).Ok?
    ensures SameGates(d, Edit(c, d, t).value)
  {
    if t.MoveProcessGate? {
      MoveKeepsGroups(c, d, t.gateId, t.key);
    } else {
      OnlyMovesTouchGates(c, d, t);
    }
  }

  lemma SameGatesTrans(a: Draft, b: Draft, c: Draft)
    requires SameGates(a, b) && SameGates(b, c)
    ensures SameGates(a, c)
  {
    forall g | g in a.owners ensures GroupOf(c, g) == GroupOf(a, g) {
      assert g in b.owners;
    }
  }

  /** Gate conservation: no sequence of tool calls adds or loses a retained Gate, changes its
      Check group, or lets two Gates share an owner. */
  lemma {:induction false} GatesConserved(c: Config, seed: Draft, tools: seq<Tool>)
    requires Bindings(seed.checks, seed.owners)
    ensures SameGates(seed, After(c, seed, tools))
    decreases |tools|
  {
    if tools != [] {
      var before, t := After(c, seed, tools[..|tools| - 1]), tools[|tools| - 1];
      GatesConserved(c, seed, tools[..|tools| - 1]);
      if Edit(c, before, t).Ok? {
        EditKeepsGroups(c, before, t);
        SameGatesTrans(seed, before, Edit(c, before, t).value);
      }
    }
  }
}

/** What each tool call does to the draft, told by the tables before and after it: when it is accepted,
    which entry comes, goes or changes, and that every other entry keeps its value and its place. */
module PlanEdits {
  import opened Values
  import opened Graphs
  import opened PlanDraft
  import opened PlanIntegrity

  // ---- How one table changes

  /** A new entry at the end. */
  ghost predicate Added<K(!new), V>(a: Dict<K, V>, b: Dict<K, V>, k: K, v: V) {
    && k !in a.values && b.order == a.order + [k]
    && b.values.Keys == a.values.Keys + {k} && b.values[k] == v
    && forall x :: x in a.values ==> b.values[x] == a.values[x]
  }

  /** A new value in an old place. */
  ghost predicate Replaced<K(!new), V>(a: Dict<K, V>, b: Dict<K, V>, k: K, v: V) {
    && k in a.values && b.order == a.order
    && b.values.Keys == a.values.Keys && b.values[k] == v
    && forall x :: x in a.values && x != k ==> b.values[x] == a.values[x]
  }

  ghost predicate Assigned<K(!new), V>(a: Dict<K, V>, b: Dict<K, V>, k: K, v: V) {
    if k in a.values then Replaced(a, b, k, v) else Added(a, b, k, v)
  }

  /** One entry goes, and the others close up. */
  ghost predicate TakenOut<K(!new), V>(a: Dict<K, V>, b: Dict<K, V>, k: K) {
    && k in a.values && b.values.Keys == a.values.Keys - {k}
    && (forall x :: x in b.values ==> b.values[x] == a.values[x])
    && exists i :: OrderWithout(a.order, b.order, k, i)
  }

  ghost predicate OrderWithout<K>(a: seq<K>, b: seq<K>, k: K, i: int) {
    0 <= i < |a| && a[i] == k && b == a[..i] + a[i + 1..]
  }

  /** `b` is picked from `a` in the order of `a`, at these places. */
  ghost predicate PickedAt<T>(a: seq<T>, b: seq<T>, places: seq<int>) {
    && |places| == |b|
    && (forall i :: 0 <= i < |b| ==> 0 <= places[i] < |a| && a[places[i]] == b[i])
    && forall i, j :: 0 <= i < j < |b| ==> places[i] < places[j]
  }

  ghost predicate InOrderOf<T>(a: seq<T>, b: seq<T>) {
    exists places :: PickedAt(a, b, places)
  }

  lemma PutSets<K(!new), V>(a: Dict<K, V>, k: K, v: V)
    ensures Assigned(a, a.Put(k, v), k, v)
  {
  }

  lemma {:induction false} DroppedNone<K(!new)>(s: seq<K>, k: K)
    requires k !in s
    ensures Dropped(s, k) == s
    decreases |s|
  {
    if s != [] {
      DroppedNone(s[..|s| - 1], k);
      assert s == s[..|s| - 1] + [s[|s| - 1]];
    }
  }

  lemma {:induction false} DroppedOne<K(!new)>(s: seq<K>, k: K, i: nat)
    requires Distinct(s) && i < |s| && s[i] == k
    ensures OrderWithout(s, Dropped(s, k), k, i)
    decreases |s|
  {
    var front, last := s[..|s| - 1], s[|s| - 1];
    forall x, y | 0 <= x < y < |front| ensures Differ(front, x, y) {
      assert Differ(s, x, y);
    }
    if i == |s| - 1 {
      forall j | 0 <= j < |front| ensures front[j] != k {
        assert Differ(s, j, i);
      }
      DroppedNone(front, k);
    } else {
      assert Differ(s, i, |s| - 1);
      DroppedOne(front, k, i);
      assert front[..i] + front[i + 1..] + [last] == s[..i] + s[i + 1..];
    }
  }

  lemma DelTakesOut<K(!new), V>(a: Dict<K, V>, k: K)
    requires a.Valid() && k in a.values
    ensures TakenOut(a, a.Del(k), k)
  {
    assert k in a.order;
    var i :| 0 <= i < |a.order| && a.order[i] == k;
    DroppedOne(a.order, k, i);
  }

  lemma DelNothing<K(!new), V>(a: Dict<K, V>, k: K)
    requires a.Valid() && k !in a.values
    ensures a.Del(k) == a
  {
    DroppedNone(a.order, k);
    assert a.values - {k} == a.values;
  }

  // ---- Which calls are accepted

  predicate MayOwnGate(d: Draft, key: Key)
    requires key in d.nodes.values
  {
    d.nodes.values[key].kind in {Work, Merge, Reviewer}
  }

  /** The branch or phase list names existing nodes, none blank and none twice. */
  ghost predicate NodesListed(d: Draft, keys: seq<Key>) {
    && keys != [] && (forall k :: k in keys ==> k != "" && k in d.nodes.values)
    && forall i, j :: 0 <= i < j < |keys| ==> keys[i] != keys[j]
  }

  ghost predicate EdgeAllowed(d: Draft, e: EdgeKey, condition: Option<string>) {
    && e.source != "" && e.target != "" && e.branch != Some("") && condition != Some("")
    && e.source in d.nodes.values && e.target in d.nodes.values && e.source != e.target
    && (e.branch.Some? ==> e.branch.value in d.branches.values)
    && (e.kind == Exploration || e.kind == MergeEdge ==> e.branch.Some?)
    && (e.kind == Conditional <==> condition.Some?)
    && e !in d.edges.values
    && (e.kind == Dependency ==>
          forall x :: x in d.edges.values && x.kind == Dependency ==> x.source != e.source || x.target != e.target)
  }

  ghost predicate BranchAllowed(d: Draft, key: Key, b: Branch) {
    && key != "" && b.caption != "" && b.fork != "" && b.merge != ""
    && NodesListed(d, b.nodes) && b.fork in d.nodes.values && b.merge in d.nodes.values
    && b.fork != b.merge && b.fork !in b.nodes && b.merge !in b.nodes
  }

  ghost predicate PhaseAllowed(d: Draft, key: Key, p: Phase) {
    && key != "" && p.title != "" && p.reviewer != "" && NodesListed(d, p.nodes) && NodesListed(d, p.rework)
    && p.gate == p.reviewer && p.reviewer in p.nodes && p.reviewer in d.nodes.values
    && d.nodes.values[p.reviewer].kind == Reviewer && p.reviewer !in p.rework
    && forall n :: n in p.rework ==> n in p.nodes && d.nodes.values[n].kind in {Work, Merge}
  }

  /** At most 128 arguments, each with 1 to 4096 characters and no zero character. */
  ghost predicate CommandFits(argv: seq<string>) {
    |argv| <= 128 && forall i :: 0 <= i < |argv| ==> 1 <= |argv[i]| <= 4096 && '\0' !in argv[i]
  }

  ghost predicate GateAllowed(argv: seq<string>, question: Option<string>) {
    CommandFits(argv) && question != Some("") && (argv != [] || question != None)
  }

  ghost predicate MoveAllowed(c: Config, d: Draft, gateId: string, key: Key) {
    && c.processMode && gateId != "" && key != "" && gateId in d.owners && key in d.nodes.values
    && key != d.owners[gateId] && key !in d.checks && MayOwnGate(d, key) && d.owners[gateId] in d.checks
  }

  ghost predicate InUse(d: Draft, key: Key) {
    || (exists b :: b in d.branches.values
                    && (d.branches.values[b].fork == key || d.branches.values[b].merge == key
                        || key in d.branches.values[b].nodes))
    || exists p :: p in d.phases.values && key in d.phases.values[p].nodes
  }

  /** The edge that a removal means: the one named, else the first with the same ends and kind. */
  ghost predicate Meant(d: Draft, e: EdgeKey, gone: EdgeKey) {
    if e in d.edges.values then gone == e
    else exists i :: FirstOfKind(d.edges.order, e, gone, i)
  }

  predicate SameKind(a: EdgeKey, b: EdgeKey) {
    a.source == b.source && a.target == b.target && a.kind == b.kind
  }

  ghost predicate FirstOfKind(order: seq<EdgeKey>, e: EdgeKey, gone: EdgeKey, i: int) {
    0 <= i < |order| && order[i] == gone && SameKind(gone, e) && forall j :: 0 <= j < i ==> !SameKind(order[j], e)
  }

  ghost predicate Allowed(c: Config, d: Draft, t: Tool) {
    match t
    case AddNode(key, node) => key != "" && key !in d.nodes.values && node.title != "" && node.instruction != ""
    case UpdateNode(key, title, instruction, kind, _, _) =>
      && key != "" && key in d.nodes.values && title != "" && instruction != ""
      && (c.processMode && key in d.checks ==> kind in {Work, Merge, Reviewer})
    case RemoveNode(key) => key != "" && key in d.nodes.values && !(c.processMode && key in d.checks) && !InUse(d, key)
    case AddEdge(e, condition) => EdgeAllowed(d, e, condition)
    case RemoveEdge(e) => e.source != "" && e.target != "" && e.branch != Some("") && exists gone :: Meant(d, e, gone)
    case SetBranch(key, b) => BranchAllowed(d, key, b)
    case RemoveBranch(key) =>
      key != "" && key in d.branches.values && forall e :: e in d.edges.values ==> e.branch != Some(key)
    case SetPhase(key, p) => PhaseAllowed(d, key, p)
    case RemovePhase(key) => key != "" && key in d.phases.values
    case SetNodeGate(key, g) =>
      && !c.processMode && key != "" && key in d.nodes.values && MayOwnGate(d, key) && g.name != ""
      && GateAllowed(g.argv, g.question)
    case RemoveNodeGate(key) => !c.processMode && key != "" && key in d.nodes.values
    case SetFinalGate(argv, question) =>
      !c.processMode && GateAllowed(argv, question) && (argv != [] ==> c.allowFinalCommand)
    case RemoveFinalGate => !c.processMode
    case MoveProcessGate(gateId, key) => MoveAllowed(c, d, gateId, key)
    case Malformed => false
  }

  // ---- What an accepted call changes

  /** The node has the new texts and kind; capabilities and session stay unless they are given. */
  predicate UpdatedFrom(was: Node, t: Tool, node: Node)
    requires t.UpdateNode?
  {
    && node.title == t.title && node.instruction == t.instruction && node.kind == t.kind
    && node.capabilities == (if t.capabilities == None then was.capabilities else t.capabilities.value)
    && node.session == (if t.session == None then was.session else t.session.value)
  }

  /** Exactly the edges at this node go. */
  ghost predicate EdgesCleared(a: Dict<EdgeKey, Option<string>>, b: Dict<EdgeKey, Option<string>>, key: Key) {
    && (forall e :: e in b.values <==> e in a.values && e.source != key && e.target != key)
    && (forall e :: e in b.values ==> b.values[e] == a.values[e])
    && b.Valid() && InOrderOf(a.order, b.order)
  }

  /** The entry of the key goes, if there is one. */
  ghost predicate Cleared<K(!new), V>(a: Dict<K, V>, b: Dict<K, V>, k: K) {
    if k in a.values then TakenOut(a, b, k) else b == a
  }

  /** The Gate and its Check group go from the old owner to the new one. */
  ghost predicate GateMoved(d: Draft, after: Draft, gateId: string, key: Key)
    requires gateId in d.owners && d.owners[gateId] in d.checks
  {
    var from := d.owners[gateId];
    && after.owners.Keys == d.owners.Keys && after.owners[gateId] == key
    && (forall g :: g in d.owners && g != gateId ==> after.owners[g] == d.owners[g])
    && after.checks.Keys == d.checks.Keys - {from} + {key} && after.checks[key] == d.checks[from]
    && forall k :: k in d.checks && k != from && k != key ==> after.checks[k] == d.checks[k]
  }

  ghost predicate Changed(c: Config, d: Draft, t: Tool, after: Draft)
    requires Allowed(c, d, t)
  {
    match t
    case AddNode(key, node) => after == d.(nodes := after.nodes) && Added(d.nodes, after.nodes, key, node)
    case UpdateNode(key, _, _, _, _, _) =>
      && after == d.(nodes := after.nodes)
      && exists node :: UpdatedFrom(d.nodes.values[key], t, node) && Replaced(d.nodes, after.nodes, key, node)
    case RemoveNode(key) =>
      && after == d.(nodes := after.nodes, gates := after.gates, edges := after.edges)
      && TakenOut(d.nodes, after.nodes, key) && Cleared(d.gates, after.gates, key)
      && EdgesCleared(d.edges, after.edges, key)
    case AddEdge(e, condition) => after == d.(edges := after.edges) && Added(d.edges, after.edges, e, condition)
    case RemoveEdge(e) =>
      after == d.(edges := after.edges) && exists gone :: Meant(d, e, gone) && TakenOut(d.edges, after.edges, gone)
    case SetBranch(key, b) => after == d.(branches := after.branches) && Assigned(d.branches, after.branches, key, b)
    case RemoveBranch(key) => after == d.(branches := after.branches) && TakenOut(d.branches, after.branches, key)
    case SetPhase(key, p) => after == d.(phases := after.phases) && Assigned(d.phases, after.phases, key, p)
    case RemovePhase(key) => after == d.(phases := after.phases) && TakenOut(d.phases, after.phases, key)
    case SetNodeGate(key, g) => after == d.(gates := after.gates) && Assigned(d.gates, after.gates, key, g)
    case RemoveNodeGate(key) => after == d.(gates := after.gates) && Cleared(d.gates, after.gates, key)
    case SetFinalGate(argv, question) => after == d.(finalArgv := argv, finalQuestion := question)
    case RemoveFinalGate => after == d.(finalArgv := [], finalQuestion := None)
    case MoveProcessGate(gateId, key) =>
      after == d.(owners := after.owners, checks := after.checks) && GateMoved(d, after, gateId, key)
  }

  ghost predicate Tables(d: Draft) {
    d.nodes.Valid() && d.edges.Valid() && d.branches.Valid() && d.phases.Valid() && d.gates.Valid()
  }

  // ---- The tools

  lemma ListIs(d: Draft, keys: seq<Key>)
    ensures NodesListed(d, keys) <==> NonBlank(keys) && NoRepeat(keys) && forall k :: k in keys ==> k in d.nodes.values
  {
    if NodesListed(d, keys) {
      assert "" !in keys;
    }
  }

  lemma {:induction false} EdgesPicked(order: seq<EdgeKey>, key: Key)
    ensures InOrderOf(order, EdgesWithout(order, key))
    decreases |order|
  {
    if order == [] {
      assert PickedAt(order, [], []);
    } else {
      var front, last := order[..|order| - 1], order[|order| - 1];
      EdgesPicked(front, key);
      var rest := EdgesWithout(front, key);
      var places :| PickedAt(front, rest, places);
      if last.source == key || last.target == key {
        assert EdgesWithout(order, key) == rest;
        assert PickedAt(order, rest, places);
      } else {
        assert PickedAt(order, rest + [last], places + [|order| - 1]);
      }
    }
  }

  lemma {:induction false} FirstLikeIs(order: seq<EdgeKey>, e: EdgeKey)
    ensures FirstLike(order, e).Some? ==> exists i :: FirstOfKind(order, e, FirstLike(order, e).value, i)
    decreases |order|
  {
    if order != [] {
      if SameKind(order[0], e) {
        assert FirstOfKind(order, e, order[0], 0);
      } else if FirstLike(order, e).Some? {
        FirstLikeIs(order[1..], e);
        var i :| FirstOfKind(order[1..], e, FirstLike(order[1..], e).value, i);
        assert FirstOfKind(order, e, FirstLike(order, e).value, i + 1);
      }
    }
  }

  lemma RemoveEdgeIs(c: Config, d: Draft, e: EdgeKey)
    requires Tables(d)
    ensures DoRemoveEdge(d, e).Ok? <==> Allowed(c, d, RemoveEdge(e))
    ensures DoRemoveEdge(d, e).Ok? ==> Changed(c, d, RemoveEdge(e), DoRemoveEdge(d, e).value)
  {
    FirstLikeIs(d.edges.order, e);
    if e in d.edges.values {
      assert Meant(d, e, e);
      DelTakesOut(d.edges, e);
    } else {
      var like := FirstLike(d.edges.order, e);
      if like.Some? {
        assert Meant(d, e, like.value);
        DelTakesOut(d.edges, like.value);
      }
    }
  }

  lemma AddNodeIs(c: Config, d: Draft, key: Key, node: Node)
    requires Tables(d)
    ensures DoAddNode(d, key, node).Ok? <==> Allowed(c, d, AddNode(key, node))
    ensures DoAddNode(d, key, node).Ok? ==> Changed(c, d, AddNode(key, node), DoAddNode(d, key, node).value)
  {
    PutSets(d.nodes, key, node);
  }

  lemma UpdateNodeIs(c: Config, d: Draft, t: Tool)
    requires Tables(d) && t.UpdateNode?
    ensures DoUpdateNode(c, d, t).Ok? <==> Allowed(c, d, t)
    ensures DoUpdateNode(c, d, t).Ok? ==> Changed(c, d, t, DoUpdateNode(c, d, t).value)
  {
    if DoUpdateNode(c, d, t).Ok? {
      var node := Updated(d.nodes.values[t.key], t);
      PutSets(d.nodes, t.key, node);
      assert UpdatedFrom(d.nodes.values[t.key], t, node);
    }
  }

  lemma RemoveNodeIs(c: Config, d: Draft, key: Key)
    requires Tables(d)
    ensures DoRemoveNode(c, d, key).Ok? <==> Allowed(c, d, RemoveNode(key))
    ensures DoRemoveNode(c, d, key).Ok? ==> Changed(c, d, RemoveNode(key), DoRemoveNode(c, d, key).value)
  {
    assert InUse(d, key) <==> (exists b :: b in d.branches.values && BranchUses(d.branches.values[b], key))
                              || exists p :: p in d.phases.values && key in d.phases.values[p].nodes;
    if DoRemoveNode(c, d, key).Ok? {
      RemovedNode(c, d, key, DoRemoveNode(c, d, key).value);
    }
  }

  lemma RemovedNode(c: Config, d: Draft, key: Key, after: Draft)
    requires Tables(d) && DoRemoveNode(c, d, key) == Ok(after) && key in d.nodes.values
    ensures TakenOut(d.nodes, after.nodes, key) && Cleared(d.gates, after.gates, key)
    ensures EdgesCleared(d.edges, after.edges, key)
  {
    DelTakesOut(d.nodes, key);
    if key in d.gates.values {
      DelTakesOut(d.gates, key);
    } else {
      DelNothing(d.gates, key);
    }
    EdgesWithoutKeeps(d.edges.order, key);
    EdgesPicked(d.edges.order, key);
  }

  lemma AddEdgeIs(c: Config, d: Draft, e: EdgeKey, condition: Option<string>)
    requires Tables(d)
    ensures DoAddEdge(d, e, condition).Ok? <==> Allowed(c, d, AddEdge(e, condition))
    ensures DoAddEdge(d, e, condition).Ok? ==> Changed(c, d, AddEdge(e, condition), DoAddEdge(d, e, condition).value)
  {
    PutSets(d.edges, e, condition);
    forall x | x in d.edges.values
      ensures SameDependency(e, x) <==> e.kind == Dependency && x.kind == Dependency && x.source == e.source
                                        && x.target == e.target
    {
    }
  }

  lemma SetBranchIs(c: Config, d: Draft, key: Key, b: Branch)
    requires Tables(d)
    ensures DoSetBranch(d, key, b).Ok? <==> Allowed(c, d, SetBranch(key, b))
    ensures DoSetBranch(d, key, b).Ok? ==> Changed(c, d, SetBranch(key, b), DoSetBranch(d, key, b).value)
  {
    ListIs(d, b.nodes);
    PutSets(d.branches, key, b);
  }

  lemma SetPhaseIs(c: Config, d: Draft, key: Key, p: Phase)
    requires Tables(d)
    ensures DoSetPhase(d, key, p).Ok? <==> Allowed(c, d, SetPhase(key, p))
    ensures DoSetPhase(d, key, p).Ok? ==> Changed(c, d, SetPhase(key, p), DoSetPhase(d, key, p).value)
  {
    ListIs(d, p.nodes);
    ListIs(d, p.rework);
    PutSets(d.phases, key, p);
  }

  lemma RemoveIs(c: Config, d: Draft, t: Tool)
    requires Tables(d) && (t.RemoveBranch? || t.RemovePhase? || t.RemoveNodeGate?)
    ensures Edit(c, d, t).Ok? <==> Allowed(c, d, t)
    ensures Edit(c, d, t).Ok? ==> Changed(c, d, t, Edit(c, d, t).value)
  {
    if Edit(c, d, t).Ok? {
      match t
      case RemoveBranch(key) => DelTakesOut(d.branches, key);
      case RemovePhase(key) => DelTakesOut(d.phases, key);
      case RemoveNodeGate(key) =>
        if key in d.gates.values {
          DelTakesOut(d.gates, key);
        } else {
          DelNothing(d.gates, key);
        }
    }
  }

  lemma CommandIs(argv: seq<string>)
    ensures ArgvOk(argv) <==> CommandFits(argv)
  {
    if CommandFits(argv) {
      forall a | a in argv ensures 0 < |a| <= 4096 && '\0' !in a {
        var i :| 0 <= i < |argv| && argv[i] == a;
      }
    }
  }

  lemma SetGateIs(c: Config, d: Draft, t: Tool)
    requires Tables(d) && (t.SetNodeGate? || t.SetFinalGate? || t.RemoveFinalGate? || t.MoveProcessGate?)
    ensures Edit(c, d, t).Ok? <==> Allowed(c, d, t)
    ensures Edit(c, d, t).Ok? ==> Changed(c, d, t, Edit(c, d, t).value)
  {
    match t
    case SetNodeGate(key, g) =>
      CommandIs(g.argv);
      PutSets(d.gates, key, g);
    case SetFinalGate(argv, _) => CommandIs(argv);
    case RemoveFinalGate =>
    case MoveProcessGate(_, _) =>
  }

  /** A tool call is accepted exactly when it is allowed, and then changes exactly what it is for. */
  lemma EditIs(c: Config, d: Draft, t: Tool)
    requires Tables(d)
    ensures Edit(c, d, t).Ok? <==> Allowed(c, d, t)
    ensures Edit(c, d, t).Ok? ==> Changed(c, d, t, Edit(c, d, t).value)
  {
    match t
    case AddNode(key, node) => AddNodeIs(c, d, key, node);
    case UpdateNode(_, _, _, _, _, _) => UpdateNodeIs(c, d, t);
    case RemoveNode(key) => RemoveNodeIs(c, d, key);
    case AddEdge(e, condition) => AddEdgeIs(c, d, e, condition);
    case RemoveEdge(e) => RemoveEdgeIs(c, d, e);
    case SetBranch(key, b) => SetBranchIs(c, d, key, b);
    case SetPhase(key, p) => SetPhaseIs(c, d, key, p);
    case Malformed =>
    case SetNodeGate(_, _) => SetGateIs(c, d, t);
    case SetFinalGate(_, _) => SetGateIs(c, d, t);
    case RemoveFinalGate => SetGateIs(c, d, t);
    case MoveProcessGate(_, _) => SetGateIs(c, d, t);
    case _ => RemoveIs(c, d, t);
  }

  // ---- Why a call is rejected

  function NamedNodes(t: Tool): set<Key> {
    match t
    case UpdateNode(key, _, _, _, _, _) => {key}
    case RemoveNode(key) => {key}
    case AddEdge(e, _) => {e.source, e.target}
    case SetBranch(_, b) => {b.fork, b.merge} + set n | n in b.nodes
    case SetPhase(_, p) => {p.reviewer, p.gate} + (set n | n in p.nodes) + set n | n in p.rework
    case SetNodeGate(key, _) => {key}
    case RemoveNodeGate(key) => {key}
    case MoveProcessGate(_, key) => {key}
    case _ => {}
  }

  predicate Repeats(keys: seq<Key>) {
    exists i, j :: 0 <= i < j < |keys| && keys[i] == keys[j]
  }

  /** A text or a list of the call is missing or blank, or a Gate has neither a fitting command nor a question. */
  ghost predicate Incomplete(t: Tool) {
    match t
    case AddNode(key, node) => "" in {key, node.title, node.instruction}
    case UpdateNode(key, title, instruction, _, _, _) => "" in {key, title, instruction}
    case RemoveNode(key) => key == ""
    case AddEdge(e, condition) => "" in {e.source, e.target} || Some("") in {e.branch, condition}
    case RemoveEdge(e) => "" in {e.source, e.target} || e.branch == Some("")
    case SetBranch(key, b) => "" in {key, b.caption, b.fork, b.merge} || b.nodes == [] || "" in b.nodes
    case RemoveBranch(key) => key == ""
    case SetPhase(key, p) =>
      "" in {key, p.title, p.reviewer, p.gate} || p.nodes == [] || "" in p.nodes || p.rework == [] || "" in p.rework
    case RemovePhase(key) => key == ""
    case SetNodeGate(key, g) => "" in {key, g.name} || !GateAllowed(g.argv, g.question)
    case RemoveNodeGate(key) => key == ""
    case SetFinalGate(argv, question) => !GateAllowed(argv, question)
    case MoveProcessGate(gateId, key) => "" in {gateId, key}
    case RemoveFinalGate => false
    case Malformed => true
  }

  /** What an issue says about the call and the draft. */
  ghost predicate Blames(c: Config, d: Draft, t: Tool, issue: Issue) {
    match issue
    case InvalidArgument => Incomplete(t)
    case DuplicateReference => (t.SetBranch? && Repeats(t.branch.nodes))
                               || (t.SetPhase? && (Repeats(t.phase.nodes) || Repeats(t.phase.rework)))
    case DuplicateNodeKey => t.AddNode? && t.key in d.nodes.values
    case UnknownNode => exists n :: n in NamedNodes(t) && n !in d.nodes.values
    case RetainedGateInvalidKind =>
      || (t.UpdateNode? && c.processMode && t.key in d.checks && t.kind !in {Work, Merge, Reviewer})
      || (t.MoveProcessGate? && t.key in d.nodes.values && !MayOwnGate(d, t.key))
    case NodeGateMoveRequired => t.RemoveNode? && c.processMode && t.key in d.checks
    case NodeInUse => t.RemoveNode? && InUse(d, t.key)
    case SelfDependency => t.AddEdge? && t.edge.source == t.edge.target
    case UnknownBranch =>
      || (t.AddEdge? && t.edge.branch.Some? && t.edge.branch.value !in d.branches.values)
      || (t.RemoveBranch? && t.key !in d.branches.values)
    case EdgeRequiresBranch => t.AddEdge? && t.edge.kind in {Exploration, MergeEdge} && t.edge.branch == None
    case ConditionRequired => t.AddEdge? && t.edge.kind == Conditional && t.condition == None
    case ConditionNotAllowed => t.AddEdge? && t.edge.kind != Conditional && t.condition != None
    case DuplicateEdge =>
      && t.AddEdge?
      && (t.edge in d.edges.values
          || (t.edge.kind == Dependency && exists x :: x in d.edges.values && SameKind(x, t.edge)))
    case UnknownEdge => t.RemoveEdge? && forall x :: x in d.edges.order ==> !SameKind(x, t.edge)
    case BranchInUse => t.RemoveBranch? && exists e :: e in d.edges.values && e.branch == Some(t.key)
    case BranchInvalid =>
      && t.SetBranch?
      && (t.branch.fork == t.branch.merge || t.branch.fork in t.branch.nodes || t.branch.merge in t.branch.nodes)
    case UnknownPhase => t.RemovePhase? && t.key !in d.phases.values
    case PhaseGateInvalid => t.SetPhase? && (t.phase.reviewer != t.phase.gate || t.phase.reviewer !in t.phase.nodes)
    case PhaseReviewerInvalid =>
      t.SetPhase? && t.phase.reviewer in d.nodes.values && d.nodes.values[t.phase.reviewer].kind != Reviewer
    case PhaseReworkInvalid =>
      && t.SetPhase?
      && (t.phase.reviewer in t.phase.rework
          || exists n :: n in t.phase.rework
                         && (n !in t.phase.nodes
                             || (n in d.nodes.values && d.nodes.values[n].kind !in {Work, Merge})))
    case ProcessGateFrozen =>
      c.processMode && (t.SetNodeGate? || t.RemoveNodeGate? || t.SetFinalGate? || t.RemoveFinalGate?)
    case FinalCommandNotSelected => t.SetFinalGate? && t.argv != [] && !c.allowFinalCommand
    case NodeGateInvalidKind => t.SetNodeGate? && t.key in d.nodes.values && !MayOwnGate(d, t.key)
    case ProcessModeRequired => t.MoveProcessGate? && !c.processMode
    case UnknownRetainedGate => t.MoveProcessGate? && t.gateId !in d.owners
    case GateTargetOccupied =>
      t.MoveProcessGate? && ((t.gateId in d.owners && t.key == d.owners[t.gateId]) || t.key in d.checks)
    case RetainedGateCorrupt => t.MoveProcessGate? && t.gateId in d.owners && d.owners[t.gateId] !in d.checks
  }

  lemma RepeatsIs(keys: seq<Key>)
    ensures Repeats(keys) <==> !NoRepeat(keys)
  {
    if !NoRepeat(keys) {
      var i, j :| 0 <= i < |keys| && 0 <= j < |keys| && keys[i] == keys[j] && i != j;
      assert if i < j then keys[i] == keys[j] else keys[j] == keys[i];
    }
  }

  lemma BranchBlame(c: Config, d: Draft, key: Key, b: Branch)
    requires DoSetBranch(d, key, b).Err?
    ensures Blames(c, d, SetBranch(key, b), DoSetBranch(d, key, b).error)
  {
    RepeatsIs(b.nodes);
    assert b.fork in NamedNodes(SetBranch(key, b)) && b.merge in NamedNodes(SetBranch(key, b));
    assert forall n :: n in b.nodes ==> n in NamedNodes(SetBranch(key, b));
  }

  lemma PhaseBlame(c: Config, d: Draft, key: Key, p: Phase)
    requires DoSetPhase(d, key, p).Err?
    ensures Blames(c, d, SetPhase(key, p), DoSetPhase(d, key, p).error)
  {
    RepeatsIs(p.nodes);
    RepeatsIs(p.rework);
    var named := NamedNodes(SetPhase(key, p));
    assert p.reviewer in named && p.gate in named && forall n :: n in p.nodes || n in p.rework ==> n in named;
  }

  lemma EdgeBlame(c: Config, d: Draft, t: Tool)
    requires (t.AddEdge? || t.RemoveEdge?) && Edit(c, d, t).Err?
    ensures Blames(c, d, t, Edit(c, d, t).error)
  {
    if t.AddEdge? {
      assert t.edge.source in NamedNodes(t) && t.edge.target in NamedNodes(t);
      if other :| other in d.edges.values && SameDependency(t.edge, other) {
        assert SameKind(other, t.edge);
      }
    }
  }

  lemma GateBlame(c: Config, d: Draft, t: Tool)
    requires (t.SetNodeGate? || t.RemoveNodeGate? || t.SetFinalGate? || t.RemoveFinalGate? || t.MoveProcessGate?)
    requires Edit(c, d, t).Err?
    ensures Blames(c, d, t, Edit(c, d, t).error)
  {
    if t.SetNodeGate? {
      CommandIs(t.gate.argv);
    } else if t.SetFinalGate? {
      CommandIs(t.argv);
    }
  }

  /** A rejected call is blamed for something that is so. */
  lemma RejectionIsTrue(c: Config, d: Draft, t: Tool)
    requires Edit(c, d, t).Err?
    ensures Blames(c, d, t, Edit(c, d, t).error)
  {
    match t
    case SetBranch(key, b) => BranchBlame(c, d, key, b);
    case SetPhase(key, p) => PhaseBlame(c, d, key, p);
    case AddEdge(_, _) => EdgeBlame(c, d, t);
    case RemoveEdge(_) => EdgeBlame(c, d, t);
    case RemoveNode(_) =>
    case AddNode(_, _) =>
    case UpdateNode(_, _, _, _, _, _) =>
    case RemoveBranch(_) =>
    case RemovePhase(_) =>
    case Malformed =>
    case _ => GateBlame(c, d, t);
  }
}

/** Block lineage: the manifest that maps the nodes of a process revision to the nodes of the
    revision before it, and what it guarantees along a chain of revisions. */
module BlockLineage {
  import opened Values
  import opened Graphs

  /** The compared fields of a node definition, in order. */
  datatype Definition = Definition(title: string, instruction: string, kind: string, dependencies: seq<Id>,
                                   checks: seq<Id>, capabilities: set<string>, session: string)

  datatype BlockNode = BlockNode(id: Id, definition: Definition, scope: Json)

  type Graph = seq<BlockNode>

  /** The names a change can report; they are always listed in this order. */
  datatype Field =
    | Title | Instruction | Kind | Dependencies | Checks | Capabilities | Session | InputScope | ExecutionIdentity

  datatype ChangeKind = Added | Modified | Removed | Unchanged

  datatype Change = Change(block: Id, version: nat, previous: Option<Id>, node: Option<Id>, kind: ChangeKind,
                           fields: set<Field>)

  /** A revision; `manifest` is missing on revisions from before lineage was recorded. */
  datatype Revision = Revision(graph: Graph, manifest: Option<seq<Change>>)

  datatype BlockError = OutsideRevisions | SharedPredecessor | LineageDropped | ChangedInPlace

  // ---- The parts of a change

  function Differences(a: Definition, b: Definition): set<Field> {
    (if a.title != b.title then {Title} else {})
    + (if a.instruction != b.instruction then {Instruction} else {})
    + (if a.kind != b.kind then {Kind} else {})
    + (if a.dependencies != b.dependencies then {Dependencies} else {})
    + (if a.checks != b.checks then {Checks} else {})
    + (if a.capabilities != b.capabilities then {Capabilities} else {})
    + if a.session != b.session then {Session} else {}
  }

  function ChangedFields(a: BlockNode, b: BlockNode): set<Field> {
    Differences(a.definition, b.definition) + if a.scope != b.scope then {InputScope} else {}
  }

  /** Nothing is reported exactly for equal definitions and inputs. */
  lemma NothingChanged(a: BlockNode, b: BlockNode)
    ensures ChangedFields(a, b) == {} <==> a.definition == b.definition && a.scope == b.scope
  {
    if a.scope != b.scope {
      assert InputScope in ChangedFields(a, b);
    }
    if a.definition != b.definition {
      assert Differences(a.definition, b.definition) != {};
    }
  }

  function Fresh(id: Id): Change {
    Change(id, 1, None, Some(id), Added, {})
  }

  /** The initial manifest anchors every node as its own block. */
  function InitialChanges(graph: Graph): seq<Change> {
    seq(|graph|, i requires 0 <= i < |graph| => Fresh(graph[i].id))
  }

  /** The node of `graph` with the given id. */
  function NodeOf(graph: Graph, id: Id): (r: Option<BlockNode>)
    ensures r.Some? ==> r.value in graph && r.value.id == id
    ensures r.None? ==> forall n :: n in graph ==> n.id != id
  {
    if graph == [] then None
    else if graph[|graph| - 1].id == id then Some(graph[|graph| - 1])
    else NodeOf(graph[..|graph| - 1], id)
  }

  /** The entry of the manifest for a node of its revision. */
  function EntryOf(changes: seq<Change>, id: Id): (r: Option<Change>)
    ensures r.Some? ==> r.value in changes && r.value.node == Some(id)
    ensures r.None? ==> forall c :: c in changes ==> c.node != Some(id)
  {
    if changes == [] then None
    else if changes[|changes| - 1].node == Some(id) then Some(changes[|changes| - 1])
    else EntryOf(changes[..|changes| - 1], id)
  }

  function Anchors(previous: Revision): seq<Change> {
    if previous.manifest.Some? then previous.manifest.value else InitialChanges(previous.graph)
  }

  ghost predicate DistinctIds(graph: Graph) {
    forall i, j :: 0 <= i < j < |graph| ==> IdsDiffer(graph, i, j)
  }

  ghost predicate IdsDiffer(graph: Graph, i: int, j: int)
    requires 0 <= i < |graph| && 0 <= j < |graph|
  {
    graph[i].id != graph[j].id
  }

  ghost predicate Covers(changes: seq<Change>, id: Id) {
    EntryOf(changes, id).Some?
  }

  /** A revision whose nodes have different ids and whose manifest has an entry for each. */
  ghost predicate Tracked(r: Revision) {
    DistinctIds(r.graph) && forall n :: n in r.graph ==> Covers(Anchors(r), n.id)
  }

  type Predecessors = map<Id, Id>

  /** The previous node and its block for a new node with a predecessor. */
  function EntryFor(previous: Revision, predecessors: Predecessors, n: BlockNode): (c: Change)
    requires n.id in predecessors ==> Traceable(previous, predecessors[n.id])
  {
    if n.id !in predecessors then Fresh(n.id)
    else
      var old_ := NodeOf(previous.graph, predecessors[n.id]).value;
      var block := EntryOf(Anchors(previous), old_.id).value;
      var fields := ChangedFields(old_, n);
      if old_.id == n.id then Change(block.block, block.version, Some(old_.id), Some(n.id), Unchanged, fields)
      else Change(block.block, block.version + 1, Some(old_.id), Some(n.id), Modified,
                  if fields == {} then {ExecutionIdentity} else fields)
  }

  /** The id belongs to a node of the revision that has an entry. */
  predicate Traceable(previous: Revision, id: Id) {
    NodeOf(previous.graph, id).Some? && EntryOf(Anchors(previous), id).Some?
  }

  function RemovedEntry(block: Change, id: Id): Change {
    Change(block.block, block.version, Some(id), None, Removed, {})
  }

  /** Entries of the old nodes that no new node continues. */
  function Gone(anchors: seq<Change>, graph: Graph, retained: set<Id>): seq<Change>
    requires forall n :: n in graph ==> Covers(anchors, n.id)
  {
    if graph == [] then []
    else
      var last := graph[|graph| - 1];
      assert Covers(anchors, last.id);
      Gone(anchors, graph[..|graph| - 1], retained)
      + if last.id in retained then [] else [RemovedEntry(EntryOf(anchors, last.id).value, last.id)]
  }

  predicate WithinRevisions(previous: Graph, graph: Graph, predecessors: Predecessors) {
    forall id :: id in predecessors ==> NodeOf(graph, id).Some? && NodeOf(previous, predecessors[id]).Some?
  }

  predicate OneSuccessor(predecessors: Predecessors) {
    forall a, b :: a in predecessors && b in predecessors && predecessors[a] == predecessors[b] ==> a == b
  }

  predicate LineageKept(previous: Graph, graph: Graph, predecessors: Predecessors) {
    forall n :: n in graph && NodeOf(previous, n.id).Some? ==> n.id in predecessors && predecessors[n.id] == n.id
  }

  /** A node that keeps its identity keeps its definition and inputs. */
  predicate InPlaceUnchanged(previous: Graph, predecessors: Predecessors, n: BlockNode) {
    n.id in predecessors && predecessors[n.id] == n.id && NodeOf(previous, n.id).Some?
    ==> ChangedFields(NodeOf(previous, n.id).value, n) == {}
  }

  /** The graphs and the predecessor mapping that lineage accepts. */
  ghost predicate Linkable(previous: Graph, graph: Graph, predecessors: Predecessors) {
    && WithinRevisions(previous, graph, predecessors) && OneSuccessor(predecessors)
       && LineageKept(previous, graph, predecessors)
    && forall n :: n in graph ==> InPlaceUnchanged(previous, predecessors, n)
  }

  ghost predicate Continues(previous: Revision, predecessors: Predecessors, n: BlockNode, change: Change) {
    (n.id in predecessors ==> Traceable(previous, predecessors[n.id])) && change == EntryFor(previous, predecessors, n)
  }

  ghost predicate ForwardIs(previous: Revision, graph: Graph, predecessors: Predecessors, changes: seq<Change>) {
    |changes| == |graph| && forall i :: 0 <= i < |graph| ==> Continues(previous, predecessors, graph[i], changes[i])
  }

  /** The manifest of a revision: one entry per new node, then the removed nodes. */
  ghost predicate Manifest(previous: Revision, graph: Graph, predecessors: Predecessors, changes: seq<Change>) {
    && Tracked(previous) && |changes| >= |graph|
    && ForwardIs(previous, graph, predecessors, changes[..|graph|])
    && changes[|graph|..] == Gone(Anchors(previous), previous.graph, predecessors.Values)
  }

  /** What a refusal says about the mapping. */
  ghost predicate Refused(previous: Graph, graph: Graph, predecessors: Predecessors, error: BlockError) {
    match error
    case OutsideRevisions => !WithinRevisions(previous, graph, predecessors)
    case SharedPredecessor => !OneSuccessor(predecessors)
    case LineageDropped => !LineageKept(previous, graph, predecessors)
    case ChangedInPlace => exists n :: n in graph && !InPlaceUnchanged(previous, predecessors, n)
  }

  method Build(previous: Revision, graph: Graph, predecessors: Predecessors)
    returns (r: Result<seq<Change>, BlockError>)
    requires Tracked(previous)
    ensures r.Ok? <==> Linkable(previous.graph, graph, predecessors)
    ensures r.Ok? ==> Manifest(previous, graph, predecessors, r.value)
    ensures r.Err? ==> Refused(previous.graph, graph, predecessors, r.error)
  {
    if !WithinRevisions(previous.graph, graph, predecessors) {
      return Err(OutsideRevisions);
    }
    if !OneSuccessor(predecessors) {
      return Err(SharedPredecessor);
    }
    if !LineageKept(previous.graph, graph, predecessors) {
      return Err(LineageDropped);
    }
    var changes := BuildForward(previous, graph, predecessors);
    if changes.Err? {
      return changes;
    }
    var gone := BuildGone(previous, predecessors.Values);
    assert (changes.value + gone)[..|graph|] == changes.value && (changes.value + gone)[|graph|..] == gone;
    r := Ok(changes.value + gone);
  }

  /** The entries of the new nodes; refused when a changed node kept its identity. */
  method BuildForward(previous: Revision, graph: Graph, predecessors: Predecessors)
    returns (r: Result<seq<Change>, BlockError>)
    requires Tracked(previous) && WithinRevisions(previous.graph, graph, predecessors)
    ensures r.Ok? <==> forall n :: n in graph ==> InPlaceUnchanged(previous.graph, predecessors, n)
    ensures r.Ok? ==> ForwardIs(previous, graph, predecessors, r.value)
    ensures r.Err? ==> r.error == ChangedInPlace
  {
    var changes: seq<Change> := [];
    for i := 0 to |graph|
      invariant ForwardIs(previous, graph[..i], predecessors, changes)
      invariant forall n :: n in graph[..i] ==> InPlaceUnchanged(previous.graph, predecessors, n)
    {
      var n := graph[i];
      assert graph[..i + 1] == graph[..i] + [n];
      if n.id in predecessors {
        PredecessorIsTraceable(previous, graph, predecessors, n.id);
        var before := NodeOf(previous.graph, predecessors[n.id]).value;
        if before.id == n.id && ChangedFields(before, n) != {} {
          assert n in graph && !InPlaceUnchanged(previous.graph, predecessors, n);
          return Err(ChangedInPlace);
        }
      }
      assert Continues(previous, predecessors, n, EntryFor(previous, predecessors, n));
      changes := changes + [EntryFor(previous, predecessors, n)];
    }
    assert graph[..|graph|] == graph;
    r := Ok(changes);
  }

  lemma PredecessorIsTraceable(previous: Revision, graph: Graph, predecessors: Predecessors, id: Id)
    requires Tracked(previous) && WithinRevisions(previous.graph, graph, predecessors) && id in predecessors
    ensures Traceable(previous, predecessors[id])
  {
    assert Covers(Anchors(previous), predecessors[id]);
  }

  /** The entries of the old nodes that nothing continues. */
  method BuildGone(previous: Revision, retained: set<Id>) returns (gone: seq<Change>)
    requires Tracked(previous)
    ensures gone == Gone(Anchors(previous), previous.graph, retained)
  {
    var anchors := Anchors(previous);
    gone := [];
    for i := 0 to |previous.graph|
      invariant gone == Gone(anchors, previous.graph[..i], retained)
    {
      var n := previous.graph[i];
      assert previous.graph[..i + 1][..i] == previous.graph[..i];
      assert Covers(anchors, n.id);
      if n.id !in retained {
        gone := gone + [RemovedEntry(EntryOf(anchors, n.id).value, n.id)];
      }
    }
    assert previous.graph[..|previous.graph|] == previous.graph;
  }

  // ---- Every node exactly once

  ghost predicate NodeEntry(changes: seq<Change>, id: Id, i: int) {
    0 <= i < |changes| && changes[i].node == Some(id)
  }

  ghost predicate PreviousEntry(changes: seq<Change>, id: Id, i: int) {
    0 <= i < |changes| && changes[i].previous == Some(id)
  }

  lemma {:induction false} GoneAre(anchors: seq<Change>, graph: Graph, retained: set<Id>)
    requires forall n :: n in graph ==> Covers(anchors, n.id)
    ensures forall c :: c in Gone(anchors, graph, retained) ==> c.node.None? && c.previous.Some?
                                                                && c.previous.value !in retained
    ensures forall n :: n in graph && n.id !in retained ==> exists i ::
              PreviousEntry(Gone(anchors, graph, retained), n.id, i)
    ensures forall c :: c in Gone(anchors, graph, retained) ==> NodeOf(graph, c.previous.value).Some?
    decreases |graph|
  {
    if graph != [] {
      var front, last := graph[..|graph| - 1], graph[|graph| - 1];
      assert graph == front + [last];
      GoneAre(anchors, front, retained);
      var before, all := Gone(anchors, front, retained), Gone(anchors, graph, retained);
      forall n | n in graph && n.id !in retained ensures exists i :: PreviousEntry(all, n.id, i) {
        if n in front {
          var i :| PreviousEntry(before, n.id, i);
          assert PreviousEntry(all, n.id, i);
        } else {
          assert PreviousEntry(all, n.id, |before|);
        }
      }
    }
  }

  lemma {:induction false} GoneOnce(anchors: seq<Change>, graph: Graph, retained: set<Id>, i: int, j: int)
    requires DistinctIds(graph) && forall n :: n in graph ==> Covers(anchors, n.id)
    requires 0 <= i < j < |Gone(anchors, graph, retained)|
    ensures Gone(anchors, graph, retained)[i].previous != Gone(anchors, graph, retained)[j].previous
    decreases |graph|
  {
    var front, last := graph[..|graph| - 1], graph[|graph| - 1];
    var before := Gone(anchors, front, retained);
    forall a, b | 0 <= a < b < |front| ensures IdsDiffer(front, a, b) {
      assert IdsDiffer(graph, a, b);
    }
    if j < |before| {
      GoneOnce(anchors, front, retained, i, j);
    } else {
      GoneAre(anchors, front, retained);
      assert before[i] in before;
      var n := NodeOf(front, before[i].previous.value).value;
      var a :| 0 <= a < |front| && front[a] == n;
      assert IdsDiffer(graph, a, |graph| - 1);
    }
  }

  /** An entry of the manifest is about a new node, or about an old node that nothing continues. */
  lemma EntryAt(previous: Revision, graph: Graph, predecessors: Predecessors, changes: seq<Change>, i: int)
    requires Manifest(previous, graph, predecessors, changes) && 0 <= i < |changes|
    ensures i < |graph| ==> Continues(previous, predecessors, graph[i], changes[i])
    ensures i >= |graph| ==> changes[i] == Gone(Anchors(previous), previous.graph, predecessors.Values)[i - |graph|]
    ensures i >= |graph| ==> changes[i].node.None? && changes[i].previous.Some?
                             && changes[i].previous.value !in predecessors.Values
  {
    if i < |graph| {
      assert changes[i] == changes[..|graph|][i];
    } else {
      GoneAre(Anchors(previous), previous.graph, predecessors.Values);
      assert changes[i] == changes[|graph|..][i - |graph|];
    }
  }

  /** Every new node has exactly one entry. */
  lemma NewNodeOnce(previous: Revision, graph: Graph, predecessors: Predecessors, changes: seq<Change>, i: int)
    requires Manifest(previous, graph, predecessors, changes) && DistinctIds(graph) && 0 <= i < |graph|
    ensures NodeEntry(changes, graph[i].id, i) && forall j :: NodeEntry(changes, graph[i].id, j) ==> j == i
  {
    EntryAt(previous, graph, predecessors, changes, i);
    forall j | NodeEntry(changes, graph[i].id, j) ensures j == i {
      EntryAt(previous, graph, predecessors, changes, j);
      assert i < j < |graph| ==> IdsDiffer(graph, i, j);
      assert j < i ==> IdsDiffer(graph, j, i);
    }
  }

  /** Every old node has exactly one entry: of the node that continues it, or as removed. */
  lemma OldNodeOnce(previous: Revision, graph: Graph, predecessors: Predecessors, changes: seq<Change>, o: BlockNode)
    returns (i: int)
    requires Manifest(previous, graph, predecessors, changes) && Linkable(previous.graph, graph, predecessors)
    requires DistinctIds(graph) && o in previous.graph
    ensures PreviousEntry(changes, o.id, i) && forall j :: PreviousEntry(changes, o.id, j) ==> j == i
    ensures changes[i].kind.Removed? <==> o.id !in predecessors.Values
  {
    i := OldEntry(previous, graph, predecessors, changes, o);
    forall j | PreviousEntry(changes, o.id, j) ensures j == i {
      if i < j {
        PreviousOnce(previous, graph, predecessors, changes, i, j);
      } else if j < i {
        PreviousOnce(previous, graph, predecessors, changes, j, i);
      }
    }
  }

  lemma OldEntry(previous: Revision, graph: Graph, predecessors: Predecessors, changes: seq<Change>, o: BlockNode)
    returns (i: int)
    requires Manifest(previous, graph, predecessors, changes) && WithinRevisions(previous.graph, graph, predecessors)
    requires o in previous.graph
    ensures PreviousEntry(changes, o.id, i)
    ensures changes[i].kind.Removed? <==> o.id !in predecessors.Values
  {
    if o.id in predecessors.Values {
      var id :| id in predecessors && predecessors[id] == o.id;
      assert NodeOf(graph, id).Some?;
      i :| 0 <= i < |graph| && graph[i] == NodeOf(graph, id).value;
      EntryAt(previous, graph, predecessors, changes, i);
    } else {
      GoneAre(Anchors(previous), previous.graph, predecessors.Values);
      var k :| PreviousEntry(Gone(Anchors(previous), previous.graph, predecessors.Values), o.id, k);
      i := |graph| + k;
      assert changes[|graph|..][k] == changes[i];
      GoneKind(Anchors(previous), previous.graph, predecessors.Values, k);
    }
  }

  lemma {:induction false} GoneKind(anchors: seq<Change>, graph: Graph, retained: set<Id>, k: int)
    requires forall n :: n in graph ==> Covers(anchors, n.id)
    requires 0 <= k < |Gone(anchors, graph, retained)|
    ensures Gone(anchors, graph, retained)[k].kind.Removed?
    decreases |graph|
  {
    var front := graph[..|graph| - 1];
    if k < |Gone(anchors, front, retained)| {
      GoneKind(anchors, front, retained, k);
    }
  }

  lemma PreviousOnce(previous: Revision, graph: Graph, predecessors: Predecessors, changes: seq<Change>, i: int, j: int)
    requires Manifest(previous, graph, predecessors, changes) && OneSuccessor(predecessors) && DistinctIds(graph)
    requires 0 <= i < j < |changes| && changes[i].previous.Some?
    ensures changes[i].previous != changes[j].previous
  {
    EntryAt(previous, graph, predecessors, changes, i);
    EntryAt(previous, graph, predecessors, changes, j);
    if j < |graph| {
      assert IdsDiffer(graph, i, j);
    } else if i >= |graph| {
      GoneOnce(Anchors(previous), previous.graph, predecessors.Values, i - |graph|, j - |graph|);
    }
  }

  // ---- Blocks

  ghost predicate BlocksDiffer(changes: seq<Change>, i: int, j: int)
    requires 0 <= i < |changes| && 0 <= j < |changes|
  {
    changes[i].node.Some? && changes[j].node.Some? ==> changes[i].block != changes[j].block
  }

  /** No two live nodes belong to the same block. */
  ghost predicate LiveBlocksDistinct(changes: seq<Change>) {
    forall i, j :: 0 <= i < j < |changes| ==> BlocksDiffer(changes, i, j)
  }

  /** Some new node without a predecessor has the identity of a block that is carried on. */
  ghost predicate ReusesBlock(graph: Graph, predecessors: Predecessors, changes: seq<Change>) {
    exists i, j :: Reuses(graph, predecessors, changes, i, j)
  }

  ghost predicate Reuses(graph: Graph, predecessors: Predecessors, changes: seq<Change>, i: int, j: int) {
    && 0 <= i < |graph| && 0 <= j < |graph| && |graph| <= |changes|
    && graph[i].id !in predecessors && graph[j].id in predecessors && changes[j].block == graph[i].id
  }

  /** Live blocks stay distinct exactly when no added node takes over the identity of a carried block. */
  lemma LiveBlocksExactly(previous: Revision, graph: Graph, predecessors: Predecessors, changes: seq<Change>)
    requires Manifest(previous, graph, predecessors, changes) && OneSuccessor(predecessors) && DistinctIds(graph)
    requires LiveBlocksDistinct(Anchors(previous))
    ensures LiveBlocksDistinct(changes) <==> !ReusesBlock(graph, predecessors, changes)
  {
    if ReusesBlock(graph, predecessors, changes) {
      var i, j :| Reuses(graph, predecessors, changes, i, j);
      ReuseCollides(previous, graph, predecessors, changes, i, j);
    } else {
      forall i, j | 0 <= i < j < |changes| ensures BlocksDiffer(changes, i, j) {
        EntryAt(previous, graph, predecessors, changes, j);
        if j < |graph| {
          EntryAt(previous, graph, predecessors, changes, i);
          LivePair(previous, graph, predecessors, changes, i, j);
        }
      }
    }
  }

  lemma ReuseCollides(previous: Revision, graph: Graph, predecessors: Predecessors, changes: seq<Change>, i: int,
                      j: int)
    requires Manifest(previous, graph, predecessors, changes) && Reuses(graph, predecessors, changes, i, j)
    ensures !LiveBlocksDistinct(changes)
  {
    EntryAt(previous, graph, predecessors, changes, i);
    EntryAt(previous, graph, predecessors, changes, j);
    assert !BlocksDiffer(changes, if i < j then i else j, if i < j then j else i);
  }

  lemma LivePair(previous: Revision, graph: Graph, predecessors: Predecessors, changes: seq<Change>, i: int, j: int)
    requires 0 <= i < j < |graph| <= |changes| && OneSuccessor(predecessors) && DistinctIds(graph)
    requires Continues(previous, predecessors, graph[i], changes[i])
             && Continues(previous, predecessors, graph[j], changes[j])
    requires LiveBlocksDistinct(Anchors(previous)) && !ReusesBlock(graph, predecessors, changes)
    ensures BlocksDiffer(changes, i, j)
  {
    assert IdsDiffer(graph, i, j);
    assert !Reuses(graph, predecessors, changes, i, j) && !Reuses(graph, predecessors, changes, j, i);
    if graph[i].id in predecessors && graph[j].id in predecessors {
      var a, b := EntryOf(Anchors(previous), predecessors[graph[i].id]).value,
        EntryOf(Anchors(previous), predecessors[graph[j].id]).value;
      assert predecessors[graph[i].id] != predecessors[graph[j].id];
      DifferentEntries(Anchors(previous), a, b);
    }
  }

  lemma DifferentEntries(changes: seq<Change>, a: Change, b: Change)
    requires LiveBlocksDistinct(changes) && a in changes && b in changes && a.node.Some? && b.node.Some?
             && a.node != b.node
    ensures a.block != b.block
  {
    var i :| 0 <= i < |changes| && changes[i] == a;
    var j :| 0 <= j < |changes| && changes[j] == b;
    assert i < j ==> BlocksDiffer(changes, i, j);
    assert j < i ==> BlocksDiffer(changes, j, i);
  }

  // ---- Entries are well formed, and versions rise by one

  /** What the constructor of a change checks. */
  ghost predicate ChangeOk(c: Change) {
    && c.version >= 1
    && (match c.kind
        case Added => c.previous.None? && c.node == Some(c.block) && c.version == 1
        case Removed => c.previous.Some? && c.node.None?
        case Unchanged => c.previous.Some? && c.previous == c.node
        case Modified => c.previous.Some? && c.node.Some? && c.previous != c.node)
    && (c.fields != {} <==> c.kind.Modified?)
  }

  /** No entry of a built manifest can be refused by its constructor. */
  lemma EntriesAreOk(previous: Revision, graph: Graph, predecessors: Predecessors, changes: seq<Change>, i: int)
    requires Manifest(previous, graph, predecessors, changes) && Linkable(previous.graph, graph, predecessors)
    requires forall c :: c in Anchors(previous) ==> c.version >= 1
    requires 0 <= i < |changes|
    ensures ChangeOk(changes[i])
  {
    EntryAt(previous, graph, predecessors, changes, i);
    if i < |graph| {
      assert InPlaceUnchanged(previous.graph, predecessors, graph[i]);
    } else {
      GoneOk(Anchors(previous), previous.graph, predecessors.Values, i - |graph|);
    }
  }

  lemma {:induction false} GoneOk(anchors: seq<Change>, graph: Graph, retained: set<Id>, k: int)
    requires forall n :: n in graph ==> Covers(anchors, n.id)
    requires forall c :: c in anchors ==> c.version >= 1
    requires 0 <= k < |Gone(anchors, graph, retained)|
    ensures ChangeOk(Gone(anchors, graph, retained)[k])
    decreases |graph|
  {
    var front := graph[..|graph| - 1];
    if k < |Gone(anchors, front, retained)| {
      GoneOk(anchors, front, retained, k);
    }
  }

  /** A continued node stays in its block; its version rises by exactly one when it gets a new
      identity, and otherwise neither its version, its definition nor its inputs change. */
  lemma VersionLaw(previous: Revision, graph: Graph, predecessors: Predecessors, changes: seq<Change>, i: int)
    requires Manifest(previous, graph, predecessors, changes) && Linkable(previous.graph, graph, predecessors)
    requires 0 <= i < |graph| && graph[i].id in predecessors
    ensures exists a, o ::
              && a in Anchors(previous) && o in previous.graph && a.node == Some(o.id)
                 && changes[i].previous == Some(o.id)
              && changes[i].block == a.block
              && changes[i].version == a.version + (if o.id == graph[i].id then 0 else 1)
              && (o.id == graph[i].id ==> o.definition == graph[i].definition && o.scope == graph[i].scope)
  {
    EntryAt(previous, graph, predecessors, changes, i);
    var o := NodeOf(previous.graph, predecessors[graph[i].id]).value;
    var a := EntryOf(Anchors(previous), o.id).value;
    NothingChanged(o, graph[i]);
    assert InPlaceUnchanged(previous.graph, predecessors, graph[i]);
    assert a in Anchors(previous) && o in previous.graph;
  }

  // ---- What the constructor of a revision checks

  ghost predicate EntriesApart(changes: seq<Change>, i: int, j: int)
    requires 0 <= i < |changes| && 0 <= j < |changes|
  {
    && changes[i].block != changes[j].block
    && (changes[i].node.Some? ==> changes[i].node != changes[j].node)
    && (changes[i].previous.Some? ==> changes[i].previous != changes[j].previous)
  }

  /** Blocks, nodes and previous nodes are listed once over the whole manifest, removed entries included. */
  ghost predicate ListedOnce(changes: seq<Change>) {
    forall i, j :: 0 <= i < j < |changes| ==> EntriesApart(changes, i, j)
  }

  /** The manifest is about exactly the nodes of the graph. */
  ghost predicate AboutNodes(graph: Graph, changes: seq<Change>) {
    forall id :: HasEntry(changes, id) <==> HasId(graph, id)
  }

  ghost predicate HasEntry(changes: seq<Change>, id: Id) {
    exists i :: NodeEntry(changes, id, i)
  }

  ghost predicate HasId(graph: Graph, id: Id) {
    exists n :: n in graph && n.id == id
  }

  ghost predicate RevisionOk(r: Revision, baseline: bool) {
    r.manifest.Some? ==>
      && ListedOnce(r.manifest.value) && AboutNodes(r.graph, r.manifest.value)
      && (forall c :: c in r.manifest.value ==> ChangeOk(c))
      && (baseline ==> forall c :: c in r.manifest.value ==> c.kind.Added?)
  }

  /** Some new node without a predecessor has the identity of the block of an old node. */
  ghost predicate TakesBlock(previous: Revision, graph: Graph, predecessors: Predecessors) {
    exists n, o :: Takes(previous, graph, predecessors, n, o)
  }

  ghost predicate Takes(previous: Revision, graph: Graph, predecessors: Predecessors, n: BlockNode, o: BlockNode) {
    n in graph && n.id !in predecessors && o in previous.graph && HasBlock(Anchors(previous), o.id, n.id)
  }

  ghost predicate HasBlock(anchors: seq<Change>, id: Id, block: Id) {
    EntryOf(anchors, id).Some? && EntryOf(anchors, id).value.block == block
  }

  /** An entry with a previous node carries the block of that node, a removed one included. */
  lemma CarriesBlock(previous: Revision, graph: Graph, predecessors: Predecessors, changes: seq<Change>, i: int)
    returns (o: BlockNode)
    requires Manifest(previous, graph, predecessors, changes) && 0 <= i < |changes| && changes[i].previous.Some?
    ensures o in previous.graph && changes[i].previous == Some(o.id)
            && HasBlock(Anchors(previous), o.id, changes[i].block)
  {
    EntryAt(previous, graph, predecessors, changes, i);
    if i < |graph| {
      o := NodeOf(previous.graph, predecessors[graph[i].id]).value;
    } else {
      o := GoneCarries(Anchors(previous), previous.graph, predecessors.Values, i - |graph|);
    }
  }

  lemma {:induction false} GoneCarries(anchors: seq<Change>, graph: Graph, retained: set<Id>, k: int)
    returns (o: BlockNode)
    requires forall n :: n in graph ==> Covers(anchors, n.id)
    requires 0 <= k < |Gone(anchors, graph, retained)|
    ensures o in graph && Gone(anchors, graph, retained)[k].previous == Some(o.id)
    ensures HasBlock(anchors, o.id, Gone(anchors, graph, retained)[k].block)
    decreases |graph|
  {
    var front := graph[..|graph| - 1];
    if k < |Gone(anchors, front, retained)| {
      o := GoneCarries(anchors, front, retained, k);
    } else {
      o := graph[|graph| - 1];
    }
  }

  /** An entry without a previous node is that of an added node, as its own block. */
  lemma AddedBlock(previous: Revision, graph: Graph, predecessors: Predecessors, changes: seq<Change>, i: int)
    requires Manifest(previous, graph, predecessors, changes) && 0 <= i < |changes| && changes[i].previous.None?
    ensures i < |graph| && graph[i].id !in predecessors && changes[i] == Fresh(graph[i].id)
  {
    EntryAt(previous, graph, predecessors, changes, i);
  }

  lemma EntriesStayApart(previous: Revision, graph: Graph, predecessors: Predecessors, changes: seq<Change>, i: int,
                         j: int)
    requires Manifest(previous, graph, predecessors, changes) && OneSuccessor(predecessors) && DistinctIds(graph)
    requires LiveBlocksDistinct(Anchors(previous)) && !TakesBlock(previous, graph, predecessors)
    requires 0 <= i < j < |changes|
    ensures EntriesApart(changes, i, j)
  {
    ManifestNodesDiffer(previous, graph, predecessors, changes);
    assert NodesDiffer(changes, i, j);
    if changes[i].previous.Some? {
      PreviousOnce(previous, graph, predecessors, changes, i, j);
    }
    BlocksApart(previous, graph, predecessors, changes, i, j);
  }

  lemma BlocksApart(previous: Revision, graph: Graph, predecessors: Predecessors, changes: seq<Change>, i: int, j: int)
    requires Manifest(previous, graph, predecessors, changes) && DistinctIds(graph)
    requires LiveBlocksDistinct(Anchors(previous)) && !TakesBlock(previous, graph, predecessors)
    requires 0 <= i < j < |changes| && (changes[i].previous.Some? ==> changes[i].previous != changes[j].previous)
    ensures changes[i].block != changes[j].block
  {
    if changes[i].previous.None? && changes[j].previous.None? {
      AddedBlock(previous, graph, predecessors, changes, i);
      AddedBlock(previous, graph, predecessors, changes, j);
      assert IdsDiffer(graph, i, j);
    } else if changes[i].previous.Some? && changes[j].previous.Some? {
      var o := CarriesBlock(previous, graph, predecessors, changes, i);
      var p := CarriesBlock(previous, graph, predecessors, changes, j);
      DifferentEntries(Anchors(previous), EntryOf(Anchors(previous), o.id).value,
                       EntryOf(Anchors(previous), p.id).value);
    } else {
      AddedIsNew(previous, graph, predecessors, changes, if changes[i].previous.None? then i else j,
                 if changes[i].previous.None? then j else i);
    }
  }

  lemma AddedIsNew(previous: Revision, graph: Graph, predecessors: Predecessors, changes: seq<Change>, i: int, j: int)
    requires Manifest(previous, graph, predecessors, changes) && !TakesBlock(previous, graph, predecessors)
    requires 0 <= i < |changes| && 0 <= j < |changes| && changes[i].previous.None? && changes[j].previous.Some?
    ensures changes[i].block != changes[j].block
  {
    AddedBlock(previous, graph, predecessors, changes, i);
    var o := CarriesBlock(previous, graph, predecessors, changes, j);
    assert !Takes(previous, graph, predecessors, graph[i], o);
  }

  /** A built manifest lists blocks, nodes and previous nodes once, as the constructor of the revision
      demands, exactly when no added node takes over the identity of the block of an old node. */
  lemma ListedOnceExactly(previous: Revision, graph: Graph, predecessors: Predecessors, changes: seq<Change>)
    requires Manifest(previous, graph, predecessors, changes) && Linkable(previous.graph, graph, predecessors)
             && DistinctIds(graph)
    requires LiveBlocksDistinct(Anchors(previous))
    ensures ListedOnce(changes) <==> !TakesBlock(previous, graph, predecessors)
  {
    if TakesBlock(previous, graph, predecessors) {
      var n, o :| Takes(previous, graph, predecessors, n, o);
      TakenBlockCollides(previous, graph, predecessors, changes, n, o);
    } else {
      forall i, j | 0 <= i < j < |changes| ensures EntriesApart(changes, i, j) {
        EntriesStayApart(previous, graph, predecessors, changes, i, j);
      }
    }
  }

  lemma TakenBlockCollides(previous: Revision, graph: Graph, predecessors: Predecessors, changes: seq<Change>,
                           n: BlockNode, o: BlockNode)
    requires Manifest(previous, graph, predecessors, changes) && Linkable(previous.graph, graph, predecessors)
    requires Takes(previous, graph, predecessors, n, o)
    ensures !ListedOnce(changes)
  {
    var i :| 0 <= i < |graph| && graph[i] == n;
    EntryAt(previous, graph, predecessors, changes, i);
    var j := OldEntry(previous, graph, predecessors, changes, o);
    var carried := CarriesBlock(previous, graph, predecessors, changes, j);
    assert !EntriesApart(changes, if i < j then i else j, if i < j then j else i);
  }

  lemma ManifestIsAboutNodes(previous: Revision, graph: Graph, predecessors: Predecessors, changes: seq<Change>)
    requires Manifest(previous, graph, predecessors, changes)
    ensures AboutNodes(graph, changes)
  {
    forall id ensures HasEntry(changes, id) <==> HasId(graph, id) {
      if i :| NodeEntry(changes, id, i) {
        EntryAt(previous, graph, predecessors, changes, i);
        assert graph[i] in graph;
      }
      if n :| n in graph && n.id == id {
        var i :| 0 <= i < |graph| && graph[i] == n;
        EntryAt(previous, graph, predecessors, changes, i);
        assert NodeEntry(changes, id, i);
      }
    }
  }

  // ---- Validation of a persisted manifest

  /** The mapping a manifest records; the last entry of a node wins. */
  function Recorded(changes: seq<Change>): Predecessors {
    if changes == [] then map[]
    else
      var last, before := changes[|changes| - 1], Recorded(changes[..|changes| - 1]);
      if last.node.Some? && last.previous.Some? then before[last.node.value := last.previous.value] else before
  }

  ghost predicate Maps(predecessors: Predecessors, n: Id, p: Id) {
    n in predecessors && predecessors[n] == p
  }

  ghost predicate Records(changes: seq<Change>, i: int, n: Id, p: Id) {
    0 <= i < |changes| && changes[i].node == Some(n) && changes[i].previous == Some(p)
  }

  ghost predicate NodesDiffer(changes: seq<Change>, i: int, j: int)
    requires 0 <= i < |changes| && 0 <= j < |changes|
  {
    changes[i].node.Some? && changes[j].node.Some? ==> changes[i].node != changes[j].node
  }

  lemma {:induction false} RecordedAre(changes: seq<Change>, n: Id, p: Id)
    requires forall i, j :: 0 <= i < j < |changes| ==> NodesDiffer(changes, i, j)
    ensures Maps(Recorded(changes), n, p) <==> exists i :: Records(changes, i, n, p)
    decreases |changes|
  {
    if changes != [] {
      var front, k := changes[..|changes| - 1], |changes| - 1;
      forall i, j | 0 <= i < j < k ensures NodesDiffer(front, i, j) {
        assert NodesDiffer(changes, i, j);
      }
      RecordedAre(front, n, p);
      forall i | 0 <= i < k ensures Records(changes, i, n, p) <==> Records(front, i, n, p) {
      }
      forall i | Records(front, i, n, p) ensures changes[k].node != Some(n) {
        assert NodesDiffer(changes, i, k);
      }
      if Records(changes, k, n, p) {
        assert Maps(Recorded(changes), n, p);
      } else if Maps(Recorded(changes), n, p) {
        assert Maps(Recorded(front), n, p);
        var i :| Records(front, i, n, p);
        assert Records(changes, i, n, p);
      }
    }
  }

  lemma ManifestRecords(previous: Revision, graph: Graph, predecessors: Predecessors, changes: seq<Change>, n: Id,
                        p: Id)
    requires Manifest(previous, graph, predecessors, changes) && WithinRevisions(previous.graph, graph, predecessors)
    ensures Maps(predecessors, n, p) <==> exists i :: Records(changes, i, n, p)
  {
    if Maps(predecessors, n, p) {
      assert NodeOf(graph, n).Some?;
      var i :| 0 <= i < |graph| && graph[i] == NodeOf(graph, n).value;
      EntryAt(previous, graph, predecessors, changes, i);
      assert Records(changes, i, n, p);
    }
    forall i | Records(changes, i, n, p) ensures Maps(predecessors, n, p) {
      EntryAt(previous, graph, predecessors, changes, i);
    }
  }

  /** A manifest records the predecessors it was built from. */
  lemma BuiltRecords(previous: Revision, graph: Graph, predecessors: Predecessors, changes: seq<Change>)
    requires Manifest(previous, graph, predecessors, changes) && WithinRevisions(previous.graph, graph, predecessors)
             && DistinctIds(graph)
    ensures Recorded(changes) == predecessors
  {
    ManifestNodesDiffer(previous, graph, predecessors, changes);
    var recorded := Recorded(changes);
    forall n, p ensures Maps(recorded, n, p) <==> Maps(predecessors, n, p) {
      RecordedAre(changes, n, p);
      ManifestRecords(previous, graph, predecessors, changes, n, p);
    }
    SameMap(recorded, predecessors);
  }

  lemma ManifestNodesDiffer(previous: Revision, graph: Graph, predecessors: Predecessors, changes: seq<Change>)
    requires Manifest(previous, graph, predecessors, changes) && DistinctIds(graph)
    ensures forall i, j :: 0 <= i < j < |changes| ==> NodesDiffer(changes, i, j)
  {
    forall i, j | 0 <= i < j < |changes| ensures NodesDiffer(changes, i, j) {
      EntryAt(previous, graph, predecessors, changes, i);
      EntryAt(previous, graph, predecessors, changes, j);
      assert j < |graph| ==> IdsDiffer(graph, i, j);
    }
  }

  lemma SameMap(a: Predecessors, b: Predecessors)
    requires forall n, p :: Maps(a, n, p) <==> Maps(b, n, p)
    ensures a == b
  {
    forall n ensures n in a <==> n in b {
      assert n in a ==> Maps(a, n, a[n]);
      assert n in b ==> Maps(b, n, b[n]);
    }
    forall n | n in a ensures a[n] == b[n] {
      assert Maps(a, n, a[n]);
    }
  }

  /** The manifest is built from the predecessors it records. */
  ghost predicate ManifestOk(previous: Revision, graph: Graph, changes: seq<Change>) {
    Linkable(previous.graph, graph, Recorded(changes)) && Manifest(previous, graph, Recorded(changes), changes)
  }

  /** Accepts a revision without a manifest, and one whose manifest is what its own recorded
      predecessors build. */
  method Validate(previous: Revision, proposed: Revision) returns (ok: bool)
    requires Tracked(previous)
    ensures ok <==> proposed.manifest.None? || ManifestOk(previous, proposed.graph, proposed.manifest.value)
  {
    if proposed.manifest.None? {
      return true;
    }
    var changes := proposed.manifest.value;
    var built := Build(previous, proposed.graph, Recorded(changes));
    ok := built.Ok? && built.value == changes;
    if built.Ok? {
      OneManifest(previous, proposed.graph, Recorded(changes), built.value, changes);
    }
  }

  lemma OneManifest(previous: Revision, graph: Graph, predecessors: Predecessors, a: seq<Change>, b: seq<Change>)
    requires Manifest(previous, graph, predecessors, a)
    ensures Manifest(previous, graph, predecessors, b) <==> a == b
  {
    if Manifest(previous, graph, predecessors, b) {
      assert a == a[..|graph|] + a[|graph|..] && b == b[..|graph|] + b[|graph|..];
      forall i | 0 <= i < |graph| ensures a[..|graph|][i] == b[..|graph|][i] {
        assert Continues(previous, predecessors, graph[i], a[..|graph|][i])
               && Continues(previous, predecessors, graph[i], b[..|graph|][i]);
      }
    }
  }

  /** Validation accepts exactly what building produces. */
  lemma BuiltIsAccepted(previous: Revision, graph: Graph, predecessors: Predecessors, changes: seq<Change>)
    requires DistinctIds(graph) && Linkable(previous.graph, graph, predecessors)
             && Manifest(previous, graph, predecessors, changes)
    ensures ManifestOk(previous, graph, changes)
  {
    BuiltRecords(previous, graph, predecessors, changes);
  }

  // ---- Chains of revisions

  ghost function IdsOf(graph: Graph): set<Id> {
    set n | n in graph :: n.id
  }

  /** All node identities up to revision `k`. */
  ghost function Used(revisions: seq<Revision>, k: nat): set<Id>
    requires k < |revisions|
  {
    IdsOf(revisions[k].graph) + if k == 0 then {} else Used(revisions, k - 1)
  }

  /** `next` follows the revision before it, and its added nodes have identities never used before;
      a revision without a manifest is accepted as it is. */
  ghost predicate Follows(previous: Revision, next: Revision, used: set<Id>) {
    && DistinctIds(next.graph)
    && (next.manifest.Some? ==> exists predecessors :: Linked(previous, next, used, predecessors))
  }

  ghost predicate Linked(previous: Revision, next: Revision, used: set<Id>, predecessors: Predecessors)
    requires next.manifest.Some?
  {
    && Linkable(previous.graph, next.graph, predecessors)
       && Manifest(previous, next.graph, predecessors, next.manifest.value)
    && forall n :: n in next.graph && n.id !in predecessors ==> n.id !in used
  }

  /** A baseline is stored with the initial manifest, or with none when it is from before lineage. */
  ghost predicate Baseline(r: Revision) {
    DistinctIds(r.graph) && (r.manifest.None? || r.manifest == Some(InitialChanges(r.graph)))
  }

  /** A chain starts at a baseline. */
  ghost predicate Chain(revisions: seq<Revision>) {
    && |revisions| > 0 && Baseline(revisions[0])
    && forall k :: 0 < k < |revisions| ==> Follows(revisions[k - 1], revisions[k], Used(revisions, k - 1))
  }

  ghost predicate BlocksWithin(changes: seq<Change>, used: set<Id>) {
    forall c :: c in changes && c.node.Some? ==> c.block in used
  }

  ghost predicate Versioned(changes: seq<Change>) {
    forall c :: c in changes ==> c.version >= 1
  }

  /** Every node has an entry, no two live nodes share a block, and blocks are identities used so far. */
  ghost predicate Traced(r: Revision, used: set<Id>) {
    Tracked(r) && LiveBlocksDistinct(Anchors(r)) && BlocksWithin(Anchors(r), used) && Versioned(Anchors(r))
  }

  lemma CarriedBlocksUsed(previous: Revision, graph: Graph, used: set<Id>, predecessors: Predecessors,
                          changes: seq<Change>, j: int)
    requires Manifest(previous, graph, predecessors, changes) && BlocksWithin(Anchors(previous), used)
    requires 0 <= j < |graph| && graph[j].id in predecessors
    ensures changes[j].block in used
  {
    EntryAt(previous, graph, predecessors, changes, j);
    assert EntryOf(Anchors(previous), predecessors[graph[j].id]).value in Anchors(previous);
  }

  lemma NothingReused(previous: Revision, graph: Graph, used: set<Id>, predecessors: Predecessors, changes: seq<Change>)
    requires Manifest(previous, graph, predecessors, changes) && BlocksWithin(Anchors(previous), used)
    requires forall n :: n in graph && n.id !in predecessors ==> n.id !in used
    ensures !ReusesBlock(graph, predecessors, changes)
    ensures BlocksWithin(changes, used + IdsOf(graph))
  {
    forall i, j | 0 <= i < |graph| && 0 <= j < |graph| && graph[i].id !in predecessors && graph[j].id in predecessors
      ensures changes[j].block != graph[i].id
    {
      CarriedBlocksUsed(previous, graph, used, predecessors, changes, j);
      assert graph[i] in graph;
    }
    forall c | c in changes && c.node.Some? ensures c.block in used + IdsOf(graph) {
      var i :| 0 <= i < |changes| && changes[i] == c;
      EntryAt(previous, graph, predecessors, changes, i);
      if graph[i].id in predecessors {
        CarriedBlocksUsed(previous, graph, used, predecessors, changes, i);
      }
    }
  }

  lemma EveryNodeCovered(previous: Revision, graph: Graph, predecessors: Predecessors, changes: seq<Change>)
    requires Manifest(previous, graph, predecessors, changes) && DistinctIds(graph)
    ensures forall n :: n in graph ==> Covers(changes, n.id)
  {
    forall n | n in graph ensures Covers(changes, n.id) {
      var i :| 0 <= i < |graph| && graph[i] == n;
      NewNodeOnce(previous, graph, predecessors, changes, i);
      assert changes[i] in changes;
    }
  }

  lemma NothingTaken(previous: Revision, graph: Graph, used: set<Id>, predecessors: Predecessors)
    requires BlocksWithin(Anchors(previous), used)
    requires forall n :: n in graph && n.id !in predecessors ==> n.id !in used
    ensures !TakesBlock(previous, graph, predecessors)
  {
    forall o: BlockNode | EntryOf(Anchors(previous), o.id).Some?
      ensures EntryOf(Anchors(previous), o.id).value.block in used
    {
      assert EntryOf(Anchors(previous), o.id).value in Anchors(previous);
    }
  }

  lemma AllEntriesOk(previous: Revision, graph: Graph, predecessors: Predecessors, changes: seq<Change>)
    requires Manifest(previous, graph, predecessors, changes) && Linkable(previous.graph, graph, predecessors)
    requires Versioned(Anchors(previous))
    ensures Versioned(changes) && forall c :: c in changes ==> ChangeOk(c)
  {
    forall c | c in changes ensures ChangeOk(c) {
      var i :| 0 <= i < |changes| && changes[i] == c;
      EntriesAreOk(previous, graph, predecessors, changes, i);
    }
  }

  /** One step keeps the revision tracked, its live blocks distinct, and its blocks among the used
      identities; the constructor accepts the revision. */
  lemma StepKeepsLineage(previous: Revision, next: Revision, used: set<Id>, predecessors: Predecessors)
    requires next.manifest.Some? && DistinctIds(next.graph) && Linked(previous, next, used, predecessors)
    requires Traced(previous, used)
    ensures Traced(next, used + IdsOf(next.graph)) && RevisionOk(next, false)
  {
    var changes := next.manifest.value;
    NothingReused(previous, next.graph, used, predecessors, changes);
    LiveBlocksExactly(previous, next.graph, predecessors, changes);
    EveryNodeCovered(previous, next.graph, predecessors, changes);
    AllEntriesOk(previous, next.graph, predecessors, changes);
    NothingTaken(previous, next.graph, used, predecessors);
    ListedOnceExactly(previous, next.graph, predecessors, changes);
    ManifestIsAboutNodes(previous, next.graph, predecessors, changes);
  }

  lemma {:induction false} InitialIs(graph: Graph)
    requires DistinctIds(graph)
    ensures LiveBlocksDistinct(InitialChanges(graph)) && BlocksWithin(InitialChanges(graph), IdsOf(graph))
    ensures Versioned(InitialChanges(graph)) && forall n :: n in graph ==> Covers(InitialChanges(graph), n.id)
  {
    var changes := InitialChanges(graph);
    forall i, j | 0 <= i < j < |changes| ensures BlocksDiffer(changes, i, j) {
      assert IdsDiffer(graph, i, j);
    }
    forall n | n in graph ensures Covers(changes, n.id) {
      var i :| 0 <= i < |graph| && graph[i] == n;
      assert changes[i] in changes && changes[i].node == Some(n.id);
    }
  }

  /** The constructor accepts a baseline with the initial manifest. */
  lemma InitialIsOk(r: Revision)
    requires Baseline(r)
    ensures RevisionOk(r, true)
  {
    var changes := InitialChanges(r.graph);
    forall i, j | 0 <= i < j < |changes| ensures EntriesApart(changes, i, j) {
      assert IdsDiffer(r.graph, i, j);
    }
    forall id ensures HasEntry(changes, id) <==> HasId(r.graph, id) {
      if i :| NodeEntry(changes, id, i) {
        assert r.graph[i] in r.graph;
      }
      if n :| n in r.graph && n.id == id {
        var i :| 0 <= i < |r.graph| && r.graph[i] == n;
        assert NodeEntry(changes, id, i);
      }
    }
  }

  /** A revision without a manifest is anchored anew, node by node. */
  lemma Reanchors(r: Revision, used: set<Id>)
    requires DistinctIds(r.graph) && (r.manifest.None? || r.manifest == Some(InitialChanges(r.graph)))
    ensures Traced(r, used + IdsOf(r.graph))
  {
    InitialIs(r.graph);
  }

  lemma FollowsKeepsLineage(previous: Revision, next: Revision, used: set<Id>)
    requires Traced(previous, used) && Follows(previous, next, used)
    ensures Traced(next, used + IdsOf(next.graph)) && RevisionOk(next, false)
  {
    if next.manifest.None? {
      Reanchors(next, used);
    } else {
      var predecessors :| Linked(previous, next, used, predecessors);
      StepKeepsLineage(previous, next, used, predecessors);
    }
  }

  /** The constructor accepts the revision, every node has an entry, no two live nodes share a block,
      and blocks are identities used so far. */
  ghost predicate InLineage(revisions: seq<Revision>, k: nat)
    requires k < |revisions|
  {
    Traced(revisions[k], Used(revisions, k)) && RevisionOk(revisions[k], k == 0)
  }

  lemma StartsLineage(revisions: seq<Revision>)
    requires |revisions| > 0 && Baseline(revisions[0])
    ensures InLineage(revisions, 0)
  {
    Reanchors(revisions[0], {});
    InitialIsOk(revisions[0]);
    assert Used(revisions, 0) == {} + IdsOf(revisions[0].graph);
  }

  lemma ContinuesLineage(revisions: seq<Revision>, k: nat)
    requires 0 < k < |revisions| && InLineage(revisions, k - 1)
    requires Follows(revisions[k - 1], revisions[k], Used(revisions, k - 1))
    ensures InLineage(revisions, k)
  {
    FollowsKeepsLineage(revisions[k - 1], revisions[k], Used(revisions, k - 1));
    assert Used(revisions, k) == Used(revisions, k - 1) + IdsOf(revisions[k].graph);
  }

  /** Along every chain each revision is in lineage. */
  lemma {:induction false} ChainKeepsLineage(revisions: seq<Revision>, k: nat)
    requires Chain(revisions) && k < |revisions|
    ensures InLineage(revisions, k)
    decreases k
  {
    if k == 0 {
      StartsLineage(revisions);
    } else {
      ChainKeepsLineage(revisions, k - 1);
      ContinuesLineage(revisions, k);
    }
  }
}

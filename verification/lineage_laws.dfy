/** What the entries of a manifest say, told by the nodes and entries of the two revisions alone. */
module LineageLaws {
  import opened Values
  import opened Graphs
  import opened BlockLineage

  /** The field differs between the two definitions or inputs. */
  ghost predicate Differs(a: BlockNode, b: BlockNode, field: Field) {
    match field
    case Title => a.definition.title != b.definition.title
    case Instruction => a.definition.instruction != b.definition.instruction
    case Kind => a.definition.kind != b.definition.kind
    case Dependencies => a.definition.dependencies != b.definition.dependencies
    case Checks => a.definition.checks != b.definition.checks
    case Capabilities => a.definition.capabilities != b.definition.capabilities
    case Session => a.definition.session != b.definition.session
    case InputScope => a.scope != b.scope
    case ExecutionIdentity => false
  }

  /** Exactly the differing fields are listed. */
  lemma FieldsAreThoseThatDiffer(a: BlockNode, b: BlockNode, field: Field)
    ensures field in ChangedFields(a, b) <==> Differs(a, b, field)
  {
  }

  /** The entry `a` of the old manifest is about the old node `o`. */
  ghost predicate About(previous: Revision, o: BlockNode, a: Change) {
    o in previous.graph && a in Anchors(previous) && a.node == Some(o.id)
  }

  /** The fields that a modified entry reports: those that differ, or the identity alone. */
  ghost predicate ReportsFields(o: BlockNode, n: BlockNode, fields: set<Field>) {
    if forall field :: !Differs(o, n, field) then fields == {ExecutionIdentity}
    else forall field :: field in fields <==> Differs(o, n, field)
  }

  /** What the entry of a new node says. */
  ghost predicate NewSays(previous: Revision, predecessors: Predecessors, n: BlockNode, c: Change) {
    if n.id !in predecessors then c == Change(n.id, 1, None, Some(n.id), Added, {})
    else exists o, a :: About(previous, o, a) && ContinuesAs(predecessors, n, o, a, c)
  }

  ghost predicate ContinuesAs(predecessors: Predecessors, n: BlockNode, o: BlockNode, a: Change, c: Change)
    requires n.id in predecessors
  {
    && o.id == predecessors[n.id] && c.block == a.block && c.previous == Some(o.id) && c.node == Some(n.id)
    && if o.id == n.id then c.version == a.version && c.kind == Unchanged && c.fields == {}
       else c.version == a.version + 1 && c.kind == Modified && ReportsFields(o, n, c.fields)
  }

  lemma NewEntrySays(previous: Revision, graph: Graph, predecessors: Predecessors, n: BlockNode, c: Change)
    requires Continues(previous, predecessors, n, c) && InPlaceUnchanged(previous.graph, predecessors, n)
    ensures NewSays(previous, predecessors, n, c)
  {
    if n.id in predecessors {
      var o := NodeOf(previous.graph, predecessors[n.id]).value;
      var a := EntryOf(Anchors(previous), o.id).value;
      assert About(previous, o, a);
      forall field ensures field in ChangedFields(o, n) <==> Differs(o, n, field) {
        FieldsAreThoseThatDiffer(o, n, field);
      }
      NothingChanged(o, n);
      if o.id != n.id && ChangedFields(o, n) != {} {
        var field :| field in ChangedFields(o, n);
        assert Differs(o, n, field);
      }
    }
  }

  /** What the entry of an old node that nothing continues says. */
  ghost predicate GoneSays(previous: Revision, o: BlockNode, c: Change) {
    exists a :: About(previous, o, a) && c == Change(a.block, a.version, Some(o.id), None, Removed, {})
  }

  /** The removed entries, each for the old node at its place, in the order of the old revision. */
  ghost predicate GoneInOrder(previous: Revision, graph: Graph, retained: set<Id>, gone: seq<Change>, places: seq<int>)
    requires graph <= previous.graph
  {
    && |places| == |gone|
    && (forall k :: 0 <= k < |gone| ==> GoneAt(previous, graph, retained, gone[k], places[k]))
    && (forall k, l :: 0 <= k < l < |gone| ==> places[k] < places[l])
    && forall i :: 0 <= i < |graph| && graph[i].id !in retained ==> i in places
  }

  ghost predicate GoneAt(previous: Revision, graph: Graph, retained: set<Id>, c: Change, i: int) {
    0 <= i < |graph| && graph[i].id !in retained && GoneSays(previous, graph[i], c)
  }

  lemma {:induction false} GoneEntriesSay(previous: Revision, graph: Graph, retained: set<Id>)
    returns (places: seq<int>)
    requires graph <= previous.graph && forall n :: n in graph ==> Covers(Anchors(previous), n.id)
    ensures GoneInOrder(previous, graph, retained, Gone(Anchors(previous), graph, retained), places)
    decreases |graph|
  {
    places := [];
    if graph != [] {
      var n := |graph| - 1;
      var front, last := graph[..n], graph[n];
      places := GoneEntriesSay(previous, front, retained);
      var before := Gone(Anchors(previous), front, retained);
      assert Covers(Anchors(previous), last.id) && last == previous.graph[n];
      forall k | 0 <= k < |before| ensures GoneAt(previous, graph, retained, before[k], places[k]) {
        assert GoneAt(previous, front, retained, before[k], places[k]);
      }
      if last.id !in retained {
        var a := EntryOf(Anchors(previous), last.id).value;
        assert About(previous, last, a) && GoneAt(previous, graph, retained, RemovedEntry(a, last.id), n);
        GoneNext(previous, graph, retained, before, places, RemovedEntry(a, last.id));
        places := places + [n];
      } else {
        assert Gone(Anchors(previous), graph, retained) == before;
      }
    }
  }

  lemma GoneNext(previous: Revision, graph: Graph, retained: set<Id>, before: seq<Change>, places: seq<int>, c: Change)
    requires graph != [] && graph <= previous.graph && graph[..|graph| - 1] <= previous.graph
    requires GoneInOrder(previous, graph[..|graph| - 1], retained, before, places)
    requires forall k :: 0 <= k < |before| ==> GoneAt(previous, graph, retained, before[k], places[k])
    requires GoneAt(previous, graph, retained, c, |graph| - 1)
    ensures GoneInOrder(previous, graph, retained, before + [c], places + [|graph| - 1])
  {
    var n := |graph| - 1;
    forall k | 0 <= k < |before| ensures places[k] < n {
      assert GoneAt(previous, graph[..n], retained, before[k], places[k]);
    }
    forall i | 0 <= i < |graph| && graph[i].id !in retained ensures i in places + [n] {
      if i < n {
        assert graph[..n][i].id !in retained;
      } else {
        assert (places + [n])[|places|] == n;
      }
    }
  }

  /** A built manifest says of every new node where it comes from and what changed, and lists the old nodes that
      nothing continues in their order. */
  ghost predicate ManifestSays(previous: Revision, graph: Graph, predecessors: Predecessors, changes: seq<Change>) {
    && |changes| >= |graph|
    && (forall i :: 0 <= i < |graph| ==> NewSays(previous, predecessors, graph[i], changes[i]))
    && exists places :: GoneInOrder(previous, previous.graph, predecessors.Values, changes[|graph|..], places)
  }

  lemma ManifestIs(previous: Revision, graph: Graph, predecessors: Predecessors, changes: seq<Change>)
    requires Manifest(previous, graph, predecessors, changes) && Linkable(previous.graph, graph, predecessors)
    ensures ManifestSays(previous, graph, predecessors, changes)
  {
    forall i | 0 <= i < |graph| ensures NewSays(previous, predecessors, graph[i], changes[i]) {
      EntryAt(previous, graph, predecessors, changes, i);
      assert graph[i] in graph;
      NewEntrySays(previous, graph, predecessors, graph[i], changes[i]);
    }
    var places := GoneEntriesSay(previous, previous.graph, predecessors.Values);
  }

  // ---- Which mappings are accepted

  ghost predicate NamesNode(graph: Graph, id: Id) {
    exists n :: n in graph && n.id == id
  }

  /** The mapping goes from new nodes to old ones, one to one; a node that was there goes to itself; and a node
      that goes to itself has the same definition and inputs. */
  ghost predicate Maps(previous: Graph, graph: Graph, predecessors: Predecessors) {
    && (forall id :: id in predecessors ==> NamesNode(graph, id) && NamesNode(previous, predecessors[id]))
    && (forall a, b :: a in predecessors && b in predecessors && a != b ==> predecessors[a] != predecessors[b])
    && (forall n :: n in graph && NamesNode(previous, n.id) ==> n.id in predecessors && predecessors[n.id] == n.id)
    && forall n, o :: n in graph && o in previous && n.id == o.id && n.id in predecessors
                      && predecessors[n.id] == n.id ==>
         n.definition == o.definition && n.scope == o.scope
  }

  lemma NamedIs(graph: Graph, id: Id)
    ensures NodeOf(graph, id).Some? <==> NamesNode(graph, id)
  {
  }

  lemma OnlyNode(graph: Graph, o: BlockNode)
    requires DistinctIds(graph) && o in graph
    ensures NodeOf(graph, o.id) == Some(o)
  {
    var found := NodeOf(graph, o.id).value;
    var i :| 0 <= i < |graph| && graph[i] == o;
    var j :| 0 <= j < |graph| && graph[j] == found;
    assert i < j ==> IdsDiffer(graph, i, j);
    assert j < i ==> IdsDiffer(graph, j, i);
  }

  /** Lineage accepts exactly these mappings. */
  lemma LinkableIs(previous: Graph, graph: Graph, predecessors: Predecessors)
    requires DistinctIds(previous)
    ensures Linkable(previous, graph, predecessors) <==> Maps(previous, graph, predecessors)
  {
    forall id ensures (NodeOf(graph, id).Some? <==> NamesNode(graph, id))
                      && (NodeOf(previous, id).Some? <==> NamesNode(previous, id))
    {
      NamedIs(graph, id);
      NamedIs(previous, id);
    }
    forall n | n in graph
      ensures InPlaceUnchanged(previous, predecessors, n) <==>
              forall o :: o in previous && n.id == o.id && n.id in predecessors && predecessors[n.id] == n.id ==>
                            n.definition == o.definition && n.scope == o.scope
    {
      InPlaceIs(previous, predecessors, n);
    }
  }

  lemma InPlaceIs(previous: Graph, predecessors: Predecessors, n: BlockNode)
    requires DistinctIds(previous)
    ensures InPlaceUnchanged(previous, predecessors, n) <==>
            forall o :: o in previous && n.id == o.id && n.id in predecessors && predecessors[n.id] == n.id ==>
                          n.definition == o.definition && n.scope == o.scope
  {
    forall o | o in previous && n.id == o.id ensures NodeOf(previous, n.id) == Some(o) {
      OnlyNode(previous, o);
    }
    var found := NodeOf(previous, n.id);
    if found.Some? {
      NothingChanged(found.value, n);
    }
  }
}

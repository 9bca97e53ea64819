/** The draft plan graph that planner tools edit: insertion-ordered tables of nodes, edges,
    branches, phases and gates, and the effect of every tool call on them. */
module PlanDraft {
  import opened Values
  import opened Graphs

  // ---- Insertion-ordered tables

  /** A table that remembers the order in which its keys were first added. */
  datatype Dict<K(==,!new), V> = Dict(order: seq<K>, values: map<K, V>) {
    ghost predicate Valid() {
      Distinct(order) && forall k :: k in order <==> k in values
    }

    function Put(k: K, v: V): Dict<K, V> {
      if k in values then Dict(order, values[k := v]) else Dict(order + [k], values[k := v])
    }

    function Del(k: K): Dict<K, V> {
      Dict(Dropped(order, k), values - {k})
    }

    lemma PutValid(k: K, v: V)
      requires Valid()
      ensures Put(k, v).Valid()
    {
      if k !in values {
        DistinctAppend(order, k);
      }
    }

    lemma DelValid(k: K)
      requires Valid()
      ensures Del(k).Valid()
    {
      DroppedKeeps(order, k);
    }
  }

  function Dropped<K(==)>(s: seq<K>, k: K): seq<K> {
    if s == [] then []
    else if s[|s| - 1] == k then Dropped(s[..|s| - 1], k)
    else Dropped(s[..|s| - 1], k) + [s[|s| - 1]]
  }

  lemma {:induction false} DroppedKeeps<K(!new)>(s: seq<K>, k: K)
    requires Distinct(s)
    ensures Distinct(Dropped(s, k)) && forall x :: x in Dropped(s, k) <==> x in s && x != k
    decreases |s|
  {
    if s != [] {
      var front, last := s[..|s| - 1], s[|s| - 1];
      forall i, j | 0 <= i < j < |front| ensures Differ(front, i, j) {
        assert Differ(s, i, j);
      }
      DroppedKeeps(front, k);
      assert s == front + [last];
      forall i | 0 <= i < |front| ensures front[i] != last {
        assert Differ(s, i, |s| - 1);
      }
      if last != k {
        DistinctAppend(Dropped(front, k), last);
      }
    }
  }

  // ---- The draft

  type Key = string

  datatype Kind = Work | Fork | Evaluator | Merge | Reviewer

  datatype EdgeKind = Dependency | Exploration | Conditional | MergeEdge

  /** Texts are stripped; the empty text stands for a blank or missing one. */
  datatype Node = Node(title: string, instruction: string, kind: Kind, capabilities: set<string>, session: string)

  datatype EdgeKey = EdgeKey(source: Key, target: Key, kind: EdgeKind, branch: Option<Key>)

  datatype Branch = Branch(caption: string, fork: Key, nodes: seq<Key>, merge: Key)

  datatype Phase = Phase(title: string, nodes: seq<Key>, reviewer: Key, gate: Key, rework: seq<Key>)

  datatype Gate = Gate(name: string, argv: seq<string>, question: Option<string>)

  /** The value of an edge is its condition. In process mode `checks` holds the frozen Check group
      of every retained Gate owner and `owners` the node that owns each retained Gate. */
  datatype Draft = Draft(nodes: Dict<Key, Node>, edges: Dict<EdgeKey, Option<string>>, branches: Dict<Key, Branch>,
                         phases: Dict<Key, Phase>, gates: Dict<Key, Gate>,
                         finalArgv: seq<string>, finalQuestion: Option<string>,
                         checks: map<Key, seq<string>>, owners: map<string, Key>)

  /** `normalize` is the comparison form of a human question; `eventTypes` are the planner events a
      finished template is to name. */
  datatype Config = Config(processMode: bool, requireFinalGate: bool, allowFinalCommand: bool,
                           criteriaQuestions: seq<string>, finalGateId: Option<string>,
                           maxWidth: nat, maxDepth: nat, maxAttempts: nat, normalize: string -> string,
                           eventTypes: seq<string>)

  function EmptyDict<K(==,!new), V>(): Dict<K, V> {
    Dict([], map[])
  }

  const EMPTY_DRAFT: Draft :=
    Draft(EmptyDict(), EmptyDict(), EmptyDict(), EmptyDict(), EmptyDict(), [], None, map[], map[])

  predicate CanOwnGate(kind: Kind) {
    kind.Work? || kind.Merge? || kind.Reviewer?
  }

  predicate CanRework(kind: Kind) {
    kind.Work? || kind.Merge?
  }

  predicate ArgvOk(argv: seq<string>) {
    |argv| <= 128 && forall a :: a in argv ==> 0 < |a| <= 4096 && '\0' !in a
  }

  predicate NonBlank(keys: seq<Key>) {
    |keys| > 0 && "" !in keys
  }

  predicate NoRepeat(keys: seq<Key>) {
    forall i, j :: 0 <= i < |keys| && 0 <= j < |keys| && keys[i] == keys[j] ==> i == j
  }

  /** Keys given to a tool: a non-empty list of distinct non-blank keys. */
  predicate KeyList(keys: seq<Key>) {
    NonBlank(keys) && NoRepeat(keys)
  }

  // ---- Tool calls

  datatype Tool =
    | AddNode(key: Key, node: Node)
    | UpdateNode(key: Key, title: string, instruction: string, kind: Kind,
                 capabilities: Option<set<string>>, session: Option<string>)
    | RemoveNode(key: Key)
    | AddEdge(edge: EdgeKey, condition: Option<string>)
    | RemoveEdge(edge: EdgeKey)
    | SetBranch(key: Key, branch: Branch)
    | RemoveBranch(key: Key)
    | SetPhase(key: Key, phase: Phase)
    | RemovePhase(key: Key)
    | SetNodeGate(key: Key, gate: Gate)
    | RemoveNodeGate(key: Key)
    | SetFinalGate(argv: seq<string>, question: Option<string>)
    | RemoveFinalGate
    | MoveProcessGate(gateId: string, key: Key)
    | Malformed

  datatype Issue =
    | InvalidArgument | DuplicateReference | DuplicateNodeKey | UnknownNode
    | RetainedGateInvalidKind | NodeGateMoveRequired | NodeInUse
    | SelfDependency | UnknownBranch | EdgeRequiresBranch | ConditionRequired | ConditionNotAllowed | DuplicateEdge
    | UnknownEdge | BranchInUse | BranchInvalid | UnknownPhase | PhaseGateInvalid | PhaseReviewerInvalid
    | PhaseReworkInvalid | ProcessGateFrozen | FinalCommandNotSelected | NodeGateInvalidKind | ProcessModeRequired
    | UnknownRetainedGate | GateTargetOccupied | RetainedGateCorrupt

  type Edited = Result<Draft, Issue>

  predicate BlankOption(text: Option<string>) {
    text == Some("")
  }

  function DoAddNode(d: Draft, key: Key, node: Node): Edited {
    if key == "" then Err(InvalidArgument)
    else if key in d.nodes.values then Err(DuplicateNodeKey)
    else if node.title == "" || node.instruction == "" then Err(InvalidArgument)
    else Ok(d.(nodes := d.nodes.Put(key, node)))
  }

  /** The node an update leaves: capabilities and session policy default to the previous ones. */
  function Updated(was: Node, t: Tool): Node
    requires t.UpdateNode?
  {
    Node(t.title, t.instruction, t.kind,
         if t.capabilities.Some? then t.capabilities.value else was.capabilities,
         if t.session.Some? then t.session.value else was.session)
  }

  function DoUpdateNode(c: Config, d: Draft, t: Tool): Edited
    requires t.UpdateNode?
  {
    if t.key == "" then Err(InvalidArgument)
    else if t.key !in d.nodes.values then Err(UnknownNode)
    else if t.title == "" || t.instruction == "" then Err(InvalidArgument)
    else if c.processMode && t.key in d.checks && !CanOwnGate(t.kind) then Err(RetainedGateInvalidKind)
    else Ok(d.(nodes := d.nodes.Put(t.key, Updated(d.nodes.values[t.key], t))))
  }

  predicate BranchUses(b: Branch, key: Key) {
    key == b.fork || key == b.merge || key in b.nodes
  }

  /** The edges that do not touch `key`, in order. */
  function EdgesWithout(order: seq<EdgeKey>, key: Key): seq<EdgeKey> {
    if order == [] then []
    else
      var last := order[|order| - 1];
      EdgesWithout(order[..|order| - 1], key) + (if last.source == key || last.target == key then [] else [last])
  }

  function DoRemoveNode(c: Config, d: Draft, key: Key): Edited {
    if key == "" then Err(InvalidArgument)
    else if key !in d.nodes.values then Err(UnknownNode)
    else if c.processMode && key in d.checks then Err(NodeGateMoveRequired)
    else if exists b :: b in d.branches.values && BranchUses(d.branches.values[b], key) then Err(NodeInUse)
    else if exists p :: p in d.phases.values && key in d.phases.values[p].nodes then Err(NodeInUse)
    else
      Ok(d.(nodes := d.nodes.Del(key),
            gates := d.gates.Del(key),
            edges := Dict(EdgesWithout(d.edges.order, key),
                          map e | e in d.edges.values && e.source != key && e.target != key :: d.edges.values[e])))
  }

  predicate SameDependency(a: EdgeKey, b: EdgeKey) {
    a.kind.Dependency? && b.kind.Dependency? && a.source == b.source && a.target == b.target
  }

  function DoAddEdge(d: Draft, e: EdgeKey, condition: Option<string>): Edited {
    if e.source == "" || e.target == "" || BlankOption(e.branch) || BlankOption(condition) then Err(InvalidArgument)
    else if e.source !in d.nodes.values || e.target !in d.nodes.values then Err(UnknownNode)
    else if e.source == e.target then Err(SelfDependency)
    else if e.branch.Some? && e.branch.value !in d.branches.values then Err(UnknownBranch)
    else if (e.kind.Exploration? || e.kind.MergeEdge?) && e.branch.None? then Err(EdgeRequiresBranch)
    else if e.kind.Conditional? && condition.None? then Err(ConditionRequired)
    else if !e.kind.Conditional? && condition.Some? then Err(ConditionNotAllowed)
    else if e in d.edges.values then Err(DuplicateEdge)
    else if exists other :: other in d.edges.values && SameDependency(e, other) then Err(DuplicateEdge)
    else Ok(d.(edges := d.edges.Put(e, condition)))
  }

  /** The first edge with the same ends and kind, whatever its branch. */
  function FirstLike(order: seq<EdgeKey>, e: EdgeKey): (r: Option<EdgeKey>)
    ensures r.Some? ==> r.value in order && r.value.source == e.source && r.value.target == e.target
                        && r.value.kind == e.kind
    ensures r.None? ==> forall x :: x in order ==> !(x.source == e.source && x.target == e.target && x.kind == e.kind)
  {
    if order == [] then None
    else if order[0].source == e.source && order[0].target == e.target && order[0].kind == e.kind then Some(order[0])
    else FirstLike(order[1..], e)
  }

  function DoRemoveEdge(d: Draft, e: EdgeKey): Edited {
    if e.source == "" || e.target == "" || BlankOption(e.branch) then Err(InvalidArgument)
    else if e in d.edges.values then Ok(d.(edges := d.edges.Del(e)))
    else match FirstLike(d.edges.order, e)
      case Some(like) => Ok(d.(edges := d.edges.Del(like)))
      case None => Err(UnknownEdge)
  }

  function DoSetBranch(d: Draft, key: Key, b: Branch): Edited {
    if key == "" || b.caption == "" || b.fork == "" || b.merge == "" || !NonBlank(b.nodes) then Err(InvalidArgument)
    else if !NoRepeat(b.nodes) then Err(DuplicateReference)
    else if b.fork !in d.nodes.values || b.merge !in d.nodes.values || exists n :: n in b.nodes && n !in d.nodes.values
    then Err(UnknownNode)
    else if b.fork == b.merge || b.fork in b.nodes || b.merge in b.nodes then Err(BranchInvalid)
    else Ok(d.(branches := d.branches.Put(key, b)))
  }

  function DoRemoveBranch(d: Draft, key: Key): Edited {
    if key == "" then Err(InvalidArgument)
    else if key !in d.branches.values then Err(UnknownBranch)
    else if exists e :: e in d.edges.values && e.branch == Some(key) then Err(BranchInUse)
    else Ok(d.(branches := d.branches.Del(key)))
  }

  function DoSetPhase(d: Draft, key: Key, p: Phase): Edited {
    if key == "" || p.title == "" || !NonBlank(p.nodes) then Err(InvalidArgument)
    else if !NoRepeat(p.nodes) then Err(DuplicateReference)
    else if p.reviewer == "" || p.gate == "" || !NonBlank(p.rework) then Err(InvalidArgument)
    else if !NoRepeat(p.rework) then Err(DuplicateReference)
    else if p.reviewer !in d.nodes.values || p.gate !in d.nodes.values
            || (exists n :: n in p.nodes && n !in d.nodes.values) || (exists n :: n in p.rework && n !in d.nodes.values)
    then Err(UnknownNode)
    else if p.reviewer !in p.nodes || p.gate !in p.nodes || p.reviewer != p.gate then Err(PhaseGateInvalid)
    else if !d.nodes.values[p.reviewer].kind.Reviewer? then Err(PhaseReviewerInvalid)
    else if p.reviewer in p.rework || (exists n :: n in p.rework && n !in p.nodes)
            || (exists n :: n in p.rework && !CanRework(d.nodes.values[n].kind))
    then Err(PhaseReworkInvalid)
    else Ok(d.(phases := d.phases.Put(key, p)))
  }

  function DoRemovePhase(d: Draft, key: Key): Edited {
    if key == "" then Err(InvalidArgument)
    else if key !in d.phases.values then Err(UnknownPhase)
    else Ok(d.(phases := d.phases.Del(key)))
  }

  function DoSetNodeGate(c: Config, d: Draft, key: Key, g: Gate): Edited {
    if c.processMode then Err(ProcessGateFrozen)
    else if key == "" then Err(InvalidArgument)
    else if key !in d.nodes.values then Err(UnknownNode)
    else if !CanOwnGate(d.nodes.values[key].kind) then Err(NodeGateInvalidKind)
    else if g.name == "" || !ArgvOk(g.argv) || BlankOption(g.question) || (g.argv == [] && g.question.None?)
    then Err(InvalidArgument)
    else Ok(d.(gates := d.gates.Put(key, g)))
  }

  function DoRemoveNodeGate(c: Config, d: Draft, key: Key): Edited {
    if c.processMode then Err(ProcessGateFrozen)
    else if key == "" then Err(InvalidArgument)
    else if key !in d.nodes.values then Err(UnknownNode)
    else Ok(d.(gates := d.gates.Del(key)))
  }

  function DoSetFinalGate(c: Config, d: Draft, argv: seq<string>, question: Option<string>): Edited {
    if c.processMode then Err(ProcessGateFrozen)
    else if !ArgvOk(argv) || BlankOption(question) then Err(InvalidArgument)
    else if argv != [] && !c.allowFinalCommand then Err(FinalCommandNotSelected)
    else if argv == [] && question.None? then Err(InvalidArgument)
    else Ok(d.(finalArgv := argv, finalQuestion := question))
  }

  function DoRemoveFinalGate(c: Config, d: Draft): Edited {
    if c.processMode then Err(ProcessGateFrozen) else Ok(d.(finalArgv := [], finalQuestion := None))
  }

  function DoMoveGate(c: Config, d: Draft, gateId: string, key: Key): Edited {
    if !c.processMode then Err(ProcessModeRequired)
    else if gateId == "" || key == "" then Err(InvalidArgument)
    else if gateId !in d.owners then Err(UnknownRetainedGate)
    else if key !in d.nodes.values then Err(UnknownNode)
    else if key == d.owners[gateId] || key in d.checks then Err(GateTargetOccupied)
    else if !CanOwnGate(d.nodes.values[key].kind) then Err(RetainedGateInvalidKind)
    else if d.owners[gateId] !in d.checks then Err(RetainedGateCorrupt)
    else
      var group := d.checks[d.owners[gateId]];
      Ok(d.(checks := (d.checks - {d.owners[gateId]})[key := group], owners := d.owners[gateId := key]))
  }

  /** The draft after one tool call, or the issue it is rejected with. */
  function Edit(c: Config, d: Draft, t: Tool): Edited {
    match t
    case AddNode(key, node) => DoAddNode(d, key, node)
    case UpdateNode(_, _, _, _, _, _) => DoUpdateNode(c, d, t)
    case RemoveNode(key) => DoRemoveNode(c, d, key)
    case AddEdge(e, condition) => DoAddEdge(d, e, condition)
    case RemoveEdge(e) => DoRemoveEdge(d, e)
    case SetBranch(key, b) => DoSetBranch(d, key, b)
    case RemoveBranch(key) => DoRemoveBranch(d, key)
    case SetPhase(key, p) => DoSetPhase(d, key, p)
    case RemovePhase(key) => DoRemovePhase(d, key)
    case SetNodeGate(key, g) => DoSetNodeGate(c, d, key, g)
    case RemoveNodeGate(key) => DoRemoveNodeGate(c, d, key)
    case SetFinalGate(argv, question) => DoSetFinalGate(c, d, argv, question)
    case RemoveFinalGate => DoRemoveFinalGate(c, d)
    case MoveProcessGate(gateId, key) => DoMoveGate(c, d, gateId, key)
    case Malformed => Err(InvalidArgument)
  }

  /** The draft after a sequence of tool calls: a rejected call leaves it as it was. */
  function After(c: Config, seed: Draft, tools: seq<Tool>): Draft {
    if tools == [] then seed
    else
      var before := After(c, seed, tools[..|tools| - 1]);
      match Edit(c, before, tools[|tools| - 1])
      case Ok(after) => after
      case Err(_) => before
  }
}

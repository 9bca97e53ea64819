/** Which drafts are accepted, told by the entries of their tables alone. */
module PlanAcceptance {
  import opened Values
  import opened Graphs
  import opened PlanDraft
  import opened PlanIntegrity
  import opened PlanOrder
  import opened PlanChecks
  import opened PlanBranches
  import opened PlanPhases
  import opened PlanValidation
  import opened PlanTheorems

  // ---- Words

  ghost predicate HasEdge(d: Draft, s: Key, t: Key) {
    exists e :: e in d.edges.values && e.source == s && e.target == t
  }

  ghost predicate DependsOn(d: Draft, n: Key, s: Key) {
    exists e :: e in d.edges.values && e.kind == Dependency && e.source == s && e.target == n
  }

  ghost predicate IsKind(d: Draft, n: Key, kinds: set<Kind>) {
    n in d.nodes.values && d.nodes.values[n].kind in kinds
  }

  ghost predicate InBranch(d: Draft, k: Key, n: Key) {
    k in d.branches.values && n in d.branches.values[k].nodes
  }

  /** Both branches lead from the same fork to the same merge. */
  ghost predicate Siblings(d: Draft, k: Key, l: Key) {
    k in d.branches.values && l in d.branches.values
    && d.branches.values[k].fork == d.branches.values[l].fork
       && d.branches.values[k].merge == d.branches.values[l].merge
  }

  ghost predicate LastOf(d: Draft, k: Key, n: Key) {
    k in d.branches.values && d.branches.values[k].nodes != []
    && n == d.branches.values[k].nodes[|d.branches.values[k].nodes| - 1]
  }

  // ---- The end of the plan

  ghost predicate NoWayOn(d: Draft, t: Key) {
    t in d.nodes.values && forall n :: !HasEdge(d, t, n)
  }

  /** The plan ends in exactly one node, which can own a gate, lies in no branch, and has only the final gate. */
  ghost predicate EndsIn(c: Config, d: Draft, t: Key) {
    && NoWayOn(d, t) && (forall n :: NoWayOn(d, n) ==> n == t)
    && IsKind(d, t, {Work, Merge, Reviewer}) && (forall b :: !InBranch(d, b, t))
    && if c.processMode then c.finalGateId.Some? && Owns(d.owners, c.finalGateId.value, t) else t !in d.gates.values
  }

  ghost predicate SinkFine(c: Config, d: Draft) {
    exists t :: EndsIn(c, d, t)
  }

  lemma WayOnIs(d: Draft)
    ensures forall n :: NoWayOn(d, n) <==> IsSink(d, n)
  {
    forall n ensures NoWayOn(d, n) <==> IsSink(d, n) {
      if e :| e in d.edges.values && e.source == n {
        assert HasEdge(d, n, e.target);
      }
    }
  }

  lemma SinkIs(c: Config, d: Draft)
    requires Tables(d)
    ensures SinkFine(c, d) <==> forall f :: !SinkFault(c, d, f)
  {
    WayOnIs(d);
    if t :| EndsIn(c, d, t) {
      assert OnlySink(d, t);
      forall b | b in d.branches.values ensures t !in d.branches.values[b].nodes {
        assert !InBranch(d, b, t);
      }
    }
    if forall f :: !SinkFault(c, d, f) {
      assert !SinkFault(c, d, SingleSinkRequired);
      var t :| OnlySink(d, t);
      assert !SinkFault(c, d, SinkInvalid(t)) && !SinkFault(c, d, SinkPrunable(t)) && !SinkFault(c, d, FinalGateLost);
      assert !SinkFault(c, d, FinalGateMoved(t)) && !SinkFault(c, d, SinkHasNodeGate(t));
      assert EndsIn(c, d, t);
    }
  }

  // ---- Gates and questions

  ghost predicate FinalGateSet(d: Draft) {
    d.finalArgv != [] || d.finalQuestion != None
  }

  ghost predicate GatesFine(c: Config, d: Draft) {
    && (forall k :: k in d.gates.values ==> IsKind(d, k, {Work, Merge, Reviewer}))
    && (c.requireFinalGate && !c.processMode ==> FinalGateSet(d))
  }

  lemma GatesAre(c: Config, d: Draft)
    ensures GatesFine(c, d) <==> forall f :: !GateFault(c, d, f)
  {
    if forall f :: !GateFault(c, d, f) {
      forall k | k in d.gates.values ensures IsKind(d, k, {Work, Merge, Reviewer}) {
        assert !GateFault(c, d, GateUnknownNode(k)) && !GateFault(c, d, GateInvalidKind(k));
      }
      assert !GateFault(c, d, FinalGateRequired);
    }
  }

  /** The gate of this node asks a question with this comparison form. */
  ghost predicate GateAsks(c: Config, d: Draft, k: Key, q: string) {
    k in d.gates.values && d.gates.values[k].question.Some? && c.normalize(d.gates.values[k].question.value) == q
  }

  /** The criteria, or outside process mode the final gate, ask a question with this comparison form. */
  ghost predicate EndAsks(c: Config, d: Draft, q: string) {
    || (exists p :: p in c.criteriaQuestions && c.normalize(p) == q)
    || (!c.processMode && d.finalQuestion.Some? && c.normalize(d.finalQuestion.value) == q)
  }

  /** Nobody is asked the same thing twice. */
  ghost predicate QuestionsFine(c: Config, d: Draft) {
    && (forall k, q :: GateAsks(c, d, k, q) ==> !EndAsks(c, d, q))
    && forall k, l, q :: GateAsks(c, d, k, q) && GateAsks(c, d, l, q) ==> k == l
  }

  lemma EndIs(c: Config, d: Draft)
    ensures forall q :: EndAsks(c, d, q) <==> AskedAtEnd(c, d, q)
  {
    forall q ensures EndAsks(c, d, q) <==> AskedAtEnd(c, d, q) {
      if p :| p in c.criteriaQuestions && c.normalize(p) == q {
        var i :| 0 <= i < |c.criteriaQuestions| && c.criteriaQuestions[i] == p;
      }
      if i :| 0 <= i < |c.criteriaQuestions| && c.normalize(c.criteriaQuestions[i]) == q {
        assert c.criteriaQuestions[i] in c.criteriaQuestions;
      }
    }
  }

  lemma QuestionsAre(c: Config, d: Draft)
    requires Tables(d)
    ensures QuestionsFine(c, d) <==> forall f :: !QuestionFault(c, d, f)
  {
    EndIs(c, d);
    if QuestionsFine(c, d) {
      forall i ensures !Repeats(c, d, i) {
        NoRepetition(c, d, i);
      }
    }
    if forall f :: !QuestionFault(c, d, f) {
      forall i | 0 <= i < |d.gates.order| ensures !Repeats(c, d, i) {
        assert !QuestionFault(c, d, QuestionRepeated(d.gates.order[i]));
      }
      AskedOnce(c, d);
    }
  }

  lemma NoRepetition(c: Config, d: Draft, i: int)
    requires Tables(d) && QuestionsFine(c, d) && forall q :: EndAsks(c, d, q) <==> AskedAtEnd(c, d, q)
    ensures !Repeats(c, d, i)
  {
    forall q | AskedByGate(c, d, i, q)
      ensures !AskedAtEnd(c, d, q) && forall j :: AskedByGate(c, d, j, q) ==> j == i
    {
      assert GateAsks(c, d, d.gates.order[i], q);
      forall j | AskedByGate(c, d, j, q) ensures j == i {
        assert GateAsks(c, d, d.gates.order[j], q);
        DistinctAt(d.gates.order, i, j);
      }
    }
  }

  lemma AskedOnce(c: Config, d: Draft)
    requires Tables(d) && forall q :: EndAsks(c, d, q) <==> AskedAtEnd(c, d, q)
    requires forall i :: 0 <= i < |d.gates.order| ==> !Repeats(c, d, i)
    ensures QuestionsFine(c, d)
  {
    forall k, q | GateAsks(c, d, k, q) ensures !EndAsks(c, d, q) {
      var i := PlaceOf(d.gates.order, k);
      assert AskedByGate(c, d, i, q) && !Repeats(c, d, i);
    }
    forall k, l, q | GateAsks(c, d, k, q) && GateAsks(c, d, l, q) ensures k == l {
      var i, j := PlaceOf(d.gates.order, k), PlaceOf(d.gates.order, l);
      assert AskedByGate(c, d, i, q) && AskedByGate(c, d, j, q);
      assert !Repeats(c, d, i) && !Repeats(c, d, j);
    }
  }

  function PlaceOf(order: seq<Key>, k: Key): (i: int)
    requires k in order
    ensures 0 <= i < |order| && order[i] == k
  {
    if order[0] == k then 0 else 1 + PlaceOf(order[1..], k)
  }

  // ---- Nodes

  ghost predicate NodeFine(c: Config, d: Draft, n: Key)
    requires n in d.nodes.values
  {
    match d.nodes.values[n].kind
    case Work => true
    case Fork => exists b :: b in d.branches.values && d.branches.values[b].fork == n
    case Merge => exists b :: b in d.branches.values && d.branches.values[b].merge == n
    case Evaluator => exists b :: b in d.branches.values
    case Reviewer =>
      && (exists s :: DependsOn(d, n, s))
      && (n in d.gates.values || n in d.checks || (NoWayOn(d, n) && !c.processMode && FinalGateSet(d)))
  }

  /** Forks and merges have branches, evaluators have something to judge, and reviewers have something to review and
      a gate. */
  ghost predicate NodesFine(c: Config, d: Draft) {
    forall n :: n in d.nodes.values ==> NodeFine(c, d, n)
  }

  lemma DependsIs(d: Draft, n: Key)
    ensures forall s :: DependsOn(d, n, s) <==> s in Dependencies(d, n)
    ensures (exists s :: DependsOn(d, n, s)) <==> Dependencies(d, n) != {}
  {
    forall s ensures DependsOn(d, n, s) <==> s in Dependencies(d, n) {
    }
    if Dependencies(d, n) != {} {
      var s :| s in Dependencies(d, n);
      assert DependsOn(d, n, s);
    }
  }

  ghost predicate NoNodeFault(c: Config, d: Draft, n: Key) {
    && !NodeFault(c, d, ForkUnused(n)) && !NodeFault(c, d, MergeUnused(n)) && !NodeFault(c, d, EvaluatorUnused(n))
    && !NodeFault(c, d, ReviewerDependencyRequired(n)) && !NodeFault(c, d, ReviewerGateRequired(n))
  }

  lemma NodesAre(c: Config, d: Draft)
    ensures NodesFine(c, d) <==> forall f :: !NodeFault(c, d, f)
  {
    forall n | n in d.nodes.values ensures NodeFine(c, d, n) <==> NoNodeFault(c, d, n) {
      NodeIs(c, d, n);
    }
    if NodesFine(c, d) {
      forall f ensures !NodeFault(c, d, f) {
        FaultOfNode(c, d, f);
      }
    }
  }

  lemma FaultOfNode(c: Config, d: Draft, f: Finding)
    ensures NodeFault(c, d, f) ==> f.key in d.nodes.values && !NoNodeFault(c, d, f.key)
  {
  }

  lemma NodeIs(c: Config, d: Draft, n: Key)
    requires n in d.nodes.values
    ensures NodeFine(c, d, n) <==> NoNodeFault(c, d, n)
  {
    if d.nodes.values[n].kind.Reviewer? {
      ReviewerIs(c, d, n);
    } else if d.nodes.values[n].kind.Evaluator? {
      assert (exists b :: b in d.branches.values) <==> d.branches.values != map[];
    }
  }

  lemma ReviewerIs(c: Config, d: Draft, n: Key)
    requires n in d.nodes.values && d.nodes.values[n].kind.Reviewer?
    ensures NodeFine(c, d, n) <==>
            !NodeFault(c, d, ReviewerDependencyRequired(n)) && !NodeFault(c, d, ReviewerGateRequired(n))
  {
    WayOnIs(d);
    DependsIs(d, n);
  }

  // ---- Exploration

  /** Every step from the fork through the branch to the merge is there. */
  ghost predicate PathThere(d: Draft, k: Key)
    requires k in d.branches.values && d.branches.values[k].nodes != []
  {
    var b := d.branches.values[k];
    && EdgeKey(b.fork, b.nodes[0], Exploration, Some(k)) in d.edges.values
    && EdgeKey(b.nodes[|b.nodes| - 1], b.merge, MergeEdge, Some(k)) in d.edges.values
    && forall i :: 0 <= i < |b.nodes| - 1 ==> InnerStep(d, k, i)
  }

  ghost predicate InnerStep(d: Draft, k: Key, i: int)
    requires k in d.branches.values && 0 <= i < |d.branches.values[k].nodes| - 1
  {
    EdgeKey(d.branches.values[k].nodes[i], d.branches.values[k].nodes[i + 1], Dependency, Some(k)) in d.edges.values
  }

  /** An evaluator that depends on the last node of every sibling of the branch. */
  ghost predicate JudgesAll(d: Draft, k: Key, n: Key) {
    IsKind(d, n, {Evaluator}) && forall l, t :: Siblings(d, k, l) && LastOf(d, l, t) ==> DependsOn(d, n, t)
  }

  ghost predicate JudgeAt(d: Draft, k: Key, n: Key, i: int) {
    && 0 <= i < |d.nodes.order| && d.nodes.order[i] == n && JudgesAll(d, k, n)
    && forall j :: 0 <= j < i ==> !JudgesAll(d, k, d.nodes.order[j])
  }

  /** The first such evaluator in the table of nodes. */
  ghost predicate JudgeOfGroup(d: Draft, k: Key, n: Key) {
    exists i :: JudgeAt(d, k, n, i)
  }

  ghost predicate MergesJudged(d: Draft, k: Key)
    requires k in d.branches.values
  {
    && (exists n :: JudgeOfGroup(d, k, n) && DependsOn(d, d.branches.values[k].merge, n))
    && forall l, n :: Siblings(d, k, l) && InBranch(d, l, n) ==> !DependsOn(d, d.branches.values[k].merge, n)
  }

  /** The branch leads from a fork to a merge and has a sibling; one evaluator judges all siblings, and the merge
      depends on it and on nothing inside a sibling. */
  ghost predicate BranchFine(d: Draft, k: Key)
    requires k in d.branches.values && d.branches.values[k].nodes != []
  {
    && IsKind(d, d.branches.values[k].fork, {Fork}) && IsKind(d, d.branches.values[k].merge, {Merge})
    && (exists l :: l != k && Siblings(d, k, l)) && PathThere(d, k) && MergesJudged(d, k)
  }

  ghost predicate HomeAt(d: Draft, n: Key, k: Key, i: int) {
    && 0 <= i < |d.branches.order| && d.branches.order[i] == k && InBranch(d, k, n)
    && forall j :: i < j < |d.branches.order| ==> !InBranch(d, d.branches.order[j], n)
  }

  /** The last branch of the table that holds the node. */
  ghost predicate Home(d: Draft, n: Key, k: Key) {
    exists i :: HomeAt(d, n, k, i)
  }

  ghost predicate StaysInside(d: Draft, e: EdgeKey) {
    forall k, l :: Home(d, e.source, k) && Home(d, e.target, l) && k != l ==> !Siblings(d, k, l)
  }

  ghost predicate OnItsPath(d: Draft, e: EdgeKey) {
    e.branch.Some? && e.branch.value in d.branches.values ==>
      var b := d.branches.values[e.branch.value];
      && (e.kind == Exploration ==> e.source == b.fork && b.nodes != [] && e.target == b.nodes[0])
      && (e.kind == MergeEdge ==> LastOf(d, e.branch.value, e.source) && e.target == b.merge)
  }

  /** An edge does not lead from one sibling into another, and the edges of a fork and of a merge are the first and
      the last step of their branch. */
  ghost predicate EdgeFine(d: Draft, e: EdgeKey) {
    StaysInside(d, e) && OnItsPath(d, e)
  }

  ghost predicate BranchesFine(d: Draft) {
    forall k :: k in d.branches.values ==> d.branches.values[k].nodes != [] && BranchFine(d, k)
  }

  ghost predicate ExplorationFine(d: Draft) {
    && BranchesFine(d) && (forall e :: e in d.edges.values ==> EdgeFine(d, e))
    && forall n :: IsKind(d, n, {Evaluator}) ==> exists k :: k in d.branches.values && JudgesAll(d, k, n)
  }

  // ---- The groups of the check are the siblings

  lemma MemberIs(d: Draft, k: Key)
    requires Tables(d) && k in d.branches.values
    ensures forall l :: l in MembersOf(d, PairOf(d.branches.values[k])) <==> Siblings(d, k, l)
  {
    MembersAre(d.branches.values, d.branches.order, PairOf(d.branches.values[k]));
  }

  lemma {:induction false} MembersDistinct(branches: map<Key, Branch>, order: seq<Key>, g: Pair)
    requires Distinct(order)
    ensures Distinct(Members(branches, order, g))
    decreases |order|
  {
    if order != [] {
      var front, last := order[..|order| - 1], order[|order| - 1];
      forall i, j | 0 <= i < j < |front| ensures Differ(front, i, j) {
        assert Differ(order, i, j);
      }
      MembersDistinct(branches, front, g);
      MembersAre(branches, front, g);
      forall i | 0 <= i < |front| ensures front[i] != last {
        assert Differ(order, i, |order| - 1);
      }
      var before := Members(branches, front, g);
      if last in branches && PairOf(branches[last]) == g {
        assert last !in before;
        DistinctAppend(before, last);
      } else {
        assert Members(branches, order, g) == before;
      }
    }
  }

  lemma TwoMembers(d: Draft, k: Key)
    requires Tables(d) && k in d.branches.values
    ensures |MembersOf(d, PairOf(d.branches.values[k]))| >= 2 <==> exists l :: l != k && Siblings(d, k, l)
  {
    var members := MembersOf(d, PairOf(d.branches.values[k]));
    MemberIs(d, k);
    MembersDistinct(d.branches.values, d.branches.order, PairOf(d.branches.values[k]));
    assert Siblings(d, k, k) && k in members;
    if |members| >= 2 {
      assert Differ(members, 0, 1);
      var l := if members[0] == k then members[1] else members[0];
      assert l in members && l != k;
    }
    if l :| l != k && Siblings(d, k, l) {
      assert l in members;
    }
  }

  lemma EndIsLast(d: Draft, k: Key)
    requires Tables(d) && NonEmptyBranches(d) && k in d.branches.values
    ensures forall t :: t in GroupEnds(d, PairOf(d.branches.values[k])) <==>
                        exists l :: Siblings(d, k, l) && LastOf(d, l, t)
  {
    MemberIs(d, k);
    var members := MembersOf(d, PairOf(d.branches.values[k]));
    forall t ensures t in GroupEnds(d, PairOf(d.branches.values[k])) <==>
                     exists l :: Siblings(d, k, l) && LastOf(d, l, t)
    {
      if t in GroupEnds(d, PairOf(d.branches.values[k])) {
        var l :| l in members && l in d.branches.values && LastNode(d.branches.values[l]) == t;
        assert Siblings(d, k, l) && LastOf(d, l, t);
      }
      if l :| Siblings(d, k, l) && LastOf(d, l, t) {
        assert l in members && LastNode(d.branches.values[l]) == t;
      }
    }
  }

  lemma JudgesIs(d: Draft, k: Key, n: Key)
    requires Tables(d) && NonEmptyBranches(d) && k in d.branches.values
    ensures Judges(d, n, GroupEnds(d, PairOf(d.branches.values[k]))) <==> JudgesAll(d, k, n)
  {
    EndIsLast(d, k);
    DependsIs(d, n);
  }

  lemma {:induction false} FirstJudgeAt(d: Draft, order: seq<Key>, ends: set<Key>) returns (i: int)
    ensures match FirstJudge(d, order, ends)
            case None => forall j :: 0 <= j < |order| ==> !Judges(d, order[j], ends)
            case Some(n) =>
              0 <= i < |order| && order[i] == n && Judges(d, n, ends) && forall j :: 0 <= j < i ==>
                !Judges(d, order[j], ends)
    decreases |order|
  {
    i := 0;
    if order != [] && !Judges(d, order[0], ends) {
      var rest := FirstJudgeAt(d, order[1..], ends);
      i := rest + 1;
    }
  }

  lemma JudgeIs(d: Draft, k: Key)
    requires Tables(d) && NonEmptyBranches(d) && k in d.branches.values
    ensures var judge := FirstJudge(d, d.nodes.order, GroupEnds(d, PairOf(d.branches.values[k])));
            forall n :: JudgeOfGroup(d, k, n) <==> judge == Some(n)
  {
    var ends := GroupEnds(d, PairOf(d.branches.values[k]));
    var i := FirstJudgeAt(d, d.nodes.order, ends);
    forall n ensures Judges(d, n, ends) <==> JudgesAll(d, k, n) {
      JudgesIs(d, k, n);
    }
    var judge := FirstJudge(d, d.nodes.order, ends);
    if judge.Some? {
      assert JudgeAt(d, k, judge.value, i);
    }
    forall n | JudgeOfGroup(d, k, n) ensures judge == Some(n) {
      var j :| JudgeAt(d, k, n, j);
      assert judge.Some? && i <= j && j <= i;
    }
  }

  lemma InteriorIs(d: Draft, k: Key)
    requires Tables(d) && k in d.branches.values
    ensures forall n :: n in Interior(d, MembersOf(d, PairOf(d.branches.values[k]))) <==>
                        exists l :: Siblings(d, k, l) && InBranch(d, l, n)
  {
    MemberIs(d, k);
    var members := MembersOf(d, PairOf(d.branches.values[k]));
    forall n ensures n in Interior(d, members) <==> exists l :: Siblings(d, k, l) && InBranch(d, l, n) {
      if n in Interior(d, members) {
        var l :| l in members && l in d.branches.values && n in d.branches.values[l].nodes;
        assert Siblings(d, k, l) && InBranch(d, l, n);
      }
    }
  }

  lemma PathIs(d: Draft, k: Key)
    requires k in d.branches.values && d.branches.values[k].nodes != []
    ensures PathThere(d, k) <==> PathEdges(k, d.branches.values[k]) <= d.edges.values.Keys
  {
    var b := d.branches.values[k];
    if PathThere(d, k) {
      forall e | e in PathEdges(k, b) ensures e in d.edges.values {
        if i :| 0 <= i < |b.nodes| - 1 && e == StepEdge(k, b.nodes, i) {
          assert InnerStep(d, k, i);
        }
      }
    }
    if PathEdges(k, b) <= d.edges.values.Keys {
      assert EdgeKey(b.fork, b.nodes[0], Exploration, Some(k)) in PathEdges(k, b);
      assert EdgeKey(b.nodes[|b.nodes| - 1], b.merge, MergeEdge, Some(k)) in PathEdges(k, b);
      forall i | 0 <= i < |b.nodes| - 1 ensures InnerStep(d, k, i) {
        assert StepEdge(k, b.nodes, i) in PathEdges(k, b);
      }
    }
  }

  lemma {:induction false} BranchOfAt(d: Draft, order: seq<Key>, n: Key) returns (i: int)
    ensures match BranchOf(d, order, n)
            case None => forall j :: 0 <= j < |order| ==> !InBranch(d, order[j], n)
            case Some(k) =>
              0 <= i < |order| && order[i] == k && InBranch(d, k, n)
              && forall j :: i < j < |order| ==> !InBranch(d, order[j], n)
    decreases |order|
  {
    i := |order| - 1;
    if order != [] && !InBranch(d, order[i], n) {
      var front := order[..i];
      assert forall j :: 0 <= j < |front| ==> front[j] == order[j];
      i := BranchOfAt(d, front, n);
    }
  }

  lemma HomeIs(d: Draft, n: Key)
    ensures forall k :: Home(d, n, k) <==> BranchOf(d, d.branches.order, n) == Some(k)
  {
    var i := BranchOfAt(d, d.branches.order, n);
    var home := BranchOf(d, d.branches.order, n);
    if home.Some? {
      assert HomeAt(d, n, home.value, i);
    }
    forall k | Home(d, n, k) ensures home == Some(k) {
      var j :| HomeAt(d, n, k, j);
      assert home.Some? && i <= j && j <= i;
    }
  }

  // ---- The faults of a branch, of an edge and of an evaluator

  ghost predicate NoMergeFault(d: Draft, g: Pair)
    requires NonEmptyBranches(d)
  {
    && !ExplorationFault(d, MissingEvaluator(g)) && !ExplorationFault(d, MissingMerge(g))
    && !ExplorationFault(d, MergeUnselectedInput(g))
  }

  ghost predicate NoPathFault(d: Draft, k: Key)
    requires NonEmptyBranches(d)
  {
    forall e :: !ExplorationFault(d, PathEdgeMissing(k, e))
  }

  ghost predicate NoKindFault(d: Draft, b: Branch)
    requires NonEmptyBranches(d)
  {
    !ExplorationFault(d, ForkKind(b.fork)) && !ExplorationFault(d, MergeKind(b.merge))
  }

  ghost predicate NoBranchFault(d: Draft, k: Key)
    requires NonEmptyBranches(d) && k in d.branches.values
  {
    var b, g := d.branches.values[k], PairOf(d.branches.values[k]);
    NoKindFault(d, b) && !ExplorationFault(d, InsufficientBranches(g)) && NoPathFault(d, k) && NoMergeFault(d, g)
  }

  /** The ends of all branches exist. */
  ghost predicate EndsKnown(d: Draft) {
    forall k :: k in d.branches.values ==> d.branches.values[k].fork in d.nodes.values
                                           && d.branches.values[k].merge in d.nodes.values
  }

  lemma GroupKnown(d: Draft, k: Key)
    requires EndsKnown(d) && k in d.branches.values
    ensures KnownGroup(d, PairOf(d.branches.values[k]))
  {
    assert Group(d, PairOf(d.branches.values[k]));
  }

  /** What the three faults of a merge say. */
  lemma MergeFaults(d: Draft, g: Pair)
    requires NonEmptyBranches(d) && KnownGroup(d, g)
    ensures var judge := FirstJudge(d, d.nodes.order, GroupEnds(d, g));
            && (ExplorationFault(d, MissingEvaluator(g)) <==> judge.None?)
            && (ExplorationFault(d, MissingMerge(g)) <==> judge.Some? && judge.value !in Dependencies(d, g.1))
            && (ExplorationFault(d, MergeUnselectedInput(g)) <==>
                judge.Some? && Dependencies(d, g.1) * Interior(d, MembersOf(d, g)) != {})
  {
  }

  lemma MergesAre(d: Draft, k: Key)
    requires Tables(d) && NonEmptyBranches(d) && EndsKnown(d) && k in d.branches.values
    ensures MergesJudged(d, k) <==> NoMergeFault(d, PairOf(d.branches.values[k]))
  {
    var merge, g := d.branches.values[k].merge, PairOf(d.branches.values[k]);
    GroupKnown(d, k);
    MergeFaults(d, g);
    JudgeIs(d, k);
    DependsIs(d, merge);
    InteriorIs(d, k);
    InteriorFree(d, k, Interior(d, MembersOf(d, g)));
    var judge := FirstJudge(d, d.nodes.order, GroupEnds(d, g));
    MergesAreJudged(d, k, judge);
  }

  lemma MergesAreJudged(d: Draft, k: Key, judge: Option<Key>)
    requires k in d.branches.values && forall n :: JudgeOfGroup(d, k, n) <==> judge == Some(n)
    ensures MergesJudged(d, k) <==>
            && judge.Some? && DependsOn(d, d.branches.values[k].merge, judge.value)
            && forall l, n :: Siblings(d, k, l) && InBranch(d, l, n) ==> !DependsOn(d, d.branches.values[k].merge, n)
  {
    if judge.Some? {
      assert JudgeOfGroup(d, k, judge.value);
    }
  }

  lemma InteriorFree(d: Draft, k: Key, interior: set<Key>)
    requires k in d.branches.values
    requires forall n :: n in interior <==> exists l :: Siblings(d, k, l) && InBranch(d, l, n)
    ensures Dependencies(d, d.branches.values[k].merge) * interior == {} <==>
            forall l, n :: Siblings(d, k, l) && InBranch(d, l, n) ==> !DependsOn(d, d.branches.values[k].merge, n)
  {
    var merge := d.branches.values[k].merge;
    DependsIs(d, merge);
    var both := Dependencies(d, merge) * interior;
    if both == {} {
      forall l, n | Siblings(d, k, l) && InBranch(d, l, n) ensures !DependsOn(d, merge, n) {
        assert n in interior && n !in both;
      }
    } else {
      var n :| n in both;
      assert DependsOn(d, merge, n);
    }
  }

  lemma BranchIs(d: Draft, k: Key)
    requires Tables(d) && NonEmptyBranches(d) && EndsKnown(d) && k in d.branches.values
    ensures BranchFine(d, k) <==> NoBranchFault(d, k)
  {
    GroupKnown(d, k);
    TwoMembers(d, k);
    FewBranches(d, PairOf(d.branches.values[k]));
    PathIs(d, k);
    MergesAre(d, k);
    PathFaults(d, k);
    KindFaults(d, k);
  }

  lemma FewBranches(d: Draft, g: Pair)
    requires NonEmptyBranches(d) && KnownGroup(d, g)
    ensures ExplorationFault(d, InsufficientBranches(g)) <==> |MembersOf(d, g)| < 2
  {
  }

  lemma PathFaults(d: Draft, k: Key)
    requires NonEmptyBranches(d) && EndsKnown(d) && k in d.branches.values
    ensures PathEdges(k, d.branches.values[k]) <= d.edges.values.Keys <==> NoPathFault(d, k)
  {
    GroupKnown(d, k);
    if NoPathFault(d, k) {
      forall e | e in PathEdges(k, d.branches.values[k]) ensures e in d.edges.values {
        assert !ExplorationFault(d, PathEdgeMissing(k, e));
      }
    }
  }

  lemma KindFaults(d: Draft, k: Key)
    requires NonEmptyBranches(d) && EndsKnown(d) && k in d.branches.values
    ensures var b := d.branches.values[k];
            NoKindFault(d, b) <==> IsKind(d, b.fork, {Fork}) && IsKind(d, b.merge, {Merge})
  {
    GroupKnown(d, k);
    assert KnownGroup(d, (d.branches.values[k].fork, d.branches.values[k].merge));
  }

  lemma CrossIs(d: Draft, e: EdgeKey)
    ensures Crosses(d, e) <==> !StaysInside(d, e)
  {
    HomeIs(d, e.source);
    HomeIs(d, e.target);
    var s, t := BranchOf(d, d.branches.order, e.source), BranchOf(d, d.branches.order, e.target);
    if s.Some? && t.Some? {
      assert Home(d, e.source, s.value) && Home(d, e.target, t.value);
    }
  }

  lemma OffIs(d: Draft, e: EdgeKey)
    requires NonEmptyBranches(d)
    ensures OffPath(d, e) <==> !OnItsPath(d, e)
  {
  }

  lemma EdgeIs(d: Draft, e: EdgeKey)
    requires NonEmptyBranches(d) && e in d.edges.values
    ensures EdgeFine(d, e) <==> !ExplorationFault(d, CrossBranch(e)) && !ExplorationFault(d, OffBranchPath(e))
  {
    CrossIs(d, e);
    OffIs(d, e);
  }

  ghost predicate GroupJudged(d: Draft, n: Key, g: Pair)
    requires NonEmptyBranches(d)
  {
    Group(d, g) && GroupEnds(d, g) <= Dependencies(d, n)
  }

  lemma EvaluatorFault(d: Draft, n: Key)
    requires NonEmptyBranches(d) && IsKind(d, n, {Evaluator})
    ensures ExplorationFault(d, EvaluatorIncomplete(n)) <==> !exists g :: GroupJudged(d, n, g)
  {
    if g :| Group(d, g) && GroupEnds(d, g) <= Dependencies(d, n) {
      assert GroupJudged(d, n, g);
    }
    if g :| GroupJudged(d, n, g) {
      assert Group(d, g) && GroupEnds(d, g) <= Dependencies(d, n);
    }
  }

  lemma EvaluatorIs(d: Draft, n: Key)
    requires Tables(d) && NonEmptyBranches(d) && IsKind(d, n, {Evaluator})
    ensures ExplorationFault(d, EvaluatorIncomplete(n)) <==> !exists k :: k in d.branches.values && JudgesAll(d, k, n)
  {
    EvaluatorFault(d, n);
    if k :| k in d.branches.values && JudgesAll(d, k, n) {
      JudgesGroup(d, k, n);
    }
    if g :| GroupJudged(d, n, g) {
      var k :| k in d.branches.values && PairOf(d.branches.values[k]) == g;
      JudgesGroup(d, k, n);
    }
  }

  lemma JudgesGroup(d: Draft, k: Key, n: Key)
    requires Tables(d) && NonEmptyBranches(d) && IsKind(d, n, {Evaluator}) && k in d.branches.values
    ensures JudgesAll(d, k, n) <==> GroupJudged(d, n, PairOf(d.branches.values[k]))
  {
    JudgesIs(d, k, n);
    assert Group(d, PairOf(d.branches.values[k]));
  }

  lemma NoExplorationFault(d: Draft, f: Finding)
    requires Tables(d) && NonEmptyBranches(d) && EndsKnown(d) && ExplorationFine(d)
    ensures !ExplorationFault(d, f)
  {
    if f.CrossBranch? || f.OffBranchPath? {
      if f.edge in d.edges.values {
        EdgeIs(d, f.edge);
      }
    } else if f.EvaluatorIncomplete? {
      if IsKind(d, f.key, {Evaluator}) {
        EvaluatorIs(d, f.key);
      }
    } else if ExplorationFault(d, f) {
      var k := BranchBehind(d, f);
      assert BranchFine(d, k);
      BranchIs(d, k);
      assert NoBranchFault(d, k);
      FaultOfBranch(d, f, k);
    }
  }

  /** The fault is one of the group of the branch. */
  ghost predicate AboutBranch(d: Draft, f: Finding, k: Key)
    requires k in d.branches.values
  {
    var b := d.branches.values[k];
    match f
    case ForkKind(n) => n == b.fork
    case MergeKind(n) => n == b.merge
    case InsufficientBranches(g) => g == PairOf(b)
    case PathEdgeMissing(l, _) => l == k
    case MissingEvaluator(g) => g == PairOf(b)
    case MissingMerge(g) => g == PairOf(b)
    case MergeUnselectedInput(g) => g == PairOf(b)
    case _ => false
  }

  lemma FaultOfBranch(d: Draft, f: Finding, k: Key)
    requires NonEmptyBranches(d) && k in d.branches.values && AboutBranch(d, f, k) && NoBranchFault(d, k)
    ensures !ExplorationFault(d, f)
  {
  }

  lemma BranchBehind(d: Draft, f: Finding) returns (k: Key)
    requires NonEmptyBranches(d) && ExplorationFault(d, f)
    requires !f.CrossBranch? && !f.OffBranchPath? && !f.EvaluatorIncomplete?
    ensures k in d.branches.values && AboutBranch(d, f, k)
  {
    if f.ForkKind? {
      var m :| KnownGroup(d, (f.key, m));
      k :| k in d.branches.values && PairOf(d.branches.values[k]) == (f.key, m);
    } else if f.MergeKind? {
      var m :| KnownGroup(d, (m, f.key));
      k :| k in d.branches.values && PairOf(d.branches.values[k]) == (m, f.key);
    } else if f.PathEdgeMissing? {
      k := f.key;
    } else {
      k :| k in d.branches.values && PairOf(d.branches.values[k]) == f.pair;
    }
  }

  lemma ExplorationIs(d: Draft)
    requires Tables(d) && NonEmptyBranches(d) && EndsKnown(d)
    ensures ExplorationFine(d) <==> forall f :: !ExplorationFault(d, f)
  {
    if ExplorationFine(d) {
      forall f ensures !ExplorationFault(d, f) {
        NoExplorationFault(d, f);
      }
    }
    if forall f :: !ExplorationFault(d, f) {
      NothingAtFault(d);
    }
  }

  lemma NothingAtFault(d: Draft)
    requires Tables(d) && NonEmptyBranches(d) && EndsKnown(d) && forall f :: !ExplorationFault(d, f)
    ensures ExplorationFine(d)
  {
    forall k | k in d.branches.values ensures BranchFine(d, k) {
      NoFaultOfBranch(d, k);
      BranchIs(d, k);
    }
    forall e | e in d.edges.values ensures EdgeFine(d, e) {
      EdgeIs(d, e);
    }
    forall n | IsKind(d, n, {Evaluator}) ensures exists k :: k in d.branches.values && JudgesAll(d, k, n) {
      EvaluatorIs(d, n);
    }
  }

  lemma NoFaultOfBranch(d: Draft, k: Key)
    requires NonEmptyBranches(d) && k in d.branches.values && forall f :: !ExplorationFault(d, f)
    ensures NoBranchFault(d, k)
  {
  }

  // ---- Phases

  ghost predicate Holds(d: Draft, i: int, n: Key) {
    0 <= i < |d.phases.order| && d.phases.order[i] in d.phases.values && n in d.phases.values[d.phases.order[i]].nodes
  }

  ghost predicate IsGate(d: Draft, i: int, n: Key) {
    0 <= i < |d.phases.order| && d.phases.order[i] in d.phases.values && n == d.phases.values[d.phases.order[i]].gate
  }

  /** The edges inside the phase. */
  ghost function EdgesWithin(d: Draft, p: Phase): Edges {
    set e | e in d.edges.values && e.source in p.nodes && e.target in p.nodes :: (e.source, e.target)
  }

  /** A reviewer to which every node of the phase leads without leaving it, and nodes that can be done again. */
  ghost predicate PhaseEntryFine(d: Draft, p: Phase) {
    && IsKind(d, p.reviewer, {Reviewer}) && p.rework != []
    && (forall n :: n in p.rework ==> n in p.nodes && IsKind(d, n, {Work, Merge}))
    && forall n :: n in p.nodes ==> Reach(EdgesWithin(d, p), n, p.reviewer)
  }

  ghost predicate CrossingFine(d: Draft, e: EdgeKey) {
    forall i, j :: Holds(d, i, e.source) && Holds(d, j, e.target) ==> i <= j && (i < j ==> IsGate(d, i, e.source))
  }

  /** What nothing in its phase leads to waits for the gate of the phase before. */
  ghost predicate EntryGuarded(d: Draft, i: int, n: Key) {
    i > 0 && Holds(d, i, n) && (forall s :: Holds(d, i, s) ==> !HasEdge(d, s, n)) ==>
      exists g :: IsGate(d, i - 1, g) && DependsOn(d, n, g)
  }

  /** The phases partition the nodes and follow each other, gate by gate. */
  ghost predicate PhasesFine(d: Draft) {
    && d.phases.values != map[] && (forall k :: k in d.phases.values ==> PhaseEntryFine(d, d.phases.values[k]))
    && (forall n :: n in d.nodes.values ==> exists i :: Holds(d, i, n))
    && (forall n, i, j :: Holds(d, i, n) && Holds(d, j, n) ==> i == j)
    && (forall e :: e in d.edges.values ==> CrossingFine(d, e))
    && forall i, n :: EntryGuarded(d, i, n)
  }

  lemma WithinIs(d: Draft, p: Phase)
    requires d.edges.Valid()
    ensures EdgesWithin(d, p) == PhaseEdges(d, p)
  {
    assert forall n :: n in Elements(p.nodes) <==> n in p.nodes;
    assert forall e :: e in d.edges.values <==> e in d.edges.order;
  }

  lemma EntryIs(d: Draft, k: Key)
    requires d.edges.Valid() && k in d.phases.values
    ensures PhaseEntryFine(d, d.phases.values[k]) <==>
            !PhaseFault(d, PhaseReviewerWrong(k)) && !PhaseFault(d, PhaseReworkWrong(k))
            && !PhaseFault(d, PhaseReviewIncomplete(k))
  {
    WithinIs(d, d.phases.values[k]);
  }

  lemma BackFault(d: Draft, e: EdgeKey)
    requires e in d.edges.values
    ensures PhaseFault(d, PhaseBackEdge(e)) <==> exists i, j :: Holds(d, i, e.source) && Holds(d, j, e.target) && i > j
  {
    if i, j :| InPhase(d, e.source, i) && InPhase(d, e.target, j) && i > j {
      assert Holds(d, i, e.source) && Holds(d, j, e.target);
    }
    if i, j :| Holds(d, i, e.source) && Holds(d, j, e.target) && i > j {
      assert InPhase(d, e.source, i) && InPhase(d, e.target, j);
    }
  }

  /** Phase `i` is left by the edge, and not from its gate. */
  ghost predicate BypassAt(d: Draft, e: EdgeKey, i: int, j: int) {
    Holds(d, i, e.source) && Holds(d, j, e.target) && i < j && !IsGate(d, i, e.source)
  }

  lemma BypassIs(d: Draft, e: EdgeKey, i: int, j: int)
    ensures BypassAt(d, e, i, j) <==>
            InPhase(d, e.source, i) && InPhase(d, e.target, j) && i < j
            && e.source != d.phases.values[d.phases.order[i]].gate
  {
  }

  lemma BypassShows(d: Draft, e: EdgeKey, i: int, j: int)
    requires e in d.edges.values && BypassAt(d, e, i, j)
    ensures PhaseFault(d, PhaseGateBypassed(e))
  {
    BypassIs(d, e, i, j);
    assert InPhase(d, e.source, i) && InPhase(d, e.target, j);
  }

  lemma BypassFault(d: Draft, e: EdgeKey)
    requires e in d.edges.values
    ensures PhaseFault(d, PhaseGateBypassed(e)) <==> exists i, j :: BypassAt(d, e, i, j)
  {
    if PhaseFault(d, PhaseGateBypassed(e)) {
      var i, j :| InPhase(d, e.source, i) && InPhase(d, e.target, j) && i < j
                  && e.source != d.phases.values[d.phases.order[i]].gate;
      BypassIs(d, e, i, j);
    }
    if i, j :| BypassAt(d, e, i, j) {
      BypassShows(d, e, i, j);
    }
  }

  lemma CrossingIs(d: Draft, e: EdgeKey)
    requires e in d.edges.values
    ensures CrossingFine(d, e) <==> !PhaseFault(d, PhaseBackEdge(e)) && !PhaseFault(d, PhaseGateBypassed(e))
  {
    BackFault(d, e);
    BypassFault(d, e);
    if i, j :| BypassAt(d, e, i, j) {
      assert Holds(d, i, e.source) && Holds(d, j, e.target);
    }
    if !CrossingFine(d, e) {
      var i, j :| Holds(d, i, e.source) && Holds(d, j, e.target)
                  && !(i <= j && (i < j ==> IsGate(d, i, e.source)));
      assert i > j || BypassAt(d, e, i, j);
    }
  }

  lemma RootIs(d: Draft, i: int, n: Key)
    requires Tables(d) && 0 <= i < |d.phases.order|
    ensures d.phases.order[i] in d.phases.values
    ensures PhaseRoot(d, d.phases.values[d.phases.order[i]], n) <==>
            Holds(d, i, n) && forall s :: Holds(d, i, s) ==> !HasEdge(d, s, n)
  {
    assert d.phases.order[i] in d.phases.order;
    var p := d.phases.values[d.phases.order[i]];
    if e :| e in d.edges.values && e.target == n && e.source in p.nodes {
      assert Holds(d, i, e.source) && HasEdge(d, e.source, n);
    }
  }

  lemma GuardedIs(d: Draft, i: int, n: Key)
    requires Tables(d) && 0 < i < |d.phases.order|
    ensures EntryGuarded(d, i, n) <==> !Unguarded(d, i, n)
  {
    RootIs(d, i, n);
    RootIs(d, i - 1, n);
    DependsIs(d, n);
    assert IsGate(d, i - 1, d.phases.values[d.phases.order[i - 1]].gate);
  }

  lemma GuardFault(d: Draft, i: int, n: Key)
    requires Tables(d) && 0 < i < |d.phases.order|
    ensures PhaseFault(d, PhaseRootUnguarded(d.phases.order[i], n)) <==> !EntryGuarded(d, i, n)
  {
    GuardedIs(d, i, n);
    forall j | 0 < j < |d.phases.order| && d.phases.order[j] == d.phases.order[i] ensures j == i {
      DistinctAt(d.phases.order, i, j);
    }
  }

  /** What soundness of the draft gives the phases. */
  ghost predicate PhasesNamed(d: Draft) {
    forall k :: k in d.phases.values ==> AllKnown(d, d.phases.values[k].nodes) && NoRepeat(d.phases.values[k].nodes)
  }

  lemma KnownPhase(d: Draft, n: Key, i: int)
    requires PhasesNamed(d)
    ensures InKnownPhase(d, n, i) <==> Holds(d, i, n)
  {
  }

  lemma OverlapFault(d: Draft, k: Key, n: Key)
    requires Tables(d) && PhasesNamed(d) && k in d.phases.values
    ensures PhaseFault(d, PhaseOverlap(k, n)) <==>
            n in d.phases.values[k].nodes && exists i, j :: i != j && Holds(d, i, n) && Holds(d, j, n)
  {
    var i := PlaceOf(d.phases.order, k);
    if n in d.phases.values[k].nodes {
      OtherPlace(d, i, n);
    }
  }

  lemma OtherPlace(d: Draft, i: int, n: Key)
    requires d.phases.Valid() && Holds(d, i, n)
    ensures (exists j :: InPhase(d, n, j) && d.phases.order[j] != d.phases.order[i]) <==>
            exists a, b :: a != b && Holds(d, a, n) && Holds(d, b, n)
  {
    if j :| InPhase(d, n, j) && d.phases.order[j] != d.phases.order[i] {
      assert j != i && Holds(d, j, n);
    }
    if a, b :| a != b && Holds(d, a, n) && Holds(d, b, n) {
      var j := if a == i then b else a;
      assert j < i ==> Differ(d.phases.order, j, i);
      assert i < j ==> Differ(d.phases.order, i, j);
      assert InPhase(d, n, j);
    }
  }

  lemma OmitFault(d: Draft, n: Key)
    requires PhasesNamed(d) && n in d.nodes.values
    ensures PhaseFault(d, PhaseOmits(n)) <==> !exists i :: Holds(d, i, n)
  {
    forall i ensures InKnownPhase(d, n, i) <==> Holds(d, i, n) {
      KnownPhase(d, n, i);
    }
  }

  lemma EntriesAreFine(d: Draft, f: Finding)
    requires Tables(d) && PhasesNamed(d) && PhasesFine(d)
    requires AboutEntry(f)
    ensures !PhaseFault(d, f)
  {
    if !f.PhasesRequired? && f.key in d.phases.values {
      EntryIs(d, f.key);
    }
  }

  lemma RootsAreFine(d: Draft, k: Key, n: Key)
    requires Tables(d) && forall i :: EntryGuarded(d, i, n)
    ensures !PhaseFault(d, PhaseRootUnguarded(k, n))
  {
    forall i | 0 < i < |d.phases.order| && d.phases.order[i] == k ensures !Unguarded(d, i, n) {
      assert EntryGuarded(d, i, n);
      GuardedIs(d, i, n);
    }
  }

  ghost predicate OfPhases(f: Finding) {
    || AboutEntry(f) || f.PhaseBackEdge? || f.PhaseGateBypassed? || f.PhaseRootUnguarded? || f.PhaseOmits?
    || f.PhaseOverlap?
  }

  lemma OtherFault(d: Draft, f: Finding)
    requires !OfPhases(f)
    ensures !PhaseFault(d, f)
  {
  }

  lemma PhasesAreFine(d: Draft, f: Finding)
    requires Tables(d) && PhasesNamed(d) && PhasesFine(d)
    ensures !PhaseFault(d, f)
  {
    NotAtFault(d, f);
    if !OfPhases(f) {
      OtherFault(d, f);
    } else if f.PhaseOmits? && f.node in d.nodes.values {
      OmitFault(d, f.node);
    } else if f.PhaseOverlap? && f.key in d.phases.values {
      OverlapFault(d, f.key, f.node);
    } else if (f.PhaseBackEdge? || f.PhaseGateBypassed?) && f.edge in d.edges.values {
      CrossingIs(d, f.edge);
    } else if f.PhaseRootUnguarded? {
      RootsAreFine(d, f.key, f.node);
    } else if AboutEntry(f) {
      EntriesAreFine(d, f);
    }
  }

  ghost predicate AboutEntry(f: Finding) {
    f.PhasesRequired? || f.PhaseUnknownNode? || f.PhaseReviewerWrong? || f.PhaseReworkWrong? || f.PhaseReviewIncomplete?
  }

  /** A finding about something that is not there says nothing. */
  lemma NotAtFault(d: Draft, f: Finding)
    ensures f.PhaseOmits? && f.node !in d.nodes.values ==> !PhaseFault(d, f)
    ensures f.PhaseOverlap? && f.key !in d.phases.values ==> !PhaseFault(d, f)
    ensures (f.PhaseBackEdge? || f.PhaseGateBypassed?) && f.edge !in d.edges.values ==> !PhaseFault(d, f)
  {
  }

  lemma PhaseEntriesAreOk(d: Draft)
    requires Tables(d) && PhasesOk(d)
    ensures d.phases.values != map[]
    ensures forall k :: k in d.phases.values ==> PhaseEntryFine(d, d.phases.values[k])
  {
    assert !PhaseFault(d, PhasesRequired);
    forall k | k in d.phases.values ensures PhaseEntryFine(d, d.phases.values[k]) {
      EntryIs(d, k);
    }
  }

  lemma PhasePlacesAreOk(d: Draft)
    requires Tables(d) && PhasesNamed(d) && PhasesOk(d)
    ensures forall n :: n in d.nodes.values ==> exists i :: Holds(d, i, n)
    ensures forall n, i, j :: Holds(d, i, n) && Holds(d, j, n) ==> i == j
  {
    forall n | n in d.nodes.values ensures exists i :: Holds(d, i, n) {
      OmitFault(d, n);
    }
    forall n, i, j | Holds(d, i, n) && Holds(d, j, n) ensures i == j {
      OverlapFault(d, d.phases.order[i], n);
    }
  }

  lemma PhasesAreOk(d: Draft)
    requires Tables(d) && PhasesNamed(d) && PhasesOk(d)
    ensures PhasesFine(d)
  {
    PhaseEntriesAreOk(d);
    PhasePlacesAreOk(d);
    forall e | e in d.edges.values ensures CrossingFine(d, e) {
      CrossingIs(d, e);
    }
    forall i, n ensures EntryGuarded(d, i, n) {
      if 0 < i < |d.phases.order| {
        GuardFault(d, i, n);
      }
    }
  }

  lemma PhasesAre(d: Draft)
    requires Tables(d) && PhasesNamed(d)
    ensures PhasesFine(d) <==> PhasesOk(d)
  {
    if PhasesFine(d) {
      forall f ensures !PhaseFault(d, f) {
        PhasesAreFine(d, f);
      }
    }
    if PhasesOk(d) {
      PhasesAreOk(d);
    }
  }

  // ---- Cycles, budget and retained gates

  ghost function AllEdges(d: Draft): Edges {
    set e | e in d.edges.values :: (e.source, e.target)
  }

  lemma CyclesAre(d: Draft)
    requires EdgesKnown(d)
    ensures Acyclic(AllEdges(d)) <==> forall f :: !CycleFault(d, f)
  {
    assert forall e :: e in d.edges.values <==> e in d.edges.order;
    assert AllEdges(d) == PlanEdges(d);
    OneStuckEdge(d);
    if forall f :: !CycleFault(d, f) {
      forall i ensures !FirstStuckEdge(d.nodes.values.Keys, d.edges.order, i) {
        if FirstStuckEdge(d.nodes.values.Keys, d.edges.order, i) {
          assert CycleFault(d, CycleDetected(d.edges.order[i]));
        }
      }
      NoStuckEdge(d.nodes.values.Keys, d.edges.order);
    }
  }

  ghost function SiblingsOf(d: Draft, k: Key): set<Key> {
    set l | l in d.branches.values && Siblings(d, k, l)
  }

  ghost predicate BudgetFine(c: Config, d: Draft) {
    && (forall k :: k in d.branches.values ==> |SiblingsOf(d, k)| <= c.maxWidth
                                               && |d.branches.values[k].nodes| <= c.maxDepth)
    && |d.nodes.values.Keys| <= c.maxAttempts
  }

  lemma {:induction false} DistinctCount<T>(s: seq<T>, all: set<T>)
    requires Distinct(s) && forall x :: x in all <==> x in s
    ensures |all| == |s|
    decreases |s|
  {
    if s != [] {
      var front, last := s[..|s| - 1], s[|s| - 1];
      forall i, j | 0 <= i < j < |front| ensures Differ(front, i, j) {
        assert Differ(s, i, j);
      }
      forall i | 0 <= i < |front| ensures front[i] != last {
        assert Differ(s, i, |s| - 1);
      }
      assert s == front + [last];
      DistinctCount(front, all - {last});
    }
  }

  lemma WidthOf(d: Draft, k: Key)
    requires Tables(d) && k in d.branches.values
    ensures |SiblingsOf(d, k)| == |MembersOf(d, PairOf(d.branches.values[k]))|
  {
    MemberIs(d, k);
    MembersDistinct(d.branches.values, d.branches.order, PairOf(d.branches.values[k]));
    DistinctCount(MembersOf(d, PairOf(d.branches.values[k])), SiblingsOf(d, k));
  }

  lemma BudgetIs(c: Config, d: Draft)
    requires Tables(d)
    ensures BudgetFine(c, d) <==> forall f :: !BudgetFault(c, d, f)
  {
    DistinctCount(d.nodes.order, d.nodes.values.Keys);
    forall k | k in d.branches.values
      ensures |SiblingsOf(d, k)| == |MembersOf(d, PairOf(d.branches.values[k]))|
    {
      WidthOf(d, k);
    }
    if g :| |MembersOf(d, g)| > c.maxWidth {
      GroupIsUsed(d, g);
      var k :| k in d.branches.values && PairOf(d.branches.values[k]) == g;
      assert |SiblingsOf(d, k)| > c.maxWidth;
    }
    if BudgetFine(c, d) {
      assert !WiderThan(d, c.maxWidth) && !DeeperThan(d, c.maxDepth);
    } else {
      BudgetExceedsAt(c, d);
    }
  }

  lemma BudgetExceedsAt(c: Config, d: Draft)
    requires !BudgetFine(c, d) && |d.nodes.order| == |d.nodes.values.Keys|
    requires forall k :: k in d.branches.values ==>
               |SiblingsOf(d, k)| == |MembersOf(d, PairOf(d.branches.values[k]))|
    ensures BudgetFault(c, d, BudgetExceeded)
  {
    if k :| k in d.branches.values && |SiblingsOf(d, k)| > c.maxWidth {
      assert |MembersOf(d, PairOf(d.branches.values[k]))| > c.maxWidth;
    }
  }

  /** A sound draft is at fault in none of its bindings. */
  lemma BindingsAreFine(c: Config, d: Draft, f: Finding)
    requires Sound(c, d)
    ensures !RetainedFault(d, f)
  {
    forall k | k in d.owners.Values ensures k in d.checks && OwnerSound(d.nodes.values, k, d.checks[k]) {
      var g :| g in d.owners && d.owners[g] == k;
    }
    forall k | k in d.checks ensures k in d.owners.Values && OwnerSound(d.nodes.values, k, d.checks[k]) {
      var g :| Owns(d.owners, g, k);
    }
    if f.GateOwnerTwice? {
      forall a, b | a in d.owners && b in d.owners && d.owners[a] == f.key && d.owners[b] == f.key ensures a == b {
        assert Owns(d.owners, a, f.key) && Owns(d.owners, b, f.key);
      }
    }
  }

  // ---- The whole plan

  /** Everything that a plan must be. */
  ghost predicate WellPlanned(c: Config, d: Draft) {
    d.nodes.values != map[] && EndFine(c, d) && GraphFine(c, d) && PhasesFine(d) && BudgetFine(c, d)
  }

  ghost predicate EndFine(c: Config, d: Draft) {
    SinkFine(c, d) && GatesFine(c, d) && QuestionsFine(c, d)
  }

  ghost predicate GraphFine(c: Config, d: Draft) {
    Acyclic(AllEdges(d)) && NodesFine(c, d) && (d.branches.values != map[] ==> ExplorationFine(d))
  }

  lemma SoundTables(c: Config, d: Draft)
    requires Sound(c, d)
    ensures Checkable(d) && EdgesKnown(d) && EndsKnown(d) && PhasesNamed(d)
    ensures forall f :: !EdgeFault(d, f) && !BranchFault(d, f)
  {
    SoundIsCheckable(c, d);
    SoundEdgesKnown(c, d);
    forall k | k in d.branches.values
      ensures forall n :: BranchUses(d.branches.values[k], n) ==> n in d.nodes.values
    {
      assert BranchSound(d.nodes.values.Keys, k, d.branches.values[k]);
    }
    forall k | k in d.branches.values
      ensures d.branches.values[k].fork in d.nodes.values && d.branches.values[k].merge in d.nodes.values
    {
      assert BranchUses(d.branches.values[k], d.branches.values[k].fork);
      assert BranchUses(d.branches.values[k], d.branches.values[k].merge);
    }
    forall k | k in d.phases.values
      ensures AllKnown(d, d.phases.values[k].nodes) && NoRepeat(d.phases.values[k].nodes)
    {
      assert PhaseSound(d.nodes.values.Keys, k, d.phases.values[k]);
    }
    forall e | e in d.edges.values ensures e.branch.Some? ==> e.branch.value in d.branches.values {
      assert EdgeSound(d.nodes.values.Keys, d.branches.values.Keys, e, d.edges.values[e]);
    }
  }

  ghost predicate NoEndFault(c: Config, d: Draft) {
    && (forall f :: !SinkFault(c, d, f)) && (forall f :: !GateFault(c, d, f)) && forall f :: !QuestionFault(c, d, f)
  }

  ghost predicate NoGraphFault(c: Config, d: Draft)
    requires NonEmptyBranches(d)
  {
    && (forall f :: !CycleFault(d, f)) && (forall f :: !NodeFault(c, d, f))
    && (d.branches.values != map[] ==> forall f :: !ExplorationFault(d, f))
  }

  ghost predicate NoBudgetFault(c: Config, d: Draft) {
    forall f :: !BudgetFault(c, d, f)
  }

  lemma EndIsFine(c: Config, d: Draft)
    requires Tables(d)
    ensures EndFine(c, d) <==> NoEndFault(c, d)
  {
    SinkIs(c, d);
    GatesAre(c, d);
    QuestionsAre(c, d);
  }

  lemma GraphIsFine(c: Config, d: Draft)
    requires Tables(d) && NonEmptyBranches(d) && EdgesKnown(d) && EndsKnown(d)
    ensures GraphFine(c, d) <==> NoGraphFault(c, d)
  {
    CyclesAre(d);
    NodesAre(c, d);
    ExplorationIs(d);
  }

  lemma PartsAre(c: Config, d: Draft)
    requires Sound(c, d) && Checkable(d)
    ensures WellPlanned(c, d) <==>
            d.nodes.values != map[] && NoEndFault(c, d) && NoGraphFault(c, d) && PhasesOk(d) && NoBudgetFault(c, d)
  {
    SoundTables(c, d);
    EndIsFine(c, d);
    GraphIsFine(c, d);
    PhasesAre(d);
    BudgetIs(c, d);
  }

  lemma NoReferenceFault(c: Config, d: Draft, f: Finding)
    requires NoEndFault(c, d) && !EdgeFault(d, f) && !BranchFault(d, f)
    ensures !ReferenceFault(c, d, f)
  {
  }

  lemma NoStructureFault(c: Config, d: Draft, f: Finding)
    requires NonEmptyBranches(d) && NoGraphFault(c, d)
    ensures !StructureFault(c, d, f)
  {
  }

  lemma NoFaultThen(c: Config, d: Draft, f: Finding)
    requires Checkable(d) && PhasesOk(d) && NoBudgetFault(c, d)
    requires !ReferenceFault(c, d, f) && !StructureFault(c, d, f) && !RetainedFault(d, f)
    ensures !Fault(c, d, f)
  {
  }

  lemma NoFaults(c: Config, d: Draft)
    requires Checkable(d) && Accepted(c, d)
    ensures NoEndFault(c, d) && NoGraphFault(c, d) && PhasesOk(d) && NoBudgetFault(c, d)
  {
    forall f ensures !SinkFault(c, d, f) { NoFault(c, d, f); }
    forall f ensures !GateFault(c, d, f) { NoFault(c, d, f); }
    forall f ensures !QuestionFault(c, d, f) { NoFault(c, d, f); }
    forall f ensures !CycleFault(d, f) { NoFault(c, d, f); }
    forall f ensures !NodeFault(c, d, f) { NoFault(c, d, f); }
    if d.branches.values != map[] {
      forall f ensures !ExplorationFault(d, f) { NoFault(c, d, f); }
    }
    forall f ensures !PhaseFault(d, f) { NoFault(c, d, f); }
    forall f ensures !BudgetFault(c, d, f) { NoFault(c, d, f); }
  }

  /** A sound draft is accepted exactly when it is well planned. */
  lemma AcceptedIsWellPlanned(c: Config, d: Draft)
    requires Sound(c, d)
    ensures Checkable(d)
    ensures Accepted(c, d) <==> WellPlanned(c, d)
  {
    SoundTables(c, d);
    PartsAre(c, d);
    if WellPlanned(c, d) {
      forall f ensures !Fault(c, d, f) {
        BindingsAreFine(c, d, f);
        NoReferenceFault(c, d, f);
        NoStructureFault(c, d, f);
        NoFaultThen(c, d, f);
      }
    }
    if Accepted(c, d) {
      NoFaults(c, d);
    }
  }
}

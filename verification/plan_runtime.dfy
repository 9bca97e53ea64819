/** The runtime that executes planner tool calls on one draft: every tool changes the draft
    exactly as `PlanDraft.Edit` says, and only an accepted draft yields a template. */
module PlanRuntime {
  import opened Values
  import opened Graphs
  import opened PlanDraft
  import opened PlanIntegrity
  import opened PlanOrder
  import opened PlanChecks
  import opened PlanValidation
  import opened PlanTheorems
  import opened PlanTemplate

  const MAX_PLAN_OPERATIONS := 128
  const MAX_VALIDATION_RETRIES := 4

  datatype Mutation = Accepted | Rejected(issue: Issue) | AlreadyFinished | BudgetExhausted

  datatype Verdict = Passed | Failed(findings: set<Finding>, exhausted: bool)

  /** What a mutation answers: refused when finished or out of budget, else what the edit says. */
  function Outcome(edited: Edited, finished: bool, used: nat): Mutation {
    if finished then AlreadyFinished
    else if used >= MAX_PLAN_OPERATIONS then BudgetExhausted
    else match edited
      case Ok(_) => Accepted
      case Err(e) => Rejected(e)
  }

  /** The tool did what `edited` says: the new draft, or the issue and no change. */
  predicate Did(before: Draft, after: Draft, issue: Option<Issue>, edited: Edited) {
    match edited
    case Ok(changed) => issue.None? && after == changed
    case Err(e) => issue == Some(e) && after == before
  }

  /** The drafts that tool calls can reach. */
  ghost function SoundDrafts(c: Config): iset<Draft> {
    iset d: Draft | Sound(c, d)
  }

  /** The drafts without a fault. */
  ghost function Acceptable(c: Config): iset<Draft> {
    iset d: Draft | Finished(c, d)
  }

  /** What may be found wrong with the draft. */
  ghost function Faults(c: Config, d: Draft): iset<Finding> {
    iset f: Finding | IsFault(c, d, f)
  }

  /** An empty graph, a fault of the graph, or a blank event on the template of a faultless one. */
  ghost predicate IsFault(c: Config, d: Draft, f: Finding) {
    match f
    case EmptyGraph => d.nodes.values == map[]
    case TemplateInvalid => Finished(c, d) && !MessagesOk(c.eventTypes)
    case _ => Checkable(d) && Fault(c, d, f)
  }

  /** The templates of an accepted draft, which pass every constructor check. */
  ghost function Templates(c: Config, d: Draft): iset<Template> {
    iset t: Template | Finished(c, d) && Composes(c, d, t) && TemplateOk(c, t)
  }

  lemma FindingsAreFaults(c: Config, d: Draft, found: set<Finding>)
    requires Checkable(d) && (d.nodes.values == map[] ==> found == {EmptyGraph})
    requires d.nodes.values != map[] ==> forall f :: f in found ==> Fault(c, d, f)
    ensures forall f :: f in found ==> f in Faults(c, d)
  {
    forall f | f in found ensures f in Faults(c, d) {
      if d.nodes.values != map[] {
        assert Fault(c, d, f);
      }
    }
  }

  /** The findings of the whole validation, all of them real. */
  method FindFaults(c: Config, d: Draft) returns (found: set<Finding>)
    requires d in SoundDrafts(c)
    ensures found == {} <==> d in Acceptable(c)
    ensures forall f :: f in found ==> f in Faults(c, d)
  {
    SoundIsCheckable(c, d);
    found := ValidateGraph(c, d);
    FindingsAreFaults(c, d, found);
  }

  lemma ReadyToCompose(c: Config, d: Draft)
    requires d in Acceptable(c)
    ensures Tables(d) && exists n :: IsSink(d, n)
  {
    var sink := FinishedSink(c, d);
  }

  lemma ComposedIsTemplate(c: Config, d: Draft, t: Template)
    requires d in Acceptable(c) && Tables(d) && IsSink(d, t.final) && Composes(c, d, t)
    ensures t.eventTypes == c.eventTypes
    ensures MessagesOk(c.eventTypes) ==> t in Templates(c, d)
  {
    AcceptedComposes(c, d, t);
  }

  lemma BlankIsFault(c: Config, d: Draft)
    requires d in Acceptable(c) && !MessagesOk(c.eventTypes)
    ensures TemplateInvalid in Faults(c, d)
  {
  }

  /** The template of an accepted draft, which its constructor refuses only for a blank event. */
  method ComposeTemplate(c: Config, d: Draft) returns (t: Option<Template>)
    requires d in Acceptable(c)
    ensures t.Some? <==> MessagesOk(c.eventTypes)
    ensures t.Some? ==> t.value in Templates(c, d)
    ensures t.None? ==> TemplateInvalid in Faults(c, d)
  {
    ReadyToCompose(c, d);
    var composed := Compose(c, d);
    ComposedIsTemplate(c, d, composed);
    if !MessagesOk(composed.eventTypes) {
      BlankIsFault(c, d);
      return None;
    }
    t := Some(composed);
  }

  method TryFinish(c: Config, d: Draft) returns (found: set<Finding>, t: Option<Template>)
    requires d in SoundDrafts(c)
    ensures found == {} <==> d in Acceptable(c) && MessagesOk(c.eventTypes)
    ensures forall f :: f in found ==> f in Faults(c, d)
    ensures found == {} <==> t.Some?
    ensures t.Some? ==> t.value in Templates(c, d)
  {
    found := FindFaults(c, d);
    t := None;
    if found == {} {
      t := ComposeTemplate(c, d);
      if t.None? {
        found := {TemplateInvalid};
      }
    }
  }

  lemma ToolKeeps(c: Config, d: Draft, t: Tool)
    requires d in SoundDrafts(c)
    ensures Edit(c, d, t).Ok? ==> Edit(c, d, t).value in SoundDrafts(c)
  {
    if Edit(c, d, t).Ok? {
      EditKeeps(c, d, t);
    }
  }

  class PlanGraphToolRuntime {
    const config: Config
    var nodes: Dict<Key, Node>
    var edges: EdgeTable
    var branches: Dict<Key, Branch>
    var phases: Dict<Key, Phase>
    var gates: Dict<Key, Gate>
    var finalArgv: seq<string>
    var finalQuestion: Option<string>
    var checks: map<Key, seq<string>>
    var owners: map<string, Key>
    var operationsUsed: nat
    var validationFailures: nat
    var template: Option<Template>

    function Current(): Draft
      reads this`nodes, this`edges, this`branches, this`phases, this`gates,
            this`finalArgv, this`finalQuestion, this`checks, this`owners
    {
      Draft(nodes, edges, branches, phases, gates, finalArgv, finalQuestion, checks, owners)
    }

    /** The draft is sound, at most 128 mutations were made, and a template that was handed out
        passes every constructor check and still describes the draft. */
    ghost predicate Valid()
      reads this
    {
      && Current() in SoundDrafts(config) && operationsUsed <= MAX_PLAN_OPERATIONS
      && (template.Some? ==> template.value in Templates(config, Current()))
    }

    constructor (config: Config, seed: Draft)
      requires seed in SoundDrafts(config)
      ensures Valid() && Current() == seed && this.config == config
      ensures operationsUsed == 0 && validationFailures == 0 && template.None?
    {
      this.config := config;
      nodes, edges, branches, phases, gates := seed.nodes, seed.edges, seed.branches, seed.phases, seed.gates;
      finalArgv, finalQuestion, checks, owners := seed.finalArgv, seed.finalQuestion, seed.checks, seed.owners;
      operationsUsed, validationFailures, template := 0, 0, None;
    }

    method AddNode(key: Key, node: Node) returns (issue: Option<Issue>)
      modifies this`nodes
      ensures Did(old(Current()), Current(), issue, DoAddNode(old(Current()), key, node))
    {
      if key == "" {
        return Some(InvalidArgument);
      }
      if key in nodes.values {
        return Some(DuplicateNodeKey);
      }
      if node.title == "" || node.instruction == "" {
        return Some(InvalidArgument);
      }
      nodes := nodes.Put(key, node);
      issue := None;
    }

    method UpdateNode(t: Tool) returns (issue: Option<Issue>)
      requires t.UpdateNode?
      modifies this`nodes
      ensures Did(old(Current()), Current(), issue, DoUpdateNode(config, old(Current()), t))
    {
      if t.key == "" {
        return Some(InvalidArgument);
      }
      if t.key !in nodes.values {
        return Some(UnknownNode);
      }
      if t.title == "" || t.instruction == "" {
        return Some(InvalidArgument);
      }
      var replacement := Updated(nodes.values[t.key], t);
      if config.processMode && t.key in checks && !CanOwnGate(replacement.kind) {
        return Some(RetainedGateInvalidKind);
      }
      nodes := nodes.Put(t.key, replacement);
      issue := None;
    }

    method RemoveNode(key: Key) returns (issue: Option<Issue>)
      modifies this`nodes, this`gates, this`edges
      ensures Did(old(Current()), Current(), issue, DoRemoveNode(config, old(Current()), key))
    {
      if key == "" {
        return Some(InvalidArgument);
      }
      if key !in nodes.values {
        return Some(UnknownNode);
      }
      if config.processMode && key in checks {
        return Some(NodeGateMoveRequired);
      }
      if exists b :: b in branches.values && BranchUses(branches.values[b], key) {
        return Some(NodeInUse);
      }
      if exists p :: p in phases.values && key in phases.values[p].nodes {
        return Some(NodeInUse);
      }
      nodes := nodes.Del(key);
      gates := gates.Del(key);
      edges := EdgesLeft(edges, key);
      issue := None;
    }

    method AddEdge(e: EdgeKey, condition: Option<string>) returns (issue: Option<Issue>)
      modifies this`edges
      ensures Did(old(Current()), Current(), issue, DoAddEdge(old(Current()), e, condition))
    {
      if e.source == "" || e.target == "" || BlankOption(e.branch) || BlankOption(condition) {
        return Some(InvalidArgument);
      }
      if e.source !in nodes.values || e.target !in nodes.values {
        return Some(UnknownNode);
      }
      if e.source == e.target {
        return Some(SelfDependency);
      }
      if e.branch.Some? && e.branch.value !in branches.values {
        return Some(UnknownBranch);
      }
      if (e.kind.Exploration? || e.kind.MergeEdge?) && e.branch.None? {
        return Some(EdgeRequiresBranch);
      }
      if e.kind.Conditional? && condition.None? {
        return Some(ConditionRequired);
      }
      if !e.kind.Conditional? && condition.Some? {
        return Some(ConditionNotAllowed);
      }
      if e in edges.values {
        return Some(DuplicateEdge);
      }
      if exists other :: other in edges.values && SameDependency(e, other) {
        return Some(DuplicateEdge);
      }
      edges := edges.Put(e, condition);
      issue := None;
    }

    method RemoveEdge(e: EdgeKey) returns (issue: Option<Issue>)
      modifies this`edges
      ensures Did(old(Current()), Current(), issue, DoRemoveEdge(old(Current()), e))
    {
      if e.source == "" || e.target == "" || BlankOption(e.branch) {
        return Some(InvalidArgument);
      }
      if e in edges.values {
        edges := edges.Del(e);
        return None;
      }
      var like := FirstLike(edges.order, e);
      if like.None? {
        return Some(UnknownEdge);
      }
      edges := edges.Del(like.value);
      issue := None;
    }

    method SetBranch(key: Key, b: Branch) returns (issue: Option<Issue>)
      modifies this`branches
      ensures Did(old(Current()), Current(), issue, DoSetBranch(old(Current()), key, b))
    {
      if key == "" || b.caption == "" || b.fork == "" || b.merge == "" || !NonBlank(b.nodes) {
        return Some(InvalidArgument);
      }
      if !NoRepeat(b.nodes) {
        return Some(DuplicateReference);
      }
      if b.fork !in nodes.values || b.merge !in nodes.values || exists n :: n in b.nodes && n !in nodes.values {
        return Some(UnknownNode);
      }
      if b.fork == b.merge || b.fork in b.nodes || b.merge in b.nodes {
        return Some(BranchInvalid);
      }
      branches := branches.Put(key, b);
      issue := None;
    }

    method RemoveBranch(key: Key) returns (issue: Option<Issue>)
      modifies this`branches
      ensures Did(old(Current()), Current(), issue, DoRemoveBranch(old(Current()), key))
    {
      if key == "" {
        return Some(InvalidArgument);
      }
      if key !in branches.values {
        return Some(UnknownBranch);
      }
      if exists e :: e in edges.values && e.branch == Some(key) {
        return Some(BranchInUse);
      }
      branches := branches.Del(key);
      issue := None;
    }

    method SetPhase(key: Key, p: Phase) returns (issue: Option<Issue>)
      modifies this`phases
      ensures Did(old(Current()), Current(), issue, DoSetPhase(old(Current()), key, p))
    {
      if key == "" || p.title == "" || !NonBlank(p.nodes) {
        return Some(InvalidArgument);
      }
      if !NoRepeat(p.nodes) {
        return Some(DuplicateReference);
      }
      if p.reviewer == "" || p.gate == "" || !NonBlank(p.rework) {
        return Some(InvalidArgument);
      }
      if !NoRepeat(p.rework) {
        return Some(DuplicateReference);
      }
      if p.reviewer !in nodes.values || p.gate !in nodes.values || (exists n :: n in p.nodes && n !in nodes.values)
         || (exists n :: n in p.rework && n !in nodes.values) {
        return Some(UnknownNode);
      }
      if p.reviewer !in p.nodes || p.gate !in p.nodes || p.reviewer != p.gate {
        return Some(PhaseGateInvalid);
      }
      if !nodes.values[p.reviewer].kind.Reviewer? {
        return Some(PhaseReviewerInvalid);
      }
      if p.reviewer in p.rework || (exists n :: n in p.rework && n !in p.nodes)
         || (exists n :: n in p.rework && !CanRework(nodes.values[n].kind)) {
        return Some(PhaseReworkInvalid);
      }
      phases := phases.Put(key, p);
      issue := None;
    }

    method RemovePhase(key: Key) returns (issue: Option<Issue>)
      modifies this`phases
      ensures Did(old(Current()), Current(), issue, DoRemovePhase(old(Current()), key))
    {
      if key == "" {
        return Some(InvalidArgument);
      }
      if key !in phases.values {
        return Some(UnknownPhase);
      }
      phases := phases.Del(key);
      issue := None;
    }

    method SetNodeGate(key: Key, g: Gate) returns (issue: Option<Issue>)
      modifies this`gates
      ensures Did(old(Current()), Current(), issue, DoSetNodeGate(config, old(Current()), key, g))
    {
      if config.processMode {
        return Some(ProcessGateFrozen);
      }
      if key == "" {
        return Some(InvalidArgument);
      }
      if key !in nodes.values {
        return Some(UnknownNode);
      }
      if !CanOwnGate(nodes.values[key].kind) {
        return Some(NodeGateInvalidKind);
      }
      if g.name == "" || !ArgvOk(g.argv) || BlankOption(g.question) || (g.argv == [] && g.question.None?) {
        return Some(InvalidArgument);
      }
      gates := gates.Put(key, g);
      issue := None;
    }

    method RemoveNodeGate(key: Key) returns (issue: Option<Issue>)
      modifies this`gates
      ensures Did(old(Current()), Current(), issue, DoRemoveNodeGate(config, old(Current()), key))
    {
      if config.processMode {
        return Some(ProcessGateFrozen);
      }
      if key == "" {
        return Some(InvalidArgument);
      }
      if key !in nodes.values {
        return Some(UnknownNode);
      }
      gates := gates.Del(key);
      issue := None;
    }

    method SetFinalGate(argv: seq<string>, question: Option<string>) returns (issue: Option<Issue>)
      modifies this`finalArgv, this`finalQuestion
      ensures Did(old(Current()), Current(), issue, DoSetFinalGate(config, old(Current()), argv, question))
    {
      if config.processMode {
        return Some(ProcessGateFrozen);
      }
      if !ArgvOk(argv) || BlankOption(question) {
        return Some(InvalidArgument);
      }
      if argv != [] && !config.allowFinalCommand {
        return Some(FinalCommandNotSelected);
      }
      if argv == [] && question.None? {
        return Some(InvalidArgument);
      }
      finalArgv, finalQuestion := argv, question;
      issue := None;
    }

    method RemoveFinalGate() returns (issue: Option<Issue>)
      modifies this`finalArgv, this`finalQuestion
      ensures Did(old(Current()), Current(), issue, DoRemoveFinalGate(config, old(Current())))
    {
      if config.processMode {
        return Some(ProcessGateFrozen);
      }
      finalArgv, finalQuestion := [], None;
      issue := None;
    }

    /** Both tables are replaced together, so a rejected move changes neither. */
    method MoveProcessGate(gateId: string, key: Key) returns (issue: Option<Issue>)
      modifies this`checks, this`owners
      ensures Did(old(Current()), Current(), issue, DoMoveGate(config, old(Current()), gateId, key))
    {
      if !config.processMode {
        return Some(ProcessModeRequired);
      }
      if gateId == "" || key == "" {
        return Some(InvalidArgument);
      }
      if gateId !in owners {
        return Some(UnknownRetainedGate);
      }
      if key !in nodes.values {
        return Some(UnknownNode);
      }
      if key == owners[gateId] || key in checks {
        return Some(GateTargetOccupied);
      }
      if !CanOwnGate(nodes.values[key].kind) {
        return Some(RetainedGateInvalidKind);
      }
      if owners[gateId] !in checks {
        return Some(RetainedGateCorrupt);
      }
      var group := checks[owners[gateId]];
      checks, owners := (checks - {owners[gateId]})[key := group], owners[gateId := key];
      issue := None;
    }

    method Dispatch(t: Tool) returns (issue: Option<Issue>)
      modifies this`nodes, this`edges, this`branches, this`phases, this`gates,
               this`finalArgv, this`finalQuestion, this`checks, this`owners
      ensures Did(old(Current()), Current(), issue, Edit(config, old(Current()), t))
    {
      match t
      case AddNode(key, node) => issue := AddNode(key, node);
      case UpdateNode(_, _, _, _, _, _) => issue := UpdateNode(t);
      case RemoveNode(key) => issue := RemoveNode(key);
      case AddEdge(e, condition) => issue := AddEdge(e, condition);
      case RemoveEdge(e) => issue := RemoveEdge(e);
      case SetBranch(key, b) => issue := SetBranch(key, b);
      case RemoveBranch(key) => issue := RemoveBranch(key);
      case SetPhase(key, p) => issue := SetPhase(key, p);
      case RemovePhase(key) => issue := RemovePhase(key);
      case SetNodeGate(key, g) => issue := SetNodeGate(key, g);
      case RemoveNodeGate(key) => issue := RemoveNodeGate(key);
      case SetFinalGate(argv, question) => issue := SetFinalGate(argv, question);
      case RemoveFinalGate => issue := RemoveFinalGate();
      case MoveProcessGate(gateId, key) => issue := MoveProcessGate(gateId, key);
      case Malformed => issue := Some(InvalidArgument);
    }

    /** Refused without effect once the plan is finished or 128 mutations were made; otherwise
        the call counts, accepted or not, and a rejected one leaves the draft as it was. */
    method Mutate(t: Tool) returns (result: Mutation)
      modifies this
      ensures template == old(template) && validationFailures == old(validationFailures)
      ensures result == Outcome(Edit(config, old(Current()), t), old(template).Some?, old(operationsUsed))
      ensures operationsUsed == old(operationsUsed) + if result.Accepted? || result.Rejected? then 1 else 0
      ensures Current() == if result.Accepted? then Edit(config, old(Current()), t).value else old(Current())
    {
      if template.Some? {
        result := AlreadyFinished;
      } else if operationsUsed >= MAX_PLAN_OPERATIONS {
        result := BudgetExhausted;
      } else {
        operationsUsed := operationsUsed + 1;
        var issue := Dispatch(t);
        result := if issue.Some? then Rejected(issue.value) else Accepted;
      }
    }

    /** A tool call on a valid runtime leaves a valid runtime. */
    method Execute(t: Tool) returns (result: Mutation)
      requires Valid()
      modifies this
      ensures Valid() && template == old(template)
      ensures result == Outcome(Edit(config, old(Current()), t), old(template).Some?, old(operationsUsed))
      ensures Current() == if result.Accepted? then Edit(config, old(Current()), t).value else old(Current())
    {
      ToolKeeps(config, Current(), t);
      result := Mutate(t);
    }

    method Record(findings: set<Finding>, composed: Option<Template>) returns (verdict: Verdict)
      requires findings == {} <==> composed.Some?
      modifies this`template, this`validationFailures
      ensures template == composed
      ensures validationFailures == old(validationFailures) + if findings == {} then 0 else 1
      ensures verdict == if findings == {} then Passed
              else Failed(findings, validationFailures > MAX_VALIDATION_RETRIES)
    {
      template := composed;
      if findings == {} {
        return Passed;
      }
      validationFailures := validationFailures + 1;
      verdict := Failed(findings, validationFailures > MAX_VALIDATION_RETRIES);
    }

    /** Accepts exactly the drafts without a fault when no planner event is blank; the template then
        passes every constructor check, and every finding of a refusal is a real fault. A refusal counts
        as a failed validation, but does not end the session. */
    method Finish() returns (verdict: Verdict)
      requires Valid()
      modifies this`template, this`validationFailures
      ensures Current() == old(Current()) && verdict.Passed? == template.Some?
      ensures Valid()
      ensures old(template).Some? ==> template == old(template)
      ensures old(template).None? ==>
                (verdict.Passed? <==> Current() in Acceptable(config) && MessagesOk(config.eventTypes))
      ensures validationFailures == old(validationFailures) + if verdict.Failed? then 1 else 0
      ensures verdict.Failed? ==> verdict.findings != {}
                                  && verdict.exhausted == (validationFailures > MAX_VALIDATION_RETRIES)
      ensures verdict.Failed? ==> forall f :: f in verdict.findings ==> f in Faults(config, Current())
    {
      if template.Some? {
        return Passed;
      }
      var findings, composed := TryFinish(config, Current());
      verdict := Record(findings, composed);
    }
  }
}

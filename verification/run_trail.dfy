/** The trail of a run: the completed executions lead along the graph from start to the step
    that comes next, each by the exit it recorded. What the static check knows about all paths
    therefore holds of every run. */
module RunTrail {
  import opened Values
  import opened Graphs
  import opened Definitions
  import opened EngineSpec

  /** The exit a completed step recorded. */
  function ExitOf(step: Step, output: Obj): Option<Id> {
    match step
    case ConditionStep(_, _, _) =>
      if "selected" in output && output["selected"].Str? then Some(output["selected"].text) else None
    case HumanStep(_, _, _, onApprove, onReject, timeout) =>
      if "decision" !in output then None
      else if output["decision"] == Str("approve") then Some(onApprove)
      else if output["decision"] == Str("reject") then Some(onReject)
      else if output["decision"] == Str("timeout") && timeout.Some? then Some(timeout.value.exit)
      else None
    case ActionStep(_, _, _, _, _, _, _, next) => Some(next)
    case WaitStep(_, _, _, next) => Some(next)
    case EndStep(_, _, _) => None
  }

  ghost predicate Passed(steps: Steps, e: Execution, next: Id) {
    && e.node in steps && e.status.Completed? && e.output.Some?
    && ExitOf(steps[e.node], e.output.value) == Some(next)
    && next in Successors(steps[e.node])
  }

  /** The i-th node of the trail that ends in `node`. */
  function NodeAt(executions: seq<Execution>, node: Id, i: nat): Id
    requires i <= |executions|
  {
    if i < |executions| then executions[i].node else node
  }

  ghost predicate PassedAt(steps: Steps, executions: seq<Execution>, node: Id, i: nat)
    requires i < |executions|
  {
    Passed(steps, executions[i], NodeAt(executions, node, i + 1))
  }

  ghost predicate Trail(steps: Steps, start: Id, executions: seq<Execution>, node: Id) {
    && node in steps
    && NodeAt(executions, node, 0) == start
    && forall i :: 0 <= i < |executions| ==> PassedAt(steps, executions, node, i)
  }

  function TrailNodes(executions: seq<Execution>, node: Id): (r: seq<Id>)
    ensures |r| == |executions| + 1 && forall i :: 0 <= i < |r| ==> r[i] == NodeAt(executions, node, i)
  {
    seq(|executions| + 1, i requires 0 <= i <= |executions| => NodeAt(executions, node, i))
  }

  lemma TrailIsPath(steps: Steps, start: Id, executions: seq<Execution>, node: Id)
    requires Trail(steps, start, executions, node)
    ensures PathFrom(EdgesOf(steps), start, node, TrailNodes(executions, node))
  {
    var p := TrailNodes(executions, node);
    forall i | 0 <= i < |p| - 1 ensures Link(EdgesOf(steps), p, i) {
      assert PassedAt(steps, executions, node, i);
    }
  }

  lemma TrailNext(steps: Steps, start: Id, executions: seq<Execution>, node: Id, e: Execution, next: Id)
    requires Trail(steps, start, executions, node) && e.node == node && Passed(steps, e, next) && next in steps
    ensures Trail(steps, start, executions + [e], next)
  {
    var longer := executions + [e];
    forall i | 0 <= i < |longer| ensures PassedAt(steps, longer, next, i) {
      if i < |executions| {
        assert PassedAt(steps, executions, node, i);
        assert NodeAt(longer, next, i + 1) == NodeAt(executions, node, i + 1);
      }
    }
  }

  /** A run never executes a step twice, and never one it is about to enter. */
  lemma TrailDistinct(steps: Steps, start: Id, executions: seq<Execution>, node: Id)
    requires Sound(steps, start) && Trail(steps, start, executions, node)
    ensures Distinct(TrailNodes(executions, node))
  {
    TrailIsPath(steps, start, executions, node);
    AcyclicPathDistinct(EdgesOf(steps), TrailNodes(executions, node));
  }

  /** A step that dominates the next one was executed before it. */
  lemma DominatorExecuted(steps: Steps, start: Id, executions: seq<Execution>, node: Id, d: Id)
    requires Trail(steps, start, executions, node)
    requires Dominates(EdgesOf(steps), start, d, node) && d != node
    ensures exists i :: 0 <= i < |executions| && executions[i].node == d
  {
    TrailIsPath(steps, start, executions, node);
    var p := TrailNodes(executions, node);
    assert d in p;
    var i :| 0 <= i < |p| && p[i] == d;
    assert executions[i].node == d;
  }

  lemma {:induction false} OutputFound(executions: seq<Execution>, i: nat)
    requires i < |executions| && executions[i].status.Completed? && executions[i].output.Some?
    ensures OutputOf(executions, executions[i].node).Some?
    decreases |executions|
  {
    if i < |executions| - 1 {
      OutputFound(executions[..|executions| - 1], i);
    }
  }

  /** What a step of an accepted definition reads from earlier steps is there: only deeper keys
      of the output can be missing. */
  lemma ReferenceResolves(steps: Steps, start: Id, executions: seq<Execution>, node: Id, ref: Ref)
    requires Trail(steps, start, executions, node) && ReadsEarlier(steps, start, node)
    requires ref in StepRefs(steps[node]) && ref.StepRef?
    ensures exists i :: 0 <= i < |executions| && executions[i].node == ref.step && executions[i].status.Completed?
    ensures OutputOf(executions, ref.step).Some?
  {
    DominatorExecuted(steps, start, executions, node, ref.step);
    var i :| 0 <= i < |executions| && executions[i].node == ref.step;
    assert PassedAt(steps, executions, node, i);
    OutputFound(executions, i);
  }

  /** The approval that guards a step was given before the step is entered. */
  lemma ApprovalGiven(steps: Steps, start: Id, executions: seq<Execution>, node: Id, h: Id)
    requires Trail(steps, start, executions, node)
    requires h in steps && steps[h].HumanStep? && h != node && Guards(steps, start, h, node)
    ensures exists i :: 0 <= i < |executions| && Approved(executions[i], h)
  {
    DominatorExecuted(steps, start, executions, node, h);
    var i :| 0 <= i < |executions| && executions[i].node == h;
    assert PassedAt(steps, executions, node, i);
    var next := NodeAt(executions, node, i + 1);
    TrailIsPath(steps, start, executions, node);
    PathReaches(EdgesOf(steps), TrailNodes(executions, node), i + 1, |executions|);
    assert next !in RefusalExits(steps[h]);
    assert Approved(executions[i], h);
  }

  ghost predicate Approved(e: Execution, h: Id) {
    e.node == h && e.status.Completed? && e.output.Some?
    && "decision" in e.output.value && e.output.value["decision"] == Str("approve")
  }
}

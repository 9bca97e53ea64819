/** What every transaction of the engine keeps of a run whose definition was accepted. */
module RunSafety {
  import opened Values
  import opened Graphs
  import opened Definitions
  import opened EngineSpec
  import opened RunTrail
  import opened RunChildren
  import C = Connectors

  function ProjectConnections(connections: map<Id, C.Connection>, project: Id): map<Id, C.Connection> {
    map c | c in connections && connections[c].project == project :: connections[c]
  }

  /** The run's definition is acceptable for the connectors of its project. */
  ghost predicate Legal(run: Run, s: C.State) {
    Acceptable(run.record.body, ProjectConnections(s.connections, run.record.project))
  }

  function StepsOf(run: Run): Steps {
    StepMap(run.record.body.steps)
  }

  /** The run is about to execute `node`: everything before it is completed. */
  ghost predicate Entering(run: Run, s: C.State, node: Id) {
    && Legal(run, s) && Children(run, s.calls) && run.record.version >= 1
    && Trail(StepsOf(run), run.record.body.start, run.executions, node)
  }

  ghost predicate LastIs(run: Run, status: StepStatus)
    requires |run.executions| > 0
  {
    run.executions[|run.executions| - 1].status == status
  }

  /** Between transactions a run waits in exactly its last execution, or it is terminal. */
  ghost predicate Settled(run: Run, s: C.State) {
    && Legal(run, s) && Children(run, s.calls) && run.record.version >= 1
    && |run.executions| > 0
    && var n := |run.executions| - 1;
    && Trail(StepsOf(run), run.record.body.start, run.executions[..n], run.executions[n].node)
    && match run.record.status
       case Running => false
       case Waiting => LastIs(run, StepStatus.Waiting)
       case Completed => LastIs(run, StepStatus.Completed) && StepsOf(run)[run.executions[n].node].EndStep?
       case Failed => LastIs(run, StepStatus.Failed)
  }

  /** Finished executions are history: they keep their place and content. */
  ghost predicate HistoryKept(before: seq<Execution>, after: seq<Execution>) {
    && |before| <= |after|
    && forall i :: 0 <= i < |before| ==> KeptAt(before, after, i)
  }

  ghost predicate KeptAt(before: seq<Execution>, after: seq<Execution>, i: nat)
    requires i < |before| <= |after|
  {
    after[i].node == before[i].node && (!before[i].status.Waiting? ==> after[i] == before[i])
  }

  ghost predicate NewCallsOnly(before: Run, after: Run, calls: seq<C.Entry>) {
    forall k :: k in after.invocations && k.data.call.Some? && k.data.call.value < |calls| ==>
      exists j :: j in before.invocations && j.data.call == k.data.call
  }

  /** How a transaction may change a run and the connectors. */
  ghost predicate Follows(tx: Tx, after: Tx) {
    && C.Valid(after.connectors) && C.Evolves(tx.connectors, after.connectors)
    && after.connectors.connections == tx.connectors.connections
    && after.run.record.body == tx.run.record.body && after.run.record.project == tx.run.record.project
    && after.run.record.inputs == tx.run.record.inputs && after.run.record.version == tx.run.record.version
    && HistoryKept(tx.run.executions, after.run.executions)
    && NewCallsOnly(tx.run, after.run, tx.connectors.calls)
  }

  lemma FollowsTrans(a: Tx, b: Tx, c: Tx)
    requires Follows(a, b) && Follows(b, c)
    ensures Follows(a, c)
  {
    C.EvolvesTrans(a.connectors, b.connectors, c.connectors);
    forall i | 0 <= i < |a.run.executions| ensures KeptAt(a.run.executions, c.run.executions, i) {
      assert KeptAt(a.run.executions, b.run.executions, i) && KeptAt(b.run.executions, c.run.executions, i);
    }
  }

  ghost predicate Lands(tx: Tx, move: Move) {
    match move
    case Abort => false
    case Halt(after) => Follows(tx, after) && Settled(after.run, after.connectors)
    case Goto(after, next) => Follows(tx, after) && Entering(after.run, after.connectors, next)
  }

  // ---- New executions

  lemma NewStepAppends(run: Run, s: C.State, node: Id, status: StepStatus, inputs: Obj, output: Option<Obj>)
    requires Children(run, s.calls)
    ensures NewStep(run, node, status, inputs, output).executions
            == run.executions + [Execution(run.nextId, node, status, inputs, output)]
  {
    WithoutOther(run.executions, run.nextId);
  }

  lemma FreshHasNoChild<T>(children: seq<Child<T>>, executions: seq<Execution>, nextId: nat)
    requires forall e :: e in executions ==> e.uid < nextId
    requires forall k :: k in children ==> HasExecution(executions, k.execution)
    ensures ChildOf(children, nextId).None?
    ensures forall k :: k in children ==> k.execution < nextId
  {
    forall k | k in children ensures k.execution < nextId {
      var i :| 0 <= i < |executions| && executions[i].uid == k.execution;
      assert executions[i] in executions;
    }
    ChildOfMember(children, nextId);
  }

  /** `after` is `tx` with a new last execution and its records. */
  ghost predicate Adds(tx: Tx, after: Tx, e: Execution, i: Option<Invocation>, w: Option<WaitRecord>) {
    var run, next := tx.run, after.run;
    && C.Valid(after.connectors) && C.Evolves(tx.connectors, after.connectors)
    && after.connectors.connections == tx.connectors.connections
    && next.record.(status := run.record.status, result := run.record.result) == run.record
    && e.uid == run.nextId && next.executions == run.executions + [e] && next.nextId > run.nextId
    && next.invocations == Saved(run.invocations, i) && next.waits == Saved(run.waits, w)
    && (i.Some? ==> i.value.execution == e.uid && run.nextId < i.value.uid < next.nextId)
    && (w.Some? ==> w.value.execution == e.uid && run.nextId < w.value.uid < next.nextId)
    && (i.Some? && i.value.data.call.Some? ==>
        |tx.connectors.calls| <= i.value.data.call.value < |after.connectors.calls|)
    && Supported(StepsOf(run), run.record.project, e, i, w, after.connectors.calls)
  }

  lemma Added(tx: Tx, after: Tx, e: Execution, i: Option<Invocation>, w: Option<WaitRecord>)
    requires C.Valid(tx.connectors) && Entering(tx.run, tx.connectors, e.node) && Adds(tx, after, e, i, w)
    ensures Legal(after.run, after.connectors) && Children(after.run, after.connectors.calls) && Follows(tx, after)
  {
    var run, next := tx.run, after.run;
    FreshHasNoChild(run.invocations, run.executions, run.nextId);
    FreshHasNoChild(run.waits, run.executions, run.nextId);
    SavedFacts(run.invocations, i, e.uid, next.nextId);
    SavedFacts(run.waits, w, e.uid, next.nextId);
    Patched(run, next, tx.connectors, after.connectors, run.executions, e, i, w);
    AddedHistory(run.executions, e);
  }

  lemma AddedHistory(executions: seq<Execution>, e: Execution)
    ensures HistoryKept(executions, executions + [e])
  {
    forall k | 0 <= k < |executions| ensures KeptAt(executions, executions + [e], k) {
    }
  }

  ghost predicate Matches(status: RunStatus, last: StepStatus) {
    match status
    case Running => false
    case Waiting => last.Waiting?
    case Completed => last.Completed?
    case Failed => last.Failed?
  }

  /** The run stops with the new execution. */
  lemma AddedHalts(tx: Tx, after: Tx, e: Execution, i: Option<Invocation>, w: Option<WaitRecord>)
    requires C.Valid(tx.connectors) && Entering(tx.run, tx.connectors, e.node) && Adds(tx, after, e, i, w)
    requires Matches(after.run.record.status, e.status)
    requires after.run.record.status.Completed? ==> StepsOf(tx.run)[e.node].EndStep?
    ensures Lands(tx, Halt(after))
  {
    Added(tx, after, e, i, w);
    assert after.run.executions[..|after.run.executions| - 1] == tx.run.executions;
  }

  /** The run passes the new execution and goes on to `next`. */
  lemma AddedPasses(tx: Tx, after: Tx, e: Execution, i: Option<Invocation>, w: Option<WaitRecord>, next: Id)
    requires C.Valid(tx.connectors) && Entering(tx.run, tx.connectors, e.node) && Adds(tx, after, e, i, w)
    requires Passed(StepsOf(tx.run), e, next) && next in StepsOf(tx.run)
    ensures Lands(tx, Goto(after, next))
  {
    Added(tx, after, e, i, w);
    TrailNext(StepsOf(tx.run), tx.run.record.body.start, tx.run.executions, e.node, e, next);
  }

  lemma EvolvesRefl(s: C.State)
    ensures C.Evolves(s, s)
  {
  }

  // ---- The execution each kind of step adds

  function FailedStep(tx: Tx, node: Id): Execution {
    Execution(tx.run.nextId, node, StepStatus.Failed, map[], Some(ERROR_OUTPUT))
  }

  function WaitingStep(tx: Tx, node: Id, inputs: Obj): Execution {
    Execution(tx.run.nextId, node, StepStatus.Waiting, inputs, None)
  }

  function ChosenStep(tx: Tx, step: Step, k: nat): Execution
    requires step.ConditionStep? && k <= |step.cases|
  {
    var next := if k < |step.cases| then step.cases[k].next else step.otherwise;
    Execution(tx.run.nextId, step.id, StepStatus.Completed, map[],
              Some(SelectedOutput(next, if k < |step.cases| then IntNum(k) else Null)))
  }

  function EndedStep(tx: Tx, step: Step, result: Obj): Execution
    requires step.EndStep?
  {
    Execution(tx.run.nextId, step.id, StepStatus.Completed, result, Some(map["outcome" := Str(step.outcome)]))
  }

  function DueInputs(lib: Library, due: int): Obj {
    map["until" := Str(lib.isoFormat(due))]
  }

  lemma FailNewAdds(tx: Tx, node: Id)
    requires C.Valid(tx.connectors) && Entering(tx.run, tx.connectors, node)
    ensures Adds(tx, tx.(run := FailNew(tx.run, node)), FailedStep(tx, node), None, None)
  {
    NewStepAppends(tx.run, tx.connectors, node, StepStatus.Failed, map[], Some(ERROR_OUTPUT));
    EvolvesRefl(tx.connectors);
  }

  lemma FailNewLands(tx: Tx, node: Id)
    requires C.Valid(tx.connectors) && Entering(tx.run, tx.connectors, node)
    ensures Lands(tx, Halt(tx.(run := FailNew(tx.run, node))))
  {
    FailNewAdds(tx, node);
    AddedHalts(tx, tx.(run := FailNew(tx.run, node)), FailedStep(tx, node), None, None);
  }

  lemma ConditionAdds(env: Env, tx: Tx, step: Step, k: nat)
    requires C.Valid(tx.connectors) && Entering(tx.run, tx.connectors, step.id)
    requires StepsOf(tx.run)[step.id] == step && step.ConditionStep?
    requires Select(env.lib, tx.run, step.cases, 0) == Some(k)
    ensures RunCondition(env, tx, step).Goto? && k <= |step.cases|
    ensures Adds(tx, RunCondition(env, tx, step).tx, ChosenStep(tx, step, k), None, None)
  {
    var e := ChosenStep(tx, step, k);
    NewStepAppends(tx.run, tx.connectors, step.id, StepStatus.Completed, map[], e.output);
    EvolvesRefl(tx.connectors);
  }

  lemma ConditionLands(env: Env, tx: Tx, step: Step)
    requires C.Valid(tx.connectors) && Entering(tx.run, tx.connectors, step.id)
    requires StepsOf(tx.run)[step.id] == step && step.ConditionStep? && Sound(StepsOf(tx.run), tx.run.record.body.start)
    ensures Lands(tx, RunCondition(env, tx, step))
  {
    match Select(env.lib, tx.run, step.cases, 0)
    case None => FailNewLands(tx, step.id);
    case Some(k) =>
      var move := RunCondition(env, tx, step);
      ConditionAdds(env, tx, step, k);
      AdvanceFollowsEdge(env, tx, step);
      AddedPasses(tx, move.tx, ChosenStep(tx, step, k), None, None, move.node);
  }

  lemma EndAdds(env: Env, tx: Tx, step: Step, result: Obj)
    requires C.Valid(tx.connectors) && Entering(tx.run, tx.connectors, step.id)
    requires StepsOf(tx.run)[step.id] == step && step.EndStep?
    requires EvalFields(env.lib, tx.run, step.result) == Some(result)
    ensures RunEnd(env, tx, step).Halt? && Adds(tx, RunEnd(env, tx, step).tx, EndedStep(tx, step, result), None, None)
  {
    NewStepAppends(tx.run, tx.connectors, step.id, StepStatus.Completed, result, EndedStep(tx, step, result).output);
    EvolvesRefl(tx.connectors);
  }

  lemma EndLands(env: Env, tx: Tx, step: Step)
    requires C.Valid(tx.connectors) && Entering(tx.run, tx.connectors, step.id)
    requires StepsOf(tx.run)[step.id] == step && step.EndStep?
    ensures Lands(tx, RunEnd(env, tx, step))
  {
    match EvalFields(env.lib, tx.run, step.result)
    case None => FailNewLands(tx, step.id);
    case Some(result) =>
      EndAdds(env, tx, step, result);
      AddedHalts(tx, RunEnd(env, tx, step).tx, EndedStep(tx, step, result), None, None);
  }

  function AskedWait(env: Env, tx: Tx, step: Step, subject: Obj): WaitRecord
    requires step.HumanStep?
  {
    NewWait(tx.run.nextId + 1, tx.run.nextId, HumanWait(step.question, subject, DeadlineOf(env, step)), env.now)
  }

  lemma HumanAdds(env: Env, tx: Tx, step: Step, subject: Obj)
    requires C.Valid(tx.connectors) && Entering(tx.run, tx.connectors, step.id)
    requires StepsOf(tx.run)[step.id] == step && step.HumanStep?
    requires !OutOfRange(env, tx.run, step) && EvalFields(env.lib, tx.run, step.subject) == Some(subject)
    ensures RunHuman(env, tx, step).Halt? && RunHuman(env, tx, step).tx.run.record.status.Waiting?
    ensures Adds(tx, RunHuman(env, tx, step).tx, WaitingStep(tx, step.id, subject), None,
                 Some(AskedWait(env, tx, step, subject)))
  {
    NewStepAppends(tx.run, tx.connectors, step.id, StepStatus.Waiting, subject, None);
    EvolvesRefl(tx.connectors);
  }

  lemma HumanLands(env: Env, tx: Tx, step: Step)
    requires C.Valid(tx.connectors) && Entering(tx.run, tx.connectors, step.id)
    requires StepsOf(tx.run)[step.id] == step && step.HumanStep?
    requires !OutOfRange(env, tx.run, step)
    ensures Lands(tx, RunHuman(env, tx, step))
  {
    match EvalFields(env.lib, tx.run, step.subject)
    case None => FailNewLands(tx, step.id);
    case Some(subject) =>
      HumanAdds(env, tx, step, subject);
      AddedHalts(tx, RunHuman(env, tx, step).tx, WaitingStep(tx, step.id, subject), None,
                 Some(AskedWait(env, tx, step, subject)));
  }

  function TimedWait(env: Env, tx: Tx, due: int): WaitRecord {
    NewWait(tx.run.nextId + 1, tx.run.nextId, TimeWait(due), env.now)
  }

  lemma TimeAdds(env: Env, tx: Tx, step: Step, due: int)
    requires C.Valid(tx.connectors) && Entering(tx.run, tx.connectors, step.id)
    requires StepsOf(tx.run)[step.id] == step && step.WaitStep?
    requires WaitTime(env, tx.run, step) == Time(due) && due > env.now
    ensures RunWait(env, tx, step).Halt? && RunWait(env, tx, step).tx.run.record.status.Waiting?
    ensures Adds(tx, RunWait(env, tx, step).tx, WaitingStep(tx, step.id, DueInputs(env.lib, due)), None,
                 Some(TimedWait(env, tx, due)))
  {
    NewStepAppends(tx.run, tx.connectors, step.id, StepStatus.Waiting, DueInputs(env.lib, due), None);
    EvolvesRefl(tx.connectors);
  }

  lemma TimeLands(env: Env, tx: Tx, step: Step)
    requires C.Valid(tx.connectors) && Entering(tx.run, tx.connectors, step.id)
    requires StepsOf(tx.run)[step.id] == step && step.WaitStep? && Sound(StepsOf(tx.run), tx.run.record.body.start)
    requires !OutOfRange(env, tx.run, step)
    ensures Lands(tx, RunWait(env, tx, step))
  {
    match WaitTime(env, tx.run, step)
    case NotATime => FailNewLands(tx, step.id);
    case Time(due) =>
      if due > env.now {
        TimeAdds(env, tx, step, due);
        AddedHalts(tx, RunWait(env, tx, step).tx, WaitingStep(tx, step.id, DueInputs(env.lib, due)), None,
                   Some(TimedWait(env, tx, due)));
      } else {
        DueLands(env, tx, step, due);
      }
  }

  function FiredStep(env: Env, tx: Tx, node: Id, due: int): Execution {
    WaitingStep(tx, node, DueInputs(env.lib, due)).(status := StepStatus.Completed,
                                                    output := Some(FiredOutput(env.lib, due, env.now)))
  }

  function FiredWait(env: Env, tx: Tx, due: int): WaitRecord {
    Resolved(TimedWait(env, tx, due), map["fired_at" := Str(env.lib.isoFormat(env.now))], env.now)
  }

  /** A wait that is already due is recorded, resolved and passed in one go. */
  lemma DueLands(env: Env, tx: Tx, step: Step, due: int)
    requires C.Valid(tx.connectors) && Entering(tx.run, tx.connectors, step.id)
    requires StepsOf(tx.run)[step.id] == step && step.WaitStep? && Sound(StepsOf(tx.run), tx.run.record.body.start)
    requires WaitTime(env, tx.run, step) == Time(due) && due <= env.now
    ensures Lands(tx, RunWait(env, tx, step))
  {
    DueAdds(env, tx, step, due);
    assert step.next in Successors(step);
    AddedPasses(tx, RunWait(env, tx, step).tx, FiredStep(env, tx, step.id, due), None, Some(FiredWait(env, tx, due)),
                step.next);
  }

  lemma DueAdds(env: Env, tx: Tx, step: Step, due: int)
    requires C.Valid(tx.connectors) && Children(tx.run, tx.connectors.calls)
    requires step.WaitStep? && step.id in StepsOf(tx.run) && StepsOf(tx.run)[step.id] == step
    requires WaitTime(env, tx.run, step) == Time(due) && due <= env.now
    ensures RunWait(env, tx, step).Goto? && RunWait(env, tx, step).node == step.next
    ensures Adds(tx, RunWait(env, tx, step).tx, FiredStep(env, tx, step.id, due), None, Some(FiredWait(env, tx, due)))
  {
    SaveTwice(tx.run.waits, TimedWait(env, tx, due), FiredWait(env, tx, due));
    Resaved(tx.run, tx.connectors, WaitingStep(tx, step.id, DueInputs(env.lib, due)), FiredStep(env, tx, step.id, due));
    EvolvesRefl(tx.connectors);
  }

  /** A new execution that is finished at once takes one place. */
  lemma Resaved(run: Run, s: C.State, e: Execution, done: Execution)
    requires Children(run, s.calls) && e.uid == done.uid == run.nextId
    ensures Without(Without(run.executions, e.uid) + [e], e.uid) + [done] == run.executions + [done]
  {
    WithoutOther(run.executions, e.uid);
    var longer := run.executions + [e];
    assert longer[..|longer| - 1] == run.executions;
  }

  // ---- Action steps

  /** The run-time checks that the static check has already decided can only fail on the payload. */
  lemma QueueFailsOnlyOnPayload(lib: Library, run: Run, s: C.State, step: Step, inputs: Obj)
    requires Legal(run, s) && IsAction(StepsOf(run), step.id) && StepsOf(run)[step.id] == step
    ensures step.connector in s.connections && s.connections[step.connector].project == run.record.project
    ensures var queued := C.NewCall(lib, s, step.connector, step.action, step.version, inputs, Authorizes(step));
            queued.Ok? || queued.error == C.PayloadRejected
  {
    AcceptedAction(run.record.body, ProjectConnections(s.connections, run.record.project), step.id);
  }

  function BoundInvocation(tx: Tx, inputs: Obj, call: C.Call): Invocation {
    var i := NewInvocation(tx.run.nextId + 1, tx.run.nextId, inputs);
    i.(data := i.data.(call := Some(call.id)))
  }

  function RefusedInvocation(tx: Tx, inputs: Obj): Invocation {
    var i := NewInvocation(tx.run.nextId + 1, tx.run.nextId, inputs);
    i.(data := i.data.(status := InvocationStatus.Failed, error := true))
  }

  function RefusedStep(tx: Tx, node: Id, inputs: Obj): Execution {
    WaitingStep(tx, node, inputs).(status := StepStatus.Failed, output := Some(ERROR_OUTPUT))
  }

  /** The action step has its inputs and finds its connector; this is what the queue says. */
  ghost predicate Asks(env: Env, tx: Tx, step: Step, inputs: Obj, queued: Result<C.Call, C.Error>) {
    && step.ActionStep? && step.id in StepsOf(tx.run) && StepsOf(tx.run)[step.id] == step
    && EvalFields(env.lib, tx.run, step.inputs) == Some(inputs)
    && step.connector in tx.connectors.connections
    && tx.connectors.connections[step.connector].project == tx.run.record.project
    && queued == C.NewCall(env.lib, tx.connectors, step.connector, step.action, step.version, inputs, Authorizes(step))
  }

  lemma ActionAdds(env: Env, tx: Tx, step: Step, inputs: Obj, queued: Result<C.Call, C.Error>)
    requires C.Valid(tx.connectors) && Entering(tx.run, tx.connectors, step.id)
    requires Asks(env, tx, step, inputs, queued) && queued.Ok?
    ensures RunAction(env, tx, step).Halt? && RunAction(env, tx, step).tx.run.record.status.Waiting?
    ensures Adds(tx, RunAction(env, tx, step).tx, WaitingStep(tx, step.id, inputs),
                 Some(BoundInvocation(tx, inputs, queued.value)), None)
  {
    NewStepAppends(tx.run, tx.connectors, step.id, StepStatus.Waiting, inputs, None);
    C.WithCallKeeps(env.lib, tx.connectors, step.connector, step.action, step.version, inputs, Authorizes(step));
  }

  lemma ActionLands(env: Env, tx: Tx, step: Step)
    requires C.Valid(tx.connectors) && Entering(tx.run, tx.connectors, step.id)
    requires StepsOf(tx.run)[step.id] == step && step.ActionStep?
    ensures Lands(tx, RunAction(env, tx, step))
  {
    match EvalFields(env.lib, tx.run, step.inputs)
    case None => FailNewLands(tx, step.id);
    case Some(inputs) =>
      QueueFailsOnlyOnPayload(env.lib, tx.run, tx.connectors, step, inputs);
      var queued := C.NewCall(env.lib, tx.connectors, step.connector, step.action, step.version, inputs,
                              Authorizes(step));
      AskedLands(env, tx, step, inputs, queued);
  }

  lemma AskedLands(env: Env, tx: Tx, step: Step, inputs: Obj, queued: Result<C.Call, C.Error>)
    requires C.Valid(tx.connectors) && Entering(tx.run, tx.connectors, step.id) && Asks(env, tx, step, inputs, queued)
    ensures Lands(tx, RunAction(env, tx, step))
  {
    match queued
    case Err(_) =>
      RejectedAdds(env, tx, step, inputs, queued);
      AddedHalts(tx, RunAction(env, tx, step).tx, RefusedStep(tx, step.id, inputs),
                 Some(RefusedInvocation(tx, inputs)), None);
    case Ok(call) =>
      ActionAdds(env, tx, step, inputs, queued);
      AddedHalts(tx, RunAction(env, tx, step).tx, WaitingStep(tx, step.id, inputs),
                 Some(BoundInvocation(tx, inputs, call)), None);
  }

  /** The queue refuses the payload: the invocation and the step fail together. */
  lemma RejectedAdds(env: Env, tx: Tx, step: Step, inputs: Obj, queued: Result<C.Call, C.Error>)
    requires C.Valid(tx.connectors) && Children(tx.run, tx.connectors.calls)
    requires Asks(env, tx, step, inputs, queued) && queued.Err?
    ensures RunAction(env, tx, step).Halt? && RunAction(env, tx, step).tx.run.record.status.Failed?
    ensures Adds(tx, RunAction(env, tx, step).tx, RefusedStep(tx, step.id, inputs),
                 Some(RefusedInvocation(tx, inputs)), None)
  {
    Resaved(tx.run, tx.connectors, WaitingStep(tx, step.id, inputs), RefusedStep(tx, step.id, inputs));
    EvolvesRefl(tx.connectors);
  }

  /** One step is cut short exactly when the time it needs is no date; otherwise it keeps the run in
      order, and goes on or settles. */
  lemma AdvanceLands(env: Env, tx: Tx, node: Id)
    requires C.Valid(tx.connectors) && Entering(tx.run, tx.connectors, node)
    requires Sound(StepsOf(tx.run), tx.run.record.body.start)
    ensures Advance(env, tx, StepsOf(tx.run)[node]).Abort? <==> OutOfRange(env, tx.run, StepsOf(tx.run)[node])
    ensures !OutOfRange(env, tx.run, StepsOf(tx.run)[node]) ==> Lands(tx, Advance(env, tx, StepsOf(tx.run)[node]))
  {
    var step := StepsOf(tx.run)[node];
    match step
    case ConditionStep(_, _, _) => ConditionLands(env, tx, step);
    case EndStep(_, _, _) => EndLands(env, tx, step);
    case ActionStep(_, _, _, _, _, _, _, _) => ActionLands(env, tx, step);
    case HumanStep(_, _, _, _, _, _) => if !OutOfRange(env, tx.run, step) { HumanLands(env, tx, step); }
    case WaitStep(_, _, _, _) => if !OutOfRange(env, tx.run, step) { TimeLands(env, tx, step); }
  }

  /** What a transaction leaves behind, unless it is cut short. */
  ghost predicate Concludes(tx: Tx, result: TxResult) {
    result.Done? ==> Follows(tx, result.tx) && Settled(result.tx.run, result.tx.connectors)
  }

  /** The loop of a transaction ends in a settled run. */
  lemma {:induction false} LoopConcludes(env: Env, tx: Tx, node: Id)
    requires C.Valid(tx.connectors) && Entering(tx.run, tx.connectors, node)
    requires Sound(StepsOf(tx.run), tx.run.record.body.start)
    ensures Concludes(tx, Loop(env, StepsOf(tx.run), tx.run.record.body.start, tx, node))
    decreases ReachSet(EdgesOf(StepsOf(tx.run)), StepsOf(tx.run).Keys, node)
  {
    var steps := StepsOf(tx.run);
    AdvanceLands(env, tx, node);
    match Advance(env, tx, steps[node])
    case Abort =>
    case Halt(_) =>
    case Goto(after, next) =>
      AdvanceFollowsEdge(env, tx, steps[node]);
      ReachSetShrinks(EdgesOf(steps), steps.Keys, node, next);
      LoopConcludes(env, after, next);
      if Loop(env, steps, tx.run.record.body.start, after, next).Done? {
        FollowsTrans(tx, after, Loop(env, steps, tx.run.record.body.start, after, next).tx);
      }
  }

  // ---- When a transaction is cut short

  /** A step a transaction comes to, with the run as it is then. */
  datatype Visit = Visit(tx: Tx, node: Id)

  /** The moves of a transaction from the first visit to the last. */
  ghost predicate Visits(env: Env, steps: Steps, visits: seq<Visit>) {
    && |visits| > 0 && (forall i :: 0 <= i < |visits| ==> visits[i].node in steps)
    && forall i :: 0 <= i < |visits| - 1 ==> MovesOn(env, steps, visits, i)
  }

  ghost predicate MovesOn(env: Env, steps: Steps, visits: seq<Visit>, i: int)
    requires 0 <= i < |visits| - 1 && visits[i].node in steps
  {
    Advance(env, visits[i].tx, steps[visits[i].node]) == Goto(visits[i + 1].tx, visits[i + 1].node)
  }

  /** The moves from the run and the node come to a step that needs a time that is no date. */
  ghost predicate LeavesCalendar(env: Env, steps: Steps, tx: Tx, node: Id) {
    exists visits :: LeavesBy(env, steps, tx, node, visits)
  }

  ghost predicate LeavesBy(env: Env, steps: Steps, tx: Tx, node: Id, visits: seq<Visit>) {
    && Visits(env, steps, visits) && visits[0] == Visit(tx, node)
    && var last := visits[|visits| - 1];
    OutOfRange(env, last.tx.run, steps[last.node])
  }

  /** A step that goes on leaves the calendar exactly when what follows does. */
  lemma LeavesLater(env: Env, steps: Steps, tx: Tx, node: Id)
    requires node in steps && Advance(env, tx, steps[node]).Goto? && Advance(env, tx, steps[node]).node in steps
    ensures var move := Advance(env, tx, steps[node]);
            LeavesCalendar(env, steps, tx, node) <==> LeavesCalendar(env, steps, move.tx, move.node)
  {
    var move := Advance(env, tx, steps[node]);
    if visits :| LeavesBy(env, steps, tx, node, visits) {
      GoesOnInRange(env, tx, steps[node]);
      assert MovesOn(env, steps, visits, 0);
      var rest := visits[1..];
      forall i | 0 <= i < |rest| - 1 ensures MovesOn(env, steps, rest, i) {
        assert MovesOn(env, steps, visits, i + 1);
      }
      assert LeavesBy(env, steps, move.tx, move.node, rest);
    }
    if rest :| LeavesBy(env, steps, move.tx, move.node, rest) {
      var visits := [Visit(tx, node)] + rest;
      forall i | 0 <= i < |visits| - 1 ensures MovesOn(env, steps, visits, i) {
        assert i > 0 ==> MovesOn(env, steps, rest, i - 1);
      }
      assert LeavesBy(env, steps, tx, node, visits);
    }
  }

  lemma GoesOnInRange(env: Env, tx: Tx, step: Step)
    requires Advance(env, tx, step).Goto?
    ensures !OutOfRange(env, tx.run, step)
  {
  }

  lemma StopsAtOnce(env: Env, steps: Steps, tx: Tx, node: Id)
    requires node in steps && !Advance(env, tx, steps[node]).Goto?
    ensures LeavesCalendar(env, steps, tx, node) <==> OutOfRange(env, tx.run, steps[node])
  {
    if OutOfRange(env, tx.run, steps[node]) {
      assert LeavesBy(env, steps, tx, node, [Visit(tx, node)]);
    }
    if visits :| LeavesBy(env, steps, tx, node, visits) {
      assert |visits| > 1 ==> MovesOn(env, steps, visits, 0);
    }
  }

  /** The loop of a transaction is cut short exactly when it comes to a time that is no date. */
  lemma {:induction false} LoopCutShort(env: Env, tx: Tx, node: Id)
    requires C.Valid(tx.connectors) && Entering(tx.run, tx.connectors, node)
    requires Sound(StepsOf(tx.run), tx.run.record.body.start)
    ensures Loop(env, StepsOf(tx.run), tx.run.record.body.start, tx, node).Raised? <==>
            LeavesCalendar(env, StepsOf(tx.run), tx, node)
    decreases ReachSet(EdgesOf(StepsOf(tx.run)), StepsOf(tx.run).Keys, node)
  {
    var steps := StepsOf(tx.run);
    AdvanceLands(env, tx, node);
    match Advance(env, tx, steps[node])
    case Abort => StopsAtOnce(env, steps, tx, node);
    case Halt(_) => StopsAtOnce(env, steps, tx, node);
    case Goto(after, next) =>
      AdvanceFollowsEdge(env, tx, steps[node]);
      ReachSetShrinks(EdgesOf(steps), steps.Keys, node, next);
      LoopCutShort(env, after, next);
      LeavesLater(env, steps, tx, node);
  }

  function RunningTx(tx: Tx): Tx {
    tx.(run := WithStatus(tx.run, RunStatus.Running))
  }

  /** Entering a step ends in a settled run, unless the moves from it come to a time that is no date. */
  lemma EnterConcludes(env: Env, tx: Tx, node: Id)
    requires C.Valid(tx.connectors) && Entering(tx.run, tx.connectors, node)
    ensures Sound(StepsOf(tx.run), tx.run.record.body.start)
    ensures var result := Enter(env, StepsOf(tx.run), tx.run.record.body.start, tx, node);
            && Concludes(tx, result)
            && (result.Raised? <==> LeavesCalendar(env, StepsOf(tx.run), RunningTx(tx), node))
  {
    AcceptedIsSound(tx.run.record.body, ProjectConnections(tx.connectors.connections, tx.run.record.project));
    var running := RunningTx(tx);
    ChildrenSame(tx.run, running.run, tx.connectors);
    LoopConcludes(env, running, node);
    LoopCutShort(env, running, node);
  }

  /** The status, result and version of a run do not matter to its records. */
  lemma ChildrenSame(run: Run, after: Run, s: C.State)
    requires Children(run, s.calls)
    requires after.executions == run.executions && after.invocations == run.invocations && after.waits == run.waits
    requires after.nextId == run.nextId
    requires after.record.body == run.record.body && after.record.project == run.record.project
    ensures Children(after, s.calls)
  {
    forall i | 0 <= i < |after.executions| ensures SupportedAt(after, s.calls, i) {
      assert SupportedAt(run, s.calls, i);
    }
  }
}

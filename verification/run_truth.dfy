/** What the records of a run say is true: each execution has exactly the inputs its step means, each
    wait the time its step means, each branch the case that holds, and each result what the end step
    means. Every transaction of the engine keeps this. */
module RunTruth {
  import opened Values
  import opened Graphs
  import opened Definitions
  import opened EngineSpec
  import opened Meanings
  import opened RunTrail
  import opened RunChildren
  import opened RunSafety
  import opened RunTransactions
  import C = Connectors
  import Laws = ConnectorLaws

  // ---- What one execution says

  /** Some of the values cannot be read. */
  ghost predicate Unreadable(lib: Library, inputs: Obj, before: seq<Execution>, values: map<string, Value>) {
    forall out :: !FieldsRead(lib, inputs, before, values, out)
  }

  /** An action execution with an invocation has the inputs its step means, there and here; without
      one its values could not be read. */
  ghost predicate ActionTrue(lib: Library, step: Step, inputs: Obj, before: seq<Execution>, e: Execution,
                             i: Option<Invocation>)
    requires step.ActionStep?
  {
    if i.None? then e.status.Failed? && Unreadable(lib, inputs, before, step.inputs)
    else FieldsRead(lib, inputs, before, step.inputs, e.inputs) && i.value.data.inputs == e.inputs
  }

  /** The deadline is the end of the timeout, counted from when the question was recorded. */
  ghost predicate DeadlineTrue(lib: Library, step: Step, w: WaitData)
    requires step.HumanStep? && w.condition.HumanWait?
  {
    match step.timeout
    case None => w.condition.deadline.None?
    case Some(timeout) => w.condition.deadline.Some? && lib.shift(w.recordedAt, timeout.seconds) == w.condition.deadline
  }

  /** A decision by a person: what was decided, by whom, why and when. */
  ghost predicate DecidedTrue(lib: Library, e: Execution, w: WaitData)
    requires w.resolution.Some? && w.resolvedAt.Some?
  {
    exists verdict: Verdict, actor: string, reason: string ::
      w.resolution.value == map["decision" := Str(VerdictText(verdict)), "actor" := Str(actor), "reason" := Str(reason),
                                "decided_at" := Str(lib.isoFormat(w.resolvedAt.value))]
  }

  /** The question timed out, and not before its deadline. */
  ghost predicate TimedOut(w: WaitData)
    requires w.resolution.Some? && w.resolvedAt.Some? && w.condition.HumanWait?
  {
    && w.resolution.value == map["decision" := Str("timeout")]
    && w.condition.deadline.Some? && w.condition.deadline.value <= w.resolvedAt.value
  }

  ghost predicate HumanTrue(lib: Library, step: Step, inputs: Obj, before: seq<Execution>, e: Execution,
                            w: Option<WaitRecord>)
    requires step.HumanStep?
  {
    if w.None? then e.status.Failed? && Unreadable(lib, inputs, before, step.subject)
    else
      var wait := w.value.data;
      && FieldsRead(lib, inputs, before, step.subject, e.inputs)
      && wait.condition.HumanWait? && wait.condition.question == step.question && wait.condition.subject == e.inputs
      && DeadlineTrue(lib, step, wait)
      && (if e.status.Waiting? then wait.resolution.None? && wait.resolvedAt.None?
          else
            && e.status.Completed? && wait.resolution.Some? && wait.resolvedAt.Some?
            && e.output == Some(wait.resolution.value["subject" := Object(e.inputs)])
            && (TimedOut(wait) || DecidedTrue(lib, e, wait)))
  }

  /** The value of the step is a text that names a time, and this is the time moved by the offset. */
  ghost predicate DueMeant(lib: Library, step: Step, inputs: Obj, before: seq<Execution>, due: int)
    requires step.WaitStep?
  {
    exists text, time ::
      Reads(lib, inputs, before, step.until, Str(text)) && lib.parseTime(text) == Time(time)
      && lib.shift(time, step.offset) == Some(due)
  }

  /** The value of the step is no text that names a time. */
  ghost predicate NoTimeMeant(lib: Library, step: Step, inputs: Obj, before: seq<Execution>)
    requires step.WaitStep?
  {
    forall text :: Reads(lib, inputs, before, step.until, Str(text)) ==> lib.parseTime(text).NotATime?
  }

  ghost predicate WaitTrue(lib: Library, step: Step, inputs: Obj, before: seq<Execution>, e: Execution,
                           w: Option<WaitRecord>)
    requires step.WaitStep?
  {
    if w.None? then e.status.Failed? && NoTimeMeant(lib, step, inputs, before)
    else
      var wait := w.value.data;
      && wait.condition.TimeWait? && DueMeant(lib, step, inputs, before, wait.condition.until)
      && e.inputs == map["until" := Str(lib.isoFormat(wait.condition.until))]
      && (if e.status.Waiting? then wait.resolution.None? && wait.resolvedAt.None?
          && wait.condition.until > wait.recordedAt
          else
            && e.status.Completed? && wait.resolvedAt.Some? && wait.condition.until <= wait.resolvedAt.value
            && wait.resolution == Some(map["fired_at" := Str(lib.isoFormat(wait.resolvedAt.value))])
            && e.output == Some(map["until" := Str(lib.isoFormat(wait.condition.until)),
                                    "fired_at" := Str(lib.isoFormat(wait.resolvedAt.value))]))
  }

  /** The first case that holds was taken, else the default; a failed condition has neither. */
  ghost predicate ConditionTrue(lib: Library, step: Step, inputs: Obj, before: seq<Execution>, e: Execution)
    requires step.ConditionStep?
  {
    if e.status.Completed? then
      e.inputs == map[] && exists k: nat :: TookCase(lib, step, inputs, before, e, k)
    else e.status.Failed? && forall k :: !Chooses(lib, inputs, before, step.cases, k)
  }

  ghost predicate TookCase(lib: Library, step: Step, inputs: Obj, before: seq<Execution>, e: Execution, k: nat)
    requires step.ConditionStep?
  {
    && Chooses(lib, inputs, before, step.cases, k)
    && e.output == Some(if k < |step.cases| then map["selected" := Str(step.cases[k].next), "case" := IntNum(k)]
                        else map["selected" := Str(step.otherwise), "case" := Null])
  }

  ghost predicate EndTrue(lib: Library, step: Step, inputs: Obj, before: seq<Execution>, e: Execution)
    requires step.EndStep?
  {
    if e.status.Completed? then
      FieldsRead(lib, inputs, before, step.result, e.inputs) && e.output == Some(map["outcome" := Str(step.outcome)])
    else e.status.Failed? && Unreadable(lib, inputs, before, step.result)
  }

  ghost predicate TrueOf(lib: Library, step: Step, inputs: Obj, before: seq<Execution>, e: Execution,
                         i: Option<Invocation>, w: Option<WaitRecord>)
  {
    match step
    case ActionStep(_, _, _, _, _, _, _, _) => ActionTrue(lib, step, inputs, before, e, i)
    case HumanStep(_, _, _, _, _, _) => HumanTrue(lib, step, inputs, before, e, w)
    case WaitStep(_, _, _, _) => WaitTrue(lib, step, inputs, before, e, w)
    case ConditionStep(_, _, _) => ConditionTrue(lib, step, inputs, before, e)
    case EndStep(_, _, _) => EndTrue(lib, step, inputs, before, e)
  }

  // ---- What a run says

  ghost predicate TrueAt(lib: Library, run: Run, k: nat)
    requires k < |run.executions|
  {
    var e := run.executions[k];
    && e.node in StepsOf(run)
    && TrueOf(lib, StepsOf(run)[e.node], run.record.inputs, run.executions[..k], e,
              ChildOf(run.invocations, e.uid), ChildOf(run.waits, e.uid))
  }

  ghost predicate AllTrue(lib: Library, run: Run) {
    forall k :: 0 <= k < |run.executions| ==> TrueAt(lib, run, k)
  }

  /** A completed run has the outcome and the result of its end step, a failed one names its last step,
      and any other has no result. */
  ghost predicate ResultTrue(run: Run) {
    var n := |run.executions| - 1;
    match run.record.status
    case Completed =>
      && n >= 0 && run.executions[n].node in StepsOf(run) && StepsOf(run)[run.executions[n].node].EndStep?
      && run.record.result == Outcome(StepsOf(run)[run.executions[n].node].outcome, run.executions[n].inputs)
    case Failed => n >= 0 && run.record.result == Failure(run.executions[n].node)
    case _ => run.record.result == NoResult
  }

  // ---- A new execution

  lemma AddsTrue(lib: Library, tx: Tx, after: Tx, e: Execution, i: Option<Invocation>, w: Option<WaitRecord>)
    requires Children(tx.run, tx.connectors.calls) && Adds(tx, after, e, i, w) && AllTrue(lib, tx.run)
    requires e.node in StepsOf(tx.run)
    requires TrueOf(lib, StepsOf(tx.run)[e.node], tx.run.record.inputs, tx.run.executions, e, i, w)
    ensures AllTrue(lib, after.run)
  {
    var run, next := tx.run, after.run;
    FreshHasNoChild(run.invocations, run.executions, run.nextId);
    FreshHasNoChild(run.waits, run.executions, run.nextId);
    SavedFacts(run.invocations, i, e.uid, next.nextId);
    SavedFacts(run.waits, w, e.uid, next.nextId);
    forall k | 0 <= k < |next.executions| ensures TrueAt(lib, next, k) {
      if k < |run.executions| {
        assert TrueAt(lib, run, k);
        assert run.executions[k] in run.executions;
        assert next.executions[..k] == run.executions[..k];
      } else {
        assert next.executions[..k] == run.executions;
      }
    }
  }

  /** The last execution finished, with its records saved. */
  lemma FinishesTrue(lib: Library, tx: Tx, after: Tx, e: Execution, i: Option<Invocation>, w: Option<WaitRecord>)
    requires Children(tx.run, tx.connectors.calls) && |tx.run.executions| > 0 && Finishes(tx, after, e, i, w)
    requires AllTrue(lib, tx.run) && e.node in StepsOf(tx.run)
    requires TrueOf(lib, StepsOf(tx.run)[e.node], tx.run.record.inputs, tx.run.executions[..|tx.run.executions| - 1], e,
                    if i.Some? then i else ChildOf(tx.run.invocations, e.uid),
                    if w.Some? then w else ChildOf(tx.run.waits, e.uid))
    ensures AllTrue(lib, after.run)
  {
    var run, next := tx.run, after.run;
    var n := |run.executions| - 1;
    if i.Some? {
      OwnKeyAgrees(run.invocations, i.value, e.uid);
    }
    if w.Some? {
      OwnKeyAgrees(run.waits, w.value, e.uid);
    }
    assert Last(run) in run.executions;
    SavedFacts(run.invocations, i, e.uid, next.nextId);
    SavedFacts(run.waits, w, e.uid, next.nextId);
    forall k | 0 <= k < |next.executions| ensures TrueAt(lib, next, k) {
      if k < n {
        assert TrueAt(lib, run, k);
        assert Ordered(run.executions, k, n);
        assert next.executions[..k] == run.executions[..k];
      } else {
        assert next.executions[..k] == run.executions[..n];
      }
    }
  }

  // ---- One step

  lemma UnreadableMeans(lib: Library, run: Run, values: map<string, Value>)
    requires EvalFields(lib, run, values).None?
    ensures Unreadable(lib, run.record.inputs, run.executions, values)
  {
    forall out ensures !FieldsRead(lib, run.record.inputs, run.executions, values, out) {
      FieldsAreRead(lib, run, values, out);
    }
  }

  /** A step that cannot evaluate what it needs fails, and says so truly. */
  ghost predicate Failing(env: Env, run: Run, step: Step) {
    match step
    case ActionStep(_, _, _, _, inputs, _, _, _) => EvalFields(env.lib, run, inputs).None?
    case HumanStep(_, _, subject, _, _, _) => EvalFields(env.lib, run, subject).None?
    case EndStep(_, _, result) => EvalFields(env.lib, run, result).None?
    case ConditionStep(_, cases, _) => Select(env.lib, run, cases, 0).None?
    case WaitStep(_, _, _, _) => WaitTime(env, run, step).NotATime?
  }

  lemma FailedStepTrue(env: Env, tx: Tx, step: Step)
    requires Failing(env, tx.run, step)
    ensures TrueOf(env.lib, step, tx.run.record.inputs, tx.run.executions, FailedStep(tx, step.id), None, None)
  {
    match step
    case ActionStep(_, _, _, _, inputs, _, _, _) => UnreadableMeans(env.lib, tx.run, inputs);
    case HumanStep(_, _, subject, _, _, _) => UnreadableMeans(env.lib, tx.run, subject);
    case EndStep(_, _, result) => UnreadableMeans(env.lib, tx.run, result);
    case ConditionStep(_, cases, _) =>
      forall k ensures !Chooses(env.lib, tx.run.record.inputs, tx.run.executions, cases, k) {
        if k >= 0 {
          SelectChooses(env.lib, tx.run, cases, k);
        }
      }
    case WaitStep(_, _, _, _) => NoTimeIsMeant(env, tx.run, step);
  }

  lemma NoTimeIsMeant(env: Env, run: Run, step: Step)
    requires step.WaitStep? && WaitTime(env, run, step).NotATime?
    ensures NoTimeMeant(env.lib, step, run.record.inputs, run.executions)
  {
    forall text | Reads(env.lib, run.record.inputs, run.executions, step.until, Str(text))
      ensures env.lib.parseTime(text).NotATime?
    {
      EvalReads(env.lib, run, step.until, Str(text));
    }
  }

  lemma DueIsMeant(env: Env, run: Run, step: Step, due: int)
    requires step.WaitStep? && WaitTime(env, run, step) == Time(due)
    ensures DueMeant(env.lib, step, run.record.inputs, run.executions, due)
  {
    var text := Eval(env.lib, run, step.until).value.text;
    EvalReads(env.lib, run, step.until, Str(text));
    var time := env.lib.parseTime(text).instant;
    assert env.lib.parseTime(text) == Time(time) && env.lib.shift(time, step.offset) == Some(due);
  }

  ghost predicate Truthful(lib: Library, run: Run) {
    AllTrue(lib, run) && ResultTrue(run)
  }

  /** What a move leaves behind is true. */
  ghost predicate MoveTrue(env: Env, move: Move) {
    match move
    case Abort => true
    case Halt(after) => Truthful(env.lib, after.run)
    case Goto(after, _) => AllTrue(env.lib, after.run) && after.run.record.result == NoResult
  }

  ghost predicate CanAdvance(tx: Tx, step: Step) {
    && C.Valid(tx.connectors) && Entering(tx.run, tx.connectors, step.id) && StepsOf(tx.run)[step.id] == step
    && tx.run.record.result == NoResult
  }

  lemma FailingTrue(env: Env, tx: Tx, step: Step)
    requires CanAdvance(tx, step) && AllTrue(env.lib, tx.run) && Failing(env, tx.run, step)
    ensures MoveTrue(env, Halt(tx.(run := FailNew(tx.run, step.id))))
  {
    FailedStepTrue(env, tx, step);
    FailNewAdds(tx, step.id);
    AddsTrue(env.lib, tx, tx.(run := FailNew(tx.run, step.id)), FailedStep(tx, step.id), None, None);
  }

  lemma ConditionStepTrue(env: Env, tx: Tx, step: Step)
    requires CanAdvance(tx, step) && AllTrue(env.lib, tx.run) && step.ConditionStep?
    ensures MoveTrue(env, RunCondition(env, tx, step))
  {
    match Select(env.lib, tx.run, step.cases, 0)
    case None => FailingTrue(env, tx, step);
    case Some(k) =>
      SelectChooses(env.lib, tx.run, step.cases, k);
      ConditionAdds(env, tx, step, k);
      assert TookCase(env.lib, step, tx.run.record.inputs, tx.run.executions, ChosenStep(tx, step, k), k);
      AddsTrue(env.lib, tx, RunCondition(env, tx, step).tx, ChosenStep(tx, step, k), None, None);
  }

  lemma EndStepTrue(env: Env, tx: Tx, step: Step)
    requires CanAdvance(tx, step) && AllTrue(env.lib, tx.run) && step.EndStep?
    ensures MoveTrue(env, RunEnd(env, tx, step))
  {
    match EvalFields(env.lib, tx.run, step.result)
    case None => FailingTrue(env, tx, step);
    case Some(result) =>
      FieldsAreRead(env.lib, tx.run, step.result, result);
      EndAdds(env, tx, step, result);
      AddsTrue(env.lib, tx, RunEnd(env, tx, step).tx, EndedStep(tx, step, result), None, None);
  }

  lemma HumanStepTrue(env: Env, tx: Tx, step: Step)
    requires CanAdvance(tx, step) && AllTrue(env.lib, tx.run) && step.HumanStep? && !OutOfRange(env, tx.run, step)
    ensures MoveTrue(env, RunHuman(env, tx, step))
  {
    match EvalFields(env.lib, tx.run, step.subject)
    case None => FailingTrue(env, tx, step);
    case Some(subject) =>
      FieldsAreRead(env.lib, tx.run, step.subject, subject);
      HumanAdds(env, tx, step, subject);
      AddsTrue(env.lib, tx, RunHuman(env, tx, step).tx, WaitingStep(tx, step.id, subject), None,
               Some(AskedWait(env, tx, step, subject)));
  }

  lemma WaitStepTrue(env: Env, tx: Tx, step: Step)
    requires CanAdvance(tx, step) && AllTrue(env.lib, tx.run) && step.WaitStep? && !OutOfRange(env, tx.run, step)
    ensures MoveTrue(env, RunWait(env, tx, step))
  {
    match WaitTime(env, tx.run, step)
    case NotATime => FailingTrue(env, tx, step);
    case Time(due) =>
      DueIsMeant(env, tx.run, step, due);
      if due > env.now {
        TimeAdds(env, tx, step, due);
        AddsTrue(env.lib, tx, RunWait(env, tx, step).tx, WaitingStep(tx, step.id, DueInputs(env.lib, due)), None,
                 Some(TimedWait(env, tx, due)));
      } else {
        DueAdds(env, tx, step, due);
        AddsTrue(env.lib, tx, RunWait(env, tx, step).tx, FiredStep(env, tx, step.id, due), None,
                 Some(FiredWait(env, tx, due)));
      }
  }

  lemma ActionStepTrue(env: Env, tx: Tx, step: Step)
    requires CanAdvance(tx, step) && AllTrue(env.lib, tx.run) && step.ActionStep?
    ensures MoveTrue(env, RunAction(env, tx, step))
  {
    match EvalFields(env.lib, tx.run, step.inputs)
    case None => FailingTrue(env, tx, step);
    case Some(inputs) =>
      FieldsAreRead(env.lib, tx.run, step.inputs, inputs);
      QueueFailsOnlyOnPayload(env.lib, tx.run, tx.connectors, step, inputs);
      AskedTrue(env, tx, step, inputs,
                C.NewCall(env.lib, tx.connectors, step.connector, step.action, step.version, inputs, Authorizes(step)));
  }

  lemma AskedTrue(env: Env, tx: Tx, step: Step, inputs: Obj, queued: Result<C.Call, C.Error>)
    requires CanAdvance(tx, step) && AllTrue(env.lib, tx.run) && Asks(env, tx, step, inputs, queued)
    requires FieldsRead(env.lib, tx.run.record.inputs, tx.run.executions, step.inputs, inputs)
    ensures MoveTrue(env, RunAction(env, tx, step))
  {
    match queued
    case Err(_) =>
      RejectedAdds(env, tx, step, inputs, queued);
      AddsTrue(env.lib, tx, RunAction(env, tx, step).tx, RefusedStep(tx, step.id, inputs),
               Some(RefusedInvocation(tx, inputs)), None);
    case Ok(call) =>
      ActionAdds(env, tx, step, inputs, queued);
      AddsTrue(env.lib, tx, RunAction(env, tx, step).tx, WaitingStep(tx, step.id, inputs),
               Some(BoundInvocation(tx, inputs, call)), None);
  }

  lemma AdvanceTrue(env: Env, tx: Tx, step: Step)
    requires CanAdvance(tx, step) && AllTrue(env.lib, tx.run) && !OutOfRange(env, tx.run, step)
    ensures MoveTrue(env, Advance(env, tx, step))
  {
    match step
    case ConditionStep(_, _, _) => ConditionStepTrue(env, tx, step);
    case EndStep(_, _, _) => EndStepTrue(env, tx, step);
    case ActionStep(_, _, _, _, _, _, _, _) => ActionStepTrue(env, tx, step);
    case HumanStep(_, _, _, _, _, _) => HumanStepTrue(env, tx, step);
    case WaitStep(_, _, _, _) => WaitStepTrue(env, tx, step);
  }

  // ---- Whole transactions

  ghost predicate ResultIsTrue(env: Env, result: TxResult) {
    result.Done? ==> Truthful(env.lib, result.tx.run)
  }

  lemma {:induction false} LoopTrue(env: Env, tx: Tx, node: Id)
    requires C.Valid(tx.connectors) && Entering(tx.run, tx.connectors, node) && tx.run.record.result == NoResult
    requires Sound(StepsOf(tx.run), tx.run.record.body.start) && AllTrue(env.lib, tx.run)
    ensures ResultIsTrue(env, Loop(env, StepsOf(tx.run), tx.run.record.body.start, tx, node))
    decreases ReachSet(EdgesOf(StepsOf(tx.run)), StepsOf(tx.run).Keys, node)
  {
    var steps := StepsOf(tx.run);
    AdvanceLands(env, tx, node);
    if !OutOfRange(env, tx.run, steps[node]) {
      AdvanceTrue(env, tx, steps[node]);
    }
    match Advance(env, tx, steps[node])
    case Abort =>
    case Halt(_) =>
    case Goto(after, next) =>
      AdvanceFollowsEdge(env, tx, steps[node]);
      ReachSetShrinks(EdgesOf(steps), steps.Keys, node, next);
      LoopTrue(env, after, next);
  }

  lemma SameIsTrue(lib: Library, run: Run, after: Run)
    requires AllTrue(lib, run)
    requires after.executions == run.executions && after.invocations == run.invocations && after.waits == run.waits
    requires after.record.body == run.record.body && after.record.inputs == run.record.inputs
    ensures AllTrue(lib, after)
  {
    forall k | 0 <= k < |after.executions| ensures TrueAt(lib, after, k) {
      assert TrueAt(lib, run, k);
    }
  }

  /** Entering a step of a true run ends in a true run. */
  lemma EnterTrue(env: Env, tx: Tx, node: Id)
    requires C.Valid(tx.connectors) && Entering(tx.run, tx.connectors, node) && tx.run.record.result == NoResult
    requires AllTrue(env.lib, tx.run)
    ensures Sound(StepsOf(tx.run), tx.run.record.body.start)
    ensures ResultIsTrue(env, Enter(env, StepsOf(tx.run), tx.run.record.body.start, tx, node))
  {
    AcceptedIsSound(tx.run.record.body, ProjectConnections(tx.connectors.connections, tx.run.record.project));
    var running := RunningTx(tx);
    ChildrenSame(tx.run, running.run, tx.connectors);
    SameIsTrue(env.lib, tx.run, running.run);
    LoopTrue(env, running, node);
  }

  ghost predicate ResumeTrue(env: Env, tx: Tx, move: Move)
    requires Sound(StepsOf(tx.run), tx.run.record.body.start) && (move.Goto? ==> move.node in StepsOf(tx.run))
  {
    ResultIsTrue(env, Resume(env, StepsOf(tx.run), tx.run.record.body.start, move))
  }

  /** A waiting run with records that are in order and true. */
  ghost predicate Waits(env: Env, tx: Tx) {
    && C.Valid(tx.connectors) && Settled(tx.run, tx.connectors) && tx.run.record.status.Waiting?
    && Truthful(env.lib, tx.run)
  }

  lemma FinishedResumesTrue(env: Env, tx: Tx, after: Tx, e: Execution, i: Option<Invocation>, w: Option<WaitRecord>,
                            next: Id)
    requires Waits(env, tx) && Finishes(tx, after, e, i, w) && Passed(StepsOf(tx.run), e, next)
    requires TrueOf(env.lib, StepsOf(tx.run)[e.node], tx.run.record.inputs,
                    tx.run.executions[..|tx.run.executions| - 1], e,
                    if i.Some? then i else ChildOf(tx.run.invocations, e.uid),
                    if w.Some? then w else ChildOf(tx.run.waits, e.uid))
    requires after.run.record.result == NoResult
    ensures Sound(StepsOf(tx.run), tx.run.record.body.start) && next in StepsOf(tx.run)
    ensures ResumeTrue(env, tx, Goto(after, next))
  {
    FinishedEnters(tx, after, e, i, w, next);
    FinishesTrue(env.lib, tx, after, e, i, w);
    EnterTrue(env, after, next);
  }

  /** What the last execution of a waiting run says. */
  lemma LastIsTrue(env: Env, tx: Tx)
    requires Waits(env, tx)
    ensures Last(tx.run).node in StepsOf(tx.run) && tx.run.record.result == NoResult
    ensures TrueOf(env.lib, StepsOf(tx.run)[Last(tx.run).node], tx.run.record.inputs,
                   tx.run.executions[..|tx.run.executions| - 1], Last(tx.run),
                   ChildOf(tx.run.invocations, Last(tx.run).uid), ChildOf(tx.run.waits, Last(tx.run).uid))
  {
    assert TrueAt(env.lib, tx.run, |tx.run.executions| - 1);
  }

  lemma UnknownTrue(env: Env, tx: Tx, i: Invocation)
    requires Waits(env, tx) && StepsOf(tx.run)[Last(tx.run).node].ActionStep?
    requires ChildOf(tx.run.invocations, Last(tx.run).uid) == Some(i)
    ensures Truthful(env.lib, tx.run.(invocations := Save(tx.run.invocations, UnknownInvocation(i))))
  {
    LastIsTrue(env, tx);
    UnknownFinishes(tx, Last(tx.run), i);
    FinishesTrue(env.lib, tx, tx.(run := tx.run.(invocations := Save(tx.run.invocations, UnknownInvocation(i)))),
                 Last(tx.run), Some(UnknownInvocation(i)), None);
  }

  lemma FailedCallTrue(env: Env, tx: Tx, i: Invocation, failed: Invocation)
    requires Waits(env, tx) && StepsOf(tx.run)[Last(tx.run).node].ActionStep?
    requires ChildOf(tx.run.invocations, Last(tx.run).uid) == Some(i) && i.data.call.Some?
    requires i.data.call.value < |tx.connectors.calls| && tx.connectors.calls[i.data.call.value].call.status.Failed?
    requires failed == i.(data := i.data.(status := InvocationStatus.Failed, error := true))
    ensures Truthful(env.lib, FailStep(tx.run.(invocations := Save(tx.run.invocations, failed)), Last(tx.run)))
  {
    var run, e := tx.run, Last(tx.run);
    var done := e.(status := StepStatus.Failed, output := Some(ERROR_OUTPUT));
    LastIsTrue(env, tx);
    WaitsInLast(run, tx.connectors);
    ChildOfMember(run.invocations, e.uid);
    InvokedFinishes(tx, e, failed, StepStatus.Failed, Some(ERROR_OUTPUT));
    var after := FinishRun(InvokedRun(run, e, failed, StepStatus.Failed, Some(ERROR_OUTPUT)), RunStatus.Failed,
                           Failure(e.node));
    FinishesTrue(env.lib, tx, tx.(run := after), done, Some(failed), None);
  }

  lemma CompletedCallTrue(env: Env, tx: Tx, i: Invocation, done: Invocation, call: C.Call)
    requires Waits(env, tx) && StepsOf(tx.run)[Last(tx.run).node].ActionStep?
    requires ChildOf(tx.run.invocations, Last(tx.run).uid) == Some(i) && i.data.call.Some?
    requires i.data.call.value < |tx.connectors.calls| && call == tx.connectors.calls[i.data.call.value].call
    requires call.status.Completed?
    requires done == i.(data := i.data.(status := InvocationStatus.Completed, output := call.output,
                                        externalRef := call.externalRef, error := false))
    ensures Sound(StepsOf(tx.run), tx.run.record.body.start)
    ensures StepsOf(tx.run)[Last(tx.run).node].next in StepsOf(tx.run)
    ensures ResumeTrue(env, tx,
                       Goto(tx.(run := InvokedRun(tx.run, Last(tx.run), done, StepStatus.Completed, call.output)),
                                     StepsOf(tx.run)[Last(tx.run).node].next))
  {
    var run, e := tx.run, Last(tx.run);
    var step := StepsOf(run)[e.node];
    LastIsTrue(env, tx);
    WaitsInLast(run, tx.connectors);
    ChildOfMember(run.invocations, e.uid);
    assert C.EntryValid(tx.connectors, i.data.call.value);
    InvokedFinishes(tx, e, done, StepStatus.Completed, call.output);
    assert step.next in Successors(step);
    FinishedResumesTrue(env, tx, tx.(run := InvokedRun(run, e, done, StepStatus.Completed, call.output)),
                        e.(status := StepStatus.Completed, output := call.output), Some(done), None, step.next);
  }

  lemma ApplyTrue(env: Env, tx: Tx, i: Invocation)
    requires Waits(env, tx) && StepsOf(tx.run)[Last(tx.run).node].ActionStep?
    requires ChildOf(tx.run.invocations, Last(tx.run).uid) == Some(i) && i.data.call.Some?
    requires i.data.call.value < |tx.connectors.calls|
    requires var call := tx.connectors.calls[i.data.call.value].call; !call.status.Queued? && !call.status.Claimed?
    ensures Sound(StepsOf(tx.run), tx.run.record.body.start)
    ensures StepsOf(tx.run)[Last(tx.run).node].next in StepsOf(tx.run)
    ensures ResumeTrue(env, tx, ApplyCall(tx, Last(tx.run), i, tx.connectors.calls[i.data.call.value].call,
                                          StepsOf(tx.run)[Last(tx.run).node].next))
  {
    WaitsInLast(tx.run, tx.connectors);
    var step, call := StepsOf(tx.run)[Last(tx.run).node], tx.connectors.calls[i.data.call.value].call;
    assert step.next in Successors(step);
    if call.status.Unknown? {
      UnknownTrue(env, tx, i);
    } else if call.status.Failed? {
      FailedCallTrue(env, tx, i, i.(data := i.data.(status := InvocationStatus.Failed, error := true)));
    } else {
      CompletedCallTrue(env, tx, i, i.(data := i.data.(status := InvocationStatus.Completed, output := call.output,
                                                       externalRef := call.externalRef, error := false)), call);
    }
  }

  /** A resolved wait is followed by the step at the exit that was recorded. */
  lemma ResolvedTrue(env: Env, tx: Tx, w: WaitRecord, resolution: Obj, output: Obj, next: Id)
    requires Waits(env, tx) && ChildOf(tx.run.waits, Last(tx.run).uid) == Some(w)
    requires StepsOf(tx.run)[Last(tx.run).node].HumanStep? || StepsOf(tx.run)[Last(tx.run).node].WaitStep?
    requires StepsOf(tx.run)[Last(tx.run).node].HumanStep? ==>
               "decision" in resolution && "decision" in output && output["decision"] == resolution["decision"]
    requires ExitOf(StepsOf(tx.run)[Last(tx.run).node], output) == Some(next)
    requires next in Successors(StepsOf(tx.run)[Last(tx.run).node])
    requires TrueOf(env.lib, StepsOf(tx.run)[Last(tx.run).node], tx.run.record.inputs,
                    tx.run.executions[..|tx.run.executions| - 1], Completion(Last(tx.run), output),
                    ChildOf(tx.run.invocations, Last(tx.run).uid), Some(Resolved(w, resolution, env.now)))
    ensures Sound(StepsOf(tx.run), tx.run.record.body.start) && next in StepsOf(tx.run)
    ensures ResumeTrue(env, tx, Goto(tx.(run := ResolvedRun(tx.run, Last(tx.run), w, resolution, output, env.now)),
                                     next))
  {
    LastIsTrue(env, tx);
    WaitsInLast(tx.run, tx.connectors);
    ResolvedFinishes(tx, Last(tx.run), w, resolution, output, env.now);
    FinishedResumesTrue(env, tx, tx.(run := ResolvedRun(tx.run, Last(tx.run), w, resolution, output, env.now)),
                        Completion(Last(tx.run), output), None, Some(Resolved(w, resolution, env.now)), next);
  }

  /** A resolved question stays true of its execution. */
  lemma AnswerIsTrue(lib: Library, step: Step, inputs: Obj, before: seq<Execution>, e: Execution, w: WaitRecord,
                     resolution: Obj, now: int)
    requires step.HumanStep? && e.status.Waiting? && HumanTrue(lib, step, inputs, before, e, Some(w))
    requires TimedOut(Resolved(w, resolution, now).data) || DecidedTrue(lib, e, Resolved(w, resolution, now).data)
    ensures HumanTrue(lib, step, inputs, before, Completion(e, resolution["subject" := Object(e.inputs)]),
                      Some(Resolved(w, resolution, now)))
  {
    if !TimedOut(Resolved(w, resolution, now).data) {
      var verdict: Verdict, actor: string, reason: string :|
        resolution == map["decision" := Str(VerdictText(verdict)), "actor" := Str(actor), "reason" := Str(reason),
                          "decided_at" := Str(lib.isoFormat(now))];
    }
  }

  /** What a waiting run says about the question it waits for. */
  lemma QuestionIsTrue(env: Env, tx: Tx, w: WaitRecord)
    requires Waits(env, tx) && ChildOf(tx.run.waits, Last(tx.run).uid) == Some(w)
    requires Last(tx.run).node in StepsOf(tx.run) && StepsOf(tx.run)[Last(tx.run).node].HumanStep?
    ensures Last(tx.run).status.Waiting? && ChildOf(tx.run.invocations, Last(tx.run).uid).None?
    ensures HumanTrue(env.lib, StepsOf(tx.run)[Last(tx.run).node], tx.run.record.inputs,
                      tx.run.executions[..|tx.run.executions| - 1], Last(tx.run), Some(w))
  {
    LastIsTrue(env, tx);
    WaitsInLast(tx.run, tx.connectors);
  }

  /** A person or the clock resolves the question the run waits for. */
  lemma AnsweredTrue(env: Env, tx: Tx, w: WaitRecord, resolution: Obj, next: Id)
    requires Waits(env, tx) && ChildOf(tx.run.waits, Last(tx.run).uid) == Some(w)
    requires StepsOf(tx.run)[Last(tx.run).node].HumanStep? && w.data.condition.HumanWait?
    requires TimedOut(Resolved(w, resolution, env.now).data)
             || DecidedTrue(env.lib, Last(tx.run), Resolved(w, resolution, env.now).data)
    requires ExitOf(StepsOf(tx.run)[Last(tx.run).node], resolution) == Some(next)
    requires next in Successors(StepsOf(tx.run)[Last(tx.run).node])
    ensures Sound(StepsOf(tx.run), tx.run.record.body.start) && next in StepsOf(tx.run)
    ensures ResumeTrue(env, tx, Goto(tx.(run := ResolvedRun(tx.run, Last(tx.run), w, resolution,
                                                            resolution["subject" := Object(Last(tx.run).inputs)],
                                                              env.now)),
                                     next))
  {
    QuestionIsTrue(env, tx, w);
    var e := Last(tx.run);
    AnswerIsTrue(env.lib, StepsOf(tx.run)[e.node], tx.run.record.inputs, tx.run.executions[..|tx.run.executions| - 1],
                 e, w,
                 resolution, env.now);
    ResolvedTrue(env, tx, w, resolution, resolution["subject" := Object(e.inputs)], next);
  }

  /** A question with a deadline has an exit for its timeout. */
  lemma TimeoutExit(env: Env, tx: Tx, w: WaitRecord)
    requires Waits(env, tx) && ChildOf(tx.run.waits, Last(tx.run).uid) == Some(w)
    requires Last(tx.run).node in StepsOf(tx.run) && StepsOf(tx.run)[Last(tx.run).node].HumanStep?
    requires w.data.condition.HumanWait? && w.data.condition.deadline.Some?
    ensures StepsOf(tx.run)[Last(tx.run).node].timeout.Some?
  {
    WaitsInLast(tx.run, tx.connectors);
  }

  lemma TimeoutTrue(env: Env, tx: Tx, w: WaitRecord)
    requires Waits(env, tx) && ChildOf(tx.run.waits, Last(tx.run).uid) == Some(w)
    requires Last(tx.run).node in StepsOf(tx.run) && StepsOf(tx.run)[Last(tx.run).node].HumanStep?
    requires w.data.condition.HumanWait? && w.data.condition.deadline.Some?
             && w.data.condition.deadline.value <= env.now
    ensures Sound(StepsOf(tx.run), tx.run.record.body.start) && StepsOf(tx.run)[Last(tx.run).node].timeout.Some?
    ensures StepsOf(tx.run)[Last(tx.run).node].timeout.value.exit in StepsOf(tx.run)
    ensures ResumeTrue(env, tx, Goto(tx.(run := ResolvedRun(tx.run, Last(tx.run), w, map["decision" := Str("timeout")],
                                                            DecisionOutput("timeout", Last(tx.run).inputs), env.now)),
                                     StepsOf(tx.run)[Last(tx.run).node].timeout.value.exit))
  {
    TimeoutExit(env, tx, w);
    var e, resolution := Last(tx.run), map["decision" := Str("timeout")];
    assert DecisionOutput("timeout", e.inputs) == resolution["subject" := Object(e.inputs)];
    AnsweredTrue(env, tx, w, resolution, StepsOf(tx.run)[e.node].timeout.value.exit);
  }

  lemma ElapsedTrue(env: Env, tx: Tx, w: WaitRecord)
    requires Waits(env, tx) && ChildOf(tx.run.waits, Last(tx.run).uid) == Some(w)
    requires StepsOf(tx.run)[Last(tx.run).node].WaitStep?
    requires w.data.condition.TimeWait? && w.data.condition.until <= env.now
    ensures Sound(StepsOf(tx.run), tx.run.record.body.start)
    ensures StepsOf(tx.run)[Last(tx.run).node].next in StepsOf(tx.run)
    ensures ResumeTrue(env, tx, Goto(tx.(run := ResolvedRun(tx.run, Last(tx.run), w,
                                                            map["fired_at" := Str(env.lib.isoFormat(env.now))],
                                                            FiredOutput(env.lib, w.data.condition.until, env.now),
                                                              env.now)),
                                     StepsOf(tx.run)[Last(tx.run).node].next))
  {
    LastIsTrue(env, tx);
    WaitsInLast(tx.run, tx.connectors);
    ResolvedTrue(env, tx, w, map["fired_at" := Str(env.lib.isoFormat(env.now))],
                 FiredOutput(env.lib, w.data.condition.until, env.now), StepsOf(tx.run)[Last(tx.run).node].next);
  }

  /** A writing poll of a true run ends in a true run. */
  lemma PollTrue(env: Env, tx: Tx)
    requires Waits(env, tx) && Ready(env, StepsOf(tx.run), tx).Yes?
    ensures Sound(StepsOf(tx.run), tx.run.record.body.start)
    ensures ResumeTrue(env, tx, PollMove(env, StepsOf(tx.run), tx))
  {
    WaitsInLast(tx.run, tx.connectors);
    var e := Last(tx.run);
    match StepsOf(tx.run)[e.node]
    case ActionStep(_, _, _, _, _, _, _, _) => ApplyTrue(env, tx, ChildOf(tx.run.invocations, e.uid).value);
    case HumanStep(_, _, _, _, _, _) => TimeoutTrue(env, tx, ChildOf(tx.run.waits, e.uid).value);
    case WaitStep(_, _, _, _) => ElapsedTrue(env, tx, ChildOf(tx.run.waits, e.uid).value);
  }

  lemma DecisionIsTrue(env: Env, e: Execution, w: WaitRecord, d: Decision)
    ensures DecidedTrue(env.lib, e, Resolved(w, DecidedFields(env, d), env.now).data)
  {
  }

  /** A run that is decided on waits in its last execution, for a question. */
  lemma DecidedIsAsked(env: Env, tx: Tx, d: Decision)
    requires Waits(env, tx) && Decidable(StepsOf(tx.run), tx.run, d.expectedVersion)
    ensures WaitingOf(tx.run.executions) == Some(Last(tx.run)) && ChildOf(tx.run.waits, Last(tx.run).uid).Some?
    ensures Last(tx.run).node in StepsOf(tx.run) && StepsOf(tx.run)[Last(tx.run).node].HumanStep?
    ensures ChildOf(tx.run.waits, Last(tx.run).uid).value.data.condition.HumanWait?
  {
    WaitsInLast(tx.run, tx.connectors);
  }

  /** A decision on a true run ends in a true run. */
  lemma DecideTrue(env: Env, tx: Tx, d: Decision)
    requires Waits(env, tx) && Decidable(StepsOf(tx.run), tx.run, d.expectedVersion)
    ensures Sound(StepsOf(tx.run), tx.run.record.body.start)
    ensures ResumeTrue(env, tx, DecideMove(env, StepsOf(tx.run), tx, d))
  {
    DecidedIsAsked(env, tx, d);
    var e, step := Last(tx.run), StepsOf(tx.run)[Last(tx.run).node];
    var w := ChildOf(tx.run.waits, e.uid).value;
    DecisionIsTrue(env, e, w, d);
    AnsweredTrue(env, tx, w, DecidedFields(env, d), if d.verdict.Approve? then step.onApprove else step.onReject);
  }

  // ---- What decides how a step goes

  /** The time a step waits for is the one it means; it is none exactly when the step means none. */
  lemma WaitTimeIs(env: Env, run: Run, step: Step, due: int)
    requires step.WaitStep?
    ensures WaitTime(env, run, step) == Time(due) <==> DueMeant(env.lib, step, run.record.inputs, run.executions, due)
    ensures WaitTime(env, run, step).NotATime? <==> NoTimeMeant(env.lib, step, run.record.inputs, run.executions)
  {
    forall text | Reads(env.lib, run.record.inputs, run.executions, step.until, Str(text))
      ensures Eval(env.lib, run, step.until) == Some(Str(text))
    {
      EvalReads(env.lib, run, step.until, Str(text));
    }
    var found := Eval(env.lib, run, step.until);
    if found.Some? {
      EvalReads(env.lib, run, step.until, found.value);
    }
  }

  /** The step means a time outside the range of dates: as written, after the offset, or as a deadline. */
  ghost predicate BeyondDates(env: Env, step: Step, inputs: Obj, before: seq<Execution>) {
    match step
    case WaitStep(_, until, offset, _) =>
      exists text :: Reads(env.lib, inputs, before, until, Str(text)) && IsBeyond(env.lib, text, offset)
    case HumanStep(_, _, subject, _, _, timeout) =>
      && timeout.Some? && env.lib.shift(env.now, timeout.value.seconds).None?
      && exists out :: FieldsRead(env.lib, inputs, before, subject, out)
    case _ => false
  }

  predicate IsBeyond(lib: Library, text: string, offset: int) {
    var time := lib.parseTime(text);
    time.OffTheCalendar? || (time.Time? && lib.shift(time.instant, offset).None?)
  }

  /** A step is cut short exactly when it means a time outside the range of dates. */
  lemma OutOfRangeIs(env: Env, run: Run, step: Step)
    ensures OutOfRange(env, run, step) <==> BeyondDates(env, step, run.record.inputs, run.executions)
  {
    match step
    case WaitStep(_, until, offset, _) =>
      var found := Eval(env.lib, run, until);
      if found.Some? {
        EvalReads(env.lib, run, until, found.value);
      }
      if text :| Reads(env.lib, run.record.inputs, run.executions, until, Str(text))
                 && IsBeyond(env.lib, text, offset) {
        EvalReads(env.lib, run, until, Str(text));
      }
    case HumanStep(_, _, subject, _, _, _) =>
      var found := EvalFields(env.lib, run, subject);
      if found.Some? {
        FieldsAreRead(env.lib, run, subject, found.value);
      }
      if out :| FieldsRead(env.lib, run.record.inputs, run.executions, subject, out) {
        FieldsAreRead(env.lib, run, subject, out);
      }
    case _ =>
  }

  /** Starting an action step whose inputs can be read queues exactly one call, the one that the step
      asks for, when the inputs conform to the schema of the action; otherwise the run fails and no
      call is queued. */
  ghost predicate AsksOnce(env: Env, tx: Tx, step: Step, inputs: Obj, action: C.Action, after: Tx)
    requires step.ActionStep?
  {
    && Laws.FirstAction(tx.connectors, step.connector, step.action, step.version, action)
    && if env.lib.conforms(action.inputSchema, inputs) then
         && after.run.record.status.Waiting? && |after.connectors.calls| == |tx.connectors.calls| + 1
         && var call := after.connectors.calls[|tx.connectors.calls|].call;
         && Laws.Becomes(env.lib, tx.connectors, step.connector, step.action, step.version, inputs, Authorizes(step),
                         call)
         && Laws.Appended(tx.connectors, after.connectors, call)
       else after.connectors == tx.connectors && after.run.record.status.Failed?
  }

  lemma ActionAsksOnce(env: Env, tx: Tx, step: Step, inputs: Obj) returns (action: C.Action)
    requires CanAdvance(tx, step) && step.ActionStep?
    requires FieldsRead(env.lib, tx.run.record.inputs, tx.run.executions, step.inputs, inputs)
    ensures RunAction(env, tx, step).Halt? && AsksOnce(env, tx, step, inputs, action, RunAction(env, tx, step).tx)
  {
    FieldsAreRead(env.lib, tx.run, step.inputs, inputs);
    QueueFailsOnlyOnPayload(env.lib, tx.run, tx.connectors, step, inputs);
    Laws.NewCallIs(env.lib, tx.connectors, step.connector, step.action, step.version, inputs, Authorizes(step));
    match C.NewCall(env.lib, tx.connectors, step.connector, step.action, step.version, inputs, Authorizes(step)) {
      case Ok(call) =>
        action := call.action;
      case Err(_) =>
        action :| Laws.FirstAction(tx.connectors, step.connector, step.action, step.version, action)
                  && !env.lib.conforms(action.inputSchema, inputs);
    }
  }
}

/** The workflow engine as it runs: an object that holds a run and the rows of its transaction and
    changes both record by record. Every method does what the transaction functions say. */
module Engine {
  import opened Values
  import opened Graphs
  import opened Definitions
  import opened EngineSpec
  import RunChildren
  import C = Connectors

  /** The stored rows of one run and the connector calls, inside a transaction. */
  class Transaction {
    var record: Record
    var executions: seq<Execution>
    var invocations: seq<Invocation>
    var waits: seq<WaitRecord>
    var nextId: nat
    var connectors: C.State

    constructor (run: Run, connectors: C.State)
      ensures Rows() == Tx(run, connectors)
    {
      record, executions, invocations, waits, nextId := run.record, run.executions, run.invocations, run.waits,
        run.nextId;
      this.connectors := connectors;
    }

    function Rows(): Tx
      reads this
    {
      Tx(Run(record, executions, invocations, waits, nextId), connectors)
    }

    method NewId() returns (id: nat)
      modifies this`nextId
      ensures id == old(nextId) && nextId == id + 1
    {
      id := nextId;
      nextId := nextId + 1;
    }
  }

  datatype Outcome = Continue(next: Id) | Stop | Raise

  function MoveOf(outcome: Outcome, tx: Tx): Move {
    match outcome
    case Continue(next) => Goto(tx, next)
    case Stop => Halt(tx)
    case Raise => Abort
  }

  class RunExecution {
    const tx: Transaction
    const env: Env
    const steps: Steps
    const start: Id
    var record: Record
    var executions: seq<Execution>
    var changed: bool

    constructor (tx: Transaction, env: Env)
      ensures this.tx == tx && this.env == env && Valid() && !changed
      ensures View() == tx.Rows()
      ensures steps == StepMap(tx.record.body.steps) && start == tx.record.body.start
    {
      this.tx, this.env := tx, env;
      steps, start := StepMap(tx.record.body.steps), tx.record.body.start;
      record, executions, changed := tx.record, tx.executions, false;
    }

    /** The cached executions are the stored ones. */
    ghost predicate Valid()
      reads this, tx
    {
      executions == tx.executions
    }

    function View(): Tx
      reads this, tx
    {
      Tx(Run(record, executions, tx.invocations, tx.waits, tx.nextId), tx.connectors)
    }

    // ---- Records

    method SaveExecution(e: Execution)
      requires Valid()
      modifies this`executions, this`changed, tx`executions
      ensures Valid() && changed
      ensures View() == old(View()).(run := SaveStep(old(View()).run, e))
    {
      executions := Without(executions, e.uid) + [e];
      tx.executions := executions;
      changed := true;
    }

    method NewExecution(node: Id, status: StepStatus, inputs: Obj, output: Option<Obj>) returns (e: Execution)
      requires Valid()
      modifies this`executions, this`changed, tx`executions, tx`nextId
      ensures Valid() && changed
      ensures e == Execution(old(tx.nextId), node, status, inputs, output)
      ensures View() == old(View()).(run := NewStep(old(View()).run, node, status, inputs, output))
    {
      var id := tx.NewId();
      e := Execution(id, node, status, inputs, output);
      SaveExecution(e);
    }

    method Finish(e: Execution, status: StepStatus, output: Option<Obj>)
      requires Valid()
      modifies this`executions, this`changed, tx`executions
      ensures Valid() && changed
      ensures View() == old(View()).(run := FinishStep(old(View()).run, e, status, output))
    {
      SaveExecution(e.(status := status, output := output));
    }

    method FinishRecord(status: RunStatus, result: RunResult)
      requires Valid()
      modifies this`record, this`changed
      ensures Valid() && changed
      ensures View() == old(View()).(run := FinishRun(old(View()).run, status, result))
    {
      record := record.(status := status, result := result);
      changed := true;
    }

    /** A technical failure: it fails the step and the run. */
    method Fail(node: Id, execution: Option<Execution>)
      requires Valid()
      modifies this`record, this`executions, this`changed, tx`executions, tx`nextId
      ensures Valid() && changed
      ensures View().run == if execution.None? then FailNew(old(View()).run, node)
                            else FinishRun(FinishStep(old(View()).run, execution.value, StepStatus.Failed,
                                                      Some(ERROR_OUTPUT)),
                                           RunStatus.Failed, Failure(node))
      ensures View().connectors == old(View()).connectors
    {
      match execution {
        case None =>
          var _ := NewExecution(node, StepStatus.Failed, map[], Some(ERROR_OUTPUT));
        case Some(e) =>
          Finish(e, StepStatus.Failed, Some(ERROR_OUTPUT));
      }
      FinishRecord(RunStatus.Failed, Failure(node));
    }

    method SaveInvocation(i: Invocation)
      requires Valid()
      modifies tx`invocations
      ensures Valid() && View()
              == old(View()).(run := old(View()).run.(invocations := Save(old(View()).run.invocations, i)))
    {
      tx.invocations := Save(tx.invocations, i);
    }

    method SaveWait(w: WaitRecord)
      requires Valid()
      modifies tx`waits
      ensures Valid() && View() == old(View()).(run := old(View()).run.(waits := Save(old(View()).run.waits, w)))
    {
      tx.waits := Save(tx.waits, w);
    }

    method SetStatus(status: RunStatus)
      requires Valid()
      modifies this`record
      ensures Valid() && View() == old(View()).(run := WithStatus(old(View()).run, status))
    {
      record := record.(status := status);
    }

    // ---- One step

    /** The first matching case, otherwise the default. */
    method DoCondition(step: Step) returns (outcome: Outcome)
      requires Valid() && step.ConditionStep?
      modifies this, tx
      ensures Valid() && changed && MoveOf(outcome, View()) == RunCondition(env, old(View()), step)
    {
      var run := View().run;
      var i := 0;
      while i < |step.cases|
        invariant 0 <= i <= |step.cases|
        invariant Valid() && View() == old(View())
        invariant Select(env.lib, run, step.cases, 0) == Select(env.lib, run, step.cases, i)
      {
        var holds := Test(env.lib, run, step.cases[i].when);
        if holds.None? {
          Fail(step.id, None);
          return Stop;
        }
        if holds.value {
          break;
        }
        i := i + 1;
      }
      var next := if i < |step.cases| then step.cases[i].next else step.otherwise;
      var index := if i < |step.cases| then IntNum(i) else Null;
      var _ := NewExecution(step.id, StepStatus.Completed, map[], Some(SelectedOutput(next, index)));
      return Continue(next);
    }

    method DoEnd(step: Step) returns (outcome: Outcome)
      requires Valid() && step.EndStep?
      modifies this, tx
      ensures Valid() && changed && MoveOf(outcome, View()) == RunEnd(env, old(View()), step)
    {
      var result := EvalFields(env.lib, View().run, step.result);
      if result.None? {
        Fail(step.id, None);
        return Stop;
      }
      var _ := NewExecution(step.id, StepStatus.Completed, result.value, Some(map["outcome" := Str(step.outcome)]));
      FinishRecord(RunStatus.Completed, RunResult.Outcome(step.outcome, result.value));
      return Stop;
    }

    /** A queued call is bound to its invocation and awaited; a refused one fails invocation and run. An
        unknown connector cuts the transaction short. */
    method DoAction(step: Step) returns (outcome: Outcome)
      requires Valid() && step.ActionStep?
      modifies this, tx
      ensures Valid() && (outcome.Stop? ==> changed) && MoveOf(outcome, View()) == RunAction(env, old(View()), step)
    {
      var inputs := EvalFields(env.lib, View().run, step.inputs);
      if inputs.None? {
        Fail(step.id, None);
        return Stop;
      }
      if step.connector !in tx.connectors.connections {
        return Raise;
      }
      if tx.connectors.connections[step.connector].project != record.project {
        Fail(step.id, None);
        return Stop;
      }
      var e := NewExecution(step.id, StepStatus.Waiting, inputs.value, None);
      var id := tx.NewId();
      var intent := NewInvocation(id, e.uid, inputs.value);
      SaveInvocation(intent);
      SaveIntentTwice(old(tx.invocations), intent);
      var queued := C.NewCall(env.lib, tx.connectors, step.connector, step.action, step.version, inputs.value,
                              Authorizes(step));
      match queued {
        case Err(_) =>
          SaveInvocation(intent.(data := intent.data.(status := InvocationStatus.Failed, error := true)));
          Fail(step.id, Some(e));
        case Ok(call) =>
          tx.connectors := C.WithCall(tx.connectors, call);
          SaveInvocation(intent.(data := intent.data.(call := Some(call.id))));
          SetStatus(RunStatus.Waiting);
      }
      return Stop;
    }

    method DoHuman(step: Step) returns (outcome: Outcome)
      requires Valid() && step.HumanStep?
      modifies this, tx
      ensures Valid() && (outcome.Stop? ==> changed) && MoveOf(outcome, View()) == RunHuman(env, old(View()), step)
    {
      var subject := EvalFields(env.lib, View().run, step.subject);
      if subject.None? {
        Fail(step.id, None);
        return Stop;
      }
      var e := NewExecution(step.id, StepStatus.Waiting, subject.value, None);
      var deadline: Option<int> := None;
      if step.timeout.Some? {
        deadline := env.lib.shift(env.now, step.timeout.value.seconds);
        if deadline.None? {
          return Raise;
        }
      }
      var id := tx.NewId();
      SaveWait(NewWait(id, e.uid, HumanWait(step.question, subject.value, deadline), env.now));
      SetStatus(RunStatus.Waiting);
      return Stop;
    }

    /** Waits for the time the step names, or passes it at once when that time has come. A time that
        is no date cuts the transaction short. */
    method DoWait(step: Step) returns (outcome: Outcome)
      requires Valid() && step.WaitStep?
      modifies this, tx
      ensures Valid() && (!outcome.Raise? ==> changed) && MoveOf(outcome, View()) == RunWait(env, old(View()), step)
    {
      var until := Eval(env.lib, View().run, step.until);
      var time := if until.Some? && until.value.Str? then env.lib.parseTime(until.value.text) else NotATime;
      if time.NotATime? {
        Fail(step.id, None);
        return Stop;
      }
      if time.OffTheCalendar? {
        return Raise;
      }
      var shifted := env.lib.shift(time.instant, step.offset);
      if shifted.None? {
        return Raise;
      }
      var due := shifted.value;
      var e := NewExecution(step.id, StepStatus.Waiting, map["until" := Str(env.lib.isoFormat(due))], None);
      var id := tx.NewId();
      var w := NewWait(id, e.uid, TimeWait(due), env.now);
      SaveWait(w);
      if due > env.now {
        SetStatus(RunStatus.Waiting);
        return Stop;
      }
      SaveWait(Resolved(w, map["fired_at" := Str(env.lib.isoFormat(env.now))], env.now));
      Finish(e, StepStatus.Completed, Some(FiredOutput(env.lib, due, env.now)));
      return Continue(step.next);
    }

    method DoStep(step: Step) returns (outcome: Outcome)
      requires Valid()
      modifies this, tx
      ensures Valid() && (!outcome.Raise? ==> changed) && MoveOf(outcome, View()) == Advance(env, old(View()), step)
    {
      match step
      case ConditionStep(_, _, _) => outcome := DoCondition(step);
      case EndStep(_, _, _) => outcome := DoEnd(step);
      case ActionStep(_, _, _, _, _, _, _, _) => outcome := DoAction(step);
      case HumanStep(_, _, _, _, _, _) => outcome := DoHuman(step);
      case WaitStep(_, _, _, _) => outcome := DoWait(step);
    }

    // ---- Transactions

    /** Makes the moves of the specification from `node` on; false when one of them is cut short. */
    method Enter(node: Id) returns (ok: bool)
      requires Valid() && Sound(steps, start) && node in steps
      modifies this, tx
      ensures Valid() && (ok ==> changed)
      ensures EngineSpec.Enter(env, steps, start, old(View()), node) == if ok then Done(View()) else Raised
    {
      SetStatus(RunStatus.Running);
      var at := node;
      ghost var entered := View();
      while true
        invariant Valid() && at in steps
        invariant Loop(env, steps, start, View(), at) == Loop(env, steps, start, entered, node)
        decreases ReachSet(EdgesOf(steps), steps.Keys, at)
      {
        AdvanceFollowsEdge(env, View(), steps[at]);
        var outcome := DoStep(steps[at]);
        match outcome {
          case Stop => return true;
          case Raise => return false;
          case Continue(next) =>
            ReachSetShrinks(EdgesOf(steps), steps.Keys, at, next);
            at := next;
        }
      }
    }

    method PollAction(e: Execution, apply: bool) returns (answer: Answer)
      requires Valid() && Sound(steps, start) && e.node in steps && steps[e.node].ActionStep?
      requires record.status.Waiting? && WaitingOf(executions) == Some(e)
      modifies this, tx
      ensures Valid() && answer == Answered(apply, Ready(env, steps, old(View())),
                                            PollResult(env, steps, start, old(View())))
      ensures !apply || answer.No? ==> View() == old(View())
      ensures apply && answer.Yes? ==> changed && PollResult(env, steps, start, old(View())) == Done(View())
    {
      var i := ChildOf(tx.invocations, e.uid);
      if i.None? {
        return Broken;
      }
      if i.value.data.call.None? {
        return No;
      }
      if i.value.data.call.value >= |tx.connectors.calls| {
        return Broken;
      }
      var call := tx.connectors.calls[i.value.data.call.value].call;
      if call.status.Queued? || call.status.Claimed? {
        return No;
      }
      if call.status.Unknown? && i.value.data.status.Unknown? {
        return No;
      }
      if !apply {
        return Yes;
      }
      if call.status.Unknown? {
        SaveInvocation(i.value.(data := i.value.data.(status := InvocationStatus.Unknown, error := true)));
        changed := true;
        return Yes;
      }
      if call.status.Failed? {
        SaveInvocation(i.value.(data := i.value.data.(status := InvocationStatus.Failed, error := true)));
        Fail(e.node, Some(e));
        return Yes;
      }
      SaveInvocation(i.value.(data := i.value.data.(status := InvocationStatus.Completed, output := call.output,
                                                    externalRef := call.externalRef, error := false)));
      Finish(e, StepStatus.Completed, call.output);
      assert steps[e.node].next in Successors(steps[e.node]);
      var ok := Enter(steps[e.node].next);
      return if ok then Yes else Broken;
    }

    /** The answer is the same with and without `apply`, unless the writing poll is cut short; only
        `apply` changes the view. */
    method Poll(apply: bool) returns (answer: Answer)
      requires Valid() && Sound(steps, start)
      modifies this, tx
      ensures Valid() && answer == Answered(apply, Ready(env, steps, old(View())),
                                            PollResult(env, steps, start, old(View())))
      ensures !apply || answer.No? ==> View() == old(View())
      ensures apply && answer.Yes? ==> changed && PollResult(env, steps, start, old(View())) == Done(View())
    {
      if !record.status.Waiting? {
        return No;
      }
      var waiting := WaitingOf(executions);
      if waiting.None? {
        return No;
      }
      var e := waiting.value;
      if e.node !in steps {
        return Broken;
      }
      var step := steps[e.node];
      if step.ActionStep? {
        answer := PollAction(e, apply);
        return;
      }
      answer := PollWait(e, apply);
    }

    method PollWait(e: Execution, apply: bool) returns (answer: Answer)
      requires Valid() && Sound(steps, start) && e.node in steps && !steps[e.node].ActionStep?
      requires record.status.Waiting? && WaitingOf(executions) == Some(e)
      modifies this, tx
      ensures Valid() && answer == Answered(apply, Ready(env, steps, old(View())),
                                            PollResult(env, steps, start, old(View())))
      ensures !apply || answer.No? ==> View() == old(View())
      ensures apply && answer.Yes? ==> changed && PollResult(env, steps, start, old(View())) == Done(View())
    {
      var step := steps[e.node];
      var found := ChildOf(tx.waits, e.uid);
      if found.None? {
        return Broken;
      }
      var w := found.value;
      if step.HumanStep? && w.data.condition.HumanWait? {
        if w.data.condition.deadline.None? || w.data.condition.deadline.value > env.now {
          return No;
        }
        if !apply {
          return Yes;
        }
        SaveWait(Resolved(w, map["decision" := Str("timeout")], env.now));
        Finish(e, StepStatus.Completed, Some(DecisionOutput("timeout", e.inputs)));
        if step.timeout.None? {
          return Broken;
        }
        assert step.timeout.value.exit in Successors(step);
        var ok := Enter(step.timeout.value.exit);
        return if ok then Yes else Broken;
      }
      if step.WaitStep? && w.data.condition.TimeWait? {
        if w.data.condition.until > env.now {
          return No;
        }
        if !apply {
          return Yes;
        }
        SaveWait(Resolved(w, map["fired_at" := Str(env.lib.isoFormat(env.now))], env.now));
        Finish(e, StepStatus.Completed, Some(FiredOutput(env.lib, w.data.condition.until, env.now)));
        assert step.next in Successors(step);
        var ok := Enter(step.next);
        return if ok then Yes else Broken;
      }
      return No;
    }

    /** Record a human decision on the expected version and go on from its exit. */
    method Decide(d: Decision) returns (verdict: DecideVerdict)
      requires Valid() && Sound(steps, start)
      modifies this, tx
      ensures Valid()
      ensures verdict.Conflict? <==> !Decidable(steps, old(View()).run, d.expectedVersion)
      ensures verdict.Conflict? ==> View() == old(View())
      ensures !verdict.Conflict? ==>
                EngineSpec.Decide(env, steps, start, old(View()), d) == if verdict.Accepted? then Done(View())
                  else Raised
    {
      if record.version != d.expectedVersion {
        return Conflict;
      }
      var waiting := WaitingOf(executions);
      if waiting.None? || waiting.value.node !in steps || !steps[waiting.value.node].HumanStep? {
        return Conflict;
      }
      var e, step := waiting.value, steps[waiting.value.node];
      var found := ChildOf(tx.waits, e.uid);
      if found.None? {
        return Exception;
      }
      var fields := DecidedFields(env, d);
      SaveWait(Resolved(found.value, fields, env.now));
      Finish(e, StepStatus.Completed, Some(fields["subject" := Object(e.inputs)]));
      var exit := if d.verdict.Approve? then step.onApprove else step.onReject;
      assert exit in Successors(step);
      var ok := Enter(exit);
      return if ok then Accepted else Exception;
    }

    /** Save the run; every commit after the first raises the version. */
    method Commit(created: bool)
      requires Valid()
      modifies this`record, tx`record
      ensures Valid() && View() == old(View()).(run := if created then old(View()).run else Committed(old(View()).run))
      ensures tx.Rows() == View()
    {
      if !created {
        record := record.(version := record.version + 1);
      }
      tx.record := record;
    }
  }

  datatype DecideVerdict = Accepted | Conflict | Exception

  /** The result of a poll that writes, when there is something to write. */
  function PollResult(env: Env, steps: Steps, start: Id, tx: Tx): TxResult
    requires Sound(steps, start)
  {
    if Ready(env, steps, tx).Yes? then EngineSpec.Poll(env, steps, start, tx) else Done(tx)
  }

  function Answered(apply: bool, ready: Answer, result: TxResult): Answer {
    if apply && ready.Yes? && result.Raised? then Broken else ready
  }

  lemma SaveIntentTwice(invocations: seq<Invocation>, intent: Invocation)
    ensures forall i: Invocation :: i.uid == intent.uid ==> Save(Save(invocations, intent), i) == Save(invocations, i)
  {
    forall i: Invocation | i.uid == intent.uid ensures Save(Save(invocations, intent), i) == Save(invocations, i) {
      RunChildren.SaveTwice(invocations, intent, i);
    }
  }
}

/** The later transactions on a run: a poll that applies a result or an elapsed time, and a
    human decision. Each finishes the one waiting execution and goes on from its exit. */
module RunTransactions {
  import opened Values
  import opened Graphs
  import opened Definitions
  import opened EngineSpec
  import opened RunTrail
  import opened RunChildren
  import opened RunSafety
  import C = Connectors

  lemma OwnKeyAgrees<T>(children: seq<Child<T>>, c: Child<T>, execution: nat)
    requires Unique(children) && ChildOf(children, execution).Some?
    requires c.uid == ChildOf(children, execution).value.uid && c.execution == execution
    ensures KeyAgrees(children, c)
    ensures ChildOf(children, execution).value in children && ChildOf(children, execution).value.execution == execution
  {
    ChildOfMember(children, execution);
    var own := ChildOf(children, execution).value;
    forall k | k in children ensures k.uid == c.uid <==> k.execution == c.execution {
      var i :| 0 <= i < |children| && children[i] == k;
      var j :| 0 <= j < |children| && children[j] == own;
      assert i < j ==> KeysDiffer(children, i, j);
      assert j < i ==> KeysDiffer(children, j, i);
    }
  }

  ghost function Last(run: Run): Execution
    requires |run.executions| > 0
  {
    run.executions[|run.executions| - 1]
  }

  /** A settled waiting run waits in its last execution, and in no other. */
  lemma WaitsInLast(run: Run, s: C.State)
    requires Settled(run, s) && run.record.status.Waiting?
    ensures WaitingOf(run.executions) == Some(Last(run))
    ensures forall i :: 0 <= i < |run.executions| - 1 ==> run.executions[i].status.Completed?
    ensures Supported(StepsOf(run), run.record.project, Last(run), ChildOf(run.invocations, Last(run).uid),
                      ChildOf(run.waits, Last(run).uid), s.calls)
    ensures Sound(StepsOf(run), run.record.body.start)
  {
    var n := |run.executions| - 1;
    var front := run.executions[..n];
    forall i | 0 <= i < n ensures run.executions[i].status.Completed? {
      assert PassedAt(StepsOf(run), front, run.executions[n].node, i);
      assert front[i] == run.executions[i];
    }
    WaitingIsLast(run.executions);
    assert SupportedAt(run, s.calls, n);
    AcceptedIsSound(run.record.body, ProjectConnections(s.connections, run.record.project));
  }

  /** A settled terminal run waits nowhere. */
  lemma TerminalWaitsNowhere(run: Run, s: C.State)
    requires Settled(run, s) && !run.record.status.Waiting?
    ensures WaitingOf(run.executions).None?
  {
    var n := |run.executions| - 1;
    var front := run.executions[..n];
    forall i | 0 <= i < n ensures run.executions[i].status.Completed? {
      assert PassedAt(StepsOf(run), front, run.executions[n].node, i);
      assert front[i] == run.executions[i];
    }
    WaitingIsLast(run.executions);
  }

  /** `after` is `tx` with the last execution finished and its record saved. */
  ghost predicate Finishes(tx: Tx, after: Tx, e: Execution, i: Option<Invocation>, w: Option<WaitRecord>)
    requires |tx.run.executions| > 0
  {
    var run, next := tx.run, after.run;
    && after.connectors == tx.connectors
    && next.record.(status := run.record.status, result := run.record.result) == run.record
    && next.nextId == run.nextId
    && e.uid == Last(run).uid && e.node == Last(run).node
    && next.executions == run.executions[..|run.executions| - 1] + [e]
    && next.invocations == Saved(run.invocations, i) && next.waits == Saved(run.waits, w)
    && (i.Some? ==>
          && ChildOf(run.invocations, e.uid).Some? && i.value.execution == e.uid
          && i.value.uid == ChildOf(run.invocations, e.uid).value.uid
          && i.value.data.call == ChildOf(run.invocations, e.uid).value.data.call)
    && (w.Some? ==>
          && ChildOf(run.waits, e.uid).Some? && w.value.execution == e.uid
          && w.value.uid == ChildOf(run.waits, e.uid).value.uid)
    && Supported(StepsOf(run), run.record.project, e,
                 if i.Some? then i else ChildOf(run.invocations, e.uid),
                 if w.Some? then w else ChildOf(run.waits, e.uid), tx.connectors.calls)
  }

  lemma Finished(tx: Tx, after: Tx, e: Execution, i: Option<Invocation>, w: Option<WaitRecord>)
    requires C.Valid(tx.connectors) && Settled(tx.run, tx.connectors) && tx.run.record.status.Waiting?
    requires Finishes(tx, after, e, i, w)
    ensures Legal(after.run, after.connectors) && Children(after.run, after.connectors.calls) && Follows(tx, after)
  {
    var run, next := tx.run, after.run;
    var front := run.executions[..|run.executions| - 1];
    if i.Some? {
      OwnKeyAgrees(run.invocations, i.value, e.uid);
    }
    if w.Some? {
      OwnKeyAgrees(run.waits, w.value, e.uid);
    }
    EvolvesRefl(tx.connectors);
    assert Last(run) in run.executions;
    SavedFacts(run.invocations, i, e.uid, next.nextId);
    SavedFacts(run.waits, w, e.uid, next.nextId);
    Patched(run, next, tx.connectors, after.connectors, front, e, i, w);
    FinishedHistory(run.executions, e);
  }

  lemma FinishedHistory(executions: seq<Execution>, e: Execution)
    requires |executions| > 0 && executions[|executions| - 1].status.Waiting?
             && executions[|executions| - 1].node == e.node
    ensures HistoryKept(executions, executions[..|executions| - 1] + [e])
  {
    var after := executions[..|executions| - 1] + [e];
    forall k | 0 <= k < |executions| ensures KeptAt(executions, after, k) {
    }
  }

  function Completion(e: Execution, output: Obj): Execution {
    e.(status := StepStatus.Completed, output := Some(output))
  }

  function ResolvedRun(run: Run, e: Execution, w: WaitRecord, resolution: Obj, output: Obj, now: int): Run {
    FinishStep(run.(waits := Save(run.waits, Resolved(w, resolution, now))), e, StepStatus.Completed, Some(output))
  }

  lemma ResolvedFinishes(tx: Tx, e: Execution, w: WaitRecord, resolution: Obj, output: Obj, now: int)
    requires Children(tx.run, tx.connectors.calls) && |tx.run.executions| > 0 && e == Last(tx.run)
    requires e.node in StepsOf(tx.run) && (StepsOf(tx.run)[e.node].HumanStep? || StepsOf(tx.run)[e.node].WaitStep?)
    requires ChildOf(tx.run.waits, e.uid) == Some(w) && ChildOf(tx.run.invocations, e.uid).None?
    requires StepsOf(tx.run)[e.node].HumanStep? ==>
               "decision" in resolution && "decision" in output && output["decision"] == resolution["decision"]
    ensures Finishes(tx, tx.(run := ResolvedRun(tx.run, e, w, resolution, output, now)), Completion(e, output), None,
                     Some(Resolved(w, resolution, now)))
  {
    WithoutLast(tx.run.executions);
    ChildOfMember(tx.run.waits, e.uid);
  }

  /** The waiting execution with its invocation updated from the call. */
  function InvokedRun(run: Run, e: Execution, i: Invocation, status: StepStatus, output: Option<Obj>): Run {
    FinishStep(run.(invocations := Save(run.invocations, i)), e, status, output)
  }

  lemma InvokedFinishes(tx: Tx, e: Execution, i: Invocation, status: StepStatus, output: Option<Obj>)
    requires Children(tx.run, tx.connectors.calls) && |tx.run.executions| > 0 && e == Last(tx.run)
    requires ChildOf(tx.run.invocations, e.uid).Some? && ChildOf(tx.run.waits, e.uid).None?
    requires i.uid == ChildOf(tx.run.invocations, e.uid).value.uid && i.execution == e.uid
    requires i.data.call == ChildOf(tx.run.invocations, e.uid).value.data.call
    requires Supported(StepsOf(tx.run), tx.run.record.project, e.(status := status, output := output), Some(i), None,
                       tx.connectors.calls)
    ensures var run := InvokedRun(tx.run, e, i, status, output);
            && Finishes(tx, tx.(run := run), e.(status := status, output := output), Some(i), None)
            && (status.Failed? ==>
                  Finishes(tx, tx.(run := FinishRun(run, RunStatus.Failed, Failure(e.node))),
                           e.(status := status, output := output), Some(i), None))
  {
    WithoutLast(tx.run.executions);
  }

  /** The transaction goes on from its first move to a time that is no date. */
  ghost predicate LeavesAfter(env: Env, steps: Steps, move: Move) {
    move.Goto? && LeavesCalendar(env, steps, RunningTx(move.tx), move.node)
  }

  /** The rest of the transaction ends in a settled run, unless it comes to a time that is no date. */
  ghost predicate Resumes(env: Env, tx: Tx, move: Move)
    requires Sound(StepsOf(tx.run), tx.run.record.body.start) && (move.Goto? ==> move.node in StepsOf(tx.run))
  {
    var result := Resume(env, StepsOf(tx.run), tx.run.record.body.start, move);
    && Concludes(tx, result) && (result.Raised? <==> LeavesAfter(env, StepsOf(tx.run), move))
    && (result.Done? ==> Builds(move, result.tx.run)) && GoesOn(move)
  }

  /** A move that goes on has the next step to enter, with everything in order. */
  ghost predicate GoesOn(move: Move) {
    move.Goto? ==> C.Valid(move.tx.connectors) && Entering(move.tx.run, move.tx.connectors, move.node)
  }

  /** What the first move finished is still there at the end. */
  ghost predicate Builds(move: Move, after: Run) {
    move.Abort? || HistoryKept(move.tx.run.executions, after.executions)
  }

  /** A finished step that recorded an exit leaves the run about to enter the step at that exit. */
  lemma FinishedEnters(tx: Tx, after: Tx, e: Execution, i: Option<Invocation>, w: Option<WaitRecord>, next: Id)
    requires C.Valid(tx.connectors) && Settled(tx.run, tx.connectors) && tx.run.record.status.Waiting?
    requires Finishes(tx, after, e, i, w) && Passed(StepsOf(tx.run), e, next)
    ensures Sound(StepsOf(tx.run), tx.run.record.body.start) && next in StepsOf(tx.run)
    ensures C.Valid(after.connectors) && Entering(after.run, after.connectors, next) && Follows(tx, after)
  {
    var run := tx.run;
    Finished(tx, after, e, i, w);
    WaitsInLast(run, tx.connectors);
    TrailNext(StepsOf(run), run.record.body.start, run.executions[..|run.executions| - 1], e.node, e, next);
  }

  /** A finished step that recorded an exit is followed by the step at that exit. */
  lemma FinishedConcludes(env: Env, tx: Tx, after: Tx, e: Execution, i: Option<Invocation>, w: Option<WaitRecord>,
                          next: Id)
    requires C.Valid(tx.connectors) && Settled(tx.run, tx.connectors) && tx.run.record.status.Waiting?
    requires Finishes(tx, after, e, i, w) && Passed(StepsOf(tx.run), e, next)
    ensures Sound(StepsOf(tx.run), tx.run.record.body.start) && next in StepsOf(tx.run)
    ensures Resumes(env, tx, Goto(after, next))
  {
    var run := tx.run;
    FinishedEnters(tx, after, e, i, w, next);
    EnterConcludes(env, after, next);
    var result := Enter(env, StepsOf(run), run.record.body.start, after, next);
    if result.Done? {
      FollowsTrans(tx, after, result.tx);
    }
  }

  /** A finished step that failed ends the run. */
  lemma FailedConcludes(tx: Tx, after: Tx, e: Execution, i: Option<Invocation>)
    requires C.Valid(tx.connectors) && Settled(tx.run, tx.connectors) && tx.run.record.status.Waiting?
    requires Finishes(tx, after, e, i, None) && e.status.Failed? && after.run.record.status.Failed?
    ensures Concludes(tx, Done(after))
  {
    Finished(tx, after, e, i, None);
    var n := |tx.run.executions| - 1;
    assert after.run.executions[..n] == tx.run.executions[..n];
  }

  // ---- Polling

  /** In a settled run a poll never meets a missing record. */
  lemma PollIsNeverBroken(env: Env, tx: Tx)
    requires C.Valid(tx.connectors) && Settled(tx.run, tx.connectors)
    ensures !Ready(env, StepsOf(tx.run), tx).Broken?
  {
    if tx.run.record.status.Waiting? {
      WaitsInLast(tx.run, tx.connectors);
    }
  }

  function UnknownInvocation(i: Invocation): Invocation {
    i.(data := i.data.(status := InvocationStatus.Unknown, error := true))
  }

  lemma UnknownFinishes(tx: Tx, e: Execution, i: Invocation)
    requires C.Valid(tx.connectors) && Settled(tx.run, tx.connectors) && tx.run.record.status.Waiting?
    requires e == Last(tx.run) && StepsOf(tx.run)[e.node].ActionStep?
    requires ChildOf(tx.run.invocations, e.uid) == Some(i)
    ensures Finishes(tx, tx.(run := tx.run.(invocations := Save(tx.run.invocations, UnknownInvocation(i)))), e,
                     Some(UnknownInvocation(i)), None)
  {
    WaitsInLast(tx.run, tx.connectors);
    ChildOfMember(tx.run.invocations, e.uid);
    assert tx.run.executions[..|tx.run.executions| - 1] + [e] == tx.run.executions;
  }

  lemma UnknownConcludes(tx: Tx, e: Execution, i: Invocation)
    requires C.Valid(tx.connectors) && Settled(tx.run, tx.connectors) && tx.run.record.status.Waiting?
    requires e == Last(tx.run) && StepsOf(tx.run)[e.node].ActionStep?
    requires ChildOf(tx.run.invocations, e.uid) == Some(i)
    ensures Concludes(tx, Done(tx.(run := tx.run.(invocations := Save(tx.run.invocations, UnknownInvocation(i))))))
  {
    var after := tx.(run := tx.run.(invocations := Save(tx.run.invocations, UnknownInvocation(i))));
    UnknownFinishes(tx, e, i);
    Finished(tx, after, e, Some(UnknownInvocation(i)), None);
  }

  /** A transaction that ends with its first move. */
  lemma HaltResumes(env: Env, tx: Tx, after: Tx)
    requires Sound(StepsOf(tx.run), tx.run.record.body.start) && Concludes(tx, Done(after))
    ensures Resumes(env, tx, Halt(after))
  {
    assert HistoryKept(after.run.executions, after.run.executions);
  }

  function FailedInvocation(i: Invocation): Invocation {
    i.(data := i.data.(status := InvocationStatus.Failed, error := true))
  }

  function DoneInvocation(i: Invocation, call: C.Call): Invocation {
    i.(data := i.data.(status := InvocationStatus.Completed, output := call.output, externalRef := call.externalRef,
                       error := false))
  }

  /** The run waits in an action step whose one invocation is bound to the call. */
  ghost predicate Polls(tx: Tx, i: Invocation, call: C.Call) {
    && C.Valid(tx.connectors) && Settled(tx.run, tx.connectors) && tx.run.record.status.Waiting?
    && Last(tx.run).node in StepsOf(tx.run) && StepsOf(tx.run)[Last(tx.run).node].ActionStep?
    && ChildOf(tx.run.invocations, Last(tx.run).uid) == Some(i) && i.data.call.Some?
    && i.data.call.value < |tx.connectors.calls| && call == tx.connectors.calls[i.data.call.value].call
  }

  lemma FailedCallConcludes(tx: Tx, i: Invocation, call: C.Call)
    requires Polls(tx, i, call) && call.status.Failed?
    ensures Concludes(tx,
                      Done(tx.(run := FailStep(tx.run.(invocations := Save(tx.run.invocations, FailedInvocation(i))),
                                                   Last(tx.run)))))
  {
    var run, e := tx.run, Last(tx.run);
    WaitsInLast(run, tx.connectors);
    ChildOfMember(run.invocations, e.uid);
    InvokedFinishes(tx, e, FailedInvocation(i), StepStatus.Failed, Some(ERROR_OUTPUT));
    FailedConcludes(tx, tx.(run :=
                            FinishRun(InvokedRun(run, e, FailedInvocation(i), StepStatus.Failed, Some(ERROR_OUTPUT)),
                                             RunStatus.Failed, Failure(e.node))),
                    e.(status := StepStatus.Failed, output := Some(ERROR_OUTPUT)), Some(FailedInvocation(i)));
  }

  lemma CompletedCallConcludes(env: Env, tx: Tx, i: Invocation, call: C.Call)
    requires Polls(tx, i, call) && call.status.Completed?
    ensures Sound(StepsOf(tx.run), tx.run.record.body.start)
    ensures StepsOf(tx.run)[Last(tx.run).node].next in StepsOf(tx.run)
    ensures Resumes(env, tx,
                    Goto(tx.(run := InvokedRun(tx.run, Last(tx.run), DoneInvocation(i, call), StepStatus.Completed,
                                                        call.output)),
                                  StepsOf(tx.run)[Last(tx.run).node].next))
  {
    var run, e := tx.run, Last(tx.run);
    var step := StepsOf(run)[e.node];
    WaitsInLast(run, tx.connectors);
    ChildOfMember(run.invocations, e.uid);
    assert C.EntryValid(tx.connectors, i.data.call.value);
    InvokedFinishes(tx, e, DoneInvocation(i, call), StepStatus.Completed, call.output);
    assert step.next in Successors(step);
    FinishedConcludes(env, tx,
                      tx.(run := InvokedRun(run, e, DoneInvocation(i, call), StepStatus.Completed, call.output)),
                      e.(status := StepStatus.Completed, output := call.output), Some(DoneInvocation(i, call)), None,
                      step.next);
  }

  lemma ApplyConcludes(env: Env, tx: Tx, i: Invocation, call: C.Call)
    requires Polls(tx, i, call) && !call.status.Queued? && !call.status.Claimed?
    ensures Sound(StepsOf(tx.run), tx.run.record.body.start)
    ensures StepsOf(tx.run)[Last(tx.run).node].next in StepsOf(tx.run)
    ensures Resumes(env, tx, ApplyCall(tx, Last(tx.run), i, call, StepsOf(tx.run)[Last(tx.run).node].next))
  {
    WaitsInLast(tx.run, tx.connectors);
    var step := StepsOf(tx.run)[Last(tx.run).node];
    assert step.next in Successors(step);
    match call.status {
      case Unknown =>
        UnknownConcludes(tx, Last(tx.run), i);
        HaltResumes(env, tx, ApplyCall(tx, Last(tx.run), i, call, step.next).tx);
      case Failed =>
        FailedCallConcludes(tx, i, call);
        HaltResumes(env, tx, ApplyCall(tx, Last(tx.run), i, call, step.next).tx);
      case Completed => CompletedCallConcludes(env, tx, i, call);
    }
  }

  lemma ResolvedConcludes(env: Env, tx: Tx, e: Execution, w: WaitRecord, resolution: Obj, output: Obj, next: Id)
    requires C.Valid(tx.connectors) && Settled(tx.run, tx.connectors) && tx.run.record.status.Waiting?
    requires e == Last(tx.run) && e.node in StepsOf(tx.run)
    requires StepsOf(tx.run)[e.node].HumanStep? || StepsOf(tx.run)[e.node].WaitStep?
    requires ChildOf(tx.run.waits, e.uid) == Some(w)
    requires StepsOf(tx.run)[e.node].HumanStep? ==>
               "decision" in resolution && "decision" in output && output["decision"] == resolution["decision"]
    requires ExitOf(StepsOf(tx.run)[e.node], output) == Some(next) && next in Successors(StepsOf(tx.run)[e.node])
    ensures Sound(StepsOf(tx.run), tx.run.record.body.start) && next in StepsOf(tx.run)
    ensures Resumes(env, tx, Goto(tx.(run := ResolvedRun(tx.run, e, w, resolution, output, env.now)), next))
  {
    WaitsInLast(tx.run, tx.connectors);
    ResolvedFinishes(tx, e, w, resolution, output, env.now);
    FinishedConcludes(env, tx, tx.(run := ResolvedRun(tx.run, e, w, resolution, output, env.now)),
                      Completion(e, output),
                      None, Some(Resolved(w, resolution, env.now)), next);
  }

  /** A poll with something to write leaves a settled run, unless it goes on to a time that is no date. */
  lemma PollConcludes(env: Env, tx: Tx)
    requires C.Valid(tx.connectors) && Settled(tx.run, tx.connectors) && Ready(env, StepsOf(tx.run), tx).Yes?
    ensures Sound(StepsOf(tx.run), tx.run.record.body.start)
    ensures Resumes(env, tx, PollMove(env, StepsOf(tx.run), tx))
  {
    WaitsInLast(tx.run, tx.connectors);
    var e := Last(tx.run);
    var step := StepsOf(tx.run)[e.node];
    match step
    case ActionStep(_, _, _, _, _, _, _, _) =>
      var i := ChildOf(tx.run.invocations, e.uid).value;
      ApplyConcludes(env, tx, i, tx.connectors.calls[i.data.call.value].call);
    case HumanStep(_, _, _, _, _, timeout) =>
      ResolvedConcludes(env, tx, e, ChildOf(tx.run.waits, e.uid).value, map["decision" := Str("timeout")],
                        DecisionOutput("timeout", e.inputs), timeout.value.exit);
    case WaitStep(_, _, _, next) =>
      var w := ChildOf(tx.run.waits, e.uid).value;
      ResolvedConcludes(env, tx, e, w, map["fired_at" := Str(env.lib.isoFormat(env.now))],
                        FiredOutput(env.lib, w.data.condition.until, env.now), next);
  }

  // ---- Deciding

  /** A decision on a waiting human step never raises and leaves a settled run. */
  lemma DecideConcludes(env: Env, tx: Tx, d: Decision)
    requires C.Valid(tx.connectors) && Settled(tx.run, tx.connectors)
             && Decidable(StepsOf(tx.run), tx.run, d.expectedVersion)
    ensures Sound(StepsOf(tx.run), tx.run.record.body.start)
    ensures Resumes(env, tx, DecideMove(env, StepsOf(tx.run), tx, d))
  {
    var run := tx.run;
    if !run.record.status.Waiting? {
      TerminalWaitsNowhere(run, tx.connectors);
    }
    WaitsInLast(run, tx.connectors);
    var e, step := Last(run), StepsOf(run)[Last(run).node];
    var fields := DecidedFields(env, d);
    ResolvedConcludes(env, tx, e, ChildOf(run.waits, e.uid).value, fields, fields["subject" := Object(e.inputs)],
                      if d.verdict.Approve? then step.onApprove else step.onReject);
  }
}

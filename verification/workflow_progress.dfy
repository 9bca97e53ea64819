/** When a poll or a decision does something, what exactly it does, and where the times that a run
    records come from. */
module WorkflowProgress {
  import opened Values
  import opened Graphs
  import opened Definitions
  import opened EngineSpec
  import opened RunTrail
  import opened RunChildren
  import opened RunSafety
  import opened RunTransactions
  import opened RunTruth
  import opened WorkflowWorld
  import opened WorkflowTheorems
  import opened WorkflowRecords
  import C = Connectors

  // ---- When a run has something to do

  ghost predicate CallAnswered(s: C.State, i: Invocation) {
    && i.data.call.Some? && i.data.call.value < |s.calls|
    && var status := s.calls[i.data.call.value].call.status;
    status.Completed? || status.Failed? || (status.Unknown? && !i.data.status.Unknown?)
  }

  ghost predicate QuestionOver(k: WaitRecord, now: int) {
    k.data.condition.HumanWait? && k.data.condition.deadline.Some? && k.data.condition.deadline.value <= now
  }

  ghost predicate TimeReached(k: WaitRecord, now: int) {
    k.data.condition.TimeWait? && k.data.condition.until <= now
  }

  /** The step in which the run waits can be resolved at this time: its call has an answer that the run
      has not noted, the deadline of its question is over, or its time is reached. */
  ghost predicate Due(w: World, r: nat, now: int)
    requires r < |w.runs| && |w.runs[r].executions| > 0
  {
    var run := w.runs[r];
    var e := Last(run);
    && e.status.Waiting? && e.node in StepsOf(run)
    && match StepsOf(run)[e.node]
       case ActionStep(_, _, _, _, _, _, _, _) =>
         exists i :: i in run.invocations && i.execution == e.uid && CallAnswered(w.connectors, i)
       case HumanStep(_, _, _, _, _, _) => exists k :: k in run.waits && k.execution == e.uid && QuestionOver(k, now)
       case WaitStep(_, _, _, _) => exists k :: k in run.waits && k.execution == e.uid && TimeReached(k, now)
       case _ => false
  }

  /** A poll has something to write exactly when the waiting step is due. */
  lemma PolledWhenDue(lib: Library, w: World, r: nat, now: int)
    requires Inv(w) && AllFaithful(lib, w) && r < |w.runs|
    ensures |w.runs[r].executions| > 0
    ensures Admitted(lib, w, Tick(r, now)) <==> Due(w, r, now)
  {
    var run := w.runs[r];
    assert SettledAt(w, r);
    if run.record.status.Waiting? {
      WaitsTruly(lib, w, r, now);
      DueIsReady(Env(lib, now), w, r);
    }
  }

  lemma {:induction false} TheChild<T>(children: seq<Child<T>>, execution: nat)
    requires Unique(children)
    ensures forall k :: k in children && k.execution == execution ==> ChildOf(children, execution) == Some(k)
    ensures ChildOf(children, execution).Some? ==>
              ChildOf(children, execution).value in children
                && ChildOf(children, execution).value.execution == execution
  {
    ChildOfMember(children, execution);
    forall k | k in children && k.execution == execution ensures ChildOf(children, execution) == Some(k) {
      UniqueMember(children, k, ChildOf(children, execution).value);
    }
  }

  lemma DueIsReady(env: Env, w: World, r: nat)
    requires r < |w.runs| && Waits(env, Tx(w.runs[r], w.connectors))
    ensures Ready(env, StepsOf(w.runs[r]), Tx(w.runs[r], w.connectors)).Yes? <==> Due(w, r, env.now)
  {
    var run := w.runs[r];
    WaitsInLast(run, w.connectors);
    if StepsOf(run)[Last(run).node].ActionStep? {
      TheChild(run.invocations, Last(run).uid);
    } else {
      TheChild(run.waits, Last(run).uid);
      LastIsTrue(env, Tx(run, w.connectors));
    }
  }

  // ---- What a poll does

  /** What became of the execution in which the run waited, when it was polled. */
  ghost predicate Applied(lib: Library, w: World, r: nat, now: int, after: Run, e: Execution)
    requires r < |w.runs| && |w.runs[r].executions| > 0 && Last(w.runs[r]).node in StepsOf(w.runs[r])
  {
    var run := w.runs[r];
    var before := Last(run);
    match StepsOf(run)[before.node]
    case ActionStep(_, _, _, _, _, _, _, _) =>
      exists i :: i in run.invocations && i.execution == before.uid && CallApplied(w.connectors, i, before, after, e)
    case HumanStep(_, _, _, _, _, _) =>
      e == before.(status := StepStatus.Completed,
                   output := Some(map["decision" := Str("timeout"), "subject" := Object(before.inputs)]))
    case _ =>
      exists k :: k in run.waits && k.execution == before.uid && TimeReached(k, now)
                  && e == before.(status := StepStatus.Completed,
                                  output := Some(map["until" := Str(lib.isoFormat(k.data.condition.until)),
                                                     "fired_at" := Str(lib.isoFormat(now))]))
  }

  /** A completed call completes the step with its output, a failed one fails the run, and an unknown
      one is noted while the run goes on waiting. */
  ghost predicate CallApplied(s: C.State, i: Invocation, before: Execution, after: Run, e: Execution) {
    && CallAnswered(s, i)
    && var call := s.calls[i.data.call.value].call;
    if call.status.Completed? then e == before.(status := StepStatus.Completed, output := call.output)
    else if call.status.Failed? then
      && e.status.Failed? && e.node == before.node && e.inputs == before.inputs
      && after.record.status.Failed? && after.record.result == Failure(before.node)
    else
      && e == before && after.record.status.Waiting?
      && exists k :: k in after.invocations && k.execution == before.uid && k.data.status.Unknown?
  }

  /** The poll of a due run in `w` led to `next`: the one execution that waited is resolved, earlier ones
      and other runs are as they were. */
  ghost predicate Polled(lib: Library, w: World, r: nat, now: int, next: World)
    requires r < |w.runs| && |w.runs[r].executions| > 0 && Last(w.runs[r]).node in StepsOf(w.runs[r])
  {
    var n := |w.runs[r].executions| - 1;
    && OthersSame(w, r, next) && |next.runs[r].executions| > n
    && next.runs[r].executions[..n] == w.runs[r].executions[..n]
    && next.runs[r].record.version == w.runs[r].record.version + 1
    && Applied(lib, w, r, now, next.runs[r], next.runs[r].executions[n])
  }

  ghost predicate OthersSame(w: World, r: nat, next: World)
    requires r < |w.runs|
  {
    && next.definitions == w.definitions && |next.runs| == |w.runs|
    && forall q :: 0 <= q < |w.runs| && q != r ==> next.runs[q] == w.runs[q]
  }

  /** The move finishes the last execution, as `e`. */
  ghost predicate Replaces(run: Run, move: Move, e: Execution) {
    && |run.executions| > 0 && !move.Abort?
    && move.tx.run.executions == run.executions[..|run.executions| - 1] + [e]
    && (e.status.Waiting? ==> move.Halt?)
  }

  /** The executions as before, up to the last, which has become `e`. */
  ghost predicate EndsWith(run: Run, final: Run, e: Execution) {
    && 0 < |run.executions| <= |final.executions| && final.executions[|run.executions| - 1] == e
    && final.executions[..|run.executions| - 1] == run.executions[..|run.executions| - 1]
  }

  /** What the first move did to the execution in which the run waited stays. */
  lemma FrontStays(run: Run, s: C.State, move: Move, final: Run, e: Execution)
    requires Settled(run, s) && run.record.status.Waiting?
    requires Replaces(run, move, e) && Builds(move, final) && (move.Halt? ==> final == move.tx.run)
    ensures EndsWith(run, final, e)
  {
    WaitsInLast(run, s);
    var first := move.tx.run.executions;
    forall i | 0 <= i < |run.executions| ensures final.executions[i] == first[i] {
      assert KeptAt(first, final.executions, i);
    }
  }

  lemma ResolvedFront(run: Run, e: Execution, output: Obj, w: WaitRecord, resolution: Obj, now: int)
    requires Increasing(run.executions) && |run.executions| > 0 && e == Last(run)
    ensures ResolvedRun(run, e, w, resolution, output, now).executions
            == run.executions[..|run.executions| - 1] + [Completion(e, output)]
  {
    WithoutLast(run.executions);
  }

  /** The first move of the poll of a waiting action step. */
  lemma CallMove(tx: Tx, i: Invocation, call: C.Call, next: Id, final: Run) returns (e: Execution)
    requires Polls(tx, i, call) && CallAnswered(tx.connectors, i)
    requires ApplyCall(tx, Last(tx.run), i, call, next).Halt? ==>
               final == Committed(ApplyCall(tx, Last(tx.run), i, call, next).tx.run)
    ensures Replaces(tx.run, ApplyCall(tx, Last(tx.run), i, call, next), e)
    ensures CallApplied(tx.connectors, i, Last(tx.run), final, e)
  {
    e := Last(tx.run);
    WaitsInLast(tx.run, tx.connectors);
    ChildOfMember(tx.run.invocations, e.uid);
    match call.status {
      case Completed => e := FinishedMove(tx, i, call, next);
      case Failed => e := FailedMove(tx, i, call, next, final);
      case Unknown => UnknownMove(tx, i, call, next, final);
    }
  }

  lemma FinishedMove(tx: Tx, i: Invocation, call: C.Call, next: Id) returns (e: Execution)
    requires |tx.run.executions| > 0 && Increasing(tx.run.executions) && call.status.Completed?
    ensures Replaces(tx.run, ApplyCall(tx, Last(tx.run), i, call, next), e)
    ensures e == Last(tx.run).(status := StepStatus.Completed, output := call.output)
    ensures ApplyCall(tx, Last(tx.run), i, call, next).Goto?
  {
    e := Last(tx.run).(status := StepStatus.Completed, output := call.output);
    WithoutLast(tx.run.executions);
  }

  lemma FailedMove(tx: Tx, i: Invocation, call: C.Call, next: Id, final: Run) returns (e: Execution)
    requires |tx.run.executions| > 0 && Increasing(tx.run.executions) && call.status.Failed?
    requires final == Committed(ApplyCall(tx, Last(tx.run), i, call, next).tx.run)
    ensures Replaces(tx.run, ApplyCall(tx, Last(tx.run), i, call, next), e)
    ensures e.status.Failed? && e.node == Last(tx.run).node && e.inputs == Last(tx.run).inputs
    ensures final.record.status.Failed? && final.record.result == Failure(Last(tx.run).node)
  {
    e := Last(tx.run).(status := StepStatus.Failed, output := Some(ERROR_OUTPUT));
    WithoutLast(tx.run.executions);
  }

  lemma UnknownMove(tx: Tx, i: Invocation, call: C.Call, next: Id, final: Run)
    requires |tx.run.executions| > 0 && call.status.Unknown? && ChildOf(tx.run.invocations, i.execution) == Some(i)
    requires final == Committed(ApplyCall(tx, Last(tx.run), i, call, next).tx.run)
    ensures Replaces(tx.run, ApplyCall(tx, Last(tx.run), i, call, next), Last(tx.run))
    ensures final.record.status == tx.run.record.status
    ensures exists k :: k in final.invocations && k.execution == i.execution && k.data.status.Unknown?
  {
    UnknownIsNoted(tx, i, final);
    assert tx.run.executions == tx.run.executions[..|tx.run.executions| - 1] + [Last(tx.run)];
  }

  lemma UnknownIsNoted(tx: Tx, i: Invocation, final: Run)
    requires ChildOf(tx.run.invocations, i.execution) == Some(i)
    requires final.invocations == Save(tx.run.invocations, UnknownInvocation(i))
    ensures exists k :: k in final.invocations && k.execution == i.execution && k.data.status.Unknown?
  {
    SavedIn(tx.run.invocations, UnknownInvocation(i));
  }

  lemma {:induction false} SavedIn<T>(children: seq<Child<T>>, c: Child<T>)
    ensures c in Save(children, c)
    decreases |children|
  {
    if children != [] && children[0].uid != c.uid {
      SavedIn(children[1..], c);
      assert c in Save(children, c)[1..];
    }
  }

  /** The first move of the poll of a due run resolves the execution in which it waits. */
  lemma PollResolves(env: Env, w: World, r: nat, final: Run) returns (e: Execution)
    requires r < |w.runs| && Waits(env, Tx(w.runs[r], w.connectors))
    requires Ready(env, StepsOf(w.runs[r]), Tx(w.runs[r], w.connectors)).Yes?
    requires var move := PollMove(env, StepsOf(w.runs[r]), Tx(w.runs[r], w.connectors));
             !move.Abort? && (move.Halt? ==> final == Committed(move.tx.run))
    ensures Last(w.runs[r]).node in StepsOf(w.runs[r])
    ensures Replaces(w.runs[r], PollMove(env, StepsOf(w.runs[r]), Tx(w.runs[r], w.connectors)), e)
    ensures Applied(env.lib, w, r, env.now, final, e)
  {
    var run := w.runs[r];
    e := Last(run);
    WaitsInLast(run, w.connectors);
    match StepsOf(run)[e.node] {
      case ActionStep(_, _, _, _, _, _, _, next) =>
        var i := ChildOf(run.invocations, e.uid).value;
        ChildOfMember(run.invocations, e.uid);
        e := CallMove(Tx(run, w.connectors), i, w.connectors.calls[i.data.call.value].call, next, final);
      case HumanStep(_, _, _, _, _, _) =>
        var k := ChildOf(run.waits, e.uid).value;
        var output := DecisionOutput("timeout", e.inputs);
        ResolvedFront(run, e, output, k, map["decision" := Str("timeout")], env.now);
        e := Completion(e, output);
      case WaitStep(_, _, _, _) =>
        var k := ChildOf(run.waits, e.uid).value;
        ChildOfMember(run.waits, e.uid);
        var output := FiredOutput(env.lib, k.data.condition.until, env.now);
        ResolvedFront(run, e, output, k, map["fired_at" := Str(env.lib.isoFormat(env.now))], env.now);
        e := Completion(e, output);
    }
  }

  /** A poll of a due run resolves the step it waits in, unless the transaction comes to a time that is no
      date; a poll of a run that is not due changes nothing. */
  lemma PollDoes(lib: Library, w: World, r: nat, now: int)
    requires Inv(w) && AllFaithful(lib, w) && r < |w.runs|
    ensures |w.runs[r].executions| > 0 && Last(w.runs[r]).node in StepsOf(w.runs[r])
    ensures var next := Next(lib, w, Tick(r, now));
            if Due(w, r, now) then
              && Admitted(lib, w, Tick(r, now))
              && if LeavesRange(lib, w, Tick(r, now)) then next == w else Polled(lib, w, r, now, next)
            else next == w
  {
    PolledWhenDue(lib, w, r, now);
    RunShape(w, r);
    if Due(w, r, now) {
      CutShortExactly(lib, w, Tick(r, now));
      if !LeavesRange(lib, w, Tick(r, now)) {
        DuePollDoes(lib, w, r, now);
      }
    } else {
      PollSkips(lib, w, r, now);
    }
  }

  /** What the first move of a poll finished is there when the transaction ends. */
  lemma PollBuilds(lib: Library, w: World, r: nat, now: int)
    requires Inv(w) && r < |w.runs| && Admitted(lib, w, Tick(r, now)) && Effect(lib, w, Tick(r, now)).Some?
    ensures Ready(Env(lib, now), StepsOf(w.runs[r]), Tx(w.runs[r], w.connectors)).Yes?
    ensures var move := PollMove(Env(lib, now), StepsOf(w.runs[r]), Tx(w.runs[r], w.connectors));
            && !move.Abort? && Builds(move, Effect(lib, w, Tick(r, now)).value.run)
            && (move.Halt? ==> Effect(lib, w, Tick(r, now)).value == move.tx)
  {
    BeginConcludes(lib, w, Tick(r, now));
  }

  lemma PollEnds(lib: Library, w: World, r: nat, now: int, after: Tx) returns (e: Execution)
    requires Inv(w) && AllFaithful(lib, w) && r < |w.runs| && Admitted(lib, w, Tick(r, now))
    requires Effect(lib, w, Tick(r, now)) == Some(after)
    ensures EndsWith(w.runs[r], after.run, e) && Last(w.runs[r]).node in StepsOf(w.runs[r])
    ensures Applied(lib, w, r, now, Committed(after.run), e)
  {
    PollBuilds(lib, w, r, now);
    AdmittedWaits(lib, w, Tick(r, now));
    WaitsTruly(lib, w, r, now);
    e := PollResolves(Env(lib, now), w, r, Committed(after.run));
    FrontStays(w.runs[r], w.connectors, PollMove(Env(lib, now), StepsOf(w.runs[r]), Tx(w.runs[r], w.connectors)),
               after.run,
               e);
  }

  lemma TickReplaces(lib: Library, w: World, r: nat, now: int, after: Tx)
    requires Inv(w) && r < |w.runs| && Effect(lib, w, Tick(r, now)) == Some(after)
    ensures after.run.record.version == w.runs[r].record.version
    ensures Next(lib, w, Tick(r, now)) == w.(connectors := after.connectors, runs := w.runs[r := Committed(after.run)])
  {
    EffectFollows(lib, w, Tick(r, now), r);
  }

  lemma DuePollDoes(lib: Library, w: World, r: nat, now: int)
    requires Inv(w) && AllFaithful(lib, w) && r < |w.runs| && Admitted(lib, w, Tick(r, now))
    requires |w.runs[r].executions| > 0 && Last(w.runs[r]).node in StepsOf(w.runs[r])
    requires Effect(lib, w, Tick(r, now)).Some?
    ensures Polled(lib, w, r, now, Next(lib, w, Tick(r, now)))
  {
    var after := Effect(lib, w, Tick(r, now)).value;
    TickReplaces(lib, w, r, now, after);
    var e := PollEnds(lib, w, r, now, after);
  }

  // ---- What a decision does

  /** The run waits for a decision on this version. */
  ghost predicate Asked(w: World, r: nat, version: nat)
    requires r < |w.runs|
  {
    var run := w.runs[r];
    && run.record.version == version && |run.executions| > 0
    && Last(run).status.Waiting? && Last(run).node in StepsOf(run) && StepsOf(run)[Last(run).node].HumanStep?
  }

  lemma DecidedWhenAsked(lib: Library, w: World, e: Event)
    requires Inv(w) && e.Decided? && e.run < |w.runs|
    ensures Admitted(lib, w, e) <==> Asked(w, e.run, e.decision.expectedVersion)
  {
    var run := w.runs[e.run];
    assert SettledAt(w, e.run);
    if run.record.status.Waiting? {
      WaitsInLast(run, w.connectors);
    } else {
      TerminalWaitsNowhere(run, w.connectors);
    }
  }

  /** The question is answered with what was decided, by whom, why and when; nothing earlier and no other
      run is touched. */
  ghost predicate Answers(lib: Library, w: World, r: nat, d: Decision, now: int, next: World)
    requires r < |w.runs| && |w.runs[r].executions| > 0
  {
    var n := |w.runs[r].executions| - 1;
    var e := w.runs[r].executions[n];
    && OthersSame(w, r, next) && |next.runs[r].executions| > n
    && next.runs[r].executions[..n] == w.runs[r].executions[..n]
    && next.runs[r].record.version == w.runs[r].record.version + 1
    && next.connectors.connections == w.connectors.connections
    && next.runs[r].executions[n]
       == e.(status := StepStatus.Completed,
             output := Some(map["decision" := Str(if d.verdict.Approve? then "approve" else "reject"),
                                "actor" := Str(d.actor), "reason" := Str(d.reason),
                                "decided_at" := Str(lib.isoFormat(now)), "subject" := Object(e.inputs)]))
  }

  /** A decision answers the question that the run asks on the expected version, unless the transaction comes
      to a time that is no date; any other decision changes nothing. */
  lemma DecisionDoes(lib: Library, w: World, r: nat, d: Decision, now: int)
    requires Inv(w) && AllFaithful(lib, w) && r < |w.runs|
    ensures var next := Next(lib, w, Decided(r, d, now));
            if Asked(w, r, d.expectedVersion) then
              && Admitted(lib, w, Decided(r, d, now))
              && if LeavesRange(lib, w, Decided(r, d, now)) then next == w else Answers(lib, w, r, d, now, next)
            else next == w
  {
    DecidedWhenAsked(lib, w, Decided(r, d, now));
    if Asked(w, r, d.expectedVersion) {
      CutShortExactly(lib, w, Decided(r, d, now));
      if !LeavesRange(lib, w, Decided(r, d, now)) {
        EffectFollows(lib, w, Decided(r, d, now), r);
        DecisionEnds(lib, w, r, d, now, Effect(lib, w, Decided(r, d, now)).value);
      }
    }
  }

  lemma DecisionBuilds(lib: Library, w: World, r: nat, d: Decision, now: int)
    requires Inv(w) && r < |w.runs| && Admitted(lib, w, Decided(r, d, now)) && Effect(lib, w, Decided(r, d, now)).Some?
    ensures var move := DecideMove(Env(lib, now), StepsOf(w.runs[r]), Tx(w.runs[r], w.connectors), d);
            move.Goto? && Builds(move, Effect(lib, w, Decided(r, d, now)).value.run)
  {
    BeginConcludes(lib, w, Decided(r, d, now));
  }

  lemma DecisionEnds(lib: Library, w: World, r: nat, d: Decision, now: int, after: Tx)
    requires Inv(w) && AllFaithful(lib, w) && r < |w.runs| && Admitted(lib, w, Decided(r, d, now))
    requires |w.runs[r].executions| > 0 && Effect(lib, w, Decided(r, d, now)) == Some(after)
    ensures EndsWith(w.runs[r], after.run,
                     Completion(Last(w.runs[r]),
                                DecidedFields(Env(lib, now), d)["subject" := Object(Last(w.runs[r]).inputs)]))
  {
    var run := w.runs[r];
    DecisionBuilds(lib, w, r, d, now);
    AdmittedWaits(lib, w, Decided(r, d, now));
    assert SettledAt(w, r);
    WaitsInLast(run, w.connectors);
    var fields := DecidedFields(Env(lib, now), d);
    var output := fields["subject" := Object(Last(run).inputs)];
    ResolvedFront(run, Last(run), output, ChildOf(run.waits, Last(run).uid).value, fields, now);
    FrontStays(run, w.connectors, DecideMove(Env(lib, now), StepsOf(run), Tx(run, w.connectors), d), after.run,
               Completion(Last(run), output));
  }

  // ---- Where the times of a wait come from

  /** A wait that this transaction recorded; only a time that is already reached is resolved at once. */
  ghost predicate RecordedNow(lib: Library, k: WaitRecord, now: int) {
    && k.data.recordedAt == now
    && (if k.data.resolution.None? then k.data.resolvedAt.None? else TimeReached(k, now) && FiredNow(lib, k, now))
  }

  ghost predicate FiredNow(lib: Library, k: WaitRecord, now: int) {
    k.data.resolution == Some(map["fired_at" := Str(lib.isoFormat(now))]) && k.data.resolvedAt == Some(now)
  }

  /** The wait `k` is `b` as the event resolves it: the clock when it is over, or a decision. */
  ghost predicate ResolvedNow(lib: Library, e: Event, b: WaitRecord, k: WaitRecord) {
    && b.data.resolution.None?
       && k == b.(data := b.data.(resolution := k.data.resolution, resolvedAt := k.data.resolvedAt))
    && match e
       case Tick(_, now) =>
         || (TimeReached(b, now) && FiredNow(lib, k, now))
         || (QuestionOver(b, now) && k.data.resolution == Some(map["decision" := Str("timeout")])
             && k.data.resolvedAt == Some(now))
       case Decided(_, d, now) =>
         && b.data.condition.HumanWait? && k.data.resolvedAt == Some(now)
         && k.data.resolution == Some(map["decision" := Str(if d.verdict.Approve? then "approve" else "reject"),
                                          "actor" := Str(d.actor), "reason" := Str(d.reason),
                                          "decided_at" := Str(lib.isoFormat(now))])
       case _ => false
  }

  /** Every wait afterwards was there, was recorded by the event, or was resolved by it; and every wait that
      was there is still there, as it was or resolved by the event. */
  ghost predicate Stamped(lib: Library, e: Event, before: seq<WaitRecord>, after: seq<WaitRecord>)
    requires e.Start? || e.Tick? || e.Decided?
  {
    && (forall k :: k in after ==> StampedAt(lib, e, before, k))
    && (forall b :: b in before ==> b in after || exists k :: k in after && ResolvedNow(lib, e, b, k))
  }

  ghost predicate StampedAt(lib: Library, e: Event, before: seq<WaitRecord>, k: WaitRecord)
    requires e.Start? || e.Tick? || e.Decided?
  {
    k in before || RecordedNow(lib, k, e.now) || exists b :: b in before && ResolvedNow(lib, e, b, k)
  }

  /** The waits as before, and waits recorded now. */
  ghost predicate OnlyRecords(env: Env, before: seq<WaitRecord>, after: seq<WaitRecord>) {
    && (forall k :: k in after ==> k in before || RecordedNow(env.lib, k, env.now))
    && (forall b :: b in before ==> b in after)
  }

  lemma {:induction false} SaveAdds<T>(children: seq<Child<T>>, c: Child<T>)
    requires forall k :: k in children ==> k.uid != c.uid
    ensures Save(children, c) == children + [c]
    decreases |children|
  {
    if children != [] {
      assert children[0] in children;
      SaveAdds(children[1..], c);
    }
  }

  lemma OneRecorded(env: Env, run: Run, k: WaitRecord)
    requires RecordedNow(env.lib, k, env.now) && k.uid > run.nextId && forall b :: b in run.waits ==> b.uid < run.nextId
    ensures OnlyRecords(env, run.waits, Save(run.waits, k))
  {
    SaveAdds(run.waits, k);
  }

  lemma WaitOnlyRecords(env: Env, tx: Tx, step: Step)
    requires forall b :: b in tx.run.waits ==> b.uid < tx.run.nextId
    requires step.WaitStep? && !RunWait(env, tx, step).Abort?
    ensures OnlyRecords(env, tx.run.waits, RunWait(env, tx, step).tx.run.waits)
  {
    var due := WaitTime(env, tx.run, step);
    if due.Time? {
      if due.instant > env.now {
        OneRecorded(env, tx.run, TimedWait(env, tx, due.instant));
      } else {
        SaveTwice(tx.run.waits, TimedWait(env, tx, due.instant), FiredWait(env, tx, due.instant));
        OneRecorded(env, tx.run, FiredWait(env, tx, due.instant));
      }
    }
  }

  lemma MoveOnlyRecords(env: Env, tx: Tx, step: Step)
    requires Children(tx.run, tx.connectors.calls) && !Advance(env, tx, step).Abort?
    ensures OnlyRecords(env, tx.run.waits, Advance(env, tx, step).tx.run.waits)
  {
    if step.WaitStep? {
      WaitOnlyRecords(env, tx, step);
    } else if step.HumanStep? {
      var subject := EvalFields(env.lib, tx.run, step.subject);
      if subject.Some? {
        OneRecorded(env, tx.run, AskedWait(env, tx, step, subject.value));
      }
    }
  }

  lemma {:induction false} LoopOnlyRecords(env: Env, tx: Tx, node: Id)
    requires C.Valid(tx.connectors) && Entering(tx.run, tx.connectors, node)
    requires Sound(StepsOf(tx.run), tx.run.record.body.start)
    requires Loop(env, StepsOf(tx.run), tx.run.record.body.start, tx, node).Done?
    ensures OnlyRecords(env, tx.run.waits, Loop(env, StepsOf(tx.run), tx.run.record.body.start, tx, node).tx.run.waits)
    decreases ReachSet(EdgesOf(StepsOf(tx.run)), StepsOf(tx.run).Keys, node)
  {
    var steps := StepsOf(tx.run);
    AdvanceLands(env, tx, node);
    MoveOnlyRecords(env, tx, steps[node]);
    match Advance(env, tx, steps[node])
    case Halt(_) =>
    case Goto(after, next) =>
      AdvanceFollowsEdge(env, tx, steps[node]);
      ReachSetShrinks(EdgesOf(steps), steps.Keys, node, next);
      LoopOnlyRecords(env, after, next);
  }

  /** Entering a step records waits and resolves none. */
  lemma EnterOnlyRecords(env: Env, tx: Tx, node: Id)
    requires C.Valid(tx.connectors) && Entering(tx.run, tx.connectors, node)
    requires Sound(StepsOf(tx.run), tx.run.record.body.start)
    requires Enter(env, StepsOf(tx.run), tx.run.record.body.start, tx, node).Done?
    ensures OnlyRecords(env, tx.run.waits, Enter(env, StepsOf(tx.run), tx.run.record.body.start, tx, node).tx.run.waits)
  {
    ChildrenSame(tx.run, RunningTx(tx).run, tx.connectors);
    LoopOnlyRecords(env, RunningTx(tx), node);
  }

  lemma ResolvedStamps(lib: Library, e: Event, waits: seq<WaitRecord>, b: WaitRecord, k: WaitRecord)
    requires e.Tick? || e.Decided?
    requires Unique(waits) && ChildOf(waits, b.execution) == Some(b) && ResolvedNow(lib, e, b, k)
    ensures Stamped(lib, e, waits, Save(waits, k))
  {
    OwnKeyAgrees(waits, k, b.execution);
    SaveMembers(waits, k);
    forall a | a in waits ensures a in Save(waits, k) || ResolvedNow(lib, e, a, k) {
      if a.execution == k.execution {
        UniqueMember(waits, a, b);
      }
    }
  }

  lemma StampedThen(lib: Library, e: Event, before: seq<WaitRecord>, mid: seq<WaitRecord>, after: seq<WaitRecord>)
    requires (e.Start? || e.Tick? || e.Decided?) && Stamped(lib, e, before, mid)
             && OnlyRecords(Env(lib, e.now), mid, after)
    ensures Stamped(lib, e, before, after)
  {
    forall k | k in after ensures StampedAt(lib, e, before, k) {
      assert k in mid ==> StampedAt(lib, e, before, k);
    }
    forall b | b in before && b !in after ensures exists k :: k in after && ResolvedNow(lib, e, b, k) {
      assert b !in mid;
      var k :| k in mid && ResolvedNow(lib, e, b, k);
      assert k in after;
    }
  }

  lemma SameIsStamped(lib: Library, e: Event, waits: seq<WaitRecord>)
    requires e.Start? || e.Tick? || e.Decided?
    ensures Stamped(lib, e, waits, waits)
  {
  }

  /** The first move of a poll resolves at most the wait of the waiting step. */
  lemma PollMoveStamps(env: Env, tx: Tx, r: nat)
    requires Waits(env, tx) && Ready(env, StepsOf(tx.run), tx).Yes? && !PollMove(env, StepsOf(tx.run), tx).Abort?
    ensures Stamped(env.lib, Tick(r, env.now), tx.run.waits, PollMove(env, StepsOf(tx.run), tx).tx.run.waits)
  {
    var e := Last(tx.run);
    WaitsInLast(tx.run, tx.connectors);
    if StepsOf(tx.run)[e.node].ActionStep? {
      SameIsStamped(env.lib, Tick(r, env.now), tx.run.waits);
    } else {
      var b := ChildOf(tx.run.waits, e.uid).value;
      ChildOfMember(tx.run.waits, e.uid);
      var resolution := if StepsOf(tx.run)[e.node].HumanStep? then map["decision" := Str("timeout")]
                        else map["fired_at" := Str(env.lib.isoFormat(env.now))];
      ResolvedStamps(env.lib, Tick(r, env.now), tx.run.waits, b, Resolved(b, resolution, env.now));
    }
  }

  lemma DecideMoveStamps(env: Env, tx: Tx, r: nat, d: Decision)
    requires Waits(env, tx) && Decidable(StepsOf(tx.run), tx.run, d.expectedVersion)
    requires !DecideMove(env, StepsOf(tx.run), tx, d).Abort?
    ensures Stamped(env.lib, Decided(r, d, env.now), tx.run.waits, DecideMove(env, StepsOf(tx.run), tx, d).tx.run.waits)
  {
    var e := Last(tx.run);
    WaitsInLast(tx.run, tx.connectors);
    var b := ChildOf(tx.run.waits, e.uid).value;
    ChildOfMember(tx.run.waits, e.uid);
    ResolvedStamps(env.lib, Decided(r, d, env.now), tx.run.waits, b, Resolved(b, DecidedFields(env, d), env.now));
  }

  lemma BeginStamps(lib: Library, w: World, e: Event)
    requires Inv(w) && AllFaithful(lib, w) && Admitted(lib, w, e) && !Begin(lib, w, e).move.Abort?
    ensures Stamped(lib, e, Begin(lib, w, e).tx.run.waits, Begin(lib, w, e).move.tx.run.waits)
  {
    if !e.Start? {
      AdmittedWaits(lib, w, e);
      WaitsTruly(lib, w, e.run, e.now);
    }
    match e
    case Start(_, _, _) => SameIsStamped(lib, e, []);
    case Tick(r, now) => PollMoveStamps(Env(lib, now), Tx(w.runs[r], w.connectors), r);
    case Decided(r, d, now) => DecideMoveStamps(Env(lib, now), Tx(w.runs[r], w.connectors), r, d);
  }

  /** What an event does to the waits of its run. */
  lemma EffectStamps(lib: Library, w: World, e: Event)
    requires Inv(w) && AllFaithful(lib, w) && Effect(lib, w, e).Some?
    ensures e.Start? || e.Tick? || e.Decided?
    ensures Stamped(lib, e, Begin(lib, w, e).tx.run.waits, Effect(lib, w, e).value.run.waits)
  {
    var b := Begin(lib, w, e);
    BeginConcludes(lib, w, e);
    BeginStamps(lib, w, e);
    if b.move.Goto? {
      SameSteps(lib, w, e);
      EnterOnlyRecords(Env(lib, e.now), b.move.tx, b.move.node);
      StampedThen(lib, e, b.tx.run.waits, b.move.tx.run.waits, Effect(lib, w, e).value.run.waits);
    }
  }

  lemma SameSteps(lib: Library, w: World, e: Event)
    requires Inv(w) && Admitted(lib, w, e) && Begin(lib, w, e).move.Goto?
    ensures Begin(lib, w, e).move.tx.run.record.body == Begin(lib, w, e).tx.run.record.body
  {
  }

  // ---- Where a wait comes from, over all events

  function WaitsOf(w: World, r: nat): seq<WaitRecord> {
    if r < |w.runs| then w.runs[r].waits else []
  }

  /** The event is one of this run. */
  ghost predicate Touches(w: World, e: Event, r: nat) {
    (e.Start? && r == |w.runs|) || (e.Tick? && e.run == r) || (e.Decided? && e.run == r)
  }

  lemma NextStamps(lib: Library, w: World, e: Event, r: nat)
    requires Inv(w) && AllFaithful(lib, w) && r < |Next(lib, w, e).runs|
    ensures WaitsOf(Next(lib, w, e), r) == WaitsOf(w, r)
            || (Touches(w, e, r) && Stamped(lib, e, WaitsOf(w, r), WaitsOf(Next(lib, w, e), r)))
  {
    if (e.Start? || e.Tick? || e.Decided?) && Effect(lib, w, e).Some? {
      EffectStamps(lib, w, e);
    }
  }

  ghost predicate SameWait(a: WaitRecord, b: WaitRecord) {
    a.uid == b.uid && a.execution == b.execution && a.data.condition == b.data.condition
    && a.data.recordedAt == b.data.recordedAt
  }

  /** Event `i` is one of the run, and recorded the wait at its time. */
  ghost predicate RecordedBy(lib: Library, events: seq<Event>, i: int, r: nat, k: WaitRecord) {
    && 0 <= i < |events| && Touches(After(lib, events[..i]), events[i], r)
    && exists a :: a in WaitsOf(After(lib, events[..i + 1]), r) && RecordedNow(lib, a, events[i].now) && SameWait(a, k)
  }

  /** Event `j` is one of the run, and resolved the wait: when recording it, or as it had been recorded. */
  ghost predicate ResolvedBy(lib: Library, events: seq<Event>, j: int, r: nat, k: WaitRecord) {
    && 0 <= j < |events| && Touches(After(lib, events[..j]), events[j], r)
    && (RecordedNow(lib, k, events[j].now)
        || exists b :: b in WaitsOf(After(lib, events[..j]), r) && ResolvedNow(lib, events[j], b, k))
  }

  ghost predicate HasOrigin(lib: Library, events: seq<Event>, r: nat, k: WaitRecord) {
    && (exists i :: RecordedBy(lib, events, i, r, k))
    && (k.data.resolution.Some? ==> exists j :: ResolvedBy(lib, events, j, r, k))
  }

  lemma RecordedStays(lib: Library, events: seq<Event>, i: int, r: nat, a: WaitRecord, k: WaitRecord)
    requires events != [] && RecordedBy(lib, events[..|events| - 1], i, r, a) && SameWait(a, k)
    ensures RecordedBy(lib, events, i, r, k)
  {
    var front := events[..|events| - 1];
    assert front[..i] == events[..i] && front[..i + 1] == events[..i + 1];
  }

  lemma ResolvedStays(lib: Library, events: seq<Event>, j: int, r: nat, k: WaitRecord)
    requires events != [] && ResolvedBy(lib, events[..|events| - 1], j, r, k)
    ensures ResolvedBy(lib, events, j, r, k)
  {
    assert events[..|events| - 1][..j] == events[..j];
  }

  lemma OriginStays(lib: Library, events: seq<Event>, r: nat, a: WaitRecord, k: WaitRecord)
    requires events != [] && HasOrigin(lib, events[..|events| - 1], r, a) && SameWait(a, k)
    ensures exists i :: RecordedBy(lib, events, i, r, k)
    ensures a == k ==> HasOrigin(lib, events, r, k)
  {
    var i :| RecordedBy(lib, events[..|events| - 1], i, r, a);
    RecordedStays(lib, events, i, r, a, k);
    if a == k && k.data.resolution.Some? {
      var j :| ResolvedBy(lib, events[..|events| - 1], j, r, a);
      ResolvedStays(lib, events, j, r, k);
    }
  }

  /** Every wait of a run was recorded by an event of that run, at the time of the event, and every resolved
      one was resolved by such an event. */
  lemma {:induction false} WaitsHaveOrigins(lib: Library, events: seq<Event>, r: nat, k: WaitRecord)
    requires k in WaitsOf(After(lib, events), r)
    ensures HasOrigin(lib, events, r, k)
    decreases |events|
  {
    var n := |events| - 1;
    var front, e := events[..n], events[n];
    var w := After(lib, front);
    AlwaysFaithful(lib, front);
    NextStamps(lib, w, e, r);
    if k in WaitsOf(w, r) {
      WaitsHaveOrigins(lib, front, r, k);
      OriginStays(lib, events, r, k, k);
    } else {
      assert events[..n + 1] == events;
      assert StampedAt(lib, e, WaitsOf(w, r), k);
      NewOrigin(lib, events, r, k);
    }
  }

  lemma {:induction false} NewOrigin(lib: Library, events: seq<Event>, r: nat, k: WaitRecord)
    requires events != [] && k in WaitsOf(After(lib, events), r)
    requires var e := events[|events| - 1]; e.Start? || e.Tick? || e.Decided?
    requires var w := After(lib, events[..|events| - 1]);
             && Touches(w, events[|events| - 1], r) && k !in WaitsOf(w, r)
             && StampedAt(lib, events[|events| - 1], WaitsOf(w, r), k)
    ensures HasOrigin(lib, events, r, k)
    decreases |events|, 0
  {
    var n := |events| - 1;
    var w := After(lib, events[..n]);
    assert events[..n + 1] == events;
    assert k.data.resolution.Some? ==> ResolvedBy(lib, events, n, r, k);
    if RecordedNow(lib, k, events[n].now) {
      assert RecordedBy(lib, events, n, r, k);
    } else {
      var b :| b in WaitsOf(w, r) && ResolvedNow(lib, events[n], b, k);
      WaitsHaveOrigins(lib, events[..n], r, b);
      OriginStays(lib, events, r, b, k);
    }
  }

  // ---- How a step was completed

  /** The event answers the question that the wait records: a poll when its deadline is over, or a decision. */
  ghost predicate AnswerOf(lib: Library, event: Event, step: Step, b: WaitRecord, e: Execution)
    requires step.HumanStep?
  {
    match event
    case Tick(_, now) =>
      && e.output == Some(map["decision" := Str("timeout"), "subject" := Object(e.inputs)])
      && QuestionOver(b, now) && step.timeout.Some?
      && lib.shift(b.data.recordedAt, step.timeout.value.seconds) == b.data.condition.deadline
    case Decided(_, d, now) =>
      e.output == Some(map["decision" := Str(if d.verdict.Approve? then "approve" else "reject"),
                           "actor" := Str(d.actor), "reason" := Str(d.reason),
                           "decided_at" := Str(lib.isoFormat(now)), "subject" := Object(e.inputs)])
    case _ => false
  }

  /** Event `j` of the run answered the question of the execution, which event `i` asked. */
  ghost predicate AnsweredBy(lib: Library, events: seq<Event>, i: int, j: int, r: nat, step: Step, b: WaitRecord,
                             e: Execution)
    requires step.HumanStep?
  {
    && 0 <= j < |events| && Touches(After(lib, events[..j]), events[j], r)
    && b in WaitsOf(After(lib, events[..j]), r) && b.execution == e.uid && RecordedBy(lib, events, i, r, b)
    && AnswerOf(lib, events[j], step, b, e)
  }

  lemma AnswerFits(lib: Library, event: Event, step: Step, inputs: Obj, before: seq<Execution>, b: WaitRecord,
                   k: WaitRecord, e: Execution)
    requires step.HumanStep? && e.status.Completed? && HumanTrue(lib, step, inputs, before, e, Some(k))
    requires ResolvedNow(lib, event, b, k)
    ensures AnswerOf(lib, event, step, b, e)
  {
  }

  /** A question that a run has passed was answered by an event of that run: by a poll, which records the
      timeout, only when the deadline was over, and that lies the timeout after the event that asked; or by
      a decision, which is recorded as it was made. */
  lemma HumanWasAnswered(lib: Library, events: seq<Event>, r: nat, m: nat) returns (i: int, j: int, b: WaitRecord)
    requires r < |After(lib, events).runs| && m < |After(lib, events).runs[r].executions|
    requires After(lib, events).runs[r].executions[m].node in StepsOf(After(lib, events).runs[r])
    requires StepsOf(After(lib, events).runs[r])[After(lib, events).runs[r].executions[m].node].HumanStep?
    requires After(lib, events).runs[r].executions[m].status.Completed?
    ensures AnsweredBy(lib, events, i, j, r,
                       StepsOf(After(lib, events).runs[r])[After(lib, events).runs[r].executions[m].node], b,
                       After(lib, events).runs[r].executions[m])
  {
    var run := After(lib, events).runs[r];
    var e := run.executions[m];
    var k := CompletedWait(lib, events, r, m);
    j :| ResolvedBy(lib, events, j, r, k);
    b :| b in WaitsOf(After(lib, events[..j]), r) && ResolvedNow(lib, events[j], b, k);
    AnswerFits(lib, events[j], StepsOf(run)[e.node], run.record.inputs, run.executions[..m], b, k, e);
    i :| RecordedBy(lib, events, i, r, k);
    assert RecordedBy(lib, events, i, r, b);
  }

  /** The wait of a completed execution, with its origin. */
  lemma CompletedWait(lib: Library, events: seq<Event>, r: nat, m: nat) returns (k: WaitRecord)
    requires r < |After(lib, events).runs| && m < |After(lib, events).runs[r].executions|
    requires var run := After(lib, events).runs[r];
             && run.executions[m].node in StepsOf(run) && run.executions[m].status.Completed?
             && (StepsOf(run)[run.executions[m].node].HumanStep? || StepsOf(run)[run.executions[m].node].WaitStep?)
    ensures k.execution == After(lib, events).runs[r].executions[m].uid && k.data.resolution.Some?
    ensures var run := After(lib, events).runs[r];
            TrueOf(lib, StepsOf(run)[run.executions[m].node], run.record.inputs, run.executions[..m], run.executions[m],
                   ChildOf(run.invocations, run.executions[m].uid), Some(k))
    ensures HasOrigin(lib, events, r, k)
  {
    var run := After(lib, events).runs[r];
    EveryRunIsFaithful(lib, events, r);
    assert TrueAt(lib, run, m);
    k := ChildOf(run.waits, run.executions[m].uid).value;
    ChildOfMember(run.waits, run.executions[m].uid);
    WaitsHaveOrigins(lib, events, r, k);
  }

  /** Event `j` let the waiting step go on: its time was reached at the time of the event. */
  ghost predicate FiredBy(lib: Library, events: seq<Event>, j: int, r: nat, until: int, e: Execution) {
    && 0 <= j < |events| && Touches(After(lib, events[..j]), events[j], r) && until <= events[j].now
    && e.output == Some(map["until" := Str(lib.isoFormat(until)), "fired_at" := Str(lib.isoFormat(events[j].now))])
  }

  lemma TimeFits(lib: Library, step: Step, inputs: Obj, before: seq<Execution>, k: WaitRecord, e: Execution, now: int)
    requires step.WaitStep? && e.status.Completed? && WaitTrue(lib, step, inputs, before, e, Some(k))
    requires k.data.resolvedAt == Some(now)
    ensures DueMeant(lib, step, inputs, before, k.data.condition.until) && k.data.condition.until <= now
    ensures e.output == Some(map["until" := Str(lib.isoFormat(k.data.condition.until)),
                                 "fired_at" := Str(lib.isoFormat(now))])
  {
  }

  lemma ResolvedWhen(lib: Library, events: seq<Event>, j: int, r: nat, k: WaitRecord)
    requires ResolvedBy(lib, events, j, r, k) && k.data.resolution.Some?
    ensures k.data.resolvedAt == Some(events[j].now)
  {
  }

  /** A time wait that a run has passed was let go by an event at or after the time that its step means. */
  lemma TimeWasReached(lib: Library, events: seq<Event>, r: nat, m: nat) returns (j: int, until: int)
    requires r < |After(lib, events).runs| && m < |After(lib, events).runs[r].executions|
    requires After(lib, events).runs[r].executions[m].node in StepsOf(After(lib, events).runs[r])
    requires StepsOf(After(lib, events).runs[r])[After(lib, events).runs[r].executions[m].node].WaitStep?
    requires After(lib, events).runs[r].executions[m].status.Completed?
    ensures var run := After(lib, events).runs[r];
            DueMeant(lib, StepsOf(run)[run.executions[m].node], run.record.inputs, run.executions[..m], until)
    ensures FiredBy(lib, events, j, r, until, After(lib, events).runs[r].executions[m])
  {
    var k := CompletedWait(lib, events, r, m);
    var run := After(lib, events).runs[r];
    j :| ResolvedBy(lib, events, j, r, k);
    until := k.data.condition.until;
    ResolvedWhen(lib, events, j, r, k);
    TimeFits(lib, StepsOf(run)[run.executions[m].node], run.record.inputs, run.executions[..m], k, run.executions[m],
             events[j].now);
  }
}

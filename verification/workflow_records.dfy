/** Every run of every reachable world tells the truth: its executions, waits and result are what its
    definition, its inputs and its earlier executions mean. */
module WorkflowRecords {
  import opened Values
  import opened Graphs
  import opened Definitions
  import opened EngineSpec
  import opened Meanings
  import opened RunTrail
  import opened RunChildren
  import opened RunSafety
  import opened RunTransactions
  import opened RunTruth
  import opened WorkflowWorld
  import opened WorkflowTheorems
  import C = Connectors

  /** The run was started from a saved definition with inputs that conform, and its records are true. */
  ghost predicate Faithful(lib: Library, w: World, run: Run) {
    && Truthful(lib, run)
    && lib.conforms(run.record.body.inputsSchema, run.record.inputs)
    && Definition(run.record.project, run.record.body) in w.definitions
  }

  ghost predicate FaithfulAt(lib: Library, w: World, r: nat)
    requires r < |w.runs|
  {
    Faithful(lib, w, w.runs[r])
  }

  ghost predicate AllFaithful(lib: Library, w: World) {
    forall r :: 0 <= r < |w.runs| ==> FaithfulAt(lib, w, r)
  }

  // ---- Every event keeps the runs true

  lemma StartIsTrue(lib: Library, w: World, e: Event)
    requires Inv(w) && e.Start? && Effect(lib, w, e).Some?
    ensures Truthful(lib, Effect(lib, w, e).value.run)
  {
    var tx := StartTx(w, w.definitions[e.definition], e.inputs);
    StartEnters(w, e.definition, e.inputs);
    EnterTrue(Env(lib, e.now), tx, tx.run.record.body.start);
  }

  lemma WaitsTruly(lib: Library, w: World, r: nat, now: int)
    requires Inv(w) && AllFaithful(lib, w) && r < |w.runs| && w.runs[r].record.status.Waiting?
    ensures Waits(Env(lib, now), Tx(w.runs[r], w.connectors))
  {
    assert SettledAt(w, r) && FaithfulAt(lib, w, r);
  }

  /** Only a waiting run is polled with something to write, or decided on. */
  lemma AdmittedWaits(lib: Library, w: World, e: Event)
    requires Inv(w) && (e.Tick? || e.Decided?) && Admitted(lib, w, e)
    ensures e.run < |w.runs| && w.runs[e.run].record.status.Waiting?
  {
    assert SettledAt(w, e.run);
    if !w.runs[e.run].record.status.Waiting? {
      TerminalWaitsNowhere(w.runs[e.run], w.connectors);
    }
  }

  lemma TickIsTrue(lib: Library, w: World, e: Event)
    requires Inv(w) && AllFaithful(lib, w) && e.Tick? && Effect(lib, w, e).Some?
    ensures Truthful(lib, Effect(lib, w, e).value.run)
  {
    AdmittedWaits(lib, w, e);
    WaitsTruly(lib, w, e.run, e.now);
    PollTrue(Env(lib, e.now), Tx(w.runs[e.run], w.connectors));
  }

  lemma DecisionKeepsTrue(lib: Library, w: World, e: Event)
    requires Inv(w) && AllFaithful(lib, w) && e.Decided? && Effect(lib, w, e).Some?
    ensures Truthful(lib, Effect(lib, w, e).value.run)
  {
    AdmittedWaits(lib, w, e);
    WaitsTruly(lib, w, e.run, e.now);
    DecideTrue(Env(lib, e.now), Tx(w.runs[e.run], w.connectors), e.decision);
  }

  lemma ChangeIsTrue(lib: Library, w: World, e: Event)
    requires Inv(w) && AllFaithful(lib, w) && (e.Tick? || e.Decided?) && Effect(lib, w, e).Some?
    ensures Truthful(lib, Committed(Effect(lib, w, e).value.run))
  {
    if e.Tick? {
      TickIsTrue(lib, w, e);
    } else {
      DecisionKeepsTrue(lib, w, e);
    }
    SameIsTrue(lib, Effect(lib, w, e).value.run, Committed(Effect(lib, w, e).value.run));
  }

  /** A new or changed run is faithful: started as its definition demands, or with the same origin. */
  lemma EffectIsFaithful(lib: Library, w: World, e: Event)
    requires Inv(w) && AllFaithful(lib, w) && Effect(lib, w, e).Some?
    ensures e.Start? ==> Faithful(lib, w, Effect(lib, w, e).value.run)
    ensures e.Tick? || e.Decided? ==> Faithful(lib, w, Committed(Effect(lib, w, e).value.run))
  {
    if e.Start? {
      StartIsTrue(lib, w, e);
      StartFollows(lib, w, e);
    } else if e.Tick? || e.Decided? {
      AdmittedWaits(lib, w, e);
      ChangeIsTrue(lib, w, e);
      EffectFollows(lib, w, e, e.run);
      assert FaithfulAt(lib, w, e.run);
    }
  }

  lemma NextIsFaithful(lib: Library, w: World, e: Event)
    requires Inv(w) && AllFaithful(lib, w)
    ensures AllFaithful(lib, Next(lib, w, e))
  {
    var next := Next(lib, w, e);
    if (e.Start? || e.Tick? || e.Decided?) && Effect(lib, w, e).Some? {
      EffectIsFaithful(lib, w, e);
    }
    forall r | 0 <= r < |next.runs| ensures FaithfulAt(lib, next, r) {
      assert r < |w.runs| ==> FaithfulAt(lib, w, r);
    }
  }

  /** A started run has the project and the body of its definition, the given inputs, and version 1. */
  lemma StartFollows(lib: Library, w: World, e: Event)
    requires Inv(w) && e.Start? && Effect(lib, w, e).Some?
    ensures e.definition < |w.definitions|
    ensures var record := Effect(lib, w, e).value.run.record;
            && record.project == w.definitions[e.definition].project
            && record.body == w.definitions[e.definition].body
            && record.inputs == e.inputs && record.version == 1
            && lib.conforms(record.body.inputsSchema, record.inputs)
  {
    BeginConcludes(lib, w, e);
  }

  /** After any sequence of events every run was started as its definition demands, tells the truth about
      each of its steps, waits and results, and went from each completed step to the exit it recorded. */
  lemma {:induction false} EveryRunIsFaithful(lib: Library, events: seq<Event>, r: nat)
    requires r < |After(lib, events).runs|
    ensures Faithful(lib, After(lib, events), After(lib, events).runs[r])
    ensures forall k :: 0 <= k < |After(lib, events).runs[r].executions| - 1 ==> GoesOnAt(After(lib, events).runs[r], k)
  {
    forall k | 0 <= k < |After(lib, events).runs[r].executions| - 1 ensures GoesOnAt(After(lib, events).runs[r], k) {
      ExitsAreTaken(After(lib, events), r, k);
    }
    AlwaysFaithful(lib, events);
    assert FaithfulAt(lib, After(lib, events), r);
  }

  lemma {:induction false} AlwaysFaithful(lib: Library, events: seq<Event>)
    ensures AllFaithful(lib, After(lib, events))
    decreases |events|
  {
    if events != [] {
      AlwaysFaithful(lib, events[..|events| - 1]);
      NextIsFaithful(lib, After(lib, events[..|events| - 1]), events[|events| - 1]);
    }
  }

  // ---- Each completed step is followed by the step at its exit

  /** The exit the execution recorded. */
  ghost predicate GoesTo(step: Step, output: Obj, next: Id) {
    match step
    case ActionStep(_, _, _, _, _, _, _, exit) => next == exit
    case WaitStep(_, _, _, exit) => next == exit
    case ConditionStep(_, _, _) => "selected" in output && output["selected"] == Str(next)
    case HumanStep(_, _, _, onApprove, onReject, timeout) =>
      && "decision" in output
      && (output["decision"] == Str("approve") ==> next == onApprove)
      && (output["decision"] == Str("reject") ==> next == onReject)
      && (output["decision"] == Str("timeout") ==> timeout.Some? && next == timeout.value.exit)
    case EndStep(_, _, _) => false
  }

  ghost predicate GoesOnAt(run: Run, k: nat)
    requires k < |run.executions| - 1
  {
    var e := run.executions[k];
    e.node in StepsOf(run) && e.output.Some? && GoesTo(StepsOf(run)[e.node], e.output.value, run.executions[k + 1].node)
  }

  /** Every execution but the last goes to the next one. */
  lemma ExitsAreTaken(w: World, r: nat, k: nat)
    requires Inv(w) && r < |w.runs| && k < |w.runs[r].executions| - 1
    ensures GoesOnAt(w.runs[r], k)
  {
    var run := w.runs[r];
    assert SettledAt(w, r);
    var n := |run.executions| - 1;
    assert PassedAt(StepsOf(run), run.executions[..n], run.executions[n].node, k);
    var step, output := StepsOf(run)[run.executions[k].node], run.executions[k].output.value;
    if step.ConditionStep? {
      assert output["selected"].Str?;
    }
  }

  /** The inputs of execution `k` have the fields that its action asks for. */
  ghost predicate InputsFit(w: World, run: Run, k: nat)
    requires k < |run.executions| && IsAction(StepsOf(run), run.executions[k].node)
  {
    var action := ActionOf(StepsOf(run)[run.executions[k].node],
                           ProjectConnections(w.connectors.connections, run.record.project));
    action.Some? && FieldsFit(action.value.inputSchema, run.executions[k].inputs.Keys)
  }

  /** Every call that a run queues gets the fields that the schema of its action asks for. */
  lemma QueuedInputsFit(lib: Library, events: seq<Event>, r: nat, k: nat)
    requires r < |After(lib, events).runs| && k < |After(lib, events).runs[r].executions|
    requires Queued(After(lib, events).runs[r], k)
    ensures InputsFit(After(lib, events), After(lib, events).runs[r], k)
  {
    var w := After(lib, events);
    var run := w.runs[r];
    EveryRunIsFaithful(lib, events, r);
    assert TrueAt(lib, run, k) && SettledAt(w, r);
    FieldsAreFit(run.record.body, ProjectConnections(w.connectors.connections, run.record.project),
                 run.executions[k].node);
  }

  // ---- Where an input comes from

  /** Earlier execution `j` of the step completed with this value in its output. */
  ghost predicate Supplies(run: Run, k: nat, source: Id, key: string, value: Json, j: int)
    requires k < |run.executions|
  {
    && 0 <= j < k && run.executions[j].node == source && run.executions[j].status.Completed?
    && run.executions[j].output.Some? && key in run.executions[j].output.value
    && run.executions[j].output.value[key] == value
  }

  lemma FieldOf(fields: Obj, key: string, value: Json)
    requires Leads(Object(fields), [key], value)
    ensures key in fields && fields[key] == value
  {
    LeadsNext(Object(fields), [key], value);
    var part :| Into(Object(fields), key, part) && Leads(part, [], value);
    var chain :| LeadsBy(part, [], value, chain);
  }

  /** An input of an action or a question that refers to an output field of a step is that field of the output
      with which the step was completed earlier in the run. */
  lemma InputComesFrom(lib: Library, events: seq<Event>, r: nat, k: nat, name: string, source: Id, key: string)
    returns (j: int)
    requires r < |After(lib, events).runs| && k < |After(lib, events).runs[r].executions|
    requires var run := After(lib, events).runs[r];
             var e := run.executions[k];
             && e.node in StepsOf(run)
             && match StepsOf(run)[e.node]
                case ActionStep(_, _, _, _, inputs, _, _, _) =>
                  && ChildOf(run.invocations, e.uid).Some?
                  && name in inputs && inputs[name] == RefValue(StepRef(source, [key]))
                case HumanStep(_, _, subject, _, _, _) =>
                  && ChildOf(run.waits, e.uid).Some?
                  && name in subject && subject[name] == RefValue(StepRef(source, [key]))
                case _ => false
    ensures name in After(lib, events).runs[r].executions[k].inputs
    ensures Supplies(After(lib, events).runs[r], k, source, key, After(lib, events).runs[r].executions[k].inputs[name],
                     j)
  {
    var run := After(lib, events).runs[r];
    var e := run.executions[k];
    EveryRunIsFaithful(lib, events, r);
    assert TrueAt(lib, run, k);
    var values := if StepsOf(run)[e.node].ActionStep? then StepsOf(run)[e.node].inputs
      else StepsOf(run)[e.node].subject;
    assert FieldReads(lib, run.record.inputs, run.executions[..k], values, e.inputs, name);
    j := OutputBehind(run, k, source, key, e.inputs[name]);
  }

  lemma OutputBehind(run: Run, k: nat, source: Id, key: string, value: Json) returns (j: int)
    requires k < |run.executions| && Denotes(run.record.inputs, run.executions[..k], StepRef(source, [key]), value)
    ensures Supplies(run, k, source, key, value, j)
  {
    j :| Latest(run.executions[..k], source, j) && Leads(Object(run.executions[..k][j].output.value), [key], value);
    FieldOf(run.executions[j].output.value, key, value);
  }
}

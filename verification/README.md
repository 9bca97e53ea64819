# Verified models of the workflow, planning and coordination core

This project models the places where a static check, or a set of local guards, is meant to
guarantee something about every later run, and proves that it does.

* **Workflow engine** (`graphs`, `values`, `definitions`, `definition_check`, `references`,
  `engine_spec`, `engine`, `meanings`, `run_trail`, `run_children`, `run_safety`,
  `run_transactions`, `run_truth`, `workflow_world`, `workflow_theorems`, `workflow_records`,
  `workflow_progress`, `workflow_calls`, `workflow_calendar`). The check of a definition is proved
  to refuse exactly the definitions at fault: its depth-first visit, its one-pass dominator sets and
  its one-pass reachable sets are exact. The engine is a class whose methods are proved equal to
  functions of the state before the transaction. Over all sequences of saved definitions, starts,
  polls, decisions and connector events, the accepted definition then guarantees the shape of every
  run, its termination, the references it reads and the approvals behind its writes, and every
  action step it completed was executed by one worker under one hand-out of its call. What
  references, values and conditions mean is stated as relations over the records of a run, and
  every record of every run is proved to say what they mean; a question times out, and a wait ends,
  only when its time has come.
* **Connector calls** (`connector_state`, `connector_laws`, `connector_lifecycle`,
  `connector_service`). Queue, claim, report, unknown and reconcile are atomic steps of several
  workers and of workflow runs; the service class is proved equal to them, what each does to the
  state is proved exactly, and the life cycle of a call is proved over all interleavings.
* **Plan graph tools** (`plan_draft`, `plan_edits`, `plan_integrity`, `plan_order`,
  `plan_checks`, `plan_branches`, `plan_phases`, `plan_validation`, `plan_acceptance`,
  `plan_theorems`, `plan_template`, `plan_process`, `plan_runtime`). Every tool changes exactly its
  entry, the draft stays sound under any tool calls, rejected ones leave it unchanged, and retained
  gates are conserved. The validation is proved exact, including Kahn's
  algorithm and the backward search inside a phase. What it accepts has a global order that no
  single check states, and its template passes every constructor check on the graph.
* **Coordinators over logs and counters**: planner admission (`planner_capacity`), block lineage
  (`block_lineage`, `lineage_laws`), Phase Sessions (`phase_sessions`, `phase_delivery`,
  `phase_laws`), startup recovery (`startup_recovery`, `recovery_laws`) and process adjustments
  (`process_adjustments`, `adjustment_accounting`, `adjustment_laws`).

The functions that the classes are proved equal to are not left to speak for themselves: `meanings`,
`plan_edits`, `plan_acceptance` and the files ending in `_laws` state what each operation does by
the states before and after it alone, and prove that the functions do it.

Conventions. Identities are positions or counters, so a new one is new by construction. A content
fingerprint is equality of content. The clock, the JSON text, JSON Schema conformance, time formats,
the range of dates and the comparison form of a human question are parameters. Each `with uow` or
`with transaction` block is one atomic step; a raised exception leaves the state as it was. Texts
that the code strips are taken as stripped, with the empty text for a blank one. Insertion-ordered
tables keep their key order.

## Model

| member | source | states |
|---|---|---|
| `Graphs.DominatesStep` | src/ehai/application/custom_workflows.py:179-183 | On every graph, `d` dominates `n` other than start exactly when `d == n` or `d` dominates every predecessor of `n`: the law behind the one-pass dominator sets. |
| `Graphs.ReachFirst` | src/ehai/application/custom_workflows.py:184-186 | `b` is reachable from `a` exactly when they are equal or a successor of `a` reaches it: the law behind the one-pass reachable sets. |
| `Graphs.AcyclicPathDistinct` | src/ehai/application/custom_workflows.py:155-176 | In an acyclic graph no path visits a node twice. |
| `Graphs.ReachSetShrinks` | src/ehai/application/custom_workflows.py:470-502 | Along every edge of an acyclic graph the set of nodes still reachable shrinks strictly: the measure that ends the loop of `enter`. |
| `Graphs.AllFedIsStuck` | src/ehai/application/plan_graph_tools.py:1332-1332 | In a finite set in which every node has a predecessor in the set, a cycle leads to every node. |
| `Graphs.RootBehind` | src/ehai/application/plan_graph_tools.py:1632-1641 | In an acyclic graph every node of a finite set has behind it a node of the set without predecessor in the set. |
| `DefinitionCheck.Traversal.Visit` | src/ehai/application/custom_workflows.py:159-167 | The recursive depth-first visit terminates, closes exactly the part it opened, lists finished steps after their successors but for the reported edges, and reports only edges that close a cycle below start. |
| `DefinitionCheck.VisitAll` | src/ehai/application/custom_workflows.py:169-174 | The visit from start marks exactly the reachable steps, and reports a problem exactly when the part below start has a cycle. |
| `DefinitionCheck.PostOrderIsAcyclic` | src/ehai/application/custom_workflows.py:155-176 | A complete post-order without problem proves the whole graph acyclic. |
| `DefinitionCheck.ReportedCut` | src/ehai/application/custom_workflows.py:159-167 | Whatever the graph, below start every cycle goes through an edge that the visit reported. |
| `DefinitionCheck.ReversedIsTopological` | src/ehai/application/custom_workflows.py:176 | The reversed post-order lists every step after all of its predecessors. |
| `DefinitionCheck.CollectPredecessors` | src/ehai/application/custom_workflows.py:177-180 | The predecessor lists hold exactly the sources of the edges into each step. |
| `DefinitionCheck.DominatorEquation` | src/ehai/application/custom_workflows.py:182-185 | On a topologically ordered graph the dominators of a step are itself and the intersection of those of its predecessors. |
| `DefinitionCheck.DominatorSets` | src/ehai/application/custom_workflows.py:181-185 | The one-pass dominator sets are exact: `d` is in the set of `n` exactly when every path from start to `n` contains `d`. |
| `DefinitionCheck.ReachableEquation` | src/ehai/application/custom_workflows.py:186-188 | The reachable set of a step is itself and the union of those of its successors. |
| `DefinitionCheck.ReachableSets` | src/ehai/application/custom_workflows.py:186-188 | The one-pass reachable sets are exactly the reflexive transitive closure of the successors. |
| `DefinitionCheck.CheckReferences` | src/ehai/application/custom_workflows.py:193-206 | Reports only real reference faults, and none exactly when every reference of the step is well formed, declared, and to a step that dominates it and is no end step. |
| `DefinitionCheck.CheckAction` | src/ehai/application/custom_workflows.py:213-264 | Reports only real action faults, and none exactly when connector, action, inputs and authorization of the step are in order; an approval must dominate the step while neither refusal exit reaches it. |
| `DefinitionCheck.ActionProblemsExact` | src/ehai/application/custom_workflows.py:230-264 | The authorization rule decided with dominator and reachable sets agrees with its meaning over all paths. |
| `DefinitionCheck.CheckTable` | src/ehai/application/custom_workflows.py:134-153 | The first stage reports exactly the faults of the input schema, of duplicate ids, of a missing start and of missing targets. |
| `DefinitionCheck.CheckShape` | src/ehai/application/custom_workflows.py:155-174 | The second stage reports exactly the unreachable steps, and only edges that close a cycle below start, which together cut every such cycle; when it reports nothing it yields a post-order of all steps. |
| `DefinitionCheck.Validate` | src/ehai/application/custom_workflows.py:130-210 | The whole check: every reported problem is a real fault, and nothing is reported exactly when the definition has none. |
| `Definitions.AcceptedIsSound` | src/ehai/application/custom_workflows.py:144-174 | An acceptable definition has a start, closed successors, no cycle and only reachable steps. |
| `Definitions.AcceptedReads` | src/ehai/application/custom_workflows.py:192-206 | In an acceptable definition every step reference is to a step that dominates the reader. |
| `Definitions.AcceptedAction` | src/ehai/application/custom_workflows.py:222-264 | In an acceptable definition a writing action is authorized, and an approval it names guards it on all paths. |
| `Definitions.AcceptedFields` | src/ehai/application/custom_workflows.py:144-252 | The steps of an acceptable definition have different ids and read only declared inputs, and every action step gives its action the fields that the schema asks for. |
| `References.StepDepends` | src/ehai/application/custom_workflows.py:96-128 | A step evaluates to the same in any two runs that find the same for its collected references: nothing else decides what it reads. |
| `References.FieldsNeed` | src/ehai/application/custom_workflows.py:342-355 | Named values can be evaluated exactly when every collected reference finds something. |
| `Definitions.AcceptableMonotone` | src/ehai/application/custom_workflows.py:130-132 | Registering more connectors never makes an acceptable definition unacceptable. |
| `EngineSpec.AdvanceFollowsEdge` | src/ehai/application/custom_workflows.py:472-499 | Whatever the loop of `enter` continues with is a successor of the step it ran. |
| `Meanings.LookupDenotes` | src/ehai/application/custom_workflows.py:313-340 | The engine finds for a reference exactly what it stands for: what its keys lead to in the inputs of the run, or in the output of the latest completed execution of the step it names. |
| `Meanings.EvalReads` | src/ehai/application/custom_workflows.py:342-352 | A value evaluates to exactly what it means; a template to the texts of its pieces, one after the other. |
| `Meanings.CompareIs` | src/ehai/application/custom_workflows.py:366-381 | Numbers compare as numbers, other values are equal only as the same JSON, and besides numbers only texts have an order, by their first different character. |
| `Meanings.TestJudges` | src/ehai/application/custom_workflows.py:357-383 | A condition is tested to exactly the verdict it has, or to none: in order, up to the first part that decides, and without verdict when a value is missing or cannot be ordered. |
| `Meanings.SelectChooses` | src/ehai/application/custom_workflows.py:476-484 | The selected case is exactly the first that holds, with all before it not holding. |
| `Engine.RunExecution.DoCondition` | src/ehai/application/custom_workflows.py:476-484 | The loop over the cases selects the first that holds, or fails the run, exactly as the specification. |
| `Engine.RunExecution.DoAction` | src/ehai/application/custom_workflows.py:504-550 | Starting an action saves the intent, queues the call and binds it, or fails the step, exactly as the specification. |
| `Engine.RunExecution.DoHuman` | src/ehai/application/custom_workflows.py:561-586 | Starting a human step records the question with its deadline and waits; a deadline outside the range of dates cuts the transaction short. |
| `Engine.RunExecution.DoWait` | src/ehai/application/custom_workflows.py:588-618 | Starting a time wait records it, and resolves it at once when it is due; a time that leaves the range of dates cuts the transaction short. |
| `Engine.RunExecution.Enter` | src/ehai/application/custom_workflows.py:470-502 | The loop ends, and leaves exactly the records of the specification. |
| `Engine.RunExecution.PollAction` | src/ehai/application/custom_workflows.py:629-671 | A poll on an action step applies the call result exactly as the specification, and without `apply` writes nothing and gives the same answer. |
| `Engine.RunExecution.PollWait` | src/ehai/application/custom_workflows.py:672-695 | A poll on a human or time wait resolves it exactly when its time has come, and without `apply` writes nothing. |
| `Engine.RunExecution.Poll` | src/ehai/application/custom_workflows.py:620-696 | The whole poll: the answer with and without `apply` agrees, and only `apply` writes. |
| `Engine.RunExecution.Decide` | src/ehai/application/custom_workflows.py:698-716 | A decision on the expected version completes the human step and continues by its exit; any other is refused without effect. |
| `Engine.RunExecution.Commit` | src/ehai/application/custom_workflows.py:718-735 | Every commit after the first raises the version by one. |
| `RunTrail.TrailIsPath` | src/ehai/application/custom_workflows.py:470-502 | The executed steps and the next one form a path of the graph from start. |
| `RunTrail.DominatorExecuted` | src/ehai/application/custom_workflows.py:181-185 | A step that dominates the next step was executed earlier in the run. |
| `RunTrail.ApprovalGiven` | src/ehai/application/custom_workflows.py:254-264 | When an approval step guards the next step, it was completed with the decision approve, even if its exits share targets. |
| `RunTrail.ReferenceResolves` | src/ehai/application/custom_workflows.py:313-340 | What the next step reads from earlier steps has a completed execution with an output. |
| `RunChildren.ChildrenStay` | src/ehai/application/custom_workflows.py:504-550 | Whatever the connectors do, every invocation and wait record keeps supporting its execution. |
| `RunSafety.AdvanceLands` | src/ehai/application/custom_workflows.py:472-499 | One step of a legal run is cut short exactly when the time it needs is outside the range of dates; otherwise it continues with a legal run at a successor, or stops in a settled one. |
| `RunSafety.EnterConcludes` | src/ehai/application/custom_workflows.py:470-502 | Entering any step of an accepted definition ends in a settled run, waiting in exactly its last execution or ended, unless it is cut short; that happens exactly when the moves from the step come to a time outside the range of dates. |
| `RunSafety.QueueFailsOnlyOnPayload` | src/ehai/application/custom_workflows.py:523-544 | For an accepted definition a call can only be refused because its inputs do not conform to the schema. |
| `RunTransactions.PollIsNeverBroken` | src/ehai/application/custom_workflows.py:442-454 | A poll of a settled run always finds the record it looks for. |
| `RunTransactions.PollConcludes` | src/ehai/application/custom_workflows.py:620-696 | A writing poll of a settled run ends in a settled run, and is cut short exactly when it comes to a time outside the range of dates. |
| `RunTransactions.DecideConcludes` | src/ehai/application/custom_workflows.py:698-716 | A decision on a settled run ends in a settled run, and is cut short exactly when it comes to a time outside the range of dates. |
| `RunTruth.ActionAsksOnce` | src/ehai/application/custom_workflows.py:504-550 | Starting an action step whose inputs can be read queues exactly one call, the one that the step asks for, when the inputs conform to the schema of the action; otherwise the run fails and nothing is queued. |
| `RunTruth.WaitTimeIs` | src/ehai/application/custom_workflows.py:588-597 | A wait step waits for exactly the time that its value and offset mean, and fails exactly when they mean none. |
| `RunTruth.OutOfRangeIs` | src/ehai/application/custom_workflows.py:561-597 | A step is cut short exactly when the time it means, as written, after the offset or as a deadline, is outside the range of dates. |
| `RunTruth.EnterTrue` | src/ehai/application/custom_workflows.py:470-502 | Entering a step of a run whose records are true ends in such a run: each execution has the inputs, wait, branch and result that its step means. |
| `RunTruth.PollTrue` | src/ehai/application/custom_workflows.py:620-696 | A writing poll of a run whose records are true ends in such a run. |
| `RunTruth.DecideTrue` | src/ehai/application/custom_workflows.py:698-716 | A decision on a run whose records are true ends in such a run. |
| `WorkflowWorld.NextKeeps` | src/ehai/application/custom_workflows.py:738-795 | Saving definitions, starting, polling and deciding runs, and every connector event keep the invariant of the whole system. |
| `WorkflowTheorems.ApprovalSound` | src/ehai/application/custom_workflows.py:254-264 | In every world that satisfies the invariant, and so in every reachable one, a call queued for a step with an approval step comes after a completed execution of that human step with decision approve in the same run. |
| `WorkflowTheorems.WritesAuthorized` | src/ehai/application/custom_workflows.py:523-530 | Likewise, a queued call that may write has a standing permission or such an approval behind it. |
| `WorkflowTheorems.RunShape` | src/ehai/application/custom_workflows.py:385-391 | Likewise, the executed steps are a path from start without repetition; a waiting run waits in exactly one execution, the last, and an ended one in none. |
| `WorkflowTheorems.ReadsResolve` | src/ehai/application/custom_workflows.py:190-206 | Likewise, each step reference of an executed step finds an earlier completed execution with an output. |
| `WorkflowTheorems.ActionAgrees` | src/ehai/application/custom_workflows.py:504-671 | Likewise, a waiting action step has one invocation bound to one call; it moved on only with the output of that call completed, and failed only with that call. |
| `WorkflowTheorems.EveryRunIsGuaranteed` | src/ehai/application/custom_workflows.py:130-264 | After any sequence of events every run has the shape, the references, the authorized writes and the agreement with the connector that the check of its definition promises. |
| `WorkflowTheorems.CallsBoundOnce` | src/ehai/application/custom_workflows.py:545-549 | No call is bound to two invocations, in one run or across runs. |
| `WorkflowTheorems.VersionsGrow` | src/ehai/application/custom_workflows.py:718-720 | Over any stretch of time the version of a run never falls, and an ended run never changes. |
| `WorkflowTheorems.OneDecision` | src/ehai/application/custom_workflows.py:698-703 | One expected version admits at most one decision: after one that changes anything, no other on that version changes anything. |
| `WorkflowTheorems.PollAgrees` | src/ehai/application/custom_workflows.py:620-624 | A poll without `apply` is never cut short; after no a writing poll changes nothing, and after yes it commits the next version, unless it comes to a time outside the range of dates and changes nothing. |
| `WorkflowTheorems.CutShortExactly` | src/ehai/application/custom_workflows.py:738-795 | An admitted start, poll or decision takes effect exactly when it does not come to a time outside the range of dates; no missing record or loop cuts it short. |
| `WorkflowRecords.EveryRunIsFaithful` | src/ehai/application/custom_workflows.py:313-502 | After any sequence of events every run has a saved definition and conforming inputs; every execution has exactly the inputs that its step means by the inputs of the run and the earlier outputs, every condition took the first case that holds, every wait has its meant time and is resolved no earlier, every failure has its reason, and the result is that of the end step; and each completed step is followed by the step at the exit it recorded. |
| `WorkflowRecords.InputComesFrom` | src/ehai/application/custom_workflows.py:320-340 | An input of an executed action or human step that refers to an output field of a step is that field of the output with which the step completed earlier in the run. |
| `WorkflowRecords.QueuedInputsFit` | src/ehai/application/custom_workflows.py:227-240 | Every call that a run queues gets the fields that the schema of its action asks for. |
| `WorkflowProgress.PollDoes` | src/ehai/application/custom_workflows.py:620-696 | A poll resolves the waiting step exactly when its call was answered, the deadline of its question is over or its time is reached, and with exactly that answer, timeout or time; else, or when it comes to a time outside the range of dates, it changes nothing. |
| `WorkflowProgress.DecisionDoes` | src/ehai/application/custom_workflows.py:698-716 | A decision answers the question that the run asks on the expected version, with what was decided, by whom, why and when, unless it comes to a time outside the range of dates; any other decision changes nothing. |
| `WorkflowProgress.WaitsHaveOrigins` | src/ehai/application/custom_workflows.py:561-618 | Over all events, every wait was recorded by an event of its run at the time of that event, and every resolved one was resolved by such an event. |
| `WorkflowProgress.HumanWasAnswered` | src/ehai/application/custom_workflows.py:672-716 | Over all events, a passed question was answered by a decision as it was made, or timed out by a poll no earlier than its deadline, which lies the timeout after the event that asked. |
| `WorkflowProgress.TimeWasReached` | src/ehai/application/custom_workflows.py:588-618 | Over all events, a passed time wait was let go by an event at or after the time that its step means. |
| `WorkflowCalendar.LateStartIsCutShort` | src/ehai/application/custom_workflows.py:588-597 | A wait until one minute after the last second of the year 9999 is accepted by the check and its start is admitted, and yet nothing is stored. |
| `WorkflowCalendar.FittingTakesEffect` | src/ehai/application/custom_workflows.py:561-597 | When no wait or timeout of the definition can leave the range of dates, every admitted event takes effect. |
| `WorkflowCalls.NextQueues` | src/ehai/application/custom_workflows.py:504-550 | A transaction of the engine queues at most one call, and changes nothing else of the connectors. |
| `WorkflowCalls.TraceReaches` | src/ehai/application/connectors.py:127-360 | Every world is reached by a trace of connector transactions in which runs queue calls. |
| `WorkflowCalls.ExecutedOnce` | src/ehai/application/connectors.py:297-320 | Over all events of definitions, runs and connectors a call is handed out for execution at most once. |
| `WorkflowCalls.OneHolder` | src/ehai/application/connectors.py:297-320 | Whenever a call is handed out, it is to the same worker under the same token. |
| `WorkflowCalls.MovedOnWasExecuted` | src/ehai/application/connectors.py:297-360 | A call that left the queue was handed out for execution by exactly one event, to one worker under one token. |
| `WorkflowCalls.CompletedActionExecutedOnce` | src/ehai/application/custom_workflows.py:638-671 | Every action step that a run has completed was executed under exactly one hand-out of the call it queued. |
| `WorkflowCalls.ResultWasReported` | src/ehai/application/connectors.py:322-360 | A result is recorded only by a report under the token of an earlier hand-out of the call, with the status, output, error and external reference of the report, and leaves request and claim as they were. |
| `WorkflowCalls.ResultStays` | src/ehai/application/connectors.py:339-341 | Completed and failed calls stay as they are in every later world. |
| `ConnectorService.Service.Queue` | src/ehai/application/connectors.py:127-168 | The first action of that name and version is taken, and the call is stored exactly when action, authorization and inputs allow it. |
| `ConnectorService.Service.Invoke` | src/ehai/application/connectors.py:223-244 | An invocation replays its receipt, or queues the call and records the answer. |
| `ConnectorService.Service.Reconcile` | src/ehai/application/connectors.py:276-295 | An unknown call goes back to its owner, once per key. |
| `ConnectorService.Service.ClaimNext` | src/ehai/application/connectors.py:297-320 | The first owned call is returned for reconciliation, else the first queued one is handed out for execution under a new token. |
| `ConnectorService.Service.Report` | src/ehai/application/connectors.py:322-360 | A report is accepted only from the owner under its token, for a claimed or unknown call, and recorded once. |
| `ConnectorLaws.QueueLaw` | src/ehai/application/connectors.py:127-168 | Queueing appends exactly the requested call, for the first action of that name and version, or is refused for what stops it. |
| `ConnectorLaws.InvokeLaw` | src/ehai/application/connectors.py:223-244 | Under a new key an answered invocation appends exactly the requested call with its write authorization and records the answer; a refused one changes nothing; under a used key the recorded answer or a conflict is returned. |
| `ConnectorLaws.ReconcileLaw` | src/ehai/application/connectors.py:276-295 | Under a new key an unknown call is claimed again under its old claim, with all that is known of it; any other is refused. |
| `ConnectorLaws.ClaimLaw` | src/ehai/application/connectors.py:297-320 | A worker with the credential of the connector gets the first call it holds, else the first queued one under a new token, and nothing exactly when there is neither. |
| `ConnectorLaws.ReportLaw` | src/ehai/application/connectors.py:322-360 | Under a new key a report under the claim of a call that is not final records exactly the reported result, leaves request and claim as they were, and changes no other call; any other is refused without effect. |
| `Connectors.ApplyKeeps` | src/ehai/application/connectors.py:127-360 | Every transaction keeps the calls valid and changes them only along their life cycle. |
| `ConnectorLifecycle.ExecuteOnce` | src/ehai/application/connectors.py:297-320 | Over all interleavings, calls queued by runs included, a call is handed out for execution at most once. |
| `ConnectorLifecycle.OneOwner` | src/ehai/application/connectors.py:297-320 | A call is only ever handed out to one worker under one token. |
| `ConnectorLifecycle.ClaimOrigin` | src/ehai/application/connectors.py:297-320 | Every claim comes from one earlier hand-out for execution. |
| `ConnectorLifecycle.ResultNeedsHandout` | src/ehai/application/connectors.py:322-360 | A result is recorded only for a call that was handed out before, under its token and exactly as reported, and changes no other call. |
| `ConnectorLifecycle.CallWasAskedFor` | src/ehai/application/connectors.py:127-168 | Every call is what an earlier request asked for, with its action, inputs and write authorization, allowed and conforming when it was made. |
| `ConnectorLifecycle.FinalAndAuthorized` | src/ehai/application/connectors.py:143-144 | Completed and failed calls never change again, and every call that may write was created with write authorization. |
| `ConnectorLifecycle.Replayed` | src/ehai/application/idempotency.py:33-75 | A request repeated with its key and content gets the recorded answer and has no second effect. |
| `ConnectorLifecycle.KeyReuseRefused` | src/ehai/application/idempotency.py:44-50 | A second request under a used key with different content is refused without effect. |
| `ConnectorLifecycle.ReceiptWasAnswered` | src/ehai/application/idempotency.py:33-75 | Every receipt is the answer to an earlier request, so a key conflicts only with a request that was answered before. |
| `PlanIntegrity.EditKeeps` | src/ehai/application/plan_graph_tools.py:374-912 | Every accepted tool call keeps the draft sound: all references exist and every entry is well formed. |
| `PlanEdits.EditIs` | src/ehai/application/plan_graph_tools.py:374-912 | A tool call is accepted exactly when its arguments are complete and allowed, and then exactly its entry comes, goes or changes: added at the end, replaced in place with the defaults of an update, or taken out with the others closing up; every other entry and table is as before. |
| `PlanEdits.RemoveEdgeIs` | src/ehai/application/plan_graph_tools.py:563-586 | Removing an edge takes out exactly one: the named one, else the first with the same ends and kind; the others keep value and order. |
| `PlanEdits.RejectionIsTrue` | src/ehai/application/plan_graph_tools.py:374-912 | A rejected tool call is blamed for something that is so. |
| `PlanIntegrity.AlwaysSound` | src/ehai/application/plan_graph_tools.py:344-372 | After any sequence of tool calls on a sound draft the draft is sound. |
| `PlanIntegrity.FreshDraftIsSound` | src/ehai/application/plan_graph_tools.py:141-175 | After any sequence of tool calls on a fresh draft the draft is sound. |
| `PlanIntegrity.RemoveNodeKeeps` | src/ehai/application/plan_graph_tools.py:443-489 | Removing a node with its edges and gate leaves no dangling reference. |
| `PlanIntegrity.MoveKeepsBindings` | src/ehai/application/plan_graph_tools.py:823-912 | Moving a gate keeps the one-to-one binding between gates, owners and check groups. |
| `PlanIntegrity.GatesConserved` | src/ehai/application/plan_graph_tools.py:823-912 | No sequence of tool calls adds or loses a retained gate, changes its check group, or lets two gates share an owner. |
| `PlanProcess.SeedGates` | src/ehai/application/plan_graph_tools.py:277-304 | The seed of retained gates is accepted exactly when every owner had checks, still exists and is named once, and then binds every gate to its original checks. |
| `PlanProcess.SeedProcess` | src/ehai/application/plan_graph_tools.py:277-316 | A process seed is refused exactly when a gate cannot be kept or no gate owns the one terminal node; else its final gate is the gate that owns that node. |
| `PlanProcess.GatesAreKept` | src/ehai/application/plan_graph_tools.py:823-912 | Whatever tool calls follow, every gate of the process has one owner of its own, an existing node that can own one, with the checks of its original owner. |
| `PlanProcess.AcceptedKeepsGates` | src/ehai/application/plan_graph_tools.py:1244-1311 | An accepted process plan has the original final gate, with its original checks, on the reviewer of its last phase, and every original gate on one owner of its own. |
| `PlanProcess.TemplateKeepsFinalGate` | src/ehai/application/plan_graph_tools.py:1687-1766 | The template binds the final gate and its checks to its final node. |
| `PlanRuntime.PlanGraphToolRuntime.RemoveNode` | src/ehai/application/plan_graph_tools.py:443-489 | The tool changes the draft exactly as specified, or is rejected without effect. |
| `PlanRuntime.PlanGraphToolRuntime.AddEdge` | src/ehai/application/plan_graph_tools.py:491-561 | The tool changes the draft exactly as specified, or is rejected without effect. |
| `PlanRuntime.PlanGraphToolRuntime.SetPhase` | src/ehai/application/plan_graph_tools.py:638-700 | The tool changes the draft exactly as specified, or is rejected without effect. |
| `PlanRuntime.PlanGraphToolRuntime.MoveProcessGate` | src/ehai/application/plan_graph_tools.py:823-912 | Both binding tables change together or not at all. |
| `PlanRuntime.PlanGraphToolRuntime.Mutate` | src/ehai/application/plan_graph_tools.py:344-372 | A mutation is refused once the plan is finished or 128 were made; every other one counts, and a rejected one leaves the draft as it was. |
| `PlanRuntime.PlanGraphToolRuntime.Finish` | src/ehai/application/plan_graph_tools.py:939-986 | Accepts exactly the drafts without a fault, provided no planner event is blank; the template it hands out passes every constructor check and describes the draft from then on; a refusal lists only real faults and counts as a failed validation. |
| `PlanOrder.Count` | src/ehai/application/plan_graph_tools.py:1314-1320 | The counters and lists are those of the known edges, counted with multiplicity. |
| `PlanOrder.Release` | src/ehai/application/plan_graph_tools.py:1324-1330 | Taking a node away lowers every counter by its number of edges and queues exactly the nodes that reach zero. |
| `PlanOrder.Peel` | src/ehai/application/plan_graph_tools.py:1321-1332 | When nothing is available any more, the nodes left over are exactly those that a cycle leads to. |
| `PlanOrder.ValidateCycle` | src/ehai/application/plan_graph_tools.py:1313-1353 | Nothing is reported exactly when the graph is acyclic; otherwise the first edge between two nodes that a cycle leads to, which always exists. |
| `PlanOrder.ReverseReachable` | src/ehai/application/plan_graph_tools.py:1659-1672 | The backward search returns exactly the allowed nodes with a path to the target inside the allowed ones. |
| `PlanChecks.CheckSink` | src/ehai/application/plan_graph_tools.py:1031-1077 | Reports exactly the faults of the single terminal node and its gate. |
| `PlanChecks.CheckGates` | src/ehai/application/plan_graph_tools.py:1078-1113 | Reports exactly the gates on unknown or unsuitable nodes and a missing final gate. |
| `PlanChecks.CheckQuestions` | src/ehai/application/plan_graph_tools.py:1191-1221 | Reports exactly the node gates whose question the end of the plan or an earlier gate already asks. |
| `PlanChecks.CheckCycle` | src/ehai/application/plan_graph_tools.py:1313-1353 | Reports exactly the first edge between nodes that a cycle leads to, and nothing exactly on acyclic plans. |
| `PlanChecks.CheckNodes` | src/ehai/application/plan_graph_tools.py:1116-1175 | Reports exactly the unused forks, merges and evaluators and the reviewers without dependency or gate. |
| `PlanBranches.GroupBranches` | src/ehai/application/plan_graph_tools.py:1357-1359 | The groups hold exactly the branches of each fork and merge pair, in order. |
| `PlanBranches.CheckExploration` | src/ehai/application/plan_graph_tools.py:1355-1508 | Reports exactly the faults of fork groups, branch paths, evaluators, merges and crossing edges. |
| `PlanPhases.Place` | src/ehai/application/plan_graph_tools.py:1542-1553 | Puts the nodes of a phase into the index; silence means they were in no phase before. |
| `PlanPhases.ValidatePhases` | src/ehai/application/plan_graph_tools.py:1517-1657 | Reports only real faults, and none exactly when the phases partition the nodes, each is reviewed as a whole, and edges between phases only go forward from gates. |
| `PlanValidation.CheckRetained` | src/ehai/application/plan_graph_tools.py:1244-1311 | Reports only real faults of the retained bindings, and none exactly when there is none. |
| `PlanValidation.Usage` | src/ehai/application/plan_graph_tools.py:1678-1685 | The usage is the size of the widest group, of the longest branch, and of the node table. |
| `PlanValidation.ValidateGraph` | src/ehai/application/plan_graph_tools.py:988-1186 | The whole validation: every finding is a real fault, and nothing is found exactly when the draft is accepted. |
| `PlanAcceptance.AcceptedIsWellPlanned` | src/ehai/application/plan_graph_tools.py:988-1186 | A sound draft is accepted exactly when its tables are well planned: one end that can own the final gate, each question asked once, no cycle, forks whose branches are complete, judged and merged by that judgement alone, phases that partition the nodes and follow each other gate by gate, and the budget kept. |
| `PlanAcceptance.ExplorationIs` | src/ehai/application/plan_graph_tools.py:1355-1508 | The exploration is without fault exactly when every branch has its kinds, siblings, steps, judge and merge, no edge leads from one sibling into another, and every evaluator judges a group. |
| `PlanTheorems.AcceptedIsAcyclic` | src/ehai/application/plan_graph_tools.py:1313-1353 | An accepted draft has no cycle. |
| `PlanTheorems.GatesBehind` | src/ehai/application/plan_graph_tools.py:1632-1656 | In an accepted plan every node of a phase has the gates of all earlier phases among its ancestors. |
| `PlanTheorems.PathForward` | src/ehai/application/plan_graph_tools.py:1602-1631 | In an accepted plan no path leads to an earlier phase, and a path that leaves a phase goes through its gate. |
| `PlanTheorems.SinkIsLastGate` | src/ehai/application/plan_graph_tools.py:1031-1041 | In an accepted plan the only node without an outgoing edge is the gate of the last phase. |
| `PlanTheorems.AcceptedInOrder` | src/ehai/application/plan_graph_tools.py:1517-1672 | Acceptance forces the global order: phases partition the nodes, gates stand between phases, and everything leads to one final reviewer. |
| `PlanTheorems.ForkToMerge` | src/ehai/application/plan_graph_tools.py:1388-1452 | In an accepted plan the fork, every node of every branch, one evaluator and the merge come in this order, and the merge takes nothing from inside a branch. |
| `PlanTemplate.Compose` | src/ehai/application/plan_graph_tools.py:1687-1766 | The template holds every table entry in order, with the dependencies and the final node of the draft. |
| `PlanTemplate.AcceptedComposes` | src/ehai/application/planner.py:460-607 | The template of an accepted draft passes every constructor check exactly when no planner event it is to name is blank; no check on the graph can fail. |
| `PlanTemplate.MembersFit` | src/ehai/application/planner.py:490-494 | The phase lists name every node exactly once. |
| `PlanTemplate.RetainedAreOk` | src/ehai/application/planner.py:609-671 | The retained bindings pass the binding checks of the template. |
| `PlannerCapacity.Planner.Acquire` | src/ehai/application/planner_capacity.py:54-66 | A live inherited lease is shared; otherwise a slot is taken, or the request refused when the capacity is used up. |
| `PlannerCapacity.Planner.Release` | src/ehai/application/planner_capacity.py:70-73 | A reference is given back, and the slot with the last one. |
| `PlannerCapacity.AlwaysCounted` | src/ehai/application/planner_capacity.py:45-73 | Under any interleaving the counter equals the number of leases with references and stays within the capacity, and references equal open slots. |
| `PlannerCapacity.AdmittedExactly` | src/ehai/application/planner_capacity.py:54-66 | A context whose lease an open slot holds shares it and takes up nothing; any other gets a lease that no slot holds exactly while fewer leases are held than the capacity allows. |
| `PlannerCapacity.ClosedExactly` | src/ehai/application/planner_capacity.py:68-73 | A closed slot gives back one reference, and the capacity exactly when no other slot holds its lease. |
| `PlannerCapacity.ExpiredStaysExpired` | src/ehai/application/planner_capacity.py:54-66 | A lease that reached zero never becomes live again, whatever contexts still hold it. |
| `PlannerCapacity.OpenSlotIsLive` | src/ehai/application/planner_capacity.py:68-73 | An open slot can always be left: its lease is live and the counter positive. |
| `PlannerCapacity.DrainedIsFree` | src/ehai/application/planner_capacity.py:68-73 | When every slot was left, nothing is in use. |
| `BlockLineage.Build` | src/ehai/application/process_blocks.py:31-99 | Refused exactly when the mapping leaves its revisions, shares a predecessor, drops a retained identity or keeps the identity of a changed node, and for a reason that is so; otherwise the manifest of the specification. |
| `LineageLaws.LinkableIs` | src/ehai/application/process_blocks.py:31-91 | Accepted are exactly the mappings from new nodes to old ones, one to one, in which a node that was there goes to itself with the same definition and inputs. |
| `LineageLaws.ManifestIs` | src/ehai/application/process_blocks.py:63-99 | A built manifest says of every new node its block, version, previous node and exactly the fields that differ, or the identity alone; then it lists the old nodes that nothing continues, in their order. |
| `BlockLineage.NewNodeOnce` | src/ehai/application/process_blocks.py:63-91 | Every new node has exactly one entry. |
| `BlockLineage.OldNodeOnce` | src/ehai/application/process_blocks.py:92-99 | Every old node has exactly one entry, as removed exactly when nothing continues it. |
| `BlockLineage.VersionLaw` | src/ehai/application/process_blocks.py:81-91 | A continued node stays in its block; its version rises by one exactly when its identity changes, and otherwise definition and inputs are the same. |
| `BlockLineage.EntriesAreOk` | src/ehai/domain/blocks.py:34-57 | No entry of a built manifest can be refused by its constructor. |
| `BlockLineage.LiveBlocksExactly` | src/ehai/application/process_blocks.py:63-91 | Live blocks stay distinct exactly when no added node takes over the identity of a carried block. |
| `BlockLineage.ListedOnceExactly` | src/ehai/domain/process.py:95-107 | A built manifest lists blocks, nodes and previous nodes once, removed entries included, exactly when no added node takes over the identity of the block of an old node. |
| `BlockLineage.BuiltRecords` | src/ehai/application/process_blocks.py:109-113 | The predecessors read back from a manifest are those it was built from. |
| `BlockLineage.Validate` | src/ehai/application/process_blocks.py:102-115 | A revision is accepted exactly when it has no manifest or one that its own recorded predecessors build. |
| `BlockLineage.BuiltIsAccepted` | src/ehai/application/process_blocks.py:102-115 | Validation accepts what building produced. |
| `BlockLineage.ChainKeepsLineage` | src/ehai/application/process_blocks.py:23-115 | Along every chain of revisions that starts at a baseline, with fresh ids for new nodes and with or without a manifest at each revision, every manifest passes its constructors, every node has an entry and no two live nodes share a block. |
| `PhaseSessions.Sessions.Join` | src/ehai/application/phase_sessions.py:81-120 | Opens the session if there is none, joins once, and keeps nothing when refused. |
| `PhaseSessions.Sessions.Publish` | src/ehai/application/phase_sessions.py:171-237 | Publishes once per key, replays the first publication, and refuses other content. |
| `PhaseSessions.Sessions.Read` | src/ehai/application/phase_sessions.py:122-169 | Returns the first entries of the session after the offset, written by members. |
| `PhaseSessions.Sessions.FindOpened` | src/ehai/application/phase_sessions.py:359-397 | The loop over the log finds the one session of the run and phase, or its conflict. |
| `PhaseSessions.Sessions.CollectMembers` | src/ehai/application/phase_sessions.py:400-428 | The loop over the log collects the members, or their conflict. |
| `PhaseSessions.Sessions.CollectEntries` | src/ehai/application/phase_sessions.py:431-469 | The loop over the log collects the discussion entries after the offset. |
| `PhaseLaws.JoinLaw` | src/ehai/application/phase_sessions.py:81-120 | Joining leaves the attempt a member of the one session of its run and phase, opened if there was none; it is refused when the attempt has another binding or the session is not the one of its plan, and then leaves nothing. |
| `PhaseLaws.PublishLaw` | src/ehai/application/phase_sessions.py:171-237 | Only a member publishes, once under a key; otherwise the log stays, and the answer is the first publication or the reason. |
| `PhaseLaws.ReadLaw` | src/ehai/application/phase_sessions.py:122-169 | Only a member reads, exactly the entries of its session after the offset in order, up to the limit, all by members. |
| `PhaseLaws.OnlyMembersPublish` | src/ehai/application/phase_sessions.py:187-198 | Under any interleaving a publication is by an attempt that joined that session before. |
| `PhaseLaws.NextPageLaw` | src/ehai/application/phase_session_tools.py:69-116 | The reader gets the first eight entries after its cursor, and nothing exactly when there is none. |
| `PhaseLaws.CursorIsLargest` | src/ehai/application/phase_session_tools.py:69-95 | The cursor is the largest next offset of the pages persisted for the session. |
| `PhaseDelivery.JoinKeepsLog` | src/ehai/application/phase_sessions.py:329-356 | Joining keeps at most one session per run and phase and one membership per session and attempt. |
| `PhaseDelivery.PublishKeepsLog` | src/ehai/application/phase_sessions.py:198-237 | Publishing keeps at most one publication per session, attempt and key. |
| `PhaseDelivery.RepublishIsIdempotent` | src/ehai/application/phase_sessions.py:198-219 | An accepted publication names an entry with its key and content, appended only the first time. |
| `PhaseDelivery.Provider.BeforeStep` | src/ehai/application/phase_session_tools.py:69-116 | The cursor is the largest one persisted for the session, and the page is what follows it. |
| `PhaseDelivery.AlwaysInStep` | src/ehai/application/phase_session_tools.py:69-116 | Under any interleaving of joins, publications, reads, persisted pages and crashes, what the reader persisted is exactly a prefix of what was published. |
| `PhaseDelivery.NothingNewMeansAllDelivered` | src/ehai/application/phase_session_tools.py:96-98 | When a read finds nothing new, everything published was delivered. |
| `PhaseDelivery.OnePublicationPerKey` | src/ehai/application/phase_sessions.py:198-219 | Under any interleaving an attempt of one run and phase publishes at most once under a key. |
| `PhaseDelivery.LogOnlyGrows` | src/ehai/application/phase_sessions.py:81-237 | No action removes or changes a logged event. |
| `StartupRecovery.RecoverRun` | src/ehai/application/checkpointing.py:70-250 | The three passes over attempts, checks and nodes leave the run of the specification, report exactly what they changed, record it as facts of that run, and pause it unless nothing changed and something durable is waited for. |
| `RecoveryLaws.RecoveredIsRestarted` | src/ehai/application/checkpointing.py:70-250 | A recovered run is exactly this: running attempts and checks that no person answers are interrupted; nodes at work fail that were cut off or whose result is not proven by completed or human checks; and it is paused exactly when something changed or nothing is left to wait for. |
| `RecoveryLaws.ReportNames` | src/ehai/application/checkpointing.py:233-258 | The report names exactly the runs that stop, the attempts that were running and the checks that were abandoned in running runs. |
| `RecoveryLaws.NothingIsLeftRunning` | src/ehai/application/checkpointing.py:80-215 | Afterwards no attempt runs, no check runs without a person, no node is a candidate, and a node in verification is proven. |
| `StartupRecovery.RecoveryService.RecoverStartup` | src/ehai/application/checkpointing.py:64-258 | Every running run is recovered, the others stay as they are, and the report and the recorded facts list exactly what was changed. |
| `StartupRecovery.NothingRuns` | src/ehai/application/checkpointing.py:80-215 | Afterwards no recovered run has a running attempt or a running check that no person answers, and what is still in verification is durably verified. |
| `StartupRecovery.UnpausedIsUntouched` | src/ehai/application/checkpointing.py:216-232 | A run that recovery leaves running was not changed in any way. |
| `StartupRecovery.RecoverTwice` | src/ehai/application/checkpointing.py:64-258 | A second recovery changes nothing, records nothing and returns an empty report. |
| `StartupRecovery.RecoveryIsIdempotent` | src/ehai/application/checkpointing.py:64-258 | Recovering a recovered run is the identity. |
| `ProcessAdjustments.Coordinator.PendingRuns` | src/ehai/application/process_adjustments.py:212-227 | Reads exactly the events after the cursor; a faithful coordinator then remembers what reading all of the log gives, and offers the pending runs without a terminal fact. |
| `ProcessAdjustments.Coordinator.Prepare` | src/ehai/application/process_adjustments.py:447-615 | One transaction holds, skips or starts the latest pause exactly as specified, and keeps the memory faithful. |
| `ProcessAdjustments.Coordinator.Skip` | src/ehai/application/process_adjustments.py:647-683 | A skip is recorded once, and never beside another terminal fact; the memory stays faithful. |
| `ProcessAdjustments.Coordinator.Finish` | src/ehai/application/process_adjustments.py:685-732 | A finish is recorded once, and never beside another terminal fact; the memory stays faithful. |
| `ProcessAdjustments.Coordinator.FindTerminal` | src/ehai/application/process_adjustments.py:823-836 | The loop finds the one terminal fact of a trigger, or reports two. |
| `AdjustmentLaws.PrepareLaw` | src/ehai/application/process_adjustments.py:447-615 | A pause is started exactly when it is the latest control event of a paused run, eligible, neither started nor ended, authorized with budget left, and safe; it is skipped when the authorization fails or the run has come to rest unsafe; an ended one returns its end, and else nothing is recorded. |
| `AdjustmentLaws.FinishLaw` | src/ehai/application/process_adjustments.py:685-732 | A trigger ends once: with the new fact, or as it had ended before. |
| `AdjustmentAccounting.AlwaysInOrder` | src/ehai/application/process_adjustments.py:447-732 | Under any interleaving every trigger has at most one start and one terminal fact, a skipped one was never started, and a finished one was. |
| `AdjustmentAccounting.OneTerminal` | src/ehai/application/process_adjustments.py:823-836 | The search for the terminal fact never finds two. |
| `AdjustmentAccounting.BudgetHolds` | src/ehai/application/process_adjustments.py:535-544 | The starts of a goal never exceed what its authorizations allow. |
| `AdjustmentAccounting.PendingIsWaiting` | src/ehai/application/process_adjustments.py:757-785 | After reading the log a run is pending exactly when its latest control event is an eligible pause that was neither started nor ended. |
| `AdjustmentAccounting.AlwaysKeeps` | src/ehai/application/process_adjustments.py:757-785 | Under any interleaving of coordinators, restarts and cancellations, a coordinator remembers for every run what the part of the log it has read gives, apart from runs cancelled at it. |
| `AdjustmentAccounting.OfferedExactly` | src/ehai/application/process_adjustments.py:212-227 | Under any such interleaving a coordinator that reads the log offers exactly the waiting runs, apart from those cancelled at it since it read their pause. |
| `AdjustmentAccounting.OffersWhatWaits` | src/ehai/application/process_adjustments.py:757-785 | Without cancellation since its last start a coordinator offers exactly the waiting runs: incremental reading equals reading the whole log, whether it ran all along or started anew. |
| `AdjustmentAccounting.CoordinatorsAgree` | src/ehai/application/process_adjustments.py:212-227 | Coordinators that were not cancelled offer the same runs. |
| `ProcessAdjustments.CatchUpIsFold` | src/ehai/application/process_adjustments.py:757-785 | From a faithful memory, reading the rest of the log gives what reading all of it gives. |
| `ProcessAdjustments.FaithfulAmongOthers` | src/ehai/application/process_adjustments.py:757-785 | Whatever others append, the memory of a coordinator stays faithful. |

## Left out

- JSON Schema validation, regular expressions, Unicode normalisation, SHA-256, HMAC, credentials and text redaction: library behaviour, a parameter or equality of content here.
- SQLite stores, HTTP, CLI and MCP layers, the TypeScript client, pages and the desktop shell: input and output only.
- `async_runtime.py`, `orchestrator.py`, `agent_contracts.py`, `process_obligations.py`, `process_changes.py`: they rest on code that is not part of this model.
- `notes.py`, `inbox.py`, `interventions.py`, `handoffs.py`, `commands.py`: field-by-field validation with easy members.
- Wording of messages: problems, issues and errors are codes with related keys, and are collected as sets, so repetitions and their order are not modelled. Arguments of the wrong JSON type are one tool call that is always rejected as an invalid argument.
- Workflow definitions: revision numbers, digests, `expected_revision` and the command receipts around the workflow service; the stored snapshot of a definition is the definition itself.
- Workflow records: `execution_index`, timestamps other than those of waits and decisions, and the event of a commit. Error texts of failed steps are one constant.
- Numbers: JSON floats are reals, so negative zero and rounding are not modelled.
- Connector manifests: `receive`, the events of a connector and the registration receipt; a connector keeps its manifest once registered, as in the store.
- `from_process` of the plan runtime: the comparison of the frozen process with the current graph. `SeedProcess` covers the gates and the choice of the final gate; its graph is taken as sound, and its gates as lying on nodes that can own one, since they come from domain objects that are not part of this model.
- `inspect_plan`, tool definitions and prompt text: no effect on the draft.
- Length limits of tool arguments other than gate arguments: the tool schemas are not part of this model.
- `build_plan_proposal` and `GraphPatch`: they build domain objects that are not part of this model; the target here is the `PlanTemplate` they start from.
- Planner admission: lease objects are indices into a table of reference counts, and a context is the lease it holds; the lock makes each operation one step.
- Block lineage: `node_input_scope` is an input of each node, and the changed fields of an entry are a set because their order is fixed.
- Phase Sessions: the context of an attempt is an input, so its checks against run, attempt and plan status are not modelled; a reader asks for the session it was given when it joined. Handoff facts are appended by others, in any form.
- Startup recovery: reasons, timestamps and checkpoints (`restore_latest`), and the order of the events of different kinds among each other.
- Process adjustments: the model calls, the rechecks between them and the joining of child tasks inside `advance`; a started adjustment may finish or be lost at any time. The checks of `_prepare` that do not look at adjustment facts are inputs.

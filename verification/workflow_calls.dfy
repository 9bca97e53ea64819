/** The calls of workflow runs in the hands of connector workers. Every world is reached by a trace
    of connector transactions in which the runs queue calls, so what holds of the life of a call over
    all interleavings holds of the calls of runs. */
module WorkflowCalls {
  import opened Values
  import opened Graphs
  import opened Definitions
  import opened EngineSpec
  import opened RunTrail
  import opened RunChildren
  import opened RunSafety
  import opened RunTransactions
  import opened WorkflowWorld
  import opened WorkflowTheorems
  import C = Connectors
  import L = ConnectorLifecycle
  import Laws = ConnectorLaws

  // ---- A transaction of the engine queues at most one call

  ghost predicate QueuedBy(lib: Library, s: C.State, t: C.State, q: C.Event) {
    q.Queue? && t == C.Apply(lib, s, q).state
  }

  /** The calls are as before, or one more was queued. */
  ghost predicate QueuesOne(lib: Library, s: C.State, t: C.State) {
    t == s || exists q :: QueuedBy(lib, s, t, q)
  }

  lemma ActionQueues(env: Env, tx: Tx, step: Step)
    requires step.ActionStep? && RunAction(env, tx, step).Halt?
    ensures QueuesOne(env.lib, tx.connectors, RunAction(env, tx, step).tx.connectors)
  {
    var inputs := EvalFields(env.lib, tx.run, step.inputs);
    if inputs.Some? {
      var q := C.Queue(step.connector, step.action, step.version, inputs.value, Authorizes(step));
      assert RunAction(env, tx, step).tx.connectors != tx.connectors ==>
          QueuedBy(env.lib, tx.connectors, RunAction(env, tx, step).tx.connectors, q);
    }
  }

  /** A step that goes on leaves the calls alone. */
  lemma AdvanceQueues(env: Env, tx: Tx, step: Step)
    ensures Advance(env, tx, step).Goto? ==> Advance(env, tx, step).tx.connectors == tx.connectors
    ensures Advance(env, tx, step).Halt? ==> QueuesOne(env.lib, tx.connectors, Advance(env, tx, step).tx.connectors)
  {
    if step.ActionStep? && RunAction(env, tx, step).Halt? {
      ActionQueues(env, tx, step);
    }
  }

  lemma {:induction false} LoopQueues(env: Env, steps: Steps, start: Id, tx: Tx, node: Id)
    requires Sound(steps, start) && node in steps && Loop(env, steps, start, tx, node).Done?
    ensures QueuesOne(env.lib, tx.connectors, Loop(env, steps, start, tx, node).tx.connectors)
    decreases ReachSet(EdgesOf(steps), steps.Keys, node)
  {
    AdvanceQueues(env, tx, steps[node]);
    match Advance(env, tx, steps[node])
    case Halt(_) =>
    case Goto(after, next) =>
      AdvanceFollowsEdge(env, tx, steps[node]);
      ReachSetShrinks(EdgesOf(steps), steps.Keys, node, next);
      LoopQueues(env, steps, start, after, next);
  }

  lemma EnterQueues(env: Env, steps: Steps, start: Id, tx: Tx, node: Id)
    requires Sound(steps, start) && node in steps && Enter(env, steps, start, tx, node).Done?
    ensures QueuesOne(env.lib, tx.connectors, Enter(env, steps, start, tx, node).tx.connectors)
  {
    LoopQueues(env, steps, start, tx.(run := WithStatus(tx.run, RunStatus.Running)), node);
  }

  lemma ResumeQueues(env: Env, steps: Steps, start: Id, tx: Tx, move: Move)
    requires Sound(steps, start) && (move.Goto? ==> move.node in steps) && Resume(env, steps, start, move).Done?
    requires !move.Abort? ==> move.tx.connectors == tx.connectors
    ensures QueuesOne(env.lib, tx.connectors, Resume(env, steps, start, move).tx.connectors)
  {
    if move.Goto? {
      EnterQueues(env, steps, start, move.tx, move.node);
    }
  }

  /** The first move of a transaction leaves the calls alone. */
  lemma BeginQueues(lib: Library, w: World, e: Event)
    requires Inv(w) && Admitted(lib, w, e)
    ensures var b := Begin(lib, w, e); b.tx.connectors == w.connectors
                                       && (!b.move.Abort? ==> b.move.tx.connectors == w.connectors)
  {
  }

  lemma NextQueues(lib: Library, w: World, e: Event)
    requires Inv(w) && !e.Connector?
    ensures QueuesOne(lib, w.connectors, Next(lib, w, e).connectors)
  {
    if Effect(lib, w, e).Some? {
      var b := Begin(lib, w, e);
      BeginQueues(lib, w, e);
      ResumeQueues(Env(lib, e.now), StepsOf(b.tx.run), b.tx.run.record.body.start, b.tx, b.move);
    }
  }

  // ---- The trace of connector transactions behind a world

  ghost function StepTrace(lib: Library, w: World, e: Event): (trace: seq<C.Event>)
    requires Inv(w)
    ensures |trace| <= 1
    ensures Next(lib, w, e).connectors == if trace == [] then w.connectors
            else C.Apply(lib, w.connectors, trace[0]).state
    ensures if e.Connector? then trace == [e.event] else trace == [] || trace[0].Queue?
  {
    if e.Connector? then [e.event]
    else if Next(lib, w, e).connectors == w.connectors then []
    else
      NextQueues(lib, w, e);
      var q :| QueuedBy(lib, w.connectors, Next(lib, w, e).connectors, q);
      [q]
  }

  /** The connector events of the world, with the calls queued by runs in their places. */
  ghost function CallTrace(lib: Library, events: seq<Event>): seq<C.Event> {
    if events == [] then []
    else
      var n := |events| - 1;
      CallTrace(lib, events[..n]) + StepTrace(lib, After(lib, events[..n]), events[n])
  }

  lemma Extended(lib: Library, front: seq<C.Event>, more: seq<C.Event>)
    requires |more| <= 1
    ensures L.After(lib, front + more) == if more == [] then L.After(lib, front)
            else C.Apply(lib, L.After(lib, front), more[0]).state
  {
    if more == [] {
      assert front + more == front;
    } else {
      assert (front + more)[..|front|] == front;
    }
  }

  /** The trace leads to the connector state of the world. */
  lemma {:induction false} TraceReaches(lib: Library, events: seq<Event>)
    ensures L.After(lib, CallTrace(lib, events)) == After(lib, events).connectors
    decreases |events|
  {
    if events != [] {
      var n := |events| - 1;
      TraceReaches(lib, events[..n]);
      Extended(lib, CallTrace(lib, events[..n]), StepTrace(lib, After(lib, events[..n]), events[n]));
    }
  }

  /** Where the trace stands when event `i` happens. */
  ghost function Place(lib: Library, events: seq<Event>, i: nat): nat
    requires i <= |events|
  {
    |CallTrace(lib, events[..i])|
  }

  lemma PlaceNext(lib: Library, events: seq<Event>, i: nat)
    requires i < |events|
    ensures CallTrace(lib, events[..i + 1]) == CallTrace(lib, events[..i])
            + StepTrace(lib, After(lib, events[..i]), events[i])
  {
    assert events[..i + 1][..i] == events[..i];
  }

  lemma {:induction false} TraceGrows(lib: Library, part: seq<Event>, events: seq<Event>)
    requires part <= events
    ensures CallTrace(lib, part) <= CallTrace(lib, events)
    decreases |events|
  {
    if |part| < |events| {
      TraceGrows(lib, part, events[..|events| - 1]);
    } else {
      assert part == events;
    }
  }

  lemma PrefixState(lib: Library, trace: seq<C.Event>, part: seq<C.Event>)
    requires part <= trace
    ensures trace[..|part|] == part && L.Before(lib, trace, |part|) == L.After(lib, part)
  {
  }

  /** The trace up to event `i` is a prefix of the whole, and leads to the world in which it happens. */
  lemma PlaceIs(lib: Library, events: seq<Event>, i: nat)
    requires i <= |events|
    ensures Place(lib, events, i) <= |CallTrace(lib, events)|
    ensures CallTrace(lib, events[..i]) == CallTrace(lib, events)[..Place(lib, events, i)]
    ensures L.Before(lib, CallTrace(lib, events), Place(lib, events, i)) == After(lib, events[..i]).connectors
  {
    TraceGrows(lib, events[..i], events);
    PrefixState(lib, CallTrace(lib, events), CallTrace(lib, events[..i]));
    TraceReaches(lib, events[..i]);
  }

  /** A connector event of the world takes place in the trace as it does in the world. */
  lemma TakesPlace(lib: Library, events: seq<Event>, i: nat)
    requires i < |events|
    ensures Place(lib, events, i) <= Place(lib, events, i + 1) <= Place(lib, events, i) + 1
    ensures Place(lib, events, i + 1) <= |CallTrace(lib, events)|
    ensures L.Before(lib, CallTrace(lib, events), Place(lib, events, i)) == After(lib, events[..i]).connectors
    ensures Place(lib, events, i) < Place(lib, events, i + 1) && !events[i].Connector? ==>
              CallTrace(lib, events)[Place(lib, events, i)].Queue?
    ensures events[i].Connector? ==>
              && Place(lib, events, i) < Place(lib, events, i + 1)
              && CallTrace(lib, events)[Place(lib, events, i)] == events[i].event
  {
    PlaceNext(lib, events, i);
    PlaceIs(lib, events, i);
    PlaceIs(lib, events, i + 1);
    var step := StepTrace(lib, After(lib, events[..i]), events[i]);
    assert step != [] ==> CallTrace(lib, events)[Place(lib, events, i)] == step[0];
  }

  /** What the connectors answered to event `i`. */
  ghost function Answered(lib: Library, events: seq<Event>, i: nat): C.Response
    requires i < |events| && events[i].Connector?
  {
    C.Apply(lib, After(lib, events[..i]).connectors, events[i].event).response
  }

  lemma SameAnswer(lib: Library, events: seq<Event>, i: nat)
    requires i < |events| && events[i].Connector?
    ensures Place(lib, events, i) < |CallTrace(lib, events)|
    ensures Answered(lib, events, i) == L.ResponseAt(lib, CallTrace(lib, events), Place(lib, events, i))
    ensures CallTrace(lib, events)[Place(lib, events, i)] == events[i].event
  {
    TakesPlace(lib, events, i);
  }

  ghost predicate OriginAt(lib: Library, events: seq<Event>, k: nat, i: nat) {
    && i < |events| && k < |CallTrace(lib, events)|
    && events[i].Connector? && Place(lib, events, i) == k && events[i].event == CallTrace(lib, events)[k]
  }

  lemma OriginStays(lib: Library, events: seq<Event>, k: nat, i: nat)
    requires events != [] && OriginAt(lib, events[..|events| - 1], k, i)
    ensures OriginAt(lib, events, k, i)
  {
    var front := events[..|events| - 1];
    assert front[..i] == events[..i];
    TraceGrows(lib, front, events);
  }

  /** What is in the trace and was not queued by a run is an event of the world. */
  lemma {:induction false} Origin(lib: Library, events: seq<Event>, k: nat) returns (i: nat)
    requires k < |CallTrace(lib, events)| && !CallTrace(lib, events)[k].Queue?
    ensures OriginAt(lib, events, k, i)
    decreases |events|
  {
    var n := |events| - 1;
    if k < |CallTrace(lib, events[..n])| {
      i := Origin(lib, events[..n], k);
      OriginStays(lib, events, k, i);
    } else {
      i := n;
    }
  }

  // ---- The life of a call in the world

  /** Event `i` handed the call out under this claim. */
  ghost predicate Hands(lib: Library, events: seq<Event>, i: nat, id: nat, claim: C.Claim, mode: C.Mode) {
    && i < |events| && events[i].Connector? && events[i].event.ClaimNext? && events[i].event.worker == claim.owner
    && var r := Answered(lib, events, i);
    r.Handed? && r.call.id == id && r.token == claim.token && r.mode == mode
  }

  /** Over any events a call is handed out for execution at most once. */
  lemma ExecutedOnce(lib: Library, events: seq<Event>, i: nat, j: nat, id: nat, a: C.Claim, b: C.Claim)
    requires Hands(lib, events, i, id, a, C.ExecuteMode) && Hands(lib, events, j, id, b, C.ExecuteMode)
    ensures i == j
  {
    if i < j {
      ExecutedTwice(lib, events, i, j, id, a, b);
    } else if j < i {
      ExecutedTwice(lib, events, j, i, id, b, a);
    }
  }

  lemma ExecutedTwice(lib: Library, events: seq<Event>, i: nat, j: nat, id: nat, a: C.Claim, b: C.Claim)
    requires Hands(lib, events, i, id, a, C.ExecuteMode) && Hands(lib, events, j, id, b, C.ExecuteMode)
    ensures i >= j
  {
    if i < j {
      InOrder(lib, events, i, j);
      L.ExecuteOnce(lib, CallTrace(lib, events), Place(lib, events, i), Place(lib, events, j));
    }
  }

  lemma InOrder(lib: Library, events: seq<Event>, i: nat, j: nat)
    requires i < j < |events| && events[i].Connector? && events[j].Connector?
    ensures Place(lib, events, i) < Place(lib, events, j) < |CallTrace(lib, events)|
    ensures Answered(lib, events, i) == L.ResponseAt(lib, CallTrace(lib, events), Place(lib, events, i))
    ensures Answered(lib, events, j) == L.ResponseAt(lib, CallTrace(lib, events), Place(lib, events, j))
    ensures CallTrace(lib, events)[Place(lib, events, i)] == events[i].event
    ensures CallTrace(lib, events)[Place(lib, events, j)] == events[j].event
  {
    PlacesMove(lib, events, i, j);
    SameAnswer(lib, events, i);
    SameAnswer(lib, events, j);
  }

  lemma PlacesMove(lib: Library, events: seq<Event>, i: nat, j: nat)
    requires i < j < |events| && events[i].Connector?
    ensures Place(lib, events, i) < Place(lib, events, j)
  {
    PlaceNext(lib, events, i);
    assert events[..i + 1] <= events[..j];
    TraceGrows(lib, events[..i + 1], events[..j]);
  }

  /** Whenever a call is handed out, it is to the same worker under the same token. */
  lemma OneHolder(lib: Library, events: seq<Event>, i: nat, j: nat, id: nat, a: C.Claim, b: C.Claim, m: C.Mode,
                  n: C.Mode)
    requires Hands(lib, events, i, id, a, m) && Hands(lib, events, j, id, b, n)
    ensures a == b
  {
    if i < j {
      InOrder(lib, events, i, j);
      L.OneOwner(lib, CallTrace(lib, events), Place(lib, events, i), Place(lib, events, j));
    } else if j < i {
      InOrder(lib, events, j, i);
      L.OneOwner(lib, CallTrace(lib, events), Place(lib, events, j), Place(lib, events, i));
    }
  }

  /** A claim was handed out for execution by an event of the world. */
  lemma ClaimWasHanded(lib: Library, events: seq<Event>, id: nat) returns (i: nat)
    requires id < |After(lib, events).connectors.calls| && After(lib, events).connectors.calls[id].claim.Some?
    ensures Hands(lib, events, i, id, After(lib, events).connectors.calls[id].claim.value, C.ExecuteMode)
  {
    var trace := CallTrace(lib, events);
    var claim := After(lib, events).connectors.calls[id].claim.value;
    TraceReaches(lib, events);
    assert trace[..|trace|] == trace;
    L.ClaimOrigin(lib, trace, |trace|, id);
    var k :| 0 <= k < |trace| && L.HandsOut(lib, trace, k, id, claim);
    i := Origin(lib, events, k);
    SameAnswer(lib, events, i);
  }

  /** A call that moved on from the queue was handed out for execution by exactly one event, and
      whoever else was handed the call was the same worker under the same token. */
  ghost predicate ExecutedByOne(lib: Library, events: seq<Event>, id: nat) {
    exists i, claim :: Sole(lib, events, i, id, claim)
  }

  ghost predicate Sole(lib: Library, events: seq<Event>, i: nat, id: nat, claim: C.Claim) {
    && Hands(lib, events, i, id, claim, C.ExecuteMode)
    && (forall j, other, mode :: Hands(lib, events, j, id, other, mode) ==> other == claim
                                                                            && (mode.ExecuteMode? ==> j == i))
  }

  lemma MovedOnWasExecuted(lib: Library, events: seq<Event>, id: nat)
    requires id < |After(lib, events).connectors.calls|
    requires !After(lib, events).connectors.calls[id].call.status.Queued?
    ensures ExecutedByOne(lib, events, id)
  {
    var s := After(lib, events).connectors;
    assert C.EntryValid(s, id);
    var claim := s.calls[id].claim.value;
    var i := ClaimWasHanded(lib, events, id);
    forall j, other, mode | Hands(lib, events, j, id, other, mode)
      ensures other == claim && (mode.ExecuteMode? ==> j == i)
    {
      OneHolder(lib, events, i, j, id, claim, other, C.ExecuteMode, mode);
      if mode.ExecuteMode? {
        ExecutedOnce(lib, events, i, j, id, claim, other);
      }
    }
    assert Sole(lib, events, i, id, claim);
  }

  /** Every action step that a run has completed was executed by a connector under exactly one
      hand-out of the call it queued, to one worker under one token. */
  lemma CompletedActionExecutedOnce(lib: Library, events: seq<Event>, r: nat, k: nat)
    requires r < |After(lib, events).runs| && k < |After(lib, events).runs[r].executions|
    requires IsAction(StepsOf(After(lib, events).runs[r]), After(lib, events).runs[r].executions[k].node)
    requires After(lib, events).runs[r].executions[k].status.Completed?
    ensures Queued(After(lib, events).runs[r], k)
    ensures var run := After(lib, events).runs[r];
            ExecutedByOne(lib, events, ChildOf(run.invocations, run.executions[k].uid).value.data.call.value)
  {
    var w := After(lib, events);
    ActionAgrees(w, r, k);
    var run := w.runs[r];
    assert Agrees(w, run, k);
    MovedOnWasExecuted(lib, events, ChildOf(run.invocations, run.executions[k].uid).value.data.call.value);
  }

  /** Event `n` changed the call, and not by handing it out or back. */
  ghost predicate Records(lib: Library, events: seq<Event>, n: nat, id: nat) {
    && n < |events| && id < |After(lib, events[..n]).connectors.calls|
       && id < |After(lib, events[..n + 1]).connectors.calls|
    && After(lib, events[..n + 1]).connectors.calls[id] != After(lib, events[..n]).connectors.calls[id]
    && !After(lib, events[..n + 1]).connectors.calls[id].call.status.Claimed?
  }

  /** A changed call shows in the trace. */
  lemma RecordsInTrace(lib: Library, events: seq<Event>, n: nat, id: nat)
    requires Records(lib, events, n, id)
    ensures Place(lib, events, n) + 1 == Place(lib, events, n + 1) <= |CallTrace(lib, events)|
    ensures L.Before(lib, CallTrace(lib, events), Place(lib, events, n)) == After(lib, events[..n]).connectors
    ensures L.Before(lib, CallTrace(lib, events), Place(lib, events, n) + 1) == After(lib, events[..n + 1]).connectors
  {
    TakesPlace(lib, events, n);
    PlaceIs(lib, events, n + 1);
  }

  /** The event gave the call the result of the request, and left its request and claim alone. */
  ghost predicate ReportedAs(lib: Library, events: seq<Event>, n: nat, id: nat, r: C.Request)
    requires Records(lib, events, n, id) && r.ReportRequest?
  {
    var a, b := After(lib, events[..n]).connectors.calls[id], After(lib, events[..n + 1]).connectors.calls[id];
    Laws.ResultOf(a.call, r, b.call) && b.claim == a.claim
  }

  lemma RecordIsReport(lib: Library, events: seq<Event>, n: nat, id: nat) returns (j: nat, owner: C.Id)
    requires Records(lib, events, n, id)
    ensures events[n].Connector? && events[n].event.Report? && events[n].event.request.ReportRequest?
    ensures events[n].event.request.callId == id
    ensures ReportedAs(lib, events, n, id, events[n].event.request)
    ensures j < Place(lib, events, n) <= |CallTrace(lib, events)|
    ensures L.HandsOut(lib, CallTrace(lib, events), j, id, C.Claim(owner, events[n].event.request.token))
  {
    RecordsInTrace(lib, events, n, id);
    TakesPlace(lib, events, n);
    var trace, k := CallTrace(lib, events), Place(lib, events, n);
    L.ResultNeedsHandout(lib, trace, k, id);
    j, owner :| 0 <= j < k && L.HandsOut(lib, trace, j, id, C.Claim(owner, trace[k].request.token));
  }

  /** A result is recorded only by a report under the token of an earlier hand-out of the call, and exactly
      as reported. */
  lemma ResultWasReported(lib: Library, events: seq<Event>, n: nat, id: nat) returns (i: nat, owner: C.Id)
    requires Records(lib, events, n, id)
    ensures events[n].Connector? && events[n].event.Report? && events[n].event.request.ReportRequest?
    ensures events[n].event.request.callId == id
    ensures i < n && Hands(lib, events, i, id, C.Claim(owner, events[n].event.request.token), C.ExecuteMode)
    ensures ReportedAs(lib, events, n, id, events[n].event.request)
  {
    var j;
    j, owner := RecordIsReport(lib, events, n, id);
    i := Origin(lib, events, j);
    SameAnswer(lib, events, i);
    if n <= i {
      TraceGrows(lib, events[..n], events[..i]);
    }
  }

  /** A final result stays in every later world. */
  lemma ResultStays(lib: Library, events: seq<Event>, n: nat, id: nat)
    requires n <= |events| && id < |After(lib, events[..n]).connectors.calls|
    ensures id < |After(lib, events).connectors.calls|
    ensures C.Final(After(lib, events[..n]).connectors.calls[id].call.status) ==>
              After(lib, events).connectors.calls[id] == After(lib, events[..n]).connectors.calls[id]
  {
    var trace := CallTrace(lib, events);
    PlaceIs(lib, events, n);
    TraceReaches(lib, events);
    PrefixState(lib, trace, trace);
    L.FinalAndAuthorized(lib, trace, Place(lib, events, n), |trace|, id);
  }
}

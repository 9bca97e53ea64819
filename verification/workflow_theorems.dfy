/** What holds of every run in every reachable world, and over time. */
module WorkflowTheorems {
  import opened Values
  import opened Graphs
  import opened Definitions
  import opened EngineSpec
  import opened RunTrail
  import opened RunChildren
  import opened RunSafety
  import opened RunTransactions
  import opened WorkflowWorld
  import C = Connectors

  /** Any prefix of a settled run is a trail to the execution that follows it. */
  lemma PrefixTrail(run: Run, s: C.State, k: nat)
    requires Settled(run, s) && k < |run.executions|
    ensures Trail(StepsOf(run), run.record.body.start, run.executions[..k], run.executions[k].node)
  {
    var n := |run.executions| - 1;
    var front, prefix := run.executions[..n], run.executions[..k];
    var last, node := run.executions[n].node, run.executions[k].node;
    forall i | 0 <= i < k ensures PassedAt(StepsOf(run), prefix, node, i) {
      assert PassedAt(StepsOf(run), front, last, i);
      assert NodeAt(prefix, node, i + 1) == NodeAt(front, last, i + 1);
    }
    if k < n {
      assert PassedAt(StepsOf(run), front, last, k);
    }
  }

  // ---- What holds of a run

  /** The executed steps are a path from start without repetition; the run waits in exactly one
      execution, the last, or in none when it has ended, and it completes only at an end step. */
  ghost predicate Shaped(run: Run) {
    var n := |run.executions| - 1;
    && n >= 0
    && (var trail := TrailNodes(run.executions[..n], run.executions[n].node);
        PathFrom(EdgesOf(StepsOf(run)), run.record.body.start, run.executions[n].node, trail) && Distinct(trail))
    && (forall i :: 0 <= i < n ==> run.executions[i].status.Completed?)
    && !run.record.status.Running?
    && (run.record.status.Waiting? <==> run.executions[n].status.Waiting?)
    && (run.record.status.Failed? <==> run.executions[n].status.Failed?)
    && run.executions[n].node in StepsOf(run)
    && (run.record.status.Completed? ==> StepsOf(run)[run.executions[n].node].EndStep?)
  }

  lemma RunShape(w: World, r: nat)
    requires Inv(w) && r < |w.runs|
    ensures Shaped(w.runs[r])
  {
    var run := w.runs[r];
    assert SettledAt(w, r);
    var n := |run.executions| - 1;
    RunIsSound(w, r);
    TrailIsPath(StepsOf(run), run.record.body.start, run.executions[..n], run.executions[n].node);
    TrailDistinct(StepsOf(run), run.record.body.start, run.executions[..n], run.executions[n].node);
    if run.record.status.Waiting? {
      WaitsInLast(run, w.connectors);
    } else {
      TerminalWaitsNowhere(run, w.connectors);
    }
    forall i | 0 <= i < n ensures run.executions[i].status.Completed? {
      assert PassedAt(StepsOf(run), run.executions[..n], run.executions[n].node, i);
    }
  }

  /** A call was queued for execution `k`. */
  ghost predicate Queued(run: Run, k: nat)
    requires k < |run.executions|
  {
    var i := ChildOf(run.invocations, run.executions[k].uid);
    IsAction(StepsOf(run), run.executions[k].node) && i.Some? && i.value.data.call.Some?
  }

  /** The human step `h` completed before execution `k` in the same run with the decision "approve". */
  ghost predicate ApprovedBefore(run: Run, k: nat, h: Id)
    requires k < |run.executions|
  {
    exists j :: 0 <= j < k && Approved(run.executions[j], h)
  }

  /** Approval soundness: when a call was queued for a step with an approval step, that human step
      completed earlier in the same run with the decision "approve". */
  lemma ApprovalSound(w: World, r: nat, k: nat)
    requires Inv(w) && r < |w.runs| && k < |w.runs[r].executions| && Queued(w.runs[r], k)
    ensures var step := StepsOf(w.runs[r])[w.runs[r].executions[k].node];
            step.approval.Some? ==> ApprovedBefore(w.runs[r], k, step.approval.value)
  {
    var run := w.runs[r];
    var node := run.executions[k].node;
    if StepsOf(run)[node].approval.Some? {
      assert SettledAt(w, r);
      PrefixTrail(run, w.connectors, k);
      AcceptedAction(run.record.body, ProjectConnections(w.connectors.connections, run.record.project), node);
      ApprovalGiven(StepsOf(run), run.record.body.start, run.executions[..k], node, StepsOf(run)[node].approval.value);
    }
  }

  /** The call queued for execution `k` is the one the step asks for, and if it may write it was
      queued under the definer's standing permission or after an approval in the same run. */
  ghost predicate WriteAuthorized(w: World, run: Run, k: nat)
    requires k < |run.executions| && Queued(run, k)
  {
    var id := ChildOf(run.invocations, run.executions[k].uid).value.data.call.value;
    var step := StepsOf(run)[run.executions[k].node];
    && id < |w.connectors.calls|
    && Fits(w.connectors.calls[id].call, step, run.record.project, run.executions[k].inputs)
    && (w.connectors.calls[id].call.action.readOnly || step.standing
        || (step.approval.Some? && ApprovedBefore(run, k, step.approval.value)))
  }

  lemma WritesAuthorized(w: World, r: nat, k: nat)
    requires Inv(w) && r < |w.runs| && k < |w.runs[r].executions| && Queued(w.runs[r], k)
    ensures WriteAuthorized(w, w.runs[r], k)
  {
    var run := w.runs[r];
    assert SettledAt(w, r);
    assert SupportedAt(run, w.connectors.calls, k);
    assert C.EntryValid(w.connectors, ChildOf(run.invocations, run.executions[k].uid).value.data.call.value);
    ApprovalSound(w, r, k);
  }

  /** The reference names an input, or an earlier completed execution with an output. */
  ghost predicate Resolves(run: Run, k: nat, ref: Ref)
    requires k < |run.executions|
  {
    && !ref.BadRef?
    && (ref.StepRef? ==>
          && (exists j :: 0 <= j < k && run.executions[j].node == ref.step && run.executions[j].status.Completed?)
          && OutputOf(run.executions[..k], ref.step).Some?)
  }

  /** Reference soundness: every step output that an executed step reads was there when it was
      executed, from an earlier completed execution; only deeper keys can be missing. */
  lemma ReadsResolve(w: World, r: nat, k: nat, ref: Ref)
    requires Inv(w) && r < |w.runs| && k < |w.runs[r].executions|
    requires w.runs[r].executions[k].node in StepsOf(w.runs[r])
    requires ref in StepRefs(StepsOf(w.runs[r])[w.runs[r].executions[k].node])
    ensures Resolves(w.runs[r], k, ref)
  {
    var run := w.runs[r];
    assert SettledAt(w, r);
    var node := run.executions[k].node;
    PrefixTrail(run, w.connectors, k);
    AcceptedReads(run.record.body, ProjectConnections(w.connectors.connections, run.record.project), node);
    if ref.StepRef? {
      ReferenceResolves(StepsOf(run), run.record.body.start, run.executions[..k], node, ref);
      var j :| 0 <= j < k && run.executions[..k][j].node == ref.step && run.executions[..k][j].status.Completed?;
      assert run.executions[j].node == ref.step && run.executions[j].status.Completed?;
    }
  }

  ghost predicate OneInvocationEach(run: Run) {
    forall a, b :: a in run.invocations && b in run.invocations && a.execution == b.execution ==> a == b
  }

  ghost predicate Agrees(w: World, run: Run, k: nat)
    requires k < |run.executions|
  {
    var e := run.executions[k];
    IsAction(StepsOf(run), e.node) ==>
      ActionSupported(StepsOf(run)[e.node], run.record.project, e, ChildOf(run.invocations, e.uid), w.connectors.calls)
  }

  /** Workflow and connector agree on every action execution: it waits on its one bound call, it
      moved on only with the output of that call completed, and it failed only with that call
      failed or never queued. */
  lemma ActionAgrees(w: World, r: nat, k: nat)
    requires Inv(w) && r < |w.runs| && k < |w.runs[r].executions|
    ensures Agrees(w, w.runs[r], k) && OneInvocationEach(w.runs[r])
  {
    var run := w.runs[r];
    assert SettledAt(w, r);
    assert SupportedAt(run, w.connectors.calls, k);
    forall a, b | a in run.invocations && b in run.invocations && a.execution == b.execution ensures a == b {
      UniqueMember(run.invocations, a, b);
    }
  }

  /** No call is bound twice, neither in one run nor across runs. */
  lemma CallsBoundOnce(w: World, r: nat, q: nat, a: Invocation, b: Invocation)
    requires Inv(w) && r <= q < |w.runs| && a in w.runs[r].invocations && b in w.runs[q].invocations
    requires a.data.call.Some? && (r != q || a != b)
    ensures a.data.call != b.data.call
  {
    assert SettledAt(w, r);
    if r < q {
      assert ApartAt(w.runs, r, q);
    }
  }

  ghost predicate AllResolve(run: Run, k: nat)
    requires k < |run.executions|
  {
    var node := run.executions[k].node;
    node in StepsOf(run) ==> forall ref :: ref in StepRefs(StepsOf(run)[node]) ==> Resolves(run, k, ref)
  }

  /** All that the check of a definition guarantees about one of its runs. */
  ghost predicate Guaranteed(w: World, run: Run) {
    && Shaped(run) && OneInvocationEach(run)
    && (forall k :: 0 <= k < |run.executions| && Queued(run, k) ==> WriteAuthorized(w, run, k))
    && (forall k :: 0 <= k < |run.executions| ==> AllResolve(run, k))
    && (forall k :: 0 <= k < |run.executions| ==> Agrees(w, run, k))
  }

  /** The guarantees hold of every run after any sequence of events. */
  lemma EveryRunIsGuaranteed(lib: Library, events: seq<Event>, r: nat)
    requires r < |After(lib, events).runs|
    ensures Guaranteed(After(lib, events), After(lib, events).runs[r])
  {
    RunIsGuaranteed(After(lib, events), r);
  }

  lemma RunIsGuaranteed(w: World, r: nat)
    requires Inv(w) && r < |w.runs|
    ensures Guaranteed(w, w.runs[r])
  {
    var run := w.runs[r];
    RunShape(w, r);
    ActionAgrees(w, r, 0);
    forall k | 0 <= k < |run.executions| && Queued(run, k) ensures WriteAuthorized(w, run, k) {
      WritesAuthorized(w, r, k);
    }
    forall k | 0 <= k < |run.executions| ensures AllResolve(run, k) && Agrees(w, run, k) {
      var node := run.executions[k].node;
      if node in StepsOf(run) {
        forall ref | ref in StepRefs(StepsOf(run)[node]) ensures Resolves(run, k, ref) {
          ReadsResolve(w, r, k, ref);
        }
      }
      ActionAgrees(w, r, k);
    }
  }

  // ---- Over time

  /** The worlds passed through by a sequence of events. */
  ghost predicate History(lib: Library, events: seq<Event>, worlds: seq<World>) {
    && |worlds| == |events| + 1 && worlds[0] == EMPTY
    && forall i :: 0 <= i < |events| ==> StepAt(lib, events, worlds, i)
  }

  ghost predicate StepAt(lib: Library, events: seq<Event>, worlds: seq<World>, i: nat)
    requires i < |events| && |worlds| == |events| + 1
  {
    Inv(worlds[i]) && worlds[i + 1] == Next(lib, worlds[i], events[i])
  }

  lemma {:induction false} HistoryExists(lib: Library, events: seq<Event>) returns (worlds: seq<World>)
    ensures History(lib, events, worlds) && worlds[|events|] == After(lib, events)
  {
    if events == [] {
      worlds := [EMPTY];
    } else {
      var front := events[..|events| - 1];
      var before := HistoryExists(lib, front);
      worlds := before + [After(lib, events)];
      forall i | 0 <= i < |events| ensures StepAt(lib, events, worlds, i) {
        if i < |front| {
          assert StepAt(lib, front, before, i);
        }
      }
    }
  }

  /** How one event may change a run: not at all, or a waiting run by one committed transaction. */
  ghost predicate RunEvolves(a: Run, b: Run) {
    || b == a
    || (&& a.record.status.Waiting?
        && b.record.version == a.record.version + 1
        && b.record.body == a.record.body && b.record.project == a.record.project && b.record.inputs == a.record.inputs
        && HistoryKept(a.executions, b.executions))
  }

  lemma NextEvolves(lib: Library, w: World, e: Event, r: nat)
    requires Inv(w) && r < |w.runs|
    ensures r < |Next(lib, w, e).runs| && RunEvolves(w.runs[r], Next(lib, w, e).runs[r])
  {
    if (e.Tick? || e.Decided?) && e.run == r && Effect(lib, w, e).Some? {
      EffectFollows(lib, w, e, r);
      assert SettledAt(w, r);
      if !w.runs[r].record.status.Waiting? {
        TerminalWaitsNowhere(w.runs[r], w.connectors);
      }
    }
  }

  /** A later version of a run: the version never falls, and an ended run never changes. */
  ghost predicate Later(a: Run, b: Run) {
    a.record.version <= b.record.version && (!a.record.status.Waiting? ==> b == a)
  }

  lemma EventEvolves(lib: Library, events: seq<Event>, worlds: seq<World>, i: nat, r: nat)
    requires History(lib, events, worlds) && i < |events| && r < |worlds[i].runs|
    ensures r < |worlds[i + 1].runs| && RunEvolves(worlds[i].runs[r], worlds[i + 1].runs[r])
  {
    assert StepAt(lib, events, worlds, i);
    NextEvolves(lib, worlds[i], events[i], r);
  }

  /** Over any stretch of time a run's version never falls, and an ended run never changes. */
  lemma {:induction false} VersionsGrow(lib: Library, events: seq<Event>, worlds: seq<World>, i: nat, j: nat, r: nat)
    requires History(lib, events, worlds) && i <= j <= |events| && r < |worlds[i].runs|
    ensures r < |worlds[j].runs| && Later(worlds[i].runs[r], worlds[j].runs[r])
    decreases j
  {
    if i < j {
      VersionsGrow(lib, events, worlds, i, j - 1, r);
      EventEvolves(lib, events, worlds, j - 1, r);
    }
  }

  lemma DecisionRaisesVersion(lib: Library, w: World, e: Event)
    requires Inv(w) && e.Decided? && Effect(lib, w, e).Some?
    ensures e.run < |Next(lib, w, e).runs|
            && Next(lib, w, e).runs[e.run].record.version == e.decision.expectedVersion + 1
  {
    EffectFollows(lib, w, e, e.run);
  }

  lemma StaleDecision(lib: Library, w: World, e: Event)
    requires Inv(w) && e.Decided?
    requires e.run < |w.runs| && w.runs[e.run].record.version != e.decision.expectedVersion
    ensures Effect(lib, w, e).None? && Next(lib, w, e) == w
  {
  }

  /** A version once passed is never fallen below again. */
  lemma StaysAbove(lib: Library, events: seq<Event>, worlds: seq<World>, i: nat, j: nat, r: nat, version: nat)
    requires History(lib, events, worlds) && i <= j <= |events|
    requires r < |worlds[i].runs| && worlds[i].runs[r].record.version > version
    ensures r < |worlds[j].runs| && worlds[j].runs[r].record.version > version
  {
    VersionsGrow(lib, events, worlds, i, j, r);
  }

  /** A decision that changes anything raises its expected version. */
  lemma DecisionRaised(lib: Library, events: seq<Event>, worlds: seq<World>, i: nat)
    requires History(lib, events, worlds) && i < |events| && events[i].Decided? && worlds[i + 1] != worlds[i]
    ensures events[i].run < |worlds[i + 1].runs|
    ensures worlds[i + 1].runs[events[i].run].record.version == events[i].decision.expectedVersion + 1
  {
    InvAt(lib, events, worlds, i);
    DecisionRaisesVersion(lib, worlds[i], events[i]);
  }

  lemma InvAt(lib: Library, events: seq<Event>, worlds: seq<World>, i: nat)
    requires History(lib, events, worlds) && i < |events|
    ensures Inv(worlds[i]) && worlds[i + 1] == Next(lib, worlds[i], events[i])
  {
    assert StepAt(lib, events, worlds, i);
  }

  lemma StaleAt(lib: Library, events: seq<Event>, worlds: seq<World>, j: nat)
    requires History(lib, events, worlds) && j < |events| && events[j].Decided?
    requires events[j].run < |worlds[j].runs|
    requires worlds[j].runs[events[j].run].record.version != events[j].decision.expectedVersion
    ensures worlds[j + 1] == worlds[j]
  {
    InvAt(lib, events, worlds, j);
    StaleDecision(lib, worlds[j], events[j]);
  }

  /** One expected version admits at most one decision: after one that changes anything, every other
      one on the same version of the same run changes nothing. */
  lemma OneDecision(lib: Library, events: seq<Event>, worlds: seq<World>, i: nat, j: nat)
    requires History(lib, events, worlds) && i < j < |events|
    requires events[i].Decided? && events[j].Decided? && events[i].run == events[j].run
    requires events[i].decision.expectedVersion == events[j].decision.expectedVersion
    requires worlds[i + 1] != worlds[i]
    ensures worlds[j + 1] == worlds[j]
  {
    DecisionRaised(lib, events, worlds, i);
    StaysAbove(lib, events, worlds, i + 1, j, events[i].run, events[i].decision.expectedVersion);
    StaleAt(lib, events, worlds, j);
  }

  // ---- What admitted events do

  /** The transaction of the admitted event comes to a step that needs a time that is no date. */
  ghost predicate LeavesRange(lib: Library, w: World, e: Event)
    requires Inv(w) && Admitted(lib, w, e)
  {
    var b := Begin(lib, w, e);
    LeavesAfter(Env(lib, e.now), StepsOf(b.tx.run), b.move)
  }

  /** An admitted start, poll or decision takes effect, unless it comes to a time that is no date; no
      missing record and no loop cuts it short. */
  lemma CutShortExactly(lib: Library, w: World, e: Event)
    requires Inv(w) && Admitted(lib, w, e)
    ensures Effect(lib, w, e).Some? <==> !LeavesRange(lib, w, e)
    ensures LeavesRange(lib, w, e) ==> Next(lib, w, e) == w
  {
    BeginConcludes(lib, w, e);
  }

  lemma PollWrites(lib: Library, w: World, r: nat, now: int)
    requires Inv(w) && Admitted(lib, w, Tick(r, now)) && !LeavesRange(lib, w, Tick(r, now))
    ensures r < |Next(lib, w, Tick(r, now)).runs|
    ensures Next(lib, w, Tick(r, now)).runs[r].record.version == w.runs[r].record.version + 1
  {
    CutShortExactly(lib, w, Tick(r, now));
    EffectFollows(lib, w, Tick(r, now), r);
  }

  lemma PollSkips(lib: Library, w: World, r: nat, now: int)
    requires Inv(w) && !Admitted(lib, w, Tick(r, now))
    ensures Next(lib, w, Tick(r, now)) == w
  {
  }

  /** A poll that writes nothing is never cut short by a missing record. It answers "no" only if the
      writing poll changes nothing, and "yes" only if the writing poll commits the run's next version
      or, having come to a time that is no date, leaves everything as it was. */
  lemma PollAgrees(lib: Library, w: World, r: nat, now: int)
    requires Inv(w) && r < |w.runs|
    ensures var answer := Ready(Env(lib, now), StepsOf(w.runs[r]), Tx(w.runs[r], w.connectors));
            && !answer.Broken?
            && (answer.Yes? <==> Admitted(lib, w, Tick(r, now)))
            && (answer.No? ==> Next(lib, w, Tick(r, now)) == w)
            && (answer.Yes? ==>
                  if LeavesRange(lib, w, Tick(r, now)) then Next(lib, w, Tick(r, now)) == w
                  else
                    && r < |Next(lib, w, Tick(r, now)).runs|
                    && Next(lib, w, Tick(r, now)).runs[r].record.version == w.runs[r].record.version + 1)
  {
    assert SettledAt(w, r);
    PollIsNeverBroken(Env(lib, now), Tx(w.runs[r], w.connectors));
    if Admitted(lib, w, Tick(r, now)) {
      CutShortExactly(lib, w, Tick(r, now));
      if !LeavesRange(lib, w, Tick(r, now)) {
        PollWrites(lib, w, r, now);
      }
    } else {
      PollSkips(lib, w, r, now);
    }
  }
}

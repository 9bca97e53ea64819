/** The records that belong to the executions of a run: connector invocations with the calls
    they are bound to, and waits. */
module RunChildren {
  import opened Values
  import opened Graphs
  import opened Definitions
  import opened EngineSpec
  import C = Connectors

  // ---- Lists of child records

  ghost predicate KeysDiffer<T>(children: seq<Child<T>>, i: nat, j: nat)
    requires i < |children| && j < |children|
  {
    children[i].uid != children[j].uid && children[i].execution != children[j].execution
  }

  /** One record per execution. */
  ghost predicate Unique<T>(children: seq<Child<T>>) {
    forall i, j :: 0 <= i < j < |children| ==> KeysDiffer(children, i, j)
  }

  /** The record is new, or replaces the record of its own execution. */
  ghost predicate KeyAgrees<T>(children: seq<Child<T>>, c: Child<T>) {
    forall k :: k in children ==> (k.uid == c.uid <==> k.execution == c.execution)
  }

  lemma UniqueTail<T>(children: seq<Child<T>>)
    requires |children| > 0 && Unique(children)
    ensures Unique(children[1..])
    ensures forall k :: k in children[1..] ==> k.uid != children[0].uid && k.execution != children[0].execution
  {
    forall i, j | 0 <= i < j < |children| - 1 ensures KeysDiffer(children[1..], i, j) {
      assert KeysDiffer(children, i + 1, j + 1);
    }
    forall k | k in children[1..] ensures k.uid != children[0].uid && k.execution != children[0].execution {
      var i :| 0 <= i < |children| - 1 && children[1..][i] == k;
      assert KeysDiffer(children, 0, i + 1);
    }
  }

  lemma {:induction false} SaveMembers<T>(children: seq<Child<T>>, c: Child<T>)
    requires Unique(children) && KeyAgrees(children, c)
    ensures forall k :: k in Save(children, c) ==> k == c || (k in children && k.execution != c.execution)
    ensures forall k :: k in children && k.execution != c.execution ==> k in Save(children, c)
    ensures c in Save(children, c)
    ensures Unique(Save(children, c))
    decreases |children|
  {
    if children != [] {
      UniqueTail(children);
      var saved, rest := Save(children, c), children[1..];
      if children[0].uid != c.uid {
        SaveMembers(rest, c);
        assert children[0] in children;
        HeadDiffers(children[0], Save(rest, c));
      } else {
        HeadDiffers(c, rest);
      }
      assert forall k :: k in saved <==> k == saved[0] || k in saved[1..];
    }
  }

  lemma HeadDiffers<T>(head: Child<T>, rest: seq<Child<T>>)
    requires Unique(rest) && forall k :: k in rest ==> k.uid != head.uid && k.execution != head.execution
    ensures Unique([head] + rest)
  {
    var all := [head] + rest;
    forall i, j | 0 <= i < j < |all| ensures KeysDiffer(all, i, j) {
      if i > 0 {
        assert KeysDiffer(rest, i - 1, j - 1);
      } else {
        assert all[j] == rest[j - 1] && rest[j - 1] in rest;
      }
    }
  }

  lemma {:induction false} ChildOfMember<T>(children: seq<Child<T>>, execution: nat)
    ensures ChildOf(children, execution).Some? ==>
              ChildOf(children, execution).value in children
                && ChildOf(children, execution).value.execution == execution
    ensures ChildOf(children, execution).None? ==> forall k :: k in children ==> k.execution != execution
    decreases |children|
  {
    if children != [] && children[0].execution != execution {
      ChildOfMember(children[1..], execution);
    }
  }

  lemma UniqueMember<T>(children: seq<Child<T>>, a: Child<T>, b: Child<T>)
    requires Unique(children) && a in children && b in children && a.execution == b.execution
    ensures a == b
  {
    var i :| 0 <= i < |children| && children[i] == a;
    var j :| 0 <= j < |children| && children[j] == b;
    assert i < j ==> KeysDiffer(children, i, j);
    assert j < i ==> KeysDiffer(children, j, i);
  }

  /** Saving a record changes what its own execution finds, and nothing else. */
  lemma SavedChild<T>(children: seq<Child<T>>, c: Child<T>, execution: nat)
    requires Unique(children) && KeyAgrees(children, c)
    ensures ChildOf(Save(children, c), execution) == if execution == c.execution then Some(c)
            else ChildOf(children, execution)
  {
    SaveMembers(children, c);
    var saved := Save(children, c);
    ChildOfMember(saved, execution);
    ChildOfMember(children, execution);
    if execution == c.execution {
      UniqueMember(saved, ChildOf(saved, execution).value, c);
    } else if ChildOf(children, execution).None? {
      assert forall k :: k in saved ==> k.execution != execution;
    } else {
      UniqueMember(saved, ChildOf(saved, execution).value, ChildOf(children, execution).value);
    }
  }

  /** Saving a record twice keeps the second. */
  lemma {:induction false} SaveTwice<T>(children: seq<Child<T>>, c: Child<T>, d: Child<T>)
    requires c.uid == d.uid
    ensures Save(Save(children, c), d) == Save(children, d)
    decreases |children|
  {
    if children != [] && children[0].uid != c.uid {
      SaveTwice(children[1..], c, d);
      assert Save(children, c)[1..] == Save(children[1..], c);
    }
  }

  // ---- Calls bound to action steps

  /** The call is the one the step asks for, with the same write authorization. */
  ghost predicate Fits(call: C.Call, step: Step, project: Id, inputs: Obj)
    requires step.ActionStep?
  {
    && call.connector == step.connector && call.project == project
    && call.action.name == step.action && call.action.version == step.version
    && call.inputs == inputs && call.writeAuthorized == Authorizes(step)
  }

  ghost predicate Bound(step: Step, project: Id, e: Execution, i: Invocation, calls: seq<C.Entry>)
    requires step.ActionStep?
  {
    && i.data.call.Some? && i.data.call.value < |calls|
    && i.data.inputs == e.inputs
    && Fits(calls[i.data.call.value].call, step, project, e.inputs)
  }

  /** An action execution waits on one bound call, moved on with its output, or failed with it. */
  ghost predicate ActionSupported(step: Step, project: Id, e: Execution, i: Option<Invocation>, calls: seq<C.Entry>)
    requires step.ActionStep?
  {
    match e.status
    case Waiting =>
      && i.Some? && Bound(step, project, e, i.value, calls)
      && (i.value.data.status.Prepared? || i.value.data.status.Unknown?)
    case Completed =>
      && i.Some? && Bound(step, project, e, i.value, calls) && i.value.data.status.Completed?
      && var call := calls[i.value.data.call.value].call;
      call.status.Completed? && call.output.Some? && e.output == call.output && i.value.data.output == call.output
    case Failed =>
      i.Some? ==>
        && i.value.data.status.Failed?
        && (i.value.data.call.Some? ==>
              Bound(step, project, e, i.value, calls) && calls[i.value.data.call.value].call.status.Failed?)
  }

  ghost predicate HumanSupported(step: Step, e: Execution, w: Option<WaitRecord>)
    requires step.HumanStep?
  {
    match e.status
    case Waiting =>
      w.Some? && w.value.data.resolution.None? && w.value.data.condition.HumanWait?
      && w.value.data.condition.subject == e.inputs
      && (w.value.data.condition.deadline.Some? <==> step.timeout.Some?)
    case Completed =>
      && w.Some? && w.value.data.resolution.Some? && e.output.Some?
      && "decision" in e.output.value && "decision" in w.value.data.resolution.value
      && e.output.value["decision"] == w.value.data.resolution.value["decision"]
    case Failed => w.None?
  }

  ghost predicate WaitSupported(e: Execution, w: Option<WaitRecord>) {
    match e.status
    case Waiting => w.Some? && w.value.data.resolution.None? && w.value.data.condition.TimeWait?
    case Completed => w.Some? && w.value.data.resolution.Some?
    case Failed => w.None?
  }

  ghost predicate Supported(steps: Steps, project: Id, e: Execution, i: Option<Invocation>, w: Option<WaitRecord>,
                            calls: seq<C.Entry>)
  {
    && e.node in steps
    && match steps[e.node]
       case ActionStep(_, _, _, _, _, _, _, _) => ActionSupported(steps[e.node], project, e, i, calls) && w.None?
       case HumanStep(_, _, _, _, _, _) => HumanSupported(steps[e.node], e, w) && i.None?
       case WaitStep(_, _, _, _) => WaitSupported(e, w) && i.None?
       case _ => !e.status.Waiting? && i.None? && w.None?
  }

  /** Support outlives every change of the connector calls. */
  lemma SupportedStays(steps: Steps, project: Id, e: Execution, i: Option<Invocation>, w: Option<WaitRecord>,
                       s: C.State, t: C.State)
    requires Supported(steps, project, e, i, w, s.calls) && C.Evolves(s, t)
    ensures Supported(steps, project, e, i, w, t.calls)
  {
    if i.Some? && i.value.data.call.Some? && i.value.data.call.value < |s.calls| {
      assert C.EntryEvolves(s.calls[i.value.data.call.value], t.calls[i.value.data.call.value]);
    }
  }

  // ---- All records of a run

  ghost predicate SupportedAt(run: Run, calls: seq<C.Entry>, i: nat)
    requires i < |run.executions|
  {
    var e := run.executions[i];
    Supported(StepMap(run.record.body.steps), run.record.project, e, ChildOf(run.invocations, e.uid),
              ChildOf(run.waits, e.uid), calls)
  }

  /** Identities of executions grow along the list. */
  ghost predicate Ordered(executions: seq<Execution>, i: nat, j: nat)
    requires i < |executions| && j < |executions|
  {
    executions[i].uid < executions[j].uid
  }

  ghost predicate Increasing(executions: seq<Execution>) {
    forall i, j :: 0 <= i < j < |executions| ==> Ordered(executions, i, j)
  }

  ghost predicate HasExecution(executions: seq<Execution>, uid: nat) {
    exists i :: 0 <= i < |executions| && executions[i].uid == uid
  }

  /** No two invocations are bound to one call. */
  ghost predicate BoundOnce(invocations: seq<Invocation>) {
    forall a, b :: a in invocations && b in invocations && a.data.call.Some? && a.data.call == b.data.call ==> a == b
  }

  ghost predicate Children(run: Run, calls: seq<C.Entry>) {
    && Unique(run.invocations) && Unique(run.waits)
    && Increasing(run.executions)
    && (forall e :: e in run.executions ==> e.uid < run.nextId)
    && (forall k :: k in run.invocations ==> k.uid < run.nextId && HasExecution(run.executions, k.execution))
    && (forall k :: k in run.waits ==> k.uid < run.nextId && HasExecution(run.executions, k.execution))
    && (forall k :: k in run.invocations && k.data.call.Some? ==> k.data.call.value < |calls|)
    && BoundOnce(run.invocations)
    && (forall i :: 0 <= i < |run.executions| ==> SupportedAt(run, calls, i))
  }

  lemma {:induction false} WithoutOther(executions: seq<Execution>, uid: nat)
    requires forall e :: e in executions ==> e.uid != uid
    ensures Without(executions, uid) == executions
    decreases |executions|
  {
    if executions != [] {
      WithoutOther(executions[..|executions| - 1], uid);
    }
  }

  lemma WithoutLast(executions: seq<Execution>)
    requires |executions| > 0 && Increasing(executions)
    ensures Without(executions, executions[|executions| - 1].uid) == executions[..|executions| - 1]
  {
    var n := |executions| - 1;
    forall e | e in executions[..n] ensures e.uid != executions[n].uid {
      var i :| 0 <= i < n && executions[i] == e;
      assert Ordered(executions, i, n);
    }
    WithoutOther(executions[..n], executions[n].uid);
  }

  lemma {:induction false} WaitingIsLast(executions: seq<Execution>)
    requires |executions| > 0
    requires forall i :: 0 <= i < |executions| - 1 ==> !executions[i].status.Waiting?
    ensures WaitingOf(executions) ==
            if executions[|executions| - 1].status.Waiting? then Some(executions[|executions| - 1]) else None
    decreases |executions|
  {
    if |executions| > 1 {
      assert !executions[0].status.Waiting?;
      WaitingIsLast(executions[1..]);
    }
  }

  /** The records a step saves: at most one invocation and at most one wait. */
  function Saved<T>(children: seq<Child<T>>, c: Option<Child<T>>): seq<Child<T>> {
    if c.None? then children else Save(children, c.value)
  }

  ghost predicate Owned<T>(children: seq<Child<T>>, c: Option<Child<T>>, execution: nat, nextId: nat) {
    c.Some? ==> c.value.execution == execution && c.value.uid < nextId && KeyAgrees(children, c.value)
  }

  lemma SavedFacts<T>(children: seq<Child<T>>, c: Option<Child<T>>, execution: nat, nextId: nat)
    requires Unique(children) && Owned(children, c, execution, nextId)
    ensures Unique(Saved(children, c))
    ensures forall k :: k in Saved(children, c) ==> (k in children && (c.Some? ==> k.execution != execution))
                                                    || (c.Some? && k == c.value)
    ensures forall x :: x != execution ==> ChildOf(Saved(children, c), x) == ChildOf(children, x)
    ensures c.Some? ==> ChildOf(Saved(children, c), execution) == c
    ensures c.None? ==> ChildOf(Saved(children, c), execution) == ChildOf(children, execution)
  {
    if c.Some? {
      SaveMembers(children, c.value);
      forall k | k in Saved(children, c) ensures (k in children && k.execution != execution) || k == c.value {
        assert k in Save(children, c.value);
      }
      forall x ensures ChildOf(Save(children, c.value), x) == if x == execution then c else ChildOf(children, x) {
        SavedChild(children, c.value, x);
      }
    }
  }

  /** The execution is new, or takes the place of the last one. */
  ghost predicate Appends(run: Run, front: seq<Execution>, e: Execution) {
    || (front == run.executions && e.uid == run.nextId)
    || (|run.executions| > 0 && front == run.executions[..|run.executions| - 1]
        && e.uid == run.executions[|run.executions| - 1].uid)
  }

  /** Adding an execution, or replacing the last one, together with its own records. */
  lemma Patched(run: Run, after: Run, s: C.State, t: C.State, front: seq<Execution>, e: Execution,
                i: Option<Invocation>, w: Option<WaitRecord>)
    requires Children(run, s.calls) && C.Evolves(s, t)
    requires after.record.body == run.record.body && after.record.project == run.record.project
    requires Appends(run, front, e) && after.executions == front + [e]
    requires e.uid < after.nextId && run.nextId <= after.nextId
    requires Owned(run.invocations, i, e.uid, after.nextId) && after.invocations == Saved(run.invocations, i)
    requires Owned(run.waits, w, e.uid, after.nextId) && after.waits == Saved(run.waits, w)
    requires i.Some? && i.value.data.call.Some? ==>
               && i.value.data.call.value < |t.calls|
               && forall k :: k in run.invocations && k.execution != e.uid ==> k.data.call != i.value.data.call
    requires Supported(StepMap(after.record.body.steps), after.record.project, e,
                       ChildOf(after.invocations, e.uid), ChildOf(after.waits, e.uid), t.calls)
    ensures Children(after, t.calls)
  {
    PatchedOrder(run, after, front, e);
    PatchedInvocations(run, after, s, t, e, i);
    PatchedWaits(run, after, e, w);
    PatchedSupport(run, after, s, t, front, e);
  }

  lemma PatchedInvocations(run: Run, after: Run, s: C.State, t: C.State, e: Execution, i: Option<Invocation>)
    requires Unique(run.invocations) && BoundOnce(run.invocations) && C.Evolves(s, t) && run.nextId <= after.nextId
    requires forall k :: k in run.invocations ==> k.uid < run.nextId && HasExecution(run.executions, k.execution)
    requires forall k :: k in run.invocations && k.data.call.Some? ==> k.data.call.value < |s.calls|
    requires forall uid :: HasExecution(run.executions, uid) ==> HasExecution(after.executions, uid)
    requires HasExecution(after.executions, e.uid)
    requires Owned(run.invocations, i, e.uid, after.nextId) && after.invocations == Saved(run.invocations, i)
    requires i.Some? && i.value.data.call.Some? ==>
               && i.value.data.call.value < |t.calls|
               && forall k :: k in run.invocations && k.execution != e.uid ==> k.data.call != i.value.data.call
    ensures Unique(after.invocations) && BoundOnce(after.invocations)
    ensures forall k :: k in after.invocations ==> k.uid < after.nextId && HasExecution(after.executions, k.execution)
    ensures forall k :: k in after.invocations && k.data.call.Some? ==> k.data.call.value < |t.calls|
    ensures forall x :: x != e.uid ==> ChildOf(after.invocations, x) == ChildOf(run.invocations, x)
  {
    SavedFacts(run.invocations, i, e.uid, after.nextId);
  }

  lemma PatchedWaits(run: Run, after: Run, e: Execution, w: Option<WaitRecord>)
    requires Unique(run.waits) && run.nextId <= after.nextId
    requires forall k :: k in run.waits ==> k.uid < run.nextId && HasExecution(run.executions, k.execution)
    requires forall uid :: HasExecution(run.executions, uid) ==> HasExecution(after.executions, uid)
    requires HasExecution(after.executions, e.uid)
    requires Owned(run.waits, w, e.uid, after.nextId) && after.waits == Saved(run.waits, w)
    ensures Unique(after.waits)
    ensures forall k :: k in after.waits ==> k.uid < after.nextId && HasExecution(after.executions, k.execution)
    ensures forall x :: x != e.uid ==> ChildOf(after.waits, x) == ChildOf(run.waits, x)
  {
    SavedFacts(run.waits, w, e.uid, after.nextId);
  }

  lemma PatchedOrder(run: Run, after: Run, front: seq<Execution>, e: Execution)
    requires Increasing(run.executions) && forall x :: x in run.executions ==> x.uid < run.nextId
    requires Appends(run, front, e) && after.executions == front + [e]
    requires e.uid < after.nextId && run.nextId <= after.nextId
    ensures Increasing(after.executions)
    ensures forall x :: x in after.executions ==> x.uid < after.nextId
    ensures forall uid :: HasExecution(run.executions, uid) ==> HasExecution(after.executions, uid)
    ensures HasExecution(after.executions, e.uid)
    ensures forall k :: 0 <= k < |front| ==> front[k].uid != e.uid
  {
    forall a, b | 0 <= a < b < |after.executions| ensures Ordered(after.executions, a, b) {
      if b < |front| || front != run.executions {
        assert Ordered(run.executions, a, b);
      }
    }
    forall k | 0 <= k < |front| ensures front[k].uid != e.uid {
      assert Ordered(after.executions, k, |front|);
    }
    forall uid | HasExecution(run.executions, uid) ensures HasExecution(after.executions, uid) {
      var k :| 0 <= k < |run.executions| && run.executions[k].uid == uid;
      assert after.executions[k].uid == uid;
    }
    assert after.executions[|front|].uid == e.uid;
  }

  lemma PatchedSupport(run: Run, after: Run, s: C.State, t: C.State, front: seq<Execution>, e: Execution)
    requires C.Evolves(s, t)
    requires forall k :: 0 <= k < |run.executions| ==> SupportedAt(run, s.calls, k)
    requires after.record.body == run.record.body && after.record.project == run.record.project
    requires after.executions == front + [e] && front <= run.executions
    requires forall k :: 0 <= k < |front| ==> front[k].uid != e.uid
    requires forall x :: x != e.uid ==> ChildOf(after.invocations, x) == ChildOf(run.invocations, x)
    requires forall x :: x != e.uid ==> ChildOf(after.waits, x) == ChildOf(run.waits, x)
    requires Supported(StepMap(after.record.body.steps), after.record.project, e,
                       ChildOf(after.invocations, e.uid), ChildOf(after.waits, e.uid), t.calls)
    ensures forall k :: 0 <= k < |after.executions| ==> SupportedAt(after, t.calls, k)
  {
    forall k | 0 <= k < |after.executions| ensures SupportedAt(after, t.calls, k) {
      if k < |front| {
        var x := run.executions[k];
        assert SupportedAt(run, s.calls, k);
        SupportedStays(StepMap(run.record.body.steps), run.record.project, x,
                       ChildOf(run.invocations, x.uid), ChildOf(run.waits, x.uid), s, t);
      }
    }
  }

  /** The records of a run stay in order while connectors work on the calls. */
  lemma ChildrenStay(run: Run, s: C.State, t: C.State)
    requires Children(run, s.calls) && C.Evolves(s, t)
    ensures Children(run, t.calls)
  {
    forall k | 0 <= k < |run.executions| ensures SupportedAt(run, t.calls, k) {
      var x := run.executions[k];
      assert SupportedAt(run, s.calls, k);
      SupportedStays(StepMap(run.record.body.steps), run.record.project, x,
                     ChildOf(run.invocations, x.uid), ChildOf(run.waits, x.uid), s, t);
    }
  }
}

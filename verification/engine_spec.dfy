/** What one transaction of the workflow engine does to a run and to the connector calls, as
    pure functions of the state before it. */
module EngineSpec {
  import opened Values
  import opened Graphs
  import opened Definitions
  import C = Connectors

  datatype StepStatus = Waiting | Completed | Failed

  datatype Execution = Execution(uid: nat, node: Id, status: StepStatus, inputs: Obj, output: Option<Obj>)

  datatype InvocationStatus = Prepared | Completed | Failed | Unknown

  /** A record that belongs to one step execution. */
  datatype Child<+T> = Child(uid: nat, execution: nat, data: T)

  datatype InvocationData = InvocationData(status: InvocationStatus, inputs: Obj, call: Option<nat>,
                                           output: Option<Obj>, externalRef: Option<string>, error: bool)

  /** A connector invocation; its idempotency key is the identity of its execution. */
  type Invocation = Child<InvocationData>

  datatype WaitCondition = HumanWait(question: string, subject: Obj, deadline: Option<int>) | TimeWait(until: int)

  /** `recordedAt` and `resolvedAt` are the times of the transactions that saved and resolved the wait. */
  datatype WaitData = WaitData(condition: WaitCondition, resolution: Option<Obj>, recordedAt: int,
                               resolvedAt: Option<int>)

  type WaitRecord = Child<WaitData>

  datatype RunStatus = Running | Waiting | Completed | Failed

  datatype RunResult = NoResult | Outcome(outcome: string, result: Obj) | Failure(step: Id)

  datatype Record = Record(project: Id, body: Body, inputs: Obj, status: RunStatus, version: nat, result: RunResult)

  /** A run with its child records. `nextId` bounds the identities used so far. */
  datatype Run = Run(record: Record, executions: seq<Execution>, invocations: seq<Invocation>,
                     waits: seq<WaitRecord>, nextId: nat)

  /** What a transaction on one run sees and writes. */
  datatype Tx = Tx(run: Run, connectors: C.State)

  datatype Env = Env(lib: Library, now: int)

  // ---- Values

  /** The outputs of the completed steps, the latest one for each step. */
  function OutputOf(executions: seq<Execution>, node: Id): Option<Obj> {
    if executions == [] then None
    else
      var last := executions[|executions| - 1];
      if last.node == node && last.status.Completed? && last.output.Some? then last.output
      else OutputOf(executions[..|executions| - 1], node)
  }

  function Walk(value: Json, keys: seq<string>): Option<Json> {
    if keys == [] then Some(value)
    else if value.Object? && keys[0] in value.fields then Walk(value.fields[keys[0]], keys[1..])
    else if value.List? && IsDigits(keys[0]) && ParseNat(keys[0]) < |value.items|
    then Walk(value.items[ParseNat(keys[0])], keys[1..])
    else None
  }

  function Lookup(run: Run, ref: Ref): Option<Json> {
    match ref
    case InputRef(keys) => Walk(Object(run.record.inputs), keys)
    case StepRef(step, keys) =>
      (match OutputOf(run.executions, step)
       case None => None
       case Some(output) => Walk(Object(output), keys))
    case BadRef(_) => None
  }

  function Render(lib: Library, run: Run, pieces: seq<Piece>): Option<string> {
    if pieces == [] then Some("")
    else
      var head := match pieces[0]
                  case Text(text) => Some(text)
                  case Hole(ref) =>
                    match Lookup(run, ref)
                    case None => None
                    case Some(Str(text)) => Some(text)
                    case Some(value) => Some(lib.dumps(value));
      match (head, Render(lib, run, pieces[1..]))
      case (Some(a), Some(b)) => Some(a + b)
      case _ => None
  }

  /** The value, or nothing when a reference has no value and the step fails. */
  function Eval(lib: Library, run: Run, value: Value): Option<Json> {
    match value
    case Literal(json) => Some(json)
    case RefValue(ref) => Lookup(run, ref)
    case Template(pieces) =>
      match Render(lib, run, pieces)
      case None => None
      case Some(text) => Some(Str(text))
  }

  function EvalFields(lib: Library, run: Run, values: map<string, Value>): Option<Obj> {
    if forall name :: name in values ==> Eval(lib, run, values[name]).Some?
    then Some(map name | name in values :: Eval(lib, run, values[name]).value)
    else None
  }

  /** Numbers of different kind can be equal, other values only as the same JSON; nothing but two
      numbers or two texts can be ordered. */
  function CompareValues(op: CompareOp, a: Json, b: Json): Option<bool> {
    var numbers := IsNumber(a) && IsNumber(b);
    if op.Eq? || op.Ne? then
      var same := if numbers then NumberOf(a) == NumberOf(b) else a == b;
      Some(if op.Eq? then same else !same)
    else if !numbers && !(a.Str? && b.Str?) then None
    else
      var less := if numbers then NumberOf(a) < NumberOf(b) else TextLess(a.text, b.text);
      var more := if numbers then NumberOf(b) < NumberOf(a) else TextLess(b.text, a.text);
      Some(match op case Lt => less case Le => !more case Gt => more case _ => !less)
  }

  function Test(lib: Library, run: Run, condition: Condition): Option<bool>
    decreases condition
  {
    match condition
    case Exists(ref) => (var v := Lookup(run, ref); Some(v.Some? && v.value != Null))
    case Not(inner) => (match Test(lib, run, inner) case None => None case Some(b) => Some(!b))
    case All(conditions) => TestAll(lib, run, conditions)
    case Any(conditions) => TestAny(lib, run, conditions)
    case Compare(op, left, right) =>
      match (Eval(lib, run, left), Eval(lib, run, right))
      case (Some(a), Some(b)) => CompareValues(op, a, b)
      case _ => None
  }

  function TestAll(lib: Library, run: Run, conditions: seq<Condition>): Option<bool>
    decreases conditions
  {
    if conditions == [] then Some(true)
    else match Test(lib, run, conditions[0])
      case None => None
      case Some(false) => Some(false)
      case Some(true) => TestAll(lib, run, conditions[1..])
  }

  function TestAny(lib: Library, run: Run, conditions: seq<Condition>): Option<bool>
    decreases conditions
  {
    if conditions == [] then Some(false)
    else match Test(lib, run, conditions[0])
      case None => None
      case Some(true) => Some(true)
      case Some(false) => TestAny(lib, run, conditions[1..])
  }

  /** The first matching case from index `i` on; its index is |cases| for the default. */
  function Select(lib: Library, run: Run, cases: seq<Case>, i: nat): (r: Option<nat>)
    requires i <= |cases|
    ensures r.Some? ==> i <= r.value <= |cases|
    decreases |cases| - i
  {
    if i == |cases| then Some(i)
    else match Test(lib, run, cases[i].when)
      case None => None
      case Some(true) => Some(i)
      case Some(false) => Select(lib, run, cases, i + 1)
  }

  // ---- Records

  function Without(executions: seq<Execution>, uid: nat): seq<Execution> {
    if executions == [] then []
    else Without(executions[..|executions| - 1], uid)
         + (if executions[|executions| - 1].uid == uid then [] else [executions[|executions| - 1]])
  }

  /** Save an execution: it moves to the end of the list. */
  function SaveStep(run: Run, e: Execution): Run {
    run.(executions := Without(run.executions, e.uid) + [e])
  }

  function NewStep(run: Run, node: Id, status: StepStatus, inputs: Obj, output: Option<Obj>): Run {
    SaveStep(run, Execution(run.nextId, node, status, inputs, output)).(nextId := run.nextId + 1)
  }

  function FinishStep(run: Run, e: Execution, status: StepStatus, output: Option<Obj>): Run {
    SaveStep(run, e.(status := status, output := output))
  }

  function WithStatus(run: Run, status: RunStatus): Run {
    run.(record := run.record.(status := status))
  }

  function FinishRun(run: Run, status: RunStatus, result: RunResult): Run {
    run.(record := run.record.(status := status, result := result))
  }

  const ERROR_OUTPUT: Obj := map["error" := Str("step failed")]

  function FailNew(run: Run, node: Id): Run {
    FinishRun(NewStep(run, node, StepStatus.Failed, map[], Some(ERROR_OUTPUT)), RunStatus.Failed, Failure(node))
  }

  function FailStep(run: Run, e: Execution): Run {
    FinishRun(FinishStep(run, e, StepStatus.Failed, Some(ERROR_OUTPUT)), RunStatus.Failed, Failure(e.node))
  }

  /** Replace the record with the same identity, or add it. */
  function Save<T>(children: seq<Child<T>>, c: Child<T>): seq<Child<T>> {
    if children == [] then [c]
    else if children[0].uid == c.uid then [c] + children[1..]
    else [children[0]] + Save(children[1..], c)
  }

  /** The first record that belongs to the execution. */
  function ChildOf<T>(children: seq<Child<T>>, execution: nat): Option<Child<T>> {
    if children == [] then None
    else if children[0].execution == execution then Some(children[0])
    else ChildOf(children[1..], execution)
  }

  function WaitingOf(executions: seq<Execution>): Option<Execution> {
    if executions == [] then None
    else if executions[0].status.Waiting? then Some(executions[0])
    else WaitingOf(executions[1..])
  }

  // ---- One step

  /** The loop of `enter` goes on to a node, stops, or an exception rolls the transaction back. */
  datatype Move = Goto(tx: Tx, node: Id) | Halt(tx: Tx) | Abort

  function SelectedOutput(next: Id, index: Json): Obj {
    map["selected" := Str(next), "case" := index]
  }

  function RunCondition(env: Env, tx: Tx, step: Step): Move
    requires step.ConditionStep?
  {
    match Select(env.lib, tx.run, step.cases, 0)
    case None => Halt(tx.(run := FailNew(tx.run, step.id)))
    case Some(i) =>
      var next := if i < |step.cases| then step.cases[i].next else step.otherwise;
      var index := if i < |step.cases| then IntNum(i) else Null;
      Goto(tx.(run := NewStep(tx.run, step.id, StepStatus.Completed, map[], Some(SelectedOutput(next, index)))), next)
  }

  function RunEnd(env: Env, tx: Tx, step: Step): Move
    requires step.EndStep?
  {
    match EvalFields(env.lib, tx.run, step.result)
    case None => Halt(tx.(run := FailNew(tx.run, step.id)))
    case Some(result) =>
      var run := NewStep(tx.run, step.id, StepStatus.Completed, result, Some(map["outcome" := Str(step.outcome)]));
      Halt(tx.(run := FinishRun(run, RunStatus.Completed, Outcome(step.outcome, result))))
  }

  function NewInvocation(uid: nat, execution: nat, inputs: Obj): Invocation {
    Child(uid, execution, InvocationData(InvocationStatus.Prepared, inputs, None, None, None, false))
  }

  /** Whether an action step authorizes a write. */
  predicate Authorizes(step: Step)
    requires step.ActionStep?
  {
    step.approval.Some? || step.standing
  }

  function RunAction(env: Env, tx: Tx, step: Step): Move
    requires step.ActionStep?
  {
    match EvalFields(env.lib, tx.run, step.inputs)
    case None => Halt(tx.(run := FailNew(tx.run, step.id)))
    case Some(inputs) =>
      if step.connector !in tx.connectors.connections then Abort
      else if tx.connectors.connections[step.connector].project != tx.run.record.project
      then Halt(tx.(run := FailNew(tx.run, step.id)))
      else
        var e := Execution(tx.run.nextId, step.id, StepStatus.Waiting, inputs, None);
        var run := NewStep(tx.run, step.id, StepStatus.Waiting, inputs, None);
        var i := NewInvocation(run.nextId, e.uid, inputs);
        match C.NewCall(env.lib, tx.connectors, step.connector, step.action, step.version, inputs, Authorizes(step))
        case Err(_) =>
          var failed := i.(data := i.data.(status := InvocationStatus.Failed, error := true));
          Halt(tx.(run := FailStep(run.(invocations := Save(run.invocations, failed), nextId := run.nextId + 1), e)))
        case Ok(call) =>
          var bound := i.(data := i.data.(call := Some(call.id)));
          var queued := run.(invocations := Save(run.invocations, bound), nextId := run.nextId + 1);
          Halt(Tx(WithStatus(queued, RunStatus.Waiting), C.WithCall(tx.connectors, call)))
  }

  function NewWait(uid: nat, execution: nat, condition: WaitCondition, now: int): WaitRecord {
    Child(uid, execution, WaitData(condition, None, now, None))
  }

  function Resolved(w: WaitRecord, resolution: Obj, now: int): WaitRecord {
    w.(data := w.data.(resolution := Some(resolution), resolvedAt := Some(now)))
  }

  function RunHuman(env: Env, tx: Tx, step: Step): Move
    requires step.HumanStep?
  {
    match EvalFields(env.lib, tx.run, step.subject)
    case None => Halt(tx.(run := FailNew(tx.run, step.id)))
    case Some(subject) =>
      var deadline := DeadlineOf(env, step);
      if step.timeout.Some? && deadline.None? then Abort
      else
        var run := NewStep(tx.run, step.id, StepStatus.Waiting, subject, None);
        var w := NewWait(run.nextId, tx.run.nextId, HumanWait(step.question, subject, deadline), env.now);
        Halt(tx.(run := WithStatus(run.(waits := Save(run.waits, w), nextId := run.nextId + 1), RunStatus.Waiting)))
  }

  /** The end of the timeout, if there is one and it is a date. */
  function DeadlineOf(env: Env, step: Step): Option<int>
    requires step.HumanStep?
  {
    if step.timeout.None? then None else env.lib.shift(env.now, step.timeout.value.seconds)
  }

  function FiredOutput(lib: Library, until: int, now: int): Obj {
    map["until" := Str(lib.isoFormat(until)), "fired_at" := Str(lib.isoFormat(now))]
  }

  /** The time a wait step waits for; the step fails when its value is none. */
  function WaitTime(env: Env, run: Run, step: Step): ParsedTime
    requires step.WaitStep?
  {
    match Eval(env.lib, run, step.until)
    case Some(Str(text)) =>
      (match env.lib.parseTime(text)
       case Time(time) =>
         (match env.lib.shift(time, step.offset)
          case None => OffTheCalendar
          case Some(due) => Time(due))
       case other => other)
    case _ => NotATime
  }

  /** Starting the step needs a time that is no date, which no branch of the engine catches. */
  predicate OutOfRange(env: Env, run: Run, step: Step) {
    match step
    case WaitStep(_, _, _, _) => WaitTime(env, run, step).OffTheCalendar?
    case HumanStep(_, _, _, _, _, timeout) =>
      EvalFields(env.lib, run, step.subject).Some? && timeout.Some? && DeadlineOf(env, step).None?
    case _ => false
  }

  function RunWait(env: Env, tx: Tx, step: Step): Move
    requires step.WaitStep?
  {
    match WaitTime(env, tx.run, step)
    case NotATime => Halt(tx.(run := FailNew(tx.run, step.id)))
    case OffTheCalendar => Abort
    case Time(due) =>
      var inputs := map["until" := Str(env.lib.isoFormat(due))];
      var e := Execution(tx.run.nextId, step.id, StepStatus.Waiting, inputs, None);
      var run := NewStep(tx.run, step.id, StepStatus.Waiting, inputs, None);
      var w := NewWait(run.nextId, e.uid, TimeWait(due), env.now);
      var waiting := run.(waits := Save(run.waits, w), nextId := run.nextId + 1);
      if due > env.now then Halt(tx.(run := WithStatus(waiting, RunStatus.Waiting)))
      else
        var resolved := Resolved(w, map["fired_at" := Str(env.lib.isoFormat(env.now))], env.now);
        var done := waiting.(waits := Save(waiting.waits, resolved));
        Goto(tx.(run := FinishStep(done, e, StepStatus.Completed, Some(FiredOutput(env.lib, due, env.now)))), step.next)
  }

  function Advance(env: Env, tx: Tx, step: Step): Move {
    match step
    case ConditionStep(_, _, _) => RunCondition(env, tx, step)
    case EndStep(_, _, _) => RunEnd(env, tx, step)
    case ActionStep(_, _, _, _, _, _, _, _) => RunAction(env, tx, step)
    case HumanStep(_, _, _, _, _, _) => RunHuman(env, tx, step)
    case WaitStep(_, _, _, _) => RunWait(env, tx, step)
  }

  /** Every move of the loop follows an edge of the graph. */
  lemma AdvanceFollowsEdge(env: Env, tx: Tx, step: Step)
    ensures Advance(env, tx, step).Goto? ==> Advance(env, tx, step).node in Successors(step)
  {
    var move := Advance(env, tx, step);
    if move.Goto? && step.ConditionStep? {
      var i := Select(env.lib, tx.run, step.cases, 0).value;
      assert Successors(step)[i] == move.node;
    }
  }

  // ---- Whole transactions

  datatype TxResult = Done(tx: Tx) | Raised

  /** The moves from `node` on, up to the first that does not go on. The steps still reachable shrink
      with every move, so there is such a one. */
  function Loop(env: Env, steps: Steps, start: Id, tx: Tx, node: Id): TxResult
    requires Sound(steps, start) && node in steps
    decreases ReachSet(EdgesOf(steps), steps.Keys, node)
  {
    match Advance(env, tx, steps[node])
    case Abort => Raised
    case Halt(after) => Done(after)
    case Goto(after, next) =>
      AdvanceFollowsEdge(env, tx, steps[node]);
      ReachSetShrinks(EdgesOf(steps), steps.Keys, node, next);
      Loop(env, steps, start, after, next)
  }

  function Enter(env: Env, steps: Steps, start: Id, tx: Tx, node: Id): TxResult
    requires Sound(steps, start) && node in steps
  {
    Loop(env, steps, start, tx.(run := WithStatus(tx.run, RunStatus.Running)), node)
  }

  /** What a poll finds: nothing to do, something to write, or an exception. */
  datatype Answer = No | Yes | Broken

  /** The answer of a poll that writes nothing. */
  function Ready(env: Env, steps: Steps, tx: Tx): Answer {
    if !tx.run.record.status.Waiting? then No else
    match WaitingOf(tx.run.executions)
    case None => No
    case Some(e) =>
      if e.node !in steps then Broken
      else if steps[e.node].ActionStep? then
        match ChildOf(tx.run.invocations, e.uid)
        case None => Broken
        case Some(i) =>
          if i.data.call.None? then No
          else if i.data.call.value >= |tx.connectors.calls| then Broken
          else
            var call := tx.connectors.calls[i.data.call.value].call;
            if call.status.Queued? || call.status.Claimed? then No
            else if call.status.Unknown? && i.data.status.Unknown? then No
            else Yes
      else
        match ChildOf(tx.run.waits, e.uid)
        case None => Broken
        case Some(w) =>
          match (steps[e.node], w.data.condition)
          case (HumanStep(_, _, _, _, _, _), HumanWait(_, _, Some(deadline))) => if deadline > env.now then No else Yes
          case (WaitStep(_, _, _, _), TimeWait(until)) => if until > env.now then No else Yes
          case _ => No
  }

  function DecisionOutput(decision: string, subject: Obj): Obj {
    map["decision" := Str(decision), "subject" := Object(subject)]
  }

  /** The rest of a transaction that has begun with this move. */
  function Resume(env: Env, steps: Steps, start: Id, move: Move): TxResult
    requires Sound(steps, start) && (move.Goto? ==> move.node in steps)
  {
    match move
    case Abort => Raised
    case Halt(after) => Done(after)
    case Goto(after, next) => Enter(env, steps, start, after, next)
  }

  /** Apply the result of a completed, failed or unknown call to the waiting action step. */
  function ApplyCall(tx: Tx, e: Execution, i: Invocation, call: C.Call, next: Id): Move {
    var run := tx.run;
    if call.status.Unknown? then
      var unknown := i.(data := i.data.(status := InvocationStatus.Unknown, error := true));
      Halt(tx.(run := run.(invocations := Save(run.invocations, unknown))))
    else if call.status.Failed? then
      var failed := i.(data := i.data.(status := InvocationStatus.Failed, error := true));
      Halt(tx.(run := FailStep(run.(invocations := Save(run.invocations, failed)), e)))
    else
      var done := i.(data := i.data.(status := InvocationStatus.Completed, output := call.output,
                                     externalRef := call.externalRef, error := false));
      var finished := FinishStep(run.(invocations := Save(run.invocations, done)), e, StepStatus.Completed,
                                 call.output);
      Goto(tx.(run := finished), next)
  }

  /** What a writing poll does to the waiting step, when `Ready` says there is something to write. */
  function PollMove(env: Env, steps: Steps, tx: Tx): (move: Move)
    requires Ready(env, steps, tx).Yes?
    ensures move.Goto? ==> move.node in Successors(steps[WaitingOf(tx.run.executions).value.node])
  {
    var run := tx.run;
    var e := WaitingOf(run.executions).value;
    var step := steps[e.node];
    match step
    case ActionStep(_, _, _, _, _, _, _, next) =>
      var i := ChildOf(run.invocations, e.uid).value;
      ApplyCall(tx, e, i, tx.connectors.calls[i.data.call.value].call, next)
    case HumanStep(_, _, _, _, _, timeout) =>
      var w := ChildOf(run.waits, e.uid).value;
      var resolved := Resolved(w, map["decision" := Str("timeout")], env.now);
      var finished := FinishStep(run.(waits := Save(run.waits, resolved)), e, StepStatus.Completed,
                                 Some(DecisionOutput("timeout", e.inputs)));
      if timeout.None? then Abort else Goto(tx.(run := finished), timeout.value.exit)
    case WaitStep(_, _, _, next) =>
      var w := ChildOf(run.waits, e.uid).value;
      var resolved := Resolved(w, map["fired_at" := Str(env.lib.isoFormat(env.now))], env.now);
      var finished := FinishStep(run.(waits := Save(run.waits, resolved)), e, StepStatus.Completed,
                                 Some(FiredOutput(env.lib, w.data.condition.until, env.now)));
      Goto(tx.(run := finished), next)
  }

  /** A poll that writes, when `Ready` says there is something to write. */
  function Poll(env: Env, steps: Steps, start: Id, tx: Tx): TxResult
    requires Sound(steps, start) && Ready(env, steps, tx).Yes?
  {
    Resume(env, steps, start, PollMove(env, steps, tx))
  }

  datatype Verdict = Approve | Reject

  function VerdictText(v: Verdict): string {
    if v.Approve? then "approve" else "reject"
  }

  /** A human decision on the expected version. */
  datatype Decision = Decision(expectedVersion: nat, verdict: Verdict, actor: string, reason: string)

  predicate Decidable(steps: Steps, run: Run, expectedVersion: nat) {
    && run.record.version == expectedVersion
    && var e := WaitingOf(run.executions);
    e.Some? && e.value.node in steps && steps[e.value.node].HumanStep?
  }

  function DecidedFields(env: Env, d: Decision): Obj {
    map["decision" := Str(VerdictText(d.verdict)), "actor" := Str(d.actor), "reason" := Str(d.reason),
        "decided_at" := Str(env.lib.isoFormat(env.now))]
  }

  function DecideMove(env: Env, steps: Steps, tx: Tx, d: Decision): (move: Move)
    requires Decidable(steps, tx.run, d.expectedVersion)
    ensures move.Goto? ==> move.node in Successors(steps[WaitingOf(tx.run.executions).value.node])
  {
    var run := tx.run;
    var e := WaitingOf(run.executions).value;
    var step := steps[e.node];
    match ChildOf(run.waits, e.uid)
    case None => Abort
    case Some(w) =>
      var fields := DecidedFields(env, d);
      var resolved := Resolved(w, fields, env.now);
      var finished := FinishStep(run.(waits := Save(run.waits, resolved)), e, StepStatus.Completed,
                                 Some(fields["subject" := Object(e.inputs)]));
      Goto(tx.(run := finished), if d.verdict.Approve? then step.onApprove else step.onReject)
  }

  function Decide(env: Env, steps: Steps, start: Id, tx: Tx, d: Decision): TxResult
    requires Sound(steps, start) && Decidable(steps, tx.run, d.expectedVersion)
  {
    Resume(env, steps, start, DecideMove(env, steps, tx, d))
  }

  /** Every transaction after the first raises the version. */
  function Committed(run: Run): Run {
    run.(record := run.record.(version := run.record.version + 1))
  }

  function NewRun(project: Id, body: Body, inputs: Obj): Run {
    Run(Record(project, body, inputs, RunStatus.Running, 1, NoResult), [], [], [], 0)
  }
}

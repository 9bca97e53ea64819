/** Project-defined workflow definitions, the references and successors of their steps, and
    what it means for a definition to be at fault, stated over all paths of its graph. */
module Definitions {
  import opened Values
  import opened Graphs
  import C = Connectors

  /** A reference, already parsed: `input.<keys>`, `steps.<id>.<keys>`, or malformed text. */
  datatype Ref = InputRef(keys: seq<string>) | StepRef(step: Id, keys: seq<string>) | BadRef(text: string)

  datatype Piece = Text(text: string) | Hole(ref: Ref)

  datatype Value = RefValue(ref: Ref) | Literal(json: Json) | Template(pieces: seq<Piece>)

  datatype CompareOp = Eq | Ne | Lt | Le | Gt | Ge

  datatype Condition =
    | Compare(op: CompareOp, left: Value, right: Value)
    | Exists(ref: Ref)
    | All(conditions: seq<Condition>)
    | Any(conditions: seq<Condition>)
    | Not(condition: Condition)

  datatype Case = Case(when: Condition, next: Id)

  /** `timeout_seconds` and `on_timeout` are given together or not at all. */
  datatype Timeout = Timeout(seconds: nat, exit: Id)

  datatype Step =
    | ActionStep(id: Id, connector: Id, action: string, version: string,
                 inputs: map<string, Value>, approval: Option<Id>, standing: bool, next: Id)
    | ConditionStep(id: Id, cases: seq<Case>, otherwise: Id)
    | HumanStep(id: Id, question: string, subject: map<string, Value>,
                onApprove: Id, onReject: Id, timeout: Option<Timeout>)
    | WaitStep(id: Id, until: Value, offset: int, next: Id)
    | EndStep(id: Id, outcome: string, result: map<string, Value>)

  type Steps = map<Id, Step>

  datatype Body = Body(name: string, inputsSchema: Schema, start: Id, steps: seq<Step>)

  function Successors(step: Step): seq<Id> {
    match step
    case ConditionStep(_, cases, otherwise) => seq(|cases|, i requires 0 <= i < |cases| => cases[i].next) + [otherwise]
    case HumanStep(_, _, _, onApprove, onReject, timeout) =>
      [onApprove, onReject] + (if timeout.None? then [] else [timeout.value.exit])
    case EndStep(_, _, _) => []
    case ActionStep(_, _, _, _, _, _, _, next) => [next]
    case WaitStep(_, _, _, next) => [next]
  }

  // ---- References

  function PieceRefs(pieces: seq<Piece>): seq<Ref> {
    if pieces == [] then []
    else (if pieces[0].Hole? then [pieces[0].ref] else []) + PieceRefs(pieces[1..])
  }

  function ValueRefs(value: Value): seq<Ref> {
    match value
    case RefValue(ref) => [ref]
    case Literal(_) => []
    case Template(pieces) => PieceRefs(pieces)
  }

  function ConditionRefs(condition: Condition): set<Ref> {
    match condition
    case Compare(_, left, right) => (set r | r in ValueRefs(left)) + (set r | r in ValueRefs(right))
    case Exists(ref) => {ref}
    case Not(inner) => ConditionRefs(inner)
    case All(conditions) => set c, r | c in conditions && r in ConditionRefs(c) :: r
    case Any(conditions) => set c, r | c in conditions && r in ConditionRefs(c) :: r
  }

  function FieldRefs(values: map<string, Value>): set<Ref> {
    set name, r | name in values && r in ValueRefs(values[name]) :: r
  }

  function StepRefs(step: Step): set<Ref> {
    match step
    case ActionStep(_, _, _, _, inputs, _, _, _) => FieldRefs(inputs)
    case HumanStep(_, _, subject, _, _, _) => FieldRefs(subject)
    case WaitStep(_, until, _, _) => set r | r in ValueRefs(until)
    case EndStep(_, _, result) => FieldRefs(result)
    case ConditionStep(_, cases, _) => set c, r | c in cases && r in ConditionRefs(c.when) :: r
  }

  // ---- The graph of a definition

  /** Steps by id; a later duplicate replaces an earlier one. */
  function StepMap(list: seq<Step>): Steps {
    if list == [] then map[]
    else StepMap(list[..|list| - 1])[list[|list| - 1].id := list[|list| - 1]]
  }

  function EdgesOf(steps: Steps): Edges {
    set n, t | n in steps && t in Successors(steps[n]) :: (n, t)
  }

  lemma {:induction false} StepMapIds(list: seq<Step>)
    ensures forall s :: s in list ==> s.id in StepMap(list)
    ensures forall n :: n in StepMap(list) ==> StepMap(list)[n] in list && StepMap(list)[n].id == n
  {
    if list != [] {
      StepMapIds(list[..|list| - 1]);
      assert list == list[..|list| - 1] + [list[|list| - 1]];
    }
  }

  /** Without duplicate ids the map holds every listed step. */
  lemma {:induction false} StepMapHolds(list: seq<Step>)
    requires forall i, j :: 0 <= i < j < |list| ==> list[i].id != list[j].id
    ensures forall s :: s in list ==> s.id in StepMap(list) && StepMap(list)[s.id] == s
  {
    if list != [] {
      var front, last := list[..|list| - 1], list[|list| - 1];
      StepMapHolds(front);
      forall s | s in list ensures s.id in StepMap(list) && StepMap(list)[s.id] == s {
        if s != last {
          assert s in front;
        }
      }
    }
  }

  // ---- Faults

  datatype Problem =
    | ReservedName
    | BadInputsSchema
    | DuplicateStep(step: Id)
    | MissingStart
    | MissingTarget(step: Id, target: Id)
    | BackEdge(step: Id, target: Id)
    | Unreachable(step: Id)
    | InvalidReference(step: Id, ref: Ref)
    | UndeclaredInput(step: Id, name: string)
    | NotBefore(step: Id, source: Id)
    | ReadsEnd(step: Id, source: Id)
    | NoConnector(step: Id)
    | NoAction(step: Id)
    | MissingActionInput(step: Id, name: string)
    | UnknownActionInput(step: Id, name: string)
    | ReadOnlyAuthorized(step: Id)
    | AuthorizationCount(step: Id)
    | NotHuman(step: Id, approval: Id)
    | Unapproved(step: Id, approval: Id)

  predicate ReservedPrefix(name: string) {
    "life." <= name
  }

  /** The connector action an action step names, if the project registered it. */
  function ActionOf(step: Step, connections: map<Id, C.Connection>): Option<C.Action>
    requires step.ActionStep?
  {
    if step.connector !in connections then None
    else C.FindAction(connections[step.connector].actions, step.action, step.version)
  }

  /** The exits of an approval step that do not approve. */
  function RefusalExits(step: Step): seq<Id>
    requires step.HumanStep?
  {
    [step.onReject] + (if step.timeout.None? then [] else [step.timeout.value.exit])
  }

  /** `approval` is passed on every path to `n`, and no refusal leads to `n`. */
  ghost predicate Guards(steps: Steps, start: Id, approval: Id, n: Id)
    requires approval in steps && steps[approval].HumanStep?
  {
    && Dominates(EdgesOf(steps), start, approval, n)
    && forall exit :: exit in RefusalExits(steps[approval]) ==> !Reach(EdgesOf(steps), exit, n)
  }

  predicate IsAction(steps: Steps, n: Id) {
    n in steps && steps[n].ActionStep?
  }

  /** `n` is an action step that names a writing action with exactly one authorization. */
  predicate SingleAuthorization(steps: Steps, connections: map<Id, C.Connection>, n: Id) {
    && IsAction(steps, n)
    && ActionOf(steps[n], connections).Some?
    && !ActionOf(steps[n], connections).value.readOnly
    && (steps[n].approval.Some? != steps[n].standing)
  }

  /** What each reported problem claims about the definition. */
  ghost predicate Faulty(body: Body, connections: map<Id, C.Connection>, problem: Problem) {
    var steps := StepMap(body.steps);
    var edges := EdgesOf(steps);
    match problem
    case ReservedName => ReservedPrefix(body.name)
    case BadInputsSchema => !body.inputsSchema.acceptable
    case DuplicateStep(n) =>
      exists i, j :: 0 <= i < j < |body.steps| && body.steps[i].id == n == body.steps[j].id
    case MissingStart => body.start !in steps
    case MissingTarget(n, t) =>
      (exists s :: s in body.steps && s.id == n && t in Successors(s)) && t !in steps
    case BackEdge(n, t) => Reach(edges, body.start, n) && OnCycle(edges, n, t)
    case Unreachable(n) => n in steps && !Reach(edges, body.start, n)
    case InvalidReference(n, ref) => n in steps && ref in StepRefs(steps[n]) && ref.BadRef?
    case UndeclaredInput(n, name) =>
      && n in steps && body.inputsSchema.properties.Some? && name !in body.inputsSchema.properties.value
      && exists ref :: ref in StepRefs(steps[n]) && ref.InputRef? && |ref.keys| > 0 && ref.keys[0] == name
    case NotBefore(n, source) =>
      && n in steps && (exists ref :: ref in StepRefs(steps[n]) && ref.StepRef? && ref.step == source)
      && (source == n || source !in steps || !Dominates(edges, body.start, source, n))
    case ReadsEnd(n, source) =>
      && n in steps && (exists ref :: ref in StepRefs(steps[n]) && ref.StepRef? && ref.step == source)
      && source != n && source in steps && Dominates(edges, body.start, source, n) && steps[source].EndStep?
    case NoConnector(n) => IsAction(steps, n) && steps[n].connector !in connections
    case NoAction(n) =>
      IsAction(steps, n) && steps[n].connector in connections && ActionOf(steps[n], connections).None?
    case MissingActionInput(n, name) =>
      && IsAction(steps, n) && ActionOf(steps[n], connections).Some?
      && name in ActionOf(steps[n], connections).value.inputSchema.required && name !in steps[n].inputs
    case UnknownActionInput(n, name) =>
      && IsAction(steps, n) && ActionOf(steps[n], connections).Some?
      && var schema := ActionOf(steps[n], connections).value.inputSchema;
      schema.closed && schema.properties.Some? && name in steps[n].inputs && name !in schema.properties.value
    case ReadOnlyAuthorized(n) =>
      && IsAction(steps, n) && ActionOf(steps[n], connections).Some?
      && ActionOf(steps[n], connections).value.readOnly && (steps[n].approval.Some? || steps[n].standing)
    case AuthorizationCount(n) =>
      && IsAction(steps, n) && ActionOf(steps[n], connections).Some?
      && !ActionOf(steps[n], connections).value.readOnly && steps[n].approval.Some? == steps[n].standing
    case NotHuman(n, h) =>
      && SingleAuthorization(steps, connections, n) && steps[n].approval == Some(h)
      && !(h in steps && steps[h].HumanStep?)
    case Unapproved(n, h) =>
      && SingleAuthorization(steps, connections, n) && steps[n].approval == Some(h)
      && h in steps && steps[h].HumanStep? && !Guards(steps, body.start, h, n)
  }

  /** A definition that can run as written: nothing is at fault. */
  ghost predicate Acceptable(body: Body, connections: map<Id, C.Connection>) {
    forall problem :: !Faulty(body, connections, problem)
  }

  // ---- What acceptance gives the engine

  /** The static facts about the graph on which every run relies. */
  ghost predicate Sound(steps: Steps, start: Id) {
    && start in steps
    && (forall n :: n in steps ==> steps[n].id == n)
    && (forall n, t :: n in steps && t in Successors(steps[n]) ==> t in steps)
    && Acyclic(EdgesOf(steps))
    && (forall n :: n in steps ==> Reach(EdgesOf(steps), start, n))
  }

  lemma AcceptedIsSound(body: Body, connections: map<Id, C.Connection>)
    requires Acceptable(body, connections)
    ensures Sound(StepMap(body.steps), body.start)
  {
    var steps := StepMap(body.steps);
    StepMapIds(body.steps);
    assert !Faulty(body, connections, MissingStart);
    forall n, t | n in steps && t in Successors(steps[n]) ensures t in steps {
      assert !Faulty(body, connections, MissingTarget(n, t));
    }
    forall n | n in steps ensures Reach(EdgesOf(steps), body.start, n) {
      assert !Faulty(body, connections, Unreachable(n));
    }
    forall a, b ensures !OnCycle(EdgesOf(steps), a, b) {
      assert !Faulty(body, connections, BackEdge(a, b));
    }
  }

  /** Each step reference of an accepted step names an earlier step that has an output. */
  ghost predicate ReadsEarlier(steps: Steps, start: Id, n: Id)
    requires n in steps
  {
    forall ref :: ref in StepRefs(steps[n]) && ref.StepRef? ==>
      && ref.step != n && ref.step in steps && !steps[ref.step].EndStep?
      && Dominates(EdgesOf(steps), start, ref.step, n)
  }

  lemma AcceptedReads(body: Body, connections: map<Id, C.Connection>, n: Id)
    requires Acceptable(body, connections)
    requires n in StepMap(body.steps)
    ensures ReadsEarlier(StepMap(body.steps), body.start, n)
    ensures forall ref :: ref in StepRefs(StepMap(body.steps)[n]) ==> !ref.BadRef?
  {
    var steps := StepMap(body.steps);
    forall ref | ref in StepRefs(steps[n]) ensures !ref.BadRef? {
      assert !Faulty(body, connections, InvalidReference(n, ref));
    }
    forall ref | ref in StepRefs(steps[n]) && ref.StepRef?
      ensures ref.step != n && ref.step in steps && !steps[ref.step].EndStep?
      ensures Dominates(EdgesOf(steps), body.start, ref.step, n)
    {
      assert !Faulty(body, connections, NotBefore(n, ref.step));
      assert !Faulty(body, connections, ReadsEnd(n, ref.step));
    }
  }

  /** An accepted action step has a registered action, and an approval it names guards it. */
  lemma AcceptedAction(body: Body, connections: map<Id, C.Connection>, n: Id)
    requires Acceptable(body, connections)
    requires IsAction(StepMap(body.steps), n)
    ensures var step := StepMap(body.steps)[n];
            && ActionOf(step, connections).Some?
            && (ActionOf(step, connections).value.readOnly || step.approval.Some? || step.standing)
            && (step.approval.Some? ==>
                  && step.approval.value in StepMap(body.steps)
                  && StepMap(body.steps)[step.approval.value].HumanStep?
                  && Guards(StepMap(body.steps), body.start, step.approval.value, n))
  {
    var step := StepMap(body.steps)[n];
    assert !Faulty(body, connections, NoConnector(n));
    assert !Faulty(body, connections, NoAction(n));
    assert !Faulty(body, connections, ReadOnlyAuthorized(n));
    assert !Faulty(body, connections, AuthorizationCount(n));
    if step.approval.Some? {
      assert !Faulty(body, connections, NotHuman(n, step.approval.value));
      assert !Faulty(body, connections, Unapproved(n, step.approval.value));
    }
  }

  /** The fields that a call of the action gets: all required ones, and no unknown ones if the schema is closed. */
  predicate FieldsFit(schema: Schema, names: set<string>) {
    schema.required <= names && (schema.closed && schema.properties.Some? ==> names <= schema.properties.value)
  }

  /** An accepted action step gives its action the fields that the schema asks for; it reads only declared inputs
      of the run; and the steps of an accepted definition have different ids. */
  lemma AcceptedFields(body: Body, connections: map<Id, C.Connection>, n: Id)
    requires Acceptable(body, connections) && n in StepMap(body.steps)
    ensures var step := StepMap(body.steps)[n];
            && (step.ActionStep? ==> ActionOf(step, connections).Some?
                                     && FieldsFit(ActionOf(step, connections).value.inputSchema, step.inputs.Keys))
            && (body.inputsSchema.properties.Some? ==>
                  forall ref :: ref in StepRefs(step) && ref.InputRef? && |ref.keys| > 0 ==>
                    ref.keys[0] in body.inputsSchema.properties.value)
    ensures forall i, j :: 0 <= i < j < |body.steps| ==> body.steps[i].id != body.steps[j].id
    ensures body.inputsSchema.acceptable && !("life." <= body.name)
  {
    var step := StepMap(body.steps)[n];
    assert !Faulty(body, connections, BadInputsSchema) && !Faulty(body, connections, ReservedName);
    if step.ActionStep? {
      FieldsAreFit(body, connections, n);
    }
    forall ref | ref in StepRefs(step) && ref.InputRef? && |ref.keys| > 0 && body.inputsSchema.properties.Some?
      ensures ref.keys[0] in body.inputsSchema.properties.value
    {
      assert !Faulty(body, connections, UndeclaredInput(n, ref.keys[0]));
    }
    forall i, j | 0 <= i < j < |body.steps| ensures body.steps[i].id != body.steps[j].id {
      assert !Faulty(body, connections, DuplicateStep(body.steps[i].id));
    }
  }

  lemma FieldsAreFit(body: Body, connections: map<Id, C.Connection>, n: Id)
    requires Acceptable(body, connections) && IsAction(StepMap(body.steps), n)
    ensures var step := StepMap(body.steps)[n];
            ActionOf(step, connections).Some?
            && FieldsFit(ActionOf(step, connections).value.inputSchema, step.inputs.Keys)
  {
    AcceptedAction(body, connections, n);
    var step := StepMap(body.steps)[n];
    var schema := ActionOf(step, connections).value.inputSchema;
    forall name | name in schema.required ensures name in step.inputs {
      assert !Faulty(body, connections, MissingActionInput(n, name));
    }
    if schema.closed && schema.properties.Some? {
      forall name | name in step.inputs ensures name in schema.properties.value {
        assert !Faulty(body, connections, UnknownActionInput(n, name));
      }
    }
  }

  /** Registering more connectors never makes an accepted definition unacceptable. */
  lemma AcceptableMonotone(body: Body, few: map<Id, C.Connection>, more: map<Id, C.Connection>)
    requires Acceptable(body, few)
    requires forall c :: c in few ==> c in more && more[c] == few[c]
    ensures Acceptable(body, more)
  {
    var steps := StepMap(body.steps);
    forall problem ensures !Faulty(body, more, problem) {
      assert !Faulty(body, few, problem);
      if AboutAction(problem) && IsAction(steps, problem.step) {
        assert !Faulty(body, few, NoConnector(problem.step));
      }
    }
  }

  ghost predicate AboutAction(problem: Problem) {
    problem.NoConnector? || problem.NoAction? || problem.MissingActionInput? || problem.UnknownActionInput?
    || problem.ReadOnlyAuthorized? || problem.AuthorizationCount? || problem.NotHuman? || problem.Unapproved?
  }
}

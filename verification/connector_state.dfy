/** Connector calls, claims and receipts: the durable state shared by the connector service
    and the workflow engine, and the pure effect of every transaction on it.

    A call's identity is its index in `calls`, so identities are fresh and ordered by
    insertion, like the rows of the call table. */
module Connectors {
  import opened Values

  type Id = string

  datatype Action = Action(name: string, version: string, readOnly: bool,
                           inputSchema: Schema, outputSchema: Schema)

  datatype Connection = Connection(project: Id, credential: string, connectorType: string,
                                   actions: seq<Action>)

  datatype CallStatus = Queued | Claimed | Completed | Failed | Unknown

  datatype Call = Call(id: nat, connector: Id, project: Id, action: Action, inputs: Obj,
                       writeAuthorized: bool, status: CallStatus, output: Option<Obj>,
                       error: Option<string>, externalRef: Option<string>)

  /** The claim of a call: the worker that owns it and the token its results must carry. */
  datatype Claim = Claim(owner: Id, token: nat)

  datatype Entry = Entry(call: Call, claim: Option<Claim>)

  datatype Mode = ExecuteMode | ReconcileMode

  /** The four keyed requests; one request's content is its fingerprint. */
  datatype Request =
    | InvokeRequest(action: string, version: string, inputs: Obj, authorizeWrite: bool)
    | ReconcileRequest
    | ReportRequest(callId: nat, token: nat, status: CallStatus, output: Option<Obj>,
                    error: Option<string>, externalRef: Option<string>)

  datatype Operation = InvokeOp | ReconcileOp | ReportOp

  /** A receipt namespace: an operation and its target. */
  datatype Scope = Scope(operation: Operation, target: string) | CallScope(callId: nat)

  datatype Receipt = Receipt(content: Request, result: Call)

  datatype Error =
    | UnknownConnector | UnknownAction | WriteNotAuthorized | PayloadRejected
    | BadCredentials | ReceiptConflict | UnknownCall | NotReconcilable
    | NotThisClaim | AlreadyFinal | MalformedResult | AlreadyRegistered

  datatype State = State(connections: map<Id, Connection>, calls: seq<Entry>,
                         receipts: map<(Scope, string), Receipt>, tokens: nat)

  // ---- Queueing a call

  function FindAction(actions: seq<Action>, name: string, version: string): (r: Option<Action>)
    ensures r.Some? ==> r.value in actions && r.value.name == name && r.value.version == version
    ensures r.None? ==> forall a :: a in actions ==> a.name != name || a.version != version
  {
    if actions == [] then None
    else if actions[0].name == name && actions[0].version == version then Some(actions[0])
    else FindAction(actions[1..], name, version)
  }

  /** The call that `queue_connector_call` stores, or why it refuses. */
  function NewCall(lib: Library, s: State, connector: Id, name: string, version: string,
                   inputs: Obj, authorizeWrite: bool): (r: Result<Call, Error>)
  {
    if connector !in s.connections then Err(UnknownConnector) else
    var connection := s.connections[connector];
    match FindAction(connection.actions, name, version)
    case None => Err(UnknownAction)
    case Some(action) =>
      if !action.readOnly && !authorizeWrite then Err(WriteNotAuthorized)
      else if !lib.conforms(action.inputSchema, inputs) then Err(PayloadRejected)
      else Ok(Call(|s.calls|, connector, connection.project, action, inputs, authorizeWrite,
                   Queued, None, None, None))
  }

  function WithCall(s: State, call: Call): State {
    s.(calls := s.calls + [Entry(call, None)])
  }

  // ---- Receipts

  /** The result recorded for this content, nothing for an unused key, or a conflict. */
  function Recorded(s: State, scope: Scope, key: string, content: Request): Result<Option<Call>, Error> {
    if (scope, key) !in s.receipts then Ok(None)
    else if s.receipts[(scope, key)].content == content then Ok(Some(s.receipts[(scope, key)].result))
    else Err(ReceiptConflict)
  }

  function Remembered(s: State, scope: Scope, key: string, content: Request, result: Call): State {
    s.(receipts := s.receipts[(scope, key) := Receipt(content, result)])
  }

  // ---- Transactions

  datatype Event =
    | Register(connector: Id, connection: Connection)
    | Queue(connector: Id, name: string, version: string, inputs: Obj, authorizeWrite: bool)
    | Invoke(connector: Id, key: string, request: Request)
    | Reconcile(callId: nat, key: string)
    | ClaimNext(connector: Id, credential: string, worker: Id)
    | Report(connector: Id, credential: string, delivery: string, request: Request)

  datatype Response =
    | Registered
    | Stored(call: Call)
    | Answered(call: Call)
    | Handed(call: Call, token: nat, mode: Mode)
    | Idle
    | Refused(error: Error)

  datatype Effect = Effect(state: State, response: Response)

  function Init(): State {
    State(map[], [], map[], 0)
  }

  predicate Authorized(s: State, connector: Id, credential: string) {
    connector in s.connections && credential != "" && s.connections[connector].credential == credential
  }

  /** The first call of the connector, from index `i`, that this worker already owns. */
  function FirstOwned(calls: seq<Entry>, connector: Id, worker: Id, i: nat): (r: Option<nat>)
    requires i <= |calls|
    ensures r.Some? ==> i <= r.value < |calls| && Owned(calls[r.value], connector, worker)
    ensures forall k :: i <= k < (if r.Some? then r.value else |calls|) ==> !Owned(calls[k], connector, worker)
    decreases |calls| - i
  {
    if i == |calls| then None
    else if Owned(calls[i], connector, worker) then Some(i)
    else FirstOwned(calls, connector, worker, i + 1)
  }

  predicate Owned(e: Entry, connector: Id, worker: Id) {
    e.call.connector == connector && e.call.status.Claimed? && e.claim.Some? && e.claim.value.owner == worker
  }

  /** The first queued call of the connector from index `i`. */
  function FirstQueued(calls: seq<Entry>, connector: Id, i: nat): (r: Option<nat>)
    requires i <= |calls|
    ensures r.Some? ==> i <= r.value < |calls| && Waits(calls[r.value], connector)
    ensures forall k :: i <= k < (if r.Some? then r.value else |calls|) ==> !Waits(calls[k], connector)
    decreases |calls| - i
  {
    if i == |calls| then None
    else if Waits(calls[i], connector) then Some(i)
    else FirstQueued(calls, connector, i + 1)
  }

  predicate Waits(e: Entry, connector: Id) {
    e.call.connector == connector && e.call.status.Queued?
  }

  predicate WellShaped(r: Request)
    requires r.ReportRequest?
  {
    if r.status.Completed? then r.output.Some? && r.error.None?
    else (r.status.Failed? || r.status.Unknown?) && r.output.None? && r.error.Some? && r.error.value != ""
  }

  /** A call queued by a workflow run in its own transaction, without a receipt. */
  function DoQueue(lib: Library, s: State, connector: Id, name: string, version: string, inputs: Obj,
                   authorizeWrite: bool): Effect
  {
    match NewCall(lib, s, connector, name, version, inputs, authorizeWrite)
    case Err(error) => Effect(s, Refused(error))
    case Ok(call) => Effect(WithCall(s, call), Stored(call))
  }

  function DoInvoke(lib: Library, s: State, connector: Id, key: string, r: Request): Effect
    requires r.InvokeRequest?
  {
    match Recorded(s, Scope(InvokeOp, connector), key, r)
    case Err(error) => Effect(s, Refused(error))
    case Ok(Some(call)) => Effect(s, Answered(call))
    case Ok(None) =>
      match NewCall(lib, s, connector, r.action, r.version, r.inputs, r.authorizeWrite)
      case Err(error) => Effect(s, Refused(error))
      case Ok(call) => Effect(Remembered(WithCall(s, call), Scope(InvokeOp, connector), key, r, call), Answered(call))
  }

  function DoReconcile(s: State, callId: nat, key: string): Effect {
    match Recorded(s, CallScope(callId), key, ReconcileRequest)
    case Err(error) => Effect(s, Refused(error))
    case Ok(Some(call)) => Effect(s, Answered(call))
    case Ok(None) =>
      if callId >= |s.calls| then Effect(s, Refused(UnknownCall))
      else
        var e := s.calls[callId];
        if !e.call.status.Unknown? || e.claim.None? then Effect(s, Refused(NotReconcilable))
        else
          var call := e.call.(status := Claimed);
          Effect(Remembered(s.(calls := s.calls[callId := e.(call := call)]), CallScope(callId), key, ReconcileRequest,
                            call),
                 Answered(call))
  }

  function DoClaim(s: State, connector: Id, credential: string, worker: Id): Effect {
    if !Authorized(s, connector, credential) then Effect(s, Refused(BadCredentials))
    else match FirstOwned(s.calls, connector, worker, 0)
      case Some(i) => Effect(s, Handed(s.calls[i].call, s.calls[i].claim.value.token, ReconcileMode))
      case None =>
        match FirstQueued(s.calls, connector, 0)
        case None => Effect(s, Idle)
        case Some(i) =>
          var call := s.calls[i].call.(status := Claimed);
          Effect(s.(calls := s.calls[i := Entry(call, Some(Claim(worker, s.tokens)))], tokens := s.tokens + 1),
                 Handed(call, s.tokens, ExecuteMode))
  }

  function Reported(call: Call, r: Request): Call
    requires r.ReportRequest?
  {
    call.(status := r.status, output := r.output, error := r.error, externalRef := r.externalRef)
  }

  function DoReport(lib: Library, s: State, connector: Id, credential: string, delivery: string, r: Request): Effect
    requires r.ReportRequest?
  {
    if !WellShaped(r) then Effect(s, Refused(MalformedResult))
    else if !Authorized(s, connector, credential) then Effect(s, Refused(BadCredentials))
    else match Recorded(s, Scope(ReportOp, connector), delivery, r)
      case Err(error) => Effect(s, Refused(error))
      case Ok(Some(call)) => Effect(s, Answered(call))
      case Ok(None) =>
        if r.callId >= |s.calls| then Effect(s, Refused(UnknownCall))
        else
          var e := s.calls[r.callId];
          if e.call.connector != connector || e.claim.None? || e.claim.value.token != r.token
          then Effect(s, Refused(NotThisClaim))
          else if !e.call.status.Claimed? && !e.call.status.Unknown? then Effect(s, Refused(AlreadyFinal))
          else if r.output.Some? && !lib.conforms(e.call.action.outputSchema, r.output.value)
          then Effect(s, Refused(PayloadRejected))
          else
            var call := Reported(e.call, r);
            Effect(Remembered(s.(calls := s.calls[r.callId := e.(call := call)]), Scope(ReportOp, connector), delivery,
                              r, call),
                   Answered(call))
  }

  /** Registration only adds connections: identities are new. */
  function DoRegister(s: State, connector: Id, connection: Connection): Effect {
    if connector in s.connections then Effect(s, Refused(AlreadyRegistered))
    else Effect(s.(connections := s.connections[connector := connection]), Registered)
  }

  function Apply(lib: Library, s: State, e: Event): Effect {
    match e
    case Register(connector, connection) => DoRegister(s, connector, connection)
    case Queue(connector, name, version, inputs, authorizeWrite) =>
      DoQueue(lib, s, connector, name, version, inputs, authorizeWrite)
    case Invoke(connector, key, r) =>
      if r.InvokeRequest? then DoInvoke(lib, s, connector, key, r) else Effect(s, Refused(MalformedResult))
    case Reconcile(callId, key) => DoReconcile(s, callId, key)
    case ClaimNext(connector, credential, worker) => DoClaim(s, connector, credential, worker)
    case Report(connector, credential, delivery, r) =>
      if r.ReportRequest? then DoReport(lib, s, connector, credential, delivery, r)
        else Effect(s, Refused(MalformedResult))
  }

  // ---- What every transaction keeps

  /** Tokens of different calls differ. */
  ghost predicate TokensDiffer(calls: seq<Entry>, i: nat, j: nat)
    requires i < |calls| && j < |calls|
  {
    calls[i].claim.Some? && calls[j].claim.Some? ==> calls[i].claim.value.token != calls[j].claim.value.token
  }

  ghost predicate EntryValid(s: State, i: nat)
    requires i < |s.calls|
  {
    var e := s.calls[i];
    && e.call.id == i
    && e.call.connector in s.connections
    && e.call.project == s.connections[e.call.connector].project
    && e.call.action in s.connections[e.call.connector].actions
    && (e.call.status.Queued? <==> e.claim.None?)
    && (e.claim.Some? ==> e.claim.value.token < s.tokens)
    && (e.call.status.Completed? ==> e.call.output.Some?)
    && (!e.call.action.readOnly ==> e.call.writeAuthorized)
  }

  ghost predicate Valid(s: State) {
    && (forall i :: 0 <= i < |s.calls| ==> EntryValid(s, i))
    && (forall i, j :: 0 <= i < j < |s.calls| ==> TokensDiffer(s.calls, i, j))
  }

  predicate Final(status: CallStatus) {
    status.Completed? || status.Failed?
  }

  /** How one call may change: its request never, a claim and a final result never again. */
  predicate EntryEvolves(a: Entry, b: Entry) {
    && b.call == a.call.(status := b.call.status, output := b.call.output, error := b.call.error,
                         externalRef := b.call.externalRef)
    && (a.claim.Some? ==> b.claim == a.claim)
    && (Final(a.call.status) ==> b == a)
    && (b.call.status.Queued? ==> b == a)
  }

  ghost predicate Evolves(s: State, t: State) {
    && (forall c :: c in s.connections ==> c in t.connections && t.connections[c] == s.connections[c])
    && |s.calls| <= |t.calls|
    && (forall i :: 0 <= i < |s.calls| ==> EntryEvolves(s.calls[i], t.calls[i]))
    && (forall k :: k in s.receipts ==> k in t.receipts && t.receipts[k] == s.receipts[k])
    && s.tokens <= t.tokens
  }

  lemma EvolvesTrans(s: State, t: State, u: State)
    requires Evolves(s, t) && Evolves(t, u)
    ensures Evolves(s, u)
  {
    forall i | 0 <= i < |s.calls| ensures EntryEvolves(s.calls[i], u.calls[i]) {
      assert EntryEvolves(s.calls[i], t.calls[i]) && EntryEvolves(t.calls[i], u.calls[i]);
    }
  }

  lemma WithCallKeeps(lib: Library, s: State, connector: Id, name: string, version: string, inputs: Obj,
                      authorizeWrite: bool)
    requires Valid(s) && NewCall(lib, s, connector, name, version, inputs, authorizeWrite).Ok?
    ensures var t := WithCall(s, NewCall(lib, s, connector, name, version, inputs, authorizeWrite).value);
            Valid(t) && Evolves(s, t)
  {
    var t := WithCall(s, NewCall(lib, s, connector, name, version, inputs, authorizeWrite).value);
    forall i | 0 <= i < |t.calls| ensures EntryValid(t, i) {
      assert i < |s.calls| ==> EntryValid(s, i);
    }
    forall i, j | 0 <= i < j < |t.calls| ensures TokensDiffer(t.calls, i, j) {
      assert j < |s.calls| ==> TokensDiffer(s.calls, i, j);
    }
  }

  /** Replacing one entry by one that evolves from it keeps everything else. */
  lemma UpdateKeeps(s: State, k: nat, e: Entry, tokens: nat)
    requires Valid(s) && k < |s.calls| && s.tokens <= tokens
    requires EntryEvolves(s.calls[k], e)
    requires e.call.status.Queued? <==> e.claim.None?
    requires e.claim.Some? ==> e.claim.value.token < tokens
                               && (s.calls[k].claim.None? ==> e.claim.value.token == s.tokens)
    requires e.call.status.Completed? ==> e.call.output.Some?
    ensures var t := s.(calls := s.calls[k := e], tokens := tokens);
            Valid(t) && Evolves(s, t)
  {
    var t := s.(calls := s.calls[k := e], tokens := tokens);
    forall i | 0 <= i < |t.calls| ensures EntryValid(t, i) {
      assert EntryValid(s, i);
    }
    forall i, j | 0 <= i < j < |t.calls| ensures TokensDiffer(t.calls, i, j) {
      assert TokensDiffer(s.calls, i, j);
      assert EntryValid(s, i) && EntryValid(s, j);
    }
  }

  lemma QueueKeeps(lib: Library, s: State, connector: Id, name: string, version: string, inputs: Obj,
                   authorizeWrite: bool)
    requires Valid(s)
    ensures var t := DoQueue(lib, s, connector, name, version, inputs, authorizeWrite).state; Valid(t) && Evolves(s, t)
  {
    if NewCall(lib, s, connector, name, version, inputs, authorizeWrite).Ok? {
      WithCallKeeps(lib, s, connector, name, version, inputs, authorizeWrite);
    }
  }

  lemma InvokeKeeps(lib: Library, s: State, connector: Id, key: string, r: Request)
    requires Valid(s) && r.InvokeRequest?
    ensures Valid(DoInvoke(lib, s, connector, key, r).state) && Evolves(s, DoInvoke(lib, s, connector, key, r).state)
  {
    var queued := NewCall(lib, s, connector, r.action, r.version, r.inputs, r.authorizeWrite);
    if queued.Ok? && Recorded(s, Scope(InvokeOp, connector), key, r) == Ok(None) {
      WithCallKeeps(lib, s, connector, r.action, r.version, r.inputs, r.authorizeWrite);
      RememberKeeps(s, WithCall(s, queued.value), Scope(InvokeOp, connector), key, r, queued.value);
    }
  }

  lemma ReconcileKeeps(s: State, callId: nat, key: string)
    requires Valid(s)
    ensures Valid(DoReconcile(s, callId, key).state) && Evolves(s, DoReconcile(s, callId, key).state)
  {
    if DoReconcile(s, callId, key).state != s {
      var entry := s.calls[callId];
      assert EntryValid(s, callId);
      var next := entry.(call := entry.call.(status := Claimed));
      UpdateKeeps(s, callId, next, s.tokens);
      RememberKeeps(s, s.(calls := s.calls[callId := next]), CallScope(callId), key, ReconcileRequest, next.call);
    }
  }

  lemma ClaimKeeps(s: State, connector: Id, credential: string, worker: Id)
    requires Valid(s)
    ensures Valid(DoClaim(s, connector, credential, worker).state)
            && Evolves(s, DoClaim(s, connector, credential, worker).state)
  {
    if DoClaim(s, connector, credential, worker).state != s {
      var i := FirstQueued(s.calls, connector, 0).value;
      assert EntryValid(s, i);
      UpdateKeeps(s, i, Entry(s.calls[i].call.(status := Claimed), Some(Claim(worker, s.tokens))), s.tokens + 1);
    }
  }

  lemma ReportKeeps(lib: Library, s: State, connector: Id, credential: string, delivery: string, r: Request)
    requires Valid(s) && r.ReportRequest?
    ensures var t := DoReport(lib, s, connector, credential, delivery, r).state; Valid(t) && Evolves(s, t)
  {
    if DoReport(lib, s, connector, credential, delivery, r).state != s {
      var entry := s.calls[r.callId];
      assert EntryValid(s, r.callId);
      var next := entry.(call := Reported(entry.call, r));
      UpdateKeeps(s, r.callId, next, s.tokens);
      RememberKeeps(s, s.(calls := s.calls[r.callId := next]), Scope(ReportOp, connector), delivery, r, next.call);
    }
  }

  lemma RegisterKeeps(s: State, connector: Id, connection: Connection)
    requires Valid(s)
    ensures Valid(DoRegister(s, connector, connection).state) && Evolves(s, DoRegister(s, connector, connection).state)
  {
    forall i | 0 <= i < |s.calls| ensures EntryValid(DoRegister(s, connector, connection).state, i) {
      assert EntryValid(s, i);
    }
    forall i, j | 0 <= i < j < |s.calls| ensures TokensDiffer(DoRegister(s, connector, connection).state.calls, i, j) {
      assert TokensDiffer(s.calls, i, j);
    }
  }

  /** Every transaction keeps the state valid, and changes calls and receipts only as allowed. */
  lemma ApplyKeeps(lib: Library, s: State, e: Event)
    requires Valid(s)
    ensures Valid(Apply(lib, s, e).state) && Evolves(s, Apply(lib, s, e).state)
  {
    match e
    case Register(connector, connection) => RegisterKeeps(s, connector, connection);
    case Queue(connector, name, version, inputs, authorizeWrite) =>
      QueueKeeps(lib, s, connector, name, version, inputs, authorizeWrite);
    case Invoke(connector, key, r) => if r.InvokeRequest? { InvokeKeeps(lib, s, connector, key, r); }
    case Reconcile(callId, key) => ReconcileKeeps(s, callId, key);
    case ClaimNext(connector, credential, worker) => ClaimKeeps(s, connector, credential, worker);
    case Report(connector, credential, delivery, r) =>
      if r.ReportRequest? { ReportKeeps(lib, s, connector, credential, delivery, r); }
  }

  lemma RememberKeeps(s: State, t: State, scope: Scope, key: string, content: Request, result: Call)
    requires Valid(t) && Evolves(s, t)
    ensures Valid(Remembered(t, scope, key, content, result))
    ensures (scope, key) !in s.receipts ==> Evolves(s, Remembered(t, scope, key, content, result))
  {
    var u := Remembered(t, scope, key, content, result);
    forall i | 0 <= i < |u.calls| ensures EntryValid(u, i) {
      assert EntryValid(t, i);
    }
  }
}

/** What each transaction of the connector service does, as a relation between the states before and
    after it and its answer. */
module ConnectorLaws {
  import opened Values
  import opened Connectors

  // ---- Which requests are taken up

  /** The first action of the connector with this name and version. */
  ghost predicate FirstAction(s: State, connector: Id, name: string, version: string, action: Action) {
    && connector in s.connections
    && exists k :: ActionAt(s.connections[connector].actions, name, version, action, k)
  }

  ghost predicate ActionAt(actions: seq<Action>, name: string, version: string, action: Action, k: int) {
    && 0 <= k < |actions| && actions[k] == action && action.name == name && action.version == version
    && forall j :: 0 <= j < k ==> actions[j].name != name || actions[j].version != version
  }

  lemma {:induction false} FindsFirst(actions: seq<Action>, name: string, version: string, action: Action)
    ensures FindAction(actions, name, version) == Some(action) <==>
            exists k :: ActionAt(actions, name, version, action, k)
    decreases |actions|
  {
    if actions != [] {
      FindsFirst(actions[1..], name, version, action);
      if actions[0].name == name && actions[0].version == version {
        assert action == actions[0] ==> ActionAt(actions, name, version, action, 0);
      } else {
        if k :| ActionAt(actions[1..], name, version, action, k) {
          forall j | 0 <= j < k + 1 ensures actions[j].name != name || actions[j].version != version {
            assert j > 0 ==> actions[j] == actions[1..][j - 1];
          }
          assert ActionAt(actions, name, version, action, k + 1);
        }
        if k :| ActionAt(actions, name, version, action, k) {
          forall j | 0 <= j < k - 1 ensures actions[1..][j].name != name || actions[1..][j].version != version {
            assert actions[1..][j] == actions[j + 1];
          }
          assert ActionAt(actions[1..], name, version, action, k - 1);
        }
      }
    }
  }

  /** The call that a request for this action becomes, when it may be queued. */
  ghost predicate Becomes(lib: Library, s: State, connector: Id, name: string, version: string, inputs: Obj,
                          authorizeWrite: bool, call: Call)
  {
    && FirstAction(s, connector, name, version, call.action)
    && (call.action.readOnly || authorizeWrite) && lib.conforms(call.action.inputSchema, inputs)
    && call.id == |s.calls| && call.connector == connector && call.project == s.connections[connector].project
    && call.inputs == inputs && call.writeAuthorized == authorizeWrite && call.status == Queued
    && call.output == None && call.error == None && call.externalRef == None
  }

  /** What stops a request from being queued. */
  ghost predicate Stops(lib: Library, s: State, connector: Id, name: string, version: string, inputs: Obj,
                        authorizeWrite: bool, error: Error)
  {
    match error
    case UnknownConnector => connector !in s.connections
    case UnknownAction => connector in s.connections && forall a :: !FirstAction(s, connector, name, version, a)
    case WriteNotAuthorized =>
      exists a :: FirstAction(s, connector, name, version, a) && !a.readOnly && !authorizeWrite
    case PayloadRejected =>
      exists a :: FirstAction(s, connector, name, version, a) && (a.readOnly || authorizeWrite)
                  && !lib.conforms(a.inputSchema, inputs)
    case _ => false
  }

  lemma FirstIsFound(s: State, connector: Id, name: string, version: string)
    requires connector in s.connections
    ensures forall a :: FirstAction(s, connector, name, version, a) <==>
                        FindAction(s.connections[connector].actions, name, version) == Some(a)
  {
    forall a ensures FirstAction(s, connector, name, version, a) <==>
                     FindAction(s.connections[connector].actions, name, version) == Some(a)
    {
      FindsFirst(s.connections[connector].actions, name, version, a);
    }
  }

  /** A request is taken up as exactly the call it becomes, or refused for exactly what stops it. */
  lemma NewCallIs(lib: Library, s: State, connector: Id, name: string, version: string, inputs: Obj,
                  authorizeWrite: bool)
    ensures match NewCall(lib, s, connector, name, version, inputs, authorizeWrite)
            case Ok(call) => Becomes(lib, s, connector, name, version, inputs, authorizeWrite, call)
            case Err(error) => Stops(lib, s, connector, name, version, inputs, authorizeWrite, error)
  {
    if connector in s.connections {
      FirstIsFound(s, connector, name, version);
    }
  }

  /** Nothing stops a request that becomes a call. */
  lemma NothingStops(lib: Library, s: State, connector: Id, name: string, version: string, inputs: Obj,
                     authorizeWrite: bool, call: Call, error: Error)
    requires Becomes(lib, s, connector, name, version, inputs, authorizeWrite, call)
    ensures !Stops(lib, s, connector, name, version, inputs, authorizeWrite, error)
  {
    FirstIsFound(s, connector, name, version);
  }

  /** One more call, and nothing else of the calls. */
  ghost predicate Appended(s: State, t: State, call: Call) {
    && t.calls == s.calls + [Entry(call, None)] && t.tokens == s.tokens && t.connections == s.connections
  }

  lemma QueueLaw(lib: Library, s: State, e: Event)
    requires e.Queue?
    ensures var t, answer := Apply(lib, s, e).state, Apply(lib, s, e).response;
            match answer
            case Stored(call) =>
              && Becomes(lib, s, e.connector, e.name, e.version, e.inputs, e.authorizeWrite, call)
              && Appended(s, t, call) && t.receipts == s.receipts
            case Refused(error) => t == s && Stops(lib, s, e.connector, e.name, e.version, e.inputs, e.authorizeWrite,
                                                   error)
            case _ => false
  {
    NewCallIs(lib, s, e.connector, e.name, e.version, e.inputs, e.authorizeWrite);
  }

  // ---- Keys

  /** The key was used before: the recorded answer is given again for the same content, and the request
      is refused for other content; nothing changes. */
  ghost predicate Repeats(s: State, t: State, scope: Scope, key: string, content: Request, answer: Response)
    requires (scope, key) in s.receipts
  {
    && t == s
    && answer == if s.receipts[(scope, key)].content == content then Answered(s.receipts[(scope, key)].result)
                 else Refused(ReceiptConflict)
  }

  /** The answer is recorded under its key, and no other receipt changes. */
  ghost predicate Records(s: State, t: State, scope: Scope, key: string, content: Request, call: Call) {
    && (scope, key) in t.receipts && t.receipts[(scope, key)] == Receipt(content, call)
    && t.receipts.Keys == s.receipts.Keys + {(scope, key)}
    && forall k :: k in s.receipts && k != (scope, key) ==> t.receipts[k] == s.receipts[k]
  }

  /** An answered invocation under a new key queues exactly the requested call. */
  lemma InvokeLaw(lib: Library, s: State, e: Event)
    requires e.Invoke? && e.request.InvokeRequest?
    ensures var t, answer := Apply(lib, s, e).state, Apply(lib, s, e).response;
            var r, scope := e.request, Scope(InvokeOp, e.connector);
            if (scope, e.key) in s.receipts then Repeats(s, t, scope, e.key, r, answer)
            else match answer
                 case Answered(call) =>
                   && Becomes(lib, s, e.connector, r.action, r.version, r.inputs, r.authorizeWrite, call)
                   && Appended(s, t, call) && Records(s, t, scope, e.key, r, call)
                 case Refused(error) =>
                   t == s && Stops(lib, s, e.connector, r.action, r.version, r.inputs, r.authorizeWrite, error)
                 case _ => false
  {
    NewCallIs(lib, s, e.connector, e.request.action, e.request.version, e.request.inputs, e.request.authorizeWrite);
  }

  // ---- Entries that change

  /** Only this call may have changed. */
  ghost predicate OnlyCall(s: State, t: State, id: nat) {
    && t.connections == s.connections && |t.calls| == |s.calls|
    && forall k :: 0 <= k < |s.calls| && k != id ==> t.calls[k] == s.calls[k]
  }

  /** What is asked for when a call goes back to its owner: an unknown outcome of a claimed call. */
  ghost predicate Reconcilable(s: State, id: nat) {
    id < |s.calls| && s.calls[id].call.status.Unknown? && s.calls[id].claim.Some?
  }

  /** An unknown call goes back to its owner: it is claimed again under the same claim, and keeps what is
      known of it. */
  lemma ReconcileLaw(lib: Library, s: State, e: Event)
    requires e.Reconcile?
    ensures var t, answer := Apply(lib, s, e).state, Apply(lib, s, e).response;
            var scope := CallScope(e.callId);
            if (scope, e.key) in s.receipts then Repeats(s, t, scope, e.key, ReconcileRequest, answer)
            else if Reconcilable(s, e.callId) then
              && answer.Answered? && answer.call == s.calls[e.callId].call.(status := Claimed)
              && OnlyCall(s, t, e.callId) && t.tokens == s.tokens
              && t.calls[e.callId] == Entry(answer.call, s.calls[e.callId].claim)
              && Records(s, t, scope, e.key, ReconcileRequest, answer.call)
            else t == s && answer == Refused(if e.callId < |s.calls| then NotReconcilable else UnknownCall)
  {
  }

  // ---- Handing out

  ghost predicate MayAct(s: State, connector: Id, credential: string) {
    connector in s.connections && credential == s.connections[connector].credential && credential != ""
  }

  /** A call of the connector that the worker holds. */
  ghost predicate Holds(s: State, connector: Id, worker: Id, i: int)
    requires 0 <= i < |s.calls|
  {
    && s.calls[i].call.connector == connector && s.calls[i].call.status == Claimed
    && s.calls[i].claim.Some? && s.calls[i].claim.value.owner == worker
  }

  ghost predicate Awaits(s: State, connector: Id, i: int)
    requires 0 <= i < |s.calls|
  {
    s.calls[i].call.connector == connector && s.calls[i].call.status == Queued
  }

  ghost predicate HoldsFirst(s: State, connector: Id, worker: Id, i: int) {
    0 <= i < |s.calls| && Holds(s, connector, worker, i) && forall k :: 0 <= k < i ==> !Holds(s, connector, worker, k)
  }

  ghost predicate HoldsNone(s: State, connector: Id, worker: Id) {
    forall k :: 0 <= k < |s.calls| ==> !Holds(s, connector, worker, k)
  }

  ghost predicate AwaitsFirst(s: State, connector: Id, i: int) {
    0 <= i < |s.calls| && Awaits(s, connector, i) && forall k :: 0 <= k < i ==> !Awaits(s, connector, k)
  }

  ghost predicate AwaitsNone(s: State, connector: Id) {
    forall k :: 0 <= k < |s.calls| ==> !Awaits(s, connector, k)
  }

  /** A worker with the credential of the connector gets the first call that it holds, to reconcile it; else
      the first queued one, now claimed by it under a new token; and nothing only when there is neither. */
  ghost predicate HandsOver(s: State, connector: Id, worker: Id, t: State, answer: Response) {
    match answer
    case Handed(call, token, ReconcileMode) =>
      t == s && exists i :: HoldsFirst(s, connector, worker, i) && call == s.calls[i].call
                            && token == s.calls[i].claim.value.token
    case Handed(call, token, ExecuteMode) =>
      && HoldsNone(s, connector, worker) && t.receipts == s.receipts
      && token == s.tokens && t.tokens == s.tokens + 1
      && exists i :: AwaitsFirst(s, connector, i) && OnlyCall(s, t, i) && call == s.calls[i].call.(status := Claimed)
                     && t.calls[i] == Entry(call, Some(Claim(worker, token)))
    case Idle => t == s && HoldsNone(s, connector, worker) && AwaitsNone(s, connector)
    case _ => false
  }

  lemma ClaimLaw(lib: Library, s: State, e: Event)
    requires e.ClaimNext?
    ensures var t, answer := Apply(lib, s, e).state, Apply(lib, s, e).response;
            if MayAct(s, e.connector, e.credential) then HandsOver(s, e.connector, e.worker, t, answer)
            else t == s && answer == Refused(BadCredentials)
  {
    if MayAct(s, e.connector, e.credential) {
      OwnedIsHeld(s, e.connector, e.worker);
      var owned := FirstOwned(s.calls, e.connector, e.worker, 0);
      if owned.Some? {
        assert HoldsFirst(s, e.connector, e.worker, owned.value);
      } else {
        QueuedIsAwaiting(s, e.connector);
        var queued := FirstQueued(s.calls, e.connector, 0);
        assert queued.Some? ==> AwaitsFirst(s, e.connector, queued.value);
      }
    }
  }

  lemma OwnedIsHeld(s: State, connector: Id, worker: Id)
    ensures forall k :: 0 <= k < |s.calls| ==> Owned(s.calls[k], connector, worker) == Holds(s, connector, worker, k)
  {
  }

  lemma QueuedIsAwaiting(s: State, connector: Id)
    ensures forall k :: 0 <= k < |s.calls| ==> Waits(s.calls[k], connector) == Awaits(s, connector, k)
  {
  }

  // ---- Reports

  /** A completed result has an output and no error; a failed or unknown one has an error text and no output. */
  ghost predicate ResultFits(r: Request)
    requires r.ReportRequest?
  {
    match r.status
    case Completed => r.output.Some? && r.error.None?
    case Failed => r.output.None? && r.error.Some? && |r.error.value| > 0
    case Unknown => r.output.None? && r.error.Some? && |r.error.value| > 0
    case _ => false
  }

  /** The report is made under the claim of a call of this connector that is not final, and its output fits. */
  ghost predicate Reportable(lib: Library, s: State, connector: Id, r: Request)
    requires r.ReportRequest?
  {
    && r.callId < |s.calls|
    && var e := s.calls[r.callId];
    && e.call.connector == connector && e.claim.Some? && e.claim.value.token == r.token
    && (e.call.status == Claimed || e.call.status == Unknown)
    && (r.output.Some? ==> lib.conforms(e.call.action.outputSchema, r.output.value))
  }

  /** The call with the result as reported; its request and identity are as they were. */
  ghost predicate ResultOf(a: Call, r: Request, b: Call)
    requires r.ReportRequest?
  {
    && b.status == r.status && b.output == r.output && b.error == r.error && b.externalRef == r.externalRef
    && b.id == a.id && b.connector == a.connector && b.project == a.project && b.action == a.action
    && b.inputs == a.inputs && b.writeAuthorized == a.writeAuthorized
  }

  /** What stops a report. */
  ghost predicate StopsReport(lib: Library, s: State, connector: Id, r: Request, error: Error)
    requires r.ReportRequest?
  {
    match error
    case UnknownCall => r.callId >= |s.calls|
    case NotThisClaim =>
      && r.callId < |s.calls|
      && var e := s.calls[r.callId];
      e.call.connector != connector || e.claim.None? || e.claim.value.token != r.token
    case AlreadyFinal => r.callId < |s.calls| && s.calls[r.callId].call.status !in {Claimed, Unknown}
    case PayloadRejected =>
      && r.callId < |s.calls| && r.output.Some?
      && !lib.conforms(s.calls[r.callId].call.action.outputSchema, r.output.value)
    case _ => false
  }

  /** A report that is taken up records exactly the reported result, under the claim and for the request
      that the call has, and changes no other call. */
  lemma ReportLaw(lib: Library, s: State, e: Event)
    requires e.Report? && e.request.ReportRequest?
    ensures var t, answer := Apply(lib, s, e).state, Apply(lib, s, e).response;
            var r, scope := e.request, Scope(ReportOp, e.connector);
            if !ResultFits(r) then t == s && answer == Refused(MalformedResult)
            else if !MayAct(s, e.connector, e.credential) then t == s && answer == Refused(BadCredentials)
            else if (scope, e.delivery) in s.receipts then Repeats(s, t, scope, e.delivery, r, answer)
            else if Reportable(lib, s, e.connector, r) then
              && answer.Answered? && OnlyCall(s, t, r.callId) && t.tokens == s.tokens
              && ResultOf(s.calls[r.callId].call, r, t.calls[r.callId].call)
              && t.calls[r.callId].claim == s.calls[r.callId].claim && answer.call == t.calls[r.callId].call
              && Records(s, t, scope, e.delivery, r, answer.call)
            else t == s && answer.Refused? && StopsReport(lib, s, e.connector, r, answer.error)
  {
  }

  lemma RegisterLaw(lib: Library, s: State, e: Event)
    requires e.Register?
    ensures var t, answer := Apply(lib, s, e).state, Apply(lib, s, e).response;
            if e.connector in s.connections then t == s && answer == Refused(AlreadyRegistered)
            else
              && answer == Registered && t.calls == s.calls && t.receipts == s.receipts && t.tokens == s.tokens
              && t.connections.Keys == s.connections.Keys + {e.connector} && t.connections[e.connector] == e.connection
              && forall c :: c in s.connections ==> t.connections[c] == s.connections[c]
  {
  }
}

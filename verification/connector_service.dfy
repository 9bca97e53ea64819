/** The connector service as it runs: each method is one transaction over the stored calls and
    receipts, and does exactly what the transaction functions say. */
module ConnectorService {
  import opened Values
  import C = Connectors

  class Service {
    const lib: Library
    var connections: map<C.Id, C.Connection>
    var calls: seq<C.Entry>
    var receipts: map<(C.Scope, string), C.Receipt>
    var tokens: nat

    constructor (lib: Library)
      ensures this.lib == lib && State() == C.Init()
    {
      this.lib := lib;
      connections, calls, receipts, tokens := map[], [], map[], 0;
    }

    function State(): C.State
      reads this
    {
      C.State(connections, calls, receipts, tokens)
    }

    /** A refused request changes nothing; an accepted one adds exactly one call, which no worker owns. */
    method Queue(connector: C.Id, name: string, version: string, inputs: Obj, authorizeWrite: bool)
      returns (r: Result<C.Call, C.Error>)
      modifies this
      ensures r == C.NewCall(lib, old(State()), connector, name, version, inputs, authorizeWrite)
      ensures C.Effect(State(), if r.Ok? then C.Stored(r.value) else C.Refused(r.error))
              == C.Apply(lib, old(State()), C.Queue(connector, name, version, inputs, authorizeWrite))
    {
      if connector !in connections {
        return Err(C.UnknownConnector);
      }
      var connection := connections[connector];
      var action := C.FindAction(connection.actions, name, version);
      if action.None? {
        return Err(C.UnknownAction);
      }
      if !action.value.readOnly && !authorizeWrite {
        return Err(C.WriteNotAuthorized);
      }
      if !lib.conforms(action.value.inputSchema, inputs) {
        return Err(C.PayloadRejected);
      }
      var call := C.Call(|calls|, connector, connection.project, action.value, inputs, authorizeWrite,
                         C.Queued, None, None, None);
      calls := calls + [C.Entry(call, None)];
      return Ok(call);
    }

    method Invoke(connector: C.Id, key: string, request: C.Request) returns (response: C.Response)
      requires request.InvokeRequest?
      modifies this
      ensures C.Effect(State(), response) == C.Apply(lib, old(State()), C.Invoke(connector, key, request))
    {
      var known := C.Recorded(State(), C.Scope(C.InvokeOp, connector), key, request);
      match known
      case Err(error) => return C.Refused(error);
      case Ok(Some(call)) => return C.Answered(call);
      case Ok(None) =>
        var queued := Queue(connector, request.action, request.version, request.inputs, request.authorizeWrite);
        match queued {
          case Err(error) => return C.Refused(error);
          case Ok(call) =>
            receipts := receipts[(C.Scope(C.InvokeOp, connector), key) := C.Receipt(request, call)];
            return C.Answered(call);
        }
    }

    method Reconcile(callId: nat, key: string) returns (response: C.Response)
      modifies this
      ensures C.Effect(State(), response) == C.Apply(lib, old(State()), C.Reconcile(callId, key))
    {
      var known := C.Recorded(State(), C.CallScope(callId), key, C.ReconcileRequest);
      match known
      case Err(error) => return C.Refused(error);
      case Ok(Some(call)) => return C.Answered(call);
      case Ok(None) =>
        if callId >= |calls| {
          return C.Refused(C.UnknownCall);
        }
        var entry := calls[callId];
        if !entry.call.status.Unknown? || entry.claim.None? {
          return C.Refused(C.NotReconcilable);
        }
        var call := entry.call.(status := C.Claimed);
        calls := calls[callId := entry.(call := call)];
        receipts := receipts[(C.CallScope(callId), key) := C.Receipt(C.ReconcileRequest, call)];
        return C.Answered(call);
    }

    /** Hand out the worker's own unfinished call first, then the oldest queued one. */
    method ClaimNext(connector: C.Id, credential: string, worker: C.Id) returns (response: C.Response)
      modifies this
      ensures C.Effect(State(), response) == C.Apply(lib, old(State()), C.ClaimNext(connector, credential, worker))
    {
      if !C.Authorized(State(), connector, credential) {
        return C.Refused(C.BadCredentials);
      }
      var i := 0;
      while i < |calls|
        invariant 0 <= i <= |calls|
        invariant State() == old(State())
        invariant C.FirstOwned(calls, connector, worker, 0) == C.FirstOwned(calls, connector, worker, i)
      {
        if C.Owned(calls[i], connector, worker) {
          return C.Handed(calls[i].call, calls[i].claim.value.token, C.ReconcileMode);
        }
        i := i + 1;
      }
      i := 0;
      while i < |calls| && !C.Waits(calls[i], connector)
        invariant 0 <= i <= |calls|
        invariant C.FirstQueued(calls, connector, 0) == C.FirstQueued(calls, connector, i)
      {
        i := i + 1;
      }
      if i == |calls| {
        return C.Idle;
      }
      var call, token := calls[i].call.(status := C.Claimed), tokens;
      calls := calls[i := C.Entry(call, Some(C.Claim(worker, token)))];
      tokens := tokens + 1;
      return C.Handed(call, token, C.ExecuteMode);
    }

    method Report(connector: C.Id, credential: string, delivery: string, request: C.Request)
      returns (response: C.Response)
      requires request.ReportRequest?
      modifies this
      ensures C.Effect(State(), response) == C.Apply(lib, old(State()),
                                                     C.Report(connector, credential, delivery, request))
    {
      if !C.WellShaped(request) {
        return C.Refused(C.MalformedResult);
      }
      if !C.Authorized(State(), connector, credential) {
        return C.Refused(C.BadCredentials);
      }
      var known := C.Recorded(State(), C.Scope(C.ReportOp, connector), delivery, request);
      match known
      case Err(error) => return C.Refused(error);
      case Ok(Some(call)) => return C.Answered(call);
      case Ok(None) =>
        if request.callId >= |calls| {
          return C.Refused(C.UnknownCall);
        }
        var entry := calls[request.callId];
        if entry.call.connector != connector || entry.claim.None? || entry.claim.value.token != request.token {
          return C.Refused(C.NotThisClaim);
        }
        if !entry.call.status.Claimed? && !entry.call.status.Unknown? {
          return C.Refused(C.AlreadyFinal);
        }
        if request.output.Some? && !lib.conforms(entry.call.action.outputSchema, request.output.value) {
          return C.Refused(C.PayloadRejected);
        }
        var call := C.Reported(entry.call, request);
        calls := calls[request.callId := entry.(call := call)];
        receipts := receipts[(C.Scope(C.ReportOp, connector), delivery) := C.Receipt(request, call)];
        return C.Answered(call);
    }
  }
}

/** The life of connector calls over every interleaving of workers, callers and operators:
    theorems about all sequences of transactions from the empty state. */
module ConnectorLifecycle {
  import opened Values
  import opened Connectors
  import opened ConnectorLaws

  function After(lib: Library, events: seq<Event>): State {
    if events == [] then Init()
    else Apply(lib, After(lib, events[..|events| - 1]), events[|events| - 1]).state
  }

  /** The state in which event `i` happens. */
  function Before(lib: Library, events: seq<Event>, i: nat): State
    requires i <= |events|
  {
    After(lib, events[..i])
  }

  function ResponseAt(lib: Library, events: seq<Event>, i: nat): Response
    requires i < |events|
  {
    Apply(lib, Before(lib, events, i), events[i]).response
  }

  lemma BeforeNext(lib: Library, events: seq<Event>, i: nat)
    requires i < |events|
    ensures Before(lib, events, i + 1) == Apply(lib, Before(lib, events, i), events[i]).state
  {
    assert events[..i + 1][..i] == events[..i];
  }

  lemma {:induction false} AlwaysValid(lib: Library, events: seq<Event>, i: nat)
    requires i <= |events|
    ensures Valid(Before(lib, events, i))
  {
    if i > 0 {
      AlwaysValid(lib, events, i - 1);
      BeforeNext(lib, events, i - 1);
      ApplyKeeps(lib, Before(lib, events, i - 1), events[i - 1]);
    }
  }

  /** Between any two moments calls and receipts change only as allowed: a request and a claim
      never change, a completed or failed call never changes again, and no receipt is lost. */
  lemma {:induction false} AlwaysEvolves(lib: Library, events: seq<Event>, i: nat, j: nat)
    requires i <= j <= |events|
    ensures Evolves(Before(lib, events, i), Before(lib, events, j))
    decreases j
  {
    if i < j {
      AlwaysEvolves(lib, events, i, j - 1);
      AlwaysValid(lib, events, j - 1);
      BeforeNext(lib, events, j - 1);
      ApplyKeeps(lib, Before(lib, events, j - 1), events[j - 1]);
      EvolvesTrans(Before(lib, events, i), Before(lib, events, j - 1), Before(lib, events, j));
    }
  }

  // ---- Claims

  /** A handed-out call belongs to the worker that asked, under the token it was given. */
  lemma HandedIsClaimed(lib: Library, s: State, e: Event)
    requires Valid(s) && Apply(lib, s, e).response.Handed?
    ensures e.ClaimNext?
    ensures var r := Apply(lib, s, e).response;
            && r.call.id < |s.calls|
            && Apply(lib, s, e).state.calls[r.call.id].claim == Some(Claim(e.worker, r.token))
            && Apply(lib, s, e).state.calls[r.call.id].call == r.call && r.call.status.Claimed?
            && (r.mode.ExecuteMode? <==> s.calls[r.call.id].call.status.Queued?)
  {
    match FirstOwned(s.calls, e.connector, e.worker, 0) {
      case Some(i) => assert EntryValid(s, i);
      case None =>
        var i := FirstQueued(s.calls, e.connector, 0).value;
        assert EntryValid(s, i);
    }
  }

  /** A call is handed out for execution at most once. */
  lemma ExecuteOnce(lib: Library, events: seq<Event>, i: nat, j: nat)
    requires i < j < |events|
    requires ResponseAt(lib, events, i).Handed? && ResponseAt(lib, events, i).mode.ExecuteMode?
    requires ResponseAt(lib, events, j).Handed? && ResponseAt(lib, events, j).mode.ExecuteMode?
    ensures ResponseAt(lib, events, i).call.id != ResponseAt(lib, events, j).call.id
  {
    AlwaysValid(lib, events, i);
    AlwaysValid(lib, events, j);
    HandedIsClaimed(lib, Before(lib, events, i), events[i]);
    HandedIsClaimed(lib, Before(lib, events, j), events[j]);
    BeforeNext(lib, events, i);
    AlwaysEvolves(lib, events, i + 1, j);
    var id := ResponseAt(lib, events, i).call.id;
    assert EntryEvolves(Before(lib, events, i + 1).calls[id], Before(lib, events, j).calls[id]);
  }

  /** Whenever the same call is handed out again, it is to the same worker under the same token. */
  lemma OneOwner(lib: Library, events: seq<Event>, i: nat, j: nat)
    requires i < j < |events|
    requires ResponseAt(lib, events, i).Handed? && ResponseAt(lib, events, j).Handed?
    requires ResponseAt(lib, events, i).call.id == ResponseAt(lib, events, j).call.id
    ensures events[i].ClaimNext? && events[j].ClaimNext? && events[i].worker == events[j].worker
    ensures ResponseAt(lib, events, i).token == ResponseAt(lib, events, j).token
  {
    AlwaysValid(lib, events, i);
    AlwaysValid(lib, events, j);
    HandedIsClaimed(lib, Before(lib, events, i), events[i]);
    HandedIsClaimed(lib, Before(lib, events, j), events[j]);
    BeforeNext(lib, events, i);
    BeforeNext(lib, events, j);
    AlwaysEvolves(lib, events, i + 1, j + 1);
    var id := ResponseAt(lib, events, i).call.id;
    assert EntryEvolves(Before(lib, events, i + 1).calls[id], Before(lib, events, j + 1).calls[id]);
  }

  /** Event `j` handed out the call for execution under this claim. */
  predicate HandsOut(lib: Library, events: seq<Event>, j: nat, id: nat, claim: Claim)
    requires j < |events|
  {
    && events[j].ClaimNext? && events[j].worker == claim.owner
    && var r := ResponseAt(lib, events, j);
    r.Handed? && r.call.id == id && r.token == claim.token && r.mode.ExecuteMode?
  }

  /** Every claim comes from one hand-out for execution. */
  lemma {:induction false} ClaimOrigin(lib: Library, events: seq<Event>, i: nat, id: nat)
    requires i <= |events| && id < |Before(lib, events, i).calls| && Before(lib, events, i).calls[id].claim.Some?
    ensures exists j :: 0 <= j < i && HandsOut(lib, events, j, id, Before(lib, events, i).calls[id].claim.value)
    decreases i
  {
    assert i > 0;
    BeforeNext(lib, events, i - 1);
    var s, e := Before(lib, events, i - 1), events[i - 1];
    AlwaysValid(lib, events, i - 1);
    ApplyKeeps(lib, s, e);
    if id < |s.calls| && s.calls[id].claim.Some? {
      assert EntryEvolves(s.calls[id], Apply(lib, s, e).state.calls[id]);
      ClaimOrigin(lib, events, i - 1, id);
    } else {
      NewClaimIsHanded(lib, s, e, id);
      assert HandsOut(lib, events, i - 1, id, Before(lib, events, i).calls[id].claim.value);
    }
  }

  lemma NewClaimIsHanded(lib: Library, s: State, e: Event, id: nat)
    requires Valid(s) && id < |Apply(lib, s, e).state.calls| && Apply(lib, s, e).state.calls[id].claim.Some?
    requires id >= |s.calls| || s.calls[id].claim.None?
    ensures e.ClaimNext? && Apply(lib, s, e).response.Handed? && Apply(lib, s, e).response.mode.ExecuteMode?
    ensures Apply(lib, s, e).response.call.id == id
    ensures Apply(lib, s, e).state.calls[id].claim == Some(Claim(e.worker, Apply(lib, s, e).response.token))
  {
    if id < |s.calls| {
      assert EntryValid(s, id);
    }
  }

  /** A result is recorded only for a call that was handed out for execution before, and only
      under the token of that hand-out. It is recorded exactly as reported; the request and the claim
      of the call stay, and no other call changes. */
  lemma ResultNeedsHandout(lib: Library, events: seq<Event>, i: nat, id: nat)
    requires i < |events| && id < |Before(lib, events, i).calls| && id < |Before(lib, events, i + 1).calls|
    requires Before(lib, events, i + 1).calls[id] != Before(lib, events, i).calls[id]
    requires !Before(lib, events, i + 1).calls[id].call.status.Claimed?
    ensures events[i].Report? && events[i].request.ReportRequest? && events[i].request.callId == id
    ensures exists j, owner :: 0 <= j < i && HandsOut(lib, events, j, id, Claim(owner, events[i].request.token))
    ensures |Before(lib, events, i + 1).calls| == |Before(lib, events, i).calls|
    ensures forall k :: 0 <= k < |Before(lib, events, i).calls| && k != id ==>
              Before(lib, events, i + 1).calls[k] == Before(lib, events, i).calls[k]
    ensures ResultOf(Before(lib, events, i).calls[id].call, events[i].request,
                     Before(lib, events, i + 1).calls[id].call)
    ensures Before(lib, events, i + 1).calls[id].claim == Before(lib, events, i).calls[id].claim
  {
    BeforeNext(lib, events, i);
    AlwaysValid(lib, events, i);
    var s, e := Before(lib, events, i), events[i];
    assert EntryValid(s, id);
    assert e.Report? && e.request.ReportRequest? && e.request.callId == id;
    ClaimOrigin(lib, events, i, id);
    var j :| 0 <= j < i && HandsOut(lib, events, j, id, s.calls[id].claim.value);
    assert HandsOut(lib, events, j, id, Claim(s.calls[id].claim.value.owner, e.request.token));
  }

  /** Event `j` asked for the call: a run queued it, or a caller invoked it. */
  ghost predicate AskedFor(lib: Library, events: seq<Event>, j: int, call: Call) {
    && 0 <= j < |events|
    && match events[j]
       case Queue(connector, name, version, inputs, authorizeWrite) =>
         Becomes(lib, Before(lib, events, j), connector, name, version, inputs, authorizeWrite, call)
       case Invoke(connector, _, InvokeRequest(name, version, inputs, authorizeWrite)) =>
         Becomes(lib, Before(lib, events, j), connector, name, version, inputs, authorizeWrite, call)
       case _ => false
  }

  /** The same request: only what a connector reports may differ. */
  predicate SameRequest(a: Call, b: Call) {
    b == a.(status := b.status, output := b.output, error := b.error, externalRef := b.externalRef)
  }

  lemma NewCallWasAsked(lib: Library, s: State, e: Event, id: nat)
    requires |s.calls| <= id < |Apply(lib, s, e).state.calls|
    ensures match e
            case Queue(connector, name, version, inputs, authorizeWrite) =>
              Becomes(lib, s, connector, name, version, inputs, authorizeWrite, Apply(lib, s, e).state.calls[id].call)
            case Invoke(connector, _, InvokeRequest(name, version, inputs, authorizeWrite)) =>
              Becomes(lib, s, connector, name, version, inputs, authorizeWrite, Apply(lib, s, e).state.calls[id].call)
            case _ => false
  {
    if e.Queue? {
      QueueLaw(lib, s, e);
    } else if e.Invoke? && e.request.InvokeRequest? {
      InvokeLaw(lib, s, e);
    }
  }

  /** Every call is what some request asked for: the first action of the name and version, the inputs and
      the write authorization of the request, allowed and conforming when it was made. */
  lemma {:induction false} CallWasAskedFor(lib: Library, events: seq<Event>, i: nat, id: nat)
    returns (j: int, call: Call)
    requires i <= |events| && id < |Before(lib, events, i).calls|
    ensures j < i && AskedFor(lib, events, j, call) && SameRequest(call, Before(lib, events, i).calls[id].call)
    decreases i
  {
    BeforeNext(lib, events, i - 1);
    AlwaysValid(lib, events, i - 1);
    var s := Before(lib, events, i - 1);
    ApplyKeeps(lib, s, events[i - 1]);
    if id < |s.calls| {
      j, call := CallWasAskedFor(lib, events, i - 1, id);
      assert EntryEvolves(s.calls[id], Before(lib, events, i).calls[id]);
    } else {
      NewCallWasAsked(lib, s, events[i - 1], id);
      j, call := i - 1, Before(lib, events, i).calls[id].call;
    }
  }

  /** Final results stay, and every writing call was created with write authorization. */
  lemma FinalAndAuthorized(lib: Library, events: seq<Event>, i: nat, j: nat, id: nat)
    requires i <= j <= |events| && id < |Before(lib, events, i).calls|
    ensures id < |Before(lib, events, j).calls|
    ensures Final(Before(lib, events, i).calls[id].call.status) ==>
              Before(lib, events, j).calls[id] == Before(lib, events, i).calls[id]
    ensures !Before(lib, events, j).calls[id].call.action.readOnly ==>
              Before(lib, events, j).calls[id].call.writeAuthorized
    ensures Before(lib, events, j).calls[id].call.status.Completed? ==>
              Before(lib, events, j).calls[id].call.output.Some?
  {
    AlwaysEvolves(lib, events, i, j);
    AlwaysValid(lib, events, j);
    assert EntryEvolves(Before(lib, events, i).calls[id], Before(lib, events, j).calls[id]);
    assert EntryValid(Before(lib, events, j), id);
  }

  // ---- Replayed requests

  /** The receipt a keyed event looks up, and the content it is compared by. */
  function KeyOf(e: Event): (Scope, string)
    requires e.Invoke? || e.Reconcile? || e.Report?
  {
    match e
    case Invoke(connector, key, _) => (Scope(InvokeOp, connector), key)
    case Reconcile(callId, key) => (CallScope(callId), key)
    case Report(connector, _, delivery, _) => (Scope(ReportOp, connector), delivery)
  }

  function ContentOf(e: Event): Request
    requires e.Invoke? || e.Reconcile? || e.Report?
  {
    if e.Reconcile? then ReconcileRequest else e.request
  }

  lemma AnswerIsRemembered(lib: Library, s: State, e: Event)
    requires Apply(lib, s, e).response.Answered?
    ensures e.Invoke? || e.Reconcile? || e.Report?
    ensures var t := Apply(lib, s, e).state;
            KeyOf(e) in t.receipts && t.receipts[KeyOf(e)] == Receipt(ContentOf(e), Apply(lib, s, e).response.call)
  {
  }

  /** A request repeated under its key gets the recorded answer and has no second effect. */
  lemma Replayed(lib: Library, events: seq<Event>, i: nat, j: nat)
    requires i < j < |events| && ResponseAt(lib, events, i).Answered? && events[j] == events[i]
    ensures ResponseAt(lib, events, j) == ResponseAt(lib, events, i)
    ensures Before(lib, events, j + 1) == Before(lib, events, j)
  {
    AnswerIsRemembered(lib, Before(lib, events, i), events[i]);
    BeforeNext(lib, events, i);
    BeforeNext(lib, events, j);
    AlwaysEvolves(lib, events, i + 1, j);
    AlwaysEvolves(lib, events, i, j);
  }

  /** A second request under a used key with different content is refused without effect. */
  lemma KeyReuseRefused(lib: Library, events: seq<Event>, i: nat, j: nat)
    requires i < j < |events| && ResponseAt(lib, events, i).Answered?
    requires events[j].Invoke? || events[j].Reconcile? || events[j].Report?
    requires events[i].Invoke? || events[i].Reconcile? || events[i].Report?
    requires KeyOf(events[j]) == KeyOf(events[i]) && ContentOf(events[j]) != ContentOf(events[i])
    ensures ResponseAt(lib, events, j).Refused?
    ensures Before(lib, events, j + 1) == Before(lib, events, j)
  {
    AnswerIsRemembered(lib, Before(lib, events, i), events[i]);
    BeforeNext(lib, events, i);
    BeforeNext(lib, events, j);
    AlwaysEvolves(lib, events, i + 1, j);
  }

  /** Event `j` was answered, and recorded this receipt under this key. */
  predicate RecordedAt(lib: Library, events: seq<Event>, j: int, key: (Scope, string), receipt: Receipt) {
    && 0 <= j < |events| && (events[j].Invoke? || events[j].Reconcile? || events[j].Report?)
    && KeyOf(events[j]) == key && ContentOf(events[j]) == receipt.content
    && ResponseAt(lib, events, j) == Answered(receipt.result)
  }

  lemma NewReceipt(lib: Library, s: State, e: Event, key: (Scope, string))
    requires key in Apply(lib, s, e).state.receipts
    requires key in s.receipts ==> Apply(lib, s, e).state.receipts[key] != s.receipts[key]
    ensures e.Invoke? || e.Reconcile? || e.Report?
    ensures KeyOf(e) == key && ContentOf(e) == Apply(lib, s, e).state.receipts[key].content
    ensures Apply(lib, s, e).response == Answered(Apply(lib, s, e).state.receipts[key].result)
  {
  }

  /** Every receipt is the answer to an earlier request, so a key conflicts only with a request that was
      answered before. */
  lemma {:induction false} ReceiptWasAnswered(lib: Library, events: seq<Event>, i: nat, key: (Scope, string))
    returns (j: int)
    requires i <= |events| && key in Before(lib, events, i).receipts
    ensures j < i && RecordedAt(lib, events, j, key, Before(lib, events, i).receipts[key])
    decreases i
  {
    BeforeNext(lib, events, i - 1);
    var s, t := Before(lib, events, i - 1), Before(lib, events, i);
    if key in s.receipts && t.receipts[key] == s.receipts[key] {
      j := ReceiptWasAnswered(lib, events, i - 1, key);
    } else {
      NewReceipt(lib, s, events[i - 1], key);
      j := i - 1;
    }
  }
}

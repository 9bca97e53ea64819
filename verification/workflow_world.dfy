/** The whole system: saved definitions, runs and connectors under any sequence of events. The
    theorems say what the static check of definitions guarantees about every later run. */
module WorkflowWorld {
  import opened Values
  import opened Graphs
  import opened Definitions
  import opened EngineSpec
  import opened RunTrail
  import opened RunChildren
  import opened RunSafety
  import opened RunTransactions
  import C = Connectors

  datatype Definition = Definition(project: Id, body: Body)

  datatype World = World(connectors: C.State, definitions: seq<Definition>, runs: seq<Run>)

  /** `Connector` is any transaction of the connector service; runs queue their calls themselves. */
  datatype Event =
    | SaveDefinition(project: Id, body: Body)
    | Start(definition: nat, inputs: Obj, now: int)
    | Tick(run: nat, now: int)
    | Decided(run: nat, decision: Decision, now: int)
    | Connector(event: C.Event)

  // ---- The invariant

  /** Runs never share a call. */
  ghost predicate Apart(a: Run, b: Run) {
    forall i, j :: i in a.invocations && j in b.invocations && i.data.call.Some? ==> i.data.call != j.data.call
  }

  ghost predicate ApartAt(runs: seq<Run>, i: nat, j: nat)
    requires i < |runs| && j < |runs|
  {
    Apart(runs[i], runs[j])
  }

  ghost predicate SettledAt(w: World, r: nat)
    requires r < |w.runs|
  {
    Settled(w.runs[r], w.connectors)
  }

  ghost predicate AcceptedAt(w: World, i: nat)
    requires i < |w.definitions|
  {
    Acceptable(w.definitions[i].body, ProjectConnections(w.connectors.connections, w.definitions[i].project))
  }

  ghost predicate Inv(w: World) {
    && C.Valid(w.connectors)
    && (forall i :: 0 <= i < |w.definitions| ==> AcceptedAt(w, i))
    && (forall r :: 0 <= r < |w.runs| ==> SettledAt(w, r))
    && (forall i, j :: 0 <= i < j < |w.runs| ==> ApartAt(w.runs, i, j))
  }

  lemma AcceptableStays(body: Body, project: Id, s: C.State, t: C.State)
    requires C.Evolves(s, t) && Acceptable(body, ProjectConnections(s.connections, project))
    ensures Acceptable(body, ProjectConnections(t.connections, project))
  {
    AcceptableMonotone(body, ProjectConnections(s.connections, project), ProjectConnections(t.connections, project));
  }

  lemma SettledStays(run: Run, s: C.State, t: C.State)
    requires Settled(run, s) && C.Evolves(s, t)
    ensures Settled(run, t)
  {
    AcceptableStays(run.record.body, run.record.project, s, t);
    ChildrenStay(run, s, t);
  }

  // ---- Events

  function StartTx(w: World, d: Definition, inputs: Obj): Tx {
    Tx(NewRun(d.project, d.body, inputs), w.connectors)
  }

  lemma StartEnters(w: World, i: nat, inputs: Obj)
    requires Inv(w) && i < |w.definitions|
    ensures var tx := StartTx(w, w.definitions[i], inputs);
            Sound(StepsOf(tx.run), tx.run.record.body.start)
              && Entering(tx.run, tx.connectors, tx.run.record.body.start)
  {
    var d := w.definitions[i];
    assert AcceptedAt(w, i);
    AcceptedIsSound(d.body, ProjectConnections(w.connectors.connections, d.project));
  }

  lemma RunIsSound(w: World, r: nat)
    requires Inv(w) && r < |w.runs|
    ensures Sound(StepsOf(w.runs[r]), w.runs[r].record.body.start)
  {
    assert SettledAt(w, r);
    AcceptedIsSound(w.runs[r].record.body, ProjectConnections(w.connectors.connections, w.runs[r].record.project));
  }

  /** A transaction before its first move, and that move. */
  datatype Begun = Begun(tx: Tx, move: Move)

  /** The event is one of a run and finds it as it has to: the definition exists and takes the inputs,
      the poll has something to write, or a decision on the expected version is awaited. */
  ghost predicate Admitted(lib: Library, w: World, e: Event) {
    match e
    case Start(i, inputs, _) => i < |w.definitions| && lib.conforms(w.definitions[i].body.inputsSchema, inputs)
    case Tick(r, now) => r < |w.runs| && Ready(Env(lib, now), StepsOf(w.runs[r]), Tx(w.runs[r], w.connectors)).Yes?
    case Decided(r, decision, _) => r < |w.runs| && Decidable(StepsOf(w.runs[r]), w.runs[r], decision.expectedVersion)
    case _ => false
  }

  /** How the transaction of an admitted event begins. */
  ghost function Begin(lib: Library, w: World, e: Event): (b: Begun)
    requires Inv(w) && Admitted(lib, w, e)
    ensures Sound(StepsOf(b.tx.run), b.tx.run.record.body.start)
    ensures b.move.Goto? ==> b.move.node in StepsOf(b.tx.run)
  {
    match e
    case Start(i, inputs, _) =>
      var tx := StartTx(w, w.definitions[i], inputs);
      StartEnters(w, i, inputs);
      Begun(tx, Goto(tx, tx.run.record.body.start))
    case Tick(r, now) =>
      var tx := Tx(w.runs[r], w.connectors);
      RunIsSound(w, r);
      Begun(tx, PollMove(Env(lib, now), StepsOf(tx.run), tx))
    case Decided(r, decision, now) =>
      var tx := Tx(w.runs[r], w.connectors);
      RunIsSound(w, r);
      Begun(tx, DecideMove(Env(lib, now), StepsOf(tx.run), tx, decision))
  }

  /** What the transaction of an event would commit for its run, if it has an effect. */
  ghost function Effect(lib: Library, w: World, e: Event): Option<Tx>
    requires Inv(w)
  {
    if !Admitted(lib, w, e) then None
    else
      var b := Begin(lib, w, e);
      OfResult(Resume(Env(lib, e.now), StepsOf(b.tx.run), b.tx.run.record.body.start, b.move))
  }

  /** An exception rolls the transaction back. */
  function OfResult(result: TxResult): Option<Tx> {
    if result.Done? then Some(result.tx) else None
  }

  ghost function Next(lib: Library, w: World, e: Event): World
    requires Inv(w)
  {
    match e
    case SaveDefinition(project, body) =>
      if Acceptable(body, ProjectConnections(w.connectors.connections, project))
      then w.(definitions := w.definitions + [Definition(project, body)])
      else w
    case Connector(event) => w.(connectors := C.Apply(lib, w.connectors, event).state)
    case Start(_, _, _) =>
      (match Effect(lib, w, e)
       case None => w
       case Some(tx) => w.(connectors := tx.connectors, runs := w.runs + [tx.run]))
    case Tick(r, _) =>
      (match Effect(lib, w, e)
       case None => w
       case Some(tx) => w.(connectors := tx.connectors, runs := w.runs[r := Committed(tx.run)]))
    case Decided(r, _, _) =>
      match Effect(lib, w, e)
      case None => w
      case Some(tx) => w.(connectors := tx.connectors, runs := w.runs[r := Committed(tx.run)])
  }

  // ---- Every event keeps the invariant

  lemma ConnectorsEvolve(w: World, t: C.State)
    requires Inv(w) && C.Evolves(w.connectors, t) && C.Valid(t)
    ensures Inv(w.(connectors := t))
  {
    var after := w.(connectors := t);
    forall i | 0 <= i < |w.definitions| ensures AcceptedAt(after, i) {
      assert AcceptedAt(w, i);
      AcceptableStays(w.definitions[i].body, w.definitions[i].project, w.connectors, t);
    }
    forall r | 0 <= r < |w.runs| ensures SettledAt(after, r) {
      assert SettledAt(w, r);
      SettledStays(w.runs[r], w.connectors, t);
    }
  }

  /** A run changed by one transaction stays apart from every other run. */
  lemma StaysApart(before: Tx, after: Tx, other: Run)
    requires Follows(before, after) && Children(other, before.connectors.calls)
             && Children(before.run, before.connectors.calls)
    requires Apart(other, before.run)
    ensures Apart(other, after.run) && Apart(after.run, other)
  {
    forall i, j | i in other.invocations && j in after.run.invocations && i.data.call.Some?
      ensures i.data.call != j.data.call
    {
      if j.data.call.Some? && j.data.call.value < |before.connectors.calls| {
        var k :| k in before.run.invocations && k.data.call == j.data.call;
        assert i.data.call != k.data.call;
      }
    }
  }

  lemma CommittedSettles(run: Run, s: C.State)
    requires Settled(run, s)
    ensures Settled(Committed(run), s)
  {
    ChildrenSame(run, Committed(run), s);
  }

  /** The transaction of an admitted event ends in a settled run, unless it comes to a time that is no date. */
  lemma BeginConcludes(lib: Library, w: World, e: Event)
    requires Inv(w) && Admitted(lib, w, e)
    ensures var b := Begin(lib, w, e); Resumes(Env(lib, e.now), b.tx, b.move)
  {
    match e
    case Start(i, inputs, now) =>
      var tx := StartTx(w, w.definitions[i], inputs);
      StartEnters(w, i, inputs);
      EnterConcludes(Env(lib, now), tx, tx.run.record.body.start);
    case Tick(r, now) =>
      assert SettledAt(w, r);
      PollConcludes(Env(lib, now), Tx(w.runs[r], w.connectors));
    case Decided(r, decision, now) =>
      assert SettledAt(w, r);
      DecideConcludes(Env(lib, now), Tx(w.runs[r], w.connectors), decision);
  }

  /** A started run joins the others. */
  lemma AddKeeps(w: World, before: Tx, after: Tx)
    requires Inv(w) && before.connectors == w.connectors && before.run.invocations == []
    requires Children(before.run, w.connectors.calls)
    requires Follows(before, after) && Settled(after.run, after.connectors)
    ensures Inv(w.(connectors := after.connectors, runs := w.runs + [after.run]))
  {
    ConnectorsEvolve(w, after.connectors);
    var runs := w.runs + [after.run];
    var next := w.(connectors := after.connectors, runs := runs);
    forall k | 0 <= k < |runs| ensures SettledAt(next, k) {
      assert k < |w.runs| ==> SettledAt(w.(connectors := after.connectors), k);
    }
    forall k | 0 <= k < |w.definitions| ensures AcceptedAt(next, k) {
      assert AcceptedAt(w.(connectors := after.connectors), k);
    }
    forall i, j | 0 <= i < j < |runs| ensures ApartAt(runs, i, j) {
      if j < |w.runs| {
        assert ApartAt(w.runs, i, j);
      } else {
        assert SettledAt(w, i);
        StaysApart(before, after, w.runs[i]);
      }
    }
  }

  lemma StartKeeps(lib: Library, w: World, e: Event)
    requires Inv(w) && e.Start? && Effect(lib, w, e).Some?
    ensures Inv(Next(lib, w, e))
  {
    StartEnters(w, e.definition, e.inputs);
    BeginConcludes(lib, w, e);
    AddKeeps(w, StartTx(w, w.definitions[e.definition], e.inputs), Effect(lib, w, e).value);
  }

  /** The changed run replaces the old one. */
  lemma ReplaceKeeps(w: World, r: nat, after: Tx)
    requires Inv(w) && r < |w.runs| && Follows(Tx(w.runs[r], w.connectors), after)
             && Settled(after.run, after.connectors)
    ensures Inv(w.(connectors := after.connectors, runs := w.runs[r := Committed(after.run)]))
  {
    ConnectorsEvolve(w, after.connectors);
    CommittedSettles(after.run, after.connectors);
    var before := Tx(w.runs[r], w.connectors);
    var runs := w.runs[r := Committed(after.run)];
    var next := w.(connectors := after.connectors, runs := runs);
    forall k | 0 <= k < |runs| ensures SettledAt(next, k) {
      assert SettledAt(w.(connectors := after.connectors), k);
    }
    forall k | 0 <= k < |w.definitions| ensures AcceptedAt(next, k) {
      assert AcceptedAt(w.(connectors := after.connectors), k);
    }
    forall i, j | 0 <= i < j < |runs| ensures ApartAt(runs, i, j) {
      assert ApartAt(w.runs, i, j);
      if i == r || j == r {
        var other := if i == r then j else i;
        assert SettledAt(w, other) && SettledAt(w, r);
        StaysApart(before, after, w.runs[other]);
      }
    }
  }

  lemma EffectFollows(lib: Library, w: World, e: Event, r: nat)
    requires Inv(w) && r < |w.runs| && ((e.Tick? && e.run == r) || (e.Decided? && e.run == r))
             && Effect(lib, w, e).Some?
    ensures var after := Effect(lib, w, e).value;
            Follows(Tx(w.runs[r], w.connectors), after) && Settled(after.run, after.connectors)
  {
    BeginConcludes(lib, w, e);
  }

  lemma SaveKeeps(lib: Library, w: World, e: Event)
    requires Inv(w) && e.SaveDefinition?
    ensures Inv(Next(lib, w, e))
  {
    var next := Next(lib, w, e);
    forall i | 0 <= i < |next.definitions| ensures AcceptedAt(next, i) {
      assert i < |w.definitions| ==> AcceptedAt(w, i);
    }
    forall r | 0 <= r < |next.runs| ensures SettledAt(next, r) {
      assert SettledAt(w, r);
    }
  }

  lemma NextKeeps(lib: Library, w: World, e: Event)
    requires Inv(w)
    ensures Inv(Next(lib, w, e))
  {
    match e
    case SaveDefinition(_, _) => SaveKeeps(lib, w, e);
    case Connector(event) =>
      C.ApplyKeeps(lib, w.connectors, event);
      ConnectorsEvolve(w, C.Apply(lib, w.connectors, event).state);
    case Start(_, _, _) => if Effect(lib, w, e).Some? { StartKeeps(lib, w, e); }
    case Tick(r, _) =>
      if Effect(lib, w, e).Some? {
        EffectFollows(lib, w, e, r);
        ReplaceKeeps(w, r, Effect(lib, w, e).value);
      }
    case Decided(r, _, _) =>
      if Effect(lib, w, e).Some? {
        EffectFollows(lib, w, e, r);
        ReplaceKeeps(w, r, Effect(lib, w, e).value);
      }
  }

  const EMPTY: World := World(C.Init(), [], [])

  /** The world after a sequence of events; every one it reaches satisfies the invariant. */
  ghost function After(lib: Library, events: seq<Event>): (w: World)
    ensures Inv(w)
  {
    if events == [] then EMPTY
    else
      var n := |events| - 1;
      NextKeeps(lib, After(lib, events[..n]), events[n]);
      Next(lib, After(lib, events[..n]), events[n])
  }
}

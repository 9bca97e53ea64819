/** Bounded automatic process adjustments: coordinators read pauses from the event log and record
    on it what they start, skip and finish. */
module ProcessAdjustments {
  import opened Values
  import opened Graphs

  /** An event is named by its position in the log, counted from one. */
  type EventId = nat

  datatype Fact =
    | Paused(run: Id, eligible: bool)
    | Control(run: Id)
    | Started(run: Id, goal: Id, trigger: EventId)
    | Skipped(run: Id, trigger: EventId)
    | Finished(run: Id, trigger: EventId)
    | Other

  type Log = seq<Fact>

  datatype Safety = Safe | Unsafe(converged: bool)

  /** What the states say when a trigger is examined; `policy` is the authorized number of
      adjustments per goal. */
  datatype Input = Input(paused: bool, present: bool, current: bool, policy: Option<nat>, plannerMatches: bool,
                         safety: Safety)

  datatype Answer = Held | Done(terminal: EventId) | SkippedNow | Prepared(trigger: EventId) | Corrupt

  predicate IsControl(f: Fact, run: Id) {
    (f.Paused? || f.Control?) && f.run == run
  }

  predicate IsTerminal(f: Fact, trigger: EventId) {
    (f.Skipped? || f.Finished?) && f.trigger == trigger
  }

  predicate IsStart(f: Fact, trigger: EventId) {
    f.Started? && f.trigger == trigger
  }

  /** The latest control event of a run. */
  function LatestControl(log: Log, run: Id): (id: EventId)
    ensures id <= |log| && (id > 0 ==> IsControl(log[id - 1], run))
    ensures forall i :: id <= i < |log| ==> !IsControl(log[i], run)
  {
    if log == [] then 0
    else if IsControl(log[|log| - 1], run) then |log|
    else LatestControl(log[..|log| - 1], run)
  }

  /** The terminal facts of a trigger. */
  function Terminals(log: Log, trigger: EventId): seq<EventId> {
    if log == [] then []
    else Terminals(log[..|log| - 1], trigger) + if IsTerminal(log[|log| - 1], trigger) then [|log|] else []
  }

  predicate HasStarted(log: Log, trigger: EventId) {
    exists i :: 0 <= i < |log| && IsStart(log[i], trigger)
  }

  function Starts(log: Log, goal: Id): nat {
    if log == [] then 0
    else
      var last := log[|log| - 1];
      Starts(log[..|log| - 1], goal) + if last.Started? && last.goal == goal then 1 else 0
  }

  function SkipStep(log: Log, run: Id, trigger: EventId): (Log, Answer) {
    var terminals := Terminals(log, trigger);
    if |terminals| > 1 then (log, Corrupt)
    else if terminals != [] then (log, Done(terminals[0]))
    else (log + [Skipped(run, trigger)], SkippedNow)
  }

  /** Whether a trigger may start: its authorization, its budget, and the safety of the run. */
  function Decide(log: Log, run: Id, goal: Id, trigger: EventId, input: Input): (Log, Answer) {
    if !input.current || input.policy.None? || !input.plannerMatches || Starts(log, goal) >= input.policy.value
    then SkipStep(log, run, trigger)
    else match input.safety
      case Unsafe(converged) => if converged then SkipStep(log, run, trigger) else (log, Held)
      case Safe => (log + [Started(run, goal, trigger)], Prepared(trigger))
  }

  function PrepareStep(log: Log, run: Id, goal: Id, input: Input): (Log, Answer) {
    var trigger := LatestControl(log, run);
    if !input.paused then (log, Held)
    else if trigger == 0 || !log[trigger - 1].Paused? || !log[trigger - 1].eligible then (log, Held)
    else
      var terminals := Terminals(log, trigger);
      if |terminals| > 1 then (log, Corrupt)
      else if terminals != [] then (log, Done(terminals[0]))
      else if HasStarted(log, trigger) || !input.present then (log, Held)
      else Decide(log, run, goal, trigger, input)
  }

  function FinishStep(log: Log, run: Id, trigger: EventId): (Log, Answer) {
    var terminals := Terminals(log, trigger);
    if |terminals| > 1 then (log, Corrupt)
    else if terminals != [] then (log, Done(terminals[0]))
    else (log + [Finished(run, trigger)], Done(|log| + 1))
  }

  // ---- What a coordinator remembers

  datatype Memory = Memory(pending: map<Id, EventId>, terminal: set<EventId>)

  function Forget(m: Memory, run: Id, trigger: EventId): Memory {
    if run in m.pending && m.pending[run] == trigger then m.(pending := m.pending - {run}) else m
  }

  /** The effect of the event with identity `id`. */
  function Consume(m: Memory, f: Fact, id: EventId): Memory {
    match f
    case Paused(run, eligible) => if eligible then m.(pending := m.pending[run := id])
      else m.(pending := m.pending - {run})
    case Control(run) => m.(pending := m.pending - {run})
    case Started(run, _, trigger) => Forget(m, run, trigger)
    case Skipped(run, trigger) => Forget(m.(terminal := m.terminal + {trigger}), run, trigger)
    case Finished(run, trigger) => Forget(m.(terminal := m.terminal + {trigger}), run, trigger)
    case Other => m
  }

  /** The whole log read from the start. */
  function Fold(log: Log): Memory {
    if log == [] then Memory(map[], {}) else Consume(Fold(log[..|log| - 1]), log[|log| - 1], |log|)
  }

  /** A coordinator between two transactions: where it stands in the log and what it remembers. */
  datatype Member = Member(cursor: nat, memory: Memory)

  /** A coordinator that starts, or starts anew. */
  const FRESH := Member(0, Memory(map[], {}))

  /** Reading the events after the cursor. */
  function CatchUp(m: Memory, log: Log, cursor: nat): Memory {
    if |log| <= cursor then m else Consume(CatchUp(m, log[..|log| - 1], cursor), log[|log| - 1], |log|)
  }

  function ReadOn(log: Log, m: Member): Member {
    Member(|log|, CatchUp(m.memory, log, m.cursor))
  }

  /** The paused runs that wait for an adjustment, as far as the coordinator knows. */
  function Offers(m: Memory): set<Id> {
    set r | r in m.pending && m.pending[r] !in m.terminal
  }

  /** The coordinator ended the trigger itself. */
  function Noted(m: Member, trigger: EventId): Member {
    m.(memory := m.memory.(terminal := m.memory.terminal + {trigger}))
  }

  function Cancelled(m: Member, run: Id): Member {
    m.(memory := m.memory.(pending := m.memory.pending - {run}))
  }

  function Prepares(m: Member, log: Log, run: Id, answer: Answer): Member {
    if answer.SkippedNow? then Noted(m, LatestControl(log, run)) else m
  }

  function Finishes(m: Member, log: Log, trigger: EventId): Member {
    if Terminals(log, trigger) == [] then Noted(m, trigger) else m
  }

  /** The memory is the fold of what was read, apart from terminal facts that are known early. */
  ghost predicate FaithfulTo(log: Log, cursor: nat, m: Memory) {
    && cursor <= |log| && m.pending == Fold(log[..cursor]).pending
    && Fold(log[..cursor]).terminal <= m.terminal <= Fold(log).terminal
  }

  lemma {:induction false} TerminalFoldGrows(small: Log, large: Log)
    requires small <= large
    ensures Fold(small).terminal <= Fold(large).terminal
    decreases |large|
  {
    if |small| < |large| {
      TerminalFoldGrows(small, large[..|large| - 1]);
    } else {
      assert small == large;
    }
  }

  /** Whatever others append, a coordinator's memory stays faithful. */
  lemma FaithfulAmongOthers(log: Log, more: Log, cursor: nat, m: Memory)
    requires FaithfulTo(log, cursor, m) && log <= more
    ensures FaithfulTo(more, cursor, m)
  {
    assert more[..cursor] == log[..cursor];
    TerminalFoldGrows(log, more);
  }

  /** A coordinator that skips or finishes a trigger itself may remember that before it reads it. */
  lemma FaithfulAfterOwnFact(log: Log, f: Fact, cursor: nat, m: Memory)
    requires FaithfulTo(log, cursor, m) && (f.Skipped? || f.Finished?)
    ensures FaithfulTo(log + [f], cursor, m.(terminal := m.terminal + {f.trigger}))
  {
    FaithfulAmongOthers(log, log + [f], cursor, m);
    assert (log + [f])[..|log|] == log;
  }

  lemma {:induction false} CatchUpTerminal(m: Memory, log: Log, cursor: nat)
    requires cursor <= |log| && Fold(log[..cursor]).terminal <= m.terminal
    ensures CatchUp(m, log, cursor).terminal == m.terminal + Fold(log).terminal
    decreases |log|
  {
    if cursor < |log| {
      assert log[..|log| - 1][..cursor] == log[..cursor];
      CatchUpTerminal(m, log[..|log| - 1], cursor);
    } else {
      assert log[..cursor] == log;
    }
  }

  lemma {:induction false} CatchUpPending(m: Memory, log: Log, cursor: nat)
    requires cursor <= |log| && m.pending == Fold(log[..cursor]).pending
    ensures CatchUp(m, log, cursor).pending == Fold(log).pending
    decreases |log|
  {
    if cursor < |log| {
      assert log[..|log| - 1][..cursor] == log[..cursor];
      CatchUpPending(m, log[..|log| - 1], cursor);
    } else {
      assert log[..cursor] == log;
    }
  }

  /** Reading the rest of the log makes up for all of it. */
  lemma CatchUpIsFold(m: Memory, log: Log, cursor: nat)
    requires FaithfulTo(log, cursor, m)
    ensures CatchUp(m, log, cursor) == Fold(log) && FaithfulTo(log, |log|, Fold(log))
  {
    CatchUpTerminal(m, log, cursor);
    CatchUpPending(m, log, cursor);
    assert log[..|log|] == log;
  }

  class EventLog {
    var events: Log

    constructor ()
      ensures events == []
    {
      events := [];
    }
  }

  class Coordinator {
    const log: EventLog
    var cursor: nat
    var pending: map<Id, EventId>
    var terminal: set<EventId>

    constructor (log: EventLog)
      ensures this.log == log && State() == FRESH && Faithful()
    {
      this.log, cursor, pending, terminal := log, 0, map[], {};
      new;
      TerminalFoldGrows([], log.events);
    }

    function State(): Member
      reads this
    {
      Member(cursor, Memory(pending, terminal))
    }

    ghost predicate Faithful()
      reads this, log
    {
      FaithfulTo(log.events, cursor, Memory(pending, terminal))
    }

    /** Reads the events after the cursor and returns the paused runs that wait for an adjustment. */
    method PendingRuns() returns (runs: set<Id>)
      requires cursor <= |log.events|
      modifies this
      ensures State() == ReadOn(log.events, old(State())) && runs == Offers(State().memory)
      ensures old(Faithful()) ==> Faithful() && State().memory == Fold(log.events)
    {
      ghost var before := State();
      ghost var faithful := Faithful();
      var all := log.events;
      for i := cursor to |all|
        invariant Memory(pending, terminal) == CatchUp(before.memory, all[..i], before.cursor)
        invariant log.events == all
      {
        assert all[..i + 1][..i] == all[..i];
        var m := Consume(Memory(pending, terminal), all[i], i + 1);
        pending, terminal := m.pending, m.terminal;
      }
      assert all[..|all|] == all;
      cursor := |all|;
      runs := set r | r in pending && pending[r] !in terminal;
      if faithful {
        CatchUpIsFold(before.memory, all, before.cursor);
      }
    }

    method Cancel(run: Id)
      modifies this
      ensures State() == Cancelled(old(State()), run)
    {
      pending := pending - {run};
    }

    method FindTerminal(trigger: EventId) returns (found: Result<Option<EventId>, Answer>)
      ensures var terminals := Terminals(log.events, trigger);
              found == if |terminals| > 1 then Err(Corrupt)
                else Ok(if terminals == [] then None else Some(terminals[0]))
    {
      var at: Option<EventId> := None;
      for i := 0 to |log.events|
        invariant Terminals(log.events[..i], trigger) == if at.Some? then [at.value] else []
      {
        assert log.events[..i + 1][..i] == log.events[..i];
        if IsTerminal(log.events[i], trigger) {
          if at.Some? {
            TerminalsGrow(log.events, i + 1, trigger);
            return Err(Corrupt);
          }
          at := Some(i + 1);
        }
      }
      assert log.events[..|log.events|] == log.events;
      found := Ok(at);
    }

    method CountStarts(goal: Id) returns (n: nat)
      ensures n == Starts(log.events, goal)
    {
      n := 0;
      for i := 0 to |log.events|
        invariant n == Starts(log.events[..i], goal)
      {
        assert log.events[..i + 1][..i] == log.events[..i];
        if log.events[i].Started? && log.events[i].goal == goal {
          n := n + 1;
        }
      }
      assert log.events[..|log.events|] == log.events;
    }

    method Skip(run: Id, trigger: EventId) returns (answer: Answer)
      modifies this, log
      ensures (log.events, answer) == SkipStep(old(log.events), run, trigger)
      ensures State() == if answer.SkippedNow? then Noted(old(State()), trigger) else old(State())
      ensures old(Faithful()) ==> Faithful()
    {
      ghost var faithful := Faithful();
      var found := FindTerminal(trigger);
      if found.Err? {
        return Corrupt;
      }
      if found.value.Some? {
        return Done(found.value.value);
      }
      if faithful {
        FaithfulAfterOwnFact(log.events, Skipped(run, trigger), cursor, Memory(pending, terminal));
      }
      log.events := log.events + [Skipped(run, trigger)];
      terminal := terminal + {trigger};
      answer := SkippedNow;
    }

    /** Examines the latest pause of a run in one transaction. */
    method Prepare(run: Id, goal: Id, input: Input) returns (answer: Answer)
      modifies this, log
      ensures (log.events, answer) == PrepareStep(old(log.events), run, goal, input)
      ensures State() == Prepares(old(State()), old(log.events), run, answer)
      ensures old(Faithful()) ==> Faithful()
    {
      ghost var faithful := Faithful();
      var trigger := LatestControl(log.events, run);
      if !input.paused || trigger == 0 || !log.events[trigger - 1].Paused? || !log.events[trigger - 1].eligible {
        return Held;
      }
      var found := FindTerminal(trigger);
      if found.Err? {
        return Corrupt;
      }
      if found.value.Some? {
        return Done(found.value.value);
      }
      if HasStarted(log.events, trigger) || !input.present {
        return Held;
      }
      if !input.current || input.policy.None? || !input.plannerMatches {
        answer := Skip(run, trigger);
        return;
      }
      var starts := CountStarts(goal);
      if starts >= input.policy.value || (input.safety.Unsafe? && input.safety.converged) {
        answer := Skip(run, trigger);
      } else if input.safety.Unsafe? {
        answer := Held;
      } else {
        if faithful {
          FaithfulAmongOthers(log.events, log.events + [Started(run, goal, trigger)], cursor,
                              Memory(pending, terminal));
        }
        log.events := log.events + [Started(run, goal, trigger)];
        answer := Prepared(trigger);
      }
    }

    method Finish(run: Id, trigger: EventId) returns (answer: Answer)
      modifies this, log
      ensures (log.events, answer) == FinishStep(old(log.events), run, trigger)
      ensures State() == Finishes(old(State()), old(log.events), trigger)
      ensures old(Faithful()) ==> Faithful()
    {
      ghost var faithful := Faithful();
      var found := FindTerminal(trigger);
      if found.Err? {
        return Corrupt;
      }
      if found.value.Some? {
        return Done(found.value.value);
      }
      if faithful {
        FaithfulAfterOwnFact(log.events, Finished(run, trigger), cursor, Memory(pending, terminal));
      }
      log.events := log.events + [Finished(run, trigger)];
      terminal := terminal + {trigger};
      answer := Done(|log.events|);
    }
  }

  lemma {:induction false} TerminalsGrow(log: Log, i: nat, trigger: EventId)
    requires i <= |log|
    ensures |Terminals(log[..i], trigger)| <= |Terminals(log, trigger)|
    decreases |log|
  {
    if i < |log| {
      assert log[..|log| - 1][..i] == log[..i];
      TerminalsGrow(log[..|log| - 1], i, trigger);
    } else {
      assert log[..i] == log;
    }
  }
}

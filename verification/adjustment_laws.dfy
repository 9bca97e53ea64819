/** What a coordinator does with a pause, told by the facts on the log and the answer alone. */
module AdjustmentLaws {
  import opened Values
  import opened Graphs
  import opened ProcessAdjustments
  import opened AdjustmentAccounting

  // ---- What the log says

  ghost predicate ControlAt(log: Log, run: Id, t: int) {
    0 < t <= |log| && (log[t - 1].Paused? || log[t - 1].Control?) && log[t - 1].run == run
  }

  ghost predicate LastControlAt(log: Log, run: Id, t: int) {
    ControlAt(log, run, t) && forall u :: ControlAt(log, run, u) ==> u <= t
  }

  /** The latest control event of the run is an eligible pause. */
  ghost predicate PauseAt(log: Log, run: Id, t: int) {
    LastControlAt(log, run, t) && log[t - 1] == Paused(run, true)
  }

  ghost predicate EndedAt(log: Log, trigger: EventId, d: int) {
    0 < d <= |log| && (log[d - 1].Skipped? || log[d - 1].Finished?) && log[d - 1].trigger == trigger
  }

  ghost predicate Open(log: Log, trigger: EventId) {
    forall d :: !EndedAt(log, trigger, d)
  }

  ghost predicate EndedOnce(log: Log, trigger: EventId, d: int) {
    EndedAt(log, trigger, d) && forall e :: EndedAt(log, trigger, e) ==> e == d
  }

  ghost predicate EndedTwice(log: Log, trigger: EventId) {
    exists d, e :: d < e && EndedAt(log, trigger, d) && EndedAt(log, trigger, e)
  }

  ghost predicate StartedAt(log: Log, trigger: EventId, i: int) {
    0 <= i < |log| && log[i].Started? && log[i].trigger == trigger
  }

  ghost predicate Unstarted(log: Log, trigger: EventId) {
    forall i :: !StartedAt(log, trigger, i)
  }

  /** The adjustments that were started for the goal. */
  ghost function StartsFor(log: Log, goal: Id): set<int> {
    set i | 0 <= i < |log| && log[i].Started? && log[i].goal == goal
  }

  lemma LatestIs(log: Log, run: Id)
    ensures var t := LatestControl(log, run);
            if t == 0 then forall u :: !ControlAt(log, run, u) else LastControlAt(log, run, t)
  {
    var t := LatestControl(log, run);
    forall u | ControlAt(log, run, u) ensures u <= t && t > 0 {
      assert IsControl(log[u - 1], run);
    }
  }

  lemma {:induction false} StartsAreCounted(log: Log, goal: Id)
    ensures Starts(log, goal) == |StartsFor(log, goal)|
    decreases |log|
  {
    if log != [] {
      var front, n := log[..|log| - 1], |log| - 1;
      StartsAreCounted(front, goal);
      var counts := log[n].Started? && log[n].goal == goal;
      assert StartsFor(log, goal) == StartsFor(front, goal) + if counts then {n} else {};
    }
  }

  lemma {:induction false} EndsAreFound(log: Log, trigger: EventId)
    ensures match |Terminals(log, trigger)|
            case 0 => Open(log, trigger)
            case 1 => EndedOnce(log, trigger, Terminals(log, trigger)[0])
            case _ => EndedTwice(log, trigger)
    decreases |log|
  {
    TerminalsAre(log, trigger);
    var found := Terminals(log, trigger);
    forall d ensures EndedAt(log, trigger, d) <==> d > 0 && d in found {
    }
    if |found| == 1 {
      assert found[0] in found;
    } else if |found| > 1 {
      TwoTerminals(log, trigger);
      TwoOfTrigger(log, trigger);
    }
  }

  lemma {:induction false} TwoOfTrigger(log: Log, trigger: EventId)
    requires |Terminals(log, trigger)| > 1
    ensures EndedTwice(log, trigger)
    decreases |log|
  {
    var front := log[..|log| - 1];
    if |Terminals(front, trigger)| > 1 {
      TwoOfTrigger(front, trigger);
      var d, e :| d < e && EndedAt(front, trigger, d) && EndedAt(front, trigger, e);
      assert EndedAt(log, trigger, d) && EndedAt(log, trigger, e);
    } else {
      TerminalsAre(front, trigger);
      var k := Terminals(front, trigger)[0];
      assert k in Terminals(front, trigger);
      assert EndedAt(log, trigger, k) && EndedAt(log, trigger, |log|);
    }
  }

  // ---- Preparing

  /** The current authorization of the run allows the configured planner one more adjustment of the goal. */
  ghost predicate Allows(log: Log, goal: Id, input: Input) {
    input.current && input.plannerMatches && input.policy.Some? && |StartsFor(log, goal)| < input.policy.value
  }

  /** The pause waits for its first adjustment, and the states of the run are there. */
  ghost predicate Ready(log: Log, run: Id, input: Input, t: EventId) {
    && input.paused && PauseAt(log, run, t) && Open(log, t) && Unstarted(log, t) && input.present
  }

  ghost predicate PreparedAs(log: Log, run: Id, goal: Id, input: Input, now: Log, answer: Answer) {
    match answer
    case Prepared(t) =>
      && Ready(log, run, input, t) && Allows(log, goal, input) && input.safety == Safe
      && now == log + [Started(run, goal, t)]
    case SkippedNow =>
      exists t :: Ready(log, run, input, t) && (!Allows(log, goal, input) || input.safety == Unsafe(true))
                  && now == log + [Skipped(run, t)]
    case Done(d) => now == log && input.paused && exists t :: PauseAt(log, run, t) && EndedOnce(log, t, d)
    case Corrupt => now == log && input.paused && exists t :: PauseAt(log, run, t) && EndedTwice(log, t)
    case Held => now == log && HeldBack(log, run, goal, input)
  }

  /** Nothing is recorded: the run is not paused, its latest control event is no eligible pause, the pause was
      started or the states are not there, or the run has not come to rest. */
  ghost predicate HeldBack(log: Log, run: Id, goal: Id, input: Input) {
    || !input.paused || (forall t :: !PauseAt(log, run, t))
    || (exists t :: PauseAt(log, run, t) && Open(log, t) && (!Unstarted(log, t) || !input.present))
    || (exists t :: Ready(log, run, input, t) && Allows(log, goal, input) && input.safety == Unsafe(false))
  }

  /** A pause is started exactly when it is the latest control event, eligible, neither started nor ended, and
      allowed on a safe run; it is skipped exactly when it will never be; else nothing is recorded. */
  lemma PrepareLaw(log: Log, run: Id, goal: Id, input: Input)
    ensures PreparedAs(log, run, goal, input, PrepareStep(log, run, goal, input).0,
                       PrepareStep(log, run, goal, input).1)
  {
    var t := LatestControl(log, run);
    LatestIs(log, run);
    NoOtherPause(log, run, t);
    if t > 0 && log[t - 1].Paused? && log[t - 1].eligible {
      assert PauseAt(log, run, t);
      EndsAreFound(log, t);
      StartsAreCounted(log, goal);
      StartIsSeen(log, t);
      assert Ready(log, run, input, t) <==> input.paused && Open(log, t) && Unstarted(log, t) && input.present;
    }
  }

  lemma NoOtherPause(log: Log, run: Id, t: EventId)
    requires t == LatestControl(log, run)
    ensures forall u :: PauseAt(log, run, u) ==> u == t && log[t - 1].Paused? && log[t - 1].eligible
  {
    LatestIs(log, run);
  }

  lemma StartIsSeen(log: Log, t: EventId)
    ensures HasStarted(log, t) <==> !Unstarted(log, t)
  {
    if i :| StartedAt(log, t, i) {
      assert IsStart(log[i], t);
    }
    if HasStarted(log, t) {
      var i :| 0 <= i < |log| && IsStart(log[i], t);
      assert StartedAt(log, t, i);
    }
  }

  // ---- Ending

  /** A trigger ends once: with this fact, or as it had ended before. */
  ghost predicate EndsAs(log: Log, trigger: EventId, fact: Fact, done: Answer, now: Log, answer: Answer) {
    match answer
    case Corrupt => now == log && EndedTwice(log, trigger)
    case _ => if Open(log, trigger) then now == log + [fact] && answer == done
              else now == log && answer.Done? && EndedOnce(log, trigger, answer.terminal)
  }

  lemma SkipLaw(log: Log, run: Id, trigger: EventId)
    ensures EndsAs(log, trigger, Skipped(run, trigger), SkippedNow, SkipStep(log, run, trigger).0,
                   SkipStep(log, run, trigger).1)
  {
    EndsAreFound(log, trigger);
  }

  lemma FinishLaw(log: Log, run: Id, trigger: EventId)
    ensures EndsAs(log, trigger, Finished(run, trigger), Done(|log| + 1), FinishStep(log, run, trigger).0,
                   FinishStep(log, run, trigger).1)
  {
    EndsAreFound(log, trigger);
  }
}

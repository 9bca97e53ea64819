/** What the adjustment facts on the log add up to, for any number of coordinators, restarts and
    cancellations. */
module AdjustmentAccounting {
  import opened Values
  import opened Graphs
  import opened ProcessAdjustments

  // ---- Facts about single logs

  lemma {:induction false} TerminalsAre(log: Log, trigger: EventId)
    ensures forall k :: k in Terminals(log, trigger) <==> 0 < k <= |log| && IsTerminal(log[k - 1], trigger)
    ensures Terminals(log, trigger) == [] <==> forall i :: 0 <= i < |log| ==> !IsTerminal(log[i], trigger)
    decreases |log|
  {
    if log != [] {
      var front := log[..|log| - 1];
      TerminalsAre(front, trigger);
      forall i | 0 <= i < |front| ensures front[i] == log[i] {
      }
      forall k ensures k in Terminals(log, trigger) <==> 0 < k <= |log| && IsTerminal(log[k - 1], trigger) {
        if 0 < k <= |front| {
          assert front[k - 1] == log[k - 1];
        }
      }
    }
  }

  ghost predicate SameStart(log: Log, i: int, j: int)
    requires 0 <= i < |log| && 0 <= j < |log|
  {
    log[i].Started? && log[j].Started? && log[i].trigger == log[j].trigger
  }

  ghost predicate SameTerminal(log: Log, i: int, j: int)
    requires 0 <= i < |log| && 0 <= j < |log|
  {
    (log[i].Skipped? || log[i].Finished?) && (log[j].Skipped? || log[j].Finished?) && log[i].trigger == log[j].trigger
  }

  ghost predicate SkipAndStart(log: Log, i: int, j: int)
    requires 0 <= i < |log| && 0 <= j < |log|
  {
    log[i].Skipped? && log[j].Started? && log[i].trigger == log[j].trigger
  }

  /** The trigger is an eligible pause of the run, earlier in the log. */
  ghost predicate TriggerOf(log: Log, k: nat, run: Id, trigger: EventId) {
    0 < trigger <= k <= |log| && log[trigger - 1].Paused? && log[trigger - 1].eligible && log[trigger - 1].run == run
  }

  ghost predicate StartedFor(log: Log, k: nat, run: Id, trigger: EventId) {
    exists j :: 0 <= j < k && j < |log| && IsStart(log[j], trigger) && log[j].run == run
  }

  ghost predicate Founded(log: Log, k: nat)
    requires k < |log|
  {
    var f := log[k];
    && (f.Started? || f.Skipped? || f.Finished? ==> TriggerOf(log, k, f.run, f.trigger))
    && (f.Finished? ==> StartedFor(log, k, f.run, f.trigger))
  }

  /** Each trigger has at most one start and one terminal fact; a skipped trigger was never started;
      a finished one was started before; and every trigger is an eligible pause of its run. */
  ghost predicate LogOk(log: Log) {
    && (forall i, j :: 0 <= i < j < |log| ==> !SameStart(log, i, j))
    && (forall i, j :: 0 <= i < j < |log| ==> !SameTerminal(log, i, j))
    && (forall i, j :: 0 <= i < |log| && 0 <= j < |log| ==> !SkipAndStart(log, i, j))
    && forall k :: 0 <= k < |log| ==> Founded(log, k)
  }

  ghost predicate MayAppend(log: Log, f: Fact) {
    && (f.Started? ==> TriggerOf(log, |log|, f.run, f.trigger) && !HasStarted(log, f.trigger)
                       && Terminals(log, f.trigger) == [])
    && (f.Skipped? ==> TriggerOf(log, |log|, f.run, f.trigger) && !HasStarted(log, f.trigger)
                       && Terminals(log, f.trigger) == [])
    && (f.Finished? ==> TriggerOf(log, |log|, f.run, f.trigger) && StartedFor(log, |log|, f.run, f.trigger)
                        && Terminals(log, f.trigger) == [])
  }

  lemma AppendKeeps(log: Log, f: Fact)
    requires LogOk(log) && MayAppend(log, f)
    ensures LogOk(log + [f])
  {
    var now, n := log + [f], |log|;
    if f.Started? || f.Skipped? || f.Finished? {
      TerminalsAre(log, f.trigger);
    }
    forall i, j | 0 <= i < j <= n ensures !SameStart(now, i, j) && !SameTerminal(now, i, j) {
      if j < n {
        assert !SameStart(log, i, j) && !SameTerminal(log, i, j);
      } else {
        assert now[i] == log[i];
      }
    }
    forall i, j | 0 <= i <= n && 0 <= j <= n ensures !SkipAndStart(now, i, j) {
      if i < n && j < n {
        assert !SkipAndStart(log, i, j);
      } else if j < n {
        assert now[j] == log[j] && (f.Skipped? ==> !IsStart(log[j], f.trigger));
      } else if i < n {
        assert now[i] == log[i] && (f.Started? ==> !IsTerminal(log[i], f.trigger));
      }
    }
    forall k | 0 <= k <= n ensures Founded(now, k) {
      FoundedAppend(log, f, k);
    }
  }

  lemma FoundedAppend(log: Log, f: Fact, k: nat)
    requires MayAppend(log, f) && k <= |log| && (k < |log| ==> Founded(log, k))
    ensures Founded(log + [f], k)
  {
    var now := log + [f];
    var g := now[k];
    if g.Started? || g.Skipped? || g.Finished? {
      assert TriggerOf(log, k, g.run, g.trigger);
      assert now[g.trigger - 1] == log[g.trigger - 1];
    }
    if g.Finished? {
      assert StartedFor(log, k, g.run, g.trigger);
      var j :| 0 <= j < k && j < |log| && IsStart(log[j], g.trigger) && log[j].run == g.run;
      assert now[j] == log[j];
    }
  }

  // ---- Interleavings of coordinators

  /** A coordinator at work: its own state, and the run of each adjustment it has under way. */
  datatype Worker = Worker(member: Member, active: map<EventId, Id>)

  /** The log, and the coordinators that share it. */
  datatype World = World(log: Log, workers: map<Id, Worker>)

  /** `Boot` starts a coordinator, or starts it anew after a crash; `Lost` drops an adjustment
      without a fact. */
  datatype Action =
    | External(f: Fact)
    | Boot(worker: Id)
    | Read(worker: Id)
    | Prepare(worker: Id, run: Id, goal: Id, input: Input)
    | Finish(worker: Id, trigger: EventId)
    | Lost(worker: Id, trigger: EventId)
    | Cancel(worker: Id, run: Id)

  function Next(w: World, a: Action): World {
    match a
    case External(f) => if f.Paused? || f.Control? || f.Other? then w.(log := w.log + [f]) else w
    case Boot(c) => w.(workers := w.workers[c := Worker(FRESH, map[])])
    case _ => if a.worker in w.workers then Acts(w, w.workers[a.worker], a) else w
  }

  function Acts(w: World, k: Worker, a: Action): World
    requires !a.External? && !a.Boot?
  {
    match a
    case Read(c) => w.(workers := w.workers[c := k.(member := ReadOn(w.log, k.member))])
    case Prepare(c, run, goal, input) =>
      var (log, answer) := PrepareStep(w.log, run, goal, input);
      World(log, w.workers[c := Worker(Prepares(k.member, w.log, run, answer),
                                       if answer.Prepared? then k.active[answer.trigger := run] else k.active)])
    case Finish(c, trigger) =>
      if trigger !in k.active then w
      else World(FinishStep(w.log, k.active[trigger], trigger).0,
                 w.workers[c := Worker(Finishes(k.member, w.log, trigger), k.active - {trigger})])
    case Lost(c, trigger) => w.(workers := w.workers[c := k.(active := k.active - {trigger})])
    case Cancel(c, run) => w.(workers := w.workers[c := k.(member := Cancelled(k.member, run))])
  }

  function After(actions: seq<Action>): World {
    if actions == [] then World([], map[]) else Next(After(actions[..|actions| - 1]), actions[|actions| - 1])
  }

  ghost predicate ActiveOk(log: Log, trigger: EventId, run: Id) {
    TriggerOf(log, |log|, run, trigger) && StartedFor(log, |log|, run, trigger)
  }

  /** The terminal facts a coordinator remembers are on the log, and it remembers all it has read. */
  ghost predicate MemberOk(log: Log, m: Member) {
    m.cursor <= |log| && Fold(log[..m.cursor]).terminal <= m.memory.terminal <= Fold(log).terminal
  }

  ghost predicate WorkerOk(log: Log, k: Worker) {
    MemberOk(log, k.member) && forall t :: t in k.active ==> ActiveOk(log, t, k.active[t])
  }

  ghost predicate Inv(w: World) {
    LogOk(w.log) && forall c :: c in w.workers ==> WorkerOk(w.log, w.workers[c])
  }

  lemma ActiveStays(log: Log, f: Fact, trigger: EventId, run: Id)
    requires ActiveOk(log, trigger, run)
    ensures ActiveOk(log + [f], trigger, run)
  {
    var now := log + [f];
    assert now[trigger - 1] == log[trigger - 1];
    var j :| 0 <= j < |log| && IsStart(log[j], trigger) && log[j].run == run;
    assert now[j] == log[j];
  }

  lemma MemberStays(log: Log, f: Fact, m: Member)
    requires MemberOk(log, m)
    ensures MemberOk(log + [f], m)
  {
    assert (log + [f])[..m.cursor] == log[..m.cursor];
    TerminalFoldGrows(log, log + [f]);
  }

  lemma WorkerStays(log: Log, f: Fact, k: Worker)
    requires WorkerOk(log, k)
    ensures WorkerOk(log + [f], k)
  {
    MemberStays(log, f, k.member);
    forall t | t in k.active ensures ActiveOk(log + [f], t, k.active[t]) {
      ActiveStays(log, f, t, k.active[t]);
    }
  }

  lemma AppendKeepsWorld(w: World, f: Fact)
    requires Inv(w) && MayAppend(w.log, f)
    ensures Inv(w.(log := w.log + [f]))
  {
    AppendKeeps(w.log, f);
    forall c | c in w.workers ensures WorkerOk(w.log + [f], w.workers[c]) {
      WorkerStays(w.log, f, w.workers[c]);
    }
  }

  lemma NotedStays(log: Log, f: Fact, m: Member)
    requires MemberOk(log, m) && (f.Skipped? || f.Finished?)
    ensures MemberOk(log + [f], Noted(m, f.trigger))
  {
    MemberStays(log, f, m);
    assert (log + [f])[..|log|] == log;
  }

  /** What a preparation appends, if anything: a start or a skip of the run's latest pause. */
  lemma PrepareAppends(log: Log, run: Id, goal: Id, input: Input)
    ensures var (now, answer) := PrepareStep(log, run, goal, input);
            var t := LatestControl(log, run);
            && (answer.Prepared? ==> answer.trigger == t && now == log + [Started(run, goal, t)]
                                     && input.policy.Some? && Starts(log, goal) < input.policy.value)
            && (answer.SkippedNow? ==> now == log + [Skipped(run, t)])
            && (!answer.Prepared? && !answer.SkippedNow? ==> now == log)
            && (answer.Prepared? || answer.SkippedNow? ==>
                  TriggerOf(log, |log|, run, t) && !HasStarted(log, t) && Terminals(log, t) == [])
  {
  }

  lemma PrepareKeeps(w: World, a: Action)
    requires Inv(w) && a.Prepare? && a.worker in w.workers
    ensures Inv(Next(w, a))
  {
    var (log, answer) := PrepareStep(w.log, a.run, a.goal, a.input);
    var k := w.workers[a.worker];
    PrepareAppends(w.log, a.run, a.goal, a.input);
    if answer.Prepared? {
      AppendKeepsWorld(w, log[|w.log|]);
      assert IsStart(log[|w.log|], answer.trigger);
      assert WorkerOk(log, k.(active := k.active[answer.trigger := a.run]));
    } else if answer.SkippedNow? {
      AppendKeepsWorld(w, log[|w.log|]);
      NotedStays(w.log, log[|w.log|], k.member);
    }
  }

  lemma FinishKeeps(w: World, a: Action)
    requires Inv(w) && a.Finish? && a.worker in w.workers
    ensures Inv(Next(w, a))
  {
    var k := w.workers[a.worker];
    if a.trigger in k.active {
      assert ActiveOk(w.log, a.trigger, k.active[a.trigger]);
      if Terminals(w.log, a.trigger) == [] {
        AppendKeepsWorld(w, Finished(k.active[a.trigger], a.trigger));
        NotedStays(w.log, Finished(k.active[a.trigger], a.trigger), k.member);
      }
    }
  }

  lemma ReadKeeps(w: World, a: Action)
    requires Inv(w) && a.Read? && a.worker in w.workers
    ensures Inv(Next(w, a))
  {
    var m := w.workers[a.worker].member;
    CatchUpTerminal(m.memory, w.log, m.cursor);
    assert w.log[..|w.log|] == w.log;
  }

  lemma BootKeeps(w: World, a: Action)
    requires Inv(w) && a.Boot?
    ensures Inv(Next(w, a))
  {
    TerminalFoldGrows([], w.log);
    assert w.log[..0] == [];
  }

  lemma NextKeeps(w: World, a: Action)
    requires Inv(w)
    ensures Inv(Next(w, a))
  {
    match a
    case External(f) =>
      if f.Paused? || f.Control? || f.Other? {
        AppendKeepsWorld(w, f);
      }
    case Boot(_) => BootKeeps(w, a);
    case Read(c) => if c in w.workers { ReadKeeps(w, a); }
    case Prepare(c, _, _, _) => if c in w.workers { PrepareKeeps(w, a); }
    case Finish(c, _) => if c in w.workers { FinishKeeps(w, a); }
    case Lost(_, _) =>
    case Cancel(_, _) =>
  }

  /** Under any interleaving the facts of every trigger stay in order. */
  lemma {:induction false} AlwaysInOrder(actions: seq<Action>)
    ensures Inv(After(actions))
    decreases |actions|
  {
    if actions != [] {
      AlwaysInOrder(actions[..|actions| - 1]);
      NextKeeps(After(actions[..|actions| - 1]), actions[|actions| - 1]);
    }
  }

  /** No terminal fact is ever reported as corrupt. */
  lemma OneTerminal(log: Log, trigger: EventId)
    requires LogOk(log)
    ensures |Terminals(log, trigger)| <= 1
  {
    if |Terminals(log, trigger)| > 1 {
      TwoTerminals(log, trigger);
    }
  }

  lemma {:induction false} TwoTerminals(log: Log, trigger: EventId)
    requires |Terminals(log, trigger)| > 1
    ensures exists i, j :: 0 <= i < j < |log| && SameTerminal(log, i, j)
    decreases |log|
  {
    var front := log[..|log| - 1];
    if |Terminals(front, trigger)| > 1 {
      TwoTerminals(front, trigger);
      var i, j :| 0 <= i < j < |front| && SameTerminal(front, i, j);
      assert SameTerminal(log, i, j);
    } else {
      TerminalsAre(front, trigger);
      var k := Terminals(front, trigger)[0];
      assert k in Terminals(front, trigger);
      assert front[k - 1] == log[k - 1];
      assert SameTerminal(log, k - 1, |log| - 1);
    }
  }

  // ---- The budget of a goal

  /** Every authorization of the goal allows at most `max` adjustments. */
  ghost predicate Authorized(actions: seq<Action>, goal: Id, max: nat) {
    forall i :: 0 <= i < |actions| ==> WithinPolicy(actions[i], goal, max)
  }

  ghost predicate WithinPolicy(a: Action, goal: Id, max: nat) {
    a.Prepare? && a.goal == goal && a.input.policy.Some? ==> a.input.policy.value <= max
  }

  lemma StartsAppend(log: Log, f: Fact, goal: Id)
    ensures Starts(log + [f], goal) == Starts(log, goal) + if f.Started? && f.goal == goal then 1 else 0
  {
    assert (log + [f])[..|log|] == log;
  }

  /** The starts of a goal never exceed what its authorizations allow. */
  lemma {:induction false} BudgetHolds(actions: seq<Action>, goal: Id, max: nat)
    requires Authorized(actions, goal, max)
    ensures Starts(After(actions).log, goal) <= max
    decreases |actions|
  {
    if actions != [] {
      var front, a := actions[..|actions| - 1], actions[|actions| - 1];
      forall i | 0 <= i < |front| ensures WithinPolicy(front[i], goal, max) {
        assert WithinPolicy(actions[i], goal, max);
      }
      BudgetHolds(front, goal, max);
      assert WithinPolicy(actions[|actions| - 1], goal, max);
      BudgetStep(After(front), a, goal, max);
    }
  }

  lemma BudgetPrepare(log: Log, run: Id, g: Id, input: Input, goal: Id, max: nat)
    requires Starts(log, goal) <= max && (g == goal && input.policy.Some? ==> input.policy.value <= max)
    ensures Starts(PrepareStep(log, run, g, input).0, goal) <= max
  {
    PrepareAppends(log, run, g, input);
    StartsAppend(log, Started(run, g, LatestControl(log, run)), goal);
    StartsAppend(log, Skipped(run, LatestControl(log, run)), goal);
  }

  lemma BudgetStep(w: World, a: Action, goal: Id, max: nat)
    requires Starts(w.log, goal) <= max && WithinPolicy(a, goal, max)
    ensures Starts(Next(w, a).log, goal) <= max
  {
    if a.External? {
      StartsAppend(w.log, a.f, goal);
    } else if a.Prepare? {
      BudgetPrepare(w.log, a.run, a.goal, a.input, goal, max);
    } else if a.Finish? && a.worker in w.workers && a.trigger in w.workers[a.worker].active {
      StartsAppend(w.log, Finished(w.workers[a.worker].active[a.trigger], a.trigger), goal);
    }
  }

  // ---- What the memory of a coordinator means

  /** The latest control event of the run is an eligible pause that was neither started nor ended. */
  ghost predicate Waits(log: Log, run: Id, trigger: EventId) {
    && trigger == LatestControl(log, run) && TriggerOf(log, |log|, run, trigger)
    && !HasStarted(log, trigger) && Terminals(log, trigger) == []
  }

  lemma {:induction false} TerminalIs(log: Log, trigger: EventId)
    ensures trigger in Fold(log).terminal <==> Terminals(log, trigger) != []
    decreases |log|
  {
    if log != [] {
      TerminalIs(log[..|log| - 1], trigger);
    }
  }

  /** The pending runs are exactly those that wait. */
  lemma {:induction false} PendingIsWaiting(log: Log, run: Id, trigger: EventId)
    requires LogOk(log)
    ensures run in Fold(log).pending && Fold(log).pending[run] == trigger <==> Waits(log, run, trigger)
    decreases |log|
  {
    if log != [] {
      var front := log[..|log| - 1];
      FrontOk(log);
      PendingIsWaiting(front, run, trigger);
      WaitsStep(log, run, trigger);
      assert Founded(log, |log| - 1);
    }
  }

  lemma FrontOk(log: Log)
    requires LogOk(log) && log != []
    ensures LogOk(log[..|log| - 1])
  {
    var front := log[..|log| - 1];
    forall i, j | 0 <= i < j < |front| ensures !SameStart(front, i, j) && !SameTerminal(front, i, j) {
      assert !SameStart(log, i, j) && !SameTerminal(log, i, j);
    }
    forall i, j | 0 <= i < |front| && 0 <= j < |front| ensures !SkipAndStart(front, i, j) {
      assert !SkipAndStart(log, i, j);
    }
    forall k | 0 <= k < |front| ensures Founded(front, k) {
      FoundedFront(log, k);
    }
  }

  lemma FoundedFront(log: Log, k: nat)
    requires k + 1 < |log| && Founded(log, k)
    ensures Founded(log[..|log| - 1], k)
  {
    var front, f := log[..|log| - 1], log[k];
    if f.Finished? {
      var j :| 0 <= j < k && j < |log| && IsStart(log[j], f.trigger) && log[j].run == f.run;
      assert front[j] == log[j];
    }
  }

  /** How one event changes who waits. */
  lemma WaitsStep(log: Log, run: Id, trigger: EventId)
    requires LogOk(log) && log != []
    ensures var front, f := log[..|log| - 1], log[|log| - 1];
            Waits(log, run, trigger) <==>
              if IsControl(f, run) then f.Paused? && f.eligible && trigger == |log|
              else Waits(front, run, trigger) && !((f.Started? || f.Skipped? || f.Finished?) && f.trigger == trigger)
  {
    var front, f := log[..|log| - 1], log[|log| - 1];
    TerminalsAre(log, trigger);
    TerminalsAre(front, trigger);
    StartedStep(log, trigger);
    if IsControl(f, run) {
      NothingYet(log, |log|);
    }
  }

  lemma StartedStep(log: Log, trigger: EventId)
    requires log != []
    ensures HasStarted(log, trigger) <==> HasStarted(log[..|log| - 1], trigger) || IsStart(log[|log| - 1], trigger)
  {
    var front := log[..|log| - 1];
    forall i | 0 <= i < |front| ensures front[i] == log[i] {
    }
    if HasStarted(front, trigger) {
      var i :| 0 <= i < |front| && IsStart(front[i], trigger);
      assert IsStart(log[i], trigger);
    }
  }

  /** Nothing refers to an event that has only just been appended. */
  lemma NothingYet(log: Log, trigger: EventId)
    requires LogOk(log) && trigger == |log| > 0
    ensures !HasStarted(log, trigger) && Terminals(log, trigger) == []
  {
    forall k | 0 <= k < |log| ensures !IsStart(log[k], trigger) && !IsTerminal(log[k], trigger) {
      assert Founded(log, k);
    }
    TerminalsAre(log, trigger);
  }

  /** The whole log offers exactly the waiting runs. */
  lemma FoldOffers(log: Log, run: Id, trigger: EventId)
    requires LogOk(log)
    ensures var m := Fold(log);
            run in m.pending && m.pending[run] == trigger && trigger !in m.terminal <==> Waits(log, run, trigger)
  {
    PendingIsWaiting(log, run, trigger);
    TerminalIs(log, trigger);
  }

  // ---- What a coordinator offers, over any interleaving

  /** The run was cancelled at the coordinator after it had read the trigger, and it has not started
      anew since. */
  predicate Forgot(actions: seq<Action>, c: Id, run: Id, trigger: EventId) {
    if actions == [] then false
    else
      var front, a := actions[..|actions| - 1], actions[|actions| - 1];
      if a.Boot? && a.worker == c then false
      else
        || Forgot(front, c, run, trigger)
        || (a.Cancel? && a.worker == c && a.run == run
            && c in After(front).workers && trigger <= After(front).workers[c].member.cursor)
  }

  ghost function Lapsed(actions: seq<Action>, c: Id, run: Id): iset<EventId> {
    iset t | Forgot(actions, c, run, t)
  }

  predicate AtMost(t: EventId, cursor: nat) {
    t <= cursor
  }

  ghost function UpTo(cursor: nat): iset<EventId> {
    iset t | AtMost(t, cursor)
  }

  /** The memory has for the run what `whole` has, unless it lapsed. */
  ghost predicate Remembers(m: Memory, whole: Memory, run: Id, lapsed: iset<EventId>) {
    if run in whole.pending && whole.pending[run] !in lapsed
    then run in m.pending && m.pending[run] == whole.pending[run]
    else run !in m.pending
  }

  /** The coordinator remembers the part of the log it has read, and only what it has read can lapse. */
  ghost predicate Keeps(log: Log, m: Member, run: Id, lapsed: iset<EventId>) {
    && m.cursor <= |log| && Remembers(m.memory, Fold(log[..m.cursor]), run, lapsed)
    && forall t :: t in lapsed ==> t <= m.cursor
  }

  ghost predicate KeepsAt(w: World, c: Id, run: Id, lapsed: iset<EventId>) {
    c in w.workers ==> Keeps(w.log, w.workers[c].member, run, lapsed)
  }

  lemma {:induction false} CatchUpRemembers(m: Memory, log: Log, cursor: nat, run: Id, lapsed: iset<EventId>)
    requires cursor <= |log| && Remembers(m, Fold(log[..cursor]), run, lapsed)
    requires forall t :: t in lapsed ==> t <= cursor
    ensures Remembers(CatchUp(m, log, cursor), Fold(log), run, lapsed)
    decreases |log|
  {
    if cursor < |log| {
      var front := log[..|log| - 1];
      assert front[..cursor] == log[..cursor];
      CatchUpRemembers(m, front, cursor, run, lapsed);
      ConsumeRemembers(CatchUp(m, front, cursor), Fold(front), log[|log| - 1], |log|, run, lapsed);
    } else {
      assert log[..cursor] == log;
    }
  }

  lemma ConsumeRemembers(m: Memory, whole: Memory, f: Fact, id: EventId, run: Id, lapsed: iset<EventId>)
    requires Remembers(m, whole, run, lapsed) && id !in lapsed
    ensures Remembers(Consume(m, f, id), Consume(whole, f, id), run, lapsed)
  {
  }

  lemma {:induction false} PendingWasRead(log: Log, run: Id)
    requires run in Fold(log).pending
    ensures Fold(log).pending[run] <= |log|
    decreases |log|
  {
    if log != [] && run in Fold(log[..|log| - 1]).pending {
      PendingWasRead(log[..|log| - 1], run);
    }
  }

  /** What others append to the log a coordinator has not read yet. */
  lemma LogGrows(w: World, a: Action)
    ensures w.log <= Next(w, a).log
  {
    if a.Prepare? {
      PrepareAppends(w.log, a.run, a.goal, a.input);
    }
  }

  lemma KeepsOnGrowth(log: Log, more: Log, m: Member, n: Member, run: Id, lapsed: iset<EventId>)
    requires Keeps(log, m, run, lapsed) && log <= more && n.cursor == m.cursor && n.memory.pending == m.memory.pending
    ensures Keeps(more, n, run, lapsed)
  {
    assert more[..m.cursor] == log[..m.cursor];
  }

  lemma ReadRemembers(log: Log, m: Member, run: Id, lapsed: iset<EventId>)
    requires Keeps(log, m, run, lapsed)
    ensures Keeps(log, ReadOn(log, m), run, lapsed)
  {
    CatchUpRemembers(m.memory, log, m.cursor, run, lapsed);
    assert log[..|log|] == log;
  }

  lemma CancelRemembers(log: Log, m: Member, cancelled: Id, run: Id, lapsed: iset<EventId>)
    requires Keeps(log, m, run, lapsed)
    ensures Keeps(log, Cancelled(m, cancelled), run, if run == cancelled then lapsed + UpTo(m.cursor) else lapsed)
  {
    if run == cancelled && run in Fold(log[..m.cursor]).pending {
      PendingWasRead(log[..m.cursor], run);
    }
  }

  /** One action keeps what a coordinator remembers of a run. */
  lemma StepKeeps(w: World, a: Action, c: Id, run: Id, lapsed: iset<EventId>)
    requires KeepsAt(w, c, run, lapsed) && c in w.workers && !(a.Boot? && a.worker == c)
    ensures KeepsAt(Next(w, a), c, run,
                    if a.Cancel? && a.worker == c && a.run == run then lapsed + UpTo(w.workers[c].member.cursor)
                      else lapsed)
  {
    var m := w.workers[c].member;
    if a.Read? && a.worker == c {
      ReadRemembers(w.log, m, run, lapsed);
    } else if a.Cancel? && a.worker == c {
      CancelRemembers(w.log, m, a.run, run, lapsed);
    } else {
      LogGrows(w, a);
      KeepsOnGrowth(w.log, Next(w, a).log, m, Next(w, a).workers[c].member, run, lapsed);
    }
  }

  lemma LapsedNext(actions: seq<Action>, c: Id, run: Id)
    requires actions != []
    ensures var front, a := actions[..|actions| - 1], actions[|actions| - 1];
            Lapsed(actions, c, run) ==
              if a.Boot? && a.worker == c then iset{}
              else if a.Cancel? && a.worker == c && a.run == run && c in After(front).workers
              then Lapsed(front, c, run) + UpTo(After(front).workers[c].member.cursor)
              else Lapsed(front, c, run)
  {
  }

  lemma {:induction false} AlwaysKeeps(actions: seq<Action>, c: Id, run: Id)
    ensures KeepsAt(After(actions), c, run, Lapsed(actions, c, run))
    decreases |actions|
  {
    if actions != [] {
      var front, a := actions[..|actions| - 1], actions[|actions| - 1];
      AlwaysKeeps(front, c, run);
      LapsedNext(actions, c, run);
      if c in After(front).workers && !(a.Boot? && a.worker == c) {
        StepKeeps(After(front), a, c, run, Lapsed(front, c, run));
      }
    }
  }

  /** What the coordinator offers when it reads the log next. */
  function OfferedBy(actions: seq<Action>, c: Id): set<Id>
    requires c in After(actions).workers
  {
    Offers(After(actions + [Read(c)]).workers[c].member.memory)
  }

  lemma ReadNext(actions: seq<Action>, c: Id)
    requires c in After(actions).workers
    ensures var w := After(actions);
            After(actions + [Read(c)])
              == w.(workers := w.workers[c := w.workers[c].(member := ReadOn(w.log, w.workers[c].member))])
  {
    assert (actions + [Read(c)])[..|actions|] == actions;
  }

  /** Under any interleaving of coordinators, restarts and cancellations, a coordinator that reads the
      log offers exactly the runs that wait, apart from those cancelled at it since it read their pause. */
  lemma OfferedExactly(actions: seq<Action>, c: Id, run: Id)
    requires c in After(actions).workers
    ensures run in OfferedBy(actions, c) <==>
            exists t :: Waits(After(actions).log, run, t) && t !in Lapsed(actions, c, run)
  {
    var w := After(actions);
    var m := w.workers[c].member;
    var read := ReadOn(w.log, m);
    AlwaysInOrder(actions);
    AlwaysKeeps(actions, c, run);
    ReadNext(actions, c);
    ReadRemembers(w.log, m, run, Lapsed(actions, c, run));
    CatchUpTerminal(m.memory, w.log, m.cursor);
    assert w.log[..|w.log|] == w.log;
    if run in read.memory.pending {
      FoldOffers(w.log, run, read.memory.pending[run]);
    }
    if t :| Waits(w.log, run, t) && t !in Lapsed(actions, c, run) {
      FoldOffers(w.log, run, t);
    }
  }

  /** The coordinator was cancelled for no run since it last started. */
  predicate Uncancelled(actions: seq<Action>, c: Id) {
    if actions == [] then true
    else
      var a := actions[|actions| - 1];
      if a.Boot? && a.worker == c then true
      else !(a.Cancel? && a.worker == c) && Uncancelled(actions[..|actions| - 1], c)
  }

  lemma {:induction false} NothingForgotten(actions: seq<Action>, c: Id, run: Id, trigger: EventId)
    requires Uncancelled(actions, c)
    ensures !Forgot(actions, c, run, trigger)
    decreases |actions|
  {
    if actions != [] && !(actions[|actions| - 1].Boot? && actions[|actions| - 1].worker == c) {
      NothingForgotten(actions[..|actions| - 1], c, run, trigger);
    }
  }

  /** Without cancellation a coordinator offers exactly the runs that wait, whether it ran all along
      or started anew. */
  lemma OffersWhatWaits(actions: seq<Action>, c: Id, run: Id)
    requires c in After(actions).workers && Uncancelled(actions, c)
    ensures run in OfferedBy(actions, c) <==> exists t :: Waits(After(actions).log, run, t)
  {
    OfferedExactly(actions, c, run);
    if t :| Waits(After(actions).log, run, t) {
      NothingForgotten(actions, c, run, t);
    }
  }

  /** So all coordinators that were not cancelled offer the same runs. */
  lemma CoordinatorsAgree(actions: seq<Action>, c: Id, d: Id)
    requires c in After(actions).workers && d in After(actions).workers
    requires Uncancelled(actions, c) && Uncancelled(actions, d)
    ensures OfferedBy(actions, c) == OfferedBy(actions, d)
  {
    forall run ensures run in OfferedBy(actions, c) <==> run in OfferedBy(actions, d) {
      OffersWhatWaits(actions, c, run);
      OffersWhatWaits(actions, d, run);
    }
  }
}

/** Times at the end of the calendar: a definition that is accepted and a start that is admitted, and
    yet nothing is stored; and the definitions with which that cannot happen. */
module WorkflowCalendar {
  import opened Values
  import opened Graphs
  import opened Definitions
  import opened EngineSpec
  import opened RunSafety
  import opened RunTransactions
  import opened WorkflowWorld
  import opened WorkflowTheorems
  import C = Connectors

  // ---- Definitions that stay within the calendar

  /** No time the step can need lies outside the range of dates. */
  ghost predicate FitsCalendar(env: Env, step: Step) {
    match step
    case WaitStep(_, _, offset, _) => forall text :: ShiftsFrom(env.lib, text, offset)
    case HumanStep(_, _, _, _, _, timeout) => timeout.Some? ==> env.lib.shift(env.now, timeout.value.seconds).Some?
    case _ => true
  }

  ghost predicate ShiftsFrom(lib: Library, text: string, offset: int) {
    match lib.parseTime(text)
    case NotATime => true
    case OffTheCalendar => false
    case Time(time) => lib.shift(time, offset).Some?
  }

  lemma FittingIsInRange(env: Env, run: Run, step: Step)
    requires FitsCalendar(env, step)
    ensures !OutOfRange(env, run, step)
  {
    if step.WaitStep? {
      var value := Eval(env.lib, run, step.until);
      if value.Some? && value.value.Str? {
        assert ShiftsFrom(env.lib, value.value.text, step.offset);
      }
    }
  }

  lemma FittingStays(env: Env, steps: Steps, tx: Tx, node: Id)
    requires forall n :: n in steps ==> FitsCalendar(env, steps[n])
    ensures !LeavesCalendar(env, steps, tx, node)
  {
    if visits: seq<Visit> :| LeavesBy(env, steps, tx, node, visits) {
      var last := visits[|visits| - 1];
      FittingIsInRange(env, last.tx.run, steps[last.node]);
    }
  }

  /** When no step of the definition can need a time that is no date, every admitted event takes effect. */
  lemma FittingTakesEffect(lib: Library, w: World, e: Event)
    requires Inv(w) && Admitted(lib, w, e)
    requires var steps := StepsOf(Begin(lib, w, e).tx.run);
             forall n :: n in steps ==> FitsCalendar(Env(lib, e.now), steps[n])
    ensures Effect(lib, w, e).Some?
  {
    var b := Begin(lib, w, e);
    CutShortExactly(lib, w, e);
    if b.move.Goto? {
      FittingStays(Env(lib, e.now), StepsOf(b.tx.run), RunningTx(b.move.tx), b.move.node);
    }
  }

  // ---- One that does not

  /** The last second of the year 9999. */
  const LAST_SECOND := 253402300799
  const LAST_TEXT := "9999-12-31T23:59:59Z"

  const LATE: Library := Library(
    (value: Json) => "", (time: int) => "",
    (text: string) => if text == LAST_TEXT then Time(LAST_SECOND) else NotATime,
    (time: int, seconds: int) => if time + seconds > LAST_SECOND then None else Some(time + seconds),
    (schema: Schema, inputs: Obj) => true)

  /** Waits until one minute after the last second. */
  const WAIT: Step := WaitStep("wait", Literal(Str(LAST_TEXT)), 60, "end")
  const END: Step := EndStep("end", "done", map[])
  const LATE_BODY: Body := Body("late", Schema(0, true, {}, None, false), "wait", [WAIT, END])
  const LATE_STEPS: Steps := map["wait" := WAIT, "end" := END]

  lemma LateSteps()
    ensures StepMap(LATE_BODY.steps) == LATE_STEPS
    ensures EdgesOf(LATE_STEPS) == {("wait", "end")}
    ensures StepRefs(WAIT) == {} && StepRefs(END) == {}
  {
    assert LATE_BODY.steps[..1] == [WAIT] && [WAIT][..0] == [];
    assert StepMap([WAIT]) == map["wait" := WAIT];
    assert Successors(WAIT) == ["end"] && Successors(END) == [];
    forall n, t ensures (n, t) in EdgesOf(LATE_STEPS) <==> n == "wait" && t == "end" {
    }
  }

  lemma LateIsAcceptable()
    ensures Acceptable(LATE_BODY, map[])
  {
    LateSteps();
    var edges := EdgesOf(LATE_STEPS);
    ReachRefl(edges, "wait");
    ReachEdge(edges, "wait", "end");
    forall p ensures !Faulty(LATE_BODY, map[], p) {
      if p.BackEdge? {
        LateHasNoCycle(p.step, p.target);
      }
    }
  }

  lemma LateHasNoCycle(a: Id, b: Id)
    ensures !OnCycle(EdgesOf(LATE_STEPS), a, b)
  {
    LateSteps();
    if OnCycle(EdgesOf(LATE_STEPS), a, b) {
      var p :| PathFrom(EdgesOf(LATE_STEPS), "end", "wait", p);
      EdgeAt(EdgesOf(LATE_STEPS), p, 0);
    }
  }

  /** The start is admitted and has no effect. */
  lemma LateStartIsCutShort(project: Id, now: int)
    ensures var saved := After(LATE, [SaveDefinition(project, LATE_BODY)]);
            && saved.definitions == [Definition(project, LATE_BODY)]
            && Admitted(LATE, saved, Start(0, map[], now))
            && Next(LATE, saved, Start(0, map[], now)) == saved
  {
    var saved := After(LATE, [SaveDefinition(project, LATE_BODY)]);
    LateIsAcceptable();
    LateIsSaved(project);
    var tx := StartTx(saved, saved.definitions[0], map[]);
    var env := Env(LATE, now);
    LateSteps();
    assert WaitTime(env, tx.run, WAIT).OffTheCalendar?;
    assert OutOfRange(env, RunningTx(tx).run, WAIT);
    StopsAtOnce(env, LATE_STEPS, RunningTx(tx), "wait");
    CutShortExactly(LATE, saved, Start(0, map[], now));
  }

  lemma LateIsSaved(project: Id)
    ensures After(LATE, [SaveDefinition(project, LATE_BODY)]).definitions == [Definition(project, LATE_BODY)]
  {
    var events := [SaveDefinition(project, LATE_BODY)];
    assert events[..0] == [];
    LateIsAcceptable();
    assert ProjectConnections(EMPTY.connectors.connections, project) == map[];
  }
}

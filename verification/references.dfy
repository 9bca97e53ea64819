/** The references that the check of a definition collects from a step are the ones that the engine
    evaluates: nothing else decides what a step reads, and a step with fields needs them all. */
module References {
  import opened Values
  import opened Graphs
  import opened Definitions
  import opened EngineSpec

  /** Both runs find the same for the reference. */
  predicate Alike(a: Run, b: Run, ref: Ref) {
    Lookup(a, ref) == Lookup(b, ref)
  }

  lemma {:induction false} RenderDepends(lib: Library, a: Run, b: Run, pieces: seq<Piece>)
    requires forall ref :: ref in PieceRefs(pieces) ==> Alike(a, b, ref)
    ensures Render(lib, a, pieces) == Render(lib, b, pieces)
    decreases |pieces|
  {
    if pieces != [] {
      assert pieces[0].Hole? ==> pieces[0].ref in PieceRefs(pieces);
      assert forall ref :: ref in PieceRefs(pieces[1..]) ==> ref in PieceRefs(pieces);
      RenderDepends(lib, a, b, pieces[1..]);
    }
  }

  lemma EvalDepends(lib: Library, a: Run, b: Run, value: Value)
    requires forall ref :: ref in ValueRefs(value) ==> Alike(a, b, ref)
    ensures Eval(lib, a, value) == Eval(lib, b, value)
  {
    match value
    case Literal(_) =>
    case RefValue(ref) => assert ref in ValueRefs(value);
    case Template(pieces) => RenderDepends(lib, a, b, pieces);
  }

  lemma FieldsDepend(lib: Library, a: Run, b: Run, values: map<string, Value>)
    requires forall ref :: ref in FieldRefs(values) ==> Alike(a, b, ref)
    ensures EvalFields(lib, a, values) == EvalFields(lib, b, values)
  {
    forall name | name in values ensures Eval(lib, a, values[name]) == Eval(lib, b, values[name]) {
      assert forall ref :: ref in ValueRefs(values[name]) ==> ref in FieldRefs(values);
      EvalDepends(lib, a, b, values[name]);
    }
    var x, y := EvalFields(lib, a, values), EvalFields(lib, b, values);
    assert x.Some? <==> y.Some?;
    assert x.Some? ==> x.value == y.value;
  }

  lemma {:induction false} TestDepends(lib: Library, a: Run, b: Run, c: Condition)
    requires forall ref :: ref in ConditionRefs(c) ==> Alike(a, b, ref)
    ensures Test(lib, a, c) == Test(lib, b, c)
    decreases c, 1
  {
    match c
    case Exists(ref) => assert ref in ConditionRefs(c);
    case Not(inner) => TestDepends(lib, a, b, inner);
    case All(conditions) => TestsDepend(lib, a, b, conditions, c);
    case Any(conditions) => TestsDepend(lib, a, b, conditions, c);
    case Compare(_, left, right) =>
      forall ref | ref in ValueRefs(left) || ref in ValueRefs(right) ensures Alike(a, b, ref) {
        assert ref in ConditionRefs(c);
      }
      EvalDepends(lib, a, b, left);
      EvalDepends(lib, a, b, right);
  }

  lemma {:induction false} TestsDepend(lib: Library, a: Run, b: Run, conditions: seq<Condition>, whole: Condition)
    requires forall d :: d in conditions ==> d < whole
    requires forall d, ref :: d in conditions && ref in ConditionRefs(d) ==> Alike(a, b, ref)
    ensures TestAll(lib, a, conditions) == TestAll(lib, b, conditions)
    ensures TestAny(lib, a, conditions) == TestAny(lib, b, conditions)
    decreases whole, 0, |conditions|
  {
    if conditions != [] {
      assert conditions[0] in conditions;
      TestDepends(lib, a, b, conditions[0]);
      assert forall d :: d in conditions[1..] ==> d in conditions;
      TestsDepend(lib, a, b, conditions[1..], whole);
    }
  }

  lemma {:induction false} SelectDepends(lib: Library, a: Run, b: Run, cases: seq<Case>, i: nat)
    requires i <= |cases|
    requires forall c, ref :: c in cases && ref in ConditionRefs(c.when) ==> Alike(a, b, ref)
    ensures Select(lib, a, cases, i) == Select(lib, b, cases, i)
    decreases |cases| - i
  {
    if i < |cases| {
      assert cases[i] in cases;
      TestDepends(lib, a, b, cases[i].when);
      SelectDepends(lib, a, b, cases, i + 1);
    }
  }

  /** What the step evaluates is the same in both runs. */
  predicate EvaluatesAlike(env: Env, a: Run, b: Run, step: Step) {
    match step
    case ActionStep(_, _, _, _, inputs, _, _, _) => EvalFields(env.lib, a, inputs) == EvalFields(env.lib, b, inputs)
    case HumanStep(_, _, subject, _, _, _) => EvalFields(env.lib, a, subject) == EvalFields(env.lib, b, subject)
    case EndStep(_, _, result) => EvalFields(env.lib, a, result) == EvalFields(env.lib, b, result)
    case WaitStep(_, until, _, _) =>
      Eval(env.lib, a, until) == Eval(env.lib, b, until) && WaitTime(env, a, step) == WaitTime(env, b, step)
    case ConditionStep(_, cases, _) => Select(env.lib, a, cases, 0) == Select(env.lib, b, cases, 0)
  }

  /** A step depends on nothing of a run but its collected references. */
  lemma StepDepends(env: Env, a: Run, b: Run, step: Step)
    requires forall ref :: ref in StepRefs(step) ==> Alike(a, b, ref)
    ensures EvaluatesAlike(env, a, b, step)
  {
    match step
    case ActionStep(_, _, _, _, inputs, _, _, _) => FieldsDepend(env.lib, a, b, inputs);
    case HumanStep(_, _, subject, _, _, _) => FieldsDepend(env.lib, a, b, subject);
    case EndStep(_, _, result) => FieldsDepend(env.lib, a, b, result);
    case WaitStep(_, until, _, _) =>
      assert forall ref :: ref in ValueRefs(until) ==> ref in StepRefs(step);
      EvalDepends(env.lib, a, b, until);
    case ConditionStep(_, cases, _) =>
      forall c, ref | c in cases && ref in ConditionRefs(c.when) ensures Alike(a, b, ref) {
        assert ref in StepRefs(step);
      }
      SelectDepends(env.lib, a, b, cases, 0);
  }

  // ---- Every collected reference is needed

  predicate AllFound(run: Run, refs: set<Ref>) {
    forall ref :: ref in refs ==> Lookup(run, ref).Some?
  }

  lemma {:induction false} RenderNeeds(lib: Library, run: Run, pieces: seq<Piece>)
    ensures Render(lib, run, pieces).Some? <==> AllFound(run, set ref | ref in PieceRefs(pieces))
    decreases |pieces|
  {
    if pieces != [] {
      var refs, rest := set ref | ref in PieceRefs(pieces), set ref | ref in PieceRefs(pieces[1..]);
      RenderNeeds(lib, run, pieces[1..]);
      assert refs == rest + if pieces[0].Hole? then {pieces[0].ref} else {};
      if AllFound(run, refs) {
        assert pieces[0].Hole? ==> Lookup(run, pieces[0].ref).Some?;
      }
    }
  }

  lemma EvalNeeds(lib: Library, run: Run, value: Value)
    ensures Eval(lib, run, value).Some? <==> AllFound(run, set ref | ref in ValueRefs(value))
  {
    match value
    case Literal(_) =>
    case RefValue(ref) => assert ref in ValueRefs(value);
    case Template(pieces) => RenderNeeds(lib, run, pieces);
  }

  /** Fields have their values exactly when every collected reference finds something. */
  lemma FieldsNeed(lib: Library, run: Run, values: map<string, Value>)
    ensures EvalFields(lib, run, values).Some? <==> AllFound(run, FieldRefs(values))
  {
    forall name | name in values
      ensures Eval(lib, run, values[name]).Some? <==> AllFound(run, set ref | ref in ValueRefs(values[name]))
    {
      EvalNeeds(lib, run, values[name]);
    }
    if AllFound(run, FieldRefs(values)) {
      forall name | name in values ensures Eval(lib, run, values[name]).Some? {
        forall ref | ref in ValueRefs(values[name]) ensures Lookup(run, ref).Some? {
          assert ref in FieldRefs(values);
        }
      }
    }
  }
}

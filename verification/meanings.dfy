/** What references, values and conditions mean, as relations over the inputs of a run and its
    executions so far; and the proof that the engine computes exactly these relations. */
module Meanings {
  import opened Values
  import opened Graphs
  import opened Definitions
  import opened EngineSpec

  // ---- References

  /** A number written with decimal digits. */
  function Decimal(n: nat): string {
    (if n < 10 then "" else Decimal(n / 10)) + [('0' as int + n % 10) as char]
  }

  /** A list index is read as the number it is written for. */
  lemma {:induction false} DecimalIsRead(n: nat)
    ensures IsDigits(Decimal(n)) && ParseNat(Decimal(n)) == n
  {
    if n >= 10 {
      DecimalIsRead(n / 10);
      var front := Decimal(n / 10);
      assert Decimal(n)[..|front|] == front;
    }
  }

  /** One key leads from a value to a part of it: a field of an object or an element of a list. */
  ghost predicate Into(v: Json, key: string, part: Json) {
    || (v.Object? && key in v.fields && v.fields[key] == part)
    || (v.List? && IsDigits(key) && ParseNat(key) < |v.items| && v.items[ParseNat(key)] == part)
  }

  ghost predicate IntoAt(chain: seq<Json>, keys: seq<string>, i: int)
    requires 0 <= i < |keys| && |chain| == |keys| + 1
  {
    Into(chain[i], keys[i], chain[i + 1])
  }

  /** The values on the way from the first to the last, key by key. */
  ghost predicate Chain(chain: seq<Json>, keys: seq<string>) {
    |chain| == |keys| + 1 && forall i :: 0 <= i < |keys| ==> IntoAt(chain, keys, i)
  }

  ghost predicate Leads(v: Json, keys: seq<string>, out: Json) {
    exists chain :: LeadsBy(v, keys, out, chain)
  }

  ghost predicate LeadsBy(v: Json, keys: seq<string>, out: Json, chain: seq<Json>) {
    Chain(chain, keys) && chain[0] == v && chain[|keys|] == out
  }

  lemma LeadsNext(v: Json, keys: seq<string>, out: Json)
    requires keys != []
    ensures Leads(v, keys, out) <==> exists part :: Into(v, keys[0], part) && Leads(part, keys[1..], out)
  {
    if chain :| LeadsBy(v, keys, out, chain) {
      assert IntoAt(chain, keys, 0);
      forall i | 0 <= i < |keys| - 1 ensures IntoAt(chain[1..], keys[1..], i) {
        assert IntoAt(chain, keys, i + 1);
      }
      assert LeadsBy(chain[1], keys[1..], out, chain[1..]);
    }
    if part :| Into(v, keys[0], part) && Leads(part, keys[1..], out) {
      var rest :| LeadsBy(part, keys[1..], out, rest);
      var chain := [v] + rest;
      forall i | 0 <= i < |keys| ensures IntoAt(chain, keys, i) {
        if i > 0 {
          assert IntoAt(rest, keys[1..], i - 1);
        }
      }
      assert LeadsBy(v, keys, out, chain);
    }
  }

  /** Following the keys finds exactly what they lead to. */
  lemma {:induction false} WalkLeads(v: Json, keys: seq<string>, out: Json)
    ensures Walk(v, keys) == Some(out) <==> Leads(v, keys, out)
    decreases |keys|
  {
    if keys == [] {
      assert v == out ==> LeadsBy(v, keys, out, [v]);
    } else {
      LeadsNext(v, keys, out);
      if v.Object? && keys[0] in v.fields {
        assert Into(v, keys[0], v.fields[keys[0]]);
        WalkLeads(v.fields[keys[0]], keys[1..], out);
      } else if v.List? && IsDigits(keys[0]) && ParseNat(keys[0]) < |v.items| {
        assert Into(v, keys[0], v.items[ParseNat(keys[0])]);
        WalkLeads(v.items[ParseNat(keys[0])], keys[1..], out);
      } else {
        assert forall part :: !Into(v, keys[0], part);
      }
    }
  }

  /** The latest completed execution of the step that has an output. */
  ghost predicate Latest(executions: seq<Execution>, step: Id, j: int) {
    && 0 <= j < |executions| && HasOutput(executions, step, j)
    && forall i :: j < i < |executions| ==> !HasOutput(executions, step, i)
  }

  ghost predicate HasOutput(executions: seq<Execution>, step: Id, j: int)
    requires 0 <= j < |executions|
  {
    executions[j].node == step && executions[j].status.Completed? && executions[j].output.Some?
  }

  lemma {:induction false} OutputIsLatest(executions: seq<Execution>, step: Id, output: Obj)
    ensures OutputOf(executions, step) == Some(output) <==>
            exists j :: Latest(executions, step, j) && executions[j].output == Some(output)
    decreases |executions|
  {
    if executions != [] {
      var n := |executions| - 1;
      var front := executions[..n];
      OutputIsLatest(front, step, output);
      if HasOutput(executions, step, n) {
        assert Latest(executions, step, n);
      } else {
        forall i | 0 <= i < n ensures HasOutput(front, step, i) == HasOutput(executions, step, i) {
        }
        forall j | 0 <= j < n ensures Latest(front, step, j) == Latest(executions, step, j) {
          LatestFront(executions, step, j);
        }
        assert !Latest(executions, step, n);
      }
    }
  }

  lemma LatestFront(executions: seq<Execution>, step: Id, j: int)
    requires 0 <= j < |executions| - 1 && !HasOutput(executions, step, |executions| - 1)
    ensures Latest(executions[..|executions| - 1], step, j) == Latest(executions, step, j)
  {
    var n := |executions| - 1;
    forall i | 0 <= i < n ensures HasOutput(executions[..n], step, i) == HasOutput(executions, step, i) {
    }
    if Latest(executions[..n], step, j) {
      forall i | j < i <= n ensures !HasOutput(executions, step, i) {
        assert i < n ==> !HasOutput(executions[..n], step, i);
      }
    }
    if Latest(executions, step, j) {
      forall i | j < i < n ensures !HasOutput(executions[..n], step, i) {
        assert !HasOutput(executions, step, i);
      }
    }
  }

  /** The reference stands for this value: below the inputs of the run, or below the output of the
      latest completed execution of the step it names. */
  ghost predicate Denotes(inputs: Obj, executions: seq<Execution>, ref: Ref, out: Json) {
    match ref
    case InputRef(keys) => Leads(Object(inputs), keys, out)
    case StepRef(step, keys) =>
      exists j :: Latest(executions, step, j) && Leads(Object(executions[j].output.value), keys, out)
    case BadRef(_) => false
  }

  lemma LookupDenotes(run: Run, ref: Ref, out: Json)
    ensures Lookup(run, ref) == Some(out) <==> Denotes(run.record.inputs, run.executions, ref, out)
  {
    match ref
    case InputRef(keys) => WalkLeads(Object(run.record.inputs), keys, out);
    case StepRef(step, keys) =>
      if j :| Latest(run.executions, step, j) && Leads(Object(run.executions[j].output.value), keys, out) {
        OutputIsLatest(run.executions, step, run.executions[j].output.value);
        WalkLeads(Object(run.executions[j].output.value), keys, out);
      }
      var output := OutputOf(run.executions, step);
      if output.Some? {
        OutputIsLatest(run.executions, step, output.value);
        WalkLeads(Object(output.value), keys, out);
      }
    case BadRef(_) =>
  }

  // ---- Values

  /** A value as it appears in a text: itself if it is a text, else its JSON form. */
  function TextOf(lib: Library, v: Json): string {
    if v.Str? then v.text else lib.dumps(v)
  }

  ghost predicate PieceReads(lib: Library, inputs: Obj, executions: seq<Execution>, piece: Piece, text: string) {
    match piece
    case Text(fixed) => text == fixed
    case Hole(ref) => exists v :: Denotes(inputs, executions, ref, v) && text == TextOf(lib, v)
  }

  /** The texts of the pieces, one after the other. */
  ghost predicate PiecesRead(lib: Library, inputs: Obj, executions: seq<Execution>, pieces: seq<Piece>, text: string) {
    if pieces == [] then text == ""
    else exists k :: 0 <= k <= |text| && PieceReads(lib, inputs, executions, pieces[0], text[..k])
                     && PiecesRead(lib, inputs, executions, pieces[1..], text[k..])
  }

  ghost predicate Reads(lib: Library, inputs: Obj, executions: seq<Execution>, value: Value, out: Json) {
    match value
    case Literal(json) => out == json
    case RefValue(ref) => Denotes(inputs, executions, ref, out)
    case Template(pieces) => out.Str? && PiecesRead(lib, inputs, executions, pieces, out.text)
  }

  function PieceText(lib: Library, run: Run, piece: Piece): Option<string> {
    Render(lib, run, [piece])
  }

  lemma PieceIs(lib: Library, run: Run, piece: Piece, text: string)
    ensures PieceText(lib, run, piece) == Some(text) <==>
              PieceReads(lib, run.record.inputs, run.executions, piece, text)
  {
    assert [piece][1..] == [];
    assert Render(lib, run, []) == Some("");
    if piece.Hole? {
      var found := Lookup(run, piece.ref);
      if found.Some? {
        LookupDenotes(run, piece.ref, found.value);
      }
      if v :| Denotes(run.record.inputs, run.executions, piece.ref, v) && text == TextOf(lib, v) {
        LookupDenotes(run, piece.ref, v);
      }
      assert found.Some? ==> PieceText(lib, run, piece) == Some(TextOf(lib, found.value) + "");
      assert found.Some? ==> TextOf(lib, found.value) + "" == TextOf(lib, found.value);
    } else {
      assert piece.text + "" == piece.text;
    }
  }

  lemma RenderSplits(lib: Library, run: Run, pieces: seq<Piece>)
    requires pieces != []
    ensures var head, tail := PieceText(lib, run, pieces[0]), Render(lib, run, pieces[1..]);
            Render(lib, run, pieces) == if head.Some? && tail.Some? then Some(head.value + tail.value) else None
  {
    assert [pieces[0]][1..] == [];
    assert Render(lib, run, []) == Some("");
    var head := PieceText(lib, run, pieces[0]);
    assert head.Some? ==> forall t: string :: t + "" == t;
  }

  lemma {:induction false} RenderReads(lib: Library, run: Run, pieces: seq<Piece>, text: string)
    ensures Render(lib, run, pieces) == Some(text) <==>
            PiecesRead(lib, run.record.inputs, run.executions, pieces, text)
    decreases |pieces|
  {
    if pieces != [] {
      RenderSplits(lib, run, pieces);
      var head, tail := PieceText(lib, run, pieces[0]), Render(lib, run, pieces[1..]);
      if head.Some? && tail.Some? {
        var all := head.value + tail.value;
        assert all[..|head.value|] == head.value && all[|head.value|..] == tail.value;
        PieceIs(lib, run, pieces[0], head.value);
        RenderReads(lib, run, pieces[1..], tail.value);
      }
      if k :| 0 <= k <= |text| && PieceReads(lib, run.record.inputs, run.executions, pieces[0], text[..k])
              && PiecesRead(lib, run.record.inputs, run.executions, pieces[1..], text[k..]) {
        PieceIs(lib, run, pieces[0], text[..k]);
        RenderReads(lib, run, pieces[1..], text[k..]);
        assert text[..k] + text[k..] == text;
      }
    }
  }

  /** The engine evaluates a value to exactly what it means. */
  lemma EvalReads(lib: Library, run: Run, value: Value, out: Json)
    ensures Eval(lib, run, value) == Some(out) <==> Reads(lib, run.record.inputs, run.executions, value, out)
  {
    match value
    case Literal(_) =>
    case RefValue(ref) => LookupDenotes(run, ref, out);
    case Template(pieces) => if out.Str? { RenderReads(lib, run, pieces, out.text); }
  }

  /** Every named value with what it means, and no other. */
  ghost predicate FieldsRead(lib: Library, inputs: Obj, executions: seq<Execution>, values: map<string, Value>,
                             out: Obj)
  {
    out.Keys == values.Keys && forall name :: name in values ==> FieldReads(lib, inputs, executions, values, out, name)
  }

  ghost predicate FieldReads(lib: Library, inputs: Obj, executions: seq<Execution>, values: map<string, Value>,
                             out: Obj,
                             name: string)
    requires name in values && name in out
  {
    Reads(lib, inputs, executions, values[name], out[name])
  }

  lemma FieldsAreRead(lib: Library, run: Run, values: map<string, Value>, out: Obj)
    ensures EvalFields(lib, run, values) == Some(out) <==>
            FieldsRead(lib, run.record.inputs, run.executions, values, out)
  {
    if EvalFields(lib, run, values) == Some(out) {
      forall name | name in values ensures FieldReads(lib, run.record.inputs, run.executions, values, out, name) {
        EvalReads(lib, run, values[name], out[name]);
      }
    }
    if FieldsRead(lib, run.record.inputs, run.executions, values, out) {
      forall name | name in values ensures Eval(lib, run, values[name]) == Some(out[name]) {
        assert FieldReads(lib, run.record.inputs, run.executions, values, out, name);
        EvalReads(lib, run, values[name], out[name]);
      }
      assert EvalFields(lib, run, values).Some? && EvalFields(lib, run, values).value == out;
    }
  }

  // ---- Conditions

  /** `a` comes before `b` in the order of texts: by the first character that differs, or as a beginning. */
  ghost predicate TextBefore(a: string, b: string) {
    exists k :: BeforeAt(a, b, k)
  }

  ghost predicate BeforeAt(a: string, b: string, k: int) {
    0 <= k <= |a| && k < |b| && a[..k] == b[..k] && (k == |a| || a[k] < b[k])
  }

  lemma {:induction false} TextOrder(a: string, b: string)
    ensures TextLess(a, b) <==> TextBefore(a, b)
    decreases |a|
  {
    if |a| > 0 && |b| > 0 {
      TextOrder(a[1..], b[1..]);
      if k :| BeforeAt(a, b, k) {
        if k > 0 {
          assert a[..k][0] == b[..k][0];
          assert a[1..][..k - 1] == a[..k][1..] && b[1..][..k - 1] == b[..k][1..];
          assert BeforeAt(a[1..], b[1..], k - 1);
        }
      }
      if a[0] == b[0] {
        if k :| BeforeAt(a[1..], b[1..], k) {
          assert a[..k + 1] == [a[0]] + a[1..][..k] && b[..k + 1] == [b[0]] + b[1..][..k];
          assert BeforeAt(a, b, k + 1);
        }
      } else if a[0] < b[0] {
        assert BeforeAt(a, b, 0);
      }
    } else if |b| > 0 {
      assert BeforeAt(a, b, 0);
    }
  }

  /** How two values compare. Numbers compare as numbers; other values are equal only as the same
      JSON, and only texts have an order besides. */
  ghost predicate Compares(op: CompareOp, a: Json, b: Json, verdict: bool) {
    if IsNumber(a) && IsNumber(b) then
      var x, y := NumberOf(a), NumberOf(b);
      verdict == match op case Eq => x == y case Ne => x != y case Lt => x < y case Le => x <= y case Gt =>
        x > y case Ge => x >= y
    else match op
      case Eq => verdict == (a == b)
      case Ne => verdict == (a != b)
      case _ => a.Str? && b.Str? && verdict == TextCompares(op, a.text, b.text)
  }

  ghost predicate TextCompares(op: CompareOp, a: string, b: string) {
    match op
    case Lt => TextBefore(a, b)
    case Le => TextBefore(a, b) || a == b
    case Gt => TextBefore(b, a)
    case Ge => TextBefore(b, a) || a == b
    case Eq => a == b
    case Ne => a != b
  }

  lemma {:induction false} TextsCompare(a: string, b: string)
    ensures !(TextLess(a, b) && TextLess(b, a))
    ensures TextLess(a, b) || TextLess(b, a) || a == b
    ensures !TextLess(a, a)
    decreases |a|
  {
    if |a| > 0 {
      TextsCompare(a[1..], if |b| > 0 then b[1..] else "");
    }
  }

  lemma CompareIs(op: CompareOp, a: Json, b: Json, verdict: bool)
    ensures CompareValues(op, a, b) == Some(verdict) <==> Compares(op, a, b, verdict)
  {
    if a.Str? && b.Str? {
      TextsCompare(a.text, b.text);
      TextOrder(a.text, b.text);
      TextOrder(b.text, a.text);
    }
  }

  /** The condition holds, or does not hold. It does neither when a value it needs is missing or two
      values have no order. */
  ghost predicate Judges(lib: Library, inputs: Obj, executions: seq<Execution>, c: Condition, verdict: bool)
    decreases c
  {
    match c
    case Exists(ref) => verdict == (exists v :: Denotes(inputs, executions, ref, v) && v != Null)
    case Not(inner) => Judges(lib, inputs, executions, inner, !verdict)
    case All(conditions) =>
      if verdict then forall d :: d in conditions ==> Judges(lib, inputs, executions, d, true)
      else exists i :: 0 <= i < |conditions| && Judges(lib, inputs, executions, conditions[i], false)
                       && forall j :: 0 <= j < i ==> Judges(lib, inputs, executions, conditions[j], true)
    case Any(conditions) =>
      if !verdict then forall d :: d in conditions ==> Judges(lib, inputs, executions, d, false)
      else exists i :: 0 <= i < |conditions| && Judges(lib, inputs, executions, conditions[i], true)
                       && forall j :: 0 <= j < i ==> Judges(lib, inputs, executions, conditions[j], false)
    case Compare(op, left, right) =>
      exists a, b :: Reads(lib, inputs, executions, left, a) && Reads(lib, inputs, executions, right, b)
                     && Compares(op, a, b, verdict)
  }

  /** Conditions from index `i` on, up to the first with the given verdict. */
  ghost predicate FirstJudged(lib: Library, inputs: Obj, executions: seq<Execution>, conditions: seq<Condition>, i: int,
                              verdict: bool)
  {
    && 0 <= i < |conditions| && Judges(lib, inputs, executions, conditions[i], verdict)
    && forall j :: 0 <= j < i ==> Judges(lib, inputs, executions, conditions[j], !verdict)
  }

  ghost predicate AllJudged(lib: Library, inputs: Obj, executions: seq<Execution>, conditions: seq<Condition>,
                            verdict: bool)
  {
    forall d :: d in conditions ==> Judges(lib, inputs, executions, d, verdict)
  }

  /** The first of the conditions, then the rest. */
  lemma JudgedNext(lib: Library, inputs: Obj, executions: seq<Execution>, conditions: seq<Condition>, verdict: bool)
    requires conditions != []
    ensures AllJudged(lib, inputs, executions, conditions, verdict) <==>
            Judges(lib, inputs, executions, conditions[0], verdict)
              && AllJudged(lib, inputs, executions, conditions[1..], verdict)
    ensures (exists i :: FirstJudged(lib, inputs, executions, conditions, i, verdict)) <==>
            Judges(lib, inputs, executions, conditions[0], verdict)
            || (Judges(lib, inputs, executions, conditions[0], !verdict)
                && exists i :: FirstJudged(lib, inputs, executions, conditions[1..], i, verdict))
  {
    var rest := conditions[1..];
    assert conditions == [conditions[0]] + rest;
    if Judges(lib, inputs, executions, conditions[0], verdict) {
      assert FirstJudged(lib, inputs, executions, conditions, 0, verdict);
    }
    if i :| FirstJudged(lib, inputs, executions, conditions, i, verdict) {
      if i > 0 {
        assert Judges(lib, inputs, executions, conditions[0], !verdict);
        forall j | 0 <= j < i - 1 ensures Judges(lib, inputs, executions, rest[j], !verdict) {
          assert rest[j] == conditions[j + 1];
        }
        assert FirstJudged(lib, inputs, executions, rest, i - 1, verdict);
      }
    }
    if Judges(lib, inputs, executions, conditions[0], !verdict) {
      if i :| FirstJudged(lib, inputs, executions, rest, i, verdict) {
        forall j | 0 <= j < i + 1 ensures Judges(lib, inputs, executions, conditions[j], !verdict) {
          assert j > 0 ==> conditions[j] == rest[j - 1];
        }
        assert FirstJudged(lib, inputs, executions, conditions, i + 1, verdict);
      }
    }
  }

  lemma {:induction false} AllAreTested(lib: Library, run: Run, conditions: seq<Condition>)
    requires forall d :: d in conditions ==> TestIs(lib, run, d)
    ensures TestAll(lib, run, conditions) == Some(true) <==>
            AllJudged(lib, run.record.inputs, run.executions, conditions, true)
    ensures TestAll(lib, run, conditions) == Some(false) <==>
            exists i :: FirstJudged(lib, run.record.inputs, run.executions, conditions, i, false)
    decreases |conditions|
  {
    if conditions != [] {
      assert conditions[0] in conditions && TestIs(lib, run, conditions[0]);
      AllAreTested(lib, run, conditions[1..]);
      JudgedNext(lib, run.record.inputs, run.executions, conditions, true);
      JudgedNext(lib, run.record.inputs, run.executions, conditions, false);
    }
  }

  lemma {:induction false} AnyIsTested(lib: Library, run: Run, conditions: seq<Condition>)
    requires forall d :: d in conditions ==> TestIs(lib, run, d)
    ensures TestAny(lib, run, conditions) == Some(false) <==>
            AllJudged(lib, run.record.inputs, run.executions, conditions, false)
    ensures TestAny(lib, run, conditions) == Some(true) <==>
            exists i :: FirstJudged(lib, run.record.inputs, run.executions, conditions, i, true)
    decreases |conditions|
  {
    if conditions != [] {
      assert conditions[0] in conditions && TestIs(lib, run, conditions[0]);
      AnyIsTested(lib, run, conditions[1..]);
      JudgedNext(lib, run.record.inputs, run.executions, conditions, true);
      JudgedNext(lib, run.record.inputs, run.executions, conditions, false);
    }
  }

  /** The engine tests the condition to exactly the verdict it has. */
  ghost predicate TestIs(lib: Library, run: Run, c: Condition) {
    && (Test(lib, run, c) == Some(true) <==> Judges(lib, run.record.inputs, run.executions, c, true))
    && (Test(lib, run, c) == Some(false) <==> Judges(lib, run.record.inputs, run.executions, c, false))
  }

  lemma CompareIsTested(lib: Library, run: Run, c: Condition)
    requires c.Compare?
    ensures TestIs(lib, run, c)
  {
    var x, y := Eval(lib, run, c.left), Eval(lib, run, c.right);
    if x.Some? && y.Some? {
      EvalReads(lib, run, c.left, x.value);
      EvalReads(lib, run, c.right, y.value);
      CompareIs(c.op, x.value, y.value, true);
      CompareIs(c.op, x.value, y.value, false);
    }
    forall verdict, a, b | Reads(lib, run.record.inputs, run.executions, c.left, a)
                           && Reads(lib, run.record.inputs, run.executions, c.right, b) && Compares(c.op, a, b, verdict)
      ensures Test(lib, run, c) == Some(verdict)
    {
      EvalReads(lib, run, c.left, a);
      EvalReads(lib, run, c.right, b);
      CompareIs(c.op, a, b, verdict);
    }
  }

  lemma ExistsIsTested(lib: Library, run: Run, c: Condition)
    requires c.Exists?
    ensures TestIs(lib, run, c)
  {
    var v := Lookup(run, c.ref);
    if v.Some? {
      LookupDenotes(run, c.ref, v.value);
    }
    if out :| Denotes(run.record.inputs, run.executions, c.ref, out) && out != Null {
      LookupDenotes(run, c.ref, out);
    }
  }

  lemma {:induction false} TestJudges(lib: Library, run: Run, c: Condition)
    ensures TestIs(lib, run, c)
    decreases c
  {
    match c
    case Exists(_) => ExistsIsTested(lib, run, c);
    case Compare(_, _, _) => CompareIsTested(lib, run, c);
    case Not(inner) => TestJudges(lib, run, inner);
    case All(conditions) =>
      forall d | d in conditions ensures TestIs(lib, run, d) {
        TestJudges(lib, run, d);
      }
      AllAreTested(lib, run, conditions);
      AllIs(lib, run.record.inputs, run.executions, conditions);
    case Any(conditions) =>
      forall d | d in conditions ensures TestIs(lib, run, d) {
        TestJudges(lib, run, d);
      }
      AnyIsTested(lib, run, conditions);
      AnyIs(lib, run.record.inputs, run.executions, conditions);
  }

  lemma AllIs(lib: Library, inputs: Obj, executions: seq<Execution>, conditions: seq<Condition>)
    ensures Judges(lib, inputs, executions, All(conditions), true) <==>
              AllJudged(lib, inputs, executions, conditions, true)
    ensures Judges(lib, inputs, executions, All(conditions), false) <==>
            exists i :: FirstJudged(lib, inputs, executions, conditions, i, false)
  {
    if i :| FirstJudged(lib, inputs, executions, conditions, i, false) {
      assert Judges(lib, inputs, executions, conditions[i], false);
    }
    if Judges(lib, inputs, executions, All(conditions), false) {
      var i :| 0 <= i < |conditions| && Judges(lib, inputs, executions, conditions[i], false)
               && forall j :: 0 <= j < i ==> Judges(lib, inputs, executions, conditions[j], true);
      assert FirstJudged(lib, inputs, executions, conditions, i, false);
    }
  }

  lemma AnyIs(lib: Library, inputs: Obj, executions: seq<Execution>, conditions: seq<Condition>)
    ensures Judges(lib, inputs, executions, Any(conditions), false) <==>
              AllJudged(lib, inputs, executions, conditions, false)
    ensures Judges(lib, inputs, executions, Any(conditions), true) <==>
            exists i :: FirstJudged(lib, inputs, executions, conditions, i, true)
  {
    if i :| FirstJudged(lib, inputs, executions, conditions, i, true) {
      assert Judges(lib, inputs, executions, conditions[i], true);
    }
    if Judges(lib, inputs, executions, Any(conditions), true) {
      var i :| 0 <= i < |conditions| && Judges(lib, inputs, executions, conditions[i], true)
               && forall j :: 0 <= j < i ==> Judges(lib, inputs, executions, conditions[j], false);
      assert FirstJudged(lib, inputs, executions, conditions, i, true);
    }
  }

  /** The first case that holds, all before it not holding; |cases| when none holds. */
  ghost predicate Chooses(lib: Library, inputs: Obj, executions: seq<Execution>, cases: seq<Case>, i: int) {
    && 0 <= i <= |cases|
    && (forall j :: 0 <= j < i ==> CaseJudged(lib, inputs, executions, cases, j, false))
    && (i < |cases| ==> CaseJudged(lib, inputs, executions, cases, i, true))
  }

  ghost predicate CaseJudged(lib: Library, inputs: Obj, executions: seq<Execution>, cases: seq<Case>, j: int,
                             verdict: bool)
    requires 0 <= j < |cases|
  {
    Judges(lib, inputs, executions, cases[j].when, verdict)
  }

  lemma {:induction false} SelectFrom(lib: Library, run: Run, cases: seq<Case>, k: nat, i: nat)
    requires k <= |cases|
    requires forall j :: 0 <= j < k ==> CaseJudged(lib, run.record.inputs, run.executions, cases, j, false)
    ensures Select(lib, run, cases, k) == Some(i) <==> k <= i
                                                       && Chooses(lib, run.record.inputs, run.executions, cases, i)
    decreases |cases| - k
  {
    if k < |cases| {
      TestJudges(lib, run, cases[k].when);
      var holds := CaseJudged(lib, run.record.inputs, run.executions, cases, k, true);
      var fails := CaseJudged(lib, run.record.inputs, run.executions, cases, k, false);
      if fails {
        SelectFrom(lib, run, cases, k + 1, i);
        NotBoth(lib, run, cases[k].when);
      }
    }
  }

  /** No condition both holds and does not hold. */
  lemma NotBoth(lib: Library, run: Run, c: Condition)
    ensures !(Judges(lib, run.record.inputs, run.executions, c, true)
              && Judges(lib, run.record.inputs, run.executions, c, false))
  {
    TestJudges(lib, run, c);
  }

  /** The engine selects exactly the first case that holds. */
  lemma SelectChooses(lib: Library, run: Run, cases: seq<Case>, i: nat)
    ensures Select(lib, run, cases, 0) == Some(i) <==> Chooses(lib, run.record.inputs, run.executions, cases, i)
  {
    SelectFrom(lib, run, cases, 0, i);
  }
}

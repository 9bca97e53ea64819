/** Startup recovery: interrupted work is failed, running runs are paused, and a second recovery
    finds nothing to do. */
module StartupRecovery {
  import opened Values
  import opened Graphs

  datatype RunStatus = RunRunning | RunPaused | RunOther
  datatype AttemptStatus = AttemptRunning | AttemptSucceeded | AttemptInterrupted | AttemptOther
  datatype CheckStatus = CheckRunning | CheckCompleted | CheckInterrupted | CheckOther
  datatype NodeStatus = NodeRunning | Candidate | Verifying | Stalled | Suspended | NodeFailed | NodeOther

  datatype Attempt = Attempt(id: Id, node: Id, status: AttemptStatus)
  datatype CheckRun = CheckRun(id: Id, check: Id, attempt: Id, node: Id, status: CheckStatus)
  datatype Node = Node(id: Id, required: set<Id>, status: NodeStatus)

  /** A run with everything startup looks at; `human` holds the checks that wait for a person. */
  datatype Run = Run(id: Id, status: RunStatus, attempts: seq<Attempt>, checks: seq<CheckRun>, nodes: seq<Node>,
                     human: set<Id>)

  datatype Fact =
    | AttemptStopped(run: Id, attempt: Id)
    | CheckStopped(run: Id, check: Id)
    | NodeStopped(run: Id, node: Id)
    | RunStopped(run: Id, active: bool)

  datatype Report = Report(paused: seq<Id>, attempts: seq<Id>, checks: seq<Id>, nodes: seq<Id>)

  const EMPTY_REPORT := Report([], [], [], [])

  function Merged(a: Report, b: Report): Report {
    Report(a.paused + b.paused, a.attempts + b.attempts, a.checks + b.checks, a.nodes + b.nodes)
  }

  /** What recorded facts say, as a report. */
  function Told(facts: seq<Fact>): Report {
    if facts == [] then EMPTY_REPORT else Merged(Told(facts[..|facts| - 1]), Saying(facts[|facts| - 1]))
  }

  function Saying(f: Fact): Report {
    match f
    case AttemptStopped(_, attempt) => EMPTY_REPORT.(attempts := [attempt])
    case CheckStopped(_, check) => EMPTY_REPORT.(checks := [check])
    case NodeStopped(_, node) => EMPTY_REPORT.(nodes := [node])
    case RunStopped(run, _) => EMPTY_REPORT.(paused := [run])
  }

  lemma ToldNext(facts: seq<Fact>, f: Fact)
    ensures Told(facts + [f]) == Merged(Told(facts), Saying(f))
  {
    assert (facts + [f])[..|facts|] == facts;
  }

  lemma MergedIsAssociative(a: Report, b: Report, c: Report)
    ensures Merged(Merged(a, b), c) == Merged(a, Merged(b, c)) && Merged(a, EMPTY_REPORT) == a
  {
  }

  lemma {:induction false} ToldBoth(a: seq<Fact>, b: seq<Fact>)
    ensures Told(a + b) == Merged(Told(a), Told(b))
    decreases |b|
  {
    if b == [] {
      MergedIsAssociative(Told(a), EMPTY_REPORT, EMPTY_REPORT);
      assert a + b == a;
    } else {
      var front, last := b[..|b| - 1], b[|b| - 1];
      ToldBoth(a, front);
      ToldSplits(a, front, last);
      assert b == front + [last];
    }
  }

  lemma ToldSplits(a: seq<Fact>, front: seq<Fact>, last: Fact)
    requires Told(a + front) == Merged(Told(a), Told(front))
    ensures Told(a + (front + [last])) == Merged(Told(a), Told(front + [last]))
  {
    assert a + (front + [last]) == (a + front) + [last];
    ToldNext(a + front, last);
    ToldNext(front, last);
    MergedIsAssociative(Told(a), Told(front), Saying(last));
  }

  /** The facts after the first ones say what the report says. */
  ghost predicate Recording(before: seq<Fact>, events: seq<Fact>, report: Report) {
    before <= events && Told(events[|before|..]) == report
  }

  lemma RecordingNext(before: seq<Fact>, events: seq<Fact>, report: Report, facts: seq<Fact>, part: Report)
    requires Recording(before, events, report) && Told(facts) == part
    ensures Recording(before, events + facts, Merged(report, part))
  {
    ToldBoth(events[|before|..], facts);
    assert (events + facts)[|before|..] == events[|before|..] + facts;
  }

  /** The facts of a run say what the report says; the last one pauses the run and tells whether
      work was interrupted. */
  ghost predicate RecordsRun(r: Run, facts: seq<Fact>, report: Report) {
    && Told(facts) == report && (forall f :: f in facts ==> f.run == r.id)
    && (report.paused != [] ==>
          facts != [] && facts[|facts| - 1] == RunStopped(r.id, report.attempts != [] || report.checks != []))
  }

  lemma PauseIsRecorded(r: Run, facts: seq<Fact>, report: Report)
    requires Told(facts) == report && report.paused == [] && forall f :: f in facts ==> f.run == r.id
    ensures RecordsRun(r, facts, report)
    ensures RecordsRun(r, facts + [RunStopped(r.id, report.attempts != [] || report.checks != [])],
                       report.(paused := [r.id]))
    ensures report == EMPTY_REPORT ==> facts == []
  {
    ToldNext(facts, RunStopped(r.id, report.attempts != [] || report.checks != []));
  }

  /** The facts are about the run, and say what the lists say. */
  ghost predicate Tells(r: Run, facts: seq<Fact>, attempts: seq<Id>, checks: seq<Id>, nodes: seq<Id>) {
    Told(facts) == Report([], attempts, checks, nodes) && forall f :: f in facts ==> f.run == r.id
  }

  lemma TellsNext(r: Run, facts: seq<Fact>, attempts: seq<Id>, checks: seq<Id>, nodes: seq<Id>, id: Id)
    requires Tells(r, facts, attempts, checks, nodes)
    ensures Tells(r, facts + [AttemptStopped(r.id, id)], attempts + [id], checks, nodes)
    ensures Tells(r, facts + [CheckStopped(r.id, id)], attempts, checks + [id], nodes)
    ensures Tells(r, facts + [NodeStopped(r.id, id)], attempts, checks, nodes + [id])
  {
    ToldNext(facts, AttemptStopped(r.id, id));
    ToldNext(facts, CheckStopped(r.id, id));
    ToldNext(facts, NodeStopped(r.id, id));
  }

  // ---- What is found

  predicate Interruptible(r: Run, k: CheckRun) {
    k.status.CheckRunning? && k.check !in r.human
  }

  /** A check of a verification that is finished, or that waits for a person. */
  predicate Settled(r: Run, k: CheckRun) {
    k.status.CheckCompleted? || (k.check in r.human && k.status.CheckRunning?)
  }

  function ChecksOf(r: Run, attempt: Id): set<Id> {
    set k | k in r.checks && k.attempt == attempt :: k.check
  }

  /** A succeeded attempt has all required checks, and each of them is settled. */
  predicate Verified(r: Run, n: Node) {
    exists a :: a in r.attempts && a.node == n.id && a.status.AttemptSucceeded?
                && ChecksOf(r, a.id) == n.required
                && forall k :: k in r.checks && k.attempt == a.id ==> Settled(r, k)
  }

  predicate Durable(r: Run, n: Node) {
    n.status.Verifying? && Verified(r, n)
  }

  predicate Busy(n: Node) {
    n.status.NodeRunning? || n.status.Candidate? || n.status.Verifying?
  }

  predicate Attempted(r: Run, id: Id) {
    exists a :: a in r.attempts && a.status.AttemptRunning? && a.node == id
  }

  predicate Checked(r: Run, id: Id) {
    exists k :: k in r.checks && Interruptible(r, k) && k.node == id
  }

  // ---- What recovery makes of a run

  /** A busy node fails with its attempt or check; a candidate or verifying one fails unless it is
      durably verified. */
  predicate Fails(r: Run, n: Node) {
    Busy(n) && (Attempted(r, n.id) || Checked(r, n.id) || (!n.status.NodeRunning? && !Durable(r, n)))
  }

  function StoppedAttempt(a: Attempt): Attempt {
    if a.status.AttemptRunning? then a.(status := AttemptInterrupted) else a
  }

  function StoppedCheck(r: Run, k: CheckRun): CheckRun {
    if Interruptible(r, k) then k.(status := CheckInterrupted) else k
  }

  function StoppedNode(r: Run, n: Node): Node {
    if Fails(r, n) then n.(status := NodeFailed) else n
  }

  /** Work was interrupted, or nothing durable or suspended is left to wait for. */
  predicate MustPause(r: Run) {
    || (exists a :: a in r.attempts && a.status.AttemptRunning?)
    || (exists k :: k in r.checks && Interruptible(r, k))
    || (exists n :: n in r.nodes && Fails(r, n))
    || forall n :: n in r.nodes ==> !Durable(r, n) && !n.status.Stalled? && !n.status.Suspended?
  }

  ghost predicate Recovered(r: Run, s: Run) {
    && s.id == r.id && s.human == r.human
    && |s.attempts| == |r.attempts|
       && (forall i :: 0 <= i < |r.attempts| ==> s.attempts[i] == StoppedAttempt(r.attempts[i]))
    && |s.checks| == |r.checks| && (forall i :: 0 <= i < |r.checks| ==> s.checks[i] == StoppedCheck(r, r.checks[i]))
    && |s.nodes| == |r.nodes| && (forall i :: 0 <= i < |r.nodes| ==> s.nodes[i] == StoppedNode(r, r.nodes[i]))
    && s.status == if MustPause(r) then RunPaused else RunRunning
  }

  /** A run that is not running stays as it is; a running one is recovered. */
  ghost predicate After(r: Run, s: Run) {
    if r.status.RunRunning? then Recovered(r, s) else s == r
  }

  /** The report names exactly what was changed, each once. */
  ghost predicate Reports(r: Run, report: Report) {
    && report.paused == (if MustPause(r) then [r.id] else [])
    && report.attempts == StoppedAttempts(r.attempts)
    && report.checks == StoppedChecks(r, r.checks)
    && (forall id :: id in report.nodes <==> exists n :: n in r.nodes && n.id == id && Fails(r, n))
    && Distinct(report.nodes)
  }

  function StoppedAttempts(attempts: seq<Attempt>): seq<Id> {
    if attempts == [] then []
    else
      var last := attempts[|attempts| - 1];
      StoppedAttempts(attempts[..|attempts| - 1]) + if last.status.AttemptRunning? then [last.id] else []
  }

  function StoppedChecks(r: Run, checks: seq<CheckRun>): seq<Id> {
    if checks == [] then []
    else
      var last := checks[|checks| - 1];
      StoppedChecks(r, checks[..|checks| - 1]) + if Interruptible(r, last) then [last.id] else []
  }

  ghost predicate NodeIdsDiffer(nodes: seq<Node>, i: int, j: int)
    requires 0 <= i < |nodes| && 0 <= j < |nodes|
  {
    nodes[i].id != nodes[j].id
  }

  ghost predicate UniqueNodes(r: Run) {
    forall i, j :: 0 <= i < j < |r.nodes| ==> NodeIdsDiffer(r.nodes, i, j)
  }

  // ---- The node table that recovery updates

  type Table = map<Id, Node>

  /** The table holds every node, failed exactly when it is in `failed`. */
  ghost predicate Updated(r: Run, table: Table, failed: seq<Id>) {
    && (forall n :: n in r.nodes ==> n.id in table && table[n.id] == if n.id in failed then n.(status := NodeFailed)
                                     else n)
    && (forall id :: id in table ==> exists n :: n in r.nodes && n.id == id)
    && (forall id :: id in failed ==> id in table) && Distinct(failed)
  }

  lemma NodeInTable(r: Run, table: Table, failed: seq<Id>, id: Id)
    requires Updated(r, table, failed) && id in table && Busy(table[id])
    ensures id !in failed && table[id] in r.nodes && table[id].id == id
  {
    var n :| n in r.nodes && n.id == id;
  }

  lemma SameNode(r: Run, n: Node, id: Id)
    requires UniqueNodes(r) && n in r.nodes
    ensures forall m :: m in r.nodes && m.id == n.id ==> m == n
  {
    forall m | m in r.nodes && m.id == n.id ensures m == n {
      var i :| 0 <= i < |r.nodes| && r.nodes[i] == m;
      var j :| 0 <= j < |r.nodes| && r.nodes[j] == n;
      assert i < j ==> NodeIdsDiffer(r.nodes, i, j);
      assert j < i ==> NodeIdsDiffer(r.nodes, j, i);
    }
  }

  ghost predicate BusyId(r: Run, id: Id) {
    exists n :: n in r.nodes && n.id == id && Busy(n)
  }

  /** The failed nodes are the busy ones among the marked. */
  ghost predicate FailedMarked(r: Run, failed: seq<Id>, marked: set<Id>) {
    forall x :: x in failed <==> x in marked && BusyId(r, x)
  }

  /** The nodes, all ready or failed, and the facts recorded so far. */
  datatype Progress = Progress(table: Table, failed: seq<Id>, facts: seq<Fact>)

  ghost predicate Going(r: Run, p: Progress, marked: set<Id>) {
    Updated(r, p.table, p.failed) && FailedMarked(r, p.failed, marked)
  }

  /** Fails a busy node of the table and records it. */
  method Fail(r: Run, p: Progress, id: Id, ghost marked: set<Id>) returns (q: Progress)
    requires UniqueNodes(r) && Going(r, p, marked) && id in p.table && Busy(p.table[id])
    ensures Going(r, q, marked + {id}) && p.failed < q.failed
    ensures forall attempts, checks :: Tells(r, p.facts, attempts, checks, p.failed) ==>
              Tells(r, q.facts, attempts, checks, q.failed)
  {
    q := Progress(p.table[id := p.table[id].(status := NodeFailed)], p.failed + [id],
                  p.facts + [NodeStopped(r.id, id)]);
    FailedIsGoing(r, p, id, marked);
    forall attempts, checks | Tells(r, p.facts, attempts, checks, p.failed)
      ensures Tells(r, q.facts, attempts, checks, q.failed)
    {
      TellsNext(r, p.facts, attempts, checks, p.failed, id);
    }
  }

  /** Fails the node of interrupted work if it is busy. */
  method Mark(r: Run, p: Progress, id: Id, ghost marked: set<Id>) returns (q: Progress)
    requires UniqueNodes(r) && Going(r, p, marked)
    ensures Going(r, q, marked + {id})
    ensures forall attempts, checks :: Tells(r, p.facts, attempts, checks, p.failed) ==>
              Tells(r, q.facts, attempts, checks, q.failed)
  {
    if id in p.table && Busy(p.table[id]) {
      q := Fail(r, p, id, marked);
    } else {
      q := p;
      forall n | n in r.nodes && n.id == id && Busy(n) ensures id in p.failed {
        assert p.table[n.id] == if n.id in p.failed then n.(status := NodeFailed) else n;
      }
    }
  }

  function AttemptNodes(attempts: seq<Attempt>): set<Id> {
    set a | a in attempts && a.status.AttemptRunning? :: a.node
  }

  function CheckNodes(r: Run, checks: seq<CheckRun>): set<Id> {
    set k | k in checks && Interruptible(r, k) :: k.node
  }

  ghost predicate AllStopped(attempts: seq<Attempt>, stopped: seq<Attempt>) {
    |stopped| == |attempts| && forall i :: 0 <= i < |attempts| ==> stopped[i] == StoppedAttempt(attempts[i])
  }

  ghost predicate ChecksStopped(r: Run, checks: seq<CheckRun>, stopped: seq<CheckRun>) {
    |stopped| == |checks| && forall i :: 0 <= i < |checks| ==> stopped[i] == StoppedCheck(r, checks[i])
  }

  lemma AttemptNext(attempts: seq<Attempt>, i: nat, stopped: seq<Attempt>)
    requires i < |attempts| && AllStopped(attempts[..i], stopped)
    ensures AllStopped(attempts[..i + 1], stopped + [StoppedAttempt(attempts[i])])
    ensures StoppedAttempts(attempts[..i + 1]) ==
            StoppedAttempts(attempts[..i]) + if attempts[i].status.AttemptRunning? then [attempts[i].id] else []
    ensures AttemptNodes(attempts[..i + 1]) ==
            AttemptNodes(attempts[..i]) + if attempts[i].status.AttemptRunning? then {attempts[i].node} else {}
  {
    assert attempts[..i + 1] == attempts[..i] + [attempts[i]] && attempts[..i + 1][..i] == attempts[..i];
  }

  lemma CheckNext(r: Run, checks: seq<CheckRun>, i: nat, stopped: seq<CheckRun>)
    requires i < |checks| && ChecksStopped(r, checks[..i], stopped)
    ensures ChecksStopped(r, checks[..i + 1], stopped + [StoppedCheck(r, checks[i])])
    ensures StoppedChecks(r, checks[..i + 1]) == StoppedChecks(r, checks[..i]) + if Interruptible(r, checks[i])
            then [checks[i].id] else []
    ensures CheckNodes(r, checks[..i + 1]) == CheckNodes(r, checks[..i]) + if Interruptible(r, checks[i])
            then {checks[i].node} else {}
  {
    assert checks[..i + 1] == checks[..i] + [checks[i]] && checks[..i + 1][..i] == checks[..i];
  }

  method StopAttempts(r: Run, p: Progress) returns (stopped: seq<Attempt>, ids: seq<Id>, q: Progress)
    requires UniqueNodes(r) && Going(r, p, {}) && Tells(r, p.facts, [], [], p.failed)
    ensures AllStopped(r.attempts, stopped) && ids == StoppedAttempts(r.attempts)
    ensures Going(r, q, AttemptNodes(r.attempts)) && Tells(r, q.facts, ids, [], q.failed)
  {
    stopped, ids, q := [], [], p;
    assert AttemptNodes([]) == {};
    for i := 0 to |r.attempts|
      invariant AllStopped(r.attempts[..i], stopped) && ids == StoppedAttempts(r.attempts[..i])
      invariant Going(r, q, AttemptNodes(r.attempts[..i])) && Tells(r, q.facts, ids, [], q.failed)
    {
      var a := r.attempts[i];
      AttemptNext(r.attempts, i, stopped);
      stopped := stopped + [StoppedAttempt(a)];
      if a.status.AttemptRunning? {
        TellsNext(r, q.facts, ids, [], q.failed, a.id);
        ids := ids + [a.id];
        q := Mark(r, q.(facts := q.facts + [AttemptStopped(r.id, a.id)]), a.node, AttemptNodes(r.attempts[..i]));
      }
    }
    assert r.attempts[..|r.attempts|] == r.attempts;
  }

  method StopChecks(r: Run, p: Progress, ghost marked: set<Id>, ghost attempts: seq<Id>)
    returns (stopped: seq<CheckRun>, ids: seq<Id>, q: Progress)
    requires UniqueNodes(r) && Going(r, p, marked) && Tells(r, p.facts, attempts, [], p.failed)
    ensures ChecksStopped(r, r.checks, stopped) && ids == StoppedChecks(r, r.checks)
    ensures Going(r, q, marked + CheckNodes(r, r.checks)) && Tells(r, q.facts, attempts, ids, q.failed)
  {
    stopped, ids, q := [], [], p;
    assert marked + CheckNodes(r, []) == marked;
    for i := 0 to |r.checks|
      invariant ChecksStopped(r, r.checks[..i], stopped) && ids == StoppedChecks(r, r.checks[..i])
      invariant Going(r, q, marked + CheckNodes(r, r.checks[..i])) && Tells(r, q.facts, attempts, ids, q.failed)
    {
      var k := r.checks[i];
      CheckNext(r, r.checks, i, stopped);
      stopped := stopped + [StoppedCheck(r, k)];
      if Interruptible(r, k) {
        TellsNext(r, q.facts, attempts, ids, q.failed, k.id);
        ids := ids + [k.id];
        q := Mark(r, q.(facts := q.facts + [CheckStopped(r.id, k.id)]), k.node, marked + CheckNodes(r, r.checks[..i]));
        assert marked + CheckNodes(r, r.checks[..i + 1]) == marked + CheckNodes(r, r.checks[..i]) + {k.node};
      }
    }
    assert r.checks[..|r.checks|] == r.checks;
  }

  predicate Undone(r: Run, n: Node) {
    (n.status.Candidate? || n.status.Verifying?) && !Durable(r, n)
  }

  ghost function UndoneNodes(r: Run, nodes: seq<Node>): set<Id> {
    set n | n in nodes && Undone(r, n) :: n.id
  }

  /** Fails what is left in verification without a durable result and was not failed already. */
  method StopVerifications(r: Run, p: Progress, active: set<Id>, ghost attempts: seq<Id>, ghost checks: seq<Id>)
    returns (q: Progress)
    requires UniqueNodes(r) && Going(r, p, active) && Tells(r, p.facts, attempts, checks, p.failed)
    ensures Going(r, q, active + UndoneNodes(r, r.nodes)) && Tells(r, q.facts, attempts, checks, q.failed)
  {
    q := p;
    assert active + UndoneNodes(r, []) == active;
    for i := 0 to |r.nodes|
      invariant Going(r, q, active + UndoneNodes(r, r.nodes[..i])) && Tells(r, q.facts, attempts, checks, q.failed)
    {
      var n := r.nodes[i];
      var front := r.nodes[..i];
      assert r.nodes[..i + 1] == front + [n];
      var now := q.table[n.id];
      if (now.status.Candidate? || now.status.Verifying?) && !Durable(r, n) && n.id !in active {
        assert Undone(r, n);
        q := Fail(r, q, n.id, active + UndoneNodes(r, front));
        assert active + UndoneNodes(r, front + [n]) == active + UndoneNodes(r, front) + {n.id};
      } else {
        SkippedStays(r, q, active, front, n);
      }
    }
    assert r.nodes[..|r.nodes|] == r.nodes;
  }

  lemma FailedIsGoing(r: Run, p: Progress, id: Id, marked: set<Id>)
    requires UniqueNodes(r) && Going(r, p, marked) && id in p.table && Busy(p.table[id])
    ensures Going(r, Progress(p.table[id := p.table[id].(status := NodeFailed)], p.failed + [id],
                              p.facts + [NodeStopped(r.id, id)]), marked + {id})
  {
    NodeInTable(r, p.table, p.failed, id);
    DistinctAppend(p.failed, id);
    var now, list := p.table[id := p.table[id].(status := NodeFailed)], p.failed + [id];
    forall n | n in r.nodes ensures n.id in now && now[n.id] == if n.id in list then n.(status := NodeFailed) else n {
      SameNode(r, n, id);
    }
  }

  /** A node that is skipped is active, already failed, or not in need of failing. */
  lemma SkippedStays(r: Run, q: Progress, active: set<Id>, front: seq<Node>, n: Node)
    requires UniqueNodes(r) && Going(r, q, active + UndoneNodes(r, front)) && n in r.nodes
    requires !((q.table[n.id].status.Candidate? || q.table[n.id].status.Verifying?) && !Durable(r, n)
               && n.id !in active)
    ensures Going(r, q, active + UndoneNodes(r, front + [n]))
  {
    var before, after := active + UndoneNodes(r, front), active + UndoneNodes(r, front + [n]);
    assert after == before + if Undone(r, n) then {n.id} else {};
    if Undone(r, n) && n.id !in active {
      assert q.table[n.id] == if n.id in q.failed then n.(status := NodeFailed) else n;
      assert n.id in q.failed;
    }
  }

  // ---- One run

  /** The marked and busy nodes are those that recovery fails. */
  lemma MarkedIsFails(r: Run, failed: seq<Id>)
    requires UniqueNodes(r)
             && FailedMarked(r, failed, AttemptNodes(r.attempts) + CheckNodes(r, r.checks) + UndoneNodes(r, r.nodes))
    ensures forall n :: n in r.nodes ==> (n.id in failed <==> Fails(r, n))
    ensures forall id :: id in failed <==> exists n :: n in r.nodes && n.id == id && Fails(r, n)
  {
    forall n | n in r.nodes ensures n.id in failed <==> Fails(r, n) {
      SameNode(r, n, n.id);
      assert n.id in AttemptNodes(r.attempts) <==> Attempted(r, n.id);
      assert n.id in CheckNodes(r, r.checks) <==> Checked(r, n.id);
      assert n.id in UndoneNodes(r, r.nodes) <==> Undone(r, n);
    }
    forall id | id in failed ensures exists n :: n in r.nodes && n.id == id && Fails(r, n) {
      assert BusyId(r, id);
      var n :| n in r.nodes && n.id == id && Busy(n);
      assert Fails(r, n);
    }
  }

  ghost predicate NodesStopped(r: Run, nodes: seq<Node>) {
    |nodes| == |r.nodes| && forall i :: 0 <= i < |r.nodes| ==> nodes[i] == StoppedNode(r, r.nodes[i])
  }

  lemma InitialTable(r: Run, table: Table)
    requires UniqueNodes(r)
    requires forall id :: id in table <==> exists n :: n in r.nodes && n.id == id
    requires forall id :: id in table ==> table[id] in r.nodes && table[id].id == id
    ensures Updated(r, table, []) && FailedMarked(r, [], {})
  {
    forall n | n in r.nodes ensures n.id in table && table[n.id] == n {
      SameNode(r, n, n.id);
    }
  }

  method NodeTable(r: Run) returns (table: Table)
    requires UniqueNodes(r)
    ensures Updated(r, table, []) && FailedMarked(r, [], {})
  {
    table := map[];
    for i := 0 to |r.nodes|
      invariant forall id :: id in table <==> exists j :: 0 <= j < i && r.nodes[j].id == id
      invariant forall id :: id in table ==> table[id] in r.nodes && table[id].id == id
    {
      table := table[r.nodes[i].id := r.nodes[i]];
    }
    forall id ensures id in table <==> exists n :: n in r.nodes && n.id == id {
      if n :| n in r.nodes && n.id == id {
        var j :| 0 <= j < |r.nodes| && r.nodes[j] == n;
        assert r.nodes[j].id == id;
      }
    }
    InitialTable(r, table);
  }

  method StopNodes(r: Run)
    returns (attempts: seq<Attempt>, checks: seq<CheckRun>, nodes: seq<Node>, report: Report, facts: seq<Fact>)
    requires UniqueNodes(r)
    ensures AllStopped(r.attempts, attempts) && ChecksStopped(r, r.checks, checks) && NodesStopped(r, nodes)
    ensures report.paused == [] && report.attempts == StoppedAttempts(r.attempts)
            && report.checks == StoppedChecks(r, r.checks)
    ensures Distinct(report.nodes) && forall id :: id in report.nodes <==> exists n ::
              n in r.nodes && n.id == id && Fails(r, n)
    ensures Told(facts) == report && forall f :: f in facts ==> f.run == r.id
  {
    var table := NodeTable(r);
    var p := Progress(table, [], []);
    var attemptIds, checkIds;
    attempts, attemptIds, p := StopAttempts(r, p);
    checks, checkIds, p := StopChecks(r, p, AttemptNodes(r.attempts), attemptIds);
    p := StopVerifications(r, p, AttemptNodes(r.attempts) + CheckNodes(r, r.checks), attemptIds, checkIds);
    MarkedIsFails(r, p.failed);
    nodes := Listed(r, p.table, p.failed);
    report, facts := Report([], attemptIds, checkIds, p.failed), p.facts;
  }

  /** The nodes of the table in plan order. */
  method Listed(r: Run, table: Table, ghost failed: seq<Id>) returns (nodes: seq<Node>)
    requires Updated(r, table, failed) && forall n :: n in r.nodes ==> (n.id in failed <==> Fails(r, n))
    ensures NodesStopped(r, nodes)
  {
    nodes := [];
    for i := 0 to |r.nodes|
      invariant |nodes| == i && forall j :: 0 <= j < i ==> nodes[j] == StoppedNode(r, r.nodes[j])
    {
      var n := r.nodes[i];
      assert n in r.nodes;
      nodes := nodes + [table[n.id]];
    }
  }

  predicate WaitsFor(n: Node, r: Run) {
    Durable(r, n) || n.status.Stalled? || n.status.Suspended?
  }

  lemma {:induction false} NoStoppedAttempt(attempts: seq<Attempt>)
    ensures StoppedAttempts(attempts) == [] <==> forall a :: a in attempts ==> !a.status.AttemptRunning?
  {
    if attempts != [] {
      assert attempts == attempts[..|attempts| - 1] + [attempts[|attempts| - 1]];
      NoStoppedAttempt(attempts[..|attempts| - 1]);
    }
  }

  lemma {:induction false} NoStoppedCheck(r: Run, checks: seq<CheckRun>)
    ensures StoppedChecks(r, checks) == [] <==> forall k :: k in checks ==> !Interruptible(r, k)
    decreases |checks|
  {
    if checks != [] {
      assert checks == checks[..|checks| - 1] + [checks[|checks| - 1]];
      NoStoppedCheck(r, checks[..|checks| - 1]);
    }
  }

  lemma PauseDecision(r: Run, nodes: seq<Id>)
    requires forall id :: id in nodes <==> exists n :: n in r.nodes && n.id == id && Fails(r, n)
    ensures MustPause(r) <==> !((exists n :: n in r.nodes && WaitsFor(n, r)) && StoppedAttempts(r.attempts) == []
                                && StoppedChecks(r, r.checks) == [] && nodes == [])
  {
    NoStoppedAttempt(r.attempts);
    NoStoppedCheck(r, r.checks);
    if nodes != [] {
      assert nodes[0] in nodes;
    }
    if exists n :: n in r.nodes && Fails(r, n) {
      var n :| n in r.nodes && Fails(r, n);
      assert n.id in nodes;
    }
  }

  /** Recovers one running run. */
  method RecoverRun(r: Run) returns (s: Run, report: Report, facts: seq<Fact>)
    requires r.status.RunRunning? && UniqueNodes(r)
    ensures Recovered(r, s) && Reports(r, report)
    ensures RecordsRun(r, facts, report)
    ensures !MustPause(r) ==> report == EMPTY_REPORT && facts == []
  {
    var attempts, checks, nodes;
    attempts, checks, nodes, report, facts := StopNodes(r);
    PauseDecision(r, report.nodes);
    PauseIsRecorded(r, facts, report);
    if (exists n :: n in r.nodes && WaitsFor(n, r)) && report.attempts == [] && report.checks == []
      && report.nodes == [] {
      s := Run(r.id, RunRunning, attempts, checks, nodes, r.human);
    } else {
      s := Run(r.id, RunPaused, attempts, checks, nodes, r.human);
      facts := facts + [RunStopped(r.id, report.attempts != [] || report.checks != [])];
      report := report.(paused := [r.id]);
    }
  }

  // ---- All runs

  ghost predicate NodesReported(runs: seq<Run>, ids: seq<Id>) {
    forall id :: id in ids <==> exists r, n :: r in runs && r.status.RunRunning? && n in r.nodes && n.id == id
                                               && Fails(r, n)
  }

  lemma NodesReportedNext(runs: seq<Run>, r: Run, ids: seq<Id>, more: seq<Id>)
    requires NodesReported(runs, ids)
    requires if r.status.RunRunning? then forall id :: id in more <==> exists n ::
               n in r.nodes && n.id == id && Fails(r, n)
             else more == []
    ensures NodesReported(runs + [r], ids + more)
  {
  }

  /** No running run has to be paused. */
  ghost predicate Quiet(runs: seq<Run>) {
    forall r :: r in runs ==> !(r.status.RunRunning? && MustPause(r))
  }

  /** What the report lists for the running runs, in order. */
  function ReportOf(runs: seq<Run>): (seq<Id>, seq<Id>, seq<Id>) {
    if runs == [] then ([], [], [])
    else
      var last, before := runs[|runs| - 1], ReportOf(runs[..|runs| - 1]);
      if !last.status.RunRunning? then before
      else (before.0 + (if MustPause(last) then [last.id] else []), before.1 + StoppedAttempts(last.attempts),
            before.2 + StoppedChecks(last, last.checks))
  }

  /** The first `i` runs are recovered and reported, the others are as before. */
  ghost predicate Upto(before: seq<Run>, i: int, runs: seq<Run>, report: Report)
    requires 0 <= i <= |before|
  {
    && |runs| == |before| && (forall j :: 0 <= j < i ==> After(before[j], runs[j]))
    && (forall j :: i <= j < |before| ==> runs[j] == before[j])
    && (report.paused, report.attempts, report.checks) == ReportOf(before[..i])
    && NodesReported(before[..i], report.nodes)
  }

  lemma UptoNext(before: seq<Run>, i: int, runs: seq<Run>, report: Report, s: Run, part: Report)
    requires 0 <= i < |before| && Upto(before, i, runs, report) && After(before[i], s)
    requires if before[i].status.RunRunning? then Reports(before[i], part) else part == EMPTY_REPORT
    ensures Upto(before, i + 1, runs[i := s], Merged(report, part))
  {
    assert before[..i + 1] == before[..i] + [before[i]] && before[..i + 1][..i] == before[..i];
    NodesReportedNext(before[..i], before[i], report.nodes, part.nodes);
    if !before[i].status.RunRunning? {
      assert Merged(report, part) == report;
    }
  }

  class RecoveryService {
    var runs: seq<Run>
    var events: seq<Fact>

    constructor (runs: seq<Run>)
      ensures this.runs == runs && events == []
    {
      this.runs, this.events := runs, [];
    }

    /** Recovers every running run in order; the others stay as they are. */
    method RecoverStartup() returns (report: Report)
      requires forall r :: r in runs ==> UniqueNodes(r)
      modifies this
      ensures |runs| == |old(runs)| && forall i :: 0 <= i < |runs| ==> After(old(runs[i]), runs[i])
      ensures (report.paused, report.attempts, report.checks) == ReportOf(old(runs))
      ensures NodesReported(old(runs), report.nodes)
      ensures Recording(old(events), events, report)
      ensures Quiet(old(runs)) ==> report == EMPTY_REPORT && events == old(events)
    {
      report := EMPTY_REPORT;
      ghost var before := runs;
      for i := 0 to |runs|
        invariant |runs| == |before| && Upto(before, i, runs, report)
        invariant Recording(old(events), events, report)
        invariant Quiet(before) ==> report == EMPTY_REPORT && events == old(events)
      {
        if runs[i].status.RunRunning? {
          assert runs[i] in before;
          var s, part, facts := RecoverRun(runs[i]);
          UptoNext(before, i, runs, report, s, part);
          RecordingNext(old(events), events, report, facts, part);
          runs, events, report := runs[i := s], events + facts, Merged(report, part);
        } else {
          UptoNext(before, i, runs, report, runs[i], EMPTY_REPORT);
          assert runs[i := runs[i]] == runs && Merged(report, EMPTY_REPORT) == report;
        }
      }
      assert before[..|before|] == before;
    }
  }

  // ---- What recovery guarantees

  lemma StoppedKeepsVerified(r: Run, s: Run, n: Node)
    requires Recovered(r, s) && Verified(r, n)
    ensures Verified(s, n)
  {
    var a :| a in r.attempts && a.node == n.id && a.status.AttemptSucceeded? && ChecksOf(r, a.id) == n.required
             && forall k :: k in r.checks && k.attempt == a.id ==> Settled(r, k);
    var i :| 0 <= i < |r.attempts| && r.attempts[i] == a;
    assert s.attempts[i] == a && a in s.attempts;
    SameChecks(r, s, a.id);
    forall k | k in s.checks && k.attempt == a.id ensures Settled(s, k) {
      var j :| 0 <= j < |s.checks| && s.checks[j] == k;
      assert r.checks[j] in r.checks && Settled(r, r.checks[j]);
    }
  }

  lemma SameChecks(r: Run, s: Run, attempt: Id)
    requires Recovered(r, s)
    ensures ChecksOf(s, attempt) == ChecksOf(r, attempt)
  {
    forall c ensures c in ChecksOf(s, attempt) <==> c in ChecksOf(r, attempt) {
      if k :| k in s.checks && k.attempt == attempt && k.check == c {
        var j :| 0 <= j < |s.checks| && s.checks[j] == k;
        assert r.checks[j] in r.checks && r.checks[j].check == c;
      }
      if k :| k in r.checks && k.attempt == attempt && k.check == c {
        var j :| 0 <= j < |r.checks| && r.checks[j] == k;
        assert s.checks[j] in s.checks && s.checks[j].check == c;
      }
    }
  }

  /** No running attempt or interruptible check is left, and what is still in verification is durable. */
  lemma NothingRuns(r: Run, s: Run)
    requires Recovered(r, s)
    ensures forall a :: a in s.attempts ==> !a.status.AttemptRunning?
    ensures forall k :: k in s.checks ==> !Interruptible(s, k)
    ensures forall n :: n in s.nodes && (n.status.Candidate? || n.status.Verifying?) ==> Durable(s, n)
  {
    forall n | n in s.nodes && (n.status.Candidate? || n.status.Verifying?) ensures Durable(s, n) {
      var i :| 0 <= i < |s.nodes| && s.nodes[i] == n;
      assert !Fails(r, r.nodes[i]) && r.nodes[i] == n;
      StoppedKeepsVerified(r, s, n);
    }
  }

  /** A run is paused as soon as anything of it changes, and otherwise only when nothing is left to wait for. */
  lemma UnpausedIsUntouched(r: Run, s: Run)
    requires r.status.RunRunning? && Recovered(r, s) && !s.status.RunPaused?
    ensures s == r && !MustPause(s)
  {
    forall i | 0 <= i < |r.attempts| ensures s.attempts[i] == r.attempts[i] {
      assert r.attempts[i] in r.attempts;
    }
    forall i | 0 <= i < |r.checks| ensures s.checks[i] == r.checks[i] {
      assert r.checks[i] in r.checks;
    }
    forall i | 0 <= i < |r.nodes| ensures s.nodes[i] == r.nodes[i] {
      assert r.nodes[i] in r.nodes;
    }
    assert s.attempts == r.attempts && s.checks == r.checks && s.nodes == r.nodes;
  }

  /** A second recovery finds nothing to do: it changes no run, writes no event and reports nothing. */
  method RecoverTwice(runs: seq<Run>) returns (service: RecoveryService, first: Report, second: Report)
    requires forall r :: r in runs ==> UniqueNodes(r)
    ensures second == EMPTY_REPORT && Told(service.events) == first
    ensures fresh(service) && |service.runs| == |runs| && forall i :: 0 <= i < |runs| ==>
              After(runs[i], service.runs[i])
  {
    service := new RecoveryService(runs);
    first := service.RecoverStartup();
    ghost var after := service.runs;
    assert service.events[0..] == service.events;
    forall r | r in after ensures UniqueNodes(r) && !(r.status.RunRunning? && MustPause(r)) {
      var i :| 0 <= i < |after| && after[i] == r;
      assert runs[i] in runs;
      NothingLeft(runs[i], r);
    }
    second := service.RecoverStartup();
    forall i | 0 <= i < |runs| ensures service.runs[i] == after[i] {
      assert after[i] in after;
      AfterIsStable(after[i], service.runs[i]);
    }
  }

  lemma NothingLeft(r: Run, s: Run)
    requires UniqueNodes(r) && After(r, s)
    ensures UniqueNodes(s) && !(s.status.RunRunning? && MustPause(s))
  {
    if r.status.RunRunning? {
      forall i, j | 0 <= i < j < |s.nodes| ensures NodeIdsDiffer(s.nodes, i, j) {
        assert NodeIdsDiffer(r.nodes, i, j);
      }
      if !s.status.RunPaused? {
        UnpausedIsUntouched(r, s);
      }
    }
  }

  lemma AfterIsStable(r: Run, s: Run)
    requires After(r, s) && !(r.status.RunRunning? && MustPause(r))
    ensures s == r
  {
    if r.status.RunRunning? {
      UnpausedIsUntouched(r, s);
    }
  }

  /** Recovery of a recovered run is the identity. */
  lemma RecoveryIsIdempotent(r: Run, s: Run, t: Run)
    requires UniqueNodes(r) && After(r, s) && After(s, t)
    ensures t == s
  {
    NothingLeft(r, s);
    AfterIsStable(s, t);
  }
}

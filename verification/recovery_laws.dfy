/** What startup recovery does to a run, told by the statuses of its attempts, checks and nodes before and
    after. */
module RecoveryLaws {
  import opened Values
  import opened Graphs
  import opened StartupRecovery

  // ---- What is found

  /** The check runs, and no person answers it. */
  ghost predicate Abandoned(r: Run, k: CheckRun) {
    k.status == CheckRunning && k.check !in r.human
  }

  /** An attempt at the node succeeded; its checks are exactly the required ones, and each is completed or waits
      for a person. */
  ghost predicate ProvenBy(r: Run, n: Node, a: Attempt) {
    && a in r.attempts && a.node == n.id && a.status == AttemptSucceeded
    && (forall c :: c in n.required <==> exists k :: CheckOf(r, a, k) && k.check == c)
    && forall k :: CheckOf(r, a, k) ==>
         k.status == CheckCompleted || (k.status == CheckRunning && k.check in r.human)
  }

  ghost predicate CheckOf(r: Run, a: Attempt, k: CheckRun) {
    k in r.checks && k.attempt == a.id
  }

  ghost predicate Proven(r: Run, n: Node) {
    n.status == Verifying && exists a :: ProvenBy(r, n, a)
  }

  /** Work on the node was cut off: an attempt or an abandoned check of it was running. */
  ghost predicate CutOff(r: Run, n: Node) {
    || (exists a :: a in r.attempts && a.node == n.id && a.status == AttemptRunning)
    || exists k :: k in r.checks && k.node == n.id && Abandoned(r, k)
  }

  /** The node cannot go on: it was at work and was cut off, or its result was never proven. */
  ghost predicate Lost(r: Run, n: Node) {
    match n.status
    case NodeRunning => CutOff(r, n)
    case Candidate => true
    case Verifying => CutOff(r, n) || !Proven(r, n)
    case _ => false
  }

  /** There is something to wait for: a proven result, or a node that waits by itself. */
  ghost predicate Waiting(r: Run) {
    exists n :: n in r.nodes && (Proven(r, n) || n.status == Stalled || n.status == Suspended)
  }

  // ---- What is left

  ghost predicate AttemptLeft(a: Attempt, b: Attempt) {
    b == if a.status == AttemptRunning then Attempt(a.id, a.node, AttemptInterrupted) else a
  }

  ghost predicate CheckLeft(r: Run, a: CheckRun, b: CheckRun) {
    b == if Abandoned(r, a) then CheckRun(a.id, a.check, a.attempt, a.node, CheckInterrupted) else a
  }

  ghost predicate NodeLeft(r: Run, a: Node, b: Node) {
    b == if Lost(r, a) then Node(a.id, a.required, NodeFailed) else a
  }

  ghost predicate Unchanged(r: Run, s: Run) {
    s.attempts == r.attempts && s.checks == r.checks && s.nodes == r.nodes
  }

  /** Every attempt, check and node is left as it must be, and the run is paused exactly when something changed or
      nothing is left to wait for. */
  ghost predicate Restarted(r: Run, s: Run) {
    && s.id == r.id && s.human == r.human
    && |s.attempts| == |r.attempts| && |s.checks| == |r.checks| && |s.nodes| == |r.nodes|
    && (forall i :: 0 <= i < |r.attempts| ==> AttemptLeft(r.attempts[i], s.attempts[i]))
    && (forall i :: 0 <= i < |r.checks| ==> CheckLeft(r, r.checks[i], s.checks[i]))
    && (forall i :: 0 <= i < |r.nodes| ==> NodeLeft(r, r.nodes[i], s.nodes[i]))
    && s.status == if Unchanged(r, s) && Waiting(r) then RunRunning else RunPaused
  }

  lemma ProvenIs(r: Run, n: Node)
    ensures Proven(r, n) <==> Durable(r, n)
  {
    forall a | a in r.attempts && a.node == n.id && a.status.AttemptSucceeded?
      ensures ProvenBy(r, n, a) <==> ChecksOf(r, a.id) == n.required
                                     && forall k :: k in r.checks && k.attempt == a.id ==> Settled(r, k)
    {
      ProvenByIs(r, n, a);
    }
  }

  lemma ProvenByIs(r: Run, n: Node, a: Attempt)
    requires a in r.attempts && a.node == n.id && a.status.AttemptSucceeded?
    ensures ProvenBy(r, n, a) <==> ChecksOf(r, a.id) == n.required
                                   && forall k :: k in r.checks && k.attempt == a.id ==> Settled(r, k)
  {
    forall c ensures c in ChecksOf(r, a.id) <==> exists k :: CheckOf(r, a, k) && k.check == c {
      if k :| k in r.checks && k.attempt == a.id && k.check == c {
        assert CheckOf(r, a, k);
      }
    }
    forall k ensures CheckOf(r, a, k) <==> k in r.checks && k.attempt == a.id {
    }
  }

  lemma LostIs(r: Run, n: Node)
    ensures Lost(r, n) <==> Fails(r, n)
  {
    ProvenIs(r, n);
    forall k ensures Abandoned(r, k) <==> Interruptible(r, k) {
    }
  }

  lemma LeftIs(r: Run)
    ensures forall a, b :: AttemptLeft(a, b) <==> b == StoppedAttempt(a)
    ensures forall a, b :: CheckLeft(r, a, b) <==> b == StoppedCheck(r, a)
    ensures forall a, b :: NodeLeft(r, a, b) <==> b == StoppedNode(r, a)
  {
    forall a, b: Node ensures NodeLeft(r, a, b) <==> b == StoppedNode(r, a) {
      LostIs(r, a);
    }
  }

  lemma WaitingIs(r: Run)
    ensures Waiting(r) <==> !(forall n :: n in r.nodes ==> !Durable(r, n) && !n.status.Stalled? && !n.status.Suspended?)
  {
    forall n ensures Proven(r, n) <==> Durable(r, n) {
      ProvenIs(r, n);
    }
  }

  /** Something changes exactly when something was running or lost. */
  lemma UnchangedIs(r: Run, s: Run)
    requires |s.attempts| == |r.attempts| && forall i :: 0 <= i < |r.attempts| ==>
               s.attempts[i] == StoppedAttempt(r.attempts[i])
    requires |s.checks| == |r.checks| && forall i :: 0 <= i < |r.checks| ==> s.checks[i] == StoppedCheck(r, r.checks[i])
    requires |s.nodes| == |r.nodes| && forall i :: 0 <= i < |r.nodes| ==> s.nodes[i] == StoppedNode(r, r.nodes[i])
    ensures Unchanged(r, s) <==>
            !((exists a :: a in r.attempts && a.status.AttemptRunning?)
              || (exists k :: k in r.checks && Interruptible(r, k)) || exists n :: n in r.nodes && Fails(r, n))
  {
    if a :| a in r.attempts && a.status.AttemptRunning? {
      var i :| 0 <= i < |r.attempts| && r.attempts[i] == a;
      assert s.attempts[i] != a;
    }
    if k :| k in r.checks && Interruptible(r, k) {
      var i :| 0 <= i < |r.checks| && r.checks[i] == k;
      assert s.checks[i] != k;
    }
    if n :| n in r.nodes && Fails(r, n) {
      var i :| 0 <= i < |r.nodes| && r.nodes[i] == n;
      assert s.nodes[i] != n;
    }
    if Unchanged(r, s) {
    } else if s.attempts != r.attempts {
      var i :| 0 <= i < |r.attempts| && s.attempts[i] != r.attempts[i];
      assert r.attempts[i] in r.attempts;
    } else if s.checks != r.checks {
      var i :| 0 <= i < |r.checks| && s.checks[i] != r.checks[i];
      assert r.checks[i] in r.checks;
    } else {
      var i :| 0 <= i < |r.nodes| && s.nodes[i] != r.nodes[i];
      assert r.nodes[i] in r.nodes;
    }
  }

  /** Recovery restarts the run: it leaves exactly what the statuses before demand. */
  lemma RecoveredIsRestarted(r: Run, s: Run)
    ensures Recovered(r, s) <==> Restarted(r, s)
  {
    LeftIs(r);
    WaitingIs(r);
    if Recovered(r, s) || Restarted(r, s) {
      UnchangedIs(r, s);
    }
  }

  // ---- After recovery

  /** Nothing that recovery must end is left: no attempt runs, no check runs without a person, and a result is
      in verification only if it is proven. */
  lemma NothingIsLeftRunning(r: Run, s: Run)
    requires Recovered(r, s)
    ensures forall a :: a in s.attempts ==> a.status != AttemptRunning
    ensures forall k :: k in s.checks && k.status == CheckRunning ==> k.check in s.human
    ensures forall n :: n in s.nodes ==> n.status != Candidate && (n.status == Verifying ==> Proven(s, n))
  {
    NothingRuns(r, s);
    forall k | k in s.checks && k.status == CheckRunning ensures k.check in s.human {
      assert !Interruptible(s, k);
    }
    forall n | n in s.nodes ensures n.status != Candidate && (n.status == Verifying ==> Proven(s, n)) {
      ProvenIs(s, n);
    }
  }

  // ---- The report

  /** The ids of the marked entries, in their order. */
  ghost predicate Picks(ids: seq<Id>, all: seq<Id>, marked: seq<bool>, places: seq<int>)
    requires |marked| == |all|
  {
    && |places| == |ids|
    && (forall i :: 0 <= i < |ids| ==> 0 <= places[i] < |all| && marked[places[i]] && ids[i] == all[places[i]])
    && (forall i, j :: 0 <= i < j < |ids| ==> places[i] < places[j])
    && forall k :: 0 <= k < |all| && marked[k] ==> k in places
  }

  function AttemptIds(attempts: seq<Attempt>): seq<Id> {
    seq(|attempts|, i requires 0 <= i < |attempts| => attempts[i].id)
  }

  function AttemptMarks(attempts: seq<Attempt>): seq<bool> {
    seq(|attempts|, i requires 0 <= i < |attempts| => attempts[i].status == AttemptRunning)
  }

  function CheckIds(checks: seq<CheckRun>): seq<Id> {
    seq(|checks|, i requires 0 <= i < |checks| => checks[i].id)
  }

  ghost function CheckMarks(r: Run, checks: seq<CheckRun>): seq<bool> {
    seq(|checks|, i requires 0 <= i < |checks| => Abandoned(r, checks[i]))
  }

  lemma PicksNext(ids: seq<Id>, all: seq<Id>, marked: seq<bool>, places: seq<int>, id: Id, mark: bool)
    requires |marked| == |all| && Picks(ids, all, marked, places)
    ensures Picks(if mark then ids + [id] else ids, all + [id], marked + [mark],
                  if mark then places + [|all|] else places)
  {
    var next := if mark then places + [|all|] else places;
    forall k | 0 <= k <= |all| && (marked + [mark])[k] ensures k in next {
      if k < |all| {
        assert marked[k] && k in places;
      } else {
        assert next[|places|] == |all|;
      }
    }
  }

  lemma AttemptListsNext(attempts: seq<Attempt>)
    requires attempts != []
    ensures var n := |attempts| - 1;
            && AttemptIds(attempts) == AttemptIds(attempts[..n]) + [attempts[n].id]
            && AttemptMarks(attempts) == AttemptMarks(attempts[..n]) + [attempts[n].status == AttemptRunning]
  {
  }

  lemma CheckListsNext(r: Run, checks: seq<CheckRun>)
    requires checks != []
    ensures var n := |checks| - 1;
            && CheckIds(checks) == CheckIds(checks[..n]) + [checks[n].id]
            && CheckMarks(r, checks) == CheckMarks(r, checks[..n]) + [Abandoned(r, checks[n])]
  {
  }

  /** The report lists exactly the attempts that were running, each at its place. */
  lemma {:induction false} AttemptsAreListed(attempts: seq<Attempt>) returns (places: seq<int>)
    ensures Picks(StoppedAttempts(attempts), AttemptIds(attempts), AttemptMarks(attempts), places)
    decreases |attempts|
  {
    places := [];
    if attempts != [] {
      var n := |attempts| - 1;
      places := AttemptsAreListed(attempts[..n]);
      AttemptListsNext(attempts);
      PicksNext(StoppedAttempts(attempts[..n]), AttemptIds(attempts[..n]), AttemptMarks(attempts[..n]), places,
                attempts[n].id, attempts[n].status == AttemptRunning);
      if attempts[n].status == AttemptRunning {
        places := places + [n];
      } else {
        assert StoppedAttempts(attempts) == StoppedAttempts(attempts[..n]);
      }
    }
  }

  /** The report lists exactly the checks that were abandoned, each at its place. */
  lemma {:induction false} ChecksAreListed(r: Run, checks: seq<CheckRun>) returns (places: seq<int>)
    ensures Picks(StoppedChecks(r, checks), CheckIds(checks), CheckMarks(r, checks), places)
    decreases |checks|
  {
    places := [];
    if checks != [] {
      var n := |checks| - 1;
      places := ChecksAreListed(r, checks[..n]);
      CheckListsNext(r, checks);
      PicksNext(StoppedChecks(r, checks[..n]), CheckIds(checks[..n]), CheckMarks(r, checks[..n]), places, checks[n].id,
                Abandoned(r, checks[n]));
      if Abandoned(r, checks[n]) {
        places := places + [n];
      } else {
        assert StoppedChecks(r, checks) == StoppedChecks(r, checks[..n]);
      }
    }
  }

  lemma AttemptIsNamed(attempts: seq<Attempt>, id: Id)
    ensures id in StoppedAttempts(attempts) <==>
            exists a :: a in attempts && a.status == AttemptRunning && a.id == id
  {
    var ids := StoppedAttempts(attempts);
    var places := AttemptsAreListed(attempts);
    if id in ids {
      var i :| 0 <= i < |ids| && ids[i] == id;
      assert attempts[places[i]] in attempts;
    }
    if a :| a in attempts && a.status == AttemptRunning && a.id == id {
      var k :| 0 <= k < |attempts| && attempts[k] == a;
      assert AttemptMarks(attempts)[k] && k in places;
    }
  }

  lemma CheckIsNamed(r: Run, checks: seq<CheckRun>, id: Id)
    ensures id in StoppedChecks(r, checks) <==> exists k :: k in checks && Abandoned(r, k) && k.id == id
  {
    var ids := StoppedChecks(r, checks);
    var places := ChecksAreListed(r, checks);
    if id in ids {
      var i :| 0 <= i < |ids| && ids[i] == id;
      assert checks[places[i]] in checks;
    }
    if c :| c in checks && Abandoned(r, c) && c.id == id {
      var k :| 0 <= k < |checks| && checks[k] == c;
      assert CheckMarks(r, checks)[k] && k in places;
    }
  }

  /** The report of all runs names the running attempts of running runs. */
  ghost predicate NamesAttempt(runs: seq<Run>, id: Id) {
    exists r, a :: r in runs && r.status == RunRunning && a in r.attempts && a.status == AttemptRunning && a.id == id
  }

  /** And the abandoned checks of running runs. */
  ghost predicate NamesCheck(runs: seq<Run>, id: Id) {
    exists r, k :: r in runs && r.status == RunRunning && k in r.checks && Abandoned(r, k) && k.id == id
  }

  /** Work was cut off or lost, or nothing is left to wait for. */
  ghost predicate Stops(r: Run) {
    || (exists a :: a in r.attempts && a.status == AttemptRunning) || (exists k :: k in r.checks && Abandoned(r, k))
    || (exists n :: n in r.nodes && Lost(r, n)) || !Waiting(r)
  }

  lemma StopsIs(r: Run)
    ensures Stops(r) <==> MustPause(r)
  {
    WaitingIs(r);
    forall n ensures Lost(r, n) <==> Fails(r, n) {
      LostIs(r, n);
    }
    forall k ensures Abandoned(r, k) <==> Interruptible(r, k) {
    }
  }

  /** And the running runs that stop. */
  ghost predicate NamesRun(runs: seq<Run>, id: Id) {
    exists r :: r in runs && r.status == RunRunning && r.id == id && Stops(r)
  }

  /** And the lost nodes of running runs. */
  ghost predicate NamesNode(runs: seq<Run>, id: Id) {
    exists r, n :: r in runs && r.status == RunRunning && n in r.nodes && n.id == id && Lost(r, n)
  }

  lemma NamesNext(front: seq<Run>, last: Run, id: Id)
    ensures NamesAttempt(front + [last], id) <==>
            NamesAttempt(front, id) || (last.status == RunRunning && id in StoppedAttempts(last.attempts))
    ensures NamesCheck(front + [last], id) <==>
            NamesCheck(front, id) || (last.status == RunRunning && id in StoppedChecks(last, last.checks))
    ensures NamesRun(front + [last], id) <==>
            NamesRun(front, id) || (last.status == RunRunning && Stops(last) && last.id == id)
  {
    AttemptIsNamed(last.attempts, id);
    CheckIsNamed(last, last.checks, id);
  }

  lemma NodesAreNamed(runs: seq<Run>, ids: seq<Id>, id: Id)
    requires NodesReported(runs, ids)
    ensures id in ids <==> NamesNode(runs, id)
  {
    if NamesNode(runs, id) {
      var r, n :| r in runs && r.status == RunRunning && n in r.nodes && n.id == id && Lost(r, n);
      LostIs(r, n);
    }
    if id in ids {
      var r, n :| r in runs && r.status.RunRunning? && n in r.nodes && n.id == id && Fails(r, n);
      LostIs(r, n);
    }
  }

  /** The report names exactly the runs, attempts and checks that recovery changed. */
  lemma {:induction false} ReportNames(runs: seq<Run>, id: Id)
    ensures id in ReportOf(runs).0 <==> NamesRun(runs, id)
    ensures id in ReportOf(runs).1 <==> NamesAttempt(runs, id)
    ensures id in ReportOf(runs).2 <==> NamesCheck(runs, id)
    decreases |runs|
  {
    if runs != [] {
      var front, last := runs[..|runs| - 1], runs[|runs| - 1];
      assert runs == front + [last];
      StopsIs(last);
      ReportNames(front, id);
      NamesNext(front, last, id);
    }
  }
}

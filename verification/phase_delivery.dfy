/** Phase Session guarantees under any interleaving of joins, publications, reads, persisted
    deliveries and crashes. */
module PhaseDelivery {
  import opened Values
  import opened Graphs
  import opened PhaseSessions

  const PAGE_LIMIT := 8

  // ---- What the projections say about the log

  lemma {:induction false} MatchesAre(log: Log, c: Context)
    requires Matches(log, c).Ok?
    ensures Matches(log, c).value == [] <==> forall i :: 0 <= i < |log| ==> !Opens(log[i], c.run, c.phase)
    ensures forall m :: m in Matches(log, c).value ==>
              m.run == c.run && m.phase == c.phase && exists i :: 0 <= i < |log| && Opens(log[i], c.run, c.phase)
                                                                  && log[i].session == m.session
    decreases |log|
  {
    if log != [] {
      var front, last := log[..|log| - 1], log[|log| - 1];
      MatchesAre(front, c);
      forall i | 0 <= i < |front| ensures front[i] == log[i] {
      }
      if Opens(last, c.run, c.phase) {
        assert Opens(log[|log| - 1], c.run, c.phase);
      }
    }
  }

  lemma {:induction false} MembersAre(log: Log, id: Identity)
    requires Members(log, id).Ok?
    ensures forall i :: 0 <= i < |log| && Joins(log[i], id) ==>
              log[i].member.attempt in Members(log, id).value
                && Members(log, id).value[log[i].member.attempt] == log[i].member
    ensures forall a :: a in Members(log, id).value ==>
              exists i :: 0 <= i < |log| && Joins(log[i], id) && log[i].member == Members(log, id).value[a]
                          && log[i].member.attempt == a
    decreases |log|
  {
    if log != [] {
      var front, last := log[..|log| - 1], log[|log| - 1];
      MembersAre(front, id);
      forall i | 0 <= i < |front| ensures front[i] == log[i] {
      }
    }
  }

  /** The offsets of a session's discussion entries after `after`. */
  function Offsets(log: Log, id: Identity, after: Offset): seq<Offset> {
    if log == [] then []
    else Offsets(log[..|log| - 1], id, after) + if |log| > after && IsEntry(log[|log| - 1], id) then [|log|] else []
  }

  lemma {:induction false} EntriesAre(log: Log, id: Identity, members: map<Id, Member>, after: Offset)
    requires Entries(log, id, members, after).Ok?
    ensures Entries(log, id, members, after).value == Offsets(log, id, after)
    decreases |log|
  {
    if log != [] {
      EntriesAre(log[..|log| - 1], id, members, after);
    }
  }

  lemma {:induction false} OffsetsAre(log: Log, id: Identity, after: Offset)
    ensures forall i :: 0 <= i < |log| ==> (i + 1 in Offsets(log, id, after) <==> i + 1 > after && IsEntry(log[i], id))
    ensures forall o :: o in Offsets(log, id, after) ==> after < o <= |log|
    decreases |log|
  {
    if log != [] {
      var front := log[..|log| - 1];
      OffsetsAre(front, id, after);
      forall i | 0 <= i < |log| ensures i + 1 in Offsets(log, id, after) <==> i + 1 > after && IsEntry(log[i], id) {
        if i < |front| {
          assert front[i] == log[i];
        }
      }
    }
  }

  lemma {:induction false} KeyFound(log: Log, offsets: seq<Offset>, attempt: Id, key: string)
    ensures FindKey(log, offsets, attempt, key).None? ==>
              forall o :: o in offsets && 0 < o <= |log| && log[o - 1].Published? ==>
                !(log[o - 1].member.attempt == attempt && log[o - 1].key == key)
    ensures FindKey(log, offsets, attempt, key).Some? ==>
              var o := FindKey(log, offsets, attempt, key).value;
              o in offsets && 0 < o <= |log| && log[o - 1].Published? && log[o - 1].member.attempt == attempt
                && log[o - 1].key == key
    decreases |offsets|
  {
    if offsets != [] {
      KeyFound(log, offsets[1..], attempt, key);
      forall o | o in offsets ensures o == offsets[0] || o in offsets[1..] {
      }
    }
  }

  // ---- One session per run and phase, one membership and one publication

  ghost predicate SameSession(log: Log, i: int, j: int)
    requires 0 <= i < |log| && 0 <= j < |log|
  {
    log[i].Opened? && log[j].Opened? && log[i].run == log[j].run && log[i].phase == log[j].phase
  }

  ghost predicate SameJoin(log: Log, i: int, j: int)
    requires 0 <= i < |log| && 0 <= j < |log|
  {
    log[i].Joined? && log[j].Joined? && log[i].session == log[j].session && log[i].run == log[j].run
    && log[i].member.attempt == log[j].member.attempt
  }

  ghost predicate SameKey(log: Log, i: int, j: int)
    requires 0 <= i < |log| && 0 <= j < |log|
  {
    log[i].Published? && log[j].Published? && log[i].session == log[j].session && log[i].run == log[j].run
    && log[i].member.attempt == log[j].member.attempt && log[i].key == log[j].key
  }

  /** The session of a publication or membership was opened for its run. */
  ghost predicate OfSession(log: Log, e: Event) {
    (e.Joined? || e.Published?) ==> 0 < e.session <= |log| && log[e.session - 1].Opened?
                                    && log[e.session - 1].run == e.run
  }

  ghost predicate LogOk(log: Log) {
    && (forall i :: 0 <= i < |log| && log[i].Opened? ==> log[i].session == i + 1)
    && (forall i, j :: 0 <= i < j < |log| ==> !SameSession(log, i, j))
    && (forall i, j :: 0 <= i < j < |log| ==> !SameJoin(log, i, j))
    && (forall i, j :: 0 <= i < j < |log| ==> !SameKey(log, i, j))
    && forall i :: 0 <= i < |log| ==> OfSession(log, log[i])
  }

  /** What a new event must be for the log to stay in order. */
  ghost predicate MayAppend(log: Log, e: Event) {
    && (e.Opened? ==> e.session == |log| + 1 && forall i :: 0 <= i < |log| ==> !Opens(log[i], e.run, e.phase))
    && (e.Joined? ==> forall i :: 0 <= i < |log| && Joins(log[i], Identity(e.session, e.run, "")) ==>
        log[i].member.attempt != e.member.attempt)
    && (e.Published? ==> forall i :: 0 <= i < |log| && log[i].Published? && log[i].session == e.session
                                     && log[i].run == e.run
                                     ==> !(log[i].member.attempt == e.member.attempt && log[i].key == e.key))
    && OfSession(log, e)
  }

  lemma AppendKeepsLog(log: Log, e: Event)
    requires LogOk(log) && MayAppend(log, e)
    ensures LogOk(log + [e])
  {
    var now, n := log + [e], |log|;
    forall i, j | 0 <= i < j <= n ensures !SameSession(now, i, j) && !SameJoin(now, i, j) && !SameKey(now, i, j) {
      if j < n {
        assert !SameSession(log, i, j) && !SameJoin(log, i, j) && !SameKey(log, i, j);
      } else {
        assert e.Opened? ==> !Opens(log[i], e.run, e.phase);
        assert e.Joined? && Joins(log[i], Identity(e.session, e.run, "")) ==> log[i].member.attempt != e.member.attempt;
      }
    }
    forall i | 0 <= i <= n ensures OfSession(now, now[i]) {
      if i < n {
        assert OfSession(log, log[i]);
      }
    }
  }

  /** The session found for a context is the one opened for its run and phase. */
  lemma FoundIsOpened(log: Log, c: Context) returns (i: int)
    requires LogOk(log) && FindExisting(log, c).Ok? && FindExisting(log, c).value.Some?
    ensures 0 <= i < |log| && Opens(log[i], c.run, c.phase)
    ensures FindExisting(log, c).value == Some(Identity(i + 1, c.run, c.phase))
  {
    MatchesAre(log, c);
    var matches := Matches(log, c).value;
    assert matches[0] in matches;
    i :| 0 <= i < |log| && Opens(log[i], c.run, c.phase) && log[i].session == matches[0].session;
  }

  lemma MayOpen(log: Log, c: Context)
    requires FindExisting(log, c) == Ok(None)
    ensures MayAppend(log, Opened(|log| + 1, c.run, c.phase, c.plan, c.version))
  {
    MatchesAre(log, c);
  }

  lemma MayJoin(log: Log, id: Identity, m: Member)
    requires Members(log, id).Ok? && m.attempt !in Members(log, id).value
    requires 0 < id.session <= |log| && log[id.session - 1].Opened? && log[id.session - 1].run == id.run
    ensures MayAppend(log, Joined(id.session, id.run, m))
  {
    MembersAre(log, id);
    forall i | 0 <= i < |log| && Joins(log[i], Identity(id.session, id.run, ""))
      ensures log[i].member.attempt != m.attempt
    {
      assert Joins(log[i], id);
    }
  }

  lemma JoinKeepsLog(log: Log, c: Context)
    requires LogOk(log)
    ensures LogOk(JoinStep(log, c).0) && log <= JoinStep(log, c).0
  {
    var found := FindExisting(log, c);
    if found.Ok? {
      if found.value.Some? {
        var i := FoundIsOpened(log, c);
        var id := found.value.value;
        if Members(log, id).Ok? && c.member.attempt !in Members(log, id).value {
          MayJoin(log, id, c.member);
          AppendKeepsLog(log, Joined(id.session, c.run, c.member));
        }
      } else {
        OpenKeepsLog(log, c);
      }
    }
  }

  lemma OpenKeepsLog(log: Log, c: Context)
    requires LogOk(log) && FindExisting(log, c) == Ok(None)
    ensures LogOk(JoinStep(log, c).0) && log <= JoinStep(log, c).0
  {
    var draft, id := log + [Opened(|log| + 1, c.run, c.phase, c.plan, c.version)], Identity(|log| + 1, c.run, c.phase);
    MayOpen(log, c);
    AppendKeepsLog(log, draft[|log|]);
    if Members(draft, id).Ok? && c.member.attempt !in Members(draft, id).value {
      MayJoin(draft, id, c.member);
      AppendKeepsLog(draft, Joined(id.session, c.run, c.member));
    }
  }

  lemma PublishKeepsLog(log: Log, c: Context, key: string, content: string)
    requires LogOk(log)
    ensures LogOk(PublishStep(log, c, key, content).0) && log <= PublishStep(log, c, key, content).0
  {
    var admitted := Admit(log, c);
    if admitted.Ok? {
      var (id, members) := admitted.value;
      var i := FoundIsOpened(log, c);
      if Entries(log, id, members, 0).Ok?
        && FindKey(log, Entries(log, id, members, 0).value, c.member.attempt, key).None? {
        MayPublish(log, id, members, c.member, key, content);
        AppendKeepsLog(log, Published(id.session, c.run, c.member, key, content));
      }
    }
  }

  lemma MayPublish(log: Log, id: Identity, members: map<Id, Member>, m: Member, key: string, content: string)
    requires Entries(log, id, members, 0).Ok? && FindKey(log, Entries(log, id, members, 0).value, m.attempt, key).None?
    requires 0 < id.session <= |log| && log[id.session - 1].Opened? && log[id.session - 1].run == id.run
    ensures MayAppend(log, Published(id.session, id.run, m, key, content))
  {
    EntriesAre(log, id, members, 0);
    OffsetsAre(log, id, 0);
    KeyFound(log, Offsets(log, id, 0), m.attempt, key);
    forall i | 0 <= i < |log| && log[i].Published? && log[i].session == id.session && log[i].run == id.run
      ensures !(log[i].member.attempt == m.attempt && log[i].key == key)
    {
      assert IsEntry(log[i], id) && i + 1 in Offsets(log, id, 0);
    }
  }

  /** A replayed publication returns the first one and appends nothing; other content is refused. */
  lemma RepublishIsIdempotent(log: Log, c: Context, key: string, content: string)
    requires LogOk(log) && PublishStep(log, c, key, content).1.Ok?
    ensures var (now, r) := PublishStep(log, c, key, content);
            && r.value > 0 && r.value <= |now| && now[r.value - 1].Published? && now[r.value - 1].content == content
            && now[r.value - 1].key == key && now[r.value - 1].member.attempt == c.member.attempt
            && (now == log <==> r.value <= |log|)
  {
    var (id, members) := Admit(log, c).value;
    KeyFound(log, Entries(log, id, members, 0).value, c.member.attempt, key);
  }

  // ---- The reader: its cursor comes from the pages it has persisted

  /** A persisted model input: a delivered page, or anything else. */
  datatype Input = Update(page: Page) | Chatter

  function Cursor(trace: seq<Input>, session: Offset): Offset {
    if trace == [] then 0
    else
      var last, before := trace[|trace| - 1], Cursor(trace[..|trace| - 1], session);
      if last.Update? && last.page.session == session && last.page.next > before then last.page.next else before
  }

  /** Everything delivered for the session, in order of delivery. */
  function Delivered(trace: seq<Input>, session: Offset): seq<Offset> {
    if trace == [] then []
    else
      var last, before := trace[|trace| - 1], Delivered(trace[..|trace| - 1], session);
      if last.Update? && last.page.session == session then before + last.page.entries else before
  }

  class Provider {
    const sessions: Sessions
    var trace: seq<Input>

    constructor (sessions: Sessions, trace: seq<Input>)
      ensures this.sessions == sessions && this.trace == trace
    {
      this.sessions, this.trace := sessions, trace;
    }

    /** The page to put before the next model step: what follows the largest persisted cursor. */
    method BeforeStep(c: Context, session: Offset) returns (page: Result<Option<Page>, Error>)
      ensures page == NextPage(sessions.log, c, trace, session)
    {
      var offset := 0;
      for i := 0 to |trace|
        invariant offset == Cursor(trace[..i], session)
      {
        assert trace[..i + 1][..i] == trace[..i];
        if trace[i].Update? && trace[i].page.session == session && trace[i].page.next > offset {
          offset := trace[i].page.next;
        }
      }
      assert trace[..|trace|] == trace;
      var read := sessions.Read(c, offset, PAGE_LIMIT);
      if read.Err? {
        return Err(read.error);
      }
      page := Ok(if read.value.entries == [] then None else Some(read.value));
    }
  }

  function NextPage(log: Log, c: Context, trace: seq<Input>, session: Offset): Result<Option<Page>, Error> {
    match ReadStep(log, c, Cursor(trace, session), PAGE_LIMIT)
    case Err(e) => Err(e)
    case Ok(page) => Ok(if page.entries == [] then None else Some(page))
  }

  // ---- Interleavings: one reader among any number of writers

  /** The log, the inputs the reader has persisted, and the page it is about to persist. */
  datatype World = World(log: Log, trace: seq<Input>, pending: Option<Page>)

  datatype Action =
    | Join(c: Context)
    | Publish(c: Context, key: string, content: string)
    | External(e: Event)
    | Step(c: Context)
    | Persist
    | Crash
    | Chat

  /** The session a reader with this context was given when it joined. */
  function SessionOf(log: Log, c: Context): Offset {
    match FindExisting(log, c)
    case Ok(Some(id)) => id.session
    case _ => 0
  }

  function Next(w: World, a: Action): World {
    match a
    case Join(c) => w.(log := JoinStep(w.log, c).0)
    case Publish(c, key, content) => w.(log := PublishStep(w.log, c, key, content).0)
    case External(e) => if e.Handoff? || e.Other? then w.(log := w.log + [e]) else w
    case Step(c) =>
      (match NextPage(w.log, c, w.trace, SessionOf(w.log, c))
       case Ok(page) => w.(pending := page)
       case Err(_) => w.(pending := None))
    case Persist => if w.pending.Some? then w.(trace := w.trace + [Update(w.pending.value)], pending := None) else w
    case Crash => w.(pending := None)
    case Chat => w.(trace := w.trace + [Chatter])
  }

  function After(actions: seq<Action>): World {
    if actions == [] then World([], [], None) else Next(After(actions[..|actions| - 1]), actions[|actions| - 1])
  }

  function LastOr(s: seq<Offset>, default: Offset): Offset {
    if s == [] then default else s[|s| - 1]
  }

  ghost predicate IsSession(log: Log, s: Offset) {
    0 < s <= |log| && log[s - 1].Opened?
  }

  ghost function IdentityOf(log: Log, s: Offset): Identity
    requires IsSession(log, s)
  {
    Identity(s, log[s - 1].run, log[s - 1].phase)
  }

  /** What was delivered is a prefix of what was published, and the cursor is its end. */
  ghost predicate InStep(log: Log, trace: seq<Input>, s: Offset) {
    if IsSession(log, s) then
      Delivered(trace, s) <= Offsets(log, IdentityOf(log, s), 0) && Cursor(trace, s) == LastOr(Delivered(trace, s), 0)
    else Delivered(trace, s) == [] && Cursor(trace, s) == 0
  }

  /** The page continues what was delivered. */
  ghost predicate Continues(log: Log, trace: seq<Input>, p: Page) {
    && IsSession(log, p.session) && p.entries != [] && p.next == LastOr(p.entries, 0)
    && Delivered(trace, p.session) + p.entries <= Offsets(log, IdentityOf(log, p.session), 0)
  }

  ghost predicate Inv(w: World) {
    && LogOk(w.log) && (forall s :: InStep(w.log, w.trace, s))
    && (w.pending.Some? ==> Continues(w.log, w.trace, w.pending.value))
  }

  lemma {:induction false} OffsetsGrow(small: Log, large: Log, id: Identity)
    requires small <= large
    ensures Offsets(small, id, 0) <= Offsets(large, id, 0)
    decreases |large|
  {
    if |small| < |large| {
      assert small <= large[..|large| - 1];
      OffsetsGrow(small, large[..|large| - 1], id);
    } else {
      assert small == large;
    }
  }

  lemma {:induction false} NoneAfterEnd(log: Log, id: Identity, after: Offset)
    requires after >= |log|
    ensures Offsets(log, id, after) == []
    decreases |log|
  {
    if log != [] {
      NoneAfterEnd(log[..|log| - 1], id, after);
    }
  }

  /** What lies after the k-th entry is the rest of the entries. */
  lemma {:induction false} OffsetsAfter(log: Log, id: Identity, k: nat)
    requires k <= |Offsets(log, id, 0)|
    ensures Offsets(log, id, LastOr(Offsets(log, id, 0)[..k], 0)) == Offsets(log, id, 0)[k..]
    decreases |log|
  {
    if log != [] {
      var front := log[..|log| - 1];
      var before, all := Offsets(front, id, 0), Offsets(log, id, 0);
      OffsetsAre(front, id, 0);
      if k <= |before| {
        OffsetsAfter(front, id, k);
        assert all[..k] == before[..k];
        assert k > 0 ==> before[k - 1] in before;
      } else {
        assert all == before + [|log|] && all[..k] == all;
        NoneAfterEnd(log, id, |log|);
      }
    }
  }

  /** What a read returns: the first entries of the session after the offset. */
  lemma ReadIs(log: Log, c: Context, after: Offset)
    requires LogOk(log) && ReadStep(log, c, after, PAGE_LIMIT).Ok?
    ensures var s, page := SessionOf(log, c), ReadStep(log, c, after, PAGE_LIMIT).value;
            && IsSession(log, s) && page.session == s
            && page.entries <= Offsets(log, IdentityOf(log, s), after)
            && (page.entries == [] <==> Offsets(log, IdentityOf(log, s), after) == [])
            && page.next == LastOr(page.entries, after)
  {
    var i := FoundIsOpened(log, c);
    var (id, members) := Admit(log, c).value;
    EntriesAre(log, id, members, after);
  }

  /** The entries after the cursor are those not delivered yet. */
  lemma RestIsAfterCursor(log: Log, trace: seq<Input>, s: Offset)
    requires IsSession(log, s) && InStep(log, trace, s)
    ensures var id, done := IdentityOf(log, s), Delivered(trace, s);
            Offsets(log, id, 0) == done + Offsets(log, id, Cursor(trace, s))
  {
    var id, done := IdentityOf(log, s), Delivered(trace, s);
    var all := Offsets(log, id, 0);
    OffsetsAfter(log, id, |done|);
    assert all[..|done|] == done;
    assert all == done + all[|done|..];
  }

  /** A page read now continues what was delivered. */
  lemma ReadContinues(w: World, c: Context)
    requires Inv(w)
    ensures Inv(Next(w, Step(c)))
  {
    var s := SessionOf(w.log, c);
    var next := NextPage(w.log, c, w.trace, s);
    if next.Ok? && next.value.Some? {
      ReadIs(w.log, c, Cursor(w.trace, s));
      assert InStep(w.log, w.trace, s);
      RestIsAfterCursor(w.log, w.trace, s);
      assert Continues(w.log, w.trace, next.value.value);
    }
  }

  /** When a read finds nothing new, everything published was delivered. */
  lemma NothingNewMeansAllDelivered(w: World, c: Context)
    requires Inv(w) && NextPage(w.log, c, w.trace, SessionOf(w.log, c)) == Ok(None)
    ensures var s := SessionOf(w.log, c);
            IsSession(w.log, s) && Delivered(w.trace, s) == Offsets(w.log, IdentityOf(w.log, s), 0)
  {
    var s := SessionOf(w.log, c);
    ReadIs(w.log, c, Cursor(w.trace, s));
    assert InStep(w.log, w.trace, s);
    RestIsAfterCursor(w.log, w.trace, s);
  }

  lemma PersistKeeps(w: World)
    requires Inv(w) && w.pending.Some?
    ensures Inv(Next(w, Persist))
  {
    var p, now := w.pending.value, w.trace + [Update(w.pending.value)];
    assert now[..|w.trace|] == w.trace;
    forall s ensures InStep(w.log, now, s) {
      assert InStep(w.log, w.trace, s);
      if s == p.session {
        NextIsLater(w, p);
      }
    }
  }

  lemma NextIsLater(w: World, p: Page)
    requires Inv(w) && Continues(w.log, w.trace, p)
    ensures p.next > Cursor(w.trace, p.session)
  {
    var id := IdentityOf(w.log, p.session);
    var done, all := Delivered(w.trace, p.session), Offsets(w.log, id, 0);
    assert InStep(w.log, w.trace, p.session);
    OffsetsAfter(w.log, id, |done|);
    assert all[..|done|] == done;
    var k := |done| + |p.entries| - 1;
    assert all[k] == (done + p.entries)[k] == p.next;
    assert all[|done|..][|p.entries| - 1] == p.next;
    OffsetsAre(w.log, id, LastOr(done, 0));
    assert p.next in Offsets(w.log, id, LastOr(done, 0));
  }

  /** Growth of the log keeps the reader in step. */
  lemma GrowthKeeps(w: World, log: Log)
    requires Inv(w) && w.log <= log && LogOk(log)
    ensures Inv(w.(log := log))
  {
    forall s ensures InStep(log, w.trace, s) {
      assert InStep(w.log, w.trace, s);
      if IsSession(w.log, s) {
        OffsetsGrow(w.log, log, IdentityOf(w.log, s));
      }
    }
    if w.pending.Some? {
      OffsetsGrow(w.log, log, IdentityOf(w.log, w.pending.value.session));
    }
  }

  lemma ChatKeeps(w: World)
    requires Inv(w)
    ensures Inv(Next(w, Chat))
  {
    var now := w.trace + [Chatter];
    assert now[..|w.trace|] == w.trace;
    forall s ensures InStep(w.log, now, s) {
      assert InStep(w.log, w.trace, s);
    }
  }

  lemma NextKeeps(w: World, a: Action)
    requires Inv(w)
    ensures Inv(Next(w, a)) && w.log <= Next(w, a).log
  {
    match a
    case Join(c) =>
      JoinKeepsLog(w.log, c);
      GrowthKeeps(w, JoinStep(w.log, c).0);
    case Publish(c, key, content) =>
      PublishKeepsLog(w.log, c, key, content);
      GrowthKeeps(w, PublishStep(w.log, c, key, content).0);
    case External(e) =>
      if e.Handoff? || e.Other? {
        AppendKeepsLog(w.log, e);
        GrowthKeeps(w, w.log + [e]);
      }
    case Step(c) => ReadContinues(w, c);
    case Persist =>
      if w.pending.Some? {
        PersistKeeps(w);
      }
    case Crash =>
    case Chat => ChatKeeps(w);
  }

  /** Under any interleaving of joins, publications, reads, persisted pages and crashes the reader
      has received exactly a prefix of the published entries; there is at most one session per run
      and phase, one membership per session and attempt, and one publication per key of it. */
  lemma {:induction false} AlwaysInStep(actions: seq<Action>)
    ensures Inv(After(actions))
    decreases |actions|
  {
    if actions == [] {
      forall s ensures InStep([], [], s) {
      }
    } else {
      AlwaysInStep(actions[..|actions| - 1]);
      NextKeeps(After(actions[..|actions| - 1]), actions[|actions| - 1]);
    }
  }

  /** No action ever removes or changes a logged event. */
  lemma {:induction false} LogOnlyGrows(actions: seq<Action>, i: nat)
    requires i <= |actions|
    ensures After(actions[..i]).log <= After(actions).log
    decreases |actions|
  {
    if i == |actions| {
      assert actions[..i] == actions;
    } else {
      var front := actions[..|actions| - 1];
      assert front[..i] == actions[..i];
      LogOnlyGrows(front, i);
      AlwaysInStep(front);
      NextKeeps(After(front), actions[|actions| - 1]);
    }
  }

  // ---- One publication per attempt and key

  /** An attempt belongs to one run and one phase. */
  ghost predicate Placed(a: Action, attempt: Id, run: Id, phase: Id) {
    a.Publish? && a.c.member.attempt == attempt ==> a.c.run == run && a.c.phase == phase
  }

  ghost predicate PublishedIn(log: Log, e: Event, run: Id, phase: Id)
    requires e.Published?
  {
    0 < e.session <= |log| && Opens(log[e.session - 1], run, phase) && e.run == run
  }

  ghost predicate AllPublishedIn(log: Log, attempt: Id, run: Id, phase: Id) {
    forall i :: 0 <= i < |log| && log[i].Published? && log[i].member.attempt == attempt ==>
      PublishedIn(log, log[i], run, phase)
  }

  lemma GrowthKeepsPlace(small: Log, large: Log, attempt: Id, run: Id, phase: Id)
    requires small <= large && AllPublishedIn(small, attempt, run, phase)
    requires forall i :: |small| <= i < |large| && large[i].Published? && large[i].member.attempt == attempt ==>
               PublishedIn(large, large[i], run, phase)
    ensures AllPublishedIn(large, attempt, run, phase)
  {
    forall i | 0 <= i < |large| && large[i].Published? && large[i].member.attempt == attempt
      ensures PublishedIn(large, large[i], run, phase)
    {
      if i < |small| {
        assert PublishedIn(small, small[i], run, phase);
      }
    }
  }

  lemma PublishKeepsPlace(log: Log, c: Context, key: string, content: string, attempt: Id, run: Id, phase: Id)
    requires LogOk(log) && AllPublishedIn(log, attempt, run, phase)
    requires c.member.attempt == attempt ==> c.run == run && c.phase == phase
    ensures AllPublishedIn(PublishStep(log, c, key, content).0, attempt, run, phase)
  {
    var now := PublishStep(log, c, key, content).0;
    if now != log {
      var i := FoundIsOpened(log, c);
      GrowthKeepsPlace(log, now, attempt, run, phase);
    }
  }

  lemma {:induction false} AlwaysInPlace(actions: seq<Action>, attempt: Id, run: Id, phase: Id)
    requires forall i :: 0 <= i < |actions| ==> Placed(actions[i], attempt, run, phase)
    ensures AllPublishedIn(After(actions).log, attempt, run, phase)
    decreases |actions|
  {
    if actions != [] {
      var front, a := actions[..|actions| - 1], actions[|actions| - 1];
      forall i | 0 <= i < |front| ensures Placed(front[i], attempt, run, phase) {
        assert Placed(actions[i], attempt, run, phase);
      }
      AlwaysInPlace(front, attempt, run, phase);
      AlwaysInStep(front);
      var w := After(front);
      assert Placed(actions[|actions| - 1], attempt, run, phase);
      NextKeeps(w, a);
      if a.Publish? {
        PublishKeepsPlace(w.log, a.c, a.key, a.content, attempt, run, phase);
      } else {
        NoPublication(w, a);
        GrowthKeepsPlace(w.log, Next(w, a).log, attempt, run, phase);
      }
    }
  }

  lemma NoPublication(w: World, a: Action)
    requires !a.Publish?
    ensures forall i :: |w.log| <= i < |Next(w, a).log| ==> !Next(w, a).log[i].Published?
  {
  }

  lemma OnceInPlace(log: Log, attempt: Id, run: Id, phase: Id, i: nat, j: nat)
    requires LogOk(log) && AllPublishedIn(log, attempt, run, phase)
    requires i < j < |log| && log[i].Published? && log[j].Published?
    requires log[i].member.attempt == attempt && log[j].member.attempt == attempt
    ensures log[i].key != log[j].key
  {
    assert PublishedIn(log, log[i], run, phase) && PublishedIn(log, log[j], run, phase);
    var a, b := log[i].session - 1, log[j].session - 1;
    assert a < b ==> !SameSession(log, a, b);
    assert b < a ==> !SameSession(log, b, a);
    assert !SameKey(log, i, j);
  }

  /** An attempt that belongs to one run and phase publishes at most once under a key. */
  lemma OnePublicationPerKey(actions: seq<Action>, attempt: Id, run: Id, phase: Id, i: nat, j: nat)
    requires forall k :: 0 <= k < |actions| ==> Placed(actions[k], attempt, run, phase)
    requires i < j < |After(actions).log| && After(actions).log[i].Published? && After(actions).log[j].Published?
    requires After(actions).log[i].member.attempt == attempt && After(actions).log[j].member.attempt == attempt
    ensures After(actions).log[i].key != After(actions).log[j].key
  {
    AlwaysInPlace(actions, attempt, run, phase);
    AlwaysInStep(actions);
    OnceInPlace(After(actions).log, attempt, run, phase, i, j);
  }
}

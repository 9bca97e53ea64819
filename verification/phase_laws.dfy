/** What the operations of a Phase Session do, told by the events of the log alone: which session is open,
    who has joined it, what was said in it; and over all interleavings, that only members write. */
module PhaseLaws {
  import opened Values
  import opened Graphs
  import opened PhaseSessions
  import opened PhaseDelivery

  // ---- The session of a context

  ghost predicate OpenedFor(log: Log, c: Context, i: int) {
    0 <= i < |log| && log[i].Opened? && log[i].run == c.run && log[i].phase == c.phase
  }

  ghost predicate PlanAgrees(log: Log, c: Context, i: int)
    requires OpenedFor(log, c, i)
  {
    log[i].plan == c.plan && log[i].version == c.version
  }

  ghost predicate AllAgree(log: Log, c: Context) {
    forall i :: OpenedFor(log, c, i) ==> PlanAgrees(log, c, i)
  }

  ghost predicate OnlyOpening(log: Log, c: Context, i: int) {
    OpenedFor(log, c, i) && forall j :: OpenedFor(log, c, j) ==> j == i
  }

  ghost predicate TwoOpenings(log: Log, c: Context) {
    exists i, j :: i < j && OpenedFor(log, c, i) && OpenedFor(log, c, j)
  }

  /** The one session opened for the run and phase, under the plan of the context. */
  ghost predicate SessionIs(log: Log, c: Context, id: Identity) {
    exists i :: OnlyOpening(log, c, i) && PlanAgrees(log, c, i) && id == Identity(log[i].session, c.run, c.phase)
  }

  /** The openings found so far, in order. */
  ghost predicate MatchesAt(log: Log, c: Context, matches: seq<Identity>, places: seq<int>) {
    && |places| == |matches|
    && (forall k :: 0 <= k < |matches| ==> OpenedFor(log, c, places[k])
                                           && matches[k] == Identity(log[places[k]].session, c.run, c.phase))
    && (forall k, l :: 0 <= k < l < |matches| ==> places[k] < places[l])
    && forall i :: OpenedFor(log, c, i) ==> i in places
  }

  lemma {:induction false} MatchesPlaced(log: Log, c: Context) returns (places: seq<int>)
    ensures Matches(log, c).Ok? <==> AllAgree(log, c)
    ensures Matches(log, c).Err? ==> Matches(log, c).error == PlanMismatch
    ensures Matches(log, c).Ok? ==> MatchesAt(log, c, Matches(log, c).value, places)
    decreases |log|
  {
    places := [];
    if log != [] {
      var front, n := log[..|log| - 1], |log| - 1;
      places := MatchesPlaced(front, c);
      assert forall i :: i < n ==> (OpenedFor(front, c, i) <==> OpenedFor(log, c, i));
      if Opens(log[n], c.run, c.phase) {
        assert OpenedFor(log, c, n);
        places := places + [n];
      } else {
        assert !OpenedFor(log, c, n);
      }
    }
  }

  ghost predicate NeverOpened(log: Log, c: Context) {
    forall i :: !OpenedFor(log, c, i)
  }

  ghost predicate FoundAs(log: Log, c: Context, r: Result<Option<Identity>, Error>) {
    match r
    case Ok(Some(id)) => SessionIs(log, c, id)
    case Ok(None) => NeverOpened(log, c)
    case Err(PlanMismatch) => !AllAgree(log, c)
    case Err(ManySessions) => AllAgree(log, c) && TwoOpenings(log, c)
    case Err(_) => false
  }

  lemma FindIs(log: Log, c: Context)
    ensures FoundAs(log, c, FindExisting(log, c))
  {
    var places := MatchesPlaced(log, c);
    if Matches(log, c).Ok? {
      var matches := Matches(log, c).value;
      if |matches| > 1 {
        assert places[0] < places[1] && OpenedFor(log, c, places[0]) && OpenedFor(log, c, places[1]);
      } else if |matches| == 1 {
        assert OnlyOpening(log, c, places[0]);
      }
    }
  }

  // ---- Members

  ghost predicate HasJoined(log: Log, id: Identity, m: Member, i: int) {
    0 <= i < |log| && log[i] == Joined(id.session, id.run, m)
  }

  ghost predicate IsMember(log: Log, id: Identity, m: Member) {
    exists i :: HasJoined(log, id, m, i)
  }

  /** No attempt joined the session with two bindings. */
  ghost predicate JoinsAgree(log: Log, id: Identity) {
    forall a, b :: IsMember(log, id, a) && IsMember(log, id, b) && a.attempt == b.attempt ==> a == b
  }

  ghost predicate Holds(members: map<Id, Member>, m: Member) {
    m.attempt in members && members[m.attempt] == m
  }

  lemma MemberMore(log: Log, e: Event, id: Identity, m: Member)
    ensures IsMember(log + [e], id, m) <==> IsMember(log, id, m) || e == Joined(id.session, id.run, m)
  {
    if i :| HasJoined(log, id, m, i) {
      assert HasJoined(log + [e], id, m, i);
    }
    if e == Joined(id.session, id.run, m) {
      assert HasJoined(log + [e], id, m, |log|);
    }
    if i :| HasJoined(log + [e], id, m, i) {
      assert i < |log| ==> HasJoined(log, id, m, i);
    }
  }

  lemma {:induction false} MembersIs(log: Log, id: Identity)
    ensures Members(log, id).Ok? <==> JoinsAgree(log, id)
    ensures Members(log, id).Err? ==> Members(log, id).error == MemberConflict
    ensures Members(log, id).Ok? ==>
              && (forall m :: Holds(Members(log, id).value, m) <==> IsMember(log, id, m))
              && forall a :: a in Members(log, id).value ==> Members(log, id).value[a].attempt == a
    decreases |log|
  {
    if log != [] {
      var front, e := log[..|log| - 1], log[|log| - 1];
      assert log == front + [e];
      MembersIs(front, id);
      forall m ensures IsMember(log, id, m) <==> IsMember(front, id, m) || e == Joined(id.session, id.run, m) {
        MemberMore(front, e, id, m);
      }
      if Members(front, id).Ok? && Joins(e, id) {
        MemberJoins(front, e, id, Members(front, id).value);
      }
    }
  }

  lemma MemberJoins(front: Log, e: Event, id: Identity, before: map<Id, Member>)
    requires Members(front, id) == Ok(before) && Joins(e, id) && JoinsAgree(front, id)
    requires forall m :: Holds(before, m) <==> IsMember(front, id, m)
    requires forall a :: a in before ==> before[a].attempt == a
    requires forall m :: IsMember(front + [e], id, m) <==>
                         IsMember(front, id, m) || e == Joined(id.session, id.run, m)
    ensures JoinsAgree(front + [e], id) <==> !(e.member.attempt in before && before[e.member.attempt] != e.member)
    ensures JoinsAgree(front + [e], id) ==>
              forall m :: Holds(before[e.member.attempt := e.member], m) <==> IsMember(front + [e], id, m)
  {
    assert IsMember(front + [e], id, e.member);
    if e.member.attempt in before && before[e.member.attempt] != e.member {
      assert Holds(before, before[e.member.attempt]);
      assert IsMember(front + [e], id, before[e.member.attempt]);
    }
  }

  // ---- Entries

  ghost predicate SaidAt(log: Log, id: Identity, o: int) {
    && 0 < o <= |log| && (log[o - 1].Published? || log[o - 1].Handoff?)
    && log[o - 1].session == id.session && log[o - 1].run == id.run
  }

  ghost predicate WrittenByMember(log: Log, id: Identity, o: int)
    requires SaidAt(log, id, o)
  {
    IsMember(log, id, log[o - 1].member)
  }

  ghost predicate Lists(log: Log, id: Identity, after: Offset, entries: seq<Offset>) {
    && (forall o :: o in entries <==> after < o && SaidAt(log, id, o))
    && forall i, j :: 0 <= i < j < |entries| ==> entries[i] < entries[j]
  }

  /** Exactly the entries after the offset, in order, all by members. */
  ghost predicate EntriesAfter(log: Log, id: Identity, after: Offset, entries: seq<Offset>) {
    Lists(log, id, after, entries) && forall o :: after < o && SaidAt(log, id, o) ==> WrittenByMember(log, id, o)
  }

  /** Somebody who is no member wrote an entry after the offset. */
  ghost predicate Intruded(log: Log, id: Identity, after: Offset) {
    exists o :: after < o && SaidAt(log, id, o) && !WrittenByMember(log, id, o)
  }

  ghost predicate AllHeld(log: Log, id: Identity, members: map<Id, Member>, after: Offset) {
    forall o :: after < o && SaidAt(log, id, o) ==> Holds(members, log[o - 1].member)
  }

  lemma {:induction false} EntriesAuthored(log: Log, id: Identity, members: map<Id, Member>, after: Offset)
    ensures Entries(log, id, members, after).Ok? <==> AllHeld(log, id, members, after)
    ensures Entries(log, id, members, after).Err? ==> Entries(log, id, members, after).error == BadFact
    ensures Entries(log, id, members, after).Ok? ==> Lists(log, id, after, Entries(log, id, members, after).value)
    decreases |log|
  {
    if log != [] {
      var front, n := log[..|log| - 1], |log|;
      EntriesAuthored(front, id, members, after);
      forall o | o < n ensures SaidAt(front, id, o) <==> SaidAt(log, id, o) {
        assert 0 < o ==> front[o - 1] == log[o - 1];
      }
      assert SaidAt(log, id, n) <==> IsEntry(log[n - 1], id);
      if !AllHeld(front, id, members, after) {
        var o :| after < o && SaidAt(front, id, o) && !Holds(members, front[o - 1].member);
        assert SaidAt(log, id, o) && !Holds(members, log[o - 1].member);
      } else {
        var before := Entries(front, id, members, after).value;
        forall k | 0 <= k < |before| ensures before[k] < n {
          assert before[k] in before;
        }
      }
    }
  }

  lemma EntriesIs(log: Log, id: Identity, after: Offset)
    requires Members(log, id).Ok?
    ensures var r := Entries(log, id, Members(log, id).value, after);
            if r.Ok? then EntriesAfter(log, id, after, r.value) else r.error == BadFact && Intruded(log, id, after)
  {
    var members := Members(log, id).value;
    MembersIs(log, id);
    EntriesAuthored(log, id, members, after);
    if !AllHeld(log, id, members, after) {
      var o :| after < o && SaidAt(log, id, o) && !Holds(members, log[o - 1].member);
      assert !WrittenByMember(log, id, o);
    }
  }

  // ---- The operations

  /** The context finds its one session, nobody joined that with two bindings, and the attempt of the context
      joined it as what it is now. */
  ghost predicate Belongs(log: Log, c: Context, id: Identity) {
    SessionIs(log, c, id) && JoinsAgree(log, id) && IsMember(log, id, c.member)
  }

  /** Why a context is not let in. */
  ghost predicate KeptOut(log: Log, c: Context, error: Error) {
    match error
    case PlanMismatch => !AllAgree(log, c)
    case ManySessions => TwoOpenings(log, c)
    case NotOpen => NeverOpened(log, c)
    case NotMember =>
      exists id :: SessionIs(log, c, id) && forall m :: IsMember(log, id, m) ==> m.attempt != c.member.attempt
    case MemberConflict =>
      exists id :: SessionIs(log, c, id)
                   && (!JoinsAgree(log, id)
                       || exists m :: IsMember(log, id, m) && m.attempt == c.member.attempt && m != c.member)
    case _ => false
  }

  lemma AdmitIs(log: Log, c: Context)
    ensures var r := Admit(log, c);
            if r.Ok? then Belongs(log, c, r.value.0) && Members(log, r.value.0) == Ok(r.value.1)
            else KeptOut(log, c, r.error)
  {
    FindIs(log, c);
    var found := FindExisting(log, c);
    if found.Ok? && found.value.Some? {
      var id := found.value.value;
      MembersIs(log, id);
      if Members(log, id).Ok? {
        var members := Members(log, id).value;
        assert Holds(members, c.member) <==> IsMember(log, id, c.member);
        if c.member.attempt in members {
          assert Holds(members, members[c.member.attempt]);
        } else {
          assert forall m :: IsMember(log, id, m) ==> m.attempt in members;
        }
      }
    }
  }

  /** The page holds the first entries after the offset, all by members, and says where to go on. */
  ghost predicate PageIs(log: Log, c: Context, after: Offset, limit: nat, page: Page) {
    exists id, all :: Belongs(log, c, id) && EntriesAfter(log, id, after, all) && PageOf(id, all, after, limit, page)
  }

  ghost predicate PageOf(id: Identity, all: seq<Offset>, after: Offset, limit: nat, page: Page) {
    && page.session == id.session && page.entries <= all
    && |page.entries| == (if |all| <= limit then |all| else limit) && (page.hasMore <==> |all| > limit)
    && page.next == (if |page.entries| == 0 then after else page.entries[|page.entries| - 1])
  }

  ghost predicate ReadAs(log: Log, c: Context, after: Offset, limit: nat, r: Result<Page, Error>) {
    match r
    case Ok(page) => PageIs(log, c, after, limit, page)
    case Err(BadFact) => Disturbed(log, c, after)
    case Err(error) => KeptOut(log, c, error)
  }

  /** The context is let in, but somebody who is no member wrote in its session. */
  ghost predicate Disturbed(log: Log, c: Context, after: Offset) {
    exists id :: Belongs(log, c, id) && Intruded(log, id, after)
  }

  /** A member reads exactly the entries of its session that follow the offset, up to the limit. */
  lemma ReadLaw(log: Log, c: Context, after: Offset, limit: nat)
    ensures ReadAs(log, c, after, limit, ReadStep(log, c, after, limit))
  {
    AdmitIs(log, c);
    if Admit(log, c).Ok? {
      var (id, members) := Admit(log, c).value;
      EntriesIs(log, id, after);
      if Entries(log, id, members, after).Ok? {
        var all := Entries(log, id, members, after).value;
        assert PageOf(id, all, after, limit, ReadStep(log, c, after, limit).value);
      }
    }
  }

  ghost predicate SaidUnder(log: Log, id: Identity, attempt: Id, key: string, o: int) {
    SaidAt(log, id, o) && log[o - 1].Published? && log[o - 1].member.attempt == attempt && log[o - 1].key == key
  }

  ghost predicate FirstUnder(log: Log, id: Identity, attempt: Id, key: string, o: int) {
    SaidUnder(log, id, attempt, key, o) && forall p :: p < o ==> !SaidUnder(log, id, attempt, key, p)
  }

  /** The first of the offsets that names a publication under the key. */
  ghost predicate FirstOf(log: Log, id: Identity, offsets: seq<Offset>, attempt: Id, key: string, at: Option<Offset>) {
    if at.None? then forall o :: o in offsets ==> !SaidUnder(log, id, attempt, key, o)
    else
      && at.value in offsets && SaidUnder(log, id, attempt, key, at.value)
      && forall o :: o in offsets && o < at.value ==> !SaidUnder(log, id, attempt, key, o)
  }

  lemma {:induction false} KeyIsFirst(log: Log, id: Identity, offsets: seq<Offset>, attempt: Id, key: string)
    requires forall i, j :: 0 <= i < j < |offsets| ==> offsets[i] < offsets[j]
    requires forall o :: o in offsets ==> SaidAt(log, id, o)
    ensures FirstOf(log, id, offsets, attempt, key, FindKey(log, offsets, attempt, key))
    decreases |offsets|
  {
    if offsets != [] {
      assert offsets[0] in offsets;
      forall o | o in offsets[1..] ensures o in offsets && offsets[0] < o {
        var k :| 0 <= k < |offsets| - 1 && offsets[1..][k] == o;
        assert offsets[k + 1] == o;
      }
      KeyIsFirst(log, id, offsets[1..], attempt, key);
    }
  }

  /** The publication is the first under its key, with this content: as it was, or now at the end of the log. */
  ghost predicate PublishesAt(log: Log, c: Context, key: string, content: string, now: Log, at: Offset, id: Identity) {
    if forall o :: !SaidUnder(log, id, c.member.attempt, key, o)
    then now == log + [Published(id.session, c.run, c.member, key, content)] && at == |log| + 1
    else now == log && FirstUnder(log, id, c.member.attempt, key, at) && log[at - 1].content == content
  }

  /** The publication under the key has other content. */
  ghost predicate SaidOtherwise(log: Log, c: Context, key: string, content: string, id: Identity) {
    exists o :: FirstUnder(log, id, c.member.attempt, key, o) && log[o - 1].content != content
  }

  ghost predicate PublishedAs(log: Log, c: Context, key: string, content: string, now: Log, r: Result<Offset, Error>) {
    match r
    case Ok(at) => exists id :: Belongs(log, c, id) && PublishesAt(log, c, key, content, now, at, id)
    case Err(KeyReused) => now == log && exists id :: Belongs(log, c, id) && SaidOtherwise(log, c, key, content, id)
    case Err(BadFact) => now == log && Disturbed(log, c, 0)
    case Err(error) => now == log && KeptOut(log, c, error)
  }

  /** A member publishes once under a key, and nobody else publishes. */
  lemma PublishLaw(log: Log, c: Context, key: string, content: string)
    ensures PublishedAs(log, c, key, content, PublishStep(log, c, key, content).0, PublishStep(log, c, key, content).1)
  {
    AdmitIs(log, c);
    if Admit(log, c).Ok? {
      var (id, members) := Admit(log, c).value;
      EntriesIs(log, id, 0);
      if Entries(log, id, members, 0).Ok? {
        PublishCase(log, c, key, content, id, members, Entries(log, id, members, 0).value);
      }
    }
  }

  lemma PublishCase(log: Log, c: Context, key: string, content: string, id: Identity, members: map<Id, Member>,
                    offsets: seq<Offset>)
    requires Admit(log, c) == Ok((id, members)) && Entries(log, id, members, 0) == Ok(offsets)
    requires Lists(log, id, 0, offsets) && id.run == c.run
    ensures var (now, r) := PublishStep(log, c, key, content);
            if r.Ok? then PublishesAt(log, c, key, content, now, r.value, id)
            else r.error == KeyReused && now == log && SaidOtherwise(log, c, key, content, id)
  {
    KeyIsFirst(log, id, offsets, c.member.attempt, key);
    var at := FindKey(log, offsets, c.member.attempt, key);
    forall o | SaidUnder(log, id, c.member.attempt, key, o) ensures o in offsets {
    }
    if at.Some? {
      assert FirstUnder(log, id, c.member.attempt, key, at.value);
    }
  }

  /** What joining appends: the session if there is none, and the member if it has not joined. */
  ghost predicate JoinsAs(log: Log, c: Context, now: Log, session: Offset) {
    if NeverOpened(log, c) then
      && session == |log| + 1
      && var started := log + [Opened(session, c.run, c.phase, c.plan, c.version)];
      var id := Identity(session, c.run, c.phase);
      now == if IsMember(log, id, c.member) then started else started + [Joined(session, c.run, c.member)]
    else
      exists id :: SessionIs(log, c, id) && session == id.session
                   && now == if IsMember(log, id, c.member) then log else log + [Joined(session, c.run, c.member)]
  }

  /** The session joined: the one that is open, or the one that is opened now. */
  ghost predicate JoinsSession(log: Log, c: Context, id: Identity) {
    SessionIs(log, c, id) || (NeverOpened(log, c) && id == Identity(|log| + 1, c.run, c.phase))
  }

  ghost predicate Bound(log: Log, c: Context, id: Identity) {
    !JoinsAgree(log, id) || exists m :: IsMember(log, id, m) && m.attempt == c.member.attempt && m != c.member
  }

  ghost predicate JoinRefused(log: Log, c: Context, error: Error) {
    match error
    case PlanMismatch => !AllAgree(log, c)
    case ManySessions => TwoOpenings(log, c)
    case MemberConflict => exists id :: JoinsSession(log, c, id) && Bound(log, c, id)
    case _ => false
  }

  /** Joining leaves the attempt a member of the one session of its run and phase; it is refused when the attempt
      has another binding or the session is not the one of its plan, and then leaves nothing. */
  lemma JoinLaw(log: Log, c: Context)
    ensures var (now, r) := JoinStep(log, c);
            if r.Ok? then JoinsAs(log, c, now, r.value) else now == log && JoinRefused(log, c, r.error)
  {
    FindIs(log, c);
    var found := FindExisting(log, c);
    if found.Ok? {
      if found.value.Some? {
        MembersIs(log, found.value.value);
        JoinIsBound(log, log, c, found.value.value);
      } else {
        var opening := Opened(|log| + 1, c.run, c.phase, c.plan, c.version);
        var id := Identity(|log| + 1, c.run, c.phase);
        MembersIs(log + [opening], id);
        forall m ensures IsMember(log + [opening], id, m) <==> IsMember(log, id, m) {
          MemberMore(log, opening, id, m);
        }
        JoinIsBound(log, log + [opening], c, id);
      }
    }
  }

  lemma JoinIsBound(log: Log, draft: Log, c: Context, id: Identity)
    requires forall m :: IsMember(draft, id, m) <==> IsMember(log, id, m)
    ensures Members(draft, id).Err? ==> Bound(log, c, id)
    ensures (&& Members(draft, id).Ok? && c.member.attempt in Members(draft, id).value
             && Members(draft, id).value[c.member.attempt] != c.member) ==> Bound(log, c, id)
  {
    MembersIs(draft, id);
    if Members(draft, id).Ok? && c.member.attempt in Members(draft, id).value {
      assert Holds(Members(draft, id).value, Members(draft, id).value[c.member.attempt]);
    }
  }

  // ---- Over all interleavings

  /** Entry `i` was published by an attempt that had joined its session as what it was then. */
  ghost predicate ByMember(log: Log, i: int)
    requires 0 <= i < |log|
  {
    log[i].Published? ==> exists j :: 0 <= j < i && log[j] == Joined(log[i].session, log[i].run, log[i].member)
  }

  ghost predicate AllByMembers(log: Log) {
    forall i :: 0 <= i < |log| ==> ByMember(log, i)
  }

  lemma MembersKeep(log: Log, now: Log)
    requires AllByMembers(log) && log <= now && forall i :: |log| <= i < |now| ==> ByMember(now, i)
    ensures AllByMembers(now)
  {
    forall i | 0 <= i < |log| ensures ByMember(now, i) {
      assert ByMember(log, i);
    }
  }

  lemma PublisherIsMember(log: Log, c: Context, key: string, content: string)
    requires AllByMembers(log)
    ensures AllByMembers(PublishStep(log, c, key, content).0)
  {
    var (now, r) := PublishStep(log, c, key, content);
    PublishLaw(log, c, key, content);
    if r.Ok? {
      var id :| Belongs(log, c, id) && PublishesAt(log, c, key, content, now, r.value, id);
      if now != log {
        var j :| HasJoined(log, id, c.member, j);
        assert now[j] == Joined(id.session, c.run, c.member);
        MembersKeep(log, now);
      }
    }
  }

  lemma {:induction false} AlwaysByMembers(actions: seq<Action>)
    ensures AllByMembers(After(actions).log)
    decreases |actions|
  {
    if actions != [] {
      var front, a := actions[..|actions| - 1], actions[|actions| - 1];
      var w := After(front);
      AlwaysByMembers(front);
      if a.Publish? {
        PublisherIsMember(w.log, a.c, a.key, a.content);
      } else {
        NoPublication(w, a);
        MembersKeep(w.log, Next(w, a).log);
      }
    }
  }

  /** Under any interleaving a publication is by an attempt that joined that session before. */
  lemma OnlyMembersPublish(actions: seq<Action>, i: nat) returns (j: nat)
    requires i < |After(actions).log| && After(actions).log[i].Published?
    ensures j < i
    ensures var e := After(actions).log[i]; After(actions).log[j] == Joined(e.session, e.run, e.member)
  {
    AlwaysByMembers(actions);
    assert ByMember(After(actions).log, i);
    j :| 0 <= j < i && After(actions).log[j]
                       == Joined(After(actions).log[i].session, After(actions).log[i].run,
                                 After(actions).log[i].member);
  }

  // ---- What the reader has

  ghost predicate PersistedAt(trace: seq<Input>, session: Offset, k: int) {
    0 <= k < |trace| && trace[k].Update? && trace[k].page.session == session
  }

  /** The cursor is the largest next offset of the pages persisted for the session. */
  lemma {:induction false} CursorIsLargest(trace: seq<Input>, session: Offset)
    ensures forall k :: PersistedAt(trace, session, k) ==> trace[k].page.next <= Cursor(trace, session)
    ensures Cursor(trace, session) == 0
            || exists k :: PersistedAt(trace, session, k) && trace[k].page.next == Cursor(trace, session)
    decreases |trace|
  {
    if trace != [] {
      var front, n := trace[..|trace| - 1], |trace| - 1;
      CursorIsLargest(front, session);
      assert forall k :: k < n ==> (PersistedAt(front, session, k) <==> PersistedAt(trace, session, k));
      if k :| PersistedAt(front, session, k) && front[k].page.next == Cursor(front, session) {
        assert PersistedAt(trace, session, k);
      }
      assert PersistedAt(trace, session, n) <==> trace[n].Update? && trace[n].page.session == session;
    }
  }

  /** Delivered is what some persisted page of the session holds. */
  lemma {:induction false} DeliveredIsPersisted(trace: seq<Input>, session: Offset, o: Offset)
    ensures o in Delivered(trace, session) <==> exists k :: PersistedAt(trace, session, k) && o in trace[k].page.entries
    decreases |trace|
  {
    if trace != [] {
      var front, n := trace[..|trace| - 1], |trace| - 1;
      DeliveredIsPersisted(front, session, o);
      if k :| PersistedAt(front, session, k) && o in front[k].page.entries {
        assert PersistedAt(trace, session, k) && o in trace[k].page.entries;
      }
      if k :| PersistedAt(trace, session, k) && o in trace[k].page.entries {
        assert k < n ==> PersistedAt(front, session, k) && o in front[k].page.entries;
      }
      assert PersistedAt(trace, session, n) <==> trace[n].Update? && trace[n].page.session == session;
    }
  }

  /** What was published are exactly the entries after the offset, in order. */
  lemma {:induction false} OffsetsAreListed(log: Log, id: Identity, after: Offset)
    ensures Lists(log, id, after, Offsets(log, id, after))
    decreases |log|
  {
    if log != [] {
      var front, n := log[..|log| - 1], |log|;
      OffsetsAreListed(front, id, after);
      forall o | o < n ensures SaidAt(front, id, o) <==> SaidAt(log, id, o) {
        assert 0 < o ==> front[o - 1] == log[o - 1];
      }
      assert SaidAt(log, id, n) <==> IsEntry(log[n - 1], id);
      var before := Offsets(front, id, after);
      forall k | 0 <= k < |before| ensures before[k] < n {
        assert before[k] in before;
      }
    }
  }

  /** What the reader gets before its next step: the first entries after its cursor, at most eight; nothing only
      when nothing was said after it. */
  ghost predicate NextPageAs(log: Log, c: Context, cursor: Offset, r: Result<Option<Page>, Error>) {
    match r
    case Ok(Some(page)) => page.entries != [] && PageIs(log, c, cursor, 8, page)
    case Ok(None) => exists id :: Belongs(log, c, id) && forall o :: cursor < o ==> !SaidAt(log, id, o)
    case Err(error) => ReadAs(log, c, cursor, 8, Err(error))
  }

  lemma NextPageLaw(log: Log, c: Context, trace: seq<Input>, session: Offset)
    ensures NextPageAs(log, c, Cursor(trace, session), NextPage(log, c, trace, session))
  {
    var cursor := Cursor(trace, session);
    ReadLaw(log, c, cursor, 8);
    if ReadStep(log, c, cursor, 8).Ok? && ReadStep(log, c, cursor, 8).value.entries == [] {
      var page := ReadStep(log, c, cursor, 8).value;
      var id, all :| Belongs(log, c, id) && EntriesAfter(log, id, cursor, all) && PageOf(id, all, cursor, 8, page);
      assert all == [];
      assert forall o :: cursor < o ==> !SaidAt(log, id, o);
    }
  }
}

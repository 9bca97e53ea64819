/** Phase Sessions: a discussion kept in the event log. Sessions, members and publications are
    read back from the log; joining and publishing append to it. */
module PhaseSessions {
  import opened Values
  import opened Graphs

  /** Offsets count the events of the log from one; a session is named by its opening offset. */
  type Offset = nat

  datatype Member = Member(attempt: Id, node: Id, branch: Option<Id>, ref: Id)

  datatype Event =
    | Opened(session: Offset, run: Id, phase: Id, plan: Id, version: int)
    | Joined(session: Offset, run: Id, member: Member)
    | Published(session: Offset, run: Id, member: Member, key: string, content: string)
    | Handoff(session: Offset, run: Id, member: Member)
    | Other

  type Log = seq<Event>

  /** What the states say about an attempt: its run, phase, approved plan and membership data. */
  datatype Context = Context(run: Id, phase: Id, plan: Id, version: int, member: Member)

  datatype Identity = Identity(session: Offset, run: Id, phase: Id)

  datatype Error = PlanMismatch | ManySessions | MemberConflict | NotOpen | NotMember | BadFact | KeyReused

  datatype Page = Page(session: Offset, entries: seq<Offset>, next: Offset, hasMore: bool)

  // ---- Projections of the log

  predicate Opens(e: Event, run: Id, phase: Id) {
    e.Opened? && e.run == run && e.phase == phase
  }

  /** The sessions opened for the run and phase, in order, if all are of the approved plan. */
  function Matches(log: Log, c: Context): Result<seq<Identity>, Error> {
    if log == [] then Ok([])
    else
      var last, before := log[|log| - 1], Matches(log[..|log| - 1], c);
      if before.Err? || !Opens(last, c.run, c.phase) then before
      else if last.plan != c.plan || last.version != c.version then Err(PlanMismatch)
      else Ok(before.value + [Identity(last.session, c.run, c.phase)])
  }

  function FindExisting(log: Log, c: Context): Result<Option<Identity>, Error> {
    match Matches(log, c)
    case Err(e) => Err(e)
    case Ok(matches) =>
      if |matches| > 1 then Err(ManySessions) else Ok(if matches == [] then None else Some(matches[0]))
  }

  predicate Joins(e: Event, id: Identity) {
    e.Joined? && e.run == id.run && e.session == id.session
  }

  /** The members of a session, if no attempt joined with two bindings. */
  function Members(log: Log, id: Identity): Result<map<Id, Member>, Error> {
    if log == [] then Ok(map[])
    else
      var last, before := log[|log| - 1], Members(log[..|log| - 1], id);
      if before.Err? || !Joins(last, id) then before
      else if last.member.attempt in before.value && before.value[last.member.attempt] != last.member
        then Err(MemberConflict)
      else Ok(before.value[last.member.attempt := last.member])
  }

  predicate IsEntry(e: Event, id: Identity) {
    (e.Published? || e.Handoff?) && e.run == id.run && e.session == id.session
  }

  predicate Authored(e: Event, members: map<Id, Member>)
    requires e.Published? || e.Handoff?
  {
    e.member.attempt in members && members[e.member.attempt] == e.member
  }

  /** The offsets of the discussion entries after `after`, if members wrote all of them. */
  function Entries(log: Log, id: Identity, members: map<Id, Member>, after: Offset): Result<seq<Offset>, Error> {
    if log == [] then Ok([])
    else
      var last, before := log[|log| - 1], Entries(log[..|log| - 1], id, members, after);
      if before.Err? || |log| <= after || !IsEntry(last, id) then before
      else if !Authored(last, members) then Err(BadFact)
      else Ok(before.value + [|log|])
  }

  /** The first publication of the attempt under the key. */
  function FindKey(log: Log, offsets: seq<Offset>, attempt: Id, key: string): Option<Offset> {
    if offsets == [] then None
    else
      var first := offsets[0];
      if 0 < first <= |log| && log[first - 1].Published? && log[first - 1].member.attempt == attempt
        && log[first - 1].key == key
      then Some(first)
      else FindKey(log, offsets[1..], attempt, key)
  }

  // ---- Operations as functions of the log

  function JoinStep(log: Log, c: Context): (Log, Result<Offset, Error>) {
    match FindExisting(log, c)
    case Err(e) => (log, Err(e))
    case Ok(found) =>
      var draft := if found.Some? then log else log + [Opened(|log| + 1, c.run, c.phase, c.plan, c.version)];
      var id := if found.Some? then found.value else Identity(|log| + 1, c.run, c.phase);
      match Members(draft, id)
      case Err(e) => (log, Err(e))
      case Ok(members) =>
        if c.member.attempt !in members then (draft + [Joined(id.session, c.run, c.member)], Ok(id.session))
        else if members[c.member.attempt] != c.member then (log, Err(MemberConflict))
        else (draft, Ok(id.session))
  }

  /** The open session of the context and its members, when the attempt is one of them. */
  function Admit(log: Log, c: Context): Result<(Identity, map<Id, Member>), Error> {
    match FindExisting(log, c)
    case Err(e) => Err(e)
    case Ok(None) => Err(NotOpen)
    case Ok(Some(id)) =>
      match Members(log, id)
      case Err(e) => Err(e)
      case Ok(members) =>
        if c.member.attempt !in members then Err(NotMember)
        else if members[c.member.attempt] != c.member then Err(MemberConflict)
        else Ok((id, members))
  }

  function PublishStep(log: Log, c: Context, key: string, content: string): (Log, Result<Offset, Error>) {
    match Admit(log, c)
    case Err(e) => (log, Err(e))
    case Ok((id, members)) =>
      match Entries(log, id, members, 0)
      case Err(e) => (log, Err(e))
      case Ok(offsets) =>
        match FindKey(log, offsets, c.member.attempt, key)
        case None => (log + [Published(id.session, c.run, c.member, key, content)], Ok(|log| + 1))
        case Some(at) =>
          if 0 < at <= |log| && log[at - 1].Published? && log[at - 1].content == content then (log, Ok(at))
            else (log, Err(KeyReused))
  }

  function ReadStep(log: Log, c: Context, after: Offset, limit: nat): Result<Page, Error> {
    match Admit(log, c)
    case Err(e) => Err(e)
    case Ok((id, members)) =>
      match Entries(log, id, members, after)
      case Err(e) => Err(e)
      case Ok(offsets) =>
        var page := if |offsets| > limit then offsets[..limit] else offsets;
        Ok(Page(id.session, page, if page == [] then after else page[|page| - 1], |offsets| > limit))
  }

  // ---- The service

  class Sessions {
    var log: Log

    constructor ()
      ensures log == []
    {
      log := [];
    }

    method FindOpened(c: Context) returns (r: Result<Option<Identity>, Error>)
      ensures r == FindExisting(log, c)
    {
      var matches: seq<Identity> := [];
      for i := 0 to |log|
        invariant Matches(log[..i], c) == Ok(matches)
      {
        assert log[..i + 1][..i] == log[..i];
        if Opens(log[i], c.run, c.phase) {
          if log[i].plan != c.plan || log[i].version != c.version {
            ErrorStays(log, i + 1, c);
            return Err(PlanMismatch);
          }
          matches := matches + [Identity(log[i].session, c.run, c.phase)];
        }
      }
      assert log[..|log|] == log;
      if |matches| > 1 {
        return Err(ManySessions);
      }
      r := Ok(if matches == [] then None else Some(matches[0]));
    }

    method CollectMembers(log: Log, id: Identity) returns (r: Result<map<Id, Member>, Error>)
      ensures r == Members(log, id)
    {
      var members: map<Id, Member> := map[];
      for i := 0 to |log|
        invariant Members(log[..i], id) == Ok(members)
      {
        assert log[..i + 1][..i] == log[..i];
        if Joins(log[i], id) {
          var m := log[i].member;
          if m.attempt in members && members[m.attempt] != m {
            MemberErrorStays(log, i + 1, id);
            return Err(MemberConflict);
          }
          members := members[m.attempt := m];
        }
      }
      assert log[..|log|] == log;
      r := Ok(members);
    }

    method CollectEntries(id: Identity, members: map<Id, Member>, after: Offset) returns (r: Result<seq<Offset>, Error>)
      ensures r == Entries(log, id, members, after)
    {
      var entries: seq<Offset> := [];
      for i := 0 to |log|
        invariant Entries(log[..i], id, members, after) == Ok(entries)
      {
        assert log[..i + 1][..i] == log[..i];
        if i + 1 > after && IsEntry(log[i], id) {
          if !Authored(log[i], members) {
            EntryErrorStays(log, i + 1, id, members, after);
            return Err(BadFact);
          }
          entries := entries + [i + 1];
        }
      }
      assert log[..|log|] == log;
      r := Ok(entries);
    }

    method Admitted(c: Context) returns (r: Result<(Identity, map<Id, Member>), Error>)
      ensures r == Admit(log, c)
    {
      var found := FindOpened(c);
      if found.Err? {
        return Err(found.error);
      }
      if found.value.None? {
        return Err(NotOpen);
      }
      var members := CollectMembers(log, found.value.value);
      if members.Err? {
        return Err(members.error);
      }
      if c.member.attempt !in members.value {
        return Err(NotMember);
      }
      if members.value[c.member.attempt] != c.member {
        return Err(MemberConflict);
      }
      r := Ok((found.value.value, members.value));
    }

    /** Opens the session if needed and joins it once; nothing is kept when it is refused. */
    method Join(c: Context) returns (r: Result<Offset, Error>)
      modifies this
      ensures (log, r) == JoinStep(old(log), c)
    {
      var found := FindOpened(c);
      if found.Err? {
        return Err(found.error);
      }
      var draft := log;
      var id;
      if found.value.Some? {
        id := found.value.value;
      } else {
        id := Identity(|log| + 1, c.run, c.phase);
        draft := draft + [Opened(|log| + 1, c.run, c.phase, c.plan, c.version)];
      }
      var members := CollectMembers(draft, id);
      if members.Err? {
        return Err(members.error);
      }
      if c.member.attempt in members.value {
        if members.value[c.member.attempt] != c.member {
          return Err(MemberConflict);
        }
        log := draft;
        return Ok(id.session);
      }
      log := draft + [Joined(id.session, c.run, c.member)];
      r := Ok(id.session);
    }

    method Publish(c: Context, key: string, content: string) returns (r: Result<Offset, Error>)
      modifies this
      ensures (log, r) == PublishStep(old(log), c, key, content)
    {
      var admitted := Admitted(c);
      if admitted.Err? {
        return Err(admitted.error);
      }
      var (id, members) := admitted.value;
      var offsets := CollectEntries(id, members, 0);
      if offsets.Err? {
        return Err(offsets.error);
      }
      var existing := FindKey(log, offsets.value, c.member.attempt, key);
      if existing.Some? {
        var at := existing.value;
        if 0 < at <= |log| && log[at - 1].Published? && log[at - 1].content == content {
          return Ok(at);
        }
        return Err(KeyReused);
      }
      log := log + [Published(id.session, c.run, c.member, key, content)];
      r := Ok(|log|);
    }

    method Read(c: Context, after: Offset, limit: nat) returns (r: Result<Page, Error>)
      ensures r == ReadStep(log, c, after, limit)
    {
      var admitted := Admitted(c);
      if admitted.Err? {
        return Err(admitted.error);
      }
      var (id, members) := admitted.value;
      var offsets := CollectEntries(id, members, after);
      if offsets.Err? {
        return Err(offsets.error);
      }
      var page := if |offsets.value| > limit then offsets.value[..limit] else offsets.value;
      r := Ok(Page(id.session, page, if page == [] then after else page[|page| - 1], |offsets.value| > limit));
    }
  }

  lemma {:induction false} ErrorStays(log: Log, i: nat, c: Context)
    requires i <= |log| && Matches(log[..i], c).Err?
    ensures Matches(log, c) == Matches(log[..i], c)
    decreases |log|
  {
    if i < |log| {
      assert log[..|log| - 1][..i] == log[..i];
      ErrorStays(log[..|log| - 1], i, c);
    } else {
      assert log[..i] == log;
    }
  }

  lemma {:induction false} MemberErrorStays(log: Log, i: nat, id: Identity)
    requires i <= |log| && Members(log[..i], id).Err?
    ensures Members(log, id) == Members(log[..i], id)
    decreases |log|
  {
    if i < |log| {
      assert log[..|log| - 1][..i] == log[..i];
      MemberErrorStays(log[..|log| - 1], i, id);
    } else {
      assert log[..i] == log;
    }
  }

  lemma {:induction false} EntryErrorStays(log: Log, i: nat, id: Identity, members: map<Id, Member>, after: Offset)
    requires i <= |log| && Entries(log[..i], id, members, after).Err?
    ensures Entries(log, id, members, after) == Entries(log[..i], id, members, after)
    decreases |log|
  {
    if i < |log| {
      assert log[..|log| - 1][..i] == log[..i];
      EntryErrorStays(log[..|log| - 1], i, id, members, after);
    } else {
      assert log[..i] == log;
    }
  }
}

/** Admission of planning operations: nested and copied contexts share a lease, and one slot is
    occupied for every lease with references. Leases are indices into a table of references. */
module PlannerCapacity {
  import opened Values

  type LeaseId = nat

  datatype State = State(capacity: nat, inUse: nat, references: seq<nat>)

  /** Leases that are referenced. */
  function Live(references: seq<nat>): set<LeaseId> {
    set l | 0 <= l < |references| && references[l] > 0
  }

  predicate IsLive(s: State, lease: Option<LeaseId>) {
    lease.Some? && lease.value < |s.references| && s.references[lease.value] > 0
  }

  /** Enters a slot from a context whose lease variable is `inherited`: a live lease is shared, and
      otherwise a new one takes a slot. None when the capacity is exceeded. */
  function Enter(s: State, inherited: Option<LeaseId>): (State, Option<LeaseId>) {
    if IsLive(s, inherited) then
      (s.(references := s.references[inherited.value := s.references[inherited.value] + 1]), inherited)
    else if s.inUse >= s.capacity then (s, None)
    else (s.(inUse := s.inUse + 1, references := s.references + [1]), Some(|s.references|))
  }

  /** Leaves a slot held through `lease`. */
  function Leave(s: State, lease: LeaseId): State
    requires IsLive(s, Some(lease)) && s.inUse > 0
  {
    var left := s.references[lease] - 1;
    s.(references := s.references[lease := left], inUse := if left == 0 then s.inUse - 1 else s.inUse)
  }

  // ---- The class

  class Planner {
    const capacity: nat
    var inUse: nat
    var references: seq<nat>

    constructor (capacity: nat)
      requires capacity >= 1
      ensures Current() == State(capacity, 0, [])
    {
      this.capacity := capacity;
      inUse, references := 0, [];
    }

    function Current(): State
      reads this
    {
      State(capacity, inUse, references)
    }

    method Acquire(inherited: Option<LeaseId>) returns (lease: Option<LeaseId>)
      modifies this
      ensures (Current(), lease) == Enter(old(Current()), inherited)
    {
      if inherited.Some? && inherited.value < |references| && references[inherited.value] > 0 {
        references := references[inherited.value := references[inherited.value] + 1];
        lease := inherited;
      } else if inUse >= capacity {
        lease := None;
      } else {
        inUse := inUse + 1;
        lease := Some(|references|);
        references := references + [1];
      }
    }

    method Release(lease: LeaseId)
      requires IsLive(Current(), Some(lease)) && inUse > 0
      modifies this
      ensures Current() == Leave(old(Current()), lease)
    {
      references := references[lease := references[lease] - 1];
      if references[lease] == 0 {
        inUse := inUse - 1;
      }
    }

    method Snapshot() returns (used: nat, available: int)
      ensures used == inUse && used + available == capacity
    {
      used, available := inUse, capacity - inUse;
    }
  }

  // ---- Every interleaving of operations

  /** The open slots, each with the lease it holds; a context may enter with any lease it ever saw. */
  datatype World = World(state: State, slots: seq<LeaseId>)

  datatype Event = Open(inherited: Option<LeaseId>) | Close(slot: nat)

  function Count(slots: seq<LeaseId>, lease: LeaseId): nat {
    multiset(slots)[lease]
  }

  function Sum(references: seq<nat>): nat {
    if references == [] then 0 else Sum(references[..|references| - 1]) + references[|references| - 1]
  }

  ghost predicate HeldBy(references: seq<nat>, slots: seq<LeaseId>, l: LeaseId)
    requires l < |references|
  {
    references[l] == Count(slots, l)
  }

  /** The counter equals the number of leases with references, stays within the capacity, and the
      references of a lease are the open slots that hold it. */
  ghost predicate Counted(w: World) {
    && w.state.inUse == |Live(w.state.references)| && w.state.inUse <= w.state.capacity
    && (forall l :: l in w.slots ==> l < |w.state.references|)
    && (forall l :: 0 <= l < |w.state.references| ==> HeldBy(w.state.references, w.slots, l))
    && Sum(w.state.references) == |w.slots|
  }

  function Without(slots: seq<LeaseId>, i: nat): seq<LeaseId>
    requires i < |slots|
  {
    slots[..i] + slots[i + 1..]
  }

  ghost predicate MayClose(w: World, i: nat) {
    i < |w.slots| && IsLive(w.state, Some(w.slots[i])) && w.state.inUse > 0
  }

  ghost function Next(w: World, e: Event): World {
    match e
    case Open(inherited) =>
      var (state, lease) := Enter(w.state, inherited);
      World(state, if lease.Some? then w.slots + [lease.value] else w.slots)
    case Close(i) => if MayClose(w, i) then World(Leave(w.state, w.slots[i]), Without(w.slots, i)) else w
  }

  lemma {:induction false} SumAt(references: seq<nat>, l: nat, v: nat)
    requires l < |references|
    ensures Sum(references[l := v]) == Sum(references) - references[l] + v
    decreases |references|
  {
    var front, last := references[..|references| - 1], |references| - 1;
    if l < last {
      SumAt(front, l, v);
      assert references[l := v][..last] == front[l := v];
    } else {
      assert references[l := v][..last] == front;
    }
  }

  lemma WithoutCount(slots: seq<LeaseId>, i: nat)
    requires i < |slots|
    ensures multiset(slots) == multiset(Without(slots, i)) + multiset{slots[i]}
    ensures forall l :: l in Without(slots, i) ==> l in slots
  {
    assert slots == slots[..i] + [slots[i]] + slots[i + 1..];
  }

  lemma OpenKeeps(w: World, inherited: Option<LeaseId>)
    requires Counted(w)
    ensures Counted(Next(w, Open(inherited)))
  {
    var references := w.state.references;
    if IsLive(w.state, inherited) {
      var l := inherited.value;
      var more := references[l := references[l] + 1];
      SumAt(references, l, references[l] + 1);
      assert Live(more) == Live(references);
      forall k | 0 <= k < |more| ensures HeldBy(more, w.slots + [l], k) {
        assert HeldBy(references, w.slots, k);
      }
    } else if w.state.inUse < w.state.capacity {
      assert (references + [1])[..|references|] == references;
      assert Live(references + [1]) == Live(references) + {|references|};
      assert |references| !in w.slots;
      forall k | 0 <= k <= |references| ensures HeldBy(references + [1], w.slots + [|references|], k) {
        assert k < |references| ==> HeldBy(references, w.slots, k);
      }
    }
  }

  lemma LeaveCounts(references: seq<nat>, slots: seq<LeaseId>, i: nat)
    requires i < |slots| && slots[i] < |references| && references[slots[i]] > 0
    requires forall l :: 0 <= l < |references| ==> HeldBy(references, slots, l)
    ensures var left := references[slots[i] := references[slots[i]] - 1];
            && (forall l :: 0 <= l < |left| ==> HeldBy(left, Without(slots, i), l))
            && Sum(left) == Sum(references) - 1
            && |Live(left)| == |Live(references)| - if references[slots[i]] == 1 then 1 else 0
  {
    var l := slots[i];
    var left := references[l := references[l] - 1];
    SumAt(references, l, references[l] - 1);
    WithoutCount(slots, i);
    forall k | 0 <= k < |left| ensures HeldBy(left, Without(slots, i), k) {
      assert HeldBy(references, slots, k);
    }
    if references[l] == 1 {
      assert Live(left) == Live(references) - {l};
    } else {
      assert Live(left) == Live(references);
    }
  }

  lemma CloseKeeps(w: World, i: nat)
    requires Counted(w)
    ensures Counted(Next(w, Close(i)))
  {
    if MayClose(w, i) {
      LeaveCounts(w.state.references, w.slots, i);
      WithoutCount(w.slots, i);
    }
  }

  /** A closing slot can always be left: its lease is live and the counter is positive. */
  lemma OpenSlotIsLive(w: World, i: nat)
    requires Counted(w) && i < |w.slots|
    ensures MayClose(w, i)
  {
    var l := w.slots[i];
    assert l in w.slots && HeldBy(w.state.references, w.slots, l);
    assert l in Live(w.state.references);
  }

  /** When every slot was left, nothing is in use. */
  lemma DrainedIsFree(w: World)
    requires Counted(w) && w.slots == []
    ensures w.state.inUse == 0
  {
    forall l | 0 <= l < |w.state.references| ensures w.state.references[l] == 0 {
      assert HeldBy(w.state.references, w.slots, l);
    }
    assert Live(w.state.references) == {};
  }

  ghost function After(capacity: nat, events: seq<Event>): World {
    if events == [] then World(State(capacity, 0, []), [])
    else Next(After(capacity, events[..|events| - 1]), events[|events| - 1])
  }

  /** Under any interleaving the counters are right. */
  lemma {:induction false} AlwaysCounted(capacity: nat, events: seq<Event>)
    ensures Counted(After(capacity, events)) && After(capacity, events).state.capacity == capacity
    decreases |events|
  {
    if events == [] {
      assert Live([]) == {};
    } else {
      var before, e := After(capacity, events[..|events| - 1]), events[|events| - 1];
      AlwaysCounted(capacity, events[..|events| - 1]);
      if e.Open? {
        OpenKeeps(before, e.inherited);
      } else {
        CloseKeeps(before, e.slot);
      }
    }
  }

  predicate Expired(s: State, l: LeaseId) {
    l < |s.references| && s.references[l] == 0
  }

  lemma StepKeepsExpired(w: World, e: Event, l: LeaseId)
    requires Expired(w.state, l)
    ensures Expired(Next(w, e).state, l)
  {
  }

  /** A lease that reached zero never becomes live again, whatever contexts still hold it. */
  lemma {:induction false} ExpiredStaysExpired(capacity: nat, events: seq<Event>, i: nat, l: LeaseId)
    requires i <= |events| && Expired(After(capacity, events[..i]).state, l)
    ensures Expired(After(capacity, events).state, l)
    decreases |events|
  {
    if i == |events| {
      assert events[..i] == events;
    } else {
      var front := events[..|events| - 1];
      assert front[..i] == events[..i];
      ExpiredStaysExpired(capacity, front, i, l);
      StepKeepsExpired(After(capacity, front), events[|events| - 1], l);
    }
  }

  // ---- Who is admitted

  /** The leases that open slots hold. */
  function Held(slots: seq<LeaseId>): set<LeaseId> {
    set l | l in slots
  }

  lemma LiveIsHeld(w: World)
    requires Counted(w)
    ensures Live(w.state.references) == Held(w.slots) && w.state.inUse == |Held(w.slots)|
  {
    forall l: nat ensures l in Live(w.state.references) <==> l in Held(w.slots) {
      if l < |w.state.references| {
        assert HeldBy(w.state.references, w.slots, l);
      }
    }
    assert Live(w.state.references) == Held(w.slots);
  }

  /** A context whose lease an open slot holds shares it and takes up nothing; any other gets a lease of its own,
      which no slot has held, exactly while fewer leases are held than the capacity allows. */
  lemma AdmittedExactly(w: World, inherited: Option<LeaseId>)
    requires Counted(w)
    ensures var next := Next(w, Open(inherited));
            if inherited.Some? && inherited.value in w.slots then
              next.slots == w.slots + [inherited.value] && next.state.inUse == w.state.inUse
            else if |Held(w.slots)| < w.state.capacity then
              && next.slots == w.slots + [|w.state.references|] && next.state.inUse == w.state.inUse + 1
              && |w.state.references| !in w.slots
            else next == w
  {
    LiveIsHeld(w);
    if inherited.Some? {
      assert IsLive(w.state, inherited) <==> inherited.value in Live(w.state.references);
    }
  }

  /** A closed slot gives back one reference, and the capacity with the last one. */
  lemma ClosedExactly(w: World, i: nat)
    requires Counted(w) && i < |w.slots|
    ensures var next := Next(w, Close(i));
            && next.slots == w.slots[..i] + w.slots[i + 1..]
            && next.state.inUse == w.state.inUse - if w.slots[i] in next.slots then 0 else 1
  {
    OpenSlotIsLive(w, i);
    CloseKeeps(w, i);
    LiveIsHeld(w);
    LiveIsHeld(Next(w, Close(i)));
    var left := Without(w.slots, i);
    WithoutCount(w.slots, i);
    assert w.slots[i] in w.slots;
    forall l ensures l in Held(w.slots) <==> l in Held(left) || l == w.slots[i] {
      assert l in multiset(w.slots) <==> l in multiset(left) || l == w.slots[i];
    }
    assert Held(w.slots) == Held(left) + {w.slots[i]};
  }
}

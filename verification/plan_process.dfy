/** Plans of a running process: the Gates they are seeded with, the choice of the final Gate, and what
    becomes of those Gates up to the accepted plan. */
module PlanProcess {
  import opened Values
  import opened Graphs
  import opened PlanDraft
  import opened PlanIntegrity
  import opened PlanOrder
  import opened PlanChecks
  import opened PlanPhases
  import opened PlanValidation
  import opened PlanTheorems
  import opened PlanTemplate

  // ---- Retained gates of a process

  datatype SeedError = NoFrozenChecks | UnknownOwner | OwnerTwice | NotOneTerminal | FinalGateElsewhere

  /** A Gate binding can be kept: its owner had Checks in the source graph and still exists. */
  predicate Keepable(sources: map<Key, seq<string>>, current: set<Key>, owner: Key) {
    owner in sources && sources[owner] != [] && owner in current
  }

  /** Every Gate can be kept, and no two share an owner. */
  ghost predicate GatesKeepable(gateOwners: map<string, Key>, sources: map<Key, seq<string>>, current: set<Key>) {
    && (forall g :: g in gateOwners ==> Keepable(sources, current, gateOwners[g]))
    && forall a, b :: a in gateOwners && b in gateOwners && gateOwners[a] == gateOwners[b] ==> a == b
  }

  /** The Gate bindings and Check groups of a process, or the reason the seed is refused. */
  method SeedGates(gateOwners: map<string, Key>, sources: map<Key, seq<string>>, current: set<Key>)
    returns (r: Result<map<Key, seq<string>>, SeedError>)
    ensures r.Ok? <==> GatesKeepable(gateOwners, sources, current)
    ensures r.Ok? ==> Bindings(r.value, gateOwners)
    ensures r.Ok? ==> forall g :: g in gateOwners ==> r.value[gateOwners[g]] == sources[gateOwners[g]]
  {
    var checks: map<Key, seq<string>>, left := map[], gateOwners.Keys;
    while left != {}
      invariant left <= gateOwners.Keys
      invariant forall k :: k in checks <==> exists g :: g in gateOwners && g !in left && gateOwners[g] == k
      invariant forall g :: g in gateOwners && g !in left ==>
                  Keepable(sources, current, gateOwners[g]) && checks[gateOwners[g]] == sources[gateOwners[g]]
      invariant forall a, b ::
                  a in gateOwners && b in gateOwners && a !in left && b !in left
                  && gateOwners[a] == gateOwners[b]
                  ==> a == b
      decreases left
    {
      var g :| g in left;
      var owner := gateOwners[g];
      if owner !in sources || sources[owner] == [] {
        return Err(NoFrozenChecks);
      }
      if owner !in current {
        return Err(UnknownOwner);
      }
      if owner in checks {
        return Err(OwnerTwice);
      }
      checks, left := checks[owner := sources[owner]], left - {g};
    }
    BindingsSeeded(checks, gateOwners);
    r := Ok(checks);
  }

  lemma BindingsSeeded(checks: map<Key, seq<string>>, owners: map<string, Key>)
    requires forall k :: k in checks <==> exists g :: g in owners && owners[g] == k
    requires forall a, b :: a in owners && b in owners && owners[a] == owners[b] ==> a == b
    ensures Bindings(checks, owners)
  {
    forall k | k in checks ensures exists g :: Owns(owners, g, k) {
      var g :| g in owners && owners[g] == k;
      assert Owns(owners, g, k);
    }
  }

  // ---- Seeding a draft

  /** The gate owns the only terminal node of the graph. */
  ghost predicate EndsAtGate(graph: Draft, gateOwners: map<string, Key>, gate: string) {
    gate in gateOwners && OnlySink(graph, gateOwners[gate])
  }

  /** The configuration and draft of a process plan: the graph, the Gates with their frozen Check
      groups, and as the final Gate the one that owns the terminal node. */
  ghost predicate Seeds(c: Config, graph: Draft, gateOwners: map<string, Key>,
                           sources: map<Key, seq<string>>, seeded: Config, seed: Draft)
  {
    && seeded == c.(processMode := true, requireFinalGate := true, finalGateId := seeded.finalGateId)
    && seed == graph.(gates := EmptyDict(), finalArgv := [], finalQuestion := None, checks := seed.checks,
                      owners := gateOwners)
    && Bindings(seed.checks, gateOwners)
    && (forall g :: g in gateOwners ==> gateOwners[g] in sources
                                        && seed.checks[gateOwners[g]] == sources[gateOwners[g]])
    && seeded.finalGateId.Some? && EndsAtGate(graph, gateOwners, seeded.finalGateId.value)
  }

  /** Refused exactly when a Gate cannot be kept or none of them owns the one terminal node. */
  method SeedProcess(c: Config, graph: Draft, gateOwners: map<string, Key>, sources: map<Key, seq<string>>)
    returns (r: Result<(Config, Draft), SeedError>)
    requires Tables(graph)
    ensures r.Ok? <==>
            && GatesKeepable(gateOwners, sources, graph.nodes.values.Keys)
            && exists g :: EndsAtGate(graph, gateOwners, g)
    ensures r.Ok? ==> GatesKeepable(gateOwners, sources, graph.nodes.values.Keys)
                      && Seeds(c, graph, gateOwners, sources, r.value.0, r.value.1)
  {
    var checks := SeedGates(gateOwners, sources, graph.nodes.values.Keys);
    if checks.Err? {
      return Err(checks.error);
    }
    var sinks := Terminals(graph);
    OneSink(graph, sinks);
    if |sinks| != 1 {
      return Err(NotOneTerminal);
    }
    assert IsSink(graph, sinks[0]);
    var finals := set g | g in gateOwners && gateOwners[g] == sinks[0];
    if finals == {} {
      assert forall g :: EndsAtGate(graph, gateOwners, g) ==> g in finals;
      return Err(FinalGateElsewhere);
    }
    var final := TheGate(gateOwners, finals, sinks[0]);
    assert EndsAtGate(graph, gateOwners, final);
    var seeded := c.(processMode := true, requireFinalGate := true, finalGateId := Some(final));
    r := Ok((seeded, graph.(gates := EmptyDict(), finalArgv := [], finalQuestion := None,
                            checks := checks.value, owners := gateOwners)));
  }

  /** No two Gates share an owner, so there is one Gate to take. */
  function TheGate(gateOwners: map<string, Key>, finals: set<string>, owner: Key): (g: string)
    requires finals != {} && forall g :: g in finals <==> g in gateOwners && gateOwners[g] == owner
    requires forall a, b :: a in gateOwners && b in gateOwners && gateOwners[a] == gateOwners[b] ==> a == b
    ensures finals == {g}
  {
    var g :| g in finals;
    assert forall h :: h in finals ==> h == g;
    g
  }

  /** A seed on a sound graph is sound, when its Gates are on nodes that can own one. */
  lemma SeedIsSound(c: Config, plain: Config, graph: Draft, gateOwners: map<string, Key>,
                    sources: map<Key, seq<string>>, seeded: Config, seed: Draft)
    requires Sound(plain, graph) && Seeds(c, graph, gateOwners, sources, seeded, seed)
    requires GatesKeepable(gateOwners, sources, graph.nodes.values.Keys)
    requires forall g :: g in gateOwners ==> OwnerSound(graph.nodes.values, gateOwners[g], sources[gateOwners[g]])
    ensures Sound(seeded, seed)
  {
    forall k | k in seed.checks ensures OwnerSound(seed.nodes.values, k, seed.checks[k]) {
      var g :| Owns(gateOwners, g, k);
    }
  }

  // ---- From the seed to the accepted plan

  /** Every Gate of the process has one owner of its own, a node of the plan that can own one, with
      the Check group of its original owner. */
  ghost predicate GatesKept(gateOwners: map<string, Key>, sources: map<Key, seq<string>>, d: Draft) {
    && d.owners.Keys == gateOwners.Keys
    && (forall a, b :: a in d.owners && b in d.owners && d.owners[a] == d.owners[b] ==> a == b)
    && forall g :: g in gateOwners ==> KeptAt(gateOwners, sources, d, g)
  }

  ghost predicate KeptAt(gateOwners: map<string, Key>, sources: map<Key, seq<string>>, d: Draft, g: string)
    requires g in gateOwners
  {
    && gateOwners[g] in sources && GroupOf(d, g) == Some(sources[gateOwners[g]])
    && d.owners[g] in d.nodes.values && CanOwnGate(d.nodes.values[d.owners[g]].kind)
  }

  lemma GatesAreKept(c: Config, graph: Draft, gateOwners: map<string, Key>,
                     sources: map<Key, seq<string>>, seeded: Config, seed: Draft, tools: seq<Tool>)
    requires Seeds(c, graph, gateOwners, sources, seeded, seed) && Sound(seeded, seed)
    requires GatesKeepable(gateOwners, sources, graph.nodes.values.Keys)
    ensures GatesKept(gateOwners, sources, After(seeded, seed, tools))
  {
    var d := After(seeded, seed, tools);
    AlwaysSound(seeded, seed, tools);
    GatesConserved(seeded, seed, tools);
    OwnersOnce(d.checks, d.owners);
    forall g | g in gateOwners ensures KeptAt(gateOwners, sources, d, g) {
      assert GroupOf(seed, g) == Some(sources[gateOwners[g]]);
      assert OwnerSound(d.nodes.values, d.owners[g], d.checks[d.owners[g]]);
    }
  }

  /** The Gate is on the reviewer of the last phase. */
  ghost predicate OnLastReviewer(d: Draft, gate: string) {
    && gate in d.owners && |d.phases.order| > 0
    && var last := d.phases.order[|d.phases.order| - 1];
    last in d.phases.values && d.owners[gate] == d.phases.values[last].reviewer == d.phases.values[last].gate
  }

  lemma FinalGateIsLast(c: Config, d: Draft, gate: string)
    requires Finished(c, d) && c.processMode && c.finalGateId == Some(gate)
    ensures OnLastReviewer(d, gate) && OnlySink(d, d.owners[gate])
  {
    var t := FinishedSink(c, d);
    NoFault(c, d, FinalGateMoved(t));
    assert !SinkFault(c, d, FinalGateMoved(t));
    FinishedIsPhasePlan(c, d);
    SinkIsLastGate(d, t);
    GateInPhase(d, |d.phases.order| - 1);
    var last := d.phases.order[|d.phases.order| - 1];
    assert PhaseSound(d.nodes.values.Keys, last, d.phases.values[last]);
  }

  /** Whatever tool calls were made on the seed, an accepted plan has the original final Gate, with its
      original Check group, on the reviewer of its last phase, where the template ends as well, and
      every original Gate on one owner of its own. */
  lemma AcceptedKeepsGates(c: Config, graph: Draft, gateOwners: map<string, Key>,
                           sources: map<Key, seq<string>>, seeded: Config, seed: Draft, tools: seq<Tool>)
    requires Seeds(c, graph, gateOwners, sources, seeded, seed) && Sound(seeded, seed)
    requires GatesKeepable(gateOwners, sources, graph.nodes.values.Keys)
    requires Finished(seeded, After(seeded, seed, tools))
    ensures GatesKept(gateOwners, sources, After(seeded, seed, tools))
    ensures OnLastReviewer(After(seeded, seed, tools), seeded.finalGateId.value)
  {
    GatesAreKept(c, graph, gateOwners, sources, seeded, seed, tools);
    FinalGateIsLast(seeded, After(seeded, seed, tools), seeded.finalGateId.value);
  }

  /** The template of the plan binds the final Gate to its final node. */
  lemma TemplateKeepsFinalGate(c: Config, d: Draft, t: Template, gate: string)
    requires Finished(c, d) && c.processMode && c.finalGateId == Some(gate)
    requires Composes(c, d, t) && IsSink(d, t.final)
    ensures gate in t.owners && t.owners[gate] == t.final && t.final in t.checks
    ensures GroupOf(d, gate) == Some(t.checks[t.final])
  {
    FinalGateIsLast(c, d, gate);
  }
}

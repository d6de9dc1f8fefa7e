/** Concrete runs that reach the states crates/rieko-cli/src/agent.rs mishandles:
    a worker finding that outlives its absence, and a recommendation lost to a
    finding that returns. */
module LifecycleRuns {
  import opened Wrappers
  import opened Domain
  import opened Findings
  import opened Detectors
  import opened StoreModel
  import opened FindingCycles
  import opened WebhookWorker
  import opened FindingLifecycle
  import opened SettlementFindings

  // ---- The worker's own finding ----

  const EXPIRED: NodeEvent := InvoiceExpired(Invoice("i", None, 0))
  const SETTLED: NodeEvent := InvoiceSettled(Invoice("j", None, 0))

  // Two expiries fire; four settlements after them bring the rate below two fifths.
  const FIRING: seq<NodeEvent> := [EXPIRED, EXPIRED]
  const CALM: seq<NodeEvent> := [EXPIRED, EXPIRED, SETTLED, SETTLED, SETTLED, SETTLED]

  function WorkerFindingId(network: BitcoinNetwork, node: NodeId): FindingId {
    FindingId(DETECTOR_ID, DETECTOR_VERSION, Some(network), Some(node), None)
  }

  lemma GatherTwice<T>(f: NodeEvent -> seq<T>, e: NodeEvent)
    ensures |Gather(f, [e, e])| == 2 * |f(e)|
  {
    assert [e, e][..1] == [e] && [e][..0] == [];
    assert Gather(f, [e]) == f(e);
  }

  lemma CountsOf(f: NodeEvent -> seq<NodeEvent>)
    ensures |Gather(f, FIRING)| == 2 * |f(EXPIRED)|
    ensures |Gather(f, CALM)| == 2 * |f(EXPIRED)| + 4 * |f(SETTLED)|
  {
    GatherTwice(f, EXPIRED);
    GatherTwice(f, SETTLED);
    GatherConcat(f, FIRING, [SETTLED, SETTLED]);
    GatherConcat(f, FIRING + [SETTLED, SETTLED], [SETTLED, SETTLED]);
    assert CALM == FIRING + [SETTLED, SETTLED] + [SETTLED, SETTLED];
  }

  lemma WindowTallies()
    ensures TallyOf(FIRING).expired == 2 && TallyOf(FIRING).settled == 0
    ensures TallyOf(CALM).expired == 2 && TallyOf(CALM).settled == 4
  {
    CountsOf(FAILURES);
    CountsOf(SETTLEMENTS);
  }

  // What the two windows make the worker find over its empty graph.
  lemma WorkerFindsExpiries(network: BitcoinNetwork, node: NodeId, now: int)
    ensures var cycle := WorkerCycle(network, node, [], FIRING, now);
            |cycle.findings| == 1 && cycle.findings[0].id == WorkerFindingId(network, node)
    ensures WorkerCycle(network, node, [], CALM, now).findings == []
  {
    WindowTallies();
    assert 2.0 >= 0.4 * 2.0 && !(2.0 >= 0.4 * 6.0);
  }

  // Whatever the worker finds is of its own node and network, of that moment, and without provenance.
  lemma WorkerFindingsAre(network: BitcoinNetwork, node: NodeId, window: seq<NodeEvent>, now: int)
    ensures forall f | f in WorkerCycle(network, node, [], window, now).findings ::
              && f.id.network == Some(network) && f.id.node == f.node == Some(node)
              && f.timestamp == f.firstSeenAt == f.lastSeenAt == now && f.provenance == None
  {
    if WorkerCycle(network, node, [], window, now).findings != [] {
      ProvenanceOfFinding([], WorkerDetector(node), WorkerContext(network, node, window, now));
    }
  }

  lemma {:induction false} KnownStays(s: Store, cycles: seq<DetectorCycle>, id: FindingId)
    requires UniqueIds(s.tables.findings) && cycles != []
    requires Known(RunCycles(s, cycles[..1]).tables.findings, id).Some?
    ensures UniqueIds(RunCycles(s, cycles).tables.findings)
    ensures Known(RunCycles(s, cycles).tables.findings, id).Some?
  {
    var n := |cycles| - 1;
    UniqueOverRuns(s, cycles);
    if n == 0 {
      assert cycles[..1] == cycles;
    } else {
      var mid := RunCycles(s, cycles[..n]);
      assert cycles[..n][..1] == cycles[..1];
      KnownStays(s, cycles[..n], id);
      ResolvingPointwise(mid.tables.findings, mid.absent, cycles[n].scope, id);
      SavesPointwise(Synced(StoreModel.Resolved(mid, cycles[n].scope)), cycles[n].findings, id);
    }
  }

  lemma {:induction false} UniqueOverRuns(s: Store, cycles: seq<DetectorCycle>)
    requires UniqueIds(s.tables.findings)
    ensures UniqueIds(RunCycles(s, cycles).tables.findings)
  {
    if cycles != [] {
      var n := |cycles| - 1;
      var mid := RunCycles(s, cycles[..n]);
      UniqueOverRuns(s, cycles[..n]);
      ResolvingKeepsIds(mid.tables.findings, mid.absent, cycles[n].scope);
      UniqueAfterSaves(Synced(StoreModel.Resolved(mid, cycles[n].scope)), cycles[n].findings);
    }
  }

  lemma WorkerRaisesAFinding(network: BitcoinNetwork, node: NodeId, now: int)
    ensures var cycle := WorkerCycle(network, node, [], FIRING, now);
            Known(RunCycles(EMPTY_STORE, [cycle]).tables.findings, WorkerFindingId(network, node)).Some?
  {
    var cycle := WorkerCycle(network, node, [], FIRING, now);
    var id := WorkerFindingId(network, node);
    WorkerFindsExpiries(network, node, now);
    assert [cycle][..0] == [];
    var resolved := Synced(StoreModel.Resolved(EMPTY_STORE, cycle.scope));
    assert cycle.findings[0] in cycle.findings;
    SavesPointwise(resolved, cycle.findings, id);
  }

  ghost function WorkerCycles(network: BitcoinNetwork, node: NodeId, windows: seq<seq<NodeEvent>>, times: seq<int>)
    : (cycles: seq<DetectorCycle>)
    requires |times| == |windows|
  {
    seq(|windows|, i requires 0 <= i < |windows| => WorkerCycle(network, node, [], windows[i], times[i]))
  }

  /** A finding that the worker once raised stays known and active, however many
      cycles, complete and in its scope, pass without it. */
  lemma WorkerFindingOutlivesItsAbsence(network: BitcoinNetwork, node: NodeId, windows: seq<seq<NodeEvent>>,
                                        times: seq<int>)
    requires |times| == |windows| && windows != [] && windows[0] == FIRING
    ensures var known := Known(RunCycles(EMPTY_STORE, WorkerCycles(network, node, windows, times)).tables.findings,
                               WorkerFindingId(network, node));
            known.Some? && known.value.lifecycle == ActiveFinding
  {
    var cycles := WorkerCycles(network, node, windows, times);
    assert cycles[..1] == [WorkerCycle(network, node, [], FIRING, times[0])];
    WorkerRaisesAFinding(network, node, times[0]);
    KnownStays(EMPTY_STORE, cycles, WorkerFindingId(network, node));
    WorkerFindingsNeverResolve(network, node, [], windows, times, WorkerFindingId(network, node));
  }

  lemma CalmCycle(network: BitcoinNetwork, node: NodeId, now: int)
    ensures var cycle := WorkerCycle(network, node, [], CALM, now);
            cycle.scope == FindingCycleScope(DETECTOR_ID, Some(network), Some(node), true) && cycle.findings == []
  {
    WorkerFindsExpiries(network, node, now);
  }

  /** Raised, then missed by any number of complete cycles of its detector, network
      and node, three of which resolve any other finding: it is still active. */
  lemma CalmCyclesDoNotResolve(network: BitcoinNetwork, node: NodeId, windows: seq<seq<NodeEvent>>, times: seq<int>)
    requires |times| == |windows| >= 4 && windows[0] == FIRING && forall i | 1 <= i < |windows| :: windows[i] == CALM
    ensures var cycles := WorkerCycles(network, node, windows, times);
            var scope := FindingCycleScope(DETECTOR_ID, Some(network), Some(node), true);
            var known := Known(RunCycles(EMPTY_STORE, cycles).tables.findings, WorkerFindingId(network, node));
            && (forall i | 1 <= i < |cycles| :: cycles[i].scope == scope && cycles[i].findings == [])
            && known.Some? && known.value.lifecycle == ActiveFinding
  {
    var cycles := WorkerCycles(network, node, windows, times);
    forall i | 1 <= i < |cycles|
      ensures cycles[i].scope == FindingCycleScope(DETECTOR_ID, Some(network), Some(node), true)
      ensures cycles[i].findings == []
    {
      CalmCycle(network, node, times[i]);
    }
    WorkerFindingOutlivesItsAbsence(network, node, windows, times);
  }

  // ---- The recommendation of a finding that returns ----

  const QUIET := DetectorCycle(SAMPLE_SCOPE, [])
  const SIGHTING := DetectorCycle(SAMPLE_SCOPE, [SAMPLE])
  const ADVICE :=
    Recommendation(SAMPLE_ID, Action(ActionId(SAMPLE_ID, RebalanceChannel, ""), RebalanceChannel, None, 0), None)

  // Seen once and advised upon, then missed twice.
  function Seen(): Store { RecommendationSaved(CycleBody(EMPTY_STORE, SIGHTING), ADVICE) }
  function MissedTwice(): Store { RunCycles(Seen(), [QUIET, QUIET]) }

  lemma SeenTracks()
    ensures Tracks(Seen(), SAMPLE_ID, SAMPLE_KEY, Some(0), 0) && Seen().tables.recommendations == [ADVICE]
  {
    FirstSightingTracks();
    SavesKeepRecommendations(Synced(StoreModel.Resolved(EMPTY_STORE, SAMPLE_SCOPE)), [SAMPLE]);
  }

  lemma TwoQuietCycles()
    ensures CyclesSince(Some(0), [QUIET, QUIET], SAMPLE_ID, SAMPLE_KEY) == Some(2)
    ensures !EverMarked(Some(0), [QUIET, QUIET], SAMPLE_ID, SAMPLE_KEY)
    ensures Observed([QUIET, QUIET], [0, 0], SAMPLE_ID, SAMPLE_KEY)
  {
    assert [QUIET, QUIET][..1] == [QUIET] && [QUIET][..0] == [];
    assert !Sights(QUIET.findings, SAMPLE_ID) && Covers(QUIET.scope, SAMPLE_KEY);
    assert CyclesSince(Some(0), [], SAMPLE_ID, SAMPLE_KEY) == Some(0);
    assert CyclesSince(Some(0), [QUIET], SAMPLE_ID, SAMPLE_KEY) == Some(1);
    assert !EverMarked(Some(0), [QUIET], SAMPLE_ID, SAMPLE_KEY);
  }

  lemma MissedTwiceTracks()
    ensures Tracks(MissedTwice(), SAMPLE_ID, SAMPLE_KEY, Some(2), 0)
    ensures var recs := MissedTwice().tables.recommendations;
            |recs| == 1 && recs[0].findingId == SAMPLE_ID && recs[0].lifecycle != Some(ResolvedRecommendation)
  {
    SeenTracks();
    TwoQuietCycles();
    RunTracks(Seen(), [QUIET, QUIET], [0, 0], SAMPLE_ID, SAMPLE_KEY, Some(0), 0);
    RecommendationsFollowTheThirdAbsence(Seen(), [QUIET, QUIET], [0, 0], SAMPLE_ID, SAMPLE_KEY, Some(0), 0, 0);
  }

  /** Seen, advised upon, missed twice, seen again: the recommendation was live up
      to the cycle that sees the finding again, and that cycle resolves it. */
  lemma ReturningRunLosesItsRecommendation()
    ensures var before, after := MissedTwice().tables, CycleBody(MissedTwice(), SIGHTING).tables;
            && Known(before.findings, SAMPLE_ID).Some? && Known(after.findings, SAMPLE_ID).Some?
            && Known(before.findings, SAMPLE_ID).value.lifecycle == ActiveFinding
            && Known(after.findings, SAMPLE_ID).value.lifecycle == ActiveFinding
            && |before.recommendations| == 1 && |after.recommendations| >= 1
            && before.recommendations[0].lifecycle != Some(ResolvedRecommendation)
            && after.recommendations[0].lifecycle == Some(ResolvedRecommendation)
  {
    MissedTwiceTracks();
    assert SAMPLE in SIGHTING.findings;
    ReturningFindingLosesItsRecommendation(MissedTwice(), SIGHTING, SAMPLE_ID, SAMPLE_KEY, 0, 0, 0);
  }
}

/** When a request for a valid, timely input succeeds: exactly unless the input was
    refused once before as future-dated. */
module SimulationRefusals {
  import opened Wrappers
  import opened Domain
  import opened Findings
  import opened Redistribution
  import opened StoreModel
  import opened SimulationApp
  import opened SimulationRuns

  // The command is well formed and resolves to this input.
  ghost predicate Asks(t: Tables, c: CreateSimulationCommand, input: SimulationInput) {
    && ValidateCommand(c).Ok? && c.modelId == MODEL_ID && CheckedAmount(c).Some?
    && ResolveInput(t, c, CheckedAmount(c).value) == Ok(input)
  }

  ghost predicate RefusedAsFuture(rs: seq<SimulationRecord>, input: SimulationInput) {
    exists r :: r in rs && r.inputHash == HashOf(input) && r.errorCode == Some(FutureDatedInput)
  }

  // A stored refusal of the kind settles the input, whatever is asked and whenever.
  lemma FutureRefusalSettles(t: Tables, now: int, input: SimulationInput, r: SimulationRecord, allowStale: bool,
                             ids: Fresh, clock: Clock)
    requires Sound(t, now) && Explained(r)
    requires r in t.simulationRecords && r.inputHash == HashOf(input) && r.errorCode == Some(FutureDatedInput)
    ensures var reply := Answer(t, input, allowStale, ids, clock);
            reply.tables == t && reply.answer.Err? && reply.answer.error.kind == FutureDatedInputError
  {
    NewestSettles(t, now, input, r);
  }

  lemma TimelyVerdict(input: SimulationInput, allowStale: bool, requestedAt: int)
    requires Validate(input).Ok? && 0 <= requestedAt - input.ObservedAt() <= 900_000
    ensures EvaluateInput(input, allowStale, requestedAt).kind.None?
  {
    assert Simulate(input).Ok?;
  }

  lemma TimelyInputEvaluates(t: Tables, now: int, input: SimulationInput, allowStale: bool, ids: Fresh, clock: Clock)
    requires Sound(t, now) && Fits(t, ids, clock, now) && MayEvaluate(t, input, allowStale)
    requires Validate(input).Ok? && 0 <= clock.requestedAt - input.ObservedAt() <= 900_000
    ensures EvaluateAndPersist(t, input, allowStale, ids, clock).answer.Ok?
  {
    EvaluationAnswer(t, input, allowStale, ids, clock, now);
    TimelyVerdict(input, allowStale, clock.requestedAt);
  }

  // An explained record that is neither a projection nor a future-dated refusal is stale for good.
  lemma StaleStaysStale(r: SimulationRecord, now: int)
    requires Explained(r) && Validate(r.canonicalInput.value).Ok? && r.projection.None?
    requires r.errorCode != Some(FutureDatedInput) && r.requestedAt <= now
    ensures now - r.canonicalInput.value.ObservedAt() > 900_000
  {}

  lemma TimelyInputAnswers(t: Tables, now: int, input: SimulationInput, allowStale: bool, ids: Fresh, clock: Clock)
    requires Sound(t, now) && Fits(t, ids, clock, now) && AllReplay(t.simulationRecords)
    requires Validate(input).Ok? && 0 <= clock.requestedAt - input.ObservedAt() <= 900_000
    requires !RefusedAsFuture(t.simulationRecords, input)
    ensures Answer(t, input, allowStale, ids, clock).answer.Ok?
  {
    LookupFindsTheNewest(t.simulationRecords, HashOf(input));
    ExistingIsSound(t, input, now);
    var existing := LatestByHash(t.simulationRecords, HashOf(input));
    if existing.None? {
      TimelyInputEvaluates(t, now, input, allowStale, ids, clock);
    } else {
      var r := existing.value;
      assert r in RecordsFor(t.simulationRecords, HashOf(input));
      assert r in t.simulationRecords && HashedByInput(r) && r.createdAt <= now && Explained(r);
      if r.projection.None? {
        StaleStaysStale(r, clock.requestedAt);
      }
    }
  }

  /** Over any run, a request for a valid input that is neither stale nor future
      now is answered with a simulation exactly when no earlier request for it
      came before its observation time. */
  lemma TimelyRequestsSucceedIff(steps: seq<Step>, start: int, c: CreateSimulationCommand, ids: Fresh, clock: Clock,
                                 input: SimulationInput)
    requires IsRun(steps + [Request(c, ids, clock)], start)
    requires Asks(After(steps), c, input) && Validate(input).Ok?
    requires 0 <= clock.requestedAt - input.ObservedAt() <= 900_000
    ensures Respond(After(steps), c, ids, clock).answer.Ok? <==>
            !RefusedAsFuture(After(steps).simulationRecords, input)
  {
    assert (steps + [Request(c, ids, clock)])[..|steps|] == steps;
    var t, now := After(steps), Now(steps, start);
    RunIsSound(steps, start);
    RunReplays(steps, start);
    if RefusedAsFuture(t.simulationRecords, input) {
      var r :| r in t.simulationRecords && r.inputHash == HashOf(input) && r.errorCode == Some(FutureDatedInput);
      assert Explained(r);
      FutureRefusalSettles(t, now, input, r, c.allowStale, ids, clock);
    } else {
      TimelyInputAnswers(t, now, input, c.allowStale, ids, clock);
    }
  }

  /** An input refused once as future-dated is refused for good: every later
      request for it gets the same error and writes nothing. */
  lemma FutureRefusalIsFinal(steps: seq<Step>, start: int, c: CreateSimulationCommand, ids: Fresh, clock: Clock,
                             input: SimulationInput)
    requires IsRun(steps, start) && Asks(After(steps), c, input)
    requires RefusedAsFuture(After(steps).simulationRecords, input)
    ensures var reply := Respond(After(steps), c, ids, clock);
            && reply.tables == After(steps)
            && reply.answer.Err? && reply.answer.error.kind == FutureDatedInputError
  {
    var t := After(steps);
    RunIsSound(steps, start);
    RunReplays(steps, start);
    var r :| r in t.simulationRecords && r.inputHash == HashOf(input) && r.errorCode == Some(FutureDatedInput);
    assert Explained(r);
    FutureRefusalSettles(t, Now(steps, start), input, r, c.allowStale, ids, clock);
  }

  // ---- A run that gets there ----

  const SAMPLE_FINDING: Finding :=
    Finding(SampleInput().findingId, "channel_liquidity", "1", FINDING_SCHEMA_VERSION, Severity.Warning, Some("node"),
            Some("bx0"), [Evidence("direction", Text("outbound"))], Some(SampleInput().provenance), None, 0, 0, 0,
            ActiveFinding)

  const SAMPLE_ADVICE: Recommendation :=
    Recommendation(SampleInput().findingId,
                   Action(SampleInput().recommendationId, RebalanceChannel, Some("bx0"), 0), None)

  const OBSERVING: Step := Environment([SAMPLE_FINDING], [SAMPLE_ADVICE], [SAMPLE_SOURCE, SAMPLE_DESTINATION])

  const COMMAND: CreateSimulationCommand :=
    CreateSimulationCommand(Some(SampleInput().recommendationId), MODEL_ID, "ax0", "bx0", 200_000, false)

  // The first request is clocked before the observation, the second after it.
  const EARLY: Step := Request(COMMAND, Fresh("s1", "e1", "e2"), Clock(-1, -1, -1))
  const LATE: Step := Request(COMMAND, Fresh("s2", "e3", "e4"), Clock(1, 1, 1))

  lemma NotBlank(s: string)
    requires s != [] && !IsWhitespace(s[0])
    ensures !IsBlank(s)
  {
    assert s[0] in s;
  }

  lemma SampleSnapshotsFound()
    ensures SnapshotAt([SAMPLE_SOURCE, SAMPLE_DESTINATION], Mainnet, "node", "ax0", 0) == Some(SAMPLE_SOURCE)
    ensures SnapshotAt([SAMPLE_SOURCE, SAMPLE_DESTINATION], Mainnet, "node", "bx0", 0) == Some(SAMPLE_DESTINATION)
  {
    assert "ax0" != "bx0" by { assert "ax0"[0] != "bx0"[0]; }
    assert [SAMPLE_SOURCE, SAMPLE_DESTINATION][1..] == [SAMPLE_DESTINATION];
  }

  lemma SampleDirection()
    ensures ParseFindingDirection(SAMPLE_FINDING) == Ok(Outbound)
  {
    assert SAMPLE_FINDING.evidence[1..] == [];
    assert DirectionEvidence(SAMPLE_FINDING.evidence) == [Text("outbound")];
  }

  lemma SampleCommandIsValid()
    ensures ValidateCommand(COMMAND).Ok?
  {
    NotBlank(MODEL_ID);
    NotBlank("ax0");
    NotBlank("bx0");
  }

  // What the resolution of a command reads, when it succeeds.
  lemma ResolvesTo(t: Tables, c: CreateSimulationCommand, f: Finding, r: Recommendation, input: SimulationInput)
    requires t.findings == [f] && t.recommendations == [r] && c.recommendationId == Some(r.action.id)
    requires r.findingId == f.id && f.lifecycle == ActiveFinding && Supports(r)
    requires input.findingDirection.Some? && ParseFindingDirection(f) == Ok(input.findingDirection.value)
    requires Given(f.node) && Given(f.channel) && Given(r.action.target) && f.provenance.Some?
    requires input.network.Some? && input.network == f.provenance.value.network
    requires var reference := ObservedReference(f.provenance.value.observation);
             && reference.Some? && reference.value.network == input.network
             && SnapshotAt(t.channelSnapshots, input.network.value, f.node.value, c.sourceChannel,
                           reference.value.observedAt) == Some(input.sourceSnapshot)
             && SnapshotAt(t.channelSnapshots, input.network.value, f.node.value, c.destinationChannel,
                           reference.value.observedAt) == Some(input.destinationSnapshot)
    requires input == SimulationInput(
                        r.action.id, r.action.target.value, f.id, f.channel.value, input.findingDirection, f.node.value,
                        input.network, f.provenance.value, r.action.actionType, MODEL_ID, MODEL_VERSION,
                        Parameters(c.sourceChannel, c.destinationChannel, input.parameters.amountMsat),
                        input.sourceSnapshot, input.destinationSnapshot)
    ensures ResolveInput(t, c, input.parameters.amountMsat) == Ok(input)
  {
    assert r in t.recommendations && f in t.findings;
  }

  lemma SampleResolves(t: Tables)
    requires t.findings == [SAMPLE_FINDING] && t.recommendations == [SAMPLE_ADVICE]
    requires t.channelSnapshots == [SAMPLE_SOURCE, SAMPLE_DESTINATION]
    ensures ResolveInput(t, COMMAND, 200_000_000) == Ok(SampleInput())
  {
    SampleDirection();
    SampleSnapshotsFound();
    NotBlank("bx0");
    NotBlank("node");
    ResolvesTo(t, COMMAND, SAMPLE_FINDING, SAMPLE_ADVICE, SampleInput());
  }

  // Over an empty history, a request for an input observed in the future stores its refusal.
  lemma EarlyRequestRefuses(t: Tables, now: int, c: CreateSimulationCommand, input: SimulationInput, ids: Fresh,
                            clock: Clock)
    requires Sound(t, now) && Fits(t, ids, clock, now) && t.simulationRecords == []
    requires Asks(t, c, input) && Validate(input).Ok? && input.IsFutureAt(clock.requestedAt)
    ensures var record := RecordOf(input, EvaluateInput(input, c.allowStale, clock.requestedAt), ids, clock);
            && Respond(t, c, ids, clock).tables == Appended(t, record, ids)
            && RefusedAsFuture([record], input)
  {
    assert RecordsFor(t.simulationRecords, HashOf(input)) == [];
    EvaluationKeepsSound(t, input, c.allowStale, ids, clock, now);
    var record := RecordOf(input, EvaluateInput(input, c.allowStale, clock.requestedAt), ids, clock);
    assert record in [record];
  }

  lemma FreshAgain(t: Tables, record: SimulationRecord, ids: Fresh, ids': Fresh, clock: Clock, now: int)
    requires t.simulationRecords == [] && t.simulationEvents == [] && record.id == ids.record
    requires ids'.record != ids.record && ids'.requestedEvent != ids'.finalEvent
    requires ids.requestedEvent !in {ids'.requestedEvent, ids'.finalEvent}
    requires ids.finalEvent !in {ids'.requestedEvent, ids'.finalEvent}
    requires now <= clock.viewedAt <= clock.requestedAt <= clock.completedAt
    ensures Fits(Appended(t, record, ids), ids', clock, now)
  {}

  lemma IdsDiffer()
    ensures "s1" != "s2" && "e1" != "e2" && "e3" != "e4"
    ensures "e1" !in {"e3", "e4"} && "e2" !in {"e3", "e4"}
  {
    assert "s1"[1] != "s2"[1] && "e1"[1] != "e2"[1] && "e3"[1] != "e4"[1];
    assert "e1"[1] != "e3"[1] && "e1"[1] != "e4"[1] && "e2"[1] != "e3"[1] && "e2"[1] != "e4"[1];
  }

  function Observing(): Tables {
    EMPTY_STORE.tables.(findings := [SAMPLE_FINDING], recommendations := [SAMPLE_ADVICE],
                        channelSnapshots := [SAMPLE_SOURCE, SAMPLE_DESTINATION])
  }

  function EarlyRecord(): SimulationRecord {
    RecordOf(SampleInput(), EvaluateInput(SampleInput(), false, -1), EARLY.ids, EARLY.clock)
  }

  lemma SampleIsAsked()
    ensures Asks(Observing(), COMMAND, SampleInput())
    ensures Asks(Appended(Observing(), EarlyRecord(), EARLY.ids), COMMAND, SampleInput())
  {
    SampleCommandIsValid();
    SampleResolves(Observing());
    SampleResolves(Appended(Observing(), EarlyRecord(), EARLY.ids));
  }

  lemma ObservingRun()
    ensures IsRun([OBSERVING], -1) && After([OBSERVING]) == Observing() && Now([OBSERVING], -1) == -1
  {
    assert [OBSERVING][..0] == [];
  }

  lemma RequestExtends(steps: seq<Step>, c: CreateSimulationCommand, ids: Fresh, clock: Clock, start: int)
    requires IsRun(steps, start) && Fits(After(steps), ids, clock, Now(steps, start))
    ensures var run := steps + [Request(c, ids, clock)];
            && IsRun(run, start) && Now(run, start) == clock.completedAt
            && After(run) == Respond(After(steps), c, ids, clock).tables
  {
    assert (steps + [Request(c, ids, clock)])[..|steps|] == steps;
  }

  lemma EarlyReply()
    ensures Fits(Observing(), EARLY.ids, EARLY.clock, -1)
    ensures Respond(Observing(), COMMAND, EARLY.ids, EARLY.clock).tables ==
            Appended(Observing(), EarlyRecord(), EARLY.ids)
    ensures RefusedAsFuture([EarlyRecord()], SampleInput())
  {
    ObservingRun();
    IdsDiffer();
    SampleIsAsked();
    SampleValidates();
    RunIsSound([OBSERVING], -1);
    EarlyRequestRefuses(Observing(), -1, COMMAND, SampleInput(), EARLY.ids, EARLY.clock);
  }

  lemma EarlyIsRefused()
    ensures IsRun([OBSERVING, EARLY], -1) && Now([OBSERVING, EARLY], -1) == -1
    ensures After([OBSERVING, EARLY]) == Appended(Observing(), EarlyRecord(), EARLY.ids)
    ensures RefusedAsFuture([EarlyRecord()], SampleInput())
  {
    assert [OBSERVING, EARLY] == [OBSERVING] + [EARLY];
    ObservingRun();
    EarlyReply();
    RequestExtends([OBSERVING], COMMAND, EARLY.ids, EARLY.clock, -1);
  }

  /** Asked for before its observation and again after it, a valid and timely
      input is still refused as future-dated. */
  lemma AskedTooEarlyOnce()
    ensures IsRun([OBSERVING, EARLY] + [LATE], -1)
    ensures Asks(After([OBSERVING, EARLY]), COMMAND, SampleInput()) && Validate(SampleInput()).Ok?
    ensures 0 <= LATE.clock.requestedAt - SampleInput().ObservedAt() <= 900_000
    ensures var answer := Respond(After([OBSERVING, EARLY]), COMMAND, LATE.ids, LATE.clock).answer;
            answer.Err? && answer.error.kind == FutureDatedInputError
  {
    var steps := [OBSERVING, EARLY];
    EarlyIsRefused();
    SampleIsAsked();
    SampleValidates();
    IdsDiffer();
    assert Observing().simulationRecords + [EarlyRecord()] == [EarlyRecord()];
    FutureRefusalIsFinal(steps, -1, COMMAND, LATE.ids, LATE.clock, SampleInput());
    FreshAgain(Observing(), EarlyRecord(), EARLY.ids, LATE.ids, LATE.clock, -1);
    RequestExtends(steps, COMMAND, LATE.ids, LATE.clock, -1);
  }
}

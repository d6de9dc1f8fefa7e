/** Creating simulations (crates/rieko-simulation-app/src/lib.rs): resolving the
    canonical input, reuse by input identity, staleness and persistence. */
module SimulationApp {
  import opened Wrappers
  import opened Numbers
  import opened Domain
  import opened Findings
  import opened Redistribution
  import opened StoreModel
  import opened Storage

  // `recommendationId` is absent when the text is blank.
  datatype CreateSimulationCommand = CreateSimulationCommand(
    recommendationId: Option<ActionId>, modelId: string, sourceChannel: ChannelId, destinationChannel: ChannelId,
    amountSats: u64, allowStale: bool)

  datatype AppErrorKind =
    | InvalidRequest | UnknownModel | RecommendationNotFound | FindingNotFound | FindingInactive | MissingContext
    | SnapshotNotFound | StaleInputError | FutureDatedInputError | UnsupportedError | InvalidInputError
    | StorageFailure | ModelFailureError

  datatype SimulationView = SimulationView(
    id: string, status: SimulationStatus, inputHash: InputHash, parameters: Parameters, sourceObservedAt: int,
    stale: bool, result: Option<SimulationResult>, errorCode: Option<ErrorCode>, requestedAt: int,
    completedAt: Option<int>)

  datatype AppError = AppError(kind: AppErrorKind, simulation: Option<SimulationView>)
  datatype Outcome = Outcome(simulation: SimulationView, reused: bool)

  // The identifiers drawn for a new record and its two events, and the clock readings of the request.
  datatype Fresh = Fresh(record: string, requestedEvent: string, finalEvent: string)
  datatype Clock = Clock(viewedAt: int, requestedAt: int, completedAt: int)

  function Need(condition: bool, kind: AppErrorKind): Result<(), AppError> {
    if condition then Ok(()) else Err(AppError(kind, None))
  }

  function ValidateCommand(c: CreateSimulationCommand): Result<(), AppError> {
    Need(c.recommendationId.Some? && !IsBlank(c.modelId) && !IsBlank(c.sourceChannel) &&
         !IsBlank(c.destinationChannel) && c.amountSats != 0, InvalidRequest)
  }

  // ---- From the command to the canonical input ----

  function Supports(r: Recommendation): bool { r.action.actionType == RebalanceChannel }

  // `context_or_unsupported`
  function NeedContext(condition: bool, supported: bool, kind: AppErrorKind): Result<(), AppError> {
    Need(condition, if supported then kind else UnsupportedError)
  }

  function DirectionEvidence(evidence: seq<Evidence>): seq<EvidenceValue> {
    if evidence == [] then []
    else (if evidence[0].key == "direction" then [evidence[0].value] else []) + DirectionEvidence(evidence[1..])
  }

  function ParseFindingDirection(f: Finding): Result<FindingDirection, AppError> {
    if f.detector != "channel_liquidity" then Err(AppError(UnsupportedError, None))
    else
      var values := DirectionEvidence(f.evidence);
      if |values| != 1 || !values[0].Text? then Err(AppError(InvalidInputError, None))
      else if values[0].text == "outbound" then Ok(Outbound)
      else if values[0].text == "inbound" then Ok(Inbound)
      else Err(AppError(InvalidInputError, None))
  }

  function SnapshotAt(snapshots: seq<ChannelSnapshot>, network: BitcoinNetwork, node: string, channel: ChannelId,
                      at: int)
    : Option<ChannelSnapshot>
  {
    if snapshots == [] then None
    else
      var s := snapshots[0];
      if s.state.network == Some(network) && s.state.nodeId == Some(node) && s.state.channelId == channel && s.ts == at
      then Some(s)
      else SnapshotAt(snapshots[1..], network, node, channel, at)
  }

  predicate Given(text: Option<string>) {
    text.Some? && !IsBlank(text.value)
  }

  function ResolveInput(t: Tables, c: CreateSimulationCommand, amountMsat: u64): (r: Result<SimulationInput, AppError>)
    requires c.recommendationId.Some?
    ensures r.Err? ==> r.error.simulation.None?
  {
    var found := FindRecommendation(t.recommendations, c.recommendationId.value);
    var _ :- Need(found.Some?, RecommendationNotFound);
    var recommendation := t.recommendations[found.value];
    var supported := Supports(recommendation);
    var at := FindFinding(t.findings, recommendation.findingId);
    var _ :- NeedContext(at.Some?, supported, FindingNotFound);
    var finding := t.findings[at.value];
    var _ :- NeedContext(finding.lifecycle == ActiveFinding, supported, FindingInactive);
    var direction := if supported then ParseFindingDirection(finding) else Ok(Outbound);
    if direction.Err? then Err(AppError(direction.error.kind, None))
    else
      var _ :- NeedContext(Given(finding.node), supported, MissingContext);
      var node := finding.node.value;
      var _ :- NeedContext(finding.provenance.Some?, supported, MissingContext);
      var provenance := finding.provenance.value;
      var reference := ObservedReference(provenance.observation);
      var _ :- NeedContext(provenance.network.Some? && reference.Some? && reference.value.network == provenance.network,
                           supported, MissingContext);
      var network, observedAt := provenance.network.value, reference.value.observedAt;
      var _ :- NeedContext(Given(finding.channel) && Given(recommendation.action.target), supported, MissingContext);
      var source := SnapshotAt(t.channelSnapshots, network, node, c.sourceChannel, observedAt);
      var destination := SnapshotAt(t.channelSnapshots, network, node, c.destinationChannel, observedAt);
      var _ :- NeedContext(source.Some? && destination.Some?, supported, SnapshotNotFound);
      Ok(SimulationInput(
        recommendation.action.id, recommendation.action.target.value, recommendation.findingId, finding.channel.value,
        if supported then Some(direction.value) else None, node, Some(network), provenance,
        recommendation.action.actionType, MODEL_ID, MODEL_VERSION,
        Parameters(c.sourceChannel, c.destinationChannel, amountMsat), source.value, destination.value))
  }

  // ---- Evaluation ----

  // `simulation_view`
  function ViewOf(record: SimulationRecord, now: int): Result<SimulationView, AppError> {
    if record.canonicalInput.None? then Err(AppError(StorageFailure, None))
    else
      var input := record.canonicalInput.value;
      var stale := input.IsStaleAt(now);
      Ok(SimulationView(record.id, if record.status == Completed && stale then Stale else record.status,
                        record.inputHash, input.parameters, input.ObservedAt(), stale, record.projection,
                        record.errorCode, record.requestedAt, record.completedAt))
  }

  function KindOfView(v: SimulationView): AppErrorKind {
    if v.errorCode == Some(FutureDatedInput) then FutureDatedInputError
    else
      match v.status
      case UnsupportedStatus => UnsupportedError
      case InvalidInputStatus => InvalidInputError
      case Stale => StaleInputError
      case FailedStatus => ModelFailureError
      case _ => InvalidInputError
  }

  // Status, projection, error code and error kind of one evaluation.
  datatype Verdict = Verdict(status: SimulationStatus, projection: Option<SimulationResult>,
                             errorCode: Option<ErrorCode>, kind: Option<AppErrorKind>)

  function EvaluateInput(input: SimulationInput, allowStale: bool, requestedAt: int): Verdict {
    var stale := input.IsStaleAt(requestedAt);
    var future := input.IsFutureAt(requestedAt);
    if input.actionType != RebalanceChannel then
      Verdict(UnsupportedStatus, None, Some(UnsupportedRecommendation), Some(UnsupportedError))
    else if future then
      Verdict(if stale && !allowStale then Stale else InvalidInputStatus, None,
              Some(if stale && !allowStale then StaleInput else FutureDatedInput),
              Some(if stale && !allowStale then StaleInputError else FutureDatedInputError))
    else if stale && !allowStale then
      Verdict(Stale, None, Some(StaleInput), Some(StaleInputError))
    else
      match Simulate(input)
      case Ok(result) => Verdict(if stale then Stale else Completed, Some(result), None, None)
      case Err(Unsupported) => Verdict(UnsupportedStatus, None, Some(UnsupportedRecommendation), Some(UnsupportedError))
      case Err(InvalidInput(_)) => Verdict(InvalidInputStatus, None, Some(InvalidInputCode), Some(InvalidInputError))
      case Err(_) => Verdict(FailedStatus, None, Some(ModelFailure), Some(ModelFailureError))
  }

  function RecordOf(input: SimulationInput, v: Verdict, ids: Fresh, clock: Clock): SimulationRecord {
    SimulationRecord(ids.record, input.recommendationId, input.findingId, v.status, MODEL_ID, MODEL_VERSION,
                     HashOf(input), Some(input), v.projection, clock.requestedAt, Some(clock.completedAt),
                     v.errorCode, clock.requestedAt)
  }

  function EventsFor(record: SimulationRecord, ids: Fresh): seq<SimulationEvent> {
    [SimulationEvent(ids.requestedEvent, record.id, Requested, None, record.requestedAt),
     SimulationEvent(ids.finalEvent, record.id, record.status, record.errorCode,
                     if record.completedAt.Some? then record.completedAt.value else record.requestedAt)]
  }

  function PersistOutcome(t: Tables, record: SimulationRecord, ids: Fresh): Result<Tables, StorageError> {
    var saved :- RecordSaved(t, record);
    var requested :- EventAppended(saved, EventsFor(record, ids)[0]);
    EventAppended(requested, EventsFor(record, ids)[1])
  }

  // What a request answers, and the tables it commits when it commits.
  datatype Reply = Reply(tables: Tables, answer: Result<Outcome, AppError>)

  function EvaluateAndPersist(t: Tables, input: SimulationInput, allowStale: bool, ids: Fresh, clock: Clock): Reply {
    var verdict := EvaluateInput(input, allowStale, clock.requestedAt);
    var record := RecordOf(input, verdict, ids, clock);
    match PersistOutcome(t, record, ids)
    case Err(_) => Reply(t, Err(AppError(StorageFailure, None)))
    case Ok(t') =>
      var view := ViewOf(record, clock.completedAt).value;
      Reply(t', if verdict.kind.Some? then Err(AppError(verdict.kind.value, Some(view))) else Ok(Outcome(view, false)))
  }

  function Answer(t: Tables, input: SimulationInput, allowStale: bool, ids: Fresh, clock: Clock): Reply {
    match LatestByHash(t.simulationRecords, HashOf(input))
    case None => EvaluateAndPersist(t, input, allowStale, ids, clock)
    case Some(existing) =>
      var view := ViewOf(existing, clock.viewedAt);
      if view.Err? then Reply(t, Err(view.error))
      else if existing.projection.Some? then
        Reply(t, if view.value.stale && !allowStale then Err(AppError(StaleInputError, Some(view.value)))
                 else Ok(Outcome(view.value, true)))
      else if allowStale && existing.status == Stale then EvaluateAndPersist(t, input, allowStale, ids, clock)
      else Reply(t, Err(AppError(KindOfView(view.value), Some(view.value))))
  }

  function Respond(t: Tables, c: CreateSimulationCommand, ids: Fresh, clock: Clock): Reply {
    var amountMsat := CheckedMul(c.amountSats, 1_000);
    if ValidateCommand(c).Err? then Reply(t, Err(ValidateCommand(c).error))
    else if c.modelId != MODEL_ID then Reply(t, Err(AppError(UnknownModel, None)))
    else if amountMsat.None? then Reply(t, Err(AppError(InvalidRequest, None)))
    else
      match ResolveInput(t, c, amountMsat.value)
      case Err(error) => Reply(t, Err(error))
      case Ok(input) => Answer(t, input, c.allowStale, ids, clock)
  }

  // ---- The request against the store ----

  method PersistRecord(storage: MemoryStorage, record: SimulationRecord, ids: Fresh)
      returns (r: Result<(), StorageError>)
    modifies storage
    ensures r.Ok? <==> PersistOutcome(old(storage.View()).tables, record, ids).Ok?
    ensures r.Ok? ==>
              storage.View() ==
              old(storage.View()).(tables := PersistOutcome(old(storage.View()).tables, record, ids).value)
    ensures storage.transactionSnapshot == old(storage.transactionSnapshot)
    ensures storage.findingAbsent == old(storage.findingAbsent)
  {
    r := storage.SaveSimulationV2(record);
    if r.Err? {
      return;
    }
    r := storage.AppendSimulationEvent(EventsFor(record, ids)[0]);
    if r.Err? {
      return;
    }
    r := storage.AppendSimulationEvent(EventsFor(record, ids)[1]);
  }

  /** A request runs in one transaction, which it commits when it answers with a
      stored simulation and rolls back otherwise. */
  method CreateSimulation(storage: MemoryStorage, c: CreateSimulationCommand, ids: Fresh, clock: Clock)
      returns (r: Result<Outcome, AppError>)
    modifies storage
    ensures old(storage.transactionSnapshot).None? ==>
              var reply := Respond(old(storage.View()).tables, c, ids, clock);
              r == reply.answer && storage.View() == old(storage.View()).(tables := reply.tables)
    ensures old(storage.transactionSnapshot).Some? ==> r.Err? && storage.View() == old(storage.View())
  {
    var valid := ValidateCommand(c);
    if valid.Err? {
      return Err(valid.error);
    }
    if c.modelId != MODEL_ID {
      return Err(AppError(UnknownModel, None));
    }
    var amountMsat := CheckedMul(c.amountSats, 1_000);
    if amountMsat.None? {
      return Err(AppError(InvalidRequest, None));
    }
    var begun := storage.BeginTransaction();
    if begun.Err? {
      return Err(AppError(StorageFailure, None));
    }
    var wrote;
    r, wrote := CreateInTransaction(storage, c, amountMsat.value, ids, clock);
    if (r.Ok? && wrote) || (r.Err? && r.error.simulation.Some?) {
      var _ := storage.CommitTransaction();
    } else {
      var _ := storage.RollbackTransaction();
    }
  }

  method CreateInTransaction(storage: MemoryStorage, c: CreateSimulationCommand, amountMsat: u64, ids: Fresh,
                             clock: Clock)
      returns (r: Result<Outcome, AppError>, wrote: bool)
    requires c.recommendationId.Some?
    modifies storage
    ensures storage.transactionSnapshot == old(storage.transactionSnapshot)
    ensures storage.findingAbsent == old(storage.findingAbsent)
    ensures var before := old(storage.View()).tables;
            var reply := match ResolveInput(before, c, amountMsat)
                         case Err(error) => Reply(before, Err(error))
                         case Ok(input) => Answer(before, input, c.allowStale, ids, clock);
            && r == reply.answer
            && ((r.Ok? && wrote) || (r.Err? && r.error.simulation.Some?) ==> storage.View().tables == reply.tables)
            && (!(r.Ok? && wrote) && !(r.Err? && r.error.simulation.Some?) ==> reply.tables == before)
  {
    wrote := false;
    var resolved := ResolveInput(storage.CurrentTables(), c, amountMsat);
    if resolved.Err? {
      return Err(resolved.error), false;
    }
    var input := resolved.value;
    var existing := storage.SimulationV2ByInputHash(HashOf(input));
    if existing.Some? {
      var viewed := ViewOf(existing.value, clock.viewedAt);
      if viewed.Err? {
        return Err(viewed.error), false;
      }
      var view := viewed.value;
      if existing.value.projection.Some? {
        if view.stale && !c.allowStale {
          return Err(AppError(StaleInputError, Some(view))), false;
        }
        return Ok(Outcome(view, true)), false;
      }
      if !(c.allowStale && existing.value.status == Stale) {
        return Err(AppError(KindOfView(view), Some(view))), false;
      }
    }
    var verdict := EvaluateInput(input, c.allowStale, clock.requestedAt);
    var record := RecordOf(input, verdict, ids, clock);
    var persisted := PersistRecord(storage, record, ids);
    if persisted.Err? {
      return Err(AppError(StorageFailure, None)), false;
    }
    var view := ViewOf(record, clock.completedAt).value;
    if verdict.kind.Some? {
      return Err(AppError(verdict.kind.value, Some(view))), true;
    }
    r, wrote := Ok(Outcome(view, false)), true;
  }
}

/** The liquidity-redistribution model of crates/rieko-simulation/src/model.rs,
    with the liquidity profile and the LND normaliser that feed it. */
module Redistribution {
  import opened Wrappers
  import opened Numbers
  import opened Domain
  import opened Findings

  // ---- crates/rieko-domain/src/channel.rs: LiquidityProfile::compute ----

  function Ratio(part: u64, whole: u64): real
    requires whole != 0
  {
    part as real / whole as real
  }

  // The thresholds 3, 10, 90 and 97 percent, cross-multiplied.
  function Classify(capacityMsat: u64, localMsat: u64): LiquidityImbalance {
    if 100 * localMsat < 3 * capacityMsat then SeverelyDrained
    else if 100 * localMsat > 97 * capacityMsat then SeverelyDrained
    else if 100 * localMsat < 10 * capacityMsat then OutboundDrained
    else if 100 * localMsat > 90 * capacityMsat then InboundDrained
    else Balanced
  }

  function ComputeProfile(capacityMsat: u64, localMsat: u64, remoteMsat: u64): LiquidityProfile {
    var unknown := capacityMsat == 0 || localMsat > capacityMsat || remoteMsat > capacityMsat;
    LiquidityProfile(
      if capacityMsat == 0 then 0.0 else Ratio(localMsat, capacityMsat),
      localMsat, remoteMsat, remoteMsat, localMsat, 0, 0,
      if unknown then UnknownImbalance else Classify(capacityMsat, localMsat))
  }

  // ---- crates/rieko-ingest-lnd/src/normalize.rs: Normalizer::channel ----

  datatype LndChannel = LndChannel(
    channelPoint: string, remotePubkey: string, capacity: i64, localBalance: i64, remoteBalance: i64,
    localChanReserveSat: Option<i64>, remoteChanReserveSat: Option<i64>, status: ChannelStatus,
    private: bool, initiator: bool, totalSatoshisSent: Option<i64>, totalSatoshisReceived: Option<i64>)

  datatype NormalizerError = BadChannelPoint(point: string) | NegativeBalance(id: ChannelId)

  function ColonsToX(s: string): string {
    if s == [] then [] else [if s[0] == ':' then 'x' else s[0]] + ColonsToX(s[1..])
  }

  function SatToMsat(sat: Option<i64>): Option<u64> {
    if sat.Some? && sat.value >= 0 then Some(WrappingMul(sat.value, 1_000)) else None
  }

  function NormalizeChannel(lnd: LndChannel, localNode: NodeId, seenAt: int): Result<Channel, NormalizerError> {
    var id := ColonsToX(lnd.channelPoint);
    if ':' !in lnd.channelPoint then Err(BadChannelPoint(lnd.channelPoint))
    else if lnd.localBalance < 0 || lnd.remoteBalance < 0 then Err(NegativeBalance(id))
    else
      var capacityMsat := WrappingMul(if lnd.capacity < 0 then 0 else lnd.capacity, 1_000);
      var localMsat := WrappingMul(lnd.localBalance, 1_000);
      var remoteMsat := WrappingMul(lnd.remoteBalance, 1_000);
      var localReserve := SatToMsat(lnd.localChanReserveSat);
      var remoteReserve := SatToMsat(lnd.remoteChanReserveSat);
      var profile := ComputeProfile(capacityMsat, localMsat, remoteMsat).(
        spendableOutboundMsat := if localReserve.Some? then SaturatingSub(localMsat, localReserve.value) else 0,
        spendableInboundMsat := if remoteReserve.Some? then SaturatingSub(remoteMsat, remoteReserve.value) else 0);
      Ok(Channel(id, localNode, lnd.remotePubkey, lnd.channelPoint, capacityMsat, FeePolicy(1_000, 1, 1, None, 40),
                 lnd.status, profile, seenAt, None, localReserve, remoteReserve, lnd.private, lnd.initiator,
                 SatToMsat(lnd.totalSatoshisSent), SatToMsat(lnd.totalSatoshisReceived)))
  }

  // ---- crates/rieko-simulation/src/model.rs ----

  const MODEL_ID := "liquidity-redistribution"
  const MODEL_VERSION := "3"
  // Fifteen minutes, in the milliseconds that times are counted in.
  const DEFAULT_FRESHNESS: int := 15 * 60 * 1000

  datatype FindingDirection = Outbound | Inbound
  datatype Parameters = Parameters(sourceChannel: ChannelId, destinationChannel: ChannelId, amountMsat: u64)

  datatype SimulationInput = SimulationInput(
    recommendationId: ActionId,
    recommendationTarget: string,
    findingId: FindingId,
    findingChannel: string,
    findingDirection: Option<FindingDirection>,
    nodeId: string,
    network: Option<BitcoinNetwork>,
    provenance: FindingProvenance,
    actionType: ActionType,
    modelId: string,
    modelVersion: string,
    parameters: Parameters,
    sourceSnapshot: ChannelSnapshot,
    destinationSnapshot: ChannelSnapshot)
  {
    function FindingSnapshot(): ChannelSnapshot {
      if destinationSnapshot.state.channelId == findingChannel then destinationSnapshot else sourceSnapshot
    }
    function ObservedAt(): int { FindingSnapshot().ts }
    predicate IsStaleAt(now: int) { now - ObservedAt() > DEFAULT_FRESHNESS }
    predicate IsFutureAt(now: int) { ObservedAt() > now }
  }

  // SHA-256 of the canonical input, as an injective constructor; legacy rows have none.
  datatype InputHash = NoHash | HashOf(input: SimulationInput)

  datatype ProjectedState = ProjectedState(localRatio: real, localMsat: u64, remoteMsat: u64, capacityMsat: u64)
  datatype ProjectedDelta = ProjectedDelta(
    channelId: ChannelId, localBefore: u64, localAfter: u64, remoteBefore: u64, remoteAfter: u64,
    deltaMsat: u64, clearsFinding: bool)
  datatype SimulationWarning =
    AmountExceedsHalfCapacity | SourceBalanceNearReserve | DestinationBalanceNearCapacity

  datatype SimulationResult = SimulationResult(
    inputHash: InputHash, baseline: ProjectedState, projected: ProjectedState,
    source: ProjectedDelta, destination: ProjectedDelta, warnings: seq<SimulationWarning>)

  // One reason for each of the validator's messages, and one for each checked step.
  datatype Reason =
    NodeIdentityRequired | NetworkIdentityRequired | ProvenanceNetworkDiffers | SourceProvenanceDiffers
    | ModelNotDeclared | EmptyObservationWindow | FindingChannelDiffers | ReferenceNetworkDiffers
    | DirectionRequired | WrongChannelRole | NotTheObservedState | ProvenanceDigestDiffers | SameChannel
    | ZeroAmount | SnapshotIdentityDiffers | SnapshotNodeDiffers | SourceNetworkDiffers | SourceDigestInvalid
    | DestinationNetworkDiffers | DestinationDigestInvalid | DifferentObservations | ChannelNotActive
    | ZeroCapacity | IncoherentBalances | InvalidLocalRatio | InconsistentLocalRatio | DirectionDiffers
    | AboveSpendableOutbound | AboveSpendableInbound | AboveRecordedBalance | DestinationOverflow
  datatype CalculationStep =
    SourceLocalUnderflow | SourceRemoteOverflow | DestinationLocalOverflow | DestinationRemoteUnderflow
  datatype ModelError = Unsupported | InvalidInput(reason: Reason) | CalculationFailed(step: CalculationStep)

  predicate IsWhitespace(c: char) {
    '\t' <= c <= '\r' || c == ' ' || c as int in {0x85, 0xA0, 0x1680, 0x2028, 0x2029, 0x202F, 0x205F, 0x3000} ||
    0x2000 <= c as int <= 0x200A
  }

  // `s.trim().is_empty()`
  predicate IsBlank(s: string) {
    forall c | c in s :: IsWhitespace(c)
  }

  // `iter().max_by_key(|s| s.observed_at)`: the last of the latest.
  function LatestReference(refs: seq<SnapshotReference>): Option<SnapshotReference> {
    if refs == [] then None
    else
      var rest := LatestReference(refs[..|refs| - 1]);
      var last := refs[|refs| - 1];
      if rest.Some? && rest.value.observedAt > last.observedAt then rest else Some(last)
  }

  function ObservedReference(o: ObservationReference): Option<SnapshotReference> {
    match o
    case ChannelState(_, snapshot) => Some(snapshot)
    case ChannelWindow(_, snapshots) => LatestReference(snapshots)
  }

  function Require(condition: bool, reason: Reason): Result<(), ModelError> {
    if condition then Ok(()) else Err(InvalidInput(reason))
  }

  function Abs(x: real): real {
    if x < 0.0 then -x else x
  }

  // f64::EPSILON * 4
  const RATIO_TOLERANCE: real := 4.0 / 4503599627370496.0

  function ValidateSnapshot(s: SnapshotState): (r: Result<(), ModelError>)
    ensures r.Ok? <==>
            && s.status == ChannelStatus.Active && 0 < s.capacityMsat
            && s.localBalanceMsat + s.remoteBalanceMsat <= s.capacityMsat
            && 0.0 <= s.localRatio <= 1.0
            && Abs(s.localRatio - Ratio(s.localBalanceMsat, s.capacityMsat)) <= RATIO_TOLERANCE
  {
    var _ :- Require(s.status == ChannelStatus.Active, ChannelNotActive);
    var _ :- Require(s.capacityMsat != 0, ZeroCapacity);
    var total := CheckedAdd(s.localBalanceMsat, s.remoteBalanceMsat);
    var _ :- Require(s.localBalanceMsat <= s.capacityMsat && s.remoteBalanceMsat <= s.capacityMsat &&
                     total.Some? && total.value <= s.capacityMsat, IncoherentBalances);
    var _ :- Require(0.0 <= s.localRatio <= 1.0, InvalidLocalRatio);
    Require(Abs(s.localRatio - Ratio(s.localBalanceMsat, s.capacityMsat)) <= RATIO_TOLERANCE,
            InconsistentLocalRatio)
  }

  predicate DirectionMatches(direction: FindingDirection, s: SnapshotState) {
    var imbalance := ComputeProfile(s.capacityMsat, s.localBalanceMsat, s.remoteBalanceMsat).imbalance;
    match direction
    case Outbound => imbalance.OutboundDrained? || (imbalance.SeverelyDrained? && s.localRatio < 0.5)
    case Inbound => imbalance.InboundDrained? || (imbalance.SeverelyDrained? && !(s.localRatio < 0.5))
  }

  function ValidateIdentity(input: SimulationInput): Result<(), ModelError> {
    if input.actionType != RebalanceChannel then Err(Unsupported)
    else
      var _ :- Require(!IsBlank(input.nodeId), NodeIdentityRequired);
      var _ :- Require(input.network.Some?, NetworkIdentityRequired);
      var _ :- Require(input.provenance.network == input.network, ProvenanceNetworkDiffers);
      var _ :- Require(input.provenance.source.Lnd? ==> input.provenance.source.configuredNode == input.nodeId,
                       SourceProvenanceDiffers);
      var _ :- Require(input.modelId == MODEL_ID && input.modelVersion == MODEL_VERSION, ModelNotDeclared);
      var observed := ObservedReference(input.provenance.observation);
      var _ :- Require(observed.Some?, EmptyObservationWindow);
      var _ :- Require(input.recommendationTarget == input.findingChannel &&
                       input.provenance.observation.channelId == input.findingChannel, FindingChannelDiffers);
      var _ :- Require(observed.value.network == input.network, ReferenceNetworkDiffers);
      var _ :- Require(input.findingDirection.Some?, DirectionRequired);
      var _ :- Require(input.findingChannel == (match input.findingDirection.value
                                                case Outbound => input.parameters.destinationChannel
                                                case Inbound => input.parameters.sourceChannel), WrongChannelRole);
      var _ :- Require(observed.value.observedAt == input.FindingSnapshot().ts, NotTheObservedState);
      Require(observed.value.stateDigest == OfSnapshot(input.FindingSnapshot().state), ProvenanceDigestDiffers)
  }

  function ValidateSnapshots(input: SimulationInput): Result<(), ModelError> {
    var source, destination := input.sourceSnapshot, input.destinationSnapshot;
    var _ :- Require(input.parameters.sourceChannel != input.parameters.destinationChannel, SameChannel);
    var _ :- Require(input.parameters.amountMsat != 0, ZeroAmount);
    var _ :- Require(source.state.channelId == input.parameters.sourceChannel &&
                     destination.state.channelId == input.parameters.destinationChannel, SnapshotIdentityDiffers);
    var _ :- Require(source.state.nodeId == Some(input.nodeId) && destination.state.nodeId == Some(input.nodeId),
                     SnapshotNodeDiffers);
    var _ :- Require(source.state.network == input.network, SourceNetworkDiffers);
    var _ :- Require(source.stateDigest == Some(OfSnapshot(source.state)), SourceDigestInvalid);
    var _ :- Require(destination.state.network == input.network, DestinationNetworkDiffers);
    var _ :- Require(destination.stateDigest == Some(OfSnapshot(destination.state)), DestinationDigestInvalid);
    Require(source.ts == destination.ts, DifferentObservations)
  }

  function ValidateAmount(input: SimulationInput): (r: Result<(), ModelError>)
    ensures var amount := input.parameters.amountMsat;
            var source, destination := input.sourceSnapshot.state, input.destinationSnapshot.state;
            r.Ok? <==> amount <= source.spendableOutboundMsat && amount <= destination.spendableInboundMsat &&
                       amount <= source.localBalanceMsat && amount <= destination.remoteBalanceMsat &&
                       destination.localBalanceMsat + amount <= destination.capacityMsat
  {
    var amount := input.parameters.amountMsat;
    var source, destination := input.sourceSnapshot.state, input.destinationSnapshot.state;
    var _ :- Require(amount <= source.spendableOutboundMsat, AboveSpendableOutbound);
    var _ :- Require(amount <= destination.spendableInboundMsat, AboveSpendableInbound);
    var _ :- Require(amount <= source.localBalanceMsat && amount <= destination.remoteBalanceMsat,
                     AboveRecordedBalance);
    var after := CheckedAdd(destination.localBalanceMsat, amount);
    Require(after.Some? && after.value <= destination.capacityMsat, DestinationOverflow)
  }

  function Validate(input: SimulationInput): Result<(), ModelError> {
    var _ :- ValidateIdentity(input);
    var _ :- ValidateSnapshots(input);
    var _ :- ValidateSnapshot(input.sourceSnapshot.state);
    var _ :- ValidateSnapshot(input.destinationSnapshot.state);
    var _ :- Require(input.findingDirection.Some? &&
                     DirectionMatches(input.findingDirection.value, input.FindingSnapshot().state), DirectionDiffers);
    ValidateAmount(input)
  }

  function State(localMsat: u64, remoteMsat: u64, capacityMsat: u64): ProjectedState
    requires capacityMsat != 0
  {
    ProjectedState(Ratio(localMsat, capacityMsat), localMsat, remoteMsat, capacityMsat)
  }

  // `destination.local_balance_msat + amount_msat` is an unchecked addition.
  function BuildWarnings(source: SnapshotState, destination: SnapshotState, amountMsat: u64): seq<SimulationWarning>
    requires destination.localBalanceMsat + amountMsat <= MAX_U64
  {
    (if amountMsat > source.capacityMsat / 2 || amountMsat > destination.capacityMsat / 2
     then [AmountExceedsHalfCapacity] else []) +
    (if SaturatingSub(source.localBalanceMsat, amountMsat) < source.capacityMsat / 100
     then [SourceBalanceNearReserve] else []) +
    (if destination.localBalanceMsat + amountMsat >
        SaturatingSub(destination.capacityMsat, destination.capacityMsat / 100)
     then [DestinationBalanceNearCapacity] else [])
  }

  function Calculated(balance: Option<u64>, step: CalculationStep): Result<u64, ModelError> {
    if balance.Some? then Ok(balance.value) else Err(CalculationFailed(step))
  }

  function Delta(s: SnapshotState, localAfter: u64, remoteAfter: u64, amount: u64, findingChannel: ChannelId)
    : ProjectedDelta
  {
    ProjectedDelta(s.channelId, s.localBalanceMsat, localAfter, s.remoteBalanceMsat, remoteAfter, amount,
                   findingChannel == s.channelId &&
                   ComputeProfile(s.capacityMsat, localAfter, remoteAfter).imbalance == Balanced)
  }

  // The calculation that follows validation, with its checked steps.
  function Project(input: SimulationInput): Result<SimulationResult, ModelError>
    requires input.sourceSnapshot.state.capacityMsat != 0 && input.destinationSnapshot.state.capacityMsat != 0
  {
    var amount := input.parameters.amountMsat;
    var source, destination := input.sourceSnapshot.state, input.destinationSnapshot.state;
    var sourceLocal :- Calculated(CheckedSub(source.localBalanceMsat, amount), SourceLocalUnderflow);
    var sourceRemote :- Calculated(CheckedAdd(source.remoteBalanceMsat, amount), SourceRemoteOverflow);
    var destinationLocal :- Calculated(CheckedAdd(destination.localBalanceMsat, amount), DestinationLocalOverflow);
    var destinationRemote :-
      Calculated(CheckedSub(destination.remoteBalanceMsat, amount), DestinationRemoteUnderflow);
    var onSource := input.findingChannel == source.channelId;
    var found := if onSource then source else destination;
    Ok(SimulationResult(
      HashOf(input),
      State(found.localBalanceMsat, found.remoteBalanceMsat, found.capacityMsat),
      State(if onSource then sourceLocal else destinationLocal,
            if onSource then sourceRemote else destinationRemote, found.capacityMsat),
      Delta(source, sourceLocal, sourceRemote, amount, input.findingChannel),
      Delta(destination, destinationLocal, destinationRemote, amount, input.findingChannel),
      BuildWarnings(source, destination, amount)))
  }

  /** A validated redistribution always computes: no checked step fails, each
      channel keeps its total, the node keeps its local total, and both stay
      within capacity. An invalid one is refused with the validator's reason. */
  function Simulate(input: SimulationInput): (r: Result<SimulationResult, ModelError>)
    ensures Validate(input).Err? ==> r == Err(Validate(input).error)
    ensures Validate(input).Ok? ==>
              r.Ok? &&
              var source, destination := input.sourceSnapshot.state, input.destinationSnapshot.state;
              && r.value.inputHash == HashOf(input)
              && r.value.source.channelId != r.value.destination.channelId
              && r.value.source.deltaMsat == r.value.destination.deltaMsat == input.parameters.amountMsat > 0
              && r.value.source.localAfter == source.localBalanceMsat - input.parameters.amountMsat
              && r.value.destination.localAfter == destination.localBalanceMsat + input.parameters.amountMsat
              && r.value.source.localAfter + r.value.source.remoteAfter ==
                   source.localBalanceMsat + source.remoteBalanceMsat <= source.capacityMsat
              && r.value.destination.localAfter + r.value.destination.remoteAfter ==
                   destination.localBalanceMsat + destination.remoteBalanceMsat <= destination.capacityMsat
              && r.value.source.localAfter + r.value.destination.localAfter ==
                   source.localBalanceMsat + destination.localBalanceMsat
  {
    if Validate(input).Err? then Err(Validate(input).error) else Project(input)
  }

  // ---- What the model promises ----

  /** The projection moves the finding's channel against its drain, and the
      drain is reported cleared exactly when the channel ends between ten and
      ninety percent. */
  lemma ProjectionMovesAgainstTheDrain(input: SimulationInput)
    requires Validate(input).Ok?
    ensures Simulate(input).Ok?
    ensures var r := Simulate(input).value;
            var outbound := input.findingDirection == Some(Outbound);
            var delta := if outbound then r.destination else r.source;
            var capacity := if outbound then input.destinationSnapshot.state.capacityMsat
                                        else input.sourceSnapshot.state.capacityMsat;
            && delta.channelId == input.findingChannel
            && r.baseline.localMsat == delta.localBefore && r.projected.localMsat == delta.localAfter
            && (outbound ==> r.baseline.localMsat < r.projected.localMsat && !r.source.clearsFinding)
            && (!outbound ==> r.baseline.localMsat > r.projected.localMsat && !r.destination.clearsFinding)
            && (delta.clearsFinding <==> 10 * capacity <= 100 * delta.localAfter <= 90 * capacity)
  {
    ValidatedFacts(input);
    var r := Simulate(input).value;
    BalancedBand(input.sourceSnapshot.state.capacityMsat, r.source.localAfter, r.source.remoteAfter);
    BalancedBand(input.destinationSnapshot.state.capacityMsat, r.destination.localAfter, r.destination.remoteAfter);
  }

  /** A validated input is about one node, one network and one moment: both
      snapshots, the provenance and the state the finding observed agree. */
  lemma ValidatedInputIsConsistent(input: SimulationInput)
    requires Validate(input).Ok?
    ensures var source, destination := input.sourceSnapshot, input.destinationSnapshot;
            && source.state.nodeId == destination.state.nodeId == Some(input.nodeId)
            && input.network.Some?
            && source.state.network == destination.state.network == input.provenance.network == input.network
            && source.ts == destination.ts
            && ObservedReference(input.provenance.observation) ==
                 Some(SnapshotReference(input.network, source.ts, OfSnapshot(input.FindingSnapshot().state)))
            && input.FindingSnapshot().state.channelId == input.findingChannel == input.recommendationTarget
  {}

  function Least(a: u64, b: u64): u64 { if a < b then a else b }

  // What both channels can bear.
  function LargestAmount(input: SimulationInput): u64 {
    var source, destination := input.sourceSnapshot.state, input.destinationSnapshot.state;
    Least(Least(source.spendableOutboundMsat, source.localBalanceMsat),
          Least(Least(destination.spendableInboundMsat, destination.remoteBalanceMsat),
                SaturatingSub(destination.capacityMsat, destination.localBalanceMsat)))
  }

  function WithAmount(input: SimulationInput, amountMsat: u64): SimulationInput {
    input.(parameters := input.parameters.(amountMsat := amountMsat))
  }

  /** Of an input that validates at some amount, exactly the positive amounts up
      to one bound validate, the bound being fixed by the two channels' states. */
  lemma AmountsUpToALimitValidate(input: SimulationInput, amountMsat: u64)
    requires Validate(input).Ok?
    ensures 0 < input.parameters.amountMsat <= LargestAmount(input)
    ensures Validate(WithAmount(input, amountMsat)).Ok? <==> 0 < amountMsat <= LargestAmount(input)
  {
    ValidatedFacts(input);
    AmountIsSeparate(input, amountMsat);
    AmountIsSeparate(input, input.parameters.amountMsat);
  }

  // The amount matters to two of the checks only.
  lemma AmountIsSeparate(input: SimulationInput, amountMsat: u64)
    requires Validate(input).Ok?
    ensures Validate(WithAmount(input, amountMsat)).Ok? <==>
            amountMsat != 0 && ValidateAmount(WithAmount(input, amountMsat)).Ok?
  {
    var other := WithAmount(input, amountMsat);
    assert ValidateIdentity(other) == ValidateIdentity(input);
    assert amountMsat != 0 ==> ValidateSnapshots(other) == ValidateSnapshots(input);
  }

  lemma ValidatedFacts(input: SimulationInput)
    requires Validate(input).Ok?
    ensures input.findingDirection.Some?
    ensures input.sourceSnapshot.state.channelId == input.parameters.sourceChannel
    ensures input.destinationSnapshot.state.channelId == input.parameters.destinationChannel
    ensures input.parameters.sourceChannel != input.parameters.destinationChannel
    ensures input.findingChannel == if input.findingDirection.value.Outbound?
                                    then input.parameters.destinationChannel else input.parameters.sourceChannel
    ensures input.sourceSnapshot.state.capacityMsat > 0 && input.destinationSnapshot.state.capacityMsat > 0
    ensures 0 < input.parameters.amountMsat <= input.sourceSnapshot.state.spendableOutboundMsat
    ensures input.parameters.amountMsat <= input.destinationSnapshot.state.spendableInboundMsat
  {}

  lemma BalancedBand(capacityMsat: u64, localMsat: u64, remoteMsat: u64)
    requires 0 < capacityMsat && localMsat <= capacityMsat && remoteMsat <= capacityMsat
    ensures ComputeProfile(capacityMsat, localMsat, remoteMsat).imbalance == Balanced <==>
            10 * capacityMsat <= 100 * localMsat <= 90 * capacityMsat
  {}

  ghost predicate FromLnd(s: ChannelSnapshot, lnd: LndChannel) {
    exists node, seenAt, ts, network ::
      NormalizeChannel(lnd, node, seenAt).Ok? &&
      s.state == SnapshotOfChannel(NormalizeChannel(lnd, node, seenAt).value, ts, network).state
  }

  // A reserve that LND reported in satoshis, and that still fits after the conversion.
  predicate Reported(reserveSat: Option<i64>) { reserveSat.Some? && reserveSat.value >= 0 }
  predicate Convertible(reserveSat: i64) { 1_000 * reserveSat <= MAX_U64 }

  lemma ReserveWraps(reserveSat: i64)
    requires reserveSat >= 0
    ensures SatToMsat(Some(reserveSat)).value <= 1_000 * reserveSat
    ensures SatToMsat(Some(reserveSat)).value == 1_000 * reserveSat <==> Convertible(reserveSat)
  {}

  /** Over channels normalised from LND, a validated redistribution needs both
      limiting reserves known, and leaves each at or above what LND reported
      exactly when that many satoshis do not overflow the conversion. */
  lemma SimulationRespectsReserves(input: SimulationInput, source: LndChannel, destination: LndChannel)
    requires FromLnd(input.sourceSnapshot, source) && FromLnd(input.destinationSnapshot, destination)
    requires Validate(input).Ok?
    ensures Reported(source.localChanReserveSat) && Reported(destination.remoteChanReserveSat)
    ensures Simulate(input).Ok?
    ensures Simulate(input).value.source.localAfter >= 1_000 * source.localChanReserveSat.value <==>
            Convertible(source.localChanReserveSat.value)
    ensures Simulate(input).value.destination.remoteAfter >= 1_000 * destination.remoteChanReserveSat.value <==>
            Convertible(destination.remoteChanReserveSat.value)
  {
    ValidatedFacts(input);
    SpendableKeepsReserves(input.sourceSnapshot, source);
    SpendableKeepsReserves(input.destinationSnapshot, destination);
    ReserveWraps(source.localChanReserveSat.value);
    ReserveWraps(destination.remoteChanReserveSat.value);
  }

  // What may be spent is what the balance holds above a known reserve, as converted.
  lemma SpendableKeepsReserves(s: ChannelSnapshot, lnd: LndChannel)
    requires FromLnd(s, lnd)
    ensures s.state.spendableOutboundMsat > 0 ==>
              Reported(lnd.localChanReserveSat) &&
              s.state.localBalanceMsat - s.state.spendableOutboundMsat == SatToMsat(lnd.localChanReserveSat).value
    ensures s.state.spendableInboundMsat > 0 ==>
              Reported(lnd.remoteChanReserveSat) &&
              s.state.remoteBalanceMsat - s.state.spendableInboundMsat == SatToMsat(lnd.remoteChanReserveSat).value
  {
    var node, seenAt, ts, network :|
      NormalizeChannel(lnd, node, seenAt).Ok? &&
      s.state == SnapshotOfChannel(NormalizeChannel(lnd, node, seenAt).value, ts, network).state;
  }

  // ---- Two inputs that validate ----

  function SampleChannel(point: string, local: i64, remote: i64, reserve: i64): LndChannel {
    LndChannel(point, "peer", 1_000_000, local, remote, Some(reserve), Some(reserve), ChannelStatus.Active, false, true,
               None, None)
  }

  function SampleSnapshot(id: ChannelId, local: u64, remote: u64, reserve: u64): ChannelSnapshot
    requires local <= 1_000_000_000 && remote <= 1_000_000_000
  {
    var state := SnapshotState(Some("node"), Some(Mainnet), id, Ratio(local, 1_000_000_000), local, remote,
                               1_000_000_000, ChannelStatus.Active,
                               SaturatingSub(local, reserve), SaturatingSub(remote, reserve));
    ChannelSnapshot(state, Some(OfSnapshot(state)), 0)
  }

  // Half of the source channel is ours, a twentieth of the destination.
  function SampleSource(reserve: u64): ChannelSnapshot { SampleSnapshot("ax0", 500_000_000, 500_000_000, reserve) }
  const SAMPLE_SOURCE := SampleSource(10_000_000)
  const SAMPLE_DESTINATION := SampleSnapshot("bx0", 50_000_000, 950_000_000, 10_000_000)

  function SampleInputFrom(source: ChannelSnapshot): SimulationInput {
    var id := FindingId("channel_liquidity", "1", Some(Mainnet), Some("node"), Some("bx0"));
    var reference := SnapshotReference(Some(Mainnet), 0, OfSnapshot(SAMPLE_DESTINATION.state));
    SimulationInput(
      ActionId(id, RebalanceChannel, "bx0"), "bx0", id, "bx0", Some(Outbound), "node", Some(Mainnet),
      FindingProvenance(Some(Mainnet), Lnd("endpoint", "node"), [], ChannelState("bx0", reference)),
      RebalanceChannel, MODEL_ID, MODEL_VERSION, Parameters("ax0", "bx0", 200_000_000),
      source, SAMPLE_DESTINATION)
  }

  function SampleInput(): SimulationInput { SampleInputFrom(SAMPLE_SOURCE) }

  lemma ThousandTimes(sat: i64)
    requires 0 <= sat <= 1_000_000
    ensures WrappingMul(sat, 1_000) == sat * 1_000
  {}

  lemma SampleIsFromLnd(point: string, id: ChannelId, local: i64, remote: i64, reserve: i64)
    requires ':' in point && ColonsToX(point) == id
    requires 0 <= local <= 1_000_000 && 0 <= remote <= 1_000_000 && reserve >= 0
    ensures FromLnd(SampleSnapshot(id, local * 1_000, remote * 1_000, SatToMsat(Some(reserve)).value),
                    SampleChannel(point, local, remote, reserve))
  {
    var channel := NormalizeChannel(SampleChannel(point, local, remote, reserve), "node", 0);
    ThousandTimes(local);
    ThousandTimes(remote);
    ThousandTimes(1_000_000);
    assert SampleSnapshot(id, local * 1_000, remote * 1_000, SatToMsat(Some(reserve)).value).state ==
           SnapshotOfChannel(channel.value, 0, Mainnet).state;
  }

  lemma SampleEndsAreFromLnd(reserve: i64)
    requires reserve >= 0
    ensures FromLnd(SampleSource(SatToMsat(Some(reserve)).value), SampleChannel("a:0", 500_000, 500_000, reserve))
    ensures FromLnd(SAMPLE_DESTINATION, SampleChannel("b:0", 50_000, 950_000, 10_000))
  {
    assert SatToMsat(Some(10_000)).value == 10_000_000;
    SampleIsFromLnd("a:0", "ax0", 500_000, 500_000, reserve);
    SampleIsFromLnd("b:0", "bx0", 50_000, 950_000, 10_000);
  }

  lemma SampleIdentityValidates(source: ChannelSnapshot)
    requires source.state.channelId == "ax0"
    ensures ValidateIdentity(SampleInputFrom(source)).Ok?
  {
    assert "node"[0] in "node" && !IsWhitespace("node"[0]);
    assert "ax0"[0] != "bx0"[0];
  }

  lemma SampleFromValidates(reserve: u64)
    requires reserve <= 10_000_000
    ensures Validate(SampleInputFrom(SampleSource(reserve))).Ok?
  {
    var input := SampleInputFrom(SampleSource(reserve));
    SampleIdentityValidates(SampleSource(reserve));
    assert ValidateSnapshots(input).Ok?;
    assert ValidateSnapshot(input.sourceSnapshot.state).Ok?;
    assert ValidateSnapshot(input.destinationSnapshot.state).Ok?;
    assert ValidateAmount(input).Ok?;
  }

  /** Restoring the outbound side of a drained channel is such an input, over two
      channels normalised from LND: the results above are about something. */
  lemma SampleValidates()
    ensures Validate(SampleInput()).Ok?
    ensures FromLnd(SampleInput().sourceSnapshot, SampleChannel("a:0", 500_000, 500_000, 10_000))
    ensures FromLnd(SampleInput().destinationSnapshot, SampleChannel("b:0", 50_000, 950_000, 10_000))
  {
    assert SatToMsat(Some(10_000)).value == 10_000_000;
    SampleEndsAreFromLnd(10_000);
    SampleFromValidates(10_000_000);
  }

  // 2^64 millisatoshis and 384 more.
  const HUGE_RESERVE: i64 := 18_446_744_073_709_552

  /** A reserve that overflows the conversion counts as 384 millisatoshis, and the
      redistribution validates far below it. */
  lemma WrappedReserveIsOverrun()
    ensures var input := SampleInputFrom(SampleSource(384));
            && FromLnd(input.sourceSnapshot, SampleChannel("a:0", 500_000, 500_000, HUGE_RESERVE))
            && Validate(input).Ok? && Simulate(input).Ok?
            && Simulate(input).value.source.localAfter == 300_000_000 < 1_000 * HUGE_RESERVE
  {
    assert SatToMsat(Some(HUGE_RESERVE)) == Some(384);
    SampleEndsAreFromLnd(HUGE_RESERVE);
    SampleFromValidates(384);
  }
}

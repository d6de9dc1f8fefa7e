/** Findings, recommendations and channel snapshots (crates/rieko-findings and
    crates/rieko-domain), as the stores and the simulation model see them. */
module Findings {
  import opened Wrappers
  import opened Numbers
  import opened Domain

  datatype Severity = Info | Warning | Critical {
    function Rank(): nat {
      match this
      case Info => 0
      case Warning => 1
      case Critical => 2
    }
  }

  // The state a snapshot digest covers: everything but the digest and the observation time.
  datatype SnapshotState = SnapshotState(
    nodeId: Option<string>,
    network: Option<BitcoinNetwork>,
    channelId: ChannelId,
    localRatio: real,
    localBalanceMsat: u64,
    remoteBalanceMsat: u64,
    capacityMsat: u64,
    status: ChannelStatus,
    spendableOutboundMsat: u64,
    spendableInboundMsat: u64)

  // SHA-256 over an injective preimage stands for an injective constructor.
  datatype Digest = OfSnapshot(state: SnapshotState) | Composite(name: string)

  datatype ChannelSnapshot = ChannelSnapshot(state: SnapshotState, stateDigest: Option<Digest>, ts: int)

  function SnapshotOfChannel(channel: Channel, ts: int, network: BitcoinNetwork): ChannelSnapshot {
    ChannelSnapshot(
      SnapshotState(Some(channel.node), Some(network), channel.id, channel.liquidity.localRatio,
                    channel.liquidity.localBalanceMsat, channel.liquidity.remoteBalanceMsat, channel.capacityMsat,
                    channel.status, channel.liquidity.spendableOutboundMsat, channel.liquidity.spendableInboundMsat),
      None, ts)
  }

  datatype ObservationSource =
    | Fixture(redactedHash: string, configuredNode: string)
    | Lnd(redactedEndpoint: string, configuredNode: string)
    | BtcPay(redactedEndpoint: string, configuredStore: string, underlyingNode: Option<string>)

  datatype SnapshotReference = SnapshotReference(network: Option<BitcoinNetwork>, observedAt: int, stateDigest: Digest)

  datatype ObservationReference =
    | ChannelState(channelId: ChannelId, snapshot: SnapshotReference)
    | ChannelWindow(channelId: ChannelId, snapshots: seq<SnapshotReference>)

  datatype ProducerRole = Ingest | Normalizer | Detector
  datatype ProducerVersion = ProducerVersion(name: string, version: string, role: ProducerRole)

  datatype FindingProvenance = FindingProvenance(
    network: Option<BitcoinNetwork>, source: ObservationSource, producers: seq<ProducerVersion>,
    observation: ObservationReference)

  datatype EvidenceValue =
    | Text(text: string)
    | Count(count: nat)
    | Rate(part: nat, whole: nat)
    | TextList(items: seq<string>)
    | Moment(at: int)
  datatype Evidence = Evidence(key: string, value: EvidenceValue)

  datatype FindingLifecycle = ActiveFinding | ResolvedFinding

  const FINDING_SCHEMA_VERSION: nat := 2

  // The identities of crates/rieko-findings/src/identity.rs. Identity.dfy shows
  // that their preimages determine these fields.
  datatype FindingId = FindingId(
    detector: string, detectorVersion: string, network: Option<BitcoinNetwork>,
    node: Option<string>, channel: Option<string>)
  datatype ActionId = ActionId(findingId: FindingId, actionType: ActionType, target: string)

  datatype Finding = Finding(
    id: FindingId,
    detector: string,
    detectorVersion: string,
    schemaVersion: nat,
    severity: Severity,
    node: Option<string>,
    channel: Option<string>,
    evidence: seq<Evidence>,
    provenance: Option<FindingProvenance>,
    explanation: Option<string>,
    timestamp: int,
    firstSeenAt: int,
    lastSeenAt: int,
    lifecycle: FindingLifecycle)
  {
    // `provenance.as_ref().and_then(|p| p.network)`
    function Network(): Option<BitcoinNetwork> {
      if provenance.Some? then provenance.value.network else None
    }
  }

  datatype FindingCycleScope = FindingCycleScope(
    detector: string, network: Option<BitcoinNetwork>, node: Option<string>, complete: bool)

  datatype ActionType = RebalanceChannel | UpdateFeePolicy | RestartService | Custom
  datatype Action = Action(id: ActionId, actionType: ActionType, target: Option<string>, updatedAt: int)
  datatype RecommendationLifecycle = ActiveRecommendation | ResolvedRecommendation
  datatype Recommendation = Recommendation(
    findingId: FindingId, action: Action, lifecycle: Option<RecommendationLifecycle>)
}

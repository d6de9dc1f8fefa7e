/** Which rows a command resolves to, and why it does not
    (crates/rieko-simulation-app/src/lib.rs, `create_in_transaction`). */
module ResolvedInputs {
  import opened Wrappers
  import opened Numbers
  import opened Domain
  import opened Findings
  import opened Redistribution
  import opened StoreModel
  import opened SimulationApp

  // ---- The rows ----

  ghost predicate FirstFinding(fs: seq<Finding>, id: FindingId, i: nat) {
    i < |fs| && fs[i].id == id && forall j | 0 <= j < i :: fs[j].id != id
  }

  predicate Shows(s: ChannelSnapshot, network: BitcoinNetwork, node: string, channel: ChannelId, at: int) {
    s.state.network == Some(network) && s.state.nodeId == Some(node) && s.state.channelId == channel && s.ts == at
  }

  ghost predicate FirstSnapshot(ss: seq<ChannelSnapshot>, network: BitcoinNetwork, node: string, channel: ChannelId,
                                at: int, i: nat) {
    i < |ss| && Shows(ss[i], network, node, channel, at) &&
    forall j | 0 <= j < i :: !Shows(ss[j], network, node, channel, at)
  }

  lemma FindingFound(fs: seq<Finding>, id: FindingId, i: nat)
    requires FirstFinding(fs, id, i)
    ensures FindFinding(fs, id) == Some(i)
  {
    assert fs[i] in fs;
  }

  lemma {:induction false} SnapshotIs(ss: seq<ChannelSnapshot>, network: BitcoinNetwork, node: string,
                                      channel: ChannelId, at: int) returns (i: nat)
    ensures SnapshotAt(ss, network, node, channel, at).None? ==>
              forall s | s in ss :: !Shows(s, network, node, channel, at)
    ensures SnapshotAt(ss, network, node, channel, at).Some? ==>
              FirstSnapshot(ss, network, node, channel, at, i) &&
              SnapshotAt(ss, network, node, channel, at) == Some(ss[i])
  {
    i := 0;
    if ss != [] && !Shows(ss[0], network, node, channel, at) {
      assert ss == [ss[0]] + ss[1..];
      var k := SnapshotIs(ss[1..], network, node, channel, at);
      assert forall j | 1 <= j < |ss| :: ss[j] == ss[1..][j - 1];
      i := k + 1;
    }
  }

  lemma SnapshotFound(ss: seq<ChannelSnapshot>, network: BitcoinNetwork, node: string, channel: ChannelId, at: int,
                      i: nat)
    requires FirstSnapshot(ss, network, node, channel, at, i)
    ensures SnapshotAt(ss, network, node, channel, at) == Some(ss[i])
  {
    var k := SnapshotIs(ss, network, node, channel, at);
    assert ss[i] in ss;
  }

  // ---- The direction ----

  ghost predicate OnlyDirection(evidence: seq<Evidence>, i: nat) {
    i < |evidence| && evidence[i].key == "direction" &&
    forall j | 0 <= j < |evidence| && j != i :: evidence[j].key != "direction"
  }

  lemma {:induction false} NoDirection(evidence: seq<Evidence>)
    ensures DirectionEvidence(evidence) == [] <==> forall e | e in evidence :: e.key != "direction"
  {
    if evidence != [] {
      NoDirection(evidence[1..]);
      assert evidence == [evidence[0]] + evidence[1..];
    }
  }

  lemma OnlyAtHead(evidence: seq<Evidence>, k: nat)
    requires evidence != [] && evidence[0].key == "direction"
    ensures OnlyDirection(evidence, k) <==> k == 0 && forall e | e in evidence[1..] :: e.key != "direction"
  {
    if forall e | e in evidence[1..] :: e.key != "direction" {
      forall j | 1 <= j < |evidence|
        ensures evidence[j].key != "direction"
      {
        assert evidence[j] == evidence[1..][j - 1] && evidence[j] in evidence[1..];
      }
    }
  }

  lemma OnlyInTail(evidence: seq<Evidence>, k: nat)
    requires evidence != [] && evidence[0].key != "direction"
    ensures !OnlyDirection(evidence, 0)
    ensures OnlyDirection(evidence, k + 1) <==> OnlyDirection(evidence[1..], k)
  {
    assert forall j | 1 <= j < |evidence| :: evidence[j] == evidence[1..][j - 1];
  }

  // What the list of direction values says of the evidence; `i` is where the only one stands.
  ghost predicate Located(evidence: seq<Evidence>, values: seq<EvidenceValue>, i: nat) {
    if |values| == 1 then OnlyDirection(evidence, i) && values == [evidence[i].value]
    else forall k: nat :: !OnlyDirection(evidence, k)
  }

  lemma LocatedAtHead(evidence: seq<Evidence>)
    requires evidence != [] && evidence[0].key == "direction"
    ensures Located(evidence, DirectionEvidence(evidence), 0)
  {
    NoDirection(evidence[1..]);
    OnlyAtHead(evidence, 0);
    if |DirectionEvidence(evidence)| != 1 {
      forall k: nat
        ensures !OnlyDirection(evidence, k)
      {
        OnlyAtHead(evidence, k);
      }
    }
  }

  lemma LocatedInTail(evidence: seq<Evidence>, values: seq<EvidenceValue>, i: nat)
    requires evidence != [] && evidence[0].key != "direction" && Located(evidence[1..], values, i)
    ensures Located(evidence, values, i + 1)
  {
    OnlyInTail(evidence, i);
    if |values| != 1 {
      forall k: nat
        ensures !OnlyDirection(evidence, k)
      {
        OnlyInTail(evidence, if k > 0 then k - 1 else 0);
      }
    }
  }

  lemma DirectionsOfTail(evidence: seq<Evidence>)
    requires evidence != [] && evidence[0].key != "direction"
    ensures DirectionEvidence(evidence) == DirectionEvidence(evidence[1..])
  {}

  lemma {:induction false} DirectionsIffOne(evidence: seq<Evidence>) returns (i: nat)
    ensures Located(evidence, DirectionEvidence(evidence), i)
  {
    i := 0;
    if evidence != [] {
      if evidence[0].key == "direction" {
        LocatedAtHead(evidence);
      } else {
        i := DirectionsIffOne(evidence[1..]);
        LocatedInTail(evidence, DirectionEvidence(evidence[1..]), i);
        DirectionsOfTail(evidence);
        i := i + 1;
      }
    }
  }

  /** A liquidity finding has a direction exactly if one piece of its evidence, and
      one only, names it and says outbound or inbound. */
  lemma DirectionIs(f: Finding, d: FindingDirection)
    ensures ParseFindingDirection(f) == Ok(d) <==>
            f.detector == "channel_liquidity" &&
            exists i: nat :: OnlyDirection(f.evidence, i) &&
                             f.evidence[i].value == Text(if d.Outbound? then "outbound" else "inbound")
    ensures f.detector != "channel_liquidity" ==> ParseFindingDirection(f) == Err(AppError(UnsupportedError, None))
    ensures f.detector == "channel_liquidity" && ParseFindingDirection(f).Err? ==>
              ParseFindingDirection(f).error == AppError(InvalidInputError, None)
  {
    var k := DirectionsIffOne(f.evidence);
    assert "outbound"[0] != "inbound"[0];
    if i: nat :| OnlyDirection(f.evidence, i) {
      assert i == k;
    }
  }

  // ---- The input ----

  // Text that is there and not blank.
  predicate IsText(text: Option<string>) {
    text.Some? && exists i :: 0 <= i < |text.value| && !IsWhitespace(text.value[i])
  }

  lemma GivenIsText(text: Option<string>)
    ensures Given(text) <==> IsText(text)
  {}

  // The recommendation, its finding, and what both say about where the finding was made.
  ghost predicate Names(t: Tables, id: ActionId, ri: nat, fi: nat) {
    && FirstRecommendation(t.recommendations, id, ri)
    && FirstFinding(t.findings, t.recommendations[ri].findingId, fi)
    && t.findings[fi].lifecycle == ActiveFinding
  }

  ghost predicate HasContext(r: Recommendation, f: Finding) {
    && IsText(f.node) && IsText(f.channel) && IsText(r.action.target)
    && f.provenance.Some? && f.provenance.value.network.Some?
    && ObservedReference(f.provenance.value.observation).Some?
    && ObservedReference(f.provenance.value.observation).value.network == f.provenance.value.network
  }

  ghost predicate HasDirection(r: Recommendation, f: Finding, direction: Option<FindingDirection>) {
    if r.action.actionType == RebalanceChannel then
      direction.Some? && ParseFindingDirection(f) == Ok(direction.value)
    else direction.None?
  }

  ghost predicate HasSnapshots(t: Tables, c: CreateSimulationCommand, f: Finding, si: nat, di: nat)
    requires f.node.Some? && f.provenance.Some? && f.provenance.value.network.Some?
    requires ObservedReference(f.provenance.value.observation).Some?
  {
    var network := f.provenance.value.network.value;
    var at := ObservedReference(f.provenance.value.observation).value.observedAt;
    && FirstSnapshot(t.channelSnapshots, network, f.node.value, c.sourceChannel, at, si)
    && FirstSnapshot(t.channelSnapshots, network, f.node.value, c.destinationChannel, at, di)
  }

  // The input that a command makes of its rows.
  ghost predicate IsMadeOf(input: SimulationInput, c: CreateSimulationCommand, amountMsat: u64, r: Recommendation,
                           f: Finding, source: ChannelSnapshot, destination: ChannelSnapshot)
    requires HasContext(r, f)
  {
    && input.recommendationId == r.action.id && input.recommendationTarget == r.action.target.value
    && input.findingId == r.findingId && input.findingChannel == f.channel.value
    && HasDirection(r, f, input.findingDirection)
    && input.nodeId == f.node.value && input.network == f.provenance.value.network
    && input.provenance == f.provenance.value && input.actionType == r.action.actionType
    && input.modelId == "liquidity-redistribution" && input.modelVersion == "3"
    && input.parameters == Parameters(c.sourceChannel, c.destinationChannel, amountMsat)
    && input.sourceSnapshot == source && input.destinationSnapshot == destination
  }

  /** From an active finding with its context and two snapshots of its observation, a
      command makes exactly this input, of the first rows that match. */
  lemma ResolvesToItsRows(t: Tables, c: CreateSimulationCommand, amountMsat: u64, ri: nat, fi: nat, si: nat, di: nat,
                          input: SimulationInput)
    requires c.recommendationId.Some? && Names(t, c.recommendationId.value, ri, fi)
    requires HasContext(t.recommendations[ri], t.findings[fi])
    requires HasSnapshots(t, c, t.findings[fi], si, di)
    ensures ResolveInput(t, c, amountMsat) == Ok(input) <==>
            IsMadeOf(input, c, amountMsat, t.recommendations[ri], t.findings[fi], t.channelSnapshots[si],
                     t.channelSnapshots[di])
  {
    var r, f := t.recommendations[ri], t.findings[fi];
    var network := f.provenance.value.network.value;
    var at := ObservedReference(f.provenance.value.observation).value.observedAt;
    RecommendationFound(t.recommendations, c.recommendationId.value, ri);
    FindingFound(t.findings, r.findingId, fi);
    GivenIsText(f.node);
    GivenIsText(f.channel);
    GivenIsText(r.action.target);
    SnapshotFound(t.channelSnapshots, network, f.node.value, c.sourceChannel, at, si);
    SnapshotFound(t.channelSnapshots, network, f.node.value, c.destinationChannel, at, di);
  }

  // ---- Why a command does not resolve ----

  predicate FailsWith(r: Result<SimulationInput, AppError>, kind: AppErrorKind) {
    r == Err(AppError(kind, None))
  }

  lemma NoRecommendation(t: Tables, c: CreateSimulationCommand, amountMsat: u64)
    requires c.recommendationId.Some?
    requires forall r | r in t.recommendations :: r.action.id != c.recommendationId.value
    ensures FailsWith(ResolveInput(t, c, amountMsat), RecommendationNotFound)
  {}

  /** A recommendation that the model does not support either resolves or is refused
      as unsupported, whatever else is missing. */
  lemma UnsupportedFails(t: Tables, c: CreateSimulationCommand, amountMsat: u64, ri: nat)
    requires c.recommendationId.Some? && FirstRecommendation(t.recommendations, c.recommendationId.value, ri)
    requires t.recommendations[ri].action.actionType != RebalanceChannel
    ensures ResolveInput(t, c, amountMsat).Err? ==> FailsWith(ResolveInput(t, c, amountMsat), UnsupportedError)
  {
    RecommendationFound(t.recommendations, c.recommendationId.value, ri);
  }

  lemma NoActiveFinding(t: Tables, c: CreateSimulationCommand, amountMsat: u64, ri: nat)
    requires c.recommendationId.Some? && FirstRecommendation(t.recommendations, c.recommendationId.value, ri)
    requires t.recommendations[ri].action.actionType == RebalanceChannel
    ensures (forall f | f in t.findings :: f.id != t.recommendations[ri].findingId) ==>
              FailsWith(ResolveInput(t, c, amountMsat), FindingNotFound)
    ensures forall fi: nat | FirstFinding(t.findings, t.recommendations[ri].findingId, fi) &&
                             t.findings[fi].lifecycle == ResolvedFinding ::
              FailsWith(ResolveInput(t, c, amountMsat), FindingInactive)
  {
    RecommendationFound(t.recommendations, c.recommendationId.value, ri);
    forall fi: nat | FirstFinding(t.findings, t.recommendations[ri].findingId, fi)
      ensures FindFinding(t.findings, t.recommendations[ri].findingId) == Some(fi)
    {
      FindingFound(t.findings, t.recommendations[ri].findingId, fi);
    }
  }

  /** With an active finding: the direction is looked at first, then the context,
      then the snapshots. */
  lemma MissingContextFails(t: Tables, c: CreateSimulationCommand, amountMsat: u64, ri: nat, fi: nat)
    requires c.recommendationId.Some? && Names(t, c.recommendationId.value, ri, fi)
    requires t.recommendations[ri].action.actionType == RebalanceChannel
    ensures ParseFindingDirection(t.findings[fi]).Err? ==>
              FailsWith(ResolveInput(t, c, amountMsat), ParseFindingDirection(t.findings[fi]).error.kind)
    ensures ParseFindingDirection(t.findings[fi]).Ok? ==>
              (FailsWith(ResolveInput(t, c, amountMsat), MissingContext) <==>
               !HasContext(t.recommendations[ri], t.findings[fi]))
    ensures ParseFindingDirection(t.findings[fi]).Ok? && HasContext(t.recommendations[ri], t.findings[fi]) ==>
              ResolveInput(t, c, amountMsat).Ok? || FailsWith(ResolveInput(t, c, amountMsat), SnapshotNotFound)
  {
    var r, f := t.recommendations[ri], t.findings[fi];
    RecommendationFound(t.recommendations, c.recommendationId.value, ri);
    FindingFound(t.findings, r.findingId, fi);
    GivenIsText(f.node);
    GivenIsText(f.channel);
    GivenIsText(r.action.target);
  }

  lemma MissingSnapshotFails(t: Tables, c: CreateSimulationCommand, amountMsat: u64, ri: nat, fi: nat)
    requires c.recommendationId.Some? && Names(t, c.recommendationId.value, ri, fi)
    requires t.recommendations[ri].action.actionType == RebalanceChannel
    requires ParseFindingDirection(t.findings[fi]).Ok? && HasContext(t.recommendations[ri], t.findings[fi])
    ensures ResolveInput(t, c, amountMsat).Ok? <==>
            exists si: nat, di: nat :: HasSnapshots(t, c, t.findings[fi], si, di)
  {
    var r, f := t.recommendations[ri], t.findings[fi];
    var network := f.provenance.value.network.value;
    var at := ObservedReference(f.provenance.value.observation).value.observedAt;
    var si := SnapshotIs(t.channelSnapshots, network, f.node.value, c.sourceChannel, at);
    var di := SnapshotIs(t.channelSnapshots, network, f.node.value, c.destinationChannel, at);
    MissingContextFails(t, c, amountMsat, ri, fi);
    ResolvedIffSnapshots(t, c, amountMsat, ri, fi);
    if i: nat, j: nat :| HasSnapshots(t, c, f, i, j) {
      SnapshotFound(t.channelSnapshots, network, f.node.value, c.sourceChannel, at, i);
      SnapshotFound(t.channelSnapshots, network, f.node.value, c.destinationChannel, at, j);
    }
    if ResolveInput(t, c, amountMsat).Ok? {
      assert HasSnapshots(t, c, f, si, di);
    }
  }

  lemma ResolvedIffSnapshots(t: Tables, c: CreateSimulationCommand, amountMsat: u64, ri: nat, fi: nat)
    requires c.recommendationId.Some? && Names(t, c.recommendationId.value, ri, fi)
    requires t.recommendations[ri].action.actionType == RebalanceChannel
    requires ParseFindingDirection(t.findings[fi]).Ok? && HasContext(t.recommendations[ri], t.findings[fi])
    ensures var f := t.findings[fi];
            var network := f.provenance.value.network.value;
            var at := ObservedReference(f.provenance.value.observation).value.observedAt;
            ResolveInput(t, c, amountMsat).Ok? <==>
            SnapshotAt(t.channelSnapshots, network, f.node.value, c.sourceChannel, at).Some? &&
            SnapshotAt(t.channelSnapshots, network, f.node.value, c.destinationChannel, at).Some?
  {
    var r, f := t.recommendations[ri], t.findings[fi];
    RecommendationFound(t.recommendations, c.recommendationId.value, ri);
    FindingFound(t.findings, r.findingId, fi);
    GivenIsText(f.node);
    GivenIsText(f.channel);
    GivenIsText(r.action.target);
  }

  ghost predicate NamesAll(c: CreateSimulationCommand) {
    && c.recommendationId.Some? && IsText(Some(c.modelId)) && IsText(Some(c.sourceChannel))
    && IsText(Some(c.destinationChannel)) && c.amountSats > 0
  }

  lemma CommandIsValidIff(c: CreateSimulationCommand)
    ensures ValidateCommand(c) == if NamesAll(c) then Ok(()) else Err(AppError(InvalidRequest, None))
  {
    GivenIsText(Some(c.modelId));
    GivenIsText(Some(c.sourceChannel));
    GivenIsText(Some(c.destinationChannel));
  }

  lemma AmountFitsIff(sats: u64)
    ensures CheckedMul(sats, 1_000) == if 1_000 * sats <= MAX_U64 then Some(1_000 * sats) else None
  {}

  // The refusal that needs no look at the store, if there is one.
  ghost function EarlyRefusal(c: CreateSimulationCommand): Option<AppErrorKind> {
    if !NamesAll(c) then Some(InvalidRequest)
    else if c.modelId != "liquidity-redistribution" then Some(UnknownModel)
    else if 1_000 * c.amountSats > MAX_U64 then Some(InvalidRequest)
    else None
  }

  /** A command that leaves something blank, moves nothing, names a model other than
      the one there is, or moves more than fits in millisatoshis is refused, in that
      order, and nothing is written. */
  lemma CommandIsRefused(t: Tables, c: CreateSimulationCommand, ids: Fresh, clock: Clock)
    requires EarlyRefusal(c).Some?
    ensures Respond(t, c, ids, clock) == Reply(t, Err(AppError(EarlyRefusal(c).value, None)))
  {
    CommandIsValidIff(c);
    AmountFitsIff(c.amountSats);
  }
}

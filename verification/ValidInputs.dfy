/** Which simulation inputs validate, and what a projection reports, in the terms of
    balances and capacities (crates/rieko-simulation/src/model.rs). */
module ValidInputs {
  import opened Wrappers
  import opened Numbers
  import opened Domain
  import opened Findings
  import opened Redistribution

  // ---- One snapshot ----

  // The recorded share is the local one up to four times 2^-52.
  ghost predicate Coherent(s: SnapshotState) {
    && s.status == ChannelStatus.Active && s.capacityMsat > 0
    && s.localBalanceMsat + s.remoteBalanceMsat <= s.capacityMsat
    && 0.0 <= s.localRatio <= 1.0
    && -(4.0 * s.capacityMsat as real) <=
         (s.localRatio * s.capacityMsat as real - s.localBalanceMsat as real) * 4503599627370496.0 <=
         4.0 * s.capacityMsat as real
  }

  lemma ShareOf(part: u64, whole: u64)
    requires whole > 0
    ensures Ratio(part, whole) * whole as real == part as real
  {}

  lemma ScaledBound(x: real, y: real, whole: real)
    requires whole > 0.0
    ensures x <= y <==> x * whole <= y * whole
  {
    if x < y {
      assert (y - x) * whole > 0.0;
      assert (y - x) * whole == y * whole - x * whole;
    } else if x > y {
      assert (x - y) * whole > 0.0;
      assert (x - y) * whole == x * whole - y * whole;
    }
  }

  lemma BoundScales(x: real, bound: real, scale: real, scaledBound: real)
    requires scale > 0.0 && bound * scale == scaledBound
    ensures -bound <= x <= bound <==> -scaledBound <= x * scale <= scaledBound
  {
    ScaledBound(x, bound, scale);
    ScaledBound(-bound, x, scale);
    assert (-bound) * scale == -(bound * scale);
  }

  lemma ToleranceScales(ratio: real, part: u64, whole: u64)
    requires whole > 0
    ensures Abs(ratio - Ratio(part, whole)) <= RATIO_TOLERANCE <==>
            -(4.0 * whole as real) <= (ratio * whole as real - part as real) * 4503599627370496.0 <= 4.0 * whole as real
  {
    var x, w := ratio - Ratio(part, whole), whole as real;
    ShareOf(part, whole);
    assert x * w == ratio * w - part as real;
    assert RATIO_TOLERANCE * (w * 4503599627370496.0) == 4.0 * w;
    assert x * (w * 4503599627370496.0) == (x * w) * 4503599627370496.0;
    BoundScales(x, RATIO_TOLERANCE, w * 4503599627370496.0, 4.0 * w);
  }

  lemma SnapshotValidatesIff(s: SnapshotState)
    ensures ValidateSnapshot(s).Ok? <==> Coherent(s)
  {
    if s.capacityMsat > 0 {
      ToleranceScales(s.localRatio, s.localBalanceMsat, s.capacityMsat);
    }
  }

  lemma SideOf(ratio: real, local: real, w: real)
    requires w > 0.0 && -(4.0 * w) <= (ratio * w - local) * 4503599627370496.0 <= 4.0 * w
    ensures 10.0 * local < w ==> ratio < 0.5
    ensures 10.0 * local > 9.0 * w ==> ratio > 0.5
  {
    var share := ratio * w;
    ScaledBound(0.5, ratio, w);
    ScaledBound(ratio, 0.5, w);
    if 10.0 * local < w {
      assert share < 0.5 * w;
    }
    if 10.0 * local > 9.0 * w {
      assert share > 0.5 * w;
    }
  }

  // The recorded share of a coherent snapshot falls on the same side of one half.
  lemma RecordedSide(s: SnapshotState)
    requires Coherent(s)
    ensures 100 * s.localBalanceMsat < 10 * s.capacityMsat ==> s.localRatio < 0.5
    ensures 100 * s.localBalanceMsat > 90 * s.capacityMsat ==> !(s.localRatio < 0.5)
  {
    SideOf(s.localRatio, s.localBalanceMsat as real, s.capacityMsat as real);
  }

  /** A finding has its direction confirmed exactly when the channel holds less
      than a tenth of its capacity on this side, or more than nine tenths. */
  lemma DirectionIsTheDrain(s: SnapshotState)
    requires ValidateSnapshot(s).Ok?
    ensures DirectionMatches(Outbound, s) <==> 100 * s.localBalanceMsat < 10 * s.capacityMsat
    ensures DirectionMatches(Inbound, s) <==> 100 * s.localBalanceMsat > 90 * s.capacityMsat
  {
    SnapshotValidatesIff(s);
    RecordedSide(s);
  }

  // ---- The whole input ----

  // The latest of a window, and of several the last.
  ghost predicate LatestAt(refs: seq<SnapshotReference>, i: nat) {
    && i < |refs|
    && (forall j | 0 <= j < i :: refs[j].observedAt <= refs[i].observedAt)
    && (forall j | i < j < |refs| :: refs[j].observedAt < refs[i].observedAt)
  }

  // The observation a finding rests on is the latest of its window.
  lemma {:induction false} LatestReferenceIsTheLatest(refs: seq<SnapshotReference>) returns (i: nat)
    ensures refs == [] ==> LatestReference(refs) == None
    ensures refs != [] ==> LatestAt(refs, i) && LatestReference(refs) == Some(refs[i])
  {
    i := 0;
    if refs != [] {
      var n := |refs| - 1;
      i := LatestReferenceIsTheLatest(refs[..n]);
      if n == 0 || refs[i].observedAt <= refs[n].observedAt {
        i := n;
      }
    }
  }

  // The channel whose drain the finding reports.
  function FoundSnapshot(input: SimulationInput): ChannelSnapshot
    requires input.findingDirection.Some?
  {
    if input.findingDirection.value.Outbound? then input.destinationSnapshot else input.sourceSnapshot
  }

  // Model, node, network, recommendation and observation name one finding.
  ghost predicate AboutOneFinding(input: SimulationInput) {
    && input.actionType == RebalanceChannel
    && input.modelId == "liquidity-redistribution" && input.modelVersion == "3"
    && !IsBlank(input.nodeId) && input.network.Some? && input.provenance.network == input.network
    && (input.provenance.source.Lnd? ==> input.provenance.source.configuredNode == input.nodeId)
    && input.recommendationTarget == input.findingChannel == input.provenance.observation.channelId
    && input.findingDirection.Some?
    && ObservedReference(input.provenance.observation) ==
         Some(SnapshotReference(input.network, FoundSnapshot(input).ts, OfSnapshot(FoundSnapshot(input).state)))
  }

  predicate Recorded(s: ChannelSnapshot, channelId: ChannelId, input: SimulationInput) {
    && s.state.channelId == channelId && s.state.nodeId == Some(input.nodeId) && s.state.network == input.network
    && s.stateDigest == Some(OfSnapshot(s.state))
  }

  // Two different channels of that node, as recorded at one moment; the finding is about its end of the move.
  ghost predicate OneMove(input: SimulationInput) {
    && input.parameters.sourceChannel != input.parameters.destinationChannel
    && Recorded(input.sourceSnapshot, input.parameters.sourceChannel, input)
    && Recorded(input.destinationSnapshot, input.parameters.destinationChannel, input)
    && input.sourceSnapshot.ts == input.destinationSnapshot.ts
    && input.findingDirection.Some? && input.findingChannel == FoundSnapshot(input).state.channelId
  }

  ghost predicate Drained(input: SimulationInput)
    requires input.findingDirection.Some?
  {
    var s := FoundSnapshot(input).state;
    match input.findingDirection.value
    case Outbound => 100 * s.localBalanceMsat < 10 * s.capacityMsat
    case Inbound => 100 * s.localBalanceMsat > 90 * s.capacityMsat
  }

  ghost predicate Affordable(input: SimulationInput) {
    var amount := input.parameters.amountMsat;
    var source, destination := input.sourceSnapshot.state, input.destinationSnapshot.state;
    && 0 < amount <= source.spendableOutboundMsat && amount <= destination.spendableInboundMsat
    && amount <= source.localBalanceMsat && amount <= destination.remoteBalanceMsat
    && destination.localBalanceMsat + amount <= destination.capacityMsat
  }

  lemma IdentityValidatesIff(input: SimulationInput)
    requires ValidateSnapshots(input).Ok?
    ensures ValidateIdentity(input).Ok? <==>
            AboutOneFinding(input) && input.findingChannel == FoundSnapshot(input).state.channelId
  {}

  lemma SnapshotsValidateIff(input: SimulationInput)
    ensures ValidateSnapshots(input).Ok? <==>
            && input.parameters.amountMsat > 0
            && input.parameters.sourceChannel != input.parameters.destinationChannel
            && Recorded(input.sourceSnapshot, input.parameters.sourceChannel, input)
            && Recorded(input.destinationSnapshot, input.parameters.destinationChannel, input)
            && input.sourceSnapshot.ts == input.destinationSnapshot.ts
  {}

  lemma FoundIsTheFindings(input: SimulationInput)
    requires AboutOneFinding(input) && OneMove(input)
    ensures input.FindingSnapshot() == FoundSnapshot(input)
  {}

  /** An input validates if and only if it is about one finding and one move of a
      positive amount that both coherent channels can bear, and the finding's
      channel is drained in the finding's direction. */
  lemma ValidatesIff(input: SimulationInput)
    ensures Validate(input).Ok? <==>
            && AboutOneFinding(input) && OneMove(input)
            && Coherent(input.sourceSnapshot.state) && Coherent(input.destinationSnapshot.state)
            && Drained(input) && Affordable(input)
  {
    SnapshotsValidateIff(input);
    SnapshotValidatesIff(input.sourceSnapshot.state);
    SnapshotValidatesIff(input.destinationSnapshot.state);
    if ValidateSnapshots(input).Ok? {
      IdentityValidatesIff(input);
    }
    if AboutOneFinding(input) && OneMove(input) {
      FoundIsTheFindings(input);
    }
    if Coherent(input.sourceSnapshot.state) && Coherent(input.destinationSnapshot.state) {
      DirectionIsTheDrain(input.sourceSnapshot.state);
      DirectionIsTheDrain(input.destinationSnapshot.state);
    }
  }

  /** When all else is in order, a direction that the balances do not confirm is
      what the refusal names. */
  lemma WrongDirectionIsNamed(input: SimulationInput)
    requires AboutOneFinding(input) && OneMove(input) && input.parameters.amountMsat > 0
    requires Coherent(input.sourceSnapshot.state) && Coherent(input.destinationSnapshot.state)
    ensures !Drained(input) <==> Validate(input) == Err(InvalidInput(DirectionDiffers))
  {
    SnapshotsValidateIff(input);
    IdentityValidatesIff(input);
    FoundIsTheFindings(input);
    SnapshotValidatesIff(input.sourceSnapshot.state);
    SnapshotValidatesIff(input.destinationSnapshot.state);
    DirectionIsTheDrain(input.sourceSnapshot.state);
    DirectionIsTheDrain(input.destinationSnapshot.state);
  }

  // ---- What a projection reports ----

  lemma HalfOf(amount: u64, capacity: u64)
    ensures amount > capacity / 2 <==> 2 * amount > capacity
  {}

  lemma HundredthOf(rest: nat, capacity: u64)
    ensures rest < capacity / 100 <==> 100 * (rest + 1) <= capacity
  {}

  lemma WarningsIff(source: SnapshotState, destination: SnapshotState, amount: u64)
    requires amount <= source.localBalanceMsat && destination.localBalanceMsat + amount <= destination.capacityMsat
    ensures var w := BuildWarnings(source, destination, amount);
            && (AmountExceedsHalfCapacity in w <==>
                  2 * amount > source.capacityMsat || 2 * amount > destination.capacityMsat)
            && (SourceBalanceNearReserve in w <==>
                  100 * (source.localBalanceMsat - amount + 1) <= source.capacityMsat)
            && (DestinationBalanceNearCapacity in w <==>
                  100 * (destination.capacityMsat - destination.localBalanceMsat - amount + 1) <=
                    destination.capacityMsat)
            && (forall i, j | 0 <= i < j < |w| :: w[i] != w[j])
  {
    HalfOf(amount, source.capacityMsat);
    HalfOf(amount, destination.capacityMsat);
    HundredthOf(source.localBalanceMsat - amount, source.capacityMsat);
    HundredthOf(destination.capacityMsat - destination.localBalanceMsat - amount, destination.capacityMsat);
  }

  // The ratio is the share of the local balance in the capacity.
  predicate Shares(p: ProjectedState) {
    p.capacityMsat > 0 && p.localRatio * p.capacityMsat as real == p.localMsat as real
  }

  predicate Reports(p: ProjectedState, localMsat: int, remoteMsat: int, capacityMsat: int) {
    p.localMsat == localMsat && p.remoteMsat == remoteMsat && p.capacityMsat == capacityMsat && Shares(p)
  }

  lemma StateShares(localMsat: u64, remoteMsat: u64, capacityMsat: u64)
    requires capacityMsat != 0
    ensures Shares(State(localMsat, remoteMsat, capacityMsat))
  {
    ShareOf(localMsat, capacityMsat);
  }

  predicate Moves(d: ProjectedDelta, s: SnapshotState, amount: int) {
    && d.channelId == s.channelId
    && d.localBefore == s.localBalanceMsat && d.localAfter == s.localBalanceMsat + amount
    && d.remoteBefore == s.remoteBalanceMsat && d.remoteAfter == s.remoteBalanceMsat - amount
  }

  /** Each channel's balances before and after, and each warning exactly on its
      condition on the balances after the move. */
  lemma ReportIsTheMove(input: SimulationInput)
    requires Validate(input).Ok?
    ensures Simulate(input).Ok?
    ensures var r, amount: int := Simulate(input).value, input.parameters.amountMsat;
            var source, destination := input.sourceSnapshot.state, input.destinationSnapshot.state;
            && Moves(r.source, source, -amount) && Moves(r.destination, destination, amount)
            && (AmountExceedsHalfCapacity in r.warnings <==>
                  2 * amount > source.capacityMsat || 2 * amount > destination.capacityMsat)
            && (SourceBalanceNearReserve in r.warnings <==> 100 * (r.source.localAfter + 1) <= source.capacityMsat)
            && (DestinationBalanceNearCapacity in r.warnings <==>
                  100 * (destination.capacityMsat - r.destination.localAfter + 1) <= destination.capacityMsat)
            && (forall i, j | 0 <= i < j < |r.warnings| :: r.warnings[i] != r.warnings[j])
  {
    WarningsIff(input.sourceSnapshot.state, input.destinationSnapshot.state, input.parameters.amountMsat);
  }

  lemma FoundEnd(input: SimulationInput)
    requires Validate(input).Ok?
    ensures input.findingDirection.Some?
    ensures input.findingDirection.value.Inbound? <==> input.findingChannel == input.sourceSnapshot.state.channelId
    ensures FoundSnapshot(input).state.capacityMsat > 0
  {
    ValidatedFacts(input);
  }

  lemma StatesOf(input: SimulationInput)
    requires Validate(input).Ok? && input.findingDirection.Some?
    requires input.findingDirection.value.Inbound? <==> input.findingChannel == input.sourceSnapshot.state.channelId
    ensures Simulate(input).Ok?
    ensures var r, found := Simulate(input).value, FoundSnapshot(input).state;
            var moved := if input.findingDirection.value.Inbound? then r.source else r.destination;
            && found.capacityMsat != 0
            && r.baseline == State(found.localBalanceMsat, found.remoteBalanceMsat, found.capacityMsat)
            && r.projected == State(moved.localAfter, moved.remoteAfter, found.capacityMsat)
  {}

  /** The finding's channel before and after, with its share of the capacity. */
  lemma ReportIsOfTheFindingsChannel(input: SimulationInput)
    requires Validate(input).Ok?
    ensures Simulate(input).Ok? && input.findingDirection.Some?
    ensures var r, found, amount: int := Simulate(input).value, FoundSnapshot(input).state, input.parameters.amountMsat;
            && Reports(r.baseline, found.localBalanceMsat, found.remoteBalanceMsat, found.capacityMsat)
            && (if input.findingDirection.value.Outbound? then
                  Reports(r.projected, found.localBalanceMsat + amount, found.remoteBalanceMsat - amount,
                          found.capacityMsat)
                else
                  Reports(r.projected, found.localBalanceMsat - amount, found.remoteBalanceMsat + amount,
                          found.capacityMsat))
  {
    FoundEnd(input);
    StatesOf(input);
    ReportIsTheMove(input);
    var r, found := Simulate(input).value, FoundSnapshot(input).state;
    var moved := if input.findingDirection.value.Inbound? then r.source else r.destination;
    StateShares(found.localBalanceMsat, found.remoteBalanceMsat, found.capacityMsat);
    StateShares(moved.localAfter, moved.remoteAfter, found.capacityMsat);
  }

  // ---- An inbound finding ----

  function InboundInput(): SimulationInput {
    var source := SampleSnapshot("ax0", 950_000_000, 50_000_000, 10_000_000);
    var destination := SampleSnapshot("bx0", 500_000_000, 500_000_000, 10_000_000);
    var id := FindingId("channel_liquidity", "1", Some(Mainnet), Some("node"), Some("ax0"));
    var reference := SnapshotReference(Some(Mainnet), 0, OfSnapshot(source.state));
    SimulationInput(
      ActionId(id, RebalanceChannel, "ax0"), "ax0", id, "ax0", Some(Inbound), "node", Some(Mainnet),
      FindingProvenance(Some(Mainnet), Lnd("endpoint", "node"), [], ChannelState("ax0", reference)),
      RebalanceChannel, MODEL_ID, MODEL_VERSION, Parameters("ax0", "bx0", 200_000_000), source, destination)
  }

  lemma SampleIsCoherent(id: ChannelId, local: u64, remote: u64, reserve: u64)
    requires local + remote <= 1_000_000_000
    ensures Coherent(SampleSnapshot(id, local, remote, reserve).state)
  {
    SnapshotValidatesIff(SampleSnapshot(id, local, remote, reserve).state);
  }

  /** A channel that holds nineteen twentieths of its capacity on this side: moving
      a fifth of it away validates and clears the finding. */
  lemma InboundSampleValidates()
    ensures Validate(InboundInput()).Ok? && Simulate(InboundInput()).Ok?
    ensures Simulate(InboundInput()).value.source.localAfter == 750_000_000
    ensures Simulate(InboundInput()).value.source.clearsFinding
  {
    var input := InboundInput();
    assert "node"[0] in "node" && !IsWhitespace("node"[0]);
    assert "ax0"[0] != "bx0"[0];
    SampleIsCoherent("ax0", 950_000_000, 50_000_000, 10_000_000);
    SampleIsCoherent("bx0", 500_000_000, 500_000_000, 10_000_000);
    ValidatesIff(input);
  }
}

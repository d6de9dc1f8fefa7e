/** The settlement-reliability detector and the checks of `Detector::evaluate`
    (crates/rieko-detectors/src/settlement.rs and registry.rs). */
module Detectors {
  import opened Wrappers
  import opened Sequences
  import opened Domain
  import opened Findings
  import opened Ordering

  const DETECTOR_ID := "settlement_reliability"
  const DETECTOR_VERSION := "1"

  datatype DetectorContext = DetectorContext(
    network: BitcoinNetwork, node: Option<string>, events: Option<seq<NodeEvent>>, chainSynchronized: Option<bool>,
    source: Option<ObservationSource>, normalizer: Option<ProducerVersion>, now: int)

  datatype Thresholds = Thresholds(
    minFailedInvoices: nat, warnFailureRate: real, criticalFailureRate: real, drainedRatioBar: real)

  const DEFAULT_THRESHOLDS := Thresholds(2, 0.4, 0.7, 0.1)

  // The settlement-reliability detector of one node.
  datatype SettlementDetector = SettlementDetector(thresholds: Thresholds, localNode: NodeId)

  datatype DetectorCycle = DetectorCycle(scope: FindingCycleScope, findings: seq<Finding>)

  datatype DetectorError =
    | MissingNodeScope
    | InvalidFinding(findingId: FindingId)
    | DuplicateFinding(findingId: FindingId)

  // ---- Counting the window ----

  datatype Tally = Tally(
    expired: nat, settled: nat, invoiceIds: seq<string>, storeIds: seq<string>, observedAt: seq<int>)

  function Counted(t: Tally, e: NodeEvent): Tally {
    match e
    case InvoiceExpired(i) => WithInvoice(t.(expired := t.expired + 1), i)
    case InvoiceSettled(i) => WithInvoice(t.(settled := t.settled + 1), i)
    case InvoicePaymentReceived(i) => WithInvoice(t.(settled := t.settled + 1), i)
    case PaymentAttempt(Failed) => t.(expired := t.expired + 1)
    case PaymentMetric(Failed) => t.(expired := t.expired + 1)
    case PaymentAttempt(Succeeded) => t.(settled := t.settled + 1)
    case PaymentMetric(Succeeded) => t.(settled := t.settled + 1)
    case _ => t
  }

  function WithInvoice(t: Tally, i: Invoice): Tally {
    t.(invoiceIds := t.invoiceIds + [i.id],
       storeIds := t.storeIds + (if i.storeId.Some? then [i.storeId.value] else []),
       observedAt := t.observedAt + [i.timestamp])
  }

  const EMPTY_TALLY := Tally(0, 0, [], [], [])

  predicate IsFailure(e: NodeEvent) {
    e.InvoiceExpired? || ((e.PaymentAttempt? || e.PaymentMetric?) && e.status == Failed)
  }

  predicate IsSettlement(e: NodeEvent) {
    e.InvoiceSettled? || e.InvoicePaymentReceived? ||
    ((e.PaymentAttempt? || e.PaymentMetric?) && e.status == Succeeded)
  }

  // What one event contributes to each component of the tally.
  const FAILURES := (e: NodeEvent) => if IsFailure(e) then [e] else []
  const SETTLEMENTS := (e: NodeEvent) => if IsSettlement(e) then [e] else []
  const INVOICE_IDS := (e: NodeEvent) => if e.IsInvoice() then [e.invoice.id] else []
  const STORE_IDS := (e: NodeEvent) =>
    if e.IsInvoice() && e.invoice.storeId.Some? then [e.invoice.storeId.value] else []
  const TIMES := (e: NodeEvent) => if e.IsInvoice() then [e.invoice.timestamp] else []

  function Gather<T>(f: NodeEvent -> seq<T>, events: seq<NodeEvent>): seq<T> {
    if events == [] then [] else Gather(f, events[..|events| - 1]) + f(events[|events| - 1])
  }

  ghost function TallyOf(events: seq<NodeEvent>): Tally {
    Tally(|Gather(FAILURES, events)|, |Gather(SETTLEMENTS, events)|, Gather(INVOICE_IDS, events),
          Gather(STORE_IDS, events), Gather(TIMES, events))
  }

  lemma CountedTally(events: seq<NodeEvent>, e: NodeEvent)
    ensures Counted(TallyOf(events), e) == TallyOf(events + [e])
  {
    assert (events + [e])[..|events|] == events;
  }

  // ---- `sort` followed by `dedup` ----

  function Inserted(s: seq<string>, x: string): (r: seq<string>)
    requires Ascending(s)
    ensures Ascending(r) && forall y :: y in r <==> y in s || y == x
  {
    if s == [] then [x]
    else if s[0] == x then s
    else if StringLess(x, s[0]) then
      assert forall y | y in s :: StringLess(x, y) by {
        forall y | y in s
          ensures StringLess(x, y)
        {
          if y != s[0] {
            assert y in s[1..];
            StringLessTransitive(x, s[0], y);
          }
        }
      }
      [x] + s
    else
      StringLessTotal(x, s[0]);
      var rest := Inserted(s[1..], x);
      [s[0]] + rest
  }

  predicate Ascending(s: seq<string>) {
    s == [] || ((forall y | y in s[1..] :: StringLess(s[0], y)) && Ascending(s[1..]))
  }

  function SortedDistinct(s: seq<string>): (r: seq<string>)
    ensures Ascending(r) && forall y :: y in r <==> y in s
  {
    if s == [] then []
    else
      assert s == s[..|s| - 1] + [s[|s| - 1]];
      Inserted(SortedDistinct(s[..|s| - 1]), s[|s| - 1])
  }

  // An ascending sequence is determined by its elements.
  lemma {:induction false} AscendingUnique(a: seq<string>, b: seq<string>)
    requires Ascending(a) && Ascending(b) && forall y :: y in a <==> y in b
    ensures a == b
  {
    if a == [] {
      FirstIsIn(b);
    } else {
      assert a[0] in a && a[0] in b && b[0] in b && b[0] in a;
      if a[0] != b[0] {
        assert b[0] in a[1..] && a[0] in b[1..];
        StringLessTransitive(a[0], b[0], a[0]);
        StringLessIrreflexive(a[0]);
      }
      forall y
        ensures y in a[1..] <==> y in b[1..]
      {
        StringLessIrreflexive(a[0]);
        assert y in a <==> y == a[0] || y in a[1..];
        assert y in b <==> y == b[0] || y in b[1..];
      }
      AscendingUnique(a[1..], b[1..]);
    }
  }

  function Earliest(s: seq<int>): (r: Option<int>)
    ensures r.None? <==> s == []
    ensures r.Some? ==> r.value in s && forall x | x in s :: r.value <= x
  {
    if s == [] then None
    else
      assert s == [s[0]] + s[1..];
      var rest := Earliest(s[1..]);
      if rest.Some? && rest.value < s[0] then rest else Some(s[0])
  }

  function Latest(s: seq<int>): (r: Option<int>)
    ensures r.None? <==> s == []
    ensures r.Some? ==> r.value in s && forall x | x in s :: x <= r.value
  {
    if s == [] then None
    else
      assert s == [s[0]] + s[1..];
      var rest := Latest(s[1..]);
      if rest.Some? && rest.value > s[0] then rest else Some(s[0])
  }

  // What the rest of the detector reads of the tally.
  datatype Summary = Summary(expired: nat, settled: nat, invoiceIds: seq<string>, storeIds: seq<string>,
                             startedAt: Option<int>, endedAt: Option<int>)

  function Summarise(t: Tally): Summary {
    Summary(t.expired, t.settled, SortedDistinct(t.invoiceIds), SortedDistinct(t.storeIds),
            Earliest(t.observedAt), Latest(t.observedAt))
  }

  // ---- The firing rule ----

  // The failure rate `expired / (expired + settled)` of a window with invoices, cross-multiplied.
  predicate RateReaches(expired: nat, settled: nat, rate: real) {
    expired as real >= rate * (expired + settled) as real
  }

  predicate Fires(th: Thresholds, expired: nat, settled: nat) {
    expired + settled > 0 && expired >= th.minFailedInvoices && RateReaches(expired, settled, th.warnFailureRate)
  }

  function SeverityOf(th: Thresholds, expired: nat, settled: nat, drained: bool, inactive: bool): Severity {
    if RateReaches(expired, settled, th.criticalFailureRate) || expired >= 5 || (drained && inactive) then Critical
    else Warning
  }

  lemma RateAboveOne(rate: real, total: real)
    requires total > 0.0
    ensures rate > 1.0 ==> rate * total > total
  {
    if rate > 1.0 {
      assert (rate - 1.0) * total > 0.0;
      assert (rate - 1.0) * total == rate * total - total;
    }
  }

  // No rate is reached but those up to one, and one more failure keeps those.
  lemma RateKeepsReaching(expired: nat, settled: nat, rate: real)
    requires expired + settled > 0 && RateReaches(expired, settled, rate)
    ensures RateReaches(expired + 1, settled, rate)
  {
    var total := (expired + settled) as real;
    assert rate * (total + 1.0) == rate * total + rate;
    RateAboveOne(rate, total);
  }

  lemma OneMoreKeepsFiring(th: Thresholds, expired: nat, settled: nat, drained: bool, inactive: bool)
    requires Fires(th, expired, settled)
    ensures Fires(th, expired + 1, settled)
    ensures SeverityOf(th, expired + 1, settled, drained, inactive).Rank() >=
            SeverityOf(th, expired, settled, drained, inactive).Rank()
  {
    RateKeepsReaching(expired, settled, th.warnFailureRate);
    if RateReaches(expired, settled, th.criticalFailureRate) {
      RateKeepsReaching(expired, settled, th.criticalFailureRate);
    }
  }

  function DrainedChannels(channels: seq<Channel>, d: SettlementDetector): seq<Channel> {
    if channels == [] then []
    else
      (if channels[0].node == d.localNode && channels[0].status != ChannelStatus.Inactive &&
          channels[0].status.IsOpen() && channels[0].liquidity.localRatio < d.thresholds.drainedRatioBar
       then [channels[0]] else []) + DrainedChannels(channels[1..], d)
  }

  function InactiveChannels(channels: seq<Channel>, d: SettlementDetector): seq<Channel> {
    if channels == [] then []
    else
      (if channels[0].node == d.localNode && channels[0].status == ChannelStatus.Inactive then [channels[0]] else []) +
      InactiveChannels(channels[1..], d)
  }

  // `min_by` on the local ratio: the first of the lowest.
  function MostDrained(channels: seq<Channel>): Option<Channel> {
    if channels == [] then None
    else
      var rest := MostDrained(channels[1..]);
      if rest.Some? && rest.value.liquidity.localRatio < channels[0].liquidity.localRatio then rest
      else Some(channels[0])
  }

  function Bottleneck(drained: seq<Channel>, inactive: seq<Channel>): Option<Channel> {
    if drained != [] then MostDrained(drained)
    else if inactive != [] then Some(inactive[0])
    else None
  }

  function ProvenanceOf(bottleneck: Option<Channel>, ctx: DetectorContext): Option<FindingProvenance> {
    if ctx.source.None? then None
    else
      var observation :=
        if bottleneck.Some? then
          var channel := bottleneck.value;
          ChannelState(channel.id, SnapshotReference(
            Some(ctx.network), channel.lastSeen,
            OfSnapshot(SnapshotOfChannel(channel, channel.lastSeen, ctx.network).state)))
        else
          ChannelState("", SnapshotReference(Some(ctx.network), ctx.now, Composite("composite-operational-digest")));
      Some(FindingProvenance(Some(ctx.network), ctx.source.value,
                             (if ctx.normalizer.Some? then [ctx.normalizer.value] else []) +
                             [ProducerVersion(DETECTOR_ID, DETECTOR_VERSION, ProducerRole.Detector)], observation))
  }

  function EvidenceOf(t: Summary, drained: seq<Channel>, inactive: seq<Channel>, ctx: DetectorContext): seq<Evidence> {
    var degraded := drained != [] || inactive != [];
    var lagging := ctx.chainSynchronized == Some(false);
    var confirmed := ctx.chainSynchronized == Some(true) && degraded;
    [Evidence("expired_invoices", Count(t.expired)),
     Evidence("settled_invoices", Count(t.settled)),
     Evidence("total_invoices", Count(t.expired + t.settled)),
     Evidence("failure_rate", Rate(t.expired, t.expired + t.settled)),
     Evidence("drained_channels_count", Count(|drained|)),
     Evidence("inactive_channels_count", Count(|inactive|)),
     Evidence("chain_synchronized", Text(if ctx.chainSynchronized.None? then "unknown"
                                         else if ctx.chainSynchronized.value then "true" else "false")),
     Evidence("diagnosis", Text(if lagging then "chain_sync_lag" else if confirmed then "lightning_settlement_degraded"
                                else "invoice_settlement_degraded")),
     Evidence("root_cause", Text(if lagging then "bitcoin_core_desynchronized"
                                 else if confirmed then "lightning_operational_degradation" else "undetermined")),
     Evidence("invoice_ids", TextList(t.invoiceIds)),
     Evidence("store_ids", TextList(t.storeIds))] +
    (if t.startedAt.None? || t.endedAt.None? then []
     else [Evidence("window_started_at", Moment(t.startedAt.value)),
           Evidence("window_ended_at", Moment(t.endedAt.value))]) +
    (var bottleneck := Bottleneck(drained, inactive);
     if bottleneck.Some? then [Evidence("bottleneck_channel", Text(bottleneck.value.id))] else [])
  }

  function Assess(t: Summary, channels: seq<Channel>, d: SettlementDetector, ctx: DetectorContext): seq<Finding> {
    if !Fires(d.thresholds, t.expired, t.settled) then []
    else
      var drained, inactive := DrainedChannels(channels, d), InactiveChannels(channels, d);
      var bottleneck := Bottleneck(drained, inactive);
      var channel := if bottleneck.Some? then Some(bottleneck.value.id) else None;
      [Finding(FindingId(DETECTOR_ID, DETECTOR_VERSION, Some(ctx.network), Some(d.localNode), channel),
               DETECTOR_ID, DETECTOR_VERSION, FINDING_SCHEMA_VERSION,
               SeverityOf(d.thresholds, t.expired, t.settled, drained != [], inactive != []), Some(d.localNode),
               channel,
               EvidenceOf(t, drained, inactive, ctx), ProvenanceOf(bottleneck, ctx), None,
               ctx.now, ctx.now, ctx.now, ActiveFinding)]
  }

  ghost function Detected(channels: seq<Channel>, d: SettlementDetector, ctx: DetectorContext): seq<Finding> {
    if ctx.events.None? then [] else Assess(Summarise(TallyOf(ctx.events.value)), channels, d, ctx)
  }

  method Run(channels: seq<Channel>, d: SettlementDetector, ctx: DetectorContext) returns (findings: seq<Finding>)
    ensures findings == Detected(channels, d, ctx)
  {
    if ctx.events.None? || ctx.events.value == [] {
      return [];
    }
    var events := ctx.events.value;
    var t := EMPTY_TALLY;
    for i := 0 to |events|
      invariant t == TallyOf(events[..i])
    {
      CountedTally(events[..i], events[i]);
      assert events[..i + 1] == events[..i] + [events[i]];
      t := Counted(t, events[i]);
    }
    assert events[..|events|] == events;
    findings := Assess(Summarise(t), channels, d, ctx);
  }

  // ---- `Detector::evaluate` ----

  predicate WellFormed(f: Finding, network: Option<BitcoinNetwork>, node: string) {
    && f.detector == DETECTOR_ID && f.detectorVersion == DETECTOR_VERSION && f.node == Some(node)
    && f.id == FindingId(DETECTOR_ID, DETECTOR_VERSION, network, f.node, f.channel)
    && f.lifecycle == ActiveFinding
  }

  ghost predicate Offends(findings: seq<Finding>, i: nat, network: Option<BitcoinNetwork>, node: string)
    requires i < |findings|
  {
    !WellFormed(findings[i], network, node) || exists k :: 0 <= k < i && findings[k].id == findings[i].id
  }

  // The first finding that is malformed or repeats an identity is the one reported.
  ghost predicate FirstOffence(findings: seq<Finding>, i: nat, network: Option<BitcoinNetwork>, node: string) {
    i < |findings| && Offends(findings, i, network, node) &&
    forall k | 0 <= k < i :: !Offends(findings, k, network, node)
  }

  method CheckFindings(findings: seq<Finding>, network: Option<BitcoinNetwork>, node: string)
      returns (r: Result<(), DetectorError>)
    ensures r.Ok? <==>
            (forall f | f in findings :: WellFormed(f, network, node)) &&
            (forall i, j | 0 <= i < j < |findings| :: findings[i].id != findings[j].id)
    ensures r.Err? ==> exists i: nat :: FirstOffence(findings, i, network, node) &&
                         r.error == if WellFormed(findings[i], network, node) then DuplicateFinding(findings[i].id)
                                    else InvalidFinding(findings[i].id)
  {
    var ids: set<FindingId> := {};
    for i := 0 to |findings|
      invariant forall k | 0 <= k < i :: WellFormed(findings[k], network, node)
      invariant forall k, l | 0 <= k < l < i :: findings[k].id != findings[l].id
      invariant forall id :: id in ids <==> exists k :: 0 <= k < i && findings[k].id == id
    {
      var f := findings[i];
      if !WellFormed(f, network, node) {
        assert FirstOffence(findings, i, network, node);
        return Err(InvalidFinding(f.id));
      }
      if f.id in ids {
        assert FirstOffence(findings, i, network, node);
        return Err(DuplicateFinding(f.id));
      }
      ids := ids + {f.id};
    }
    r := Ok(());
  }

  method Evaluate(channels: seq<Channel>, d: SettlementDetector, ctx: DetectorContext)
      returns (r: Result<DetectorCycle, DetectorError>)
    ensures ctx.node.None? ==> r == Err(MissingNodeScope)
    ensures ctx.node == Some(d.localNode) ==>
              r == Ok(DetectorCycle(
                FindingCycleScope(DETECTOR_ID, Some(ctx.network), ctx.node, ctx.events.Some?),
                Detected(channels, d, ctx)))
    ensures ctx.node.Some? && ctx.node != Some(d.localNode) ==>
              (r.Err? <==> Detected(channels, d, ctx) != [])
  {
    if ctx.node.None? {
      return Err(MissingNodeScope);
    }
    var findings := Run(channels, d, ctx);
    if findings != [] {
      assert findings[0] in findings;
    }
    var checked := CheckFindings(findings, Some(ctx.network), ctx.node.value);
    if checked.Err? {
      return Err(checked.error);
    }
    r := Ok(DetectorCycle(FindingCycleScope(DETECTOR_ID, Some(ctx.network), ctx.node, ctx.events.Some?), findings));
  }

  // ---- Order independence and monotonicity ----

  // Equal up to the order of what the vectors hold.
  ghost predicate SameTally(t: Tally, s: Tally) {
    && t.expired == s.expired && t.settled == s.settled
    && multiset(t.invoiceIds) == multiset(s.invoiceIds)
    && multiset(t.storeIds) == multiset(s.storeIds)
    && multiset(t.observedAt) == multiset(s.observedAt)
  }

  lemma {:induction false} GatherConcat<T>(f: NodeEvent -> seq<T>, a: seq<NodeEvent>, b: seq<NodeEvent>)
    ensures Gather(f, a + b) == Gather(f, a) + Gather(f, b)
  {
    if b == [] {
      assert a + b == a;
    } else {
      assert (a + b)[..|a + b| - 1] == a + b[..|b| - 1];
      GatherConcat(f, a, b[..|b| - 1]);
    }
  }

  function Removed<T>(s: seq<T>, i: nat): seq<T>
    requires i < |s|
  {
    s[..i] + s[i + 1..]
  }

  lemma RemovedMultiset<T>(s: seq<T>, i: nat)
    requires i < |s|
    ensures multiset(Removed(s, i)) == multiset(s) - multiset{s[i]}
  {
    assert s == s[..i] + [s[i]] + s[i + 1..];
  }

  lemma GatherRemoved<T>(f: NodeEvent -> seq<T>, s: seq<NodeEvent>, i: nat)
    requires i < |s|
    ensures multiset(Gather(f, s)) == multiset(Gather(f, Removed(s, i))) + multiset(f(s[i]))
    ensures |Gather(f, s)| == |Gather(f, Removed(s, i))| + |f(s[i])|
  {
    var left, right := s[..i], s[i + 1..];
    assert s == left + ([s[i]] + right);
    assert [s[i]][..0] == [];
    GatherConcat(f, left, [s[i]] + right);
    GatherConcat(f, [s[i]], right);
    GatherConcat(f, left, right);
    assert Gather(f, [s[i]]) == f(s[i]);
  }

  lemma PositionOf<T>(s: seq<T>, x: T) returns (i: nat)
    requires x in multiset(s)
    ensures i < |s| && s[i] == x
  {
    i :| 0 <= i < |s| && s[i] == x;
  }

  lemma {:induction false} GatherPermuted<T>(f: NodeEvent -> seq<T>, a: seq<NodeEvent>, b: seq<NodeEvent>)
    requires multiset(a) == multiset(b)
    ensures multiset(Gather(f, a)) == multiset(Gather(f, b))
    ensures |Gather(f, a)| == |Gather(f, b)|
    decreases |a|
  {
    if a == [] {
      assert |b| == |multiset(b)| == 0;
    } else {
      assert a[0] in multiset(a);
      var i := PositionOf(b, a[0]);
      RemovedMultiset(a, 0);
      RemovedMultiset(b, i);
      GatherPermuted(f, Removed(a, 0), Removed(b, i));
      GatherRemoved(f, a, 0);
      GatherRemoved(f, b, i);
    }
  }

  lemma PermutedTally(a: seq<NodeEvent>, b: seq<NodeEvent>)
    requires multiset(a) == multiset(b)
    ensures SameTally(TallyOf(a), TallyOf(b))
  {
    GatherPermuted(FAILURES, a, b);
    GatherPermuted(SETTLEMENTS, a, b);
    GatherPermuted(INVOICE_IDS, a, b);
    GatherPermuted(STORE_IDS, a, b);
    GatherPermuted(TIMES, a, b);
  }

  lemma SameTallySameSummary(t: Tally, s: Tally)
    requires SameTally(t, s)
    ensures Summarise(t) == Summarise(s)
  {
    SameElements(t.invoiceIds, s.invoiceIds);
    SameElements(t.storeIds, s.storeIds);
    SameElements(t.observedAt, s.observedAt);
    AscendingUnique(SortedDistinct(t.invoiceIds), SortedDistinct(s.invoiceIds));
    AscendingUnique(SortedDistinct(t.storeIds), SortedDistinct(s.storeIds));
  }

  lemma SameElements<T>(a: seq<T>, b: seq<T>)
    requires multiset(a) == multiset(b)
    ensures a == [] <==> b == []
    ensures forall x :: x in a <==> x in b
  {
    assert |a| == |multiset(a)| == |multiset(b)| == |b|;
    forall x
      ensures x in a <==> x in b
    {
      assert x in a <==> x in multiset(a);
      assert x in b <==> x in multiset(b);
    }
  }

  lemma PermutedSummary(a: seq<NodeEvent>, b: seq<NodeEvent>)
    requires multiset(a) == multiset(b)
    ensures Summarise(TallyOf(a)) == Summarise(TallyOf(b))
  {
    PermutedTally(a, b);
    SameTallySameSummary(TallyOf(a), TallyOf(b));
  }

  /** The finding, its identity, severity and whole evidence, does not depend on
      the order in which the window holds its events. */
  lemma FindingIgnoresEventOrder(channels: seq<Channel>, d: SettlementDetector, ctx: DetectorContext,
                                 a: seq<NodeEvent>, b: seq<NodeEvent>)
    requires multiset(a) == multiset(b)
    ensures Detected(channels, d, ctx.(events := Some(a))) ==
            Detected(channels, d, ctx.(events := Some(b)))
  {
    PermutedSummary(a, b);
    AssessReadsNoEvents(Summarise(TallyOf(a)), channels, d, ctx, Some(a), Some(b));
  }

  lemma AssessReadsNoEvents(t: Summary, channels: seq<Channel>, d: SettlementDetector, ctx: DetectorContext,
                            a: Option<seq<NodeEvent>>, b: Option<seq<NodeEvent>>)
    ensures Assess(t, channels, d, ctx.(events := a)) == Assess(t, channels, d, ctx.(events := b))
  {}

  lemma GatherOneMore<T>(f: NodeEvent -> seq<T>, a: seq<NodeEvent>, e: NodeEvent, b: seq<NodeEvent>)
    ensures |Gather(f, a + [e] + b)| == |Gather(f, a + b)| + |f(e)|
  {
    var more := a + [e] + b;
    assert more[|a|] == e && Removed(more, |a|) == a + b;
    GatherRemoved(f, more, |a|);
  }

  lemma OneMoreExpiry(a: seq<NodeEvent>, invoice: Invoice, b: seq<NodeEvent>)
    ensures var before, after := TallyOf(a + b), TallyOf(a + [InvoiceExpired(invoice)] + b);
            after.expired == before.expired + 1 && after.settled == before.settled
  {
    var e := InvoiceExpired(invoice);
    GatherOneMore(FAILURES, a, e, b);
    GatherOneMore(SETTLEMENTS, a, e, b);
    assert FAILURES(e) == [e] && SETTLEMENTS(e) == [];
  }

  /** One more expired invoice, anywhere in the window, never silences the
      detector nor lowers its severity, and blames the same channel. */
  lemma ExpiryNeverSilences(channels: seq<Channel>, d: SettlementDetector, ctx: DetectorContext,
                            a: seq<NodeEvent>, invoice: Invoice, b: seq<NodeEvent>)
    requires Detected(channels, d, ctx.(events := Some(a + b))) != []
    ensures var before := Detected(channels, d, ctx.(events := Some(a + b)));
            var after := Detected(channels, d, ctx.(events := Some(a + [InvoiceExpired(invoice)] + b)));
            && |before| == |after| == 1
            && after[0].id == before[0].id
            && after[0].severity.Rank() >= before[0].severity.Rank()
  {
    var more := a + [InvoiceExpired(invoice)] + b;
    OneMoreExpiry(a, invoice, b);
    ShapesCompare(channels, d, ctx, a + b, more, TallyOf(a + b).expired, TallyOf(a + b).settled);
  }

  lemma ShapesCompare(channels: seq<Channel>, d: SettlementDetector, ctx: DetectorContext, events: seq<NodeEvent>,
                      more: seq<NodeEvent>, expired: nat, settled: nat)
    requires TallyOf(events).expired == expired && TallyOf(events).settled == settled
    requires TallyOf(more).expired == expired + 1 && TallyOf(more).settled == settled
    requires Detected(channels, d, ctx.(events := Some(events))) != []
    ensures var before := Detected(channels, d, ctx.(events := Some(events)));
            var after := Detected(channels, d, ctx.(events := Some(more)));
            && |before| == |after| == 1
            && after[0].id == before[0].id
            && after[0].severity.Rank() >= before[0].severity.Rank()
  {
    DetectedShape(channels, d, ctx, events, expired, settled);
    DetectedShape(channels, d, ctx, more, expired + 1, settled);
    OneMoreKeepsFiring(d.thresholds, expired, settled, DrainedChannels(channels, d) != [],
                       InactiveChannels(channels, d) != []);
  }

  lemma DetectedShape(channels: seq<Channel>, d: SettlementDetector, ctx: DetectorContext, events: seq<NodeEvent>,
                      expired: nat, settled: nat)
    requires TallyOf(events).expired == expired && TallyOf(events).settled == settled
    ensures var r := Detected(channels, d, ctx.(events := Some(events)));
            var drained, inactive := DrainedChannels(channels, d), InactiveChannels(channels, d);
            var bottleneck := Bottleneck(drained, inactive);
            && |r| == (if Fires(d.thresholds, expired, settled) then 1 else 0)
            && (r != [] ==>
                  r[0].severity == SeverityOf(d.thresholds, expired, settled, drained != [], inactive != []) &&
                  r[0].id == FindingId(DETECTOR_ID, DETECTOR_VERSION, Some(ctx.network), Some(d.localNode),
                                       if bottleneck.Some? then Some(bottleneck.value.id) else None))
  {}
}

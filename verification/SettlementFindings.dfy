/** What the settlement detector finds, said of the window's events and the graph's
    channels themselves (crates/rieko-detectors/src/settlement.rs). */
module SettlementFindings {
  import opened Wrappers
  import opened Domain
  import opened Findings
  import opened Detectors

  // ---- Counting by index ----

  // Expired invoices and failed payments fail; settled or paid invoices and payments that succeeded do not.
  predicate Failing(e: NodeEvent) {
    match e
    case InvoiceExpired(_) => true
    case PaymentAttempt(status) => status.Failed?
    case PaymentMetric(status) => status.Failed?
    case _ => false
  }

  predicate Settling(e: NodeEvent) {
    match e
    case InvoiceSettled(_) => true
    case InvoicePaymentReceived(_) => true
    case PaymentAttempt(status) => status.Succeeded?
    case PaymentMetric(status) => status.Succeeded?
    case _ => false
  }

  function Where<T>(s: seq<T>, p: T -> bool): set<nat> {
    set i: nat | 0 <= i < |s| && p(s[i])
  }

  lemma WhereInit<T>(s: seq<T>, p: T -> bool)
    requires s != []
    ensures var n: nat := |s| - 1;
            Where(s, p) == Where(s[..n], p) + (if p(s[n]) then {n} else {}) && n !in Where(s[..n], p)
  {}

  lemma {:induction false} GatherCounts(f: NodeEvent -> seq<NodeEvent>, p: NodeEvent -> bool, events: seq<NodeEvent>)
    requires forall e :: |f(e)| == if p(e) then 1 else 0
    ensures |Gather(f, events)| == |Where(events, p)|
  {
    if events != [] {
      WhereInit(events, p);
      GatherCounts(f, p, events[..|events| - 1]);
    }
  }

  ghost function Failures(events: seq<NodeEvent>): nat { |Where(events, e => Failing(e))| }
  ghost function Settlements(events: seq<NodeEvent>): nat { |Where(events, e => Settling(e))| }

  lemma TallyCounts(events: seq<NodeEvent>)
    ensures TallyOf(events).expired == Failures(events) && TallyOf(events).settled == Settlements(events)
  {
    GatherCounts(FAILURES, e => Failing(e), events);
    GatherCounts(SETTLEMENTS, e => Settling(e), events);
  }

  lemma {:induction false} Gathered<T>(f: NodeEvent -> seq<T>, events: seq<NodeEvent>, x: T)
    ensures x in Gather(f, events) <==> exists i :: 0 <= i < |events| && x in f(events[i])
  {
    if events != [] {
      var n := |events| - 1;
      Gathered(f, events[..n], x);
      if x in Gather(f, events[..n]) {
        var i :| 0 <= i < n && x in f(events[..n][i]);
        assert x in f(events[i]);
      }
      if i :| 0 <= i < |events| && x in f(events[i]) {
        assert i < n ==> x in f(events[..n][i]);
      }
    }
  }

  // ---- The channels ----

  predicate IsDrained(c: Channel, d: SettlementDetector) {
    c.node == d.localNode && c.status in {ChannelStatus.Active, ChannelStatus.Opening, ChannelStatus.PendingOpen} &&
    c.liquidity.localRatio < d.thresholds.drainedRatioBar
  }

  predicate IsInactive(c: Channel, d: SettlementDetector) {
    c.node == d.localNode && c.status == ChannelStatus.Inactive
  }

  // The drained channel of least ratio, and of several the first.
  ghost predicate MostDrainedAt(channels: seq<Channel>, d: SettlementDetector, i: nat) {
    && i < |channels| && IsDrained(channels[i], d)
    && (forall j | 0 <= j < |channels| && IsDrained(channels[j], d) ::
          channels[i].liquidity.localRatio <= channels[j].liquidity.localRatio)
    && (forall j | 0 <= j < i && IsDrained(channels[j], d) ::
          channels[i].liquidity.localRatio < channels[j].liquidity.localRatio)
  }

  ghost predicate FirstInactiveAt(channels: seq<Channel>, d: SettlementDetector, i: nat) {
    && i < |channels| && IsInactive(channels[i], d)
    && forall j | 0 <= j < i :: !IsInactive(channels[j], d)
  }

  lemma {:induction false} NoneDrained(channels: seq<Channel>, d: SettlementDetector)
    ensures DrainedChannels(channels, d) == [] <==> forall i | 0 <= i < |channels| :: !IsDrained(channels[i], d)
  {
    if channels != [] {
      NoneDrained(channels[1..], d);
      assert forall i | 1 <= i < |channels| :: channels[i] == channels[1..][i - 1];
    }
  }

  lemma ShiftedMostDrained(channels: seq<Channel>, d: SettlementDetector, k: nat)
    requires channels != [] && MostDrainedAt(channels[1..], d, k)
    requires IsDrained(channels[0], d) ==>
               channels[1..][k].liquidity.localRatio < channels[0].liquidity.localRatio
    ensures MostDrainedAt(channels, d, k + 1)
  {
    assert forall j | 1 <= j < |channels| :: channels[j] == channels[1..][j - 1];
  }

  lemma HeadMostDrained(channels: seq<Channel>, d: SettlementDetector)
    requires channels != [] && IsDrained(channels[0], d)
    requires forall j | 0 <= j < |channels| - 1 && IsDrained(channels[1..][j], d) ::
               channels[0].liquidity.localRatio <= channels[1..][j].liquidity.localRatio
    ensures MostDrainedAt(channels, d, 0)
  {
    assert forall j | 1 <= j < |channels| :: channels[j] == channels[1..][j - 1];
  }

  lemma DrainedCons(channels: seq<Channel>, d: SettlementDetector)
    requires channels != []
    ensures var rest, all := DrainedChannels(channels[1..], d), DrainedChannels(channels, d);
            if IsDrained(channels[0], d) then all != [] && all[0] == channels[0] && all[1..] == rest else all == rest
  {}

  lemma {:induction false} MostDrainedIs(channels: seq<Channel>, d: SettlementDetector) returns (i: nat)
    requires DrainedChannels(channels, d) != []
    ensures MostDrainedAt(channels, d, i) && MostDrained(DrainedChannels(channels, d)) == Some(channels[i])
  {
    var c, rest := channels[0], channels[1..];
    NoneDrained(rest, d);
    DrainedCons(channels, d);
    i := 0;
    if DrainedChannels(rest, d) == [] {
      HeadMostDrained(channels, d);
    } else {
      var k := MostDrainedIs(rest, d);
      if IsDrained(c, d) && c.liquidity.localRatio <= rest[k].liquidity.localRatio {
        HeadMostDrained(channels, d);
      } else {
        ShiftedMostDrained(channels, d, k);
        i := k + 1;
      }
    }
  }

  lemma {:induction false} FirstInactiveIs(channels: seq<Channel>, d: SettlementDetector) returns (i: nat)
    ensures InactiveChannels(channels, d) == [] ==> forall k | 0 <= k < |channels| :: !IsInactive(channels[k], d)
    ensures InactiveChannels(channels, d) != [] ==>
              FirstInactiveAt(channels, d, i) && InactiveChannels(channels, d)[0] == channels[i]
  {
    i := 0;
    if channels != [] {
      var k := FirstInactiveIs(channels[1..], d);
      assert forall j | 1 <= j < |channels| :: channels[j] == channels[1..][j - 1];
      if !IsInactive(channels[0], d) {
        assert InactiveChannels(channels, d) == InactiveChannels(channels[1..], d);
        i := k + 1;
      }
    }
  }

  lemma BlameIs(channels: seq<Channel>, d: SettlementDetector, i: nat)
    requires MostDrainedAt(channels, d, i) ||
             (FirstInactiveAt(channels, d, i) && forall j | 0 <= j < |channels| :: !IsDrained(channels[j], d))
    ensures Bottleneck(DrainedChannels(channels, d), InactiveChannels(channels, d)) == Some(channels[i])
  {
    NoneDrained(channels, d);
    if MostDrainedAt(channels, d, i) {
      var k := MostDrainedIs(channels, d);
      OneMostDrained(channels, d, i, k);
    } else {
      var k := FirstInactiveIs(channels, d);
      assert i == k;
    }
  }

  lemma OneMostDrained(channels: seq<Channel>, d: SettlementDetector, i: nat, k: nat)
    requires MostDrainedAt(channels, d, i) && MostDrainedAt(channels, d, k)
    ensures i == k
  {}

  lemma NobodyToBlame(channels: seq<Channel>, d: SettlementDetector)
    requires forall j | 0 <= j < |channels| :: !IsDrained(channels[j], d) && !IsInactive(channels[j], d)
    ensures DrainedChannels(channels, d) == [] && InactiveChannels(channels, d) == []
  {
    NoneDrained(channels, d);
    var _ := FirstInactiveIs(channels, d);
  }

  ghost predicate SomeDrained(channels: seq<Channel>, d: SettlementDetector) {
    exists i :: 0 <= i < |channels| && IsDrained(channels[i], d)
  }

  ghost predicate SomeInactive(channels: seq<Channel>, d: SettlementDetector) {
    exists i :: 0 <= i < |channels| && IsInactive(channels[i], d)
  }

  lemma DegradedIff(channels: seq<Channel>, d: SettlementDetector)
    ensures SomeDrained(channels, d) <==> DrainedChannels(channels, d) != []
    ensures SomeInactive(channels, d) <==> InactiveChannels(channels, d) != []
  {
    NoneDrained(channels, d);
    var i := FirstInactiveIs(channels, d);
    if InactiveChannels(channels, d) != [] {
      assert IsInactive(channels[i], d);
    }
  }

  // ---- The finding ----

  // `failed` is at least this share of `total`.
  predicate IsShare(failed: nat, total: nat, share: real) {
    failed as real >= share * total as real
  }

  lemma RuleIs(th: Thresholds, failed: nat, settled: nat)
    ensures Fires(th, failed, settled) <==>
            failed + settled > 0 && failed >= th.minFailedInvoices &&
            IsShare(failed, failed + settled, th.warnFailureRate)
  {}

  /** One finding or none: it needs the minimum of failures and the warning share of them. */
  lemma FindsDegradationIff(channels: seq<Channel>, d: SettlementDetector, ctx: DetectorContext)
    requires ctx.events.Some?
    ensures var th, failed := d.thresholds, Failures(ctx.events.value);
            var total := failed + Settlements(ctx.events.value);
            |Detected(channels, d, ctx)| ==
            if total > 0 && failed >= th.minFailedInvoices && IsShare(failed, total, th.warnFailureRate) then 1 else 0
  {
    var events := ctx.events.value;
    TallyCounts(events);
    RuleIs(d.thresholds, Failures(events), Settlements(events));
  }

  lemma SeverityOfFinding(channels: seq<Channel>, d: SettlementDetector, ctx: DetectorContext)
    returns (severity: Severity)
    requires Detected(channels, d, ctx) != [] && ctx.events.Some?
    ensures severity == Detected(channels, d, ctx)[0].severity
    ensures severity == SeverityOf(d.thresholds, Failures(ctx.events.value), Settlements(ctx.events.value),
                                   SomeDrained(channels, d), SomeInactive(channels, d))
  {
    TallyCounts(ctx.events.value);
    DegradedIff(channels, d);
    severity := Detected(channels, d, ctx)[0].severity;
  }

  // Critical with the critical share, with five failures, or with a drained and an inactive channel at once.
  predicate IsCritical(th: Thresholds, failed: nat, settled: nat, drained: bool, inactive: bool) {
    IsShare(failed, failed + settled, th.criticalFailureRate) || failed >= 5 || (drained && inactive)
  }

  lemma SeverityIs(severity: Severity, th: Thresholds, failed: nat, settled: nat, drained: bool, inactive: bool)
    requires severity == SeverityOf(th, failed, settled, drained, inactive)
    ensures severity != Severity.Info
    ensures severity == Severity.Critical <==> IsCritical(th, failed, settled, drained, inactive)
  {}

  /** A finding is critical exactly as told, and a warning otherwise. */
  lemma FindingIsCriticalIff(channels: seq<Channel>, d: SettlementDetector, ctx: DetectorContext)
    requires Detected(channels, d, ctx) != [] && ctx.events.Some?
    ensures var severity, events := Detected(channels, d, ctx)[0].severity, ctx.events.value;
            && severity != Severity.Info
            && (severity == Severity.Critical <==>
                  IsCritical(d.thresholds, Failures(events), Settlements(events), SomeDrained(channels, d),
                             SomeInactive(channels, d)))
  {
    var severity := SeverityOfFinding(channels, d, ctx);
    SeverityIs(severity, d.thresholds, Failures(ctx.events.value), Settlements(ctx.events.value),
               SomeDrained(channels, d), SomeInactive(channels, d));
  }

  /** A finding blames the most drained of the local open channels below the bar,
      or else the first local inactive one, or else none. */
  lemma FindingBlames(channels: seq<Channel>, d: SettlementDetector, ctx: DetectorContext)
    requires Detected(channels, d, ctx) != []
    ensures var f := Detected(channels, d, ctx)[0];
            && f.channel == f.id.channel && f.node == Some(d.localNode)
            && (forall i: nat | MostDrainedAt(channels, d, i) :: f.channel == Some(channels[i].id))
            && (forall i: nat | FirstInactiveAt(channels, d, i) && !SomeDrained(channels, d) ::
                  f.channel == Some(channels[i].id))
            && (!SomeDrained(channels, d) && !SomeInactive(channels, d) ==> f.channel == None)
  {
    forall i: nat | MostDrainedAt(channels, d, i) || (FirstInactiveAt(channels, d, i) && !SomeDrained(channels, d))
      ensures Bottleneck(DrainedChannels(channels, d), InactiveChannels(channels, d)) == Some(channels[i])
    {
      BlameIs(channels, d, i);
    }
    if !SomeDrained(channels, d) && !SomeInactive(channels, d) {
      NobodyToBlame(channels, d);
    }
  }

  // The source, network, producers and state of the channel that a provenance cites.
  ghost predicate Cites(p: FindingProvenance, c: Channel, ctx: DetectorContext)
    requires ctx.source.Some?
  {
    && p.network == Some(ctx.network) && p.source == ctx.source.value
    && (ctx.normalizer.Some? ==> ctx.normalizer.value in p.producers)
    && ProducerVersion("settlement_reliability", "1", ProducerRole.Detector) in p.producers
    && p.observation ==
         ChannelState(c.id, SnapshotReference(
           Some(ctx.network), c.lastSeen,
           OfSnapshot(SnapshotState(
             Some(c.node), Some(ctx.network), c.id, c.liquidity.localRatio, c.liquidity.localBalanceMsat,
             c.liquidity.remoteBalanceMsat, c.capacityMsat, c.status, c.liquidity.spendableOutboundMsat,
             c.liquidity.spendableInboundMsat))))
  }

  lemma ProvenanceCites(c: Channel, ctx: DetectorContext)
    requires ctx.source.Some?
    ensures ProvenanceOf(Some(c), ctx).Some? && Cites(ProvenanceOf(Some(c), ctx).value, c, ctx)
  {
    var producers := ProvenanceOf(Some(c), ctx).value.producers;
    assert producers[|producers| - 1] in producers && producers[0] in producers;
  }

  lemma ProvenanceOfFinding(channels: seq<Channel>, d: SettlementDetector, ctx: DetectorContext)
    requires Detected(channels, d, ctx) != []
    ensures var f := Detected(channels, d, ctx)[0];
            && f.timestamp == f.firstSeenAt == f.lastSeenAt == ctx.now && f.lifecycle == ActiveFinding
            && f.id.network == Some(ctx.network) && f.id.node == f.node == Some(d.localNode)
            && f.provenance ==
                 ProvenanceOf(Bottleneck(DrainedChannels(channels, d), InactiveChannels(channels, d)), ctx)
  {}

  /** It is stamped with the time of the evaluation, and cites the source, if there
      is one, and the state of the channel it blames. */
  lemma FindingCites(channels: seq<Channel>, d: SettlementDetector, ctx: DetectorContext, i: nat)
    requires Detected(channels, d, ctx) != []
    requires MostDrainedAt(channels, d, i) || (FirstInactiveAt(channels, d, i) && !SomeDrained(channels, d))
    ensures var f := Detected(channels, d, ctx)[0];
            && f.timestamp == f.firstSeenAt == f.lastSeenAt == ctx.now && f.lifecycle == ActiveFinding
            && f.id.network == Some(ctx.network) && f.id.node == f.node == Some(d.localNode)
            && (f.provenance.Some? <==> ctx.source.Some?)
            && (f.provenance.Some? ==> Cites(f.provenance.value, channels[i], ctx))
  {
    BlameIs(channels, d, i);
    ProvenanceOfFinding(channels, d, ctx);
    if ctx.source.Some? {
      ProvenanceCites(channels[i], ctx);
    }
  }

  // ---- Its evidence ----

  function InvoiceOf(e: NodeEvent): Option<Invoice> {
    match e
    case InvoiceExpired(invoice) => Some(invoice)
    case InvoiceSettled(invoice) => Some(invoice)
    case InvoicePaymentReceived(invoice) => Some(invoice)
    case _ => None
  }

  ghost predicate NamesInvoice(events: seq<NodeEvent>, id: string) {
    exists i :: 0 <= i < |events| && InvoiceOf(events[i]).Some? && InvoiceOf(events[i]).value.id == id
  }

  ghost predicate NamesStore(events: seq<NodeEvent>, id: string) {
    exists i :: 0 <= i < |events| && InvoiceOf(events[i]).Some? && InvoiceOf(events[i]).value.storeId == Some(id)
  }

  ghost predicate HasTime(events: seq<NodeEvent>, at: int) {
    exists i :: 0 <= i < |events| && InvoiceOf(events[i]).Some? && InvoiceOf(events[i]).value.timestamp == at
  }

  lemma IdsGathered(events: seq<NodeEvent>, x: string)
    ensures x in Gather(INVOICE_IDS, events) <==> NamesInvoice(events, x)
    ensures x in Gather(STORE_IDS, events) <==> NamesStore(events, x)
  {
    Gathered(INVOICE_IDS, events, x);
    Gathered(STORE_IDS, events, x);
  }

  lemma TimesGathered(events: seq<NodeEvent>, at: int)
    ensures at in Gather(TIMES, events) <==> HasTime(events, at)
  {
    Gathered(TIMES, events, at);
  }

  // The earliest and the latest time of the window's invoices, or none.
  ghost predicate Spans(events: seq<NodeEvent>, start: Option<int>, end: Option<int>) {
    && (start.Some? <==> exists at :: HasTime(events, at)) && (start.Some? <==> end.Some?)
    && (start.Some? ==> HasTime(events, start.value) && HasTime(events, end.value))
    && (forall at | start.Some? && HasTime(events, at) :: start.value <= at <= end.value)
  }

  lemma SummarySpans(events: seq<NodeEvent>)
    ensures var t := Summarise(TallyOf(events)); Spans(events, t.startedAt, t.endedAt)
  {
    var times := Gather(TIMES, events);
    forall at
      ensures at in times <==> HasTime(events, at)
    {
      TimesGathered(events, at);
    }
    if times != [] {
      assert times[0] in times;
    }
  }

  ghost predicate ListsCounts(evidence: seq<Evidence>, t: Summary) {
    && Evidence("expired_invoices", Count(t.expired)) in evidence
    && Evidence("settled_invoices", Count(t.settled)) in evidence
    && Evidence("total_invoices", Count(t.expired + t.settled)) in evidence
    && Evidence("failure_rate", Rate(t.expired, t.expired + t.settled)) in evidence
  }

  lemma {:induction false} DrainedPush(channels: seq<Channel>, c: Channel, d: SettlementDetector)
    ensures DrainedChannels(channels + [c], d) ==
            DrainedChannels(channels, d) + (if IsDrained(c, d) then [c] else [])
    ensures InactiveChannels(channels + [c], d) ==
            InactiveChannels(channels, d) + (if IsInactive(c, d) then [c] else [])
  {
    if channels == [] {
      assert ([] + [c])[1..] == [];
    } else {
      assert (channels + [c])[1..] == channels[1..] + [c];
      DrainedPush(channels[1..], c, d);
      DrainedCons(channels, d);
      DrainedCons(channels + [c], d);
    }
  }

  lemma {:induction false} DegradedCounts(channels: seq<Channel>, d: SettlementDetector)
    ensures |DrainedChannels(channels, d)| == |Where(channels, c => IsDrained(c, d))|
    ensures |InactiveChannels(channels, d)| == |Where(channels, c => IsInactive(c, d))|
  {
    if channels != [] {
      var init, last := channels[..|channels| - 1], channels[|channels| - 1];
      assert channels == init + [last];
      DegradedCounts(init, d);
      DrainedPush(init, last, d);
      WhereInit(channels, c => IsDrained(c, d));
      WhereInit(channels, c => IsInactive(c, d));
    }
  }

  ghost predicate ListsChannels(evidence: seq<Evidence>, drained: nat, inactive: nat) {
    && Evidence("drained_channels_count", Count(drained)) in evidence
    && Evidence("inactive_channels_count", Count(inactive)) in evidence
  }

  lemma EvidenceListsChannels(t: Summary, drained: seq<Channel>, inactive: seq<Channel>, ctx: DetectorContext)
    ensures ListsChannels(EvidenceOf(t, drained, inactive, ctx), |drained|, |inactive|)
  {
    var e := EvidenceOf(t, drained, inactive, ctx);
    assert e[4] in e && e[5] in e;
  }

  ghost predicate ListsNames(evidence: seq<Evidence>, t: Summary) {
    && Evidence("invoice_ids", TextList(t.invoiceIds)) in evidence
    && Evidence("store_ids", TextList(t.storeIds)) in evidence
  }

  ghost predicate ListsTimes(evidence: seq<Evidence>, t: Summary) {
    t.startedAt.Some? && t.endedAt.Some? ==>
      Evidence("window_started_at", Moment(t.startedAt.value)) in evidence &&
      Evidence("window_ended_at", Moment(t.endedAt.value)) in evidence
  }

  function RootCause(degraded: bool, synchronized: Option<bool>): string {
    if synchronized == Some(false) then "bitcoin_core_desynchronized"
    else if synchronized == Some(true) && degraded then "lightning_operational_degradation"
    else "undetermined"
  }

  ghost predicate ListsCause(evidence: seq<Evidence>, degraded: bool, synchronized: Option<bool>) {
    Evidence("root_cause", Text(RootCause(degraded, synchronized))) in evidence
  }

  lemma EvidenceListsCounts(t: Summary, drained: seq<Channel>, inactive: seq<Channel>, ctx: DetectorContext)
    ensures ListsCounts(EvidenceOf(t, drained, inactive, ctx), t)
  {
    var e := EvidenceOf(t, drained, inactive, ctx);
    assert e[0] in e && e[1] in e && e[2] in e && e[3] in e;
  }

  lemma EvidenceListsNames(t: Summary, drained: seq<Channel>, inactive: seq<Channel>, ctx: DetectorContext)
    ensures ListsNames(EvidenceOf(t, drained, inactive, ctx), t)
  {
    var e := EvidenceOf(t, drained, inactive, ctx);
    assert e[9] in e && e[10] in e;
  }

  lemma EvidenceListsTimes(t: Summary, drained: seq<Channel>, inactive: seq<Channel>, ctx: DetectorContext)
    ensures ListsTimes(EvidenceOf(t, drained, inactive, ctx), t)
  {
    var e := EvidenceOf(t, drained, inactive, ctx);
    if t.startedAt.Some? && t.endedAt.Some? {
      assert e[11] in e && e[12] in e;
    }
  }

  lemma EvidenceListsCause(t: Summary, drained: seq<Channel>, inactive: seq<Channel>, ctx: DetectorContext)
    ensures ListsCause(EvidenceOf(t, drained, inactive, ctx), drained != [] || inactive != [], ctx.chainSynchronized)
  {
    var e := EvidenceOf(t, drained, inactive, ctx);
    assert e[8] in e;
  }

  lemma EvidenceListsAll(t: Summary, drained: seq<Channel>, inactive: seq<Channel>, ctx: DetectorContext)
    ensures var e := EvidenceOf(t, drained, inactive, ctx);
            && ListsCounts(e, t) && ListsNames(e, t) && ListsTimes(e, t) && ListsChannels(e, |drained|, |inactive|)
            && ListsCause(e, drained != [] || inactive != [], ctx.chainSynchronized)
  {
    EvidenceListsCounts(t, drained, inactive, ctx);
    EvidenceListsNames(t, drained, inactive, ctx);
    EvidenceListsChannels(t, drained, inactive, ctx);
    EvidenceListsTimes(t, drained, inactive, ctx);
    EvidenceListsCause(t, drained, inactive, ctx);
  }

  /** The evidence counts the window's failures and settlements, names its invoices
      and stores once each in order, spans its times, and gives the root cause that
      the chain and the channels leave. */
  lemma EvidenceTellsTheWindow(channels: seq<Channel>, d: SettlementDetector, ctx: DetectorContext)
    returns (t: Summary)
    requires Detected(channels, d, ctx) != [] && ctx.events.Some?
    ensures var evidence := Detected(channels, d, ctx)[0].evidence;
            && ListsCounts(evidence, t) && ListsNames(evidence, t) && ListsTimes(evidence, t)
            && ListsChannels(evidence, |Where(channels, c => IsDrained(c, d))|,
                             |Where(channels, c => IsInactive(c, d))|)
            && ListsCause(evidence, SomeDrained(channels, d) || SomeInactive(channels, d), ctx.chainSynchronized)
    ensures t.expired == Failures(ctx.events.value) && t.settled == Settlements(ctx.events.value)
    ensures Ascending(t.invoiceIds) && forall x :: x in t.invoiceIds <==> NamesInvoice(ctx.events.value, x)
    ensures Ascending(t.storeIds) && forall x :: x in t.storeIds <==> NamesStore(ctx.events.value, x)
    ensures Spans(ctx.events.value, t.startedAt, t.endedAt)
  {
    var events := ctx.events.value;
    t := Summarise(TallyOf(events));
    TallyCounts(events);
    DegradedIff(channels, d);
    DegradedCounts(channels, d);
    forall x
      ensures x in t.invoiceIds <==> NamesInvoice(events, x)
      ensures x in t.storeIds <==> NamesStore(events, x)
    {
      IdsGathered(events, x);
    }
    SummarySpans(events);
    EvidenceListsAll(t, DrainedChannels(channels, d), InactiveChannels(channels, d), ctx);
    EvidenceOfFinding(channels, d, ctx);
  }

  lemma EvidenceOfFinding(channels: seq<Channel>, d: SettlementDetector, ctx: DetectorContext)
    requires Detected(channels, d, ctx) != [] && ctx.events.Some?
    ensures Detected(channels, d, ctx)[0].evidence ==
            EvidenceOf(Summarise(TallyOf(ctx.events.value)), DrainedChannels(channels, d),
                       InactiveChannels(channels, d), ctx)
  {}
}

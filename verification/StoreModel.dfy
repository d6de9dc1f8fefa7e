/** What `MemoryStorage` (crates/rieko-storage/src/storage.rs) holds, and the
    effect of each of its operations as a function of that value. */
module StoreModel {
  import opened Wrappers
  import opened Sequences
  import opened Ordering
  import opened Domain
  import opened Findings
  import opened Redistribution

  // `CallRefused` stands for every failure of a backend other than the one modelled.
  datatype Refusal =
    NestedTransaction | NothingToCommit | NothingToRollBack | UnknownWebhookEvent | ImmutableSimulation
    | DuplicateInput | DuplicateSimulationEvent | CallRefused
  datatype StorageError = Backend(refusal: Refusal) | Corrupt

  // ---- Rows ----

  datatype SimulationStatus = Requested | Completed | UnsupportedStatus | InvalidInputStatus | Stale | FailedStatus
  datatype ErrorCode = UnsupportedRecommendation | StaleInput | FutureDatedInput | InvalidInputCode | ModelFailure

  datatype SimulationRecord = SimulationRecord(
    id: string,
    actionId: ActionId,
    findingId: FindingId,
    status: SimulationStatus,
    modelId: string,
    modelVersion: string,
    inputHash: InputHash,
    canonicalInput: Option<SimulationInput>,
    projection: Option<SimulationResult>,
    requestedAt: int,
    completedAt: Option<int>,
    errorCode: Option<ErrorCode>,
    createdAt: int)

  datatype SimulationEvent = SimulationEvent(
    id: string, simulationId: string, status: SimulationStatus, errorCode: Option<ErrorCode>, timestamp: int)

  datatype DeliveryStatus = Success | FailedDelivery | Skipped | NeverAttempted
  datatype AlertState = AlertState(lastSentAt: Option<int>, lastSeverity: Option<Severity>, lastStatus: DeliveryStatus)

  datatype OperationalState = OperationalState(
    lastCycleAttempt: Option<int>, lastCycleSuccess: Option<int>, lastPersistSuccess: Option<int>)

  datatype WebhookDeliveryRecord = WebhookDeliveryRecord(
    webhookId: Option<string>, eventType: Option<string>, processedAt: int)

  datatype WebhookEventRecord = WebhookEventRecord(
    deliveryId: string, event: NodeEvent, acceptedAt: int, processedAt: Option<int>)

  // `MemoryStorageState`: what a transaction snapshots and a rollback restores.
  datatype Tables = Tables(
    findings: seq<Finding>,
    recommendations: seq<Recommendation>,
    audit: seq<string>,
    channelSnapshots: seq<ChannelSnapshot>,
    simulations: seq<string>,
    simulationRecords: seq<SimulationRecord>,
    simulationEvents: seq<SimulationEvent>,
    alertState: map<string, AlertState>,
    operationalState: Option<OperationalState>,
    webhookDeliveries: map<string, WebhookDeliveryRecord>,
    webhookEvents: map<string, WebhookEventRecord>)

  // The absence counters lie outside the snapshot.
  datatype Store = Store(tables: Tables, absent: map<FindingId, nat>, open: Option<Tables>)

  const EMPTY_STORE := Store(Tables([], [], [], [], [], [], [], map[], None, map[], map[]), map[], None)

  // ---- Transactions ----

  function Begun(s: Store): Store { s.(open := Some(s.tables)) }
  function Committed(s: Store): Store { s.(open := None) }
  function RolledBack(s: Store): Store
    requires s.open.Some?
  {
    s.(tables := s.open.value, open := None)
  }

  // ---- Findings ----

  function Absences(absent: map<FindingId, nat>, id: FindingId): nat {
    if id in absent then absent[id] else 0
  }

  predicate InScope(f: Finding, scope: FindingCycleScope) {
    f.detector == scope.detector && f.Network() == scope.network && f.node == scope.node
  }

  // One turn of the loop of `resolve_findings_for_scope`.
  predicate Counts(f: Finding, scope: FindingCycleScope) {
    scope.complete && InScope(f, scope) && f.lifecycle == ActiveFinding
  }

  function ResolvedOne(f: Finding, absent: map<FindingId, nat>, scope: FindingCycleScope): Finding {
    if Counts(f, scope) && Absences(absent, f.id) + 1 >= 3 then f.(lifecycle := ResolvedFinding) else f
  }

  function CountedOne(f: Finding, absent: map<FindingId, nat>, scope: FindingCycleScope): map<FindingId, nat> {
    if !Counts(f, scope) then absent
    else if Absences(absent, f.id) + 1 >= 3 then absent - {f.id}
    else absent[f.id := Absences(absent, f.id) + 1]
  }

  function AfterCounting(fs: seq<Finding>, absent: map<FindingId, nat>, scope: FindingCycleScope): map<FindingId, nat> {
    if fs == [] then absent
    else CountedOne(fs[|fs| - 1], AfterCounting(fs[..|fs| - 1], absent, scope), scope)
  }

  function AfterResolving(fs: seq<Finding>, absent: map<FindingId, nat>, scope: FindingCycleScope): seq<Finding> {
    if fs == [] then []
    else
      var init := fs[..|fs| - 1];
      AfterResolving(init, absent, scope) +
      [ResolvedOne(fs[|fs| - 1], AfterCounting(init, absent, scope), scope)]
  }

  function Resolved(s: Store, scope: FindingCycleScope): Store {
    s.(tables := s.tables.(findings := AfterResolving(s.tables.findings, s.absent, scope)),
       absent := AfterCounting(s.tables.findings, s.absent, scope))
  }

  function SyncedOne(r: Recommendation, resolvedIds: set<FindingId>): Recommendation {
    if r.findingId in resolvedIds then r.(lifecycle := Some(ResolvedRecommendation)) else r
  }

  function ResolvedIds(fs: seq<Finding>): set<FindingId> {
    set f | f in fs && f.lifecycle == ResolvedFinding :: f.id
  }

  function Synced(s: Store): Store {
    var recs := s.tables.recommendations;
    s.(tables := s.tables.(recommendations :=
         seq(|recs|, i requires 0 <= i < |recs| => SyncedOne(recs[i], ResolvedIds(s.tables.findings)))))
  }

  /** Synchronising resolves the recommendations whose finding is stored as
      resolved, and changes nothing else. */
  lemma SyncResolvesExactly(s: Store, i: nat)
    requires i < |s.tables.recommendations|
    ensures Synced(s).tables == s.tables.(recommendations := Synced(s).tables.recommendations)
    ensures Synced(s).absent == s.absent && |Synced(s).tables.recommendations| == |s.tables.recommendations|
    ensures var was := s.tables.recommendations[i];
            Synced(s).tables.recommendations[i] ==
            if exists f :: f in s.tables.findings && f.id == was.findingId && f.lifecycle == ResolvedFinding
            then Recommendation(was.findingId, was.action, Some(ResolvedRecommendation)) else was
  {}

  // The first position of a finding with this identity.
  function FindFinding(fs: seq<Finding>, id: FindingId): (i: Option<nat>)
    ensures i.None? <==> forall f | f in fs :: f.id != id
    ensures i.Some? ==> i.value < |fs| && fs[i.value].id == id && forall j | 0 <= j < i.value :: fs[j].id != id
  {
    if fs == [] then None
    else if fs[0].id == id then Some(0)
    else
      assert fs == [fs[0]] + fs[1..];
      var rest := FindFinding(fs[1..], id);
      if rest.Some? then Some(rest.value + 1) else None
  }

  predicate SameLogicalFinding(a: Finding, b: Finding) {
    a.detector == b.detector && a.detectorVersion == b.detectorVersion && a.Network() == b.Network() &&
    a.node == b.node && a.channel == b.channel
  }

  function FirstSeen(fs: seq<Finding>, f: Finding): int {
    if fs == [] then f.firstSeenAt
    else
      var rest := FirstSeen(fs[1..], f);
      if SameLogicalFinding(fs[0], f) && fs[0].firstSeenAt < rest then fs[0].firstSeenAt else rest
  }

  function Refreshed(existing: Finding, f: Finding, firstSeenAt: int): Finding {
    var earliest := if firstSeenAt < existing.firstSeenAt then firstSeenAt else existing.firstSeenAt;
    var kept := existing.(firstSeenAt := earliest);
    if f.lastSeenAt >= existing.lastSeenAt then
      kept.(severity := f.severity, evidence := f.evidence, provenance := f.provenance, explanation := f.explanation,
            schemaVersion := f.schemaVersion, timestamp := f.timestamp, lastSeenAt := f.lastSeenAt,
            lifecycle := ActiveFinding)
    else kept
  }

  predicate ValidSchema(f: Finding) {
    1 <= f.schemaVersion <= FINDING_SCHEMA_VERSION
  }

  function Saved(s: Store, f: Finding): Store {
    var fs := s.tables.findings;
    var firstSeenAt := FirstSeen(fs, f);
    match FindFinding(fs, f.id)
    case Some(i) =>
      s.(tables := s.tables.(findings := fs[i := Refreshed(fs[i], f, firstSeenAt)]), absent := s.absent - {f.id})
    case None =>
      s.(tables := s.tables.(findings := fs + [f.(firstSeenAt := firstSeenAt, lifecycle := ActiveFinding)]))
  }

  // ---- Recommendations ----

  function FindRecommendation(rs: seq<Recommendation>, id: ActionId): (i: Option<nat>)
    ensures i.Some? ==>
              i.value < |rs| && rs[i.value].action.id == id && forall j | 0 <= j < i.value :: rs[j].action.id != id
    ensures i.None? <==> forall r | r in rs :: r.action.id != id
  {
    if rs == [] then None
    else if rs[0].action.id == id then Some(0)
    else
      assert rs == [rs[0]] + rs[1..];
      var rest := FindRecommendation(rs[1..], id);
      if rest.Some? then Some(rest.value + 1) else None
  }

  ghost predicate FirstRecommendation(rs: seq<Recommendation>, id: ActionId, i: nat) {
    i < |rs| && rs[i].action.id == id && forall j | 0 <= j < i :: rs[j].action.id != id
  }

  lemma RecommendationFound(rs: seq<Recommendation>, id: ActionId, i: nat)
    requires FirstRecommendation(rs, id, i)
    ensures FindRecommendation(rs, id) == Some(i)
  {
    assert rs[i] in rs;
  }

  function RecommendationSaved(s: Store, r: Recommendation): Store {
    var rs := s.tables.recommendations;
    match FindRecommendation(rs, r.action.id)
    case Some(i) =>
      s.(tables := s.tables.(recommendations :=
           rs[i := rs[i].(action := rs[i].action.(updatedAt := r.action.updatedAt))]))
    case None => s.(tables := s.tables.(recommendations := rs + [r]))
  }

  // ---- The webhook queue ----

  function Enqueued(t: Tables, deliveryId: string, webhookId: Option<string>, eventType: Option<string>,
                    event: NodeEvent, acceptedAt: int): Tables {
    t.(webhookDeliveries :=
         if deliveryId in t.webhookDeliveries then t.webhookDeliveries
         else t.webhookDeliveries[deliveryId := WebhookDeliveryRecord(webhookId, eventType, acceptedAt)],
       webhookEvents :=
         if deliveryId in t.webhookEvents then t.webhookEvents
         else t.webhookEvents[deliveryId := WebhookEventRecord(deliveryId, event, acceptedAt, None)])
  }

  function Marked(t: Tables, deliveryId: string, processedAt: int): Tables
    requires deliveryId in t.webhookEvents
  {
    t.(webhookEvents := t.webhookEvents[
         deliveryId := t.webhookEvents[deliveryId].(processedAt := Some(processedAt))])
  }

  // The order of the queue: acceptance time, then delivery id.
  predicate Before(a: WebhookEventRecord, b: WebhookEventRecord) {
    a.acceptedAt < b.acceptedAt || (a.acceptedAt == b.acceptedAt && StringLess(a.deliveryId, b.deliveryId))
  }

  lemma BeforeTransitive(a: WebhookEventRecord, b: WebhookEventRecord, c: WebhookEventRecord)
    requires Before(a, b) && Before(b, c)
    ensures Before(a, c)
  {
    if a.acceptedAt == b.acceptedAt == c.acceptedAt {
      StringLessTransitive(a.deliveryId, b.deliveryId, c.deliveryId);
    }
  }

  lemma BeforeIrreflexive(a: WebhookEventRecord)
    ensures !Before(a, a)
  {
    StringLessIrreflexive(a.deliveryId);
  }

  predicate Keyed(events: map<string, WebhookEventRecord>) {
    forall id | id in events :: events[id].deliveryId == id
  }

  function Rows(events: map<string, WebhookEventRecord>, processed: bool): set<WebhookEventRecord> {
    set id | id in events && events[id].processedAt.Some? == processed :: events[id]
  }

  ghost predicate InOrder(l: seq<WebhookEventRecord>) {
    forall i, j | 0 <= i < j < |l| :: Before(l[i], l[j])
  }

  // `collect` followed by `sort_by`: these rows, each once, in queue order.
  ghost predicate IsListing(l: seq<WebhookEventRecord>, rows: set<WebhookEventRecord>) {
    InOrder(l) && forall r :: r in l <==> r in rows
  }

  lemma {:induction false} ListingUnique(a: seq<WebhookEventRecord>, b: seq<WebhookEventRecord>,
                                         rows: set<WebhookEventRecord>)
    requires IsListing(a, rows) && IsListing(b, rows)
    ensures a == b
    decreases |a|
  {
    if a == [] || b == [] {
      FirstIsIn(a);
      FirstIsIn(b);
    } else {
      assert a[0] in rows && b[0] in rows;
      HeadIsLeast(a, b[0]);
      HeadIsLeast(b, a[0]);
      if a[0] != b[0] {
        BeforeTransitive(a[0], b[0], a[0]);
        BeforeIrreflexive(a[0]);
      }
      TailListing(a, rows);
      TailListing(b, rows);
      ListingUnique(a[1..], b[1..], rows - {a[0]});
    }
  }

  lemma HeadIsLeast(l: seq<WebhookEventRecord>, r: WebhookEventRecord)
    requires InOrder(l) && r in l
    ensures r == l[0] || Before(l[0], r)
  {}

  lemma TailListing(l: seq<WebhookEventRecord>, rows: set<WebhookEventRecord>)
    requires IsListing(l, rows) && l != []
    ensures IsListing(l[1..], rows - {l[0]})
  {
    BeforeIrreflexive(l[0]);
    assert l == [l[0]] + l[1..];
    forall r
      ensures r in l[1..] <==> r in rows - {l[0]}
    {
      assert r in l <==> r == l[0] || r in l[1..];
    }
  }

  // Insertion by queue order.
  function Placed(l: seq<WebhookEventRecord>, r: WebhookEventRecord): (p: seq<WebhookEventRecord>)
    requires InOrder(l) && forall x | x in l :: x.deliveryId != r.deliveryId
    ensures InOrder(p) && forall x :: x in p <==> x in l || x == r
  {
    if l == [] then [r]
    else if Before(r, l[0]) then
      assert forall j | 0 <= j < |l| :: Before(r, l[j]) by {
        forall j | 0 < j < |l|
          ensures Before(r, l[j])
        {
          BeforeTransitive(r, l[0], l[j]);
        }
      }
      [r] + l
    else
      StringLessTotal(r.deliveryId, l[0].deliveryId);
      assert l == [l[0]] + l[1..];
      var rest := Placed(l[1..], r);
      assert forall x | x in rest :: Before(l[0], x);
      [l[0]] + rest
  }

  ghost predicate DistinctIds(rows: set<WebhookEventRecord>) {
    forall a, b | a in rows && b in rows :: a.deliveryId == b.deliveryId ==> a == b
  }

  lemma {:induction false} ListingExists(rows: set<WebhookEventRecord>)
    requires DistinctIds(rows)
    ensures exists l :: IsListing(l, rows)
    decreases |rows|
  {
    if rows == {} {
      assert IsListing([], rows);
    } else {
      var r :| r in rows;
      ListingExists(rows - {r});
      var l :| IsListing(l, rows - {r});
      assert forall x | x in l :: x in rows - {r};
      assert IsListing(Placed(l, r), rows);
    }
  }

  ghost function Listing(events: map<string, WebhookEventRecord>, processed: bool): (l: seq<WebhookEventRecord>)
    requires Keyed(events)
    ensures IsListing(l, Rows(events, processed))
  {
    ListingExists(Rows(events, processed));
    var l :| IsListing(l, Rows(events, processed));
    l
  }

  function Clamp(limit: nat): nat {
    if limit < 1 then 1 else if limit > 1_000 then 1_000 else limit
  }

  // ---- Simulation records ----

  function FindRecord(rs: seq<SimulationRecord>, id: string): (i: Option<nat>)
    ensures i.None? <==> forall r | r in rs :: r.id != id
    ensures i.Some? ==> i.value < |rs| && rs[i.value].id == id && forall j | 0 <= j < i.value :: rs[j].id != id
  {
    if rs == [] then None
    else if rs[0].id == id then Some(0)
    else
      assert rs == [rs[0]] + rs[1..];
      var rest := FindRecord(rs[1..], id);
      if rest.Some? then Some(rest.value + 1) else None
  }

  predicate Replayable(r: SimulationRecord) {
    r.inputHash != NoHash && r.canonicalInput.Some? && r.projection.Some?
  }

  predicate HasProjection(rs: seq<SimulationRecord>, hash: InputHash) {
    exists e :: e in rs && e.inputHash == hash && Replayable(e)
  }

  function RecordSaved(t: Tables, r: SimulationRecord): Result<Tables, StorageError> {
    match FindRecord(t.simulationRecords, r.id)
    case Some(i) =>
      if t.simulationRecords[i] == r then Ok(t) else Err(Backend(ImmutableSimulation))
    case None =>
      if Replayable(r) && HasProjection(t.simulationRecords, r.inputHash) then Err(Backend(DuplicateInput))
      else Ok(t.(simulationRecords := t.simulationRecords + [r]))
  }

  /** A record is stored once. The same record is accepted again, a changed one
      refused, and so is a second projection of an input that has one; nothing
      else is, and nothing stored changes. */
  ghost predicate StoredOnce(before: seq<SimulationRecord>, r: SimulationRecord, accepted: bool,
                             after: seq<SimulationRecord>) {
    && (forall i | 0 <= i < |before| && before[i].id == r.id && forall j | 0 <= j < i :: before[j].id != r.id ::
          (accepted <==> before[i] == r) && after == before)
    && ((forall e | e in before :: e.id != r.id) ==>
          && (!accepted <==> Replayable(r) && HasProjection(before, r.inputHash))
          && after == before + (if accepted then [r] else []))
  }

  lemma RecordsAreStoredOnce(t: Tables, r: SimulationRecord)
    ensures var saved := RecordSaved(t, r);
            StoredOnce(t.simulationRecords, r, saved.Ok?,
                       if saved.Ok? then saved.value.simulationRecords else t.simulationRecords)
  {
    var rs := t.simulationRecords;
    forall i | 0 <= i < |rs| && rs[i].id == r.id && forall j | 0 <= j < i :: rs[j].id != r.id
      ensures FindRecord(rs, r.id) == Some(i)
    {
      assert rs[i] in rs;
    }
  }

  // `max_by_key(created_at)` over the replayable rows of a hash: the last of the latest.
  function LatestByHash(rs: seq<SimulationRecord>, hash: InputHash): Option<SimulationRecord> {
    if rs == [] then None
    else
      var rest := LatestByHash(rs[..|rs| - 1], hash);
      var last := rs[|rs| - 1];
      if hash == NoHash || last.inputHash != hash || last.canonicalInput.None? then rest
      else if rest.Some? && rest.value.createdAt > last.createdAt then rest
      else Some(last)
  }

  function EventAppended(t: Tables, e: SimulationEvent): Result<Tables, StorageError> {
    if exists x :: x in t.simulationEvents && x.id == e.id then Err(Backend(DuplicateSimulationEvent))
    else Ok(t.(simulationEvents := t.simulationEvents + [e]))
  }
}

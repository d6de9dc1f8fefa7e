/** `MemoryStorage` itself: its fields, and its methods against the functions of
    StoreModel. */
module Storage {
  import opened Wrappers
  import opened Sequences
  import opened Ordering
  import opened Domain
  import opened Findings
  import opened Redistribution
  import opened Retention
  import opened StoreModel

  class MemoryStorage {
    var findings: seq<Finding>
    var recommendations: seq<Recommendation>
    var audit: seq<string>
    var channelSnapshots: seq<ChannelSnapshot>
    var simulations: seq<string>
    var simulationRecords: seq<SimulationRecord>
    var simulationEvents: seq<SimulationEvent>
    var alertState: map<string, AlertState>
    var operationalState: Option<OperationalState>
    var transactionSnapshot: Option<Tables>
    var findingAbsent: map<FindingId, nat>
    var webhookDeliveries: map<string, WebhookDeliveryRecord>
    var webhookEvents: map<string, WebhookEventRecord>

    function CurrentTables(): Tables
      reads this
    {
      Tables(findings, recommendations, audit, channelSnapshots, simulations, simulationRecords,
             simulationEvents, alertState, operationalState, webhookDeliveries, webhookEvents)
    }

    function View(): Store
      reads this
    {
      Store(CurrentTables(), findingAbsent, transactionSnapshot)
    }

    constructor ()
      ensures View() == EMPTY_STORE
    {
      findings, recommendations, audit, channelSnapshots, simulations := [], [], [], [], [];
      simulationRecords, simulationEvents, alertState, operationalState := [], [], map[], None;
      transactionSnapshot, findingAbsent, webhookDeliveries, webhookEvents := None, map[], map[], map[];
    }

    method BeginTransaction() returns (r: Result<(), StorageError>)
      modifies this
      ensures r.Err? <==> old(transactionSnapshot).Some?
      ensures View() == if r.Ok? then Begun(old(View())) else old(View())
    {
      if transactionSnapshot.Some? {
        return Err(Backend(NestedTransaction));
      }
      transactionSnapshot := Some(CurrentTables());
      r := Ok(());
    }

    method CommitTransaction() returns (r: Result<(), StorageError>)
      modifies this
      ensures r.Err? <==> old(transactionSnapshot).None?
      ensures View() == StoreModel.Committed(old(View()))
    {
      if transactionSnapshot.None? {
        return Err(Backend(NothingToCommit));
      }
      transactionSnapshot := None;
      r := Ok(());
    }

    method RollbackTransaction() returns (r: Result<(), StorageError>)
      modifies this
      ensures r.Err? <==> old(transactionSnapshot).None?
      ensures r.Err? ==> View() == old(View())
      ensures r.Ok? ==> View() == RolledBack(old(View()))
    {
      if transactionSnapshot.None? {
        return Err(Backend(NothingToRollBack));
      }
      var snapshot := transactionSnapshot.value;
      transactionSnapshot := None;
      Restore(snapshot);
      r := Ok(());
    }

    method Restore(snapshot: Tables)
      modifies `findings, `recommendations, `audit, `channelSnapshots, `simulations, `simulationRecords,
               `simulationEvents, `alertState, `operationalState, `webhookDeliveries, `webhookEvents
      ensures CurrentTables() == snapshot
    {
      findings, recommendations, audit := snapshot.findings, snapshot.recommendations, snapshot.audit;
      channelSnapshots, simulations := snapshot.channelSnapshots, snapshot.simulations;
      simulationRecords, simulationEvents := snapshot.simulationRecords, snapshot.simulationEvents;
      alertState, operationalState := snapshot.alertState, snapshot.operationalState;
      webhookDeliveries, webhookEvents := snapshot.webhookDeliveries, snapshot.webhookEvents;
    }

    method SaveFinding(finding: Finding) returns (r: Result<(), StorageError>)
      modifies this
      ensures r.Ok? <==> ValidSchema(finding)
      ensures View() == if r.Ok? then Saved(old(View()), finding) else old(View())
    {
      if !ValidSchema(finding) {
        return Err(Corrupt);
      }
      var firstSeenAt := FirstSeen(findings, finding);
      var at := FindFinding(findings, finding.id);
      if at.Some? {
        findingAbsent := findingAbsent - {finding.id};
        findings := findings[at.value := Refreshed(findings[at.value], finding, firstSeenAt)];
      } else {
        findings := findings + [finding.(firstSeenAt := firstSeenAt, lifecycle := ActiveFinding)];
      }
      r := Ok(());
    }

    method ResolveFindingsForScope(scope: FindingCycleScope)
      modifies `findings, `findingAbsent
      ensures View() == StoreModel.Resolved(old(View()), scope)
    {
      if !scope.complete {
        IncompleteScopeResolvesNothing(findings, findingAbsent, scope);
        return;
      }
      ghost var before, counters := findings, findingAbsent;
      for i := 0 to |findings|
        invariant |findings| == |before|
        invariant findings == AfterResolving(before[..i], counters, scope) + before[i..]
        invariant findingAbsent == AfterCounting(before[..i], counters, scope)
      {
        ResolveStep(before, counters, scope, i);
        CountAbsence(i, scope);
      }
      assert before[..|before|] == before;
    }

    // The body of that loop.
    method CountAbsence(i: nat, scope: FindingCycleScope)
      requires i < |findings| && scope.complete
      modifies `findings, `findingAbsent
      ensures findings == old(findings)[i := ResolvedOne(old(findings)[i], old(findingAbsent), scope)]
      ensures findingAbsent == CountedOne(old(findings)[i], old(findingAbsent), scope)
    {
      var finding := findings[i];
      if finding.detector == scope.detector && finding.Network() == scope.network && finding.node == scope.node &&
         finding.lifecycle == ActiveFinding {
        var count := if finding.id in findingAbsent then findingAbsent[finding.id] + 1 else 1;
        findingAbsent := findingAbsent[finding.id := count];
        if count >= 3 {
          findings := findings[i := finding.(lifecycle := ResolvedFinding)];
          findingAbsent := findingAbsent - {finding.id};
        }
      }
    }

    method SyncRecommendationLifecycles()
      modifies `recommendations
      ensures View() == Synced(old(View()))
    {
      var resolvedIds := ResolvedIds(findings);
      ghost var before := recommendations;
      for i := 0 to |recommendations|
        invariant |recommendations| == |before|
        invariant forall j | 0 <= j < |before| ::
                    recommendations[j] == if j < i then SyncedOne(before[j], resolvedIds) else before[j]
      {
        if recommendations[i].findingId in resolvedIds {
          recommendations := recommendations[i := recommendations[i].(lifecycle := Some(ResolvedRecommendation))];
        }
      }
    }

    method SaveRecommendation(rec: Recommendation)
      modifies this
      ensures View() == RecommendationSaved(old(View()), rec)
      ensures forall i: nat | FirstRecommendation(old(recommendations), rec.action.id, i) ::
                var was := old(recommendations)[i];
                recommendations ==
                old(recommendations)[i := Recommendation(
                  was.findingId, Action(was.action.id, was.action.actionType, was.action.target, rec.action.updatedAt),
                  was.lifecycle)]
      ensures (forall r | r in old(recommendations) :: r.action.id != rec.action.id) ==>
                recommendations == old(recommendations) + [rec]
    {
      var at := FindRecommendation(recommendations, rec.action.id);
      forall i: nat | FirstRecommendation(recommendations, rec.action.id, i)
        ensures at == Some(i)
      {
        RecommendationFound(recommendations, rec.action.id, i);
      }
      if at.Some? {
        var existing := recommendations[at.value];
        var touched := existing.action.(updatedAt := rec.action.updatedAt);
        recommendations := recommendations[at.value := existing.(action := touched)];
      } else {
        recommendations := recommendations + [rec];
      }
    }

    method PruneChannelSnapshots(policy: RetentionPolicy, now: int) returns (deleted: nat)
      modifies this`channelSnapshots
      ensures Pruned(old(channelSnapshots), channelSnapshots, policy, now)
      ensures EachNewestFirst(channelSnapshots)
      ensures policy.maxTotalSnapshots.Some? ==> NewestFirst(channelSnapshots)
      ensures PrunedExactly(old(channelSnapshots), channelSnapshots, policy, now)
      ensures deleted + |channelSnapshots| == |old(channelSnapshots)|
    {
      var before := |channelSnapshots|;
      var kept := Prune(channelSnapshots, policy, now);
      KeptNoMore(channelSnapshots, kept);
      channelSnapshots := kept;
      deleted := before - |channelSnapshots|;
    }

    method RecordCycleSuccess(completedAt: int)
      modifies this
      ensures View() == old(View()).(tables := old(View()).tables.(operationalState :=
                          Some(OperationalState(Some(completedAt), Some(completedAt), Some(completedAt)))))
    {
      operationalState := Some(OperationalState(Some(completedAt), Some(completedAt), Some(completedAt)));
    }

    // ---- The webhook queue ----

    method IsWebhookDeliveryProcessed(deliveryId: string) returns (r: bool)
      ensures r <==> deliveryId in webhookDeliveries
    {
      r := deliveryId in webhookDeliveries;
    }

    method EnqueueWebhookEvent(deliveryId: string, webhookId: Option<string>, eventType: Option<string>,
                               event: NodeEvent, acceptedAt: int)
      modifies this
      ensures View() == old(View()).(tables :=
                          Enqueued(old(View()).tables, deliveryId, webhookId, eventType, event, acceptedAt))
      ensures webhookDeliveries ==
              if deliveryId in old(webhookDeliveries) then old(webhookDeliveries)
              else old(webhookDeliveries)[deliveryId := WebhookDeliveryRecord(webhookId, eventType, acceptedAt)]
      ensures webhookEvents ==
              if deliveryId in old(webhookEvents) then old(webhookEvents)
              else old(webhookEvents)[deliveryId := WebhookEventRecord(deliveryId, event, acceptedAt, None)]
    {
      if deliveryId !in webhookDeliveries {
        webhookDeliveries := webhookDeliveries[deliveryId := WebhookDeliveryRecord(webhookId, eventType, acceptedAt)];
      }
      if deliveryId !in webhookEvents {
        webhookEvents := webhookEvents[deliveryId := WebhookEventRecord(deliveryId, event, acceptedAt, None)];
      }
    }

    // `values().filter(..).collect()` and `sort_by`.
    method SortedRows(processed: bool) returns (l: seq<WebhookEventRecord>)
      requires Keyed(webhookEvents)
      ensures l == Listing(webhookEvents, processed)
    {
      l := [];
      var remaining := webhookEvents.Keys;
      while remaining != {}
        invariant remaining <= webhookEvents.Keys
        invariant InOrder(l)
        invariant forall r :: r in l <==> r in Rows(webhookEvents, processed) && r.deliveryId !in remaining
        decreases |remaining|
      {
        var id :| id in remaining;
        remaining := remaining - {id};
        if webhookEvents[id].processedAt.Some? == processed {
          l := Placed(l, webhookEvents[id]);
        }
      }
      ListingUnique(l, Listing(webhookEvents, processed), Rows(webhookEvents, processed));
    }

    method PendingWebhookEvents(limit: nat) returns (l: seq<WebhookEventRecord>)
      requires Keyed(webhookEvents)
      ensures l == First(Listing(webhookEvents, false), Clamp(limit))
      ensures l <= Listing(webhookEvents, false)
      ensures forall i, j | 0 <= i < j < |l| ::
                l[i].acceptedAt <= l[j].acceptedAt &&
                (l[i].acceptedAt == l[j].acceptedAt ==> StringLess(l[i].deliveryId, l[j].deliveryId))
      ensures var pending := |Listing(webhookEvents, false)|;
              |l| == pending || |l| == (if limit == 0 then 1 else if limit >= 1_000 then 1_000 else limit) <= pending
    {
      var events := SortedRows(false);
      l := First(events, Clamp(limit));
    }

    method RecentProcessedWebhookEvents(limit: nat) returns (l: seq<WebhookEventRecord>)
      requires Keyed(webhookEvents)
      ensures l == Last(Listing(webhookEvents, true), Clamp(limit))
      ensures |l| <= |Listing(webhookEvents, true)|
      ensures l == Listing(webhookEvents, true)[|Listing(webhookEvents, true)| - |l|..]
      ensures var processed := |Listing(webhookEvents, true)|;
              |l| == processed ||
              |l| == (if limit == 0 then 1 else if limit >= 1_000 then 1_000 else limit) <= processed
    {
      var events := SortedRows(true);
      l := Last(events, Clamp(limit));
    }

    method MarkWebhookEventProcessed(deliveryId: string, processedAt: int) returns (r: Result<(), StorageError>)
      modifies this
      ensures r.Ok? <==> deliveryId in old(webhookEvents)
      ensures r.Err? ==> View() == old(View())
      ensures r.Ok? ==> View() == old(View()).(tables := Marked(old(View()).tables, deliveryId, processedAt))
      ensures r.Ok? ==>
                var was := old(webhookEvents)[deliveryId];
                webhookEvents == old(webhookEvents)[
                  deliveryId := WebhookEventRecord(was.deliveryId, was.event, was.acceptedAt, Some(processedAt))]
    {
      if deliveryId !in webhookEvents {
        return Err(Backend(UnknownWebhookEvent));
      }
      webhookEvents := webhookEvents[deliveryId := webhookEvents[deliveryId].(processedAt := Some(processedAt))];
      r := Ok(());
    }

    // ---- Simulation records ----

    method StoredRecord(id: string) returns (at: Option<nat>)
      ensures at == FindRecord(simulationRecords, id)
    {
      for i := 0 to |simulationRecords|
        invariant forall j | 0 <= j < i :: simulationRecords[j].id != id
      {
        if simulationRecords[i].id == id {
          assert simulationRecords[i] in simulationRecords;
          return Some(i);
        }
      }
      at := None;
    }

    method IsProjected(hash: InputHash) returns (projected: bool)
      ensures projected == HasProjection(simulationRecords, hash)
    {
      for i := 0 to |simulationRecords|
        invariant forall e | e in simulationRecords[..i] :: !(e.inputHash == hash && Replayable(e))
      {
        if simulationRecords[i].inputHash == hash && Replayable(simulationRecords[i]) {
          return true;
        }
        assert simulationRecords[..i + 1] == simulationRecords[..i] + [simulationRecords[i]];
      }
      assert simulationRecords[..|simulationRecords|] == simulationRecords;
      projected := false;
    }

    // The stored row decides if there is one, an earlier projection of the input otherwise.
    method SaveSimulationV2(rec: SimulationRecord) returns (r: Result<(), StorageError>)
      modifies `simulationRecords
      ensures StoredOnce(old(simulationRecords), rec, r.Ok?, simulationRecords)
      ensures r.Ok? <==> RecordSaved(old(View()).tables, rec).Ok?
      ensures r.Ok? ==> View() == old(View()).(tables := RecordSaved(old(View()).tables, rec).value)
      ensures r.Err? ==> View() == old(View())
    {
      RecordsAreStoredOnce(CurrentTables(), rec);
      var at := StoredRecord(rec.id);
      if at.Some? {
        return if simulationRecords[at.value] == rec then Ok(()) else Err(Backend(ImmutableSimulation));
      }
      var projected := IsProjected(rec.inputHash);
      if Replayable(rec) && projected {
        return Err(Backend(DuplicateInput));
      }
      simulationRecords := simulationRecords + [rec];
      r := Ok(());
    }

    method SimulationV2ByInputHash(hash: InputHash) returns (r: Option<SimulationRecord>)
      ensures r == LatestByHash(simulationRecords, hash)
    {
      r := None;
      for i := 0 to |simulationRecords|
        invariant r == LatestByHash(simulationRecords[..i], hash)
      {
        assert simulationRecords[..i + 1][..i] == simulationRecords[..i];
        var record := simulationRecords[i];
        if hash != NoHash && record.inputHash == hash && record.canonicalInput.Some? &&
           (r.None? || r.value.createdAt <= record.createdAt) {
          r := Some(record);
        }
      }
      assert simulationRecords[..|simulationRecords|] == simulationRecords;
    }

    method AppendSimulationEvent(event: SimulationEvent) returns (r: Result<(), StorageError>)
      modifies this
      ensures r.Ok? <==> EventAppended(old(View()).tables, event).Ok?
      ensures View() == if r.Ok? then old(View()).(tables := EventAppended(old(View()).tables, event).value)
                        else old(View())
    {
      if exists x :: x in simulationEvents && x.id == event.id {
        return Err(Backend(DuplicateSimulationEvent));
      }
      simulationEvents := simulationEvents + [event];
      r := Ok(());
    }
  }

  // One turn of the loop, on the rows that are left to resolve.
  lemma ResolveStep(before: seq<Finding>, counters: map<FindingId, nat>, scope: FindingCycleScope, i: nat)
    requires i < |before|
    ensures var resolved := AfterResolving(before[..i], counters, scope);
            var absent := AfterCounting(before[..i], counters, scope);
            && |resolved| == i && (resolved + before[i..])[i] == before[i]
            && AfterCounting(before[..i + 1], counters, scope) == CountedOne(before[i], absent, scope)
            && AfterResolving(before[..i + 1], counters, scope) + before[i + 1..] ==
                 (resolved + before[i..])[i := ResolvedOne(before[i], absent, scope)]
  {
    var resolved := AfterResolving(before[..i], counters, scope);
    AfterResolvingLength(before[..i], counters, scope);
    assert before[..i + 1][..i] == before[..i];
    NextReplaced(resolved, before, ResolvedOne(before[i], AfterCounting(before[..i], counters, scope), scope));
  }

  lemma {:induction false} AfterResolvingLength(fs: seq<Finding>, absent: map<FindingId, nat>, scope: FindingCycleScope)
    ensures |AfterResolving(fs, absent, scope)| == |fs|
  {
    if fs != [] {
      AfterResolvingLength(fs[..|fs| - 1], absent, scope);
    }
  }

  lemma {:induction false} IncompleteScopeResolvesNothing(fs: seq<Finding>, absent: map<FindingId, nat>,
                                                          scope: FindingCycleScope)
    requires !scope.complete
    ensures AfterResolving(fs, absent, scope) == fs && AfterCounting(fs, absent, scope) == absent
  {
    if fs != [] {
      IncompleteScopeResolvesNothing(fs[..|fs| - 1], absent, scope);
    }
  }
}

/** The worker that drains the durable webhook queue (crates/rieko-cli/src/agent.rs):
    its bounded event window, one record's cycle, and the drain loop. */
module WebhookWorker {
  import opened Wrappers
  import opened Sequences
  import opened Domain
  import opened Findings
  import opened Detectors
  import opened StoreModel
  import opened Storage
  import opened FindingCycles

  const DETECTOR_WINDOW: nat := 100

  // `push_settlement_event`
  function Pushed(window: seq<NodeEvent>, event: NodeEvent): seq<NodeEvent> {
    if !event.IsInvoice() then window
    else (if |window| == DETECTOR_WINDOW then window[1..] else window) + [event]
  }

  function PushedAll(window: seq<NodeEvent>, records: seq<WebhookEventRecord>): seq<NodeEvent> {
    if records == [] then window
    else Pushed(PushedAll(window, records[..|records| - 1]), records[|records| - 1].event)
  }

  lemma PushedAllPush(window: seq<NodeEvent>, records: seq<WebhookEventRecord>, i: nat)
    requires i < |records|
    ensures PushedAll(window, records[..i + 1]) == Pushed(PushedAll(window, records[..i]), records[i].event)
  {
    assert records[..i + 1][..i] == records[..i];
  }

  function EventsOf(records: seq<WebhookEventRecord>): seq<NodeEvent> {
    if records == [] then [] else EventsOf(records[..|records| - 1]) + [records[|records| - 1].event]
  }

  // The window is the last hundred of all invoice events pushed.
  lemma {:induction false} PushedAllKeepsTheLast(history: seq<NodeEvent>, records: seq<WebhookEventRecord>)
    requires forall r | r in records :: r.event.IsInvoice()
    ensures PushedAll(Last(history, DETECTOR_WINDOW), records) == Last(history + EventsOf(records), DETECTOR_WINDOW)
  {
    if records == [] {
      assert history + [] == history;
    } else {
      var init, last := records[..|records| - 1], records[|records| - 1];
      assert last in records && forall r | r in init :: r in records;
      PushedAllKeepsTheLast(history, init);
      assert history + EventsOf(records) == (history + EventsOf(init)) + [last.event];
      PushedKeepsTheLast(history + EventsOf(init), last.event);
    }
  }

  lemma PushedKeepsTheLast(history: seq<NodeEvent>, event: NodeEvent)
    requires event.IsInvoice()
    ensures Pushed(Last(history, DETECTOR_WINDOW), event) == Last(history + [event], DETECTOR_WINDOW)
  {}

  lemma {:induction false} EventsOfConcat(a: seq<WebhookEventRecord>, b: seq<WebhookEventRecord>)
    ensures EventsOf(a + b) == EventsOf(a) + EventsOf(b)
    ensures |EventsOf(a)| == |a|
  {
    if b == [] {
      assert a + b == a;
      if a != [] {
        EventsOfConcat(a[..|a| - 1], []);
      }
    } else {
      assert (a + b)[..|a + b| - 1] == a + b[..|b| - 1];
      EventsOfConcat(a, b[..|b| - 1]);
    }
  }

  // ---- The queue as the worker consumes it ----

  lemma MarkingTheFirst(t: Tables, processedAt: int)
    requires Keyed(t.webhookEvents) && Listing(t.webhookEvents, false) != []
    ensures var l := Listing(t.webhookEvents, false);
            var id := l[0].deliveryId;
            && id in t.webhookEvents && t.webhookEvents[id] == l[0]
            && Keyed(Marked(t, id, processedAt).webhookEvents)
            && Listing(Marked(t, id, processedAt).webhookEvents, false) == l[1..]
  {
    var l := Listing(t.webhookEvents, false);
    assert l[0] in Rows(t.webhookEvents, false);
    var marked := Marked(t, l[0].deliveryId, processedAt).webhookEvents;
    TailListing(l, Rows(t.webhookEvents, false));
    forall r
      ensures r in Rows(marked, false) <==> r in Rows(t.webhookEvents, false) - {l[0]}
    {
      if r in Rows(t.webhookEvents, false) - {l[0]} {
        assert marked[r.deliveryId] == r;
      }
    }
    ListingUnique(l[1..], Listing(marked, false), Rows(marked, false));
  }

  function WorkerDetector(node: NodeId): SettlementDetector { SettlementDetector(DEFAULT_THRESHOLDS, node) }

  function WorkerContext(network: BitcoinNetwork, node: NodeId, window: seq<NodeEvent>, now: int): DetectorContext {
    DetectorContext(network, Some(node), Some(window), None, None, None, now)
  }

  // One turn of the webhook worker: evaluate the window without an observation source.
  ghost function WorkerCycle(network: BitcoinNetwork, node: string, channels: seq<Channel>, window: seq<NodeEvent>,
                             now: int)
    : DetectorCycle
  {
    DetectorCycle(FindingCycleScope(DETECTOR_ID, Some(network), Some(node), true),
                  Detected(channels, WorkerDetector(node), WorkerContext(network, node, window, now)))
  }

  // The number of the refused call; beyond the commit, none.
  function Fault(cycle: DetectorCycle, refusal: Option<nat>): nat {
    var commit := |cycle.findings| + 3;
    if refusal.None? then commit + 1 else if refusal.value < commit then refusal.value else commit
  }

  // `persist_finding_cycle`: the cycle and the processed mark commit in one transaction, or neither does.
  method PersistFindingCycle(storage: MemoryStorage, cycle: DetectorCycle, deliveryId: string, now: int,
                             refusal: Option<nat>)
      returns (ok: bool)
    modifies storage
    ensures ok <==> refusal.None? && old(storage.transactionSnapshot).None? &&
                    (forall f | f in cycle.findings :: ValidSchema(f)) && deliveryId in old(storage.webhookEvents)
    ensures storage.transactionSnapshot == old(storage.transactionSnapshot)
    ensures !ok ==> storage.CurrentTables() == old(storage.CurrentTables())
    ensures !ok && old(storage.transactionSnapshot).None? ==>
              storage.View() == AfterFailure(old(storage.View()), cycle, CompletedCalls(cycle, Fault(cycle, refusal)))
    ensures ok ==>
              storage.webhookDeliveries == old(storage.webhookDeliveries) &&
              storage.webhookEvents == Marked(old(storage.CurrentTables()), deliveryId, now).webhookEvents
    ensures ok ==> var body := CycleBody(old(storage.View()), cycle);
                   CanFinish(body, MarkProcessed(deliveryId)) &&
                   storage.View() == Finished(body, MarkProcessed(deliveryId), now)
  {
    BodyKeepsQueue(storage.View(), cycle);
    var persisted := PersistCycle(storage, cycle, MarkProcessed(deliveryId), now, Fault(cycle, refusal));
    ok := persisted.Ok?;
  }

  class Worker {
    const network: BitcoinNetwork
    const node: NodeId
    // The worker evaluates over an empty graph.
    const channels: seq<Channel> := []
    var window: seq<NodeEvent>

    constructor (network: BitcoinNetwork, node: NodeId)
      ensures window == [] && this.network == network && this.node == node
    {
      this.network, this.node, window := network, node, [];
    }

    method PushSettlementEvent(event: NodeEvent)
      modifies this
      ensures window == Pushed(old(window), event)
      ensures if event.InvoiceSettled? || event.InvoiceExpired? || event.InvoicePaymentReceived?
              then window == (if |old(window)| == 100 then old(window)[1..] else old(window)) + [event]
              else window == old(window)
    {
      if event.InvoiceSettled? || event.InvoiceExpired? || event.InvoicePaymentReceived? {
        if |window| == DETECTOR_WINDOW {
          window := window[1..];
        }
        window := window + [event];
      }
    }

    method Reconstruct(storage: MemoryStorage)
      requires Keyed(storage.webhookEvents)
      modifies this
      ensures window == PushedAll([], Last(Listing(storage.webhookEvents, true), DETECTOR_WINDOW))
    {
      var history := storage.RecentProcessedWebhookEvents(DETECTOR_WINDOW);
      window := [];
      for i := 0 to |history|
        invariant window == PushedAll([], history[..i])
      {
        PushedAllPush([], history, i);
        PushSettlementEvent(history[i].event);
      }
      assert history[..|history|] == history;
    }

    /** One record: its event enters the window, the detector's cycle and the
        processed mark commit together, or neither does and the window is restored.
        `refusal` is the storage call of the cycle that the backend refuses, if
        any, the commit being the last. The detector's own checks never fail for
        the worker's node. */
    method ProcessPendingWebhookEvent(storage: MemoryStorage, record: WebhookEventRecord, now: int,
                                      refusal: Option<nat>)
        returns (ok: bool)
      modifies this, storage
      ensures ok <==> refusal.None? && old(storage.transactionSnapshot).None? &&
                      record.deliveryId in old(storage.webhookEvents)
      ensures storage.transactionSnapshot == old(storage.transactionSnapshot)
      ensures !ok ==> window == old(window) && storage.CurrentTables() == old(storage.CurrentTables())
      ensures !ok && old(storage.transactionSnapshot).None? ==>
                var cycle := WorkerCycle(network, node, channels, Pushed(window, record.event), now);
                storage.View() == AfterFailure(old(storage.View()), cycle, CompletedCalls(cycle, Fault(cycle, refusal)))
      ensures ok ==> window == Pushed(old(window), record.event) &&
                     storage.webhookDeliveries == old(storage.webhookDeliveries) &&
                     storage.webhookEvents == Marked(old(storage.CurrentTables()), record.deliveryId, now).webhookEvents
      ensures ok ==> var body := CycleBody(old(storage.View()), WorkerCycle(network, node, channels, window, now));
                     CanFinish(body, MarkProcessed(record.deliveryId)) &&
                     storage.View() == Finished(body, MarkProcessed(record.deliveryId), now)
    {
      var previousWindow := window;
      PushSettlementEvent(record.event);
      var cycle := EvaluateWindow(now);
      ok := PersistFindingCycle(storage, cycle, record.deliveryId, now, refusal);
      if !ok {
        window := previousWindow;
      }
    }

    method EvaluateWindow(now: int) returns (cycle: DetectorCycle)
      ensures cycle == WorkerCycle(network, node, channels, window, now)
      ensures forall f | f in cycle.findings :: ValidSchema(f)
    {
      var evaluated := Evaluate(channels, WorkerDetector(node), WorkerContext(network, node, window, now));
      cycle := evaluated.value;
    }

    // The same turn as the drain sees it: the first pending record leaves the queue, or nothing changes.
    method TakeFirst(storage: MemoryStorage, record: WebhookEventRecord, now: int, refusal: Option<nat>)
        returns (ok: bool)
      requires storage.transactionSnapshot.None? && Keyed(storage.webhookEvents)
      requires Listing(storage.webhookEvents, false) != [] && record == Listing(storage.webhookEvents, false)[0]
      modifies this, storage
      ensures ok <==> refusal.None?
      ensures storage.transactionSnapshot.None? && Keyed(storage.webhookEvents)
      ensures storage.webhookEvents.Keys == old(storage.webhookEvents.Keys)
      ensures window == if ok then Pushed(old(window), record.event) else old(window)
      ensures Listing(storage.webhookEvents, false) ==
              Listing(old(storage.webhookEvents), false)[if ok then 1 else 0..]
    {
      MarkingTheFirst(storage.CurrentTables(), now);
      ok := ProcessPendingWebhookEvent(storage, record, now, refusal);
    }

    // One turn of the loop below, over a batch whose first `taken` records are done.
    method TakeNext(storage: MemoryStorage, batch: seq<WebhookEventRecord>, ghost pending: seq<WebhookEventRecord>,
                    ghost start: seq<NodeEvent>, taken: nat, now: int, refusal: Option<nat>)
        returns (ok: bool)
      requires storage.transactionSnapshot.None? && Keyed(storage.webhookEvents)
      requires taken < |batch| && batch <= pending && Listing(storage.webhookEvents, false) == pending[taken..]
      requires window == PushedAll(start, batch[..taken])
      modifies this, storage
      ensures ok <==> refusal.None?
      ensures storage.transactionSnapshot.None? && Keyed(storage.webhookEvents)
      ensures storage.webhookEvents.Keys == old(storage.webhookEvents.Keys)
      ensures var done := if ok then taken + 1 else taken;
              && window == PushedAll(start, batch[..done])
              && Listing(storage.webhookEvents, false) == pending[done..]
    {
      NextOfBatch(batch, pending, taken);
      ok := TakeFirst(storage, batch[taken], now, refusal);
    }

    // The records of one batch, until the backend refuses one.
    method DrainBatch(storage: MemoryStorage, batch: seq<WebhookEventRecord>, now: int, failAfter: Option<nat>,
                      call: nat)
        returns (ok: bool, taken: nat)
      requires storage.transactionSnapshot.None? && Keyed(storage.webhookEvents)
      requires batch <= Listing(storage.webhookEvents, false)
      modifies this, storage
      ensures storage.transactionSnapshot.None? && Keyed(storage.webhookEvents)
      ensures storage.webhookEvents.Keys == old(storage.webhookEvents.Keys)
      ensures taken <= |batch| && (ok <==> taken == |batch|)
      ensures ok <==> failAfter.None? || failAfter.value >= |batch|
      ensures !ok ==> taken == failAfter.value
      ensures window == PushedAll(old(window), batch[..taken])
      ensures Listing(storage.webhookEvents, false) == Listing(old(storage.webhookEvents), false)[taken..]
    {
      ghost var pending := Listing(storage.webhookEvents, false);
      taken := 0;
      while taken < |batch|
        invariant taken <= |batch| && (failAfter.Some? ==> taken <= failAfter.value)
        invariant storage.transactionSnapshot.None? && Keyed(storage.webhookEvents)
        invariant storage.webhookEvents.Keys == old(storage.webhookEvents.Keys)
        invariant window == PushedAll(old(window), batch[..taken])
        invariant Listing(storage.webhookEvents, false) == pending[taken..]
      {
        var processed := TakeNext(storage, batch, pending, old(window), taken, now,
                                  if failAfter == Some(taken) then Some(call) else None);
        if !processed {
          return false, taken;
        }
        taken := taken + 1;
      }
      assert batch[..taken] == batch;
      ok := true;
    }

    // One query for pending records, and their batch.
    method DrainFetched(storage: MemoryStorage, now: int, failAfter: Option<nat>, call: nat)
        returns (ok: bool, taken: nat)
      requires storage.transactionSnapshot.None? && Keyed(storage.webhookEvents)
      modifies this, storage
      ensures storage.transactionSnapshot.None? && Keyed(storage.webhookEvents)
      ensures storage.webhookEvents.Keys == old(storage.webhookEvents.Keys)
      ensures var pending := Listing(old(storage.webhookEvents), false);
              && taken <= |pending| && (ok && taken == 0 <==> pending == [])
              && window == PushedAll(old(window), pending[..taken])
              && Listing(storage.webhookEvents, false) == pending[taken..]
      ensures ok && failAfter.Some? ==> taken <= failAfter.value
      ensures !ok ==> failAfter == Some(taken) && taken < |Listing(old(storage.webhookEvents), false)|
    {
      ghost var pending := Listing(storage.webhookEvents, false);
      var batch := storage.PendingWebhookEvents(DETECTOR_WINDOW);
      ok, taken := DrainBatch(storage, batch, now, failAfter, call);
      assert batch[..taken] == pending[..taken];
    }

    /** Draining takes the pending records in queue order, a hundred at a time,
        and stops early only when the backend refuses some call of a cycle (the
        first after `failAfter` good ones). Without refusals nothing stays pending. */
    method DrainPendingWebhookEvents(storage: MemoryStorage, now: int, failAfter: Option<nat>, call: nat)
        returns (ok: bool, ghost taken: nat)
      requires storage.transactionSnapshot.None? && Keyed(storage.webhookEvents)
      modifies this, storage
      ensures storage.transactionSnapshot.None? && Keyed(storage.webhookEvents)
      ensures storage.webhookEvents.Keys == old(storage.webhookEvents.Keys)
      ensures var pending := Listing(old(storage.webhookEvents), false);
              && taken <= |pending|
              && window == PushedAll(old(window), pending[..taken])
              && Listing(storage.webhookEvents, false) == pending[taken..]
              && (ok <==> taken == |pending|)
              && (ok <==> failAfter.None? || failAfter.value >= |pending|)
              && (!ok ==> taken == failAfter.value)
    {
      ghost var pending := Listing(storage.webhookEvents, false);
      taken := 0;
      var left := failAfter;
      while true
        invariant storage.transactionSnapshot.None? && Keyed(storage.webhookEvents)
        invariant storage.webhookEvents.Keys == old(storage.webhookEvents.Keys)
        invariant taken <= |pending| && Listing(storage.webhookEvents, false) == pending[taken..]
        invariant window == PushedAll(old(window), pending[..taken])
        invariant left.Some? <==> failAfter.Some?
        invariant failAfter.Some? ==> taken + left.value == failAfter.value
        decreases |pending| - taken
      {
        var drained, n := DrainFetched(storage, now, left, call);
        Advance(pending, taken, n);
        PushedAllConcat(old(window), pending[..taken], pending[taken..][..n]);
        taken := taken + n;
        if !drained {
          return false, taken;
        }
        if n == 0 {
          return true, taken;
        }
        left := if left.None? then None else Some(left.value - n);
      }
    }
  }

  lemma NextOfBatch<T>(batch: seq<T>, pending: seq<T>, taken: nat)
    requires batch <= pending && taken < |batch|
    ensures pending[taken..] != [] && batch[taken] == pending[taken..][0]
    ensures pending[taken..][1..] == pending[taken + 1..]
    ensures batch[..taken + 1][..taken] == batch[..taken]
  {}

  lemma Advance<T>(pending: seq<T>, taken: nat, n: nat)
    requires taken <= |pending| && n <= |pending[taken..]|
    ensures pending[..taken] + pending[taken..][..n] == pending[..taken + n]
    ensures pending[taken..][n..] == pending[taken + n..]
  {}

  lemma {:induction false} PushedAllConcat(window: seq<NodeEvent>, a: seq<WebhookEventRecord>,
                                           b: seq<WebhookEventRecord>)
    ensures PushedAll(window, a + b) == PushedAll(PushedAll(window, a), b)
  {
    if b == [] {
      assert a + b == a;
    } else {
      assert (a + b)[..|a + b| - 1] == a + b[..|b| - 1];
      PushedAllConcat(window, a, b[..|b| - 1]);
    }
  }

  // The worker's cycles are always storable and leave the queue to the mark.
  lemma BodyKeepsQueue(s: Store, cycle: DetectorCycle)
    ensures CycleBody(s, cycle).tables.webhookEvents == s.tables.webhookEvents
    ensures CycleBody(s, cycle).tables.webhookDeliveries == s.tables.webhookDeliveries
    ensures CycleBody(s, cycle).open == s.open
  {
    SavesKeepTransaction(Synced(StoreModel.Resolved(s, cycle.scope)), cycle.findings);
  }
}

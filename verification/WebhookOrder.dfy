/** When the window that a restart rebuilds is the one the worker had: exactly
    when records were processed in queue order. */
module WebhookOrder {
  import opened Wrappers
  import opened Sequences
  import opened Domain
  import opened StoreModel
  import opened WebhookWorker
  import opened WebhookProtocol

  function Ids(l: seq<WebhookEventRecord>): seq<string> {
    seq(|l|, i requires 0 <= i < |l| => l[i].deliveryId)
  }

  ghost function Processed(s: State): (l: seq<WebhookEventRecord>)
    requires Keyed(s.tables.webhookEvents)
  {
    Listing(s.tables.webhookEvents, true)
  }

  predicate Takes(s: State, step: Step) {
    step.Process? && s.worker.Draining? && s.worker.batch != []
  }

  // The records behind the live window: those the last start found, then those processed since.
  ghost function LiveIds(steps: seq<Step>): seq<string> {
    if steps == [] then []
    else
      var s, live := After(INIT, steps[..|steps| - 1]), LiveIds(steps[..|steps| - 1]);
      var last := steps[|steps| - 1];
      if last.Start? && Keyed(s.tables.webhookEvents) then Ids(Processed(s))
      else if Takes(s, last) then live + [s.worker.batch[0].deliveryId]
      else live
  }

  ghost predicate ComesLast(s: State, r: WebhookEventRecord) {
    forall x | x in Rows(s.tables.webhookEvents, true) :: Before(x, r)
  }

  // Since the last start, each record processed came after all processed before it.
  ghost predicate TakenInOrder(steps: seq<Step>) {
    steps == [] ||
    var s, last := After(INIT, steps[..|steps| - 1]), steps[|steps| - 1];
    last.Start? ||
    (TakenInOrder(steps[..|steps| - 1]) && (Takes(s, last) ==> ComesLast(s, s.worker.batch[0])))
  }

  // ---- One processed record ----

  lemma EmptyListing(events: map<string, WebhookEventRecord>, processed: bool)
    requires Keyed(events) && Rows(events, processed) == {}
    ensures Listing(events, processed) == []
  {
    FirstIsIn(Listing(events, processed));
  }

  /** Appending a row to a listing lists it exactly when it comes after all others. */
  lemma ListingAppendsIff(events: map<string, WebhookEventRecord>, events': map<string, WebhookEventRecord>,
                          r: WebhookEventRecord)
    requires Keyed(events) && Keyed(events') && r !in Rows(events, true)
    requires Rows(events', true) == Rows(events, true) + {r}
    ensures Listing(events', true) == Listing(events, true) + [r] <==>
            forall x | x in Rows(events, true) :: Before(x, r)
  {
    var l := Listing(events, true);
    if forall x | x in Rows(events, true) :: Before(x, r) {
      ListingAppends(events, events', true, r);
    }
    if Listing(events', true) == l + [r] {
      forall x | x in Rows(events, true)
        ensures Before(x, r)
      {
        assert x in l;
        var i :| 0 <= i < |l| && l[i] == x;
        assert (l + [r])[i] == x && (l + [r])[|l|] == r;
      }
    }
  }

  // A listing that ends with the new row lists the others before it.
  lemma ListingEndsWith(events: map<string, WebhookEventRecord>, events': map<string, WebhookEventRecord>,
                        r: WebhookEventRecord)
    requires Keyed(events) && Keyed(events') && r !in Rows(events, true)
    requires Rows(events', true) == Rows(events, true) + {r}
    requires Listing(events', true) != [] && Listing(events', true)[|Listing(events', true)| - 1] == r
    ensures Listing(events', true) == Listing(events, true) + [r]
  {
    var l' := Listing(events', true);
    var init := l'[..|l'| - 1];
    assert l' == init + [r];
    forall x
      ensures x in init <==> x in Rows(events, true)
    {
      assert x in l' <==> x in init || x == r;
      if x in init {
        var i :| 0 <= i < |init| && init[i] == x;
        assert Before(l'[i], l'[|l'| - 1]);
        BeforeIrreflexive(r);
      }
    }
    assert IsListing(init, Rows(events, true));
    ListingUnique(init, Listing(events, true), Rows(events, true));
  }

  // Over the identities of a listing, in the terms of ListingAppendsIff.
  lemma IdsAppendIff(events: map<string, WebhookEventRecord>, events': map<string, WebhookEventRecord>,
                     r: WebhookEventRecord, live: seq<string>)
    requires Keyed(events) && Keyed(events') && r !in Rows(events, true)
    requires Rows(events', true) == Rows(events, true) + {r}
    ensures live + [r.deliveryId] == Ids(Listing(events', true)) <==>
            live == Ids(Listing(events, true)) && forall x | x in Rows(events, true) :: Before(x, r)
  {
    var l, l' := Listing(events, true), Listing(events', true);
    ListingAppendsIff(events, events', r);
    IdsPush(l, r, live);
    if live + [r.deliveryId] == Ids(l') {
      LastId(l', live, r.deliveryId);
      assert l'[|live|] in l' && r in Rows(events', true);
      KeyedIdsDiffer(events', l'[|live|], r);
      ListingEndsWith(events, events', r);
    }
  }

  lemma KeyedIdsDiffer(events: map<string, WebhookEventRecord>, a: WebhookEventRecord, b: WebhookEventRecord)
    requires Keyed(events) && a in Rows(events, true) && b in Rows(events, true) && a.deliveryId == b.deliveryId
    ensures a == b
  {}

  lemma TakingIsLastIff(s: State, at: int, live: seq<string>)
    requires Safe(s) && Enabled(s, Process(at)) && Takes(s, Process(at))
    ensures var r, s' := s.worker.batch[0], Next(s, Process(at));
            && Keyed(s'.tables.webhookEvents)
            && (live + [r.deliveryId] == Ids(Processed(s')) <==> live == Ids(Processed(s)) && ComesLast(s, r))
  {
    var r, s' := s.worker.batch[0], Next(s, Process(at));
    StepIsSafe(s, Process(at));
    RestPends(s.worker.batch, s.tables, at);
    MarkedRows(s, at);
    IdsAppendIff(s.tables.webhookEvents, s'.tables.webhookEvents, r.(processedAt := Some(at)), live);
    assert ComesLast(s, r) <==> forall x | x in Rows(s.tables.webhookEvents, true) ::
                                  Before(x, r.(processedAt := Some(at)));
  }

  lemma LastId(l: seq<WebhookEventRecord>, live: seq<string>, id: string)
    requires live + [id] == Ids(l)
    ensures |l| == |live| + 1 && l[|live|].deliveryId == id
  {
    assert Ids(l)[|live|] == id;
  }

  lemma IdsPush(l: seq<WebhookEventRecord>, r: WebhookEventRecord, live: seq<string>)
    ensures Ids(l + [r]) == Ids(l) + [r.deliveryId]
    ensures live + [r.deliveryId] == Ids(l + [r]) <==> live == Ids(l)
  {
    assert Ids(l + [r]) == Ids(l) + [r.deliveryId];
    assert (live + [r.deliveryId])[..|live|] == live && (Ids(l) + [r.deliveryId])[..|l|] == Ids(l);
  }

  lemma {:induction false} ListingLength(l: seq<WebhookEventRecord>, rows: set<WebhookEventRecord>)
    requires IsListing(l, rows)
    ensures |l| == |rows|
    decreases |l|
  {
    if l == [] {
      assert forall r :: r !in rows;
      assert rows == {};
    } else {
      assert l[0] in rows;
      TailListing(l, rows);
      ListingLength(l[1..], rows - {l[0]});
    }
  }

  lemma TakingLengthens(s: State, at: int)
    requires Safe(s) && Enabled(s, Process(at)) && Takes(s, Process(at))
    ensures Keyed(Next(s, Process(at)).tables.webhookEvents)
    ensures |Processed(Next(s, Process(at)))| == |Processed(s)| + 1
  {
    var s' := Next(s, Process(at));
    StepIsSafe(s, Process(at));
    MarkedRows(s, at);
    ListingLength(Processed(s), Rows(s.tables.webhookEvents, true));
    ListingLength(Processed(s'), Rows(s'.tables.webhookEvents, true));
  }

  lemma MarkedRows(s: State, at: int)
    requires Safe(s) && Enabled(s, Process(at)) && Takes(s, Process(at))
    ensures var r, events' := s.worker.batch[0], Next(s, Process(at)).tables.webhookEvents;
            && r.deliveryId in events'
            && events'[r.deliveryId] !in Rows(s.tables.webhookEvents, true)
            && Rows(events', true) == Rows(s.tables.webhookEvents, true) + {events'[r.deliveryId]}
  {
    var r, events := s.worker.batch[0], s.tables.webhookEvents;
    var events' := Next(s, Process(at)).tables.webhookEvents;
    assert r in s.worker.batch && r in Rows(events, false) && events[r.deliveryId] == r;
    forall x
      ensures x in Rows(events', true) <==> x in Rows(events, true) + {events'[r.deliveryId]}
    {
      if x in Rows(events, true) { assert events'[x.deliveryId] == x; }
    }
  }

  lemma OthersKeepProcessed(s: State, step: Step)
    requires Safe(s) && Enabled(s, step) && !step.Process?
    ensures Keyed(Next(s, step).tables.webhookEvents) && Processed(Next(s, step)) == Processed(s)
  {
    StepIsSafe(s, step);
    var events, events' := s.tables.webhookEvents, Next(s, step).tables.webhookEvents;
    if step.Enqueue? && s.handlers[step.handler].id !in events {
      SameProcessed(events, events', s.handlers[step.handler].id);
    }
    ListingSame(events, events', true);
  }

  // ---- Over whole runs ----

  /** The records behind the live window are the processed ones in queue order
      exactly when each came after all those processed before it. */
  lemma {:induction false} LiveOrderIff(steps: seq<Step>)
    requires IsRun(INIT, steps)
    ensures Keyed(After(INIT, steps).tables.webhookEvents)
    ensures LiveIds(steps) == Ids(Processed(After(INIT, steps))) <==> TakenInOrder(steps)
    ensures |LiveIds(steps)| == |Processed(After(INIT, steps))|
  {
    RunIsSafe(INIT, steps);
    if steps == [] {
      EmptyListing(INIT.tables.webhookEvents, true);
    } else {
      var init, last := steps[..|steps| - 1], steps[|steps| - 1];
      var s := After(INIT, init);
      LiveOrderIff(init);
      RunIsSafe(INIT, init);
      if last.Process? {
        TakingIsLastIff(s, last.at, LiveIds(init));
        TakingLengthens(s, last.at);
      } else {
        OthersKeepProcessed(s, last);
      }
    }
  }

  ghost predicate Stored(events: map<string, WebhookEventRecord>, ids: seq<string>) {
    forall i | 0 <= i < |ids| :: ids[i] in events && events[ids[i]].processedAt.Some?
  }

  function EventsAt(events: map<string, WebhookEventRecord>, ids: seq<string>): seq<NodeEvent>
    requires Stored(events, ids)
  {
    seq(|ids|, i requires 0 <= i < |ids| => events[ids[i]].event)
  }

  // Only invoice events are ever stored.
  ghost predicate Invoices(s: State) {
    && (forall id | id in s.tables.webhookEvents :: s.tables.webhookEvents[id].event.IsInvoice())
    && (forall h | h in s.handlers && s.handlers[h].Admitted? :: s.handlers[h].event.IsInvoice())
  }

  lemma StepKeepsInvoices(s: State, step: Step)
    requires Safe(s) && Invoices(s) && Enabled(s, step)
    ensures Invoices(Next(s, step))
  {}

  lemma {:induction false} RunKeepsInvoices(steps: seq<Step>)
    requires IsRun(INIT, steps)
    ensures Invoices(After(INIT, steps))
  {
    if steps != [] {
      var init := steps[..|steps| - 1];
      RunKeepsInvoices(init);
      RunIsSafe(INIT, init);
      StepKeepsInvoices(After(INIT, init), steps[|steps| - 1]);
    }
  }

  lemma {:induction false} EventsOfIds(events: map<string, WebhookEventRecord>, l: seq<WebhookEventRecord>)
    requires Keyed(events) && forall r | r in l :: r in Rows(events, true)
    ensures Stored(events, Ids(l)) && EventsOf(l) == EventsAt(events, Ids(l))
  {
    forall i | 0 <= i < |l|
      ensures Ids(l)[i] in events && events[Ids(l)[i]] == l[i] && l[i].processedAt.Some?
    {
      assert l[i] in l && l[i] in Rows(events, true);
    }
    if l != [] {
      var init := l[..|l| - 1];
      assert forall r | r in init :: r in l;
      EventsOfIds(events, init);
      assert Ids(init) == Ids(l)[..|l| - 1];
    }
  }

  lemma RebuiltFromListing(s: State)
    requires Keyed(s.tables.webhookEvents) && Invoices(s)
    ensures Stored(s.tables.webhookEvents, Ids(Processed(s)))
    ensures Rebuilt(s.tables) == Last(EventsAt(s.tables.webhookEvents, Ids(Processed(s))), DETECTOR_WINDOW)
  {
    RebuiltIsTheLast(s.tables);
    EventsOfIds(s.tables.webhookEvents, Processed(s));
  }

  lemma PreservedEvents(s: State, s': State, ids: seq<string>)
    requires Preserves(s, s') && Stored(s.tables.webhookEvents, ids)
    ensures Stored(s'.tables.webhookEvents, ids)
    ensures EventsAt(s'.tables.webhookEvents, ids) == EventsAt(s.tables.webhookEvents, ids)
  {}

  /** The live window is the last hundred events of the records behind it. */
  lemma {:induction false} WindowIsLive(steps: seq<Step>)
    requires IsRun(INIT, steps)
    ensures var s := After(INIT, steps);
            && Stored(s.tables.webhookEvents, LiveIds(steps))
            && (!s.worker.Down? ==>
                  Window(s.worker) == Last(EventsAt(s.tables.webhookEvents, LiveIds(steps)), DETECTOR_WINDOW))
  {
    if steps != [] {
      var init, last := steps[..|steps| - 1], steps[|steps| - 1];
      var s, s' := After(INIT, init), After(INIT, steps);
      WindowIsLive(init);
      RunIsSafe(INIT, init);
      RunKeepsInvoices(init);
      StepIsSafe(s, last);
      PreservedEvents(s, s', LiveIds(init));
      if last.Start? {
        RebuiltFromListing(s);
      } else if last.Process? {
        TakenEvent(s, last.at, LiveIds(init));
      }
    }
  }

  lemma TakenEvent(s: State, at: int, live: seq<string>)
    requires Safe(s) && Invoices(s) && Enabled(s, Process(at)) && Takes(s, Process(at))
    requires Stored(s.tables.webhookEvents, live)
    requires Window(s.worker) == Last(EventsAt(s.tables.webhookEvents, live), DETECTOR_WINDOW)
    ensures var s', taken := Next(s, Process(at)), live + [s.worker.batch[0].deliveryId];
            && Stored(s'.tables.webhookEvents, taken)
            && Window(s'.worker) == Last(EventsAt(s'.tables.webhookEvents, taken), DETECTOR_WINDOW)
  {
    var s', r := Next(s, Process(at)), s.worker.batch[0];
    StepIsSafe(s, Process(at));
    assert r in s.worker.batch && r in Rows(s.tables.webhookEvents, false);
    PreservedEvents(s, s', live);
    PushedKeepsTheLast(EventsAt(s.tables.webhookEvents, live), r.event);
    assert EventsAt(s'.tables.webhookEvents, live + [r.deliveryId]) ==
           EventsAt(s.tables.webhookEvents, live) + [r.event];
  }

  /** A restart rebuilds the live window whenever records were taken in order. */
  lemma OrderRebuildsTheWindow(steps: seq<Step>)
    requires IsRun(INIT, steps) && !After(INIT, steps).worker.Down?
    ensures Keyed(After(INIT, steps).tables.webhookEvents)
    ensures TakenInOrder(steps) ==> Window(After(INIT, steps).worker) == Rebuilt(After(INIT, steps).tables)
  {
    LiveOrderIff(steps);
    WindowIsLive(steps);
    RunKeepsInvoices(steps);
    RebuiltFromListing(After(INIT, steps));
  }

  // No two processed deliveries carry the same event.
  ghost predicate DistinctEvents(events: map<string, WebhookEventRecord>) {
    forall a, b | a in events && b in events && events[a].processedAt.Some? && events[b].processedAt.Some? && a != b ::
      events[a].event != events[b].event
  }

  lemma EventsDetermineIds(events: map<string, WebhookEventRecord>, a: seq<string>, b: seq<string>)
    requires DistinctEvents(events) && Stored(events, a) && Stored(events, b)
    ensures EventsAt(events, a) == EventsAt(events, b) <==> a == b
  {
    if EventsAt(events, a) == EventsAt(events, b) {
      forall i | 0 <= i < |a|
        ensures a[i] == b[i]
      {
        assert EventsAt(events, a)[i] == EventsAt(events, b)[i];
      }
    }
  }

  lemma LastOfEvents(events: map<string, WebhookEventRecord>, ids: seq<string>, n: nat)
    requires Stored(events, ids)
    ensures Stored(events, Last(ids, n)) && Last(EventsAt(events, ids), n) == EventsAt(events, Last(ids, n))
  {}

  /** Between distinct events the windows differ exactly when the last hundred
      records do; up to a hundred records, exactly when one was taken out of order. */
  lemma WindowsAgreeIff(steps: seq<Step>)
    requires IsRun(INIT, steps) && !After(INIT, steps).worker.Down?
    requires DistinctEvents(After(INIT, steps).tables.webhookEvents)
    ensures var s := After(INIT, steps);
            && Keyed(s.tables.webhookEvents)
            && (Window(s.worker) == Rebuilt(s.tables) <==>
                  Last(LiveIds(steps), DETECTOR_WINDOW) == Last(Ids(Processed(s)), DETECTOR_WINDOW))
            && (|Processed(s)| <= DETECTOR_WINDOW ==>
                  (Window(s.worker) == Rebuilt(s.tables) <==> TakenInOrder(steps)))
  {
    var s := After(INIT, steps);
    var events := s.tables.webhookEvents;
    LiveOrderIff(steps);
    WindowIsLive(steps);
    RunKeepsInvoices(steps);
    RebuiltFromListing(s);
    LastOfEvents(events, LiveIds(steps), DETECTOR_WINDOW);
    LastOfEvents(events, Ids(Processed(s)), DETECTOR_WINDOW);
    EventsDetermineIds(events, Last(LiveIds(steps), DETECTOR_WINDOW), Last(Ids(Processed(s)), DETECTOR_WINDOW));
  }

  // ---- Two concrete runs ----

  lemma Extend(steps: seq<Step>, s: State, step: Step)
    requires IsRun(INIT, steps) && After(INIT, steps) == s && Enabled(s, step)
    ensures IsRun(INIT, steps + [step]) && After(INIT, steps + [step]) == Next(s, step)
  {
    assert (steps + [step])[..|steps|] == steps;
  }

  lemma NothingListed(s: State, processed: bool)
    requires s.tables.webhookEvents == map[]
    ensures Rows(s.tables.webhookEvents, processed) == {} && Listing(s.tables.webhookEvents, processed) == []
  {
    EmptyListing(s.tables.webhookEvents, processed);
  }

  // A worker that has started over an empty queue and waits.
  ghost function Idling(): State {
    INIT.(worker := Waiting([], false))
  }

  lemma IdlingIsReached()
    ensures IsRun(INIT, [Start, Fetch]) && After(INIT, [Start, Fetch]) == Idling()
  {
    NothingListed(INIT, true);
    NothingListed(INIT, false);
    Extend([], INIT, Start);
    assert [] + [Start] == [Start];
    Extend([Start], INIT.(worker := Draining([], [])), Fetch);
    assert [Start] + [Fetch] == [Start, Fetch];
  }

  const STRAND_EVENT := InvoiceSettled(Invoice("i", None, 0))

  const STRANDING_RUN: seq<Step> :=
    [Start, Fetch, Deliver(0, "x", STRAND_EVENT, true), Enqueue(0, 1), Cancel(0), Deliver(1, "x", STRAND_EVENT, true)]

  lemma CancelAfterStoring(idling: State)
    requires idling == Idling()
    ensures var admitted := Next(idling, Deliver(0, "x", STRAND_EVENT, true));
            && Enabled(admitted, Enqueue(0, 1))
            && var stored := Next(admitted, Enqueue(0, 1));
            && Enabled(stored, Cancel(0))
            && var cancelled := Next(stored, Cancel(0));
            && Enabled(cancelled, Deliver(1, "x", STRAND_EVENT, true))
            && Next(cancelled, Deliver(1, "x", STRAND_EVENT, true)) ==
                 cancelled.(acked := {"x"})
            && cancelled.handlers == map[] && cancelled.worker == idling.worker && cancelled.mailbox == 0
            && cancelled.tables.webhookEvents == map["x" := WebhookEventRecord("x", STRAND_EVENT, 1, None)]
  {}

  /** A request dropped after it stored its event and before its wake-up: the
      duplicate is answered as processed and wakes nobody, and the acknowledged
      delivery stays pending with nothing left to wake the worker. */
  lemma CancelledWakeStrandsAnAcknowledgedDelivery()
    ensures IsRun(INIT, STRANDING_RUN)
    ensures var s := After(INIT, STRANDING_RUN);
            && Stranded(s) && s.handlers == map[] && "x" in s.acked
            && "x" in s.tables.webhookEvents && s.tables.webhookEvents["x"].processedAt == None
  {
    IdlingIsReached();
    CancelAfterStoring(Idling());
    var s0 := Idling();
    var deliver, again := Deliver(0, "x", STRAND_EVENT, true), Deliver(1, "x", STRAND_EVENT, true);
    var s1 := Next(s0, deliver);
    var s2 := Next(s1, Enqueue(0, 1));
    var s3 := Next(s2, Cancel(0));
    Extend([Start, Fetch], s0, deliver);
    Extend([Start, Fetch] + [deliver], s1, Enqueue(0, 1));
    Extend([Start, Fetch] + [deliver] + [Enqueue(0, 1)], s2, Cancel(0));
    Extend([Start, Fetch] + [deliver] + [Enqueue(0, 1)] + [Cancel(0)], s3, again);
    assert [Start, Fetch] + [deliver] + [Enqueue(0, 1)] + [Cancel(0)] + [again] == STRANDING_RUN;
    assert s3.tables.webhookEvents["x"] in Rows(s3.tables.webhookEvents, false);
  }

  const LATER := WebhookEventRecord("a", InvoiceSettled(Invoice("i", None, 0)), 2, None)
  const EARLIER := WebhookEventRecord("b", InvoiceExpired(Invoice("j", None, 0)), 1, None)

  // Both deliveries are admitted; the clock steps back between their acceptances.
  const ADMITTING: seq<Step> :=
    [Deliver(0, "a", LATER.event, true), Deliver(1, "b", EARLIER.event, true), Enqueue(0, 2)]
  const REGRESSING_RUN: seq<Step> :=
    ADMITTING + [Start, Fetch, Process(3), Enqueue(1, 1), Fetch, Process(4)]

  lemma OneListed(events: map<string, WebhookEventRecord>, processed: bool, r: WebhookEventRecord)
    requires Keyed(events) && Rows(events, processed) == {r}
    ensures Listing(events, processed) == [r]
  {
    assert IsListing([r], {r});
    ListingUnique([r], Listing(events, processed), {r});
  }

  ghost function BothAdmitted(): State {
    INIT.(tables := Enqueued(INIT.tables, "a", None, None, LATER.event, 2),
          handlers := map[0 := Handler.Stored("a"), 1 := Admitted("b", EARLIER.event)])
  }

  lemma AdmittingRun()
    ensures IsRun(INIT, ADMITTING) && After(INIT, ADMITTING) == BothAdmitted()
    ensures BothAdmitted().tables.webhookEvents == map["a" := LATER]
  {
    var d0, d1 := Deliver(0, "a", LATER.event, true), Deliver(1, "b", EARLIER.event, true);
    var s1 := Next(INIT, d0);
    var s2 := Next(s1, d1);
    Extend([], INIT, d0);
    Extend([] + [d0], s1, d1);
    Extend([] + [d0] + [d1], s2, Enqueue(0, 2));
    assert [] + [d0] + [d1] + [Enqueue(0, 2)] == ADMITTING;
  }

  // The worker takes what is pending while one row is, and one other row may be processed.
  lemma TakesTheOne(steps: seq<Step>, s: State, r: WebhookEventRecord, at: int)
    requires IsRun(INIT, steps) && After(INIT, steps) == s
    requires s.worker.Draining? && s.worker.batch == [] && r.event.IsInvoice() && |s.worker.window| < DETECTOR_WINDOW
    requires Keyed(s.tables.webhookEvents) && Rows(s.tables.webhookEvents, false) == {r}
    requires r.deliveryId in s.tables.webhookEvents
    ensures IsRun(INIT, steps + [Fetch] + [Process(at)])
    ensures After(INIT, steps + [Fetch] + [Process(at)]) ==
            s.(tables := Marked(s.tables, r.deliveryId, at), worker := Draining(s.worker.window + [r.event], []),
               commits := s.commits + [r.deliveryId])
  {
    OneListed(s.tables.webhookEvents, false, r);
    Extend(steps, s, Fetch);
    var fetched := s.(worker := Draining(s.worker.window, [r]));
    Extend(steps + [Fetch], fetched, Process(at));
    assert [r][1..] == [];
  }

  lemma TakesLater()
    ensures var steps := ADMITTING + [Start] + [Fetch] + [Process(3)];
            && IsRun(INIT, steps)
            && After(INIT, steps) == BothAdmitted().(tables := Marked(BothAdmitted().tables, "a", 3),
                                                  worker := Draining([LATER.event], []), commits := ["a"])
  {
    var s := BothAdmitted();
    AdmittingRun();
    assert s.tables.webhookEvents["a"] in Rows(s.tables.webhookEvents, false);
    assert Rows(s.tables.webhookEvents, false) == {LATER} && Rows(s.tables.webhookEvents, true) == {};
    EmptyListing(s.tables.webhookEvents, true);
    Extend(ADMITTING, s, Start);
    TakesTheOne(ADMITTING + [Start], s.(worker := Draining([], [])), LATER, 3);
    assert [] + [LATER.event] == [LATER.event] && s.commits + ["a"] == ["a"];
  }

  lemma OnePending(done: WebhookEventRecord, r: WebhookEventRecord)
    requires done.processedAt.Some? && r.processedAt.None?
    ensures r.deliveryId != done.deliveryId ==>
              Rows(map[done.deliveryId := done, r.deliveryId := r], false) == {r}
  {
    var events := map[done.deliveryId := done, r.deliveryId := r];
    assert events[r.deliveryId] in Rows(events, false);
  }

  ghost predicate AfterOne(s: State, done: WebhookEventRecord) {
    done.processedAt.Some? && s.tables.webhookEvents == map[done.deliveryId := done] &&
    s.worker == Draining([done.event], [])
  }

  lemma StoresAnother(s: State, done: WebhookEventRecord, r: WebhookEventRecord, h: nat)
    requires AfterOne(s, done) && h in s.handlers && s.handlers[h] == Admitted(r.deliveryId, r.event)
    requires r.processedAt.None? && r.deliveryId != done.deliveryId
    ensures var s' := Next(s, Enqueue(h, r.acceptedAt));
            && s'.tables.webhookEvents == map[done.deliveryId := done, r.deliveryId := r]
            && s'.worker == s.worker
  {}

  // Another admitted record is stored and taken, after one that was processed.
  lemma TakesAnother(steps: seq<Step>, s: State, done: WebhookEventRecord, r: WebhookEventRecord, h: nat, at: int)
    requires IsRun(INIT, steps) && After(INIT, steps) == s
    requires AfterOne(s, done) && h in s.handlers && s.handlers[h] == Admitted(r.deliveryId, r.event)
    requires r.processedAt.None? && r.deliveryId != done.deliveryId && r.event.IsInvoice()
    ensures var steps' := steps + [Enqueue(h, r.acceptedAt)] + [Fetch] + [Process(at)];
            && IsRun(INIT, steps') && After(INIT, steps').worker == Draining([done.event, r.event], [])
            && After(INIT, steps').tables.webhookEvents ==
                 map[done.deliveryId := done, r.deliveryId := r.(processedAt := Some(at))]
  {
    Extend(steps, s, Enqueue(h, r.acceptedAt));
    StoresAnother(s, done, r, h);
    OnePending(done, r);
    TakesTheOne(steps + [Enqueue(h, r.acceptedAt)], Next(s, Enqueue(h, r.acceptedAt)), r, at);
    assert [done.event] + [r.event] == [done.event, r.event];
  }

  lemma TakesEarlier()
    ensures IsRun(INIT, REGRESSING_RUN)
    ensures var s := After(INIT, REGRESSING_RUN);
            && s.worker == Draining([LATER.event, EARLIER.event], [])
            && s.tables.webhookEvents ==
                 map["a" := LATER.(processedAt := Some(3)), "b" := EARLIER.(processedAt := Some(4))]
  {
    TakesLater();
    AdmittingRun();
    var steps := ADMITTING + [Start] + [Fetch] + [Process(3)];
    assert "a"[0] != "b"[0];
    TakesAnother(steps, After(INIT, steps), LATER.(processedAt := Some(3)), EARLIER, 1, 4);
    assert steps + [Enqueue(1, 1)] + [Fetch] + [Process(4)] == REGRESSING_RUN;
  }

  /** The clock steps back between two acceptances, and the later one is processed
      first: a restart rebuilds the window in the other order. */
  lemma ClockRegressionReordersTheRebuiltWindow()
    ensures IsRun(INIT, REGRESSING_RUN) && !TakenInOrder(REGRESSING_RUN)
    ensures var s := After(INIT, REGRESSING_RUN);
            && !s.worker.Down? && Keyed(s.tables.webhookEvents)
            && Window(s.worker) == [LATER.event, EARLIER.event]
            && Rebuilt(s.tables) == [EARLIER.event, LATER.event]
  {
    TakesEarlier();
    var s := After(INIT, REGRESSING_RUN);
    var events := s.tables.webhookEvents;
    assert events["a"] in Rows(events, true) && events["b"] in Rows(events, true);
    assert Rows(events, true) == {events["a"], events["b"]};
    RebuiltFollowsTheClock(s.tables, events["a"], events["b"]);
    OrderRebuildsTheWindow(REGRESSING_RUN);
  }

  lemma RebuiltFollowsTheClock(t: Tables, a: WebhookEventRecord, b: WebhookEventRecord)
    requires Keyed(t.webhookEvents) && Rows(t.webhookEvents, true) == {a, b}
    requires a.event.IsInvoice() && b.event.IsInvoice() && Before(b, a)
    ensures Rebuilt(t) == [b.event, a.event]
  {
    assert IsListing([b, a], {a, b});
    ListingUnique([b, a], Listing(t.webhookEvents, true), {a, b});
    assert [b, a][..1] == [b] && [b][..0] == [];
    assert PushedAll([], [b]) == [b.event];
  }
}

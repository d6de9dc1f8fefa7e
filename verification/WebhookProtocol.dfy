/** The webhook protocol as a whole: concurrent deliveries, wake-ups, the worker,
    refused cycles, crashes and restarts, interleaved step by step under the one
    storage lock (crates/rieko-api/src/routes.rs and crates/rieko-cli/src/agent.rs). */
module WebhookProtocol {
  import opened Wrappers
  import opened Sequences
  import opened Domain
  import opened StoreModel
  import opened WebhookWorker

  const EVENT_BUFFER: nat := 1024

  // A request that has passed the duplicate check, and one that has been stored.
  datatype Handler = Admitted(id: string, event: NodeEvent) | Stored(id: string)

  datatype WorkerState =
    | Down
    | Draining(window: seq<NodeEvent>, batch: seq<WebhookEventRecord>)
    | Waiting(window: seq<NodeEvent>, paused: bool)

  // `acked` and `commits` record what deliverers were told and what cycles committed.
  datatype State = State(
    tables: Tables, handlers: map<nat, Handler>, mailbox: nat, worker: WorkerState,
    acked: set<string>, commits: seq<string>)

  const INIT := State(EMPTY_STORE.tables, map[], 0, Down, {}, [])

  datatype Step =
    | Deliver(handler: nat, id: string, event: NodeEvent, readable: bool)
    | Enqueue(handler: nat, at: int)
    | Reject(handler: nat)
    | Cancel(handler: nat)
    | Wake(handler: nat)
    | Start
    | Fetch
    | Process(at: int)
    | Refuse
    | Receive
    | Crash

  // Payloads of other kinds are rejected before they reach the queue.
  ghost predicate Enabled(s: State, step: Step) {
    match step
    case Deliver(h, id, event, _) => h !in s.handlers && event.IsInvoice()
    case Enqueue(h, _) => h in s.handlers && s.handlers[h].Admitted?
    // The storage call fails, and the deliverer is told; or the request is dropped at any point.
    case Reject(h) => h in s.handlers && s.handlers[h].Admitted?
    case Cancel(h) => h in s.handlers
    case Wake(h) => h in s.handlers && s.handlers[h].Stored?
    case Start => s.worker.Down? && Keyed(s.tables.webhookEvents)
    case Fetch => s.worker.Draining? && s.worker.batch == [] && Keyed(s.tables.webhookEvents)
    case Process(_) => s.worker.Draining? && s.worker.batch != [] &&
                       s.worker.batch[0].deliveryId in s.tables.webhookEvents
    // The cycle fails, or the query for pending rows does.
    case Refuse => s.worker.Draining?
    case Receive => s.worker.Waiting? && s.mailbox > 0
    case Crash => true
  }

  // What a starting worker rebuilds from the processed rows.
  ghost function Rebuilt(t: Tables): seq<NodeEvent>
    requires Keyed(t.webhookEvents)
  {
    PushedAll([], Last(Listing(t.webhookEvents, true), DETECTOR_WINDOW))
  }

  ghost function Next(s: State, step: Step): State
    requires Enabled(s, step)
  {
    match step
    // A failing look-up reads as not processed.
    case Deliver(h, id, event, readable) =>
      if readable && id in s.tables.webhookDeliveries then s.(acked := s.acked + {id})
      else s.(handlers := s.handlers[h := Admitted(id, event)])
    case Enqueue(h, at) =>
      var Admitted(id, event) := s.handlers[h];
      s.(tables := Enqueued(s.tables, id, None, None, event, at), handlers := s.handlers[h := Stored(id)])
    case Reject(h) => s.(handlers := s.handlers - {h})
    case Cancel(h) => s.(handlers := s.handlers - {h})
    case Wake(h) =>
      s.(mailbox := if s.worker.Down? || s.mailbox >= EVENT_BUFFER then s.mailbox else s.mailbox + 1,
         acked := s.acked + {s.handlers[h].id}, handlers := s.handlers - {h})
    case Start => s.(worker := Draining(Rebuilt(s.tables), []))
    case Fetch =>
      var batch := First(Listing(s.tables.webhookEvents, false), DETECTOR_WINDOW);
      s.(worker := if batch == [] then Waiting(s.worker.window, false) else Draining(s.worker.window, batch))
    case Process(at) =>
      var record := s.worker.batch[0];
      s.(tables := Marked(s.tables, record.deliveryId, at),
         worker := Draining(Pushed(s.worker.window, record.event), s.worker.batch[1..]),
         commits := s.commits + [record.deliveryId])
    case Refuse => s.(worker := Waiting(s.worker.window, true))
    case Receive => s.(mailbox := s.mailbox - 1, worker := Draining(s.worker.window, []))
    case Crash => s.(handlers := map[], mailbox := 0, worker := Down)
  }

  // ---- Exactly once, under every interleaving ----

  // Each cycle commits one delivery, and no delivery twice.
  ghost predicate CommitsMatch(commits: seq<string>, events: map<string, WebhookEventRecord>) {
    && (forall i, j | 0 <= i < j < |commits| :: commits[i] != commits[j])
    && (forall id :: id in commits <==> id in events && events[id].processedAt.Some?)
  }

  ghost predicate Pends(batch: seq<WebhookEventRecord>, events: map<string, WebhookEventRecord>) {
    InOrder(batch) && forall r | r in batch :: r in Rows(events, false)
  }

  ghost predicate Safe(s: State) {
    var events := s.tables.webhookEvents;
    && Keyed(events)
    && s.tables.webhookDeliveries.Keys == events.Keys
    && s.acked <= events.Keys
    && (forall h | h in s.handlers && s.handlers[h].Stored? :: s.handlers[h].id in events)
    && CommitsMatch(s.commits, events)
    && (s.worker.Draining? ==> Pends(s.worker.batch, events))
  }

  // Nothing stored is lost, replaced or processed again; nothing said is taken back.
  ghost predicate Preserves(s: State, s': State) {
    && s.acked <= s'.acked && s.commits <= s'.commits
    && forall id | id in s.tables.webhookEvents ::
         id in s'.tables.webhookEvents &&
         var was, now := s.tables.webhookEvents[id], s'.tables.webhookEvents[id];
         now.event == was.event && now.acceptedAt == was.acceptedAt && (was.processedAt.Some? ==> now == was)
  }

  lemma EnqueueIsSafe(s: State, h: nat, at: int)
    requires Safe(s) && Enabled(s, Enqueue(h, at))
    ensures Safe(Next(s, Enqueue(h, at))) && Preserves(s, Next(s, Enqueue(h, at)))
  {
    var s' := Next(s, Enqueue(h, at));
    forall r | r in Rows(s.tables.webhookEvents, false)
      ensures r in Rows(s'.tables.webhookEvents, false)
    {
      assert s'.tables.webhookEvents[r.deliveryId] == r;
    }
  }

  lemma CommitsGrow(commits: seq<string>, t: Tables, id: string, at: int)
    requires CommitsMatch(commits, t.webhookEvents)
    requires id in t.webhookEvents && t.webhookEvents[id].processedAt.None?
    ensures CommitsMatch(commits + [id], Marked(t, id, at).webhookEvents)
  {
    assert id !in commits;
  }

  lemma RestPends(batch: seq<WebhookEventRecord>, t: Tables, at: int)
    requires Keyed(t.webhookEvents) && batch != [] && Pends(batch, t.webhookEvents)
    ensures batch[0].deliveryId in t.webhookEvents && t.webhookEvents[batch[0].deliveryId] == batch[0]
    ensures batch[0].processedAt.None?
    ensures Pends(batch[1..], Marked(t, batch[0].deliveryId, at).webhookEvents)
  {
    var events := t.webhookEvents;
    assert batch[0] in batch && batch[0] in Rows(events, false);
    var events' := Marked(t, batch[0].deliveryId, at).webhookEvents;
    forall r | r in batch[1..]
      ensures r in Rows(events', false)
    {
      var i :| 1 <= i < |batch| && batch[i] == r;
      assert r in batch && Before(batch[0], batch[i]);
      BeforeIrreflexive(r);
      assert events[r.deliveryId] == r && events'[r.deliveryId] == r;
    }
  }

  lemma ProcessIsSafe(s: State, at: int)
    requires Safe(s) && Enabled(s, Process(at))
    ensures Safe(Next(s, Process(at))) && Preserves(s, Next(s, Process(at)))
  {
    RestPends(s.worker.batch, s.tables, at);
    CommitsGrow(s.commits, s.tables, s.worker.batch[0].deliveryId, at);
  }

  lemma FetchIsSafe(s: State)
    requires Safe(s) && Enabled(s, Fetch)
    ensures Safe(Next(s, Fetch)) && Preserves(s, Next(s, Fetch))
  {
    var l := Listing(s.tables.webhookEvents, false);
    assert forall r | r in First(l, DETECTOR_WINDOW) :: r in l;
  }

  lemma StepIsSafe(s: State, step: Step)
    requires Safe(s) && Enabled(s, step)
    ensures Safe(Next(s, step)) && Preserves(s, Next(s, step))
  {
    match step
    case Enqueue(h, at) => EnqueueIsSafe(s, h, at);
    case Process(at) => ProcessIsSafe(s, at);
    case Fetch => FetchIsSafe(s);
    case _ =>
  }

  ghost predicate IsRun(s: State, steps: seq<Step>) {
    steps == [] ||
    (IsRun(s, steps[..|steps| - 1]) && Enabled(After(s, steps[..|steps| - 1]), steps[|steps| - 1]))
  }

  ghost function After(s: State, steps: seq<Step>): State {
    if steps == [] then s
    else
      var before := After(s, steps[..|steps| - 1]);
      if Enabled(before, steps[|steps| - 1]) then Next(before, steps[|steps| - 1]) else before
  }

  lemma {:induction false} RunIsSafe(s: State, steps: seq<Step>)
    requires Safe(s) && IsRun(s, steps)
    ensures Safe(After(s, steps)) && Preserves(s, After(s, steps))
  {
    if steps != [] {
      var init := steps[..|steps| - 1];
      RunIsSafe(s, init);
      StepIsSafe(After(s, init), steps[|steps| - 1]);
    }
  }

  /** In every reachable state each acknowledged delivery is stored, whatever runs
      next keeps its event, and it is processed by exactly one committed cycle or
      still pending, never both. */
  lemma NoDeliveryIsLostOrAppliedTwice(steps: seq<Step>, more: seq<Step>, id: string)
    requires IsRun(INIT, steps) && IsRun(After(INIT, steps), more)
    requires id in After(INIT, steps).acked
    ensures var s, s' := After(INIT, steps), After(After(INIT, steps), more);
            && id in s.tables.webhookEvents && id in s'.tables.webhookEvents
            && s'.tables.webhookEvents[id].event == s.tables.webhookEvents[id].event
            && multiset(s'.commits)[id] == (if s'.tables.webhookEvents[id].processedAt.Some? then 1 else 0)
            && (id in s.commits ==> s'.tables.webhookEvents[id] == s.tables.webhookEvents[id])
  {
    RunIsSafe(INIT, steps);
    RunIsSafe(After(INIT, steps), more);
    CountOfDistinct(After(After(INIT, steps), more).commits, id);
  }

  lemma {:induction false} CountOfDistinct(s: seq<string>, x: string)
    requires forall i, j | 0 <= i < j < |s| :: s[i] != s[j]
    ensures multiset(s)[x] == if x in s then 1 else 0
  {
    if s != [] {
      var init, last := s[..|s| - 1], s[|s| - 1];
      CountOfDistinct(init, x);
      assert s == init + [last];
      assert last !in init;
    }
  }

  // ---- Which deliveries are stranded ----

  ghost predicate Waking(s: State, h: nat) {
    h in s.handlers && s.handlers[h].Stored?
  }

  // The worker waits, nothing will wake it, and something is pending.
  ghost predicate Stranded(s: State) {
    && s.worker.Waiting? && !s.worker.paused && s.mailbox == 0
    && Rows(s.tables.webhookEvents, false) != {}
    && forall h :: !Waking(s, h)
  }

  // The request that is dropped is the only one that would still wake the worker.
  ghost predicate CancelsTheLastWake(s: State, step: Step) {
    && s.worker.Waiting? && !s.worker.paused && s.mailbox == 0
    && Rows(s.tables.webhookEvents, false) != {}
    && step.Cancel? && Waking(s, step.handler) && forall h | Waking(s, h) :: h == step.handler
  }

  // Steps that neither store anything nor reach the worker.
  predicate Idle(step: Step) { step.Deliver? || step.Reject? || step.Cancel? }

  lemma IdleKeepsWaking(s: State, step: Step, h: nat)
    requires Enabled(s, step) && Idle(step)
    ensures Waking(Next(s, step), h) <==> Waking(s, h) && step != Cancel(h)
  {}

  lemma IdleStrandsIff(s: State, step: Step)
    requires Enabled(s, step) && Idle(step)
    ensures Stranded(Next(s, step)) <==> Stranded(s) || CancelsTheLastWake(s, step)
  {
    var s' := Next(s, step);
    forall h
      ensures Waking(s', h) <==> Waking(s, h) && step != Cancel(h)
    {
      IdleKeepsWaking(s, step, h);
    }
    if Stranded(s') && !Stranded(s) {
      var h :| Waking(s, h);
      assert step == Cancel(h);
    }
  }

  lemma BusyNeverStrands(s: State, step: Step)
    requires Enabled(s, step) && !Idle(step)
    ensures !Stranded(Next(s, step))
  {
    var s' := Next(s, step);
    match step
    case Enqueue(h, at) =>
      assert Waking(s', h);
    case Fetch =>
      if Rows(s.tables.webhookEvents, false) != {} {
        var r :| r in Rows(s.tables.webhookEvents, false);
        assert r in Listing(s.tables.webhookEvents, false);
      }
    case _ =>
  }

  // The cancellation that strands a delivery, after which nothing is stored and the worker is not reached.
  ghost predicate StrandedFrom(steps: seq<Step>, i: nat) {
    && i < |steps| && CancelsTheLastWake(After(INIT, steps[..i]), steps[i])
    && forall j | i < j < |steps| :: Idle(steps[j])
  }

  lemma StrandedFromInit(steps: seq<Step>, i: nat)
    requires steps != []
    ensures var n := |steps| - 1;
            StrandedFrom(steps, i) <==>
            if i == n then CancelsTheLastWake(After(INIT, steps[..n]), steps[n])
            else Idle(steps[n]) && StrandedFrom(steps[..n], i)
  {
    var n := |steps| - 1;
    if i < n {
      assert steps[..n][..i] == steps[..i];
    }
  }

  /** A run ends with a delivery stranded exactly when some step cancelled the
      last request that would have woken the waiting worker, and since then
      requests have only arrived, been rejected or been cancelled. However many
      wake-ups a full channel drops, they strand nothing. */
  lemma {:induction false} StrandedIff(steps: seq<Step>)
    requires IsRun(INIT, steps)
    ensures Stranded(After(INIT, steps)) <==> exists i: nat :: StrandedFrom(steps, i)
  {
    if steps != [] {
      var n, init, last := |steps| - 1, steps[..|steps| - 1], steps[|steps| - 1];
      var s := After(INIT, init);
      StrandedIff(init);
      forall i: nat
        ensures StrandedFrom(steps, i) <==>
                if i == n then CancelsTheLastWake(s, last) else Idle(last) && StrandedFrom(init, i)
      {
        StrandedFromInit(steps, i);
      }
      if Idle(last) {
        IdleStrandsIff(s, last);
        if CancelsTheLastWake(s, last) {
          assert StrandedFrom(steps, n);
        } else if Stranded(s) {
          var i: nat :| StrandedFrom(init, i);
          assert StrandedFrom(steps, i);
        }
      } else {
        BusyNeverStrands(s, last);
      }
    }
  }

  // A request may be dropped before its event is stored, not between that and its wake-up.
  ghost predicate WakesFollow(steps: seq<Step>) {
    forall i | 0 <= i < |steps| && steps[i].Cancel? :: !Waking(After(INIT, steps[..i]), steps[i].handler)
  }

  /** Unless a stored request is cancelled before its wake-up: once no handler is
      left to wake the worker and its mailbox is empty, a waiting worker whose
      last drain was not refused has left nothing pending. */
  lemma NoWakeUpIsMissed(steps: seq<Step>)
    requires IsRun(INIT, steps) && WakesFollow(steps)
    ensures var s := After(INIT, steps);
            s.worker.Waiting? && !s.worker.paused && s.mailbox == 0 && (forall h :: !Waking(s, h)) ==>
              Rows(s.tables.webhookEvents, false) == {}
  {
    StrandedIff(steps);
  }

  // ---- Restarting rebuilds the live window ----

  // Rows are accepted in queue order.
  ghost predicate AcceptsInOrder(s: State, step: Step) {
    step.Enqueue? && Enabled(s, step) && s.handlers[step.handler].id !in s.tables.webhookEvents ==>
      forall id | id in s.tables.webhookEvents ::
        Before(s.tables.webhookEvents[id],
               WebhookEventRecord(s.handlers[step.handler].id, s.handlers[step.handler].event, step.at, None))
  }

  ghost predicate OrderedRun(s: State, steps: seq<Step>) {
    steps == [] ||
    (OrderedRun(s, steps[..|steps| - 1]) &&
     Enabled(After(s, steps[..|steps| - 1]), steps[|steps| - 1]) &&
     AcceptsInOrder(After(s, steps[..|steps| - 1]), steps[|steps| - 1]))
  }

  lemma {:induction false} OrderedRunIsRun(s: State, steps: seq<Step>)
    requires OrderedRun(s, steps)
    ensures IsRun(s, steps)
  {
    if steps != [] {
      OrderedRunIsRun(s, steps[..|steps| - 1]);
    }
  }

  ghost function Window(w: WorkerState): seq<NodeEvent>
    requires !w.Down?
  {
    w.window
  }

  ghost predicate Faithful(s: State) {
    && Safe(s)
    && var events := s.tables.webhookEvents;
    && (forall id | id in events :: events[id].event.IsInvoice())
    && (forall h | h in s.handlers && s.handlers[h].Admitted? :: s.handlers[h].event.IsInvoice())
    && ProcessedFirst(events)
    && (s.worker.Draining? ==> s.worker.batch <= Listing(events, false))
    && (!s.worker.Down? ==> Window(s.worker) == Last(EventsOf(Listing(events, true)), DETECTOR_WINDOW))
  }

  // A record behind all others goes to the end of its listing.
  lemma ListingAppends(events: map<string, WebhookEventRecord>, events': map<string, WebhookEventRecord>,
                       processed: bool, r: WebhookEventRecord)
    requires Keyed(events) && Keyed(events')
    requires Rows(events', processed) == Rows(events, processed) + {r}
    requires forall x | x in Rows(events, processed) :: Before(x, r)
    ensures Listing(events', processed) == Listing(events, processed) + [r]
  {
    var l := Listing(events, processed);
    assert forall x | x in l :: x in Rows(events, processed);
    assert IsListing(l + [r], Rows(events', processed));
    ListingUnique(l + [r], Listing(events', processed), Rows(events', processed));
  }

  lemma ListingSame(events: map<string, WebhookEventRecord>, events': map<string, WebhookEventRecord>, processed: bool)
    requires Keyed(events) && Keyed(events')
    requires Rows(events', processed) == Rows(events, processed)
    ensures Listing(events', processed) == Listing(events, processed)
  {
    ListingUnique(Listing(events, processed), Listing(events', processed), Rows(events, processed));
  }

  lemma RebuiltIsTheLast(t: Tables)
    requires Keyed(t.webhookEvents)
    requires forall id | id in t.webhookEvents :: t.webhookEvents[id].event.IsInvoice()
    ensures Rebuilt(t) == Last(EventsOf(Listing(t.webhookEvents, true)), DETECTOR_WINDOW)
  {
    var l := Listing(t.webhookEvents, true);
    var recent := Last(l, DETECTOR_WINDOW);
    assert forall r | r in recent :: r in l;
    PushedAllKeepsTheLast([], recent);
    assert [] + EventsOf(recent) == EventsOf(recent);
    if |l| > DETECTOR_WINDOW {
      var cut := |l| - DETECTOR_WINDOW;
      assert l == l[..cut] + l[cut..];
      EventsOfConcat(l[..cut], l[cut..]);
      EventsOfConcat(l[cut..], []);
    } else {
      EventsOfConcat(l, []);
    }
  }

  lemma EnqueueIsFaithful(s: State, h: nat, at: int)
    requires Faithful(s) && Enabled(s, Enqueue(h, at)) && AcceptsInOrder(s, Enqueue(h, at))
    ensures Faithful(Next(s, Enqueue(h, at)))
  {
    StepIsSafe(s, Enqueue(h, at));
    var s' := Next(s, Enqueue(h, at));
    var events, events' := s.tables.webhookEvents, s'.tables.webhookEvents;
    var id := s.handlers[h].id;
    if id !in events {
      var r := events'[id];
      assert Rows(events', false) == Rows(events, false) + {r} by {
        forall x
          ensures x in Rows(events', false) <==> x in Rows(events, false) + {r}
        {
          if x in Rows(events, false) { assert events'[x.deliveryId] == x; }
        }
      }
      SameProcessed(events, events', id);
      ListingAppends(events, events', false, r);
      ListingSame(events, events', true);
    }
  }

  lemma SameProcessed(events: map<string, WebhookEventRecord>, events': map<string, WebhookEventRecord>, id: string)
    requires Keyed(events) && id !in events && id in events' && events'[id].processedAt.None?
    requires events' == events[id := events'[id]]
    ensures Rows(events', true) == Rows(events, true)
  {
    forall x
      ensures x in Rows(events', true) <==> x in Rows(events, true)
    {
      if x in Rows(events, true) { assert events'[x.deliveryId] == x; }
    }
  }

  // Everything processed was enqueued before everything that is not.
  ghost predicate ProcessedFirst(events: map<string, WebhookEventRecord>) {
    forall a, b | a in events && b in events && events[a].processedAt.Some? && events[b].processedAt.None? ::
      Before(events[a], events[b])
  }

  ghost predicate IsNext(t: Tables, id: string) {
    && Keyed(t.webhookEvents) && id in t.webhookEvents
    && Listing(t.webhookEvents, false) != [] && Listing(t.webhookEvents, false)[0].deliveryId == id
  }

  lemma MarkingKeepsOrder(t: Tables, id: string, at: int)
    requires IsNext(t, id) && ProcessedFirst(t.webhookEvents)
    ensures ProcessedFirst(Marked(t, id, at).webhookEvents)
  {
    MarkingTheFirst(t, at);
    var events, l := t.webhookEvents, Listing(t.webhookEvents, false);
    var events' := Marked(t, id, at).webhookEvents;
    forall a, b | a in events' && b in events' && events'[a].processedAt.Some? && events'[b].processedAt.None?
      ensures Before(events'[a], events'[b])
    {
      if a == id {
        assert events[b] in Rows(events, false) && events[b] in l;
        HeadIsLeast(l, events[b]);
      }
    }
  }

  lemma MarkingMovesTheRow(t: Tables, id: string, at: int)
    requires IsNext(t, id)
    ensures var events' := Marked(t, id, at).webhookEvents;
            id in events' && Rows(events', true) == Rows(t.webhookEvents, true) + {events'[id]}
  {
    MarkingTheFirst(t, at);
    var events := t.webhookEvents;
    var events' := Marked(t, id, at).webhookEvents;
    assert events[id] in Rows(events, false);
    forall x
      ensures x in Rows(events', true) <==> x in Rows(events, true) + {events'[id]}
    {
      if x in Rows(events, true) { assert events'[x.deliveryId] == x; }
    }
  }

  // The window over the processed rows, pushed once more, is the window over the rows after the mark.
  lemma MarkingMovesTheWindow(t: Tables, id: string, at: int)
    requires IsNext(t, id) && ProcessedFirst(t.webhookEvents) && t.webhookEvents[id].event.IsInvoice()
    requires t.webhookEvents[id].processedAt.None?
    ensures Keyed(Marked(t, id, at).webhookEvents)
    ensures Pushed(Last(EventsOf(Listing(t.webhookEvents, true)), DETECTOR_WINDOW), t.webhookEvents[id].event) ==
            Last(EventsOf(Listing(Marked(t, id, at).webhookEvents, true)), DETECTOR_WINDOW)
  {
    var events, events' := t.webhookEvents, Marked(t, id, at).webhookEvents;
    MarkingTheFirst(t, at);
    MarkingMovesTheRow(t, id, at);
    forall x | x in Rows(events, true)
      ensures Before(x, events'[id])
    {
      assert Before(events[x.deliveryId], events[id]);
    }
    ListingAppends(events, events', true, events'[id]);
    var done := Listing(events, true);
    assert (done + [events'[id]])[..|done|] == done;
    PushedKeepsTheLast(EventsOf(done), events[id].event);
  }

  lemma HeadOfBatch(batch: seq<WebhookEventRecord>, t: Tables)
    requires Keyed(t.webhookEvents) && batch != [] && batch <= Listing(t.webhookEvents, false)
    ensures IsNext(t, batch[0].deliveryId) && Listing(t.webhookEvents, false)[0] == batch[0]
    ensures t.webhookEvents[batch[0].deliveryId] == batch[0] && batch[0].processedAt.None?
    ensures batch[1..] <= Listing(t.webhookEvents, false)[1..]
  {
    var l := Listing(t.webhookEvents, false);
    assert l[0] == batch[0] && l[0] in Rows(t.webhookEvents, false);
  }

  lemma ProcessIsFaithful(s: State, at: int)
    requires Faithful(s) && Enabled(s, Process(at))
    ensures Faithful(Next(s, Process(at)))
  {
    StepIsSafe(s, Process(at));
    HeadOfBatch(s.worker.batch, s.tables);
    var id := s.worker.batch[0].deliveryId;
    MarkingTheFirst(s.tables, at);
    MarkingKeepsOrder(s.tables, id, at);
    MarkingMovesTheWindow(s.tables, id, at);
  }

  lemma StepIsFaithful(s: State, step: Step)
    requires Faithful(s) && Enabled(s, step) && AcceptsInOrder(s, step)
    ensures Faithful(Next(s, step))
  {
    StepIsSafe(s, step);
    match step
    case Enqueue(h, at) => EnqueueIsFaithful(s, h, at);
    case Process(at) => ProcessIsFaithful(s, at);
    case Start => RebuiltIsTheLast(s.tables);
    case _ =>
  }

  lemma {:induction false} RunIsFaithful(steps: seq<Step>)
    requires OrderedRun(INIT, steps)
    ensures Faithful(After(INIT, steps))
  {
    if steps != [] {
      var init := steps[..|steps| - 1];
      RunIsFaithful(init);
      StepIsFaithful(After(INIT, init), steps[|steps| - 1]);
    }
  }

  /** When deliveries are accepted in queue order, the window the worker has
      accumulated through any mixture of committed and refused cycles, crashes
      and restarts is the last hundred processed events, which is also exactly
      what a restart at this point would rebuild. */
  lemma RestartRebuildsTheLiveWindow(steps: seq<Step>)
    requires OrderedRun(INIT, steps) && !After(INIT, steps).worker.Down?
    ensures var s := After(INIT, steps);
            && Keyed(s.tables.webhookEvents)
            && Window(s.worker) == Last(EventsOf(Listing(s.tables.webhookEvents, true)), DETECTOR_WINDOW)
            && Window(s.worker) == Rebuilt(s.tables)
  {
    RunIsFaithful(steps);
    RebuiltIsTheLast(After(INIT, steps).tables);
  }
}

/** The alert-fatigue guard of crates/rieko-alerts/src/dedup.rs and what it
    bounds over whole runs, restarts included. */
module AlertCooldown {
  import opened Numbers
  import opened Wrappers
  import opened Findings
  import opened StoreModel
  import opened Storage

  datatype Alert = Alert(dedupKey: string, severity: Severity, title: string, message: string)
  datatype DeliveryOutcome = Delivered | Suppressed
  datatype AlertError = SinkFailed | StoreFailed

  const NEVER := AlertState(None, None, NeverAttempted)

  predicate InCooldown(stored: AlertState, now: int, cooldown: nat) {
    stored.lastSentAt.Some? && now - stored.lastSentAt.value < FromStd(cooldown)
  }

  predicate Escalates(stored: AlertState, severity: Severity) {
    stored.lastSeverity.Some? && severity.Rank() > stored.lastSeverity.value.Rank()
  }

  // What the wrapped sink would do if asked, and whether the store accepts writes.
  datatype World = World(inner: Result<DeliveryOutcome, AlertError>, readable: bool, writable: bool)

  datatype Effect = Effect(stored: AlertState, answer: Result<DeliveryOutcome, AlertError>, sent: bool)

  /** One call of `send` on the state stored for the alert's key. */
  function Sent(stored: AlertState, severity: Severity, now: int, cooldown: nat, w: World): Effect {
    if !w.readable then Effect(stored, Err(StoreFailed), false)
    else if InCooldown(stored, now, cooldown) && !Escalates(stored, severity) then
      if w.writable then Effect(stored.(lastStatus := Skipped), Ok(Suppressed), false)
      else Effect(stored, Err(StoreFailed), false)
    else
      match w.inner
      case Ok(outcome) =>
        if w.writable then Effect(AlertState(Some(now), Some(severity), Success), Ok(outcome), true)
        else Effect(stored, Err(StoreFailed), true)
      case Err(e) =>
        if w.writable then Effect(stored.(lastStatus := FailedDelivery), Err(e), false)
        else Effect(stored, Err(StoreFailed), false)
  }

  // ---- When an alert is due ----

  datatype Delivery = Delivery(at: int, severity: Severity)

  predicate Outranks(a: Severity, b: Severity) {
    (a.Critical? && !b.Critical?) || (a.Warning? && b.Info?)
  }

  // Nothing was delivered, the cooldown is over, or the severity is higher than last
  // time. A cooldown of more than 2^63 - 1 milliseconds is none.
  predicate Due(last: Option<Delivery>, severity: Severity, now: int, cooldown: nat) {
    || last.None?
    || now - last.value.at >= (if cooldown <= 0x7FFF_FFFF_FFFF_FFFF * 1_000_000 then cooldown else 0)
    || Outranks(severity, last.value.severity)
  }

  predicate Recalls(stored: AlertState, last: Option<Delivery>) {
    if last.None? then stored.lastSentAt == None && stored.lastSeverity == None
    else stored.lastSentAt == Some(last.value.at) && stored.lastSeverity == Some(last.value.severity)
  }

  /** Over a store that works, a call passes the alert on exactly if it is due; the
      store then remembers it exactly if the sink took it. */
  lemma CallsAreDueIff(stored: AlertState, last: Option<Delivery>, severity: Severity, now: int, cooldown: nat,
                       inner: Result<DeliveryOutcome, AlertError>)
    requires Recalls(stored, last)
    ensures var e, due := Sent(stored, severity, now, cooldown, World(inner, true, true)),
                          Due(last, severity, now, cooldown);
            && e.answer == (if due then inner else Ok(Suppressed))
            && (e.sent <==> due && inner.Ok?)
            && Recalls(e.stored, if e.sent then Some(Delivery(now, severity)) else last)
            && e.stored.lastStatus == (if e.sent then Success else if due then FailedDelivery else Skipped)
  {}

  /** A store that cannot be read or written fails the call and keeps its state;
      only a write that fails after the sink took the alert loses track of a delivery. */
  lemma StoreFaultsIff(stored: AlertState, last: Option<Delivery>, severity: Severity, now: int, cooldown: nat,
                       w: World)
    requires Recalls(stored, last) && !(w.readable && w.writable)
    ensures var e := Sent(stored, severity, now, cooldown, w);
            && e.answer == Err(StoreFailed) && e.stored == stored
            && (e.sent <==> w.readable && w.inner.Ok? && Due(last, severity, now, cooldown))
  {}

  // The stored key of an alert, apart for each destination.
  function StateKey(sinkId: string, dedupKey: string): string {
    if sinkId == "" then dedupKey else sinkId + "|" + dedupKey
  }

  lemma FirstBar(a: string, k: string, x: string)
    requires '|' !in a && x == a + "|" + k
    ensures x[|a|] == '|' && forall i | 0 <= i < |a| :: x[i] != '|'
  {
    forall i | 0 <= i < |a|
      ensures x[i] != '|'
    {
      assert x[i] == a[i] && a[i] in a;
    }
  }

  /** Destinations whose names hold no bar never share a key. */
  lemma KeysAreApart(a: string, k: string, b: string, l: string)
    requires a != "" && b != "" && '|' !in a && '|' !in b
    ensures StateKey(a, k) == StateKey(b, l) <==> a == b && k == l
  {
    var x, y := StateKey(a, k), StateKey(b, l);
    if x == y {
      FirstBar(a, k, x);
      FirstBar(b, l, x);
      assert a == x[..|a|] && b == y[..|b|] && k == x[|a| + 1..] && l == y[|b| + 1..];
    }
  }

  class PersistentDedupingSink {
    const store: MemoryStorage
    const cooldown: nat
    const sinkId: string
    var sentCount: nat

    constructor (store: MemoryStorage, cooldown: nat, sinkId: string)
      ensures this.store == store && this.cooldown == cooldown && this.sinkId == sinkId && sentCount == 0
    {
      this.store, this.cooldown, this.sinkId, sentCount := store, cooldown, sinkId, 0;
    }

    function Key(alert: Alert): string {
      StateKey(sinkId, alert.dedupKey)
    }

    function StateOf(key: string): AlertState
      reads store
    {
      if key in store.alertState then store.alertState[key] else NEVER
    }

    method Send(alert: Alert, now: int, w: World) returns (r: Result<DeliveryOutcome, AlertError>)
      modifies this, store
      ensures var effect := Sent(old(StateOf(Key(alert))), alert.severity, now, cooldown, w);
              && r == effect.answer
              && StateOf(Key(alert)) == effect.stored
              && sentCount == old(sentCount) + (if effect.sent && w.writable then 1 else 0)
      ensures forall last | w.readable && w.writable && w.inner.Ok? && Recalls(old(StateOf(Key(alert))), last) ::
                if Due(last, alert.severity, now, cooldown)
                then r == w.inner && StateOf(Key(alert)) == AlertState(Some(now), Some(alert.severity), Success)
                else r == Ok(Suppressed) && Recalls(StateOf(Key(alert)), last)
      ensures store.View() == old(store.View()).(tables := old(store.View()).tables.(alertState := store.alertState))
      ensures forall key | key != Key(alert) :: StateOf(key) == old(StateOf(key))
    {
      var key := Key(alert);
      if !w.readable {
        return Err(StoreFailed);
      }
      var stored := StateOf(key);
      if InCooldown(stored, now, cooldown) && !Escalates(stored, alert.severity) {
        if !w.writable {
          return Err(StoreFailed);
        }
        store.alertState := store.alertState[key := stored.(lastStatus := Skipped)];
        return Ok(Suppressed);
      }
      match w.inner
      case Ok(outcome) =>
        if !w.writable {
          return Err(StoreFailed);
        }
        store.alertState := store.alertState[key := AlertState(Some(now), Some(alert.severity), Success)];
        sentCount := sentCount + 1;
        return Ok(outcome);
      case Err(e) =>
        if !w.writable {
          return Err(StoreFailed);
        }
        store.alertState := store.alertState[key := stored.(lastStatus := FailedDelivery)];
        return Err(e);
    }
  }

  // ---- Runs over one key ----

  datatype Step = Attempt(severity: Severity, now: int, inner: Result<DeliveryOutcome, AlertError>) | Restart

  // The stored state, the sink's own counter, the deliveries made, and the answers given.
  datatype Run = Run(stored: AlertState, sentCount: nat, deliveries: seq<Delivery>,
                     answers: seq<Result<DeliveryOutcome, AlertError>>)

  function Next(r: Run, step: Step, cooldown: nat): Run {
    match step
    case Restart => r.(sentCount := 0)
    case Attempt(severity, now, inner) =>
      var effect := Sent(r.stored, severity, now, cooldown, World(inner, true, true));
      Run(effect.stored, r.sentCount + (if effect.sent then 1 else 0),
          r.deliveries + (if effect.sent then [Delivery(now, severity)] else []), r.answers + [effect.answer])
  }

  function After(steps: seq<Step>, cooldown: nat): Run {
    if steps == [] then Run(NEVER, 0, [], [])
    else Next(After(steps[..|steps| - 1], cooldown), steps[|steps| - 1], cooldown)
  }

  // The attempts that are due and taken, in order: each against those before it.
  function DueAttempts(steps: seq<Step>, cooldown: nat): seq<Delivery> {
    if steps == [] then []
    else
      var before := DueAttempts(steps[..|steps| - 1], cooldown);
      match steps[|steps| - 1]
      case Restart => before
      case Attempt(severity, now, inner) =>
        if inner.Ok? && Due(LastOf(before), severity, now, cooldown) then before + [Delivery(now, severity)] else before
  }

  function LastOf(d: seq<Delivery>): Option<Delivery> {
    if d == [] then None else Some(d[|d| - 1])
  }

  /** Over any run, restarts and failing sinks included and whatever the clock
      does, exactly the due attempts that the sink takes are delivered, and the
      store recalls the last of them. */
  lemma {:induction false} DeliveriesAreTheDueAttempts(steps: seq<Step>, cooldown: nat)
    ensures After(steps, cooldown).deliveries == DueAttempts(steps, cooldown)
    ensures Recalls(After(steps, cooldown).stored, LastOf(DueAttempts(steps, cooldown)))
  {
    if steps != [] {
      var init, last := steps[..|steps| - 1], steps[|steps| - 1];
      DeliveriesAreTheDueAttempts(init, cooldown);
      if last.Attempt? {
        var before := DueAttempts(init, cooldown);
        CallsAreDueIff(After(init, cooldown).stored, LastOf(before), last.severity, last.now, cooldown, last.inner);
        assert LastOf(before + [Delivery(last.now, last.severity)]) == Some(Delivery(last.now, last.severity));
      }
    }
  }

  /** Every answer of a run: a due attempt is answered by the sink, any other is suppressed. */
  lemma AnswersFollowWhatIsDue(steps: seq<Step>, severity: Severity, now: int,
                               inner: Result<DeliveryOutcome, AlertError>, cooldown: nat)
    ensures var before, after := After(steps, cooldown), After(steps + [Attempt(severity, now, inner)], cooldown);
            after.answers == before.answers +
              [if Due(LastOf(DueAttempts(steps, cooldown)), severity, now, cooldown) then inner else Ok(Suppressed)]
  {
    DeliveriesAreTheDueAttempts(steps, cooldown);
    AfterPush(steps, Attempt(severity, now, inner), cooldown);
    CallsAreDueIff(After(steps, cooldown).stored, LastOf(DueAttempts(steps, cooldown)), severity, now, cooldown, inner);
  }

  // The clock does not run backwards between attempts.
  ghost predicate Ordered(steps: seq<Step>) {
    forall i, j | 0 <= i < j < |steps| && steps[i].Attempt? && steps[j].Attempt? :: steps[i].now <= steps[j].now
  }

  ghost predicate Spaced(d: seq<Delivery>, cooldown: nat) {
    forall i | 0 < i < |d| ::
      d[i].at - d[i - 1].at >= FromStd(cooldown) || d[i].severity.Rank() > d[i - 1].severity.Rank()
  }

  // The store remembers the last delivery, whatever failed or was suppressed since.
  ghost predicate Remembers(r: Run) {
    if r.deliveries == [] then r.stored.lastSentAt == None && r.stored.lastSeverity == None
    else
      var last := r.deliveries[|r.deliveries| - 1];
      r.stored.lastSentAt == Some(last.at) && r.stored.lastSeverity == Some(last.severity)
  }

  ghost predicate Sorted(d: seq<Delivery>) {
    forall i, j | 0 <= i < j < |d| :: d[i].at <= d[j].at
  }

  ghost predicate MadeBy(d: seq<Delivery>, now: int) {
    forall i | 0 <= i < |d| :: d[i].at <= now
  }

  ghost predicate Guarded(r: Run, cooldown: nat, now: int) {
    Remembers(r) && Spaced(r.deliveries, cooldown) && Sorted(r.deliveries) && MadeBy(r.deliveries, now)
  }

  lemma PushKeepsSpaced(d: seq<Delivery>, next: Delivery, cooldown: nat)
    requires Spaced(d, cooldown)
    requires d != [] ==> next.at - d[|d| - 1].at >= FromStd(cooldown)
                         || next.severity.Rank() > d[|d| - 1].severity.Rank()
    ensures Spaced(d + [next], cooldown)
  {}

  lemma PushKeepsSorted(d: seq<Delivery>, next: Delivery)
    requires Sorted(d) && MadeBy(d, next.at)
    ensures Sorted(d + [next]) && MadeBy(d + [next], next.at)
  {}

  // A call that reaches the sink does so past the cooldown or to escalate.
  lemma SentIsDue(stored: AlertState, severity: Severity, now: int, cooldown: nat, w: World)
    requires stored.lastSentAt.Some? && stored.lastSeverity.Some?
    requires Sent(stored, severity, now, cooldown, w).sent
    ensures now - stored.lastSentAt.value >= FromStd(cooldown)
            || severity.Rank() > stored.lastSeverity.value.Rank()
  {}

  // What is remembered moves only with a delivery.
  lemma OnlySendingMoves(stored: AlertState, severity: Severity, now: int, cooldown: nat, w: World)
    requires w.writable
    ensures var e := Sent(stored, severity, now, cooldown, w);
            if e.sent then e.stored.lastSentAt == Some(now) && e.stored.lastSeverity == Some(severity)
            else e.stored.lastSentAt == stored.lastSentAt && e.stored.lastSeverity == stored.lastSeverity
  {}

  lemma AttemptKeepsGuard(r: Run, severity: Severity, now: int, inner: Result<DeliveryOutcome, AlertError>,
                          cooldown: nat)
    requires Guarded(r, cooldown, now)
    ensures Guarded(Next(r, Attempt(severity, now, inner), cooldown), cooldown, now)
  {
    var w := World(inner, true, true);
    OnlySendingMoves(r.stored, severity, now, cooldown, w);
    if Sent(r.stored, severity, now, cooldown, w).sent {
      if r.deliveries != [] {
        SentIsDue(r.stored, severity, now, cooldown, w);
      }
      PushKeepsSpaced(r.deliveries, Delivery(now, severity), cooldown);
      PushKeepsSorted(r.deliveries, Delivery(now, severity));
    } else {
      assert Next(r, Attempt(severity, now, inner), cooldown).deliveries == r.deliveries;
    }
  }

  ghost predicate AttemptedBy(steps: seq<Step>, now: int) {
    forall i | 0 <= i < |steps| && steps[i].Attempt? :: steps[i].now <= now
  }

  /** Consecutive deliveries are a cooldown apart or strictly escalate, and only a
      delivery moves what the store remembers. */
  lemma {:induction false} DeliveriesAreSpaced(steps: seq<Step>, cooldown: nat, now: int)
    requires Ordered(steps) && AttemptedBy(steps, now)
    ensures Guarded(After(steps, cooldown), cooldown, now)
  {
    if steps != [] {
      var init, last := steps[..|steps| - 1], steps[|steps| - 1];
      if last.Attempt? {
        DeliveriesAreSpaced(init, cooldown, last.now);
        AttemptKeepsGuard(After(init, cooldown), last.severity, last.now, last.inner, cooldown);
      } else {
        DeliveriesAreSpaced(init, cooldown, now);
      }
    }
  }

  lemma {:induction false} BurstEscalates(d: seq<Delivery>, cooldown: nat, i: nat, j: nat)
    requires Spaced(d, cooldown) && Sorted(d)
    requires i <= j < |d| && d[j].at - d[i].at < FromStd(cooldown)
    ensures d[j].severity.Rank() >= d[i].severity.Rank() + (j - i)
    decreases j
  {
    if i < j {
      assert d[i].at <= d[j - 1].at;
      BurstEscalates(d, cooldown, i, j - 1);
    }
  }

  function LatestAttempt(steps: seq<Step>): (now: int)
    ensures AttemptedBy(steps, now)
  {
    if steps == [] then 0
    else
      var rest := LatestAttempt(steps[..|steps| - 1]);
      if steps[|steps| - 1].Attempt? && steps[|steps| - 1].now > rest then steps[|steps| - 1].now else rest
  }

  /** Any span shorter than the cooldown holds at most three deliveries for a key:
      there are only three severities to climb. */
  lemma AtMostThreePerCooldown(steps: seq<Step>, cooldown: nat, i: nat, j: nat)
    requires Ordered(steps)
    requires i <= j < |After(steps, cooldown).deliveries|
    requires After(steps, cooldown).deliveries[j].at - After(steps, cooldown).deliveries[i].at < FromStd(cooldown)
    ensures j - i + 1 <= 3
  {
    DeliveriesAreSpaced(steps, cooldown, LatestAttempt(steps));
    BurstEscalates(After(steps, cooldown).deliveries, cooldown, i, j);
  }

  function WithoutRestarts(steps: seq<Step>): seq<Step> {
    if steps == [] then []
    else
      WithoutRestarts(steps[..|steps| - 1]) +
      (if steps[|steps| - 1].Restart? then [] else [steps[|steps| - 1]])
  }

  // The counter aside.
  predicate Alike(a: Run, b: Run) {
    a.stored == b.stored && a.deliveries == b.deliveries && a.answers == b.answers
  }

  lemma AttemptsKeepAlike(a: Run, b: Run, step: Step, cooldown: nat)
    requires Alike(a, b) && step.Attempt?
    ensures Alike(Next(a, step, cooldown), Next(b, step, cooldown))
  {}

  lemma AfterPush(steps: seq<Step>, step: Step, cooldown: nat)
    ensures After(steps + [step], cooldown) == Next(After(steps, cooldown), step, cooldown)
  {
    assert (steps + [step])[..|steps|] == steps;
  }

  /** Replacing the sink by a new one over the same store, at any points of a run,
      changes no answer, no delivery and nothing that is stored. */
  lemma {:induction false} RestartsChangeNothing(steps: seq<Step>, cooldown: nat)
    ensures Alike(After(WithoutRestarts(steps), cooldown), After(steps, cooldown))
  {
    if steps != [] {
      var init, last := steps[..|steps| - 1], steps[|steps| - 1];
      RestartsChangeNothing(init, cooldown);
      if last.Attempt? {
        AfterPush(WithoutRestarts(init), last, cooldown);
        AttemptsKeepAlike(After(WithoutRestarts(init), cooldown), After(init, cooldown), last, cooldown);
      } else {
        assert WithoutRestarts(steps) == WithoutRestarts(init);
      }
    }
  }

  // Within the configured cooldown of a delivery, no repeat of its severity or a lower one is delivered.
  ghost predicate Honoured(cooldown: nat) {
    forall stored: AlertState, severity, now: int, inner |
      stored.lastSentAt.Some? && stored.lastSeverity.Some? && !Escalates(stored, severity) &&
      0 <= now - stored.lastSentAt.value < cooldown ::
        Sent(stored, severity, now, cooldown, World(inner, true, true)).answer == Ok(Suppressed)
  }

  /** The configured cooldown is honoured exactly as long as it fits the signed
      millisecond clock; a longer one is none at all. */
  lemma CooldownIsHonouredIff(cooldown: nat)
    ensures Honoured(cooldown) <==> cooldown <= LONGEST_DURATION
  {
    if cooldown > LONGEST_DURATION {
      var stored := AlertState(Some(0), Some(Severity.Info), Success);
      assert Sent(stored, Severity.Info, 0, cooldown, World(Ok(Delivered), true, true)).answer == Ok(Delivered);
    }
  }
}

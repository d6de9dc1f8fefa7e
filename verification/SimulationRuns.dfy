/** What every run of simulation requests keeps true of the stored records. */
module SimulationRuns {
  import opened Wrappers
  import opened Findings
  import opened Redistribution
  import opened StoreModel
  import opened SimulationApp

  // ---- The records of one canonical input, in storage order ----

  predicate IsFor(r: SimulationRecord, hash: InputHash) {
    hash != NoHash && r.inputHash == hash && r.canonicalInput.Some?
  }

  function RecordsFor(rs: seq<SimulationRecord>, hash: InputHash): (f: seq<SimulationRecord>)
    ensures forall r :: r in f <==> r in rs && IsFor(r, hash)
  {
    if rs == [] then []
    else
      assert rs == rs[..|rs| - 1] + [rs[|rs| - 1]];
      RecordsFor(rs[..|rs| - 1], hash) + (if IsFor(rs[|rs| - 1], hash) then [rs[|rs| - 1]] else [])
  }

  lemma RecordsForPush(rs: seq<SimulationRecord>, r: SimulationRecord, hash: InputHash)
    ensures RecordsFor(rs + [r], hash) == RecordsFor(rs, hash) + (if IsFor(r, hash) then [r] else [])
  {
    assert (rs + [r])[..|rs|] == rs;
  }

  ghost predicate OldestFirst(rs: seq<SimulationRecord>) {
    forall i, j | 0 <= i < j < |rs| :: rs[i].createdAt <= rs[j].createdAt
  }

  lemma LastIsNewest(rs: seq<SimulationRecord>, r: SimulationRecord)
    requires OldestFirst(rs) && r in rs
    ensures r.createdAt <= rs[|rs| - 1].createdAt
  {
    var i :| 0 <= i < |rs| && rs[i] == r;
  }

  lemma NewestSoFar(rs: seq<SimulationRecord>, f: seq<SimulationRecord>)
    requires OldestFirst(rs) && rs != [] && f != [] && forall r | r in f :: r in rs[..|rs| - 1]
    ensures f[|f| - 1].createdAt <= rs[|rs| - 1].createdAt
  {
    assert f[|f| - 1] in f;
    LastIsNewest(rs, f[|f| - 1]);
  }

  // In a store that grew with the clock the lookup finds the newest record.
  lemma {:induction false} LookupFindsTheNewest(rs: seq<SimulationRecord>, hash: InputHash)
    requires OldestFirst(rs)
    ensures var f := RecordsFor(rs, hash);
            LatestByHash(rs, hash) == if f == [] then None else Some(f[|f| - 1])
  {
    if rs != [] {
      var f := RecordsFor(rs[..|rs| - 1], hash);
      LookupFindsTheNewest(rs[..|rs| - 1], hash);
      if f != [] {
        NewestSoFar(rs, f);
      }
    }
  }

  // ---- The invariant ----

  // A refusal of stale input: it holds no projection and may be tried again.
  predicate Refused(r: SimulationRecord) {
    r.status == Stale && r.projection.None?
  }

  predicate HashedByInput(r: SimulationRecord) {
    && r.canonicalInput.Some? && r.inputHash == HashOf(r.canonicalInput.value) && r.createdAt == r.requestedAt
    && r.actionId == r.canonicalInput.value.recommendationId && r.findingId == r.canonicalInput.value.findingId
  }

  // A stored projection is what the model computes from the stored input.
  ghost predicate Replays(r: SimulationRecord) {
    r.canonicalInput.Some? && r.projection.Some? ==> Simulate(r.canonicalInput.value) == Ok(r.projection.value)
  }

  predicate Ended(r: SimulationRecord, status: SimulationStatus, code: ErrorCode) {
    r.projection.None? && r.status == status && r.errorCode == Some(code)
  }

  // How the input, and the age of its observation in milliseconds, explain a record: only
  // whether stale input was accepted is left open.
  ghost predicate ExplainedBy(r: SimulationRecord, input: SimulationInput, age: int) {
    if input.actionType != RebalanceChannel then Ended(r, UnsupportedStatus, UnsupportedRecommendation)
    else if age < 0 then Ended(r, InvalidInputStatus, FutureDatedInput)
    else if age > 900_000 && r.errorCode == Some(StaleInput) then Ended(r, Stale, StaleInput)
    else if Validate(input).Err? then Ended(r, InvalidInputStatus, InvalidInputCode)
    else r.projection.Some? && r.errorCode == None && r.status == if age > 900_000 then Stale else Completed
  }

  ghost predicate Explained(r: SimulationRecord) {
    r.canonicalInput.Some? &&
    ExplainedBy(r, r.canonicalInput.value, r.requestedAt - r.canonicalInput.value.ObservedAt())
  }

  ghost predicate AtMostARefusalAndAnAnswer(f: seq<SimulationRecord>) {
    |f| <= 2 && (|f| == 2 ==> Refused(f[0]) && !Refused(f[1]))
  }

  function EventsOfRecord(es: seq<SimulationEvent>, id: string): seq<SimulationEvent> {
    if es == [] then []
    else EventsOfRecord(es[..|es| - 1], id) + (if es[|es| - 1].simulationId == id then [es[|es| - 1]] else [])
  }

  lemma EventsPush(es: seq<SimulationEvent>, e: SimulationEvent, id: string)
    ensures EventsOfRecord(es + [e], id) == EventsOfRecord(es, id) + (if e.simulationId == id then [e] else [])
  {
    assert (es + [e])[..|es|] == es;
  }

  // Exactly two events: the request, then the record's own final status.
  ghost predicate TwoEvents(t: Tables, r: SimulationRecord) {
    var es := EventsOfRecord(t.simulationEvents, r.id);
    && |es| == 2
    && es[0].status == Requested && es[0].errorCode == None && es[0].timestamp == r.requestedAt
    && es[1].status == r.status && es[1].errorCode == r.errorCode && Some(es[1].timestamp) == r.completedAt
  }

  ghost predicate Sound(t: Tables, now: int) {
    && OldestFirst(t.simulationRecords)
    && (forall r | r in t.simulationRecords :: HashedByInput(r) && r.createdAt <= now && TwoEvents(t, r))
    && (forall hash :: AtMostARefusalAndAnAnswer(RecordsFor(t.simulationRecords, hash)))
  }

  // Freshly drawn identifiers, and a clock that has not run backwards.
  ghost predicate Fits(t: Tables, ids: Fresh, clock: Clock, now: int) {
    && (forall r | r in t.simulationRecords :: r.id != ids.record)
    && (forall e | e in t.simulationEvents ::
          e.id != ids.requestedEvent && e.id != ids.finalEvent && e.simulationId != ids.record)
    && ids.requestedEvent != ids.finalEvent
    && now <= clock.viewedAt <= clock.requestedAt <= clock.completedAt
  }

  // ---- One evaluation ----

  // An input that may be evaluated has no record, or only a refusal that was overridden.
  ghost predicate MayEvaluate(t: Tables, input: SimulationInput, allowStale: bool) {
    var f := RecordsFor(t.simulationRecords, HashOf(input));
    f == [] || (|f| == 1 && Refused(f[0]) && allowStale)
  }

  // What one evaluation decides, and nothing else about it matters below.
  lemma VerdictFacts(input: SimulationInput, allowStale: bool, requestedAt: int)
    ensures var v := EvaluateInput(input, allowStale, requestedAt);
            && (v.projection.Some? ==> Simulate(input) == Ok(v.projection.value))
            && (v.status == Stale && v.projection.None? ==> !allowStale)
            && v.kind != Some(StorageFailure)
  {}

  function Appended(t: Tables, record: SimulationRecord, ids: Fresh): Tables {
    t.(simulationRecords := t.simulationRecords + [record],
       simulationEvents := t.simulationEvents + [EventsFor(record, ids)[0]] + [EventsFor(record, ids)[1]])
  }

  lemma PersistSucceeds(t: Tables, record: SimulationRecord, ids: Fresh, clock: Clock, now: int)
    requires Fits(t, ids, clock, now) && record.id == ids.record
    requires forall e | e in t.simulationRecords && e.inputHash == record.inputHash :: e.projection.None?
    ensures PersistOutcome(t, record, ids) == Ok(Appended(t, record, ids))
  {}

  lemma AppendKeepsAnswers(rs: seq<SimulationRecord>, record: SimulationRecord, hash: InputHash)
    requires AtMostARefusalAndAnAnswer(RecordsFor(rs, hash))
    requires hash == record.inputHash ==>
               var f := RecordsFor(rs, hash);
               f == [] || (|f| == 1 && Refused(f[0]) && !Refused(record))
    ensures AtMostARefusalAndAnAnswer(RecordsFor(rs + [record], hash))
  {
    RecordsForPush(rs, record, hash);
  }

  lemma AppendKeepsOldestFirst(rs: seq<SimulationRecord>, record: SimulationRecord)
    requires OldestFirst(rs) && forall r | r in rs :: r.createdAt <= record.createdAt
    ensures OldestFirst(rs + [record])
  {}

  lemma AppendKeepsSound(t: Tables, record: SimulationRecord, ids: Fresh, clock: Clock, now: int)
    requires Sound(t, now) && Fits(t, ids, clock, now)
    requires HashedByInput(record) && record.id == ids.record && record.createdAt == clock.requestedAt
    requires record.completedAt.Some?
    requires var f := RecordsFor(t.simulationRecords, record.inputHash);
             f == [] || (|f| == 1 && Refused(f[0]) && !Refused(record))
    ensures Sound(Appended(t, record, ids), clock.completedAt)
  {
    var t' := Appended(t, record, ids);
    forall hash
      ensures AtMostARefusalAndAnAnswer(RecordsFor(t'.simulationRecords, hash))
    {
      AppendKeepsAnswers(t.simulationRecords, record, hash);
    }
    forall r | r in t'.simulationRecords
      ensures HashedByInput(r) && r.createdAt <= clock.completedAt && TwoEvents(t', r)
    {
      AppendKeepsEvents(t, record, ids, r);
    }
    AppendKeepsOldestFirst(t.simulationRecords, record);
  }

  lemma AppendKeepsEvents(t: Tables, record: SimulationRecord, ids: Fresh, r: SimulationRecord)
    requires (r == record && r.completedAt.Some?) || (r.id != record.id && TwoEvents(t, r))
    requires forall e | e in t.simulationEvents :: e.simulationId != record.id
    ensures TwoEvents(Appended(t, record, ids), r)
  {
    var e0, e1 := EventsFor(record, ids)[0], EventsFor(record, ids)[1];
    EventsPush(t.simulationEvents, e0, r.id);
    EventsPush(t.simulationEvents + [e0], e1, r.id);
    if r == record {
      NoEventsYet(t.simulationEvents, record.id);
    }
  }

  lemma EvaluationKeepsSound(t: Tables, input: SimulationInput, allowStale: bool, ids: Fresh, clock: Clock, now: int)
    requires Sound(t, now) && Fits(t, ids, clock, now) && MayEvaluate(t, input, allowStale)
    ensures var reply := EvaluateAndPersist(t, input, allowStale, ids, clock);
            var record := RecordOf(input, EvaluateInput(input, allowStale, clock.requestedAt), ids, clock);
            && reply.tables == Appended(t, record, ids)
            && Sound(reply.tables, clock.completedAt)
            && !(reply.answer.Err? && reply.answer.error.kind == StorageFailure)
  {
    VerdictFacts(input, allowStale, clock.requestedAt);
    RecordedVerdict(t, input, allowStale, EvaluateInput(input, allowStale, clock.requestedAt), ids, clock, now);
  }

  // An evaluation that may happen is persisted, and answers with its verdict.
  lemma EvaluationAnswer(t: Tables, input: SimulationInput, allowStale: bool, ids: Fresh, clock: Clock, now: int)
    requires Sound(t, now) && Fits(t, ids, clock, now) && MayEvaluate(t, input, allowStale)
    ensures var v, reply := EvaluateInput(input, allowStale, clock.requestedAt),
                            EvaluateAndPersist(t, input, allowStale, ids, clock);
            var record := RecordOf(input, v, ids, clock);
            var view := ViewOf(record, clock.completedAt);
            && view.Ok? && reply.tables == Appended(t, record, ids)
            && reply.answer == (if v.kind.Some? then Err(AppError(v.kind.value, Some(view.value)))
                                else Ok(Outcome(view.value, false)))
  {
    VerdictFacts(input, allowStale, clock.requestedAt);
    RecordedVerdict(t, input, allowStale, EvaluateInput(input, allowStale, clock.requestedAt), ids, clock, now);
  }

  lemma RecordedVerdict(t: Tables, input: SimulationInput, allowStale: bool, v: Verdict, ids: Fresh, clock: Clock,
                        now: int)
    requires Sound(t, now) && Fits(t, ids, clock, now) && MayEvaluate(t, input, allowStale)
    requires v.status == Stale && v.projection.None? ==> !allowStale
    ensures var record := RecordOf(input, v, ids, clock);
            PersistOutcome(t, record, ids) == Ok(Appended(t, record, ids)) &&
            Sound(Appended(t, record, ids), clock.completedAt)
  {
    var record := RecordOf(input, v, ids, clock);
    NothingProjected(t, input, allowStale, now);
    PersistSucceeds(t, record, ids, clock, now);
    AppendKeepsSound(t, record, ids, clock, now);
  }

  lemma NothingProjected(t: Tables, input: SimulationInput, allowStale: bool, now: int)
    requires Sound(t, now) && MayEvaluate(t, input, allowStale)
    ensures forall e | e in t.simulationRecords && e.inputHash == HashOf(input) :: e.projection.None?
  {
    forall e | e in t.simulationRecords && e.inputHash == HashOf(input)
      ensures e.projection.None?
    {
      assert e in RecordsFor(t.simulationRecords, HashOf(input));
    }
  }

  lemma {:induction false} NoEventsYet(es: seq<SimulationEvent>, id: string)
    requires forall e | e in es :: e.simulationId != id
    ensures EventsOfRecord(es, id) == []
  {
    if es != [] {
      NoEventsYet(es[..|es| - 1], id);
    }
  }

  // ---- One request ----

  // A request leaves the records alone or appends one that replays.
  ghost predicate Grows(t: Tables, t': Tables) {
    t'.simulationRecords == t.simulationRecords ||
    (t'.simulationRecords != [] &&
     t'.simulationRecords[..|t'.simulationRecords| - 1] == t.simulationRecords &&
     Replays(t'.simulationRecords[|t'.simulationRecords| - 1]) &&
     Explained(t'.simulationRecords[|t'.simulationRecords| - 1]))
  }

  lemma EvaluationGrows(t: Tables, input: SimulationInput, allowStale: bool, ids: Fresh, clock: Clock)
    ensures Grows(t, Appended(t, RecordOf(input, EvaluateInput(input, allowStale, clock.requestedAt), ids, clock), ids))
  {
    VerdictFacts(input, allowStale, clock.requestedAt);
    VerdictExplains(input, allowStale, ids, clock);
  }

  lemma VerdictExplains(input: SimulationInput, allowStale: bool, ids: Fresh, clock: Clock)
    ensures Explained(RecordOf(input, EvaluateInput(input, allowStale, clock.requestedAt), ids, clock))
  {
    if Validate(input).Ok? {
      assert Simulate(input).Ok?;
    }
  }

  // What a reply must keep.
  ghost predicate Proper(t: Tables, reply: Reply, clock: Clock) {
    && Sound(reply.tables, clock.completedAt)
    && Grows(t, reply.tables)
    && !(reply.answer.Err? && reply.answer.error.kind == StorageFailure)
  }

  lemma EvaluationIsProper(t: Tables, input: SimulationInput, allowStale: bool, ids: Fresh, clock: Clock, now: int)
    requires Sound(t, now) && Fits(t, ids, clock, now) && MayEvaluate(t, input, allowStale)
    ensures Proper(t, EvaluateAndPersist(t, input, allowStale, ids, clock), clock)
  {
    EvaluationKeepsSound(t, input, allowStale, ids, clock, now);
    EvaluationGrows(t, input, allowStale, ids, clock);
  }

  lemma UnchangedIsProper(t: Tables, answer: Result<Outcome, AppError>, clock: Clock, now: int)
    requires Sound(t, now) && now <= clock.completedAt
    requires answer.Err? ==> answer.error.kind != StorageFailure
    ensures Proper(t, Reply(t, answer), clock)
  {}

  // No record, or a refusal that the request overrides.
  predicate Evaluates(existing: Option<SimulationRecord>, allowStale: bool) {
    existing.None? || (existing.value.projection.None? && allowStale && existing.value.status == Stale)
  }

  lemma AnswerCases(t: Tables, input: SimulationInput, allowStale: bool, ids: Fresh, clock: Clock)
    requires var existing := LatestByHash(t.simulationRecords, HashOf(input));
             existing.Some? ==> existing.value.canonicalInput.Some?
    ensures var reply := Answer(t, input, allowStale, ids, clock);
            if Evaluates(LatestByHash(t.simulationRecords, HashOf(input)), allowStale)
            then reply == EvaluateAndPersist(t, input, allowStale, ids, clock)
            else reply.tables == t && (reply.answer.Err? ==> reply.answer.error.kind != StorageFailure)
  {}

  lemma AnswerKeepsSound(t: Tables, input: SimulationInput, allowStale: bool, ids: Fresh, clock: Clock, now: int)
    requires Sound(t, now) && Fits(t, ids, clock, now)
    ensures Proper(t, Answer(t, input, allowStale, ids, clock), clock)
  {
    ExistingIsSound(t, input, now);
    AnswerCases(t, input, allowStale, ids, clock);
    if Evaluates(LatestByHash(t.simulationRecords, HashOf(input)), allowStale) {
      EvaluationIsProper(t, input, allowStale, ids, clock, now);
    } else {
      UnchangedIsProper(t, Answer(t, input, allowStale, ids, clock).answer, clock, now);
    }
  }

  // The lookup finds a record with its input; if it is a refusal, it is the only one.
  lemma ExistingIsSound(t: Tables, input: SimulationInput, now: int)
    requires Sound(t, now)
    ensures var existing := LatestByHash(t.simulationRecords, HashOf(input));
            && (existing.Some? ==> existing.value.canonicalInput.Some?)
            && (existing.None? ==> MayEvaluate(t, input, false))
            && (existing.Some? && Refused(existing.value) ==> MayEvaluate(t, input, true))
  {
    LookupFindsTheNewest(t.simulationRecords, HashOf(input));
    var f := RecordsFor(t.simulationRecords, HashOf(input));
    assert AtMostARefusalAndAnAnswer(f);
    if f != [] {
      assert f[|f| - 1] in f;
      RefusalStandsAlone(f);
    }
  }

  lemma RefusalStandsAlone(f: seq<SimulationRecord>)
    requires AtMostARefusalAndAnAnswer(f) && f != []
    ensures Refused(f[|f| - 1]) ==> f == [f[0]]
  {}

  lemma RequestKeepsSound(t: Tables, c: CreateSimulationCommand, ids: Fresh, clock: Clock, now: int)
    requires Sound(t, now) && Fits(t, ids, clock, now)
    ensures Proper(t, Respond(t, c, ids, clock), clock)
  {
    if ValidateCommand(c).Ok? && CheckedAmount(c).Some? {
      ResolveNeverFailsInStorage(t, c);
      if ResolveInput(t, c, CheckedAmount(c).value).Ok? {
        AnswerKeepsSound(t, ResolveInput(t, c, CheckedAmount(c).value).value, c.allowStale, ids, clock, now);
      }
    }
  }

  function CheckedAmount(c: CreateSimulationCommand): Option<Numbers.u64> {
    Numbers.CheckedMul(c.amountSats, 1_000)
  }

  lemma ResolveNeverFailsInStorage(t: Tables, c: CreateSimulationCommand)
    requires c.recommendationId.Some? && CheckedAmount(c).Some?
    ensures ResolveInput(t, c, CheckedAmount(c).value).Err? ==>
              ResolveInput(t, c, CheckedAmount(c).value).error.kind != StorageFailure
  {}

  // ---- Whole runs ----

  datatype Step =
    | Request(command: CreateSimulationCommand, ids: Fresh, clock: Clock)
    // Everything else that happens to the store between requests.
    | Environment(findings: seq<Finding>, recommendations: seq<Recommendation>, channelSnapshots: seq<ChannelSnapshot>)

  function After(steps: seq<Step>): Tables {
    if steps == [] then EMPTY_STORE.tables
    else
      var t := After(steps[..|steps| - 1]);
      match steps[|steps| - 1]
      case Request(command, ids, clock) => Respond(t, command, ids, clock).tables
      case Environment(fs, recs, snaps) => t.(findings := fs, recommendations := recs, channelSnapshots := snaps)
  }

  function Now(steps: seq<Step>, start: int): int {
    if steps == [] then start
    else if steps[|steps| - 1].Request? then steps[|steps| - 1].clock.completedAt
    else Now(steps[..|steps| - 1], start)
  }

  ghost predicate IsRun(steps: seq<Step>, start: int) {
    steps == [] ||
    (var init, last := steps[..|steps| - 1], steps[|steps| - 1];
     IsRun(init, start) && (last.Request? ==> Fits(After(init), last.ids, last.clock, Now(init, start))))
  }

  lemma {:induction false} RunIsSound(steps: seq<Step>, start: int)
    requires IsRun(steps, start)
    ensures Sound(After(steps), Now(steps, start))
  {
    if steps != [] {
      var init, last := steps[..|steps| - 1], steps[|steps| - 1];
      RunIsSound(init, start);
      if last.Request? {
        RequestKeepsSound(After(init), last.command, last.ids, last.clock, Now(init, start));
      } else {
        assert forall r | r in After(steps).simulationRecords :: TwoEvents(After(init), r);
      }
    }
  }

  ghost predicate AllReplay(rs: seq<SimulationRecord>) {
    forall r {:trigger Replays(r)} {:trigger r in rs} | r in rs :: Replays(r) && Explained(r)
  }

  lemma GrowthReplays(t: Tables, t': Tables)
    requires AllReplay(t.simulationRecords) && Grows(t, t')
    ensures AllReplay(t'.simulationRecords)
  {
    var rs := t'.simulationRecords;
    if rs != t.simulationRecords {
      assert rs == rs[..|rs| - 1] + [rs[|rs| - 1]];
    }
  }

  lemma {:induction false} RunReplays(steps: seq<Step>, start: int)
    requires IsRun(steps, start)
    ensures AllReplay(After(steps).simulationRecords)
  {
    if steps != [] {
      var init, last := steps[..|steps| - 1], steps[|steps| - 1];
      RunReplays(init, start);
      if last.Request? {
        RunIsSound(init, start);
        RequestKeepsSound(After(init), last.command, last.ids, last.clock, Now(init, start));
        GrowthReplays(After(init), After(steps));
      }
    }
  }

  lemma AtMostOneProjection(f: seq<SimulationRecord>)
    requires AtMostARefusalAndAnAnswer(f)
    ensures |f| <= 2 && (|f| == 2 ==> f[0].status == Stale && f[0].projection.None?)
    ensures forall i, j | 0 <= i < j < |f| :: f[i].projection.None? || f[j].projection.None?
  {}

  /** After any run of requests, an input has at most two records; if two, the
      first refused stale input and holds no projection; at most one record of it
      holds one. */
  lemma AtMostTwoRecordsPerInput(steps: seq<Step>, start: int, input: SimulationInput)
    requires IsRun(steps, start)
    ensures var f := RecordsFor(After(steps).simulationRecords, HashOf(input));
            && |f| <= 2
            && (|f| == 2 ==> f[0].status == Stale && f[0].projection.None?)
            && (forall i, j | 0 <= i < j < |f| :: f[i].projection.None? || f[j].projection.None?)
  {
    RunIsSound(steps, start);
    AtMostOneProjection(RecordsFor(After(steps).simulationRecords, HashOf(input)));
  }

  /** Every stored record replays: its hash is its own input's, its projection is
      what the model computes from that input, and its two events tell its story. */
  lemma RecordsReplay(steps: seq<Step>, start: int, r: SimulationRecord)
    requires IsRun(steps, start) && r in After(steps).simulationRecords
    ensures r.canonicalInput.Some? && r.inputHash == HashOf(r.canonicalInput.value)
    ensures r.projection.Some? ==> Simulate(r.canonicalInput.value) == Ok(r.projection.value)
    ensures TwoEvents(After(steps), r)
  {
    RunIsSound(steps, start);
    RunReplays(steps, start);
    assert Replays(r);
  }

  /** Records are immutable: a longer run only appends, and no request of a run is
      ever answered with a storage error, so the duplicate-input refusal of the
      store is unreachable. */
  lemma RecordsAreOnlyAppended(steps: seq<Step>, last: Step, start: int)
    requires IsRun(steps + [last], start)
    ensures After(steps).simulationRecords <= After(steps + [last]).simulationRecords
    ensures last.Request? ==>
              var answer := Respond(After(steps), last.command, last.ids, last.clock).answer;
              !(answer.Err? && answer.error.kind == StorageFailure)
  {
    assert (steps + [last])[..|steps|] == steps;
    RunIsSound(steps, start);
    if last.Request? {
      RequestKeepsSound(After(steps), last.command, last.ids, last.clock, Now(steps, start));
    }
  }

  /** Once an input has a projection, a request for it that is fresh, or accepts
      stale input, is answered with that very projection and writes nothing. */
  lemma RepeatRequestsReuse(steps: seq<Step>, start: int, c: CreateSimulationCommand, ids: Fresh, clock: Clock,
                            input: SimulationInput, r: SimulationRecord)
    requires IsRun(steps, start)
    requires ValidateCommand(c).Ok? && c.modelId == MODEL_ID && CheckedAmount(c).Some?
    requires ResolveInput(After(steps), c, CheckedAmount(c).value) == Ok(input)
    requires r in After(steps).simulationRecords && r.inputHash == HashOf(input) && r.projection.Some?
    requires c.allowStale || !input.IsStaleAt(clock.viewedAt)
    ensures var reply := Respond(After(steps), c, ids, clock);
            && reply.tables == After(steps)
            && reply.answer.Ok? && reply.answer.value.reused
            && reply.answer.value.simulation.id == r.id
            && reply.answer.value.simulation.result == r.projection
    ensures r.canonicalInput == Some(input) && Simulate(input) == Ok(r.projection.value)
  {
    RunIsSound(steps, start);
    RunReplays(steps, start);
    assert Replays(r);
    NewestSettles(After(steps), Now(steps, start), input, r);
  }

  // A record that is not a stale refusal is the newest of its input.
  lemma NewestSettles(t: Tables, now: int, input: SimulationInput, r: SimulationRecord)
    requires Sound(t, now)
    requires r in t.simulationRecords && r.inputHash == HashOf(input) && !Refused(r)
    ensures LatestByHash(t.simulationRecords, HashOf(input)) == Some(r) && r.canonicalInput == Some(input)
  {
    LookupFindsTheNewest(t.simulationRecords, HashOf(input));
    var f := RecordsFor(t.simulationRecords, HashOf(input));
    assert r in f;
    SettledIsLast(f, r);
    assert HashedByInput(r);
  }

  lemma SettledIsLast(f: seq<SimulationRecord>, r: SimulationRecord)
    requires AtMostARefusalAndAnAnswer(f) && r in f && !Refused(r)
    ensures f[|f| - 1] == r
  {
    var i :| 0 <= i < |f| && f[i] == r;
  }

  // What a successful answer says about the input it answers for.
  ghost predicate Answers(outcome: Outcome, input: SimulationInput, allowStale: bool, clock: Clock) {
    var view := outcome.simulation;
    && view.inputHash == HashOf(input) && view.parameters == input.parameters
    && view.result.Some? && Simulate(input) == Ok(view.result.value)
    && view.stale == input.IsStaleAt(if outcome.reused then clock.viewedAt else clock.completedAt)
    && (allowStale || !input.IsStaleAt(if outcome.reused then clock.viewedAt else clock.requestedAt))
    && (view.stale ==> view.status != Completed)
  }

  lemma EvaluationAnswers(t: Tables, input: SimulationInput, allowStale: bool, ids: Fresh, clock: Clock)
    requires EvaluateAndPersist(t, input, allowStale, ids, clock).answer.Ok?
    ensures Answers(EvaluateAndPersist(t, input, allowStale, ids, clock).answer.value, input, allowStale, clock)
  {}

  lemma ReuseAnswers(existing: SimulationRecord, input: SimulationInput, allowStale: bool, clock: Clock)
    requires HashedByInput(existing) && Replays(existing) && existing.inputHash == HashOf(input)
    requires existing.projection.Some?
    requires allowStale || !input.IsStaleAt(clock.viewedAt)
    ensures Answers(Outcome(ViewOf(existing, clock.viewedAt).value, true), input, allowStale, clock)
  {}

  /** Every successful answer carries the model's own projection of the input the
      command resolves to, fresh unless the command overrides that, whether it
      was computed now or at any earlier point of the run. */
  lemma SuccessfulAnswersAreProjections(steps: seq<Step>, start: int, c: CreateSimulationCommand, ids: Fresh,
                                        clock: Clock)
    requires IsRun(steps, start)
    requires Respond(After(steps), c, ids, clock).answer.Ok?
    ensures CheckedAmount(c).Some? && c.recommendationId.Some?
    ensures ResolveInput(After(steps), c, CheckedAmount(c).value).Ok?
    ensures Answers(Respond(After(steps), c, ids, clock).answer.value,
                    ResolveInput(After(steps), c, CheckedAmount(c).value).value, c.allowStale, clock)
  {
    RunIsSound(steps, start);
    RunReplays(steps, start);
    AnswerAnswers(After(steps), Now(steps, start), ResolveInput(After(steps), c, CheckedAmount(c).value).value,
                  c.allowStale, ids, clock);
  }

  lemma AnswerAnswers(t: Tables, now: int, input: SimulationInput, allowStale: bool, ids: Fresh, clock: Clock)
    requires Sound(t, now) && AllReplay(t.simulationRecords)
    requires Answer(t, input, allowStale, ids, clock).answer.Ok?
    ensures Answers(Answer(t, input, allowStale, ids, clock).answer.value, input, allowStale, clock)
  {
    LookupFindsTheNewest(t.simulationRecords, HashOf(input));
    var existing := LatestByHash(t.simulationRecords, HashOf(input));
    if existing.Some? {
      var r := existing.value;
      assert r in RecordsFor(t.simulationRecords, HashOf(input));
      assert r in t.simulationRecords && Replays(r) && HashedByInput(r);
      if r.projection.Some? {
        ReuseAnswers(r, input, allowStale, clock);
      } else {
        EvaluationAnswers(t, input, allowStale, ids, clock);
      }
    } else {
      EvaluationAnswers(t, input, allowStale, ids, clock);
    }
  }
}

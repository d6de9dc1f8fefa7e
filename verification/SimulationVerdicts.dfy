/** How every request for a simulation is answered, from what is stored for its
    input, the age of the observation and the validator alone
    (crates/rieko-simulation-app/src/lib.rs). */
module SimulationVerdicts {
  import opened Wrappers
  import opened Findings
  import opened Redistribution
  import opened StoreModel
  import opened SimulationApp
  import opened SimulationRuns
  import opened SimulationRefusals

  // The error of an evaluation of an input whose observation is `age` milliseconds old, or none.
  ghost function Refusal(input: SimulationInput, age: int, allowStale: bool): Option<AppErrorKind> {
    if input.actionType != RebalanceChannel then Some(UnsupportedError)
    else if age < 0 then Some(FutureDatedInputError)
    else if age > 900_000 && !allowStale then Some(StaleInputError)
    else if Validate(input).Err? then Some(InvalidInputError)
    else None
  }

  // The error that a stored record stands for when its input is asked for again, or none.
  ghost function StoredRefusal(r: SimulationRecord, age: int, allowStale: bool): Option<AppErrorKind> {
    if r.projection.Some? then (if age > 900_000 && !allowStale then Some(StaleInputError) else None)
    else
      match r.errorCode
      case Some(UnsupportedRecommendation) => Some(UnsupportedError)
      case Some(FutureDatedInput) => Some(FutureDatedInputError)
      case Some(StaleInput) => Some(StaleInputError)
      case _ => Some(InvalidInputError)
  }

  // Nothing is stored for the input, or only a stale refusal that the request overrides.
  predicate IsEvaluated(records: seq<SimulationRecord>, allowStale: bool) {
    records == [] || (allowStale && Refused(records[|records| - 1]))
  }

  lemma VerdictIs(input: SimulationInput, allowStale: bool, requestedAt: int)
    ensures var v := EvaluateInput(input, allowStale, requestedAt);
            && v.kind == Refusal(input, requestedAt - input.ObservedAt(), allowStale)
            && (v.projection.Some? <==> v.kind.None?)
  {
    if Validate(input).Ok? {
      assert Simulate(input).Ok?;
    }
  }

  // The view of a record at a time: a completed one grows stale with its observation.
  predicate Shows(view: SimulationView, r: SimulationRecord, input: SimulationInput, now: int) {
    && view.id == r.id && view.inputHash == r.inputHash && view.parameters == input.parameters
    && view.sourceObservedAt == input.ObservedAt() && view.stale == (now - input.ObservedAt() > 900_000)
    && view.status == (if r.status == Completed && now - input.ObservedAt() > 900_000 then Stale else r.status)
    && view.result == r.projection && view.errorCode == r.errorCode
    && view.requestedAt == r.requestedAt && view.completedAt == r.completedAt
  }

  // Succeeds or fails as told, and either way shows the record at that time.
  ghost predicate Answered(reply: Reply, refusal: Option<AppErrorKind>, r: SimulationRecord, input: SimulationInput,
                           now: int) {
    if refusal.Some? then
      && reply.answer.Err? && reply.answer.error.kind == refusal.value
      && reply.answer.error.simulation.Some? && Shows(reply.answer.error.simulation.value, r, input, now)
    else reply.answer.Ok? && r.projection.Some? && Shows(reply.answer.value.simulation, r, input, now)
  }

  lemma ViewShows(r: SimulationRecord, input: SimulationInput, now: int)
    requires r.canonicalInput == Some(input)
    ensures ViewOf(r, now).Ok? && Shows(ViewOf(r, now).value, r, input, now)
  {}

  // One more record, of this input, requested and completed at the clock's times.
  ghost predicate Adds(t: Tables, t': Tables, input: SimulationInput, clock: Clock) {
    && t'.simulationRecords != []
    && t'.simulationRecords[..|t'.simulationRecords| - 1] == t.simulationRecords
    && var r := t'.simulationRecords[|t'.simulationRecords| - 1];
    && r.canonicalInput == Some(input) && r.requestedAt == clock.requestedAt && r.completedAt == Some(clock.completedAt)
  }

  lemma EvaluatedAnswer(t: Tables, now: int, input: SimulationInput, allowStale: bool, ids: Fresh, clock: Clock)
    requires Sound(t, now) && Fits(t, ids, clock, now) && MayEvaluate(t, input, allowStale)
    ensures var reply := EvaluateAndPersist(t, input, allowStale, ids, clock);
            var records := reply.tables.simulationRecords;
            && Adds(t, reply.tables, input, clock)
            && Answered(reply, Refusal(input, clock.requestedAt - input.ObservedAt(), allowStale),
                        records[|records| - 1], input, clock.completedAt)
  {
    var v := EvaluateInput(input, allowStale, clock.requestedAt);
    EvaluationAnswer(t, input, allowStale, ids, clock, now);
    VerdictIs(input, allowStale, clock.requestedAt);
    ViewShows(RecordOf(input, v, ids, clock), input, clock.completedAt);
    assert (t.simulationRecords + [RecordOf(input, v, ids, clock)])[..|t.simulationRecords|] == t.simulationRecords;
  }

  // The four ways in which a record ends without a projection.
  predicate EndedAs(r: SimulationRecord) {
    || Ended(r, UnsupportedStatus, UnsupportedRecommendation) || Ended(r, InvalidInputStatus, FutureDatedInput)
    || Ended(r, Stale, StaleInput) || Ended(r, InvalidInputStatus, InvalidInputCode)
  }

  lemma ExplainedEnds(r: SimulationRecord)
    requires Explained(r) && r.projection.None?
    ensures EndedAs(r)
  {}

  lemma KindOfEnded(r: SimulationRecord, age: int, allowStale: bool, now: int)
    requires EndedAs(r) && r.canonicalInput.Some?
    ensures ViewOf(r, now).Ok? && Some(KindOfView(ViewOf(r, now).value)) == StoredRefusal(r, age, allowStale)
  {}

  lemma StoredReply(t: Tables, r: SimulationRecord, input: SimulationInput, allowStale: bool, ids: Fresh, clock: Clock)
    requires LatestByHash(t.simulationRecords, HashOf(input)) == Some(r) && r.canonicalInput == Some(input)
    requires !(allowStale && Refused(r))
    ensures var view := ViewOf(r, clock.viewedAt);
            && view.Ok? && view.value.stale == (clock.viewedAt - input.ObservedAt() > 900_000)
            && view.value.result == r.projection
            && Answer(t, input, allowStale, ids, clock) ==
                 Reply(t, if r.projection.None? then Err(AppError(KindOfView(view.value), Some(view.value)))
                          else if view.value.stale && !allowStale then Err(AppError(StaleInputError, Some(view.value)))
                          else Ok(Outcome(view.value, true)))
  {}

  lemma StoredAnswer(t: Tables, r: SimulationRecord, input: SimulationInput, allowStale: bool, ids: Fresh, clock: Clock)
    requires LatestByHash(t.simulationRecords, HashOf(input)) == Some(r) && r.canonicalInput == Some(input)
    requires (r.projection.None? ==> EndedAs(r)) && !(allowStale && Refused(r))
    ensures var reply := Answer(t, input, allowStale, ids, clock);
            && reply.tables == t
            && Answered(reply, StoredRefusal(r, clock.viewedAt - input.ObservedAt(), allowStale), r, input,
                        clock.viewedAt)
  {
    StoredReply(t, r, input, allowStale, ids, clock);
    ViewShows(r, input, clock.viewedAt);
    if r.projection.None? {
      KindOfEnded(r, clock.viewedAt - input.ObservedAt(), allowStale, clock.viewedAt);
    }
  }

  lemma NewestRecord(t: Tables, now: int, input: SimulationInput)
    requires Sound(t, now) && AllReplay(t.simulationRecords)
    requires RecordsFor(t.simulationRecords, HashOf(input)) != []
    ensures var records := RecordsFor(t.simulationRecords, HashOf(input));
            var r := records[|records| - 1];
            && LatestByHash(t.simulationRecords, HashOf(input)) == Some(r)
            && r.canonicalInput == Some(input) && (r.projection.None? ==> EndedAs(r))
  {
    LookupFindsTheNewest(t.simulationRecords, HashOf(input));
    var records := RecordsFor(t.simulationRecords, HashOf(input));
    var r := records[|records| - 1];
    assert r in records && r in t.simulationRecords;
    assert HashedByInput(r) && Explained(r);
    if r.projection.None? {
      ExplainedEnds(r);
    }
  }

  // The answer, and what is stored after it.
  ghost predicate Told(t: Tables, records: seq<SimulationRecord>, reply: Reply, input: SimulationInput,
                       allowStale: bool, clock: Clock) {
    if IsEvaluated(records, allowStale) then
      var stored := reply.tables.simulationRecords;
      && Adds(t, reply.tables, input, clock)
      && Answered(reply, Refusal(input, clock.requestedAt - input.ObservedAt(), allowStale), stored[|stored| - 1],
                  input, clock.completedAt)
    else
      var r := records[|records| - 1];
      && Answered(reply, StoredRefusal(r, clock.viewedAt - input.ObservedAt(), allowStale), r, input, clock.viewedAt)
      && reply.tables == t
  }

  lemma EvaluatedIsTold(t: Tables, now: int, input: SimulationInput, allowStale: bool, ids: Fresh, clock: Clock)
    requires Sound(t, now) && Fits(t, ids, clock, now) && MayEvaluate(t, input, allowStale)
    requires IsEvaluated(RecordsFor(t.simulationRecords, HashOf(input)), allowStale)
    requires Answer(t, input, allowStale, ids, clock) == EvaluateAndPersist(t, input, allowStale, ids, clock)
    ensures Told(t, RecordsFor(t.simulationRecords, HashOf(input)), Answer(t, input, allowStale, ids, clock), input,
                 allowStale, clock)
  {
    EvaluatedAnswer(t, now, input, allowStale, ids, clock);
  }

  lemma AnswerIsEvaluation(t: Tables, now: int, input: SimulationInput, allowStale: bool, ids: Fresh, clock: Clock)
    requires Sound(t, now) && AllReplay(t.simulationRecords)
    requires IsEvaluated(RecordsFor(t.simulationRecords, HashOf(input)), allowStale)
    ensures MayEvaluate(t, input, allowStale)
    ensures Answer(t, input, allowStale, ids, clock) == EvaluateAndPersist(t, input, allowStale, ids, clock)
  {
    LookupFindsTheNewest(t.simulationRecords, HashOf(input));
    ExistingIsSound(t, input, now);
    AnswerCases(t, input, allowStale, ids, clock);
  }

  lemma StoredIsTold(t: Tables, records: seq<SimulationRecord>, input: SimulationInput, allowStale: bool, ids: Fresh,
                     clock: Clock)
    requires records != [] && !IsEvaluated(records, allowStale)
    requires var r := records[|records| - 1];
             && LatestByHash(t.simulationRecords, HashOf(input)) == Some(r)
             && r.canonicalInput == Some(input) && (r.projection.None? ==> EndedAs(r))
    ensures Told(t, records, Answer(t, input, allowStale, ids, clock), input, allowStale, clock)
  {
    StoredAnswer(t, records[|records| - 1], input, allowStale, ids, clock);
  }

  lemma AnswerIsTold(t: Tables, now: int, input: SimulationInput, allowStale: bool, ids: Fresh, clock: Clock)
    requires Sound(t, now) && Fits(t, ids, clock, now) && AllReplay(t.simulationRecords)
    ensures Told(t, RecordsFor(t.simulationRecords, HashOf(input)), Answer(t, input, allowStale, ids, clock), input,
                 allowStale, clock)
  {
    var records := RecordsFor(t.simulationRecords, HashOf(input));
    if IsEvaluated(records, allowStale) {
      AnswerIsEvaluation(t, now, input, allowStale, ids, clock);
      EvaluatedIsTold(t, now, input, allowStale, ids, clock);
    } else {
      NewestRecord(t, now, input);
      StoredIsTold(t, records, input, allowStale, ids, clock);
    }
  }

  lemma RespondsByAnswer(t: Tables, c: CreateSimulationCommand, ids: Fresh, clock: Clock, input: SimulationInput)
    requires Asks(t, c, input)
    ensures Respond(t, c, ids, clock) == Answer(t, input, c.allowStale, ids, clock)
  {}

  /** Over every run: a request for an input without a record, or with a stale
      refusal it overrides, is evaluated and adds a record; any other writes nothing
      and is answered from the newest record of the input. Which error it gets, or
      that it succeeds, follows. */
  lemma EveryRequestIsAnsweredAsTold(steps: seq<Step>, start: int, c: CreateSimulationCommand, ids: Fresh,
                                     clock: Clock, input: SimulationInput)
    requires IsRun(steps + [Request(c, ids, clock)], start) && Asks(After(steps), c, input)
    ensures Told(After(steps), RecordsFor(After(steps).simulationRecords, HashOf(input)),
                 Respond(After(steps), c, ids, clock), input, c.allowStale, clock)
  {
    assert (steps + [Request(c, ids, clock)])[..|steps|] == steps;
    RunIsSound(steps, start);
    RunReplays(steps, start);
    RespondsByAnswer(After(steps), c, ids, clock, input);
    AnswerIsTold(After(steps), Now(steps, start), input, c.allowStale, ids, clock);
  }

  lemma BadEndings(r: SimulationRecord, input: SimulationInput, age: int, allowStale: bool)
    requires Explained(r) && r.canonicalInput == Some(input) && Validate(input).Err?
    ensures StoredRefusal(r, age, allowStale).Some? && !(input.actionType != RebalanceChannel && Refused(r))
    ensures input.actionType != RebalanceChannel ==> StoredRefusal(r, age, allowStale) == Some(UnsupportedError)
    ensures r.errorCode == Some(InvalidInputCode) ==>
              StoredRefusal(r, age, allowStale) == Some(InvalidInputError) && !Refused(r)
  {}

  lemma NewestIsExplained(t: Tables, now: int, input: SimulationInput)
    requires Sound(t, now) && AllReplay(t.simulationRecords)
    requires RecordsFor(t.simulationRecords, HashOf(input)) != []
    ensures var records := RecordsFor(t.simulationRecords, HashOf(input));
            var r := records[|records| - 1];
            Explained(r) && r.canonicalInput == Some(input)
  {
    var records := RecordsFor(t.simulationRecords, HashOf(input));
    var r := records[|records| - 1];
    assert r in records && r in t.simulationRecords;
    assert HashedByInput(r) && Explained(r);
  }

  // What being told means for an input that does not validate.
  ghost predicate Fails(t: Tables, records: seq<SimulationRecord>, reply: Reply, input: SimulationInput) {
    && reply.answer.Err?
    && (input.actionType != RebalanceChannel ==> reply.answer.error.kind == UnsupportedError)
    && (input.actionType == RebalanceChannel && records != [] &&
        records[|records| - 1].errorCode == Some(InvalidInputCode) ==>
          reply.answer.error.kind == InvalidInputError && reply.tables == t)
  }

  lemma ToldBadFails(t: Tables, records: seq<SimulationRecord>, reply: Reply, input: SimulationInput,
                     allowStale: bool, clock: Clock)
    requires Validate(input).Err? && Told(t, records, reply, input, allowStale, clock)
    requires records != [] ==>
               Explained(records[|records| - 1]) && records[|records| - 1].canonicalInput == Some(input)
    ensures Fails(t, records, reply, input)
  {
    if records != [] {
      BadEndings(records[|records| - 1], input, clock.viewedAt - input.ObservedAt(), allowStale);
    }
  }

  /** What the model does not support it refuses as such, first and ever after. An
      input that does not validate never succeeds; once it was refused as invalid it
      always is. */
  lemma BadInputsFailForGood(steps: seq<Step>, start: int, c: CreateSimulationCommand, ids: Fresh, clock: Clock,
                             input: SimulationInput)
    requires IsRun(steps + [Request(c, ids, clock)], start) && Asks(After(steps), c, input) && Validate(input).Err?
    ensures Fails(After(steps), RecordsFor(After(steps).simulationRecords, HashOf(input)),
                  Respond(After(steps), c, ids, clock), input)
  {
    assert (steps + [Request(c, ids, clock)])[..|steps|] == steps;
    RunIsSound(steps, start);
    RunReplays(steps, start);
    EveryRequestIsAnsweredAsTold(steps, start, c, ids, clock, input);
    var records := RecordsFor(After(steps).simulationRecords, HashOf(input));
    if records != [] {
      NewestIsExplained(After(steps), Now(steps, start), input);
    }
    ToldBadFails(After(steps), records, Respond(After(steps), c, ids, clock), input, c.allowStale, clock);
  }
}

/** Whole runs of detector cycles: when a finding resolves, when its
    recommendations do, and what a failed cycle leaves behind. */
module FindingLifecycle {
  import opened Wrappers
  import opened Domain
  import opened Findings
  import opened Detectors
  import opened StoreModel
  import opened FindingCycles
  import opened WebhookWorker

  ghost predicate UniqueIds(fs: seq<Finding>) {
    forall i, j | 0 <= i < j < |fs| :: fs[i].id != fs[j].id
  }

  // What a store knows about one identity.
  function Known(fs: seq<Finding>, id: FindingId): Option<Finding> {
    match FindFinding(fs, id)
    case Some(i) => Some(fs[i])
    case None => None
  }

  function CounterOf(absent: map<FindingId, nat>, id: FindingId): Option<nat> {
    if id in absent then Some(absent[id]) else None
  }

  lemma KnownAt(fs: seq<Finding>, i: nat)
    requires UniqueIds(fs) && i < |fs|
    ensures Known(fs, fs[i].id) == Some(fs[i])
  {
    var at := FindFinding(fs, fs[i].id);
    assert fs[i] in fs;
  }

  lemma KnownNone(fs: seq<Finding>, id: FindingId)
    requires forall i | 0 <= i < |fs| :: fs[i].id != id
    ensures Known(fs, id) == None
  {}

  lemma KnownInit(fs: seq<Finding>, id: FindingId)
    requires fs != [] && UniqueIds(fs)
    ensures UniqueIds(fs[..|fs| - 1])
    ensures Known(fs, id) == if fs[|fs| - 1].id == id then Some(fs[|fs| - 1]) else Known(fs[..|fs| - 1], id)
    ensures Known(fs[..|fs| - 1], fs[|fs| - 1].id) == None
  {
    var init, last := fs[..|fs| - 1], fs[|fs| - 1];
    KnownNone(init, last.id);
    if last.id == id {
      KnownAt(fs, |fs| - 1);
    } else if i :| 0 <= i < |init| && init[i].id == id {
      KnownAt(init, i);
      KnownAt(fs, i);
    } else {
      KnownNone(fs, id);
      KnownNone(init, id);
    }
  }

  // ---- Resolving, one identity at a time ----

  lemma {:induction false} ResolvingKeepsIds(fs: seq<Finding>, absent: map<FindingId, nat>, scope: FindingCycleScope)
    ensures var fs' := AfterResolving(fs, absent, scope);
            && |fs'| == |fs| && (forall i | 0 <= i < |fs| :: fs'[i].id == fs[i].id)
            && (UniqueIds(fs) ==> UniqueIds(fs'))
  {
    if fs != [] {
      var init, fs' := fs[..|fs| - 1], AfterResolving(fs, absent, scope);
      ResolvingKeepsIds(init, absent, scope);
      assert forall i | 0 <= i < |init| :: fs'[i] == AfterResolving(init, absent, scope)[i];
    }
  }

  lemma {:induction false} ResolvingPointwise(fs: seq<Finding>, absent: map<FindingId, nat>,
                                              scope: FindingCycleScope, id: FindingId)
    requires UniqueIds(fs)
    ensures UniqueIds(AfterResolving(fs, absent, scope))
    ensures var fs', absent' := AfterResolving(fs, absent, scope), AfterCounting(fs, absent, scope);
            match Known(fs, id)
            case None => Known(fs', id) == None && CounterOf(absent', id) == CounterOf(absent, id)
            case Some(f) =>
              Known(fs', id) == Some(ResolvedOne(f, absent, scope)) &&
              CounterOf(absent', id) == CounterOf(CountedOne(f, absent, scope), id)
  {
    ResolvingKeepsIds(fs, absent, scope);
    if fs != [] {
      var init, last, fs' := fs[..|fs| - 1], fs[|fs| - 1], AfterResolving(fs, absent, scope);
      KnownInit(fs, id);
      KnownInit(fs', id);
      assert fs'[..|fs'| - 1] == AfterResolving(init, absent, scope);
      ResolvingPointwise(init, absent, scope, id);
      ResolvingPointwise(init, absent, scope, last.id);
      SameCounter(last, absent, AfterCounting(init, absent, scope), scope);
    }
  }

  lemma SameCounter(f: Finding, a: map<FindingId, nat>, b: map<FindingId, nat>, scope: FindingCycleScope)
    requires CounterOf(a, f.id) == CounterOf(b, f.id)
    ensures ResolvedOne(f, a, scope) == ResolvedOne(f, b, scope)
    ensures CounterOf(CountedOne(f, a, scope), f.id) == CounterOf(CountedOne(f, b, scope), f.id)
    ensures forall id | id != f.id :: CounterOf(CountedOne(f, b, scope), id) == CounterOf(b, id)
  {}

  // ---- Saving, one identity at a time ----

  function Replacement(s: Store, f: Finding): Finding {
    match Known(s.tables.findings, f.id)
    case Some(existing) => Refreshed(existing, f, FirstSeen(s.tables.findings, f))
    case None => f.(firstSeenAt := FirstSeen(s.tables.findings, f), lifecycle := ActiveFinding)
  }

  lemma ReplacedPointwise(fs: seq<Finding>, at: nat, f: Finding, id: FindingId)
    requires UniqueIds(fs) && at < |fs| && fs[at].id == f.id
    ensures UniqueIds(fs[at := f])
    ensures Known(fs[at := f], id) == if f.id == id then Some(f) else Known(fs, id)
    ensures Known(fs, f.id) == Some(fs[at])
  {
    KnownAt(fs, at);
    if i :| 0 <= i < |fs| && fs[i].id == id {
      KnownAt(fs, i);
      KnownAt(fs[at := f], i);
    } else {
      KnownNone(fs, id);
      KnownNone(fs[at := f], id);
    }
  }

  lemma SavingPointwise(s: Store, f: Finding, id: FindingId)
    requires UniqueIds(s.tables.findings)
    ensures UniqueIds(Saved(s, f).tables.findings)
    ensures Known(Saved(s, f).tables.findings, id) ==
            if f.id == id then Some(Replacement(s, f)) else Known(s.tables.findings, id)
    ensures CounterOf(Saved(s, f).absent, id) ==
            if f.id == id && Known(s.tables.findings, id).Some? then None else CounterOf(s.absent, id)
  {
    var fs, fs' := s.tables.findings, Saved(s, f).tables.findings;
    match FindFinding(fs, f.id)
    case Some(at) =>
      ReplacedPointwise(fs, at, fs'[at], id);
    case None =>
      assert forall i | 0 <= i < |fs| :: fs[i] in fs;
      assert fs'[..|fs| + 1 - 1] == fs;
      KnownInit(fs', id);
  }

  // ---- Hysteresis ----

  // The part of a scope that a finding is matched against.
  datatype Key = Key(detector: string, network: Option<BitcoinNetwork>, node: Option<string>)

  predicate Covers(scope: FindingCycleScope, key: Key) {
    scope.complete && scope.detector == key.detector && scope.network == key.network && scope.node == key.node
  }

  predicate HasKey(f: Finding, key: Key) {
    f.detector == key.detector && f.Network() == key.network && f.node == key.node
  }

  predicate Sights(fs: seq<Finding>, id: FindingId) {
    exists f :: f in fs && f.id == id
  }

  lemma SightsInit(fs: seq<Finding>, id: FindingId)
    requires fs != []
    ensures Sights(fs, id) <==> Sights(fs[..|fs| - 1], id) || fs[|fs| - 1].id == id
  {
    assert fs == fs[..|fs| - 1] + [fs[|fs| - 1]];
  }

  // The complete cycles of the finding's scope since its last sighting.
  function GapAfter(gap: Option<nat>, cycle: DetectorCycle, id: FindingId, key: Key): Option<nat> {
    if Sights(cycle.findings, id) then Some(0)
    else if gap.Some? && Covers(cycle.scope, key) then Some(gap.value + 1)
    else gap
  }

  function CyclesSince(gap: Option<nat>, cycles: seq<DetectorCycle>, id: FindingId, key: Key): Option<nat> {
    if cycles == [] then gap
    else GapAfter(CyclesSince(gap, cycles[..|cycles| - 1], id, key), cycles[|cycles| - 1], id, key)
  }

  // What is known of one finding, and its counter, after a gap.
  ghost predicate FitsGap(known: Option<Finding>, counter: Option<nat>, key: Key, gap: Option<nat>, lastSeen: int) {
    match gap
    case None => known == None && counter == None
    case Some(g) =>
      && known.Some? && HasKey(known.value, key) && known.value.lastSeenAt <= lastSeen
      && known.value.lifecycle == (if g >= 3 then ResolvedFinding else ActiveFinding)
      && counter == (if 1 <= g <= 2 then Some(g) else None)
  }

  ghost predicate Tracks(s: Store, id: FindingId, key: Key, gap: Option<nat>, lastSeen: int) {
    && UniqueIds(s.tables.findings)
    && FitsGap(Known(s.tables.findings, id), CounterOf(s.absent, id), key, gap, lastSeen)
  }

  // Every sighting in the cycle is of the same logical finding, at time `at`.
  ghost predicate SightedAt(fs: seq<Finding>, id: FindingId, key: Key, at: int) {
    forall f | f in fs && f.id == id :: HasKey(f, key) && f.lastSeenAt == at
  }

  lemma SaveTracks(s: Store, f: Finding, id: FindingId, key: Key, gap: Option<nat>, at: int)
    requires Tracks(s, id, key, gap, at)
    requires f.id == id ==> HasKey(f, key) && f.lastSeenAt == at
    ensures Tracks(Saved(s, f), id, key, if f.id == id then Some(0) else gap, at)
  {
    SavingPointwise(s, f, id);
  }

  lemma {:induction false} SavesTrack(s: Store, fs: seq<Finding>, id: FindingId, key: Key, gap: Option<nat>,
                                      lastSeen: int, at: int)
    requires Tracks(s, id, key, gap, lastSeen)
    requires SightedAt(fs, id, key, at) && lastSeen <= at
    ensures Tracks(AfterSaves(s, fs), id, key, if Sights(fs, id) then Some(0) else gap, at)
  {
    if fs != [] {
      var init, last := fs[..|fs| - 1], fs[|fs| - 1];
      assert forall f | f in init :: f in fs;
      assert last in fs;
      SightsInit(fs, id);
      SavesTrack(s, init, id, key, gap, lastSeen, at);
      SaveTracks(AfterSaves(s, init), last, id, key, if Sights(init, id) then Some(0) else gap, at);
    }
  }

  function GapResolved(gap: Option<nat>, scope: FindingCycleScope, key: Key): Option<nat> {
    if gap.Some? && Covers(scope, key) then Some(gap.value + 1) else gap
  }

  lemma ResolvingFits(f: Finding, absent: map<FindingId, nat>, scope: FindingCycleScope, key: Key, gap: Option<nat>,
                      lastSeen: int)
    requires FitsGap(Some(f), CounterOf(absent, f.id), key, gap, lastSeen)
    ensures FitsGap(Some(ResolvedOne(f, absent, scope)), CounterOf(CountedOne(f, absent, scope), f.id), key,
                    GapResolved(gap, scope, key), lastSeen)
  {}

  lemma KnownHasId(fs: seq<Finding>, id: FindingId)
    ensures Known(fs, id).Some? ==> Known(fs, id).value.id == id
  {}

  lemma ResolvingTracks(s: Store, scope: FindingCycleScope, id: FindingId, key: Key, gap: Option<nat>, lastSeen: int)
    requires Tracks(s, id, key, gap, lastSeen)
    ensures Tracks(Synced(StoreModel.Resolved(s, scope)), id, key, GapResolved(gap, scope, key), lastSeen)
  {
    var fs := s.tables.findings;
    ResolvingPointwise(fs, s.absent, scope, id);
    KnownHasId(fs, id);
    if Known(fs, id).Some? {
      ResolvingFits(Known(fs, id).value, s.absent, scope, key, gap, lastSeen);
    }
  }

  lemma CycleTracks(s: Store, cycle: DetectorCycle, id: FindingId, key: Key, gap: Option<nat>, lastSeen: int, at: int)
    requires Tracks(s, id, key, gap, lastSeen)
    requires SightedAt(cycle.findings, id, key, at) && lastSeen <= at
    ensures Tracks(CycleBody(s, cycle), id, key, GapAfter(gap, cycle, id, key), at)
  {
    ResolvingTracks(s, cycle.scope, id, key, gap, lastSeen);
    SavesTrack(Synced(StoreModel.Resolved(s, cycle.scope)), cycle.findings, id, key,
               GapResolved(gap, cycle.scope, key), lastSeen, at);
  }

  function RunCycles(s: Store, cycles: seq<DetectorCycle>): Store {
    if cycles == [] then s else CycleBody(RunCycles(s, cycles[..|cycles| - 1]), cycles[|cycles| - 1])
  }

  // Cycle `i` observes at `times[i]`, and time does not run backwards.
  ghost predicate Observed(cycles: seq<DetectorCycle>, times: seq<int>, id: FindingId, key: Key) {
    && |times| == |cycles|
    && (forall i | 0 <= i < |cycles| :: SightedAt(cycles[i].findings, id, key, times[i]))
    && (forall i, j | 0 <= i <= j < |times| :: times[i] <= times[j])
  }

  lemma ObservedInit(cycles: seq<DetectorCycle>, times: seq<int>, id: FindingId, key: Key)
    requires Observed(cycles, times, id, key) && cycles != []
    ensures Observed(cycles[..|cycles| - 1], times[..|cycles| - 1], id, key)
    ensures SightedAt(cycles[|cycles| - 1].findings, id, key, times[|cycles| - 1])
  {}

  lemma {:induction false} RunTracks(s: Store, cycles: seq<DetectorCycle>, times: seq<int>, id: FindingId, key: Key,
                                     gap: Option<nat>, start: int)
    requires Tracks(s, id, key, gap, start)
    requires Observed(cycles, times, id, key) && (times != [] ==> start <= times[0])
    ensures Tracks(RunCycles(s, cycles), id, key, CyclesSince(gap, cycles, id, key),
                   if times == [] then start else times[|times| - 1])
  {
    if cycles != [] {
      var n := |cycles| - 1;
      ObservedInit(cycles, times, id, key);
      RunTracks(s, cycles[..n], times[..n], id, key, gap, start);
      var lastSeen := if n == 0 then start else times[n - 1];
      assert lastSeen <= times[n];
      CycleTracks(RunCycles(s, cycles[..n]), cycles[n], id, key, CyclesSince(gap, cycles[..n], id, key), lastSeen,
                  times[n]);
    }
  }

  /** Over any run of committed cycles, of whatever scopes, a finding is resolved
      exactly when three complete cycles of its scope have passed since it was
      last seen; while it is active its counter is their number. */
  lemma HysteresisIsExact(cycles: seq<DetectorCycle>, times: seq<int>, id: FindingId, key: Key)
    requires Observed(cycles, times, id, key)
    ensures var s, gap := RunCycles(EMPTY_STORE, cycles), CyclesSince(None, cycles, id, key);
            var known := Known(s.tables.findings, id);
            && (known.Some? <==> gap.Some?)
            && (gap.Some? ==>
                  (known.value.lifecycle == ResolvedFinding <==> gap.value >= 3) &&
                  (known.value.lifecycle == ActiveFinding ==> Absences(s.absent, id) == gap.value <= 2))
  {
    var start := if times == [] then 0 else times[0];
    assert Tracks(EMPTY_STORE, id, key, None, start);
    RunTracks(EMPTY_STORE, cycles, times, id, key, None, start);
  }

  // ---- Recommendations ----

  lemma {:induction false} SavesKeepRecommendations(s: Store, fs: seq<Finding>)
    ensures AfterSaves(s, fs).tables.recommendations == s.tables.recommendations
  {
    if fs != [] {
      SavesKeepRecommendations(s, fs[..|fs| - 1]);
    }
  }

  // A cycle starts by resolving the finding, or finds it resolved.
  predicate Marks(gap: Option<nat>, scope: FindingCycleScope, key: Key) {
    gap.Some? && (gap.value >= 3 || (gap.value == 2 && Covers(scope, key)))
  }

  function EverMarked(gap: Option<nat>, cycles: seq<DetectorCycle>, id: FindingId, key: Key): bool {
    cycles != [] &&
    (EverMarked(gap, cycles[..|cycles| - 1], id, key) ||
     Marks(CyclesSince(gap, cycles[..|cycles| - 1], id, key), cycles[|cycles| - 1].scope, key))
  }

  lemma KnownResolvedIds(fs: seq<Finding>, id: FindingId)
    requires UniqueIds(fs)
    ensures id in ResolvedIds(fs) <==> Known(fs, id).Some? && Known(fs, id).value.lifecycle == ResolvedFinding
  {
    if id in ResolvedIds(fs) {
      var i :| 0 <= i < |fs| && fs[i].id == id && fs[i].lifecycle == ResolvedFinding;
      KnownAt(fs, i);
    }
    if Known(fs, id).Some? {
      assert Known(fs, id).value in fs;
    }
  }

  /** A recommendation of the finding is resolved exactly when some cycle began
      with the finding resolved, or completed its third absence at its start: the
      cycle that sees the finding again reactivates it, not the recommendation. */
  lemma {:induction false} RecommendationsFollowTheThirdAbsence(
      s: Store, cycles: seq<DetectorCycle>, times: seq<int>, id: FindingId, key: Key, gap: Option<nat>, start: int,
      i: nat)
    requires Tracks(s, id, key, gap, start)
    requires Observed(cycles, times, id, key) && (times != [] ==> start <= times[0])
    requires i < |s.tables.recommendations| && s.tables.recommendations[i].findingId == id
    ensures var before, after := s.tables.recommendations, RunCycles(s, cycles).tables.recommendations;
            && |after| == |before| && after[i].findingId == id
            && (after[i].lifecycle == Some(ResolvedRecommendation) <==>
                before[i].lifecycle == Some(ResolvedRecommendation) || EverMarked(gap, cycles, id, key))
  {
    if cycles != [] {
      var n := |cycles| - 1;
      ObservedInit(cycles, times, id, key);
      RecommendationsFollowTheThirdAbsence(s, cycles[..n], times[..n], id, key, gap, start, i);
      RunTracks(s, cycles[..n], times[..n], id, key, gap, start);
      var lastSeen := if n == 0 then start else times[n - 1];
      OneCycleMarks(RunCycles(s, cycles[..n]), cycles[n], id, key, CyclesSince(gap, cycles[..n], id, key), lastSeen, i);
    }
  }

  lemma OneCycleMarks(s: Store, cycle: DetectorCycle, id: FindingId, key: Key, gap: Option<nat>, lastSeen: int, i: nat)
    requires Tracks(s, id, key, gap, lastSeen)
    requires i < |s.tables.recommendations| && s.tables.recommendations[i].findingId == id
    ensures var before, after := s.tables.recommendations, CycleBody(s, cycle).tables.recommendations;
            && |after| == |before| && after[i].findingId == id
            && (after[i].lifecycle == Some(ResolvedRecommendation) <==>
                before[i].lifecycle == Some(ResolvedRecommendation) || Marks(gap, cycle.scope, key))
  {
    ResolvingTracks(s, cycle.scope, id, key, gap, lastSeen);
    var resolved := StoreModel.Resolved(s, cycle.scope);
    KnownResolvedIds(resolved.tables.findings, id);
    SavesKeepRecommendations(Synced(resolved), cycle.findings);
  }

  /** At every commit, the recommendations already stored for a finding that is
      resolved are resolved. */
  lemma ResolvedFindingsHaveResolvedRecommendations(s: Store, cycle: DetectorCycle, f: Finding, r: Recommendation)
    requires UniqueIds(s.tables.findings)
    requires f in CycleBody(s, cycle).tables.findings && f.lifecycle == ResolvedFinding
    requires r in CycleBody(s, cycle).tables.recommendations && r.findingId == f.id
    ensures r.lifecycle == Some(ResolvedRecommendation)
  {
    ResolvingPointwise(s.tables.findings, s.absent, cycle.scope, f.id);
    var resolved := StoreModel.Resolved(s, cycle.scope);
    UniqueAfterSaves(Synced(resolved), cycle.findings);
    ResolvedMember(CycleBody(s, cycle).tables.findings, f);
    SavesNeverResolve(Synced(resolved), cycle.findings, f.id);
    KnownResolvedIds(resolved.tables.findings, f.id);
    SavesKeepRecommendations(Synced(resolved), cycle.findings);
  }

  ghost predicate IsResolved(fs: seq<Finding>, id: FindingId) {
    Known(fs, id).Some? && Known(fs, id).value.lifecycle == ResolvedFinding
  }

  lemma SaveNeverResolves(s: Store, f: Finding, id: FindingId)
    requires UniqueIds(s.tables.findings) && IsResolved(Saved(s, f).tables.findings, id)
    ensures IsResolved(s.tables.findings, id)
  {
    SavingPointwise(s, f, id);
  }

  // Saving never resolves: what is resolved afterwards was resolved before.
  lemma {:induction false} SavesNeverResolve(s: Store, fs: seq<Finding>, id: FindingId)
    requires UniqueIds(s.tables.findings) && IsResolved(AfterSaves(s, fs).tables.findings, id)
    ensures IsResolved(s.tables.findings, id)
  {
    if fs != [] {
      UniqueAfterSaves(s, fs[..|fs| - 1]);
      SaveNeverResolves(AfterSaves(s, fs[..|fs| - 1]), fs[|fs| - 1], id);
      SavesNeverResolve(s, fs[..|fs| - 1], id);
    }
  }

  lemma ResolvedMember(fs: seq<Finding>, f: Finding)
    requires UniqueIds(fs) && f in fs && f.lifecycle == ResolvedFinding
    ensures IsResolved(fs, f.id)
  {
    var i :| 0 <= i < |fs| && fs[i] == f;
    KnownAt(fs, i);
  }

  lemma {:induction false} UniqueAfterSaves(s: Store, fs: seq<Finding>)
    requires UniqueIds(s.tables.findings)
    ensures UniqueIds(AfterSaves(s, fs).tables.findings)
  {
    if fs != [] {
      UniqueAfterSaves(s, fs[..|fs| - 1]);
      SavingPointwise(AfterSaves(s, fs[..|fs| - 1]), fs[|fs| - 1], fs[|fs| - 1].id);
    }
  }

  // ---- What a failed cycle leaves ----

  // Counters are positive and belong to stored findings.
  ghost predicate CountersSound(s: Store) {
    && UniqueIds(s.tables.findings)
    && forall id | id in s.absent :: s.absent[id] >= 1 && Known(s.tables.findings, id).Some?
  }

  lemma {:induction false} SavesPointwise(s: Store, fs: seq<Finding>, id: FindingId)
    requires UniqueIds(s.tables.findings)
    ensures UniqueIds(AfterSaves(s, fs).tables.findings)
    ensures Known(AfterSaves(s, fs).tables.findings, id).Some? <==> Known(s.tables.findings, id).Some? || Sights(fs, id)
    ensures Known(s.tables.findings, id).Some? ==>
              CounterOf(AfterSaves(s, fs).absent, id) == if Sights(fs, id) then None else CounterOf(s.absent, id)
    ensures Known(s.tables.findings, id).None? && CounterOf(s.absent, id).None? ==>
              CounterOf(AfterSaves(s, fs).absent, id).None?
  {
    if fs != [] {
      var init, last := fs[..|fs| - 1], fs[|fs| - 1];
      SavesPointwise(s, init, id);
      SavingPointwise(AfterSaves(s, init), last, id);
      SightsInit(fs, id);
    }
  }

  // The counter of one finding after the first `k` calls of a cycle.
  lemma CallsPointwise(s: Store, cycle: DetectorCycle, k: nat, id: FindingId)
    requires CountersSound(s) && 1 <= k <= |cycle.findings| + 2
    ensures var saved := if k >= 2 then cycle.findings[..k - 2] else [];
            CounterOf(AfterCalls(s, cycle, k).absent, id) ==
            match Known(s.tables.findings, id)
            case None => None
            case Some(f) => if Sights(saved, id) then None else CounterOf(CountedOne(f, s.absent, cycle.scope), id)
  {
    ResolvingPointwise(s.tables.findings, s.absent, cycle.scope, id);
    if k >= 2 {
      SavesPointwise(Synced(StoreModel.Resolved(s, cycle.scope)), cycle.findings[..k - 2], id);
    }
  }

  /** A failed cycle restores every table. It also leaves the absence counters as
      they were exactly when it failed before resolving, or had already saved
      again every active finding of its complete scope, and every finding it had
      saved had no counter to lose. */
  lemma FailureRestoresCountersIff(s: Store, cycle: DetectorCycle, k: nat)
    requires CountersSound(s) && k <= |cycle.findings| + 2
    ensures AfterFailure(s, cycle, k).tables == s.tables
    ensures var saved := if k >= 2 then cycle.findings[..k - 2] else [];
            AfterFailure(s, cycle, k).absent == s.absent <==>
            k == 0 ||
            forall f | f in s.tables.findings ::
              (Counts(f, cycle.scope) ==> Sights(saved, f.id)) && (Sights(saved, f.id) ==> f.id !in s.absent)
  {
    if k > 0 {
      var saved := if k >= 2 then cycle.findings[..k - 2] else [];
      var absent := AfterCalls(s, cycle, k).absent;
      forall id | Known(s.tables.findings, id).None?
        ensures CounterOf(absent, id) == None
      {
        CallsPointwise(s, cycle, k, id);
      }
      CountersAreOfFindings(s, absent);
      forall f | f in s.tables.findings
        ensures CounterOf(absent, f.id) == CounterOf(s.absent, f.id) <==>
                (Counts(f, cycle.scope) ==> Sights(saved, f.id)) && (Sights(saved, f.id) ==> f.id !in s.absent)
      {
        CounterRestoredIff(s, cycle, k, f);
      }
    }
  }

  lemma CounterRestoredIff(s: Store, cycle: DetectorCycle, k: nat, f: Finding)
    requires CountersSound(s) && 1 <= k <= |cycle.findings| + 2 && f in s.tables.findings
    ensures var saved := if k >= 2 then cycle.findings[..k - 2] else [];
            CounterOf(AfterCalls(s, cycle, k).absent, f.id) == CounterOf(s.absent, f.id) <==>
            (Counts(f, cycle.scope) ==> Sights(saved, f.id)) && (Sights(saved, f.id) ==> f.id !in s.absent)
  {
    var i :| 0 <= i < |s.tables.findings| && s.tables.findings[i] == f;
    KnownAt(s.tables.findings, i);
    CallsPointwise(s, cycle, k, f.id);
  }

  lemma CountersAreOfFindings(s: Store, absent: map<FindingId, nat>)
    requires CountersSound(s)
    requires forall id | Known(s.tables.findings, id).None? :: CounterOf(absent, id) == None
    ensures absent == s.absent <==>
            forall f | f in s.tables.findings :: CounterOf(absent, f.id) == CounterOf(s.absent, f.id)
  {
    if forall f | f in s.tables.findings :: CounterOf(absent, f.id) == CounterOf(s.absent, f.id) {
      forall id
        ensures CounterOf(absent, id) == CounterOf(s.absent, id)
      {
        if Known(s.tables.findings, id).Some? {
          assert Known(s.tables.findings, id).value in s.tables.findings;
        }
      }
      SameCounters(absent, s.absent);
    }
  }

  lemma SameCounters(a: map<FindingId, nat>, b: map<FindingId, nat>)
    requires forall id :: CounterOf(a, id) == CounterOf(b, id)
    ensures a == b
  {
    forall id
      ensures id in a <==> id in b
      ensures id in a ==> a[id] == b[id]
    {
      assert CounterOf(a, id) == CounterOf(b, id);
    }
  }

  // ---- Concrete runs ----

  const SAMPLE_ID := FindingId("d", "1", None, Some("n"), None)
  const SAMPLE :=
    Finding(SAMPLE_ID, "d", "1", 2, Severity.Warning, Some("n"), None, [], None, None, 0, 0, 0, ActiveFinding)
  const SAMPLE_SCOPE := FindingCycleScope("d", None, Some("n"), true)
  const SAMPLE_KEY := Key("d", None, Some("n"))

  // A cycle that fails after resolving still counts one more absence.
  lemma FailureCounts(s: Store, quiet: DetectorCycle, id: FindingId, key: Key, gap: nat, lastSeen: int)
    requires Tracks(s, id, key, Some(gap), lastSeen) && gap < 2
    requires Covers(quiet.scope, key) && quiet.findings == []
    ensures AfterFailure(s, quiet, 2).tables == s.tables
    ensures Tracks(AfterFailure(s, quiet, 2), id, key, Some(gap + 1), lastSeen)
  {
    ResolvingTracks(s, quiet.scope, id, key, Some(gap), lastSeen);
    assert quiet.findings[..0] == [];
  }

  lemma QuietCycleTracks(s: Store, quiet: DetectorCycle, id: FindingId, key: Key, gap: nat, lastSeen: int)
    requires Tracks(s, id, key, Some(gap), lastSeen)
    requires Covers(quiet.scope, key) && quiet.findings == []
    ensures var known := Known(CycleBody(s, quiet).tables.findings, id);
            known.Some? && known.value.lifecycle == if gap >= 2 then ResolvedFinding else ActiveFinding
  {
    CycleTracks(s, quiet, id, key, Some(gap), lastSeen, lastSeen);
  }

  /** Failed cycles count towards the three absences. After a sighting, one
      committed absence leaves the finding active; after the same sighting and
      two cycles that failed, which restored every table, it resolves it. */
  lemma FailedCyclesCountAsAbsences(s: Store, quiet: DetectorCycle, id: FindingId, key: Key, lastSeen: int)
    requires Tracks(s, id, key, Some(0), lastSeen)
    requires Covers(quiet.scope, key) && quiet.findings == []
    ensures var failedTwice := AfterFailure(AfterFailure(s, quiet, 2), quiet, 2);
            && failedTwice.tables == s.tables
            && Known(CycleBody(s, quiet).tables.findings, id).Some?
            && Known(CycleBody(s, quiet).tables.findings, id).value.lifecycle == ActiveFinding
            && Known(CycleBody(failedTwice, quiet).tables.findings, id).Some?
            && Known(CycleBody(failedTwice, quiet).tables.findings, id).value.lifecycle == ResolvedFinding
  {
    var failedOnce := AfterFailure(s, quiet, 2);
    FailureCounts(s, quiet, id, key, 0, lastSeen);
    FailureCounts(failedOnce, quiet, id, key, 1, lastSeen);
    QuietCycleTracks(s, quiet, id, key, 0, lastSeen);
    QuietCycleTracks(AfterFailure(failedOnce, quiet, 2), quiet, id, key, 2, lastSeen);
  }

  // Such a store exists: one sighting by the first cycle ever.
  lemma FirstSightingTracks()
    ensures Tracks(CycleBody(EMPTY_STORE, DetectorCycle(SAMPLE_SCOPE, [SAMPLE])), SAMPLE_ID, SAMPLE_KEY, Some(0), 0)
  {
    assert SAMPLE in [SAMPLE];
    CycleTracks(EMPTY_STORE, DetectorCycle(SAMPLE_SCOPE, [SAMPLE]), SAMPLE_ID, SAMPLE_KEY, None, 0, 0);
  }

  /** Absent for two cycles and seen by the third: the finding is active before
      and after that cycle, yet its recommendations come out resolved, for the
      cycle resolves and synchronises before it saves. */
  lemma ReturningFindingLosesItsRecommendation(s: Store, again: DetectorCycle, id: FindingId, key: Key,
                                               lastSeen: int, at: int, i: nat)
    requires Tracks(s, id, key, Some(2), lastSeen) && lastSeen <= at
    requires Covers(again.scope, key) && Sights(again.findings, id) && SightedAt(again.findings, id, key, at)
    requires i < |s.tables.recommendations| && s.tables.recommendations[i].findingId == id
    ensures Known(s.tables.findings, id).value.lifecycle == ActiveFinding
    ensures var t := CycleBody(s, again).tables;
            && Known(t.findings, id).Some? && Known(t.findings, id).value.lifecycle == ActiveFinding
            && i < |t.recommendations| && t.recommendations[i].findingId == id
            && t.recommendations[i].lifecycle == Some(ResolvedRecommendation)
  {
    CycleTracks(s, again, id, key, Some(2), lastSeen, at);
    OneCycleMarks(s, again, id, key, Some(2), lastSeen, i);
  }

  // ---- The webhook worker's own findings ----

  predicate UnscopedActive(known: Option<Finding>) {
    known.Some? ==> known.value.provenance.None? && known.value.lifecycle == ActiveFinding
  }

  // A finding without provenance belongs to no network scope.
  lemma {:induction false} UnscopedFindingsNeverResolve(s: Store, cycles: seq<DetectorCycle>, id: FindingId)
    requires UniqueIds(s.tables.findings) && UnscopedActive(Known(s.tables.findings, id))
    requires forall i | 0 <= i < |cycles| :: cycles[i].scope.network.Some?
    requires forall i, f | 0 <= i < |cycles| && f in cycles[i].findings && f.id == id :: f.provenance.None?
    ensures UniqueIds(RunCycles(s, cycles).tables.findings)
    ensures UnscopedActive(Known(RunCycles(s, cycles).tables.findings, id))
  {
    if cycles != [] {
      var n := |cycles| - 1;
      UnscopedFindingsNeverResolve(s, cycles[..n], id);
      var mid := RunCycles(s, cycles[..n]);
      ResolvingPointwise(mid.tables.findings, mid.absent, cycles[n].scope, id);
      UnscopedStaysActive(Synced(StoreModel.Resolved(mid, cycles[n].scope)), cycles[n].findings, id);
    }
  }

  lemma UnscopedAfterSave(s: Store, f: Finding, id: FindingId)
    requires UniqueIds(s.tables.findings) && UnscopedActive(Known(s.tables.findings, id))
    requires f.id == id ==> f.provenance.None?
    ensures UniqueIds(Saved(s, f).tables.findings) && UnscopedActive(Known(Saved(s, f).tables.findings, id))
  {
    SavingPointwise(s, f, id);
  }

  lemma {:induction false} UnscopedStaysActive(s: Store, fs: seq<Finding>, id: FindingId)
    requires UniqueIds(s.tables.findings) && UnscopedActive(Known(s.tables.findings, id))
    requires forall f | f in fs && f.id == id :: f.provenance.None?
    ensures UniqueIds(AfterSaves(s, fs).tables.findings) && UnscopedActive(Known(AfterSaves(s, fs).tables.findings, id))
  {
    if fs != [] {
      UnscopedStaysActive(s, fs[..|fs| - 1], id);
      UnscopedAfterSave(AfterSaves(s, fs[..|fs| - 1]), fs[|fs| - 1], id);
    }
  }

  /** The settlement finding that the webhook worker persists carries no
      provenance, so no later cycle of the worker, however many complete ones
      miss it, ever resolves it. */
  lemma WorkerFindingsNeverResolve(network: BitcoinNetwork, node: string, channels: seq<Channel>,
                                   windows: seq<seq<NodeEvent>>, times: seq<int>, id: FindingId)
    requires |times| == |windows|
    ensures var cycles := seq(|windows|, i requires 0 <= i < |windows| =>
                                WorkerCycle(network, node, channels, windows[i], times[i]));
            var known := Known(RunCycles(EMPTY_STORE, cycles).tables.findings, id);
            known.Some? ==> known.value.lifecycle == ActiveFinding
  {
    var cycles := seq(|windows|, i requires 0 <= i < |windows| =>
                        WorkerCycle(network, node, channels, windows[i], times[i]));
    UnscopedFindingsNeverResolve(EMPTY_STORE, cycles, id);
  }
}

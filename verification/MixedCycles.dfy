/** Hysteresis over runs in which some cycles fail: what a finding's lifecycle and
    absence counter are after any mixture of committed and failed cycles. */
module MixedCycles {
  import opened Wrappers
  import opened Findings
  import opened Detectors
  import opened StoreModel
  import opened FindingCycles
  import opened FindingLifecycle

  // A cycle that commits, or fails after the first `calls` of its storage calls.
  datatype Attempt = Commit(cycle: DetectorCycle) | Fail(cycle: DetectorCycle, calls: nat)

  ghost predicate WithinCalls(a: Attempt) {
    a.Fail? ==> a.calls <= |a.cycle.findings| + 2
  }

  function AfterAttempt(s: Store, a: Attempt): Store
    requires WithinCalls(a)
  {
    match a
    case Commit(cycle) => CycleBody(s, cycle)
    case Fail(cycle, calls) => AfterFailure(s, cycle, calls)
  }

  // How a finding stands: never seen, active with so many absences counted, or resolved.
  datatype Standing = Unseen | Counting(absences: nat) | Retired

  function OneMoreAbsence(st: Standing): Standing {
    if !st.Counting? then st else if st.absences >= 2 then Retired else Counting(st.absences + 1)
  }

  // A failed cycle leaves its count behind, and at the third absence none at all.
  function OneFailedAbsence(st: Standing): Standing {
    if !st.Counting? then st else if st.absences >= 2 then Counting(0) else Counting(st.absences + 1)
  }

  function SavedBefore(a: Attempt): seq<Finding>
    requires WithinCalls(a)
  {
    if a.Fail? && a.calls >= 2 then a.cycle.findings[..a.calls - 2] else []
  }

  function FailedStanding(st: Standing, saved: bool, covered: bool): Standing {
    if saved && st.Counting? then Counting(0) else if covered then OneFailedAbsence(st) else st
  }

  ghost function NextStanding(st: Standing, a: Attempt, id: FindingId, key: Key): Standing
    requires WithinCalls(a)
  {
    match a
    case Commit(cycle) =>
      if Sights(cycle.findings, id) then Counting(0) else if Covers(cycle.scope, key) then OneMoreAbsence(st) else st
    case Fail(cycle, calls) =>
      if calls == 0 then st else FailedStanding(st, Sights(SavedBefore(a), id), Covers(cycle.scope, key))
  }

  // The number of absences in the terms of committed runs.
  function Gap(st: Standing): Option<nat> {
    match st
    case Unseen => None
    case Counting(n) => Some(n)
    case Retired => Some(3)
  }

  ghost predicate Stands(s: Store, id: FindingId, key: Key, st: Standing, lastSeen: int) {
    CountersSound(s) && Tracks(s, id, key, Gap(st), lastSeen) && (st.Counting? ==> st.absences <= 2)
  }

  lemma CounterPresent(absent: map<FindingId, nat>, id: FindingId)
    ensures id in absent <==> CounterOf(absent, id).Some?
    ensures id in absent ==> CounterOf(absent, id) == Some(absent[id])
  {}

  lemma SavesKeepSound(s: Store, fs: seq<Finding>)
    requires CountersSound(s)
    ensures CountersSound(AfterSaves(s, fs))
  {
    var s' := AfterSaves(s, fs);
    UniqueAfterSaves(s, fs);
    forall id | id in s'.absent
      ensures s'.absent[id] >= 1 && Known(s'.tables.findings, id).Some?
    {
      SavesPointwise(s, fs, id);
      CounterPresent(s.absent, id);
      CounterPresent(s'.absent, id);
    }
  }

  lemma ResolvingKeepsSound(s: Store, scope: FindingCycleScope)
    requires CountersSound(s)
    ensures CountersSound(StoreModel.Resolved(s, scope))
  {
    var s' := StoreModel.Resolved(s, scope);
    ResolvingKeepsIds(s.tables.findings, s.absent, scope);
    forall id | id in s'.absent
      ensures s'.absent[id] >= 1 && Known(s'.tables.findings, id).Some?
    {
      ResolvingPointwise(s.tables.findings, s.absent, scope, id);
      CounterPresent(s.absent, id);
      CounterPresent(s'.absent, id);
    }
  }

  lemma CallsKeepSound(s: Store, cycle: DetectorCycle, calls: nat)
    requires CountersSound(s) && calls <= |cycle.findings| + 2
    ensures CountersSound(AfterFailure(s, cycle, calls))
  {
    if calls > 0 {
      var absent := AfterCalls(s, cycle, calls).absent;
      forall id | id in absent
        ensures absent[id] >= 1 && Known(s.tables.findings, id).Some?
      {
        CallsPointwise(s, cycle, calls, id);
        assert CounterOf(absent, id) == Some(absent[id]);
        assert CounterOf(s.absent, id).Some? ==> id in s.absent;
      }
    }
  }

  lemma CommitKeepsSound(s: Store, cycle: DetectorCycle)
    requires CountersSound(s)
    ensures CountersSound(CycleBody(s, cycle))
  {
    ResolvingKeepsSound(s, cycle.scope);
    SavesKeepSound(Synced(StoreModel.Resolved(s, cycle.scope)), cycle.findings);
  }

  // Committed runs count on past three; what that says of the store is the same.
  lemma SameTracks(s: Store, id: FindingId, key: Key, gap: Option<nat>, gap': Option<nat>, lastSeen: int)
    requires Tracks(s, id, key, gap, lastSeen)
    requires gap == gap' || (gap.Some? && gap'.Some? && gap.value >= 3 && gap'.value >= 3)
    ensures Tracks(s, id, key, gap', lastSeen)
  {}

  lemma GapsMatch(st: Standing, cycle: DetectorCycle, id: FindingId, key: Key)
    requires st.Counting? ==> st.absences <= 2
    ensures var gap, st' := GapAfter(Gap(st), cycle, id, key), NextStanding(st, Commit(cycle), id, key);
            && (gap == Gap(st') || (gap.Some? && gap.value >= 3 && st'.Retired?))
            && (st'.Counting? ==> st'.absences <= 2)
  {}

  lemma StandsAgain(s: Store, id: FindingId, key: Key, gap: Option<nat>, st: Standing, at: int)
    requires CountersSound(s) && Tracks(s, id, key, gap, at)
    requires gap == Gap(st) || (gap.Some? && gap.value >= 3 && st.Retired?)
    requires st.Counting? ==> st.absences <= 2
    ensures Stands(s, id, key, st, at)
  {
    SameTracks(s, id, key, gap, Gap(st), at);
  }

  lemma CommitStands(s: Store, cycle: DetectorCycle, id: FindingId, key: Key, st: Standing, lastSeen: int, at: int)
    requires Stands(s, id, key, st, lastSeen)
    requires SightedAt(cycle.findings, id, key, at) && lastSeen <= at
    ensures Stands(CycleBody(s, cycle), id, key, NextStanding(st, Commit(cycle), id, key), at)
  {
    CycleTracks(s, cycle, id, key, Gap(st), lastSeen, at);
    CommitKeepsSound(s, cycle);
    GapsMatch(st, cycle, id, key);
    StandsAgain(CycleBody(s, cycle), id, key, GapAfter(Gap(st), cycle, id, key),
                NextStanding(st, Commit(cycle), id, key), at);
  }

  lemma CountedCounter(f: Finding, absent: map<FindingId, nat>, scope: FindingCycleScope)
    ensures CounterOf(CountedOne(f, absent, scope), f.id) ==
            if !Counts(f, scope) then CounterOf(absent, f.id)
            else if Absences(absent, f.id) + 1 >= 3 then None
            else Some(Absences(absent, f.id) + 1)
  {}

  ghost function CounterFor(st: Standing): Option<nat> {
    if st.Counting? && st.absences >= 1 then Some(st.absences) else None
  }

  // The counter of one known finding after the calls of a failed cycle.
  lemma FailedCounter(f: Finding, absent: map<FindingId, nat>, saved: bool, scope: FindingCycleScope, key: Key,
                      st: Standing, lastSeen: int)
    requires FitsGap(Some(f), CounterOf(absent, f.id), key, Gap(st), lastSeen)
    requires st.Counting? ==> st.absences <= 2
    ensures CounterFor(FailedStanding(st, saved, Covers(scope, key))) ==
            if saved then None else CounterOf(CountedOne(f, absent, scope), f.id)
  {
    CountedCounter(f, absent, scope);
  }

  lemma CounterOfFailure(s: Store, a: Attempt, id: FindingId, key: Key, st: Standing, lastSeen: int)
    requires Stands(s, id, key, st, lastSeen) && a.Fail? && WithinCalls(a) && a.calls > 0
    ensures CounterOf(AfterCalls(s, a.cycle, a.calls).absent, id) ==
            CounterFor(FailedStanding(st, Sights(SavedBefore(a), id), Covers(a.cycle.scope, key)))
  {
    CallsPointwise(s, a.cycle, a.calls, id);
    KnownHasId(s.tables.findings, id);
    if Known(s.tables.findings, id).Some? {
      FailedCounter(Known(s.tables.findings, id).value, s.absent, Sights(SavedBefore(a), id), a.cycle.scope, key, st,
                    lastSeen);
    }
  }

  lemma FailureStands(s: Store, a: Attempt, id: FindingId, key: Key, st: Standing, lastSeen: int)
    requires Stands(s, id, key, st, lastSeen) && a.Fail? && WithinCalls(a)
    ensures Stands(AfterAttempt(s, a), id, key, NextStanding(st, a, id, key), lastSeen)
  {
    CallsKeepSound(s, a.cycle, a.calls);
    if a.calls > 0 {
      CounterOfFailure(s, a, id, key, st, lastSeen);
      TablesOfFailure(s, a, id, key, st, NextStanding(st, a, id, key), lastSeen);
    }
  }

  lemma TablesOfFailure(s: Store, a: Attempt, id: FindingId, key: Key, st: Standing, st': Standing, lastSeen: int)
    requires a.Fail? && WithinCalls(a) && Tracks(s, id, key, Gap(st), lastSeen)
    requires st.Counting? <==> st'.Counting?
    requires !st.Counting? ==> st' == st
    requires st.Counting? ==> st.absences <= 2 && st'.absences <= 2
    requires CounterOf(AfterAttempt(s, a).absent, id) == CounterFor(st')
    ensures Tracks(AfterAttempt(s, a), id, key, Gap(st'), lastSeen)
  {}

  function RunAttempts(s: Store, attempts: seq<Attempt>): Store
    requires forall i | 0 <= i < |attempts| :: WithinCalls(attempts[i])
  {
    if attempts == [] then s else AfterAttempt(RunAttempts(s, attempts[..|attempts| - 1]), attempts[|attempts| - 1])
  }

  ghost function StandingAfter(attempts: seq<Attempt>, id: FindingId, key: Key): Standing
    requires forall i | 0 <= i < |attempts| :: WithinCalls(attempts[i])
  {
    if attempts == [] then Unseen
    else NextStanding(StandingAfter(attempts[..|attempts| - 1], id, key), attempts[|attempts| - 1], id, key)
  }

  // Attempt `i` observes at `times[i]`, and time does not run backwards.
  ghost predicate Attempted(attempts: seq<Attempt>, times: seq<int>, id: FindingId, key: Key) {
    && |times| == |attempts|
    && (forall i | 0 <= i < |attempts| ::
          WithinCalls(attempts[i]) && SightedAt(attempts[i].cycle.findings, id, key, times[i]))
    && (forall i, j | 0 <= i <= j < |times| :: times[i] <= times[j])
  }

  lemma LaterStands(s: Store, id: FindingId, key: Key, st: Standing, lastSeen: int, at: int)
    requires Stands(s, id, key, st, lastSeen) && lastSeen <= at
    ensures Stands(s, id, key, st, at)
  {}

  lemma {:induction false} RunStands(attempts: seq<Attempt>, times: seq<int>, id: FindingId, key: Key, now: int)
    requires Attempted(attempts, times, id, key) && forall i | 0 <= i < |times| :: times[i] <= now
    ensures Stands(RunAttempts(EMPTY_STORE, attempts), id, key, StandingAfter(attempts, id, key), now)
  {
    if attempts != [] {
      var n := |attempts| - 1;
      var s, st := RunAttempts(EMPTY_STORE, attempts[..n]), StandingAfter(attempts[..n], id, key);
      RunStands(attempts[..n], times[..n], id, key, times[n]);
      if attempts[n].Commit? {
        CommitStands(s, attempts[n].cycle, id, key, st, times[n], times[n]);
        LaterStands(CycleBody(s, attempts[n].cycle), id, key, NextStanding(st, attempts[n], id, key), times[n], now);
      } else {
        FailureStands(s, attempts[n], id, key, st, times[n]);
        LaterStands(AfterAttempt(s, attempts[n]), id, key, NextStanding(st, attempts[n], id, key), times[n], now);
      }
    }
  }

  /** After any mixture of committed and failed cycles a finding is known, active
      or resolved, and its counter stands, exactly as the standing says. A failed
      cycle counts, except that it never resolves: the third absence, if its
      cycle fails, starts the count again. */
  lemma HysteresisWithFailures(attempts: seq<Attempt>, times: seq<int>, id: FindingId, key: Key)
    requires Attempted(attempts, times, id, key)
    ensures var s, st := RunAttempts(EMPTY_STORE, attempts), StandingAfter(attempts, id, key);
            var known := Known(s.tables.findings, id);
            && (known.Some? <==> !st.Unseen?)
            && (known.Some? ==> (known.value.lifecycle == ResolvedFinding <==> st.Retired?))
            && (st.Counting? ==> Absences(s.absent, id) == st.absences <= 2)
  {
    RunStands(attempts, times, id, key, if times == [] then 0 else times[|times| - 1]);
  }
}

/** What a stored finding says: which save its content comes from, and since when
    it has been seen, after one save and over whole runs
    (crates/rieko-storage/src/storage.rs, `save_finding`). */
module Sightings {
  import opened Wrappers
  import opened Findings
  import opened StoreModel
  import opened FindingCycles
  import opened FindingLifecycle
  import opened MixedCycles

  // ---- One save ----

  // The identity of a finding, spelled out.
  predicate Agree(a: Finding, b: Finding) {
    && a.detector == b.detector && a.detectorVersion == b.detectorVersion
    && a.Network() == b.Network() && a.node == b.node && a.channel == b.channel
  }

  predicate SameContent(a: Finding, b: Finding) {
    && a.severity == b.severity && a.evidence == b.evidence && a.provenance == b.provenance
    && a.explanation == b.explanation && a.schemaVersion == b.schemaVersion
    && a.timestamp == b.timestamp && a.lastSeenAt == b.lastSeenAt
  }

  lemma {:induction false} FirstSeenIsLeast(fs: seq<Finding>, f: Finding)
    ensures FirstSeen(fs, f) <= f.firstSeenAt
    ensures forall g | g in fs && Agree(g, f) :: FirstSeen(fs, f) <= g.firstSeenAt
    ensures FirstSeen(fs, f) == f.firstSeenAt || exists g :: g in fs && Agree(g, f) && g.firstSeenAt == FirstSeen(fs, f)
  {
    if fs != [] {
      FirstSeenIsLeast(fs[1..], f);
      assert fs == [fs[0]] + fs[1..];
      var rest := FirstSeen(fs[1..], f);
      if FirstSeen(fs, f) == rest {
        if rest != f.firstSeenAt {
          var g :| g in fs[1..] && Agree(g, f) && g.firstSeenAt == rest;
          assert g in fs;
        }
      } else {
        assert fs[0] in fs && Agree(fs[0], f);
      }
    }
  }

  /** A save leaves its own content, unless what is stored was seen later; then
      it changes nothing but the first sighting. */
  lemma SaveKeepsTheLatestContent(s: Store, f: Finding)
    requires UniqueIds(s.tables.findings)
    ensures var before, after := Known(s.tables.findings, f.id), Known(Saved(s, f).tables.findings, f.id);
            && after.Some?
            && (before.None? ==>
                  after.value == f.(firstSeenAt := after.value.firstSeenAt, lifecycle := ActiveFinding))
            && (before.Some? && f.lastSeenAt < before.value.lastSeenAt ==>
                  after.value == before.value.(firstSeenAt := after.value.firstSeenAt))
            && (before.Some? && f.lastSeenAt >= before.value.lastSeenAt ==>
                  && SameContent(after.value, f) && after.value.lifecycle == ActiveFinding
                  && after.value.id == before.value.id && after.value.detector == before.value.detector
                  && after.value.detectorVersion == before.value.detectorVersion
                  && after.value.node == before.value.node && after.value.channel == before.value.channel)
  {
    SavingPointwise(s, f, f.id);
  }

  /** The first sighting is the least of the new one, the stored one and those
      stored for findings of the same detector, version, network, node and channel. */
  lemma SaveKeepsTheFirstSighting(s: Store, f: Finding)
    requires UniqueIds(s.tables.findings)
    ensures var before, after := Known(s.tables.findings, f.id), Known(Saved(s, f).tables.findings, f.id);
            && after.Some?
            && after.value.firstSeenAt <= f.firstSeenAt
            && (before.Some? ==> after.value.firstSeenAt <= before.value.firstSeenAt)
            && (forall g | g in s.tables.findings && Agree(g, f) :: after.value.firstSeenAt <= g.firstSeenAt)
            && (|| after.value.firstSeenAt == f.firstSeenAt
                || (before.Some? && after.value.firstSeenAt == before.value.firstSeenAt)
                || exists g :: g in s.tables.findings && Agree(g, f) && g.firstSeenAt == after.value.firstSeenAt)
  {
    SavingPointwise(s, f, f.id);
    FirstSeenIsLeast(s.tables.findings, f);
  }

  // ---- Whole runs ----

  // The sightings that committed cycles saved, in order.
  function SightingsOf(attempts: seq<Attempt>): seq<Finding> {
    if attempts == [] then []
    else
      SightingsOf(attempts[..|attempts| - 1]) +
      (if attempts[|attempts| - 1].Commit? then attempts[|attempts| - 1].cycle.findings else [])
  }

  // Identities name detector, version, network, node and channel, and nothing else.
  ghost predicate Identified(seen: seq<Finding>) {
    forall i, j | 0 <= i < |seen| && 0 <= j < |seen| :: seen[i].id == seen[j].id <==> Agree(seen[i], seen[j])
  }

  // The sighting that was seen last, and of those the one saved last.
  ghost predicate LatestAt(seen: seq<Finding>, id: FindingId, i: nat) {
    && i < |seen| && seen[i].id == id
    && (forall j | 0 <= j < |seen| && seen[j].id == id :: seen[j].lastSeenAt <= seen[i].lastSeenAt)
    && (forall j | i < j < |seen| && seen[j].id == id :: seen[j].lastSeenAt < seen[i].lastSeenAt)
  }

  ghost predicate EarliestAt(seen: seq<Finding>, id: FindingId, i: nat) {
    && i < |seen| && seen[i].id == id
    && (forall j | 0 <= j < |seen| && seen[j].id == id :: seen[i].firstSeenAt <= seen[j].firstSeenAt)
  }

  // The stored finding tells its sightings.
  ghost predicate Tells(f: Finding, seen: seq<Finding>, id: FindingId) {
    && f.id == id
    && (exists i: nat :: LatestAt(seen, id, i) && SameContent(f, seen[i]) && Agree(f, seen[i]))
    && (exists i: nat :: EarliestAt(seen, id, i) && f.firstSeenAt == seen[i].firstSeenAt)
  }

  ghost predicate Unseen(seen: seq<Finding>, id: FindingId) {
    forall i | 0 <= i < |seen| :: seen[i].id != id
  }

  ghost predicate TellsOf(fs: seq<Finding>, seen: seq<Finding>, id: FindingId) {
    match Known(fs, id)
    case None => Unseen(seen, id)
    case Some(f) => Tells(f, seen, id)
  }

  ghost predicate AllTell(fs: seq<Finding>, seen: seq<Finding>) {
    UniqueIds(fs) && forall id :: TellsOf(fs, seen, id)
  }

  lemma LatestPush(seen: seq<Finding>, f: Finding, i: nat)
    requires LatestAt(seen, f.id, i)
    ensures LatestAt(seen + [f], f.id, if f.lastSeenAt >= seen[i].lastSeenAt then |seen| else i)
  {}

  lemma EarliestPush(seen: seq<Finding>, f: Finding, i: nat)
    requires EarliestAt(seen, f.id, i)
    ensures EarliestAt(seen + [f], f.id, if f.firstSeenAt < seen[i].firstSeenAt then |seen| else i)
  {}

  lemma FirstOfItsId(seen: seq<Finding>, f: Finding)
    requires Unseen(seen, f.id)
    ensures LatestAt(seen + [f], f.id, |seen|) && EarliestAt(seen + [f], f.id, |seen|)
  {}

  lemma OtherPush(seen: seq<Finding>, f: Finding, id: FindingId, g: Finding)
    requires f.id != id
    ensures Unseen(seen, id) ==> Unseen(seen + [f], id)
    ensures Tells(g, seen, id) ==> Tells(g, seen + [f], id)
  {
    var more := seen + [f];
    if Tells(g, seen, id) {
      var i: nat :| LatestAt(seen, id, i) && SameContent(g, seen[i]) && Agree(g, seen[i]);
      assert LatestAt(more, id, i) && more[i] == seen[i];
      var j: nat :| EarliestAt(seen, id, j) && g.firstSeenAt == seen[j].firstSeenAt;
      assert EarliestAt(more, id, j) && more[j] == seen[j];
    }
  }

  // A stored finding that agrees with a sighting is the one stored under its id.
  lemma AgreeingIsKnown(fs: seq<Finding>, seen: seq<Finding>, f: Finding, g: Finding)
    requires AllTell(fs, seen) && Identified(seen + [f]) && g in fs && Agree(g, f)
    ensures g.id == f.id
  {
    var at :| 0 <= at < |fs| && fs[at] == g;
    KnownAt(fs, at);
    assert TellsOf(fs, seen, g.id);
    var i: nat :| LatestAt(seen, g.id, i) && SameContent(g, seen[i]) && Agree(g, seen[i]);
    assert (seen + [f])[i] == seen[i] && (seen + [f])[|seen|] == f;
  }

  // The first sighting after a save, when identities identify.
  lemma FirstSightingAfter(s: Store, seen: seq<Finding>, f: Finding)
    requires AllTell(s.tables.findings, seen) && Identified(seen + [f])
    ensures var before, after := Known(s.tables.findings, f.id), Known(Saved(s, f).tables.findings, f.id);
            && after.Some?
            && after.value.firstSeenAt ==
                 if before.Some? && before.value.firstSeenAt <= f.firstSeenAt then before.value.firstSeenAt
                 else f.firstSeenAt
  {
    var fs := s.tables.findings;
    SaveKeepsTheFirstSighting(s, f);
    forall g | g in fs && Agree(g, f)
      ensures Known(fs, f.id) == Some(g)
    {
      AgreeingIsKnown(fs, seen, f, g);
      var at :| 0 <= at < |fs| && fs[at] == g;
      KnownAt(fs, at);
    }
  }

  lemma FirstSaveTells(s: Store, seen: seq<Finding>, f: Finding)
    requires AllTell(s.tables.findings, seen) && Identified(seen + [f]) && Known(s.tables.findings, f.id).None?
    ensures TellsOf(Saved(s, f).tables.findings, seen + [f], f.id)
  {
    assert TellsOf(s.tables.findings, seen, f.id);
    SaveKeepsTheLatestContent(s, f);
    FirstSightingAfter(s, seen, f);
    FirstOfItsId(seen, f);
    assert (seen + [f])[|seen|] == f;
  }

  lemma LaterContent(before: Finding, after: Finding, seen: seq<Finding>, f: Finding)
    requires Tells(before, seen, f.id) && Identified(seen + [f])
    requires if f.lastSeenAt < before.lastSeenAt then after == before.(firstSeenAt := after.firstSeenAt)
             else SameContent(after, f) && after.node == before.node && after.channel == before.channel &&
                  after.detector == before.detector && after.detectorVersion == before.detectorVersion
    ensures exists i: nat :: LatestAt(seen + [f], f.id, i) && SameContent(after, (seen + [f])[i]) &&
                             Agree(after, (seen + [f])[i])
  {
    var more := seen + [f];
    var i: nat :| LatestAt(seen, f.id, i) && SameContent(before, seen[i]) && Agree(before, seen[i]);
    LatestPush(seen, f, i);
    assert more[i] == seen[i] && more[|seen|] == f && more[i].id == more[|seen|].id;
    var latest := if f.lastSeenAt >= seen[i].lastSeenAt then |seen| else i;
    assert SameContent(after, more[latest]) && Agree(after, more[latest]);
  }

  lemma LaterFirst(before: Finding, after: Finding, seen: seq<Finding>, f: Finding)
    requires Tells(before, seen, f.id)
    requires after.firstSeenAt == if before.firstSeenAt <= f.firstSeenAt then before.firstSeenAt else f.firstSeenAt
    ensures exists i: nat :: EarliestAt(seen + [f], f.id, i) && after.firstSeenAt == (seen + [f])[i].firstSeenAt
  {
    var j: nat :| EarliestAt(seen, f.id, j) && before.firstSeenAt == seen[j].firstSeenAt;
    EarliestPush(seen, f, j);
    assert (seen + [f])[j] == seen[j] && (seen + [f])[|seen|] == f;
  }

  lemma LaterSaveTells(s: Store, seen: seq<Finding>, f: Finding)
    requires AllTell(s.tables.findings, seen) && Identified(seen + [f]) && Known(s.tables.findings, f.id).Some?
    ensures TellsOf(Saved(s, f).tables.findings, seen + [f], f.id)
  {
    var before, after := Known(s.tables.findings, f.id).value, Known(Saved(s, f).tables.findings, f.id);
    assert TellsOf(s.tables.findings, seen, f.id);
    SaveKeepsTheLatestContent(s, f);
    FirstSightingAfter(s, seen, f);
    LaterContent(before, after.value, seen, f);
    LaterFirst(before, after.value, seen, f);
  }

  lemma SaveTells(s: Store, seen: seq<Finding>, f: Finding)
    requires AllTell(s.tables.findings, seen) && Identified(seen + [f])
    ensures AllTell(Saved(s, f).tables.findings, seen + [f])
  {
    var fs := s.tables.findings;
    SavingPointwise(s, f, f.id);
    forall id
      ensures TellsOf(Saved(s, f).tables.findings, seen + [f], id)
    {
      assert TellsOf(fs, seen, id);
      if id == f.id {
        if Known(fs, id).None? {
          FirstSaveTells(s, seen, f);
        } else {
          LaterSaveTells(s, seen, f);
        }
      } else {
        SavingPointwise(s, f, id);
        if Known(fs, id).Some? {
          OtherPush(seen, f, id, Known(fs, id).value);
        }
      }
    }
  }

  lemma IdentifiedPrefix(seen: seq<Finding>, n: nat)
    requires Identified(seen) && n <= |seen|
    ensures Identified(seen[..n])
  {}

  lemma {:induction false} SavesTell(s: Store, seen: seq<Finding>, fs: seq<Finding>)
    requires AllTell(s.tables.findings, seen) && Identified(seen + fs)
    ensures AllTell(AfterSaves(s, fs).tables.findings, seen + fs)
  {
    if fs == [] {
      assert seen + fs == seen;
    } else {
      var n := |fs| - 1;
      assert (seen + fs)[..|seen| + n] == seen + fs[..n] && seen + fs == (seen + fs[..n]) + [fs[n]];
      IdentifiedPrefix(seen + fs, |seen| + n);
      SavesTell(s, seen, fs[..n]);
      SaveTells(AfterSaves(s, fs[..n]), seen + fs[..n], fs[n]);
    }
  }

  // Resolving touches the lifecycle only.
  lemma ResolvingTells(s: Store, scope: FindingCycleScope, seen: seq<Finding>)
    requires AllTell(s.tables.findings, seen)
    ensures AllTell(StoreModel.Resolved(s, scope).tables.findings, seen)
  {
    var fs := s.tables.findings;
    ResolvingKeepsIds(fs, s.absent, scope);
    forall id
      ensures TellsOf(StoreModel.Resolved(s, scope).tables.findings, seen, id)
    {
      ResolvingPointwise(fs, s.absent, scope, id);
      assert TellsOf(fs, seen, id);
      if Known(fs, id).Some? {
        LifecycleTellsNothing(Known(fs, id).value, ResolvedFinding, seen, id);
      }
    }
  }

  lemma LifecycleTellsNothing(f: Finding, state: Findings.FindingLifecycle,
                              seen: seq<Finding>, id: FindingId)
    requires Tells(f, seen, id)
    ensures Tells(f.(lifecycle := state), seen, id)
  {
    var i: nat :| LatestAt(seen, id, i) && SameContent(f, seen[i]) && Agree(f, seen[i]);
    assert SameContent(f.(lifecycle := state), seen[i]) && Agree(f.(lifecycle := state), seen[i]);
  }

  lemma {:induction false} RunTells(attempts: seq<Attempt>)
    requires forall i | 0 <= i < |attempts| :: WithinCalls(attempts[i])
    requires Identified(SightingsOf(attempts))
    ensures AllTell(RunAttempts(EMPTY_STORE, attempts).tables.findings, SightingsOf(attempts))
  {
    if attempts != [] {
      var init, last := attempts[..|attempts| - 1], attempts[|attempts| - 1];
      var s, seen := RunAttempts(EMPTY_STORE, init), SightingsOf(init);
      assert SightingsOf(attempts)[..|seen|] == seen;
      IdentifiedPrefix(SightingsOf(attempts), |seen|);
      RunTells(init);
      if last.Commit? {
        ResolvingTells(s, last.cycle.scope, seen);
        SavesTell(Synced(StoreModel.Resolved(s, last.cycle.scope)), seen, last.cycle.findings);
      } else {
        assert SightingsOf(attempts) == seen;
      }
    }
  }

  lemma LatestIsOne(seen: seq<Finding>, id: FindingId, i: nat, j: nat)
    requires LatestAt(seen, id, i) && LatestAt(seen, id, j)
    ensures i == j
  {}

  lemma WhatTellingMeans(f: Finding, seen: seq<Finding>, id: FindingId)
    requires Tells(f, seen, id)
    ensures exists g :: g in seen && g.id == id && g.firstSeenAt == f.firstSeenAt
    ensures forall g | g in seen && g.id == id :: f.firstSeenAt <= g.firstSeenAt
    ensures forall i: nat | LatestAt(seen, id, i) :: SameContent(f, seen[i])
  {
    var l: nat :| LatestAt(seen, id, l) && SameContent(f, seen[l]) && Agree(f, seen[l]);
    var e: nat :| EarliestAt(seen, id, e) && f.firstSeenAt == seen[e].firstSeenAt;
    assert seen[e] in seen;
    forall i: nat | LatestAt(seen, id, i)
      ensures i == l
    {
      LatestIsOne(seen, id, i, l);
    }
  }

  /** After any mixture of committed and failed cycles, what is stored under an
      identity is the severity, evidence and other content of its latest committed
      sighting, first seen when the earliest of them was. */
  lemma StoredFindingTellsItsSightings(attempts: seq<Attempt>, id: FindingId)
    requires forall i | 0 <= i < |attempts| :: WithinCalls(attempts[i])
    requires Identified(SightingsOf(attempts))
    ensures var known, seen := Known(RunAttempts(EMPTY_STORE, attempts).tables.findings, id), SightingsOf(attempts);
            && (known.None? <==> forall f | f in seen :: f.id != id)
            && (forall i: nat | known.Some? && LatestAt(seen, id, i) :: SameContent(known.value, seen[i]))
            && (forall f | known.Some? && f in seen && f.id == id :: known.value.firstSeenAt <= f.firstSeenAt)
            && (known.Some? ==> exists f :: f in seen && f.id == id && f.firstSeenAt == known.value.firstSeenAt)
  {
    var known := Known(RunAttempts(EMPTY_STORE, attempts).tables.findings, id);
    RunTells(attempts);
    assert TellsOf(RunAttempts(EMPTY_STORE, attempts).tables.findings, SightingsOf(attempts), id);
    if known.Some? {
      WhatTellingMeans(known.value, SightingsOf(attempts), id);
    }
  }
}

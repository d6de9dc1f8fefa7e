/** Persisting one detector cycle as a transaction (crates/rieko-cli/src/agent.rs)
    and what whole runs of cycles do to a finding and its recommendations. */
module FindingCycles {
  import opened Wrappers
  import opened Findings
  import opened Detectors
  import opened StoreModel
  import opened Storage

  // How a cycle ends: the webhook worker marks its delivery, the pollers record success.
  datatype Finish = MarkProcessed(deliveryId: string) | RecordSuccess

  function AfterSaves(s: Store, fs: seq<Finding>): Store {
    if fs == [] then s else Saved(AfterSaves(s, fs[..|fs| - 1]), fs[|fs| - 1])
  }

  // The first `k` storage calls of a cycle: resolve, sync, then the saves.
  function AfterCalls(s: Store, cycle: DetectorCycle, k: nat): Store
    requires k <= |cycle.findings| + 2
  {
    if k == 0 then s
    else if k == 1 then StoreModel.Resolved(s, cycle.scope)
    else AfterSaves(Synced(StoreModel.Resolved(s, cycle.scope)), cycle.findings[..k - 2])
  }

  function CycleBody(s: Store, cycle: DetectorCycle): Store {
    AfterSaves(Synced(StoreModel.Resolved(s, cycle.scope)), cycle.findings)
  }

  predicate CanFinish(s: Store, finish: Finish) {
    finish.MarkProcessed? ==> finish.deliveryId in s.tables.webhookEvents
  }

  function Finished(s: Store, finish: Finish, now: int): Store
    requires CanFinish(s, finish)
  {
    match finish
    case MarkProcessed(id) => s.(tables := Marked(s.tables, id, now))
    case RecordSuccess =>
      s.(tables := s.tables.(operationalState := Some(OperationalState(Some(now), Some(now), Some(now)))))
  }

  // What a failed cycle leaves: the tables as they were, the absence counters as they became.
  function AfterFailure(s: Store, cycle: DetectorCycle, k: nat): Store
    requires k <= |cycle.findings| + 2
  {
    Store(s.tables, AfterCalls(s, cycle, k).absent, None)
  }

  // The first finding that no save accepts.
  function FirstUnknown(fs: seq<Finding>): (n: nat)
    ensures n <= |fs| && (n < |fs| ==> !ValidSchema(fs[n])) && forall i | 0 <= i < n :: ValidSchema(fs[i])
  {
    if fs == [] then 0
    else
      var n := FirstUnknown(fs[..|fs| - 1]);
      if n < |fs| - 1 || !ValidSchema(fs[|fs| - 1]) then n else n + 1
  }

  // How many saves take effect when the backend refuses save number `fault`.
  function SavesDone(fs: seq<Finding>, fault: nat): (n: nat)
    ensures n <= |fs|
  {
    if fault < FirstUnknown(fs) then fault else FirstUnknown(fs)
  }

  // How many calls of the cycle take effect when the backend refuses call number `fault`.
  function CompletedCalls(cycle: DetectorCycle, fault: nat): (n: nat)
    ensures n <= |cycle.findings| + 2
  {
    if fault < 2 then fault else 2 + SavesDone(cycle.findings, fault - 2)
  }

  /** The persister. `fault` is the number of the storage call that the backend
      refuses: the cycle commits if it lies beyond the commit, every finding has a
      known schema and the delivery exists; otherwise every table is restored, and
      the absence counters stay as the calls before the failure left them. */
  method PersistCycle(storage: MemoryStorage, cycle: DetectorCycle, finish: Finish, now: int, fault: nat)
      returns (r: Result<(), StorageError>)
    modifies storage
    ensures r.Ok? <==> old(storage.transactionSnapshot).None? && fault > |cycle.findings| + 3 &&
                       (forall f | f in cycle.findings :: ValidSchema(f)) &&
                       CanFinish(old(storage.View()), finish)
    ensures old(storage.transactionSnapshot).Some? ==> storage.View() == old(storage.View())
    ensures r.Ok? ==> CanFinish(CycleBody(old(storage.View()), cycle), finish) &&
                      storage.View() == Finished(CycleBody(old(storage.View()), cycle), finish, now)
    ensures r.Ok? && finish.RecordSuccess? ==>
              storage.operationalState == Some(OperationalState(Some(now), Some(now), Some(now)))
    ensures r.Err? && old(storage.transactionSnapshot).None? ==>
              storage.View() == AfterFailure(old(storage.View()), cycle, CompletedCalls(cycle, fault))
  {
    ghost var before := storage.View();
    var begun := storage.BeginTransaction();
    if begun.Err? {
      return begun;
    }
    r := CycleCalls(storage, cycle, finish, now, fault);
    CallsIgnoreTransaction(before, cycle);
    if r.Ok? && fault == |cycle.findings| + 3 {
      r := Err(Backend(CallRefused));
    }
    if r.Ok? {
      var committed := storage.CommitTransaction();
      FinishIgnoresTransaction(CycleBody(before, cycle), finish, now, Some(before.tables));
    } else {
      var _ := storage.RollbackTransaction();
    }
  }

  // The closure between begin and commit, stopping at the first call that fails.
  method CycleCalls(storage: MemoryStorage, cycle: DetectorCycle, finish: Finish, now: int, fault: nat)
      returns (r: Result<(), StorageError>)
    modifies storage
    ensures r.Ok? <==> fault > |cycle.findings| + 2 && (forall f | f in cycle.findings :: ValidSchema(f)) &&
                       CanFinish(old(storage.View()), finish)
    ensures r.Ok? ==> CanFinish(CycleBody(old(storage.View()), cycle), finish) &&
                      storage.View() == Finished(CycleBody(old(storage.View()), cycle), finish, now)
    ensures r.Err? ==> storage.View() == AfterCalls(old(storage.View()), cycle, CompletedCalls(cycle, fault))
    ensures storage.View().open == old(storage.View()).open
    ensures storage.View().absent == AfterCalls(old(storage.View()), cycle, CompletedCalls(cycle, fault)).absent
  {
    r := StoreFindings(storage, cycle, fault);
    if r.Err? {
      return;
    }
    assert cycle.findings[..|cycle.findings|] == cycle.findings;
    if fault == |cycle.findings| + 2 {
      return Err(Backend(CallRefused));
    }
    r := FinishCycle(storage, finish, now);
  }

  // Resolve, sync, then the saves.
  method StoreFindings(storage: MemoryStorage, cycle: DetectorCycle, fault: nat) returns (r: Result<(), StorageError>)
    modifies storage
    ensures r.Ok? <==> fault > |cycle.findings| + 1 && forall f | f in cycle.findings :: ValidSchema(f)
    ensures r.Ok? ==> CompletedCalls(cycle, fault) == |cycle.findings| + 2
    ensures storage.View() == AfterCalls(old(storage.View()), cycle, CompletedCalls(cycle, fault))
    ensures storage.View().open == old(storage.View()).open
    ensures storage.webhookEvents == old(storage.webhookEvents)
  {
    if fault == 0 {
      return Err(Backend(CallRefused));
    }
    storage.ResolveFindingsForScope(cycle.scope);
    if fault == 1 {
      return Err(Backend(CallRefused));
    }
    storage.SyncRecommendationLifecycles();
    r := SaveAll(storage, cycle.findings, fault - 2);
    assert CompletedCalls(cycle, fault) - 2 == SavesDone(cycle.findings, fault - 2);
  }

  // The last call before the commit.
  method FinishCycle(storage: MemoryStorage, finish: Finish, now: int) returns (r: Result<(), StorageError>)
    modifies storage
    ensures r.Ok? <==> CanFinish(old(storage.View()), finish)
    ensures r.Ok? ==> storage.View() == Finished(old(storage.View()), finish, now)
    ensures r.Err? ==> storage.View() == old(storage.View())
  {
    match finish
    case MarkProcessed(id) =>
      r := storage.MarkWebhookEventProcessed(id, now);
    case RecordSuccess =>
      storage.RecordCycleSuccess(now);
      r := Ok(());
  }

  lemma SavesPush(s: Store, fs: seq<Finding>, i: nat)
    requires i < |fs|
    ensures AfterSaves(s, fs[..i + 1]) == Saved(AfterSaves(s, fs[..i]), fs[i])
  {
    assert fs[..i + 1][..i] == fs[..i];
  }

  method SaveAll(storage: MemoryStorage, fs: seq<Finding>, fault: nat)
      returns (r: Result<(), StorageError>)
    modifies storage
    ensures storage.View() == AfterSaves(old(storage.View()), fs[..SavesDone(fs, fault)])
    ensures r.Ok? <==> fault >= |fs| && forall f | f in fs :: ValidSchema(f)
    ensures r.Ok? ==> SavesDone(fs, fault) == |fs|
    ensures storage.View().open == old(storage.View()).open && storage.webhookEvents == old(storage.webhookEvents)
  {
    for i := 0 to |fs|
      invariant storage.View() == AfterSaves(old(storage.View()), fs[..i])
      invariant i <= fault && i <= FirstUnknown(fs)
      invariant storage.View().open == old(storage.View()).open && storage.webhookEvents == old(storage.webhookEvents)
    {
      SavesPush(old(storage.View()), fs, i);
      if fault == i {
        return Err(Backend(CallRefused));
      }
      var saved := storage.SaveFinding(fs[i]);
      if saved.Err? {
        return saved;
      }
    }
    r := Ok(());
  }

  lemma FinishIgnoresTransaction(s: Store, finish: Finish, now: int, open: Option<Tables>)
    requires CanFinish(s, finish)
    ensures Finished(s.(open := open), finish, now) == Finished(s, finish, now).(open := open)
  {}

  // Saving findings touches nothing but findings and counters.
  lemma {:induction false} SavesKeepTransaction(s: Store, fs: seq<Finding>)
    ensures AfterSaves(s, fs).open == s.open
    ensures AfterSaves(s, fs).tables == s.tables.(findings := AfterSaves(s, fs).tables.findings)
  {
    if fs != [] {
      SavesKeepTransaction(s, fs[..|fs| - 1]);
    }
  }

  lemma {:induction false} SavesIgnoreTransaction(s: Store, fs: seq<Finding>, open: Option<Tables>)
    ensures AfterSaves(s.(open := open), fs) == AfterSaves(s, fs).(open := open)
  {
    if fs != [] {
      SavesIgnoreTransaction(s, fs[..|fs| - 1], open);
    }
  }

  lemma CallsIgnoreTransaction(s: Store, cycle: DetectorCycle)
    ensures CycleBody(Begun(s), cycle) == CycleBody(s, cycle).(open := Some(s.tables))
    ensures CycleBody(s, cycle).open == s.open
    ensures CycleBody(s, cycle).tables.webhookEvents == s.tables.webhookEvents
    ensures forall k | 0 <= k <= |cycle.findings| + 2 ::
              AfterCalls(Begun(s), cycle, k) == AfterCalls(s, cycle, k).(open := Some(s.tables))
  {
    var synced := Synced(StoreModel.Resolved(s, cycle.scope));
    SavesIgnoreTransaction(synced, cycle.findings, Some(s.tables));
    SavesKeepTransaction(synced, cycle.findings);
    forall k | 2 <= k <= |cycle.findings| + 2
      ensures AfterCalls(Begun(s), cycle, k) == AfterCalls(s, cycle, k).(open := Some(s.tables))
    {
      SavesIgnoreTransaction(synced, cycle.findings[..k - 2], Some(s.tables));
    }
  }
}

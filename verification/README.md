# Rieko, modelled and verified in Dafny

Rieko watches a Lightning node: it keeps a graph of channels, runs detectors over
what it observes, stores findings and recommendations, projects simulations of
liquidity redistributions and sends alerts. This project models the parts of it
whose correctness spans several functions or whole runs, in the form the source
gives them, and proves what they promise.

Objects that the source updates in place are classes here (`MemoryStorage`,
`InMemoryGraph`, the webhook `Worker`, the deduplicating alert sink, the rate
limiter, the hasher), and their methods are proved against functions on the values
they hold. The theorems are about those functions and about runs of them.

- `CheapestRoute`, `RouteFees`, `LiveGraph`: Dijkstra over a channel index that upserts
  maintain incrementally, with saturating fees, lazy deletion and the predecessor
  walk-back; and its costs in plain arithmetic.
- `StoreModel`, `Storage`, `Retention`: the storage backend, its transactions, the
  webhook queue, simulation records and snapshot pruning.
- `Detectors`, `SettlementFindings`: the settlement detector, and what it finds in the
  terms of the window's events and the graph's channels.
- `FindingCycles`, `FindingLifecycle`, `MixedCycles`, `Sightings`, `LifecycleRuns`: the
  transaction that persists a detector cycle, three-cycle hysteresis, also over runs in
  which cycles fail, what a stored finding says about its sightings, and concrete runs
  where it goes wrong.
- `WebhookWorker`, `WebhookProtocol`, `WebhookOrder`: the worker that drains the queue,
  the whole protocol as a state machine of concurrent deliveries, wake-ups, refused
  cycles, crashes and restarts, and when a restart rebuilds the live window.
- `Redistribution`, `ValidInputs`: the redistribution model, and which inputs validate
  and what is reported in the terms of balances and capacities.
- `SimulationApp`, `ResolvedInputs`, `SimulationRuns`, `SimulationVerdicts`,
  `SimulationRefusals`: the creation protocol, which rows a command resolves to, what
  every run of requests keeps true, how each is answered, and when one succeeds.
- `Identity`, `ActionIdentity`: the byte preimages of identities, the parsers that undo
  them, and when two actions share one.
- `AlertCooldown`, `RateLimiter`, `Telegram`: alert fatigue, the sliding window and
  the message text.
- `Wrappers`, `Sequences`, `Numbers`, `Ordering`, `Domain`, `Findings`: shared datatypes,
  slices of sequences, Rust's integer arithmetic and the order of strings.

`dafny verify dfyconfig.toml` checks everything.

## What the proofs turned up

The model follows the code. In these places the code differs from its own
comments, or falls short of the obvious promise; a lemma shows each.

- The route search minimises fees at the amount, but the total it reports leaves
  proportional fees out (`ReportedTotalIsBaseFees`, `ReportedTotalMissesProportionalFees`).
- Upserting an unchanged channel lists it twice; the search does not notice, the
  capacity total does (`TotalCapacityCountsListings`, `UpsertTwiceCountsTwice`).
- Upserting a channel under another owner leaves the old one in the index. A search
  from there leaves the channels at its first turn, and its walk-back need not stop
  (`UpsertKeepsIndexExactIff`, `UpsertKeepsTouchingIff`,
  `OldOwnerSearchLeavesTheChannels`, `ReassignedOwnerDefeatsTheWalkBack`).
- A request cancelled after it stored its event and before its wake-up leaves the
  delivery pending; a duplicate of it is acknowledged and wakes nobody
  (`StrandedIff`, `CancelledWakeStrandsAnAcknowledgedDelivery`).
- A failed cycle restores every table but not the absence counters, so failed cycles
  count towards the three absences; a failure at the third starts the count again
  (`FailureRestoresCountersIff`, `FailedCyclesCountAsAbsences`, `HysteresisWithFailures`).
- A finding seen again after two absences stays active but loses its recommendations
  (`ReturningFindingLosesItsRecommendation`, `ReturningRunLosesItsRecommendation`).
- The webhook worker's own settlement findings have no provenance, match no network
  scope and never resolve: one that two expired invoices raised outlives any number of
  complete cycles without it (`WorkerFindingsNeverResolve`, `CalmCyclesDoNotResolve`).
- An input refused as future-dated stays refused after its time has come
  (`TimelyRequestsSucceedIff`, `AskedTooEarlyOnce`).
- When the clock steps back between two acceptances, the window a restart rebuilds
  can differ from the live one; it does exactly when records are then processed out of
  queue order (`LiveOrderIff`, `ClockRegressionReordersTheRebuiltWindow`).
- A channel reserve above 2^64 millisatoshis wraps in the conversion, and projections
  then go below it (`SimulationRespectsReserves`, `WrappedReserveIsOverrun`).
- Pruning leaves snapshots newest first, while the readers of recent snapshots expect
  the opposite and then return the oldest (`AfterPruningReadsNewestIff`,
  `PruningMisreadsTwoRows`).
- The NUL-separated action preimage is shared by two actions when a finding id or a
  target hides a separated action type (`ActionCollidesIff`, `NulInTheFindingIdCollides`).
- A cooldown beyond the range of the signed millisecond clock becomes no cooldown
  (`CooldownIsHonouredIff`).
- The rate limiter reads the clock before it takes its lock; in another order six
  requests can pass within a second, exactly when a call is admitted into a span part
  of which was purged (`LimitExceededIff`, `LateLockExceedsTheLimit`).
- Every alert text that has to be cut loses its closing delimiter, and may end in a
  lone backslash (`CutTextNeverReadsBack`, `CutKeepsEscapesIff`).
- The retry backoff falls back to its base after 32 waits (`BackoffNeverShrinksIff`).

## Model

| member | source | states |
|---|---|---|
| CheapestRoute.FindPath | crates/rieko-graph/src/path.rs:59-124 | a route exactly when source is target or some walk has unsaturated cost; the route is connected, visits no node twice and costs no more than any walk; hops and total are base fees |
| CheapestRoute.ReconstructPath | crates/rieko-graph/src/path.rs:126-156 | the walk-back terminates at the root of the predecessor forest and returns exactly its path, with base fees per hop and their saturated sum |
| CheapestRoute.Top | crates/rieko-graph/src/path.rs:34-41 | the heap yields an entry no other is above: least cost, ties broken by the node's order |
| CheapestRoute.Expand | crates/rieko-graph/src/path.rs:81-121 | settling the least entry and exploring its channels keeps the whole search invariant and adds the node to the settled ones |
| CheapestRoute.RelaxChannel | crates/rieko-graph/src/path.rs:95-119 | relaxing one channel keeps the invariant, moves no settled label and leaves that channel relaxed |
| CheapestRoute.WalksAreBounded | crates/rieko-graph/src/path.rs:81-121 | every walk costs at least its settled end's label, or at least everything still in the heap |
| CheapestRoute.TreePathUndoesRelaxations | crates/rieko-graph/src/path.rs:112-117 | the predecessors of a labelled node lead back to the source at exactly the label's cost, zero-fee edges and self-loops included |
| CheapestRoute.TreePathIsSimple | crates/rieko-graph/src/path.rs:126-156 | each predecessor was settled earlier, so the path visits no node twice |
| CheapestRoute.NothingLeft | crates/rieko-graph/src/path.rs:123 | an empty heap means every walk to an unsettled target saturates |
| CheapestRoute.ReportedTotalIsBaseFees | crates/rieko-graph/src/path.rs:133-139 | the reported total never exceeds the minimised cost, and equals it exactly when no hop charges a proportional fee |
| RouteFees.CostIsBasePlusPartsPerMillion | crates/rieko-graph/src/path.rs:49-54 | a channel costs its base fee plus its parts per million of the amount, rounded down, both products and sums capped at 2^64 - 1 |
| RouteFees.FeeIsPartsPerMillion | crates/rieko-graph/src/path.rs:52 | the proportional fee is the one number between the bounds that rounding down leaves, and the capped product's otherwise |
| RouteFees.WalkCostIsTheSum | crates/rieko-graph/src/path.rs:108-109 | a walk costs the sum of what its channels charge, capped |
| RouteFees.CheaperParallelChannel | crates/rieko-graph/src/path.rs:59-156 | between two parallel channels the answer is the one of smaller base fee plus parts per million, and its base fee is reported; there is none only if both costs are capped |
| CheapestRoute.AnswerIgnoresMultiplicity | crates/rieko-graph/src/path.rs:90-119 | an index that lists the same ids, in whatever order and number, admits the same answers |
| LiveGraph.InMemoryGraph.UpsertChannel | crates/rieko-graph/src/store.rs:161-196 | the channel replaces what its id held; index and placeholder peer as a function of the old ones |
| LiveGraph.UpsertReplacesOneRecord | crates/rieko-graph/src/store.rs:194 | an upsert stores its channel whatever was there, and every other id is as before |
| LiveGraph.UpsertCountsListings | crates/rieko-graph/src/store.rs:163-192 | how often each node lists each channel after an upsert: once more for each end, from nothing at the replaced peer and the owner, and as before otherwise |
| LiveGraph.StoredChannelIsTheLastUpserted | crates/rieko-graph/src/store.rs:194-204 | over any upserts each id holds the last channel upserted under it |
| LiveGraph.InMemoryGraph.UpsertChannels | crates/rieko-graph/src/store.rs:198-204 | the upserts in sequence, and their number |
| LiveGraph.InMemoryGraph.FindCheapestPath | crates/rieko-graph/src/store.rs:77-85 | the search's promise over the live index |
| LiveGraph.InMemoryGraph.ChannelsForPeer | crates/rieko-graph/src/store.rs:135-144 | the stored channels of the listing, in its order and as often as listed; over an exact index, precisely those that touch the peer |
| LiveGraph.UpsertKeepsIndexExactIff | crates/rieko-graph/src/store.rs:161-196 | an upsert keeps the index exact if and only if the previous owner is still an end or was only the replaced peer |
| LiveGraph.IndexIsExactOverRuns | crates/rieko-graph/src/store.rs:161-204 | over every sequence of upserts with fixed owners the index lists, as a set, exactly each node's channels |
| LiveGraph.SearchIsOptimalOverTheChannels | crates/rieko-graph/src/store.rs:77-85 | after such a sequence the search is complete and optimal over the channels themselves |
| LiveGraph.UpsertKeepsTouchingIff | crates/rieko-graph/src/store.rs:161-196 | over an exact index the same condition says exactly when an upsert leaves the search its precondition |
| LiveGraph.OldOwnerSearchLeavesTheChannels | crates/rieko-graph/src/store.rs:163-192 | over any exact index, after an upsert that breaks it the first turn of a search from the old owner labels the new owner through a channel the old one is no end of, and the walk-back from that label goes on to another node |
| LiveGraph.ReassignedOwnerDefeatsTheWalkBack | crates/rieko-graph/src/store.rs:163-192 | after a channel is re-upserted under another owner, two turns of a search from the old one bring the target to the top with predecessors between which the walk-back alternates for ever |
| LiveGraph.TotalCapacityCountsListings | crates/rieko-graph/src/store.rs:88-98 | the total exceeds the peer's capacity unless no channel of positive capacity is listed twice |
| LiveGraph.UpsertTwiceCountsTwice | crates/rieko-graph/src/store.rs:185-192 | a second, identical upsert doubles the reported capacity |
| LiveGraph.ReportedTotalMissesProportionalFees | crates/rieko-graph/src/path.rs:137 | a concrete search all of whose answers cost more than the total they report |
| Storage.MemoryStorage.BeginTransaction | crates/rieko-storage/src/storage.rs:383-401 | snapshots all tables; refuses to nest |
| Storage.MemoryStorage.CommitTransaction | crates/rieko-storage/src/storage.rs:403-410 | drops the snapshot and keeps the tables |
| Storage.MemoryStorage.RollbackTransaction | crates/rieko-storage/src/storage.rs:412-429 | restores every snapshotted table; the absence counters stay |
| Storage.MemoryStorage.SaveFinding | crates/rieko-storage/src/storage.rs:431-468 | inserts or refreshes the finding, clears its counter, refuses unknown schemas; `SaveKeepsTheLatestContent` and `SaveKeepsTheFirstSighting` say what it leaves |
| Sightings.SaveKeepsTheLatestContent | crates/rieko-storage/src/storage.rs:449-466 | field by field: a save leaves its own severity, evidence, provenance, explanation, schema and times, unless what is stored was seen later; then only the first sighting can change |
| Sightings.SaveKeepsTheFirstSighting | crates/rieko-storage/src/storage.rs:433-451 | the first sighting is the least of the new, the stored, and those of findings of the same detector, version, network, node and channel |
| Sightings.StoredFindingTellsItsSightings | crates/rieko-storage/src/storage.rs:431-468 | over any mixture of committed and failed cycles, a stored finding has the content of its latest committed sighting and the first time of its earliest |
| Storage.MemoryStorage.ResolveFindingsForScope | crates/rieko-storage/src/storage.rs:470-494 | the loop counts one absence per active finding of a complete scope and resolves at the third |
| Storage.MemoryStorage.SyncRecommendationLifecycles | crates/rieko-storage/src/storage.rs:639-652 | exactly the recommendations of resolved findings become resolved |
| StoreModel.SyncResolvesExactly | crates/rieko-storage/src/storage.rs:639-652 | only their lifecycle changes, and no other recommendation, finding or table |
| Storage.MemoryStorage.SaveRecommendation | crates/rieko-storage/src/storage.rs:561-572 | inserts, or touches the time of the stored action and nothing else |
| Storage.MemoryStorage.EnqueueWebhookEvent | crates/rieko-storage/src/storage.rs:999-1023 | a known delivery keeps its event and its time |
| Storage.MemoryStorage.PendingWebhookEvents | crates/rieko-storage/src/storage.rs:1025-1042 | the first rows not processed, in the one order by acceptance time and id, at most the clamped limit |
| Storage.MemoryStorage.RecentProcessedWebhookEvents | crates/rieko-storage/src/storage.rs:1044-1064 | the last processed rows, oldest first |
| Storage.MemoryStorage.MarkWebhookEventProcessed | crates/rieko-storage/src/storage.rs:1066-1077 | marks the row, or fails on an unknown id and changes nothing |
| Storage.MemoryStorage.SaveSimulationV2 | crates/rieko-storage/src/storage.rs:846-873 | the identical record is accepted again, a changed one refused, a second projection of an input refused, anything else appended; nothing stored changes |
| Storage.MemoryStorage.SimulationV2ByInputHash | crates/rieko-storage/src/storage.rs:934-948 | the last of the latest replayable records of the hash |
| Storage.MemoryStorage.AppendSimulationEvent | crates/rieko-storage/src/storage.rs:950-963 | appends, or refuses a known event id |
| Storage.MemoryStorage.PruneChannelSnapshots | crates/rieko-storage/src/storage.rs:757-819 | the stored snapshots become exactly the pruned ones, ties and order included, and deleted plus kept is what there was |
| Storage.IncompleteScopeResolvesNothing | crates/rieko-storage/src/storage.rs:470-494 | an incomplete cycle neither counts nor resolves anything |
| StoreModel.ListingUnique | crates/rieko-storage/src/storage.rs:1025-1042 | a set of rows has one listing in queue order |
| StoreModel.Placed | crates/rieko-storage/src/storage.rs:1030-1038 | inserting a row by queue order keeps the order and exactly the rows |
| Retention.Prune | crates/rieko-storage/src/storage.rs:757-819 | a sub-multiset within every age cutoff and both caps, from which each snapshot dropped is too old or displaced by a full quota at least as new; each channel newest first; and the one sequence that channel contents, group order and total cap leave |
| Retention.PrunedByAgesAndCaps | crates/rieko-storage/src/retention.rs:45-54 | in the policy's own fields: what is kept is within the closed or the open age of its status and within both caps, counted; what is dropped is beyond that age or displaced by as many at least as new as a cap allows |
| Retention.PrunedExactlyIsOne | crates/rieko-storage/src/storage.rs:769-816 | that sequence is unique, ties included |
| Retention.WithoutTooOld | crates/rieko-storage/src/storage.rs:778-798 | in the order of the keys, each channel keeps its sorted snapshots at or after the cutoff of their status |
| Retention.Capped | crates/rieko-storage/src/storage.rs:799-812 | in the order of the keys, each channel keeps its newest up to the cap |
| Retention.RecentInOrder | crates/rieko-storage/src/storage.rs:787-797 | the loop over one group keeps what the policy's age for the status allows |
| Retention.OfByNewest | crates/rieko-storage/src/storage.rs:813-816 | the stable sort of everything is the stable sort of each channel |
| Retention.TotalPrunes | crates/rieko-storage/src/storage.rs:813-816 | the total cap keeps the promise, also for snapshots the channel cap had dropped before |
| Retention.SecondPruneDeletesNothing | crates/rieko-storage/src/storage.rs:757-819 | a second pass at the same time deletes nothing |
| Retention.PruningIsDetermined | crates/rieko-storage/src/storage.rs:757-819 | with distinct times, ages and caps leave exactly one set of snapshots to keep |
| Retention.AfterPruningReadsNewestIff | crates/rieko-storage/src/storage.rs:706-726 | after pruning, limited reads return the newest snapshots only if all times are equal |
| Retention.PruningMisreadsTwoRows | crates/rieko-storage/src/storage.rs:706-726 | two rows in time order read back newest first, and after a pass with the default policy the older one is read |
| Retention.ReadsNewestIff | crates/rieko-storage/src/storage.rs:706-726 | limited reads return the newest snapshots exactly when rows are held oldest first |
| Detectors.Run | crates/rieko-detectors/src/settlement.rs:78-352 | for any thresholds, the counting loop computes the finding that the window's tallies determine, with the producers of its provenance |
| SettlementFindings.FindsDegradationIff | crates/rieko-detectors/src/settlement.rs:90-149 | it finds something if and only if the failing events, counted, reach the minimum and the warning share of all that fail or settle |
| SettlementFindings.FindingIsCriticalIff | crates/rieko-detectors/src/settlement.rs:188-196 | critical exactly with the critical share, five failures, or a drained and an inactive local channel at once |
| SettlementFindings.FindingBlames | crates/rieko-detectors/src/settlement.rs:151-182 | the blamed channel is the local open one of least ratio below the bar, the first of several, or else the first inactive one, or else none |
| SettlementFindings.FindingCites | crates/rieko-detectors/src/settlement.rs:268-351 | its times, identity, source, producers, and the state of the channel it blames |
| SettlementFindings.EvidenceTellsTheWindow | crates/rieko-detectors/src/settlement.rs:198-266 | its evidence counts failures, settlements, drained and inactive channels, names invoices and stores once each in order, spans the window's times and names the root cause |
| Detectors.CheckFindings | crates/rieko-detectors/src/registry.rs:83-106 | passes if and only if every finding is well formed and no identity repeats; otherwise reports the first offence and of which kind |
| Detectors.Evaluate | crates/rieko-detectors/src/registry.rs:74-118 | with the detector's own node as scope it never fails and returns what was detected; without scope it fails; with another node it fails exactly when something is found |
| Detectors.FindingIgnoresEventOrder | crates/rieko-detectors/src/settlement.rs:90-196 | permuting the window changes neither identity, severity nor evidence |
| Detectors.ExpiryNeverSilences | crates/rieko-detectors/src/settlement.rs:164-277 | for any thresholds, one more expired invoice keeps it firing, on the same channel, with no lower severity |
| Detectors.OneMoreKeepsFiring | crates/rieko-detectors/src/settlement.rs:142-191 | whatever the minimum count and the rates, one more failure keeps the detector firing and does not lower the severity |
| Detectors.AscendingUnique | crates/rieko-detectors/src/settlement.rs:190-196 | sorting and deduplicating leaves one list per set |
| FindingCycles.PersistCycle | crates/rieko-cli/src/agent.rs:1204-1233 | commits the whole cycle or restores every table; the absence counters are those after as many calls as the refused call and the first unknown schema determine |
| FindingCycles.CycleCalls | crates/rieko-cli/src/agent.rs:1210-1218 | the calls between begin and commit, in order, up to the first that fails, and which that is |
| FindingLifecycle.HysteresisIsExact | crates/rieko-storage/src/storage.rs:431-494 | over any run of committed cycles a finding is resolved if and only if three complete cycles of its scope passed since it was seen; while active its counter is their number, at most two |
| FindingLifecycle.ResolvingPointwise | crates/rieko-storage/src/storage.rs:470-494 | what resolving does to one identity, whatever else is stored |
| FindingLifecycle.SavingPointwise | crates/rieko-storage/src/storage.rs:431-468 | what saving does to one identity, whatever else is stored |
| FindingLifecycle.RecommendationsFollowTheThirdAbsence | crates/rieko-storage/src/storage.rs:639-652 | a recommendation is resolved if and only if it was, or some cycle began with its finding resolved or resolved it |
| FindingLifecycle.ResolvedFindingsHaveResolvedRecommendations | crates/rieko-cli/src/agent.rs:1204-1233 | at every commit, resolved findings have only resolved recommendations |
| FindingLifecycle.FailureRestoresCountersIff | crates/rieko-storage/src/storage.rs:412-429 | a failed cycle restores all tables, and the absence counters exactly under a stated condition on what it had resolved and saved |
| FindingLifecycle.FailedCyclesCountAsAbsences | crates/rieko-storage/src/storage.rs:327-356 | two failed cycles and one committed resolve a finding that one committed absence would not |
| MixedCycles.HysteresisWithFailures | crates/rieko-storage/src/storage.rs:412-494 | over any mixture of committed and failed cycles, a finding is known, active or resolved, and its counter stands, exactly as a three-state standing says; a failure at the third absence starts the count again |
| FindingLifecycle.ReturningFindingLosesItsRecommendation | crates/rieko-cli/src/agent.rs:1211-1221 | after two absences, the cycle that sees the finding again leaves it active and its recommendations resolved |
| LifecycleRuns.ReturningRunLosesItsRecommendation | crates/rieko-cli/src/agent.rs:1210-1218 | a run from the empty store, seen, advised upon, missed twice and seen again, whose last cycle resolves the live recommendation of the active finding |
| FindingLifecycle.FirstSightingTracks | crates/rieko-storage/src/storage.rs:431-468 | one sighting in an empty store reaches the states those results start from |
| FindingLifecycle.WorkerFindingsNeverResolve | crates/rieko-cli/src/agent.rs:1140-1188 | over every graph, windows and times, no run of the webhook worker's cycles resolves a finding it raised |
| LifecycleRuns.WorkerFindingsAre | crates/rieko-cli/src/agent.rs:1140-1188 | what the worker finds is of its own network and node, first and last seen now, and without provenance |
| LifecycleRuns.WorkerFindingOutlivesItsAbsence | crates/rieko-cli/src/agent.rs:1140-1188 | a worker whose first window holds two expired invoices knows the finding, active, after any further windows |
| LifecycleRuns.CalmCyclesDoNotResolve | crates/rieko-cli/src/agent.rs:1140-1188 | the same when all further cycles, three or more, are complete, in the finding's scope and find nothing |
| FindingLifecycle.UnscopedFindingsNeverResolve | crates/rieko-storage/src/storage.rs:476-482 | a finding without provenance is in no network scope |
| WebhookWorker.Worker.PushSettlementEvent | crates/rieko-cli/src/agent.rs:1190-1202 | an invoice event enters the window and at a hundred the oldest leaves; other events change nothing |
| WebhookWorker.Worker.Reconstruct | crates/rieko-cli/src/agent.rs:1095-1111 | the window a restart rebuilds from the processed rows |
| WebhookWorker.Worker.ProcessPendingWebhookEvent | crates/rieko-cli/src/agent.rs:1140-1188 | event, cycle and processed mark take effect together, or at whatever call the cycle failed, window and tables are as before |
| WebhookWorker.Worker.DrainPendingWebhookEvents | crates/rieko-cli/src/agent.rs:1113-1138 | terminates; takes pending records in queue order, each once; without refusals nothing stays pending |
| WebhookWorker.PushedAllKeepsTheLast | crates/rieko-cli/src/agent.rs:1190-1202 | pushing a sequence of invoice events leaves its last hundred |
| WebhookWorker.MarkingTheFirst | crates/rieko-storage/src/storage.rs:1066-1077 | marking the first pending row takes exactly it off the pending listing |
| WebhookProtocol.NoDeliveryIsLostOrAppliedTwice | crates/rieko-api/src/routes.rs:842-908 | under every interleaving an acknowledged delivery is stored with one unchanging event and is in exactly one committed cycle, or none and still pending |
| WebhookProtocol.StepIsSafe | crates/rieko-cli/src/agent.rs:1053-1188 | what every step of the protocol keeps, and what it never takes back |
| WebhookProtocol.StrandedIff | crates/rieko-api/src/routes.rs:842-908 | a run leaves a delivery stranded exactly when some step cancelled the last request that would have woken the waiting worker and since then nothing was stored |
| WebhookProtocol.NoWakeUpIsMissed | crates/rieko-cli/src/agent.rs:1053-1093 | unless a stored request is cancelled: with no handler left to wake it and an empty mailbox, a waiting worker whose last drain was not refused has left nothing pending |
| WebhookOrder.CancelledWakeStrandsAnAcknowledgedDelivery | crates/rieko-api/src/routes.rs:842-908 | a run from the start after which an acknowledged delivery is stranded |
| WebhookProtocol.RestartRebuildsTheLiveWindow | crates/rieko-cli/src/agent.rs:1095-1202 | when acceptance follows queue order, the live window is always the last hundred processed events and what a restart would rebuild |
| WebhookOrder.LiveOrderIff | crates/rieko-cli/src/agent.rs:1095-1188 | over every run, the records behind the live window are the processed ones in queue order if and only if each was processed after all that precede it |
| WebhookOrder.WindowsAgreeIff | crates/rieko-cli/src/agent.rs:1095-1202 | between distinct events, live and rebuilt window agree exactly when the last hundred records do; up to a hundred, exactly when records were taken in order |
| WebhookOrder.OrderRebuildsTheWindow | crates/rieko-cli/src/agent.rs:1095-1202 | taken in order, whatever order they were accepted in, the records give a restart the live window |
| WebhookOrder.ListingAppendsIff | crates/rieko-storage/src/storage.rs:1044-1064 | a newly processed row goes to the end of the listing exactly when it comes after all others |
| WebhookOrder.ClockRegressionReordersTheRebuiltWindow | crates/rieko-storage/src/storage.rs:1044-1064 | a run from the start after which live and rebuilt window hold the same two events in opposite orders |
| WebhookProtocol.ProcessIsFaithful | crates/rieko-cli/src/agent.rs:1140-1188 | a committed cycle moves one record from the pending to the end of the processed rows and of the window |
| Redistribution.Simulate | crates/rieko-simulation/src/model.rs:470-571 | a validated input always computes; each channel keeps its total, the node its local total, both within capacity; an invalid one gets the validator's reason |
| ValidInputs.ValidatesIff | crates/rieko-simulation/src/model.rs:261-468 | an input validates if and only if it is about one finding and one move that both coherent channels can bear, and the finding's channel is drained in the finding's direction |
| ValidInputs.DirectionIsTheDrain | crates/rieko-simulation/src/model.rs:408-438 | for a valid snapshot the direction check is below ten percent for outbound, above ninety for inbound |
| ValidInputs.WrongDirectionIsNamed | crates/rieko-simulation/src/model.rs:408-438 | with all else in order, the refusal names the direction exactly when the balances do not confirm it |
| ValidInputs.SnapshotValidatesIff | crates/rieko-simulation/src/model.rs:619-661 | the three balance checks and the ratio checks as bounds on the sum and on the cross-multiplied share |
| ValidInputs.LatestReferenceIsTheLatest | crates/rieko-simulation/src/model.rs:298-319 | the observation of a window is its latest, and of several the last |
| ValidInputs.ReportIsTheMove | crates/rieko-simulation/src/model.rs:530-608 | both channels' balances before and after, and each warning exactly on its condition on the balances after the move |
| ValidInputs.ReportIsOfTheFindingsChannel | crates/rieko-simulation/src/model.rs:501-535 | baseline and projection are the finding's channel before and after, with its share of the capacity |
| ValidInputs.InboundSampleValidates | crates/rieko-simulation/src/model.rs:261-571 | an inbound finding whose redistribution validates and clears it |
| Redistribution.AmountsUpToALimitValidate | crates/rieko-simulation/src/model.rs:439-467 | of an otherwise valid input exactly the positive amounts up to one bound, fixed by the two channels, validate |
| Redistribution.ProjectionMovesAgainstTheDrain | crates/rieko-simulation/src/model.rs:470-571 | the finding's channel moves against its drain, and is reported cleared exactly between ten and ninety percent |
| Redistribution.SimulationRespectsReserves | crates/rieko-ingest-lnd/src/normalize.rs:91-107 | for channels normalised from LND validation needs both reserves reported, and the projection stays at or above what LND reported exactly when that does not overflow the conversion |
| Redistribution.WrappedReserveIsOverrun | crates/rieko-ingest-lnd/src/normalize.rs:91-107 | a reported reserve that counts as 384 millisatoshis, and a validated redistribution that goes below it |
| Redistribution.SpendableKeepsReserves | crates/rieko-ingest-lnd/src/normalize.rs:91-107 | a positive spendable amount is the balance above a reported reserve, as converted |
| Redistribution.ValidatedInputIsConsistent | crates/rieko-simulation/src/model.rs:261-404 | a validated input is about one node, one network and one moment, and the finding observed exactly the state of its channel's snapshot |
| Redistribution.SampleValidates | crates/rieko-simulation/src/model.rs:261-468 | a concrete redistribution over two channels normalised from LND validates, so the results on validated inputs are not empty |
| SimulationApp.CreateSimulation | crates/rieko-simulation-app/src/lib.rs:159-209 | one transaction: the answer and the tables that a request on those tables determines |
| SimulationApp.CreateInTransaction | crates/rieko-simulation-app/src/lib.rs:211-355 | reuse, staleness, override and persistence inside it; nothing differs when it is rolled back |
| SimulationApp.PersistRecord | crates/rieko-simulation-app/src/lib.rs:780-814 | a record and its two events |
| ResolvedInputs.ResolvesToItsRows | crates/rieko-simulation-app/src/lib.rs:217-310 | a command makes exactly this input of the first rows that match it |
| ResolvedInputs.DirectionIs | crates/rieko-simulation-app/src/lib.rs:697-729 | a liquidity finding has a direction exactly if one piece of its evidence, and one only, names it |
| ResolvedInputs.MissingContextFails | crates/rieko-simulation-app/src/lib.rs:248-290 | with an active finding: refused for its direction first, then exactly for missing context, then for a missing snapshot |
| ResolvedInputs.MissingSnapshotFails | crates/rieko-simulation-app/src/lib.rs:273-290 | with its context a command resolves if and only if both snapshots of the observation are stored |
| ResolvedInputs.UnsupportedFails | crates/rieko-simulation-app/src/lib.rs:226-290 | a recommendation the model does not support is refused as unsupported, whatever else is missing, or resolves to an input the validator decides on |
| ResolvedInputs.NoActiveFinding | crates/rieko-simulation-app/src/lib.rs:226-247 | a recommendation whose finding is unknown, or resolved, is refused as that |
| ResolvedInputs.CommandIsRefused | crates/rieko-simulation-app/src/lib.rs:159-176 | blank, empty, unknown and overflowing commands are refused in that order, and nothing is written |
| SimulationVerdicts.EveryRequestIsAnsweredAsTold | crates/rieko-simulation-app/src/lib.rs:303-453 | over every run: whether a request is evaluated, which error it gets or that it succeeds, the record it adds and the view it shows, from the stored records of its input, the age of the observation and the validator |
| SimulationVerdicts.BadInputsFailForGood | crates/rieko-simulation-app/src/lib.rs:303-453 | over every run an unsupported input is always refused as such, an invalid one never succeeds and once refused as invalid always is |
| SimulationRuns.AtMostTwoRecordsPerInput | crates/rieko-simulation-app/src/lib.rs:211-453 | after any run an input has at most two records; of two the first is a stale refusal, and at most one has a projection |
| SimulationRuns.RecordsReplay | crates/rieko-simulation-app/src/lib.rs:357-453 | each record's hash is its input's, its projection is what the model computes from it, and it has two events |
| SimulationRuns.RecordsAreOnlyAppended | crates/rieko-storage/src/storage.rs:846-873 | records never change, and no request of a run meets a storage error, the duplicate-input refusal included |
| SimulationRuns.RepeatRequestsReuse | crates/rieko-simulation-app/src/lib.rs:305-355 | a repeated request, fresh or overriding staleness, returns the stored projection and writes nothing |
| SimulationRuns.SuccessfulAnswersAreProjections | crates/rieko-simulation-app/src/lib.rs:211-453 | a successful answer of any run carries the model's projection of the input the command resolves to, fresh unless staleness is overridden |
| SimulationRefusals.TimelyRequestsSucceedIff | crates/rieko-simulation-app/src/lib.rs:309-453 | over every run, a request for a valid input that is neither stale nor future now succeeds if and only if no stored record refused that input as future-dated |
| SimulationRefusals.FutureRefusalIsFinal | crates/rieko-simulation-app/src/lib.rs:309-345 | an input refused once as future-dated is refused at every later time, and nothing is written |
| SimulationRefusals.AskedTooEarlyOnce | crates/rieko-simulation-app/src/lib.rs:357-453 | a run from an empty store in which a valid and timely input is refused because it was asked for too early once |
| SimulationRuns.LookupFindsTheNewest | crates/rieko-storage/src/storage.rs:934-948 | in a store that grew with the clock the lookup finds the newest record of the input |
| Identity.EncodeRoundTrip | crates/rieko-findings/src/identity.rs:22-36 | parsing a framed encoding recovers every field and leaves what follows |
| Identity.EncodingIsInjective | crates/rieko-findings/src/identity.rs:22-36 | two lists of fields of the same shape never share an encoding |
| Identity.Hasher.WriteField | crates/rieko-findings/src/identity.rs:22-26 | what was fed stays the encoding of the fields written |
| Identity.Hasher.WriteOptionalField | crates/rieko-findings/src/identity.rs:28-36 | the same for a field that may be absent |
| Identity.FindingPreimage | crates/rieko-findings/src/identity.rs:71-87 | the sequence of writes feeds the framed encoding of the finding's fields |
| Identity.FindingPreimageDeterminesTheFinding | crates/rieko-findings/src/identity.rs:71-87 | equal preimages, equal detector, version, network, node and channel |
| Identity.SnapshotPreimageDeterminesTheState | crates/rieko-findings/src/identity.rs:126-140 | equal preimages, equal snapshot states |
| Identity.PreimageFamiliesAreDisjoint | crates/rieko-findings/src/identity.rs:71-140 | no finding and no snapshot share a preimage |
| ActionIdentity.ActionPreimageDeterminesTheAction | crates/rieko-findings/src/identity.rs:144-155 | between actions whose finding ids hide no separated action type, NUL-free ids among them, equal preimages if and only if equal actions up to an absent or empty target |
| ActionIdentity.ActionCollidesIff | crates/rieko-findings/src/identity.rs:144-155 | an action shares its preimage with a different one if and only if its finding id or its target hides a separated action type |
| ActionIdentity.NulFreeHidesNothing | crates/rieko-findings/src/identity.rs:144-155 | texts without NUL bytes hide none |
| ActionIdentity.NulInTheFindingIdCollides | crates/rieko-findings/src/action.rs:28-36 | for any finding id, any two action types and any target, two different actions with one preimage |
| AlertCooldown.PersistentDedupingSink.Send | crates/rieko-alerts/src/dedup.rs:70-118 | answer, stored state and counter of one call, every failure of the store or the sink included; other keys keep theirs |
| AlertCooldown.CallsAreDueIff | crates/rieko-alerts/src/dedup.rs:70-116 | over a working store a call reaches the sink if and only if nothing was delivered before, the cooldown has passed, or its severity is higher; what is remembered, and with which status, follows |
| AlertCooldown.StoreFaultsIff | crates/rieko-alerts/src/dedup.rs:70-116 | a failing store fails the call and keeps its state; only a write that fails after a delivery loses track of one |
| AlertCooldown.DeliveriesAreTheDueAttempts | crates/rieko-alerts/src/dedup.rs:70-118 | over every run exactly the due attempts that the sink takes are delivered, and the last of them is remembered |
| AlertCooldown.AnswersFollowWhatIsDue | crates/rieko-alerts/src/dedup.rs:83-116 | over every run a due attempt is answered by the sink and any other is suppressed |
| AlertCooldown.KeysAreApart | crates/rieko-alerts/src/dedup.rs:59-66 | destinations whose names hold no bar never share a stored key |
| AlertCooldown.DeliveriesAreSpaced | crates/rieko-alerts/src/dedup.rs:70-118 | over any run deliveries are a cooldown apart or strictly escalate, and the store remembers exactly the last one |
| AlertCooldown.AtMostThreePerCooldown | crates/rieko-alerts/src/dedup.rs:70-118 | a span shorter than the cooldown holds at most three deliveries |
| AlertCooldown.OnlySendingMoves | crates/rieko-alerts/src/dedup.rs:85-116 | suppressed and failed calls change neither time nor severity |
| AlertCooldown.RestartsChangeNothing | crates/rieko-alerts/src/dedup.rs:33-118 | new sinks over the same store, at any points, change no answer and no delivery |
| AlertCooldown.CooldownIsHonouredIff | crates/rieko-alerts/src/dedup.rs:75-78 | every repeat within the configured cooldown is suppressed if and only if the cooldown fits the signed millisecond clock |
| RateLimiter.SimulationRate.Check | crates/rieko-api/src/app.rs:54-66 | purges, admits exactly below five, and remembers what it admits |
| RateLimiter.WindowAgreesWithHistory | crates/rieko-api/src/app.rs:54-66 | the retained vector is the full accepted history filtered to the last second |
| RateLimiter.AcceptedIffBelowFive | crates/rieko-api/src/app.rs:54-66 | in timestamp order a request is accepted if and only if fewer than five were in the second before it |
| RateLimiter.AtMostFivePerSecond | crates/rieko-api/src/app.rs:51-66 | no span of one second holds more than five accepted requests when lock order follows timestamp order |
| RateLimiter.RetainsHistoryIff | crates/rieko-api/src/app.rs:54-66 | for calls in any order, the vector a call works with is the filtered history exactly when no accepted instant of the last second had been purged |
| RateLimiter.LimitExceededIff | crates/rieko-api/src/app.rs:54-66 | for calls in any order, some span exceeds five exactly when a call was admitted into one that already held five, one of which an earlier call had purged |
| RateLimiter.LateLockExceedsTheLimit | crates/rieko-api/src/app.rs:54-66 | a concrete run in which six pass within a second |
| Telegram.EscapeMarkdownIsOnePass | crates/rieko-alerts/src/telegram.rs:208-217 | eight replacements in sequence are one left-to-right pass |
| Telegram.EscapeRoundTrip | crates/rieko-alerts/src/telegram.rs:208-217 | dropping the escapes recovers the input, and every output is well escaped |
| Telegram.WellEscapedIsEscaped | crates/rieko-alerts/src/telegram.rs:208-217 | every well-escaped text is an output |
| Telegram.MetacharactersAreEscaped | crates/rieko-alerts/src/telegram.rs:208-217 | a character other than the backslash stands after an odd run of backslashes exactly when it is a metacharacter |
| Telegram.TruncateUtf16 | crates/rieko-alerts/src/telegram.rs:221-242 | never above the limit; what fits is unchanged; otherwise the longest prefix that leaves room for the ellipsis |
| Telegram.LongestIsUnique | crates/rieko-alerts/src/telegram.rs:226-237 | a prefix fits exactly when it is no longer than that one |
| Telegram.CutKeepsEscapesIff | crates/rieko-alerts/src/telegram.rs:230-237 | a cut keeps a text well escaped exactly when it does not fall inside an escape |
| Telegram.TextReadsBack | crates/rieko-alerts/src/telegram.rs:159-172 | whatever the fields contain, a reader recovers title, message and key from the uncut text |
| Telegram.TextDeterminesTheAlert | crates/rieko-alerts/src/telegram.rs:159-172 | equal uncut texts, equal alerts |
| Telegram.CutTextNeverReadsBack | crates/rieko-alerts/src/telegram.rs:159-172 | no cut text can be read back |
| Telegram.BuildText | crates/rieko-alerts/src/telegram.rs:159-172 | within the limit, and readable exactly when nothing had to be cut |
| Telegram.SendWithRetry | crates/rieko-alerts/src/telegram.rs:137-157 | stops at the first answer that is not worth a retry, at the configured attempts, or where the multiplied backoff overflows; one wait between two attempts |
| Telegram.BackoffDoubles | crates/rieko-alerts/src/telegram.rs:151-154 | the wait doubles up to 2^30 times the base, stays there once and starts again after 32 waits |
| Telegram.BackoffNeverShrinksIff | crates/rieko-alerts/src/telegram.rs:151-154 | waits never shrink exactly up to 32 of them |

## Left out

- CheapestRoute.FindPath: requires that listed ids touch the node they are listed for, which the source does not check; without it the walk-back need not stop, as `ReassignedOwnerDefeatsTheWalkBack` shows.
- LiveGraph.InMemoryGraph.FindCheapestPath: requires the same of the live index; `UpsertKeepsTouchingIff` says which upserts keep it.
- RateLimiter.SimulationRate.Check: does not model the lock itself; the order of calls is the order in which the lock was taken.
- WebhookProtocol.NoDeliveryIsLostOrAppliedTwice: a step of the protocol keeps the queue and the window and leaves the finding tables of the cycle to `ProcessPendingWebhookEvent`; a worker whose history query fails at the start stays down, and a panic inside a storage call counts as a crash.
- Debug builds, in which overflowing arithmetic and overlong shifts panic: the model is the release build.
- Overflow of the `u64` sum in the capacity total: the model adds without bound.
- The SQLite backend and its migrations: `MemoryStorage` is the storage of the model. Backend faults are a number: the call that is refused.
- Rounding of `f64`: ratios are exact rationals or reals; the digest takes the ratio's bit pattern.
- SHA-256: hashes are injective constructors over the fields, and the preimages are proved to determine those fields. `channel_state_digest` and `canonical_evidence` are not modelled.
- HTTP, HMAC, bearer tokens, timeouts and JSON decoding: a handler is its steps of check, enqueue and wake under the storage lock.
- The ranges of `chrono` times: times are integers. UUIDs are parameters assumed to be fresh.
- Strings that carry times (`created_at`, `requested_at`) are the integers they denote.
- Storage failures while creating a simulation, other than the store's own refusals.
- Queries, comparison, reports and summaries of simulations; the legacy simulator projections.
- Explanations, evidence wording, recommendation texts and the wording of errors, which are one constructor each.
- The action stages, the health verdict, the connection recorders and the other detectors: small case analyses.
- The forward, peer and payment records of the graph, and `record_webhook_delivery`.

# Episode, verified

A Dafny model of the parts of Episode that have to survive crashes, retries, reordering and concurrent
callers, with proofs of what those parts promise. Nothing here runs the program: every statement below is a
theorem about the model, and the model follows the code branch by branch.

Check everything with `dafny verify dfyconfig.toml`.

## What is modelled

**The Episode lifecycle.** `Domain` holds the rows, `Store` the database as a value with one `Commit` per
committed transaction, and `Lifecycle` what each engine call commits and remembers. `Protocol` interleaves
those calls as the code does (one lock per Area, one lifecycle lock), and lets a crash cut any call after any
of its transactions; a restart then restores deadlines, recovers unassigned Events and runs a timer pass.
`RepositoryStore.Repository` and `Engine.EpisodeEngine` are the same operations as objects updated in place,
each proved equal to its specification, and `Correspondence` ties whole calls to runs of the protocol.
On top stand: lifecycle safety, crash recovery, erasure of Events that may not drive capture, exactly-once
delivery, refinement to gap clustering, one joinable Episode per Area, agreement of the deadline cache, and the
paged recovery scan (`RecoveryScan` over any result set, `RecoveryRows` for the pending Events). The results about
runs without crashes rest on `SteadyRuns`, an invariant weaker than the one crash recovery needs. `Overtaking` treats
redeliveries that correlate before their first delivery, and `Republication` the loop that republishes leases.

**The recorder.** `Recorder` is a second interleaved machine: capture tasks that park, stop, fail or publish,
the finalizer's barrier, recordings resumed or taken by startup at any moment, publication attempts cut at any
transaction, crashes and the restart scan. `Publication` proves exactly-once publication and which workspaces can
still be published, `FinalizationBarrier` what a normal return of the finalizer means and when, `TakenRecording`
that the condition is exact, `TakenRun` and `SharedSlot` two runs from the initial state in which it fails,
`CaptureLease` the merge of capture leases.
`RecordingCore.RecordingEngine` is the recorder as an object.

**The HLS bundle.** `Playlist` proves the line-by-line validator equal to a grammar and relates the live check
and the end-list completer to it. `BundleFiles` and `Bundle.HLSRecordingBundle` cover temporary files, the
checksum cache, segment numbering and finalization. The playlist subset is that of RFC 8216, sections 4.3.1.1,
4.3.2.1, 4.3.2.5 and 4.3.3.4.

**Plugin reconciliation and media sources.** `PluginReconcile` proves that narrowed, cancellable reconciles
converge; `MediaSelection` proves that the three places choosing a default agree. `PluginManagement.PluginManager`
and `MediaRegistryObject.MediaRegistry` are the objects.

**Outcomes.** `Outcomes`, `Placement`, `CallOutcomes`, `Markers`, `RecorderOutcomes`, `PluginRunning`, `MediaOutcomes`
and `PlaylistErrors` say what each operation leaves behind in terms of rows, maps and positions alone, without the
specification functions the objects are proved equal to. They are the reference those functions answer to.

## Conventions

- Times are integers on one clock. An Episode's id is the position of its row; an Event's key stands for its
  dedup key. `julianday` comparisons are integer comparisons, except in the recovery scan, where the query may
  be coarser than memory.
- The Receipts of an Event are two columns: the earliest `received_at` among linked ones, and the single not yet
  linked one that carries the Event's own payload path.
- Whatever the code cannot control is a parameter: clocks, what an attempt or a task ends in, which finalizers
  succeed, where a cancellation or a crash hits, which rows a page leaves in a result set.

## Where a promise holds only under a condition

- *Deadline cache.* A row from an older version has no persisted deadline; joining it can lower its effective
  deadline and leave memory ahead of the row. A step keeps memory and row equal exactly when its join, if any, is
  in time (`DeadlineCache.StepAgreesExactly`), which joins of current rows always are; `EarlyJoinDisagrees` is a
  join that is not.
- *Undated rows.* In a row from an older version that records neither a deadline nor a last activity, an inactive
  Event can move the deadline (`Erasure.InactiveMovesDeadlineExactly`), so erasure and `OneJoinable` ask that the
  rows present at the beginning record their last activity, as every row the engine creates does.
- *Overtaking.* A delivery holds the lock of the Area its Device has then. If the Device moves while a first delivery
  waits to correlate, a redelivery enters under the new Area, and resumes the same Event exactly when it agrees with
  it (`Overtaking.RedeliveryInertExactly`). Then the redelivery is not without effect
  (`OvertakenRun.OvertakenDeliveryExtends`), and the first delivery can leave an empty Episode that nothing remembers
  (`OvertakenRun.OvertakenDeliveryOpensInVain`, exactly when in `OpensInVainExactly`). Exactly-once delivery,
  erasure, clustering, `OneJoinable` and crash recovery are therefore stated for runs without it, a premise about
  each redelivery at the moment it arrives; the safety results and the deadline cache hold of every run.
- *Grace changes.* An Episode sealed before its turn ends the republication of leases with an error; those before it
  have theirs (`Republication.RepublicationTheorem`).
- *Empty Episodes after a crash.* A direct delivery has no Receipt, so its ingress time is only estimated from the
  decision; its empty Episode is reclaimed exactly when the estimate lies within the settling horizon
  (`CrashRecovery.ShellReclaimedExactly`).
- *Finalization barrier.* Two conditions on the run, each exact. First, no slot (Episode and Device) has two
  unpublished workspaces: a start keeps that exactly when whatever claims the slot is what it resumes
  (`FinalizationBarrier.StartKeepsOneOwnerExactly`); otherwise a finalizer call can return with a recording it found
  unpublished (`SharedSlot.SharedSlotLosesARecording`), and a restart hands back only one of the two
  (`Publication.RestartFindsAllExactly`). Second, while the call joins the stopped captures, no start resumes and
  startup does not take a recoverable recording it found that is still unpublished: a step lets the call return
  without such a recording exactly when it takes it (`TakenRecording.TakeBreaksCallExactly`;
  `TakenRun.ResumedWhileJoining` is such a run). That a call which raises leaves everything recoverable needs the
  same until it raises.
- *Publication.* If an attempt is cut off between creating its Evidence row and linking it, the engine may place
  the row in another Episode; from then on the workspace can never be published
  (`Publication.PublishableExactly`, `AstrayForever`, `CutAttemptCanGoAstray`).
- *Live check.* It accepts an EXTINF before its EXT-X-MAP, which the validator rejects
  (`Playlist.LiveAcceptsLateMap`, exact relation in `Playlist.LiveExactly`).
- *End list.* A line that merely contains the end tag keeps it from being written (`Playlist.EndListTheorem`).
- *Checksum cache.* A cached manifest is the true one exactly when each reused entry still has the digest of the
  present content (`BundleFiles.CacheIsTrueExactly`).

## Model

| member | source | states |
|---|---|---|
| Store.OpenEpisodeUpTo | src/episode/storage/repository.py:1338-1364 | the query returns a joinable Episode of latest activity among the rows, and none exactly when no row qualifies |
| Store.FindShell | src/episode/storage/repository.py:1375-1428 | the recovery query finds an empty Episode exactly when one alone shares the Event's Area and timestamp and is within its horizon |
| Store.FindPreceding | src/episode/storage/events.py:216-235 | the latest earlier transition of the same Device, Area and type, if any |
| Store.SpanningEpisodeUpTo | src/episode/storage/repository.py:1430-1450 | the open Episode of latest start whose lifespan contains the instant, and none exactly when there is none |
| Store.ApplyConsistent | src/episode/storage/repository.py:1452-1644 | every well-formed transaction keeps event_count and evidence_count equal to the number of linked rows, and links inside the Event's Area |
| Lifecycle.Target | src/episode/engine/engine.py:805-829 | a driving Event only ever joins an open Episode of its own Area |
| Lifecycle.InactiveTarget | src/episode/engine/engine.py:759-803 | an inactive Event only ever joins an open Episode of its own Area |
| Placement.MatchOutcome | src/episode/engine/engine.py:913-958 | Evidence that names no Episode belongs to the open Episode of latest start whose lifespan contains the observation, else to the one open now of latest activity, and to none exactly when there is neither or no Area |
| Placement.AddedOutcome | src/episode/engine/engine.py:605-674 | ingesting Evidence stores it where it belongs: in the Episode it names while that accepts it, else where it was observed, else alone; a known row is given only the Episode it lacks; one counter moves and nothing else |
| Placement.PlacedOutcome | src/episode/engine/engine.py:909-958 | a later attempt puts unassigned Evidence where it belongs and leaves any other row alone |
| Outcomes.DrivingOutcome | src/episode/engine/engine.py:805-890 | a driving Event joins, of the open Episodes of its Area not past their grace, the one of latest activity, which is active then, counts it, and ends no earlier than the Event asks; a new Episode is opened exactly when there is none; the engine remembers the latest deadline it knows and publishes it |
| Outcomes.RecoveredOutcome | src/episode/engine/engine.py:475-563 | recovery goes by the first arrival and by the window frozen into the decision, the fallback only where none is; it ends in the Event's own empty Episode, else in one that had a driving Event by then, else in a new one |
| Outcomes.PolicyIsFrozen | src/episode/engine/engine.py:513-530 | with a frozen window the Device's present window makes no difference |
| Outcomes.SettledOutcome | src/episode/engine/engine.py:486-509 | an Event that is inactive, linked, without Area, excluded, or has its attachment recorded is not recovered |
| Outcomes.FilteredOutcome | src/episode/engine/engine.py:676-725 | a class-filtered Event is counted by the joinable Episode of latest activity, whose life it does not touch, or recorded as having found none |
| Outcomes.RecoveredFilteredOutcome | src/episode/engine/engine.py:532-560 | the same in recovery, by its first arrival and what had arrived by then |
| Outcomes.InactiveOutcome | src/episode/engine/engine.py:759-803 | an inactive Event is counted by the open Episode of the latest earlier transition of its stream if that was active, moves at most its last Event, and otherwise nothing happens |
| Outcomes.ExcludedOutcome | src/episode/engine/engine.py:358-388 | an Event without Area or excluded by its capture profile changes nothing |
| Outcomes.HeldOutcome | src/episode/storage/repository.py:1452-1462 | driving an Event that has an Episode: its own is joined once more without counting, another refuses, a new one stays empty |
| Outcomes.FirstDeliveryOutcome | src/episode/engine/engine.py:303-335 | a first delivery leaves one row with what was observed and decided, its Receipt linked |
| Outcomes.RedeliveryOutcome | src/episode/engine/engine.py:312-335 | an agreeing redelivery moves the ingress to the earliest Receipt known and changes nothing else; a conflicting one changes nothing |
| Outcomes.RedeliverySettles | src/episode/engine/engine.py:312-400 | exactly an agreeing redelivery of an Event that is not settled recovers it |
| CallOutcomes.DeliveryOutcome | src/episode/engine/engine.py:291-400 | a delivery holds its Area's lock with its own time and window until it has correlated by them |
| Protocol.NextCommitsProgram | src/episode/engine/engine.py:270-416 | a call that is not cut off leaves the database its transactions leave |
| Footprints.JoinPrefix | src/episode/engine/engine.py:830-857 | what each prefix of joining has written: link first, then deadline, times and reactivation |
| Footprints.CreatePrefix | src/episode/engine/engine.py:858-890 | what each prefix of opening an Episode has written |
| Footprints.AttachPrefix | src/episode/engine/engine.py:676-725 | what each prefix of attaching a filtered Event has written |
| Footprints.HeldDrivePrefix | src/episode/engine/engine.py:830-890 | what each prefix writes for an Event that has an Episode: its own Episode is joined once more without being counted, another raises, and a new one stays empty |
| Invariants.SoundStep | src/episode/engine/engine.py:270-416 | every step, crash or not, keeps counters equal to links, the grace valid and lock holders distinct |
| Invariants.SoundRun | src/episode/engine/engine.py:270-563 | so does every run |
| LifecycleSafety.StepMoves | src/episode/storage/repository.py:1764-1839 | a step only moves states along the lifecycle, seals only strictly past deadline plus grace, links Events only to open Episodes, and after sealing accepts recorder Evidence only |
| LifecycleSafety.RunKeeps | src/episode/storage/repository.py:1452-1495 | over any run with crashes: no link changes, no deadline decreases, a sealed Episode keeps its Events and lifetime, a finished one its Evidence |
| LifecycleSafety.TickDecides | src/episode/storage/repository.py:1764-1839 | a timer pass decides each row from its deadline alone |
| CallOutcomes.TickOutcome | src/episode/storage/repository.py:1764-1839 | a timer pass seals, rests or keeps each row by its deadline, leaves the others, and forgets exactly the sealed ones unless deferred |
| CallOutcomes.CloseReadyOutcome | src/episode/engine/engine.py:973-1017 | unless deferred, exactly the finalizing Episodes whose finalizer succeeded are closed and stamped |
| CallOutcomes.CloseOutcome | src/episode/storage/repository.py:1670-1713 | closing one finalized Episode stamps it and touches no other |
| CallOutcomes.RestartOutcome | src/episode/engine/engine.py:87-102 | a restart loads the saved grace, remembers exactly the open Episodes by their deadlines, has no lease, and defers finalization |
| CallOutcomes.FinishOutcome | src/episode/engine/engine.py:87-102 | the pass that ends recovery times every row |
| CallOutcomes.ReleaseOutcome | src/episode/engine/engine.py:116-121 | once released, what is sealed is forgotten |
| LifecycleSafety.TicksCompose | src/episode/storage/repository.py:1764-1839 | an earlier pass followed by a later one equals the later one alone |
| CrashRecovery.ActionRecoverable | src/episode/engine/engine.py:738-890 | a crash after any transaction of any call leaves at most one orphan and one matching empty Episode per Area |
| CrashRecovery.CrashSafeStep | src/episode/engine/engine.py:418-563 | the same for every step that overtakes nothing, including recovery's own |
| CrashRecovery.CrashRecoveryTheorem | src/episode/engine/engine.py:418-563 | over any run with any number of crashes in which no redelivery overtakes its first delivery; after each completed restart no empty Episode is left and every driving Event has one Episode of its Area |
| CrashRecovery.RecoverSettles | src/episode/engine/engine.py:475-563 | recovering an Event settles it and touches no other |
| CrashRecovery.RecoveryCompletes | src/episode/engine/engine.py:418-473 | visiting every pending Event once, in any order, leaves nothing pending |
| CrashRecovery.ShellReclaimedExactly | src/episode/storage/repository.py:1375-1428 | an empty Episode is reclaimed exactly when the recovered ingress time is within its settling horizon |
| Overtaking.RedeliveryInertExactly | src/episode/engine/engine.py:312-400 | a redelivery commits nothing but Receipt links exactly when it conflicts with its Event or the Event is not pending |
| Overtaking.FreshExactly | src/episode/engine/engine.py:298-400 | every step, crash or not, leaves the driving Events whose first delivery is in flight without an Episode, except a redelivery under another Area that agrees with one of them |
| OvertakenRun.OvertakenDeliveryExtends | src/episode/engine/engine.py:391-400 | such a redelivery has an effect: a run after which the Episode ends later than without the redelivery |
| OvertakenRun.OvertakenDeliveryOpensInVain | src/episode/engine/engine.py:858-870 | a crash-free run after which an empty Episode is open and not remembered |
| OvertakenRun.OpensInVainExactly | src/episode/storage/repository.py:1452-1462 | a first delivery that finds its Event linked leaves an empty Episode exactly when it finds none to join |
| SteadyRuns.SteadyStep | src/episode/engine/engine.py:270-416 | every step other than a crash, a restart or recovery leaves the system running with every uncorrelated Event held by the lock of its Area, whatever is delivered |
| Erasure.ErasureTheorem | src/episode/engine/engine.py:358-388 | without crashes and overtaking, however late a delivery is decided: deleting every delivery of Events that may not drive capture leaves each Episode's life, the remembered deadlines and the leases unchanged |
| Erasure.ErasureFromStart | src/episode/engine/engine.py:676-725 | the same from a fresh start, against the run without those deliveries |
| Erasure.InactiveMovesDeadlineExactly | src/episode/engine/engine.py:759-803 | an inactive Event moves the deadline of its Episode exactly when the row has no deadline and no last activity and the timestamp changes what stands in for them |
| ExactlyOnce.ExactlyOnceTheorem | src/episode/engine/engine.py:312-400 | redeliveries that resume no pending Event, duplicate or conflicting, leave the same Events, Episodes, Evidence, deadlines and leases as first deliveries alone |
| ExactlyOnce.ExactlyOnceUnlessInFlight | src/episode/engine/engine.py:298-400 | the same from any steady state as long as no agreeing redelivery arrives while its first delivery is in flight |
| Clustering.AreasClusterAlone | src/episode/engine/engine.py:805-829 | one Area's clusters are those of its own arrivals alone |
| Clustering.TargetIsCluster | src/episode/storage/repository.py:1290-1373 | the Episode a timely arrival joins is the cluster it joins |
| Clustering.ClusteringTheorem | src/episode/engine/engine.py:805-890 | with fixed grace, ordered ingress, timely ticks and no overtaking the Episode table is at every moment the gap clusters of the arrivals: deadlines included, and a row sealed exactly when some pass has observed an instant past its horizon plus grace |
| Clustering.EngineClusters | src/episode/engine/engine.py:805-890 | the same from an empty database, with each Area clustered alone |
| OneJoinable.OneJoinableTheorem | src/episode/storage/repository.py:1338-1364 | with fixed grace, ordered ingress and no overtaking, however ticks fall, at most one Episode of an Area is joinable at its latest ingress time |
| OneJoinable.AreasIndependent | src/episode/engine/engine.py:738-890 | correlating in one Area changes no row and no Event of another, at any cut |
| DeadlineCache.DeadlineCacheTheorem | src/episode/engine/engine.py:152-205 | over any run whose joins are in time, crashes, restarts and older rows included: every open Episode with a persisted deadline is remembered with it, and a lease of the current revision is the remembered deadline plus the grace |
| DeadlineCache.StepAgreesExactly | src/episode/engine/engine.py:187-205 | a completed step keeps that agreement exactly when the row it joins has a persisted deadline or the new one is not before the remembered one, and it opens no Episode for an Event that has one |
| DeadlineCache.CurrentRowsAreInTime | src/episode/engine/engine.py:858-890 | where every row has a persisted deadline, every run without overtaking is in time |
| DeadlineCache.GraceAgrees | src/episode/engine/engine.py:152-161 | a new grace, lower or higher, taken as one step republishes every lease under a new revision |
| CallOutcomes.GraceOutcome | src/episode/engine/engine.py:152-161 | exactly a grace from 0 to 60 is saved and in force, and reissues every remembered lease under the next revision |
| Republication.RepublicationTheorem | src/episode/engine/engine.py:152-205 | with anything the engine does between two Episodes: after each round every remembered Episode not still to come holds its deadline plus the grace under the current revision, and the next round raises only if its Episode has been sealed |
| Republication.SealedIsForgotten | src/episode/engine/engine.py:977-979 | a timer pass forgets an Episode, and so makes its round raise, exactly when it seals it and finalization is not deferred |
| Republication.UninterruptedIsOneStep | src/episode/engine/engine.py:152-205 | without interruption the loop leaves what the single step leaves |
| DeadlineCache.LegacyJoinAgreesExactly | src/episode/engine/engine.py:187-193 | joining a row without a persisted deadline keeps cache and row equal exactly when the new deadline reaches the old fallback |
| DeadlineCache.EarlyJoinDisagrees | src/episode/engine/engine.py:830-857 | a join of an older row after which memory and row disagree |
| RecoveryScan.ListPage | src/episode/storage/events.py:164-206 | a page is the first pending rows beyond the cursor in the order of the query |
| RecoveryScan.CursorMoves | src/episode/engine/engine.py:446-460 | the last row by the in-memory sort lies beyond the old cursor and not beyond the page |
| RecoveryScan.Scan | src/episode/engine/engine.py:418-473 | paging ends, its cursor strictly increases, every initially pending row is visited, in ingress order as far as the query can tell |
| RecoveryRows.RecoverTakesRow | src/episode/engine/engine.py:475-563 | recovering a pending Event takes its row, and no other, out of the result set of the scan |
| Correspondence.ScanThenRecover | src/episode/engine/engine.py:418-473 | recovering in the order of the scan leaves nothing pending |
| Correspondence.IngestIsRun | src/episode/engine/engine.py:270-416 | ingesting a first delivery is canonicalizing, linking its Receipt and correlating, as protocol steps |
| Correspondence.RedeliveryIsStep | src/episode/engine/engine.py:312-400 | receiving a known key is one protocol step |
| Correspondence.CloseReadyIsRun | src/episode/engine/engine.py:977-1017 | closing the finalized Episodes is a run of protocol steps |
| RepositoryStore.Repository.CanonicalizeEvent | src/episode/storage/events.py:77-91 | inserts unless the key is known, and says which |
| RepositoryStore.Repository.LinkIngestionReceipt | src/episode/storage/repository.py:473-498 | the earliest linked Receipt is kept |
| RepositoryStore.Repository.EventRecoveryIngressTime | src/episode/storage/repository.py:685-737 | backfills the one identifiable Receipt and returns the ingress time, if it can be told |
| RepositoryStore.Repository.CreateEpisode | src/episode/storage/repository.py:1098-1134 | the new row gets a fresh id |
| RepositoryStore.Repository.AddEventToEpisode | src/episode/storage/repository.py:1452-1542 | links once and counts once, with the outcome for each refusal |
| RepositoryStore.Repository.AddEvidenceToEpisode | src/episode/storage/repository.py:1544-1644 | the same for Evidence, admitting finalizing Episodes only when allowed |
| RepositoryStore.Repository.CreateEvidence | src/episode/storage/repository.py:825-869 | inserts under a new id; a known id raises and changes nothing |
| RepositoryStore.Repository.UpdateEpisodeTimes | src/episode/storage/repository.py:1715-1739 | last activity is overwritten, the last Event time only advances |
| RepositoryStore.Repository.ExtendEpisodeMinimumEnd | src/episode/storage/repository.py:1741-1762 | the deadline only advances |
| RepositoryStore.Repository.UpdateEpisodeState | src/episode/storage/repository.py:1646-1668 | sets the state of one row; closing or archiving also stamps its end |
| RepositoryStore.Repository.UpdateEventParticipation | src/episode/storage/repository.py:748-756 | records the attachment in the stored decision |
| RepositoryStore.Repository.MarkEpisodeClosed | src/episode/storage/repository.py:1670-1713 | closes a finalizing row only |
| RepositoryStore.Repository.TransitionTimedOutEpisodes | src/episode/storage/repository.py:1764-1839 | the loop applies the timer's decision to every row and returns the rested and the finalizing ones |
| RepositoryStore.Repository.FindOpenEpisodeForArea | src/episode/storage/repository.py:1290-1373 | equals the specified query |
| RepositoryStore.Repository.FindEmptyEpisodeForRecovery | src/episode/storage/repository.py:1375-1428 | equals the specified query |
| RepositoryStore.Repository.FindPrecedingTransition | src/episode/storage/events.py:216-235 | equals the specified query |
| RepositoryStore.Repository.FindEpisodeForAreaAt | src/episode/storage/repository.py:1430-1450 | equals the specified query |
| RepositoryStore.Repository.SetQuiescentGrace | src/episode/storage/repository.py:330-338 | persists the grace |
| Engine.EpisodeEngine.RememberEpisodeDeadline | src/episode/engine/engine.py:187-193 | the remembered deadline only advances |
| Engine.EpisodeEngine.PublishEpisodeUpdated | src/episode/engine/engine.py:178-185 | publishes the remembered deadline plus the grace under the current revision |
| Engine.EpisodeEngine.Correlate | src/episode/engine/engine.py:738-907 | does to database and memory exactly what the specification of settling an Event says, and raises exactly when the Event belongs to an Episode other than the one found |
| Engine.EpisodeEngine.PersistJoin | src/episode/engine/engine.py:830-857 | commits the join in the code's order, or nothing when the Event belongs to another Episode; what the row says then is in `Outcomes.DrivingOutcome` |
| Engine.EpisodeEngine.OpenEpisode | src/episode/engine/engine.py:858-890 | commits the new Episode in the code's order and remembers it; for an Event that has one it stays empty and is not remembered |
| Engine.EpisodeEngine.CorrelateInactive | src/episode/engine/engine.py:759-803 | links an inactive Event to the open Episode of its preceding active transition, and does nothing without one |
| Engine.EpisodeEngine.AttachWithoutCapture | src/episode/engine/engine.py:676-725 | attaches a filtered Event without extending anything and records the outcome |
| Engine.EpisodeEngine.RecoverUnassignedActiveEvent | src/episode/engine/engine.py:475-563 | leaves the core the specification of recovery gives, and says whether it ran; `Outcomes.RecoveredOutcome` says what that is |
| Engine.EpisodeEngine.BackfillUnassigned | src/episode/engine/engine.py:418-440 | the first paging loop ends with no pending Event whose Receipt could still be identified |
| Engine.EpisodeEngine.RecoverUnassigned | src/episode/engine/engine.py:442-473 | the second paging loop recovers page by page, each page in ingress order, and ends with nothing pending |
| Engine.EpisodeEngine.RecoverUnassignedActiveEvents | src/episode/engine/engine.py:418-473 | both passes: Receipts are backfilled, then every pending Event is recovered, and nothing is left pending |
| Engine.EpisodeEngine.IngestEvent | src/episode/engine/engine.py:270-416 | equals the specification of one delivery; a draft Device's delivery changes nothing |
| Engine.EpisodeEngine.ReceiveDuplicate | src/episode/engine/engine.py:312-356 | equals the specification of a redelivery |
| Engine.EpisodeEngine.IngestEvidence | src/episode/engine/engine.py:605-674 | commits what the Evidence specification says, with its error cases |
| Engine.EpisodeEngine.MatchOrphanEvidence | src/episode/engine/engine.py:909-958 | links orphan Evidence where `Placement.MatchOutcome` says it belongs |
| Engine.EpisodeEngine.CloseTimedOutEpisodes | src/episode/engine/engine.py:960-1017 | a timer pass, then closing exactly the Episodes whose finalizer returned and that no other call is finalizing |
| Engine.EpisodeEngine.SetQuiescentGrace | src/episode/engine/engine.py:152-161 | an invalid grace is refused; a valid one is saved, published and followed by a timer pass |
| Engine.EpisodeEngine.PublishCaptureLeaseUpdates | src/episode/engine/engine.py:195-205 | republishes every remembered lease |
| Engine.EpisodeEngine.RestoreEpisodeDeadlines | src/episode/engine/engine.py:163-176 | rebuilds the cache from the open rows |
| Engine.EpisodeEngine.Start | src/episode/engine/engine.py:87-102 | restore, recover until nothing is pending, then a timer pass, with finalization deferred or not |
| Engine.EpisodeEngine.CompleteFinalizingEpisodes | src/episode/engine/engine.py:116-121 | ends the deferral and closes what awaited it |
| Recorder.SinkProgramIsEvidenceProgram | src/episode/engine/engine.py:605-674 | what publication commits is what the engine commits for Evidence naming its Episode |
| Publication.AttemptDbKeeps | src/episode/engine/engine.py:605-674 | an attempt cut anywhere keeps links, states and counters |
| Publication.StepSafe | src/episode/recording/engine.py:1412-1536 | every recorder step, crash included, removes a marker only once the Evidence is linked to its Episode, and takes no link back |
| Publication.PublicationTheorem | src/episode/recording/engine.py:1412-1536 | the same over any run with failures, retries and restarts |
| Publication.EachOutputCountedOnce | src/episode/recording/engine.py:1454-1536 | in every state a run reaches, an Episode counts each of its published workspaces exactly once; any other workspace it counts belongs to another Episode, is still marked and is unpublished |
| Publication.PublishableExactly | src/episode/engine/engine.py:605-674 | an attempt can publish a workspace exactly when its row is linked to its Episode, or in no Episode while the Episode accepts recorder output; then one that is not cut off does |
| Publication.AstrayForever | src/episode/engine/engine.py:620-640 | a workspace whose row is in another Episode keeps its marker and fails every attempt, in any run |
| Publication.CutAttemptCanGoAstray | src/episode/engine/engine.py:909-958 | from any state in which a first attempt is about to run while another Episode is open, a run leads there |
| Publication.RestartFindsAllExactly | src/episode/recording/engine.py:287-348 | a restart hands back every unpublished workspace exactly when no two share a slot, and completes the published ones |
| Markers.AttemptOutcome | src/episode/recording/engine.py:1454-1536 | an attempt for an unpublished recording publishes it exactly when the sink returned and its Evidence is in its Episode, and removes its marker exactly when, besides, the removal worked; nothing else is affected |
| Markers.RunMarked | src/episode/recording/engine.py:1124-1536 | over any run an unpublished recording keeps its marker |
| Markers.MarkerTheorem | src/episode/recording/hls.py:505-512 | in every state a run reaches, the marker goes exactly so, and a restart at that point passes the workspace over |
| Markers.RestartSkipsUnmarked | src/episode/recording/engine.py:287-348 | a restart does not look at a workspace whose marker is gone |
| RecorderOutcomes.PublishOutcome | src/episode/recording/engine.py:1412-1433 | after a task's attempt a recording is kept recoverable exactly when the attempt did not succeed |
| RecorderOutcomes.PublishTakenOutcome | src/episode/recording/engine.py:415-420 | what startup took is not kept |
| RecorderOutcomes.DrainOutcome | src/episode/recording/engine.py:730-744 | a success leaves the recoverable map and the call's list, a failure stays and raises |
| RecorderOutcomes.TasksJoinedOutcome | src/episode/recording/engine.py:769-786 | exactly the failed recordings that are not published and have not restarted go back; any failure raises |
| RecorderOutcomes.StartOutcome | src/episode/recording/engine.py:566-633 | a start resumes the slot's recoverable workspace, or makes a new, marked one, unless the slot records |
| RecorderOutcomes.ParkOutcome | src/episode/recording/engine.py:1435-1452 | a parked recording is recoverable and no longer registered |
| RecorderOutcomes.CallClosedOutcome | src/episode/engine/engine.py:1000-1008 | closing after a normal return closes and stamps the Episode |
| RecorderOutcomes.CutOutcome | src/episode/engine/engine.py:605-674 | what a sink cut off after any transaction leaves |
| RecorderOutcomes.CrashOutcome | src/episode/recording/engine.py:287-348 | a crash leaves the database of the attempt it hits and every workspace with its marker |
| FinalizationBarrier.StartKeepsOneOwnerExactly | src/episode/recording/engine.py:566-633 | a start leaves at most one claimant a slot exactly when the slot is unclaimed or its claimant is resumed |
| FinalizationBarrier.StepShrinks | src/episode/recording/engine.py:1124-1380 | no other step gives a workspace a claim it did not have |
| FinalizationBarrier.StepHolds | src/episode/recording/engine.py:749-786 | every step that spares the call, its own steps included, keeps what the call found published, recoverable, listed or still being stopped |
| FinalizationBarrier.RunTrusted | src/episode/recording/engine.py:566-786 | over any run of calm starts, crashes included, each slot keeps one claimant and registered recordings are live and in one map only |
| FinalizationBarrier.BarrierTheorem | src/episode/recording/engine.py:716-786 | a call that returns has published every recording it found, unless one was taken out of the recoverable map, unpublished, while it joined tasks; until it closes the Episode is finalizing |
| FinalizationBarrier.RaisedKeepsRecoverable | src/episode/recording/engine.py:769-786 | a call that raises keeps each unpublished recording it found recoverable, unless one was taken since the call began |
| FinalizationBarrier.ClosesOnlyAfterReturn | src/episode/engine/engine.py:977-1017 | no other step than closing after a normal return closes an Episode, and what the call covers is then linked |
| FinalizationBarrier.ClosedMeansPublished | src/episode/engine/engine.py:977-1017 | once an Episode is closed on a spared call, everything the call found stays linked, through crashes and restarts |
| FinalizationBarrier.CalmRestartFindsAll | src/episode/recording/engine.py:287-348 | after calm starts a restart hands back every unpublished workspace |
| FinalizationBarrier.BarrierFromInitial | src/episode/recording/engine.py:716-786 | both results for a call at the end of any calm run from the initial state |
| FinalizationBarrier.RestartFromInitial | src/episode/recording/engine.py:287-348 | the restart result after any calm run from the initial state |
| TakenRecording.TakeBreaksCallExactly | src/episode/recording/engine.py:415-420 | a step opens the way to a return with a found recording unpublished exactly when it takes an unpublished recording the call found while the call joins tasks, if none of these failed and the others can be published |
| TakenRun.ResumedWhileJoining | src/episode/recording/engine.py:566-786 | a run from the initial state: a parked recording is resumed while the call waits for another, and the call returns with it unpublished |
| SharedSlot.SharedSlotLosesARecording | src/episode/recording/engine.py:1298-1319 | a run from the initial state in which a normal return leaves a found recording unpublished |
| CaptureLease.HeldIsNewest | src/episode/recording/engine.py:655-692 | the merged lease has the highest revision and the latest deadline of it, clamped to arrival |
| CaptureLease.VerdictTheorem | src/episode/recording/engine.py:1405-1410 | after the last arrival the verdict is decided by the latest deadline of the highest revision |
| CaptureLease.OrderDoesNotMatter | src/episode/recording/engine.py:655-692 | reordering or repeating messages changes no verdict after the last arrival |
| FinalizerCall.CallGivesResult | src/episode/recording/engine.py:716-786 | joining then draining gives the barrier's result and touches no other Episode |
| RecordingCore.RecordingEngine.SetEpisodeCaptureLease | src/episode/recording/engine.py:655-692 | merges the lease, every registered recording keeps holding its Episode's lease, and an expiry mark is lifted exactly when the deadline moved forward |
| RecordingCore.RecordingEngine.ForgetEpisodeCaptureLease | src/episode/recording/engine.py:635-645 | a closed Episode's lease goes, and no other recording loses the lease it holds |
| RecordingCore.RecordingEngine.StartRecording | src/episode/recording/engine.py:566-633 | resumes the slot's recoverable workspace or creates one, holding the lease |
| RecordingCore.RecordingEngine.ParkCaptureLeaseBundle | src/episode/recording/engine.py:1435-1452 | moves the recording to the recoverable map; the leases of the others stay held |
| RecordingCore.RecordingEngine.IngestRecordingEvidence | src/episode/engine/engine.py:596-674 | commits a prefix of the Evidence program, all of it unless it raises |
| RecordingCore.RecordingEngine.FinalizeBundle | src/episode/recording/engine.py:1454-1536 | one publication attempt with each way it can fail (sink, unverified Evidence, marker, journal), idempotent once published; its effect is `Markers.AttemptOutcome` |
| RecordingCore.RecordingEngine.FinalizeFromRetryTask | src/episode/recording/engine.py:1412-1433 | parks at the lease, or publishes and keeps a failure recoverable |
| RecordingCore.RecordingEngine.StopRecordings | src/episode/recording/engine.py:749-768 | takes the Episode's recordings out of the registry |
| RecordingCore.RecordingEngine.KeepUnsaved | src/episode/recording/engine.py:772-786 | failed, unpublished recordings go back to the recoverable map |
| RecordingCore.RecordingEngine.FinalizeEpisode | src/episode/recording/engine.py:716-744 | the whole call: normal return means everything found is published, otherwise it is recoverable; other Episodes' entries stay |
| RecordingCore.RecordingEngine.RecoverInterruptedRecordings | src/episode/recording/engine.py:287-348 | the loop equals the specified scan |
| Playlist.ScanMeans | src/episode/recording/hls.py:205-246 | the flags and accumulators of the scan mean what the lines read so far say |
| Playlist.ValidatorTheorem | src/episode/recording/hls.py:170-295 | the validator accepts exactly the playlists of the grammar |
| PlaylistErrors.ErrorTheorem | src/episode/recording/hls.py:170-295 | a playlist is rejected with the first thing wrong: header, first unacceptable line, open EXTINF, no map, first bad map, no segment, first bad segment, missing end |
| PlaylistErrors.CountOutcome | src/episode/recording/hls.py:205-246 | as many segments are counted as there are references |
| Playlist.AppendSegment | src/episode/recording/hls.py:205-246 | appending an EXTINF and the reference of a present component keeps validity and appends the reference |
| Playlist.EndListTheorem | src/episode/recording/hls.py:352-369 | ensuring the end list yields validity with it required exactly when the tag was really there or occurred nowhere, keeps references, and is idempotent |
| Playlist.EndWrittenOutcome | src/episode/recording/hls.py:352-369 | what is written: the lines up to the last that is not blank, and the end tag |
| Playlist.LiveExactly | src/episode/recording/hls.py:297-350 | up to the first reference, valid means live-ready plus map before EXTINF plus every map playable |
| Playlist.ValidIsLive | src/episode/recording/hls.py:297-350 | a valid playlist is live-ready once its first reference lies in the inspected part |
| Playlist.LiveAcceptsLateMap | src/episode/recording/hls.py:322-336 | the live check accepts a playlist the validator rejects |
| BundleFiles.SegmentNameIndex | src/episode/recording/hls.py:144-150 | the name given to segment n reads back as n |
| BundleFiles.SegmentNameOutcome | src/episode/recording/hls.py:144-150 | segment names have six digits or more between the prefix and the suffix |
| BundleFiles.TemporaryExactly | src/episode/recording/hls.py:152-168 | which files count as temporary |
| BundleFiles.ListedExactly | src/episode/recording/hls.py:379-399 | which files a manifest lists |
| BundleFiles.RefreshOutcome | src/episode/recording/hls.py:379-399 | a refresh lists each of them with its size and a digest, remembered or computed, and remembers it |
| BundleFiles.PreservedOnce | src/episode/recording/hls.py:152-168 | a second pass over preserved temporaries moves nothing |
| BundleFiles.SuffixSearchEnds | src/episode/recording/hls.py:160-165 | the suffix search cannot try more names than there are files |
| BundleFiles.CacheIsTrueExactly | src/episode/recording/hls.py:379-399 | the cached manifest is the uncached one exactly when each reused entry is true |
| BundleFiles.CacheTheorem | src/episode/recording/hls.py:379-399 | if equal size and mtime imply equal content, no series of refreshes lists a stale digest |
| Bundle.HLSRecordingBundle.ScanLines | src/episode/recording/hls.py:205-246 | the loop equals the specified scan, with its error at the right line |
| Bundle.HLSRecordingBundle.CheckComponents | src/episode/recording/hls.py:260-287 | the first component that is missing or empty |
| Bundle.HLSRecordingBundle.ValidatePlaylist | src/episode/recording/hls.py:170-295 | verdict, error code and counts of the report |
| Bundle.HLSRecordingBundle.LivePlaybackReady | src/episode/recording/hls.py:297-350 | equals the specified live check on the inspected lines |
| Bundle.HLSRecordingBundle.FreeName | src/episode/recording/hls.py:160-165 | ends with the first of the derived names no file has |
| Bundle.HLSRecordingBundle.PreserveTemporaryComponents | src/episode/recording/hls.py:152-168 | every temporary goes to a fresh name of its own, nothing is overwritten, nothing else changes |
| Bundle.HLSRecordingBundle.EnsureEndlist | src/episode/recording/hls.py:352-369 | when it succeeds and what it writes |
| Bundle.HLSRecordingBundle.PrepareFinalize | src/episode/recording/hls.py:469-503 | complete exactly when capture was complete, nothing temporary was there, the playlist was valid and its end tag real or writable |
| Bundle.HLSRecordingBundle.RefreshManifest | src/episode/recording/hls.py:371-440 | the manifest that trusts matching fingerprints, and the refreshed cache |
| Bundle.HLSRecordingBundle.NextSegmentIndex | src/episode/recording/hls.py:144-150 | one more than the highest index; no file has that segment's name |
| PluginReconcile.MergeKeeps | src/episode/plugins/manager.py:427-439 | merging the row of an unchanged Device changes no snapshot |
| PluginReconcile.UntouchedKeeps | src/episode/plugins/manager.py:205-226 | a plugin that is not restarted keeps registration, snapshot and last attempt |
| PluginReconcile.StartedToEffect | src/episode/plugins/manager.py:274-283 | what the first starts attempted and cleared from the pending set |
| PluginReconcile.ReconciledSettled | src/episode/plugins/manager.py:183-283 | a reconcile, cancelled or not, keeps every non-pending plugin's snapshot equal to what its last attempt saw, and makes its Device clean |
| PluginReconcile.RunTracks | src/episode/plugins/manager.py:183-283 | the same over any run of saves and reconciles |
| PluginReconcile.ConvergenceTheorem | src/episode/plugins/manager.py:183-283 | once each saved Device has a later reconcile and the last one completed, every available plugin was last attempted from what it now should see |
| PluginRunning.TouchedExactly | src/episode/plugins/manager.py:205-226 | a plugin is restarted exactly when it is new, changed, pending, or shown something else of the edited Device, or of any if all are compared |
| PluginRunning.RunningOutcome | src/episode/plugins/manager.py:228-283 | after a reconcile, cancelled or not: an untouched plugin runs exactly if it ran, from the same attempt; a touched one exactly if the reconcile got to it, it is available and its start succeeded; nothing unregistered runs |
| PluginRunning.InterruptedOutcome | src/episode/plugins/manager.py:274-283 | the start a cancellation hits does not run and stays pending |
| PluginRunning.FirstStartOutcome | src/episode/plugins/manager.py:175-181 | a first start runs every available plugin whose start succeeds, or, cancelled, none |
| PluginRunning.RunningTheorem | src/episode/plugins/manager.py:183-283 | over any run, exactly those registered plugins run that are available, not pending, and did not fail their last start |
| PluginManagement.PluginManager.Configure | src/episode/plugins/manager.py:123-140 | refused while running, else fresh snapshots and nothing pending |
| PluginManagement.PluginManager.StartAll | src/episode/plugins/manager.py:274-283 | starts in order up to the cancellation |
| PluginManagement.PluginManager.Start | src/episode/plugins/manager.py:175-181 | a cancelled first start stops everything again |
| PluginManagement.PluginManager.FindRestarts | src/episode/plugins/manager.py:205-226 | exactly the plugins that differ or are pending |
| PluginManagement.PluginManager.AdvanceSnapshots | src/episode/plugins/manager.py:247-258 | restarted plugins get new snapshots, others only the edited row |
| PluginManagement.PluginManager.Reconcile | src/episode/plugins/manager.py:183-283 | equals the specified reconcile, of which `PluginRunning.RunningOutcome` says what runs |
| MediaSelection.Automatic | src/episode/media/registry.py:199-219 | a fallback exists exactly when some source is usable, and is usable |
| MediaOutcomes.RegisterOutcome | src/episode/media/registry.py:177-193 | a known source is replaced in place, a new one comes last, refused beyond 64; the default is the new source if preferred and usable or if there was none, stays while usable, and else gives way to the fallback: the first preferred usable source, or the first usable |
| MediaOutcomes.UnregisterOutcome | src/episode/media/registry.py:267-286 | exactly the plugin's sources go, in order; the default stays unless it went, and then the fallback takes its place |
| MediaOutcomes.ReadOutcome | src/episode/media/registry.py:221-239 | reading returns the usable default, else the fallback, which it stores, else the first source |
| MediaOutcomes.ListingOutcome | src/episode/media/registry.py:246-265 | the default first, then by name, then by id |
| MediaSelection.RegisterCoherent | src/episode/media/registry.py:177-193 | registering keeps the default registered, and usable when anything is |
| MediaSelection.UnregisterCoherent | src/episode/media/registry.py:267-286 | so does unregistering |
| MediaSelection.SelectionTheorem | src/episode/media/registry.py:221-239 | reading returns the usable default and changes nothing; otherwise some source exactly when one is registered |
| MediaSelection.DefaultIsSticky | src/episode/media/registry.py:177-193 | a usable default stays unless a preferred source arrives or it is itself replaced or removed |
| MediaSelection.ListingTheorem | src/episode/media/registry.py:246-265 | the listing is the usable sources in order, the default first and alone marked |
| MediaSelection.AlwaysCoherent | src/episode/media/registry.py:177-286 | every Device stays coherent over any run |
| MediaSelection.ReadsAreInert | src/episode/media/registry.py:221-239 | removing all reads from a run changes nothing |
| MediaRegistryObject.MediaRegistry.AutomaticSourceId | src/episode/media/registry.py:199-219 | the loops equal the specified fallback |
| MediaRegistryObject.MediaRegistry.Register | src/episode/media/registry.py:177-193 | equals the specified registration, refused beyond the limit; other Devices stay |
| MediaRegistryObject.MediaRegistry.Unregister | src/episode/media/registry.py:267-286 | equals the specified removal; other Devices stay |
| MediaRegistryObject.MediaRegistry.Get | src/episode/media/registry.py:221-239 | equals the specified selection, and changes nothing in a coherent state |
| MediaRegistryObject.MediaRegistry.VideoSources | src/episode/media/registry.py:246-265 | equals the specified listing |

## Left out

- Engine.EpisodeEngine.IngestEvent: announcements, dispatch flags and the thumbnails they lead to are not modelled.
- RepositoryStore.Repository.FindOpenEpisodeForArea: among rows of equal activity SQL leaves the order open; the model takes the first row. `OneJoinable` shows the choice cannot matter under ordered ingress.
- DeadlineCache.GraceAgrees: the republishing loop is one step in the protocol; `Republication` interleaves it with everything else, but not with a second such loop.
- Lifecycle.Tick: forgets all sealed Episodes at once, where the code forgets each just before it awaits its finalizer; in between it is still remembered, so a grace change would republish its lease too.
- Clustering.ClusteringTheorem: assumes ingress times that do not decrease per Area and no tick later than an arrival correlated after it, because last activity is overwritten, not maximised, and a late tick seals what the arrival would have joined.
- CrashRecovery.CrashRecoveryTheorem: assumes deliveries with a Receipt, or decided within their own window; `ShellReclaimedExactly` says what happens otherwise.
- FinalizationBarrier.BarrierTheorem: covers recordings in the two maps when the call begins, with the recorder running and no task cancelled; a workspace whose task left the registry by itself before the call is not among them, as in the code. Shutdown appears as a crash.
- FinalizationBarrier.ClosesOnlyAfterReturn: that a close follows a normal return is the order in which the engine awaits the two, taken over as the guard of the close step; what is proved is that no other step closes and that the links are there.
- TakenRecording.TakeBreaksCallExactly: where a task the call waits for has failed, or another recording of the Episode cannot be published, the call may raise instead; what a step does to such a call is stated in one direction (`FinalizationBarrier.StepHolds`).
- RecordingCore.RecordingEngine.FinalizeEpisode: the joined tasks run one after another here, with no step of another call between them; `Recorder` has every interleaving, and the theorems about calls are proved there.
- RecordingCore.RecordingEngine.StartRecording: recordings are entries filed by Evidence id instead of shared objects, so aliasing of recording objects is not captured.
- RecoveryScan.Scan: what processing a page leaves in the result set is a parameter of this scan; `Engine.EpisodeEngine.BackfillUnassigned` and `RecoverUnassigned` page over the database itself.
- Bundle.HLSRecordingBundle.ValidatePlaylist: lines are classified tokens; splitting, stripping, number parsing, the URI pattern, symbolic links and `..` in references are not modelled.
- Bundle.HLSRecordingBundle.RefreshManifest: observations, kinds, totals, sealing and the order of the list are not modelled.
- PluginReconcile.Projected: dotted lookups in nested Device configuration are flattened to named fields; plugin statuses and timeouts are left out.
- MediaSelection.Listing: names are compared as already case-folded strings.
- Domain.Decision: how capture profiles and class filters reach the decision, and who the recording targets are, is taken as given; only that an allowed decision is never a class-filtered one is used.
- FFmpeg processes, stderr, handler pumps, retry delays and stall detection: an attempt simply ends.
- Journals, manifests, snapshots, file moves, count repair at startup, schema upgrades and legacy partial recordings: one-off or derived from what is modelled.
- HTTP API, schemas, connectors, vendor plugins, discovery, thumbnails and timelapses: presentation and plumbing.

# A verified model of FocusProof's storage and coordination protocols

The agent server of FocusProof keeps evidence media on disk and in a database, hides a
quarantine behind commit markers, restores backups behind a writer fence, transcribes speech
under deadlines, and runs reviews that can be interrupted. This project models those protocols
in Dafny and proves what they promise, for every placement of failures and every interleaving.

| files | what they model |
|---|---|
| Basics, Framing | failures as scripts, big-endian words |
| MediaObjectStore, MediaStoreProperties | the staging protocol of the local media store |
| MediaCommit, MediaCommitSafety, MediaCommitLossless, MediaCommitFindings, MediaCommitOutcomes, MediaIngestion | the commit protocol across database and store |
| Fence, FenceProperties, FenceProcesses | the two-lock, two-marker writer fence |
| Reconcile, Restore, RestoreProperties, RestoreOutcomes, RestoreProcess | three-source reconciliation and the three-resource cutover |
| RestoreFence | a restore inside the writer fence |
| Quarantine, QuarantineProperties, QuarantineRecovery, QuarantineSteps, QuarantineOutcomes, QuarantineStore | the quarantine triplet, its deletion journal and its recovery |
| DbOperation, Speech, SpeechExecution | abandoned database workers and the execution of a transcription |
| ReviewLifecycle, ReviewOutcomes, ConversationManager | reviews, interrupts and shutdown |
| CopyDetection, SigningKeyCache, PngWalk, ClamdFraming | algorithmic kernels |

How things are modelled:

- A step that touches a file, a lock or the database either succeeds, raises before or after
  taking effect, or is where the process dies. A *script* (or a function from step names) gives
  the fate of every step, so a theorem over all scripts covers every crash point and every
  failure, those inside cleanup and rollback included.
- Each file or directory operation is atomic, as is each database transaction. A SHA-256 digest
  is represented by the bytes it is the digest of.
- Where processes or threads interleave, a run is any sequence of enabled steps; where a class
  carries out the source's own code, the steps of everybody else happen between its own.
- Classes keep the fields the source keeps; each method is proved against the function that
  specifies it, and the theorems are about those functions.

## Main results

| component | member | in short |
|---|---|---|
| media commit | MediaCommitSafety.VisibleEvidenceIsStored, MediaCommitSafety.VisibleEvidenceStays | visible evidence has its object, with its bytes, for good |
| media commit | MediaCommitLossless.GoneExactly, MediaCommitLossless.FinalizedObjectsAreKeptExactly | where every finalized object is, and exactly which events lose one |
| media commit | MediaCommitOutcomes.IngestionOutcome | the three results of an undisturbed ingestion |
| media store | MediaStoreProperties.MarkAndAbortExclude, MediaStoreProperties.SweepConverges | marks and aborts exclude each other and resume; sweeps converge |
| fence | FenceProperties.WritersAreFenced, FenceProperties.NoCircularWait, FenceProperties.NeverDeadlocked | writers are fenced, and nobody waits in a circle |
| fence | FenceProcesses.Coordination.Acquire, FenceProcesses.StarvedByOthers | who gives up on a lock, exactly |
| fence | FenceProperties.MarkerOrphanedExactly | when a marker is left behind for good |
| restore | RestoreProperties.AllOrNothing, RestoreProperties.OriginalsSurviveUntilCommit | all three resources or none, and no original is lost |
| restore | RestoreOutcomes.RestoreEndsExactly | when a restore commits, what it leaves behind, what it reports |
| restore in the fence | RestoreFence.WritersAfterARestoreSeeOneSet | whom the fence lets in, and what they see |
| reconciliation | Reconcile.ReconcileStructuredFacts | accepts exactly a one-to-one correspondence |
| quarantine | QuarantineRecovery.VisibilityIsAtomicExactly, QuarantineSteps.EventsGoStepByStep, QuarantineSteps.VisibilityChangesAtMarkerSteps | visibility is atomic over runs and at every step on the way |
| quarantine | QuarantineOutcomes.ExpiresExactly, QuarantineStore.LocalQuarantineStore.RemoveExpired | what expires, and nothing else |
| quarantine | QuarantineRecovery.SweepConverges, QuarantineRecovery.SecondSweepRecoversNothing | one sweep settles any state |
| speech | DbOperation.NeverBoth, SpeechExecution.TranscriptionService.Execute | abandoned writes, one honest verdict, and the verdict of every single fault |
| reviews | ReviewLifecycle.InterruptForgottenExactly, ReviewLifecycle.ClosesOnlyWhenDrained | interrupts, drain and shutdown |
| kernels | CopyDetection.UnitsAreMaximal, SigningKeyCache.RecentlyUsedHits, PngWalk.WalkPng, ClamdFraming.Connection.ScanAdmitted | tokenizer, cache, chunk walk, framing |

## Where the code keeps less than it promises

Each item names a lemma that shows it happen, and one that says exactly when the promise holds.

- A manifest left by an attempt that died early, under a lease whose later attempt succeeded, is
  never swept (`SecondAttemptLeavesAStuckManifest`; exact in `JanitorConverges`).
- A finalize that commits and then raises loses the object it committed
  (`LostAcknowledgementLosesTheObject`), and a sweep without the age cutoff takes the object of a
  live ingestion (`SweepOfALiveIngestionLosesTheObject`); exact in `CommitTakesExactly`,
  `SweepTakesExactly` and, over runs, `GoneExactly`.
- The janitor may adopt an object that no artifact row names (`JanitorAdoptsAnUnnamedObject`; exact
  in `UnnamedAdoptionExactly`).
- The fresh reference assert rejects some honest outcomes of a second attempt
  (`FreshAssertRejectsAnHonestOutcome`; exact in `FreshAssertExactly`).
- A restore is all-or-nothing except when a move of the cutover took effect and its flag was never
  set (`InterruptedCutoverIsNotUndone`; exact in `AllOrNothing`); and writers can be let in to a
  mixed set when an interrupt falls between `complete_recovery` and the commit flag and the undo
  then fails part of the way (`InterruptAfterVerificationExposesAMixedSet`; exact in
  `ReadmittedWritersSeeOneSet`).
- A window that cannot get the admission lock back leaves its maintenance marker behind for good
  (`ClosingTimeOutOrphansTheMarker`, `OrphanedMarkerStays`), and so does one that raises in opening
  after it made the marker; exact in `MarkerOrphanedExactly`. The runbook asks the operator to look.
- A reservation checker that raises makes the quarantine sweep unlink the record of a live artifact
  (`RaisingCheckerLosesALiveArtifact`; exact in `SweepSoundExactly`); a deletion intent that outlives
  its deletion kills an artifact published again under the same id
  (`LeftoverIntentKillsARepublishedArtifact`) and a discard or a rollback goes on after a failed
  marker unlink (`FailedUnlinkTearsAnArtifactApart`); exact in `PublishSoundExactly` and
  `DiscardSoundExactly`, and over runs in `VisibilityIsAtomicExactly`.
- A database operation that raises after its deadline gets neither its commit nor its fallback
  (`RaisingOperationLeavesNothing`; exact in `DeadlineOutcomeExactly`).
- An interrupt that reaches a conversation between the last look and the execution is lost unless
  the conversation remembers it, which the code here does not decide (`InterruptLostBeforeTheStart`;
  exact in `RunLockLeavesOneGap`). With the default run lock, which excludes nobody, one can miss
  its review at any time (`InterruptLostWithoutRunLock`; exact in `InterruptForgottenExactly`).
- Moving a space makes a text a near copy and novel at once (`RespacedCopyIsNovel`; exact in
  `NearCopyIsNovelExactly`).

## Model

| member | source | states |
|---|---|---|
| MediaObjectStore.RunStopsAfterPrefix | agent-server/focusproof/media_adapters/local_media_object_store.py:43-57 | A call that publishes, links and unlinks stops after some prefix of its file steps, after all of them when it succeeds |
| MediaObjectStore.LocalMediaObjectStore.Stage | agent-server/focusproof/media_adapters/local_media_object_store.py:109-149 | Manifest, object, second manifest phase, with the cleanup of a failed stage: the resulting disk, ending and remaining failures are those of the stage plan |
| MediaObjectStore.LocalMediaObjectStore.MarkReferenced | agent-server/focusproof/media_adapters/local_media_object_store.py:151-196 | Hard link first, then the staging traces; refusals for a missing or differing binding, a conflicting copy and an absent object |
| MediaObjectStore.LocalMediaObjectStore.AbortStaged | agent-server/focusproof/media_adapters/local_media_object_store.py:198-212 | Unlinks object then manifest; refuses what is referenced already or not bound |
| MediaObjectStore.LocalMediaObjectStore.RecoverOne | agent-server/focusproof/media_adapters/local_media_object_store.py:276-328 | The recovery loop body for one manifest, for every answer of the reference checker |
| MediaObjectStore.LocalMediaObjectStore.RecoverStaged | agent-server/focusproof/media_adapters/local_media_object_store.py:276-328 | The whole recovery loop, with the list of recovered items |
| MediaStoreProperties.MarkResumes | agent-server/focusproof/media_adapters/local_media_object_store.py:151-196 | A mark retried after an interruption at any step plans exactly the steps that are missing, and an abort is refused from the first step on |
| MediaStoreProperties.AbortResumes | agent-server/focusproof/media_adapters/local_media_object_store.py:198-212 | An abort retried after an interruption ends where an uninterrupted one does, and a mark is refused from the first step on |
| MediaStoreProperties.CallProgress | agent-server/focusproof/media_adapters/local_media_object_store.py:109-212 | One mark, abort or sweep, whatever fails in it, moves along the branch it belongs to and never back; it completes only at the end of that branch |
| MediaStoreProperties.MarkAndAbortExclude | agent-server/focusproof/media_adapters/local_media_object_store.py:109-212 | Over every sequence of marks, aborts and sweeps with every placement of failures: a completed mark leaves one state, a completed abort one other, and they exclude each other |
| MediaStoreProperties.MarkConverges | agent-server/focusproof/media_adapters/local_media_object_store.py:151-196 | However often marks are interrupted, one more without failures completes, with the referenced copy equal to the staged original |
| MediaStoreProperties.SweepEffect | agent-server/focusproof/media_adapters/local_media_object_store.py:276-328 | From any crash state: `referenced/` gains exactly the published staged objects the checker calls referenced, no referenced bytes change, and exactly the manifests that cannot be settled stay |
| MediaStoreProperties.SweepConverges | agent-server/focusproof/media_adapters/local_media_object_store.py:276-328 | A sweep leaves no manifest and no staged object if and only if it can settle every manifest |
| MediaCommitSafety.ReplayKeeps | agent-server/focusproof/persistence/repositories.py:149-177 | Replaying a reservation keeps the database invariant, adds no artifact and hands out a mark intent only for an item with an artifact |
| MediaCommitSafety.FinalizeKeeps | agent-server/focusproof/persistence/repositories.py:178-278 | `finalize` keeps the database invariant, loses no artifact or reservation, makes nothing visible by itself, and hands out a mark intent only for an item it has an artifact of |
| MediaCommitSafety.ConfirmKeeps | agent-server/focusproof/persistence/repositories.py:279-322 | `confirm_reference` keeps the database invariant and makes at most the confirmed object visible |
| MediaCommitSafety.NextSafe | agent-server/focusproof/media_core/ingestion.py:259-283 | Every event of ingestion, replay, abort, crash and sweep, with any step failing, keeps the joint invariant of database and store |
| MediaCommitSafety.RunSafe | agent-server/focusproof/media_core/ingestion.py:259-334 | So does every run |
| MediaCommitSafety.VisibleEvidenceIsStored | agent-server/focusproof/media_core/ingestion.py:458-523 | In every reachable state, visible evidence has its object in `referenced/` with exactly the finalized bytes |
| MediaCommitSafety.VisibleEvidenceStays | agent-server/focusproof/media_core/ingestion.py:458-546 | Whatever happens afterwards, the evidence stays visible and its object keeps its place and bytes |
| MediaCommitSafety.GoneStaysGone | agent-server/focusproof/media_adapters/local_media_object_store.py:198-212 | An object that was staged and is gone never comes back |
| MediaCommitLossless.NextTracked | agent-server/focusproof/media_core/ingestion.py:259-334 | Every event, whatever fails in it, keeps the keys apart: a live attempt's object is known to nobody else, and what is wanted and staged is bound by its published manifest |
| MediaCommitLossless.CommitTakesExactly | agent-server/focusproof/media_core/ingestion.py:259-283 | A commit with the handler of its failure takes a wanted object off the disk exactly when the commit took effect and raised, it created the artifact, and the unlink of the abort takes effect |
| MediaCommitLossless.SweepTakesExactly | agent-server/focusproof/media_adapters/local_media_object_store.py:276-328 | A sweep of one manifest takes a wanted object off the disk exactly when the manifest is a live ingestion's, the checker answers that its item has no artifact, and the unlink takes effect |
| MediaCommitLossless.NextTakesExactly | agent-server/focusproof/media_core/ingestion.py:259-334 | So of every event: the object of an artifact row or of a live attempt that is in one of the two directories is in neither afterwards, and still an artifact's or a live attempt's, if and only if the event is one of those two on that object |
| MediaCommitLossless.GoneExactly | agent-server/focusproof/media_core/ingestion.py:259-334 | Over every run: the object of an artifact row is in neither directory at the end if and only if some event took it away, by losing an acknowledgement or by sweeping an ingestion that goes on to create the artifact |
| MediaCommitLossless.FinalizedObjectsAreKeptExactly | agent-server/focusproof/media_core/ingestion.py:458-523 | At the end of every run the object of every artifact row is in `referenced/` or staged under a published manifest that binds it, with exactly the finalized bytes, unless an event took it away, and then it is in neither |
| MediaCommitLossless.ReplayCompletesExactly | agent-server/focusproof/media_core/ingestion.py:458-486 | A replay whose steps succeed makes the evidence of a pending mark visible if and only if its object is in one of the two directories |
| MediaCommitFindings.FreshAssertExactly | agent-server/focusproof/media_core/ingestion.py:566-598 | Exactly which honest outcomes of `finalize` the fresh assert accepts: it rejects those of a second attempt that follows another artifact |
| MediaCommitFindings.FreshAssertRejectsAnHonestOutcome | agent-server/focusproof/media_core/ingestion.py:566-598 | A reachable state in which it rejects one |
| MediaCommitFindings.ReplayAssertHolds | agent-server/focusproof/media_core/ingestion.py:548-564 | The replay assert never fires on what the database replays |
| MediaCommitFindings.JanitorConverges | agent-server/focusproof/media_core/ingestion.py:525-546 | With a checker that agrees with the database, a sweep empties manifests and staging if and only if no referenced item has a stuck manifest |
| MediaCommitFindings.SecondAttemptLeavesAStuckManifest | agent-server/focusproof/media_adapters/local_media_object_store.py:276-328 | A reachable state in which that fails |
| MediaCommitFindings.StuckStays | agent-server/focusproof/media_adapters/local_media_object_store.py:276-328 | A stuck manifest survives every sweep |
| MediaCommitFindings.LostAcknowledgementLosesTheObject | agent-server/focusproof/media_core/ingestion.py:259-334 | A commit that takes effect and raises makes the handler abort the object the database just committed, for good |
| MediaCommitFindings.SweepOfALiveIngestionLosesTheObject | agent-server/focusproof/media_adapters/local_media_object_store.py:276-328 | Why the age cutoff is needed |
| MediaCommitFindings.UnnamedAdoptionExactly | agent-server/focusproof/media_adapters/local_media_object_store.py:276-328 | When a sweep moves an object into `referenced/` under a key that no artifact row names: exactly when its published manifest names an item whose artifact has another object |
| MediaCommitFindings.JanitorAdoptsAnUnnamedObject | agent-server/focusproof/media_adapters/local_media_object_store.py:276-328 | A reachable state in which it does |
| MediaCommitOutcomes.IngestionOutcome | agent-server/focusproof/media_core/ingestion.py:259-334 | Every undisturbed ingestion, from every reachable state, ends in one of three ways with nothing of its staging left: the first object of its content is referenced with its bytes and the evidence visible; beside a referenced object the evidence is visible and the copy gone; beside one not referenced yet only the copy is gone |
| MediaCommitOutcomes.FailedStageLeavesNoParts | agent-server/focusproof/media_adapters/local_media_object_store.py:128-148 | A stage of which exactly one step fails cleans its temporary files away; what it published stays for the janitor, an object only beside the manifest that names it |
| MediaCommitOutcomes.FailedCommitCleansUp | agent-server/focusproof/media_core/ingestion.py:296-318 | A finalize that is refused, or whose commit fails without effect, leaves the database as it was and nothing of the staging, when the abort works |
| MediaCommitOutcomes.RetryCompletesExactly | agent-server/focusproof/media_core/ingestion.py:458-523 | A second attempt under a reservation whose first object waits for its mark discards its own copy and completes the first one exactly when that is on disk |
| MediaCommitOutcomes.FollowerCompletesExactly | agent-server/focusproof/media_core/ingestion.py:362-371 | A reservation that follows another's object becomes visible at a replay exactly once that object is referenced |
| MediaCommitOutcomes.ReuseReplayCleansUp | agent-server/focusproof/persistence/repositories.py:161-177 | The replay of a reservation that reused a referenced object removes what an interrupted completion left of its own copy, and changes nothing else |
| MediaIngestion.MediaIngestionService.Publish | agent-server/focusproof/media_core/ingestion.py:259-334 | The commit sequence with its exception handling; undisturbed and from every reachable state it ends in one of the three stated results, and it returns an item exactly when the evidence is visible |
| MediaIngestion.MediaIngestionService.FinalizeAndComplete | agent-server/focusproof/media_core/ingestion.py:399-416 | Finalize, then the completion of the fresh intent, then of the replay it may lead to |
| MediaIngestion.MediaIngestionService.CompleteFreshReferenceIntent | agent-server/focusproof/media_core/ingestion.py:488-523 | The fresh completion: mark and confirm, or abort and go on as a replay; an answer is what the database tells of the reservation |
| MediaIngestion.MediaIngestionService.CompleteReplayReferenceIntent | agent-server/focusproof/media_core/ingestion.py:458-486 | The replay completion |
| MediaIngestion.MediaIngestionService.Replay | agent-server/focusproof/media_core/ingestion.py:362-371 | Finding a replay and completing it; with no step failing, from every reachable state, it returns an item exactly when the evidence is visible afterwards |
| MediaIngestion.MediaIngestionService.MarkThenConfirm | agent-server/focusproof/media_core/ingestion.py:412-416 | The object is marked before the database is told |
| Fence.StepKeepsInv | agent-server/focusproof/recovery.py:70-145 | Every step of any writer or maintenance window, crashes and failing file steps included, keeps the protocol invariant |
| FenceProperties.WritersAreFenced | agent-server/focusproof/recovery.py:70-91 | In every run of any number of processes nobody writes while a window is open, while the recovery-incomplete marker exists, or beside another writer |
| FenceProperties.MarkerClearedByItsOwnRecovery | agent-server/focusproof/recovery.py:94-145 | The recovery-incomplete marker goes away only at the hands of a window that began and then completed a recovery, with every writer locked out from its beginning on |
| FenceProperties.NoCircularWait | agent-server/focusproof/recovery.py:70-145 | No sequence of processes waits in a circle, in any reachable state |
| FenceProperties.NeverDeadlocked | agent-server/focusproof/recovery.py:70-145 | Some process can always go on without giving up |
| FenceProperties.MarkerStopsNewWriters | agent-server/focusproof/recovery.py:80-86 | While a maintenance marker stands, no process that comes after it gets to write |
| FenceProperties.OrphanedMarkerStays | agent-server/focusproof/recovery.py:136-145 | A marker whose window is gone is never removed by the protocol |
| FenceProperties.ClosingTimeOutOrphansTheMarker | agent-server/focusproof/recovery.py:136-145 | A window that cannot re-acquire admission in time leaves its marker, and releases the drain lock all the same |
| FenceProperties.MarkerOrphanedExactly | agent-server/focusproof/recovery.py:114-145 | Over every run: a maintenance marker stands that nobody will ever remove if and only if some window abandoned it, by dying as its owner, by running out of time when it closed, by raising after it had made the file, or by failing to remove it |
| FenceProcesses.Coordination.Acquire | agent-server/focusproof/recovery.py:148-153 | Polling with a timeout while others run: it gives up exactly when the lock is taken at each of its looks, one block of the others' steps apart |
| FenceProcesses.StarvedByOthers | agent-server/focusproof/recovery.py:148-153 | That is exactly when at every look another process holds the lock |
| FenceProcesses.Coordination.RaiseIfBlocked | agent-server/focusproof/recovery.py:156-159 | Blocked by the marker it names, which was there when it looked; incomplete before maintenance |
| FenceProcesses.Coordination.EnterWriterBarrier | agent-server/focusproof/recovery.py:70-91 | With any steps of others in between: an admitted writer writes alone and unfenced by any marker; a refused one holds nothing, and it met a marker or was starved of a lock at every look |
| FenceProcesses.Coordination.ExitWriterBarrier | agent-server/focusproof/recovery.py:89-91 | Both locks are given back |
| FenceProcesses.Coordination.OpenWindow | agent-server/focusproof/recovery.py:114-133 | An opened window is announced and has drained every writer; one that does not open holds nothing, and was starved of a lock at every look or could not make its marker |
| FenceProcesses.Coordination.Drain | agent-server/focusproof/recovery.py:127-133 | An announced window opens unless it was starved of the drain lock at every look |
| FenceProcesses.Coordination.Begin | agent-server/focusproof/recovery.py:101-106 | `begin_recovery` makes or accepts the marker; a failure leaves the flag alone |
| FenceProcesses.Coordination.Complete | agent-server/focusproof/recovery.py:108-111 | `complete_recovery` raises unless a recovery was begun |
| FenceProcesses.Coordination.CloseWindow | agent-server/focusproof/recovery.py:136-145 | A closing window that is not starved at every look takes its marker away as far as that step works, and then the incomplete marker exactly when it was verified |
| Reconcile.IndexRows | scripts/ai4c_restore.py:318-335 | Accepts rows exactly when every path and hash is acceptable and no artifact key or object key occurs twice |
| Reconcile.AcceptableExactly | scripts/ai4c_restore.py:328-331 | A row is acceptable exactly when no component of its object key is `..` and its digest has 64 characters |
| Reconcile.IndexEvents | scripts/ai4c_restore.py:336-347 | Accepts events exactly when no key occurs twice |
| Reconcile.FactsAgree | scripts/ai4c_restore.py:350-357 | Type, size and digest of paired facts agree |
| Reconcile.ListFiles | scripts/ai4c_restore.py:358-365 | The regular files, unless some entry is neither file nor directory |
| Reconcile.ObjectsStored | scripts/ai4c_restore.py:370-375 | Size and hash of every named object |
| Reconcile.ReconcileStructuredFacts | scripts/ai4c_restore.py:317-375 | Accepts exactly when rows and events are in one-to-one correspondence with equal facts and the files are exactly the named objects |
| Reconcile.AcceptedFactsCorrespond | scripts/ai4c_restore.py:348-357 | Accepted sources carry the same facts, each equally often |
| Reconcile.AcceptedFilesCorrespond | scripts/ai4c_restore.py:358-375 | Accepted files are one per row with the size and digest of the row |
| Reconcile.OrderDoesNotMatter | scripts/ai4c_restore.py:317-375 | Reordering rows or events never changes the verdict |
| RestoreProperties.CutoverOutcome | scripts/ai4c_restore.py:187-202 | A cutover that succeeds has exchanged the names; one that does not has lost nothing |
| RestoreProperties.CutoverUndoesItself | scripts/ai4c_restore.py:196-202 | With the inner renames succeeding a failed cutover leaves the live database as it was, exactly unless a rename took effect and raised |
| RestoreProperties.DatabaseUndone | scripts/ai4c_restore.py:205-215 | Where the live name points after a rollback, for every placement of failures in it |
| RestoreProperties.SwapOutcome | scripts/ai4c_restore.py:858-879 | A swap succeeds exactly when its moves do, and keeps the original directory in any case |
| RestoreProperties.SwapUndoesItself | scripts/ai4c_restore.py:873-878 | With the inner restore succeeding a failed swap leaves the target as it was, exactly unless a move escaped |
| RestoreProperties.DirectoryUndone | scripts/ai4c_restore.py:882-896 | Where the target stands after a directory rollback, for every placement of failures |
| RestoreProperties.OriginalsSurviveUntilCommit | scripts/ai4c_restore.py:614-712 | For every placement of failures, inside the undo too, and a crash at any step: until the commit every original still exists under some name |
| RestoreProperties.CommitMeansCutOver | scripts/ai4c_restore.py:626-660 | A commit means the backup set is live and reconciled, and cleanup keeps it so |
| RestoreProperties.FaultlessRestoreCommitsExactly | scripts/ai4c_restore.py:614-660 | Without failures a restore commits exactly when there is a live database and the backup set reconciles, and it leaves nothing behind |
| RestoreProperties.AllOrNothing | scripts/ai4c_restore.py:614-712 | With the undo steps succeeding, a restore that fails before its commit leaves live database and trees exactly as they were (absence included), if and only if no move of the cutover took effect without its flag being set |
| RestoreProperties.ReadmittedWritersSeeOneSet | scripts/ai4c_restore.py:614-708 | Writers let in after the window see the untouched originals or the complete reconciled set, except exactly when an interrupt falls between verification and commit and the undo stops part of the way |
| RestoreProperties.InterruptedCutoverIsNotUndone | scripts/ai4c_restore.py:627-634 | A run in which every undo step succeeds and the new database stays beside the old trees |
| RestoreProperties.InterruptAfterVerificationExposesAMixedSet | scripts/ai4c_restore.py:647-660 | Such a run |
| RestoreProperties.RestoreSurvives | scripts/ai4c_restore.py:557-712 | A restore whose process lives through every step ends in a value or an exception |
| RestoreProperties.UndoOutcome | scripts/ai4c_restore.py:661-708 | For every placement of failures: where the handler leaves the live database and both trees, resource by resource |
| RestoreOutcomes.CommitsExactly | scripts/ai4c_restore.py:614-648 | For every placement of failures: a restore commits exactly when every step up to the commit succeeds, there is a live database and the three sources of the backup agree |
| RestoreOutcomes.RollbackErrorsExactly | scripts/ai4c_restore.py:661-708 | A failed rollback is reported exactly when a step failed that undoes something the restore had done |
| RestoreOutcomes.RefusedRestoreLeavesNothing | scripts/ai4c_restore.py:661-712 | With the undo steps succeeding and no move escaping its flag, every database and every tree is exactly as before, with a failed copy beside a tree exactly where that swap had been done |
| RestoreOutcomes.UndoClearsItsDatabases | scripts/ai4c_restore.py:683-702 | Even where a move escaped: no failed copy stays, and the shadow database stays exactly when its creation took effect and raised |
| RestoreOutcomes.FaultlessRefusalLeavesNothing | scripts/ai4c_restore.py:614-712 | Without failures a refused restore leaves no trace at all and reports no rollback error |
| RestoreOutcomes.RestoreEndsExactly | scripts/ai4c_restore.py:557-712 | All of this in one statement, which is what the restore itself ensures |
| RestoreOutcomes.CleanupTriesEverything | scripts/ai4c_restore.py:649-660 | After a commit each original stays beside the backup's set exactly when its own removal did not take effect, whatever became of the others |
| RestoreFence.RestoreLeaves | scripts/ai4c_restore.py:530-554 | In any run of the fence, with any steps of others between its own, a window that carries out a restore ends with exactly the marker and the flags of the restore's outcome |
| RestoreFence.UnverifiedRecoveryKeepsWritersOut | agent-server/focusproof/recovery.py:94-145 | Behind a window that ends its body with the incomplete marker standing and no verification nobody writes before a whole recovery, begun, completed and cleared later by one window |
| RestoreFence.CrashedWindowKeepsWritersOut | agent-server/focusproof/recovery.py:114-145 | Behind a window whose process dies nobody ever writes |
| RestoreFence.WritersAfterARestoreSeeOneSet | scripts/ai4c_restore.py:530-712 | Over every run of the fence and every placement of failures in the restore: a writer after it, with no whole recovery in between, finds the untouched originals or the complete reconciled set, unless the interrupt between verification and commit was followed by a partial undo |
| RestoreFence.ReadmitsExactly | agent-server/focusproof/recovery.py:136-145 | Once the window of a restore closed undisturbed, a writer that meets nobody gets in if and only if the outcome says so |
| RestoreProcess.PersistenceDirectory.Swap | scripts/ai4c_restore.py:858-879 | Refines the swap; the original is kept, and in `previous` on success |
| RestoreProcess.PersistenceDirectory.RollbackSwap | scripts/ai4c_restore.py:882-896 | Refines the directory rollback |
| RestoreProcess.RestoreJob.CutoverDatabase | scripts/ai4c_restore.py:187-202 | Refines the database cutover with its inner handler |
| RestoreProcess.RestoreJob.RollbackDatabase | scripts/ai4c_restore.py:205-215 | Refines the database rollback |
| RestoreProcess.RestoreJob.Prepare | scripts/ai4c_restore.py:614-624 | Extraction, shadow database and the reconciliation of the shadow set |
| RestoreProcess.RestoreJob.CutoverAll | scripts/ai4c_restore.py:626-648 | From `begin_recovery` to the commit, with the flags that steer the handler |
| RestoreProcess.RestoreJob.Undo | scripts/ai4c_restore.py:661-708 | The exception handler: media, openhands, database, shadow, each tried and its failure remembered |
| RestoreProcess.RestoreJob.CleanUp | scripts/ai4c_restore.py:649-660 | Post-commit cleanup goes on after failures |
| RestoreProcess.RestoreJob.RestoreBackupInWindow | scripts/ai4c_restore.py:557-712 | The whole restore: exactly when it commits, what a refused and a committed one leave behind, exactly when it reports rollback errors; nothing lost before the commit, fully cut over after it |
| QuarantineProperties.JournalledUnlinkOutcome | agent-server/focusproof/media_adapters/local_quarantine_store.py:1259-1372 | A journalled unlink touches one file and its journal entry only, leaves neither once finished, and until the file is gone only an intent or what was there before |
| QuarantineProperties.DeleteTripletKeepsSound | agent-server/focusproof/media_adapters/local_quarantine_store.py:1201-1226 | Whatever fails in it, a triplet deletion never leaves a marker without its record and payload |
| QuarantineProperties.PublishSoundExactly | agent-server/focusproof/media_adapters/local_quarantine_store.py:580-675 | A publication with rollback keeps visibility atomic except in exactly two families: the last step raises too late and the rollback removes a file but not the marker, or all five steps take effect over a deletion left half done |
| QuarantineProperties.DiscardSoundExactly | agent-server/focusproof/media_adapters/local_quarantine_store.py:966-1001 | A discard tears a committed artifact exactly when the marker's unlink fails without effect and a later unlink lands |
| QuarantineProperties.RepublishChangesNothing | agent-server/focusproof/media_adapters/local_quarantine_store.py:678-734 | A conflicting republish changes nothing; an equal one only sheds its temporary files |
| QuarantineRecovery.FaultFreeSweep | agent-server/focusproof/media_adapters/local_quarantine_store.py:1063-1168 | The whole sweep of one artifact in one formula; it reports exactly what it changed |
| QuarantineRecovery.SweepConverges | agent-server/focusproof/media_adapters/local_quarantine_store.py:1063-1168 | From any state at all, one sweep without faults leaves no journal, no part, no marker without valid record and payload, no payload without a record |
| QuarantineRecovery.SecondSweepRecoversNothing | agent-server/focusproof/media_adapters/local_quarantine_store.py:1063-1168 | A second sweep changes and reports nothing |
| QuarantineRecovery.CommittedUntouchedExactly | agent-server/focusproof/media_adapters/local_quarantine_store.py:1063-1168 | A committed artifact comes through untouched exactly when no leftover intent names it and its reservation is not known inactive |
| QuarantineRecovery.SweepSoundExactly | agent-server/focusproof/media_adapters/local_quarantine_store.py:1063-1168 | A sweep with any faults, ended early anywhere, keeps visibility atomic exactly unless the checker raises at the record of a visible artifact and the next step takes effect |
| QuarantineRecovery.NextSoundExactly | agent-server/focusproof/media_adapters/local_quarantine_store.py:580-1168 | One event of any kind, whatever fails in it, keeps visibility atomic exactly when it is benign |
| QuarantineRecovery.VisibilityIsAtomicExactly | agent-server/focusproof/media_adapters/local_quarantine_store.py:299-359 | Over every run of publications, deletions, expiries, discards and sweeps, with any step failing or dying: a marker implies a record and payload that match it, and no deletion that will take them, in every state if and only if every event is benign |
| QuarantineRecovery.CrashesLoseVisibilityExactly | agent-server/focusproof/media_adapters/local_quarantine_store.py:299-359 | With crashes alone it is lost exactly by a publication over a deletion that a crash left half done |
| QuarantineRecovery.SoundIsWholeAfterEveryCutSweep | agent-server/focusproof/media_adapters/local_quarantine_store.py:1374-1410 | Why a marker over a leftover intent counts as broken: exactly then some sweep cut short by a crash leaves a marker without its files |
| QuarantineRecovery.PublishVisibleExactly | agent-server/focusproof/media_adapters/local_quarantine_store.py:580-675 | For every placement of failures: a publication ends visible exactly when the artifact was, or when the marker's rename took effect and nothing of a rollback did |
| QuarantineRecovery.DeleteVisibleExactly | agent-server/focusproof/media_adapters/local_quarantine_store.py:1201-1226 | For every placement of failures and every leftover journal: a deletion ends visibility exactly with the marker's unlink |
| QuarantineRecovery.DeleteObjectVisibleExactly | agent-server/focusproof/media_adapters/local_quarantine_store.py:422-425 | So does the plain deletion of an object |
| QuarantineRecovery.DiscardVisibleExactly | agent-server/focusproof/media_adapters/local_quarantine_store.py:966-1001 | A discarded artifact stays visible exactly when no unlink takes effect |
| QuarantineRecovery.FailedUnlinkTearsAnArtifactApart | agent-server/focusproof/media_adapters/local_quarantine_store.py:966-1001 | Two runs from an empty store, a discard and a publication, that leave a marker without record and payload |
| QuarantineRecovery.RaisingCheckerSettlesExactly | agent-server/focusproof/media_adapters/local_quarantine_store.py:1119-1137 | With a checker that raises, a sweep settles exactly what was not committed |
| QuarantineRecovery.RaisingCheckerLosesALiveArtifact | agent-server/focusproof/media_adapters/local_quarantine_store.py:1119-1137 | One outage of the checker costs a live artifact everything at the next sweep |
| QuarantineRecovery.LeftoverIntentKillsARepublishedArtifact | agent-server/focusproof/media_adapters/local_quarantine_store.py:1374-1410 | A leftover intent makes the next sweep delete an artifact published anew under the same id |
| QuarantineSteps.EventsGoStepByStep | agent-server/focusproof/media_adapters/local_quarantine_store.py:580-1410 | For every event, placement of failures and state: the states a crash after 0, 1, 2, ... steps leaves lead from the first state to the last, each by at most one step |
| QuarantineSteps.VisibilityChangesAtMarkerSteps | agent-server/focusproof/media_adapters/local_quarantine_store.py:299-359 | In every event, with every placement of failures and from every state, the marker comes and goes at its own rename or unlink only, and where visibility is atomic on both sides so does the artifact |
| QuarantineSteps.NeverHalfVisible | agent-server/focusproof/media_adapters/local_quarantine_store.py:299-359 | An event in which nothing but crashes goes wrong, and which does not publish over a leftover intent, never shows a half-made or half-deleted artifact at any step on the way |
| QuarantineOutcomes.ExpiresExactly | agent-server/focusproof/media_adapters/local_quarantine_store.py:1041-1061 | For every placement of failures: expiry touches an artifact only if it is committed and expired, one it finishes has lost marker, payload, record and their journal entries and nothing else, and without failures it finishes |
| QuarantineOutcomes.DeletionCompletes | agent-server/focusproof/media_adapters/local_quarantine_store.py:1201-1226 | A triplet deletion that ends well has removed exactly the three files; wherever it stops, no marker is left without the payload and no payload without the record, and no fault makes it touch anything else |
| QuarantineOutcomes.PlainDeletionCompletes | agent-server/focusproof/media_adapters/local_quarantine_store.py:422-425 | The same of a plain deletion |
| QuarantineOutcomes.UnlinkCrashStates | agent-server/focusproof/media_adapters/local_quarantine_store.py:1259-1349 | What a crash after each step of a journalled unlink leaves: the intent before the file goes, a note that it is gone before the entry goes |
| QuarantineOutcomes.FailedCleanupKeepsItsEntry | agent-server/focusproof/media_adapters/local_quarantine_store.py:1351-1372 | A journal entry whose removal fails is there afterwards |
| QuarantineOutcomes.DiscardCompletes | agent-server/focusproof/media_adapters/local_quarantine_store.py:988-999 | Without faults a discard removes exactly the three files |
| QuarantineOutcomes.PublicationCompletes | agent-server/focusproof/media_adapters/local_quarantine_store.py:580-675 | A publication over nothing that ends well has put exactly its payload, record and marker there, and without failures it ends well unless a leftover part is in the way |
| QuarantineOutcomes.PublicationGoesInOrder | agent-server/focusproof/media_adapters/local_quarantine_store.py:580-675 | Wherever a publication over nothing stops, there is no marker without its record and no record without its payload |
| QuarantineOutcomes.FailedPublicationLeavesNothing | agent-server/focusproof/media_adapters/local_quarantine_store.py:580-675 | A publication with exactly one failing step, whichever, leaves no file of its own |
| QuarantineOutcomes.RepublicationAccepted | agent-server/focusproof/media_adapters/local_quarantine_store.py:678-734 | A republish over a committed artifact is accepted exactly when the bindings agree |
| QuarantineOutcomes.YoungFilesAreSpared | agent-server/focusproof/media_adapters/local_quarantine_store.py:1063-1168 | Where every file is newer than the cutoff and no deletion is left over, a sweep takes no step at all, whatever the checker says |
| QuarantineStore.LocalQuarantineStore.PublishFormal | agent-server/focusproof/media_adapters/local_quarantine_store.py:580-675 | Refines the publication, file step by file step |
| QuarantineStore.LocalQuarantineStore.RollbackUnlink | agent-server/focusproof/media_adapters/local_quarantine_store.py:217-249 | Goes on after a failed unlink |
| QuarantineStore.LocalQuarantineStore.RecoveryUnlink | agent-server/focusproof/media_adapters/local_quarantine_store.py:1259-1310 | Intent, unlink, done, entry removed |
| QuarantineStore.LocalQuarantineStore.FinishDeletionJournal | agent-server/focusproof/media_adapters/local_quarantine_store.py:1312-1349 | Finishes an intent |
| QuarantineStore.LocalQuarantineStore.CleanupDeletionJournal | agent-server/focusproof/media_adapters/local_quarantine_store.py:1351-1372 | An entry whose removal is not durable is written again |
| QuarantineStore.LocalQuarantineStore.DeleteTriplet | agent-server/focusproof/media_adapters/local_quarantine_store.py:1201-1226 | Marker, payload, record, each only after the one before |
| QuarantineStore.LocalQuarantineStore.DeleteObject | agent-server/focusproof/media_adapters/local_quarantine_store.py:422-425 | Plain unlinks in order |
| QuarantineStore.LocalQuarantineStore.DiscardPendingCleanReceipt | agent-server/focusproof/media_adapters/local_quarantine_store.py:988-999 | Every unlink is tried |
| QuarantineStore.LocalQuarantineStore.RemoveExpired | agent-server/focusproof/media_adapters/local_quarantine_store.py:1041-1061 | Over the whole store: exactly the committed and expired artifacts are removed and reported, each failed one has a diagnostic instead, and nothing else changes |
| QuarantineStore.LocalQuarantineStore.RecoverQuarantine | agent-server/focusproof/media_adapters/local_quarantine_store.py:1063-1168 | Without faults every artifact of the store ends where its own sweep takes it and the report is exact; with any faults a sound store stays sound |
| DbOperation.NeverBoth | agent-server/focusproof/speech_application.py:482-533 | In every interleaving of caller and worker: operation and fallback never both commit, a returned value means the operation did and no fallback will, cancellation never leads to the fallback |
| DbOperation.VerdictsStay | agent-server/focusproof/speech_application.py:482-549 | What has committed stays committed, and a caller that has ended has ended |
| DbOperation.DeadlineOutcomeExactly | agent-server/focusproof/speech_application.py:505-519 | After a deadline, operation or fallback is carried out exactly when no event of the run was an operation or a commit that raised |
| DbOperation.CallerGetsExactly | agent-server/focusproof/speech_application.py:482-533 | What the caller gets in the end is decided by whether the deadline fired, the caller was cancelled, or something raised; without any of these it is the value |
| DbOperation.RaisingOperationLeavesNothing | agent-server/focusproof/speech_application.py:505-519 | A run in which neither is |
| DbOperation.NeverStuck | agent-server/focusproof/speech_application.py:505-533 | Until both threads are done one of them can go on |
| DbOperation.DbCall.Run | agent-server/focusproof/speech_application.py:482-533 | The call as its caller sees it, for any schedule of the two threads |
| Speech.LateWritesStayHonest | agent-server/focusproof/persistence/repositories.py:1819-1860 | Whatever arrives late: a dispatched request is never cancelled and fails only for the provider's own failure, and a verdict once given stays |
| SpeechExecution.TranscriptionService.RunDb | agent-server/focusproof/speech_application.py:482-533 | One database operation with everything it may leave behind |
| SpeechExecution.TranscriptionService.Scan | agent-server/focusproof/speech_application.py:576-681 | A clean scan is on record before the request goes on |
| SpeechExecution.TranscriptionService.ClaimAsrSlot | agent-server/focusproof/speech_application.py:683-707 | Returns with the slot and its lease held or raises; a slot granted too late whose release fails stays claimed and is not handed to the cleanup |
| SpeechExecution.TranscriptionService.MarkDispatched | agent-server/focusproof/speech_application.py:380-402 | The request counts as dispatched exactly when DISPATCHING was committed for its token |
| SpeechExecution.TranscriptionService.CallProvider | agent-server/focusproof/speech_application.py:241-262 | One call; a timeout is ambiguous, only a classified error is the provider's failure |
| SpeechExecution.TranscriptionService.FinalizeAs | agent-server/focusproof/speech_application.py:404-444 | Accepted only when the write committed for this token |
| SpeechExecution.TranscriptionService.TryBody | agent-server/focusproof/speech_application.py:153-274 | Ends well exactly when SUCCEEDED was committed; when exactly one step goes wrong, it stops there, with that step's exception and the row as it stood |
| SpeechExecution.TranscriptionService.Handle | agent-server/focusproof/speech_application.py:275-328 | No handler writes CANCELLED or FAILED_TERMINAL for a dispatched request unless the provider failed; undisturbed, exactly which verdict is written and which exception goes with it |
| SpeechExecution.TranscriptionService.Cleanup | agent-server/focusproof/speech_application.py:737-776 | However often it is cancelled it waits on; it ends well only with the slot it has a lease for given back and the audio removed |
| SpeechExecution.TranscriptionService.Execute | agent-server/focusproof/speech_application.py:137-345 | At most one provider call, only after a clean scan and DISPATCHING; a transcript only with SUCCEEDED committed, slot released, audio removed; no dishonest verdict. When nothing goes wrong, a transcript; when exactly one step does, exactly the state the row ends in, the exception reported, no transcript, and no slot or audio left behind; when the scan is not clean or no slot comes free, FAILED_TERMINAL |
| SpeechExecution.TranscriptionService.Linger | agent-server/focusproof/speech_application.py:535-556 | The same holds whatever still arrives afterwards |
| ReviewLifecycle.TablesFollowActive | agent-server/focusproof/openhands_runtime/manager.py:258-280 | A running review is active, an interrupted pair is active, and with the last active review all tables are empty |
| ReviewLifecycle.ActiveShrinksInShutdown | agent-server/focusproof/openhands_runtime/manager.py:265-268 | Once shutdown has begun the active reviews only shrink |
| ReviewLifecycle.ClosesOnlyWhenDrained | agent-server/focusproof/openhands_runtime/manager.py:450-457 | `close_all` closes a handle only when no review is active |
| ReviewLifecycle.DrainNeverStuck | agent-server/focusproof/openhands_runtime/manager.py:451-453 | Until the drain is over some review can go on |
| ReviewLifecycle.InterruptForgottenExactly | agent-server/focusproof/openhands_runtime/manager.py:339-449 | With or without an excluding run lock, over every run: an interrupted review is forgotten (it executes or is about to, untold, with no interrupt on its way) if and only if some interrupt, of one call or of the whole session, or a shutdown missed it: it found another review registered or no handle, or was the last on its way and the conversation did not hear it |
| ReviewLifecycle.RunLockLeavesOneGap | agent-server/focusproof/openhands_runtime/manager.py:339-388 | With an excluding run lock: if and only if its last interrupt reached a conversation between the last look under the lock and the execution, and that conversation does not remember it |
| ReviewLifecycle.NoInterruptIsLost | agent-server/focusproof/openhands_runtime/manager.py:413-425 | So an interrupt or a shutdown that misses nobody reaches every review it is aimed at, wherever that stands, until it leaves; and with an excluding run lock and conversations that remember, each does |
| ReviewLifecycle.InterruptLostBeforeTheStart | agent-server/focusproof/openhands_runtime/manager.py:339-388 | A reachable state in which one is lost there |
| ReviewLifecycle.InterruptLostWithoutRunLock | agent-server/focusproof/openhands_runtime/manager.py:413-425 | Without an excluding run lock, a reachable state that loses an interrupt of an executing review |
| ReviewOutcomes.UndisturbedReviewExecutes | agent-server/focusproof/openhands_runtime/manager.py:258-388 | A review of a session at rest, which nothing disturbs, is admitted, enters the running table and executes |
| ReviewOutcomes.UndisturbedReviewLeavesNoTrace | agent-server/focusproof/openhands_runtime/manager.py:271-280 | Its end leaves every table as the review found it; only the handle it made stays |
| ConversationManager.Manager.EnterReview | agent-server/focusproof/openhands_runtime/manager.py:264-268 | Admits exactly while reviews are accepted |
| ConversationManager.Manager.RegisterReview | agent-server/focusproof/openhands_runtime/manager.py:302-306 | Enters the running table unless shutdown has begun |
| ConversationManager.Manager.MayExecute | agent-server/focusproof/openhands_runtime/manager.py:339-346 | The last look under the lifecycle lock, and exactly when it lets the review go on |
| ConversationManager.Manager.LeaveReview | agent-server/focusproof/openhands_runtime/manager.py:271-280 | The entry it looks up is always there; the tables shrink together |
| ConversationManager.Manager.InterruptReviews | agent-server/focusproof/openhands_runtime/manager.py:413-425 | Marks what is active, and leaves the lock with an interrupt on its way to the handle of a running review |
| ConversationManager.Manager.BeginClosing | agent-server/focusproof/openhands_runtime/manager.py:428-449 | Marks everything active and tells every running handle |
| ConversationManager.Manager.CloseHandles | agent-server/focusproof/openhands_runtime/manager.py:450-465 | With any requests served between its steps: every handle that was there when the drain ended is closed, and what is left was made meanwhile |
| CopyDetection.CopyComparisonUnits | agent-server/focusproof/domain/scoring.py:75-94 | The loop cuts the text into its CJK characters and its maximal words, nothing else, and computes the recursive specification |
| CopyDetection.NothingLostNothingInvented | agent-server/focusproof/domain/scoring.py:75-94 | Flattened, the units are the text filtered to CJK and alphanumeric characters |
| CopyDetection.UnitsAreMaximal | agent-server/focusproof/domain/scoring.py:75-94 | For every text: the units are the text cut along ordered spans that cover all CJK and alphanumeric characters, each span one CJK character or a word that neither side can be extended on |
| CopyDetection.TokenizationIsUnique | agent-server/focusproof/domain/scoring.py:75-94 | There is only one way to cut a text like that |
| CopyDetection.RatiosNearExactly | agent-server/focusproof/domain/scoring.py:109-119 | The three ratio bounds amount to 5 shared >= 4 max of the lengths, so lengths differ by at most 5/4 |
| CopyDetection.NearCopyExactly | agent-server/focusproof/domain/scoring.py:97-119 | Two texts are near copies exactly when both normalized texts are nonempty and they are equal, or there are units and 5 shared >= 4 max |
| CopyDetection.NovelExactly | agent-server/focusproof/domain/scoring.py:129-138 | A text brings something novel exactly when it has units and less than four fifths of them are the other text's |
| CopyDetection.EditedCopyIsNear | agent-server/focusproof/domain/scoring.py:97-119 | Exchanging at most a fifth of the units of a text leaves a near copy |
| CopyDetection.NormalizedIsTheUnits | agent-server/focusproof/domain/scoring.py:70-94 | The normalized text is the concatenated units exactly when every CJK character of the text counts as alphanumeric |
| CopyDetection.NearCopyIsSymmetric | agent-server/focusproof/domain/scoring.py:97-119 | Near-copy is symmetric |
| CopyDetection.OrderOfUnitsDoesNotMatter | agent-server/focusproof/domain/scoring.py:97-138 | Outside the equality case near-copy and novelty depend on the multiset of units only |
| CopyDetection.NearCopyIsNovelExactly | agent-server/focusproof/domain/scoring.py:97-138 | A near copy brings something novel exactly when the normalized texts are equal and less than four fifths of its units are the other text's |
| CopyDetection.RespacedCopyIsNovel | agent-server/focusproof/domain/scoring.py:102-103 | Moving a space does it: a family of texts that are near copies and novel at once |
| SigningKeyCache.NeverOverfull | agent-server/focusproof/api/oidc.py:68-75 | After any history the cache holds at most `max_entries`, each once |
| SigningKeyCache.HitIsLatestPut | agent-server/focusproof/api/oidc.py:58-66 | A hit returns the key of the latest put for that kid, still within its time to live |
| SigningKeyCache.RecentlyUsedHits | agent-server/focusproof/api/oidc.py:58-75 | After a use, and fewer than `max_entries` distinct other kids put or hit since, a kid hits exactly until the time to live of its latest put is over |
| SigningKeyCache.PutIsFoundUntilItRunsOut | agent-server/focusproof/api/oidc.py:58-75 | So does a key that was put, after any calls about fewer than `max_entries` other kids |
| SigningKeyCache.Store.Lookup | agent-server/focusproof/api/oidc.py:58-66 | Hits exactly the unexpired entries, with the latest put, and drops an expired one |
| SigningKeyCache.Store.Insert | agent-server/focusproof/api/oidc.py:68-75 | The eviction loop ends within bounds and keeps the new key |
| PngWalk.DecompositionIsUnique | agent-server/focusproof/media_adapters/decoder_worker.py:78-91 | A datastream has one decomposition into chunks |
| PngWalk.WalkPng | agent-server/focusproof/media_adapters/decoder_worker.py:74-93 | Accepts exactly the signature followed by chunks of which the last, and only the last, is an empty IEND |
| PngWalk.WalkRecoversWhatWasSerialized | agent-server/focusproof/media_adapters/decoder_worker.py:78-93 | Walking a serialized sequence recovers it |
| ClamdFraming.DecodeSkipsFrames | scripts/run_real_image_evidence_gate.py:136-153 | Whole frames decode to their contents and what follows decides the rest |
| ClamdFraming.Connection.SendSource | agent-server/focusproof/media_adapters/clamd_malware_scanner.py:235-247 | All of the source goes out in whole frames, or nothing decodable does |
| ClamdFraming.Connection.ReceiveResponse | agent-server/focusproof/media_adapters/clamd_malware_scanner.py:307-315 | The response is the reply, cut after one byte more than is allowed, or the failure of the read that raised |
| ClamdFraming.Connection.Connect | agent-server/focusproof/media_adapters/clamd_malware_scanner.py:264-290 | The first address that is not refused decides; without one the scanner is unavailable |
| ClamdFraming.Connection.ScanAdmitted | agent-server/focusproof/media_adapters/clamd_malware_scanner.py:228-262 | For any addresses, source and read sizes, and sends and reads failing anywhere: the peer decodes a stream only if it is the whole source with its declared facts holding; a clean verdict implies that; with none failing, exactly which status is returned |
| ClamdFraming.CleanExactly | agent-server/focusproof/media_adapters/clamd_malware_scanner.py:323-339 | Exactly one response is clean |
| ClamdFraming.MaliciousExactly | agent-server/focusproof/media_adapters/clamd_malware_scanner.py:323-339 | A response is malicious exactly when it is one NUL-terminated decodable line that reads `stream: ` name ` FOUND`, or the two phrases sharing their space |
| Framing.BigEndianIsNetworkOrder | agent-server/focusproof/media_adapters/clamd_malware_scanner.py:235-247 | The length prefix has its most significant byte first |

## Left out

- Permissions, ownership, symbolic links, directory fsync support and file-name validation: the model has presence, atomic rename, link and unlink only; a failing fsync is a step that raises after taking effect.
- Clocks: an age cutoff is a parameter that says which files are young, a deadline is an outcome of the wait it bounds, an expiry is a comparison of integers.
- Two actors on one staged object or one receipt at the same time; the session lock and the publication lease exclude them. The FileExistsError race inside `mark_referenced` belongs there too.
- `delete` of a referenced object, which the application never calls, and the `.part` files that `recover_staged` never looks at.
- Quotas, owner scoping, lease expiry of media reservations, IntegrityError races and the HMAC keyring in the repositories; scanning, normalization and validation of media before the commit sequence.
- The look for a completed result after a failed mark or confirm (agent-server/focusproof/media_core/ingestion.py:418-442): it can only turn the error of `Publish` into that result.
- Staging of the pending clean receipt and the publication lease around promotion in the ingestion service.
- The `.part` files through which the deletion journal is written: a journal write is one step.
- The scan spool, promotion from it, the lookup of a promoted receipt and unreadable journal files of the quarantine store; a sweep that meets an unreadable journal stops with a diagnostic.
- Partial loads of a shadow database, the legacy (unstructured) reconciliation, bundle validation (one step that may fail) and archive extraction.
- An interrupt between two steps of the restore is placed before the second of them or at the end of the first; those between a move and the assignment of its flag are steps of their own, and the one between verification and commit is the step that raises after taking effect.
- The slot release that the fallback of a SUCCEEDED write performs, and error codes beyond the classes that `execute` tells apart.
- Message synchronization, provider admission as a wait of its own, and the interrupt a review's own time-out sends in the conversation manager; an interrupt that a conversation remembers is taken to be consumed by the review it reached, and a handle that is closed and made again under a review is taken to be the same conversation.
- Unicode normalization, case folding, the alphanumeric test and strict UTF-8 decoding are parameters; the ratios of copy detection are exact fractions instead of floats.
- CRC values in PNG chunks, which the walk does not check either, and the JPEG and WebP branches, which are single comparisons.
- Sockets, threads and locks below the steps named here; HTTP routes, token verification, agent and provider calls, the frontend and reports.

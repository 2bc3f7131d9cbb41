/** How a restore ends: when it commits, what a refused one leaves behind, when its undo is
    reported as failed, and what the cleanup after a commit takes away. */
module RestoreOutcomes {
  import opened Basics
  import opened Reconcile
  import opened Restore
  import opened RestoreProperties

  // ---------------------------------------------------------------------
  // How far a placement of failures lets a restore get

  predicate Extracts(fates: Fates) {
    fates(CheckBundle).Succeeds? && fates(Extract(OpenHands)).Succeeds? && fates(Extract(Media)).Succeeds?
  }

  predicate ShadowMade(fates: Fates) {
    Extracts(fates) && fates(CreateShadow).Succeeds?
  }

  /** `CREATE DATABASE` took effect and raised: no flag says that there is a shadow. */
  predicate ShadowUnrecorded(fates: Fates) {
    Extracts(fates) && fates(CreateShadow).RaisesAfter?
  }

  ghost predicate Prepares(bundle: Bundle, fates: Fates) {
    && ShadowMade(fates) && fates(LoadShadow).Succeeds? && fates(ReconcileShadow).Succeeds?
    && Reconciles(bundle.database.rows, bundle.openhands.events, bundle.media.files)
  }

  ghost predicate CutsOverDatabase(w: World, bundle: Bundle, fates: Fates) {
    && Prepares(bundle, fates) && fates(Begin).Succeeds? && Live in w.databases
    && fates(TerminateLive).Succeeds? && fates(LiveToRollback).Succeeds?
    && fates(TerminateShadow).Succeeds? && fates(ShadowToLive).Succeeds? && fates(NoteCutover).Succeeds?
  }

  ghost predicate CutsOverOpenHands(w: World, bundle: Bundle, fates: Fates) {
    && CutsOverDatabase(w, bundle, fates)
    && SwapSucceeds(w.openhands.target, OpenHands, fates) && fates(NoteSwap(OpenHands)).Succeeds?
  }

  ghost predicate CutsOverMedia(w: World, bundle: Bundle, fates: Fates) {
    && CutsOverOpenHands(w, bundle, fates)
    && SwapSucceeds(w.media.target, Media, fates) && fates(NoteSwap(Media)).Succeeds?
  }

  ghost predicate Commits(w: World, bundle: Bundle, fates: Fates) {
    CutsOverMedia(w, bundle, fates) && fates(ReconcileLive).Succeeds? && fates(Complete).Succeeds?
  }

  lemma PreparationExactly(w: World, bundle: Bundle, fates: Fates)
    requires Fresh(w) && fates(CheckBundle).Succeeds?
    ensures var a := PrepareRun(w, bundle, fates);
            && (a.ending.Done? <==> Prepares(bundle, fates))
            && a.flags == NoFlags().(shadowCreated := ShadowMade(fates))
            && a.world.databases - {Shadow} == w.databases
            && (Shadow in a.world.databases <==> Extracts(fates) && TakesEffect(fates(CreateShadow)))
            && a.world.openhands == w.openhands.(prepared := a.world.openhands.prepared)
            && a.world.media == w.media.(prepared := a.world.media.prepared)
  {
    hide Reconciles;
  }

  /** The flags of the handler say exactly how far the restore got. */
  predicate Tells(flags: Flags, shadow: bool, database: bool, openhands: bool, media: bool, commits: bool) {
    && (flags.databaseCutover <==> database)
    && (flags.shadowCreated <==> shadow && !database)
    && (flags.openhandsCutover <==> openhands)
    && (flags.mediaCutover <==> media)
    && (flags.committed <==> commits)
  }

  ghost predicate TellsExactly(w: World, bundle: Bundle, fates: Fates, flags: Flags) {
    Tells(flags, ShadowMade(fates), CutsOverDatabase(w, bundle, fates), CutsOverOpenHands(w, bundle, fates),
          CutsOverMedia(w, bundle, fates), Commits(w, bundle, fates))
  }

  lemma CutoverFlags(w: World, bundle: Bundle, w1: World, flags: Flags, fates: Fates)
    requires ReadyToCutOver(w, bundle, w1) && flags == NoFlags().(shadowCreated := true)
    requires Prepares(bundle, fates)
    ensures TellsExactly(w, bundle, fates, CutoverAllRun(w1, flags, fates).flags)
  {
    CutoverOutcome(w1.databases, fates);
    SwapOutcome(w1.openhands, OpenHands, fates);
    SwapOutcome(w1.media, Media, fates);
    CutoverAllOutcome(w, bundle, w1, flags, fates);
    hide Reconciles, CutoverRun, SwapRun, CutoverProgress, SwapSucceeds, DatabaseKept, DirectoryKept, CutOver, Swapped;
  }

  lemma FlagsTellExactly(w: World, bundle: Bundle, fates: Fates)
    requires Fresh(w) && fates(CheckBundle).Succeeds?
    ensures TellsExactly(w, bundle, fates, ForwardRun(w, bundle, fates).flags)
  {
    PreparationExactly(w, bundle, fates);
    PreparationOutcome(w, bundle, fates);
    var prepared := PrepareRun(w, bundle, fates);
    hide PrepareRun, CutoverAllRun, Reconciles, ReadyToCutOver;
    if prepared.ending.Done? {
      CutoverFlags(w, bundle, prepared.world, prepared.flags, fates);
    }
  }

  /** For every placement of failures: a restore commits exactly when every step up to the commit
      succeeds, there is a live database, and the backup's three sources agree. */
  lemma CommitsExactly(w: World, bundle: Bundle, fates: Fates)
    requires Fresh(w)
    ensures RestoreRun(w, bundle, fates).committed <==> Commits(w, bundle, fates)
  {
    if fates(CheckBundle).Succeeds? {
      FlagsTellExactly(w, bundle, fates);
      var a := ForwardRun(w, bundle, fates);
      UndoNeverCommits(a.world, a.flags, fates);
      CommittedIsNoCrash(w, bundle, fates);
    }
    hide ForwardRun, CleanupRun, UndoRun, CutsOverMedia;
  }

  lemma CommittedIsNoCrash(w: World, bundle: Bundle, fates: Fates)
    requires Fresh(w)
    ensures var a := ForwardRun(w, bundle, fates); a.flags.committed ==> a.ending.Done?
  {
    PreparationOutcome(w, bundle, fates);
    var prepared := PrepareRun(w, bundle, fates);
    hide PrepareRun, CutoverAllRun, Reconciles, ReadyToCutOver;
    if prepared.ending.Done? {
      CutoverAllOutcome(w, bundle, prepared.world, prepared.flags, fates);
    }
  }

  // ---------------------------------------------------------------------
  // Failures of the undo

  predicate DirectoryUndoFails(payload: Payload, had: bool, fates: Fates) {
    !fates(UndoMoveOut(payload)).Succeeds? || (had && !fates(UndoMoveBack(payload)).Succeeds?)
  }

  predicate DatabaseUndoFails(fates: Fates) {
    || !fates(UndoTerminateLive).Succeeds? || !fates(LiveToFailed).Succeeds?
    || !fates(UndoTerminateRollback).Succeeds? || !fates(RollbackToLive).Succeeds? || !fates(DropFailed).Succeeds?
  }

  predicate ShadowUndoFails(fates: Fates) {
    !fates(UndoTerminateShadow).Succeeds? || !fates(DropShadow).Succeeds?
  }

  lemma DirectoryUndoFailsExactly(slots: Slots, swapped: Slots, payload: Payload, fates: Fates)
    requires SwapReady(slots) && Swapped(slots, swapped)
    ensures RollbackDirectoryRun(swapped, payload, slots.target.Some?, fates).ending.Done?
            <==> !DirectoryUndoFails(payload, slots.target.Some?, fates)
  {
  }

  lemma DatabaseUndoFailsExactly(dbs: Databases, cut: Databases, fates: Fates)
    requires ShadowReady(dbs) && CutOver(dbs, cut)
    ensures RollbackDatabaseRun(cut, fates).ending.Done? <==> !DatabaseUndoFails(fates)
  {
  }

  /** A step of the handler that belongs to something that was done failed. */
  predicate UndoFails(flags: Flags, hadOpenHands: bool, hadMedia: bool, fates: Fates) {
    || (flags.mediaCutover && DirectoryUndoFails(Media, hadMedia, fates))
    || (flags.openhandsCutover && DirectoryUndoFails(OpenHands, hadOpenHands, fates))
    || (flags.databaseCutover && DatabaseUndoFails(fates))
    || (flags.shadowCreated && ShadowUndoFails(fates))
  }

  lemma UndoReportsExactly(w1: World, a: Attempt, fates: Fates)
    requires ShadowReady(w1.databases) && SwapReady(w1.openhands) && SwapReady(w1.media)
    requires CutoverProgress(w1, a, fates)
    requires !UndoRun(a.world, a.flags, fates).ending.Crashed?
    ensures UndoRun(a.world, a.flags, fates).rollbackErrors
            <==> UndoFails(a.flags, w1.openhands.target.Some?, w1.media.target.Some?, fates)
  {
    if a.flags.mediaCutover {
      DirectoryUndoFailsExactly(w1.media, a.world.media, Media, fates);
    }
    if a.flags.openhandsCutover {
      DirectoryUndoFailsExactly(w1.openhands, a.world.openhands, OpenHands, fates);
    }
    if a.flags.databaseCutover {
      DatabaseUndoFailsExactly(w1.databases, a.world.databases, fates);
    }
    hide CutoverProgress, RollbackDirectoryRun, RollbackDatabaseRun, DirectoryUndoFails, DatabaseUndoFails;
  }

  lemma UndoOfTheShadowReports(w: World, flags: Flags, fates: Fates)
    requires !flags.databaseCutover && !flags.openhandsCutover && !flags.mediaCutover
    requires !UndoRun(w, flags, fates).ending.Crashed?
    ensures UndoRun(w, flags, fates).rollbackErrors <==> flags.shadowCreated && ShadowUndoFails(fates)
  {
    hide RollbackDirectoryRun, RollbackDatabaseRun;
  }

  ghost predicate RollbackFails(w: World, bundle: Bundle, fates: Fates) {
    && !Commits(w, bundle, fates)
    && ( || (CutsOverMedia(w, bundle, fates) && DirectoryUndoFails(Media, w.media.target.Some?, fates))
         || (CutsOverOpenHands(w, bundle, fates) && DirectoryUndoFails(OpenHands, w.openhands.target.Some?, fates))
         || (if CutsOverDatabase(w, bundle, fates) then DatabaseUndoFails(fates)
             else ShadowMade(fates) && ShadowUndoFails(fates)))
  }

  /** A failed rollback is reported exactly when a step undoing something that was done failed. */
  lemma RollbackErrorsExactly(w: World, bundle: Bundle, fates: Fates)
    requires Fresh(w) && !RestoreRun(w, bundle, fates).ending.Crashed?
    ensures RestoreRun(w, bundle, fates).rollbackErrors <==> RollbackFails(w, bundle, fates)
  {
    if fates(CheckBundle).Succeeds? {
      FlagsTellExactly(w, bundle, fates);
      PreparationOutcome(w, bundle, fates);
      PreparationExactly(w, bundle, fates);
      var prepared := PrepareRun(w, bundle, fates);
      hide PrepareRun, CutoverAllRun, UndoRun, CleanupRun, Reconciles, Fresh, CutsOverDatabase, Prepares, CutoverProgress,
           Extracts, DirectoryUndoFails, DatabaseUndoFails, ShadowUndoFails, CutsOverOpenHands, FullyCutOver, LiveReconciles,
           EveryMoveSucceeds, CutsOverMedia, Commits;
      if prepared.ending.Done? {
        CutoverAllOutcome(w, bundle, prepared.world, prepared.flags, fates);
        var a := CutoverAllRun(prepared.world, prepared.flags, fates);
        if !a.flags.committed && !a.ending.Crashed? {
          UndoReportsExactly(prepared.world, a, fates);
        }
      } else if !prepared.ending.Crashed? {
        UndoOfTheShadowReports(prepared.world, prepared.flags, fates);
      }
    }
  }

  // ---------------------------------------------------------------------
  // What a restore that did not commit leaves behind

  /** Every undo step succeeds, the removal of the shadow and of the failed copy included. */
  predicate UndoWorks(fates: Fates) {
    && UndoStepsSucceed(fates) && fates(DropFailed).Succeeds?
    && fates(UndoTerminateShadow).Succeeds? && fates(DropShadow).Succeeds?
  }

  /** A cutover that did not take effect, or that undid itself, leaves the databases as they were. */
  lemma FailedCutoverLeavesDatabases(dbs: Databases, fates: Fates)
    requires ShadowReady(dbs) && InnerRenameSucceeds(fates) && CutoverRun(dbs, fates).ending.Raised?
    requires Live in dbs ==> !RenameLeftBehind(fates)
    ensures CutoverRun(dbs, fates).dbs == dbs
  {
  }

  lemma FailedSwapLeavesSlots(slots: Slots, payload: Payload, fates: Fates)
    requires SwapReady(slots) && fates(PutBack(payload)).Succeeds? && SwapRun(slots, payload, fates).ending.Raised?
    requires !MoveLeftBehind(slots.target, slots.prepared.value, payload, fates)
    ensures SwapRun(slots, payload, fates).slots.(prepared := slots.prepared) == slots
  {
  }

  lemma UndoneSwapLeaves(slots: Slots, swapped: Slots, payload: Payload, fates: Fates)
    requires SwapReady(slots) && Swapped(slots, swapped) && !DirectoryUndoFails(payload, slots.target.Some?, fates)
    ensures RollbackDirectoryRun(swapped, payload, slots.target.Some?, fates).slots
            == Slots(slots.target, None, slots.prepared, None)
  {
  }

  lemma UndoneCutoverLeaves(dbs: Databases, cut: Databases, fates: Fates)
    requires ShadowReady(dbs) && CutOver(dbs, cut) && !DatabaseUndoFails(fates)
    ensures RollbackDatabaseRun(cut, fates).dbs == dbs - {Shadow}
  {
  }

  /** Where the cutover stopped, with nothing escaping the flags. */
  ghost predicate StoppedCleanly(w1: World, a: Attempt) {
    && (!a.flags.databaseCutover ==> a.world.databases == w1.databases)
    && (!a.flags.openhandsCutover ==> a.world.openhands.(prepared := w1.openhands.prepared) == w1.openhands)
    && (!a.flags.mediaCutover ==> a.world.media.(prepared := w1.media.prepared) == w1.media)
  }

  lemma CutoverStopsCleanly(w: World, bundle: Bundle, w1: World, flags: Flags, fates: Fates)
    requires ReadyToCutOver(w, bundle, w1) && flags == NoFlags().(shadowCreated := true)
    requires PrepareRun(w, bundle, fates).ending.Done? && fates(CheckBundle).Succeeds?
    requires UndoStepsSucceed(fates) && !MoveEscapesUndo(w, bundle, fates)
    requires CutoverAllRun(w1, flags, fates).ending.Raised?
    ensures StoppedCleanly(w1, CutoverAllRun(w1, flags, fates))
  {
    CutoverOutcome(w1.databases, fates);
    SwapOutcome(w1.openhands, OpenHands, fates);
    SwapOutcome(w1.media, Media, fates);
    hide CutoverRun, SwapRun, PrepareRun, Reconciles, LiveReconciles, Swapped, CutOver, DatabaseKept, DirectoryKept,
         RenameLeftBehind, MoveLeftBehind;
    if CutoverRun(w1.databases, fates).ending.Raised? && fates(Begin).Succeeds? {
      FailedCutoverLeavesDatabases(w1.databases, fates);
    }
    if SwapRun(w1.openhands, OpenHands, fates).ending.Raised?
       && !MoveLeftBehind(w1.openhands.target, bundle.openhands, OpenHands, fates) {
      FailedSwapLeavesSlots(w1.openhands, OpenHands, fates);
    }
    if SwapRun(w1.media, Media, fates).ending.Raised?
       && !MoveLeftBehind(w1.media.target, bundle.media, Media, fates) {
      FailedSwapLeavesSlots(w1.media, Media, fates);
    }
  }

  /** A tree's places, with the copy beside it that the rollback of a swap keeps. */
  function KeptBeside(slots: Slots, swapped: bool, copy: Directory): Slots {
    slots.(failed := if swapped then Some(copy) else None)
  }

  ghost predicate BackAsItWas(w: World, bundle: Bundle, fates: Fates, o: Outcome) {
    && o.world.databases == w.databases
    && o.world.openhands == KeptBeside(w.openhands, CutsOverOpenHands(w, bundle, fates), bundle.openhands)
    && o.world.media == KeptBeside(w.media, CutsOverMedia(w, bundle, fates), bundle.media)
  }

  lemma UndoneDirectoryLeaves(slots: Slots, reached: Slots, payload: Payload, cutover: bool, had: bool, fates: Fates)
    requires SwapReady(slots) && UndoWorks(fates)
    requires if cutover then Swapped(slots, reached) && had == slots.target.Some?
             else reached.(prepared := slots.prepared) == slots
    ensures UndoDirectoryRun(reached, payload, cutover, had, fates).slots.(prepared := None)
            == KeptBeside(slots.(prepared := None), cutover, slots.prepared.value)
  {
    if cutover {
      UndoneSwapLeaves(slots, reached, payload, fates);
    }
    hide RollbackDirectoryRun;
  }

  lemma UndoLeaves(w1: World, a: Attempt, fates: Fates)
    requires ShadowReady(w1.databases) && SwapReady(w1.openhands) && SwapReady(w1.media) && UndoWorks(fates)
    requires CutoverProgress(w1, a, fates) && StoppedCleanly(w1, a)
    requires a.flags.shadowCreated == !a.flags.databaseCutover
    requires !UndoRun(a.world, a.flags, fates).ending.Crashed?
    ensures var o := WorkRemoved(UndoRun(a.world, a.flags, fates).world);
            && o.databases == w1.databases - {Shadow}
            && o.openhands
               == KeptBeside(w1.openhands.(prepared := None), a.flags.openhandsCutover, w1.openhands.prepared.value)
            && o.media == KeptBeside(w1.media.(prepared := None), a.flags.mediaCutover, w1.media.prepared.value)
  {
    UndoneDirectoryLeaves(w1.openhands, a.world.openhands, OpenHands, a.flags.openhandsCutover,
                          a.flags.openhandsHadPrevious, fates);
    UndoneDirectoryLeaves(w1.media, a.world.media, Media, a.flags.mediaCutover, a.flags.mediaHadPrevious, fates);
    if a.flags.databaseCutover {
      UndoneCutoverLeaves(w1.databases, a.world.databases, fates);
    }
    hide CutoverProgress, UndoDirectoryRun, RollbackDatabaseRun, UndoStepsSucceed, KeptBeside;
  }

  lemma ShadowAloneUndone(w: World, bundle: Bundle, fates: Fates)
    requires Fresh(w) && UndoWorks(fates) && fates(CheckBundle).Succeeds? && !ShadowUnrecorded(fates)
    requires PrepareRun(w, bundle, fates).ending.Raised?
    ensures var a := PrepareRun(w, bundle, fates);
            var o := UndoRun(a.world, a.flags, fates);
            && o.ending.Raised?
            && WorkRemoved(o.world).(incomplete := w.incomplete, started := w.started, verified := w.verified) == w
  {
    PreparationExactly(w, bundle, fates);
    var a := PrepareRun(w, bundle, fates);
    hide PrepareRun, Reconciles;
    assert Shadow !in a.world.databases ==> a.world.databases - {Shadow} == a.world.databases;
  }

  /** Main result: a restore that ends before its commit, with every undo step succeeding, leaves the
      databases under their names and the trees in their places exactly as they were, with a copy
      beside a tree exactly where that swap had been done, unless a move escaped its flag. */
  lemma RefusedRestoreLeavesNothing(w: World, bundle: Bundle, fates: Fates)
    requires Fresh(w) && UndoWorks(fates)
    requires var o := RestoreRun(w, bundle, fates); !o.committed && o.ending.Raised?
    requires !MoveEscapesUndo(w, bundle, fates) && !ShadowUnrecorded(fates)
    ensures BackAsItWas(w, bundle, fates, RestoreRun(w, bundle, fates))
  {
    if fates(CheckBundle).Succeeds? {
      FlagsTellExactly(w, bundle, fates);
      PreparationOutcome(w, bundle, fates);
      PreparationExactly(w, bundle, fates);
      var prepared := PrepareRun(w, bundle, fates);
      hide PrepareRun, CutoverAllRun, UndoRun, CleanupRun, Reconciles, CutsOverDatabase, Prepares, CutoverProgress,
           Extracts, ShadowMade, FullyCutOver, LiveReconciles, EveryMoveSucceeds, Commits, MoveEscapesUndo, UndoStepsSucceed,
           ShadowUnrecorded, StoppedCleanly;
      if prepared.ending.Done? {
        CutoverAllOutcome(w, bundle, prepared.world, prepared.flags, fates);
        var a := CutoverAllRun(prepared.world, prepared.flags, fates);
        CutoverStopsCleanly(w, bundle, prepared.world, prepared.flags, fates);
        UndoLeaves(prepared.world, a, fates);
      } else {
        ShadowAloneUndone(w, bundle, fates);
      }
    }
  }

  lemma CutoverMakesNoNames(dbs: Databases, fates: Fates)
    requires ShadowReady(dbs)
    ensures Failed !in CutoverRun(dbs, fates).dbs
  {
  }

  lemma UndoClears(w1: World, a: Attempt, fates: Fates)
    requires ShadowReady(w1.databases) && UndoWorks(fates) && CutoverProgress(w1, a, fates)
    requires a.flags.shadowCreated == !a.flags.databaseCutover
    requires !UndoRun(a.world, a.flags, fates).ending.Crashed?
    ensures var dbs := UndoRun(a.world, a.flags, fates).world.databases; Shadow !in dbs && Failed !in dbs
  {
    CutoverMakesNoNames(w1.databases, fates);
    if a.flags.databaseCutover {
      UndoneCutoverLeaves(w1.databases, a.world.databases, fates);
    }
    hide CutoverRun, RollbackDatabaseRun, UndoDirectoryRun, UndoStepsSucceed;
  }

  /** Even where a move escaped: no shadow stays unless its creation was never recorded, and no failed copy. */
  lemma UndoClearsItsDatabases(w: World, bundle: Bundle, fates: Fates)
    requires Fresh(w) && UndoWorks(fates)
    requires var o := RestoreRun(w, bundle, fates); !o.committed && o.ending.Raised?
    ensures var dbs := RestoreRun(w, bundle, fates).world.databases;
            Failed !in dbs && (Shadow in dbs <==> ShadowUnrecorded(fates))
  {
    if fates(CheckBundle).Succeeds? {
      FlagsTellExactly(w, bundle, fates);
      PreparationOutcome(w, bundle, fates);
      PreparationExactly(w, bundle, fates);
      var prepared := PrepareRun(w, bundle, fates);
      hide PrepareRun, CutoverAllRun, CleanupRun, Reconciles, CutsOverDatabase, CutoverProgress,
           Extracts, FullyCutOver, LiveReconciles, EveryMoveSucceeds, Commits, CutsOverOpenHands, CutsOverMedia;
      if prepared.ending.Done? {
        CutoverAllOutcome(w, bundle, prepared.world, prepared.flags, fates);
        var a := CutoverAllRun(prepared.world, prepared.flags, fates);
        UndoClears(prepared.world, a, fates);
        hide UndoRun;
      } else {
        assert Failed !in prepared.world.databases - {Shadow};
      }
    }
  }

  /** Without failures a refused restore leaves no trace at all. */
  lemma FaultlessRefusalLeavesNothing(w: World, bundle: Bundle, fates: Fates)
    requires Fresh(w) && AllSucceeds(fates)
    requires !(Live in w.databases && Reconciles(bundle.database.rows, bundle.openhands.events, bundle.media.files))
    ensures var o := RestoreRun(w, bundle, fates);
            && o.ending.Raised? && !o.committed && !o.rollbackErrors
            && o.world.databases == w.databases && o.world.openhands == w.openhands && o.world.media == w.media
  {
    FaultlessRestoreCommitsExactly(w, bundle, fates);
    RestoreSurvives(w, bundle, fates);
    RollbackErrorsExactly(w, bundle, fates);
    UncommittedRaises(w, bundle, fates);
    hide RestoreRun, Reconciles;
    RefusedRestoreLeavesNothing(w, bundle, fates);
  }

  lemma UncommittedRaises(w: World, bundle: Bundle, fates: Fates)
    requires Fresh(w)
    ensures var o := RestoreRun(w, bundle, fates); !o.committed && !o.ending.Crashed? ==> o.ending.Raised?
  {
    var a := ForwardRun(w, bundle, fates);
    UndoNeverCommits(a.world, a.flags, fates);
    hide ForwardRun, UndoRun, CleanupRun;
  }

  // ---------------------------------------------------------------------
  // What the cleanup after a commit takes away

  /** The backup's set is live, and each original stays beside it exactly when its own removal did not
      take effect, whatever became of the others. */
  ghost predicate CleanedUp(w: World, bundle: Bundle, fates: Fates, o: Outcome) {
    && Live in w.databases && o.ending.Done?
    && o.world.databases
       == (var dbs := w.databases[Live := bundle.database];
           if TakesEffect(fates(CleanDatabase)) then dbs else dbs[Rollback := w.databases[Live]])
    && o.world.openhands
       == Slots(Some(bundle.openhands), Remaining(w.openhands.target, fates(CleanPrevious(OpenHands))), None, None)
    && o.world.media
       == Slots(Some(bundle.media), Remaining(w.media.target, fates(CleanPrevious(Media))), None, None)
  }

  function Remaining(original: Option<Directory>, fate: Fate): Option<Directory> {
    if TakesEffect(fate) then None else original
  }

  lemma CleanupLeaves(w1: World, a: Attempt, fates: Fates)
    requires ShadowReady(w1.databases) && SwapReady(w1.openhands) && SwapReady(w1.media)
    requires CutoverProgress(w1, a, fates) && a.flags.mediaCutover
    requires !CleanupRun(a.world, a.flags, fates).ending.Crashed?
    ensures var c := CleanupRun(a.world, a.flags, fates);
            var kept := WorkRemoved(c.world);
            && c.ending.Done?
            && kept.databases == Dropped(a.world.databases, Rollback, fates(CleanDatabase))
            && kept.openhands
               == Slots(w1.openhands.prepared, Remaining(w1.openhands.target, fates(CleanPrevious(OpenHands))), None, None)
            && kept.media == Slots(w1.media.prepared, Remaining(w1.media.target, fates(CleanPrevious(Media))), None, None)
  {
    hide CutOver;
  }

  lemma CommittedDatabases(dbs: Databases, dbs1: Databases, cut: Databases, backup: Database, fate: Fate)
    requires Shadow !in dbs && Rollback !in dbs && dbs1 - {Shadow} == dbs && Shadow in dbs1 && dbs1[Shadow] == backup
    requires CutOver(dbs1, cut)
    ensures Live in dbs
    ensures Dropped(cut, Rollback, fate)
            == (if TakesEffect(fate) then dbs[Live := backup] else dbs[Live := backup][Rollback := dbs[Live]])
  {
    assert Live in dbs1 - {Shadow} && (dbs1 - {Shadow})[Live] == dbs1[Live];
    assert Rollback !in dbs1 - {Shadow};
    assert dbs[Live := backup] - {Rollback} == dbs[Live := backup];
  }

  /** Main result: after a commit every removal is tried, and takes away its own resource and nothing else. */
  lemma CleanupTriesEverything(w: World, bundle: Bundle, fates: Fates)
    requires Fresh(w)
    requires var o := RestoreRun(w, bundle, fates); o.committed && !o.ending.Crashed?
    ensures CleanedUp(w, bundle, fates, RestoreRun(w, bundle, fates))
  {
    if fates(CheckBundle).Succeeds? {
      CommitsExactly(w, bundle, fates);
      FlagsTellExactly(w, bundle, fates);
      PreparationOutcome(w, bundle, fates);
      PreparationExactly(w, bundle, fates);
      var prepared := PrepareRun(w, bundle, fates);
      hide PrepareRun, CutoverAllRun, UndoRun, CleanupRun, Reconciles, CutsOverDatabase, Prepares, FullyCutOver,
           LiveReconciles, EveryMoveSucceeds, Commits, CutsOverOpenHands, CutsOverMedia;
      CutoverAllOutcome(w, bundle, prepared.world, prepared.flags, fates);
      var a := CutoverAllRun(prepared.world, prepared.flags, fates);
      CleanupLeaves(prepared.world, a, fates);
      CommittedDatabases(w.databases, prepared.world.databases, a.world.databases, bundle.database, fates(CleanDatabase));
    }
  }

  // ---------------------------------------------------------------------
  // The outcome as a whole

  ghost predicate EndsExactly(w: World, bundle: Bundle, fates: Fates, o: Outcome) {
    && (o.committed <==> Commits(w, bundle, fates))
    && (if o.committed then FullyCutOver(o.world, bundle) else NothingLost(w, o.world))
    && (!o.ending.Crashed? ==> (o.rollbackErrors <==> RollbackFails(w, bundle, fates)))
    && (!o.ending.Crashed? && o.committed ==> CleanedUp(w, bundle, fates, o))
    && (!o.ending.Crashed? && !o.committed ==> o.ending.Raised?)
    && (!o.committed && o.ending.Raised? && UndoWorks(fates) ==>
          && Failed !in o.world.databases && (Shadow in o.world.databases <==> ShadowUnrecorded(fates))
          && (!MoveEscapesUndo(w, bundle, fates) && !ShadowUnrecorded(fates) ==> BackAsItWas(w, bundle, fates, o)))
  }

  lemma RestoreEndsExactly(w: World, bundle: Bundle, fates: Fates)
    requires Fresh(w)
    ensures EndsExactly(w, bundle, fates, RestoreRun(w, bundle, fates))
  {
    hide RestoreRun, Commits, RollbackFails, CleanedUp, UndoWorks, ShadowUnrecorded, BackAsItWas, MoveEscapesUndo, Fresh,
         NothingLost, FullyCutOver;
    var o := RestoreRun(w, bundle, fates);
    OriginalsSurviveUntilCommit(w, bundle, fates);
    CommitMeansCutOver(w, bundle, fates);
    CommitsExactly(w, bundle, fates);
    UncommittedRaises(w, bundle, fates);
    if !o.ending.Crashed? {
      RollbackErrorsExactly(w, bundle, fates);
      if o.committed {
        CleanupTriesEverything(w, bundle, fates);
      } else if UndoWorks(fates) {
        UndoClearsItsDatabases(w, bundle, fates);
        if !MoveEscapesUndo(w, bundle, fates) && !ShadowUnrecorded(fates) {
          RefusedRestoreLeavesNothing(w, bundle, fates);
        }
      }
    }
  }
}

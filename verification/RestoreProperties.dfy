/** What a restore guarantees for every placement of failures, and exactly where it does not. */
module RestoreProperties {
  import opened Basics
  import opened Reconcile
  import opened Restore

  /** The state a restore starts from: its own names are fresh, its window just opened. */
  predicate Fresh(w: World) {
    && Shadow !in w.databases && Rollback !in w.databases && Failed !in w.databases
    && FreshSlots(w.openhands) && FreshSlots(w.media)
    && !w.started && !w.verified
  }

  predicate FreshSlots(slots: Slots) {
    slots.previous.None? && slots.failed.None? && slots.prepared.None?
  }

  function LiveDatabase(dbs: Databases): Option<Database> {
    if Live in dbs then Some(dbs[Live]) else None
  }

  /** The live database and both live trees are what they were, absence included. */
  predicate SameLive(w: World, w': World) {
    && LiveDatabase(w'.databases) == LiveDatabase(w.databases)
    && w'.openhands.target == w.openhands.target
    && w'.media.target == w.media.target
  }

  /** The live database and both live trees are the backup's, which passed reconciliation. */
  ghost predicate FullyCutOver(w: World, bundle: Bundle) {
    && LiveDatabase(w.databases) == Some(bundle.database)
    && w.openhands.target == Some(bundle.openhands)
    && w.media.target == Some(bundle.media)
    && Reconciles(bundle.database.rows, bundle.openhands.events, bundle.media.files)
  }

  // ---------------------------------------------------------------------
  // The database

  /** Between creation and cutover: the shadow stands beside the live database. */
  predicate ShadowReady(dbs: Databases) {
    Shadow in dbs && Rollback !in dbs && Failed !in dbs
  }

  predicate CutOver(dbs: Databases, dbs': Databases)
    requires Shadow in dbs
  {
    Live in dbs && dbs' == (dbs - {Shadow})[Rollback := dbs[Live]][Live := dbs[Shadow]]
  }

  /** The original database is still there under its own name or the rollback name. */
  predicate DatabaseKept(original: Option<Database>, dbs: Databases) {
    original.Some? ==>
      || LiveDatabase(dbs) == original
      || (Rollback in dbs && dbs[Rollback] == original.value)
  }

  /** A rename of the cutover took effect although it raised. */
  predicate RenameLeftBehind(fates: Fates) {
    && fates(TerminateLive).Succeeds?
    && ( || fates(LiveToRollback).RaisesAfter?
         || (fates(LiveToRollback).Succeeds? && fates(TerminateShadow).Succeeds?
             && fates(ShadowToLive).RaisesAfter?) )
  }

  predicate InnerRenameSucceeds(fates: Fates) {
    fates(TerminateRollbackInside).Succeeds? && fates(RollbackToLiveInside).Succeeds?
  }

  lemma CutoverOutcome(dbs: Databases, fates: Fates)
    requires ShadowReady(dbs)
    ensures var r := CutoverRun(dbs, fates);
            && (r.ending.Done? ==> CutOver(dbs, r.dbs))
            && (r.ending.Done? <==> Live in dbs && fates(TerminateLive).Succeeds? && fates(LiveToRollback).Succeeds?
                                    && fates(TerminateShadow).Succeeds? && fates(ShadowToLive).Succeeds?)
            && DatabaseKept(LiveDatabase(dbs), r.dbs)
            && (Live !in dbs ==> r.dbs == dbs)
  {
  }

  lemma CutoverUndoesItself(dbs: Databases, fates: Fates)
    requires ShadowReady(dbs) && InnerRenameSucceeds(fates)
    requires CutoverRun(dbs, fates).ending.Raised?
    ensures var r := CutoverRun(dbs, fates);
            && (Live !in dbs || !RenameLeftBehind(fates) ==> LiveDatabase(r.dbs) == LiveDatabase(dbs))
            && (Live in dbs && dbs[Live] != dbs[Shadow] && RenameLeftBehind(fates) ==>
                  LiveDatabase(r.dbs) != LiveDatabase(dbs))
  {
  }

  /** Where a resource stands after its undo steps. */
  datatype Standing = Restored | StillNew | Gone

  function DatabaseStanding(fates: Fates): Standing {
    if !fates(UndoTerminateLive).Succeeds? || !TakesEffect(fates(LiveToFailed)) then StillNew
    else if fates(LiveToFailed).Succeeds? && fates(UndoTerminateRollback).Succeeds?
            && TakesEffect(fates(RollbackToLive)) then Restored
    else Gone
  }

  /** Undoing a cutover, whatever fails: the live name is one of three things. */
  lemma DatabaseUndone(dbs: Databases, cut: Databases, fates: Fates)
    requires ShadowReady(dbs) && CutOver(dbs, cut)
    ensures var r := RollbackDatabaseRun(cut, fates);
            && LiveDatabase(r.dbs) == (match DatabaseStanding(fates)
                                       case Restored => Some(dbs[Live])
                                       case StillNew => Some(dbs[Shadow])
                                       case Gone => None)
            && DatabaseKept(Some(dbs[Live]), r.dbs)
            && (r.ending.Done? ==> DatabaseStanding(fates) == Restored)
  {
  }

  // ---------------------------------------------------------------------
  // The directories

  predicate SwapReady(slots: Slots) {
    slots.prepared.Some? && slots.previous.None? && slots.failed.None?
  }

  predicate DirectoryKept(original: Option<Directory>, slots: Slots) {
    original.Some? ==> slots.target == original || slots.previous == original
  }

  predicate Swapped(slots: Slots, slots': Slots) {
    slots' == Slots(slots.prepared, slots.target, None, None)
  }

  /** A move of the swap took effect although it raised, and cannot be taken back: only an
      empty directory can be replaced by the one set aside. */
  predicate MoveLeftBehind(target: Option<Directory>, prepared: Directory, payload: Payload, fates: Fates) {
    if target.None? then fates(MoveIn(payload)).RaisesAfter?
    else fates(SetAside(payload)).RaisesAfter?
         || (fates(SetAside(payload)).Succeeds? && fates(MoveIn(payload)).RaisesAfter? && !Bare(prepared))
  }

  predicate SwapSucceeds(target: Option<Directory>, payload: Payload, fates: Fates) {
    (target.Some? ==> fates(SetAside(payload)).Succeeds?) && fates(MoveIn(payload)).Succeeds?
  }

  lemma SwapOutcome(slots: Slots, payload: Payload, fates: Fates)
    requires SwapReady(slots)
    ensures var r := SwapRun(slots, payload, fates);
            && (r.ending.Done? <==> SwapSucceeds(slots.target, payload, fates))
            && (r.ending.Done? ==> Swapped(slots, r.slots) && r.hadPrevious == slots.target.Some?)
            && DirectoryKept(slots.target, r.slots)
  {
  }

  lemma SwapUndoesItself(slots: Slots, payload: Payload, fates: Fates)
    requires SwapReady(slots) && fates(PutBack(payload)).Succeeds?
    requires SwapRun(slots, payload, fates).ending.Raised?
    ensures var r := SwapRun(slots, payload, fates);
            var left := MoveLeftBehind(slots.target, slots.prepared.value, payload, fates);
            && (!left ==> r.slots.target == slots.target)
            && (left && slots.prepared != slots.target ==> r.slots.target != slots.target)
  {
  }

  function DirectoryStanding(payload: Payload, had: bool, fates: Fates): Standing {
    if !TakesEffect(fates(UndoMoveOut(payload))) then StillNew
    else if !had then Restored
    else if fates(UndoMoveOut(payload)).Succeeds? && TakesEffect(fates(UndoMoveBack(payload))) then Restored
    else Gone
  }

  lemma DirectoryUndone(slots: Slots, swapped: Slots, payload: Payload, fates: Fates)
    requires SwapReady(slots) && Swapped(slots, swapped)
    ensures var r := RollbackDirectoryRun(swapped, payload, slots.target.Some?, fates);
            && r.slots.target == (match DirectoryStanding(payload, slots.target.Some?, fates)
                                  case Restored => slots.target
                                  case StillNew => slots.prepared
                                  case Gone => None)
            && DirectoryKept(slots.target, r.slots)
            && (r.ending.Done? ==> DirectoryStanding(payload, slots.target.Some?, fates) == Restored)
  {
  }

  // ---------------------------------------------------------------------
  // The whole restore

  /** After the shadow set reconciled: everything the cutover needs, and nothing live touched. */
  ghost predicate ReadyToCutOver(w: World, bundle: Bundle, w1: World) {
    && SameLive(w, w1)
    && ShadowReady(w1.databases) && w1.databases[Shadow] == bundle.database
    && SwapReady(w1.openhands) && w1.openhands.prepared == Some(bundle.openhands)
    && SwapReady(w1.media) && w1.media.prepared == Some(bundle.media)
    && w1.incomplete == w.incomplete && !w1.started && !w1.verified
    && Reconciles(bundle.database.rows, bundle.openhands.events, bundle.media.files)
  }

  lemma PreparationOutcome(w: World, bundle: Bundle, fates: Fates)
    requires Fresh(w)
    ensures var a := PrepareRun(w, bundle, fates);
            && SameLive(w, a.world)
            && a.world.incomplete == w.incomplete && !a.world.started && !a.world.verified
            && a.flags == NoFlags().(shadowCreated := a.flags.shadowCreated)
            && (a.ending.Done? ==> ReadyToCutOver(w, bundle, a.world) && a.flags.shadowCreated)
  {
    hide Reconciles;
  }

  /** How far the cutover got, as its flags say. */
  predicate CutoverProgress(w1: World, a: Attempt, fates: Fates)
    requires ShadowReady(w1.databases)
  {
    && (if a.flags.databaseCutover then CutOver(w1.databases, a.world.databases) && !a.flags.shadowCreated
        else a.world.databases == w1.databases || a.world.databases == CutoverRun(w1.databases, fates).dbs)
    && (if a.flags.openhandsCutover
        then a.flags.databaseCutover && Swapped(w1.openhands, a.world.openhands)
             && a.flags.openhandsHadPrevious == w1.openhands.target.Some?
        else a.world.openhands == w1.openhands
             || a.world.openhands == SwapRun(w1.openhands, OpenHands, fates).slots)
    && (if a.flags.mediaCutover
        then a.flags.openhandsCutover && Swapped(w1.media, a.world.media)
             && a.flags.mediaHadPrevious == w1.media.target.Some?
        else a.world.media == w1.media || a.world.media == SwapRun(w1.media, Media, fates).slots)
  }

  /** The cutover steps, up to the live reconciliation, all succeed. */
  predicate EveryMoveSucceeds(w1: World, fates: Fates) {
    && fates(Begin).Succeeds?
    && Live in w1.databases && fates(TerminateLive).Succeeds? && fates(LiveToRollback).Succeeds?
    && fates(TerminateShadow).Succeeds? && fates(ShadowToLive).Succeeds? && fates(NoteCutover).Succeeds?
    && SwapSucceeds(w1.openhands.target, OpenHands, fates) && fates(NoteSwap(OpenHands)).Succeeds?
    && SwapSucceeds(w1.media.target, Media, fates) && fates(NoteSwap(Media)).Succeeds?
  }

  /** From the live reconciliation on nothing moves. */
  lemma CommitMovesNothing(w: World, flags: Flags, fates: Fates)
    ensures var a := CommitRun(w, flags, fates);
            && a.world.databases == w.databases && a.world.openhands == w.openhands && a.world.media == w.media
            && a.flags == flags.(committed := a.flags.committed)
  {
    hide LiveReconciles;
  }

  lemma MediaProgresses(w1: World, w: World, flags: Flags, fates: Fates)
    requires ShadowReady(w1.databases) && SwapReady(w1.media)
    requires CutoverProgress(w1, Attempt(w, flags, Done), fates)
    requires flags.openhandsCutover && !flags.mediaCutover && w.media == w1.media
    ensures CutoverProgress(w1, SwapMediaRun(w, flags, fates), fates)
  {
    SwapOutcome(w1.media, Media, fates);
    var md := SwapRun(w.media, Media, fates);
    hide SwapRun, SwapSucceeds, DirectoryKept, Swapped, CutOver, CommitRun;
    CommitMovesNothing(w.(media := md.slots), flags.(mediaCutover := true, mediaHadPrevious := md.hadPrevious), fates);
  }

  lemma OpenHandsProgresses(w1: World, w: World, flags: Flags, fates: Fates)
    requires ShadowReady(w1.databases) && SwapReady(w1.openhands) && SwapReady(w1.media)
    requires CutoverProgress(w1, Attempt(w, flags, Done), fates)
    requires flags.databaseCutover && !flags.openhandsCutover && !flags.mediaCutover
    requires w.openhands == w1.openhands && w.media == w1.media
    ensures CutoverProgress(w1, SwapOpenHandsRun(w, flags, fates), fates)
  {
    SwapOutcome(w1.openhands, OpenHands, fates);
    var oh := SwapRun(w.openhands, OpenHands, fates);
    hide SwapRun, SwapSucceeds, DirectoryKept, Swapped, CutOver, SwapMediaRun;
    if oh.ending.Done? && fates(NoteSwap(OpenHands)).Succeeds? {
      MediaProgresses(w1, w.(openhands := oh.slots),
                      flags.(openhandsCutover := true, openhandsHadPrevious := oh.hadPrevious), fates);
    }
  }

  lemma CutoverAllProgresses(w1: World, flags: Flags, fates: Fates)
    requires ShadowReady(w1.databases) && SwapReady(w1.openhands) && SwapReady(w1.media)
    requires flags == NoFlags().(shadowCreated := true)
    ensures CutoverProgress(w1, CutoverAllRun(w1, flags, fates), fates)
  {
    CutoverOutcome(w1.databases, fates);
    var db := CutoverRun(w1.databases, fates);
    hide CutoverRun, SwapRun, DatabaseKept, CutOver, SwapOpenHandsRun;
    if fates(Begin).Succeeds? && db.ending.Done? && fates(NoteCutover).Succeeds? {
      var began := w1.(incomplete := w1.incomplete || TakesEffect(fates(Begin)), started := true);
      OpenHandsProgresses(w1, began.(databases := db.dbs),
                          flags.(databaseCutover := true, shadowCreated := false), fates);
    }
  }

  lemma CutoverAllOutcome(w: World, bundle: Bundle, w1: World, flags: Flags, fates: Fates)
    requires ReadyToCutOver(w, bundle, w1) && flags == NoFlags().(shadowCreated := true)
    ensures var a := CutoverAllRun(w1, flags, fates);
            && CutoverProgress(w1, a, fates)
            && (a.flags.mediaCutover <==> EveryMoveSucceeds(w1, fates))
            && (a.flags.mediaCutover ==> LiveReconciles(a.world) && FullyCutOver(a.world, bundle))
            && (a.world.incomplete == (w.incomplete || TakesEffect(fates(Begin))))
            && (a.world.started == fates(Begin).Succeeds?)
            && (a.world.verified <==> a.flags.mediaCutover && fates(ReconcileLive).Succeeds?
                                      && TakesEffect(fates(Complete)))
            && (a.flags.committed <==> a.world.verified && fates(Complete).Succeeds?)
            && (a.flags.committed <==> a.ending.Done?)
            && (a.world.verified ==> !a.ending.Crashed?)
  {
    CutoverOutcome(w1.databases, fates);
    SwapOutcome(w1.openhands, OpenHands, fates);
    SwapOutcome(w1.media, Media, fates);
    CutoverAllProgresses(w1, flags, fates);
    hide Reconciles, CutoverRun, SwapRun, CutoverProgress, SwapSucceeds, DatabaseKept, DirectoryKept;
  }

  predicate NothingLost(w: World, w': World) {
    && DatabaseKept(LiveDatabase(w.databases), w'.databases)
    && DirectoryKept(w.openhands.target, w'.openhands)
    && DirectoryKept(w.media.target, w'.media)
  }

  lemma ProgressLosesNothing(w1: World, a: Attempt, fates: Fates)
    requires ShadowReady(w1.databases) && SwapReady(w1.openhands) && SwapReady(w1.media)
    requires CutoverProgress(w1, a, fates)
    ensures NothingLost(w1, a.world)
  {
    CutoverOutcome(w1.databases, fates);
    SwapOutcome(w1.openhands, OpenHands, fates);
    SwapOutcome(w1.media, Media, fates);
    hide CutoverRun, SwapRun;
  }

  /** Where a directory's target stands after the handler. */
  function TargetAfterUndo(slots: Slots, reached: Slots, payload: Payload, cutover: bool, fates: Fates)
    : Option<Directory>
  {
    if !cutover then reached.target
    else match DirectoryStanding(payload, slots.target.Some?, fates)
      case Restored => slots.target
      case StillNew => slots.prepared
      case Gone => None
  }

  function LiveAfterUndo(dbs: Databases, reached: Databases, cutover: bool, fates: Fates): Option<Database>
    requires ShadowReady(dbs)
  {
    if !cutover then LiveDatabase(reached)
    else match DatabaseStanding(fates)
      case Restored => LiveDatabase(dbs)
      case StillNew => Some(dbs[Shadow])
      case Gone => None
  }

  lemma UndoneDirectory(slots: Slots, reached: Slots, payload: Payload, cutover: bool, had: bool, fates: Fates)
    requires SwapReady(slots)
    requires cutover ==> Swapped(slots, reached) && had == slots.target.Some?
    requires DirectoryKept(slots.target, reached)
    ensures var r := UndoDirectoryRun(reached, payload, cutover, had, fates);
            && DirectoryKept(slots.target, r.slots)
            && r.slots.target == TargetAfterUndo(slots, reached, payload, cutover, fates)
            && (r.ending.Done? && cutover ==> DirectoryStanding(payload, slots.target.Some?, fates) == Restored)
  {
    if cutover {
      DirectoryUndone(slots, reached, payload, fates);
    }
    hide RollbackDirectoryRun, DirectoryStanding;
  }

  lemma UndoneDatabase(dbs: Databases, reached: Databases, cutover: bool, fates: Fates)
    requires ShadowReady(dbs)
    requires cutover ==> CutOver(dbs, reached)
    requires DatabaseKept(LiveDatabase(dbs), reached)
    ensures var r := UndoDatabaseRun(reached, cutover, fates);
            && DatabaseKept(LiveDatabase(dbs), r.dbs)
            && DatabaseKept(LiveDatabase(dbs), r.dbs - {Shadow})
            && LiveDatabase(r.dbs) == LiveAfterUndo(dbs, reached, cutover, fates)
            && LiveDatabase(r.dbs - {Shadow}) == LiveAfterUndo(dbs, reached, cutover, fates)
            && (r.ending.Done? && cutover ==> DatabaseStanding(fates) == Restored)
  {
    if cutover {
      DatabaseUndone(dbs, reached, fates);
    }
    hide RollbackDatabaseRun, DatabaseStanding;
  }

  /** The exception handler, resource by resource. */
  predicate UndoneTo(w1: World, a: Attempt, fates: Fates, o: Outcome)
    requires ShadowReady(w1.databases)
  {
    && o.world.openhands.target
       == TargetAfterUndo(w1.openhands, a.world.openhands, OpenHands, a.flags.openhandsCutover, fates)
    && o.world.media.target == TargetAfterUndo(w1.media, a.world.media, Media, a.flags.mediaCutover, fates)
    && LiveDatabase(o.world.databases)
       == LiveAfterUndo(w1.databases, a.world.databases, a.flags.databaseCutover, fates)
  }

  /** Whatever the handler gets to, each resource is as it was reached or as it was undone. */
  lemma UndoReaches(w: World, flags: Flags, fates: Fates)
    ensures var o := UndoRun(w, flags, fates).world;
            var undone := UndoDatabaseRun(w.databases, flags.databaseCutover, fates).dbs;
            && (o.databases == w.databases || o.databases == undone || o.databases == undone - {Shadow})
            && o.media == UndoDirectoryRun(w.media, Media, flags.mediaCutover, flags.mediaHadPrevious, fates).slots
            && (o.openhands == w.openhands
                || o.openhands == UndoDirectoryRun(w.openhands, OpenHands, flags.openhandsCutover,
                                                   flags.openhandsHadPrevious, fates).slots)
  {
    hide UndoDatabaseRun, UndoDirectoryRun;
  }

  lemma UndoLosesNothing(w1: World, a: Attempt, fates: Fates)
    requires ShadowReady(w1.databases) && SwapReady(w1.openhands) && SwapReady(w1.media)
    requires CutoverProgress(w1, a, fates)
    ensures NothingLost(w1, UndoRun(a.world, a.flags, fates).world)
  {
    ProgressLosesNothing(w1, a, fates);
    UndoReaches(a.world, a.flags, fates);
    UndoneDatabase(w1.databases, a.world.databases, a.flags.databaseCutover, fates);
    UndoneDirectory(w1.openhands, a.world.openhands, OpenHands, a.flags.openhandsCutover,
                    a.flags.openhandsHadPrevious, fates);
    UndoneDirectory(w1.media, a.world.media, Media, a.flags.mediaCutover, a.flags.mediaHadPrevious, fates);
    hide CutoverProgress, UndoRun, UndoDatabaseRun, UndoDirectoryRun, DatabaseStanding, DirectoryStanding,
         TargetAfterUndo, LiveAfterUndo, DatabaseKept, DirectoryKept, LiveDatabase, Swapped, CutOver,
         SwapReady, ShadowReady;
  }

  lemma UndoKeepsTheWindow(w: World, flags: Flags, fates: Fates)
    ensures var o := UndoRun(w, flags, fates);
            && o.world.incomplete == w.incomplete && o.world.started == w.started
            && o.world.verified == w.verified
  {
    hide UndoDatabaseRun, UndoDirectoryRun;
  }

  lemma UndoOutcome(w1: World, a: Attempt, fates: Fates)
    requires ShadowReady(w1.databases) && SwapReady(w1.openhands) && SwapReady(w1.media)
    requires CutoverProgress(w1, a, fates)
    requires !UndoRun(a.world, a.flags, fates).ending.Crashed?
    ensures var o := UndoRun(a.world, a.flags, fates);
            && UndoneTo(w1, a, fates, o)
            && (!o.rollbackErrors ==>
                  && (a.flags.databaseCutover ==> DatabaseStanding(fates) == Restored)
                  && (a.flags.openhandsCutover ==>
                        DirectoryStanding(OpenHands, w1.openhands.target.Some?, fates) == Restored)
                  && (a.flags.mediaCutover ==>
                        DirectoryStanding(Media, w1.media.target.Some?, fates) == Restored))
  {
    ProgressLosesNothing(w1, a, fates);
    UndoneDatabase(w1.databases, a.world.databases, a.flags.databaseCutover, fates);
    UndoneDirectory(w1.openhands, a.world.openhands, OpenHands, a.flags.openhandsCutover,
                    a.flags.openhandsHadPrevious, fates);
    UndoneDirectory(w1.media, a.world.media, Media, a.flags.mediaCutover, a.flags.mediaHadPrevious, fates);
    hide CutoverProgress, UndoDatabaseRun, UndoDirectoryRun, DatabaseStanding, DirectoryStanding,
         TargetAfterUndo, LiveAfterUndo, DatabaseKept, DirectoryKept, LiveDatabase;
  }

  lemma NothingLostAtTheEnd(w: World, w1: World, w': World)
    requires SameLive(w, w1) && NothingLost(w1, w')
    ensures NothingLost(w, w') && NothingLost(w, WorkRemoved(w'))
  {
  }

  lemma UndoneNothingIsNothingLost(w: World, w1: World, w': World)
    requires SameLive(w, w1) && (w' == w1 || w' == w1.(databases := w1.databases - {Shadow}))
    ensures NothingLost(w, w') && NothingLost(w, WorkRemoved(w'))
  {
  }

  /** Main result: until the commit, whatever fails wherever (inside the undo steps too, and
      the process dying at any step), every original is still there under some name. */
  lemma OriginalsSurviveUntilCommit(w: World, bundle: Bundle, fates: Fates)
    requires Fresh(w)
    ensures var o := RestoreRun(w, bundle, fates);
            !o.committed ==> NothingLost(w, o.world)
  {
    PreparationOutcome(w, bundle, fates);
    var prepared := PrepareRun(w, bundle, fates);
    hide PrepareRun, CutoverAllRun, CutoverProgress, CutoverRun, SwapRun, Reconciles, FullyCutOver, EveryMoveSucceeds,
         LiveReconciles, CleanupRun, UndoRun, NothingLost, SameLive, WorkRemoved, Fresh;
    UndoneNothingIsNothingLost(w, w, w);
    UndoneNothingIsNothingLost(w, prepared.world, prepared.world);
    if prepared.ending.Done? {
      CutoverAllOutcome(w, bundle, prepared.world, prepared.flags, fates);
      var a := CutoverAllRun(prepared.world, prepared.flags, fates);
      ProgressLosesNothing(prepared.world, a, fates);
      NothingLostAtTheEnd(w, prepared.world, a.world);
      UndoLosesNothing(prepared.world, a, fates);
      NothingLostAtTheEnd(w, prepared.world, UndoRun(a.world, a.flags, fates).world);
    } else {
      UndoOfNothing(prepared.world, prepared.flags, fates);
      UndoneNothingIsNothingLost(w, prepared.world, UndoRun(prepared.world, prepared.flags, fates).world);
    }
  }

  lemma PreparationCommitsNothing(w: World, bundle: Bundle, fates: Fates)
    ensures !PrepareRun(w, bundle, fates).flags.committed
  {
    hide ShadowReconciles;
  }

  /** A process that dies in the cutover has not committed. */
  lemma CrashCommitsNothing(w: World, flags: Flags, fates: Fates)
    requires !flags.committed
    ensures var a := CutoverAllRun(w, flags, fates); a.ending.Crashed? ==> !a.flags.committed
  {
    hide CutoverRun, SwapRun, LiveReconciles;
  }

  /** Before the cutover the handler has nothing to undo but the shadow. */
  lemma UndoOfNothing(w: World, flags: Flags, fates: Fates)
    requires !flags.databaseCutover && !flags.openhandsCutover && !flags.mediaCutover
    ensures var o := UndoRun(w, flags, fates);
            && !o.committed && (o.world == w || o.world == w.(databases := w.databases - {Shadow}))
  {
  }

  lemma CleanupKeepsLive(w: World, flags: Flags, fates: Fates)
    ensures var w' := CleanupRun(w, flags, fates).world;
            && SameLive(w, w') && SameLive(w, WorkRemoved(w'))
            && w'.started == w.started && w'.verified == w.verified
  {
  }

  /** A commit means the backup's set is live and reconciled, and cleanup keeps it so. */
  lemma CommitMeansCutOver(w: World, bundle: Bundle, fates: Fates)
    requires Fresh(w)
    ensures var o := RestoreRun(w, bundle, fates);
            o.committed ==> FullyCutOver(o.world, bundle) && o.world.started && o.world.verified
  {
    PreparationOutcome(w, bundle, fates);
    var prepared := PrepareRun(w, bundle, fates);
    hide PrepareRun, CutoverAllRun, CutoverProgress, CutoverRun, SwapRun, Reconciles, CleanupRun, UndoRun, LiveReconciles,
         EveryMoveSucceeds, ReadyToCutOver;
    if prepared.ending.Done? {
      CutoverAllOutcome(w, bundle, prepared.world, prepared.flags, fates);
      var a := CutoverAllRun(prepared.world, prepared.flags, fates);
      CleanupKeepsLive(a.world, a.flags, fates);
      UndoNeverCommits(a.world, a.flags, fates);
    }
    UndoNeverCommits(prepared.world, prepared.flags, fates);
  }

  /** Nothing fails. */
  ghost predicate AllSucceeds(fates: Fates) {
    forall step :: fates(step).Succeeds?
  }

  /** Without failures a restore commits exactly when there is a live database and the backup's
      set reconciles, and it then leaves nothing behind. */
  lemma FaultlessRestoreCommitsExactly(w: World, bundle: Bundle, fates: Fates)
    requires Fresh(w) && AllSucceeds(fates)
    ensures var o := RestoreRun(w, bundle, fates);
            && (o.committed
                <==> Live in w.databases
                     && Reconciles(bundle.database.rows, bundle.openhands.events, bundle.media.files))
            && (o.committed ==>
                  && o.ending.Done? && Rollback !in o.world.databases
                  && FreshSlots(o.world.openhands) && FreshSlots(o.world.media))
  {
    PreparationOutcome(w, bundle, fates);
    FaultlessPreparation(w, bundle, fates);
    var prepared := PrepareRun(w, bundle, fates);
    if prepared.ending.Done? {
      CutoverAllOutcome(w, bundle, prepared.world, prepared.flags, fates);
      var a := CutoverAllRun(prepared.world, prepared.flags, fates);
      if a.flags.committed {
        FaultlessCleanup(prepared.world, a, fates);
      }
    }
    hide PrepareRun, CutoverAllRun, CutoverProgress, CutoverRun, SwapRun, Reconciles, CleanupRun, UndoRun;
  }

  lemma FaultlessPreparation(w: World, bundle: Bundle, fates: Fates)
    requires Fresh(w) && AllSucceeds(fates)
    ensures PrepareRun(w, bundle, fates).ending.Done?
            <==> Reconciles(bundle.database.rows, bundle.openhands.events, bundle.media.files)
  {
    hide Reconciles;
  }

  lemma FaultlessCleanup(w1: World, a: Attempt, fates: Fates)
    requires AllSucceeds(fates) && ShadowReady(w1.databases)
    requires CutoverProgress(w1, a, fates) && a.flags.mediaCutover
    ensures var c := CleanupRun(a.world, a.flags, fates);
            && c.ending.Done? && Rollback !in c.world.databases
            && FreshSlots(WorkRemoved(c.world).openhands) && FreshSlots(WorkRemoved(c.world).media)
  {
  }

  // ---------------------------------------------------------------------
  // All or nothing

  /** Every step of the undo, inside the cutover and swap and in the handler, succeeds. */
  predicate UndoStepsSucceed(fates: Fates) {
    && InnerRenameSucceeds(fates)
    && (forall payload :: fates(PutBack(payload)).Succeeds?
                          && fates(UndoMoveOut(payload)).Succeeds? && fates(UndoMoveBack(payload)).Succeeds?)
    && fates(UndoTerminateLive).Succeeds? && fates(LiveToFailed).Succeeds?
    && fates(UndoTerminateRollback).Succeeds? && fates(RollbackToLive).Succeeds?
  }

  /** A swap whose move took effect, and whose flag nobody got to set. */
  predicate SwapEscapes(target: Option<Directory>, prepared: Directory, payload: Payload, fates: Fates) {
    || MoveLeftBehind(target, prepared, payload, fates)
    || (SwapSucceeds(target, payload, fates) && !fates(NoteSwap(payload)).Succeeds?)
  }

  /** The step the cutover failed at is a move that took effect all the same, or comes right after
      one. No flag says so yet, so the handler leaves that one resource alone. */
  ghost predicate MoveEscapesUndo(w: World, bundle: Bundle, fates: Fates) {
    && fates(CheckBundle).Succeeds?
    && PrepareRun(w, bundle, fates).ending.Done? && fates(Begin).Succeeds?
    && Live in w.databases
    && ( || RenameLeftBehind(fates)
         || ( && fates(TerminateLive).Succeeds? && fates(LiveToRollback).Succeeds?
              && fates(TerminateShadow).Succeeds? && fates(ShadowToLive).Succeeds?
              && ( || !fates(NoteCutover).Succeeds?
                   || SwapEscapes(w.openhands.target, bundle.openhands, OpenHands, fates)
                   || ( && SwapSucceeds(w.openhands.target, OpenHands, fates)
                        && SwapEscapes(w.media.target, bundle.media, Media, fates)))))
  }

  ghost predicate AllDiffer(w: World, bundle: Bundle) {
    && LiveDatabase(w.databases) != Some(bundle.database)
    && w.openhands.target != Some(bundle.openhands) && w.media.target != Some(bundle.media)
  }

  /** Where every undo step succeeds everything stands restored. */
  lemma UndoStepsRestore(w: World, fates: Fates)
    requires UndoStepsSucceed(fates)
    ensures DatabaseStanding(fates) == Restored && InnerRenameSucceeds(fates)
    ensures forall payload, had :: DirectoryStanding(payload, had, fates) == Restored
    ensures forall payload :: fates(PutBack(payload)).Succeeds?
  {
  }

  lemma FailedCutoverUndone(w: World, bundle: Bundle, w1: World, flags: Flags, fates: Fates)
    requires ReadyToCutOver(w, bundle, w1) && flags == NoFlags().(shadowCreated := true)
    requires PrepareRun(w, bundle, fates).ending.Done? && fates(CheckBundle).Succeeds?
    requires UndoStepsSucceed(fates)
    requires CutoverAllRun(w1, flags, fates).ending.Raised?
    requires !UndoRun(CutoverAllRun(w1, flags, fates).world, CutoverAllRun(w1, flags, fates).flags, fates).ending.Crashed?
    ensures var a := CutoverAllRun(w1, flags, fates);
            var o := UndoRun(a.world, a.flags, fates);
            && (!MoveEscapesUndo(w, bundle, fates) ==> SameLive(w, o.world))
            && (MoveEscapesUndo(w, bundle, fates) && AllDiffer(w, bundle) ==> !SameLive(w, o.world))
  {
    CutoverAllOutcome(w, bundle, w1, flags, fates);
    var a := CutoverAllRun(w1, flags, fates);
    UndoOutcome(w1, a, fates);
    UndoStepsRestore(w, fates);
    CutoverOutcome(w1.databases, fates);
    SwapOutcome(w1.openhands, OpenHands, fates);
    SwapOutcome(w1.media, Media, fates);
    hide CutoverRun, SwapRun, RollbackDatabaseRun, RollbackDirectoryRun, PrepareRun, Reconciles, UndoRun,
         DatabaseStanding, DirectoryStanding, UndoStepsSucceed, LiveReconciles, FullyCutOver, Swapped, CutOver,
         DatabaseKept, DirectoryKept;
    if CutoverRun(w1.databases, fates).ending.Raised? {
      CutoverUndoesItself(w1.databases, fates);
    }
    if SwapRun(w1.openhands, OpenHands, fates).ending.Raised? {
      SwapUndoesItself(w1.openhands, OpenHands, fates);
    }
    if SwapRun(w1.media, Media, fates).ending.Raised? {
      SwapUndoesItself(w1.media, Media, fates);
    }
  }

  /** Main result: a restore that fails before its commit, with every undo step succeeding,
      puts the live database and both trees back exactly as they were (absence included),
      unless a move of the cutover raised after it had taken effect; and then it does not. */
  lemma AllOrNothing(w: World, bundle: Bundle, fates: Fates)
    requires Fresh(w) && UndoStepsSucceed(fates)
    requires var o := RestoreRun(w, bundle, fates); !o.committed && o.ending.Raised?
    ensures var o := RestoreRun(w, bundle, fates);
            && (!MoveEscapesUndo(w, bundle, fates) ==> SameLive(w, o.world))
            && (MoveEscapesUndo(w, bundle, fates) && AllDiffer(w, bundle) ==> !SameLive(w, o.world))
  {
    PreparationOutcome(w, bundle, fates);
    var prepared := PrepareRun(w, bundle, fates);
    if fates(CheckBundle).Succeeds? && prepared.ending.Done? {
      CutoverAllOutcome(w, bundle, prepared.world, prepared.flags, fates);
      FailedCutoverUndone(w, bundle, prepared.world, prepared.flags, fates);
    }
    hide PrepareRun, CutoverAllRun, CutoverProgress, CutoverRun, SwapRun, Reconciles;
  }

  /** An interrupt right after the cutover of the database returned. */
  function InterruptedFates(): Fates {
    (step: StepName) => if step == NoteCutover then RaisesBefore else Succeeds
  }

  lemma InterruptedUndoWorks()
    ensures UndoStepsSucceed(InterruptedFates()) && forall step :: !InterruptedFates()(step).Dies?
  {
    forall step: StepName ensures InterruptedFates()(step) == if step == NoteCutover then RaisesBefore else Succeeds {
    }
    hide InterruptedFates;
  }

  lemma InterruptedMoveEscapes(w: World, bundle: Bundle)
    requires Fresh(w) && Live in w.databases
    requires Reconciles(bundle.database.rows, bundle.openhands.events, bundle.media.files)
    ensures MoveEscapesUndo(w, bundle, InterruptedFates())
    ensures !EveryMoveSucceeds(w, InterruptedFates())
  {
    InterruptedPreparation(w, bundle);
    hide PrepareRun, Reconciles, Fresh;
  }

  lemma InterruptedPreparation(w: World, bundle: Bundle)
    requires Fresh(w)
    requires Reconciles(bundle.database.rows, bundle.openhands.events, bundle.media.files)
    ensures PrepareRun(w, bundle, InterruptedFates()).ending.Done?
  {
    hide Reconciles;
  }

  /** Such a run: every undo step succeeds, and the new database stays beside the old trees. */
  lemma InterruptedCutoverIsNotUndone(w: World, bundle: Bundle)
    requires Fresh(w) && Live in w.databases && AllDiffer(w, bundle)
    requires Reconciles(bundle.database.rows, bundle.openhands.events, bundle.media.files)
    ensures var o := RestoreRun(w, bundle, InterruptedFates());
            o.ending.Raised? && !o.committed && !SameLive(w, o.world)
  {
    var fates := InterruptedFates();
    InterruptedUndoWorks();
    InterruptedMoveEscapes(w, bundle);
    RestoreSurvives(w, bundle, fates);
    PreparationOutcome(w, bundle, fates);
    var prepared := PrepareRun(w, bundle, fates);
    CutoverAllOutcome(w, bundle, prepared.world, prepared.flags, fates);
    UndoNeverCommits(CutoverAllRun(prepared.world, prepared.flags, fates).world,
                     CutoverAllRun(prepared.world, prepared.flags, fates).flags, fates);
    hide InterruptedFates, UndoStepsSucceed, EveryMoveSucceeds, PrepareRun, CutoverAllRun, UndoRun, Reconciles, SameLive,
         CutoverProgress;
    AllOrNothing(w, bundle, fates);
  }

  lemma UndoNeverCommits(w: World, flags: Flags, fates: Fates)
    ensures var o := UndoRun(w, flags, fates); !o.committed && (o.ending.Crashed? || o.ending.Raised?)
  {
    hide UndoDatabaseRun, UndoDirectoryRun;
  }

  // ---------------------------------------------------------------------
  // Who sees the result

  /** The window closes and lets writers in again: its process lived, and it either never
      made the incomplete marker or takes it away (agent-server/focusproof/recovery.py:137-142). */
  predicate Readmits(o: Outcome) {
    !o.ending.Crashed? && (o.world.incomplete ==> o.world.started && o.world.verified)
  }

  /** An interrupt lands after `complete_recovery` returned and before `committed = True`. */
  ghost predicate VerifiedButNotCommitted(w: World, bundle: Bundle, fates: Fates) {
    && fates(CheckBundle).Succeeds? && PrepareRun(w, bundle, fates).ending.Done?
    && EveryMoveSucceeds(w, fates) && fates(ReconcileLive).Succeeds?
    && fates(Complete).RaisesAfter?
  }

  /** The undo stops short for some resource but not in the same way for all. */
  predicate MixedUndo(w: World, fates: Fates) {
    var database := DatabaseStanding(fates);
    var openhands := DirectoryStanding(OpenHands, w.openhands.target.Some?, fates);
    var media := DirectoryStanding(Media, w.media.target.Some?, fates);
    !(database == openhands == media == Restored) && !(database == openhands == media == StillNew)
  }

  lemma UndoAfterVerification(w: World, bundle: Bundle, w1: World, a: Attempt, fates: Fates)
    requires ReadyToCutOver(w, bundle, w1) && Live in w1.databases
    requires CutoverProgress(w1, a, fates) && a.flags.mediaCutover
    requires !UndoRun(a.world, a.flags, fates).ending.Crashed?
    ensures var o := UndoRun(a.world, a.flags, fates);
            && (MixedUndo(w, fates) ==> AllDiffer(w, bundle) ==> !SameLive(w, o.world) && !FullyCutOver(o.world, bundle))
            && (!MixedUndo(w, fates) ==> SameLive(w, o.world) || FullyCutOver(o.world, bundle))
  {
    UndoOutcome(w1, a, fates);
    hide UndoRun, Reconciles, CutOver, Swapped, DatabaseStanding, DirectoryStanding;
  }

  /** Main result: for every placement of failures, writers that are let in again find the
      untouched originals or the complete reconciled set, except when an interrupt hits the
      one gap between verification and commit and the undo then fails part of the way. */
  lemma ReadmittedWritersSeeOneSet(w: World, bundle: Bundle, fates: Fates)
    requires Fresh(w)
    ensures var o := RestoreRun(w, bundle, fates);
            var exposed := !o.ending.Crashed? && VerifiedButNotCommitted(w, bundle, fates) && MixedUndo(w, fates);
            && (Readmits(o) && !exposed ==> SameLive(w, o.world) || FullyCutOver(o.world, bundle))
            && (exposed && AllDiffer(w, bundle) ==>
                  Readmits(o) && !SameLive(w, o.world) && !FullyCutOver(o.world, bundle))
  {
    var o := RestoreRun(w, bundle, fates);
    PreparationOutcome(w, bundle, fates);
    CommitMeansCutOver(w, bundle, fates);
    var prepared := PrepareRun(w, bundle, fates);
    if fates(CheckBundle).Succeeds? && prepared.ending.Done? {
      CutoverAllOutcome(w, bundle, prepared.world, prepared.flags, fates);
      var a := CutoverAllRun(prepared.world, prepared.flags, fates);
      UndoKeepsTheWindow(a.world, a.flags, fates);
      if a.ending.Raised? && !UndoRun(a.world, a.flags, fates).ending.Crashed? {
        if a.flags.mediaCutover {
          UndoAfterVerification(w, bundle, prepared.world, a, fates);
        } else if !TakesEffect(fates(Begin)) {
          BeginRaisedBefore(prepared.world, prepared.flags, fates);
          UndoOutcome(prepared.world, a, fates);
        }
      }
    }
    hide PrepareRun, CutoverAllRun, CutoverProgress, UndoRun, Reconciles, MixedUndo, CutOver, Swapped;
  }

  lemma BeginRaisedBefore(w: World, flags: Flags, fates: Fates)
    requires !TakesEffect(fates(Begin))
    requires flags == NoFlags().(shadowCreated := true)
    ensures var a := CutoverAllRun(w, flags, fates);
            a.world.databases == w.databases && a.world.openhands == w.openhands && a.world.media == w.media
  {
    hide Reconciles;
  }

  /** An interrupt right after verification, and a media tree that cannot be moved out. */
  function UnluckyFates(): Fates {
    (step: StepName) =>
      if step == Complete then RaisesAfter
      else if step == UndoMoveOut(Media) then RaisesBefore
      else Succeeds
  }

  /** A restore whose process survives every step ends in a value or an exception. */
  lemma RestoreSurvives(w: World, bundle: Bundle, fates: Fates)
    requires forall step :: !fates(step).Dies?
    ensures !RestoreRun(w, bundle, fates).ending.Crashed?
  {
    var prepared := PrepareRun(w, bundle, fates);
    PreparationSurvives(w, bundle, fates);
    var a := CutoverAllRun(prepared.world, prepared.flags, fates);
    CutoverSurvives(prepared.world, prepared.flags, fates);
    UndoSurvives(a.world, a.flags, fates);
    UndoSurvives(prepared.world, prepared.flags, fates);
    hide PrepareRun, CutoverAllRun, UndoRun;
  }

  lemma PreparationSurvives(w: World, bundle: Bundle, fates: Fates)
    requires forall step :: !fates(step).Dies?
    ensures !PrepareRun(w, bundle, fates).ending.Crashed?
  {
    hide Reconciles;
  }

  lemma CutoverSurvives(w: World, flags: Flags, fates: Fates)
    requires forall step :: !fates(step).Dies?
    ensures !CutoverAllRun(w, flags, fates).ending.Crashed?
  {
    assert !CutoverRun(w.databases, fates).ending.Crashed?;
    assert !fates(NoteCutover).Dies? && !fates(NoteSwap(OpenHands)).Dies? && !fates(NoteSwap(Media)).Dies?;
    assert !SwapRun(w.openhands, OpenHands, fates).ending.Crashed?;
    assert !SwapRun(w.media, Media, fates).ending.Crashed?;
    hide CutoverRun, SwapRun, Reconciles;
  }

  lemma UndoSurvives(w: World, flags: Flags, fates: Fates)
    requires forall step :: !fates(step).Dies?
    ensures !UndoRun(w, flags, fates).ending.Crashed?
  {
    var md := UndoDirectoryRun(w.media, Media, flags.mediaCutover, flags.mediaHadPrevious, fates);
    assert !md.ending.Crashed?;
    var oh := UndoDirectoryRun(w.openhands, OpenHands, flags.openhandsCutover, flags.openhandsHadPrevious, fates);
    assert !oh.ending.Crashed?;
    var db := UndoDatabaseRun(w.databases, flags.databaseCutover, fates);
    assert !db.ending.Crashed?;
    hide UndoDirectoryRun, UndoDatabaseRun;
  }

  lemma UnluckyPreparation(w: World, bundle: Bundle)
    requires Fresh(w)
    requires Reconciles(bundle.database.rows, bundle.openhands.events, bundle.media.files)
    ensures PrepareRun(w, bundle, UnluckyFates()).ending.Done?
  {
    hide Reconciles;
  }

  lemma UnluckySurvives(w: World, bundle: Bundle)
    ensures !RestoreRun(w, bundle, UnluckyFates()).ending.Crashed?
  {
    RestoreSurvives(w, bundle, UnluckyFates());
  }

  lemma UnluckyIsExposed(w: World, bundle: Bundle)
    requires Fresh(w) && Live in w.databases
    requires Reconciles(bundle.database.rows, bundle.openhands.events, bundle.media.files)
    ensures VerifiedButNotCommitted(w, bundle, UnluckyFates()) && MixedUndo(w, UnluckyFates())
  {
    UnluckyPreparation(w, bundle);
    UnluckyMoves(w);
    UnluckyUndo(w);
    UnluckyEnds();
    hide UnluckyFates, PrepareRun, Reconciles, Fresh, MixedUndo, EveryMoveSucceeds;
  }

  lemma UnluckyEnds()
    ensures var fates := UnluckyFates();
            fates(CheckBundle).Succeeds? && fates(ReconcileLive).Succeeds? && fates(Complete).RaisesAfter?
  {
  }

  lemma UnluckyMoves(w: World)
    requires Live in w.databases
    ensures EveryMoveSucceeds(w, UnluckyFates())
  {
    var fates := UnluckyFates();
    UnluckyStep(Begin); UnluckyStep(TerminateLive); UnluckyStep(LiveToRollback);
    UnluckyStep(TerminateShadow); UnluckyStep(ShadowToLive); UnluckyStep(NoteCutover);
    UnluckyStep(SetAside(OpenHands)); UnluckyStep(MoveIn(OpenHands)); UnluckyStep(NoteSwap(OpenHands));
    UnluckyStep(SetAside(Media)); UnluckyStep(MoveIn(Media)); UnluckyStep(NoteSwap(Media));
    hide UnluckyFates;
  }

  lemma UnluckyStep(step: StepName)
    ensures step != Complete && step != UndoMoveOut(Media) ==> UnluckyFates()(step).Succeeds?
  {
  }

  lemma UnluckyUndo(w: World)
    ensures MixedUndo(w, UnluckyFates())
  {
    var fates := UnluckyFates();
    assert fates(UndoTerminateLive).Succeeds? && fates(LiveToFailed).Succeeds?
           && fates(UndoTerminateRollback).Succeeds? && fates(RollbackToLive).Succeeds?;
    assert fates(UndoMoveOut(Media)).RaisesBefore?;
    hide UnluckyFates;
    assert DatabaseStanding(fates) == Restored;
    assert DirectoryStanding(Media, w.media.target.Some?, fates) == StillNew;
  }

  /** The gap is real: writers are readmitted to an old database beside a new media tree. */
  lemma InterruptAfterVerificationExposesAMixedSet(w: World, bundle: Bundle)
    requires Fresh(w) && Live in w.databases && AllDiffer(w, bundle)
    requires Reconciles(bundle.database.rows, bundle.openhands.events, bundle.media.files)
    ensures var o := RestoreRun(w, bundle, UnluckyFates());
            Readmits(o) && !SameLive(w, o.world) && !FullyCutOver(o.world, bundle)
  {
    UnluckyIsExposed(w, bundle);
    UnluckySurvives(w, bundle);
    hide RestoreRun, Readmits, SameLive, FullyCutOver, AllDiffer, Fresh, VerifiedButNotCommitted, MixedUndo, UnluckyFates;
    ReadmittedWritersSeeOneSet(w, bundle, UnluckyFates());
  }
}

/** The three-resource cutover of a restore and its nested rollback
    (scripts/ai4c_restore.py:187-215, 557-737, 858-896). */
module Restore {
  import opened Basics
  import opened Reconcile

  /** A database: its media rows, and everything else in it. */
  datatype Database = Database(rows: seq<DatabaseFact>, rest: Id)

  /** The names one restore gives to databases; all but `Live` are fresh for every restore. */
  datatype DatabaseName = Live | Shadow | Rollback | Failed

  type Databases = map<DatabaseName, Database>

  /** A directory tree: its files, and the evidence events its event log reads as. */
  datatype Directory = Directory(files: Tree, events: seq<EventFact>)

  /** The places a persistence directory can be in during one restore. */
  datatype Slots = Slots(
    target: Option<Directory>,
    previous: Option<Directory>,
    failed: Option<Directory>,
    prepared: Option<Directory>)

  datatype Place = Target | Previous | FailedCopy | Prepared

  datatype Payload = OpenHands | Media

  /** The validated contents of a backup bundle. */
  datatype Bundle = Bundle(database: Database, openhands: Directory, media: Directory)

  /** Every step of a restore that can fail, by name. */
  datatype StepName =
    | CheckBundle
    | Extract(payload: Payload)
    | CreateShadow | LoadShadow | ReconcileShadow
    | Begin
    | TerminateLive | LiveToRollback | TerminateShadow | ShadowToLive
    | TerminateRollbackInside | RollbackToLiveInside
    | NoteCutover
    | SetAside(payload: Payload) | MoveIn(payload: Payload) | PutBack(payload: Payload)
    | NoteSwap(payload: Payload)
    | ReconcileLive
    | Complete
    | UndoMoveOut(payload: Payload) | UndoMoveBack(payload: Payload)
    | UndoTerminateLive | LiveToFailed | UndoTerminateRollback | RollbackToLive | DropFailed
    | UndoTerminateShadow | DropShadow
    | CleanDatabase | CleanPrevious(payload: Payload)

  /** One placement of failures: what becomes of each step, should it be reached. */
  type Fates = StepName -> Fate

  datatype Ending = Done | Raised | Crashed {
    predicate IsFailure() { !Done? }
    function PropagateFailure(): Ending requires IsFailure() { this }
  }

  function EndingOf(fate: Fate): Ending {
    match fate
    case Succeeds => Done
    case Dies => Crashed
    case _ => Raised
  }

  // ---------------------------------------------------------------------
  // Single steps

  /** `ALTER DATABASE … RENAME`: an error when the source is missing or the name is taken. */
  function RenameEnding(dbs: Databases, from: DatabaseName, to: DatabaseName, fate: Fate): Ending {
    if !fate.Dies? && (from !in dbs || to in dbs) then Raised else EndingOf(fate)
  }

  function Renamed(dbs: Databases, from: DatabaseName, to: DatabaseName, fate: Fate): Databases {
    if TakesEffect(fate) && from in dbs && to !in dbs then (dbs - {from})[to := dbs[from]] else dbs
  }

  function Dropped(dbs: Databases, name: DatabaseName, fate: Fate): Databases {
    if TakesEffect(fate) then dbs - {name} else dbs
  }

  function In(slots: Slots, place: Place): Option<Directory> {
    match place
    case Target => slots.target
    case Previous => slots.previous
    case FailedCopy => slots.failed
    case Prepared => slots.prepared
  }

  function Put(slots: Slots, place: Place, content: Option<Directory>): Slots {
    match place
    case Target => slots.(target := content)
    case Previous => slots.(previous := content)
    case FailedCopy => slots.(failed := content)
    case Prepared => slots.(prepared := content)
  }

  predicate Bare(directory: Directory) {
    directory.files == map[]
  }

  /** `os.replace` of a directory: nothing but an empty directory can be replaced. */
  predicate CanReplace(slots: Slots, from: Place, to: Place) {
    In(slots, from).Some? && (In(slots, to).Some? ==> Bare(In(slots, to).value))
  }

  function ReplaceEnding(slots: Slots, from: Place, to: Place, fate: Fate): Ending {
    if !fate.Dies? && !CanReplace(slots, from, to) then Raised else EndingOf(fate)
  }

  function Replaced(slots: Slots, from: Place, to: Place, fate: Fate): Slots {
    if TakesEffect(fate) && CanReplace(slots, from, to)
    then Put(Put(slots, to, In(slots, from)), from, None) else slots
  }

  // ---------------------------------------------------------------------
  // _cutover_database, _rollback_database, _swap_directory, _rollback_directory

  datatype DatabaseRun = DatabaseRun(dbs: Databases, ending: Ending)

  function CutoverRun(dbs: Databases, fates: Fates): DatabaseRun {
    if !fates(TerminateLive).Succeeds? then DatabaseRun(dbs, EndingOf(fates(TerminateLive))) else
    var away := DatabaseRun(
      Renamed(dbs, Live, Rollback, fates(LiveToRollback)),
      RenameEnding(dbs, Live, Rollback, fates(LiveToRollback)));
    if !away.ending.Done? then away else
    var moved :=
      if !fates(TerminateShadow).Succeeds? then away.(ending := EndingOf(fates(TerminateShadow)))
      else DatabaseRun(Renamed(away.dbs, Shadow, Live, fates(ShadowToLive)),
                       RenameEnding(away.dbs, Shadow, Live, fates(ShadowToLive)));
    if !moved.ending.Raised? then moved else
    if !fates(TerminateRollbackInside).Succeeds?
    then moved.(ending := EndingOf(fates(TerminateRollbackInside))) else
    DatabaseRun(
      Renamed(moved.dbs, Rollback, Live, fates(RollbackToLiveInside)),
      if fates(RollbackToLiveInside).Dies? then Crashed else Raised)
  }

  function RollbackDatabaseRun(dbs: Databases, fates: Fates): DatabaseRun {
    if !fates(UndoTerminateLive).Succeeds? then DatabaseRun(dbs, EndingOf(fates(UndoTerminateLive))) else
    var out := DatabaseRun(
      Renamed(dbs, Live, Failed, fates(LiveToFailed)), RenameEnding(dbs, Live, Failed, fates(LiveToFailed)));
    if !out.ending.Done? then out else
    if !fates(UndoTerminateRollback).Succeeds?
    then out.(ending := EndingOf(fates(UndoTerminateRollback))) else
    var back := DatabaseRun(
      Renamed(out.dbs, Rollback, Live, fates(RollbackToLive)),
      RenameEnding(out.dbs, Rollback, Live, fates(RollbackToLive)));
    if !back.ending.Done? then back else
    DatabaseRun(Dropped(back.dbs, Failed, fates(DropFailed)), EndingOf(fates(DropFailed)))
  }

  datatype SlotsRun = SlotsRun(slots: Slots, ending: Ending, hadPrevious: bool)

  function SwapRun(slots: Slots, payload: Payload, fates: Fates): SlotsRun {
    if slots.prepared.None? || slots.previous.Some? then SlotsRun(slots, Raised, false) else
    var had := slots.target.Some?;
    var aside :=
      if had then SlotsRun(Replaced(slots, Target, Previous, fates(SetAside(payload))),
                           ReplaceEnding(slots, Target, Previous, fates(SetAside(payload))), had)
      else SlotsRun(slots, Done, had);
    if !aside.ending.Done? then aside else
    var moved := SlotsRun(
      Replaced(aside.slots, Prepared, Target, fates(MoveIn(payload))),
      ReplaceEnding(aside.slots, Prepared, Target, fates(MoveIn(payload))), had);
    if !moved.ending.Raised? || moved.slots.previous.None? then moved else
    SlotsRun(Replaced(moved.slots, Previous, Target, fates(PutBack(payload))),
             if fates(PutBack(payload)).Dies? then Crashed else Raised, had)
  }

  function RollbackDirectoryRun(slots: Slots, payload: Payload, had: bool, fates: Fates): SlotsRun {
    if slots.failed.Some? then SlotsRun(slots, Raised, had) else
    var out :=
      if slots.target.Some? then
        SlotsRun(Replaced(slots, Target, FailedCopy, fates(UndoMoveOut(payload))),
                 ReplaceEnding(slots, Target, FailedCopy, fates(UndoMoveOut(payload))), had)
      else SlotsRun(slots, Done, had);
    if !out.ending.Done? || !had then out else
    if out.slots.previous.None? then out.(ending := Raised) else
    SlotsRun(Replaced(out.slots, Previous, Target, fates(UndoMoveBack(payload))),
             ReplaceEnding(out.slots, Previous, Target, fates(UndoMoveBack(payload))), had)
  }

  // ---------------------------------------------------------------------
  // _restore_backup_in_window

  datatype World = World(
    databases: Databases,
    openhands: Slots,
    media: Slots,
    incomplete: bool,
    started: bool,
    verified: bool)

  /** The local variables of the restore that steer its exception handler. */
  datatype Flags = Flags(
    shadowCreated: bool,
    databaseCutover: bool,
    openhandsCutover: bool,
    mediaCutover: bool,
    openhandsHadPrevious: bool,
    mediaHadPrevious: bool,
    committed: bool)

  datatype Attempt = Attempt(world: World, flags: Flags, ending: Ending)

  function NoFlags(): Flags {
    Flags(false, false, false, false, false, false, false)
  }

  ghost predicate ShadowReconciles(w: World) {
    && Shadow in w.databases && w.openhands.prepared.Some? && w.media.prepared.Some?
    && Reconciles(w.databases[Shadow].rows, w.openhands.prepared.value.events, w.media.prepared.value.files)
  }

  ghost predicate LiveReconciles(w: World) {
    && Live in w.databases && w.openhands.target.Some? && w.media.target.Some?
    && Reconciles(w.databases[Live].rows, w.openhands.target.value.events, w.media.target.value.files)
  }

  /** From the extraction of the archives to the reconciliation of the shadow set. */
  ghost function PrepareRun(w: World, bundle: Bundle, fates: Fates): Attempt {
    var f0, f1, f2, f3 := fates(Extract(OpenHands)), fates(Extract(Media)), fates(CreateShadow), fates(LoadShadow);
    var w0 := if TakesEffect(f0) then w.(openhands := w.openhands.(prepared := Some(bundle.openhands))) else w;
    if !f0.Succeeds? then Attempt(w0, NoFlags(), EndingOf(f0)) else
    var w1 := if TakesEffect(f1) then w0.(media := w0.media.(prepared := Some(bundle.media))) else w0;
    if !f1.Succeeds? then Attempt(w1, NoFlags(), EndingOf(f1)) else
    var w2 := if TakesEffect(f2) then w1.(databases := w1.databases[Shadow := Database([], 0)]) else w1;
    if !f2.Succeeds? then Attempt(w2, NoFlags(), EndingOf(f2)) else
    var flags := NoFlags().(shadowCreated := true);
    var w3 := if TakesEffect(f3) then w2.(databases := w2.databases[Shadow := bundle.database]) else w2;
    if !f3.Succeeds? then Attempt(w3, flags, EndingOf(f3)) else
    if fates(ReconcileShadow).Succeeds? && !ShadowReconciles(w3) then Attempt(w3, flags, Raised)
    else Attempt(w3, flags, EndingOf(fates(ReconcileShadow)))
  }

  /** From `begin_recovery` to `complete_recovery`. An interrupt can fall between a move's return and
      the assignment of its flag: those are the `Note` steps. */
  ghost function CutoverAllRun(w: World, flags: Flags, fates: Fates): Attempt {
    var began := w.(incomplete := w.incomplete || TakesEffect(fates(Begin)),
                    started := w.started || fates(Begin).Succeeds?);
    if !fates(Begin).Succeeds? then Attempt(began, flags, EndingOf(fates(Begin))) else
    var db := CutoverRun(w.databases, fates);
    var w1 := began.(databases := db.dbs);
    if !db.ending.Done? then Attempt(w1, flags, db.ending) else
    if !fates(NoteCutover).Succeeds? then Attempt(w1, flags, EndingOf(fates(NoteCutover))) else
    SwapOpenHandsRun(w1, flags.(databaseCutover := true, shadowCreated := false), fates)
  }

  ghost function SwapOpenHandsRun(w: World, flags: Flags, fates: Fates): Attempt {
    var oh := SwapRun(w.openhands, OpenHands, fates);
    var w1 := w.(openhands := oh.slots);
    if !oh.ending.Done? then Attempt(w1, flags, oh.ending) else
    if !fates(NoteSwap(OpenHands)).Succeeds? then Attempt(w1, flags, EndingOf(fates(NoteSwap(OpenHands)))) else
    SwapMediaRun(w1, flags.(openhandsCutover := true, openhandsHadPrevious := oh.hadPrevious), fates)
  }

  ghost function SwapMediaRun(w: World, flags: Flags, fates: Fates): Attempt {
    var md := SwapRun(w.media, Media, fates);
    var w1 := w.(media := md.slots);
    if !md.ending.Done? then Attempt(w1, flags, md.ending) else
    if !fates(NoteSwap(Media)).Succeeds? then Attempt(w1, flags, EndingOf(fates(NoteSwap(Media)))) else
    CommitRun(w1, flags.(mediaCutover := true, mediaHadPrevious := md.hadPrevious), fates)
  }

  ghost function CommitRun(w: World, flags: Flags, fates: Fates): Attempt {
    if fates(ReconcileLive).Succeeds? && !LiveReconciles(w) then Attempt(w, flags, Raised) else
    if !fates(ReconcileLive).Succeeds? then Attempt(w, flags, EndingOf(fates(ReconcileLive))) else
    CompleteRun(w, flags, fates)
  }

  /** `complete_recovery` and the assignment after it. */
  function CompleteRun(w: World, flags: Flags, fates: Fates): Attempt {
    if !w.started && !fates(Complete).Dies? then Attempt(w, flags, Raised) else
    Attempt(w.(verified := w.verified || TakesEffect(fates(Complete))),
            flags.(committed := fates(Complete).Succeeds?), EndingOf(fates(Complete)))
  }

  /** The `try` body up to `committed = True`. */
  ghost function ForwardRun(w: World, bundle: Bundle, fates: Fates): Attempt {
    var prepared := PrepareRun(w, bundle, fates);
    if !prepared.ending.Done? then prepared else CutoverAllRun(prepared.world, prepared.flags, fates)
  }

  /** Post-commit cleanup: every action is tried, and what fails is retained. */
  function CleanupRun(w: World, flags: Flags, fates: Fates): Attempt {
    var w1 := w.(databases := Dropped(w.databases, Rollback, fates(CleanDatabase)));
    if fates(CleanDatabase).Dies? then Attempt(w, flags, Crashed) else
    var w2 := if flags.openhandsHadPrevious && TakesEffect(fates(CleanPrevious(OpenHands)))
              then w1.(openhands := w1.openhands.(previous := None)) else w1;
    if flags.openhandsHadPrevious && fates(CleanPrevious(OpenHands)).Dies? then Attempt(w1, flags, Crashed) else
    var w3 := if flags.mediaHadPrevious && TakesEffect(fates(CleanPrevious(Media)))
              then w2.(media := w2.media.(previous := None)) else w2;
    if flags.mediaHadPrevious && fates(CleanPrevious(Media)).Dies? then Attempt(w2, flags, Crashed) else
    Attempt(w3, flags, Done)
  }

  /** The outcome of a restore: what it leaves, how it ends, and whether an undo step failed. */
  datatype Outcome = Outcome(world: World, ending: Ending, committed: bool, rollbackErrors: bool)

  function UndoDirectoryRun(slots: Slots, payload: Payload, cutover: bool, had: bool, fates: Fates): SlotsRun {
    if cutover then RollbackDirectoryRun(slots, payload, had, fates) else SlotsRun(slots, Done, false)
  }

  function UndoDatabaseRun(dbs: Databases, cutover: bool, fates: Fates): DatabaseRun {
    if cutover then RollbackDatabaseRun(dbs, fates) else DatabaseRun(dbs, Done)
  }

  /** The exception handler before the commit: media, openhands, database, shadow. */
  function UndoRun(w: World, flags: Flags, fates: Fates): Outcome {
    var md := UndoDirectoryRun(w.media, Media, flags.mediaCutover, flags.mediaHadPrevious, fates);
    var w1 := w.(media := md.slots);
    if md.ending.Crashed? then Outcome(w1, Crashed, false, false)
    else UndoOpenHandsRun(w1, flags, fates, md.ending.Raised?)
  }

  function UndoOpenHandsRun(w: World, flags: Flags, fates: Fates, errors: bool): Outcome {
    var oh := UndoDirectoryRun(w.openhands, OpenHands, flags.openhandsCutover, flags.openhandsHadPrevious, fates);
    var w1 := w.(openhands := oh.slots);
    if oh.ending.Crashed? then Outcome(w1, Crashed, false, false)
    else UndoDatabasesRun(w1, flags, fates, errors || oh.ending.Raised?)
  }

  function UndoDatabasesRun(w: World, flags: Flags, fates: Fates, errors: bool): Outcome {
    var db := UndoDatabaseRun(w.databases, flags.databaseCutover, fates);
    var w1 := w.(databases := db.dbs);
    if db.ending.Crashed? then Outcome(w1, Crashed, false, false) else
    var sh := if flags.shadowCreated then DropShadowRun(db.dbs, fates) else DatabaseRun(db.dbs, Done);
    var w2 := w1.(databases := sh.dbs);
    if sh.ending.Crashed? then Outcome(w2, Crashed, false, false)
    else Outcome(w2, Raised, false, errors || db.ending.Raised? || sh.ending.Raised?)
  }

  function DropShadowRun(dbs: Databases, fates: Fates): DatabaseRun {
    if !fates(UndoTerminateShadow).Succeeds? then DatabaseRun(dbs, EndingOf(fates(UndoTerminateShadow)))
    else DatabaseRun(Dropped(dbs, Shadow, fates(DropShadow)), EndingOf(fates(DropShadow)))
  }

  /** The `finally` block removes the work directory with what is left in it. */
  function WorkRemoved(w: World): World {
    w.(openhands := w.openhands.(prepared := None), media := w.media.(prepared := None))
  }

  ghost function RestoreRun(w: World, bundle: Bundle, fates: Fates): Outcome {
    if !fates(CheckBundle).Succeeds? then Outcome(w, EndingOf(fates(CheckBundle)), false, false) else
    var a := ForwardRun(w, bundle, fates);
    if a.ending.Crashed? then Outcome(a.world, Crashed, false, false)
    else if a.flags.committed then
      var c := CleanupRun(a.world, a.flags, fates);
      Outcome(if c.ending.Crashed? then c.world else WorkRemoved(c.world), c.ending, true, false)
    else
      var u := UndoRun(a.world, a.flags, fates);
      if u.ending.Crashed? then u else u.(world := WorkRemoved(u.world))
  }
}

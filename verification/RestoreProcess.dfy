/** The restore of scripts/ai4c_restore.py as the step-by-step code it is, refining
    the outcomes of module Restore. */
module RestoreProcess {
  import opened Basics
  import opened Reconcile
  import opened Restore
  import opened RestoreProperties
  import opened RestoreOutcomes

  /** One persistence directory with the names a restore gives to its copies. */
  class PersistenceDirectory {
    const payload: Payload
    const fates: Fates
    var slots: Slots

    constructor (payload: Payload, fates: Fates, slots: Slots)
      ensures this.payload == payload && this.fates == fates && this.slots == slots
    {
      this.payload, this.fates, this.slots := payload, fates, slots;
    }

    /** `os.replace`. */
    method Replace(from: Place, to: Place, step: StepName) returns (e: Ending)
      modifies this
      ensures e == ReplaceEnding(old(slots), from, to, fates(step))
      ensures slots == Replaced(old(slots), from, to, fates(step))
    {
      e := ReplaceEnding(slots, from, to, fates(step));
      slots := Replaced(slots, from, to, fates(step));
    }

    /** `_swap_directory`: in place on success, and otherwise with the original kept. */
    method Swap() returns (e: Ending, hadPrevious: bool)
      modifies this
      ensures SlotsRun(slots, e, hadPrevious) == SwapRun(old(slots), payload, fates)
      ensures SwapReady(old(slots)) ==> DirectoryKept(old(slots.target), slots)
      ensures SwapReady(old(slots)) && e.Done? ==>
                Swapped(old(slots), slots) && hadPrevious == old(slots.target.Some?)
    {
      hadPrevious := false;
      if SwapReady(slots) {
        SwapOutcome(slots, payload, fates);
      }
      if slots.prepared.None? || slots.previous.Some? {
        return Raised, hadPrevious;
      }
      hadPrevious := slots.target.Some?;
      e := Done;
      if hadPrevious {
        e := Replace(Target, Previous, SetAside(payload));
        if !e.Done? {
          return;
        }
      }
      e := Replace(Prepared, Target, MoveIn(payload));
      if e.Raised? && slots.previous.Some? {
        e := Replace(Previous, Target, PutBack(payload));
        e := if e.Crashed? then Crashed else Raised;
      }
    }

    /** `_rollback_directory`. */
    method RollbackSwap(hadPrevious: bool) returns (e: Ending)
      modifies this
      ensures SlotsRun(slots, e, hadPrevious) == RollbackDirectoryRun(old(slots), payload, hadPrevious, fates)
    {
      if slots.failed.Some? {
        return Raised;
      }
      e := Done;
      if slots.target.Some? {
        e := Replace(Target, FailedCopy, UndoMoveOut(payload));
        if !e.Done? {
          return;
        }
      }
      if hadPrevious && slots.previous.Some? {
        e := Replace(Previous, Target, UndoMoveBack(payload));
      } else if hadPrevious {
        e := Raised;
      }
    }
  }

  class RestoreJob {
    const bundle: Bundle
    const fates: Fates
    const openhands: PersistenceDirectory
    const media: PersistenceDirectory
    var databases: Databases
    var incomplete: bool
    var started: bool
    var verified: bool
    var flags: Flags

    ghost predicate Valid() {
      && openhands != media
      && openhands.payload == OpenHands && media.payload == Media
      && openhands.fates == fates && media.fates == fates
    }

    ghost function Current(): World
      reads this, openhands, media
    {
      World(databases, openhands.slots, media.slots, incomplete, started, verified)
    }

    constructor (bundle: Bundle, fates: Fates, databases: Databases, openhands: Slots, media: Slots, incomplete: bool)
      ensures Valid() && fresh(this.openhands) && fresh(this.media)
      ensures this.bundle == bundle && this.fates == fates
      ensures Current() == World(databases, openhands, media, incomplete, false, false)
    {
      this.bundle, this.fates := bundle, fates;
      this.openhands := new PersistenceDirectory(OpenHands, fates, openhands);
      this.media := new PersistenceDirectory(Media, fates, media);
      this.databases, this.incomplete := databases, incomplete;
      started, verified, flags := false, false, NoFlags();
    }

    /** A step that only can go well or fail. */
    method Terminate(step: StepName) returns (e: Ending)
      ensures e == EndingOf(fates(step))
    {
      e := EndingOf(fates(step));
    }

    method Rename(from: DatabaseName, to: DatabaseName, step: StepName) returns (e: Ending)
      modifies this`databases
      ensures e == RenameEnding(old(databases), from, to, fates(step))
      ensures databases == Renamed(old(databases), from, to, fates(step))
    {
      e := RenameEnding(databases, from, to, fates(step));
      databases := Renamed(databases, from, to, fates(step));
    }

    method Drop(name: DatabaseName, step: StepName) returns (e: Ending)
      modifies this`databases
      ensures e == EndingOf(fates(step)) && databases == Dropped(old(databases), name, fates(step))
    {
      databases := Dropped(databases, name, fates(step));
      e := EndingOf(fates(step));
    }

    /** `_cutover_database`: the shadow is live on success, and otherwise nothing is lost. */
    method CutoverDatabase() returns (e: Ending)
      modifies this`databases
      ensures DatabaseRun(databases, e) == CutoverRun(old(databases), fates)
      ensures ShadowReady(old(databases)) ==> DatabaseKept(old(LiveDatabase(databases)), databases)
      ensures ShadowReady(old(databases)) && e.Done? ==> CutOver(old(databases), databases)
    {
      if ShadowReady(databases) {
        CutoverOutcome(databases, fates);
      }
      :- Terminate(TerminateLive);
      :- Rename(Live, Rollback, LiveToRollback);
      e := Terminate(TerminateShadow);
      if e.Done? {
        e := Rename(Shadow, Live, ShadowToLive);
      }
      if e.Raised? {
        :- Terminate(TerminateRollbackInside);
        e := Rename(Rollback, Live, RollbackToLiveInside);
        e := if e.Crashed? then Crashed else Raised;
      }
    }

    /** `_rollback_database`. */
    method RollbackDatabase() returns (e: Ending)
      modifies this`databases
      ensures DatabaseRun(databases, e) == RollbackDatabaseRun(old(databases), fates)
    {
      e := Done;
      :- Terminate(UndoTerminateLive);
      :- Rename(Live, Failed, LiveToFailed);
      :- Terminate(UndoTerminateRollback);
      :- Rename(Rollback, Live, RollbackToLive);
      e := Drop(Failed, DropFailed);
    }

    /** The `try` body up to the reconciliation of the shadow set. */
    method Prepare() returns (e: Ending)
      requires Valid() && flags == NoFlags()
      modifies this`databases, this`flags, openhands, media
      ensures Attempt(Current(), flags, e) == PrepareRun(old(Current()), bundle, fates)
    {
      e := EndingOf(fates(Extract(OpenHands)));
      if TakesEffect(fates(Extract(OpenHands))) {
        openhands.slots := openhands.slots.(prepared := Some(bundle.openhands));
      }
      if !e.Done? {
        return;
      }
      e := EndingOf(fates(Extract(Media)));
      if TakesEffect(fates(Extract(Media))) {
        media.slots := media.slots.(prepared := Some(bundle.media));
      }
      if !e.Done? {
        return;
      }
      e := LoadIntoShadow();
      if !e.Done? {
        return;
      }
      var agree := ReconcileStructuredFacts(
        databases[Shadow].rows, openhands.slots.prepared.value.events, media.slots.prepared.value.files);
      e := if fates(ReconcileShadow).Succeeds? && !agree then Raised else EndingOf(fates(ReconcileShadow));
    }

    method LoadIntoShadow() returns (e: Ending)
      requires flags == NoFlags()
      modifies this`databases, this`flags
      ensures var create, load := fates(CreateShadow), fates(LoadShadow);
              var created := if TakesEffect(create) then old(databases)[Shadow := Database([], 0)] else old(databases);
              if !create.Succeeds? then
                databases == created && flags == NoFlags() && e == EndingOf(create)
              else
                && databases == (if TakesEffect(load) then created[Shadow := bundle.database] else created)
                && flags == NoFlags().(shadowCreated := true) && e == EndingOf(load)
    {
      if TakesEffect(fates(CreateShadow)) {
        databases := databases[Shadow := Database([], 0)];
      }
      e := EndingOf(fates(CreateShadow));
      if e.Done? {
        flags := flags.(shadowCreated := true);
        if TakesEffect(fates(LoadShadow)) {
          databases := databases[Shadow := bundle.database];
        }
        e := EndingOf(fates(LoadShadow));
      }
    }

    /** The `try` body from `begin_recovery` to `committed = True`. */
    method CutoverAll() returns (e: Ending)
      requires Valid() && !flags.committed
      modifies this, openhands, media
      ensures Attempt(Current(), flags, e) == CutoverAllRun(old(Current()), old(flags), fates)
    {
      hide CutoverRun, SwapOpenHandsRun, ShadowReady, DatabaseKept, CutOver;
      incomplete, started := incomplete || TakesEffect(fates(Begin)), started || fates(Begin).Succeeds?;
      :- Terminate(Begin);
      :- CutoverDatabase();
      :- Terminate(NoteCutover);
      flags := flags.(databaseCutover := true, shadowCreated := false);
      e := CutoverOpenHands();
    }

    method CutoverOpenHands() returns (e: Ending)
      requires Valid() && !flags.committed
      modifies this`verified, this`flags, openhands, media
      ensures Attempt(Current(), flags, e) == SwapOpenHandsRun(old(Current()), old(flags), fates)
    {
      hide SwapRun, SwapMediaRun, SwapReady, DirectoryKept, Swapped;
      var had;
      e, had := openhands.Swap();
      if e.Done? {
        e := Terminate(NoteSwap(OpenHands));
      }
      if e.Done? {
        flags := flags.(openhandsCutover := true, openhandsHadPrevious := had);
        e := CutoverMedia();
      }
    }

    method CutoverMedia() returns (e: Ending)
      requires Valid() && !flags.committed
      modifies this`verified, this`flags, media
      ensures Attempt(Current(), flags, e) == SwapMediaRun(old(Current()), old(flags), fates)
    {
      hide SwapRun, CommitRun, SwapReady, DirectoryKept, Swapped;
      var had;
      e, had := media.Swap();
      if e.Done? {
        e := Terminate(NoteSwap(Media));
      }
      if e.Done? {
        flags := flags.(mediaCutover := true, mediaHadPrevious := had);
        e := Commit();
      }
    }

    /** The reconciliation of what is now live. */
    method LiveAgrees() returns (agree: bool)
      requires Valid()
      ensures agree == LiveReconciles(Current())
    {
      if Live !in databases || openhands.slots.target.None? || media.slots.target.None? {
        return false;
      }
      agree := ReconcileStructuredFacts(
        databases[Live].rows, openhands.slots.target.value.events, media.slots.target.value.files);
    }

    method Commit() returns (e: Ending)
      requires Valid() && !flags.committed
      modifies this`verified, this`flags
      ensures Attempt(Current(), flags, e) == CommitRun(old(Current()), old(flags), fates)
    {
      hide LiveReconciles, CompleteRun;
      :- Terminate(ReconcileLive);
      var agree := LiveAgrees();
      if !agree {
        return Raised;
      }
      e := CompleteRecovery();
    }

    method CompleteRecovery() returns (e: Ending)
      requires !flags.committed
      modifies this`verified, this`flags
      ensures Attempt(Current(), flags, e) == CompleteRun(old(Current()), old(flags), fates)
    {
      if !started && !fates(Complete).Dies? {
        return Raised;
      }
      verified := verified || TakesEffect(fates(Complete));
      e := EndingOf(fates(Complete));
      if e.Done? {
        flags := flags.(committed := true);
      }
    }

    /** The exception handler: every undo step is tried, and its failure remembered. */
    method Undo() returns (e: Ending, rollbackErrors: bool)
      requires Valid()
      modifies this`databases, openhands, media
      ensures Outcome(Current(), e, false, rollbackErrors) == UndoRun(old(Current()), flags, fates)
    {
      hide RollbackDirectoryRun, UndoOpenHandsRun;
      e := Done;
      if flags.mediaCutover {
        e := media.RollbackSwap(flags.mediaHadPrevious);
      }
      if e.Crashed? {
        return e, false;
      }
      e, rollbackErrors := UndoOpenHands(e.Raised?);
    }

    method UndoOpenHands(errors: bool) returns (e: Ending, rollbackErrors: bool)
      requires Valid()
      modifies this`databases, openhands
      ensures Outcome(Current(), e, false, rollbackErrors) == UndoOpenHandsRun(old(Current()), flags, fates, errors)
    {
      hide RollbackDirectoryRun, UndoDatabasesRun;
      e := Done;
      if flags.openhandsCutover {
        e := openhands.RollbackSwap(flags.openhandsHadPrevious);
      }
      if e.Crashed? {
        return e, false;
      }
      e, rollbackErrors := UndoDatabases(errors || e.Raised?);
    }

    method UndoDatabases(errors: bool) returns (e: Ending, rollbackErrors: bool)
      requires Valid()
      modifies this`databases
      ensures Outcome(Current(), e, false, rollbackErrors) == UndoDatabasesRun(old(Current()), flags, fates, errors)
    {
      hide RollbackDatabaseRun, DropShadowRun;
      e, rollbackErrors := Done, errors;
      if flags.databaseCutover {
        e := RollbackDatabase();
      }
      if e.Crashed? {
        return e, false;
      }
      rollbackErrors := rollbackErrors || e.Raised?;
      if flags.shadowCreated {
        e := DropShadowDatabase();
        if e.Crashed? {
          return e, false;
        }
        rollbackErrors := rollbackErrors || e.Raised?;
      }
      e := Raised;
    }

    method DropShadowDatabase() returns (e: Ending)
      modifies this`databases
      ensures DatabaseRun(databases, e) == DropShadowRun(old(databases), fates)
    {
      e := Done;
      :- Terminate(UndoTerminateShadow);
      e := Drop(Shadow, DropShadow);
    }

    /** Post-commit cleanup swallows what fails. */
    method CleanUp() returns (e: Ending)
      requires Valid()
      modifies this`databases, openhands, media
      ensures Attempt(Current(), flags, e) == CleanupRun(old(Current()), flags, fates)
    {
      e := Drop(Rollback, CleanDatabase);
      if e.Crashed? { return; }
      if flags.openhandsHadPrevious {
        e := EndingOf(fates(CleanPrevious(OpenHands)));
        if e.Crashed? { return; }
        if TakesEffect(fates(CleanPrevious(OpenHands))) {
          openhands.slots := openhands.slots.(previous := None);
        }
      }
      if flags.mediaHadPrevious {
        e := EndingOf(fates(CleanPrevious(Media)));
        if e.Crashed? { return; }
        if TakesEffect(fates(CleanPrevious(Media))) {
          media.slots := media.slots.(previous := None);
        }
      }
      e := Done;
    }

    /** `_restore_backup_in_window`. */
    method RestoreBackupInWindow() returns (e: Ending, rollbackErrors: bool)
      requires Valid() && flags == NoFlags()
      modifies this, openhands, media
      ensures Outcome(Current(), e, flags.committed, rollbackErrors)
              == RestoreRun(old(Current()), bundle, fates)
      ensures Fresh(old(Current())) ==>
                EndsExactly(old(Current()), bundle, fates, Outcome(Current(), e, flags.committed, rollbackErrors))
    {
      PreparationCommitsNothing(Current(), bundle, fates);
      ghost var prepared := PrepareRun(Current(), bundle, fates);
      CrashCommitsNothing(prepared.world, prepared.flags, fates);
      hide PrepareRun, CutoverAllRun, CleanupRun, UndoRun, Fresh, EndsExactly;
      if Fresh(Current()) {
        RestoreEndsExactly(Current(), bundle, fates);
      }
      rollbackErrors := false;
      e := EndingOf(fates(CheckBundle));
      if !e.Done? {
        return;
      }
      e := Prepare();
      if e.Done? {
        e := CutoverAll();
      }
      if e.Crashed? {
        return;
      }
      if flags.committed {
        e := CleanUp();
      } else {
        e, rollbackErrors := Undo();
      }
      if !e.Crashed? {
        openhands.slots := openhands.slots.(prepared := None);
        media.slots := media.slots.(prepared := None);
      }
    }
  }
}

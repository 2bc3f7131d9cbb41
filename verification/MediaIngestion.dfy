/** The publication part of `MediaIngestionService.ingest`, statement by statement
    (agent-server/focusproof/media_core/ingestion.py:259-334, 458-546). */
module MediaIngestion {
  import opened Basics
  import opened MediaObjectStore
  import opened MediaCommit
  import opened MediaCommitSafety
  import opened MediaCommitFindings
  import opened MediaCommitOutcomes

  class MediaIngestionService {
    const store: LocalMediaObjectStore
    var db: Db
    /** History: the live calls, and what was staged under every key. */
    ghost var attempts: map<Id, Attempt>
    ghost var origin: map<Id, Origin>
    ghost var usedManifests: map<Id, Id>

    ghost function View(): System
      reads this, store
    {
      System(store.View(), db, attempts, store.script, origin, usedManifests)
    }

    constructor (store: LocalMediaObjectStore)
      requires store.View() == EmptyDisk()
      ensures this.store == store && View() == Initial(store.script)
    {
      this.store := store;
      db, attempts, origin, usedManifests := Db(map[], map[]), map[], map[], map[];
    }

    /** `uow.commit()`. */
    method Commit(after: Db) returns (fate: Fate)
      modifies this`db, store
      ensures View() == Transact(old(View()), after) && fate == FirstFate(old(store.script))
    {
      fate := FirstFate(store.script);
      store.script := LaterFates(store.script);
      if fate == Succeeds || fate == RaisesAfter {
        db := after;
      }
    }

    ghost method End(aid: Id)
      modifies this`attempts
      ensures View() == Ended(old(View()), aid)
    {
      attempts := attempts - {aid};
    }

    /** `mark_referenced` and `_confirm_reference`; whether both went well. */
    method MarkThenConfirm(staged: StagedObject) returns (done: bool)
      modifies this`db, store
      ensures View() == MarkAndConfirm(old(View()), staged)
      ensures done ==> Visible(db, staged.reservation) && SameFacts(old(db), db)
      ensures old(store.script) == [] && !done ==> db == old(db)
    {
      MarkStaysQuiet(store.View(), staged);
      done := false;
      var r := store.MarkReferenced(staged);
      if r.Done? {
        match Confirm(db, staged) {
          case None =>
          case Some(after) =>
            var fate := Commit(after);
            done := fate == Succeeds;
        }
      }
    }

    /** `_complete_fresh_reference_intent`, with the replay it may go on to. The answer is the item the
        caller is told; there is none when it raises. */
    method CompleteFreshReferenceIntent(aid: Id, s: StagedObject, outcome: Outcome) returns (answer: Option<Id>)
      requires aid in attempts && attempts[aid] == AtCommitted(s, outcome)
      modifies this`db, this`attempts, store
      ensures View() == Finished(old(View()), aid)
      ensures Honest(old(db), s.reservation, outcome) && answer.Some? ==> Tells(db, s.reservation, answer.value)
      ensures old(store.script) == [] && answer.None? && Visible(db, s.reservation) ==> Visible(old(db), s.reservation)
      ensures old(store.script) == [] && outcome.visible && FreshOutcomeOk(outcome, s) ==> answer.Some?
    {
      MarkedIsNotVisible(outcome, s);
      hide FreshOutcomeOk, AbortRun, MarkRun;
      FreshMarksItsOwn(outcome, s);
      AbortStaysQuiet(store.View(), s);
      answer := None;
      if !FreshOutcomeOk(outcome, s) {
        End(aid);
        return;
      }
      if outcome.intent.action == MarkIt {
        var done := MarkThenConfirm(outcome.intent.staged);
        End(aid);
        return if done then Some(outcome.resultItem) else None;
      }
      var r := store.AbortStaged(s);
      if r.Crashed? {
        End(aid);
        return;
      }
      if outcome.intent.action == NothingToDo || outcome.visible {
        End(aid);
        return if outcome.visible then Some(outcome.resultItem) else None;
      }
      ReplayIsHonest(db, s.reservation);
      var (after, found) := ReplayReservation(db, s.reservation);
      hide ReplayReservation;
      var fate := Commit(after);
      if fate == Succeeds && found.Some? && found.value.intent.action == MarkIt {
        attempts := attempts[aid := AtReplay(found.value)];
        answer := CompleteReplayReferenceIntent(aid, found.value);
      } else {
        End(aid);
        if fate == Succeeds && found.Some? && found.value.visible {
          answer := Some(found.value.resultItem);
        }
      }
    }

    /** `_complete_replay_reference_intent`. */
    method CompleteReplayReferenceIntent(aid: Id, outcome: Outcome) returns (answer: Option<Id>)
      requires aid in attempts && attempts[aid] == AtReplay(outcome)
      modifies this`db, this`attempts, store
      ensures View() == CompleteReplayEvent(old(View()), aid)
      ensures Honest(old(db), outcome.intent.staged.reservation, outcome) && answer.Some? ==>
                Tells(db, outcome.intent.staged.reservation, answer.value)
      ensures old(store.script) == [] && answer.None? && Visible(db, outcome.intent.staged.reservation) ==>
                Visible(old(db), outcome.intent.staged.reservation)
      ensures old(store.script) == [] && outcome.visible && ReplayOutcomeOk(outcome) ==> answer.Some?
    {
      ReplayIsOfItsKind(outcome);
      AbortStaysQuiet(store.View(), outcome.intent.staged);
      hide ReplayOutcomeOk, AbortRun, MarkRun;
      answer := None;
      if ReplayOutcomeOk(outcome) {
        match outcome.intent.action {
          case MarkIt =>
            var done := MarkThenConfirm(outcome.intent.staged);
            answer := if done then Some(outcome.resultItem) else None;
          case AbortIt =>
            var r := store.AbortStaged(outcome.intent.staged);
            answer := if !r.Crashed? && outcome.visible then Some(outcome.resultItem) else None;
          case NothingToDo => answer := Some(outcome.resultItem);
        }
      }
      End(aid);
    }

    /** A replay: `_find_replay`, then its completion. */
    method Replay(aid: Id, rid: Id) returns (answer: Option<Id>)
      requires aid !in attempts
      modifies this`db, this`attempts, store
      ensures View() == CompleteReplayEvent(FindReplayEvent(old(View()), aid, rid), aid)
      ensures answer.Some? ==> Tells(db, rid, answer.value)
      ensures Safe(old(View())) && old(store.script) == [] ==> (answer.Some? <==> Visible(db, rid))
    {
      ReplayIsHonest(db, rid);
      VisibleIsFound(db, rid);
      if Safe(View()) && ReplayReservation(db, rid).1.Some? {
        ReplayAssertHolds(View(), rid);
      }
      hide Safe, ReplayOutcomeOk;
      answer := None;
      var (after, found) := ReplayReservation(db, rid);
      hide ReplayReservation;
      var fate := Commit(after);
      if fate == Succeeds && found.Some? {
        attempts := attempts[aid := AtReplay(found.value)];
        answer := CompleteReplayReferenceIntent(aid, found.value);
      }
    }

    /** `commit_sequence` with the exception handler around it: stage, finalize, complete. Whatever
        fails, a caller that gets an answer has visible evidence; and when nothing fails, the first
        object of its content is referenced and visible, a later one leaves nothing behind. */
    method Publish(aid: Id, rid: Id, key: Id, manifestId: Id, bytes: Bytes) returns (answer: Option<Id>)
      requires aid !in attempts && rid in db.reservations
      requires key !in origin && manifestId !in usedManifests
      modifies this`db, this`attempts, this`origin, this`usedManifests, store
      ensures View() == Ingested(old(View()), aid, rid, key, manifestId, bytes)
      ensures answer.Some? ==> Tells(db, rid, answer.value)
      ensures Safe(old(View())) && old(store.script) == [] && old(db).reservations[rid].status == Active ==>
                && IngestionEnds(old(View()), View(), rid, key, manifestId, bytes)
                && (answer.Some? <==> Visible(db, rid))
    {
      hide CommitEvent, CompleteFreshEvent, CompleteReplayEvent, StageRun;
      StageStaysQuiet(store.View(), StagedObject(db.reservations[rid].item, rid, key, manifestId), bytes);
      if Safe(View()) && store.script == [] && db.reservations[rid].status == Active {
        IngestionOutcome(View(), aid, rid, key, manifestId, bytes);
      }
      answer := None;
      var s := StagedObject(db.reservations[rid].item, rid, key, manifestId);
      var r := store.Stage(s, bytes);
      origin, usedManifests := origin[key := Origin(s, bytes)], usedManifests[manifestId := key];
      if !r.Done? {
        NothingToFinish(View(), aid);
        return;
      }
      attempts := attempts[aid := AtStaged(s, bytes)];
      assert View() == StageEvent(old(View()), aid, rid, key, manifestId, bytes);
      answer := FinalizeAndComplete(aid, s, bytes);
    }

    method FinalizeAndComplete(aid: Id, s: StagedObject, bytes: Bytes) returns (answer: Option<Id>)
      requires aid in attempts && attempts[aid] == AtStaged(s, bytes)
      modifies this`db, this`attempts, store
      ensures View() == Finished(CommitEvent(old(View()), aid), aid)
      ensures answer.Some? ==> Tells(db, s.reservation, answer.value)
      ensures old(store.script) == [] && IsActive(old(db), s.reservation) ==>
                (answer.Some? <==> Visible(db, s.reservation))
    {
      FinalizeIsHonest(db, s, bytes);
      ActiveIsAccepted(db, s, bytes);
      hide AbortRun, CompleteFreshEvent, CompleteReplayEvent, FinalizeActive, ReplayReservation;
      answer := None;
      var finalized := Finalize(db, s, bytes);
      if finalized.FinalizeError? {
        var _ := store.AbortStaged(s);
        End(aid);
        NothingToFinish(View(), aid);
        return;
      }
      var fate := Commit(finalized.db);
      if fate == Dies {
        End(aid);
        NothingToFinish(View(), aid);
        return;
      }
      if fate != Succeeds {
        var _ := store.AbortStaged(s);
        End(aid);
        NothingToFinish(View(), aid);
        return;
      }
      attempts := attempts[aid := AtCommitted(s, finalized.outcome)];
      assert View() == CommitEvent(old(View()), aid);
      answer := CompleteFreshReferenceIntent(aid, s, finalized.outcome);
    }
  }

  /** The item a caller is told for this reservation, with its evidence visible. */
  predicate Tells(db: Db, rid: Id, item: Id) {
    Visible(db, rid) && db.reservations[rid].facts.Some? && db.reservations[rid].facts.value.resultItem == item
  }

  /** The outcome speaks of what the reservation has on record. */
  predicate Honest(db: Db, rid: Id, o: Outcome) {
    && rid in db.reservations && db.reservations[rid].facts.Some?
    && db.reservations[rid].facts.value.resultItem == o.resultItem
    && (o.visible ==> Visible(db, rid))
  }

  ghost predicate SameFacts(db: Db, db': Db) {
    forall r :: r in db.reservations ==> r in db'.reservations && db'.reservations[r].facts == db.reservations[r].facts
  }

  lemma FinalizeIsHonest(db: Db, s: StagedObject, bytes: Bytes)
    ensures var f := Finalize(db, s, bytes);
            f.FinalizeOk? ==>
              && Honest(f.db, s.reservation, f.outcome)
              && (db.reservations[s.reservation].status == Active ==> (f.outcome.visible <==> Visible(f.db, s.reservation)))
  {
  }

  lemma ReplayIsHonest(db: Db, rid: Id)
    ensures var (db', found) := ReplayReservation(db, rid);
            && (found.Some? ==> && Honest(db', rid, found.value) && found.value.intent.staged.reservation == rid
                                && (found.value.visible <==> Visible(db', rid)))
            && (found.None? ==> db' == db) && SameFacts(db, db')
  {
  }

  lemma VisibleIsFound(db: Db, rid: Id)
    ensures Visible(db, rid) && db.reservations[rid].facts.Some? ==> ReplayReservation(db, rid).1.Some?
  {
  }

  lemma MarkedIsNotVisible(o: Outcome, s: StagedObject)
    ensures FreshOutcomeOk(o, s) && o.visible ==> o.intent.action != MarkIt
  {
  }

  predicate IsActive(db: Db, rid: Id) {
    rid in db.reservations && db.reservations[rid].status == Active
  }

  /** The first attempt of an active reservation is never refused by its own assert. */
  lemma ActiveIsAccepted(db: Db, s: StagedObject, bytes: Bytes)
    ensures var f := Finalize(db, s, bytes);
            f.FinalizeOk? && IsActive(db, s.reservation) ==> FreshOutcomeOk(f.outcome, s)
  {
  }

  lemma NothingToFinish(sys: System, aid: Id)
    ensures aid !in sys.attempts ==> CommitEvent(sys, aid) == sys && Finished(sys, aid) == sys
  {
  }

  lemma FreshMarksItsOwn(o: Outcome, s: StagedObject)
    ensures FreshOutcomeOk(o, s) && o.intent.action == MarkIt ==> o.intent.staged == s
  {
  }

  lemma ReplayIsOfItsKind(o: Outcome)
    ensures ReplayOutcomeOk(o) && o.intent.action == NothingToDo ==> o.visible
    ensures ReplayOutcomeOk(o) && o.visible ==> o.intent.action != MarkIt
  {
  }

  lemma {:induction false} PlanStaysQuiet(d: Disk, plan: seq<FileStep>)
    ensures RunPlan(d, plan, []).script == [] && RunPlan(d, plan, []).ending == Done
    decreases |plan|
  {
    if plan != [] {
      PlanStaysQuiet(Apply(d, plan[0]), plan[1..]);
    }
  }

  lemma MarkStaysQuiet(d: Disk, s: StagedObject)
    ensures MarkRun(d, s, []).script == [] && !MarkRun(d, s, []).ending.Crashed?
  {
    if MarkPlan(d, s).Planned? {
      PlanStaysQuiet(d, MarkPlan(d, s).plan);
    }
    hide RunPlan, MarkPlan;
  }

  lemma AbortStaysQuiet(d: Disk, s: StagedObject)
    ensures AbortRun(d, s, []).script == [] && !AbortRun(d, s, []).ending.Crashed?
  {
    if AbortPlan(d, s).Planned? {
      PlanStaysQuiet(d, AbortPlan(d, s).plan);
    }
    hide RunPlan, AbortPlan;
  }

  lemma StageStaysQuiet(d: Disk, s: StagedObject, bytes: Bytes)
    ensures StageRun(d, s, bytes, []).script == [] && StageRun(d, s, bytes, []).ending == Done
  {
    PlanStaysQuiet(d, StagePlan(s, bytes));
    hide RunPlan, StagePlan;
  }
}

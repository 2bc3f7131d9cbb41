/** What one ingestion comes to: where the evidence, its object and the leftovers of the staging are
    when it has ended. */
module MediaCommitOutcomes {
  import opened Basics
  import opened MediaObjectStore
  import opened MediaCommit
  import opened MediaStoreProperties
  import opened MediaCommitSafety
  import opened MediaCommitLossless
  import opened MediaCommitFindings

  /** Stage, finalize, and the completion of what finalize asked for. */
  ghost function Ingested(sys: System, aid: Id, rid: Id, key: Id, m: Id, bytes: Bytes): System {
    var committed := CommitEvent(StageEvent(sys, aid, rid, key, m, bytes), aid);
    CompleteReplayEvent(CompleteFreshEvent(committed, aid), aid)
  }

  /** The ids of an attempt that has not begun, of a reservation that waits for one. */
  ghost predicate IsFresh(sys: System, aid: Id, rid: Id, key: Id, m: Id) {
    && aid !in sys.attempts && key !in sys.origin && m !in sys.usedManifests
    && rid in sys.db.reservations && sys.db.reservations[rid].status == Active
  }

  /** Nothing of the staging is left, nobody else's files have changed, and the call has ended. */
  ghost predicate LeavesNoTraces(before: System, after: System, key: Id, m: Id) {
    && key !in after.disk.staged && m !in after.disk.manifests
    && after.disk.staged == before.disk.staged && after.disk.manifests == before.disk.manifests
    && after.attempts == before.attempts
  }

  /** The three results of an ingestion that nothing disturbs: the first object of its content is
      referenced and its evidence visible; with a referenced object there already the evidence is
      visible and the copy gone; with one that is not referenced yet only the copy is gone. */
  ghost predicate IngestionEnds(before: System, after: System, rid: Id, key: Id, m: Id, bytes: Bytes)
    requires rid in before.db.reservations
  {
    var r := before.db.reservations[rid];
    var content := Content(r.owner, bytes);
    && LeavesNoTraces(before, after, key, m)
    && content in after.db.artifacts
    && if content !in before.db.artifacts then
         && Visible(after.db, rid)
         && after.disk.referenced == before.disk.referenced[key := bytes]
         && after.db.artifacts == before.db.artifacts[content := Artifact(r.item, key, m, rid, true)]
       else
         && (Visible(after.db, rid) <==> before.db.artifacts[content].referenced)
         && after.disk.referenced == before.disk.referenced
         && after.db.artifacts == before.db.artifacts
  }

  lemma UnusedIsNotStored(sys: System, key: Id, m: Id)
    requires Safe(sys) && key !in sys.origin && m !in sys.usedManifests
    ensures key !in sys.disk.staged && key !in sys.disk.referenced && m !in sys.disk.manifests
  {
  }

  /** The state behind a stage that nothing disturbs. */
  ghost predicate IsStaged(before: System, after: System, aid: Id, s: StagedObject, bytes: Bytes) {
    && after.db == before.db && after.script == []
    && after.attempts == before.attempts[aid := AtStaged(s, bytes)]
    && after.disk.staged == before.disk.staged[s.key := bytes]
    && after.disk.manifests == before.disk.manifests[s.manifestId := ManifestOf(s, PhaseStaged)]
    && after.disk.referenced == before.disk.referenced
  }

  lemma StagingIsStaged(sys: System, aid: Id, rid: Id, key: Id, m: Id, bytes: Bytes)
    requires IsFresh(sys, aid, rid, key, m) && sys.script == []
    ensures var s := StagedObject(sys.db.reservations[rid].item, rid, key, m);
            IsStaged(sys, StageEvent(sys, aid, rid, key, m, bytes), aid, s, bytes)
  {
    StageSucceeds(sys.disk, StagedObject(sys.db.reservations[rid].item, rid, key, m), bytes, []);
    hide StageRun;
  }

  /** The completion of an outcome that a commit has just produced. */
  ghost function Finished(sys: System, aid: Id): System {
    CompleteReplayEvent(CompleteFreshEvent(sys, aid), aid)
  }

  lemma FirstOfItsContent(sys: System, aid: Id, s: StagedObject, bytes: Bytes)
    requires sys.script == [] && aid in sys.attempts && sys.attempts[aid] == AtStaged(s, bytes)
    requires JustStaged(sys.disk, s) && sys.disk.staged[s.key] == bytes
    requires s.reservation in sys.db.reservations && sys.db.reservations[s.reservation].item == s.item
    requires sys.db.reservations[s.reservation].status == Active
    requires Content(sys.db.reservations[s.reservation].owner, bytes) !in sys.db.artifacts
    ensures var after := Finished(CommitEvent(sys, aid), aid);
            && Visible(after.db, s.reservation) && after.disk == Referenced(sys.disk, s)
            && after.db.artifacts
               == sys.db.artifacts[Content(sys.db.reservations[s.reservation].owner, bytes)
                                   := Artifact(s.item, s.key, s.manifestId, s.reservation, true)]
            && after.attempts == sys.attempts - {aid}
  {
    var committed := CommitEvent(sys, aid);
    MarkOfJustStaged(sys.disk, s);
    hide MarkRun, Referenced;
    assert committed.disk == sys.disk && committed.script == [];
    ConfirmVisible(committed.db, s.reservation);
    var content := Content(sys.db.reservations[s.reservation].owner, bytes);
    assert committed.db.artifacts == sys.db.artifacts[content := Artifact(s.item, s.key, s.manifestId, s.reservation, false)];
    assert Confirm(committed.db, s).value.artifacts
        == sys.db.artifacts[content := Artifact(s.item, s.key, s.manifestId, s.reservation, true)];
  }

  lemma LaterOfItsContent(sys: System, aid: Id, s: StagedObject, bytes: Bytes)
    requires sys.script == [] && aid in sys.attempts && sys.attempts[aid] == AtStaged(s, bytes)
    requires JustStaged(sys.disk, s)
    requires s.reservation in sys.db.reservations && sys.db.reservations[s.reservation].item == s.item
    requires sys.db.reservations[s.reservation].status == Active
    requires Content(sys.db.reservations[s.reservation].owner, bytes) in sys.db.artifacts
    ensures var after := Finished(CommitEvent(sys, aid), aid);
            && (Visible(after.db, s.reservation)
                <==> sys.db.artifacts[Content(sys.db.reservations[s.reservation].owner, bytes)].referenced)
            && after.disk == Discarded(sys.disk, s) && after.db.artifacts == sys.db.artifacts
            && after.attempts == sys.attempts - {aid}
  {
    AbortSucceeds(sys.disk, s);
    hide AbortRun, Discarded;
  }

  /** Main result: every undisturbed ingestion ends in one of the three ways, from every state. */
  lemma IngestionOutcome(sys: System, aid: Id, rid: Id, key: Id, m: Id, bytes: Bytes)
    requires Safe(sys) && sys.script == [] && IsFresh(sys, aid, rid, key, m)
    ensures IngestionEnds(sys, Ingested(sys, aid, rid, key, m, bytes), rid, key, m, bytes)
  {
    var s := StagedObject(sys.db.reservations[rid].item, rid, key, m);
    var staged := StageEvent(sys, aid, rid, key, m, bytes);
    UnusedIsNotStored(sys, key, m);
    StagingIsStaged(sys, aid, rid, key, m, bytes);
    hide Safe, StageEvent, CommitEvent, CompleteFreshEvent, CompleteReplayEvent, IngestionEnds, IsStaged, IsFresh;
    StagedEnds(sys, staged, aid, s, bytes);
  }

  lemma StagedEnds(sys: System, staged: System, aid: Id, s: StagedObject, bytes: Bytes)
    requires IsFresh(sys, aid, s.reservation, s.key, s.manifestId)
    requires s.item == sys.db.reservations[s.reservation].item
    requires s.key !in sys.disk.staged && s.manifestId !in sys.disk.manifests
    requires IsStaged(sys, staged, aid, s, bytes) && s.key !in sys.disk.referenced
    ensures IngestionEnds(sys, Finished(CommitEvent(staged, aid), aid), s.reservation, s.key, s.manifestId, bytes)
  {
    hide CommitEvent, CompleteFreshEvent, CompleteReplayEvent;
    assert staged.disk.staged - {s.key} == sys.disk.staged;
    assert staged.disk.manifests - {s.manifestId} == sys.disk.manifests;
    assert staged.attempts - {aid} == sys.attempts;
    if Content(sys.db.reservations[s.reservation].owner, bytes) in sys.db.artifacts {
      LaterOfItsContent(staged, aid, s, bytes);
    } else {
      FirstOfItsContent(staged, aid, s, bytes);
    }
  }

  // ---------------------------------------------------------------------
  // Failures, retries and followers

  /** Exactly one step fails, without killing the process: the last of the script. */
  predicate FailsAtItsEnd(script: Script) {
    && script != [] && (script[|script| - 1].RaisesBefore? || script[|script| - 1].RaisesAfter?)
    && forall k :: 0 <= k < |script| - 1 ==> script[k].Succeeds?
  }

  lemma {:induction false} PlanFails(d: Disk, plan: seq<FileStep>, script: Script)
    requires FailsAtItsEnd(script) && |script| <= |plan|
    ensures var r := RunPlan(d, plan, script); r.ending == Raised(StepFailed) && r.script == []
    decreases |plan|
  {
    if |script| > 1 {
      PlanFails(Apply(d, plan[0]), plan[1..], script[1..]);
    }
  }

  predicate OnOwnParts(step: FileStep, s: StagedObject) {
    && (step.CreateObjectPart? || step.UnlinkObjectPart? || step.PublishObject? ==> step.key == s.key)
    && (step.CreateManifestPart? || step.UnlinkManifestPart? || step.PublishManifest? ==>
          step.manifestId == s.manifestId)
  }

  lemma {:induction false} OtherPartsStay(d: Disk, plan: seq<FileStep>, s: StagedObject, script: Script)
    requires forall step <- plan :: OnOwnParts(step, s)
    ensures var r := RunPlan(d, plan, script).disk;
            && r.objectParts - {s.key} == d.objectParts - {s.key}
            && r.manifestParts - {s.manifestId} == d.manifestParts - {s.manifestId}
    decreases |plan|
  {
    if plan != [] {
      var r := RunStep(d, plan[0], script);
      assert plan[0] in plan;
      OtherPartsStay(r.disk, plan[1..], s, r.script);
    }
  }

  lemma StagePlanIsOwn(s: StagedObject, bytes: Bytes)
    ensures |StagePlan(s, bytes)| == 6 && forall step <- StagePlan(s, bytes) :: OnOwnParts(step, s)
  {
  }

  /** A stage of which one step fails cleans its temporary files away; what it has published stays for
      the janitor, and an object only beside the manifest that names it. */
  lemma FailedStageLeavesNoParts(d: Disk, s: StagedObject, bytes: Bytes, script: Script)
    requires s.key !in d.staged && FailsAtItsEnd(script) && |script| <= 6
    ensures var r := StageRun(d, s, bytes, script);
            && r.ending.Raised? && StageLeaves(d, s, bytes, r.disk)
            && r.disk.objectParts == d.objectParts - {s.key}
            && r.disk.manifestParts == d.manifestParts - {s.manifestId}
  {
    var plan := StagePlan(s, bytes);
    StageRunLeaves(d, s, bytes, script);
    StagePlanIsOwn(s, bytes);
    PlanFails(d, plan, script);
    OtherPartsStay(d, plan, s, script);
    hide StagePlan;
    var r := RunPlan(d, plan, script);
    var cleanup := StageCleanupPlan(r.disk, s);
    AllStepsSucceed(r.disk, cleanup, []);
    RunStopsAfterPrefix(r.disk, cleanup, []);
    CleanupClears(r.disk, s);
    hide RunPlan, ApplyAll, StageCleanupPlan;
  }

  lemma CleanupClears(d: Disk, s: StagedObject)
    ensures var cleanup := StageCleanupPlan(d, s);
            var c := ApplyAll(d, cleanup[..Reached(cleanup, [])]);
            c.objectParts == d.objectParts - {s.key} && c.manifestParts == d.manifestParts - {s.manifestId}
  {
    var cleanup := StageCleanupPlan(d, s);
    AllReached(cleanup);
    assert cleanup[..|cleanup|] == cleanup;
    assert cleanup[1..][0] == UnlinkManifestPart(s.manifestId);
    var rest := cleanup[1..][1..];
    var d1 := Apply(d, cleanup[0]);
    var d2 := Apply(d1, cleanup[1..][0]);
    assert ApplyAll(d, cleanup) == ApplyAll(d1, cleanup[1..]) == ApplyAll(d2, rest);
    if rest == [] {
      assert ApplyAll(d2, rest) == d2;
    } else {
      assert rest == [UnlinkStaged(s.key)] && rest[1..] == [];
      assert ApplyAll(d2, rest) == ApplyAll(Apply(d2, rest[0]), []) == Apply(d2, rest[0]);
    }
  }

  lemma {:induction false} AllReached(plan: seq<FileStep>)
    ensures Reached(plan, []) == |plan|
    decreases |plan|
  {
    if plan != [] {
      AllReached(plan[1..]);
    }
  }

  /** A finalize that is refused, or whose commit fails without effect: with the abort's steps
      succeeding nothing of the staging is left and the database is what it was. */
  lemma FailedCommitCleansUp(sys: System, aid: Id, s: StagedObject, bytes: Bytes)
    requires aid in sys.attempts && sys.attempts[aid] == AtStaged(s, bytes) && JustStaged(sys.disk, s)
    requires sys.script == if Finalize(sys.db, s, bytes).FinalizeError? then [] else [RaisesBefore]
    ensures var after := Next(sys, CommitFinalize(aid));
            && after.db == sys.db && after.attempts == sys.attempts - {aid}
            && after.disk.staged == sys.disk.staged - {s.key}
            && after.disk.manifests == sys.disk.manifests - {s.manifestId}
            && after.disk.referenced == sys.disk.referenced
  {
    AbortSucceeds(sys.disk, s);
    hide AbortRun, Finalize;
  }

  /** The reservation's first object still waits to be marked. */
  ghost predicate WaitsForItsMark(db: Db, rid: Id) {
    && rid in db.reservations && db.reservations[rid].status == PendingReference
    && db.reservations[rid].facts.Some? && db.reservations[rid].facts.value.intent == MarkIt
  }

  lemma RetryGoesOnAsReplay(sys: System, aid: Id, s: StagedObject, bytes: Bytes)
    requires sys.script == [] && JustStaged(sys.disk, s) && WaitsForItsMark(sys.db, s.reservation)
    requires aid in sys.attempts && sys.attempts[aid] == AtStaged(s, bytes)
    requires sys.db.reservations[s.reservation].item == s.item
    ensures CompleteFreshEvent(CommitEvent(sys, aid), aid)
            == sys.(disk := Discarded(sys.disk, s),
                    attempts := sys.attempts[aid := AtReplay(OutcomeOf(sys.db, s.reservation, MarkIt, false))])
  {
    AbortSucceeds(sys.disk, s);
    hide AbortRun, Discarded;
    var committed := CommitEvent(sys, aid);
    assert committed == sys.(attempts := sys.attempts[aid := AtCommitted(
        s, Outcome(sys.db.reservations[s.reservation].facts.value.resultItem, Intent(s, AbortIt), false))]);
  }

  lemma CompletionOnlyRemoves(sys: System, aid: Id, k: Id, m: Id)
    requires k !in sys.disk.staged && m !in sys.disk.manifests
    ensures var after := CompleteReplayEvent(sys, aid); k !in after.disk.staged && m !in after.disk.manifests
  {
    if aid in sys.attempts && sys.attempts[aid].AtReplay? {
      var s := sys.attempts[aid].outcome.intent.staged;
      var v := MarkRunLeaves(sys.disk, s, sys.script);
      var w := AbortRunLeaves(sys.disk, s, sys.script);
      hide MarkRun, AbortRun, Confirm;
    }
  }

  /** A second attempt under a reservation whose first object still waits to be marked: it discards
      its own copy and finishes the first one's, exactly when that is on disk. */
  lemma RetryCompletesExactly(sys: System, aid: Id, s: StagedObject, bytes: Bytes)
    requires Tracked(sys) && sys.script == [] && JustStaged(sys.disk, s)
    requires aid in sys.attempts && sys.attempts[aid] == AtStaged(s, bytes)
    requires WaitsForItsMark(sys.db, s.reservation)
    ensures var after := Finished(CommitEvent(sys, aid), aid);
            && s.key !in after.disk.staged && s.manifestId !in after.disk.manifests
            && (Visible(after.db, s.reservation)
                <==> OnDisk(sys, sys.db.reservations[s.reservation].facts.value.key))
  {
    hide Tracked, Safe, CompleteFreshEvent, CommitEvent, CompleteReplayEvent, MarkRun, AttemptNamed, JustStaged, Discarded;
    var retried := CompleteFreshEvent(CommitEvent(sys, aid), aid);
    TrackedAttempt(sys, aid);
    RetryGoesOnAsReplay(sys, aid, s, bytes);
    DiscardedKeepsOthers(sys, aid, s);
    CommitTracked(sys, aid);
    CompleteFreshTracked(CommitEvent(sys, aid), aid);
    PendingIsBound(retried, s.reservation);
    TrackedIsSafe(retried);
    MarkSucceedsExactly(retried, StagedOf(retried.db, s.reservation));
    ReplayMarks(retried, aid, s.reservation);
    CompletionOnlyRemoves(retried, aid, s.key, s.manifestId);
  }

  /** Discarding an attempt's copy leaves the objects of the database alone. */
  lemma DiscardedKeepsOthers(sys: System, aid: Id, s: StagedObject)
    requires Tracked(sys) && aid in sys.attempts && sys.attempts[aid].AtStaged? && sys.attempts[aid].s == s
    ensures var d := Discarded(sys.disk, s);
            && s.key !in d.staged && s.manifestId !in d.manifests
            && forall r :: r in sys.db.reservations && sys.db.reservations[r].facts.Some? ==>
                 var k := sys.db.reservations[r].facts.value.key;
                 (k in d.staged || k in d.referenced <==> OnDisk(sys, k))
  {
    assert AttemptNamed(sys, aid) && Unclaimed(sys, aid);
    hide Tracked;
  }

  /** What the replay of a follower finds. */
  lemma FollowerFound(sys: System, aid: Id, rid: Id)
    requires sys.script == [] && aid !in sys.attempts
    requires rid in sys.db.reservations && sys.db.reservations[rid].status == PendingReference
    requires sys.db.reservations[rid].facts.Some? && sys.db.reservations[rid].facts.value.intent == AbortIt
    requires sys.db.reservations[rid].facts.value.canonical in sys.db.artifacts
    ensures var done := Complete(sys.db, rid, Follower);
            FindReplayEvent(sys, aid, rid)
            == if sys.db.artifacts[sys.db.reservations[rid].facts.value.canonical].referenced
               then sys.(db := done, attempts := sys.attempts[aid := AtReplay(OutcomeOf(done, rid, NothingToDo, true))])
               else sys.(attempts := sys.attempts[aid := AtReplay(OutcomeOf(sys.db, rid, AbortIt, false))])
  {
  }

  /** A reservation that follows another's object becomes visible at its next replay, exactly once
      that object is referenced; until then a replay removes what is left of its own copy. */
  lemma FollowerCompletesExactly(sys: System, aid: Id, rid: Id)
    requires Tracked(sys) && sys.script == [] && aid !in sys.attempts
    requires rid in sys.db.reservations && sys.db.reservations[rid].status == PendingReference
    requires sys.db.reservations[rid].facts.Some? && sys.db.reservations[rid].facts.value.intent == AbortIt
    ensures var f := sys.db.reservations[rid].facts.value;
            var after := CompleteReplayEvent(FindReplayEvent(sys, aid, rid), aid);
            && f.canonical in sys.db.artifacts && after.db.artifacts == sys.db.artifacts
            && after.disk.referenced == sys.disk.referenced && after.attempts == sys.attempts
            && (Visible(after.db, rid) <==> sys.db.artifacts[f.canonical].referenced)
            && (JustStaged(sys.disk, StagedOf(sys.db, rid)) && !Visible(after.db, rid) ==>
                  f.key !in after.disk.staged && f.manifestId !in after.disk.manifests)
  {
    hide Tracked, Safe, AbortRun, MarkAndConfirm, FindReplayEvent;
    TrackedIsSafe(sys);
    FollowerHasAnother(sys, rid);
    FollowerFound(sys, aid, rid);
    var s := StagedOf(sys.db, rid);
    var v := AbortRunLeaves(sys.disk, s, []);
    if JustStaged(sys.disk, s) {
      AbortSucceeds(sys.disk, s);
    }
    assert (sys.attempts[aid := FindReplayEvent(sys, aid, rid).attempts[aid]]) - {aid} == sys.attempts;
  }

  /** A reservation that reused a referenced object is visible already; its replay removes what an
      interrupted completion left of its own copy, and changes nothing else. */
  lemma ReuseReplayCleansUp(sys: System, aid: Id, rid: Id)
    requires Safe(sys) && sys.script == [] && aid !in sys.attempts && Visible(sys.db, rid)
    requires sys.db.reservations[rid].completion == Some(DirectReuse) && sys.db.reservations[rid].facts.Some?
    requires JustStaged(sys.disk, StagedOf(sys.db, rid))
    ensures CompleteReplayEvent(FindReplayEvent(sys, aid, rid), aid)
            == sys.(disk := Discarded(sys.disk, StagedOf(sys.db, rid)))
  {
    ReplayAssertHolds(sys, rid);
    ReuseFound(sys, aid, rid);
    hide Safe, Discarded, ReplayOutcomeOk, FindReplayEvent, JustStaged, ReplayReservation, CompleteReplayEvent;
    CopyDiscarded(sys, aid, OutcomeOf(sys.db, rid, AbortIt, true));
  }

  lemma CopyDiscarded(sys: System, aid: Id, o: Outcome)
    requires sys.script == [] && aid !in sys.attempts && ReplayOutcomeOk(o) && o.intent.action == AbortIt
    requires JustStaged(sys.disk, o.intent.staged)
    ensures CompleteReplayEvent(sys.(attempts := sys.attempts[aid := AtReplay(o)]), aid)
            == sys.(disk := Discarded(sys.disk, o.intent.staged))
  {
    AbortSucceeds(sys.disk, o.intent.staged);
    hide AbortRun, Discarded, ReplayOutcomeOk, JustStaged;
    assert sys.attempts[aid := AtReplay(o)] - {aid} == sys.attempts;
  }

  lemma ReuseFound(sys: System, aid: Id, rid: Id)
    requires sys.script == [] && aid !in sys.attempts && Visible(sys.db, rid)
    requires sys.db.reservations[rid].completion == Some(DirectReuse) && sys.db.reservations[rid].facts.Some?
    ensures var o := OutcomeOf(sys.db, rid, AbortIt, true);
            && ReplayReservation(sys.db, rid).1 == Some(o)
            && FindReplayEvent(sys, aid, rid) == sys.(attempts := sys.attempts[aid := AtReplay(o)])
            && o.intent.action == AbortIt && o.intent.staged == StagedOf(sys.db, rid)
  {
  }

  /** A follower's result is the item of an artifact that another reservation made. */
  lemma FollowerHasAnother(sys: System, rid: Id)
    requires Safe(sys) && rid in sys.db.reservations && sys.db.reservations[rid].status == PendingReference
    requires sys.db.reservations[rid].facts.Some? && sys.db.reservations[rid].facts.value.intent == AbortIt
    ensures var f := sys.db.reservations[rid].facts.value;
            f.canonical in sys.db.artifacts && f.resultItem != sys.db.reservations[rid].item
  {
    assert ReservationInv(sys.db, rid);
    assert ArtifactInv(sys.db, sys.origin, sys.db.reservations[rid].facts.value.canonical);
  }
}

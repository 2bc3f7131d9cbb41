/** `LocalQuarantineStore` as a class: its methods carry out the runs of module Quarantine one
    file step at a time, and its recovery sweeps every artifact. */
module QuarantineStore {
  import opened Basics
  import opened Quarantine
  import opened QuarantineProperties
  import opened QuarantineRecovery
  import opened QuarantineOutcomes

  datatype Phase = Journals | Parts | Markers | Records | Payloads

  function At(artifacts: map<Id, Artifact>, id: Id): Artifact {
    if id in artifacts then artifacts[id] else Nothing()
  }

  /** What a sweep is told about one artifact: listing order, young files, the checker's answer. */
  datatype Outlook = Outlook(listing: Listing, young: set<Target>, checker: Id -> Verdict)

  /** The checker is asked about the reservation the record names. */
  function VerdictOn(a: Artifact, checker: Id -> Verdict): Verdict {
    if a.record.Some? && a.record.value.RecordFile? then checker(a.record.value.reservation) else Unknown
  }

  function PhaseRun(phase: Phase, a: Artifact, o: Outlook, script: Script): Swept {
    match phase
    case Journals => JournalPhase(a, o.listing.journals, script)
    case Parts => PartPhase(a, o.listing.parts, o.young, script)
    case Markers => MarkerPhase(a, o.young, script)
    case Records => RecordPhase(a, o.young, VerdictOn(a, o.checker), script)
    case Payloads => PayloadPhase(a, o.young, script)
  }

  class LocalQuarantineStore {
    var artifacts: map<Id, Artifact>
    var script: Script

    constructor (artifacts: map<Id, Artifact>, script: Script)
      ensures this.artifacts == artifacts && this.script == script
    {
      this.artifacts, this.script := artifacts, script;
    }

    /** The store after a run over one artifact. */
    twostate predicate Became(id: Id, r: Run, e: Ending)
      reads this
    {
      artifacts == old(artifacts)[id := r.artifact] && script == r.script && e == r.ending
    }

    /** One file step. */
    method Take(id: Id, step: Step) returns (e: Ending)
      modifies this
      ensures Became(id, StepRun(At(old(artifacts), id), step, old(script)), e)
    {
      var r := StepRun(At(artifacts, id), step, script);
      artifacts, script, e := artifacts[id := r.artifact], r.script, r.ending;
    }

    method Touch(id: Id)
      modifies this`artifacts
      ensures artifacts == old(artifacts)[id := At(old(artifacts), id)]
    {
      artifacts := artifacts[id := At(artifacts, id)];
    }

    // -------------------------------------------------------------------
    // Publication

    /** `_rollback_unlink`. */
    method RollbackUnlink(id: Id, targets: seq<Target>) returns (e: Ending)
      modifies this
      ensures Became(id, RollbackRun(At(old(artifacts), id), targets, old(script)), e)
    {
      ghost var was, started := At(artifacts, id), script;
      Touch(id);
      e := Finished;
      for n := 0 to |targets|
        invariant id in artifacts && artifacts == old(artifacts)[id := artifacts[id]]
        invariant e == Finished
        invariant RollbackRun(was, targets, started) == RollbackRun(artifacts[id], targets[n..], script)
      {
        assert targets[n..][0] == targets[n] && targets[n..][1..] == targets[n + 1..];
        if Present(artifacts[id], targets[n]) {
          e := Take(id, Unlink(targets[n]));
          if e.Crashed? {
            return;
          }
          e := Finished;
        }
      }
    }

    /** The publication steps, up to the first that fails. */
    method PublishFiles(id: Id, plan: seq<Step>) returns (e: Ending)
      modifies this
      ensures Became(id, PlanRun(At(old(artifacts), id), plan, old(script)), e)
    {
      ghost var was, started := At(artifacts, id), script;
      Touch(id);
      e := Finished;
      for n := 0 to |plan|
        invariant id in artifacts && artifacts == old(artifacts)[id := artifacts[id]]
        invariant e == Finished
        invariant PlanRun(was, plan, started) == PlanRun(artifacts[id], plan[n..], script)
      {
        assert plan[n..][0] == plan[n] && plan[n..][1..] == plan[n + 1..];
        if plan[n].CreatePart? && plan[n].kind in artifacts[id].parts {
          return Failed;
        }
        e := Take(id, plan[n]);
        if !e.Finished? {
          return;
        }
      }
    }

    /** `_publish_formal`. */
    method PublishFormal(id: Id, bytes: Bytes, record: RecordFile) returns (e: Ending)
      requires record.RecordFile?
      modifies this
      ensures Became(id, PublishRun(At(old(artifacts), id), bytes, record, old(script)), e)
    {
      Touch(id);
      var a := artifacts[id];
      if AnyFormal(a) {
        if Loads(a, true) && SameBinding(a.record.value, record) {
          e := RollbackUnlink(id, [Part(PayloadPart), Part(RecordPart), Part(CommitPart)]);
          e := if e.Crashed? then Crashed else Finished;
        } else {
          e := Failed;
        }
      } else {
        e := PublishFiles(id, PublishPlan(bytes, record));
        if e.Failed? {
          e := RollbackUnlink(id, RollbackOrder());
          e := if e.Crashed? then Crashed else Failed;
        }
      }
    }

    // -------------------------------------------------------------------
    // Deletion

    method CleanupDeletionJournal(id: Id, t: Target) returns (e: Ending)
      modifies this
      ensures Became(id, CleanupJournalRun(At(old(artifacts), id), t, old(script)), e)
    {
      e := Take(id, RemoveJournal(t));
      if e.Failed? && t !in artifacts[id].journal {
        e := Take(id, WriteJournal(t, Deleted));
        e := if e.Crashed? then Crashed else Failed;
      }
    }

    method FinishDeletionJournal(id: Id, t: Target) returns (e: Ending)
      modifies this
      ensures Became(id, FinishJournalRun(At(old(artifacts), id), t, old(script)), e)
    {
      hide CleanupJournalRun;
      Touch(id);
      if Present(artifacts[id], t) {
        e := Take(id, Unlink(t));
        if !e.Finished? {
          return;
        }
      }
      e := Take(id, WriteJournal(t, Deleted));
      if e.Finished? {
        e := CleanupDeletionJournal(id, t);
      }
    }

    /** `_recovery_unlink`. */
    method RecoveryUnlink(id: Id, t: Target) returns (e: Ending)
      modifies this
      ensures Became(id, JournalledUnlinkRun(At(old(artifacts), id), t, old(script)), e)
    {
      hide FinishJournalRun;
      Touch(id);
      if !Present(artifacts[id], t) {
        return Finished;
      }
      if t !in artifacts[id].journal {
        e := Take(id, WriteJournal(t, Intent));
        if !e.Finished? {
          return;
        }
      }
      e := FinishDeletionJournal(id, t);
    }

    method DeleteTriplet(id: Id) returns (e: Ending)
      modifies this
      ensures Became(id, DeleteTripletRun(At(old(artifacts), id), old(script)), e)
    {
      hide JournalledUnlinkRun;
      e := RecoveryUnlink(id, Marker);
      if e.Finished? {
        e := RecoveryUnlink(id, Payload);
        if e.Finished? {
          e := RecoveryUnlink(id, Record);
        }
      }
    }

    /** `_QuarantineObject.delete`. */
    method DeleteObject(id: Id) returns (e: Ending)
      modifies this
      ensures Became(id, DeleteObjectRun(At(old(artifacts), id), old(script)), e)
    {
      e := Take(id, Unlink(Marker));
      if e.Finished? {
        e := Take(id, Unlink(Payload));
        if e.Finished? {
          e := Take(id, Unlink(Record));
        }
      }
    }

    /** The formal part of `discard_pending_clean_receipt`. */
    method DiscardPendingCleanReceipt(id: Id) returns (e: Ending)
      modifies this
      ensures Became(id, DiscardRun(At(old(artifacts), id), old(script)), e)
    {
      e := RollbackUnlink(id, [Marker, Record, Payload]);
    }

    // -------------------------------------------------------------------
    // remove_expired

    /** One record under `remove_expired`: whether its artifact was removed, or a diagnostic was kept. */
    method VisitExpired(id: Id, now: int) returns (e: Ending, removed: bool, diagnosed: bool)
      modifies this
      ensures Became(id, ExpireRun(At(old(artifacts), id), now, old(script)), e)
      ensures removed == (Expired(At(old(artifacts), id), now) && e.Finished?)
      ensures diagnosed == ((Expired(At(old(artifacts), id), now) && e.Failed?) || Unloadable(At(old(artifacts), id)))
    {
      hide DeleteTripletRun;
      Touch(id);
      var a := artifacts[id];
      if !Loads(a, true) {
        return Finished, false, a.record.Some?;
      }
      if now < a.record.value.expiresAt {
        return Finished, false, false;
      }
      e := DeleteTriplet(id);
      removed, diagnosed := e.Finished?, e.Failed?;
    }

    /** `remove_expired`: takes away what is committed and expired and nothing else, reports exactly what it
        took away, and goes on after a failure, of which it keeps a diagnostic. */
    method RemoveExpired(now: int) returns (e: Ending, removed: set<Id>, diagnosed: set<Id>)
      modifies this
      ensures forall id :: !Expired(At(old(artifacts), id), now) ==> At(artifacts, id) == At(old(artifacts), id)
      ensures forall id <- removed ::
                Expired(At(old(artifacts), id), now) && At(artifacts, id) == Removed(At(old(artifacts), id))
      ensures !e.Crashed? ==>
                forall id :: Expired(At(old(artifacts), id), now) ==> (id in removed <==> id !in diagnosed)
      ensures !e.Crashed? ==>
                forall id :: !Expired(At(old(artifacts), id), now) ==>
                  (id in diagnosed <==> Unloadable(At(old(artifacts), id)))
      ensures old(script) == [] ==>
                !e.Crashed? && forall id :: id in removed <==> Expired(At(old(artifacts), id), now)
    {
      hide ExpireRun, Committed, Expired, Removed, Unloadable;
      e, removed, diagnosed := Finished, {}, {};
      var left := artifacts.Keys;
      NothingExpires(now);
      while left != {}
        invariant left <= old(artifacts).Keys <= artifacts.Keys
        invariant forall id :: id in left || !Expired(At(old(artifacts), id), now) ==>
                    At(artifacts, id) == At(old(artifacts), id)
        invariant removed !! left && diagnosed !! left
        invariant forall id <- removed ::
                    Expired(At(old(artifacts), id), now) && At(artifacts, id) == Removed(At(old(artifacts), id))
        invariant forall id :: id !in left && Expired(At(old(artifacts), id), now) ==>
                    (id in removed <==> id !in diagnosed)
        invariant forall id :: id !in left && !Expired(At(old(artifacts), id), now) ==>
                    (id in diagnosed <==> Unloadable(At(old(artifacts), id)))
        invariant old(script) == [] ==> script == [] && forall id :: id in diagnosed ==> !Expired(At(old(artifacts), id), now)
        decreases |left|
      {
        var id :| id in left;
        ExpiresExactly(At(artifacts, id), now, script);
        ExpiryLeavesScript(At(artifacts, id), now);
        UnloadableIsNotExpired(At(artifacts, id), now);
        var one, gone, noted := VisitExpired(id, now);
        left := left - {id};
        removed := if gone then removed + {id} else removed;
        diagnosed := if noted then diagnosed + {id} else diagnosed;
        if one.Crashed? {
          return one, removed, diagnosed;
        }
      }
    }

    // -------------------------------------------------------------------
    // recover_quarantine

    method VisitJournals(id: Id, order: seq<Target>) returns (e: Ending, recovered: bool)
      modifies this
      ensures Became(id, JournalPhase(At(old(artifacts), id), order, old(script)).run, e)
      ensures recovered == JournalPhase(At(old(artifacts), id), order, old(script)).recovered
      decreases |order|
    {
      hide CleanupJournalRun, FinishJournalRun;
      Touch(id);
      if order == [] {
        return Finished, false;
      }
      if order[0] !in artifacts[id].journal {
        e, recovered := VisitJournals(id, order[1..]);
        return;
      }
      var first;
      if artifacts[id].journal[order[0]] == Deleted {
        first := CleanupDeletionJournal(id, order[0]);
      } else {
        first := FinishDeletionJournal(id, order[0]);
      }
      if first.Crashed? {
        return first, false;
      }
      e, recovered := VisitJournals(id, order[1..]);
      e := if e.Finished? then first else e;
      recovered := first.Finished? || recovered;
    }

    method VisitParts(id: Id, order: seq<PartKind>, young: set<Target>) returns (e: Ending, recovered: bool)
      modifies this
      ensures Became(id, PartPhase(At(old(artifacts), id), order, young, old(script)).run, e)
      ensures recovered == PartPhase(At(old(artifacts), id), order, young, old(script)).recovered
      decreases |order|
    {
      hide JournalledUnlinkRun;
      Touch(id);
      if order == [] {
        return Finished, false;
      }
      if order[0] !in artifacts[id].parts || Part(order[0]) in young {
        e, recovered := VisitParts(id, order[1..], young);
        return;
      }
      var first := RecoveryUnlink(id, Part(order[0]));
      if first.Crashed? {
        return first, false;
      }
      e, recovered := VisitParts(id, order[1..], young);
      e := if e.Finished? then first else e;
      recovered := first.Finished? || recovered;
    }

    method VisitMarker(id: Id, young: set<Target>) returns (e: Ending, recovered: bool)
      modifies this
      ensures Became(id, MarkerPhase(At(old(artifacts), id), young, old(script)).run, e)
      ensures recovered == MarkerPhase(At(old(artifacts), id), young, old(script)).recovered
    {
      hide DeleteTripletRun;
      Touch(id);
      if artifacts[id].marker.None? || Marker in young || Loads(artifacts[id], true) {
        return Finished, false;
      }
      e := DeleteTriplet(id);
      recovered := e.Finished?;
    }

    method VisitRecord(id: Id, young: set<Target>, checker: Id -> Verdict) returns (e: Ending, recovered: bool)
      modifies this
      ensures var a := At(old(artifacts), id);
              && Became(id, RecordPhase(a, young, VerdictOn(a, checker), old(script)).run, e)
              && recovered == RecordPhase(a, young, VerdictOn(a, checker), old(script)).recovered
    {
      hide DeleteTripletRun, JournalledUnlinkRun;
      Touch(id);
      if artifacts[id].record.None? || Record in young {
        return Finished, false;
      }
      if !Loads(artifacts[id], false) {
        e := RecoveryUnlink(id, Record);
        return e, e.Finished?;
      }
      match checker(artifacts[id].record.value.reservation) {
        case Raises =>
          e := RecoveryUnlink(id, Record);
        case Inactive =>
          e := DeleteTriplet(id);
        case _ =>
          return Finished, false;
      }
      recovered := e.Finished?;
    }

    method VisitPayload(id: Id, young: set<Target>) returns (e: Ending, recovered: bool)
      modifies this
      ensures Became(id, PayloadPhase(At(old(artifacts), id), young, old(script)).run, e)
      ensures recovered == PayloadPhase(At(old(artifacts), id), young, old(script)).recovered
    {
      hide JournalledUnlinkRun;
      Touch(id);
      if artifacts[id].payload.None? || Payload in young
         || artifacts[id].record.Some? || artifacts[id].marker.Some? {
        return Finished, false;
      }
      e := RecoveryUnlink(id, Payload);
      recovered := e.Finished?;
    }

    method Visit(phase: Phase, id: Id, o: Outlook) returns (e: Ending, recovered: bool)
      modifies this
      ensures Became(id, PhaseRun(phase, At(old(artifacts), id), o, old(script)).run, e)
      ensures recovered == PhaseRun(phase, At(old(artifacts), id), o, old(script)).recovered
    {
      match phase {
        case Journals => e, recovered := VisitJournals(id, o.listing.journals);
        case Parts => e, recovered := VisitParts(id, o.listing.parts, o.young);
        case Markers => e, recovered := VisitMarker(id, o.young);
        case Records => e, recovered := VisitRecord(id, o.young, o.checker);
        case Payloads => e, recovered := VisitPayload(id, o.young);
      }
    }

    /** One loop of the sweep, over every artifact. A failure is noted and the loop goes on. */
    method RunPhase(phase: Phase, ids: set<Id>, outlook: Id -> Outlook) returns (e: Ending, recovered: set<Id>)
      modifies this
      ensures old(script) == [] ==> Carried(phase, ids, outlook, old(artifacts), artifacts, recovered)
      ensures old(script) == [] ==> script == [] && e == Finished
      ensures AllSound(old(artifacts)) && (forall id :: Answers(outlook(id))) ==> AllSound(artifacts)
    {
      hide PhaseRun, Answers, AllSound, Carried;
      e, recovered := Finished, {};
      var left := ids;
      NothingCarried(phase, outlook, artifacts);
      assert ids - left == {};
      while left != {}
        invariant left <= ids
        invariant old(script) == [] ==> script == [] && e == Finished
        invariant old(script) == [] ==>
          Carried(phase, ids - left, outlook, old(artifacts), artifacts, recovered)
        invariant AllSound(old(artifacts)) && (forall id :: Answers(outlook(id))) ==> AllSound(artifacts)
        decreases |left|
      {
        var id :| id in left;
        ghost var before, reportedBefore := artifacts, recovered;
        PhaseIsFaultFree(phase, At(artifacts, id), outlook(id));
        SoundnessCarried(phase, id, artifacts, outlook(id), script);
        var one, reported := Visit(phase, id, outlook(id));
        recovered := if reported then recovered + {id} else recovered;
        if old(script) == [] {
          OneMoreCarried(phase, ids - left, id, outlook, old(artifacts), before, reportedBefore);
        }
        assert ids - (left - {id}) == (ids - left) + {id};
        left := left - {id};
        if one.Crashed? {
          return one, recovered;
        }
        e := if e.Finished? then one else e;
      }
      assert ids - left == ids;
    }

    /** `recover_quarantine`. Without faults every artifact ends where its own sweep takes it,
        and the report names exactly the recovered ones; with any faults at all, a sweep whose
        checker answers never makes a sound store unsound. */
    method RecoverQuarantine(outlook: Id -> Outlook) returns (e: Ending, recovered: set<Id>)
      modifies this
      ensures old(script) == [] ==> e == Finished && script == []
      ensures old(script) == [] ==> forall id ::
                At(artifacts, id) == SweptTo(At(old(artifacts), id), outlook(id)).artifact
      ensures old(script) == [] ==> forall id ::
                id in recovered <==> SweptTo(At(old(artifacts), id), outlook(id)).recovered
      ensures AllSound(old(artifacts)) && (forall id :: Answers(outlook(id))) ==> AllSound(artifacts)
    {
      hide PhaseRun, Answers, SweptTo;
      var ids := artifacts.Keys;
      var r1, r2, r3, r4, r5;
      e, r1 := RunPhase(Journals, ids, outlook);
      ghost var s1 := artifacts;
      if !e.Finished? {
        return e, {};
      }
      e, r2 := RunPhase(Parts, ids, outlook);
      ghost var s2 := artifacts;
      if !e.Finished? {
        return e, {};
      }
      e, r3 := RunPhase(Markers, ids, outlook);
      ghost var s3 := artifacts;
      if !e.Finished? {
        return e, {};
      }
      e, r4 := RunPhase(Records, ids, outlook);
      ghost var s4 := artifacts;
      if !e.Finished? {
        return e, {};
      }
      e, r5 := RunPhase(Payloads, ids, outlook);
      recovered := if e.Crashed? then {} else r1 + r2 + r3 + r4 + r5;
      if old(script) == [] {
        forall id ensures
          && At(artifacts, id) == SweptTo(At(old(artifacts), id), outlook(id)).artifact
          && (id in recovered <==> SweptTo(At(old(artifacts), id), outlook(id)).recovered)
        {
          NothingStaysThroughout(outlook(id));
          PhasesCompose(id, outlook(id), At(old(artifacts), id), At(s1, id), At(s2, id), At(s3, id), At(s4, id));
        }
      }
    }
  }

  /** A record without what a committed artifact needs: expiry can only note it. */
  predicate Unloadable(a: Artifact) {
    a.record.Some? && !Loads(a, true)
  }

  lemma NothingExpires(now: int)
    ensures !Expired(Nothing(), now) && !Unloadable(Nothing())
  {
  }

  lemma UnloadableIsNotExpired(a: Artifact, now: int)
    ensures Unloadable(a) ==> !Expired(a, now)
  {
  }

  lemma ExpiryLeavesScript(a: Artifact, now: int)
    ensures ExpireRun(a, now, []).script == []
  {
    TripletFaultFree(a);
    hide DeleteTripletRun, Loads;
  }

  /** The checker answers whatever it is asked. */
  ghost predicate Answers(o: Outlook) {
    forall reservation :: o.checker(reservation) != Raises
  }

  ghost predicate AllSound(artifacts: map<Id, Artifact>) {
    forall id <- artifacts :: Sound(artifacts[id])
  }

  /** The phase has been carried out on the artifacts in `ids`, and on no others. */
  ghost predicate Carried(
    phase: Phase, ids: set<Id>, outlook: Id -> Outlook,
    before: map<Id, Artifact>, after: map<Id, Artifact>, recovered: set<Id>)
  {
    && (forall id :: At(after, id) ==
          if id in ids then PhaseRun(phase, At(before, id), outlook(id), []).run.artifact else At(before, id))
    && (forall id :: id in recovered <==>
          id in ids && PhaseRun(phase, At(before, id), outlook(id), []).recovered)
  }

  /** A faultless sweep as one artifact sees it. */
  function SweptTo(a: Artifact, o: Outlook): SweepState {
    SweepArtifact(a, o.listing, o.young, VerdictOn(a, o.checker))
  }

  lemma NothingCarried(phase: Phase, outlook: Id -> Outlook, artifacts: map<Id, Artifact>)
    ensures Carried(phase, {}, outlook, artifacts, artifacts, {})
  {
  }

  lemma OneMoreCarried(
    phase: Phase, done: set<Id>, id: Id, outlook: Id -> Outlook,
    start: map<Id, Artifact>, before: map<Id, Artifact>, recovered: set<Id>)
    requires Carried(phase, done, outlook, start, before, recovered) && id !in done
    ensures var one := PhaseRun(phase, At(before, id), outlook(id), []);
            Carried(phase, done + {id}, outlook, start, before[id := one.run.artifact],
                    if one.recovered then recovered + {id} else recovered)
  {
    hide PhaseRun;
  }

  lemma SoundnessCarried(phase: Phase, id: Id, artifacts: map<Id, Artifact>, o: Outlook, script: Script)
    ensures AllSound(artifacts) && Answers(o) ==>
              AllSound(artifacts[id := PhaseRun(phase, At(artifacts, id), o, script).run.artifact])
  {
    if AllSound(artifacts) && Answers(o) {
      PhaseKeepsSound(phase, At(artifacts, id), o, script);
    }
    hide PhaseRun;
  }

  lemma NothingStays(phase: Phase, o: Outlook)
    ensures PhaseRun(phase, Nothing(), o, []) == Swept(Run(Nothing(), Finished, []), false)
  {
    FaultFreeJournals(Nothing(), o.listing.journals);
    assert JournalsFinished(Nothing(), o.listing.journals) == Nothing();
    NoPartsNoPhase(o.listing.parts, o.young);
    hide JournalPhase, PartPhase;
  }

  lemma NothingStaysThroughout(o: Outlook)
    ensures forall phase :: PhaseRun(phase, Nothing(), o, []) == Swept(Run(Nothing(), Finished, []), false)
  {
    forall phase ensures PhaseRun(phase, Nothing(), o, []) == Swept(Run(Nothing(), Finished, []), false) {
      NothingStays(phase, o);
    }
  }

  lemma {:induction false} NoPartsNoPhase(order: seq<PartKind>, young: set<Target>)
    ensures PartPhase(Nothing(), order, young, []) == Swept(Run(Nothing(), Finished, []), false)
    decreases |order|
  {
    if order != [] {
      NoPartsNoPhase(order[1..], young);
    }
  }

  lemma {:induction false} JournalsFaultFree(a: Artifact, order: seq<Target>)
    ensures JournalPhase(a, order, []).run.ending == Finished && JournalPhase(a, order, []).run.script == []
  {
    FaultFreeJournals(a, order);
  }

  lemma {:induction false} PartsFaultFree(a: Artifact, order: seq<PartKind>, young: set<Target>)
    ensures PartPhase(a, order, young, []).run.ending == Finished && PartPhase(a, order, young, []).run.script == []
    decreases |order|
  {
    if order != [] {
      FaultFreeUnlink(a, Part(order[0]));
      PartsFaultFree(a, order[1..], young);
      PartsFaultFree(JournalledUnlinkRun(a, Part(order[0]), []).artifact, order[1..], young);
    }
  }

  lemma TripletFaultFree(a: Artifact)
    ensures DeleteTripletRun(a, []).ending == Finished && DeleteTripletRun(a, []).script == []
  {
    FaultFreeUnlink(a, Marker);
    var m := JournalledUnlinkRun(a, Marker, []);
    FaultFreeUnlink(m.artifact, Payload);
    FaultFreeUnlink(JournalledUnlinkRun(m.artifact, Payload, []).artifact, Record);
    hide JournalledUnlinkRun;
  }

  lemma PhaseIsFaultFree(phase: Phase, a: Artifact, o: Outlook)
    ensures PhaseRun(phase, a, o, []).run.ending == Finished && PhaseRun(phase, a, o, []).run.script == []
  {
    JournalsFaultFree(a, o.listing.journals);
    PartsFaultFree(a, o.listing.parts, o.young);
    TripletFaultFree(a);
    FaultFreeUnlink(a, Record);
    FaultFreeUnlink(a, Payload);
    hide JournalPhase, PartPhase, JournalledUnlinkRun, DeleteTripletRun;
  }

  lemma PhaseKeepsSound(phase: Phase, a: Artifact, o: Outlook, script: Script)
    requires Sound(a) && Answers(o)
    ensures Sound(PhaseRun(phase, a, o, script).run.artifact)
  {
    JournalPhaseKeepsSound(a, o.listing.journals, script);
    PartPhaseKeepsSound(a, o.listing.parts, o.young, script);
    JudgingPhasesKeepSound(a, o.young, VerdictOn(a, o.checker), script);
    hide JournalPhase, PartPhase, MarkerPhase, RecordPhase, PayloadPhase, Sound;
  }

  /** Until the checker is asked, the record is what it was or gone. */
  predicate RecordKept(a: Artifact, b: Artifact) {
    b.record == a.record || b.record.None?
  }

  lemma {:induction false} PartsKeepRecord(a: Artifact, order: seq<PartKind>, young: set<Target>)
    ensures PartPhase(a, order, young, []).run.artifact.record == a.record
    decreases |order|
  {
    if order != [] {
      FaultFreeUnlink(a, Part(order[0]));
      PartsKeepRecord(a, order[1..], young);
      PartsKeepRecord(JournalledUnlinkRun(a, Part(order[0]), []).artifact, order[1..], young);
    }
  }

  lemma TripletKeepsOrDropsRecord(a: Artifact)
    ensures RecordKept(a, DeleteTripletRun(a, []).artifact)
  {
    FaultFreeUnlink(a, Marker);
    var m := JournalledUnlinkRun(a, Marker, []);
    FaultFreeUnlink(m.artifact, Payload);
    FaultFreeUnlink(JournalledUnlinkRun(m.artifact, Payload, []).artifact, Record);
    hide JournalledUnlinkRun;
  }

  lemma PhasesCompose(id: Id, o: Outlook, a: Artifact, a1: Artifact, a2: Artifact, a3: Artifact, a4: Artifact)
    requires a1 == PhaseRun(Journals, a, o, []).run.artifact && a2 == PhaseRun(Parts, a1, o, []).run.artifact
    requires a3 == PhaseRun(Markers, a2, o, []).run.artifact && a4 == PhaseRun(Records, a3, o, []).run.artifact
    ensures var p5 := PhaseRun(Payloads, a4, o, []);
            SweptTo(a, o) == SweepState(
              p5.run.artifact,
              PhaseRun(Journals, a, o, []).recovered || PhaseRun(Parts, a1, o, []).recovered
              || PhaseRun(Markers, a2, o, []).recovered || PhaseRun(Records, a3, o, []).recovered
              || p5.recovered)
  {
    FaultFreeJournals(a, o.listing.journals);
    PartsKeepRecord(a1, o.listing.parts, o.young);
    TripletKeepsOrDropsRecord(a2);
    assert RecordKept(a, a3);
    hide JournalPhase, PartPhase, DeleteTripletRun, PayloadPhase;
  }
}

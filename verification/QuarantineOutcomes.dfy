/** What the operations of the quarantine store come to when they end: expiry, deletion,
    publication, and the files a sweep is told to spare. */
module QuarantineOutcomes {
  import opened Basics
  import opened Quarantine
  import opened QuarantineProperties
  import opened QuarantineRecovery

  /** Committed, and its time is over. */
  predicate Expired(a: Artifact, now: int) {
    Committed(a) && a.record.value.expiresAt <= now
  }

  /** Marker, payload and record are gone with their journal entries, and nothing else is. */
  function Removed(a: Artifact): Artifact {
    a.(marker := None, payload := None, record := None, journal := a.journal - {Marker, Payload, Record})
  }

  /** A triplet deletion that ends well has removed all three files, and no fault makes it touch another. */
  lemma DeletionCompletes(a: Artifact, script: Script)
    requires Committed(a)
    ensures var r := DeleteTripletRun(a, script);
            && r.artifact.parts == a.parts
            && (r.artifact.marker.Some? ==> r.artifact.payload.Some?)
            && (r.artifact.payload.Some? ==> r.artifact.record.Some?)
            && r.artifact.journal - {Marker, Payload, Record} == a.journal - {Marker, Payload, Record}
            && (r.ending.Finished? ==> r.artifact == Removed(a))
            && (script == [] ==> r.ending.Finished?)
  {
    var gone, state := JournalledUnlinkOutcome(a, Marker, script);
    var m := JournalledUnlinkRun(a, Marker, script);
    if m.ending.Finished? {
      var gone1, state1 := JournalledUnlinkOutcome(m.artifact, Payload, m.script);
      var p := JournalledUnlinkRun(m.artifact, Payload, m.script);
      if p.ending.Finished? {
        var gone2, state2 := JournalledUnlinkOutcome(p.artifact, Record, p.script);
        assert a.journal - {Marker} - {Payload} - {Record} == a.journal - {Marker, Payload, Record};
      }
    }
    if script == [] {
      FaultFreeUnlink(a, Marker);
      FaultFreeUnlink(m.artifact, Payload);
      FaultFreeUnlink(JournalledUnlinkRun(m.artifact, Payload, []).artifact, Record);
    }
    hide JournalledUnlinkRun, Loads;
  }

  /** Main result: for every placement of failures, expiry touches an artifact only if it is committed
      and expired, and one it finishes has lost marker, payload and record, and nothing else. */
  lemma ExpiresExactly(a: Artifact, now: int, script: Script)
    ensures var r := ExpireRun(a, now, script);
            && (!Expired(a, now) ==> r == Run(a, Finished, script))
            && (Expired(a, now) && r.ending.Finished? ==> r.artifact == Removed(a))
            && (Expired(a, now) && script == [] ==> r.ending.Finished?)
            && (Expired(a, now) ==> (Committed(r.artifact) <==> !MarkerUnlinkLands(a, script)))
  {
    if Committed(a) {
      DeletionCompletes(a, script);
      DeleteVisibleExactly(a, script);
    }
    hide DeleteTripletRun, MarkerUnlinkLands;
  }

  /** A plain deletion that ends well has removed all three files. */
  lemma PlainDeletionCompletes(a: Artifact, script: Script)
    ensures var r := DeleteObjectRun(a, script);
            && (r.ending.Finished? ==> r.artifact == a.(marker := None, payload := None, record := None))
            && (script == [] ==> r.ending.Finished?)
            && (Committed(a) ==>
                  && (r.artifact.marker.Some? ==> r.artifact.payload.Some?)
                  && (r.artifact.payload.Some? ==> r.artifact.record.Some?))
  {
  }

  /** `n` steps succeed, and then the process dies. */
  function DiesAfter(n: nat): Script {
    seq(n, _ => Succeeds) + [Dies]
  }

  lemma DiesLater(n: nat)
    ensures FirstFate(DiesAfter(n)) == if n == 0 then Dies else Succeeds
    ensures n > 0 ==> LaterFates(DiesAfter(n)) == DiesAfter(n - 1)
  {
    if n > 0 {
      assert DiesAfter(n)[1..] == seq(n - 1, _ => Succeeds) + [Dies];
    }
  }

  /** What a crash after each step of finishing an intent leaves. */
  lemma FinishCrashStates(a: Artifact, t: Target, n: nat)
    requires Present(a, t) && t in a.journal
    ensures FinishJournalRun(a, t, DiesAfter(n))
            == match n
               case 0 => Run(a, Crashed, [])
               case 1 => Run(Without(a, t), Crashed, [])
               case 2 => Run(Without(a, t).(journal := a.journal[t := Deleted]), Crashed, [])
               case _ => Run(Without(a, t).(journal := a.journal - {t}), Finished, DiesAfter(n - 3))
  {
    DiesLater(n);
    if n >= 1 { DiesLater(n - 1); }
    if n >= 2 { DiesLater(n - 2); }
    assert DiesAfter(0) == [Dies];
    assert a.journal[t := Deleted] - {t} == a.journal - {t};
    hide DiesAfter;
  }

  /** What a crash after each step of a journalled unlink leaves: the intent is there before the file
      goes, and it is turned into a note before it goes itself. */
  lemma UnlinkCrashStates(a: Artifact, t: Target, n: nat)
    requires Present(a, t) && t !in a.journal
    ensures JournalledUnlinkRun(a, t, DiesAfter(n)).artifact
            == match n
               case 0 => a
               case 1 => a.(journal := a.journal[t := Intent])
               case 2 => Without(a, t).(journal := a.journal[t := Intent])
               case 3 => Without(a, t).(journal := a.journal[t := Deleted])
               case _ => Without(a, t)
    ensures JournalledUnlinkRun(a, t, DiesAfter(n)).ending == if n < 4 then Crashed else Finished
  {
    DiesLater(n);
    if n >= 1 {
      FinishCrashStates(a.(journal := a.journal[t := Intent]), t, n - 1);
    }
    hide FinishJournalRun, DiesAfter;
    assert a.journal[t := Intent][t := Deleted] == a.journal[t := Deleted];
    assert a.journal[t := Intent] - {t} == a.journal;
  }

  /** A journal entry whose removal fails is there afterwards: it was not removed, or it is written again. */
  lemma FailedCleanupKeepsItsEntry(a: Artifact, t: Target, fate: Fate)
    requires t in a.journal && (fate.RaisesBefore? || fate.RaisesAfter?)
    ensures CleanupJournalRun(a, t, [fate])
            == Run(if fate.RaisesAfter? then a.(journal := a.journal[t := Deleted]) else a, Failed, [])
  {
    assert (a.journal - {t})[t := Deleted] == a.journal[t := Deleted];
  }

  // ---------------------------------------------------------------------
  // Rollback and discard

  function WithoutAll(a: Artifact, targets: seq<Target>): Artifact
    decreases |targets|
  {
    if targets == [] then a else WithoutAll(Without(a, targets[0]), targets[1..])
  }

  lemma {:induction false} FaultFreeRollback(a: Artifact, targets: seq<Target>)
    ensures RollbackRun(a, targets, []) == Run(WithoutAll(a, targets), Finished, [])
    decreases |targets|
  {
    if targets != [] {
      assert !Present(a, targets[0]) ==> Without(a, targets[0]) == a;
      FaultFreeRollback(Without(a, targets[0]), targets[1..]);
      hide Present, Without;
    }
  }

  /** Where no unlink raises or dies a discard removes exactly the three files. */
  lemma DiscardCompletes(a: Artifact)
    ensures DiscardRun(a, []) == Run(a.(marker := None, payload := None, record := None), Finished, [])
  {
    var order := [Marker, Record, Payload];
    FaultFreeRollback(a, order);
    assert order[1..] == [Record, Payload] && [Record, Payload][1..] == [Payload] && [Payload][1..] == [];
    hide RollbackRun;
  }

  function PublicationParts(): set<PartKind> {
    {PayloadPart, RecordPart, CommitPart}
  }

  lemma RollbackClears(a: Artifact)
    ensures RollbackRun(a, RollbackOrder(), [])
            == Run(Artifact(None, None, None, a.parts - PublicationParts(), a.journal), Finished, [])
  {
    var o := RollbackOrder();
    FaultFreeRollback(a, o);
    assert o[1..] == [Marker, Part(RecordPart), Record, Part(PayloadPart), Payload];
    assert o[1..][1..] == [Part(RecordPart), Record, Part(PayloadPart), Payload];
    assert o[1..][1..][1..] == [Record, Part(PayloadPart), Payload];
    assert o[1..][1..][1..][1..] == [Part(PayloadPart), Payload] && [Part(PayloadPart), Payload][1..] == [Payload];
    assert [Payload][1..] == [];
    assert a.parts - {CommitPart} - {RecordPart} - {PayloadPart} == a.parts - PublicationParts();
    hide RollbackRun;
  }

  // ---------------------------------------------------------------------
  // Publication

  /** Exactly one step fails, without killing the process: the `n`-th. */
  predicate FailsOnceAt(script: Script, n: nat) {
    && |script| == n + 1 && (forall k :: 0 <= k < n ==> script[k].Succeeds?)
    && (script[n].RaisesBefore? || script[n].RaisesAfter?)
  }

  predicate InTheWay(a: Artifact) {
    RecordPart in a.parts || CommitPart in a.parts
  }

  /** Wherever a publication over nothing stops, there is no marker without a record and no record
      without a payload. */
  lemma PublicationGoesInOrder(a: Artifact, bytes: Bytes, record: RecordFile, script: Script)
    requires record.RecordFile? && !AnyFormal(a)
    ensures var r := PlanRun(a, PublishPlan(bytes, record), script);
            && (r.artifact.marker.Some? ==> r.artifact.record.Some?)
            && (r.artifact.record.Some? ==> r.artifact.payload.Some?)
            && (r.artifact.payload.Some? ==> r.artifact.payload == Some(bytes))
            && (r.artifact.record.Some? ==> r.artifact.record == Some(record))
  {
    var k := PublishPlanOutcome(a, bytes, record, script);
    hide PlanRun, PublishPlan;
  }

  /** A publication that ends well over nothing has put exactly the payload, the record and its marker
      there, and without failures it does end well, unless a leftover part is in the way. */
  lemma PublicationCompletes(a: Artifact, bytes: Bytes, record: RecordFile, script: Script)
    requires record.RecordFile? && !AnyFormal(a)
    ensures var r := PublishRun(a, bytes, record, script);
            && (r.ending.Finished? ==>
                  r.artifact == Artifact(Some(bytes), Some(record), Some(MarkerFile(record.receiptHash)),
                                         a.parts - {PayloadPart}, a.journal))
            && (script == [] ==> (r.ending.Finished? <==> !InTheWay(a)))
  {
    var k := PublishPlanOutcome(a, bytes, record, script);
    assert Published(a, bytes, record, 5).parts == a.parts - {PayloadPart} - {RecordPart} - {CommitPart};
    assert !InTheWay(a) ==> a.parts - {PayloadPart} - {RecordPart} - {CommitPart} == a.parts - {PayloadPart};
    hide PlanRun, RollbackRun, Published, PublishPlan;
  }

  lemma PlanFailsOnce(a: Artifact, bytes: Bytes, record: RecordFile, script: Script, n: nat)
    requires record.RecordFile? && !InTheWay(a) && n < 5 && FailsOnceAt(script, n)
    ensures var r := PlanRun(a, PublishPlan(bytes, record), script); r.ending.Failed? && r.script == []
  {
    var s1, s2 := LaterFates(script), LaterFates(LaterFates(script));
    var s3, s4 := LaterFates(s2), LaterFates(LaterFates(s2));
    PublishPlanSplits(a, bytes, record, script, s1, s2, s3, s4);
    PublishStepsChain(a, bytes, record);
    hide PlanRun, PublishPlan, Published, Apply;
  }

  /** A publication one of whose steps fails leaves no file of its own. */
  lemma FailedPublicationLeavesNothing(a: Artifact, bytes: Bytes, record: RecordFile, script: Script, n: nat)
    requires record.RecordFile? && !AnyFormal(a) && !InTheWay(a) && n < 5 && FailsOnceAt(script, n)
    ensures var r := PublishRun(a, bytes, record, script);
            r.ending.Failed? && r.artifact == a.(parts := a.parts - {PayloadPart})
  {
    PlanFailsOnce(a, bytes, record, script, n);
    var k := PublishPlanOutcome(a, bytes, record, script);
    var r := PlanRun(a, PublishPlan(bytes, record), script);
    RollbackClears(r.artifact);
    assert r.artifact.parts - PublicationParts() == a.parts - {PayloadPart};
    hide PlanRun, RollbackRun, PublishPlan;
  }

  /** Publishing again what is there is accepted, with any faults but a crash. */
  lemma RepublicationAccepted(a: Artifact, bytes: Bytes, record: RecordFile, script: Script)
    requires record.RecordFile? && Committed(a)
    ensures var r := PublishRun(a, bytes, record, script);
            !r.ending.Crashed? ==> (r.ending.Finished? <==> SameBinding(a.record.value, record))
  {
    RepublishChangesNothing(a, bytes, record, script);
    hide RollbackRun;
  }

  // ---------------------------------------------------------------------
  // Files newer than the cutoff

  predicate AllYoung(a: Artifact, young: set<Target>) {
    && (a.marker.Some? ==> Marker in young) && (a.record.Some? ==> Record in young)
    && (a.payload.Some? ==> Payload in young) && (forall kind <- a.parts :: Part(kind) in young)
  }

  lemma {:induction false} YoungPartsStay(a: Artifact, order: seq<PartKind>, young: set<Target>, script: Script)
    requires AllYoung(a, young)
    ensures PartPhase(a, order, young, script) == Swept(Run(a, Finished, script), false)
    decreases |order|
  {
    if order != [] {
      YoungPartsStay(a, order[1..], young, script);
    }
  }

  lemma {:induction false} NoJournalNoPhase(a: Artifact, order: seq<Target>, script: Script)
    requires a.journal == map[]
    ensures JournalPhase(a, order, script) == Swept(Run(a, Finished, script), false)
    decreases |order|
  {
    if order != [] {
      NoJournalNoPhase(a, order[1..], script);
    }
  }

  /** A sweep spares what is newer than its cutoff: whatever the checker says, it takes no step at all. */
  lemma YoungFilesAreSpared(
    a: Artifact, listing: Listing, young: set<Target>, verdict: Verdict, script: Script, phases: nat)
    requires AllYoung(a, young) && a.journal == map[]
    ensures SweepRun(a, listing, young, verdict, script, phases) == Run(a, Finished, script)
    ensures SweepArtifact(a, listing, young, verdict) == SweepState(a, false)
  {
    NoJournalNoPhase(a, listing.journals, script);
    NoJournalNoPhase(a, listing.journals, []);
    YoungPartsStay(a, listing.parts, young, script);
    YoungPartsStay(a, listing.parts, young, []);
    hide JournalPhase, PartPhase;
  }
}

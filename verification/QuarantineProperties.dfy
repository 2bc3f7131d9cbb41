/** Atomic visibility, convergence of the sweep, and where either fails. */
module QuarantineProperties {
  import opened Basics
  import opened Quarantine

  /** The artifact is visible: marker, record and payload are there and belong together. */
  predicate Committed(a: Artifact) {
    a.marker.Some? && Loads(a, true)
  }

  predicate Intends(a: Artifact, t: Target) {
    t in a.journal && a.journal[t] == Intent
  }

  /** No marker without its record and payload, not even a future one: what a leftover
      journal will delete has no marker. */
  predicate Sound(a: Artifact) {
    && (a.marker.Some? ==> Loads(a, true))
    && (Intends(a, Record) || Intends(a, Payload) ==> a.marker.None?)
  }

  predicate NoIntents(a: Artifact) {
    !Intends(a, Marker) && !Intends(a, Record) && !Intends(a, Payload)
  }

  // ---------------------------------------------------------------------
  // Deletion keeps soundness, whatever fails

  /** A journal with one entry changed or removed. */
  function Noted(journal: map<Target, JournalState>, t: Target, state: Option<JournalState>): map<Target, JournalState> {
    match state
    case None => journal - {t}
    case Some(s) => journal[t := s]
  }

  /** An artifact of which one file may be gone and one journal entry may have changed. */
  function Reduced(a: Artifact, t: Target, gone: bool, state: Option<JournalState>): Artifact {
    (if gone then Without(a, t) else a).(journal := Noted(a.journal, t, state))
  }

  lemma CleanupOutcome(a: Artifact, t: Target, script: Script) returns (state: Option<JournalState>)
    requires t in a.journal && a.journal[t] == Deleted
    ensures var r := CleanupJournalRun(a, t, script);
            && r.artifact == Reduced(a, t, false, state)
            && state != Some(Intent)
            && (r.ending.Finished? ==> state == None)
  {
    var r := CleanupJournalRun(a, t, script);
    state := if t in r.artifact.journal then Some(Deleted) else None;
    assert a.journal[t := Deleted] == a.journal;
    assert (a.journal - {t})[t := Deleted] == a.journal;
  }

  lemma FinishOutcome(a: Artifact, t: Target, script: Script) returns (gone: bool, state: Option<JournalState>)
    requires t in a.journal
    ensures var r := FinishJournalRun(a, t, script);
            && r.artifact == Reduced(a, t, gone, state)
            && (r.ending.Finished? ==> gone && state == None)
            && (state != Some(a.journal[t]) ==> gone)
  {
    var r := FinishJournalRun(a, t, script);
    var s1 := if Present(a, t) then StepRun(a, Unlink(t), script) else Run(a, Finished, script);
    gone := !Present(s1.artifact, t);
    assert a.journal[t := a.journal[t]] == a.journal;
    if !s1.ending.Finished? {
      state := Some(a.journal[t]);
    } else {
      assert s1.artifact == Without(a, t);
      var s2 := StepRun(s1.artifact, WriteJournal(t, Deleted), s1.script);
      if !s2.ending.Finished? {
        state := Some(s2.artifact.journal[t]);
      } else {
        state := CleanupOutcome(s2.artifact, t, s2.script);
        assert Noted(a.journal[t := Deleted], t, state) == Noted(a.journal, t, state);
      }
    }
  }

  /** A journalled unlink touches one file and that file's journal entry; once finished it
      leaves neither, and while the file is there its entry is an intent or what it was. */
  lemma JournalledUnlinkOutcome(a: Artifact, t: Target, script: Script)
    returns (gone: bool, state: Option<JournalState>)
    ensures var r := JournalledUnlinkRun(a, t, script);
            && (if Present(a, t) then r.artifact == Reduced(a, t, gone, state) else r.artifact == a && gone)
            && (r.ending.Finished? ==> gone && (Present(a, t) ==> state == None))
            && (!gone ==> state == (if t in a.journal then Some(a.journal[t]) else None) || state == Some(Intent))
  {
    if !Present(a, t) {
      gone, state := true, None;
    } else if t in a.journal {
      gone, state := FinishOutcome(a, t, script);
    } else {
      var meant := StepRun(a, WriteJournal(t, Intent), script);
      if meant.ending.Finished? {
        gone, state := FinishOutcome(meant.artifact, t, meant.script);
        assert Noted(a.journal[t := Intent], t, state) == Noted(a.journal, t, state);
      } else {
        gone, state := false, if t in meant.artifact.journal then Some(Intent) else None;
        assert a.journal - {t} == a.journal;
      }
    }
  }

  lemma UnlinkKeepsSound(a: Artifact, t: Target, script: Script)
    requires Sound(a)
    requires t == Record || t == Payload ==> a.marker.None?
    ensures Sound(JournalledUnlinkRun(a, t, script).artifact)
    ensures a.marker.None? ==> JournalledUnlinkRun(a, t, script).artifact.marker.None?
    ensures t == Marker && JournalledUnlinkRun(a, t, script).ending.Finished? ==>
              JournalledUnlinkRun(a, t, script).artifact.marker.None?
  {
    var gone, state := JournalledUnlinkOutcome(a, t, script);
    hide JournalledUnlinkRun;
  }

  /** Whatever fails in it, a triplet deletion never leaves a marker on its own. */
  lemma DeleteTripletKeepsSound(a: Artifact, script: Script)
    requires Sound(a)
    ensures Sound(DeleteTripletRun(a, script).artifact)
  {
    UnlinkKeepsSound(a, Marker, script);
    var m := JournalledUnlinkRun(a, Marker, script);
    if m.ending.Finished? {
      UnlinkKeepsSound(m.artifact, Payload, m.script);
      var p := JournalledUnlinkRun(m.artifact, Payload, m.script);
      if p.ending.Finished? {
        UnlinkKeepsSound(p.artifact, Record, p.script);
      }
    }
    hide JournalledUnlinkRun;
  }

  lemma DeleteObjectKeepsSound(a: Artifact, script: Script)
    requires Sound(a)
    ensures Sound(DeleteObjectRun(a, script).artifact)
  {
  }

  // ---------------------------------------------------------------------
  // The two operations that go on after a failed unlink

  function NthFate(script: Script, n: nat): Fate {
    if n < |script| then script[n] else Succeeds
  }

  /** With the first unlink failing without effect, a later one goes through. */
  predicate LaterUnlinkLands(script: Script, n: nat) {
    && NthFate(script, n).RaisesBefore?
    && ( || TakesEffect(NthFate(script, n + 1))
         || (NthFate(script, n + 1).RaisesBefore? && TakesEffect(NthFate(script, n + 2))))
  }

  predicate FirstFourSucceed(script: Script) {
    && NthFate(script, 0).Succeeds? && NthFate(script, 1).Succeeds?
    && NthFate(script, 2).Succeeds? && NthFate(script, 3).Succeeds?
  }

  /** The publication fails exactly after its marker appeared, and the rollback cannot take
      the marker away but does take a file it vouches for. */
  predicate RollbackOrphansMarker(a: Artifact, script: Script) {
    && !AnyFormal(a) && RecordPart !in a.parts && CommitPart !in a.parts
    && FirstFourSucceed(script)
    && NthFate(script, 4).RaisesAfter?
    && LaterUnlinkLands(script, 5)
  }

  /** A deletion that was left half done will take the record or the payload. */
  predicate WillLoseFiles(a: Artifact) {
    Intends(a, Record) || Intends(a, Payload)
  }

  /** All five steps of a publication take effect although a leftover intent names what they
      publish, and the marker is not taken back. */
  predicate PublishesOverIntent(a: Artifact, script: Script) {
    && !AnyFormal(a) && WillLoseFiles(a) && RecordPart !in a.parts && CommitPart !in a.parts
    && FirstFourSucceed(script) && TakesEffect(NthFate(script, 4))
    && !(NthFate(script, 4).RaisesAfter? && TakesEffect(NthFate(script, 5)))
  }

  function Published(a: Artifact, bytes: Bytes, record: RecordFile, steps: nat): Artifact
    requires record.RecordFile?
  {
    Artifact(if steps >= 1 then Some(bytes) else a.payload,
             if steps >= 3 then Some(record) else a.record,
             if steps >= 5 then Some(MarkerFile(record.receiptHash)) else a.marker,
             (a.parts - (if steps >= 1 then {PayloadPart} else {}))
             + (if steps == 2 then {RecordPart} else {})
             - (if steps >= 3 then {RecordPart} else {})
             + (if steps == 4 then {CommitPart} else {})
             - (if steps >= 5 then {CommitPart} else {}),
             a.journal)
  }

  predicate PlanSplitsAt(a: Artifact, step: Step, rest: seq<Step>, script: Script) {
    PlanRun(a, [step] + rest, script)
    == if step.CreatePart? && step.kind in a.parts then Run(a, Failed, script)
       else var r := StepRun(a, step, script);
            if r.ending.Finished? then PlanRun(r.artifact, rest, r.script) else r
  }

  lemma PlanSplits(a: Artifact, step: Step, rest: seq<Step>, script: Script)
    ensures PlanSplitsAt(a, step, rest, script)
  {
    assert ([step] + rest)[1..] == rest;
  }

  /** The plan of a publication, one step after the other. */
  lemma PublishPlanSplits(
    a: Artifact, bytes: Bytes, record: RecordFile,
    s0: Script, s1: Script, s2: Script, s3: Script, s4: Script)
    requires record.RecordFile?
    ensures var p := PublishPlan(bytes, record);
            && PlanSplitsAt(a, p[0], [p[1], p[2], p[3], p[4]], s0) && p == [p[0]] + [p[1], p[2], p[3], p[4]]
            && PlanSplitsAt(Published(a, bytes, record, 1), p[1], [p[2], p[3], p[4]], s1)
            && [p[1], p[2], p[3], p[4]] == [p[1]] + [p[2], p[3], p[4]]
            && PlanSplitsAt(Published(a, bytes, record, 2), p[2], [p[3], p[4]], s2)
            && [p[2], p[3], p[4]] == [p[2]] + [p[3], p[4]]
            && PlanSplitsAt(Published(a, bytes, record, 3), p[3], [p[4]], s3) && [p[3], p[4]] == [p[3]] + [p[4]]
            && PlanSplitsAt(Published(a, bytes, record, 4), p[4], [], s4) && [p[4]] == [p[4]] + []
  {
    var p := PublishPlan(bytes, record);
    PlanSplits(a, p[0], [p[1], p[2], p[3], p[4]], s0);
    PlanSplits(Published(a, bytes, record, 1), p[1], [p[2], p[3], p[4]], s1);
    PlanSplits(Published(a, bytes, record, 2), p[2], [p[3], p[4]], s2);
    PlanSplits(Published(a, bytes, record, 3), p[3], [p[4]], s3);
    PlanSplits(Published(a, bytes, record, 4), p[4], [], s4);
    hide PlanRun, Published;
  }

  /** A publication stops after some of its five steps; after the last one exactly when the
      earlier ones succeed and the last takes effect. */
  lemma PublishPlanOutcome(a: Artifact, bytes: Bytes, record: RecordFile, script: Script) returns (k: nat)
    requires record.RecordFile?
    ensures var r := PlanRun(a, PublishPlan(bytes, record), script);
            && k <= 5 && r.artifact == Published(a, bytes, record, k)
            && (k == 5 <==> && RecordPart !in a.parts && CommitPart !in a.parts
                            && FirstFourSucceed(script)
                            && TakesEffect(NthFate(script, 4)))
            && (r.ending.Finished? <==> k == 5 && NthFate(script, 4).Succeeds?)
            && (k == 5 ==> !r.ending.Crashed?)
            && (k == 5 ==> forall n: nat :: NthFate(r.script, n) == NthFate(script, n + 5))
  {
    var s1, s2 := LaterFates(script), LaterFates(LaterFates(script));
    var s3, s4 := LaterFates(s2), LaterFates(LaterFates(s2));
    PublishPlanSplits(a, bytes, record, script, s1, s2, s3, s4);
    PublishStepsChain(a, bytes, record);
    hide PlanRun, PublishPlan, Published, Apply;
    FifthFates(script);
    assert NthFate(script, 0) == FirstFate(script);
    assert NthFate(script, 1) == FirstFate(s1) && NthFate(script, 2) == FirstFate(s2);
    assert NthFate(script, 3) == FirstFate(s3) && NthFate(script, 4) == FirstFate(s4);
    k := if !TakesEffect(FirstFate(script)) then 0
         else if FirstFate(script).RaisesAfter? || RecordPart in a.parts || !TakesEffect(FirstFate(s1)) then 1
         else if FirstFate(s1).RaisesAfter? || !TakesEffect(FirstFate(s2)) then 2
         else if FirstFate(s2).RaisesAfter? || CommitPart in a.parts || !TakesEffect(FirstFate(s3)) then 3
         else if FirstFate(s3).RaisesAfter? || !TakesEffect(FirstFate(s4)) then 4
         else 5;
    hide NthFate;
  }

  lemma FifthFates(script: Script)
    ensures var s5 := LaterFates(LaterFates(LaterFates(LaterFates(LaterFates(script)))));
            forall n: nat :: NthFate(s5, n) == NthFate(script, n + 5)
  {
  }

  lemma PublishStepsChain(a: Artifact, bytes: Bytes, record: RecordFile)
    requires record.RecordFile?
    ensures var plan := PublishPlan(bytes, record);
            && Published(a, bytes, record, 0) == a
            && Apply(a, plan[0]) == Published(a, bytes, record, 1)
            && (RecordPart !in a.parts ==>
                  && Apply(Published(a, bytes, record, 1), plan[1]) == Published(a, bytes, record, 2)
                  && Apply(Published(a, bytes, record, 2), plan[2]) == Published(a, bytes, record, 3)
                  && (CommitPart !in a.parts ==>
                        && Apply(Published(a, bytes, record, 3), plan[3]) == Published(a, bytes, record, 4)
                        && Apply(Published(a, bytes, record, 4), plan[4]) == Published(a, bytes, record, 5)))
  {
  }

  lemma RollbackSplits(a: Artifact, t: Target, rest: seq<Target>, script: Script)
    ensures RollbackRun(a, [t] + rest, script)
            == if !Present(a, t) then RollbackRun(a, rest, script)
               else var r := StepRun(a, Unlink(t), script);
                    if r.ending.Crashed? then r else RollbackRun(r.artifact, rest, r.script)
  {
    assert ([t] + rest)[1..] == rest;
  }

  /** Every file is either what it was or gone. */
  predicate OnlyRemoved(a: Artifact, b: Artifact) {
    && (b.marker == a.marker || b.marker.None?)
    && (b.record == a.record || b.record.None?)
    && (b.payload == a.payload || b.payload.None?)
    && b.parts <= a.parts && b.journal == a.journal
  }

  lemma UnlinkOnlyRemoves(a: Artifact, target: Target, script: Script)
    ensures OnlyRemoved(a, StepRun(a, Unlink(target), script).artifact)
  {
  }

  lemma {:induction false} RollbackOnlyRemoves(a: Artifact, targets: seq<Target>, script: Script)
    ensures OnlyRemoved(a, RollbackRun(a, targets, script).artifact)
    ensures !RollbackRun(a, targets, script).ending.Failed?
    decreases |targets|
  {
    if targets != [] {
      hide Present, Apply;
      if Present(a, targets[0]) {
        var r := StepRun(a, Unlink(targets[0]), script);
        UnlinkOnlyRemoves(a, targets[0], script);
        RollbackOnlyRemoves(r.artifact, targets[1..], r.script);
      } else {
        RollbackOnlyRemoves(a, targets[1..], script);
      }
    }
  }

  /** The three unlinks of a discard, where nothing but the marker is known to be there. */
  lemma DiscardSplits(a: Artifact, script: Script)
    ensures var m := StepRun(a, Unlink(Marker), script);
            a.marker.Some? && a.record.Some? && a.payload.Some? ==>
              DiscardRun(a, script) ==
              if m.ending.Crashed? then m
              else
                var r := StepRun(m.artifact, Unlink(Record), m.script);
                if r.ending.Crashed? then r
                else
                  var p := StepRun(r.artifact, Unlink(Payload), r.script);
                  if p.ending.Crashed? then p else Run(p.artifact, Finished, p.script)
  {
    assert [Marker, Record, Payload] == [Marker] + [Record, Payload];
    assert [Record, Payload] == [Record] + [Payload] && [Payload] == [Payload] + [];
    RollbackSplits(a, Marker, [Record, Payload], script);
    var m := StepRun(a, Unlink(Marker), script);
    RollbackSplits(m.artifact, Record, [Payload], m.script);
    var r := StepRun(m.artifact, Unlink(Record), m.script);
    RollbackSplits(r.artifact, Payload, [], r.script);
    hide RollbackRun;
    var p := StepRun(r.artifact, Unlink(Payload), r.script);
    EmptyRollback(p.artifact, p.script);
  }

  lemma EmptyRollback(a: Artifact, script: Script)
    ensures RollbackRun(a, [], script) == Run(a, Finished, script)
  {
  }

  /** Discarding a committed artifact tears it apart exactly when the marker's unlink fails
      without effect and a later unlink lands. */
  lemma DiscardSoundExactly(a: Artifact, script: Script)
    requires Sound(a) && a.marker.Some?
    ensures Sound(DiscardRun(a, script).artifact) <==> !LaterUnlinkLands(script, 0)
  {
    DiscardSplits(a, script);
    var m := StepRun(a, Unlink(Marker), script);
    var r := StepRun(m.artifact, Unlink(Record), m.script);
    assert NthFate(script, 0) == FirstFate(script);
    assert NthFate(script, 1) == FirstFate(m.script) && NthFate(script, 2) == FirstFate(r.script);
    hide DiscardRun, NthFate, Loads;
    LoadsNeedsBoth(m.artifact);
    assert m.artifact.marker.None? ==> Sound(DiscardRun(a, script).artifact);
  }

  lemma LoadsNeedsBoth(a: Artifact)
    ensures !Loads(a.(record := None), true) && !Loads(a.(payload := None), true)
    ensures !Loads(a.(record := None, payload := None), true)
  {
  }

  lemma RollbackWithoutParts(a: Artifact, script: Script)
    requires CommitPart !in a.parts && RecordPart !in a.parts && PayloadPart !in a.parts
    ensures RollbackRun(a, RollbackOrder(), script) == DiscardRun(a, script)
  {
    var order := RollbackOrder();
    assert order == [Part(CommitPart)] + ([Marker] + ([Part(RecordPart)] + ([Record] + ([Part(PayloadPart)] + [Payload]))));
    assert [Marker, Record, Payload] == [Marker] + ([Record] + [Payload]);
    var m := StepRun(a, Unlink(Marker), script);
    RollbackSplits(a, Part(CommitPart), [Marker] + ([Part(RecordPart)] + ([Record] + ([Part(PayloadPart)] + [Payload]))), script);
    RollbackTail(a, script);
    RollbackTail(m.artifact, m.script);
    RollbackSplits(a, Marker, [Part(RecordPart)] + ([Record] + ([Part(PayloadPart)] + [Payload])), script);
    RollbackSplits(a, Marker, [Record] + [Payload], script);
    hide RollbackRun;
  }

  lemma RollbackTail(a: Artifact, script: Script)
    requires RecordPart !in a.parts && PayloadPart !in a.parts
    ensures RollbackRun(a, [Part(RecordPart)] + ([Record] + ([Part(PayloadPart)] + [Payload])), script)
            == RollbackRun(a, [Record] + [Payload], script)
  {
    var r := StepRun(a, Unlink(Record), script);
    RollbackSplits(a, Part(RecordPart), [Record] + ([Part(PayloadPart)] + [Payload]), script);
    RollbackSplits(a, Record, [Part(PayloadPart)] + [Payload], script);
    RollbackSplits(a, Record, [Payload], script);
    RollbackSplits(a, Part(PayloadPart), [Payload], script);
    RollbackSplits(r.artifact, Part(PayloadPart), [Payload], r.script);
    hide RollbackRun;
  }

  predicate Describes(record: RecordFile, bytes: Bytes) {
    record.RecordFile? && record.createdAt < record.expiresAt && record.size == |bytes| && record.digest == bytes
  }

  /** A publication keeps visibility atomic, except in exactly two families of cases. */
  lemma PublishSoundExactly(a: Artifact, bytes: Bytes, record: RecordFile, script: Script)
    requires Sound(a) && Describes(record, bytes)
    ensures Sound(PublishRun(a, bytes, record, script).artifact)
            <==> !RollbackOrphansMarker(a, script) && !PublishesOverIntent(a, script)
  {
    if AnyFormal(a) {
      RollbackOnlyRemovesParts(a, [Part(PayloadPart), Part(RecordPart), Part(CommitPart)], script);
    } else {
      var k := PublishPlanOutcome(a, bytes, record, script);
      var r := PlanRun(a, PublishPlan(bytes, record), script);
      var undone := RollbackRun(r.artifact, RollbackOrder(), r.script);
      assert PublishRun(a, bytes, record, script).artifact
             == if r.ending.Failed? then undone.artifact else r.artifact;
      if k == 5 {
        assert Committed(r.artifact) && (WillLoseFiles(r.artifact) <==> WillLoseFiles(a));
        RollbackWithoutParts(r.artifact, r.script);
        assert NthFate(r.script, 0) == NthFate(script, 5) && NthFate(r.script, 1) == NthFate(script, 6)
               && NthFate(r.script, 2) == NthFate(script, 7);
        PublishedSoundExactly(r.artifact, r.script);
        assert LaterUnlinkLands(r.script, 0) <==> LaterUnlinkLands(script, 5);
      } else {
        RollbackOnlyRemoves(r.artifact, RollbackOrder(), r.script);
        assert r.artifact.marker.None?;
      }
      hide PlanRun, RollbackRun, DiscardRun, NthFate, PublishPlan, Loads, RollbackOrder;
    }
  }

  /** Taking back what has just been published. */
  lemma PublishedSoundExactly(a: Artifact, script: Script)
    requires Committed(a)
    ensures Sound(DiscardRun(a, script).artifact)
            <==> if WillLoseFiles(a) then TakesEffect(NthFate(script, 0)) else !LaterUnlinkLands(script, 0)
  {
    hide NthFate, Loads, DiscardRun;
    if WillLoseFiles(a) {
      MarkerDiscardedExactly(a, script);
    } else {
      DiscardSoundExactly(a, script);
    }
  }

  lemma {:induction false} RollbackKeepsMarker(a: Artifact, targets: seq<Target>, script: Script)
    requires Marker !in targets
    ensures RollbackRun(a, targets, script).artifact.marker == a.marker
    decreases |targets|
  {
    if targets != [] {
      var r := StepRun(a, Unlink(targets[0]), script);
      assert r.artifact.marker == a.marker;
      RollbackKeepsMarker(r.artifact, targets[1..], r.script);
      RollbackKeepsMarker(a, targets[1..], script);
    }
  }

  /** The first unlink decides about the marker, and no unlink touches the journal. */
  lemma MarkerDiscardedExactly(a: Artifact, script: Script)
    requires Committed(a)
    ensures var b := DiscardRun(a, script).artifact;
            b.journal == a.journal && (b.marker.None? <==> TakesEffect(NthFate(script, 0)))
  {
    assert [Marker, Record, Payload] == [Marker] + [Record, Payload];
    RollbackSplits(a, Marker, [Record, Payload], script);
    var m := StepRun(a, Unlink(Marker), script);
    RollbackOnlyRemoves(a, [Marker, Record, Payload], script);
    hide RollbackRun, Loads;
    RollbackKeepsMarker(m.artifact, [Record, Payload], m.script);
  }

  lemma {:induction false} RollbackOnlyRemovesParts(a: Artifact, targets: seq<Target>, script: Script)
    requires forall t <- targets :: t.Part?
    ensures var b := RollbackRun(a, targets, script).artifact;
            b == a.(parts := b.parts) && b.parts <= a.parts
    decreases |targets|
  {
    if targets != [] {
      assert targets[0] in targets;
      if Present(a, targets[0]) {
        var r := StepRun(a, Unlink(targets[0]), script);
        RollbackOnlyRemovesParts(r.artifact, targets[1..], r.script);
      } else {
        RollbackOnlyRemovesParts(a, targets[1..], script);
      }
    }
  }

  /** With a conflict in the way nothing at all changes; an equal artifact only sheds parts. */
  lemma RepublishChangesNothing(a: Artifact, bytes: Bytes, record: RecordFile, script: Script)
    requires record.RecordFile? && AnyFormal(a)
    ensures var r := PublishRun(a, bytes, record, script);
            && r.artifact == a.(parts := r.artifact.parts)
            && (!(Committed(a) && SameBinding(a.record.value, record)) ==> r.ending.Failed? && r.artifact == a)
            && (r.ending.Finished? ==> Committed(a) && SameBinding(a.record.value, record))
  {
    RollbackOnlyRemovesParts(a, [Part(PayloadPart), Part(RecordPart), Part(CommitPart)], script);
    hide RollbackRun;
  }
}

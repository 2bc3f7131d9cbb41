/** The recovery sweep: where it converges to, what it leaves alone, and what it loses. */
module QuarantineRecovery {
  import opened Basics
  import opened Quarantine
  import opened QuarantineProperties

  // ---------------------------------------------------------------------
  // The phases without faults

  lemma FaultFreeCleanup(a: Artifact, t: Target)
    ensures CleanupJournalRun(a, t, []) == Run(a.(journal := a.journal - {t}), Finished, [])
  {
  }

  lemma FaultFreeFinish(a: Artifact, t: Target)
    ensures FinishJournalRun(a, t, []) == Run(Without(a, t).(journal := a.journal - {t}), Finished, [])
  {
    assert a.journal[t := Deleted] - {t} == a.journal - {t};
    assert !Present(a, t) ==> Without(a, t) == a;
    FaultFreeCleanup(Without(a, t).(journal := a.journal[t := Deleted]), t);
  }

  lemma FaultFreeUnlink(a: Artifact, t: Target)
    ensures JournalledUnlinkRun(a, t, [])
            == Run(if Present(a, t) then Without(a, t).(journal := a.journal - {t}) else a, Finished, [])
  {
    if Present(a, t) {
      if t in a.journal {
        FaultFreeFinish(a, t);
      } else {
        FaultFreeFinish(a.(journal := a.journal[t := Intent]), t);
        assert a.journal[t := Intent] - {t} == a.journal - {t};
      }
    }
  }

  function Emptied(a: Artifact): Artifact {
    a.(marker := None, payload := None, record := None)
  }

  lemma FaultFreeDeleteTriplet(a: Artifact)
    requires a.journal == map[]
    ensures DeleteTripletRun(a, []) == Run(Emptied(a), Finished, [])
  {
    FaultFreeUnlink(a, Marker);
    var m := JournalledUnlinkRun(a, Marker, []);
    FaultFreeUnlink(m.artifact, Payload);
    var p := JournalledUnlinkRun(m.artifact, Payload, []);
    FaultFreeUnlink(p.artifact, Record);
    assert a.journal - {Marker} == a.journal && a.journal - {Payload} == a.journal
           && a.journal - {Record} == a.journal;
    hide JournalledUnlinkRun;
  }

  /** What finishing the journal entries named in `order` comes to. */
  function JournalsFinished(a: Artifact, order: seq<Target>): Artifact {
    Artifact(
      if Payload in order && Intends(a, Payload) then None else a.payload,
      if Record in order && Intends(a, Record) then None else a.record,
      if Marker in order && Intends(a, Marker) then None else a.marker,
      (set kind | kind in a.parts && !(Part(kind) in order && Intends(a, Part(kind)))),
      a.journal - (set t | t in order))
  }

  lemma {:induction false} FaultFreeJournals(a: Artifact, order: seq<Target>)
    ensures JournalPhase(a, order, []).run == Run(JournalsFinished(a, order), Finished, [])
    ensures JournalPhase(a, order, []).recovered <==> exists t <- order :: t in a.journal
    decreases |order|
  {
    if order == [] {
      assert a.journal - (set t | t in order) == a.journal;
      assert (set kind | kind in a.parts && !(Part(kind) in order && Intends(a, Part(kind)))) == a.parts;
    } else {
      var t, rest := order[0], order[1..];
      assert order == [t] + rest;
      if t !in a.journal {
        FaultFreeJournals(a, rest);
        assert forall u :: u in order <==> u == t || u in rest;
        assert a.journal - (set u | u in order) == a.journal - (set u | u in rest);
        assert JournalsFinished(a, order).parts == JournalsFinished(a, rest).parts;
      } else {
        FaultFreeCleanup(a, t);
        FaultFreeFinish(a, t);
        var b := if a.journal[t] == Deleted then a.(journal := a.journal - {t})
                 else Without(a, t).(journal := a.journal - {t});
        FaultFreeJournals(b, rest);
        JournalsFinishedStep(a, t, rest);
        hide JournalsFinished, CleanupJournalRun, FinishJournalRun;
        assert t in order && t in a.journal;
      }
    }
  }

  lemma JournalsFinishedStep(a: Artifact, t: Target, rest: seq<Target>)
    requires t in a.journal
    ensures var b := if a.journal[t] == Deleted then a.(journal := a.journal - {t})
                     else Without(a, t).(journal := a.journal - {t});
            JournalsFinished(b, rest) == JournalsFinished(a, [t] + rest)
  {
    var order := [t] + rest;
    var b := if a.journal[t] == Deleted then a.(journal := a.journal - {t})
             else Without(a, t).(journal := a.journal - {t});
    assert forall u :: u in order <==> u == t || u in rest;
    assert b.journal - (set u | u in rest) == a.journal - (set u | u in order);
    forall u: Target ensures Intends(b, u) <==> u != t && Intends(a, u) {
    }
    assert JournalsFinished(b, rest).parts == JournalsFinished(a, order).parts;
  }

  lemma {:induction false} FaultFreeParts(a: Artifact, order: seq<PartKind>)
    requires a.journal == map[]
    ensures var s := PartPhase(a, order, {}, []);
            && s.run == Run(a.(parts := set kind | kind in a.parts && kind !in order), Finished, [])
            && (s.recovered <==> exists kind <- order :: kind in a.parts)
    decreases |order|
  {
    if order == [] {
      assert (set kind | kind in a.parts && kind !in order) == a.parts;
    } else {
      var kind, rest := order[0], order[1..];
      assert order == [kind] + rest;
      if kind !in a.parts {
        FaultFreeParts(a, rest);
        assert (set k | k in a.parts && k !in order) == (set k | k in a.parts && k !in rest);
      } else {
        FaultFreeUnlink(a, Part(kind));
        assert a.journal - {Part(kind)} == map[];
        var b := a.(parts := a.parts - {kind});
        FaultFreeParts(b, rest);
        assert (set k | k in a.parts && k !in order) == (set k | k in b.parts && k !in rest);
        assert kind in order;
      }
    }
  }

  /** Nothing left to do, given what the checker says. */
  predicate Settled(a: Artifact, verdict: Verdict) {
    && a.journal == map[] && a.parts == {}
    && (a.marker.Some? ==> Loads(a, true))
    && (a.record.Some? ==> Loads(a, false) && (verdict == Active || verdict == Unknown))
    && (a.payload.Some? ==> a.record.Some?)
  }

  /** What is left of an artifact when journal and parts are done with. */
  function Judged(a: Artifact, verdict: Verdict): Artifact {
    var b := if a.marker.Some? && !Loads(a, true) then Emptied(a) else a;
    var c := if b.record.None? then b
             else if !Loads(b, false) || verdict == Raises then b.(record := None)
             else if verdict == Inactive then Emptied(b) else b;
    if c.record.None? && c.marker.None? then c.(payload := None) else c
  }

  lemma FaultFreeJudgement(a: Artifact, verdict: Verdict)
    requires a.journal == map[]
    ensures var p3 := MarkerPhase(a, {}, []);
            var p4 := RecordPhase(p3.run.artifact, {}, verdict, []);
            var p5 := PayloadPhase(p4.run.artifact, {}, []);
            && p5.run.artifact == Judged(a, verdict)
            && (p3.recovered || p4.recovered || p5.recovered <==> Judged(a, verdict) != a)
  {
    FaultFreeDeleteTriplet(a);
    var p3 := MarkerPhase(a, {}, []).run.artifact;
    assert p3 == if a.marker.Some? && !Loads(a, true) then Emptied(a) else a;
    FaultFreeDeleteTriplet(p3);
    FaultFreeUnlink(p3, Record);
    var p4 := RecordPhase(p3, {}, verdict, []).run.artifact;
    assert p3.journal - {Record} == p3.journal;
    FaultFreeUnlink(p4, Payload);
    assert p4.journal - {Payload} == p4.journal;
    hide JournalledUnlinkRun, DeleteTripletRun;
  }

  /** A sweep in which nothing fails, in one formula; it reports exactly what it changed. */
  lemma FaultFreeSweep(a: Artifact, listing: Listing, verdict: Verdict)
    requires Complete(listing)
    ensures var s := SweepArtifact(a, listing, {}, verdict);
            && s.artifact == Judged(JournalsFinished(a, listing.journals).(parts := {}), verdict)
            && (s.recovered <==> s.artifact != a)
  {
    hide JournalPhase, PartPhase, MarkerPhase, RecordPhase, PayloadPhase, Judged, JournalsFinished;
    FaultFreeJournals(a, listing.journals);
    var a1 := JournalsFinished(a, listing.journals);
    EveryJournalListed(a, listing);
    FaultFreeParts(a1, listing.parts);
    var a2 := a1.(parts := {});
    assert (set kind | kind in a1.parts && kind !in listing.parts) == {} by {
      EveryPartListed(listing);
    }
    FaultFreeJudgement(a2, verdict);
    RecoveredExactly(a, listing);
    JudgedKeepsTheRest(a2, verdict);
  }

  lemma JudgedKeepsTheRest(a: Artifact, verdict: Verdict)
    ensures Judged(a, verdict).journal == a.journal && Judged(a, verdict).parts == a.parts
  {
    hide Loads;
  }

  /** Without a journal entry the first phase changes nothing; with one it does. */
  lemma RecoveredExactly(a: Artifact, listing: Listing)
    requires Complete(listing)
    ensures var a1 := JournalsFinished(a, listing.journals);
            && (a.journal == map[] ==> a1 == a)
            && ((exists t <- listing.journals :: t in a.journal) <==> a.journal != map[])
            && ((exists kind <- listing.parts :: kind in a1.parts) <==> a1.parts != {})
            && a1.journal == map[]
  {
    EveryJournalListed(a, listing);
    EveryPartListed(listing);
    if a.journal == map[] {
      assert JournalsFinished(a, listing.journals).parts == a.parts;
    } else {
      var t :| t in a.journal;
      assert t in listing.journals;
    }
    var a1 := JournalsFinished(a, listing.journals);
    if a1.parts != {} {
      var kind :| kind in a1.parts;
      assert kind in listing.parts;
    }
  }

  lemma EveryJournalListed(a: Artifact, listing: Listing)
    requires Complete(listing)
    ensures forall t <- a.journal :: t in listing.journals
    ensures JournalsFinished(a, listing.journals).journal == map[]
  {
    forall t | t in a.journal ensures t in listing.journals {
      match t {
        case Marker =>
        case Record =>
        case Payload =>
        case Part(kind) =>
          match kind {
            case PayloadPart =>
            case RecordPart =>
            case CommitPart =>
            case SpoolPart =>
          }
      }
    }
  }

  lemma EveryPartListed(listing: Listing)
    requires Complete(listing)
    ensures forall kind: PartKind :: kind in listing.parts
  {
    forall kind: PartKind ensures kind in listing.parts {
      match kind {
        case PayloadPart =>
        case RecordPart =>
        case CommitPart =>
        case SpoolPart =>
      }
    }
  }

  // ---------------------------------------------------------------------
  // Convergence

  /** Main result: from any state whatsoever, one sweep without faults settles an artifact
      whose files are all older than the cutoff, in whatever order it lists the files. */
  lemma SweepConverges(a: Artifact, listing: Listing, verdict: Verdict)
    requires Complete(listing) && verdict != Raises
    ensures Settled(SweepArtifact(a, listing, {}, verdict).artifact, verdict)
  {
    FaultFreeSweep(a, listing, verdict);
    EveryJournalListed(a, listing);
    hide SweepArtifact;
  }

  /** A second sweep finds nothing to do. */
  lemma SecondSweepRecoversNothing(a: Artifact, listing: Listing, again: Listing, verdict: Verdict)
    requires Complete(listing) && Complete(again) && verdict != Raises
    ensures var once := SweepArtifact(a, listing, {}, verdict).artifact;
            SweepArtifact(once, again, {}, verdict) == SweepState(once, false)
  {
    SweepConverges(a, listing, verdict);
    var once := SweepArtifact(a, listing, {}, verdict).artifact;
    FaultFreeSweep(once, again, verdict);
    assert once.journal - (set t | t in again.journals) == once.journal;
    assert JournalsFinished(once, again.journals).parts == {};
    hide SweepArtifact;
  }

  /** A committed artifact comes through a sweep untouched exactly when no leftover intent
      names one of its files and its reservation is not known to be over. */
  lemma CommittedUntouchedExactly(a: Artifact, listing: Listing, verdict: Verdict)
    requires Complete(listing) && Committed(a)
    ensures var b := SweepArtifact(a, listing, {}, verdict).artifact;
            b == a.(parts := {}, journal := map[])
            <==> NoIntents(a) && (verdict == Active || verdict == Unknown)
  {
    FaultFreeSweep(a, listing, verdict);
    EveryJournalListed(a, listing);
    hide SweepArtifact;
  }

  // ---------------------------------------------------------------------
  // Atomic visibility over runs

  lemma {:induction false} JournalPhaseKeepsSound(a: Artifact, order: seq<Target>, script: Script)
    requires Sound(a)
    ensures Sound(JournalPhase(a, order, script).run.artifact)
    decreases |order|
  {
    if order != [] {
      var t := order[0];
      if t !in a.journal {
        JournalPhaseKeepsSound(a, order[1..], script);
      } else {
        var r: Run;
        if a.journal[t] == Deleted {
          var state := CleanupOutcome(a, t, script);
          r := CleanupJournalRun(a, t, script);
        } else {
          var gone, state := FinishOutcome(a, t, script);
          r := FinishJournalRun(a, t, script);
        }
        hide CleanupJournalRun, FinishJournalRun;
        assert Sound(r.artifact);
        JournalPhaseKeepsSound(r.artifact, order[1..], r.script);
      }
    }
  }

  lemma {:induction false} PartPhaseKeepsSound(
    a: Artifact, order: seq<PartKind>, young: set<Target>, script: Script)
    requires Sound(a)
    ensures Sound(PartPhase(a, order, young, script).run.artifact)
    decreases |order|
  {
    if order != [] {
      if order[0] !in a.parts || Part(order[0]) in young {
        PartPhaseKeepsSound(a, order[1..], young, script);
      } else {
        UnlinkKeepsSound(a, Part(order[0]), script);
        var r := JournalledUnlinkRun(a, Part(order[0]), script);
        hide JournalledUnlinkRun;
        PartPhaseKeepsSound(r.artifact, order[1..], young, r.script);
      }
    }
  }

  lemma JudgingPhasesKeepSound(a: Artifact, young: set<Target>, verdict: Verdict, script: Script)
    requires Sound(a)
    ensures Sound(MarkerPhase(a, young, script).run.artifact)
    ensures verdict != Raises ==> Sound(RecordPhase(a, young, verdict, script).run.artifact)
    ensures Sound(PayloadPhase(a, young, script).run.artifact)
  {
    DeleteTripletKeepsSound(a, script);
    if a.marker.None? {
      UnlinkKeepsSound(a, Record, script);
      UnlinkKeepsSound(a, Payload, script);
    }
    hide DeleteTripletRun, JournalledUnlinkRun;
  }

  /** The first three phases of a sweep over one artifact with faults: it ends early when a step of
      its own fails, when it dies, or when another artifact has failed by the end of a phase. */
  function SweepThree(a: Artifact, listing: Listing, young: set<Target>, script: Script, phases: nat): Run {
    if phases < 1 then Run(a, Finished, script) else
    var p1 := JournalPhase(a, listing.journals, script).run;
    if phases < 2 || !p1.ending.Finished? then p1 else
    var p2 := PartPhase(p1.artifact, listing.parts, young, p1.script).run;
    if phases < 3 || !p2.ending.Finished? then p2 else
    MarkerPhase(p2.artifact, young, p2.script).run
  }

  function SweepRun(
    a: Artifact, listing: Listing, young: set<Target>, verdict: Verdict, script: Script, phases: nat): Run
  {
    var p3 := SweepThree(a, listing, young, script, phases);
    if phases < 4 || !p3.ending.Finished? then p3 else
    var p4 := RecordPhase(p3.artifact, young, verdict, p3.script).run;
    if phases < 5 || !p4.ending.Finished? then p4 else
    PayloadPhase(p4.artifact, young, p4.script).run
  }

  /** A sweep gets to the record of an artifact that is visible by then, the checker raises, and the
      first step of what is meant for unreadable records takes effect. */
  predicate SweepTearsApart(
    a: Artifact, listing: Listing, young: set<Target>, verdict: Verdict, script: Script, phases: nat)
  {
    var b := SweepThree(a, listing, young, script, phases);
    && verdict == Raises && phases >= 4 && b.ending.Finished?
    && Record !in young && b.artifact.marker.Some?
    && TakesEffect(FirstFate(b.script))
  }

  lemma FirstPhasesKeepSound(a: Artifact, listing: Listing, young: set<Target>, script: Script, phases: nat)
    requires Sound(a)
    ensures Sound(SweepThree(a, listing, young, script, phases).artifact)
  {
    hide Sound, JournalPhase, PartPhase, MarkerPhase;
    JournalPhaseKeepsSound(a, listing.journals, script);
    var p1 := JournalPhase(a, listing.journals, script).run;
    PartPhaseKeepsSound(p1.artifact, listing.parts, young, p1.script);
    var p2 := PartPhase(p1.artifact, listing.parts, young, p1.script).run;
    JudgingPhasesKeepSound(p2.artifact, young, Active, p2.script);
  }

  /** What a raising checker does to the record of a visible artifact. */
  lemma RaisingCheckerTearsExactly(a: Artifact, young: set<Target>, script: Script)
    requires Sound(a)
    ensures var r := RecordPhase(a, young, Raises, script).run;
            var tears := Record !in young && a.marker.Some? && TakesEffect(FirstFate(script));
            && (Sound(r.artifact) <==> !tears)
            && (tears ==> r.artifact.marker.Some?)
  {
    if a.marker.None? {
      UnlinkKeepsSound(a, Record, script);
    } else {
      var gone, state := JournalledUnlinkOutcome(a, Record, script);
      LoadsNeedsBoth(a);
      FirstUnlinkStep(a, script);
    }
    hide JournalledUnlinkRun, Loads;
  }

  /** The first step of a journalled unlink already tells on the record's future. */
  lemma FirstUnlinkStep(a: Artifact, script: Script)
    requires a.record.Some? && !Intends(a, Record)
    ensures var r := JournalledUnlinkRun(a, Record, script);
            && (TakesEffect(FirstFate(script)) ==> r.artifact.record.None? || Intends(r.artifact, Record))
            && (!TakesEffect(FirstFate(script)) ==> r.artifact == a && !r.ending.Finished?)
  {
    if Record in a.journal {
      FinishAfterUnlink(a, script);
    } else {
      var meant := StepRun(a, WriteJournal(Record, Intent), script);
      if meant.ending.Finished? {
        var gone, state := FinishOutcome(meant.artifact, Record, meant.script);
      }
      hide FinishJournalRun;
    }
  }

  lemma FinishAfterUnlink(a: Artifact, script: Script)
    requires a.record.Some? && Record in a.journal
    ensures var r := FinishJournalRun(a, Record, script);
            if TakesEffect(FirstFate(script)) then r.artifact.record.None? else r.artifact == a && !r.ending.Finished?
  {
    var gone, state := FinishOutcome(a, Record, script);
    hide CleanupJournalRun;
  }

  lemma PayloadPhaseKeepsMarker(a: Artifact, young: set<Target>, script: Script)
    requires a.marker.Some?
    ensures PayloadPhase(a, young, script).run.artifact == a
  {
  }

  /** A sweep keeps visibility atomic, wherever it fails or stops, except in exactly that case. */
  lemma SweepSoundExactly(
    a: Artifact, listing: Listing, young: set<Target>, verdict: Verdict, script: Script, phases: nat)
    requires Sound(a)
    ensures Sound(SweepRun(a, listing, young, verdict, script, phases).artifact)
            <==> !SweepTearsApart(a, listing, young, verdict, script, phases)
  {
    FirstPhasesKeepSound(a, listing, young, script, phases);
    var p3 := SweepThree(a, listing, young, script, phases);
    var p4 := RecordPhase(p3.artifact, young, verdict, p3.script).run;
    if verdict == Raises {
      RaisingCheckerTearsExactly(p3.artifact, young, p3.script);
    } else {
      JudgingPhasesKeepSound(p3.artifact, young, verdict, p3.script);
    }
    if Sound(p4.artifact) {
      JudgingPhasesKeepSound(p4.artifact, young, verdict, p4.script);
    } else if p4.artifact.marker.Some? {
      PayloadPhaseKeepsMarker(p4.artifact, young, p4.script);
    }
    hide Sound, SweepThree, RecordPhase, PayloadPhase;
  }

  datatype Event =
    | Publish(bytes: Bytes, record: RecordFile, script: Script)
    | DeleteObject(script: Script)
    | RemoveExpired(now: int, script: Script)
    | Discard(script: Script)
    | Sweep(listing: Listing, young: set<Target>, verdict: Verdict, script: Script, phases: nat)

  function Next(a: Artifact, e: Event): Artifact
    requires e.Publish? ==> e.record.RecordFile?
  {
    match e
    case Publish(bytes, record, script) => PublishRun(a, bytes, record, script).artifact
    case DeleteObject(script) => DeleteObjectRun(a, script).artifact
    case RemoveExpired(now, script) => ExpireRun(a, now, script).artifact
    case Discard(script) => DiscardRun(a, script).artifact
    case Sweep(listing, young, verdict, script, phases) =>
      SweepRun(a, listing, young, verdict, script, phases).artifact
  }

  /** The events after which visibility is still atomic. */
  predicate Benign(a: Artifact, e: Event) {
    match e
    case Publish(_, _, script) => !RollbackOrphansMarker(a, script) && !PublishesOverIntent(a, script)
    case Discard(script) => a.marker.None? || !LaterUnlinkLands(script, 0)
    case Sweep(listing, young, verdict, script, phases) =>
      !SweepTearsApart(a, listing, young, verdict, script, phases)
    case _ => true
  }

  /** What the store publishes is described by its record. */
  predicate Possible(e: Event) {
    e.Publish? ==> Describes(e.record, e.bytes)
  }

  /** One event, whatever fails in it, keeps visibility atomic exactly when it is benign. */
  lemma NextSoundExactly(a: Artifact, e: Event)
    requires Sound(a) && Possible(e)
    ensures Sound(Next(a, e)) <==> Benign(a, e)
  {
    match e {
      case Publish(bytes, record, script) => PublishSoundExactly(a, bytes, record, script);
      case DeleteObject(script) => DeleteObjectKeepsSound(a, script);
      case RemoveExpired(now, script) => DeleteTripletKeepsSound(a, script);
      case Discard(script) =>
        if a.marker.Some? {
          DiscardSoundExactly(a, script);
        } else {
          RollbackOnlyRemoves(a, [Marker, Record, Payload], script);
        }
      case Sweep(listing, young, verdict, script, phases) =>
        SweepSoundExactly(a, listing, young, verdict, script, phases);
    }
    hide PublishRun, DeleteObjectRun, DeleteTripletRun, DiscardRun, SweepRun, SweepTearsApart,
         RollbackOrphansMarker, PublishesOverIntent, LaterUnlinkLands;
  }

  ghost predicate IsRun(states: seq<Artifact>, events: seq<Event>) {
    && |states| == |events| + 1
    && states[0] == Nothing()
    && forall i :: 0 <= i < |events| ==> Follows(states[i], events[i], states[i + 1])
  }

  ghost predicate Follows(a: Artifact, e: Event, b: Artifact) {
    Possible(e) && b == Next(a, e)
  }

  ghost predicate SoundSoFar(states: seq<Artifact>, i: nat)
    requires i < |states|
  {
    forall n :: 0 <= n <= i ==> Sound(states[n])
  }

  ghost predicate BenignSoFar(states: seq<Artifact>, events: seq<Event>, i: nat)
    requires i <= |events| && |states| == |events| + 1
  {
    forall k :: 0 <= k < i ==> Benign(states[k], events[k])
  }

  /** Main result: over every run of publications, deletions, expiries, discards and sweeps, with
      any step of any of them failing or dying, visibility is atomic in every state (a marker never
      stands without a record and a payload that match it, nor over a deletion that will take them)
      exactly when no event of the run is one of the three that are not benign. */
  lemma {:induction false} VisibilityIsAtomicExactly(states: seq<Artifact>, events: seq<Event>, i: nat)
    requires IsRun(states, events) && i < |states|
    ensures SoundSoFar(states, i) <==> BenignSoFar(states, events, i)
  {
    if i > 0 {
      VisibilityIsAtomicExactly(states, events, i - 1);
      var a, e := states[i - 1], events[i - 1];
      assert Follows(a, e, states[i]);
      assert SoundSoFar(states, i) <==> SoundSoFar(states, i - 1) && Sound(states[i]);
      assert BenignSoFar(states, events, i) <==> BenignSoFar(states, events, i - 1) && Benign(a, e);
      if Sound(a) {
        NextSoundExactly(a, e);
      }
      hide Next, Benign, Sound, BenignSoFar;
    }
  }

  /** Every step either takes effect and returns, or the process dies at it. */
  predicate CrashOnly(script: Script) {
    forall fate <- script :: fate.Succeeds? || fate.Dies?
  }

  /** An event in which nothing but crashes goes wrong; the checker answers. */
  predicate CrashesAtMost(e: Event) {
    CrashOnly(e.script) && (e.Sweep? ==> e.verdict != Raises)
  }

  /** A publication that succeeds over a deletion left half done. */
  predicate RepublishesOverIntent(a: Artifact, e: Event) {
    e.Publish? && PublishesOverIntent(a, e.script)
  }

  lemma CrashesAreBenignExactly(a: Artifact, e: Event)
    requires CrashesAtMost(e)
    ensures Benign(a, e) <==> !RepublishesOverIntent(a, e)
  {
    forall n: nat ensures !NthFate(e.script, n).RaisesBefore? && !NthFate(e.script, n).RaisesAfter? {
      if n < |e.script| {
        assert e.script[n] in e.script;
      }
    }
    hide SweepThree;
  }

  /** With crashes alone there is one way to lose it: to publish an artifact whose deletion a crash
      left half done. */
  lemma CrashesLoseVisibilityExactly(states: seq<Artifact>, events: seq<Event>, i: nat)
    requires IsRun(states, events) && i < |states|
    requires forall k :: 0 <= k < i ==> CrashesAtMost(events[k])
    ensures SoundSoFar(states, i) <==> forall k :: 0 <= k < i ==> !RepublishesOverIntent(states[k], events[k])
  {
    VisibilityIsAtomicExactly(states, events, i);
    forall k | 0 <= k < i ensures Benign(states[k], events[k]) <==> !RepublishesOverIntent(states[k], events[k]) {
      CrashesAreBenignExactly(states[k], events[k]);
    }
    hide Benign, RepublishesOverIntent, CrashesAtMost, Sound;
  }

  /** A marker stands only over a record and a payload that match it. */
  predicate Whole(a: Artifact) {
    a.marker.Some? ==> Loads(a, true)
  }

  function SweepCut(a: Artifact, listing: Listing, young: set<Target>, script: Script): Artifact {
    SweepRun(a, listing, young, Active, script, 5).artifact
  }

  /** Why a marker over an intent counts as broken: it is what some sweep, cut short by a crash, tears
      apart, although its checker calls the reservation active. */
  lemma SoundIsWholeAfterEveryCutSweep(a: Artifact)
    ensures Sound(a) <==> Whole(a) && forall listing, young, script ::
                            CrashOnly(script) ==> Whole(SweepCut(a, listing, young, script))
  {
    if Sound(a) {
      forall listing, young, script | CrashOnly(script) ensures Whole(SweepCut(a, listing, young, script)) {
        SweepSoundExactly(a, listing, young, Active, script, 5);
      }
    } else if Whole(a) {
      var t := if Intends(a, Record) then Record else Payload;
      IntentTears(a, t);
      assert CrashOnly([Succeeds, Dies]);
      assert !Whole(SweepCut(a, Listing([t], []), {}, [Succeeds, Dies]));
    }
    hide SweepRun, Loads;
  }

  lemma IntentTears(a: Artifact, t: Target)
    requires Committed(a) && Intends(a, t) && (t == Record || t == Payload)
    ensures !Whole(SweepCut(a, Listing([t], []), {}, [Succeeds, Dies]))
  {
    var r := JournalPhase(a, [t], [Succeeds, Dies]).run;
    assert r == Run(Without(a, t), Crashed, []);
    LoadsNeedsBoth(a);
  }

  /** Nothing of a rollback or a discard takes effect before it stops. */
  predicate NothingLands(script: Script, n: nat) {
    && !TakesEffect(NthFate(script, n))
    && (NthFate(script, n).RaisesBefore? ==>
          && !TakesEffect(NthFate(script, n + 1))
          && (NthFate(script, n + 1).RaisesBefore? ==> !TakesEffect(NthFate(script, n + 2))))
  }

  /** A discarded artifact stays visible exactly when no unlink takes effect. */
  lemma DiscardVisibleExactly(a: Artifact, script: Script)
    requires Committed(a)
    ensures Committed(DiscardRun(a, script).artifact) <==> NothingLands(script, 0)
  {
    DiscardSplits(a, script);
    var m := StepRun(a, Unlink(Marker), script);
    var r := StepRun(m.artifact, Unlink(Record), m.script);
    assert NthFate(script, 0) == FirstFate(script);
    assert NthFate(script, 1) == FirstFate(m.script) && NthFate(script, 2) == FirstFate(r.script);
    LoadsNeedsBoth(m.artifact);
    hide DiscardRun, NthFate, Loads;
  }

  /** When a publication ends with a visible artifact: an artifact in the way is what it was, and
      otherwise the marker's rename, the last of five steps, has to take effect and to stay. */
  lemma PublishVisibleExactly(a: Artifact, bytes: Bytes, record: RecordFile, script: Script)
    requires Describes(record, bytes)
    ensures Committed(PublishRun(a, bytes, record, script).artifact)
            <==> if AnyFormal(a) then Committed(a)
                 else && RecordPart !in a.parts && CommitPart !in a.parts
                      && FirstFourSucceed(script) && TakesEffect(NthFate(script, 4))
                      && (NthFate(script, 4).Succeeds? || NothingLands(script, 5))
  {
    if AnyFormal(a) {
      RepublishChangesNothing(a, bytes, record, script);
      hide PublishRun;
    } else {
      var k := PublishPlanOutcome(a, bytes, record, script);
      var r := PlanRun(a, PublishPlan(bytes, record), script);
      RollbackOnlyRemoves(r.artifact, RollbackOrder(), r.script);
      if k == 5 {
        RollbackWithoutParts(r.artifact, r.script);
        DiscardVisibleExactly(r.artifact, r.script);
        assert NthFate(r.script, 0) == NthFate(script, 5) && NthFate(r.script, 1) == NthFate(script, 6)
               && NthFate(r.script, 2) == NthFate(script, 7);
        assert NothingLands(r.script, 0) <==> NothingLands(script, 5);
      } else {
        assert r.artifact.marker.None?;
      }
      hide PlanRun, RollbackRun, DiscardRun, NthFate, RollbackOrder, PublishPlan;
    }
  }

  /** The marker's unlink takes effect, which is the second step unless its intent is there already. */
  predicate MarkerUnlinkLands(a: Artifact, script: Script) {
    if Marker in a.journal then TakesEffect(NthFate(script, 0))
    else NthFate(script, 0).Succeeds? && TakesEffect(NthFate(script, 1))
  }

  lemma MarkerUnlinkExactly(a: Artifact, script: Script)
    requires Committed(a)
    ensures var m := JournalledUnlinkRun(a, Marker, script);
            && (m.artifact.marker.Some? <==> !MarkerUnlinkLands(a, script))
            && (m.artifact.marker.Some? ==> !m.ending.Finished? && m.artifact == a.(journal := m.artifact.journal))
  {
    assert NthFate(script, 1) == FirstFate(LaterFates(script)) && NthFate(script, 0) == FirstFate(script);
    var meant := if Marker in a.journal then Run(a, Finished, script) else StepRun(a, WriteJournal(Marker, Intent), script);
    if meant.ending.Finished? {
      MarkerFinishExactly(meant.artifact, meant.script);
    }
    hide NthFate, Loads, FinishJournalRun;
  }

  lemma MarkerFinishExactly(a: Artifact, script: Script)
    requires a.marker.Some? && Marker in a.journal
    ensures var m := FinishJournalRun(a, Marker, script);
            && (m.artifact.marker.Some? <==> !TakesEffect(FirstFate(script)))
            && (m.artifact.marker.Some? ==> !m.ending.Finished? && m.artifact == a)
  {
    var gone, state := FinishOutcome(a, Marker, script);
    hide CleanupJournalRun;
  }

  /** A journalled deletion ends visibility exactly with the marker's unlink. */
  lemma DeleteVisibleExactly(a: Artifact, script: Script)
    requires Committed(a)
    ensures Committed(DeleteTripletRun(a, script).artifact) <==> !MarkerUnlinkLands(a, script)
  {
    MarkerUnlinkExactly(a, script);
    var m := JournalledUnlinkRun(a, Marker, script);
    if m.ending.Finished? {
      UnlinkKeepsMarkerGone(m.artifact, Payload, m.script);
      var p := JournalledUnlinkRun(m.artifact, Payload, m.script);
      UnlinkKeepsMarkerGone(p.artifact, Record, p.script);
    }
    hide JournalledUnlinkRun, MarkerUnlinkLands;
  }

  /** A plain deletion ends visibility exactly with its first step. */
  lemma DeleteObjectVisibleExactly(a: Artifact, script: Script)
    requires Committed(a)
    ensures Committed(DeleteObjectRun(a, script).artifact) <==> !TakesEffect(FirstFate(script))
  {
  }

  lemma UnlinkKeepsMarkerGone(a: Artifact, t: Target, script: Script)
    requires a.marker.None?
    ensures JournalledUnlinkRun(a, t, script).artifact.marker.None?
  {
    var gone, state := JournalledUnlinkOutcome(a, t, script);
    hide JournalledUnlinkRun;
  }

  // ---------------------------------------------------------------------
  // Where it fails

  /** With a checker that raises, a sweep settles an artifact exactly when the journals have
      left nothing committed of it: a committed one loses its record and keeps its marker. */
  lemma RaisingCheckerSettlesExactly(a: Artifact, listing: Listing)
    requires Complete(listing)
    ensures Settled(SweepArtifact(a, listing, {}, Raises).artifact, Active)
            <==> !Committed(JournalsFinished(a, listing.journals))
  {
    FaultFreeSweep(a, listing, Raises);
    EveryJournalListed(a, listing);
    hide SweepArtifact;
  }

  /** So one outage of the checker costs a live artifact everything at the next sweep. */
  lemma RaisingCheckerLosesALiveArtifact(a: Artifact, listing: Listing)
    requires Complete(listing) && Committed(a) && NoIntents(a)
    ensures var first := SweepArtifact(a, listing, {}, Raises).artifact;
            && first.marker.Some? && first.payload.Some? && first.record.None?
            && SweepArtifact(first, listing, {}, Active).artifact == Nothing()
  {
    FaultFreeSweep(a, listing, Raises);
    EveryJournalListed(a, listing);
    var first := SweepArtifact(a, listing, {}, Raises).artifact;
    FaultFreeSweep(first, listing, Active);
    EveryJournalListed(first, listing);
    hide SweepArtifact;
  }

  /** A publication whose last step raises too late, and whose rollback then cannot remove the marker. */
  function UnluckyPublication(): Script {
    [Succeeds, Succeeds, Succeeds, Succeeds, RaisesAfter, RaisesBefore]
  }

  /** The two failing runs: a discard whose first unlink raises, and that publication. Each leaves a
      marker without its record and its payload. */
  lemma FailedUnlinkTearsAnArtifactApart(bytes: Bytes, record: RecordFile)
    requires Describes(record, bytes)
    ensures var published := PublishRun(Nothing(), bytes, record, []).artifact;
            var discarded := DiscardRun(published, [RaisesBefore]).artifact;
            Committed(published) && discarded.marker.Some? && discarded.record.None? && discarded.payload.None?
    ensures var torn := PublishRun(Nothing(), bytes, record, UnluckyPublication()).artifact;
            torn.marker.Some? && torn.record.None? && torn.payload.None?
  {
    DiscardAfterPublishing(bytes, record);
    UnluckyPublicationTears(bytes, record);
    hide PublishRun, DiscardRun;
  }

  lemma DiscardAfterPublishing(bytes: Bytes, record: RecordFile)
    requires Describes(record, bytes)
    ensures var published := PublishRun(Nothing(), bytes, record, []).artifact;
            var discarded := DiscardRun(published, [RaisesBefore]).artifact;
            Committed(published) && discarded.marker.Some? && discarded.record.None? && discarded.payload.None?
  {
    var k := PublishPlanOutcome(Nothing(), bytes, record, []);
    var published := Published(Nothing(), bytes, record, 5);
    DiscardSplits(published, [RaisesBefore]);
    hide PlanRun, DiscardRun, RollbackRun, PublishPlan, RollbackOrder;
  }

  lemma UnluckyPublicationTears(bytes: Bytes, record: RecordFile)
    requires Describes(record, bytes)
    ensures var torn := PublishRun(Nothing(), bytes, record, UnluckyPublication()).artifact;
            torn.marker.Some? && torn.record.None? && torn.payload.None?
  {
    var published := Published(Nothing(), bytes, record, 5);
    var n := PublishPlanOutcome(Nothing(), bytes, record, UnluckyPublication());
    var r := PlanRun(Nothing(), PublishPlan(bytes, record), UnluckyPublication());
    assert NthFate(UnluckyPublication(), 5) == RaisesBefore;
    assert NthFate(r.script, 0) == NthFate(UnluckyPublication(), 5);
    assert NthFate(r.script, 1) == Succeeds && NthFate(r.script, 2) == Succeeds;
    hide PlanRun, DiscardRun, RollbackRun, PublishPlan, RollbackOrder, UnluckyPublication;
    RollbackWithoutParts(published, r.script);
    DiscardSplits(published, r.script);
    assert NthFate(r.script, 0) == FirstFate(r.script) && NthFate(r.script, 1) == FirstFate(LaterFates(r.script))
           && NthFate(r.script, 2) == FirstFate(LaterFates(LaterFates(r.script)));
    hide NthFate;
  }

  /** A deletion that dies between the record's unlink and the note that it happened. */
  function DiesBeforeNoting(): Script {
    [Succeeds, Succeeds, Succeeds, Succeeds, Succeeds, Succeeds, Succeeds, Succeeds, Succeeds, Succeeds, Dies]
  }

  lemma UnlinkSucceeds(a: Artifact, t: Target, script: Script)
    requires Present(a, t) && a.journal == map[] && FirstFourSucceed(script)
    ensures JournalledUnlinkRun(a, t, script)
            == Run(Without(a, t), Finished, LaterFates(LaterFates(LaterFates(LaterFates(script)))))
  {
    assert NthFate(script, 1) == FirstFate(LaterFates(script));
    assert NthFate(script, 2) == FirstFate(LaterFates(LaterFates(script)));
    assert NthFate(script, 3) == FirstFate(LaterFates(LaterFates(LaterFates(script))));
    assert map[t := Intent][t := Deleted] - {t} == map[];
  }

  function LeftoverIntent(): Artifact {
    Nothing().(journal := map[Record := Intent])
  }

  lemma DyingLeavesAnIntent(a: Artifact)
    requires Committed(a) && a.journal == map[] && a.parts == {}
    ensures DeleteTripletRun(a, DiesBeforeNoting()).artifact == LeftoverIntent()
  {
    var script := DiesBeforeNoting();
    UnlinkSucceeds(a, Marker, script);
    var m := JournalledUnlinkRun(a, Marker, script);
    UnlinkSucceeds(m.artifact, Payload, m.script);
    var p := JournalledUnlinkRun(m.artifact, Payload, m.script);
    assert p.script == [Succeeds, Succeeds, Dies];
    hide JournalledUnlinkRun;
    UnlinkDiesBeforeNoting(p.artifact, Record);
  }

  lemma UnlinkDiesBeforeNoting(a: Artifact, t: Target)
    requires Present(a, t) && a.journal == map[]
    ensures JournalledUnlinkRun(a, t, [Succeeds, Succeeds, Dies])
            == Run(Without(a, t).(journal := map[t := Intent]), Crashed, [])
  {
  }

  lemma SweepKillsWhatTheIntentNames(bytes: Bytes, record: RecordFile, listing: Listing)
    requires Describes(record, bytes) && Complete(listing)
    ensures SweepArtifact(Published(LeftoverIntent(), bytes, record, 5), listing, {}, Active).artifact == Nothing()
  {
    var again := Published(LeftoverIntent(), bytes, record, 5);
    FaultFreeSweep(again, listing, Active);
    EveryJournalListed(again, listing);
    hide SweepArtifact;
  }

  /** A journal intent outlives the deletion it belongs to. Publishing the same artifact again
      before a sweep succeeds, and the sweep then deletes the new artifact although its
      reservation is active. */
  lemma LeftoverIntentKillsARepublishedArtifact(a: Artifact, bytes: Bytes, record: RecordFile, listing: Listing)
    requires Committed(a) && a.journal == map[] && a.parts == {}
    requires Describes(record, bytes) && Complete(listing)
    ensures var left := DeleteTripletRun(a, DiesBeforeNoting()).artifact;
            var again := PublishRun(left, bytes, record, []);
            && again.ending.Finished? && Committed(again.artifact)
            && SweepArtifact(again.artifact, listing, {}, Active).artifact == Nothing()
  {
    DyingLeavesAnIntent(a);
    hide DeleteTripletRun, SweepArtifact;
    var k := PublishPlanOutcome(LeftoverIntent(), bytes, record, []);
    SweepKillsWhatTheIntentNames(bytes, record, listing);
    hide PlanRun;
  }
}

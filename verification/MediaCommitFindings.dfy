/** Where the commit protocol meets its own promises, and the exact inputs where it does not. */
module MediaCommitFindings {
  import opened Basics
  import opened MediaObjectStore
  import opened MediaCommit
  import opened MediaStoreProperties
  import opened MediaCommitSafety
  import opened MediaCommitLossless

  // ---------------------------------------------------------------------
  // The reference-outcome asserts of a fresh ingestion and of a replay

  /** The fresh assert accepts what `finalize` returned exactly when the reservation was still
      active, created the artifact itself, or reused a referenced one. It rejects the honest
      outcome of a second attempt whose reservation waits for, or followed, another's artifact. */
  lemma FreshAssertExactly(sys: System, aid: Id)
    requires Safe(sys) && aid in sys.attempts && sys.attempts[aid].AtStaged? && Unclaimed(sys, aid)
    requires Finalize(sys.db, sys.attempts[aid].s, sys.attempts[aid].bytes).FinalizeOk?
    ensures var s := sys.attempts[aid].s;
            var r := sys.db.reservations[s.reservation];
            FreshOutcomeOk(Finalize(sys.db, s, sys.attempts[aid].bytes).outcome, s)
            <==> (r.status == Active
                  || (r.facts.Some? && r.facts.value.intent == MarkIt)
                  || r.completion == Some(DirectReuse))
  {
    var s := sys.attempts[aid].s;
    assert AttemptInv(sys, aid) && DbInv(sys.db, sys.origin);
    assert ReservationInv(sys.db, s.reservation);
    hide Safe, DbInv, AttemptInv, Finalize, FreshOutcomeOk;
    if sys.db.reservations[s.reservation].status == Active {
      FirstOutcomeOk(sys.db, sys.origin, s, sys.attempts[aid].bytes);
    } else {
      LaterOutcomeOkExactly(sys.db, sys.origin, s, sys.attempts[aid].bytes);
    }
  }

  lemma FirstOutcomeOk(db: Db, origin: map<Id, Origin>, s: StagedObject, bytes: Bytes)
    requires DbInv(db, origin) && Finalize(db, s, bytes).FinalizeOk?
    requires db.reservations[s.reservation].status == Active
    ensures FreshOutcomeOk(Finalize(db, s, bytes).outcome, s)
  {
  }

  lemma LaterOutcomeOkExactly(db: Db, origin: map<Id, Origin>, s: StagedObject, bytes: Bytes)
    requires DbInv(db, origin) && Finalize(db, s, bytes).FinalizeOk?
    requires db.reservations[s.reservation].status != Active
    requires forall r :: r in db.reservations && db.reservations[r].facts.Some? ==>
               db.reservations[r].facts.value.key != s.key
    ensures var r := db.reservations[s.reservation];
            FreshOutcomeOk(Finalize(db, s, bytes).outcome, s)
            <==> (r.facts.Some? && r.facts.value.intent == MarkIt) || r.completion == Some(DirectReuse)
  {
    var r := db.reservations[s.reservation];
    assert ReservationInv(db, s.reservation);
    if r.facts.Some? {
      assert ArtifactInv(db, origin, r.facts.value.canonical);
    }
    hide DbInv;
  }

  /** The replay assert never fires: whatever the database replays is consistent. */
  lemma ReplayAssertHolds(sys: System, rid: Id)
    requires Safe(sys) && ReplayReservation(sys.db, rid).1.Some?
    ensures ReplayOutcomeOk(ReplayReservation(sys.db, rid).1.value)
  {
    assert ReservationInv(sys.db, rid);
    assert ArtifactInv(sys.db, sys.origin, sys.db.reservations[rid].facts.value.canonical);
  }

  // ---------------------------------------------------------------------
  // The janitor, over a whole crash state

  /** The manifests a sweep that agrees with the database leaves behind: those of an item that is
      referenced, but which never got as far as STAGED or whose object is already discarded. */
  predicate Stuck(d: Disk, m: Id) {
    && m in d.manifests && d.manifests[m].Manifest?
    && (d.manifests[m].phase == ManifestOnly
        || (d.manifests[m].key !in d.staged && d.manifests[m].key !in d.referenced))
  }

  ghost predicate Agrees(sys: System, answers: map<Id, Answer>) {
    forall m :: m in sys.disk.manifests && sys.disk.manifests[m].Manifest? ==>
      && sys.disk.manifests[m].item in answers
      && answers[sys.disk.manifests[m].item] == Checker(sys.db, sys.disk.manifests[m].item)
  }

  lemma SafeIsWellBound(sys: System) returns (owner: map<Id, Id>)
    requires Safe(sys)
    ensures WellBound(sys.disk, owner)
  {
    owner := map k | k in sys.origin :: sys.origin[k].binding.manifestId;
    forall m | m in sys.disk.manifests && sys.disk.manifests[m].Manifest?
      ensures sys.disk.manifests[m].key in owner && owner[sys.disk.manifests[m].key] == m {
      assert ReadsAsStaged(sys.disk, sys.origin, m);
    }
    forall k | k in sys.disk.staged ensures k in owner && Names(sys.disk, owner[k], k) {
      assert HasManifest(sys.disk, sys.origin, k);
    }
    forall k | k in sys.disk.referenced && k in owner && Names(sys.disk, owner[k], k)
      ensures sys.disk.manifests[owner[k]].phase == PhaseStaged {
      assert HasManifest(sys.disk, sys.origin, k);
    }
  }

  /** In every reachable state, one sweep of all manifests with a checker that agrees with the
      database leaves no manifest and no staged object if and only if no referenced item has a
      stuck manifest. */
  lemma JanitorConverges(sys: System, answers: map<Id, Answer>, order: seq<Id>)
    requires Safe(sys) && Agrees(sys, answers)
    requires Distinct(order) && Members(order) == sys.disk.manifests.Keys
    ensures var d' := Sweep(sys.disk, order, answers, [], []).run.disk;
            (d'.manifests == map[] && d'.staged == map[])
            <==> (forall m :: m in sys.disk.manifests && Stuck(sys.disk, m) ==>
                    !HasArtifact(sys.db, sys.disk.manifests[m].item))
  {
    var owner := SafeIsWellBound(sys);
    SweepConverges(sys.disk, owner, answers, order);
    hide Sweep, DbInv, MarkedInv, WellBound;
    forall m | m in sys.disk.manifests
      ensures Settles(sys.disk, answers, m)
          <==> !(Stuck(sys.disk, m) && HasArtifact(sys.db, sys.disk.manifests[m].item)) {
      assert ReadsAsStaged(sys.disk, sys.origin, m);
    }
  }

  // ---------------------------------------------------------------------
  // Runs that show the conditions are needed

  lemma {:induction false} AllStepsSucceed(d: Disk, plan: seq<FileStep>, script: Script)
    requires forall i :: 0 <= i < |plan| && i < |script| ==> script[i] == Succeeds
    ensures var r := RunPlan(d, plan, script);
            && r.ending == Done
            && r.script == if |script| > |plan| then script[|plan|..] else []
    decreases |plan|
  {
    if plan != [] {
      AllStepsSucceed(Apply(d, plan[0]), plan[1..], LaterFates(script));
    } else if script != [] {
      assert script[0..] == script;
    }
  }

  /** A `stage` whose six steps succeed. */
  lemma StageSucceeds(d: Disk, s: StagedObject, bytes: Bytes, script: Script)
    requires forall i :: 0 <= i < 6 && i < |script| ==> script[i] == Succeeds
    ensures var r := StageRun(d, s, bytes, script);
            && r.ending == Done && r.script == (if |script| > 6 then script[6..] else [])
            && r.disk.manifests == d.manifests[s.manifestId := ManifestOf(s, PhaseStaged)]
            && r.disk.staged == d.staged[s.key := bytes]
            && r.disk.referenced == d.referenced
  {
    var plan := StagePlan(s, bytes);
    AllStepsSucceed(d, plan, script);
    RunStopsAfterPrefix(d, plan, script);
    StagePrefixLeaves(d, s, bytes, 6);
  }

  /** One reservation and one staged object, with the rest of the script to come. */
  ghost function OneStaged(rest: Script, bytes: Bytes): (sys: System)
    ensures sys.script == rest && Safe(sys)
    ensures sys.db == Db(map[1 := Reservation(10, 100, Active, None, None)], map[])
    ensures sys.attempts == map[0 := AtStaged(StagedObject(10, 1, 20, 30), bytes)]
    ensures sys.disk.manifests == map[30 := Manifest(20, 10, 1, PhaseStaged)]
    ensures sys.disk.staged == map[20 := bytes] && sys.disk.referenced == map[]
    ensures sys.origin == map[20 := Origin(StagedObject(10, 1, 20, 30), bytes)]
    ensures sys.usedManifests == map[30 := 20]
  {
    var script := [Succeeds, Succeeds, Succeeds, Succeeds, Succeeds, Succeeds] + rest;
    StagingSucceeds(script, bytes);
    assert if |script| > 6 then script[6..] == rest else rest == [];
    Next(Next(Initial(script), Reserve(1, 10, 100)), StageObject(0, 1, 20, 30, bytes))
  }

  lemma StagingSucceeds(script: Script, bytes: Bytes)
    requires |script| >= 6 && forall n :: 0 <= n < 6 ==> script[n] == Succeeds
    ensures var sys := Next(Next(Initial(script), Reserve(1, 10, 100)), StageObject(0, 1, 20, 30, bytes));
            && sys.script == script[6..] && Safe(sys)
            && sys.db == Db(map[1 := Reservation(10, 100, Active, None, None)], map[])
            && sys.attempts == map[0 := AtStaged(StagedObject(10, 1, 20, 30), bytes)]
            && sys.disk.manifests == map[30 := Manifest(20, 10, 1, PhaseStaged)]
            && sys.disk.staged == map[20 := bytes] && sys.disk.referenced == map[]
            && sys.origin == map[20 := Origin(StagedObject(10, 1, 20, 30), bytes)]
            && sys.usedManifests == map[30 := 20]
  {
    var sys0 := Initial(script);
    StageSucceeds(EmptyDisk(), StagedObject(10, 1, 20, 30), bytes, script);
    hide Monotone, StageRun;
    NextSafe(sys0, Reserve(1, 10, 100));
    hide Safe;
    var sys1 := Next(sys0, Reserve(1, 10, 100));
    NextSafe(sys1, StageObject(0, 1, 20, 30, bytes));
  }

  /** A finalize whose commit took effect but was reported as failed: the handler aborts the
      object the database has just committed, and no later event ever makes the evidence visible. */
  lemma LostAcknowledgementLosesTheObject(bytes: Bytes, after: seq<Event>)
    ensures var sys := Next(OneStaged([RaisesAfter], bytes), CommitFinalize(0));
            && Content(100, bytes) in sys.db.artifacts
            && sys.db.artifacts[Content(100, bytes)].key == 20
            && 20 !in sys.disk.staged && 20 !in sys.disk.referenced
            && !Visible(RunEvents(sys, after).db, 1)
  {
    var start := OneStaged([RaisesAfter], bytes);
    var s := StagedObject(10, 1, 20, 30);
    var sys := Next(start, CommitFinalize(0));
    AbortSucceeds(start.disk, s);
    assert sys.db.reservations[1].facts == Some(Facts(20, 30, Content(100, bytes), MarkIt, 10));
    NextSafe(start, CommitFinalize(0));
    RunSafe(sys, after);
    hide Next, Safe, Keeps, RunEvents, OneStaged;
    NotStoredNotVisible(sys, RunEvents(sys, after), 1);
  }

  lemma AbortSucceeds(d: Disk, s: StagedObject)
    requires JustStaged(d, s)
    ensures AbortRun(d, s, []) == Run(Discarded(d, s), Done, [])
  {
    RunOfTwo(d, UnlinkStaged(s.key), UnlinkManifest(s.manifestId), []);
  }

  /** Evidence whose object is in neither directory cannot become visible. */
  lemma NotStoredNotVisible(sys: System, later: System, rid: Id)
    requires Safe(sys) && Keeps(sys, later) && rid in sys.db.reservations
    requires sys.db.reservations[rid].facts.Some?
    requires var c := sys.db.reservations[rid].facts.value.canonical;
             && c in sys.db.artifacts
             && sys.db.artifacts[c].key !in sys.disk.staged
             && sys.db.artifacts[c].key !in sys.disk.referenced
    ensures !Visible(later.db, rid)
  {
    var c := sys.db.reservations[rid].facts.value.canonical;
    assert ArtifactInv(sys.db, sys.origin, c);
    assert sys.db.artifacts[c].key !in later.disk.referenced;
    assert c in later.db.artifacts && !later.db.artifacts[c].referenced;
    assert ReservationInv(later.db, rid);
  }

  /** A sweep of the manifest of a live ingestion, before it commits: the object is discarded, and
      the commit that follows makes an artifact of nothing. The age cutoff is needed. */
  lemma SweepOfALiveIngestionLosesTheObject(bytes: Bytes)
    ensures var sys := Next(Next(OneStaged([], bytes), SweepManifest(30, true)), CommitFinalize(0));
            && Content(100, bytes) in sys.db.artifacts
            && sys.db.artifacts[Content(100, bytes)].key == 20
            && 20 !in sys.disk.staged && 20 !in sys.disk.referenced
  {
    var start := OneStaged([], bytes);
    LiveSweepRemoves(start, StagedObject(10, 1, 20, 30), bytes);
    var swept := Next(start, SweepManifest(30, true));
    hide OneStaged, SweepEvent, AbortRun, Safe;
    assert swept == start.(disk := swept.disk);
  }

  lemma LiveSweepRemoves(sys: System, s: StagedObject, bytes: Bytes)
    requires sys.disk.manifests == map[s.manifestId := ManifestOf(s, PhaseStaged)]
    requires sys.disk.staged == map[s.key := bytes] && sys.disk.referenced == map[]
    requires sys.script == [] && !HasArtifact(sys.db, s.item)
    ensures var swept := Next(sys, SweepManifest(s.manifestId, true));
            && swept == sys.(disk := swept.disk)
            && s.key !in swept.disk.staged && s.key !in swept.disk.referenced
  {
    AbortSucceeds(sys.disk, s);
    hide AbortRun, RunPlan, HasArtifact;
  }

  /** A `finalize` that creates the artifact and whose commit succeeds. */
  lemma FirstFinalize(sys: System, aid: Id)
    requires aid in sys.attempts && sys.attempts[aid].AtStaged? && sys.script == []
    requires var s := sys.attempts[aid].s;
             && s.reservation in sys.db.reservations
             && sys.db.reservations[s.reservation] == Reservation(s.item, 100, Active, None, None)
             && sys.db.artifacts == map[]
    ensures var sys' := Next(sys, CommitFinalize(aid));
            var s := sys.attempts[aid].s;
            && sys'.disk == sys.disk && sys'.script == [] && sys'.attempts.Keys == sys.attempts.Keys
            && sys'.db.artifacts == map[Content(100, sys.attempts[aid].bytes) :=
                                          Artifact(s.item, s.key, s.manifestId, s.reservation, false)]
            && HasArtifact(sys'.db, s.item)
  {
    var sys' := Next(sys, CommitFinalize(aid));
    assert sys'.db.artifacts[Content(100, sys.attempts[aid].bytes)].item == sys.attempts[aid].s.item;
  }

  /** A first attempt that dies after publishing its manifest, and a second one under the same lease
      that is finalized: the first manifest is stuck. */
  lemma SecondAttemptLeavesAStuckManifest(bytes: Bytes)
    ensures var reserved := Next(Initial([Succeeds, Succeeds, Dies]), Reserve(1, 10, 100));
            var died := Next(reserved, StageObject(7, 1, 21, 31, bytes));
            var staged := Next(died, StageObject(0, 1, 20, 30, bytes));
            var sys := Next(staged, CommitFinalize(0));
            Stuck(sys.disk, 31) && sys.disk.manifests[31].item == 10 && HasArtifact(sys.db, 10)
  {
    var reserved := Next(Initial([Succeeds, Succeeds, Dies]), Reserve(1, 10, 100));
    assert reserved.db == Db(map[1 := Reservation(10, 100, Active, None, None)], map[]);
    DiesAfterManifest(reserved.disk, StagedObject(10, 1, 21, 31), bytes);
    var died := Next(reserved, StageObject(7, 1, 21, 31, bytes));
    assert died.script == [] && died.db == reserved.db && died.attempts == map[];
    assert died.origin == map[21 := Origin(StagedObject(10, 1, 21, 31), bytes)];
    assert died.usedManifests == map[31 := 21];
    assert died.disk.manifests == map[31 := Manifest(21, 10, 1, ManifestOnly)];
    hide StageRun;
    StageAgain(died, bytes);
  }

  lemma StageAgain(sys: System, bytes: Bytes)
    requires sys.script == [] && sys.attempts == map[]
    requires sys.db == Db(map[1 := Reservation(10, 100, Active, None, None)], map[])
    requires 20 !in sys.origin && 30 !in sys.usedManifests
    requires sys.disk.manifests == map[31 := Manifest(21, 10, 1, ManifestOnly)]
    ensures var sys' := Next(Next(sys, StageObject(0, 1, 20, 30, bytes)), CommitFinalize(0));
            Stuck(sys'.disk, 31) && sys'.disk.manifests[31].item == 10 && HasArtifact(sys'.db, 10)
  {
    StageSucceeds(sys.disk, StagedObject(10, 1, 20, 30), bytes, []);
    hide StageRun;
    FirstFinalize(Next(sys, StageObject(0, 1, 20, 30, bytes)), 0);
  }

  lemma DiesAfterManifest(d: Disk, s: StagedObject, bytes: Bytes)
    ensures var r := StageRun(d, s, bytes, [Succeeds, Succeeds, Dies]);
            && r.ending == Crashed && r.script == []
            && r.disk.manifests == d.manifests[s.manifestId := ManifestOf(s, ManifestOnly)]
            && r.disk.staged == d.staged && r.disk.referenced == d.referenced
  {
    var p := StagePlan(s, bytes);
    assert p == [p[0]] + p[1..] && p[1..] == [p[1]] + p[2..] && p[2..] == [p[2]] + p[3..];
    RunSplits(d, p[0], p[1..], [Succeeds, Succeeds, Dies]);
    RunSplits(Apply(d, p[0]), p[1], p[2..], [Succeeds, Dies]);
    RunSplits(Apply(Apply(d, p[0]), p[1]), p[2], p[3..], [Dies]);
  }

  /** A stuck manifest stays, and with it its object, through every sweep. */
  lemma StuckStays(sys: System, m: Id, answered: bool)
    requires Safe(sys) && Stuck(sys.disk, m) && HasArtifact(sys.db, sys.disk.manifests[m].item)
    ensures SweepEvent(sys, m, answered) == sys
  {
    assert ReadsAsStaged(sys.disk, sys.origin, m);
  }

  /** Two attempts under one lease, both staged, the first finalized: once the second has died,
      the janitor moves its object into `referenced/` too, under a key that no artifact row names. */
  lemma JanitorAdoptsAnUnnamedObject(bytes: Bytes, other: Bytes)
    ensures var started := Next(OneStaged([], bytes), StageObject(5, 1, 21, 31, other));
            var died := Next(Next(started, CommitFinalize(0)), Crash(5));
            var sys := Next(died, SweepManifest(31, true));
            && 21 in sys.disk.referenced && sys.disk.referenced[21] == other
            && (forall c :: c in sys.db.artifacts ==> sys.db.artifacts[c].key != 21)
  {
    var start := OneStaged([], bytes);
    var t := StagedObject(10, 1, 21, 31);
    StageSucceeds(start.disk, t, other, []);
    var started := Next(start, StageObject(5, 1, 21, 31, other));
    hide StageRun, OneStaged, StageEvent;
    AdoptionOfTheSecond(started, t);
  }

  lemma AdoptionOfTheSecond(sys: System, t: StagedObject)
    requires sys.script == [] && 0 in sys.attempts && sys.attempts[0].AtStaged?
    requires var s := sys.attempts[0].s;
             && s.reservation in sys.db.reservations
             && sys.db.reservations[s.reservation] == Reservation(s.item, 100, Active, None, None)
             && sys.db.artifacts == map[] && s.key != t.key && s.item == t.item
    requires JustStaged(sys.disk, t)
    ensures var died := Next(Next(sys, CommitFinalize(0)), Crash(5));
            var sys' := Next(died, SweepManifest(t.manifestId, true));
            && t.key in sys'.disk.referenced && sys'.disk.referenced[t.key] == sys.disk.staged[t.key]
            && (forall c :: c in sys'.db.artifacts ==> sys'.db.artifacts[c].key != t.key)
  {
    FirstFinalize(sys, 0);
    hide CommitEvent;
    var died := Next(Next(sys, CommitFinalize(0)), Crash(5));
    assert died.disk == sys.disk && died.script == [];
    hide Next;
    SweepAdopts(died, t.manifestId);
  }

  lemma SweepAdopts(sys: System, m: Id)
    requires m in sys.disk.manifests && sys.disk.manifests[m].Manifest? && sys.script == []
    requires JustStaged(sys.disk, BindingOf(m, sys.disk.manifests[m]))
    requires HasArtifact(sys.db, sys.disk.manifests[m].item)
    ensures var sys' := Next(sys, SweepManifest(m, true));
            sys'.disk == Referenced(sys.disk, BindingOf(m, sys.disk.manifests[m])) && sys'.db == sys.db
  {
    MarkOfJustStaged(sys.disk, BindingOf(m, sys.disk.manifests[m]));
  }

  lemma MarkOfJustStaged(d: Disk, s: StagedObject)
    requires JustStaged(d, s)
    ensures MarkRun(d, s, []) == Run(Referenced(d, s), Done, [])
  {
    RunOfThree(d, LinkReferenced(s.key), UnlinkStaged(s.key), UnlinkManifest(s.manifestId), []);
    RunOfTwo(Apply(d, LinkReferenced(s.key)), UnlinkStaged(s.key), UnlinkManifest(s.manifestId), []);
  }

  // ---------------------------------------------------------------------
  // Exactly when the janitor adopts an object that nothing names

  ghost predicate Unnamed(db: Db, k: Id) {
    forall c :: c in db.artifacts ==> db.artifacts[c].key != k
  }

  /** Which key a mark adds to `referenced/`, exactly. */
  lemma MarkLinks(d: Disk, s: StagedObject, script: Script)
    requires s.manifestId in d.manifests && d.manifests[s.manifestId] == ManifestOf(s, PhaseStaged)
    requires s.key in d.staged || s.key in d.referenced
    ensures MarkPlan(d, s).Planned? ==>
              var r := RunPlan(d, MarkPlan(d, s).plan, script);
              forall k :: k in r.disk.referenced && k !in d.referenced <==>
                k == s.key && s.key in d.staged && s.key !in d.referenced && TakesEffect(FirstFate(script))
  {
    var link, unstage, unbind := LinkReferenced(s.key), UnlinkStaged(s.key), UnlinkManifest(s.manifestId);
    hide RunPlan;
    if s.key !in d.staged {
      RunOfTwo(d, unbind, unbind, script);
    } else if s.key in d.referenced {
      RunOfTwo(d, unstage, unbind, script);
    } else {
      var linked := RunStep(d, link, script);
      RunOfThree(d, link, unstage, unbind, script);
      RunOfTwo(linked.disk, unstage, unbind, linked.script);
    }
  }

  /** A discard adds none. */
  lemma DiscardLinksNothing(d: Disk, s: StagedObject, script: Script)
    ensures RunPlan(d, [UnlinkStaged(s.key), UnlinkManifest(s.manifestId)], script).disk.referenced == d.referenced
  {
    RunOfTwo(d, UnlinkStaged(s.key), UnlinkManifest(s.manifestId), script);
  }

  /** Which key a sweep of one manifest adds to `referenced/`, exactly. */
  lemma SweepOneLinks(d: Disk, m: Id, answer: Answer, script: Script)
    requires m in d.manifests && d.manifests[m].Manifest?
    ensures var r := SweepOne(d, m, answer, script).0;
            var key := d.manifests[m].key;
            forall k :: k in r.disk.referenced && k !in d.referenced <==>
              && k == key && answer == IsReferenced && d.manifests[m].phase == PhaseStaged
              && key in d.staged && key !in d.referenced && TakesEffect(FirstFate(script))
  {
    var s := BindingOf(m, d.manifests[m]);
    DiscardLinksNothing(d, s, script);
    if d.manifests[m].phase == PhaseStaged && (s.key in d.staged || s.key in d.referenced) {
      MarkLinks(d, s, script);
    }
    hide RunPlan;
  }

  /** The janitor moves an object that no artifact row names into `referenced/` exactly when its
      published manifest names an item that has an artifact, another object being the artifact's. */
  lemma UnnamedAdoptionExactly(sys: System, m: Id, answered: bool)
    requires Safe(sys) && m in sys.disk.manifests
    ensures var sys' := Next(sys, SweepManifest(m, answered));
            var manifest := sys.disk.manifests[m];
            (exists k :: k in sys'.disk.referenced && k !in sys.disk.referenced && Unnamed(sys'.db, k))
            <==> && answered && manifest.phase == PhaseStaged && HasArtifact(sys.db, manifest.item)
                 && manifest.key in sys.disk.staged && manifest.key !in sys.disk.referenced
                 && TakesEffect(FirstFate(sys.script)) && Unnamed(sys.db, manifest.key)
  {
    assert ReadsAsStaged(sys.disk, sys.origin, m);
    var answer := if answered then Checker(sys.db, sys.disk.manifests[m].item) else NoAnswer;
    SweepOneLinks(sys.disk, m, answer, sys.script);
    var sys' := Next(sys, SweepManifest(m, answered));
    hide SweepOne, Safe;
    var key := sys.disk.manifests[m].key;
    assert sys'.db == sys.db;
    if key in sys'.disk.referenced && key !in sys.disk.referenced && Unnamed(sys'.db, key) {
      assert exists k :: k in sys'.disk.referenced && k !in sys.disk.referenced && Unnamed(sys'.db, k);
    }
  }

  // ---------------------------------------------------------------------
  // An honest outcome that the fresh assert rejects

  /** Two reservations of one owner bring the same bytes; the second one's attempt is repeated under
      the same lease. The first repetition finds the artifact and follows it. What `finalize` then
      tells the second repetition is right, and the fresh assert rejects it. */
  lemma FreshAssertRejectsAnHonestOutcome(bytes: Bytes)
    ensures var reserved := Next(OneStaged([], bytes), Reserve(2, 11, 100));
            var once := Next(reserved, StageObject(5, 2, 21, 31, bytes));
            var twice := Next(once, StageObject(6, 2, 22, 32, bytes));
            var sys := Next(Next(twice, CommitFinalize(0)), CommitFinalize(5));
            var s := StagedObject(11, 2, 22, 32);
            && 6 in sys.attempts && sys.attempts[6] == AtStaged(s, bytes)
            && Finalize(sys.db, s, bytes).FinalizeOk?
            && !FreshOutcomeOk(Finalize(sys.db, s, bytes).outcome, s)
  {
    var start := OneStaged([], bytes);
    hide Safe;
    var reserved := Next(start, Reserve(2, 11, 100));
    assert reserved.db.reservations
        == map[1 := Reservation(10, 100, Active, None, None), 2 := Reservation(11, 100, Active, None, None)];
    assert reserved.attempts == start.attempts && reserved.disk == start.disk && reserved.script == []
           && reserved.origin == start.origin && reserved.usedManifests == start.usedManifests
           && reserved.db.artifacts == map[];
    hide OneStaged, StageEvent, Next;
    StagedNext(reserved, 5, 2, 21, 31, bytes);
    var once := Next(reserved, StageObject(5, 2, 21, 31, bytes));
    StagedNext(once, 6, 2, 22, 32, bytes);
    TwoCommits(Next(once, StageObject(6, 2, 22, 32, bytes)), bytes);
  }

  /** A stage that nothing disturbs, as the rest of the system sees it. */
  lemma StagedNext(sys: System, aid: Id, rid: Id, key: Id, m: Id, bytes: Bytes)
    requires sys.script == [] && rid in sys.db.reservations && aid !in sys.attempts
    requires key !in sys.origin && m !in sys.usedManifests
    ensures var s := StagedObject(sys.db.reservations[rid].item, rid, key, m);
            var sys' := Next(sys, StageObject(aid, rid, key, m, bytes));
            && sys'.script == [] && sys'.db == sys.db
            && sys'.attempts == sys.attempts[aid := AtStaged(s, bytes)]
            && sys'.origin == sys.origin[key := Origin(s, bytes)]
            && sys'.usedManifests == sys.usedManifests[m := key]
  {
    StageSucceeds(sys.disk, StagedObject(sys.db.reservations[rid].item, rid, key, m), bytes, []);
    hide StageRun;
  }

  lemma TwoCommits(sys: System, bytes: Bytes)
    requires sys.script == [] && sys.db.artifacts == map[]
    requires sys.db.reservations
          == map[1 := Reservation(10, 100, Active, None, None), 2 := Reservation(11, 100, Active, None, None)]
    requires 0 in sys.attempts && sys.attempts[0] == AtStaged(StagedObject(10, 1, 20, 30), bytes)
    requires 5 in sys.attempts && sys.attempts[5] == AtStaged(StagedObject(11, 2, 21, 31), bytes)
    requires 6 in sys.attempts && sys.attempts[6] == AtStaged(StagedObject(11, 2, 22, 32), bytes)
    ensures var sys' := Next(Next(sys, CommitFinalize(0)), CommitFinalize(5));
            var s := StagedObject(11, 2, 22, 32);
            && 6 in sys'.attempts && sys'.attempts[6] == AtStaged(s, bytes)
            && Finalize(sys'.db, s, bytes).FinalizeOk?
            && !FreshOutcomeOk(Finalize(sys'.db, s, bytes).outcome, s)
  {
    var first := Next(sys, CommitFinalize(0));
    var content := Content(100, bytes);
    assert first.db.artifacts == map[content := Artifact(10, 20, 30, 1, false)];
    assert first.db.reservations[2] == Reservation(11, 100, Active, None, None);
    var second := Next(first, CommitFinalize(5));
    assert second.db.reservations[2].facts == Some(Facts(21, 31, content, AbortIt, 10));
    assert second.db.reservations[2].status == PendingReference;
  }
}

/** Safety of the media commit protocol over every run: what the database shows is in the store. */
module MediaCommitSafety {
  import opened Basics
  import opened MediaObjectStore
  import opened MediaCommit
  import opened MediaStoreProperties

  /** Every file is what was staged under its key, and every staged object has its manifest. */
  ghost predicate StoreInv(d: Disk, origin: map<Id, Origin>, used: map<Id, Id>) {
    && (forall k :: k in origin ==>
          && origin[k].binding.key == k
          && origin[k].binding.manifestId in used && used[origin[k].binding.manifestId] == k)
    && (forall m :: m in d.manifests ==> m in used && ReadsAsStaged(d, origin, m))
    && (forall k :: k in d.staged ==> HasManifest(d, origin, k) && d.staged[k] == origin[k].bytes)
    && (forall k :: k in d.referenced ==> k in origin && d.referenced[k] == origin[k].bytes)
    && (forall k :: k in d.referenced && HasManifest(d, origin, k) ==>
          d.manifests[origin[k].binding.manifestId].phase == PhaseStaged)
  }

  ghost predicate ReadsAsStaged(d: Disk, origin: map<Id, Origin>, m: Id) {
    && m in d.manifests && d.manifests[m].Manifest?
    && d.manifests[m].key in origin
    && origin[d.manifests[m].key].binding == BindingOf(m, d.manifests[m])
  }

  ghost predicate HasManifest(d: Disk, origin: map<Id, Origin>, k: Id) {
    && k in origin
    && origin[k].binding.manifestId in d.manifests
    && Names(d, origin[k].binding.manifestId, k)
  }

  /** An artifact row is about an object that was staged with its bytes, and its creating
      reservation says so too. */
  ghost predicate ArtifactInv(db: Db, origin: map<Id, Origin>, c: Content)
    requires c in db.artifacts
  {
    var a := db.artifacts[c];
    && a.key in origin
    && origin[a.key] == Origin(StagedObject(a.item, a.creator, a.key, a.manifestId), c.bytes)
    && a.creator in db.reservations
    && var r := db.reservations[a.creator];
       && r.item == a.item
       && r.facts == Some(Facts(a.key, a.manifestId, c, MarkIt, a.item))
       && (r.status == PendingReference || r.status == Completed)
       && (a.referenced <==> r.status == Completed)
  }

  ghost predicate ReservationInv(db: Db, rid: Id)
    requires rid in db.reservations
  {
    var r := db.reservations[rid];
    if r.status == PendingReference || r.status == Completed then
      && r.facts.Some?
      && var f := r.facts.value;
         && f.canonical in db.artifacts && f.canonical.owner == r.owner
         && f.resultItem == db.artifacts[f.canonical].item
         && (f.intent == MarkIt || f.intent == AbortIt)
         && (f.intent == MarkIt <==> db.artifacts[f.canonical].creator == rid)
         && (r.status == PendingReference ==> r.completion.None?)
         && (r.status == Completed ==>
               && db.artifacts[f.canonical].referenced
               && r.completion.Some?
               && (r.completion == Some(Adopted) <==> f.intent == MarkIt))
    else r.facts.None? && r.completion.None?
  }

  ghost predicate DbInv(db: Db, origin: map<Id, Origin>) {
    && (forall c :: c in db.artifacts ==> ArtifactInv(db, origin, c))
    && (forall r :: r in db.reservations ==> ReservationInv(db, r))
    && (forall r, q :: r in db.reservations && q in db.reservations && r != q ==>
          db.reservations[r].item != db.reservations[q].item)
  }

  /** The database is never ahead of the store. */
  ghost predicate MarkedInv(d: Disk, db: Db) {
    forall c :: c in db.artifacts && db.artifacts[c].referenced ==> db.artifacts[c].key in d.referenced
  }

  ghost predicate AttemptInv(sys: System, aid: Id)
    requires aid in sys.attempts
  {
    match sys.attempts[aid]
    case AtStaged(s, bytes) =>
      && s.key in sys.origin && sys.origin[s.key] == Origin(s, bytes)
      && s.reservation in sys.db.reservations
      && sys.db.reservations[s.reservation].item == s.item
    case AtCommitted(s, o) =>
      && s.key in sys.origin && sys.origin[s.key].binding == s
      && (o.intent.action == MarkIt ==> HasArtifact(sys.db, o.intent.staged.item))
    case AtReplay(o) => o.intent.action == MarkIt ==> HasArtifact(sys.db, o.intent.staged.item)
  }

  /** Nothing is in `referenced/` for an item the database knows no artifact of. */
  ghost predicate NoStrayReference(sys: System) {
    forall k :: k in sys.disk.referenced ==>
      k in sys.origin && HasArtifact(sys.db, sys.origin[k].binding.item)
  }

  ghost predicate Safe(sys: System) {
    && StoreInv(sys.disk, sys.origin, sys.usedManifests)
    && DbInv(sys.db, sys.origin)
    && MarkedInv(sys.disk, sys.db)
    && (forall aid :: aid in sys.attempts ==> AttemptInv(sys, aid))
    && NoStrayReference(sys)
  }

  // ---------------------------------------------------------------------
  // File operations

  /** Everything `stage` can leave behind, whatever its steps meet. */
  ghost predicate StageLeaves(d: Disk, s: StagedObject, bytes: Bytes, d': Disk) {
    && d'.referenced == d.referenced
    && ( || (d'.manifests == d.manifests && d'.staged == d.staged)
         || (d'.manifests == d.manifests[s.manifestId := ManifestOf(s, ManifestOnly)]
             && (d'.staged == d.staged || d'.staged == d.staged[s.key := bytes]))
         || (d'.manifests == d.manifests[s.manifestId := ManifestOf(s, PhaseStaged)]
             && d'.staged == d.staged[s.key := bytes]) )
  }

  lemma StagePrefixLeaves(d: Disk, s: StagedObject, bytes: Bytes, k: nat)
    requires k <= 6
    ensures StageLeaves(d, s, bytes, ApplyAll(d, StagePlan(s, bytes)[..k]))
    ensures k == 6 ==> ApplyAll(d, StagePlan(s, bytes)[..k]).staged == d.staged[s.key := bytes]
    ensures k == 6 ==> ApplyAll(d, StagePlan(s, bytes)[..k]).manifests
                       == d.manifests[s.manifestId := ManifestOf(s, PhaseStaged)]
  {
    var p := StagePlan(s, bytes);
    assert p[..0] == [] && p[..1] == [p[0]] && p[..2] == [p[0], p[1]] && p[..3] == [p[0], p[1], p[2]];
    assert p[..4] == [p[0], p[1], p[2]] + [p[3]];
    assert p[..5] == [p[0], p[1], p[2]] + [p[3], p[4]];
    assert p[..6] == [p[0], p[1], p[2]] + [p[3], p[4], p[5]];
    var d3 := ApplyAll(d, [p[0], p[1], p[2]]);
    ApplyFew(d, p[0], p[1], p[2]);
    ApplyFew(d3, p[3], p[4], p[5]);
    ApplyAllSplits(d, [p[0], p[1], p[2]], [p[3]]);
    ApplyAllSplits(d, [p[0], p[1], p[2]], [p[3], p[4]]);
    ApplyAllSplits(d, [p[0], p[1], p[2]], [p[3], p[4], p[5]]);
  }

  lemma StageRunLeaves(d: Disk, s: StagedObject, bytes: Bytes, script: Script)
    requires s.key !in d.staged
    ensures var r := StageRun(d, s, bytes, script);
            && StageLeaves(d, s, bytes, r.disk)
            && (r.ending.Done? ==>
                  && s.key in r.disk.staged
                  && s.manifestId in r.disk.manifests
                  && r.disk.manifests[s.manifestId] == ManifestOf(s, PhaseStaged))
  {
    var plan := StagePlan(s, bytes);
    var r := RunPlan(d, plan, script);
    RunStopsAfterPrefix(d, plan, script);
    StagePrefixLeaves(d, s, bytes, Reached(plan, script));
    if r.ending.Raised? {
      CleanupLeaves(r.disk, s, r.script);
    }
    hide RunPlan, StagePlan, ApplyAll, Reached, StageCleanupPlan;
  }

  /** The handler of a failed stage removes temporary files only, once its manifest exists. */
  lemma CleanupLeaves(d: Disk, s: StagedObject, script: Script)
    requires s.key in d.staged ==> s.manifestId in d.manifests
    ensures var c := RunPlan(d, StageCleanupPlan(d, s), script);
            c.disk.manifests == d.manifests && c.disk.staged == d.staged && c.disk.referenced == d.referenced
  {
    var cleanup := StageCleanupPlan(d, s);
    assert cleanup == [UnlinkObjectPart(s.key), UnlinkManifestPart(s.manifestId)];
    RunStopsAfterPrefix(d, cleanup, script);
    var k := Reached(cleanup, script);
    assert cleanup[..0] == [] && cleanup[..1] == [cleanup[0]] && cleanup[..2] == cleanup;
    ApplyFew(d, cleanup[0], cleanup[1], cleanup[1]);
  }

  lemma StagePreserves(d: Disk, origin: map<Id, Origin>, used: map<Id, Id>, s: StagedObject,
                       bytes: Bytes, d': Disk)
    requires StoreInv(d, origin, used) && s.key !in origin && s.manifestId !in used
    requires StageLeaves(d, s, bytes, d')
    ensures StoreInv(d', origin[s.key := Origin(s, bytes)], used[s.manifestId := s.key])
  {
    var origin' := origin[s.key := Origin(s, bytes)];
    forall m | m in d'.manifests ensures ReadsAsStaged(d', origin', m) {
      if m != s.manifestId {
        assert ReadsAsStaged(d, origin, m);
      }
    }
    forall k | k in d'.staged ensures HasManifest(d', origin', k) && d'.staged[k] == origin'[k].bytes {
      if k != s.key {
        assert HasManifest(d, origin, k);
      }
    }
  }

  /** Everything a mark, an abort or the discarding of a half-published object can leave. */
  datatype Moves = Moves(linked: bool, unlinked: bool, unbound: bool)

  ghost predicate MoveLeaves(d: Disk, s: StagedObject, v: Moves, d': Disk) {
    && d'.referenced == (if v.linked && s.key in d.staged && s.key !in d.referenced
                         then d.referenced[s.key := d.staged[s.key]] else d.referenced)
    && d'.staged == (if v.unlinked then d.staged - {s.key} else d.staged)
    && d'.manifests == (if v.unbound then d.manifests - {s.manifestId} else d.manifests)
    && (v.unbound ==> s.key !in d'.staged)
  }

  lemma MovePreserves(d: Disk, origin: map<Id, Origin>, used: map<Id, Id>, s: StagedObject, v: Moves,
                      d': Disk)
    requires StoreInv(d, origin, used) && MoveLeaves(d, s, v, d')
    requires v.linked || v.unbound ==>
               s.manifestId in d.manifests && BindingOfKnown(d, s.manifestId) == s
    requires v.linked ==> d.manifests[s.manifestId].phase == PhaseStaged
    ensures StoreInv(d', origin, used)
    ensures forall k :: k in d.referenced ==> k in d'.referenced && d'.referenced[k] == d.referenced[k]
  {
    if v.linked || v.unbound {
      assert ReadsAsStaged(d, origin, s.manifestId);
    }
    forall m | m in d'.manifests ensures ReadsAsStaged(d', origin, m) {
      assert ReadsAsStaged(d, origin, m);
    }
    forall k | k in d'.staged ensures HasManifest(d', origin, k) {
      assert HasManifest(d, origin, k);
    }
    forall k | k in d'.referenced && HasManifest(d', origin, k)
      ensures d'.manifests[origin[k].binding.manifestId].phase == PhaseStaged {
      assert HasManifest(d, origin, k);
    }
  }

  ghost function BindingOfKnown(d: Disk, m: Id): StagedObject
    requires m in d.manifests
  {
    if d.manifests[m].Manifest? then BindingOf(m, d.manifests[m]) else StagedObject(0, 0, 0, 0)
  }

  lemma LinkThenDiscardLeaves(d: Disk, s: StagedObject, k: nat)
    requires k <= 3 && s.key in d.staged && s.key !in d.referenced
    ensures var plan := [LinkReferenced(s.key), UnlinkStaged(s.key), UnlinkManifest(s.manifestId)];
            var d' := ApplyAll(d, plan[..k]);
            MoveLeaves(d, s, Moves(k >= 1, k >= 2, k == 3), d') && (k >= 1 ==> s.key in d'.referenced)
  {
    var plan := [LinkReferenced(s.key), UnlinkStaged(s.key), UnlinkManifest(s.manifestId)];
    assert plan[..0] == [] && plan[..1] == [plan[0]] && plan[..2] == [plan[0], plan[1]] && plan[..3] == plan;
    ApplyFew(d, plan[0], plan[1], plan[2]);
  }

  lemma DiscardLeaves(d: Disk, s: StagedObject, k: nat)
    requires k <= 2
    ensures MoveLeaves(d, s, Moves(false, k >= 1, k == 2), ApplyAll(d, [UnlinkStaged(s.key), UnlinkManifest(s.manifestId)][..k]))
  {
    var plan := [UnlinkStaged(s.key), UnlinkManifest(s.manifestId)];
    assert plan[..0] == [] && plan[..1] == [plan[0]] && plan[..2] == plan;
    ApplyFew(d, plan[0], plan[1], plan[1]);
  }

  lemma OneStepLeaves(d: Disk, step: FileStep, k: nat)
    requires k <= 1
    ensures ApplyAll(d, [step][..k]) == if k == 1 then Apply(d, step) else d
  {
    assert [step][..0] == [] && [step][..1] == [step];
    ApplyFew(d, step, step, step);
  }

  lemma MarkRunLeaves(d: Disk, s: StagedObject, script: Script) returns (v: Moves)
    ensures var r := MarkRun(d, s, script);
            && MoveLeaves(d, s, v, r.disk)
            && (v.linked || v.unbound ==>
                  s.manifestId in d.manifests && d.manifests[s.manifestId] == ManifestOf(s, PhaseStaged))
            && (v.unlinked ==> s.key in r.disk.referenced)
            && (v.linked ==> s.key in d.staged && s.key !in d.referenced)
            && (r.ending.Done? ==> s.key in r.disk.referenced)
  {
    match MarkPlan(d, s) {
      case Refused(_) => v := Moves(false, false, false);
      case Planned(plan) =>
        RunStopsAfterPrefix(d, plan, script);
        hide RunPlan, ApplyAll, Reached, MoveLeaves;
        var k := Reached(plan, script);
        if plan == [] {
          v := Moves(false, false, false);
          NothingLeaves(d, s, script);
        } else if |plan| == 1 {
          OneStepLeaves(d, plan[0], k);
          v := if plan[0].UnlinkStaged? then Moves(false, k == 1, false) else Moves(false, false, k == 1);
          OneStepMoves(d, s, plan[0], k);
        } else if |plan| == 2 {
          DiscardLeaves(d, s, k);
          v := Moves(false, k >= 1, k == 2);
          DiscardKeepsReferences(d, s, k);
        } else {
          LinkThenDiscardLeaves(d, s, k);
          v := Moves(k >= 1, k >= 2, k == 3);
        }
    }
  }

  lemma NothingLeaves(d: Disk, s: StagedObject, script: Script)
    ensures RunPlan(d, [], script).disk == d && MoveLeaves(d, s, Moves(false, false, false), d)
  {
  }

  lemma OneStepMoves(d: Disk, s: StagedObject, step: FileStep, k: nat)
    requires k <= 1
    ensures step == UnlinkStaged(s.key) ==>
              MoveLeaves(d, s, Moves(false, k == 1, false), if k == 1 then Apply(d, step) else d)
    ensures step == UnlinkManifest(s.manifestId) && s.key !in d.staged ==>
              MoveLeaves(d, s, Moves(false, false, k == 1), if k == 1 then Apply(d, step) else d)
    ensures step.UnlinkStaged? || step.UnlinkManifest? ==> Apply(d, step).referenced == d.referenced
  {
  }

  lemma DiscardKeepsReferences(d: Disk, s: StagedObject, k: nat)
    requires k <= 2
    ensures ApplyAll(d, [UnlinkStaged(s.key), UnlinkManifest(s.manifestId)][..k]).referenced == d.referenced
  {
    DiscardLeaves(d, s, k);
    hide ApplyAll;
  }

  lemma AbortRunLeaves(d: Disk, s: StagedObject, script: Script) returns (v: Moves)
    ensures var r := AbortRun(d, s, script);
            && MoveLeaves(d, s, v, r.disk) && !v.linked
            && (v.unlinked || v.unbound ==>
                  && s.manifestId in d.manifests && d.manifests[s.manifestId] == ManifestOf(s, PhaseStaged)
                  && s.key !in d.referenced)
  {
    match AbortPlan(d, s) {
      case Refused(_) => v := Moves(false, false, false);
      case Planned(plan) =>
        RunStopsAfterPrefix(d, plan, script);
        hide RunPlan, ApplyAll, Reached, MoveLeaves;
        if plan == [] {
          v := Moves(false, false, false);
          NothingLeaves(d, s, script);
        } else {
          var k := Reached(plan, script);
          DiscardLeaves(d, s, k);
          v := Moves(false, k >= 1, k == 2);
        }
    }
  }

  lemma SweepOneLeaves(d: Disk, m: Id, answer: Answer, script: Script) returns (v: Moves)
    requires m in d.manifests && d.manifests[m].Manifest?
    ensures var s := BindingOf(m, d.manifests[m]);
            var r := SweepOne(d, m, answer, script).0;
            && MoveLeaves(d, s, v, r.disk)
            && (v.linked ==> answer == IsReferenced && d.manifests[m].phase == PhaseStaged)
            && (v.linked ==> s.key in d.staged && s.key !in d.referenced)
            && (answer != NotReferenced && v.unlinked ==> s.key in r.disk.referenced)
            && (answer == NotReferenced && (v.unlinked || v.unbound) ==> s.key !in d.referenced)
  {
    var s := BindingOf(m, d.manifests[m]);
    v := Moves(false, false, false);
    match SweepPlan(d, m, answer) {
      case None =>
      case Some(plan) =>
        if answer == IsReferenced {
          v := MarkRunLeaves(d, s, script);
        } else if d.manifests[m].phase == PhaseStaged {
          v := AbortRunLeaves(d, s, script);
        } else {
          RunStopsAfterPrefix(d, plan, script);
          var k := Reached(plan, script);
          DiscardLeaves(d, s, k);
          v := Moves(false, k >= 1, k == 2);
        }
    }
  }

  // ---------------------------------------------------------------------
  // Transactions

  /** Artifacts are only added, and only ever become referenced. */
  ghost predicate ArtifactsGrow(db: Db, db': Db) {
    forall c :: c in db.artifacts ==>
      && c in db'.artifacts
      && db'.artifacts[c] == db.artifacts[c].(referenced := db'.artifacts[c].referenced)
      && (db.artifacts[c].referenced ==> db'.artifacts[c].referenced)
  }

  ghost predicate ReservationsKept(db: Db, db': Db) {
    forall r :: r in db.reservations ==>
      && r in db'.reservations && db'.reservations[r].item == db.reservations[r].item
      && (db.reservations[r].facts.Some? ==> db'.reservations[r].facts == db.reservations[r].facts)
      && (Visible(db, r) ==> Visible(db', r))
  }

  lemma ReplayKeeps(db: Db, origin: map<Id, Origin>, rid: Id)
    requires DbInv(db, origin)
    ensures var (db', found) := ReplayReservation(db, rid);
            && DbInv(db', origin) && ReservationsKept(db, db')
            && db'.artifacts == db.artifacts
            && (found.Some? && found.value.intent.action == MarkIt ==>
                  HasArtifact(db', found.value.intent.staged.item))
  {
    var (db', found) := ReplayReservation(db, rid);
    if rid in db.reservations && db.reservations[rid].facts.Some? {
      var c := db.reservations[rid].facts.value.canonical;
      assert ReservationInv(db, rid);
      if c in db.artifacts {
        assert ArtifactInv(db, origin, c);
      }
    }
    forall a | a in db'.artifacts ensures ArtifactInv(db', origin, a) {
      assert ArtifactInv(db, origin, a);
    }
    forall r | r in db'.reservations ensures ReservationInv(db', r) {
      assert ReservationInv(db, r);
    }
  }

  lemma FinalizeKeeps(db: Db, origin: map<Id, Origin>, s: StagedObject, bytes: Bytes)
    requires DbInv(db, origin) && s.key in origin && origin[s.key] == Origin(s, bytes)
    requires Finalize(db, s, bytes).FinalizeOk?
    ensures var f := Finalize(db, s, bytes);
            && DbInv(f.db, origin) && ReservationsKept(db, f.db) && ArtifactsGrow(db, f.db)
            && (forall c :: c in f.db.artifacts && f.db.artifacts[c].referenced ==>
                  c in db.artifacts && db.artifacts[c].referenced)
            && (f.outcome.intent.action == MarkIt ==>
                  HasArtifact(f.db, f.outcome.intent.staged.item))
  {
    var rid := s.reservation;
    var r := db.reservations[rid];
    assert ReservationInv(db, rid);
    ReplayKeeps(db, origin, rid);
    if r.status == Active {
      FinalizeActiveKeeps(db, origin, s, bytes);
    }
  }

  lemma FinalizeActiveKeeps(db: Db, origin: map<Id, Origin>, s: StagedObject, bytes: Bytes)
    requires DbInv(db, origin) && s.key in origin && origin[s.key] == Origin(s, bytes)
    requires s.reservation in db.reservations && db.reservations[s.reservation].item == s.item
    requires db.reservations[s.reservation].status == Active
    ensures var f := FinalizeActive(db, s, Content(db.reservations[s.reservation].owner, bytes));
            && f.FinalizeOk?
            && DbInv(f.db, origin) && ReservationsKept(db, f.db) && ArtifactsGrow(db, f.db)
            && (forall c :: c in f.db.artifacts && f.db.artifacts[c].referenced ==>
                  c in db.artifacts && db.artifacts[c].referenced)
            && (f.outcome.intent.action == MarkIt ==>
                  HasArtifact(f.db, f.outcome.intent.staged.item))
  {
    var rid := s.reservation;
    var content := Content(db.reservations[rid].owner, bytes);
    var f := FinalizeActive(db, s, content);
    assert db.reservations[rid].facts.None? by { assert ReservationInv(db, rid); }
    FinalizedFrame(db, s, content);
    hide ArtifactInv, ReservationInv;
    FinalizedArtifacts(db, origin, s, bytes, f.db);
    FinalizedReservations(db, origin, s, bytes, f.db);
    hide FinalizeActive;
    if f.outcome.intent.action == MarkIt {
      assert HasArtifact(f.db, s.item);
    }
  }

  lemma FinalizedFrame(db: Db, s: StagedObject, content: Content)
    requires s.reservation in db.reservations && db.reservations[s.reservation].facts.None?
    requires db.reservations[s.reservation].status == Active
    requires db.reservations[s.reservation].item == s.item
    ensures var f := FinalizeActive(db, s, content);
            && f.FinalizeOk?
            && f.db.reservations.Keys == db.reservations.Keys
            && ReservationsKept(db, f.db) && ArtifactsGrow(db, f.db)
            && (forall c :: c in f.db.artifacts && f.db.artifacts[c].referenced ==>
                  c in db.artifacts && db.artifacts[c].referenced)
            && (f.outcome.intent.action == MarkIt ==>
                  && f.outcome.intent.staged.item == s.item
                  && content in f.db.artifacts && f.db.artifacts[content].item == s.item)
  {
  }

  lemma FinalizedArtifacts(db: Db, origin: map<Id, Origin>, s: StagedObject, bytes: Bytes, db': Db)
    requires DbInv(db, origin) && s.key in origin && origin[s.key] == Origin(s, bytes)
    requires s.reservation in db.reservations && db.reservations[s.reservation].item == s.item
    requires db.reservations[s.reservation].status == Active
    requires db' == FinalizeActive(db, s, Content(db.reservations[s.reservation].owner, bytes)).db
    ensures forall c :: c in db'.artifacts ==> ArtifactInv(db', origin, c)
  {
    forall c | c in db'.artifacts ensures ArtifactInv(db', origin, c) {
      if c in db.artifacts {
        assert ArtifactInv(db, origin, c);
      }
    }
  }

  lemma FinalizedReservations(db: Db, origin: map<Id, Origin>, s: StagedObject, bytes: Bytes, db': Db)
    requires DbInv(db, origin)
    requires s.reservation in db.reservations && db.reservations[s.reservation].item == s.item
    requires db.reservations[s.reservation].status == Active
    requires db' == FinalizeActive(db, s, Content(db.reservations[s.reservation].owner, bytes)).db
    ensures forall r :: r in db'.reservations ==> ReservationInv(db', r)
  {
    var content := Content(db.reservations[s.reservation].owner, bytes);
    if content in db.artifacts {
      assert ArtifactInv(db, origin, content);
    }
    forall r | r in db'.reservations ensures ReservationInv(db', r) {
      assert ReservationInv(db, r);
    }
  }

  lemma ConfirmKeeps(db: Db, origin: map<Id, Origin>, staged: StagedObject)
    requires DbInv(db, origin) && Confirm(db, staged).Some?
    ensures var db' := Confirm(db, staged).value;
            && DbInv(db', origin) && ReservationsKept(db, db') && ArtifactsGrow(db, db')
            && (forall c :: c in db'.artifacts && db'.artifacts[c].referenced ==>
                  (c in db.artifacts && db.artifacts[c].referenced)
                  || db'.artifacts[c].key == staged.key)
  {
    var db' := Confirm(db, staged).value;
    var rid := staged.reservation;
    assert ReservationInv(db, rid);
    if db.reservations[rid].status == PendingReference {
      var canonical := db.reservations[rid].facts.value.canonical;
      assert ArtifactInv(db, origin, canonical);
      hide ArtifactInv, ReservationInv, ArtifactsGrow, ReservationsKept, DbInv;
      ConfirmedArtifacts(db, origin, staged);
      ConfirmedReservations(db, origin, staged);
      ConfirmedItems(db, origin, staged);
      ConfirmedGrows(db, staged);
    }
  }

  lemma ConfirmedItems(db: Db, origin: map<Id, Origin>, staged: StagedObject)
    requires DbInv(db, origin) && Confirm(db, staged).Some?
    requires var db' := Confirm(db, staged).value;
             && (forall c :: c in db'.artifacts ==> ArtifactInv(db', origin, c))
             && (forall r :: r in db'.reservations ==> ReservationInv(db', r))
    ensures DbInv(Confirm(db, staged).value, origin)
  {
    var db' := Confirm(db, staged).value;
    hide ArtifactInv, ReservationInv;
    assert db'.reservations.Keys == db.reservations.Keys;
    assert forall r :: r in db.reservations ==> db'.reservations[r].item == db.reservations[r].item;
  }

  lemma ConfirmedGrows(db: Db, staged: StagedObject)
    requires Confirm(db, staged).Some?
    requires db.reservations[staged.reservation].facts.value.canonical in db.artifacts
    requires db.artifacts[db.reservations[staged.reservation].facts.value.canonical].key == staged.key
    requires db.reservations[staged.reservation].status == PendingReference
    ensures var db' := Confirm(db, staged).value;
            && ReservationsKept(db, db') && ArtifactsGrow(db, db')
            && (forall c :: c in db'.artifacts && db'.artifacts[c].referenced ==>
                  (c in db.artifacts && db.artifacts[c].referenced)
                  || db'.artifacts[c].key == staged.key)
  {
  }

  lemma ConfirmedArtifacts(db: Db, origin: map<Id, Origin>, staged: StagedObject)
    requires DbInv(db, origin) && Confirm(db, staged).Some?
    ensures var db' := Confirm(db, staged).value; forall c :: c in db'.artifacts ==> ArtifactInv(db', origin, c)
  {
    var db' := Confirm(db, staged).value;
    assert ReservationInv(db, staged.reservation);
    forall c | c in db'.artifacts ensures ArtifactInv(db', origin, c) {
      assert ArtifactInv(db, origin, c);
    }
    hide DbInv;
  }

  lemma ConfirmedReservations(db: Db, origin: map<Id, Origin>, staged: StagedObject)
    requires DbInv(db, origin) && Confirm(db, staged).Some?
    ensures var db' := Confirm(db, staged).value; forall r :: r in db'.reservations ==> ReservationInv(db', r)
  {
    var db' := Confirm(db, staged).value;
    assert ReservationInv(db, staged.reservation);
    assert ArtifactInv(db, origin, db.reservations[staged.reservation].facts.value.canonical);
    forall r | r in db'.reservations ensures ReservationInv(db', r) {
      assert ReservationInv(db, r);
    }
    hide DbInv;
  }

  // ---------------------------------------------------------------------
  // Events

  /** What no event may do: lose referenced bytes, hide evidence, forget an artifact, or bring
      back an object that was once staged and is now in neither directory. */
  ghost predicate Monotone(sys: System, sys': System) {
    && (forall k :: k in sys.disk.referenced ==>
          k in sys'.disk.referenced && sys'.disk.referenced[k] == sys.disk.referenced[k])
    && ArtifactsGrow(sys.db, sys'.db) && ReservationsKept(sys.db, sys'.db)
    && (forall k :: k in sys.origin ==> k in sys'.origin && sys'.origin[k] == sys.origin[k])
    && (forall k :: k in sys.origin && k in sys'.disk.staged ==> k in sys.disk.staged)
    && (forall k :: k in sys.origin && k in sys'.disk.referenced ==>
          k in sys.disk.staged || k in sys.disk.referenced)
  }

  /** One event, or a part of one, keeps the system safe and loses nothing. */
  ghost predicate Keeps(sys: System, sys': System) {
    Safe(sys') && Monotone(sys, sys')
  }

  lemma KeepsBoth(a: System, b: System, c: System)
    requires Keeps(a, b) && Keeps(b, c)
    ensures Keeps(a, c)
  {
  }

  lemma HasArtifactGrows(db: Db, db': Db, item: Id)
    requires ArtifactsGrow(db, db') && HasArtifact(db, item)
    ensures HasArtifact(db', item)
  {
    var c :| c in db.artifacts && db.artifacts[c].item == item;
    assert c in db'.artifacts && db'.artifacts[c].item == item;
  }

  /** The attempts and the stray-reference clause survive any monotone change of the rest. */
  lemma RestSurvives(sys: System, sys': System)
    requires Safe(sys) && Monotone(sys, sys') && sys'.origin == sys.origin
    ensures forall aid :: aid in sys.attempts && aid in sys'.attempts && sys'.attempts[aid] == sys.attempts[aid]
              ==> AttemptInv(sys', aid)
    ensures forall k :: k in sys.disk.referenced ==>
              k in sys'.origin && HasArtifact(sys'.db, sys'.origin[k].binding.item)
  {
    forall aid | aid in sys.attempts && aid in sys'.attempts && sys'.attempts[aid] == sys.attempts[aid]
      ensures AttemptInv(sys', aid)
    {
      assert AttemptInv(sys, aid);
      match sys.attempts[aid] {
        case AtStaged(_, _) =>
        case AtCommitted(s, o) =>
          if o.intent.action == MarkIt { HasArtifactGrows(sys.db, sys'.db, o.intent.staged.item); }
        case AtReplay(o) =>
          if o.intent.action == MarkIt { HasArtifactGrows(sys.db, sys'.db, o.intent.staged.item); }
      }
    }
    forall k | k in sys.disk.referenced
      ensures k in sys'.origin && HasArtifact(sys'.db, sys'.origin[k].binding.item) {
      HasArtifactGrows(sys.db, sys'.db, sys.origin[k].binding.item);
    }
  }

  /** A file operation of one attempt or of the janitor: the database stands still. */
  lemma MoveKeepsSafe(sys: System, s: StagedObject, v: Moves, sys': System)
    requires Safe(sys) && MoveLeaves(sys.disk, s, v, sys'.disk)
    requires v.linked || v.unbound ==>
               s.manifestId in sys.disk.manifests && BindingOfKnown(sys.disk, s.manifestId) == s
    requires v.linked ==> && sys.disk.manifests[s.manifestId].phase == PhaseStaged
                          && HasArtifact(sys.db, s.item)
    requires sys'.db == sys.db && sys'.origin == sys.origin && sys'.usedManifests == sys.usedManifests
    requires sys'.attempts.Keys <= sys.attempts.Keys
    requires forall aid :: aid in sys'.attempts ==> sys'.attempts[aid] == sys.attempts[aid]
    ensures Keeps(sys, sys')
  {
    MovePreserves(sys.disk, sys.origin, sys.usedManifests, s, v, sys'.disk);
    RestSurvives(sys, sys');
    forall k | k in sys'.disk.referenced
      ensures k in sys'.origin && HasArtifact(sys'.db, sys'.origin[k].binding.item) {
      if k !in sys.disk.referenced {
        assert ReadsAsStaged(sys.disk, sys.origin, s.manifestId);
      }
    }
  }

  /** A transaction that keeps the database sound and marks nothing the store does not hold. */
  lemma TransactKeepsSafe(sys: System, db: Db, sys': System)
    requires Safe(sys) && DbInv(db, sys.origin)
    requires ArtifactsGrow(sys.db, db) && ReservationsKept(sys.db, db) && MarkedInv(sys.disk, db)
    requires sys'.db == sys.db || sys'.db == db
    requires sys'.disk == sys.disk && sys'.origin == sys.origin && sys'.usedManifests == sys.usedManifests
    requires sys'.attempts.Keys <= sys.attempts.Keys
    requires forall aid :: aid in sys'.attempts ==> sys'.attempts[aid] == sys.attempts[aid]
    ensures Keeps(sys, sys')
  {
    RestSurvives(sys, sys');
  }

  lemma MarkAndConfirmSafe(sys: System, staged: StagedObject)
    requires Safe(sys) && HasArtifact(sys.db, staged.item)
    ensures var sys' := MarkAndConfirm(sys, staged);
            Keeps(sys, sys') && sys'.attempts == sys.attempts
  {
    hide Safe, Monotone, Confirm, MarkRun;
    var r := MarkRun(sys.disk, staged, sys.script);
    var v := MarkRunLeaves(sys.disk, staged, sys.script);
    var after := WithRun(sys, r);
    MoveKeepsSafe(sys, staged, v, after);
    if r.ending.Done? && Confirm(after.db, staged).Some? {
      ConfirmSafe(after, staged);
      KeepsBoth(sys, after, Transact(after, Confirm(after.db, staged).value));
    }
  }

  lemma ConfirmSafe(sys: System, staged: StagedObject)
    requires Safe(sys) && staged.key in sys.disk.referenced && Confirm(sys.db, staged).Some?
    ensures var sys' := Transact(sys, Confirm(sys.db, staged).value);
            Keeps(sys, sys') && sys'.attempts == sys.attempts
  {
    hide Monotone, Confirm, StoreInv, DbInv, AttemptInv, NoStrayReference;
    ConfirmKeeps(sys.db, sys.origin, staged);
    TransactKeepsSafe(sys, Confirm(sys.db, staged).value,
                      Transact(sys, Confirm(sys.db, staged).value));
  }

  lemma EndedSafe(sys: System, aid: Id)
    requires Safe(sys)
    ensures Keeps(sys, Ended(sys, aid))
  {
    TransactKeepsSafe(sys, sys.db, Ended(sys, aid));
  }

  lemma AbortAndEndSafe(sys: System, aid: Id, s: StagedObject)
    requires Safe(sys)
    ensures var sys' := AbortAndEnd(sys, aid, s);
            Keeps(sys, sys') && sys'.db == sys.db
  {
    var v := AbortRunLeaves(sys.disk, s, sys.script);
    MoveKeepsSafe(sys, s, v, AbortAndEnd(sys, aid, s));
  }

  lemma FreshKeyIsNotStaged(sys: System, key: Id)
    requires Safe(sys)
    ensures key !in sys.origin ==> key !in sys.disk.staged
    ensures StoreInv(sys.disk, sys.origin, sys.usedManifests)
  {
  }

  lemma StageEventSafe(sys: System, aid: Id, rid: Id, key: Id, m: Id, bytes: Bytes)
    requires Safe(sys)
    ensures Keeps(sys, StageEvent(sys, aid, rid, key, m, bytes))
  {
    hide StageRun, StageLeaves, Safe, Monotone, StoreInv;
    FreshKeyIsNotStaged(sys, key);
    UnchangedKeeps(sys);
    var sys' := StageEvent(sys, aid, rid, key, m, bytes);
    if sys' != sys {
      var s := StagedObject(sys.db.reservations[rid].item, rid, key, m);
      StageRunLeaves(sys.disk, s, bytes, sys.script);
      StagePreserves(sys.disk, sys.origin, sys.usedManifests, s, bytes, sys'.disk);
      NewKeySafe(sys, sys', aid, s, bytes);
    }
  }

  /** A fresh key adds to the history and nothing else changes meaning. */
  lemma NewKeySafe(sys: System, sys': System, aid: Id, s: StagedObject, bytes: Bytes)
    requires Safe(sys) && s.key !in sys.origin && aid !in sys.attempts
    requires StageLeaves(sys.disk, s, bytes, sys'.disk)
    requires StoreInv(sys'.disk, sys'.origin, sys'.usedManifests)
    requires sys'.db == sys.db && sys'.origin == sys.origin[s.key := Origin(s, bytes)]
    requires sys'.attempts == sys.attempts || sys'.attempts == sys.attempts[aid := AtStaged(s, bytes)]
    requires s.reservation in sys.db.reservations && sys.db.reservations[s.reservation].item == s.item
    ensures Keeps(sys, sys')
  {
    hide StoreInv, StageLeaves, Monotone, AttemptInv;
    NewKeyMonotone(sys, sys', s, bytes);
    NewKeyKeepsDbInv(sys.db, sys.origin, s, bytes);
    hide DbInv;
    NewAttemptInv(sys', aid, s, bytes);
    forall b | b in sys'.attempts ensures AttemptInv(sys', b) {
      if b != aid {
        assert AttemptInv(sys, b);
        NewKeyKeepsAttempt(sys, sys', b, s, bytes);
      }
    }
    hide HasArtifact;
  }

  lemma NewAttemptInv(sys: System, aid: Id, s: StagedObject, bytes: Bytes)
    requires s.key in sys.origin && sys.origin[s.key] == Origin(s, bytes)
    requires s.reservation in sys.db.reservations && sys.db.reservations[s.reservation].item == s.item
    ensures aid in sys.attempts && sys.attempts[aid] == AtStaged(s, bytes) ==> AttemptInv(sys, aid)
  {
  }

  lemma NewKeyMonotone(sys: System, sys': System, s: StagedObject, bytes: Bytes)
    requires s.key !in sys.origin && StageLeaves(sys.disk, s, bytes, sys'.disk)
    requires sys'.db == sys.db && sys'.origin == sys.origin[s.key := Origin(s, bytes)]
    ensures Monotone(sys, sys') && sys'.disk.referenced == sys.disk.referenced
  {
  }

  lemma NewKeyKeepsAttempt(sys: System, sys': System, b: Id, s: StagedObject, bytes: Bytes)
    requires b in sys.attempts && AttemptInv(sys, b) && s.key !in sys.origin
    requires b in sys'.attempts && sys'.attempts[b] == sys.attempts[b]
    requires sys'.db == sys.db && sys'.origin == sys.origin[s.key := Origin(s, bytes)]
    ensures AttemptInv(sys', b)
  {
  }

  lemma NewKeyKeepsDbInv(db: Db, origin: map<Id, Origin>, s: StagedObject, bytes: Bytes)
    requires DbInv(db, origin) && s.key !in origin
    ensures DbInv(db, origin[s.key := Origin(s, bytes)])
  {
    forall c | c in db.artifacts ensures ArtifactInv(db, origin[s.key := Origin(s, bytes)], c) {
      assert ArtifactInv(db, origin, c);
    }
  }

  lemma CommitEventSafe(sys: System, aid: Id)
    requires Safe(sys)
    ensures Keeps(sys, CommitEvent(sys, aid))
  {
    if aid in sys.attempts && sys.attempts[aid].AtStaged? {
      var s, bytes := sys.attempts[aid].s, sys.attempts[aid].bytes;
      if Finalize(sys.db, s, bytes).FinalizeError? {
        AbortAndEndSafe(sys, aid, s);
      } else {
        FinalizeCommitSafe(sys, aid);
      }
    }
  }

  lemma FinalizedSafe(sys: System, aid: Id)
    requires Safe(sys) && aid in sys.attempts && sys.attempts[aid].AtStaged?
    requires Finalize(sys.db, sys.attempts[aid].s, sys.attempts[aid].bytes).FinalizeOk?
    ensures var s := sys.attempts[aid].s;
            var f := Finalize(sys.db, s, sys.attempts[aid].bytes);
            && Keeps(sys, Transact(sys, f.db))
            && s.key in sys.origin && sys.origin[s.key].binding == s
            && (f.outcome.intent.action == MarkIt ==> HasArtifact(f.db, f.outcome.intent.staged.item))
  {
    var s, bytes := sys.attempts[aid].s, sys.attempts[aid].bytes;
    var f := Finalize(sys.db, s, bytes);
    assert AttemptInv(sys, aid);
    FinalizeKeeps(sys.db, sys.origin, s, bytes);
    hide Finalize;
    TransactKeepsSafe(sys, f.db, Transact(sys, f.db));
    hide Keeps;
  }

  lemma FinalizeCommitSafe(sys: System, aid: Id)
    requires Safe(sys) && aid in sys.attempts && sys.attempts[aid].AtStaged?
    requires Finalize(sys.db, sys.attempts[aid].s, sys.attempts[aid].bytes).FinalizeOk?
    ensures Keeps(sys, CommitEvent(sys, aid))
  {
    hide Finalize, Keeps, Safe;
    FinalizedSafe(sys, aid);
    var s := sys.attempts[aid].s;
    var f := Finalize(sys.db, s, sys.attempts[aid].bytes);
    AfterCommitSafe(sys, aid, s, f.outcome, Transact(sys, f.db));
  }

  /** However the call that committed goes on, its attempt is in order. */
  lemma AfterCommitSafe(sys: System, aid: Id, s: StagedObject, o: Outcome, after: System)
    requires Keeps(sys, after) && s.key in after.origin && after.origin[s.key].binding == s
    requires after.attempts == sys.attempts
    requires FirstFate(sys.script) == Succeeds && o.intent.action == MarkIt ==>
               HasArtifact(after.db, o.intent.staged.item)
    ensures FirstFate(sys.script) == Succeeds ==>
              Keeps(sys, after.(attempts := sys.attempts[aid := AtCommitted(s, o)]))
    ensures Keeps(sys, Ended(after, aid)) && Keeps(sys, AbortAndEnd(after, aid, s))
  {
    if FirstFate(sys.script) == Succeeds {
      AttemptSafe(after, aid, AtCommitted(s, o));
      KeepsBoth(sys, after, after.(attempts := after.attempts[aid := AtCommitted(s, o)]));
    }
    EndedSafe(after, aid);
    KeepsBoth(sys, after, Ended(after, aid));
    AbortAndEndSafe(after, aid, s);
    KeepsBoth(sys, after, AbortAndEnd(after, aid, s));
    hide Keeps;
  }

  /** Starting or changing one attempt, the rest standing still. */
  lemma AttemptSafe(sys: System, aid: Id, attempt: Attempt)
    requires Safe(sys)
    requires AttemptInv(sys.(attempts := map[aid := attempt]), aid)
    ensures Keeps(sys, sys.(attempts := sys.attempts[aid := attempt]))
  {
    hide StoreInv, DbInv, MarkedInv;
    var sys' := sys.(attempts := sys.attempts[aid := attempt]);
    forall b | b in sys'.attempts ensures AttemptInv(sys', b) {
      if b != aid { assert AttemptInv(sys, b); }
    }
  }

  lemma AskReplaySafe(sys: System, rid: Id)
    requires Safe(sys)
    ensures Keeps(sys, Transact(sys, ReplayReservation(sys.db, rid).0))
  {
    ReplayKeeps(sys.db, sys.origin, rid);
    TransactKeepsSafe(sys, ReplayReservation(sys.db, rid).0,
                      Transact(sys, ReplayReservation(sys.db, rid).0));
  }

  lemma ReplayAttemptSafe(sys: System, asked: System, aid: Id, o: Outcome)
    requires Keeps(sys, asked)
    requires o.intent.action == MarkIt ==> HasArtifact(asked.db, o.intent.staged.item)
    ensures Keeps(sys, asked.(attempts := asked.attempts[aid := AtReplay(o)]))
  {
    AttemptSafe(asked, aid, AtReplay(o));
    hide Keeps;
    KeepsBoth(sys, asked, asked.(attempts := asked.attempts[aid := AtReplay(o)]));
  }

  lemma StartReplaySafe(sys: System, rid: Id, aid: Id)
    requires Safe(sys) && FirstFate(sys.script) == Succeeds
    requires ReplayReservation(sys.db, rid).1.Some?
    ensures var (db', found) := ReplayReservation(sys.db, rid);
            var asked := Transact(sys, db');
            Keeps(sys, asked.(attempts := asked.attempts[aid := AtReplay(found.value)]))
  {
    var (db', found) := ReplayReservation(sys.db, rid);
    AskReplaySafe(sys, rid);
    ReplayKeeps(sys.db, sys.origin, rid);
    hide Keeps, ReplayReservation;
    ReplayAttemptSafe(sys, Transact(sys, db'), aid, found.value);
  }

  lemma FindReplayEventSafe(sys: System, aid: Id, rid: Id)
    requires Safe(sys)
    ensures Keeps(sys, FindReplayEvent(sys, aid, rid))
  {
    hide Safe, Monotone, ReplayReservation;
    AskReplaySafe(sys, rid);
    if FirstFate(sys.script) == Succeeds && ReplayReservation(sys.db, rid).1.Some? {
      StartReplaySafe(sys, rid, aid);
    }
    UnchangedKeeps(sys);
  }

  lemma UnchangedKeeps(sys: System)
    requires Safe(sys)
    ensures Keeps(sys, sys)
  {
  }

  lemma MarkAndEndSafe(sys: System, staged: StagedObject, aid: Id)
    requires Safe(sys) && HasArtifact(sys.db, staged.item)
    ensures Keeps(sys, Ended(MarkAndConfirm(sys, staged), aid))
  {
    MarkAndConfirmSafe(sys, staged);
    EndedSafe(MarkAndConfirm(sys, staged), aid);
    KeepsBoth(sys, MarkAndConfirm(sys, staged), Ended(MarkAndConfirm(sys, staged), aid));
  }

  lemma CompleteFreshEventSafe(sys: System, aid: Id)
    requires Safe(sys)
    ensures Keeps(sys, CompleteFreshEvent(sys, aid))
  {
    if aid in sys.attempts && sys.attempts[aid].AtCommitted? {
      var s, o := sys.attempts[aid].s, sys.attempts[aid].outcome;
      if !FreshOutcomeOk(o, s) {
        EndedSafe(sys, aid);
      } else if o.intent.action == MarkIt {
        assert AttemptInv(sys, aid);
        MarkAndEndSafe(sys, o.intent.staged, aid);
      } else {
        AbortThenReplaySafe(sys, aid, s, o);
      }
    }
  }

  lemma AbortThenReplaySafe(sys: System, aid: Id, s: StagedObject, o: Outcome)
    requires Safe(sys) && aid in sys.attempts && sys.attempts[aid] == AtCommitted(s, o)
    requires FreshOutcomeOk(o, s) && o.intent.action != MarkIt
    ensures Keeps(sys, CompleteFreshEvent(sys, aid))
  {
    hide Safe, Monotone, ReplayReservation, AbortRun;
    var after := WithRun(sys, AbortRun(sys.disk, s, sys.script));
    assert Keeps(sys, after) by {
      var v := AbortRunLeaves(sys.disk, s, sys.script);
      MoveKeepsSafe(sys, s, v, after);
    }
    EndedSafe(after, aid);
    KeepsBoth(sys, after, Ended(after, aid));
    AskReplaySafe(after, s.reservation);
    var asked := Transact(after, ReplayReservation(after.db, s.reservation).0);
    EndedSafe(asked, aid);
    KeepsBoth(sys, after, asked);
    KeepsBoth(sys, asked, Ended(asked, aid));
    var found := ReplayReservation(after.db, s.reservation).1;
    if FirstFate(after.script) == Succeeds && found.Some? {
      StartReplaySafe(after, s.reservation, aid);
      KeepsBoth(sys, after, asked.(attempts := asked.attempts[aid := AtReplay(found.value)]));
    }
  }

  lemma CompleteReplayEventSafe(sys: System, aid: Id)
    requires Safe(sys)
    ensures Keeps(sys, CompleteReplayEvent(sys, aid))
  {
    if aid in sys.attempts && sys.attempts[aid].AtReplay? {
      var o := sys.attempts[aid].outcome;
      if !ReplayOutcomeOk(o) || o.intent.action == NothingToDo {
        EndedSafe(sys, aid);
      } else if o.intent.action == MarkIt {
        assert AttemptInv(sys, aid);
        MarkAndEndSafe(sys, o.intent.staged, aid);
      } else {
        AbortAndEndSafe(sys, aid, o.intent.staged);
      }
    }
  }

  lemma SweepEventSafe(sys: System, m: Id, answered: bool)
    requires Safe(sys)
    ensures var sys' := SweepEvent(sys, m, answered);
            Keeps(sys, sys')
  {
    if m in sys.disk.manifests && sys.disk.manifests[m].Manifest? {
      var answer := if answered then Checker(sys.db, sys.disk.manifests[m].item) else NoAnswer;
      var s := BindingOf(m, sys.disk.manifests[m]);
      var v := SweepOneLeaves(sys.disk, m, answer, sys.script);
      MoveKeepsSafe(sys, s, v, SweepEvent(sys, m, answered));
    }
  }

  lemma NextSafe(sys: System, e: Event)
    requires Safe(sys)
    ensures Keeps(sys, Next(sys, e))
  {
    match e {
      case Reserve(rid, item, owner) => ReservationChangeSafe(sys, e);
      case Lapse(rid, status) => ReservationChangeSafe(sys, e);
      case StageObject(aid, rid, key, m, bytes) => StageEventSafe(sys, aid, rid, key, m, bytes);
      case CommitFinalize(aid) => CommitEventSafe(sys, aid);
      case CompleteFresh(aid) => CompleteFreshEventSafe(sys, aid);
      case FindReplay(aid, rid) => FindReplayEventSafe(sys, aid, rid);
      case CompleteReplay(aid) => CompleteReplayEventSafe(sys, aid);
      case SweepManifest(m, answered) => SweepEventSafe(sys, m, answered);
      case Crash(aid) => EndedSafe(sys, aid);
    }
  }

  lemma ReservationChangeSafe(sys: System, e: Event)
    requires Safe(sys) && (e.Reserve? || e.Lapse?)
    ensures Keeps(sys, Next(sys, e))
  {
    var sys' := Next(sys, e);
    if sys' != sys {
      ReservationChangeKeeps(sys.db, sys.origin, e.rid, sys'.db);
      TransactKeepsSafe(sys, sys'.db, sys');
    }
  }

  /** A new active reservation, or an active one that lapses. */
  lemma ReservationChangeKeeps(db: Db, origin: map<Id, Origin>, rid: Id, db': Db)
    requires DbInv(db, origin)
    requires db'.artifacts == db.artifacts && rid in db'.reservations
    requires db'.reservations == db.reservations[rid := db'.reservations[rid]]
    requires db'.reservations[rid].facts.None? && db'.reservations[rid].completion.None?
    requires db'.reservations[rid].status in {Active, Rejected, Expired}
    requires if rid in db.reservations
             then db.reservations[rid].status == Active
                  && db'.reservations[rid].item == db.reservations[rid].item
             else forall r :: r in db.reservations ==> db.reservations[r].item != db'.reservations[rid].item
    ensures DbInv(db', origin) && ReservationsKept(db, db')
  {
    forall c | c in db'.artifacts ensures ArtifactInv(db', origin, c) {
      assert ArtifactInv(db, origin, c);
    }
    forall r | r in db'.reservations ensures ReservationInv(db', r) {
      if r in db.reservations { assert ReservationInv(db, r); }
    }
  }

  // ---------------------------------------------------------------------
  // Whole runs

  lemma {:induction false} RunSafe(sys: System, events: seq<Event>)
    requires Safe(sys)
    ensures Keeps(sys, RunEvents(sys, events))
    decreases |events|
  {
    if events != [] {
      NextSafe(sys, events[0]);
      RunSafe(Next(sys, events[0]), events[1..]);
    }
  }

  /** In every state reachable by any interleaving of ingestions, replays, aborts and sweeps,
      with any step raising or crashing: visible evidence has its object in `referenced/`, with
      exactly the finalized bytes. */
  lemma VisibleEvidenceIsStored(script: Script, events: seq<Event>, rid: Id)
    requires Visible(RunEvents(Initial(script), events).db, rid)
    ensures var sys := RunEvents(Initial(script), events);
            && sys.db.reservations[rid].facts.Some?
            && var content := sys.db.reservations[rid].facts.value.canonical;
               && content in sys.db.artifacts
               && content.owner == sys.db.reservations[rid].owner
               && sys.db.artifacts[content].key in sys.disk.referenced
               && sys.disk.referenced[sys.db.artifacts[content].key] == content.bytes
  {
    RunSafe(Initial(script), events);
    var sys := RunEvents(Initial(script), events);
    assert ReservationInv(sys.db, rid);
    assert ArtifactInv(sys.db, sys.origin, sys.db.reservations[rid].facts.value.canonical);
  }

  /** From then on nothing takes it away: whatever happens next, the evidence stays visible and
      its object keeps its place and its bytes. */
  lemma VisibleEvidenceStays(script: Script, before: seq<Event>, after: seq<Event>, rid: Id)
    requires Visible(RunEvents(Initial(script), before).db, rid)
    ensures var sys := RunEvents(Initial(script), before);
            var later := RunEvents(sys, after);
            && Visible(later.db, rid)
            && later.db.reservations[rid].facts == sys.db.reservations[rid].facts
            && (forall k :: k in sys.disk.referenced ==>
                  k in later.disk.referenced && later.disk.referenced[k] == sys.disk.referenced[k])
  {
    RunSafe(Initial(script), before);
    RunSafe(RunEvents(Initial(script), before), after);
    assert ReservationInv(RunEvents(Initial(script), before).db, rid);
  }

  /** Nothing is resurrected: an object that was staged and is gone never comes back. */
  lemma GoneStaysGone(script: Script, before: seq<Event>, after: seq<Event>, k: Id)
    requires var sys := RunEvents(Initial(script), before);
             k in sys.origin && k !in sys.disk.staged && k !in sys.disk.referenced
    ensures var later := RunEvents(RunEvents(Initial(script), before), after);
            k !in later.disk.staged && k !in later.disk.referenced
  {
    RunSafe(Initial(script), before);
    RunSafe(RunEvents(Initial(script), before), after);
  }
}

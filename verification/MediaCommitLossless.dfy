/** Where the object of an artifact row is at the end of a run, and exactly when it is gone. */
module MediaCommitLossless {
  import opened Basics
  import opened MediaObjectStore
  import opened MediaCommit
  import opened MediaStoreProperties
  import opened MediaCommitSafety

  // ---------------------------------------------------------------------
  // Whose object is whose

  /** The key belongs to an artifact row: its reservation finalized it with MARK_REFERENCED. */
  predicate IsArtifactKey(sys: System, k: Id) {
    && k in sys.origin
    && var r := sys.origin[k].binding.reservation;
       && r in sys.db.reservations && sys.db.reservations[r].facts.Some?
       && sys.db.reservations[r].facts.value.intent == MarkIt
       && sys.db.reservations[r].facts.value.key == k
  }

  /** The attempt has staged this object and goes on to finalize it. */
  predicate Opens(sys: System, aid: Id, k: Id) {
    aid in sys.attempts && sys.attempts[aid].AtStaged? && sys.attempts[aid].s.key == k
  }

  /** The object is an artifact row's, or may become one's. */
  ghost predicate Wanted(sys: System, k: Id) {
    k in sys.origin && (IsArtifactKey(sys, k) || exists aid :: Opens(sys, aid, k))
  }

  predicate OnDisk(sys: System, k: Id) {
    k in sys.disk.staged || k in sys.disk.referenced
  }

  /** The object is staged and its published manifest binds it. */
  predicate Held(sys: System, s: StagedObject) {
    s.key in sys.disk.staged && s.manifestId in sys.disk.manifests
    && sys.disk.manifests[s.manifestId] == ManifestOf(s, PhaseStaged)
  }

  predicate KnownToDb(sys: System, s: StagedObject) {
    s.reservation in sys.db.reservations && sys.db.reservations[s.reservation].facts.Some?
    && StagedOf(sys.db, s.reservation) == s
  }

  ghost predicate FactsKnown(sys: System, r: Id)
    requires r in sys.db.reservations && sys.db.reservations[r].facts.Some?
  {
    var k := sys.db.reservations[r].facts.value.key;
    k in sys.origin && sys.origin[k].binding == StagedOf(sys.db, r)
  }

  /** Nobody else knows the key of an object that is staged but not yet finalized. */
  ghost predicate Unclaimed(sys: System, aid: Id)
    requires aid in sys.attempts && sys.attempts[aid].AtStaged?
  {
    var k := sys.attempts[aid].s.key;
    && (forall r :: r in sys.db.reservations && sys.db.reservations[r].facts.Some? ==>
          sys.db.reservations[r].facts.value.key != k)
    && (forall b :: b in sys.attempts && b != aid && !sys.attempts[b].AtReplay? ==>
          sys.attempts[b].s.key != k)
  }

  ghost predicate AttemptNamed(sys: System, aid: Id)
    requires aid in sys.attempts
  {
    match sys.attempts[aid]
    case AtStaged(_, _) => Unclaimed(sys, aid)
    case AtCommitted(s, o) =>
      if o.intent.action == MarkIt then o.intent.staged == s || KnownToDb(sys, o.intent.staged)
      else !IsArtifactKey(sys, s.key)
    case AtReplay(o) =>
      && KnownToDb(sys, o.intent.staged)
      && (o.intent.action == AbortIt ==> !IsArtifactKey(sys, o.intent.staged.key))
  }

  /** Every key is known to those it belongs to and to nobody else, and what is wanted and staged is
      bound by its published manifest. Every event keeps this, whatever fails in it. */
  ghost predicate Tracked(sys: System) {
    && Safe(sys)
    && (forall r :: r in sys.db.reservations && sys.db.reservations[r].facts.Some? ==> FactsKnown(sys, r))
    && (forall aid :: aid in sys.attempts ==> AttemptNamed(sys, aid))
    && (forall k :: Wanted(sys, k) && k in sys.disk.staged ==> Held(sys, sys.origin[k].binding))
  }

  lemma TrackedAttempt(sys: System, aid: Id)
    requires Tracked(sys) && aid in sys.attempts
    ensures Safe(sys) && AttemptInv(sys, aid) && AttemptNamed(sys, aid)
  {
  }

  lemma MarkedHasArtifact(sys: System, aid: Id)
    requires Tracked(sys) && aid in sys.attempts
    ensures sys.attempts[aid].AtReplay? && sys.attempts[aid].outcome.intent.action == MarkIt ==>
              HasArtifact(sys.db, sys.attempts[aid].outcome.intent.staged.item)
    ensures sys.attempts[aid].AtCommitted? && sys.attempts[aid].outcome.intent.action == MarkIt ==>
              HasArtifact(sys.db, sys.attempts[aid].outcome.intent.staged.item)
  {
    hide Tracked, Safe, AttemptNamed, HasArtifact;
    TrackedAttempt(sys, aid);
  }

  lemma TrackedFacts(sys: System, rid: Id)
    requires Tracked(sys) && rid in sys.db.reservations && sys.db.reservations[rid].facts.Some?
    ensures FactsKnown(sys, rid) && ReservationInv(sys.db, rid) && DbInv(sys.db, sys.origin)
  {
  }

  // ---------------------------------------------------------------------
  // Events that add no names

  /** No new facts, no new attempts. */
  ghost predicate NoNewNames(sys: System, sys': System) {
    && sys'.origin == sys.origin && ReservationsKept(sys.db, sys'.db)
    && (forall r :: r in sys'.db.reservations && sys'.db.reservations[r].facts.Some? ==>
          r in sys.db.reservations && sys.db.reservations[r].facts.Some?)
    && (forall aid :: aid in sys'.attempts ==> aid in sys.attempts && sys'.attempts[aid] == sys.attempts[aid])
  }

  lemma NoNewNamesKeepsAttempt(sys: System, sys': System, aid: Id)
    requires NoNewNames(sys, sys') && aid in sys'.attempts && AttemptNamed(sys, aid)
    ensures AttemptNamed(sys', aid)
  {
    if sys.attempts[aid].AtStaged? {
      assert Unclaimed(sys, aid);
    }
  }

  lemma NoNewNamesNothingWanted(sys: System, sys': System, k: Id)
    requires NoNewNames(sys, sys') && Wanted(sys', k)
    ensures Wanted(sys, k) && (IsArtifactKey(sys', k) ==> IsArtifactKey(sys, k))
  {
    if !IsArtifactKey(sys', k) {
      var aid :| Opens(sys', aid, k);
      assert Opens(sys, aid, k);
    }
  }

  lemma NoNewNamesTracked(sys: System, sys': System)
    requires Tracked(sys) && Safe(sys') && NoNewNames(sys, sys')
    requires forall k :: k in sys.origin && k in sys'.disk.staged && Held(sys, sys.origin[k].binding) ==>
               Held(sys', sys.origin[k].binding)
    requires forall k :: k in sys.origin && k in sys'.disk.staged ==> k in sys.disk.staged
    ensures Tracked(sys')
  {
    hide Safe;
    forall r | r in sys'.db.reservations && sys'.db.reservations[r].facts.Some? ensures FactsKnown(sys', r) {
      assert FactsKnown(sys, r);
    }
    forall aid | aid in sys'.attempts ensures AttemptNamed(sys', aid) {
      NoNewNamesKeepsAttempt(sys, sys', aid);
    }
    forall k | Wanted(sys', k) && k in sys'.disk.staged ensures Held(sys', sys'.origin[k].binding) {
      NoNewNamesNothingWanted(sys, sys', k);
    }
    hide AttemptNamed, FactsKnown, Wanted, Held;
  }

  /** A transaction without new facts, or the end of an attempt. */
  lemma SameDiskTracked(sys: System, sys': System)
    requires Tracked(sys) && Safe(sys') && NoNewNames(sys, sys') && sys'.disk == sys.disk
    ensures Tracked(sys')
  {
    hide Tracked, Safe, NoNewNames;
    NoNewNamesTracked(sys, sys');
  }

  lemma TransactTracked(sys: System, sys': System)
    requires Tracked(sys) && Keeps(sys, sys')
    requires forall r :: r in sys'.db.reservations && sys'.db.reservations[r].facts.Some? ==>
               r in sys.db.reservations && sys.db.reservations[r].facts.Some?
    requires sys'.disk == sys.disk && sys'.origin == sys.origin && sys'.attempts == sys.attempts
    ensures Tracked(sys') && NoNewNames(sys, sys')
  {
    hide Tracked, Safe, ReservationsKept, ArtifactsGrow;
    SameDiskTracked(sys, sys');
  }

  lemma EndedTracked(sys: System, aid: Id)
    requires Tracked(sys)
    ensures Tracked(Ended(sys, aid))
  {
    EndedSafe(sys, aid);
    hide Safe;
    SameDiskTracked(sys, Ended(sys, aid));
  }

  lemma ScriptTracked(sys: System, script: Script)
    requires Tracked(sys)
    ensures Tracked(sys.(script := script))
  {
    var sys' := sys.(script := script);
    TransactKeepsSafe(sys, sys.db, sys');
    hide Safe;
    SameDiskTracked(sys, sys');
  }

  /** A file operation on one object leaves the binding of every object that stays staged. */
  lemma MoveKeepsHeld(d: Disk, s: StagedObject, v: Moves, sys: System, sys': System, t: StagedObject)
    requires MoveLeaves(sys.disk, s, v, sys'.disk) && Held(sys, t) && t.key in sys'.disk.staged
    requires v.unbound ==>
               s.manifestId in sys.disk.manifests && BindingOfKnown(sys.disk, s.manifestId) == s
    ensures Held(sys', t)
  {
  }

  lemma MoveTracked(sys: System, s: StagedObject, v: Moves, r: Run)
    requires Tracked(sys) && MoveLeaves(sys.disk, s, v, r.disk) && Safe(WithRun(sys, r))
    requires v.unbound ==>
               s.manifestId in sys.disk.manifests && BindingOfKnown(sys.disk, s.manifestId) == s
    ensures Tracked(WithRun(sys, r))
  {
    var sys' := WithRun(sys, r);
    forall k | k in sys.origin && k in sys'.disk.staged && Held(sys, sys.origin[k].binding)
      ensures Held(sys', sys.origin[k].binding)
    {
      assert sys.origin[k].binding.key == k;
      MoveKeepsHeld(sys.disk, s, v, sys, sys', sys.origin[k].binding);
    }
    hide Safe, Held;
    NoNewNamesTracked(sys, sys');
  }

  lemma AbortTracked(sys: System, s: StagedObject)
    requires Tracked(sys)
    ensures Tracked(WithRun(sys, AbortRun(sys.disk, s, sys.script)))
  {
    var v := AbortRunLeaves(sys.disk, s, sys.script);
    var r := AbortRun(sys.disk, s, sys.script);
    MoveKeepsSafe(sys, s, v, WithRun(sys, r));
    hide AbortRun, Safe, MoveLeaves;
    MoveTracked(sys, s, v, r);
  }

  lemma MarkTracked(sys: System, s: StagedObject)
    requires Tracked(sys) && HasArtifact(sys.db, s.item)
    ensures Tracked(WithRun(sys, MarkRun(sys.disk, s, sys.script)))
  {
    var v := MarkRunLeaves(sys.disk, s, sys.script);
    var r := MarkRun(sys.disk, s, sys.script);
    MoveKeepsSafe(sys, s, v, WithRun(sys, r));
    hide MarkRun, Safe, MoveLeaves;
    MoveTracked(sys, s, v, r);
  }

  lemma NoNewFactsInReplay(db: Db, rid: Id)
    ensures forall r :: r in ReplayReservation(db, rid).0.reservations
              && ReplayReservation(db, rid).0.reservations[r].facts.Some?
              ==> r in db.reservations && db.reservations[r].facts.Some?
    ensures ReplayReservation(db, rid).1.Some? ==>
              var db' := ReplayReservation(db, rid).0;
              && rid in db'.reservations && db'.reservations[rid].facts.Some?
              && ReplayReservation(db, rid).1.value.intent.staged == StagedOf(db', rid)
  {
  }

  lemma AskReplayTracked(sys: System, rid: Id)
    requires Tracked(sys)
    ensures Tracked(Transact(sys, ReplayReservation(sys.db, rid).0))
  {
    AskReplaySafe(sys, rid);
    NoNewFactsInReplay(sys.db, rid);
    hide Keeps, Tracked, ReplayReservation;
    TransactTracked(sys, Transact(sys, ReplayReservation(sys.db, rid).0));
  }

  lemma NoNewFactsInConfirm(db: Db, staged: StagedObject)
    requires Confirm(db, staged).Some?
    ensures forall r :: r in Confirm(db, staged).value.reservations
              && Confirm(db, staged).value.reservations[r].facts.Some?
              ==> r in db.reservations && db.reservations[r].facts.Some?
  {
  }

  lemma ConfirmTracked(sys: System, staged: StagedObject)
    requires Tracked(sys) && staged.key in sys.disk.referenced && Confirm(sys.db, staged).Some?
    ensures Tracked(Transact(sys, Confirm(sys.db, staged).value))
  {
    ConfirmSafe(sys, staged);
    NoNewFactsInConfirm(sys.db, staged);
    hide Keeps, Tracked, Confirm;
    TransactTracked(sys, Transact(sys, Confirm(sys.db, staged).value));
  }

  lemma MarkedIsReferenced(d: Disk, s: StagedObject, script: Script)
    ensures MarkRun(d, s, script).ending.Done? ==> s.key in MarkRun(d, s, script).disk.referenced
  {
    var v := MarkRunLeaves(d, s, script);
    hide MarkRun;
  }

  lemma MarkAndConfirmTracked(sys: System, staged: StagedObject)
    requires Tracked(sys) && HasArtifact(sys.db, staged.item)
    ensures Tracked(MarkAndConfirm(sys, staged))
  {
    hide Tracked, MarkRun, Confirm;
    MarkedIsReferenced(sys.disk, staged, sys.script);
    MarkTracked(sys, staged);
    var r := MarkRun(sys.disk, staged, sys.script);
    var after := WithRun(sys, r);
    if r.ending.Done? && Confirm(after.db, staged).Some? {
      ConfirmTracked(after, staged);
    }
  }

  lemma ReservationChangeTracked(sys: System, e: Event)
    requires Tracked(sys) && (e.Reserve? || e.Lapse?)
    ensures Tracked(Next(sys, e)) && NoNewNames(sys, Next(sys, e)) && Next(sys, e).disk == sys.disk
  {
    assert Safe(sys);
    ReservationChangeSafe(sys, e);
    NoNewFactsInRow(sys, e);
    hide Keeps, Tracked, Next;
    TransactTracked(sys, Next(sys, e));
  }

  lemma NoNewFactsInRow(sys: System, e: Event)
    requires e.Reserve? || e.Lapse?
    ensures var sys' := Next(sys, e);
            && sys'.disk == sys.disk && sys'.origin == sys.origin && sys'.attempts == sys.attempts
            && (forall r :: r in sys'.db.reservations && sys'.db.reservations[r].facts.Some? ==>
                  r in sys.db.reservations && sys.db.reservations[r].facts.Some?)
  {
  }

  // ---------------------------------------------------------------------
  // Replays

  /** A replay that was found belongs to the reservation on record. */
  lemma ReplayAttemptNamed(sys: System, aid: Id, rid: Id)
    requires Tracked(sys) && ReplayReservation(sys.db, rid).1.Some?
    ensures var (db', found) := ReplayReservation(sys.db, rid);
            var o := found.value;
            && rid in db'.reservations && db'.reservations[rid].facts.Some? && o.intent.staged == StagedOf(db', rid)
            && (o.intent.action == AbortIt ==> db'.reservations[rid].facts.value.intent != MarkIt)
            && o.intent.staged.key in sys.origin && sys.origin[o.intent.staged.key].binding.reservation == rid
  {
    hide Tracked, DbInv;
    NoNewFactsInReplay(sys.db, rid);
    TrackedFacts(sys, rid);
  }

  lemma AttemptAddedTracked(sys: System, aid: Id, o: Outcome)
    requires Tracked(sys) && Safe(sys.(attempts := sys.attempts[aid := AtReplay(o)]))
    requires KnownToDb(sys, o.intent.staged)
    requires o.intent.action == AbortIt ==> !IsArtifactKey(sys, o.intent.staged.key)
    ensures Tracked(sys.(attempts := sys.attempts[aid := AtReplay(o)]))
  {
    hide Safe;
    var sys' := sys.(attempts := sys.attempts[aid := AtReplay(o)]);
    forall b | b in sys'.attempts ensures AttemptNamed(sys', b) {
      if b != aid {
        assert AttemptNamed(sys, b);
        if sys.attempts[b].AtStaged? { assert Unclaimed(sys, b); }
      }
    }
    forall r | r in sys'.db.reservations && sys'.db.reservations[r].facts.Some? ensures FactsKnown(sys', r) {
      assert FactsKnown(sys, r);
    }
    forall k | Wanted(sys', k) && k in sys'.disk.staged ensures Held(sys', sys'.origin[k].binding) {
      WantedBeforeReplay(sys, aid, o, k);
    }
  }

  lemma WantedBeforeReplay(sys: System, aid: Id, o: Outcome, k: Id)
    requires Wanted(sys.(attempts := sys.attempts[aid := AtReplay(o)]), k)
    ensures Wanted(sys, k)
  {
    var sys' := sys.(attempts := sys.attempts[aid := AtReplay(o)]);
    if !IsArtifactKey(sys', k) {
      var b :| Opens(sys', b, k);
      assert Opens(sys, b, k);
    }
  }

  lemma StartReplayTracked(sys: System, rid: Id, aid: Id)
    requires Tracked(sys) && FirstFate(sys.script) == Succeeds
    requires ReplayReservation(sys.db, rid).1.Some?
    ensures var (db', found) := ReplayReservation(sys.db, rid);
            var asked := Transact(sys, db');
            Tracked(asked.(attempts := asked.attempts[aid := AtReplay(found.value)]))
  {
    AskReplayTracked(sys, rid);
    assert Safe(sys);
    StartReplaySafe(sys, rid, aid);
    ReplayAttemptNamed(sys, aid, rid);
    hide Safe, ReplayReservation, Tracked;
    var (db', found) := ReplayReservation(sys.db, rid);
    var asked := Transact(sys, db');
    assert asked.db == db';
    AttemptAddedTracked(asked, aid, found.value);
  }

  lemma FindReplayTracked(sys: System, aid: Id, rid: Id)
    requires Tracked(sys)
    ensures Tracked(FindReplayEvent(sys, aid, rid))
  {
    hide Tracked, ReplayReservation;
    AskReplayTracked(sys, rid);
    if FirstFate(sys.script) == Succeeds && ReplayReservation(sys.db, rid).1.Some? && aid !in sys.attempts {
      StartReplayTracked(sys, rid, aid);
    }
  }

  lemma CompleteReplayIs(sys: System, aid: Id)
    requires aid in sys.attempts && sys.attempts[aid].AtReplay?
    ensures var o := sys.attempts[aid].outcome;
            || CompleteReplayEvent(sys, aid) == Ended(sys, aid)
            || (o.intent.action == MarkIt
                && CompleteReplayEvent(sys, aid) == Ended(MarkAndConfirm(sys, o.intent.staged), aid))
            || CompleteReplayEvent(sys, aid)
               == Ended(WithRun(sys, AbortRun(sys.disk, o.intent.staged, sys.script)), aid)
  {
    hide MarkAndConfirm, AbortRun, ReplayOutcomeOk;
  }

  lemma CompleteReplayTracked(sys: System, aid: Id)
    requires Tracked(sys)
    ensures Tracked(CompleteReplayEvent(sys, aid))
  {
    if aid in sys.attempts && sys.attempts[aid].AtReplay? {
      hide Tracked, MarkAndConfirm, AbortRun, HasArtifact, WithRun, Ended, CompleteReplayEvent;
      var s := sys.attempts[aid].outcome.intent.staged;
      CompleteReplayIs(sys, aid);
      MarkedHasArtifact(sys, aid);
      EndedTracked(sys, aid);
      AbortTracked(sys, s);
      EndedTracked(WithRun(sys, AbortRun(sys.disk, s, sys.script)), aid);
      if sys.attempts[aid].outcome.intent.action == MarkIt {
        MarkAndConfirmTracked(sys, s);
        EndedTracked(MarkAndConfirm(sys, s), aid);
      }
    }
  }

  lemma CompleteFreshTracked(sys: System, aid: Id)
    requires Tracked(sys)
    ensures Tracked(CompleteFreshEvent(sys, aid))
  {
    if aid in sys.attempts && sys.attempts[aid].AtCommitted? {
      var s, o := sys.attempts[aid].s, sys.attempts[aid].outcome;
      hide Tracked, MarkAndConfirm, AbortRun, HasArtifact;
      MarkedHasArtifact(sys, aid);
      EndedTracked(sys, aid);
      if FreshOutcomeOk(o, s) {
        if o.intent.action == MarkIt {
          MarkAndConfirmTracked(sys, s);
          EndedTracked(MarkAndConfirm(sys, s), aid);
        } else {
          AbortThenReplayTracked(sys, aid, s, o);
        }
      }
    }
  }

  lemma AbortThenReplayTracked(sys: System, aid: Id, s: StagedObject, o: Outcome)
    requires Tracked(sys) && aid in sys.attempts && sys.attempts[aid] == AtCommitted(s, o)
    requires FreshOutcomeOk(o, s) && o.intent.action != MarkIt
    ensures Tracked(CompleteFreshEvent(sys, aid))
  {
    hide Tracked, ReplayReservation, AbortRun;
    var after := WithRun(sys, AbortRun(sys.disk, s, sys.script));
    AbortTracked(sys, s);
    EndedTracked(after, aid);
    AskReplayTracked(after, s.reservation);
    EndedTracked(Transact(after, ReplayReservation(after.db, s.reservation).0), aid);
    if FirstFate(after.script) == Succeeds && ReplayReservation(after.db, s.reservation).1.Some? {
      StartReplayTracked(after, s.reservation, aid);
    }
  }

  // ---------------------------------------------------------------------
  // finalize

  /** Only the reservation of `s` may change; its stored facts stay, or are now those of `s`. */
  ghost predicate FactsAdded(db: Db, s: StagedObject, db': Db) {
    && s.reservation in db.reservations && s.reservation in db'.reservations
    && db'.reservations[s.reservation].facts.Some?
    && db'.reservations[s.reservation].item == s.item
    && (forall r :: r in db'.reservations && r != s.reservation ==>
          r in db.reservations && db'.reservations[r] == db.reservations[r])
    && (if db.reservations[s.reservation].facts.Some?
        then db'.reservations[s.reservation].facts == db.reservations[s.reservation].facts
        else && db'.reservations[s.reservation].facts.value.key == s.key
             && db'.reservations[s.reservation].facts.value.manifestId == s.manifestId)
  }

  /** What a commit of `finalize` for an unclaimed staged object adds to the stored facts. */
  lemma FinalizeFacts(db: Db, origin: map<Id, Origin>, s: StagedObject, bytes: Bytes)
    requires DbInv(db, origin) && Finalize(db, s, bytes).FinalizeOk?
    requires forall r :: r in db.reservations && db.reservations[r].facts.Some? ==>
               db.reservations[r].facts.value.key != s.key
    ensures var f := Finalize(db, s, bytes);
            && FactsAdded(db, s, f.db)
            && (f.outcome.intent.action == MarkIt ==> f.outcome.intent.staged == s)
            && (f.outcome.intent.action != MarkIt
                  && f.db.reservations[s.reservation].facts.value.key == s.key
                ==> f.db.reservations[s.reservation].facts.value.intent == AbortIt)
  {
    assert ReservationInv(db, s.reservation);
    hide DbInv;
  }

  /** A committed finalize of one attempt: only its own reservation may have new facts. */
  ghost predicate Commits(sys: System, aid: Id, o: Outcome, sys': System) {
    && aid in sys.attempts && sys.attempts[aid].AtStaged?
    && sys'.attempts == sys.attempts[aid := AtCommitted(sys.attempts[aid].s, o)]
    && sys'.disk == sys.disk && sys'.origin == sys.origin && ReservationsKept(sys.db, sys'.db)
    && var s := sys.attempts[aid].s;
       && s.key in sys.origin && sys.origin[s.key].binding == s && FactsAdded(sys.db, s, sys'.db)
       && (o.intent.action == MarkIt ==> o.intent.staged == s)
       && (o.intent.action != MarkIt ==> !IsArtifactKey(sys.(db := sys'.db), s.key))
  }

  lemma CommitNames(sys: System, aid: Id, o: Outcome, sys': System)
    requires Tracked(sys) && Commits(sys, aid, o, sys')
    ensures forall r :: r in sys'.db.reservations && sys'.db.reservations[r].facts.Some? ==>
              FactsKnown(sys', r)
              && ((r in sys.db.reservations && sys.db.reservations[r].facts.Some?)
                  || sys'.db.reservations[r].facts.value.key == sys.attempts[aid].s.key)
  {
    hide Safe;
    forall r | r in sys'.db.reservations && sys'.db.reservations[r].facts.Some?
      ensures FactsKnown(sys', r)
              && ((r in sys.db.reservations && sys.db.reservations[r].facts.Some?)
                  || sys'.db.reservations[r].facts.value.key == sys.attempts[aid].s.key)
    {
      if r in sys.db.reservations && sys.db.reservations[r].facts.Some? {
        assert FactsKnown(sys, r);
      }
    }
  }

  lemma CommitWantsNothingNew(sys: System, aid: Id, o: Outcome, sys': System, k: Id)
    requires Tracked(sys) && Commits(sys, aid, o, sys') && Wanted(sys', k)
    ensures Wanted(sys, k)
  {
    CommitNames(sys, aid, o, sys');
    hide Tracked;
    if IsArtifactKey(sys', k) {
      if !IsArtifactKey(sys, k) {
        assert k == sys.attempts[aid].s.key;
        assert Opens(sys, aid, k);
      }
    } else {
      var b :| Opens(sys', b, k);
      assert Opens(sys, b, k);
    }
  }

  ghost predicate CommitFrame(sys: System, aid: Id, sys': System) {
    && aid in sys.attempts && sys.attempts[aid].AtStaged?
    && sys'.attempts.Keys == sys.attempts.Keys
    && sys'.attempts[aid].AtCommitted? && sys'.attempts[aid].s == sys.attempts[aid].s
    && (forall c :: c in sys.attempts && c != aid ==> sys'.attempts[c] == sys.attempts[c])
    && ReservationsKept(sys.db, sys'.db) && sys'.origin == sys.origin
    && (forall r :: r in sys'.db.reservations && sys'.db.reservations[r].facts.Some? ==>
          (r in sys.db.reservations && sys.db.reservations[r].facts.Some?)
          || sys'.db.reservations[r].facts.value.key == sys.attempts[aid].s.key)
  }

  lemma CommitKeepsStaged(sys: System, aid: Id, sys': System, b: Id)
    requires CommitFrame(sys, aid, sys') && b in sys.attempts && b != aid
    requires sys.attempts[b].AtStaged? && AttemptNamed(sys, b)
    ensures AttemptNamed(sys', b)
  {
    assert Unclaimed(sys, b);
  }

  lemma CommitKeepsOthers(sys: System, aid: Id, sys': System, b: Id)
    requires CommitFrame(sys, aid, sys') && b in sys.attempts && b != aid
    requires Unclaimed(sys, aid) && AttemptNamed(sys, b)
    ensures AttemptNamed(sys', b)
  {
    if sys.attempts[b].AtStaged? {
      CommitKeepsStaged(sys, aid, sys', b);
    }
  }

  lemma CommitIsFramed(sys: System, aid: Id, o: Outcome, sys': System)
    requires Tracked(sys) && Commits(sys, aid, o, sys')
    ensures CommitFrame(sys, aid, sys') && Unclaimed(sys, aid) && AttemptNamed(sys', aid)
  {
    hide Tracked, Safe, AttemptInv, FactsKnown, FactsAdded, Unclaimed, ReservationsKept, IsArtifactKey;
    CommitNames(sys, aid, o, sys');
    TrackedAttempt(sys, aid);
    OwnCommitNamed(sys, aid, o, sys');
    hide AttemptNamed;
  }

  lemma OwnCommitNamed(sys: System, aid: Id, o: Outcome, sys': System)
    requires Commits(sys, aid, o, sys')
    ensures AttemptNamed(sys', aid)
  {
    hide FactsAdded, ReservationsKept;
  }

  lemma TrackedParts(sys: System)
    requires Safe(sys)
    requires forall r :: r in sys.db.reservations && sys.db.reservations[r].facts.Some? ==> FactsKnown(sys, r)
    requires forall aid :: aid in sys.attempts ==> AttemptNamed(sys, aid)
    requires forall k :: Wanted(sys, k) && k in sys.disk.staged ==> Held(sys, sys.origin[k].binding)
    ensures Tracked(sys)
  {
  }

  lemma CommittedTracked(sys: System, aid: Id, o: Outcome, sys': System)
    requires Tracked(sys) && Safe(sys') && Commits(sys, aid, o, sys')
    ensures Tracked(sys')
  {
    CommitNames(sys, aid, o, sys');
    CommitIsFramed(sys, aid, o, sys');
    assert forall b :: b in sys.attempts ==> AttemptNamed(sys, b);
    assert forall k :: Wanted(sys, k) && k in sys.disk.staged ==> Held(sys, sys.origin[k].binding);
    assert sys'.disk == sys.disk && sys'.origin == sys.origin && sys'.attempts.Keys == sys.attempts.Keys;
    hide Tracked, Safe, FactsKnown, Commits, Wanted, CommitFrame, Unclaimed, AttemptNamed;
    forall b | b in sys'.attempts ensures AttemptNamed(sys', b) {
      if b != aid {
        CommitKeepsOthers(sys, aid, sys', b);
      }
    }
    forall k | Wanted(sys', k) && k in sys'.disk.staged ensures Held(sys', sys'.origin[k].binding) {
      CommitWantsNothingNew(sys, aid, o, sys', k);
    }
    TrackedParts(sys');
  }

  lemma FinalizeCommits(sys: System, aid: Id, sys': System)
    requires Tracked(sys) && aid in sys.attempts && sys.attempts[aid].AtStaged?
    requires Finalize(sys.db, sys.attempts[aid].s, sys.attempts[aid].bytes).FinalizeOk?
    requires var f := Finalize(sys.db, sys.attempts[aid].s, sys.attempts[aid].bytes);
             sys'.db == f.db && sys'.attempts == sys.attempts[aid := AtCommitted(sys.attempts[aid].s, f.outcome)]
    requires sys'.disk == sys.disk && sys'.origin == sys.origin && ReservationsKept(sys.db, sys'.db)
    ensures Commits(sys, aid, Finalize(sys.db, sys.attempts[aid].s, sys.attempts[aid].bytes).outcome, sys')
  {
    var s, bytes := sys.attempts[aid].s, sys.attempts[aid].bytes;
    assert AttemptInv(sys, aid) && AttemptNamed(sys, aid) && Unclaimed(sys, aid);
    assert DbInv(sys.db, sys.origin);
    hide Tracked, Safe, DbInv, Finalize, ReservationsKept;
    FinalizeFacts(sys.db, sys.origin, s, bytes);
  }

  /** The state behind a commit that took effect. */
  function Committed(sys: System, aid: Id): System
    requires aid in sys.attempts && sys.attempts[aid].AtStaged?
    requires Finalize(sys.db, sys.attempts[aid].s, sys.attempts[aid].bytes).FinalizeOk?
  {
    var s := sys.attempts[aid].s;
    var f := Finalize(sys.db, s, sys.attempts[aid].bytes);
    sys.(db := f.db, script := LaterFates(sys.script), attempts := sys.attempts[aid := AtCommitted(s, f.outcome)])
  }

  lemma CommittedIsSafe(sys: System, aid: Id)
    requires Safe(sys) && aid in sys.attempts && sys.attempts[aid].AtStaged?
    requires Finalize(sys.db, sys.attempts[aid].s, sys.attempts[aid].bytes).FinalizeOk?
    ensures Keeps(sys, Committed(sys, aid))
  {
    var lucky := sys.(script := [Succeeds] + LaterFates(sys.script));
    TransactKeepsSafe(sys, sys.db, lucky);
    hide Safe, Monotone, Finalize;
    CommitEventSafe(lucky, aid);
    assert lucky.script[1..] == LaterFates(sys.script);
    assert CommitEvent(lucky, aid) == Committed(sys, aid);
    KeepsBoth(sys, lucky, Committed(sys, aid));
  }

  /** What a commit comes to: refused, committed, or ended with or without having committed. */
  lemma CommitEventIs(sys: System, aid: Id)
    requires aid in sys.attempts && sys.attempts[aid].AtStaged?
    ensures var s := sys.attempts[aid].s;
            var later := Ended(sys, aid).(script := LaterFates(sys.script));
            CommitEvent(sys, aid)
            == if Finalize(sys.db, s, sys.attempts[aid].bytes).FinalizeError? then AbortAndEnd(sys, aid, s)
               else var done := Committed(sys, aid);
                    match FirstFate(sys.script)
                    case Succeeds => done
                    case Dies => later
                    case RaisesBefore => WithRun(later, AbortRun(later.disk, s, later.script))
                    case RaisesAfter => WithRun(Ended(done, aid), AbortRun(done.disk, s, done.script))
  {
    hide Finalize, AbortRun;
    if Finalize(sys.db, sys.attempts[aid].s, sys.attempts[aid].bytes).FinalizeOk? {
      assert Ended(Committed(sys, aid), aid).attempts == sys.attempts - {aid};
    }
  }

  lemma CommitTracked(sys: System, aid: Id)
    requires Tracked(sys)
    ensures Tracked(CommitEvent(sys, aid))
  {
    if aid in sys.attempts && sys.attempts[aid].AtStaged? {
      hide Tracked, Finalize, AbortRun, CommitEvent;
      UncommittedTracked(sys, aid);
      CommitEventIs(sys, aid);
      if Finalize(sys.db, sys.attempts[aid].s, sys.attempts[aid].bytes).FinalizeOk? {
        DoneTracked(sys, aid);
        EndedTracked(Committed(sys, aid), aid);
        AbortTracked(Ended(Committed(sys, aid), aid), sys.attempts[aid].s);
      }
    }
  }

  lemma DoneTracked(sys: System, aid: Id)
    requires Tracked(sys) && aid in sys.attempts && sys.attempts[aid].AtStaged?
    requires Finalize(sys.db, sys.attempts[aid].s, sys.attempts[aid].bytes).FinalizeOk?
    ensures Tracked(Committed(sys, aid))
  {
    assert Safe(sys);
    CommittedIsSafe(sys, aid);
    hide Tracked, Finalize, Safe, ReservationsKept;
    FinalizeCommits(sys, aid, Committed(sys, aid));
    CommittedTracked(sys, aid, Finalize(sys.db, sys.attempts[aid].s, sys.attempts[aid].bytes).outcome, Committed(sys, aid));
  }

  /** The call ends without a commit, with or without an abort. */
  lemma UncommittedTracked(sys: System, aid: Id)
    requires Tracked(sys) && aid in sys.attempts && sys.attempts[aid].AtStaged?
    ensures var s := sys.attempts[aid].s;
            var later := Ended(sys, aid).(script := LaterFates(sys.script));
            && Tracked(later) && Tracked(AbortAndEnd(sys, aid, s))
            && Tracked(WithRun(later, AbortRun(later.disk, s, later.script)))
  {
    hide Tracked, AbortRun;
    var s := sys.attempts[aid].s;
    var gone := Ended(sys, aid);
    EndedTracked(sys, aid);
    AbortTracked(gone, s);
    ScriptTracked(gone, LaterFates(sys.script));
    AbortTracked(gone.(script := LaterFates(sys.script)), s);
  }

  // ---------------------------------------------------------------------
  // stage and sweep

  lemma StageTracked(sys: System, aid: Id, rid: Id, key: Id, m: Id, bytes: Bytes)
    requires Tracked(sys)
    ensures Tracked(StageEvent(sys, aid, rid, key, m, bytes))
  {
    hide Tracked, Safe, Monotone, StageEvent, AddsKey, StageLeaves;
    var sys' := StageEvent(sys, aid, rid, key, m, bytes);
    if sys' != sys {
      TrackedIsSafe(sys);
      StageEventSafe(sys, aid, rid, key, m, bytes);
      StageAddsKey(sys, aid, rid, key, m, bytes);
      NewKeyTracked(sys, sys', aid, StagedObject(sys.db.reservations[rid].item, rid, key, m), bytes);
    }
  }

  lemma TrackedIsSafe(sys: System)
    requires Tracked(sys)
    ensures Safe(sys)
  {
  }

  /** Every key and every manifest id that is about is in the history. */
  ghost predicate KeysUsed(sys: System) {
    && (forall k :: k in sys.origin ==> sys.origin[k].binding.manifestId in sys.usedManifests)
    && (forall b :: b in sys.attempts && !sys.attempts[b].AtReplay? ==> sys.attempts[b].s.key in sys.origin)
  }

  /** A fresh key, and an attempt on it if it was staged. */
  ghost predicate AddsKey(sys: System, sys': System, aid: Id, s: StagedObject, bytes: Bytes) {
    && s.key !in sys.origin && aid !in sys.attempts && s.manifestId !in sys.usedManifests
    && KeysUsed(sys)
    && sys'.db == sys.db && sys'.origin == sys.origin[s.key := Origin(s, bytes)]
    && (sys'.attempts == sys.attempts
        || (sys'.attempts == sys.attempts[aid := AtStaged(s, bytes)] && Held(sys', s)))
  }

  lemma KeysAreUsed(sys: System)
    requires Safe(sys)
    ensures KeysUsed(sys)
  {
    forall b | b in sys.attempts && !sys.attempts[b].AtReplay? ensures sys.attempts[b].s.key in sys.origin {
      assert AttemptInv(sys, b);
    }
  }

  lemma StageAddsKey(sys: System, aid: Id, rid: Id, key: Id, m: Id, bytes: Bytes)
    requires Tracked(sys) && StageEvent(sys, aid, rid, key, m, bytes) != sys
    ensures rid in sys.db.reservations
    ensures var s := StagedObject(sys.db.reservations[rid].item, rid, key, m);
            var sys' := StageEvent(sys, aid, rid, key, m, bytes);
            AddsKey(sys, sys', aid, s, bytes) && StageLeaves(sys.disk, s, bytes, sys'.disk)
  {
    hide Tracked, Safe, StageRun, StageLeaves, KeysUsed;
    TrackedIsSafe(sys);
    FreshKeyIsNotStaged(sys, key);
    KeysAreUsed(sys);
    StageRunLeaves(sys.disk, StagedObject(sys.db.reservations[rid].item, rid, key, m), bytes, sys.script);
  }

  lemma NewKeyUnknown(sys: System, sys': System, aid: Id, s: StagedObject, bytes: Bytes)
    requires Tracked(sys) && AddsKey(sys, sys', aid, s, bytes)
    ensures forall r :: r in sys'.db.reservations && sys'.db.reservations[r].facts.Some? ==>
              FactsKnown(sys', r) && sys'.db.reservations[r].facts.value.key != s.key
  {
    hide Safe;
    forall r | r in sys'.db.reservations && sys'.db.reservations[r].facts.Some?
      ensures FactsKnown(sys', r) && sys'.db.reservations[r].facts.value.key != s.key {
      assert FactsKnown(sys, r);
    }
  }

  lemma NewAttemptUnclaimed(sys: System, sys': System, aid: Id, s: StagedObject, bytes: Bytes)
    requires AddsKey(sys, sys', aid, s, bytes) && aid in sys'.attempts
    requires forall r :: r in sys'.db.reservations && sys'.db.reservations[r].facts.Some? ==>
               sys'.db.reservations[r].facts.value.key != s.key
    ensures AttemptNamed(sys', aid)
  {
    assert Unclaimed(sys', aid);
  }

  lemma OldAttemptUnclaimed(sys: System, sys': System, aid: Id, s: StagedObject, bytes: Bytes, b: Id)
    requires AddsKey(sys, sys', aid, s, bytes) && b in sys.attempts && AttemptNamed(sys, b)
    requires forall r :: r in sys'.db.reservations && sys'.db.reservations[r].facts.Some? ==>
               sys'.db.reservations[r].facts.value.key != s.key
    ensures AttemptNamed(sys', b)
  {
    if sys.attempts[b].AtStaged? { assert Unclaimed(sys, b); }
  }

  lemma NewKeyKeepsNames(sys: System, sys': System, aid: Id, s: StagedObject, bytes: Bytes, b: Id)
    requires Tracked(sys) && AddsKey(sys, sys', aid, s, bytes) && b in sys'.attempts
    ensures AttemptNamed(sys', b)
  {
    hide Tracked, FactsKnown, Safe, AttemptInv, AttemptNamed;
    NewKeyUnknown(sys, sys', aid, s, bytes);
    if b == aid {
      NewAttemptUnclaimed(sys, sys', aid, s, bytes);
    } else {
      TrackedAttempt(sys, b);
      OldAttemptUnclaimed(sys, sys', aid, s, bytes, b);
    }
  }

  lemma NewKeyTracked(sys: System, sys': System, aid: Id, s: StagedObject, bytes: Bytes)
    requires Tracked(sys) && Safe(sys') && AddsKey(sys, sys', aid, s, bytes)
    requires StageLeaves(sys.disk, s, bytes, sys'.disk)
    ensures Tracked(sys')
  {
    hide Tracked, Safe, FactsKnown, AttemptNamed, Wanted, AddsKey, StageLeaves, Held;
    NewKeyUnknown(sys, sys', aid, s, bytes);
    forall b | b in sys'.attempts ensures AttemptNamed(sys', b) {
      NewKeyKeepsNames(sys, sys', aid, s, bytes, b);
    }
    forall k | Wanted(sys', k) && k in sys'.disk.staged ensures k in sys'.origin && Held(sys', sys'.origin[k].binding) {
      NewKeyKeepsHeld(sys, sys', aid, s, bytes, k);
    }
    TrackedParts(sys');
  }

  lemma NewKeyKeepsHeld(sys: System, sys': System, aid: Id, s: StagedObject, bytes: Bytes, k: Id)
    requires Tracked(sys) && AddsKey(sys, sys', aid, s, bytes) && StageLeaves(sys.disk, s, bytes, sys'.disk)
    requires Wanted(sys', k) && k in sys'.disk.staged
    ensures k in sys'.origin && Held(sys', sys'.origin[k].binding)
  {
    hide Tracked, Wanted, FactsKnown;
    NewKeyUnknown(sys, sys', aid, s, bytes);
    NewKeyWanted(sys, sys', aid, s, bytes, k);
    if k != s.key {
      assert k in sys.disk.staged;
      WantedIsHeld(sys, k);
    }
  }

  lemma WantedIsHeld(sys: System, k: Id)
    requires Tracked(sys) && Wanted(sys, k) && k in sys.disk.staged
    ensures k in sys.origin && Held(sys, sys.origin[k].binding)
  {
  }

  lemma NewKeyWanted(sys: System, sys': System, aid: Id, s: StagedObject, bytes: Bytes, k: Id)
    requires Wanted(sys', k) && AddsKey(sys, sys', aid, s, bytes)
    requires forall r :: r in sys'.db.reservations && sys'.db.reservations[r].facts.Some? ==>
               sys'.db.reservations[r].facts.value.key != s.key
    ensures k != s.key ==> Wanted(sys, k) && k in sys.origin && sys.origin[k].binding == sys'.origin[k].binding
    ensures k == s.key ==> Held(sys', s) && sys'.origin[k].binding == s
  {
    if !IsArtifactKey(sys', k) {
      var b :| Opens(sys', b, k);
      assert b != aid ==> Opens(sys, b, k);
    }
  }

  lemma SweepTracked(sys: System, m: Id, answered: bool)
    requires Tracked(sys)
    ensures Tracked(SweepEvent(sys, m, answered))
  {
    if m in sys.disk.manifests && sys.disk.manifests[m].Manifest? {
      var answer := if answered then Checker(sys.db, sys.disk.manifests[m].item) else NoAnswer;
      var s := BindingOf(m, sys.disk.manifests[m]);
      var v := SweepOneLeaves(sys.disk, m, answer, sys.script);
      SweepEventSafe(sys, m, answered);
      hide Tracked, Safe, Monotone, SweepOne, MoveLeaves;
      MoveTracked(sys, s, v, SweepOne(sys.disk, m, answer, sys.script).0);
    }
  }

  /** Every event keeps every key known to those it belongs to, whatever fails in it. */
  lemma NextTracked(sys: System, e: Event)
    requires Tracked(sys)
    ensures Tracked(Next(sys, e))
  {
    hide Tracked;
    match e {
      case Reserve(_, _, _) => ReservationChangeTracked(sys, e);
      case Lapse(_, _) => ReservationChangeTracked(sys, e);
      case StageObject(aid, rid, key, m, bytes) => StageTracked(sys, aid, rid, key, m, bytes);
      case CommitFinalize(aid) => CommitTracked(sys, aid);
      case CompleteFresh(aid) => CompleteFreshTracked(sys, aid);
      case FindReplay(aid, rid) => FindReplayTracked(sys, aid, rid);
      case CompleteReplay(aid) => CompleteReplayTracked(sys, aid);
      case SweepManifest(m, answered) => SweepTracked(sys, m, answered);
      case Crash(aid) => EndedTracked(sys, aid);
    }
  }

  // ---------------------------------------------------------------------
  // Which event takes an object away

  /** `finalize` of this attempt would make the first artifact of its content. */
  predicate Creates(sys: System, aid: Id) {
    && aid in sys.attempts && sys.attempts[aid].AtStaged?
    && var s := sys.attempts[aid].s;
       && s.reservation in sys.db.reservations
       && var r := sys.db.reservations[s.reservation];
          && r.item == s.item && r.status == Active
          && Content(r.owner, sys.attempts[aid].bytes) !in sys.db.artifacts
  }

  /** The commit creates the artifact and is then reported as failed, and the abort that follows
      gets as far as unlinking the object. */
  predicate LosesOnCommit(sys: System, aid: Id) {
    && Creates(sys, aid) && FirstFate(sys.script) == RaisesAfter
    && TakesEffect(FirstFate(LaterFates(sys.script)))
  }

  /** The manifest is a live ingestion's and names an item without an artifact, and the sweep gets as
      far as unlinking the object. */
  ghost predicate RemovesALiveOne(sys: System, m: Id, answered: bool, k: Id) {
    && (exists aid :: Opens(sys, aid, k) && sys.attempts[aid].s.manifestId == m)
    && answered && m in sys.disk.manifests && sys.disk.manifests[m].Manifest?
    && !HasArtifact(sys.db, sys.disk.manifests[m].item)
    && k in sys.disk.staged && k !in sys.disk.referenced && TakesEffect(FirstFate(sys.script))
  }

  ghost predicate TakesAway(sys: System, e: Event, k: Id) {
    match e
    case CommitFinalize(aid) => LosesOnCommit(sys, aid) && sys.attempts[aid].s.key == k
    case SweepManifest(m, answered) => RemovesALiveOne(sys, m, answered, k)
    case _ => false
  }

  /** A file operation takes nothing but its own object away. */
  lemma MoveTakes(sys: System, s: StagedObject, v: Moves, r: Run, k: Id)
    requires MoveLeaves(sys.disk, s, v, r.disk) && OnDisk(sys, k)
    ensures !OnDisk(WithRun(sys, r), k) ==> k == s.key && v.unlinked && s.key !in r.disk.referenced
  {
  }

  lemma MarkTakesNothing(sys: System, s: StagedObject, k: Id)
    requires OnDisk(sys, k)
    ensures OnDisk(MarkAndConfirm(sys, s), k)
  {
    var v := MarkRunLeaves(sys.disk, s, sys.script);
    var r := MarkRun(sys.disk, s, sys.script);
    hide MarkRun, Confirm, MoveLeaves;
    MoveTakes(sys, s, v, r, k);
  }

  lemma AbortTakesItsOwn(sys: System, s: StagedObject, k: Id)
    requires OnDisk(sys, k) && k != s.key
    ensures OnDisk(WithRun(sys, AbortRun(sys.disk, s, sys.script)), k)
  {
    var v := AbortRunLeaves(sys.disk, s, sys.script);
    var r := AbortRun(sys.disk, s, sys.script);
    hide AbortRun, MoveLeaves;
    MoveTakes(sys, s, v, r, k);
  }

  /** The first step of the abort decides whether anything of the object goes. */
  lemma AbortOfHeld(sys: System, s: StagedObject)
    requires Held(sys, s) && s.key !in sys.disk.referenced
    ensures var r := AbortRun(sys.disk, s, sys.script);
            s.key !in r.disk.referenced && (s.key !in r.disk.staged <==> TakesEffect(FirstFate(sys.script)))
  {
    RunOfTwo(sys.disk, UnlinkStaged(s.key), UnlinkManifest(s.manifestId), sys.script);
    hide RunPlan;
  }

  /** Whoever still has this attempt's key is this attempt. */
  lemma UnclaimedIsWantedByOne(sys: System, aid: Id)
    requires Tracked(sys) && aid in sys.attempts && sys.attempts[aid].AtStaged?
    ensures var k := sys.attempts[aid].s.key;
            !IsArtifactKey(sys, k) && forall b :: Opens(sys, b, k) ==> b == aid
  {
    assert AttemptNamed(sys, aid) && Unclaimed(sys, aid);
    hide Tracked;
  }

  lemma CommittedNotWanted(sys: System, aid: Id)
    requires Tracked(sys) && aid in sys.attempts && sys.attempts[aid].AtCommitted?
    requires sys.attempts[aid].outcome.intent.action != MarkIt
    ensures !Wanted(sys, sys.attempts[aid].s.key)
  {
    assert AttemptNamed(sys, aid);
    forall b ensures !Opens(sys, b, sys.attempts[aid].s.key) {
      if b in sys.attempts && sys.attempts[b].AtStaged? {
        assert AttemptNamed(sys, b) && Unclaimed(sys, b);
      }
    }
    hide Tracked;
  }

  lemma RejectedNotWanted(sys: System, aid: Id)
    requires Tracked(sys) && aid in sys.attempts && sys.attempts[aid].AtReplay?
    requires sys.attempts[aid].outcome.intent.action == AbortIt
    ensures !Wanted(sys, sys.attempts[aid].outcome.intent.staged.key)
  {
    assert AttemptNamed(sys, aid);
    forall b ensures !Opens(sys, b, sys.attempts[aid].outcome.intent.staged.key) {
      if b in sys.attempts && sys.attempts[b].AtStaged? {
        assert AttemptNamed(sys, b) && Unclaimed(sys, b);
      }
    }
    hide Tracked;
  }

  lemma CompletionTakesNothing(sys: System, e: Event, k: Id)
    requires Tracked(sys) && Wanted(sys, k) && OnDisk(sys, k)
    requires e.CompleteFresh? || e.CompleteReplay?
    ensures OnDisk(Next(sys, e), k)
  {
    hide Tracked, Wanted, MarkAndConfirm, AbortRun, ReplayReservation;
    if e.CompleteFresh? && e.aid in sys.attempts && sys.attempts[e.aid].AtCommitted? {
      var s, o := sys.attempts[e.aid].s, sys.attempts[e.aid].outcome;
      if o.intent.action == MarkIt {
        MarkTakesNothing(sys, o.intent.staged, k);
      } else {
        CommittedNotWanted(sys, e.aid);
        AbortTakesItsOwn(sys, s, k);
      }
    } else if e.CompleteReplay? && e.aid in sys.attempts && sys.attempts[e.aid].AtReplay? {
      var o := sys.attempts[e.aid].outcome;
      if o.intent.action == MarkIt {
        MarkTakesNothing(sys, o.intent.staged, k);
      } else if o.intent.action == AbortIt {
        RejectedNotWanted(sys, e.aid);
        AbortTakesItsOwn(sys, o.intent.staged, k);
      }
    }
  }

  lemma StageTakesNothing(sys: System, aid: Id, rid: Id, key: Id, m: Id, bytes: Bytes, k: Id)
    requires Safe(sys) && OnDisk(sys, k)
    ensures OnDisk(StageEvent(sys, aid, rid, key, m, bytes), k)
  {
    var sys' := StageEvent(sys, aid, rid, key, m, bytes);
    if sys' != sys {
      FreshKeyIsNotStaged(sys, key);
      hide Safe, StageRun;
      StageRunLeaves(sys.disk, StagedObject(sys.db.reservations[rid].item, rid, key, m), bytes, sys.script);
    }
  }

  // ---------------------------------------------------------------------
  // A commit

  lemma CreatesExactly(sys: System, aid: Id)
    requires Tracked(sys) && aid in sys.attempts && sys.attempts[aid].AtStaged?
    ensures Creates(sys, aid) ==> Finalize(sys.db, sys.attempts[aid].s, sys.attempts[aid].bytes).FinalizeOk?
    ensures Finalize(sys.db, sys.attempts[aid].s, sys.attempts[aid].bytes).FinalizeOk? ==>
              (IsArtifactKey(Committed(sys, aid), sys.attempts[aid].s.key) <==> Creates(sys, aid))
  {
    assert AttemptInv(sys, aid);
    if Finalize(sys.db, sys.attempts[aid].s, sys.attempts[aid].bytes).FinalizeOk? {
      assert Safe(sys);
      CommittedIsSafe(sys, aid);
      FinalizeCommits(sys, aid, Committed(sys, aid));
      FinalizeMarksExactly(sys.db, sys.attempts[aid].s, sys.attempts[aid].bytes);
    }
    hide Tracked, Safe, Monotone, FactsAdded, AttemptInv;
  }

  lemma FinalizeMarksExactly(db: Db, s: StagedObject, bytes: Bytes)
    requires Finalize(db, s, bytes).FinalizeOk?
    ensures var f := Finalize(db, s, bytes);
            var r := db.reservations[s.reservation];
            var creates := r.status == Active && Content(r.owner, bytes) !in db.artifacts;
            && s.reservation in db.reservations && r.item == s.item
            && (f.outcome.intent.action == MarkIt <==> creates)
            && (creates ==> s.reservation in f.db.reservations
                            && f.db.reservations[s.reservation].facts
                               == Some(Facts(s.key, s.manifestId, Content(r.owner, bytes), MarkIt, s.item)))
  {
  }

  lemma ActiveHasNoArtifact(sys: System, rid: Id)
    requires Safe(sys) && rid in sys.db.reservations && sys.db.reservations[rid].status == Active
    ensures !HasArtifact(sys.db, sys.db.reservations[rid].item)
  {
    forall c | c in sys.db.artifacts ensures sys.db.artifacts[c].item != sys.db.reservations[rid].item {
      assert ArtifactInv(sys.db, sys.origin, c);
    }
  }

  /** The first object of an item is not referenced yet. */
  lemma CreatesNotReferenced(sys: System, aid: Id)
    requires Safe(sys) && Creates(sys, aid)
    ensures sys.attempts[aid].s.key !in sys.disk.referenced
  {
    var s := sys.attempts[aid].s;
    assert AttemptInv(sys, aid);
    ActiveHasNoArtifact(sys, s.reservation);
    hide HasArtifact;
  }

  lemma CommitTakesExactly(sys: System, aid: Id, k: Id)
    requires Tracked(sys) && Wanted(sys, k) && OnDisk(sys, k)
    ensures var sys' := CommitEvent(sys, aid);
            Wanted(sys', k) && !OnDisk(sys', k) <==> TakesAway(sys, CommitFinalize(aid), k)
  {
    if aid in sys.attempts && sys.attempts[aid].AtStaged? {
      hide Tracked, Wanted, CommitEvent, Creates, Finalize, OnDisk;
      if k == sys.attempts[aid].s.key {
        OwnCommitTakesExactly(sys, aid);
      } else {
        CommitTakesItsOwn(sys, aid, k);
      }
    }
  }

  lemma CommitTakesItsOwn(sys: System, aid: Id, k: Id)
    requires aid in sys.attempts && sys.attempts[aid].AtStaged?
    requires OnDisk(sys, k) && k != sys.attempts[aid].s.key
    ensures OnDisk(CommitEvent(sys, aid), k)
  {
    var s := sys.attempts[aid].s;
    hide AbortRun, Finalize;
    AbortTakesItsOwn(sys, s, k);
    AbortTakesItsOwn(sys.(script := LaterFates(sys.script)), s, k);
  }

  /** Once its attempt has ended, the object is wanted exactly if it is an artifact's. */
  lemma EndedIsWantedExactly(sys: System, aid: Id, sys': System)
    requires Tracked(sys) && aid in sys.attempts && sys.attempts[aid].AtStaged?
    requires sys'.attempts == sys.attempts - {aid} && sys'.origin == sys.origin
    ensures Wanted(sys', sys.attempts[aid].s.key) <==> IsArtifactKey(sys', sys.attempts[aid].s.key)
  {
    UnclaimedIsWantedByOne(sys, aid);
    forall b ensures !Opens(sys', b, sys.attempts[aid].s.key) {
      assert Opens(sys', b, sys.attempts[aid].s.key) ==> Opens(sys, b, sys.attempts[aid].s.key);
    }
    hide Tracked;
  }

  lemma KeyDependsOnDb(a: System, b: System, k: Id)
    requires a.db == b.db && a.origin == b.origin
    ensures IsArtifactKey(a, k) <==> IsArtifactKey(b, k)
  {
  }

  lemma UncommittedNotWanted(sys: System, aid: Id, sys': System)
    requires Tracked(sys) && aid in sys.attempts && sys.attempts[aid].AtStaged?
    requires sys'.attempts == sys.attempts - {aid} && sys'.origin == sys.origin && sys'.db == sys.db
    ensures !Wanted(sys', sys.attempts[aid].s.key)
  {
    UnclaimedIsWantedByOne(sys, aid);
    EndedIsWantedExactly(sys, aid, sys');
    KeyDependsOnDb(sys, sys', sys.attempts[aid].s.key);
    hide Tracked, Wanted, IsArtifactKey;
  }

  lemma LostAcknowledgementTakesExactly(sys: System, aid: Id)
    requires Tracked(sys) && aid in sys.attempts && sys.attempts[aid].AtStaged?
    requires Finalize(sys.db, sys.attempts[aid].s, sys.attempts[aid].bytes).FinalizeOk?
    requires OnDisk(sys, sys.attempts[aid].s.key)
    ensures var s := sys.attempts[aid].s;
            var done := Committed(sys, aid);
            var sys' := WithRun(Ended(done, aid), AbortRun(done.disk, s, done.script));
            Wanted(sys', s.key) && !OnDisk(sys', s.key)
            <==> Creates(sys, aid) && TakesEffect(FirstFate(LaterFates(sys.script)))
  {
    var s := sys.attempts[aid].s;
    var done := Committed(sys, aid);
    var sys' := WithRun(Ended(done, aid), AbortRun(done.disk, s, done.script));
    assert sys'.attempts == sys.attempts - {aid};
    CreatesExactly(sys, aid);
    EndedIsWantedExactly(sys, aid, sys');
    KeyDependsOnDb(done, sys', s.key);
    if Creates(sys, aid) {
      assert Safe(sys) && AttemptInv(sys, aid);
      CreatesNotReferenced(sys, aid);
      assert Opens(sys, aid, s.key) && Wanted(sys, s.key);
      AbortOfHeld(done, s);
    }
    hide Tracked, Safe, Creates, Finalize, AbortRun, IsArtifactKey, Wanted, AttemptInv;
  }

  lemma OwnCommitTakesExactly(sys: System, aid: Id)
    requires Tracked(sys) && aid in sys.attempts && sys.attempts[aid].AtStaged?
    requires OnDisk(sys, sys.attempts[aid].s.key)
    ensures var sys', k := CommitEvent(sys, aid), sys.attempts[aid].s.key;
            Wanted(sys', k) && !OnDisk(sys', k) <==> LosesOnCommit(sys, aid)
  {
    var s := sys.attempts[aid].s;
    CommitEventIs(sys, aid);
    CreatesExactly(sys, aid);
    var later := Ended(sys, aid).(script := LaterFates(sys.script));
    hide Tracked, CommitEvent, Creates, Finalize, AbortRun, Wanted, Committed;
    UncommittedNotWanted(sys, aid, AbortAndEnd(sys, aid, s));
    UncommittedNotWanted(sys, aid, WithRun(later, AbortRun(later.disk, s, later.script)));
    if Finalize(sys.db, s, sys.attempts[aid].bytes).FinalizeOk? {
      LostAcknowledgementTakesExactly(sys, aid);
      assert Committed(sys, aid).disk == sys.disk by { CommittedDisk(sys, aid); }
    }
  }

  lemma CommittedDisk(sys: System, aid: Id)
    requires aid in sys.attempts && sys.attempts[aid].AtStaged?
    requires Finalize(sys.db, sys.attempts[aid].s, sys.attempts[aid].bytes).FinalizeOk?
    ensures Committed(sys, aid).disk == sys.disk
  {
  }

  // ---------------------------------------------------------------------
  // A sweep

  lemma ArtifactKeyHasArtifact(sys: System, k: Id)
    requires Tracked(sys) && IsArtifactKey(sys, k)
    ensures HasArtifact(sys.db, sys.origin[k].binding.item)
  {
    var r := sys.origin[k].binding.reservation;
    assert FactsKnown(sys, r) && ReservationInv(sys.db, r);
    var c := sys.db.reservations[r].facts.value.canonical;
    assert ArtifactInv(sys.db, sys.origin, c);
    assert sys.db.artifacts[c].item == sys.origin[k].binding.item;
  }

  lemma SweepTakesItsOwn(sys: System, m: Id, answered: bool, k: Id)
    requires Safe(sys) && OnDisk(sys, k) && !OnDisk(SweepEvent(sys, m, answered), k)
    ensures answered && m in sys.disk.manifests && sys.disk.manifests[m].Manifest?
    ensures !HasArtifact(sys.db, sys.disk.manifests[m].item)
    ensures k == sys.disk.manifests[m].key && k !in sys.disk.referenced
    ensures k in sys.origin && sys.origin[k].binding == BindingOf(m, sys.disk.manifests[m])
  {
    assert ReadsAsStaged(sys.disk, sys.origin, m);
    var answer := if answered then Checker(sys.db, sys.disk.manifests[m].item) else NoAnswer;
    var v := SweepOneLeaves(sys.disk, m, answer, sys.script);
    hide Safe, MoveLeaves;
    MoveTakes(sys, BindingOf(m, sys.disk.manifests[m]), v, SweepOne(sys.disk, m, answer, sys.script).0, k);
    hide SweepOne;
  }

  lemma SweepTakesExactly(sys: System, m: Id, answered: bool, k: Id)
    requires Tracked(sys) && Wanted(sys, k) && OnDisk(sys, k)
    ensures var sys' := SweepEvent(sys, m, answered);
            Wanted(sys', k) && !OnDisk(sys', k) <==> RemovesALiveOne(sys, m, answered, k)
  {
    var sys' := SweepEvent(sys, m, answered);
    assert sys'.attempts == sys.attempts && sys'.db == sys.db && sys'.origin == sys.origin;
    SameNamesSameWanted(sys, sys', k);
    if !OnDisk(sys', k) {
      SweepTakesItsOwn(sys, m, answered, k);
      if IsArtifactKey(sys, k) {
        ArtifactKeyHasArtifact(sys, k);
      } else {
        var aid :| Opens(sys, aid, k);
        assert AttemptInv(sys, aid);
        LiveSweepTakesExactly(sys, m, aid);
      }
    } else if RemovesALiveOne(sys, m, answered, k) {
      var aid :| Opens(sys, aid, k) && sys.attempts[aid].s.manifestId == m;
      assert AttemptInv(sys, aid);
      LiveSweepTakesExactly(sys, m, aid);
    }
    hide Tracked, SweepEvent, IsArtifactKey;
  }

  lemma SameNamesSameWanted(sys: System, sys': System, k: Id)
    requires sys'.attempts == sys.attempts && sys'.db == sys.db && sys'.origin == sys.origin
    ensures Wanted(sys', k) <==> Wanted(sys, k)
  {
    KeyDependsOnDb(sys, sys', k);
    assert forall aid :: Opens(sys', aid, k) <==> Opens(sys, aid, k);
    hide IsArtifactKey;
  }

  /** The sweep of a live ingestion's manifest, where its item has no artifact. */
  lemma LiveSweepTakesExactly(sys: System, m: Id, aid: Id)
    requires Tracked(sys) && aid in sys.attempts && sys.attempts[aid].AtStaged?
    requires var s := sys.attempts[aid].s;
             && s.manifestId == m && s.key in sys.origin && sys.origin[s.key].binding == s
             && s.key in sys.disk.staged && s.key !in sys.disk.referenced && !HasArtifact(sys.db, s.item)
    ensures m in sys.disk.manifests && sys.disk.manifests[m] == ManifestOf(sys.attempts[aid].s, PhaseStaged)
    ensures !OnDisk(SweepEvent(sys, m, true), sys.attempts[aid].s.key) <==> TakesEffect(FirstFate(sys.script))
  {
    var s := sys.attempts[aid].s;
    assert Opens(sys, aid, s.key) && Wanted(sys, s.key) && Held(sys, s);
    hide Tracked, Wanted;
    AbortOfHeld(sys, s);
    assert SweepPlan(sys.disk, m, NotReferenced) == Some([UnlinkStaged(s.key), UnlinkManifest(m)]);
    hide RunPlan;
  }

  // ---------------------------------------------------------------------
  // Whole runs

  /** Event by event: what is wanted and on disk is gone afterwards, and still wanted, exactly when
      the event takes it away. */
  lemma NextTakesExactly(sys: System, e: Event, k: Id)
    requires Tracked(sys) && Wanted(sys, k) && OnDisk(sys, k)
    ensures var sys' := Next(sys, e);
            Wanted(sys', k) && !OnDisk(sys', k) <==> TakesAway(sys, e, k)
  {
    TrackedIsSafe(sys);
    hide Tracked, Safe, Wanted, StageEvent, CommitEvent, CompleteFreshEvent, CompleteReplayEvent, SweepEvent,
         LosesOnCommit, RemovesALiveOne, ReplayReservation, NoNewNames;
    match e {
      case Reserve(_, _, _) => ReservationChangeTracked(sys, e);
      case Lapse(_, _) => ReservationChangeTracked(sys, e);
      case StageObject(aid, rid, key, m, bytes) => StageTakesNothing(sys, aid, rid, key, m, bytes, k);
      case CommitFinalize(aid) => CommitTakesExactly(sys, aid, k);
      case CompleteFresh(_) => CompletionTakesNothing(sys, e, k);
      case FindReplay(_, _) =>
      case CompleteReplay(_) => CompletionTakesNothing(sys, e, k);
      case SweepManifest(m, answered) => SweepTakesExactly(sys, m, answered, k);
      case Crash(_) =>
    }
  }

  /** No new facts, and no new attempt that has staged something. */
  ghost predicate WantsNothingNew(sys: System, sys': System) {
    && sys'.origin == sys.origin
    && (forall r :: r in sys'.db.reservations && sys'.db.reservations[r].facts.Some? ==>
          r in sys.db.reservations && sys.db.reservations[r].facts.Some?)
    && (forall aid :: aid in sys'.attempts && sys'.attempts[aid].AtStaged? ==>
          aid in sys.attempts && sys'.attempts[aid] == sys.attempts[aid])
  }

  lemma NothingNewIsWanted(sys: System, sys': System, k: Id)
    requires WantsNothingNew(sys, sys') && ReservationsKept(sys.db, sys'.db) && Wanted(sys', k)
    ensures Wanted(sys, k)
  {
    if !IsArtifactKey(sys', k) {
      var aid :| Opens(sys', aid, k);
      assert Opens(sys, aid, k);
    }
  }

  lemma MarkWantsNothingNew(sys: System, s: StagedObject)
    ensures WantsNothingNew(sys, MarkAndConfirm(sys, s)) && MarkAndConfirm(sys, s).attempts == sys.attempts
  {
    var r := MarkRun(sys.disk, s, sys.script);
    if Confirm(sys.db, s).Some? {
      NoNewFactsInConfirm(sys.db, s);
    }
    hide MarkRun, Confirm;
  }

  lemma AskingWantsNothingNew(sys: System, aid: Id, s: StagedObject, rid: Id)
    ensures var after := WithRun(sys, AbortRun(sys.disk, s, sys.script));
            var (db', found) := ReplayReservation(after.db, rid);
            var asked := Transact(after, db');
            && WantsNothingNew(sys, Ended(after, aid)) && WantsNothingNew(sys, Ended(asked, aid))
            && (found.Some? ==> WantsNothingNew(sys, asked.(attempts := sys.attempts[aid := AtReplay(found.value)])))
  {
    NoNewFactsInReplay(sys.db, rid);
    hide AbortRun, ReplayReservation;
  }

  lemma FreshWantsNothingNew(sys: System, aid: Id)
    ensures WantsNothingNew(sys, CompleteFreshEvent(sys, aid))
  {
    if aid in sys.attempts && sys.attempts[aid].AtCommitted? {
      var s, o := sys.attempts[aid].s, sys.attempts[aid].outcome;
      EndingWantsNothingNew(sys, sys, aid);
      MarkWantsNothingNew(sys, o.intent.staged);
      EndingWantsNothingNew(sys, MarkAndConfirm(sys, o.intent.staged), aid);
      AskingWantsNothingNew(sys, aid, s, s.reservation);
      hide WantsNothingNew, MarkAndConfirm, AbortRun, ReplayReservation, FreshOutcomeOk;
    }
  }

  lemma EndingWantsNothingNew(sys: System, sys': System, aid: Id)
    requires WantsNothingNew(sys, sys') || sys' == sys
    ensures WantsNothingNew(sys, Ended(sys', aid))
  {
  }

  lemma ReplayWantsNothingNew(sys: System, aid: Id)
    ensures WantsNothingNew(sys, CompleteReplayEvent(sys, aid))
  {
    if aid in sys.attempts && sys.attempts[aid].AtReplay? {
      MarkWantsNothingNew(sys, sys.attempts[aid].outcome.intent.staged);
    }
    hide MarkAndConfirm, AbortRun, ReplayOutcomeOk;
  }

  lemma FindWantsNothingNew(sys: System, aid: Id, rid: Id)
    ensures WantsNothingNew(sys, FindReplayEvent(sys, aid, rid))
  {
    NoNewFactsInReplay(sys.db, rid);
    hide ReplayReservation;
  }

  lemma CompletionWantsNothingNew(sys: System, e: Event)
    requires e.CompleteFresh? || e.FindReplay? || e.CompleteReplay? || e.Crash?
    ensures WantsNothingNew(sys, Next(sys, e))
  {
    match e {
      case CompleteFresh(aid) => FreshWantsNothingNew(sys, aid);
      case FindReplay(aid, rid) => FindWantsNothingNew(sys, aid, rid);
      case CompleteReplay(aid) => ReplayWantsNothingNew(sys, aid);
      case Crash(_) =>
    }
    hide CompleteFreshEvent, FindReplayEvent, CompleteReplayEvent;
  }

  lemma DoneWantsNoMore(sys: System, aid: Id, k: Id)
    requires Tracked(sys) && aid in sys.attempts && sys.attempts[aid].AtStaged?
    requires Finalize(sys.db, sys.attempts[aid].s, sys.attempts[aid].bytes).FinalizeOk?
    requires Wanted(Committed(sys, aid), k)
    ensures Wanted(sys, k)
  {
    assert Safe(sys);
    CommittedIsSafe(sys, aid);
    hide Tracked, Safe, Finalize, Wanted, ReservationsKept;
    FinalizeCommits(sys, aid, Committed(sys, aid));
    CommitWantsNothingNew(
      sys, aid, Finalize(sys.db, sys.attempts[aid].s, sys.attempts[aid].bytes).outcome, Committed(sys, aid), k);
  }

  lemma EndWantsNothingNew(sys: System, aid: Id, sys': System, k: Id)
    requires sys'.attempts == sys.attempts - {aid} && sys'.db == sys.db && sys'.origin == sys.origin
    requires Wanted(sys', k)
    ensures Wanted(sys, k)
  {
    assert WantsNothingNew(sys, sys');
    hide Wanted;
    NothingNewIsWanted(sys, sys', k);
  }

  lemma CommitWantsNoMore(sys: System, aid: Id, k: Id)
    requires Tracked(sys) && Wanted(CommitEvent(sys, aid), k)
    ensures Wanted(sys, k)
  {
    if aid in sys.attempts && sys.attempts[aid].AtStaged? {
      var sys' := CommitEvent(sys, aid);
      CommitEventIs(sys, aid);
      hide Tracked, CommitEvent, AbortRun, Finalize, Wanted;
      if Finalize(sys.db, sys.attempts[aid].s, sys.attempts[aid].bytes).FinalizeOk?
         && TakesEffect(FirstFate(sys.script)) {
        var done := Committed(sys, aid);
        if FirstFate(sys.script).RaisesAfter? {
          EndWantsNothingNew(done, aid, sys', k);
        }
        DoneWantsNoMore(sys, aid, k);
      } else {
        EndWantsNothingNew(sys, aid, sys', k);
      }
    }
  }

  lemma StageWantsItsOwn(sys: System, aid: Id, rid: Id, key: Id, m: Id, bytes: Bytes, k: Id)
    requires Tracked(sys) && Wanted(StageEvent(sys, aid, rid, key, m, bytes), k) && !Wanted(sys, k)
    ensures k !in sys.origin && OnDisk(StageEvent(sys, aid, rid, key, m, bytes), k)
  {
    var sys' := StageEvent(sys, aid, rid, key, m, bytes);
    var s := StagedObject(sys.db.reservations[rid].item, rid, key, m);
    hide Tracked, Wanted, StageEvent, FactsKnown, StageLeaves;
    StageAddsKey(sys, aid, rid, key, m, bytes);
    NewKeyUnknown(sys, sys', aid, s, bytes);
    NewKeyWanted(sys, sys', aid, s, bytes, k);
  }

  /** A key becomes wanted only when its object is staged. */
  lemma NewlyWantedIsStaged(sys: System, e: Event, k: Id)
    requires Tracked(sys) && Wanted(Next(sys, e), k) && !Wanted(sys, k)
    ensures k !in sys.origin && OnDisk(Next(sys, e), k)
  {
    var sys' := Next(sys, e);
    assert Safe(sys);
    NextSafe(sys, e);
    hide Tracked, Safe, Wanted, StageEvent, CommitEvent, CompleteFreshEvent, CompleteReplayEvent, SweepEvent,
         FindReplayEvent, ReservationsKept;
    match e {
      case StageObject(aid, rid, key, m, bytes) => StageWantsItsOwn(sys, aid, rid, key, m, bytes, k);
      case CommitFinalize(aid) => CommitWantsNoMore(sys, aid, k);
      case SweepManifest(m, answered) => SweepWantsNothingNew(sys, m, answered, k);
      case Reserve(_, _, _) => ReservationChangeTracked(sys, e); NoNewNamesNothingWanted(sys, sys', k);
      case Lapse(_, _) => ReservationChangeTracked(sys, e); NoNewNamesNothingWanted(sys, sys', k);
      case _ =>
        CompletionWantsNothingNew(sys, e);
        NothingNewIsWanted(sys, sys', k);
    }
  }

  lemma SweepWantsNothingNew(sys: System, m: Id, answered: bool, k: Id)
    ensures Wanted(SweepEvent(sys, m, answered), k) <==> Wanted(sys, k)
  {
    hide SweepOne, Wanted;
    SameNamesSameWanted(sys, SweepEvent(sys, m, answered), k);
  }

  /** Some event of the run takes the object away. */
  ghost predicate TakenAway(sys: System, events: seq<Event>, k: Id)
    decreases |events|
  {
    events != [] && (TakesAway(sys, events[0], k) || TakenAway(Next(sys, events[0]), events[1..], k))
  }

  lemma TakingNeedsItThere(sys: System, e: Event, k: Id)
    requires Tracked(sys) && TakesAway(sys, e, k) && (Wanted(sys, k) ==> OnDisk(sys, k))
    ensures Wanted(sys, k) && OnDisk(sys, k)
  {
    if e.CommitFinalize? {
      assert AttemptInv(sys, e.aid) && Opens(sys, e.aid, k);
    } else {
      var aid :| Opens(sys, aid, k) && sys.attempts[aid].s.manifestId == e.manifestId;
      assert AttemptInv(sys, aid);
    }
    hide Tracked;
  }

  /** Main result over runs: the object of an artifact row is in neither directory if and only if one
      event of the run took it away, by losing an acknowledgement or by sweeping a live ingestion. */
  lemma {:induction false} GoneExactly(sys: System, events: seq<Event>, k: Id)
    requires Tracked(sys) && (Wanted(sys, k) ==> OnDisk(sys, k))
    ensures var end := RunEvents(sys, events);
            IsArtifactKey(end, k) ==> (!OnDisk(end, k) <==> TakenAway(sys, events, k))
    decreases |events|
  {
    hide Tracked, Wanted, IsArtifactKey, OnDisk, TakesAway;
    if events == [] {
      ArtifactKeyIsWanted(sys, k);
    } else {
      var e, rest := events[0], events[1..];
      var sys' := Next(sys, e);
      NextTracked(sys, e);
      if TakesAway(sys, e, k) {
        TakingNeedsItThere(sys, e, k);
        NextTakesExactly(sys, e, k);
        GoneForGood(sys', rest, k);
      } else {
        if Wanted(sys', k) {
          if Wanted(sys, k) {
            NextTakesExactly(sys, e, k);
          } else {
            NewlyWantedIsStaged(sys, e, k);
          }
        }
        GoneExactly(sys', rest, k);
      }
    }
  }

  lemma ArtifactKeyIsWanted(sys: System, k: Id)
    ensures IsArtifactKey(sys, k) ==> Wanted(sys, k)
  {
  }

  lemma GoneForGood(sys: System, events: seq<Event>, k: Id)
    requires Tracked(sys) && Wanted(sys, k) && !OnDisk(sys, k)
    ensures !OnDisk(RunEvents(sys, events), k)
  {
    RunSafe(sys, events);
    hide Safe, RunEvents;
  }

  lemma {:induction false} RunTracked(sys: System, events: seq<Event>)
    requires Tracked(sys)
    ensures Tracked(RunEvents(sys, events))
    decreases |events|
  {
    hide Tracked;
    if events != [] {
      NextTracked(sys, events[0]);
      RunTracked(Next(sys, events[0]), events[1..]);
    }
  }

  /** Where the object of every artifact row is at the end of every run: in `referenced/`, or staged
      under a published manifest that binds it, with exactly the finalized bytes; or in neither, and
      then an event took it away. */
  lemma FinalizedObjectsAreKeptExactly(script: Script, events: seq<Event>, c: Content)
    requires c in RunEvents(Initial(script), events).db.artifacts
    ensures var sys := RunEvents(Initial(script), events);
            var a := sys.db.artifacts[c];
            if TakenAway(Initial(script), events, a.key)
            then a.key !in sys.disk.referenced && a.key !in sys.disk.staged
            else || (a.key in sys.disk.referenced && sys.disk.referenced[a.key] == c.bytes)
                 || (Held(sys, StagedObject(a.item, a.creator, a.key, a.manifestId))
                     && sys.disk.staged[a.key] == c.bytes)
  {
    var sys := RunEvents(Initial(script), events);
    var k := sys.db.artifacts[c].key;
    RunTracked(Initial(script), events);
    GoneExactly(Initial(script), events, k);
    assert ArtifactInv(sys.db, sys.origin, c);
    assert IsArtifactKey(sys, k) && Wanted(sys, k);
    hide RunEvents, TakenAway, FactsKnown, AttemptNamed;
  }

  // ---------------------------------------------------------------------
  // Replays that succeed

  /** A replay whose steps succeed makes the evidence of a pending MARK_REFERENCED reservation visible
      exactly when its object is on disk. */
  lemma ReplayCompletesExactly(sys: System, aid: Id, rid: Id)
    requires Tracked(sys) && sys.script == [] && aid !in sys.attempts
    requires rid in sys.db.reservations && sys.db.reservations[rid].status == PendingReference
    requires sys.db.reservations[rid].facts.Some? && sys.db.reservations[rid].facts.value.intent == MarkIt
    ensures Visible(Next(Next(sys, FindReplay(aid, rid)), CompleteReplay(aid)).db, rid)
            <==> OnDisk(sys, sys.db.reservations[rid].facts.value.key)
  {
    var s := StagedOf(sys.db, rid);
    PendingIsBound(sys, rid);
    MarkSucceedsExactly(sys, s);
    AskedForPending(sys, aid, rid);
    hide Tracked, OnDisk;
    ReplayMarks(Next(sys, FindReplay(aid, rid)), aid, rid);
  }

  lemma AskedForPending(sys: System, aid: Id, rid: Id)
    requires sys.script == [] && aid !in sys.attempts
    requires rid in sys.db.reservations && sys.db.reservations[rid].status == PendingReference
    requires sys.db.reservations[rid].facts.Some? && sys.db.reservations[rid].facts.value.intent == MarkIt
    ensures Next(sys, FindReplay(aid, rid))
         == sys.(attempts := sys.attempts[aid := AtReplay(OutcomeOf(sys.db, rid, MarkIt, false))])
  {
  }

  lemma ReplayMarks(sys: System, aid: Id, rid: Id)
    requires rid in sys.db.reservations && sys.db.reservations[rid].status == PendingReference
    requires sys.db.reservations[rid].facts.Some? && sys.db.reservations[rid].facts.value.intent == MarkIt
    requires sys.db.reservations[rid].facts.value.canonical in sys.db.artifacts
    requires sys.db.reservations[rid].facts.value.resultItem == sys.db.reservations[rid].item
    requires sys.script == [] && aid in sys.attempts
    requires sys.attempts[aid] == AtReplay(OutcomeOf(sys.db, rid, MarkIt, false))
    requires MarkRun(sys.disk, StagedOf(sys.db, rid), []).ending.Done? ==>
               MarkRun(sys.disk, StagedOf(sys.db, rid), []).script == []
    ensures Visible(Next(sys, CompleteReplay(aid)).db, rid)
            <==> MarkRun(sys.disk, StagedOf(sys.db, rid), []).ending.Done?
  {
    ConfirmVisible(sys.db, rid);
    hide MarkRun, Confirm;
  }

  lemma ConfirmVisible(db: Db, rid: Id)
    requires rid in db.reservations && db.reservations[rid].status == PendingReference
    requires db.reservations[rid].facts.Some? && db.reservations[rid].facts.value.intent == MarkIt
    requires db.reservations[rid].facts.value.canonical in db.artifacts
    ensures Confirm(db, StagedOf(db, rid)).Some? && Visible(Confirm(db, StagedOf(db, rid)).value, rid)
  {
  }

  lemma PendingIsBound(sys: System, rid: Id)
    requires Tracked(sys)
    requires rid in sys.db.reservations && sys.db.reservations[rid].status == PendingReference
    requires sys.db.reservations[rid].facts.Some? && sys.db.reservations[rid].facts.value.intent == MarkIt
    ensures var s := StagedOf(sys.db, rid);
            && s.key in sys.origin && sys.origin[s.key].binding == s
            && (s.key in sys.disk.staged ==> Held(sys, s))
            && sys.db.reservations[rid].facts.value.canonical in sys.db.artifacts
            && sys.db.reservations[rid].facts.value.resultItem == s.item
  {
    assert ReservationInv(sys.db, rid) && FactsKnown(sys, rid);
    assert ArtifactInv(sys.db, sys.origin, sys.db.reservations[rid].facts.value.canonical);
    assert IsArtifactKey(sys, StagedOf(sys.db, rid).key) && Wanted(sys, StagedOf(sys.db, rid).key);
    hide AttemptNamed;
  }

  lemma MarkSucceedsExactly(sys: System, s: StagedObject)
    requires Safe(sys) && s.key in sys.origin && sys.origin[s.key].binding == s
    requires s.key in sys.disk.staged ==> Held(sys, s)
    ensures MarkRun(sys.disk, s, []).ending.Done? <==> OnDisk(sys, s.key)
    ensures MarkRun(sys.disk, s, []).ending.Done? ==> MarkRun(sys.disk, s, []).script == []
  {
    BoundByItsManifest(sys.disk, sys.origin, sys.usedManifests, s);
    hide Safe, MarkRun;
    MarkOfBoundSucceeds(sys.disk, s);
  }

  lemma BoundByItsManifest(d: Disk, origin: map<Id, Origin>, used: map<Id, Id>, s: StagedObject)
    requires StoreInv(d, origin, used) && s.key in origin && origin[s.key].binding == s
    ensures s.key in d.staged && s.key in d.referenced ==> d.staged[s.key] == d.referenced[s.key]
    ensures s.key in d.referenced && s.manifestId in d.manifests ==>
              d.manifests[s.manifestId] == ManifestOf(s, PhaseStaged)
  {
    if s.manifestId in d.manifests {
      assert ReadsAsStaged(d, origin, s.manifestId);
      assert d.manifests[s.manifestId].key == s.key;
    }
  }

  lemma MarkOfBoundSucceeds(d: Disk, s: StagedObject)
    requires s.key in d.staged ==> s.manifestId in d.manifests
    requires s.manifestId in d.manifests && (s.key in d.staged || s.key in d.referenced) ==>
               d.manifests[s.manifestId] == ManifestOf(s, PhaseStaged)
    requires s.key in d.staged && s.key in d.referenced ==> d.staged[s.key] == d.referenced[s.key]
    ensures MarkRun(d, s, []).ending.Done? <==> s.key in d.staged || s.key in d.referenced
    ensures MarkRun(d, s, []).ending.Done? ==> MarkRun(d, s, []).script == []
  {
    if s.key in d.staged && s.key !in d.referenced {
      RunOfThree(d, LinkReferenced(s.key), UnlinkStaged(s.key), UnlinkManifest(s.manifestId), []);
      RunOfTwo(Apply(d, LinkReferenced(s.key)), UnlinkStaged(s.key), UnlinkManifest(s.manifestId), []);
    } else if s.key in d.staged {
      RunOfTwo(d, UnlinkStaged(s.key), UnlinkManifest(s.manifestId), []);
    } else {
      RunOfTwo(d, UnlinkManifest(s.manifestId), UnlinkManifest(s.manifestId), []);
      EmptyPlan(d);
    }
    hide RunPlan;
  }

  lemma EmptyPlan(d: Disk)
    ensures RunPlan(d, [], []) == Run(d, Done, [])
  {
  }
}

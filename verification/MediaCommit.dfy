/** The commit protocol across the database and the object store: ingestion, replay and the
    janitor (agent-server/focusproof/media_core/ingestion.py, the media transactions of
    agent-server/focusproof/persistence/repositories.py). */
module MediaCommit {
  import opened Basics
  import opened MediaObjectStore

  // ---------------------------------------------------------------------
  // The database

  datatype Status = Active | PendingReference | Completed | Rejected | Expired

  datatype Action = MarkIt | AbortIt | NothingToDo

  datatype Completion = Adopted | Follower | DirectReuse

  /** Media content of one owner. The digest column is injective, so the bytes stand for it. */
  datatype Content = Content(owner: Id, bytes: Bytes)

  /** What `_store_pending_facts` and the intent columns record about a finalized reservation. */
  datatype Facts = Facts(key: Id, manifestId: Id, canonical: Content, intent: Action, resultItem: Id)

  datatype Reservation = Reservation(
    item: Id,
    owner: Id,
    status: Status,
    facts: Option<Facts>,
    completion: Option<Completion>)

  datatype Artifact = Artifact(item: Id, key: Id, manifestId: Id, creator: Id, referenced: bool)

  datatype Db = Db(reservations: map<Id, Reservation>, artifacts: map<Content, Artifact>)

  datatype Intent = Intent(staged: StagedObject, action: Action)

  datatype Outcome = Outcome(resultItem: Id, intent: Intent, visible: bool)

  /** Evidence is visible once its reservation is completed. */
  predicate Visible(db: Db, rid: Id) {
    rid in db.reservations && db.reservations[rid].status == Completed
  }

  function StagedOf(db: Db, rid: Id): StagedObject
    requires rid in db.reservations && db.reservations[rid].facts.Some?
  {
    var r := db.reservations[rid];
    StagedObject(r.item, rid, r.facts.value.key, r.facts.value.manifestId)
  }

  function OutcomeOf(db: Db, rid: Id, action: Action, visible: bool): Outcome
    requires rid in db.reservations && db.reservations[rid].facts.Some?
  {
    Outcome(db.reservations[rid].facts.value.resultItem, Intent(StagedOf(db, rid), action), visible)
  }

  function Complete(db: Db, rid: Id, how: Completion): Db
    requires rid in db.reservations
  {
    db.(reservations := db.reservations[rid :=
          db.reservations[rid].(status := Completed, completion := Some(how))])
  }

  /** `_replay_locked_reservation`: the outcome on record, completing a follower whose artifact
      has become referenced. */
  function ReplayReservation(db: Db, rid: Id): (Db, Option<Outcome>) {
    if rid !in db.reservations || db.reservations[rid].facts.None? then (db, None)
    else
      var r := db.reservations[rid];
      var f := r.facts.value;
      if r.status == PendingReference then
        if f.intent == AbortIt && f.canonical in db.artifacts && db.artifacts[f.canonical].referenced
        then
          var done := Complete(db, rid, Follower);
          (done, Some(OutcomeOf(done, rid, NothingToDo, true)))
        else (db, Some(OutcomeOf(db, rid, f.intent, false)))
      else if r.status == Completed then
        var action := if r.completion == Some(DirectReuse) then AbortIt else NothingToDo;
        (db, Some(OutcomeOf(db, rid, action, true)))
      else (db, None)
  }

  datatype Finalized = FinalizeError | FinalizeOk(db: Db, outcome: Outcome)

  /** `finalize` of a staged object with its normalized bytes. */
  function Finalize(db: Db, s: StagedObject, bytes: Bytes): Finalized {
    var rid := s.reservation;
    if rid !in db.reservations || db.reservations[rid].item != s.item then FinalizeError
    else
      var r := db.reservations[rid];
      if r.status == PendingReference || r.status == Completed then
        var (db', o) := ReplayReservation(db, rid);
        match o
        case None => FinalizeError
        case Some(outcome) =>
          if r.status == PendingReference && outcome.intent.action == MarkIt
          then FinalizeOk(db', Outcome(outcome.resultItem, Intent(s, AbortIt), false))
          else FinalizeOk(db', outcome)
      else if r.status != Active then FinalizeError
      else FinalizeActive(db, s, Content(r.owner, bytes))
  }

  function FinalizeActive(db: Db, s: StagedObject, content: Content): Finalized
    requires s.reservation in db.reservations
  {
    var rid := s.reservation;
    var r := db.reservations[rid];
    if content in db.artifacts then
      var artifact := db.artifacts[content];
      var facts := Facts(s.key, s.manifestId, content, AbortIt, artifact.item);
      var held := db.(reservations := db.reservations[rid :=
                        r.(status := PendingReference, facts := Some(facts))]);
      if artifact.referenced then
        var done := Complete(held, rid, DirectReuse);
        FinalizeOk(done, OutcomeOf(done, rid, AbortIt, true))
      else FinalizeOk(held, OutcomeOf(held, rid, AbortIt, false))
    else
      var facts := Facts(s.key, s.manifestId, content, MarkIt, s.item);
      var held := Db(db.reservations[rid := r.(status := PendingReference, facts := Some(facts))],
                     db.artifacts[content := Artifact(s.item, s.key, s.manifestId, rid, false)]);
      FinalizeOk(held, OutcomeOf(held, rid, MarkIt, false))
  }

  /** `confirm_reference`. */
  function Confirm(db: Db, staged: StagedObject): Option<Db> {
    var rid := staged.reservation;
    if rid !in db.reservations || db.reservations[rid].facts.None? then None
    else
      var r := db.reservations[rid];
      if r.facts.value.intent != MarkIt || StagedOf(db, rid) != staged then None
      else if r.status == Completed then Some(db)
      else if r.status != PendingReference || r.facts.value.canonical !in db.artifacts then None
      else
        var c := r.facts.value.canonical;
        var marked := db.(artifacts := db.artifacts[c := db.artifacts[c].(referenced := true)]);
        Some(Complete(marked, rid, Adopted))
  }

  /** The reference checker agrees with the database: an item is referenced once an artifact
      carries it. */
  ghost predicate HasArtifact(db: Db, item: Id) {
    exists c :: c in db.artifacts && db.artifacts[c].item == item
  }

  ghost function Checker(db: Db, item: Id): Answer {
    if HasArtifact(db, item) then IsReferenced else NotReferenced
  }

  // ---------------------------------------------------------------------
  // The reference-outcome asserts

  predicate FreshOutcomeOk(o: Outcome, s: StagedObject) {
    match o.intent.action
    case MarkIt => o.intent.staged == s && !o.visible && o.resultItem == s.item
    case AbortIt =>
      if o.visible
      then o.intent.staged.item == s.item && o.intent.staged.reservation == s.reservation
      else o.intent.staged == s
    case NothingToDo => o.visible && o.resultItem == o.intent.staged.item
  }

  predicate ReplayOutcomeOk(o: Outcome) {
    match o.intent.action
    case MarkIt => !o.visible && o.intent.staged.item == o.resultItem
    case AbortIt => o.resultItem != o.intent.staged.item
    case NothingToDo => o.visible
  }

  // ---------------------------------------------------------------------
  // The whole system, event by event

  /** What was staged under a key: its binding and its bytes. History only. */
  datatype Origin = Origin(binding: StagedObject, bytes: Bytes)

  /** A live call of `ingest`, between two of its transactions or file operations. */
  datatype Attempt =
    | AtStaged(s: StagedObject, bytes: Bytes)
    | AtCommitted(s: StagedObject, outcome: Outcome)
    | AtReplay(outcome: Outcome)

  /** `origin` and `usedManifests` (the key each manifest id was made for) are history. */
  datatype System = System(
    disk: Disk,
    db: Db,
    attempts: map<Id, Attempt>,
    script: Script,
    origin: map<Id, Origin>,
    usedManifests: map<Id, Id>)

  datatype Event =
    | Reserve(rid: Id, item: Id, owner: Id)
    | Lapse(rid: Id, status: Status)
    | StageObject(aid: Id, rid: Id, key: Id, manifestId: Id, bytes: Bytes)
    | CommitFinalize(aid: Id)
    | CompleteFresh(aid: Id)
    | FindReplay(aid: Id, rid: Id)
    | CompleteReplay(aid: Id)
    | SweepManifest(manifestId: Id, answered: bool)
    | Crash(aid: Id)

  function Initial(script: Script): System {
    System(EmptyDisk(), Db(map[], map[]), map[], script, map[], map[])
  }

  function Ended(sys: System, aid: Id): System {
    sys.(attempts := sys.attempts - {aid})
  }

  function WithRun(sys: System, r: Run): System {
    sys.(disk := r.disk, script := r.script)
  }

  /** One transaction whose commit meets the next fate. A commit that raises after taking
      effect is a lost acknowledgement. */
  function Transact(sys: System, db: Db): System {
    var fate := FirstFate(sys.script);
    sys.(script := LaterFates(sys.script),
         db := if fate == Succeeds || fate == RaisesAfter then db else sys.db)
  }

  function StageEvent(sys: System, aid: Id, rid: Id, key: Id, manifestId: Id, bytes: Bytes): System {
    if aid in sys.attempts || rid !in sys.db.reservations || key in sys.origin
       || manifestId in sys.usedManifests
    then sys
    else
      var s := StagedObject(sys.db.reservations[rid].item, rid, key, manifestId);
      var r := StageRun(sys.disk, s, bytes, sys.script);
      var sys' := WithRun(sys, r).(origin := sys.origin[key := Origin(s, bytes)],
                                   usedManifests := sys.usedManifests[manifestId := key]);
      if r.ending.Done? then sys'.(attempts := sys.attempts[aid := AtStaged(s, bytes)]) else sys'
  }

  /** The exception handler of `ingest` before anything was committed. */
  function AbortAndEnd(sys: System, aid: Id, s: StagedObject): System {
    Ended(WithRun(sys, AbortRun(sys.disk, s, sys.script)), aid)
  }

  function CommitEvent(sys: System, aid: Id): System {
    if aid !in sys.attempts || !sys.attempts[aid].AtStaged? then sys
    else
      var s := sys.attempts[aid].s;
      match Finalize(sys.db, s, sys.attempts[aid].bytes)
      case FinalizeError => AbortAndEnd(sys, aid, s)
      case FinalizeOk(db', outcome) =>
        var after := Transact(sys, db');
        match FirstFate(sys.script)
        case Succeeds => after.(attempts := sys.attempts[aid := AtCommitted(s, outcome)])
        case Dies => Ended(after, aid)
        case _ => AbortAndEnd(after, aid, s)
  }

  /** `mark_referenced` and then `confirm_reference` of one binding. */
  function MarkAndConfirm(sys: System, staged: StagedObject): System {
    var r := MarkRun(sys.disk, staged, sys.script);
    var after := WithRun(sys, r);
    if !r.ending.Done? then after
    else
      match Confirm(after.db, staged)
      case None => after
      case Some(db') => Transact(after, db')
  }

  function CompleteFreshEvent(sys: System, aid: Id): System {
    if aid !in sys.attempts || !sys.attempts[aid].AtCommitted? then sys
    else
      var s, o := sys.attempts[aid].s, sys.attempts[aid].outcome;
      if !FreshOutcomeOk(o, s) then Ended(sys, aid)
      else if o.intent.action == MarkIt then Ended(MarkAndConfirm(sys, o.intent.staged), aid)
      else
        var r := AbortRun(sys.disk, s, sys.script);
        var after := WithRun(sys, r);
        if r.ending.Crashed? || o.intent.action == NothingToDo || o.visible then Ended(after, aid)
        else
          var (db', found) := ReplayReservation(after.db, s.reservation);
          var asked := Transact(after, db');
          if FirstFate(after.script) == Succeeds && found.Some? && found.value.intent.action == MarkIt
          then asked.(attempts := sys.attempts[aid := AtReplay(found.value)])
          else Ended(asked, aid)
  }

  function FindReplayEvent(sys: System, aid: Id, rid: Id): System {
    if aid in sys.attempts then sys
    else
      var (db', found) := ReplayReservation(sys.db, rid);
      var asked := Transact(sys, db');
      if FirstFate(sys.script) == Succeeds && found.Some?
      then asked.(attempts := sys.attempts[aid := AtReplay(found.value)])
      else asked
  }

  function CompleteReplayEvent(sys: System, aid: Id): System {
    if aid !in sys.attempts || !sys.attempts[aid].AtReplay? then sys
    else
      var o := sys.attempts[aid].outcome;
      if !ReplayOutcomeOk(o) || o.intent.action == NothingToDo then Ended(sys, aid)
      else if o.intent.action == MarkIt then Ended(MarkAndConfirm(sys, o.intent.staged), aid)
      else Ended(WithRun(sys, AbortRun(sys.disk, o.intent.staged, sys.script)), aid)
  }

  ghost function SweepEvent(sys: System, m: Id, answered: bool): System {
    if m !in sys.disk.manifests || sys.disk.manifests[m].Unreadable? then sys
    else
      var answer := if answered then Checker(sys.db, sys.disk.manifests[m].item) else NoAnswer;
      WithRun(sys, SweepOne(sys.disk, m, answer, sys.script).0)
  }

  ghost function Next(sys: System, e: Event): System {
    match e
    case Reserve(rid, item, owner) =>
      if rid in sys.db.reservations
         || exists r :: r in sys.db.reservations && sys.db.reservations[r].item == item
      then sys
      else sys.(db := sys.db.(reservations := sys.db.reservations[rid :=
                                Reservation(item, owner, Active, None, None)]))
    case Lapse(rid, status) =>
      if rid !in sys.db.reservations || sys.db.reservations[rid].status != Active
         || (status != Rejected && status != Expired)
      then sys
      else sys.(db := sys.db.(reservations := sys.db.reservations[rid :=
                                sys.db.reservations[rid].(status := status)]))
    case StageObject(aid, rid, key, manifestId, bytes) =>
      StageEvent(sys, aid, rid, key, manifestId, bytes)
    case CommitFinalize(aid) => CommitEvent(sys, aid)
    case CompleteFresh(aid) => CompleteFreshEvent(sys, aid)
    case FindReplay(aid, rid) => FindReplayEvent(sys, aid, rid)
    case CompleteReplay(aid) => CompleteReplayEvent(sys, aid)
    case SweepManifest(m, answered) => SweepEvent(sys, m, answered)
    case Crash(aid) => Ended(sys, aid)
  }

  ghost function RunEvents(sys: System, events: seq<Event>): System
    decreases |events|
  {
    if events == [] then sys else RunEvents(Next(sys, events[0]), events[1..])
  }
}

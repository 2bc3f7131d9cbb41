/** One artifact of the local quarantine store and every operation on its files
    (agent-server/focusproof/media_adapters/local_quarantine_store.py). */
module Quarantine {
  import opened Basics

  datatype PartKind = PayloadPart | RecordPart | CommitPart | SpoolPart

  /** What a deletion journal can name. */
  datatype Target = Marker | Record | Payload | Part(kind: PartKind)

  datatype RecordFile =
    | UnreadableRecord
    | RecordFile(reservation: Id, receipt: Id, receiptHash: Id, createdAt: int, expiresAt: int,
                 size: nat, digest: Bytes)

  datatype MarkerFile = UnreadableMarker | MarkerFile(receiptHash: Id)

  datatype JournalState = Intent | Deleted

  /** Everything on disk that belongs to one artifact id. */
  datatype Artifact = Artifact(
    payload: Option<Bytes>,
    record: Option<RecordFile>,
    marker: Option<MarkerFile>,
    parts: set<PartKind>,
    journal: map<Target, JournalState>)

  function Nothing(): Artifact {
    Artifact(None, None, None, {}, map[])
  }

  predicate Present(a: Artifact, t: Target) {
    match t
    case Marker => a.marker.Some?
    case Record => a.record.Some?
    case Payload => a.payload.Some?
    case Part(kind) => kind in a.parts
  }

  function Without(a: Artifact, t: Target): Artifact {
    match t
    case Marker => a.(marker := None)
    case Record => a.(record := None)
    case Payload => a.(payload := None)
    case Part(kind) => a.(parts := a.parts - {kind})
  }

  /** `_validate_record_payload`. */
  predicate Loads(a: Artifact, requireCommit: bool) {
    && a.record.Some? && a.record.value.RecordFile?
    && var r := a.record.value;
       && r.createdAt < r.expiresAt
       && a.payload.Some? && |a.payload.value| == r.size && a.payload.value == r.digest
       && (requireCommit ==> a.marker == Some(MarkerFile(r.receiptHash)))
  }

  // ---------------------------------------------------------------------
  // Steps

  datatype Step =
    | PublishPayload(bytes: Bytes)
    | CreatePart(kind: PartKind)
    | PublishRecord(record: RecordFile)
    | PublishMarker(marker: MarkerFile)
    | Unlink(target: Target)
    | WriteJournal(target: Target, state: JournalState)
    | RemoveJournal(target: Target)

  function Apply(a: Artifact, step: Step): Artifact {
    match step
    case PublishPayload(bytes) => a.(payload := Some(bytes), parts := a.parts - {PayloadPart})
    case CreatePart(kind) => a.(parts := a.parts + {kind})
    case PublishRecord(record) => a.(record := Some(record), parts := a.parts - {RecordPart})
    case PublishMarker(marker) => a.(marker := Some(marker), parts := a.parts - {CommitPart})
    case Unlink(target) => Without(a, target)
    case WriteJournal(target, state) => a.(journal := a.journal[target := state])
    case RemoveJournal(target) => a.(journal := a.journal - {target})
  }

  datatype Ending = Finished | Failed | Crashed

  datatype Run = Run(artifact: Artifact, ending: Ending, script: Script)

  function StepRun(a: Artifact, step: Step, script: Script): Run {
    match FirstFate(script)
    case Succeeds => Run(Apply(a, step), Finished, LaterFates(script))
    case RaisesBefore => Run(a, Failed, LaterFates(script))
    case RaisesAfter => Run(Apply(a, step), Failed, LaterFates(script))
    case Dies => Run(a, Crashed, LaterFates(script))
  }

  // ---------------------------------------------------------------------
  // Publication

  /** Facts a republish must agree on; the creation time is not among them. */
  predicate SameBinding(stored: RecordFile, wanted: RecordFile) {
    && stored.RecordFile? && wanted.RecordFile?
    && stored.(createdAt := 0) == wanted.(createdAt := 0)
  }

  predicate AnyFormal(a: Artifact) {
    a.payload.Some? || a.record.Some? || a.marker.Some?
  }

  function PublishPlan(bytes: Bytes, record: RecordFile): seq<Step>
    requires record.RecordFile?
  {
    [ PublishPayload(bytes),
      CreatePart(RecordPart), PublishRecord(record),
      CreatePart(CommitPart), PublishMarker(MarkerFile(record.receiptHash)) ]
  }

  /** Runs publication steps; a part file that is already there is an error. */
  function PlanRun(a: Artifact, plan: seq<Step>, script: Script): Run
    decreases |plan|
  {
    if plan == [] then Run(a, Finished, script)
    else if plan[0].CreatePart? && plan[0].kind in a.parts then Run(a, Failed, script)
    else
      var r := StepRun(a, plan[0], script);
      if r.ending.Finished? then PlanRun(r.artifact, plan[1..], r.script) else r
  }

  /** `_rollback_unlink`: goes on to the next path when one cannot be removed. */
  function RollbackRun(a: Artifact, targets: seq<Target>, script: Script): Run
    decreases |targets|
  {
    if targets == [] then Run(a, Finished, script)
    else if !Present(a, targets[0]) then RollbackRun(a, targets[1..], script)
    else
      var r := StepRun(a, Unlink(targets[0]), script);
      if r.ending.Crashed? then r else RollbackRun(r.artifact, targets[1..], r.script)
  }

  function RollbackOrder(): seq<Target> {
    [Part(CommitPart), Marker, Part(RecordPart), Record, Part(PayloadPart), Payload]
  }

  /** `_publish_formal`: an equal committed artifact is found again, anything else in the way
      is a conflict, and a failed publication is rolled back. */
  function PublishRun(a: Artifact, bytes: Bytes, record: RecordFile, script: Script): Run
    requires record.RecordFile?
  {
    if AnyFormal(a) then
      if Loads(a, true) && SameBinding(a.record.value, record) then
        var r := RollbackRun(a, [Part(PayloadPart), Part(RecordPart), Part(CommitPart)], script);
        if r.ending.Crashed? then r else r.(ending := Finished)
      else Run(a, Failed, script)
    else
      var r := PlanRun(a, PublishPlan(bytes, record), script);
      if !r.ending.Failed? then r
      else
        var undone := RollbackRun(r.artifact, RollbackOrder(), r.script);
        if undone.ending.Crashed? then undone else undone.(ending := Failed)
  }

  // ---------------------------------------------------------------------
  // Deletion

  /** `_cleanup_deletion_journal`: an entry whose removal is not durable is written again. */
  function CleanupJournalRun(a: Artifact, t: Target, script: Script): Run {
    var r := StepRun(a, RemoveJournal(t), script);
    if !r.ending.Failed? || t in r.artifact.journal then r
    else
      var again := StepRun(r.artifact, WriteJournal(t, Deleted), r.script);
      if again.ending.Crashed? then again else again.(ending := Failed)
  }

  /** `_finish_deletion_journal`. */
  function FinishJournalRun(a: Artifact, t: Target, script: Script): Run {
    var gone := if Present(a, t) then StepRun(a, Unlink(t), script) else Run(a, Finished, script);
    if !gone.ending.Finished? then gone
    else
      var noted := StepRun(gone.artifact, WriteJournal(t, Deleted), gone.script);
      if !noted.ending.Finished? then noted
      else CleanupJournalRun(noted.artifact, t, noted.script)
  }

  /** `_recovery_unlink`: intent, unlink, done, and the entry removed. */
  function JournalledUnlinkRun(a: Artifact, t: Target, script: Script): Run {
    if !Present(a, t) then Run(a, Finished, script)
    else
      var meant := if t in a.journal then Run(a, Finished, script) else StepRun(a, WriteJournal(t, Intent), script);
      if !meant.ending.Finished? then meant else FinishJournalRun(meant.artifact, t, meant.script)
  }

  /** `_delete_triplet`: the marker first, and nothing else unless that worked. */
  function DeleteTripletRun(a: Artifact, script: Script): Run {
    var m := JournalledUnlinkRun(a, Marker, script);
    if !m.ending.Finished? then m
    else
      var p := JournalledUnlinkRun(m.artifact, Payload, m.script);
      if !p.ending.Finished? then p else JournalledUnlinkRun(p.artifact, Record, p.script)
  }

  /** `_QuarantineObject.delete`: plain unlinks, stopping at the first that raises. */
  function DeleteObjectRun(a: Artifact, script: Script): Run {
    var m := StepRun(a, Unlink(Marker), script);
    if !m.ending.Finished? then m
    else
      var p := StepRun(m.artifact, Unlink(Payload), m.script);
      if !p.ending.Finished? then p else StepRun(p.artifact, Unlink(Record), p.script)
  }

  /** The formal part of `discard_pending_clean_receipt`: every unlink is tried. */
  function DiscardRun(a: Artifact, script: Script): Run {
    RollbackRun(a, [Marker, Record, Payload], script)
  }

  /** One artifact under `remove_expired`. */
  function ExpireRun(a: Artifact, now: int, script: Script): Run {
    if Loads(a, true) && a.record.value.expiresAt <= now then DeleteTripletRun(a, script)
    else Run(a, Finished, script)
  }

  // ---------------------------------------------------------------------
  // recover_quarantine, one artifact at a time

  /** What the reservation checker answers; it may also raise. */
  datatype Verdict = Active | Inactive | Unknown | Raises

  /** A phase of the sweep over one artifact, and whether it reports it as recovered. */
  datatype Swept = Swept(run: Run, recovered: bool)

  /** First phase: every journal entry is finished, in any order. */
  function JournalPhase(a: Artifact, order: seq<Target>, script: Script): Swept
    decreases |order|
  {
    if order == [] then Swept(Run(a, Finished, script), false)
    else if order[0] !in a.journal then JournalPhase(a, order[1..], script)
    else
      var r := if a.journal[order[0]] == Deleted then CleanupJournalRun(a, order[0], script)
               else FinishJournalRun(a, order[0], script);
      if r.ending.Crashed? then Swept(r, false)
      else
        var rest := JournalPhase(r.artifact, order[1..], r.script);
        Swept(WithFailure(rest.run, r.ending), r.ending.Finished? || rest.recovered)
  }

  /** A phase goes on after a failure, and remembers it as a diagnostic. */
  function WithFailure(r: Run, before: Ending): Run {
    if r.ending.Finished? then r.(ending := before) else r
  }

  /** Second phase: leftover parts. `young` holds the files newer than the cutoff. */
  function PartPhase(a: Artifact, order: seq<PartKind>, young: set<Target>, script: Script): Swept
    decreases |order|
  {
    if order == [] then Swept(Run(a, Finished, script), false)
    else if order[0] !in a.parts || Part(order[0]) in young then PartPhase(a, order[1..], young, script)
    else
      var r := JournalledUnlinkRun(a, Part(order[0]), script);
      if r.ending.Crashed? then Swept(r, false)
      else
        var rest := PartPhase(r.artifact, order[1..], young, r.script);
        Swept(WithFailure(rest.run, r.ending), r.ending.Finished? || rest.recovered)
  }

  /** Third phase: a marker whose record does not load takes its triplet with it. */
  function MarkerPhase(a: Artifact, young: set<Target>, script: Script): Swept {
    if a.marker.None? || Marker in young || Loads(a, true) then Swept(Run(a, Finished, script), false)
    else
      var r := DeleteTripletRun(a, script);
      Swept(r, r.ending.Finished?)
  }

  /** Fourth phase: records that do not load, or whose reservation is known to be over. An
      exception of the checker is caught by the handler meant for unreadable records. */
  function RecordPhase(a: Artifact, young: set<Target>, verdict: Verdict, script: Script): Swept {
    if a.record.None? || Record in young then Swept(Run(a, Finished, script), false)
    else if !Loads(a, false) || verdict == Raises then
      var r := JournalledUnlinkRun(a, Record, script);
      Swept(r, r.ending.Finished?)
    else if verdict == Inactive then
      var r := DeleteTripletRun(a, script);
      Swept(r, r.ending.Finished?)
    else Swept(Run(a, Finished, script), false)
  }

  /** Last phase: a payload with neither record nor marker. */
  function PayloadPhase(a: Artifact, young: set<Target>, script: Script): Swept {
    if a.payload.None? || Payload in young || a.record.Some? || a.marker.Some?
    then Swept(Run(a, Finished, script), false)
    else
      var r := JournalledUnlinkRun(a, Payload, script);
      Swept(r, r.ending.Finished?)
  }

  /** The order in which a directory is listed is not specified: any order will do. */
  datatype Listing = Listing(journals: seq<Target>, parts: seq<PartKind>)

  predicate Complete(listing: Listing) {
    && Marker in listing.journals && Record in listing.journals && Payload in listing.journals
    && PayloadPart in listing.parts && RecordPart in listing.parts
    && CommitPart in listing.parts && SpoolPart in listing.parts
    && Part(PayloadPart) in listing.journals && Part(RecordPart) in listing.journals
    && Part(CommitPart) in listing.journals && Part(SpoolPart) in listing.journals
  }

  datatype SweepState = SweepState(artifact: Artifact, recovered: bool)

  /** A whole sweep in which no step fails, seen from one artifact. */
  function SweepArtifact(a: Artifact, listing: Listing, young: set<Target>, verdict: Verdict): SweepState {
    var p1 := JournalPhase(a, listing.journals, []);
    var p2 := PartPhase(p1.run.artifact, listing.parts, young, []);
    var p3 := MarkerPhase(p2.run.artifact, young, []);
    var p4 := RecordPhase(p3.run.artifact, young, verdict, []);
    var p5 := PayloadPhase(p4.run.artifact, young, []);
    SweepState(p5.run.artifact,
               p1.recovered || p2.recovered || p3.recovered || p4.recovered || p5.recovered)
  }
}

/** The staging protocol of the local media object store
    (agent-server/focusproof/media_adapters/local_media_object_store.py). */
module MediaObjectStore {
  import opened Basics

  datatype Phase = ManifestOnly | PhaseStaged

  /** What a manifest file says. `Unreadable` stands for anything `_read_record` rejects. */
  datatype Manifest =
    | Unreadable
    | Manifest(key: Id, item: Id, reservation: Id, phase: Phase)

  /** The binding returned by `stage` and carried by the database. */
  datatype StagedObject = StagedObject(item: Id, reservation: Id, key: Id, manifestId: Id)

  /** The three directories, and the temporary files inside two of them. */
  datatype Disk = Disk(
    manifests: map<Id, Manifest>,
    staged: map<Id, Bytes>,
    referenced: map<Id, Bytes>,
    manifestParts: set<Id>,
    objectParts: set<Id>)

  function EmptyDisk(): Disk {
    Disk(map[], map[], map[], {}, {})
  }

  datatype FileStep =
    | CreateManifestPart(manifestId: Id)
    | PublishManifest(manifestId: Id, manifest: Manifest)
    | CreateObjectPart(key: Id)
    | PublishObject(key: Id, bytes: Bytes)
    | LinkReferenced(key: Id)
    | UnlinkStaged(key: Id)
    | UnlinkManifest(manifestId: Id)
    | UnlinkManifestPart(manifestId: Id)
    | UnlinkObjectPart(key: Id)

  /** One atomic file-system step. */
  function Apply(d: Disk, step: FileStep): Disk {
    match step
    case CreateManifestPart(m) => d.(manifestParts := d.manifestParts + {m})
    case PublishManifest(m, content) =>
      d.(manifestParts := d.manifestParts - {m}, manifests := d.manifests[m := content])
    case CreateObjectPart(k) => d.(objectParts := d.objectParts + {k})
    case PublishObject(k, bytes) =>
      d.(objectParts := d.objectParts - {k}, staged := d.staged[k := bytes])
    case LinkReferenced(k) =>
      if k in d.staged && k !in d.referenced
      then d.(referenced := d.referenced[k := d.staged[k]]) else d
    case UnlinkStaged(k) => d.(staged := d.staged - {k})
    case UnlinkManifest(m) => d.(manifests := d.manifests - {m})
    case UnlinkManifestPart(m) => d.(manifestParts := d.manifestParts - {m})
    case UnlinkObjectPart(k) => d.(objectParts := d.objectParts - {k})
  }

  function ApplyAll(d: Disk, plan: seq<FileStep>): Disk
    decreases |plan|
  {
    if plan == [] then d else ApplyAll(Apply(d, plan[0]), plan[1..])
  }

  datatype StoreError =
    | StepFailed
    | NoBindingManifest
    | BindingMismatch
    | Conflict
    | Absent
    | AlreadyReferenced

  /** How a call ends. `Crashed` means that its process died inside it. */
  datatype Ending = Done | Raised(error: StoreError) | Crashed {
    predicate IsFailure() { !Done? }
    function PropagateFailure(): Ending requires IsFailure() { this }
  }

  datatype Run = Run(disk: Disk, ending: Ending, script: Script)

  function RunStep(d: Disk, step: FileStep, script: Script): Run {
    match FirstFate(script)
    case Succeeds => Run(Apply(d, step), Done, LaterFates(script))
    case RaisesBefore => Run(d, Raised(StepFailed), LaterFates(script))
    case RaisesAfter => Run(Apply(d, step), Raised(StepFailed), LaterFates(script))
    case Dies => Run(d, Crashed, LaterFates(script))
  }

  /** Runs a plan until its end or its first failing step. */
  function RunPlan(d: Disk, plan: seq<FileStep>, script: Script): Run
    decreases |plan|
  {
    if plan == [] then Run(d, Done, script)
    else
      var r := RunStep(d, plan[0], script);
      if r.ending.Done? then RunPlan(r.disk, plan[1..], r.script) else r
  }

  lemma RunSplits(d: Disk, first: FileStep, rest: seq<FileStep>, script: Script)
    ensures var r := RunStep(d, first, script);
            RunPlan(d, [first] + rest, script)
            == if r.ending.Done? then RunPlan(r.disk, rest, r.script) else r
  {
    assert ([first] + rest)[1..] == rest;
  }

  lemma RunOfTwo(d: Disk, a: FileStep, b: FileStep, script: Script)
    ensures RunPlan(d, [a], script) == RunStep(d, a, script)
    ensures var r := RunStep(d, a, script);
            RunPlan(d, [a, b], script)
            == if r.ending.Done? then RunStep(r.disk, b, r.script) else r
  {
    assert [a] == [a] + [] && [a, b] == [a] + [b] && [b] == [b] + [];
    RunSplits(d, a, [], script);
    RunSplits(d, a, [b], script);
    var r := RunStep(d, a, script);
    RunSplits(r.disk, b, [], r.script);
  }

  lemma RunOfThree(d: Disk, a: FileStep, b: FileStep, c: FileStep, script: Script)
    ensures var r := RunStep(d, a, script);
            RunPlan(d, [a, b, c], script)
            == if r.ending.Done? then RunPlan(r.disk, [b, c], r.script) else r
  {
    assert [a, b, c] == [a] + [b, c];
    RunSplits(d, a, [b, c], script);
  }

  /** How many steps of a plan take effect under a script. */
  function Reached(plan: seq<FileStep>, script: Script): (k: nat)
    ensures k <= |plan|
    decreases |plan|
  {
    if plan == [] then 0
    else match FirstFate(script)
      case Succeeds => 1 + Reached(plan[1..], LaterFates(script))
      case RaisesAfter => 1
      case _ => 0
  }

  /** A run stops after some prefix of its plan, and after all of it when it is done. */
  lemma {:induction false} RunStopsAfterPrefix(d: Disk, plan: seq<FileStep>, script: Script)
    ensures RunPlan(d, plan, script).disk == ApplyAll(d, plan[..Reached(plan, script)])
    ensures RunPlan(d, plan, script).ending.Done? ==> Reached(plan, script) == |plan|
    ensures RunPlan(d, plan, script).ending.Raised? ==>
              RunPlan(d, plan, script).ending == Raised(StepFailed)
    decreases |plan|
  {
    if plan != [] {
      var k := Reached(plan, script);
      match FirstFate(script) {
        case Succeeds =>
          RunStopsAfterPrefix(Apply(d, plan[0]), plan[1..], LaterFates(script));
          assert plan[..k][0] == plan[0] && plan[..k][1..] == plan[1..][..k - 1];
        case RaisesAfter =>
          assert plan[..1] == [plan[0]];
        case _ =>
      }
    }
  }

  // ---------------------------------------------------------------------
  // stage, mark_referenced, abort_staged

  function ManifestOf(s: StagedObject, phase: Phase): Manifest {
    Manifest(s.key, s.item, s.reservation, phase)
  }

  function StagePlan(s: StagedObject, bytes: Bytes): seq<FileStep> {
    [ CreateManifestPart(s.manifestId),
      PublishManifest(s.manifestId, ManifestOf(s, ManifestOnly)),
      CreateObjectPart(s.key),
      PublishObject(s.key, bytes),
      CreateManifestPart(s.manifestId),
      PublishManifest(s.manifestId, ManifestOf(s, PhaseStaged)) ]
  }

  /** The `except` branch of `stage`. */
  function StageCleanupPlan(d: Disk, s: StagedObject): seq<FileStep> {
    [UnlinkObjectPart(s.key), UnlinkManifestPart(s.manifestId)]
    + if s.key in d.staged && s.manifestId !in d.manifests then [UnlinkStaged(s.key)] else []
  }

  function StageRun(d: Disk, s: StagedObject, bytes: Bytes, script: Script): Run {
    var r := RunPlan(d, StagePlan(s, bytes), script);
    if r.ending.Raised? then
      var c := RunPlan(r.disk, StageCleanupPlan(r.disk, s), r.script);
      if c.ending.Crashed? then c else c.(ending := Raised(StepFailed))
    else r
  }

  datatype Planned = Planned(plan: seq<FileStep>) | Refused(error: StoreError)

  function MarkPlan(d: Disk, s: StagedObject): Planned {
    if s.manifestId !in d.manifests then
      if s.key in d.staged then
        if s.key !in d.referenced then Refused(NoBindingManifest)
        else if d.staged[s.key] != d.referenced[s.key] then Refused(Conflict)
        else Planned([UnlinkStaged(s.key)])
      else if s.key in d.referenced then Planned([])
      else Refused(Absent)
    else if d.manifests[s.manifestId] != ManifestOf(s, PhaseStaged) then Refused(BindingMismatch)
    else if s.key in d.staged then
      if s.key !in d.referenced then
        Planned([LinkReferenced(s.key), UnlinkStaged(s.key), UnlinkManifest(s.manifestId)])
      else if d.staged[s.key] != d.referenced[s.key] then Refused(Conflict)
      else Planned([UnlinkStaged(s.key), UnlinkManifest(s.manifestId)])
    else if s.key in d.referenced then Planned([UnlinkManifest(s.manifestId)])
    else Refused(Absent)
  }

  function AbortPlan(d: Disk, s: StagedObject): Planned {
    if s.manifestId !in d.manifests then
      if s.key in d.staged || s.key in d.referenced then Refused(NoBindingManifest)
      else Planned([])
    else if d.manifests[s.manifestId] != ManifestOf(s, PhaseStaged) then Refused(BindingMismatch)
    else if s.key in d.referenced then Refused(AlreadyReferenced)
    else Planned([UnlinkStaged(s.key), UnlinkManifest(s.manifestId)])
  }

  function RunPlanned(d: Disk, p: Planned, script: Script): Run {
    match p
    case Planned(plan) => RunPlan(d, plan, script)
    case Refused(e) => Run(d, Raised(e), script)
  }

  function MarkRun(d: Disk, s: StagedObject, script: Script): Run {
    RunPlanned(d, MarkPlan(d, s), script)
  }

  function AbortRun(d: Disk, s: StagedObject, script: Script): Run {
    RunPlanned(d, AbortPlan(d, s), script)
  }

  // ---------------------------------------------------------------------
  // recover_staged

  /** The answer of the reference checker; `NoAnswer` covers `None` and an exception. */
  datatype Answer = IsReferenced | NotReferenced | NoAnswer

  function BindingOf(id: Id, m: Manifest): StagedObject
    requires m.Manifest?
  {
    StagedObject(m.item, m.reservation, m.key, id)
  }

  /** What the sweep does with one manifest: `None` is one of its `continue`s. */
  function SweepPlan(d: Disk, id: Id, answer: Answer): Option<seq<FileStep>> {
    if id !in d.manifests || d.manifests[id].Unreadable? then None
    else
      var m := d.manifests[id];
      var s := BindingOf(id, m);
      match answer
      case NoAnswer => None
      case IsReferenced =>
        if m.phase != PhaseStaged || (m.key !in d.staged && m.key !in d.referenced) then None
        else (match MarkPlan(d, s) case Planned(p) => Some(p) case Refused(_) => None)
      case NotReferenced =>
        if m.key in d.referenced then None
        else if m.phase == ManifestOnly then Some([UnlinkStaged(m.key), UnlinkManifest(id)])
        else (match AbortPlan(d, s) case Planned(p) => Some(p) case Refused(_) => None)
  }

  /** The sweep of one manifest: whether it was recovered, and the run of its steps.
      A step that raises makes the sweep continue with the next manifest. */
  function SweepOne(d: Disk, id: Id, answer: Answer, script: Script): (Run, bool) {
    match SweepPlan(d, id, answer)
    case None => (Run(d, Done, script), false)
    case Some(plan) =>
      var r := RunPlan(d, plan, script);
      if r.ending.Raised? then (r.(ending := Done), false) else (r, r.ending.Done?)
  }

  /** What the checker answers for the item a manifest names. */
  function AnswerFor(d: Disk, id: Id, answers: map<Id, Answer>): Answer {
    if id in d.manifests && d.manifests[id].Manifest? && d.manifests[id].item in answers
    then answers[d.manifests[id].item] else NoAnswer
  }

  datatype SweepRun = SweepRun(run: Run, recovered: seq<Id>)

  /** The sweep over the old manifests, in directory order, with what was recovered so far. */
  function Sweep(d: Disk, order: seq<Id>, answers: map<Id, Answer>, script: Script,
                 recovered: seq<Id>): SweepRun
    decreases |order|
  {
    if order == [] then SweepRun(Run(d, Done, script), recovered)
    else
      var (r, one) := SweepOne(d, order[0], AnswerFor(d, order[0], answers), script);
      if r.ending.Crashed? then SweepRun(r, recovered)
      else Sweep(r.disk, order[1..], answers, r.script, if one then recovered + [order[0]] else recovered)
  }

  // ---------------------------------------------------------------------
  // The store itself

  class LocalMediaObjectStore {
    var manifests: map<Id, Manifest>
    var staged: map<Id, Bytes>
    var referenced: map<Id, Bytes>
    var manifestParts: set<Id>
    var objectParts: set<Id>
    /** The fates of the coming file steps. */
    var script: Script

    function View(): Disk
      reads this
    {
      Disk(manifests, staged, referenced, manifestParts, objectParts)
    }

    constructor (faults: Script)
      ensures View() == EmptyDisk() && script == faults
    {
      manifests, staged, referenced, manifestParts, objectParts := map[], map[], map[], {}, {};
      script := faults;
    }

    method TakeEffect(step: FileStep)
      modifies this
      ensures View() == Apply(old(View()), step) && script == old(script)
    {
      match step {
        case CreateManifestPart(m) => manifestParts := manifestParts + {m};
        case PublishManifest(m, content) =>
          manifestParts := manifestParts - {m};
          manifests := manifests[m := content];
        case CreateObjectPart(k) => objectParts := objectParts + {k};
        case PublishObject(k, bytes) =>
          objectParts := objectParts - {k};
          staged := staged[k := bytes];
        case LinkReferenced(k) =>
          if k in staged && k !in referenced {
            referenced := referenced[k := staged[k]];
          }
        case UnlinkStaged(k) => staged := staged - {k};
        case UnlinkManifest(m) => manifests := manifests - {m};
        case UnlinkManifestPart(m) => manifestParts := manifestParts - {m};
        case UnlinkObjectPart(k) => objectParts := objectParts - {k};
      }
    }

    method Perform(step: FileStep) returns (r: Ending)
      modifies this
      ensures Run(View(), r, script) == RunStep(old(View()), step, old(script))
    {
      var fate := FirstFate(script);
      script := LaterFates(script);
      match fate {
        case Succeeds => TakeEffect(step); r := Done;
        case RaisesBefore => r := Raised(StepFailed);
        case RaisesAfter => TakeEffect(step); r := Raised(StepFailed);
        case Dies => r := Crashed;
      }
    }

    method PublishStaged(s: StagedObject, bytes: Bytes) returns (r: Ending)
      modifies this
      ensures Run(View(), r, script) == RunPlan(old(View()), StagePlan(s, bytes), old(script))
    {
      ghost var plan := StagePlan(s, bytes);
      assert forall i :: 0 <= i < 6 ==> plan[i..] == [plan[i]] + plan[i + 1..];
      RunSplits(View(), plan[0], plan[1..], script);
      :- Perform(CreateManifestPart(s.manifestId));
      RunSplits(View(), plan[1], plan[2..], script);
      :- Perform(PublishManifest(s.manifestId, ManifestOf(s, ManifestOnly)));
      RunSplits(View(), plan[2], plan[3..], script);
      :- Perform(CreateObjectPart(s.key));
      RunSplits(View(), plan[3], plan[4..], script);
      :- Perform(PublishObject(s.key, bytes));
      RunSplits(View(), plan[4], plan[5..], script);
      :- Perform(CreateManifestPart(s.manifestId));
      RunSplits(View(), plan[5], [], script);
      :- Perform(PublishManifest(s.manifestId, ManifestOf(s, PhaseStaged)));
      r := Done;
    }

    method CleanUpStage(s: StagedObject) returns (r: Ending)
      modifies this
      ensures Run(View(), r, script)
              == RunPlan(old(View()), StageCleanupPlan(old(View()), s), old(script))
    {
      RunOfTwo(View(), UnlinkObjectPart(s.key), UnlinkManifestPart(s.manifestId), script);
      RunOfThree(View(), UnlinkObjectPart(s.key), UnlinkManifestPart(s.manifestId),
                 UnlinkStaged(s.key), script);
      assert StageCleanupPlan(View(), s)
          == (if s.key in staged && s.manifestId !in manifests
              then [UnlinkObjectPart(s.key), UnlinkManifestPart(s.manifestId), UnlinkStaged(s.key)]
              else [UnlinkObjectPart(s.key), UnlinkManifestPart(s.manifestId)]);
      :- Perform(UnlinkObjectPart(s.key));
      RunOfTwo(View(), UnlinkManifestPart(s.manifestId), UnlinkStaged(s.key), script);
      :- Perform(UnlinkManifestPart(s.manifestId));
      if s.key in staged && s.manifestId !in manifests {
        :- Perform(UnlinkStaged(s.key));
      }
      r := Done;
    }

    /** `stage`, with its `except` branch. */
    method Stage(s: StagedObject, bytes: Bytes) returns (r: Ending)
      modifies this
      ensures Run(View(), r, script) == StageRun(old(View()), s, bytes, old(script))
    {
      r := PublishStaged(s, bytes);
      if r.Raised? {
        r := CleanUpStage(s);
        if !r.Crashed? {
          r := Raised(StepFailed);
        }
      }
    }

    method MarkReferenced(s: StagedObject) returns (r: Ending)
      modifies this
      ensures Run(View(), r, script) == MarkRun(old(View()), s, old(script))
    {
      RunOfThree(View(), LinkReferenced(s.key), UnlinkStaged(s.key),
                 UnlinkManifest(s.manifestId), script);
      RunOfTwo(View(), UnlinkStaged(s.key), UnlinkManifest(s.manifestId), script);
      if s.manifestId !in manifests {
        if s.key in staged {
          if s.key in referenced {
            if staged[s.key] != referenced[s.key] {
              return Raised(Conflict);
            }
            :- Perform(UnlinkStaged(s.key));
            return Done;
          }
          return Raised(NoBindingManifest);
        }
        if s.key in referenced {
          return Done;
        }
        return Raised(Absent);
      }
      if manifests[s.manifestId] != ManifestOf(s, PhaseStaged) {
        return Raised(BindingMismatch);
      }
      if s.key in staged {
        if s.key in referenced {
          if staged[s.key] != referenced[s.key] {
            return Raised(Conflict);
          }
          :- Perform(UnlinkStaged(s.key));
        } else {
          :- Perform(LinkReferenced(s.key));
          RunOfTwo(View(), UnlinkStaged(s.key), UnlinkManifest(s.manifestId), script);
          :- Perform(UnlinkStaged(s.key));
        }
      } else if s.key !in referenced {
        return Raised(Absent);
      }
      RunOfTwo(View(), UnlinkManifest(s.manifestId), UnlinkManifest(s.manifestId), script);
      :- Perform(UnlinkManifest(s.manifestId));
      r := Done;
    }

    method AbortStaged(s: StagedObject) returns (r: Ending)
      modifies this
      ensures Run(View(), r, script) == AbortRun(old(View()), s, old(script))
    {
      if s.manifestId !in manifests {
        if s.key in staged || s.key in referenced {
          return Raised(NoBindingManifest);
        }
        return Done;
      }
      if manifests[s.manifestId] != ManifestOf(s, PhaseStaged) {
        return Raised(BindingMismatch);
      }
      if s.key in referenced {
        return Raised(AlreadyReferenced);
      }
      RunOfTwo(View(), UnlinkStaged(s.key), UnlinkManifest(s.manifestId), script);
      :- Perform(UnlinkStaged(s.key));
      :- Perform(UnlinkManifest(s.manifestId));
      r := Done;
    }

    /** The body of the recovery loop for one old manifest. */
    method RecoverOne(id: Id, answer: Answer) returns (r: Ending, recovered: bool)
      modifies this
      ensures (Run(View(), r, script), recovered)
              == SweepOne(old(View()), id, answer, old(script))
    {
      recovered, r := false, Done;
      if id !in manifests || manifests[id].Unreadable? {
        return;
      }
      var m := manifests[id];
      var s := BindingOf(id, m);
      match answer {
        case IsReferenced =>
          if m.phase != PhaseStaged || (m.key !in staged && m.key !in referenced) {
            return;
          }
          r := MarkReferenced(s);
        case NotReferenced =>
          if m.key in referenced {
            return;
          }
          if m.phase == ManifestOnly {
            r := Discard(m.key, id);
          } else {
            r := AbortStaged(s);
          }
        case NoAnswer => return;
      }
      recovered := r.Done?;
      if r.Raised? {
        r := Done;
      }
    }

    method Discard(key: Id, id: Id) returns (r: Ending)
      modifies this
      ensures Run(View(), r, script)
              == RunPlan(old(View()), [UnlinkStaged(key), UnlinkManifest(id)], old(script))
    {
      RunOfTwo(View(), UnlinkStaged(key), UnlinkManifest(id), script);
      :- Perform(UnlinkStaged(key));
      :- Perform(UnlinkManifest(id));
      r := Done;
    }

    /** `recover_staged` over the manifests that are old enough, in directory order. */
    method RecoverStaged(order: seq<Id>, answers: map<Id, Answer>)
      returns (r: Ending, recovered: seq<Id>)
      modifies this
      ensures SweepRun(Run(View(), r, script), recovered)
              == Sweep(old(View()), order, answers, old(script), [])
    {
      ghost var goal := Sweep(View(), order, answers, script, []);
      assert order[0..] == order;
      r, recovered := Done, [];
      var i := 0;
      while i < |order|
        invariant 0 <= i <= |order|
        invariant r == Done
        invariant goal == Sweep(View(), order[i..], answers, script, recovered)
      {
        var id := order[i];
        assert order[i..][0] == id && order[i..][1..] == order[i + 1..];
        var one;
        r, one := RecoverOne(id, AnswerFor(View(), id, answers));
        if r.Crashed? {
          return;
        }
        if one {
          recovered := recovered + [id];
        }
        i := i + 1;
      }
    }
  }
}

/** What the staging protocol guarantees: resumption after any crash, exclusion of
    mark and abort, and the exact effect of one recovery sweep. */
module MediaStoreProperties {
  import opened Basics
  import opened MediaObjectStore

  // ---------------------------------------------------------------------
  // One staged object: attempts to mark, abort and sweep it, in any order

  /** The state `stage` leaves when it returns: staged, bound, not referenced. */
  ghost predicate JustStaged(d: Disk, s: StagedObject) {
    && s.manifestId in d.manifests && d.manifests[s.manifestId] == ManifestOf(s, PhaseStaged)
    && s.key in d.staged && s.key !in d.referenced
  }

  function MarkSteps(s: StagedObject): seq<FileStep> {
    [LinkReferenced(s.key), UnlinkStaged(s.key), UnlinkManifest(s.manifestId)]
  }

  function AbortSteps(s: StagedObject): seq<FileStep> {
    [UnlinkStaged(s.key), UnlinkManifest(s.manifestId)]
  }

  /** How far one of the two operations has come. */
  datatype Progress = Marking(steps: nat) | Aborting(steps: nat) {
    predicate Valid() { if Marking? then steps <= 3 else steps <= 2 }
  }

  function At(d: Disk, s: StagedObject, p: Progress): Disk
    requires p.Valid()
  {
    match p
    case Marking(i) => ApplyAll(d, MarkSteps(s)[..i])
    case Aborting(i) => ApplyAll(d, AbortSteps(s)[..i])
  }

  /** The only state a completed mark can leave. */
  function Referenced(d: Disk, s: StagedObject): Disk
    requires s.key in d.staged
  {
    d.(staged := d.staged - {s.key},
       referenced := d.referenced[s.key := d.staged[s.key]],
       manifests := d.manifests - {s.manifestId})
  }

  /** The only state a completed abort can leave. */
  function Discarded(d: Disk, s: StagedObject): Disk {
    d.(staged := d.staged - {s.key}, manifests := d.manifests - {s.manifestId})
  }

  lemma ApplyFew(d: Disk, a: FileStep, b: FileStep, c: FileStep)
    ensures ApplyAll(d, [a]) == Apply(d, a)
    ensures ApplyAll(d, [a, b]) == Apply(Apply(d, a), b)
    ensures ApplyAll(d, [a, b, c]) == Apply(Apply(Apply(d, a), b), c)
  {
    assert [a][1..] == [] && [b][1..] == [] && [c][1..] == [];
    assert [a, b][1..] == [b] && [b, c][1..] == [c] && [a, b, c][1..] == [b, c];
    assert ApplyAll(Apply(d, a), [b]) == Apply(Apply(d, a), b);
    assert ApplyAll(Apply(Apply(d, a), b), [c]) == Apply(Apply(Apply(d, a), b), c);
    assert ApplyAll(Apply(d, a), [b, c]) == ApplyAll(Apply(Apply(d, a), b), [c]);
  }

  lemma ProgressStates(d: Disk, s: StagedObject)
    requires JustStaged(d, s)
    ensures At(d, s, Marking(0)) == At(d, s, Aborting(0)) == d
    ensures At(d, s, Marking(1)) == d.(referenced := d.referenced[s.key := d.staged[s.key]])
    ensures At(d, s, Marking(2))
         == d.(referenced := d.referenced[s.key := d.staged[s.key]], staged := d.staged - {s.key})
    ensures At(d, s, Marking(3)) == Referenced(d, s)
    ensures At(d, s, Aborting(1)) == d.(staged := d.staged - {s.key})
    ensures At(d, s, Aborting(2)) == Discarded(d, s)
  {
    var m, a := MarkSteps(s), AbortSteps(s);
    assert m[..1] == [m[0]] && m[..2] == [m[0], m[1]] && m[..3] == [m[0], m[1], m[2]];
    assert a[..1] == [a[0]] && a[..2] == [a[0], a[1]];
    ApplyFew(d, m[0], m[1], m[2]);
    ApplyFew(d, a[0], a[1], a[1]);
  }

  /** A retry of an interrupted mark plans exactly the steps the interrupted call did not take,
      and an abort is refused as soon as one of them was taken. */
  lemma MarkResumes(d: Disk, s: StagedObject, i: nat)
    requires JustStaged(d, s) && i <= 3
    ensures MarkPlan(At(d, s, Marking(i)), s) == Planned(MarkSteps(s)[i..])
    ensures i > 0 ==> AbortPlan(At(d, s, Marking(i)), s).Refused?
  {
    ProgressStates(d, s);
  }

  /** A retry of an interrupted abort plans steps that end where an uninterrupted one ends,
      and a mark is refused as soon as one of them was taken. */
  lemma AbortResumes(d: Disk, s: StagedObject, i: nat)
    requires JustStaged(d, s) && i <= 2
    ensures AbortPlan(At(d, s, Aborting(i)), s)
         == Planned(if i == 2 then [] else AbortSteps(s))
    ensures i > 0 ==> MarkPlan(At(d, s, Aborting(i)), s) == Refused(Absent)
  {
    ProgressStates(d, s);
  }

  /** The three calls that may be made for a staged object, by its ingestion, by a replay
      of it or by the janitor. */
  datatype Call = Mark | Abort | SweepIt(answer: Answer)

  function RunCall(d: Disk, s: StagedObject, call: Call, script: Script): (Run, bool) {
    match call
    case Mark => var r := MarkRun(d, s, script); (r, r.ending.Done?)
    case Abort => var r := AbortRun(d, s, script); (r, r.ending.Done?)
    case SweepIt(answer) => SweepOne(d, s.manifestId, answer, script)
  }

  predicate MeansMark(call: Call) { call.Mark? || call == SweepIt(IsReferenced) }

  predicate MeansAbort(call: Call) { call.Abort? || call == SweepIt(NotReferenced) }

  /** Prefixes of a plan, applied on top of the progress already made. */
  lemma {:induction false} ApplyAllSplits(d: Disk, p: seq<FileStep>, q: seq<FileStep>)
    ensures ApplyAll(d, p + q) == ApplyAll(ApplyAll(d, p), q)
    decreases |p|
  {
    if p == [] {
      assert p + q == q;
    } else {
      assert (p + q)[1..] == p[1..] + q;
      ApplyAllSplits(Apply(d, p[0]), p[1..], q);
    }
  }

  /** The disk a run from `At(Marking(i))` along the rest of the mark steps leaves. */
  lemma MarkCallProgress(d: Disk, s: StagedObject, i: nat, call: Call, script: Script)
    returns (j: nat)
    requires JustStaged(d, s) && i <= 3 && MeansMark(call)
    ensures i <= j <= 3
    ensures RunCall(At(d, s, Marking(i)), s, call, script).0.disk == At(d, s, Marking(j))
    ensures RunCall(At(d, s, Marking(i)), s, call, script).1 ==> j == 3
  {
    var here := At(d, s, Marking(i));
    var plan := MarkSteps(s)[i..];
    MarkResumes(d, s, i);
    RunStopsAfterPrefix(here, plan, script);
    var k := Reached(plan, script);
    assert MarkSteps(s)[..i + k] == MarkSteps(s)[..i] + plan[..k];
    ApplyAllSplits(d, MarkSteps(s)[..i], plan[..k]);
    if call.Mark? {
      j := i + k;
    } else {
      ProgressStates(d, s);
      j := if SweepPlan(here, s.manifestId, IsReferenced).None? then i else i + k;
    }
  }

  lemma AbortCallProgress(d: Disk, s: StagedObject, i: nat, call: Call, script: Script)
    returns (j: nat)
    requires JustStaged(d, s) && i <= 2 && MeansAbort(call)
    ensures i <= j <= 2
    ensures RunCall(At(d, s, Aborting(i)), s, call, script).0.disk == At(d, s, Aborting(j))
    ensures RunCall(At(d, s, Aborting(i)), s, call, script).1 ==> j == 2
  {
    var here := At(d, s, Aborting(i));
    AbortResumes(d, s, i);
    ProgressStates(d, s);
    if i == 2 {
      return 2;
    }
    var plan := AbortSteps(s);
    RunStopsAfterPrefix(here, plan, script);
    var k := Reached(plan, script);
    assert plan[..0] == [] && plan[..1] == [plan[0]] && plan[..2] == [plan[0], plan[1]];
    ApplyFew(here, plan[0], plan[1], plan[1]);
    j := if k > i then k else i;
  }

  lemma CallRefused(d: Disk, s: StagedObject, p: Progress, call: Call, script: Script)
    requires JustStaged(d, s) && p.Valid() && p.steps > 0
    requires if p.Marking? then !MeansMark(call) else !MeansAbort(call)
    ensures RunCall(At(d, s, p), s, call, script).0.disk == At(d, s, p)
    ensures !RunCall(At(d, s, p), s, call, script).1
  {
    ProgressStates(d, s);
    if p.Marking? { MarkResumes(d, s, p.steps); } else { AbortResumes(d, s, p.steps); }
  }

  /** Whatever the fates, one call moves along the branch it belongs to; it completes exactly
      at the end of that branch, and is refused without effect on the other branch. */
  lemma CallProgress(d: Disk, s: StagedObject, p: Progress, call: Call, script: Script)
    returns (p': Progress)
    requires JustStaged(d, s) && p.Valid()
    ensures p'.Valid()
    ensures RunCall(At(d, s, p), s, call, script).0.disk == At(d, s, p')
    ensures p.steps > 0 ==> p'.Marking? == p.Marking? && p'.steps >= p.steps
    ensures RunCall(At(d, s, p), s, call, script).1 && MeansMark(call) ==> p' == Marking(3)
    ensures RunCall(At(d, s, p), s, call, script).1 && MeansAbort(call) ==> p' == Aborting(2)
  {
    if p.steps == 0 {
      assert At(d, s, p) == At(d, s, Marking(0)) == At(d, s, Aborting(0)) by { ProgressStates(d, s); }
    }
    if MeansMark(call) && (p.Marking? || p.steps == 0) {
      var j := MarkCallProgress(d, s, p.steps, call, script);
      p' := Marking(j);
    } else if MeansAbort(call) && (p.Aborting? || p.steps == 0) {
      var j := AbortCallProgress(d, s, p.steps, call, script);
      p' := Aborting(j);
    } else {
      p' := p;
      if p.steps > 0 {
        CallRefused(d, s, p, call, script);
      }
    }
  }

  /** Any number of calls, each cut short or not, with what completed. */
  function RunCalls(d: Disk, s: StagedObject, calls: seq<Call>, script: Script)
    : (Disk, seq<(Call, bool)>)
    decreases |calls|
  {
    if calls == [] then (d, [])
    else
      var (r, done) := RunCall(d, s, calls[0], script);
      var (d', rest) := RunCalls(r.disk, s, calls[1..], r.script);
      (d', [(calls[0], done)] + rest)
  }

  ghost predicate MarkCompleted(log: seq<(Call, bool)>) {
    exists i :: 0 <= i < |log| && log[i].1 && MeansMark(log[i].0)
  }

  ghost predicate AbortCompleted(log: seq<(Call, bool)>) {
    exists i :: 0 <= i < |log| && log[i].1 && MeansAbort(log[i].0)
  }

  lemma {:induction false} CallsProgress(d: Disk, s: StagedObject, p: Progress, calls: seq<Call>,
                                         script: Script)
    returns (p': Progress)
    requires JustStaged(d, s) && p.Valid()
    ensures p'.Valid()
    ensures RunCalls(At(d, s, p), s, calls, script).0 == At(d, s, p')
    ensures p.steps > 0 ==> p'.Marking? == p.Marking? && p'.steps >= p.steps
    ensures MarkCompleted(RunCalls(At(d, s, p), s, calls, script).1) ==> p' == Marking(3)
    ensures AbortCompleted(RunCalls(At(d, s, p), s, calls, script).1) ==> p' == Aborting(2)
    decreases |calls|
  {
    if calls == [] {
      return p;
    }
    var (r, done) := RunCall(At(d, s, p), s, calls[0], script);
    var mid := CallProgress(d, s, p, calls[0], script);
    p' := CallsProgress(d, s, mid, calls[1..], r.script);
    var rest := RunCalls(r.disk, s, calls[1..], r.script).1;
    var log := [(calls[0], done)] + rest;
    assert forall i :: 0 < i < |log| ==> log[i] == rest[i - 1];
  }

  /** For one staged object, over every sequence of marks, aborts and sweeps (the sweeps with
      right or wrong answers) and every placement of raised steps and crashes:
      a completed mark leaves exactly one possible state, a completed abort exactly one other,
      and the two exclude each other. */
  lemma MarkAndAbortExclude(d: Disk, s: StagedObject, calls: seq<Call>, script: Script)
    requires JustStaged(d, s)
    ensures var (d', log) := RunCalls(d, s, calls, script);
            && (MarkCompleted(log) ==> d' == Referenced(d, s))
            && (AbortCompleted(log) ==> d' == Discarded(d, s))
            && !(MarkCompleted(log) && AbortCompleted(log))
  {
    ProgressStates(d, s);
    var p := CallsProgress(d, s, Marking(0), calls, script);
  }

  /** Marking converges: after any interrupted marks, one more whose steps all succeed completes. */
  lemma MarkConverges(d: Disk, s: StagedObject, calls: seq<Call>, script: Script)
    requires JustStaged(d, s)
    requires forall i :: 0 <= i < |calls| ==> MeansMark(calls[i])
    ensures var d' := RunCalls(d, s, calls, script).0;
            MarkRun(d', s, []) == Run(Referenced(d, s), Done, [])
  {
    ProgressStates(d, s);
    var p := MarksOnly(d, s, 0, calls, script);
    var here := At(d, s, Marking(p));
    MarkResumes(d, s, p);
    RunOfThree(d, LinkReferenced(s.key), UnlinkStaged(s.key), UnlinkManifest(s.manifestId), []);
    RunOfTwo(At(d, s, Marking(1)), UnlinkStaged(s.key), UnlinkManifest(s.manifestId), []);
    RunOfTwo(At(d, s, Marking(2)), UnlinkManifest(s.manifestId), UnlinkManifest(s.manifestId), []);
  }

  lemma {:induction false} MarksOnly(d: Disk, s: StagedObject, i: nat, calls: seq<Call>,
                                     script: Script)
    returns (j: nat)
    requires JustStaged(d, s) && i <= 3
    requires forall c :: 0 <= c < |calls| ==> MeansMark(calls[c])
    ensures j <= 3 && RunCalls(At(d, s, Marking(i)), s, calls, script).0 == At(d, s, Marking(j))
    decreases |calls|
  {
    if calls == [] {
      return i;
    }
    var r := RunCall(At(d, s, Marking(i)), s, calls[0], script).0;
    j := MarkCallProgress(d, s, i, calls[0], script);
    j := MarksOnly(d, s, j, calls[1..], r.script);
  }

  // ---------------------------------------------------------------------
  // One sweep over a whole crash state

  /** What every crash of the protocol leaves true of the three directories: `owner` gives the
      one manifest that names a key, and every staged object has one. */
  ghost predicate WellBound(d: Disk, owner: map<Id, Id>) {
    && (forall m :: m in d.manifests && d.manifests[m].Manifest?
          ==> d.manifests[m].key in owner && owner[d.manifests[m].key] == m)
    && (forall k :: k in d.staged ==> k in owner && Names(d, owner[k], k))
    && (forall k :: k in d.referenced && k in owner && Names(d, owner[k], k)
          ==> d.manifests[owner[k]].phase == PhaseStaged)
    && (forall k :: k in d.staged && k in d.referenced ==> d.staged[k] == d.referenced[k])
  }

  predicate Names(d: Disk, m: Id, k: Id) {
    m in d.manifests && d.manifests[m].Manifest? && d.manifests[m].key == k
  }

  /** The manifests one sweep can settle. */
  predicate Settles(d: Disk, answers: map<Id, Answer>, m: Id) {
    && m in d.manifests && d.manifests[m].Manifest?
    && var f := d.manifests[m];
       match AnswerFor(d, m, answers)
       case NoAnswer => false
       case IsReferenced => f.phase == PhaseStaged && (f.key in d.staged || f.key in d.referenced)
       case NotReferenced => f.key !in d.referenced
  }

  /** The manifests among `ids` that a sweep settles, and those it settles by adopting. */
  function SettledIn(d: Disk, answers: map<Id, Answer>, ids: set<Id>): set<Id> {
    set m | m in ids && Settles(d, answers, m)
  }

  function AdoptedIn(d: Disk, answers: map<Id, Answer>, ids: set<Id>): set<Id> {
    set m | m in ids && Settles(d, answers, m) && AnswerFor(d, m, answers) == IsReferenced
  }

  /** `e` is `d` with the manifests in `gone` settled, those in `adopted` by adopting. */
  ghost predicate SweptTo(d: Disk, owner: map<Id, Id>, gone: set<Id>, adopted: set<Id>, e: Disk)
    requires WellBound(d, owner)
  {
    && e.manifestParts == d.manifestParts && e.objectParts == d.objectParts
    && adopted <= gone
    && e.manifests == d.manifests - gone
    && (forall k :: k in e.staged <==> k in d.staged && owner[k] !in gone)
    && (forall k :: k in e.staged ==> e.staged[k] == d.staged[k])
    && (forall k :: k in e.referenced <==> k in d.referenced || (k in d.staged && owner[k] in adopted))
    && (forall k :: k in e.referenced ==>
          e.referenced[k] == if k in d.referenced then d.referenced[k] else d.staged[k])
  }

  /** One settled manifest: adopted or discarded, by the checker's answer. */
  function Settle(e: Disk, m: Id, answer: Answer): Disk
    requires m in e.manifests && e.manifests[m].Manifest?
  {
    var k := e.manifests[m].key;
    e.(manifests := e.manifests - {m},
       staged := e.staged - {k},
       referenced := if answer == IsReferenced && k in e.staged && k !in e.referenced
                     then e.referenced[k := e.staged[k]] else e.referenced)
  }

  lemma SweepOneSettles(e: Disk, m: Id, answers: map<Id, Answer>)
    requires m in e.manifests && e.manifests[m].Manifest?
    requires var k := e.manifests[m].key;
             k in e.staged && k in e.referenced ==> e.staged[k] == e.referenced[k]
    ensures var answer := AnswerFor(e, m, answers);
            SweepOne(e, m, answer, [])
            == if Settles(e, answers, m) then (Run(Settle(e, m, answer), Done, []), true)
               else (Run(e, Done, []), false)
  {
    var f := e.manifests[m];
    RunOfThree(e, LinkReferenced(f.key), UnlinkStaged(f.key), UnlinkManifest(m), []);
    RunOfTwo(e, UnlinkStaged(f.key), UnlinkManifest(m), []);
    RunOfTwo(e, UnlinkManifest(m), UnlinkManifest(m), []);
    RunOfTwo(Apply(e, LinkReferenced(f.key)), UnlinkStaged(f.key), UnlinkManifest(m), []);
    if f.key !in e.staged {
      assert e.staged - {f.key} == e.staged;
    }
  }

  lemma SettleAddsOne(d: Disk, owner: map<Id, Id>, gone: set<Id>, adopted: set<Id>, e: Disk,
                      m: Id, answer: Answer)
    requires WellBound(d, owner) && SweptTo(d, owner, gone, adopted, e)
    requires m in d.manifests && d.manifests[m].Manifest? && m !in gone
    ensures m in e.manifests && e.manifests[m] == d.manifests[m]
    ensures SweptTo(d, owner, gone + {m}, if answer == IsReferenced then adopted + {m} else adopted,
                    Settle(e, m, answer))
  {
    assert d.manifests - (gone + {m}) == (d.manifests - gone) - {m};
    forall k | k in d.staged ensures owner[k] == m <==> k == d.manifests[m].key {
    }
  }

  /** Sweeping one more manifest settles exactly that one. */
  lemma SweepSettlesOne(d: Disk, owner: map<Id, Id>, answers: map<Id, Answer>, ids: set<Id>, e: Disk,
                        m: Id)
    requires WellBound(d, owner) && m !in ids && m in d.manifests
    requires SweptTo(d, owner, SettledIn(d, answers, ids), AdoptedIn(d, answers, ids), e)
    ensures var (r, one) := SweepOne(e, m, AnswerFor(e, m, answers), []);
            && r.ending == Done && r.script == [] && one == Settles(d, answers, m)
            && SweptTo(d, owner, SettledIn(d, answers, ids + {m}), AdoptedIn(d, answers, ids + {m}),
                       r.disk)
  {
    var gone, adopted := SettledIn(d, answers, ids), AdoptedIn(d, answers, ids);
    assert m in e.manifests && e.manifests[m] == d.manifests[m];
    if d.manifests[m].Manifest? {
      SweepOneSettles(e, m, answers);
    }
    assert Settles(e, answers, m) == Settles(d, answers, m);
    if Settles(d, answers, m) {
      SettleAddsOne(d, owner, gone, adopted, e, m, AnswerFor(d, m, answers));
      assert SettledIn(d, answers, ids + {m}) == gone + {m};
      assert AdoptedIn(d, answers, ids + {m})
          == if AnswerFor(d, m, answers) == IsReferenced then adopted + {m} else adopted;
    } else {
      assert SettledIn(d, answers, ids + {m}) == gone;
      assert AdoptedIn(d, answers, ids + {m}) == adopted;
    }
  }

  function Members(order: seq<Id>): set<Id> { set i | 0 <= i < |order| :: order[i] }

  ghost predicate Distinct(order: seq<Id>) {
    forall i, j :: 0 <= i < j < |order| ==> order[i] != order[j]
  }

  /** The manifests a sweep reports: those it can settle, in directory order. */
  function Reported(d: Disk, answers: map<Id, Answer>, order: seq<Id>): seq<Id>
    decreases |order|
  {
    if order == [] then []
    else (if Settles(d, answers, order[0]) then [order[0]] else [])
         + Reported(d, answers, order[1..])
  }

  lemma MembersOfTail(order: seq<Id>)
    requires order != [] && Distinct(order)
    ensures Members(order) == {order[0]} + Members(order[1..])
    ensures order[0] !in Members(order[1..]) && Distinct(order[1..])
  {
    var rest := order[1..];
    forall x | x in Members(order) ensures x in {order[0]} + Members(rest) {
      var i :| 0 <= i < |order| && order[i] == x;
      if i > 0 { assert rest[i - 1] == x; }
    }
    forall i | 0 <= i < |rest| ensures rest[i] in Members(order) && rest[i] != order[0] {
      assert order[i + 1] == rest[i];
    }
  }

  /** The exact effect of a sweep whose steps all succeed. */
  lemma SweepUnfolds(e: Disk, order: seq<Id>, answers: map<Id, Answer>, before: seq<Id>)
    requires order != []
    ensures var (r, one) := SweepOne(e, order[0], AnswerFor(e, order[0], answers), []);
            r.ending == Done && r.script == [] ==>
              Sweep(e, order, answers, [], before)
              == Sweep(r.disk, order[1..], answers, [], if one then before + [order[0]] else before)
  {
    hide SweepOne, AnswerFor;
  }

  lemma ReportedUnfolds(d: Disk, answers: map<Id, Answer>, order: seq<Id>, before: seq<Id>)
    requires order != []
    ensures (if Settles(d, answers, order[0]) then before + [order[0]] else before)
            + Reported(d, answers, order[1..]) == before + Reported(d, answers, order)
  {
    hide Settles;
  }

  lemma NothingToSweep(d: Disk, answers: map<Id, Answer>, ids: set<Id>, e: Disk, before: seq<Id>)
    ensures Sweep(e, [], answers, [], before) == SweepRun(Run(e, Done, []), before)
    ensures before + Reported(d, answers, []) == before && ids + Members([]) == ids
  {
  }

  lemma JoinTail(ids: set<Id>, order: seq<Id>)
    requires order != [] && Distinct(order) && ids !! Members(order)
    ensures ids + {order[0]} + Members(order[1..]) == ids + Members(order)
    ensures order[0] !in ids && order[0] in Members(order) && Members(order[1..]) <= Members(order)
    ensures Distinct(order[1..]) && (ids + {order[0]}) !! Members(order[1..])
  {
    MembersOfTail(order);
  }

  lemma {:induction false} SweepSettles(d: Disk, owner: map<Id, Id>, answers: map<Id, Answer>,
                                        ids: set<Id>, e: Disk, order: seq<Id>, before: seq<Id>)
    requires WellBound(d, owner)
    requires SweptTo(d, owner, SettledIn(d, answers, ids), AdoptedIn(d, answers, ids), e)
    requires Distinct(order) && ids !! Members(order) && Members(order) <= d.manifests.Keys
    ensures var r := Sweep(e, order, answers, [], before);
            && r.run.ending == Done && r.recovered == before + Reported(d, answers, order)
            && SweptTo(d, owner, SettledIn(d, answers, ids + Members(order)),
                       AdoptedIn(d, answers, ids + Members(order)), r.run.disk)
    decreases |order|
  {
    hide SweptTo, WellBound, SettledIn, AdoptedIn, SweepOne, Settles, AnswerFor, Members, Distinct, Sweep, Reported;
    if order == [] {
      NothingToSweep(d, answers, ids, e, before);
    } else {
      var m, rest := order[0], order[1..];
      JoinTail(ids, order);
      SweepSettlesOne(d, owner, answers, ids, e, m);
      var r := SweepOne(e, m, AnswerFor(e, m, answers), []).0;
      var before' := if Settles(d, answers, m) then before + [m] else before;
      SweepUnfolds(e, order, answers, before);
      SweepSettles(d, owner, answers, ids + {m}, r.disk, rest, before');
      ReportedUnfolds(d, answers, order, before);
    }
  }

  lemma SweepOfAll(d: Disk, owner: map<Id, Id>, answers: map<Id, Answer>, order: seq<Id>) returns (d': Disk)
    requires WellBound(d, owner) && Distinct(order) && Members(order) == d.manifests.Keys
    ensures Sweep(d, order, answers, [], []).run.disk == d'
    ensures Sweep(d, order, answers, [], []).run.ending == Done
    ensures Sweep(d, order, answers, [], []).recovered == Reported(d, answers, order)
    ensures SweptTo(d, owner, SettledIn(d, answers, d.manifests.Keys),
                    AdoptedIn(d, answers, d.manifests.Keys), d')
  {
    assert SettledIn(d, answers, {}) == {} && AdoptedIn(d, answers, {}) == {};
    assert d.manifests - {} == d.manifests;
    SweepSettles(d, owner, answers, {}, d, order, []);
    assert [] + Reported(d, answers, order) == Reported(d, answers, order);
    assert {} + Members(order) == d.manifests.Keys;
    d' := Sweep(d, order, answers, [], []).run.disk;
  }

  /** A staged object whose published manifest names an item the checker calls referenced. */
  ghost predicate CalledReferenced(d: Disk, answers: map<Id, Answer>, k: Id) {
    k in d.staged
    && exists m :: Names(d, m, k) && d.manifests[m].phase == PhaseStaged
                   && AnswerFor(d, m, answers) == IsReferenced
  }

  /** From any crash state, a sweep over all manifests: a manifest stays exactly when it could
      not be settled, `referenced/` gains exactly the staged objects whose published manifest
      names an item the checker calls referenced, with their bytes, and no referenced bytes
      change. */
  lemma SweepEffect(d: Disk, owner: map<Id, Id>, answers: map<Id, Answer>, order: seq<Id>)
    requires WellBound(d, owner) && Distinct(order) && Members(order) == d.manifests.Keys
    ensures var r := Sweep(d, order, answers, [], []);
            var d' := r.run.disk;
            && r.run.ending == Done
            && r.recovered == Reported(d, answers, order)
            && (forall m :: m in d'.manifests <==> m in d.manifests && !Settles(d, answers, m))
            && (forall k :: k in d.referenced ==> k in d'.referenced && d'.referenced[k] == d.referenced[k])
            && (forall k :: k in d'.referenced <==> k in d.referenced || CalledReferenced(d, answers, k))
            && (forall k :: k in d'.referenced && k !in d.referenced ==> d'.referenced[k] == d.staged[k])
  {
    var d' := SweepOfAll(d, owner, answers, order);
    SweptReferences(d, owner, answers, d');
  }

  lemma SweptReferences(d: Disk, owner: map<Id, Id>, answers: map<Id, Answer>, d': Disk)
    requires WellBound(d, owner) && SweptTo(d, owner, SettledIn(d, answers, d.manifests.Keys),
                    AdoptedIn(d, answers, d.manifests.Keys), d')
    ensures forall k :: k in d'.referenced <==> k in d.referenced || CalledReferenced(d, answers, k)
  {
    forall k | k in d'.referenced && k !in d.referenced ensures CalledReferenced(d, answers, k) {
      assert Names(d, owner[k], k) && owner[k] in AdoptedIn(d, answers, d.manifests.Keys);
    }
    forall k | CalledReferenced(d, answers, k) ensures k in d'.referenced {
      var m :| Names(d, m, k) && d.manifests[m].phase == PhaseStaged
               && AnswerFor(d, m, answers) == IsReferenced;
      assert Settles(d, answers, m) && m in AdoptedIn(d, answers, d.manifests.Keys);
    }
  }

  /** One sweep leaves no manifest and no staged object if and only if it can settle every
      manifest: the checker answers, an item called referenced has a published manifest and an
      object, an item called unreferenced has no object in `referenced/`. */
  lemma SweepConverges(d: Disk, owner: map<Id, Id>, answers: map<Id, Answer>, order: seq<Id>)
    requires WellBound(d, owner) && Distinct(order) && Members(order) == d.manifests.Keys
    ensures var d' := Sweep(d, order, answers, [], []).run.disk;
            (d'.manifests == map[] && d'.staged == map[])
            <==> (forall m :: m in d.manifests ==> Settles(d, answers, m))
  {
    var d' := SweepOfAll(d, owner, answers, order);
    if d'.manifests == map[] {
      forall m | m in d.manifests ensures Settles(d, answers, m) {
        assert m !in d'.manifests;
      }
    }
    if forall m :: m in d.manifests ==> Settles(d, answers, m) {
      assert d'.manifests.Keys == {};
      forall k | k in d.staged ensures k !in d'.staged {
        assert Settles(d, answers, owner[k]);
      }
      assert d'.staged.Keys == {};
    }
  }
}

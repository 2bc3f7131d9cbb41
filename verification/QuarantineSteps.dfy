/** Every operation on an artifact is one step after another: what a crash after `n` steps leaves
    differs from what a crash after `n + 1` leaves by one step at most. So what holds of crashed runs
    holds of every intermediate state, and visibility begins and ends at steps on the marker. */
module QuarantineSteps {
  import opened Basics
  import opened Quarantine
  import opened QuarantineProperties
  import opened QuarantineRecovery

  /** An operation on a given artifact, as a function of what becomes of its steps. */
  type Operation = Script -> Run

  ghost predicate OneStep(a: Artifact, b: Artifact) {
    b == a || exists step :: b == Apply(a, step)
  }

  /** Two scripts alike, of which the second goes on for one fate more before the process dies. */
  predicate GoesOn(c: Script, c': Script) {
    && |c| > 0 && |c'| == |c| + 1 && c'[..|c| - 1] == c[..|c| - 1]
    && c[|c| - 1].Dies? && c'[|c|].Dies?
  }

  predicate DiesAtOnce(r: Run, a: Artifact) {
    r.artifact == a && (r.ending.Crashed? || r.script == [Dies])
  }

  ghost predicate OneStepFurther(r: Run, r': Run) {
    if r.ending.Crashed? then OneStep(r.artifact, r'.artifact) && (r'.ending.Crashed? || r'.script == [Dies])
    else r'.artifact == r.artifact && r'.ending == r.ending && GoesOn(r.script, r'.script)
  }

  /** The first script is the second one, cut short by a crash. */
  predicate IsCutOf(c: Script, s: Script) {
    && |c| > 0 && c[|c| - 1].Dies?
    && forall i :: 0 <= i < |c| - 1 ==> c[i] == NthFate(s, i)
  }

  /** The cut came too late to matter. */
  predicate SameEnd(r: Run, s: Run, left: int) {
    && r.artifact == s.artifact && r.ending == s.ending
    && (r.ending.Crashed? || (IsCutOf(r.script, s.script) && |r.script| >= left))
  }

  /** The operation takes its steps one by one, `most` of them at most. */
  ghost predicate StepByStep(op: Operation, a: Artifact, most: nat) {
    && DiesAtOnce(op([Dies]), a)
    && (forall c, c' :: GoesOn(c, c') ==> OneStepFurther(op(c), op(c')))
    && (forall c, s :: IsCutOf(c, s) && |c| > most ==> SameEnd(op(c), op(s), |c| - most))
  }

  lemma SameOperation(op: Operation, same: Operation, a: Artifact, most: nat)
    requires StepByStep(op, a, most) && forall s :: same(s) == op(s)
    ensures StepByStep(same, a, most)
  {
  }

  lemma MoreSteps(op: Operation, a: Artifact, most: nat, more: nat)
    requires StepByStep(op, a, most) && most <= more
    ensures StepByStep(op, a, more)
  {
  }

  // ---------------------------------------------------------------------
  // The building blocks

  function Nop(a: Artifact, ending: Ending): Operation {
    s => Run(a, ending, s)
  }

  function One(a: Artifact, step: Step): Operation {
    s => StepRun(a, step, s)
  }

  /** What goes on from where the first operation ended, unless the process died. */
  function Bind(op: Operation, next: (Artifact, Ending) -> Operation): Operation {
    s => var r := op(s); if r.ending.Crashed? then r else next(r.artifact, r.ending)(r.script)
  }

  lemma BindIs(op: Operation, next: (Artifact, Ending) -> Operation, s: Script)
    ensures var r := op(s);
            Bind(op, next)(s) == if r.ending.Crashed? then r else next(r.artifact, r.ending)(r.script)
  {
  }

  lemma NopIsStepByStep(a: Artifact, ending: Ending)
    requires !ending.Crashed?
    ensures StepByStep(Nop(a, ending), a, 0)
  {
  }

  lemma LaterGoesOn(c: Script, c': Script)
    requires GoesOn(c, c') && |c| > 1
    ensures FirstFate(c) == FirstFate(c') && GoesOn(LaterFates(c), LaterFates(c'))
  {
    assert c[..|c| - 1][0] == c[0] && c'[..|c| - 1][0] == c'[0];
    assert c[1..][..|c| - 2] == c[..|c| - 1][1..] && c'[1..][..|c| - 2] == c'[..|c| - 1][1..];
  }

  lemma LaterIsCut(c: Script, s: Script)
    requires IsCutOf(c, s) && |c| > 1
    ensures FirstFate(c) == FirstFate(s) && IsCutOf(LaterFates(c), LaterFates(s))
  {
    assert c[0] == NthFate(s, 0);
    forall i | 0 <= i < |c| - 2 ensures LaterFates(c)[i] == NthFate(LaterFates(s), i) {
      assert c[i + 1] == NthFate(s, i + 1);
    }
  }

  lemma OneIsStepByStep(a: Artifact, step: Step)
    ensures StepByStep(One(a, step), a, 1)
  {
    var op := One(a, step);
    forall c, c' | GoesOn(c, c') ensures OneStepFurther(op(c), op(c')) {
      if |c| > 1 {
        LaterGoesOn(c, c');
      } else {
        assert c == [Dies] && LaterFates(c') == [Dies];
      }
    }
    forall c, s | IsCutOf(c, s) && |c| > 1 ensures SameEnd(op(c), op(s), |c| - 1) {
      LaterIsCut(c, s);
    }
    hide Apply;
  }

  lemma BindIsStepByStep(op: Operation, next: (Artifact, Ending) -> Operation, a: Artifact, m: nat, n: nat)
    requires StepByStep(op, a, m)
    requires forall b, e: Ending :: !e.Crashed? ==> StepByStep(next(b, e), b, n)
    ensures StepByStep(Bind(op, next), a, m + n)
  {
    var both := Bind(op, next);
    hide GoesOn, IsCutOf, OneStep;
    var r := op([Dies]);
    if !r.ending.Crashed? {
      assert StepByStep(next(a, r.ending), a, n);
    }
    forall c, c' | GoesOn(c, c') ensures OneStepFurther(both(c), both(c')) {
      var r, r' := op(c), op(c');
      assert OneStepFurther(r, r');
      if !r'.ending.Crashed? {
        assert StepByStep(next(r'.artifact, r'.ending), r'.artifact, n);
      }
    }
    forall c, s | IsCutOf(c, s) && |c| > m + n ensures SameEnd(both(c), both(s), |c| - (m + n)) {
      var r, t := op(c), op(s);
      assert SameEnd(r, t, |c| - m);
      if !r.ending.Crashed? {
        assert StepByStep(next(r.artifact, r.ending), r.artifact, n);
        assert SameEnd(next(r.artifact, r.ending)(r.script), next(r.artifact, r.ending)(t.script), |r.script| - n);
      }
    }
  }

  /** Goes on only where the first operation finished. */
  function IfFinished(next: Artifact -> Operation): (Artifact, Ending) -> Operation {
    (b, e: Ending) => if e.Finished? then next(b) else Nop(b, e)
  }

  function AndThen(op: Operation, next: Artifact -> Operation): Operation {
    Bind(op, IfFinished(next))
  }

  lemma AndThenIs(op: Operation, next: Artifact -> Operation, s: Script)
    ensures var r := op(s);
            AndThen(op, next)(s) == if r.ending.Finished? then next(r.artifact)(r.script) else r
  {
  }

  lemma AndThenIsStepByStep(op: Operation, next: Artifact -> Operation, a: Artifact, m: nat, n: nat)
    requires StepByStep(op, a, m)
    requires forall b :: StepByStep(next(b), b, n)
    ensures StepByStep(AndThen(op, next), a, m + n)
  {
    var step := IfFinished(next);
    forall b, e: Ending | !e.Crashed? ensures StepByStep(step(b, e), b, n) {
      if e.Finished? {
        assert step(b, e) == next(b);
      } else {
        NopIsStepByStep(b, e);
        MoreSteps(Nop(b, e), b, 0, n);
        assert step(b, e) == Nop(b, e);
      }
    }
    hide StepByStep, Nop, IfFinished;
    BindIsStepByStep(op, step, a, m, n);
  }

  /** Ends as told, unless the process died. */
  function EndingAs(ending: Ending -> Ending): (Artifact, Ending) -> Operation {
    (b, e: Ending) => Nop(b, ending(e))
  }

  function Ends(op: Operation, ending: Ending -> Ending): Operation {
    Bind(op, EndingAs(ending))
  }

  lemma EndsIs(op: Operation, ending: Ending -> Ending, s: Script)
    ensures var r := op(s);
            Ends(op, ending)(s) == if r.ending.Crashed? then r else r.(ending := ending(r.ending))
  {
  }

  lemma EndsIsStepByStep(op: Operation, ending: Ending -> Ending, a: Artifact, m: nat)
    requires StepByStep(op, a, m)
    requires forall e: Ending :: !e.Crashed? ==> !ending(e).Crashed?
    ensures StepByStep(Ends(op, ending), a, m)
  {
    var step := EndingAs(ending);
    forall b, e: Ending | !e.Crashed? ensures StepByStep(step(b, e), b, 0) {
      NopIsStepByStep(b, ending(e));
      assert step(b, e) == Nop(b, ending(e));
    }
    hide StepByStep, Nop, EndingAs;
    BindIsStepByStep(op, step, a, m, 0);
  }

  // ---------------------------------------------------------------------
  // Publication and rollback

  function PlanOp(a: Artifact, plan: seq<Step>): Operation {
    s => PlanRun(a, plan, s)
  }

  function RollbackOp(a: Artifact, targets: seq<Target>): Operation {
    s => RollbackRun(a, targets, s)
  }

  function PublishOp(a: Artifact, bytes: Bytes, record: RecordFile): Operation
    requires record.RecordFile?
  {
    s => PublishRun(a, bytes, record, s)
  }

  lemma {:induction false} PlanIsStepByStep(a: Artifact, plan: seq<Step>)
    ensures StepByStep(PlanOp(a, plan), a, |plan|)
    decreases |plan|
  {
    if plan == [] || (plan[0].CreatePart? && plan[0].kind in a.parts) {
      var ending := if plan == [] then Finished else Failed;
      NopIsStepByStep(a, ending);
      MoreSteps(Nop(a, ending), a, 0, |plan|);
      hide StepByStep;
      SameOperation(Nop(a, ending), PlanOp(a, plan), a, |plan|);
    } else {
      var next := (b: Artifact) => PlanOp(b, plan[1..]);
      forall b ensures StepByStep(next(b), b, |plan| - 1) {
        PlanIsStepByStep(b, plan[1..]);
      }
      hide StepByStep, Apply;
      OneIsStepByStep(a, plan[0]);
      AndThenIsStepByStep(One(a, plan[0]), next, a, 1, |plan| - 1);
      forall s ensures PlanOp(a, plan)(s) == AndThen(One(a, plan[0]), next)(s) {
        AndThenIs(One(a, plan[0]), next, s);
      }
      SameOperation(AndThen(One(a, plan[0]), next), PlanOp(a, plan), a, |plan|);
    }
  }

  lemma {:induction false} RollbackIsStepByStep(a: Artifact, targets: seq<Target>)
    ensures StepByStep(RollbackOp(a, targets), a, |targets|)
    decreases |targets|
  {
    if targets == [] {
      NopIsStepByStep(a, Finished);
      hide StepByStep;
      SameOperation(Nop(a, Finished), RollbackOp(a, targets), a, 0);
    } else if !Present(a, targets[0]) {
      RollbackIsStepByStep(a, targets[1..]);
      hide StepByStep;
      SameOperation(RollbackOp(a, targets[1..]), RollbackOp(a, targets), a, |targets| - 1);
      MoreSteps(RollbackOp(a, targets), a, |targets| - 1, |targets|);
    } else {
      var next := (b: Artifact, e: Ending) => RollbackOp(b, targets[1..]);
      forall b, e: Ending | !e.Crashed? ensures StepByStep(next(b, e), b, |targets| - 1) {
        RollbackIsStepByStep(b, targets[1..]);
      }
      hide StepByStep, Apply;
      OneIsStepByStep(a, Unlink(targets[0]));
      BindIsStepByStep(One(a, Unlink(targets[0])), next, a, 1, |targets| - 1);
      SameOperation(Bind(One(a, Unlink(targets[0])), next), RollbackOp(a, targets), a, |targets|);
    }
  }

  /** `_publish_formal` after its plan. */
  function RollBackIfFailed(): (Artifact, Ending) -> Operation {
    (b, e: Ending) =>
      if e.Failed? then Ends(RollbackOp(b, RollbackOrder()), (e: Ending) => Failed) else Nop(b, e)
  }

  lemma RollBackIsStepByStep(b: Artifact, e: Ending)
    requires !e.Crashed?
    ensures StepByStep(RollBackIfFailed()(b, e), b, 6)
  {
    if e.Failed? {
      RollbackIsStepByStep(b, RollbackOrder());
      EndsIsStepByStep(RollbackOp(b, RollbackOrder()), (e: Ending) => Failed, b, 6);
    } else {
      NopIsStepByStep(b, e);
      MoreSteps(Nop(b, e), b, 0, 6);
    }
    hide StepByStep, Nop, RollbackOp, Ends;
  }

  lemma FreshPublicationIs(a: Artifact, bytes: Bytes, record: RecordFile, s: Script)
    requires record.RecordFile? && !AnyFormal(a)
    ensures PublishOp(a, bytes, record)(s) == Bind(PlanOp(a, PublishPlan(bytes, record)), RollBackIfFailed())(s)
  {
    hide PlanRun, RollbackRun, AnyFormal, Loads, RollbackOrder, PublishPlan;
    var r := PlanRun(a, PublishPlan(bytes, record), s);
    EndsIs(RollbackOp(r.artifact, RollbackOrder()), (e: Ending) => Failed, r.script);
    hide Ends;
  }

  lemma FreshPublicationIsStepByStep(a: Artifact, bytes: Bytes, record: RecordFile)
    requires record.RecordFile? && !AnyFormal(a)
    ensures StepByStep(PublishOp(a, bytes, record), a, 11)
  {
    var plan := PlanOp(a, PublishPlan(bytes, record));
    forall b, e: Ending | !e.Crashed? ensures StepByStep(RollBackIfFailed()(b, e), b, 6) {
      RollBackIsStepByStep(b, e);
    }
    PlanIsStepByStep(a, PublishPlan(bytes, record));
    hide StepByStep, RollBackIfFailed, PlanOp, PublishOp, Bind, AnyFormal;
    BindIsStepByStep(plan, RollBackIfFailed(), a, 5, 6);
    forall s ensures PublishOp(a, bytes, record)(s) == Bind(plan, RollBackIfFailed())(s) {
      FreshPublicationIs(a, bytes, record, s);
    }
    SameOperation(Bind(plan, RollBackIfFailed()), PublishOp(a, bytes, record), a, 11);
  }

  lemma RepublicationIsStepByStep(a: Artifact, bytes: Bytes, record: RecordFile)
    requires record.RecordFile? && AnyFormal(a)
    ensures StepByStep(PublishOp(a, bytes, record), a, 3)
  {
    hide StepByStep, RollbackRun, SameBinding, AnyFormal;
    if Loads(a, true) && SameBinding(a.record.value, record) {
      var shed := RollbackOp(a, [Part(PayloadPart), Part(RecordPart), Part(CommitPart)]);
      RollbackIsStepByStep(a, [Part(PayloadPart), Part(RecordPart), Part(CommitPart)]);
      EndsIsStepByStep(shed, (e: Ending) => Finished, a, 3);
      forall s ensures PublishOp(a, bytes, record)(s) == Ends(shed, (e: Ending) => Finished)(s) {
        EndsIs(shed, (e: Ending) => Finished, s);
      }
      SameOperation(Ends(shed, (e: Ending) => Finished), PublishOp(a, bytes, record), a, 3);
    } else {
      NopIsStepByStep(a, Failed);
      MoreSteps(Nop(a, Failed), a, 0, 3);
      SameOperation(Nop(a, Failed), PublishOp(a, bytes, record), a, 3);
    }
  }

  lemma PublishIsStepByStep(a: Artifact, bytes: Bytes, record: RecordFile)
    requires record.RecordFile?
    ensures StepByStep(PublishOp(a, bytes, record), a, 11)
  {
    hide StepByStep, PublishOp, AnyFormal;
    if AnyFormal(a) {
      RepublicationIsStepByStep(a, bytes, record);
      MoreSteps(PublishOp(a, bytes, record), a, 3, 11);
    } else {
      FreshPublicationIsStepByStep(a, bytes, record);
    }
  }

  // ---------------------------------------------------------------------
  // Deletion

  function CleanupOp(a: Artifact, t: Target): Operation {
    s => CleanupJournalRun(a, t, s)
  }

  function FinishOp(a: Artifact, t: Target): Operation {
    s => FinishJournalRun(a, t, s)
  }

  function UnlinkOp(a: Artifact, t: Target): Operation {
    s => JournalledUnlinkRun(a, t, s)
  }

  function TripletOp(a: Artifact): Operation {
    s => DeleteTripletRun(a, s)
  }

  function DeleteOp(a: Artifact): Operation {
    s => DeleteObjectRun(a, s)
  }

  function ExpireOp(a: Artifact, now: int): Operation {
    s => ExpireRun(a, now, s)
  }

  function RewriteOp(b: Artifact, e: Ending, t: Target): Operation {
    if !e.Failed? || t in b.journal then Nop(b, e)
    else Ends(One(b, WriteJournal(t, Deleted)), (e: Ending) => Failed)
  }

  function RewriteIfLost(t: Target): (Artifact, Ending) -> Operation {
    (b: Artifact, e: Ending) => RewriteOp(b, e, t)
  }

  lemma RewriteIsStepByStep(b: Artifact, e: Ending, t: Target)
    requires !e.Crashed?
    ensures StepByStep(RewriteOp(b, e, t), b, 1)
  {
    OneIsStepByStep(b, WriteJournal(t, Deleted));
    EndsIsStepByStep(One(b, WriteJournal(t, Deleted)), (e: Ending) => Failed, b, 1);
    NopIsStepByStep(b, e);
    hide StepByStep, One, Nop, Ends;
    MoreSteps(Nop(b, e), b, 0, 1);
  }

  lemma CleanupIs(a: Artifact, t: Target, s: Script)
    ensures CleanupOp(a, t)(s) == Bind(One(a, RemoveJournal(t)), RewriteIfLost(t))(s)
  {
    var r := StepRun(a, RemoveJournal(t), s);
    EndsIs(One(r.artifact, WriteJournal(t, Deleted)), (e: Ending) => Failed, r.script);
    hide StepRun, Ends;
  }

  lemma CleanupIsStepByStep(a: Artifact, t: Target)
    ensures StepByStep(CleanupOp(a, t), a, 2)
  {
    var first := One(a, RemoveJournal(t));
    OneIsStepByStep(a, RemoveJournal(t));
    hide StepByStep, Bind, CleanupOp, One, RewriteOp;
    forall b, e: Ending | !e.Crashed? ensures StepByStep(RewriteIfLost(t)(b, e), b, 1) {
      RewriteIsStepByStep(b, e, t);
    }
    BindIsStepByStep(first, RewriteIfLost(t), a, 1, 1);
    forall s ensures CleanupOp(a, t)(s) == Bind(first, RewriteIfLost(t))(s) {
      CleanupIs(a, t, s);
    }
    SameOperation(Bind(first, RewriteIfLost(t)), CleanupOp(a, t), a, 2);
  }

  function ThenCleanUp(t: Target): Artifact -> Operation {
    (b: Artifact) => CleanupOp(b, t)
  }

  function ThenNote(t: Target): Artifact -> Operation {
    (b: Artifact) => AndThen(One(b, WriteJournal(t, Deleted)), ThenCleanUp(t))
  }

  lemma NoteIsStepByStep(a: Artifact, t: Target)
    ensures StepByStep(ThenNote(t)(a), a, 3)
  {
    OneIsStepByStep(a, WriteJournal(t, Deleted));
    hide StepByStep, CleanupOp, One;
    forall b ensures StepByStep(ThenCleanUp(t)(b), b, 2) {
      CleanupIsStepByStep(b, t);
    }
    AndThenIsStepByStep(One(a, WriteJournal(t, Deleted)), ThenCleanUp(t), a, 1, 2);
  }

  /** The unlink itself, where there is something to unlink. */
  function RemovalOp(a: Artifact, t: Target): Operation {
    if Present(a, t) then One(a, Unlink(t)) else Nop(a, Finished)
  }

  lemma RemovalIsStepByStep(a: Artifact, t: Target)
    ensures StepByStep(RemovalOp(a, t), a, 1)
  {
    OneIsStepByStep(a, Unlink(t));
    NopIsStepByStep(a, Finished);
    hide StepByStep, One, Nop;
    MoreSteps(Nop(a, Finished), a, 0, 1);
  }

  lemma FinishIs(a: Artifact, t: Target, s: Script)
    ensures FinishOp(a, t)(s) == AndThen(RemovalOp(a, t), ThenNote(t))(s)
  {
    AndThenIs(RemovalOp(a, t), ThenNote(t), s);
    var r := RemovalOp(a, t)(s);
    AndThenIs(One(r.artifact, WriteJournal(t, Deleted)), ThenCleanUp(t), r.script);
    hide AndThen, CleanupJournalRun, Present, Apply;
  }

  lemma FinishIsStepByStep(a: Artifact, t: Target)
    ensures StepByStep(FinishOp(a, t), a, 4)
  {
    RemovalIsStepByStep(a, t);
    hide StepByStep, RemovalOp, ThenNote, FinishOp, AndThen;
    forall b ensures StepByStep(ThenNote(t)(b), b, 3) {
      NoteIsStepByStep(b, t);
    }
    AndThenIsStepByStep(RemovalOp(a, t), ThenNote(t), a, 1, 3);
    forall s ensures FinishOp(a, t)(s) == AndThen(RemovalOp(a, t), ThenNote(t))(s) {
      FinishIs(a, t, s);
    }
    SameOperation(AndThen(RemovalOp(a, t), ThenNote(t)), FinishOp(a, t), a, 4);
  }

  function ThenFinish(t: Target): Artifact -> Operation {
    (b: Artifact) => FinishOp(b, t)
  }

  function IntentOp(a: Artifact, t: Target): Operation {
    if t in a.journal then Nop(a, Finished) else One(a, WriteJournal(t, Intent))
  }

  lemma IntentIsStepByStep(a: Artifact, t: Target)
    ensures StepByStep(IntentOp(a, t), a, 1)
  {
    OneIsStepByStep(a, WriteJournal(t, Intent));
    NopIsStepByStep(a, Finished);
    hide StepByStep, One, Nop;
    MoreSteps(Nop(a, Finished), a, 0, 1);
  }

  lemma UnlinkIs(a: Artifact, t: Target, s: Script)
    requires Present(a, t)
    ensures UnlinkOp(a, t)(s) == AndThen(IntentOp(a, t), ThenFinish(t))(s)
  {
    AndThenIs(IntentOp(a, t), ThenFinish(t), s);
    hide AndThen, FinishJournalRun, Present, Apply;
  }

  lemma UnlinkIsStepByStep(a: Artifact, t: Target)
    ensures StepByStep(UnlinkOp(a, t), a, 5)
  {
    hide StepByStep, FinishJournalRun;
    if Present(a, t) {
      IntentIsStepByStep(a, t);
      forall b ensures StepByStep(ThenFinish(t)(b), b, 4) {
        FinishIsStepByStep(b, t);
      }
      hide FinishOp, ThenFinish, IntentOp, UnlinkOp, AndThen, Present;
      AndThenIsStepByStep(IntentOp(a, t), ThenFinish(t), a, 1, 4);
      forall s ensures UnlinkOp(a, t)(s) == AndThen(IntentOp(a, t), ThenFinish(t))(s) {
        UnlinkIs(a, t, s);
      }
      SameOperation(AndThen(IntentOp(a, t), ThenFinish(t)), UnlinkOp(a, t), a, 5);
    } else {
      NopIsStepByStep(a, Finished);
      MoreSteps(Nop(a, Finished), a, 0, 5);
      SameOperation(Nop(a, Finished), UnlinkOp(a, t), a, 5);
    }
  }

  function ThenUnlink(t: Target): Artifact -> Operation {
    (b: Artifact) => UnlinkOp(b, t)
  }

  function ThenUnlinkBoth(t: Target, u: Target): Artifact -> Operation {
    (b: Artifact) => AndThen(UnlinkOp(b, t), ThenUnlink(u))
  }

  lemma TripletIs(a: Artifact, s: Script)
    ensures TripletOp(a)(s) == AndThen(UnlinkOp(a, Marker), ThenUnlinkBoth(Payload, Record))(s)
  {
    AndThenIs(UnlinkOp(a, Marker), ThenUnlinkBoth(Payload, Record), s);
    var m := JournalledUnlinkRun(a, Marker, s);
    AndThenIs(UnlinkOp(m.artifact, Payload), ThenUnlink(Record), m.script);
    hide AndThen, JournalledUnlinkRun;
  }

  lemma TripletIsStepByStep(a: Artifact)
    ensures StepByStep(TripletOp(a), a, 15)
  {
    hide StepByStep, JournalledUnlinkRun, AndThen;
    UnlinkIsStepByStep(a, Marker);
    forall b ensures StepByStep(ThenUnlinkBoth(Payload, Record)(b), b, 10) {
      forall c ensures StepByStep(ThenUnlink(Record)(c), c, 5) {
        UnlinkIsStepByStep(c, Record);
      }
      UnlinkIsStepByStep(b, Payload);
      AndThenIsStepByStep(UnlinkOp(b, Payload), ThenUnlink(Record), b, 5, 5);
    }
    AndThenIsStepByStep(UnlinkOp(a, Marker), ThenUnlinkBoth(Payload, Record), a, 5, 10);
    forall s ensures TripletOp(a)(s) == AndThen(UnlinkOp(a, Marker), ThenUnlinkBoth(Payload, Record))(s) {
      TripletIs(a, s);
    }
    SameOperation(AndThen(UnlinkOp(a, Marker), ThenUnlinkBoth(Payload, Record)), TripletOp(a), a, 15);
  }

  function ThenOne(step: Step): Artifact -> Operation {
    (b: Artifact) => One(b, step)
  }

  function ThenTwo(step: Step, next: Step): Artifact -> Operation {
    (b: Artifact) => AndThen(One(b, step), ThenOne(next))
  }

  lemma DeleteIs(a: Artifact, s: Script)
    ensures DeleteOp(a)(s) == AndThen(One(a, Unlink(Marker)), ThenTwo(Unlink(Payload), Unlink(Record)))(s)
  {
    AndThenIs(One(a, Unlink(Marker)), ThenTwo(Unlink(Payload), Unlink(Record)), s);
    var m := StepRun(a, Unlink(Marker), s);
    AndThenIs(One(m.artifact, Unlink(Payload)), ThenOne(Unlink(Record)), m.script);
    hide AndThen, StepRun;
  }

  lemma DeleteIsStepByStep(a: Artifact)
    ensures StepByStep(DeleteOp(a), a, 3)
  {
    hide StepByStep, AndThen, StepRun;
    var rest := ThenTwo(Unlink(Payload), Unlink(Record));
    OneIsStepByStep(a, Unlink(Marker));
    forall b ensures StepByStep(rest(b), b, 2) {
      forall c ensures StepByStep(ThenOne(Unlink(Record))(c), c, 1) {
        OneIsStepByStep(c, Unlink(Record));
      }
      OneIsStepByStep(b, Unlink(Payload));
      AndThenIsStepByStep(One(b, Unlink(Payload)), ThenOne(Unlink(Record)), b, 1, 1);
    }
    AndThenIsStepByStep(One(a, Unlink(Marker)), rest, a, 1, 2);
    forall s ensures DeleteOp(a)(s) == AndThen(One(a, Unlink(Marker)), rest)(s) {
      DeleteIs(a, s);
    }
    SameOperation(AndThen(One(a, Unlink(Marker)), rest), DeleteOp(a), a, 3);
  }

  lemma ExpireIsStepByStep(a: Artifact, now: int)
    ensures StepByStep(ExpireOp(a, now), a, 15)
  {
    hide StepByStep, DeleteTripletRun;
    if Loads(a, true) && a.record.value.expiresAt <= now {
      TripletIsStepByStep(a);
      SameOperation(TripletOp(a), ExpireOp(a, now), a, 15);
    } else {
      NopIsStepByStep(a, Finished);
      MoreSteps(Nop(a, Finished), a, 0, 15);
      SameOperation(Nop(a, Finished), ExpireOp(a, now), a, 15);
    }
  }

  // ---------------------------------------------------------------------
  // The sweep

  function JournalsOp(a: Artifact, order: seq<Target>): Operation {
    s => JournalPhase(a, order, s).run
  }

  function PartsOp(a: Artifact, order: seq<PartKind>, young: set<Target>): Operation {
    s => PartPhase(a, order, young, s).run
  }

  function MarkerOp(a: Artifact, young: set<Target>): Operation {
    s => MarkerPhase(a, young, s).run
  }

  function RecordOp(a: Artifact, young: set<Target>, verdict: Verdict): Operation {
    s => RecordPhase(a, young, verdict, s).run
  }

  function PayloadOp(a: Artifact, young: set<Target>): Operation {
    s => PayloadPhase(a, young, s).run
  }

  /** A phase remembers a failure. */
  function Remembering(before: Ending): Ending -> Ending {
    (e: Ending) => if e.Finished? then before else e
  }

  function ThenJournals(order: seq<Target>): (Artifact, Ending) -> Operation {
    (b: Artifact, e: Ending) => Ends(JournalsOp(b, order), Remembering(e))
  }

  function EntryOp(a: Artifact, t: Target): Operation
    requires t in a.journal
  {
    if a.journal[t] == Deleted then CleanupOp(a, t) else FinishOp(a, t)
  }

  lemma EntryIsStepByStep(a: Artifact, t: Target)
    requires t in a.journal
    ensures StepByStep(EntryOp(a, t), a, 4)
  {
    CleanupIsStepByStep(a, t);
    FinishIsStepByStep(a, t);
    hide StepByStep, CleanupOp, FinishOp;
    MoreSteps(CleanupOp(a, t), a, 2, 4);
  }

  lemma JournalsSkip(a: Artifact, order: seq<Target>, s: Script)
    ensures order == [] ==> JournalsOp(a, order)(s) == Run(a, Finished, s)
    ensures order != [] && order[0] !in a.journal ==> JournalsOp(a, order)(s) == JournalsOp(a, order[1..])(s)
  {
  }

  lemma JournalsUnfold(a: Artifact, order: seq<Target>, s: Script)
    requires order != [] && order[0] in a.journal
    ensures var r := EntryOp(a, order[0])(s);
            JournalPhase(a, order, s).run
            == if r.ending.Crashed? then r
               else WithFailure(JournalPhase(r.artifact, order[1..], r.script).run, r.ending)
  {
    hide CleanupJournalRun, FinishJournalRun, WithFailure;
  }

  lemma ThenJournalsIs(b: Artifact, e: Ending, order: seq<Target>, s: Script)
    ensures ThenJournals(order)(b, e)(s) == WithFailure(JournalPhase(b, order, s).run, e)
  {
    EndsIs(JournalsOp(b, order), Remembering(e), s);
    hide Ends, JournalPhase;
  }

  lemma JournalsAre(a: Artifact, order: seq<Target>, s: Script)
    requires order != [] && order[0] in a.journal
    ensures JournalsOp(a, order)(s) == Bind(EntryOp(a, order[0]), ThenJournals(order[1..]))(s)
  {
    JournalsUnfold(a, order, s);
    var r := EntryOp(a, order[0])(s);
    BindIs(EntryOp(a, order[0]), ThenJournals(order[1..]), s);
    ThenJournalsIs(r.artifact, r.ending, order[1..], r.script);
    hide Bind, ThenJournals, JournalPhase, EntryOp, WithFailure;
  }

  lemma {:induction false} JournalsAreStepByStep(a: Artifact, order: seq<Target>)
    ensures StepByStep(JournalsOp(a, order), a, 4 * |order|)
    decreases |order|
  {
    hide StepByStep, EntryOp, Bind, JournalsOp, Ends;
    forall s ensures order == [] ==> JournalsOp(a, order)(s) == Nop(a, Finished)(s)
             ensures order != [] && order[0] !in a.journal ==> JournalsOp(a, order)(s) == JournalsOp(a, order[1..])(s) {
      JournalsSkip(a, order, s);
    }
    if order == [] {
      NopIsStepByStep(a, Finished);
      SameOperation(Nop(a, Finished), JournalsOp(a, order), a, 0);
    } else if order[0] !in a.journal {
      JournalsAreStepByStep(a, order[1..]);
      SameOperation(JournalsOp(a, order[1..]), JournalsOp(a, order), a, 4 * |order| - 4);
      MoreSteps(JournalsOp(a, order), a, 4 * |order| - 4, 4 * |order|);
    } else {
      var rest := order[1..];
      forall b, e: Ending | !e.Crashed? ensures StepByStep(ThenJournals(rest)(b, e), b, 4 * |rest|) {
        JournalsAreStepByStep(b, rest);
        EndsIsStepByStep(JournalsOp(b, rest), Remembering(e), b, 4 * |rest|);
      }
      EntryIsStepByStep(a, order[0]);
      BindIsStepByStep(EntryOp(a, order[0]), ThenJournals(rest), a, 4, 4 * |rest|);
      forall s ensures JournalsOp(a, order)(s) == Bind(EntryOp(a, order[0]), ThenJournals(rest))(s) {
        JournalsAre(a, order, s);
      }
      SameOperation(Bind(EntryOp(a, order[0]), ThenJournals(rest)), JournalsOp(a, order), a, 4 * |order|);
    }
  }

  function ThenParts(order: seq<PartKind>, young: set<Target>): (Artifact, Ending) -> Operation {
    (b: Artifact, e: Ending) => Ends(PartsOp(b, order, young), Remembering(e))
  }

  predicate SkipsPart(a: Artifact, kind: PartKind, young: set<Target>) {
    kind !in a.parts || Part(kind) in young
  }

  lemma PartsSkip(a: Artifact, order: seq<PartKind>, young: set<Target>, s: Script)
    ensures order == [] ==> PartsOp(a, order, young)(s) == Run(a, Finished, s)
    ensures order != [] && SkipsPart(a, order[0], young) ==>
              PartsOp(a, order, young)(s) == PartsOp(a, order[1..], young)(s)
  {
  }

  lemma PartsUnfold(a: Artifact, order: seq<PartKind>, young: set<Target>, s: Script)
    requires order != [] && !SkipsPart(a, order[0], young)
    ensures var r := UnlinkOp(a, Part(order[0]))(s);
            PartPhase(a, order, young, s).run
            == if r.ending.Crashed? then r
               else WithFailure(PartPhase(r.artifact, order[1..], young, r.script).run, r.ending)
  {
    hide JournalledUnlinkRun, WithFailure;
  }

  lemma ThenPartsIs(b: Artifact, e: Ending, order: seq<PartKind>, young: set<Target>, s: Script)
    ensures ThenParts(order, young)(b, e)(s) == WithFailure(PartPhase(b, order, young, s).run, e)
  {
    EndsIs(PartsOp(b, order, young), Remembering(e), s);
    hide Ends, PartPhase;
  }

  lemma PartsAre(a: Artifact, order: seq<PartKind>, young: set<Target>, s: Script)
    requires order != [] && !SkipsPart(a, order[0], young)
    ensures PartsOp(a, order, young)(s) == Bind(UnlinkOp(a, Part(order[0])), ThenParts(order[1..], young))(s)
  {
    PartsUnfold(a, order, young, s);
    var r := UnlinkOp(a, Part(order[0]))(s);
    BindIs(UnlinkOp(a, Part(order[0])), ThenParts(order[1..], young), s);
    ThenPartsIs(r.artifact, r.ending, order[1..], young, r.script);
    hide Bind, ThenParts, UnlinkOp, PartPhase, SkipsPart, WithFailure;
  }

  lemma {:induction false} PartsAreStepByStep(a: Artifact, order: seq<PartKind>, young: set<Target>)
    ensures StepByStep(PartsOp(a, order, young), a, 5 * |order|)
    decreases |order|
  {
    hide StepByStep, UnlinkOp, Bind, PartsOp, Ends, SkipsPart;
    forall s ensures order == [] ==> PartsOp(a, order, young)(s) == Nop(a, Finished)(s)
             ensures order != [] && SkipsPart(a, order[0], young) ==>
                       PartsOp(a, order, young)(s) == PartsOp(a, order[1..], young)(s) {
      PartsSkip(a, order, young, s);
    }
    if order == [] {
      NopIsStepByStep(a, Finished);
      SameOperation(Nop(a, Finished), PartsOp(a, order, young), a, 0);
    } else if SkipsPart(a, order[0], young) {
      PartsAreStepByStep(a, order[1..], young);
      SameOperation(PartsOp(a, order[1..], young), PartsOp(a, order, young), a, 5 * |order| - 5);
      MoreSteps(PartsOp(a, order, young), a, 5 * |order| - 5, 5 * |order|);
    } else {
      var t, rest := Part(order[0]), order[1..];
      forall b, e: Ending | !e.Crashed? ensures StepByStep(ThenParts(rest, young)(b, e), b, 5 * |rest|) {
        PartsAreStepByStep(b, rest, young);
        EndsIsStepByStep(PartsOp(b, rest, young), Remembering(e), b, 5 * |rest|);
      }
      UnlinkIsStepByStep(a, t);
      BindIsStepByStep(UnlinkOp(a, t), ThenParts(rest, young), a, 5, 5 * |rest|);
      forall s ensures PartsOp(a, order, young)(s) == Bind(UnlinkOp(a, t), ThenParts(rest, young))(s) {
        PartsAre(a, order, young, s);
      }
      SameOperation(Bind(UnlinkOp(a, t), ThenParts(rest, young)), PartsOp(a, order, young), a, 5 * |order|);
    }
  }

  lemma MarkerIsStepByStep(a: Artifact, young: set<Target>)
    ensures StepByStep(MarkerOp(a, young), a, 15)
  {
    hide StepByStep, DeleteTripletRun, Loads;
    if a.marker.None? || Marker in young || Loads(a, true) {
      NopIsStepByStep(a, Finished);
      MoreSteps(Nop(a, Finished), a, 0, 15);
      SameOperation(Nop(a, Finished), MarkerOp(a, young), a, 15);
    } else {
      TripletIsStepByStep(a);
      SameOperation(TripletOp(a), MarkerOp(a, young), a, 15);
    }
  }

  lemma RecordIsStepByStep(a: Artifact, young: set<Target>, verdict: Verdict)
    ensures StepByStep(RecordOp(a, young, verdict), a, 15)
  {
    hide StepByStep, DeleteTripletRun, JournalledUnlinkRun, Loads;
    if a.record.None? || Record in young {
      NopIsStepByStep(a, Finished);
      MoreSteps(Nop(a, Finished), a, 0, 15);
      SameOperation(Nop(a, Finished), RecordOp(a, young, verdict), a, 15);
    } else if !Loads(a, false) || verdict == Raises {
      UnlinkIsStepByStep(a, Record);
      MoreSteps(UnlinkOp(a, Record), a, 5, 15);
      SameOperation(UnlinkOp(a, Record), RecordOp(a, young, verdict), a, 15);
    } else if verdict == Inactive {
      TripletIsStepByStep(a);
      SameOperation(TripletOp(a), RecordOp(a, young, verdict), a, 15);
    } else {
      NopIsStepByStep(a, Finished);
      MoreSteps(Nop(a, Finished), a, 0, 15);
      SameOperation(Nop(a, Finished), RecordOp(a, young, verdict), a, 15);
    }
  }

  lemma PayloadIsStepByStep(a: Artifact, young: set<Target>)
    ensures StepByStep(PayloadOp(a, young), a, 5)
  {
    hide StepByStep, JournalledUnlinkRun;
    if a.payload.None? || Payload in young || a.record.Some? || a.marker.Some? {
      NopIsStepByStep(a, Finished);
      MoreSteps(Nop(a, Finished), a, 0, 5);
      SameOperation(Nop(a, Finished), PayloadOp(a, young), a, 5);
    } else {
      UnlinkIsStepByStep(a, Payload);
      SameOperation(UnlinkOp(a, Payload), PayloadOp(a, young), a, 5);
    }
  }

  function ThenPartPhase(listing: Listing, young: set<Target>, phases: nat): Artifact -> Operation {
    (b: Artifact) =>
      if phases < 2 then Nop(b, Finished)
      else AndThen(PartsOp(b, listing.parts, young), ThenMarker(young, phases))
  }

  function ThenMarker(young: set<Target>, phases: nat): Artifact -> Operation {
    (b: Artifact) => if phases < 3 then Nop(b, Finished) else MarkerOp(b, young)
  }

  function ThreeOp(a: Artifact, listing: Listing, young: set<Target>, phases: nat): Operation {
    s => SweepThree(a, listing, young, s, phases)
  }

  lemma ThreeAre(a: Artifact, listing: Listing, young: set<Target>, phases: nat, s: Script)
    requires phases >= 1
    ensures ThreeOp(a, listing, young, phases)(s)
            == AndThen(JournalsOp(a, listing.journals), ThenPartPhase(listing, young, phases))(s)
  {
    AndThenIs(JournalsOp(a, listing.journals), ThenPartPhase(listing, young, phases), s);
    var p1 := JournalPhase(a, listing.journals, s).run;
    AndThenIs(PartsOp(p1.artifact, listing.parts, young), ThenMarker(young, phases), p1.script);
    hide AndThen, JournalPhase, PartPhase, MarkerPhase;
  }

  function MostOfThree(listing: Listing): nat {
    4 * |listing.journals| + 5 * |listing.parts| + 15
  }

  lemma MarkerPhaseIsStepByStep(b: Artifact, young: set<Target>, phases: nat)
    ensures StepByStep(ThenMarker(young, phases)(b), b, 15)
  {
    hide StepByStep, MarkerOp;
    if phases < 3 {
      NopIsStepByStep(b, Finished);
      MoreSteps(Nop(b, Finished), b, 0, 15);
    } else {
      MarkerIsStepByStep(b, young);
    }
  }

  lemma PartPhaseIsStepByStep(b: Artifact, listing: Listing, young: set<Target>, phases: nat)
    ensures StepByStep(ThenPartPhase(listing, young, phases)(b), b, 5 * |listing.parts| + 15)
  {
    hide StepByStep, PartsOp, AndThen, ThenMarker;
    if phases < 2 {
      NopIsStepByStep(b, Finished);
      MoreSteps(Nop(b, Finished), b, 0, 5 * |listing.parts| + 15);
    } else {
      forall c ensures StepByStep(ThenMarker(young, phases)(c), c, 15) {
        MarkerPhaseIsStepByStep(c, young, phases);
      }
      PartsAreStepByStep(b, listing.parts, young);
      AndThenIsStepByStep(PartsOp(b, listing.parts, young), ThenMarker(young, phases), b, 5 * |listing.parts|, 15);
    }
  }

  lemma ThreeAreStepByStep(a: Artifact, listing: Listing, young: set<Target>, phases: nat)
    ensures StepByStep(ThreeOp(a, listing, young, phases), a, MostOfThree(listing))
  {
    hide StepByStep, JournalsOp, AndThen, ThenPartPhase;
    if phases < 1 {
      NopIsStepByStep(a, Finished);
      MoreSteps(Nop(a, Finished), a, 0, MostOfThree(listing));
      SameOperation(Nop(a, Finished), ThreeOp(a, listing, young, phases), a, MostOfThree(listing));
    } else {
      var next := ThenPartPhase(listing, young, phases);
      forall b ensures StepByStep(next(b), b, 5 * |listing.parts| + 15) {
        PartPhaseIsStepByStep(b, listing, young, phases);
      }
      JournalsAreStepByStep(a, listing.journals);
      AndThenIsStepByStep(JournalsOp(a, listing.journals), next, a, 4 * |listing.journals|, 5 * |listing.parts| + 15);
      hide ThreeOp;
      forall s ensures ThreeOp(a, listing, young, phases)(s) == AndThen(JournalsOp(a, listing.journals), next)(s) {
        ThreeAre(a, listing, young, phases, s);
      }
      SameOperation(AndThen(JournalsOp(a, listing.journals), next), ThreeOp(a, listing, young, phases), a, MostOfThree(listing));
    }
  }

  function ThenPayload(young: set<Target>, phases: nat): Artifact -> Operation {
    (b: Artifact) => if phases < 5 then Nop(b, Finished) else PayloadOp(b, young)
  }

  function ThenRecord(young: set<Target>, verdict: Verdict, phases: nat): Artifact -> Operation {
    (b: Artifact) =>
      if phases < 4 then Nop(b, Finished)
      else AndThen(RecordOp(b, young, verdict), ThenPayload(young, phases))
  }

  function SweepOp(a: Artifact, listing: Listing, young: set<Target>, verdict: Verdict, phases: nat): Operation {
    s => SweepRun(a, listing, young, verdict, s, phases)
  }

  lemma SweepIs(a: Artifact, listing: Listing, young: set<Target>, verdict: Verdict, phases: nat, s: Script)
    ensures SweepOp(a, listing, young, verdict, phases)(s)
            == AndThen(ThreeOp(a, listing, young, phases), ThenRecord(young, verdict, phases))(s)
  {
    AndThenIs(ThreeOp(a, listing, young, phases), ThenRecord(young, verdict, phases), s);
    var p3 := SweepThree(a, listing, young, s, phases);
    AndThenIs(RecordOp(p3.artifact, young, verdict), ThenPayload(young, phases), p3.script);
    hide AndThen, SweepThree, RecordPhase, PayloadPhase;
  }

  lemma LastPhasesAreStepByStep(b: Artifact, young: set<Target>, verdict: Verdict, phases: nat)
    ensures StepByStep(ThenRecord(young, verdict, phases)(b), b, 20)
  {
    hide StepByStep, RecordOp, PayloadOp, AndThen;
    if phases < 4 {
      NopIsStepByStep(b, Finished);
      MoreSteps(Nop(b, Finished), b, 0, 20);
    } else {
      forall c ensures StepByStep(ThenPayload(young, phases)(c), c, 5) {
        NopIsStepByStep(c, Finished);
        MoreSteps(Nop(c, Finished), c, 0, 5);
        PayloadIsStepByStep(c, young);
      }
      RecordIsStepByStep(b, young, verdict);
      AndThenIsStepByStep(RecordOp(b, young, verdict), ThenPayload(young, phases), b, 15, 5);
    }
  }

  lemma SweepIsStepByStep(a: Artifact, listing: Listing, young: set<Target>, verdict: Verdict, phases: nat)
    ensures StepByStep(SweepOp(a, listing, young, verdict, phases), a, MostOfThree(listing) + 20)
  {
    hide StepByStep, ThreeOp, ThenRecord, AndThen, SweepOp, MostOfThree;
    var three, next := ThreeOp(a, listing, young, phases), ThenRecord(young, verdict, phases);
    forall b ensures StepByStep(next(b), b, 20) {
      LastPhasesAreStepByStep(b, young, verdict, phases);
    }
    ThreeAreStepByStep(a, listing, young, phases);
    AndThenIsStepByStep(three, next, a, MostOfThree(listing), 20);
    forall s ensures SweepOp(a, listing, young, verdict, phases)(s) == AndThen(three, next)(s) {
      SweepIs(a, listing, young, verdict, phases, s);
    }
    SameOperation(AndThen(three, next), SweepOp(a, listing, young, verdict, phases), a, MostOfThree(listing) + 20);
  }

  // ---------------------------------------------------------------------
  // Every event, cut after any number of steps

  /** The same event, with other fates. */
  function WithScript(e: Event, s: Script): (r: Event)
    ensures r.script == s && (r.Publish? <==> e.Publish?) && (e.Publish? ==> r.record == e.record && r.bytes == e.bytes)
  {
    match e
    case Publish(bytes, record, _) => Publish(bytes, record, s)
    case DeleteObject(_) => DeleteObject(s)
    case RemoveExpired(now, _) => RemoveExpired(now, s)
    case Discard(_) => Discard(s)
    case Sweep(listing, young, verdict, _, phases) => Sweep(listing, young, verdict, s, phases)
  }

  function EventOp(a: Artifact, e: Event): Operation
    requires e.Publish? ==> e.record.RecordFile?
  {
    match e
    case Publish(bytes, record, _) => PublishOp(a, bytes, record)
    case DeleteObject(_) => DeleteOp(a)
    case RemoveExpired(now, _) => ExpireOp(a, now)
    case Discard(_) => RollbackOp(a, [Marker, Record, Payload])
    case Sweep(listing, young, verdict, _, phases) => SweepOp(a, listing, young, verdict, phases)
  }

  /** No event has more steps. */
  function MostSteps(e: Event): nat {
    match e
    case Publish(_, _, _) => 11
    case DeleteObject(_) => 3
    case RemoveExpired(_, _) => 15
    case Discard(_) => 3
    case Sweep(listing, _, _, _, _) => MostOfThree(listing) + 20
  }

  lemma EventIsStepByStep(a: Artifact, e: Event)
    requires e.Publish? ==> e.record.RecordFile?
    ensures StepByStep(EventOp(a, e), a, MostSteps(e))
    ensures forall s :: EventOp(a, e)(s).artifact == Next(a, WithScript(e, s))
  {
    match e {
      case Publish(bytes, record, _) => PublishIsStepByStep(a, bytes, record);
      case DeleteObject(_) => DeleteIsStepByStep(a);
      case RemoveExpired(now, _) => ExpireIsStepByStep(a, now);
      case Discard(_) => RollbackIsStepByStep(a, [Marker, Record, Payload]);
      case Sweep(listing, young, verdict, _, phases) => SweepIsStepByStep(a, listing, young, verdict, phases);
    }
    hide StepByStep, PublishRun, DeleteObjectRun, ExpireRun, RollbackRun, SweepRun;
  }

  /** The process dies after `n` steps. */
  function CutAt(s: Script, n: nat): (c: Script)
    ensures |c| == n + 1 && c[n].Dies? && forall i :: 0 <= i < n ==> c[i] == NthFate(s, i)
  {
    seq(n, (i: nat) => NthFate(s, i)) + [Dies]
  }

  /** What the first `n` steps of an event have made of an artifact. */
  function After(a: Artifact, e: Event, n: nat): Artifact
    requires e.Publish? ==> e.record.RecordFile?
  {
    Next(a, WithScript(e, CutAt(e.script, n)))
  }

  /** Main result, for every event, every placement of failures and every state: an event leads from
      the first state to the last in single steps. */
  lemma EventsGoStepByStep(a: Artifact, e: Event)
    requires e.Publish? ==> e.record.RecordFile?
    ensures After(a, e, 0) == a
    ensures forall n: nat :: OneStep(After(a, e, n), After(a, e, n + 1))
    ensures After(a, e, MostSteps(e)) == Next(a, e)
  {
    EventIsStepByStep(a, e);
    var op, most := EventOp(a, e), MostSteps(e);
    assert CutAt(e.script, 0) == [Dies];
    forall n: nat ensures OneStep(After(a, e, n), After(a, e, n + 1)) {
      var c, c' := CutAt(e.script, n), CutAt(e.script, n + 1);
      assert c[..n] == c'[..n];
      assert GoesOn(c, c') && OneStepFurther(op(c), op(c'));
    }
    var c := CutAt(e.script, most);
    assert IsCutOf(c, e.script) && SameEnd(op(c), op(e.script), |c| - most);
    assert WithScript(e, e.script) == e;
    hide Next, EventOp, MostSteps, CutAt, WithScript, OneStep, GoesOn, IsCutOf;
  }

  // ---------------------------------------------------------------------
  // Where visibility begins and ends

  predicate IsMarkerStep(step: Step) {
    step.PublishMarker? || step == Unlink(Marker)
  }

  lemma MarkerNeedsItsStep(a: Artifact, b: Artifact)
    requires OneStep(a, b) && a.marker.Some? != b.marker.Some?
    ensures forall step :: b == Apply(a, step) ==> IsMarkerStep(step)
    ensures exists step :: b == Apply(a, step) && IsMarkerStep(step)
  {
  }

  /** The marker comes and goes at a rename or an unlink of its own, in every event, with every
      placement of failures and from every state; and while visibility is atomic on both sides of a
      step, the artifact becomes visible or invisible exactly there. */
  lemma VisibilityChangesAtMarkerSteps(a: Artifact, e: Event, n: nat)
    requires Possible(e)
    ensures var b, c := After(a, e, n), After(a, e, n + 1);
            && (b.marker.Some? != c.marker.Some? ==> exists step :: c == Apply(b, step) && IsMarkerStep(step))
            && (Whole(b) && Whole(c) && Committed(b) != Committed(c) ==>
                  exists step :: c == Apply(b, step) && IsMarkerStep(step))
  {
    EventsGoStepByStep(a, e);
    var b, c := After(a, e, n), After(a, e, n + 1);
    hide After, Loads, OneStep;
    if b.marker.Some? != c.marker.Some? {
      MarkerNeedsItsStep(b, c);
    }
  }

  /** From a sound state the first `n` steps leave a sound one exactly when the event, dying there,
      is benign. */
  lemma EveryIntermediateStateSoundExactly(a: Artifact, e: Event, n: nat)
    requires Sound(a) && Possible(e)
    ensures Sound(After(a, e, n)) <==> Benign(a, WithScript(e, CutAt(e.script, n)))
  {
    NextSoundExactly(a, WithScript(e, CutAt(e.script, n)));
  }

  /** So an event in which nothing but crashes goes wrong, and which does not publish over a leftover
      intent, never shows a half-made or half-deleted artifact on the way: it is visible from the
      marker's rename and until the marker's unlink. */
  lemma NeverHalfVisible(a: Artifact, e: Event, n: nat)
    requires Sound(a) && Possible(e) && CrashesAtMost(e) && !RepublishesOverIntent(a, e)
    ensures var b, c := After(a, e, n), After(a, e, n + 1);
            && Sound(b) && (b.marker.Some? <==> Committed(b))
            && (Committed(b) != Committed(c) ==> exists step :: c == Apply(b, step) && IsMarkerStep(step))
  {
    CutIsBenign(a, e, n);
    CutIsBenign(a, e, n + 1);
    EveryIntermediateStateSoundExactly(a, e, n);
    EveryIntermediateStateSoundExactly(a, e, n + 1);
    VisibilityChangesAtMarkerSteps(a, e, n);
    hide After, Loads, Benign, WithScript, CutAt, RepublishesOverIntent, CrashesAtMost;
  }

  lemma CutIsBenign(a: Artifact, e: Event, n: nat)
    requires CrashesAtMost(e) && !RepublishesOverIntent(a, e)
    ensures Benign(a, WithScript(e, CutAt(e.script, n)))
  {
    var c := CutAt(e.script, n);
    forall i: nat ensures NthFate(e.script, i).Succeeds? || NthFate(e.script, i).Dies? {
      if i < |e.script| {
        assert e.script[i] in e.script;
      }
    }
    assert CrashOnly(c);
    assert NthFate(c, n).Dies?;
    assert forall i: nat :: i < n ==> NthFate(c, i) == NthFate(e.script, i);
    CrashesAreBenignExactly(a, WithScript(e, c));
    hide CutAt, Benign;
  }
}

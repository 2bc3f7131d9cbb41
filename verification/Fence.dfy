/** The writer fence (agent-server/focusproof/recovery.py): two file locks, two markers, and
    any number of writers and maintenance windows, each in its own process. */
module Fence {
  import opened Basics

  /** Where `writer_barrier` stands. */
  datatype WriterPc =
    | WantsAdmission     // waiting on the admission lock
    | ChecksIncomplete   // about to look for the recovery-incomplete marker
    | ChecksMaintenance  // about to look for the maintenance marker
    | WantsBarrier       // waiting on the drain lock, still holding admission
    | LeavesAdmission    // holds both locks
    | RechecksIncomplete
    | RechecksMaintenance
    | Writing            // the body of the context manager
    | WriterUnwinds      // exceptions and normal exit: give back whatever is held

  /** Where `maintenance_window` stands. */
  datatype WindowPc =
    | SeeksAdmission
    | CreatesMarker
    | AnnouncedMarker    // marker made, admission still held
    | Drains             // waiting on the drain lock
    | Open               // the body of the context manager
    | SeeksAdmissionAgain
    | RemovesMaintenance
    | RemovesIncomplete
    | WindowUnwinds

  datatype Process =
    | Writer(at: WriterPc)
    | Window(pc: WindowPc, started: bool, verified: bool)

  datatype State = State(
    admission: Option<Id>,
    barrier: Option<Id>,
    maintenance: bool,
    incomplete: bool,
    procs: map<Id, Process>)

  datatype Event =
    | EnterWriter(p: Id)
    | EnterWindow(p: Id)
    | TakeAdmission(p: Id)
    | TakeBarrier(p: Id)
    | TimeOut(p: Id)
    | LookForIncomplete(p: Id)
    | LookForMaintenance(p: Id)
    | CreateMaintenance(p: Id, fate: Fate)
    | GiveAdmission(p: Id)
    | GiveBarrier(p: Id)
    | BeginRecovery(p: Id, fate: Fate)
    | CompleteRecovery(p: Id)
    | BodyEnds(p: Id)
    | RemoveMaintenance(p: Id, fate: Fate)
    | RemoveIncomplete(p: Id, fate: Fate)
    | Leave(p: Id)
    | Crash(p: Id)

  function Initial(): State {
    State(None, None, false, false, map[])
  }

  function At(s: State, p: Id, proc: Process): State {
    s.(procs := s.procs[p := proc])
  }

  predicate IsWriter(s: State, p: Id, at: WriterPc) {
    p in s.procs && s.procs[p] == Writer(at)
  }

  predicate IsWindow(s: State, p: Id, pc: WindowPc) {
    p in s.procs && s.procs[p].Window? && s.procs[p].pc == pc
  }

  predicate Unwinds(s: State, p: Id) {
    IsWriter(s, p, WriterUnwinds) || IsWindow(s, p, WindowUnwinds)
  }

  predicate WaitsForAdmission(s: State, p: Id) {
    || IsWriter(s, p, WantsAdmission)
    || IsWindow(s, p, SeeksAdmission) || IsWindow(s, p, SeeksAdmissionAgain)
  }

  predicate WaitsForBarrier(s: State, p: Id) {
    IsWriter(s, p, WantsBarrier) || IsWindow(s, p, Drains)
  }

  predicate Enabled(s: State, e: Event) {
    match e
    case EnterWriter(p) => p !in s.procs
    case EnterWindow(p) => p !in s.procs
    case TakeAdmission(p) => WaitsForAdmission(s, p) && s.admission.None?
    case TakeBarrier(p) => WaitsForBarrier(s, p) && s.barrier.None?
    case TimeOut(p) => WaitsForAdmission(s, p) || WaitsForBarrier(s, p)
    case LookForIncomplete(p) => IsWriter(s, p, ChecksIncomplete) || IsWriter(s, p, RechecksIncomplete)
    case LookForMaintenance(p) => IsWriter(s, p, ChecksMaintenance) || IsWriter(s, p, RechecksMaintenance)
    case CreateMaintenance(p, fate) => IsWindow(s, p, CreatesMarker) && !fate.Dies?
    case GiveAdmission(p) =>
      && s.admission == Some(p)
      && (IsWriter(s, p, LeavesAdmission) || IsWindow(s, p, AnnouncedMarker) || Unwinds(s, p))
    case GiveBarrier(p) => s.barrier == Some(p) && s.admission != Some(p) && Unwinds(s, p)
    case BeginRecovery(p, fate) => IsWindow(s, p, Open) && !fate.Dies?
    case CompleteRecovery(p) => IsWindow(s, p, Open)
    case BodyEnds(p) => IsWriter(s, p, Writing) || IsWindow(s, p, Open)
    case RemoveMaintenance(p, fate) => IsWindow(s, p, RemovesMaintenance) && !fate.Dies?
    case RemoveIncomplete(p, fate) => IsWindow(s, p, RemovesIncomplete) && !fate.Dies?
    case Leave(p) => Unwinds(s, p) && s.admission != Some(p) && s.barrier != Some(p)
    case Crash(p) => p in s.procs
  }

  /** A writer passes a look at a marker when the marker is absent, and otherwise unwinds. */
  function Look(s: State, p: Id, marker: bool, next: WriterPc): State {
    At(s, p, Writer(if marker then WriterUnwinds else next))
  }

  function AfterTimeOut(s: State, p: Id): State
    requires Enabled(s, TimeOut(p))
  {
    match s.procs[p]
    case Writer(_) => At(s, p, Writer(WriterUnwinds))
    case Window(Drains, _, _) => At(s, p, s.procs[p].(pc := SeeksAdmissionAgain))
    case Window(_, _, _) => At(s, p, s.procs[p].(pc := WindowUnwinds))
  }

  function AfterTakingAdmission(s: State, p: Id): State
    requires WaitsForAdmission(s, p)
  {
    var held := s.(admission := Some(p));
    match s.procs[p]
    case Writer(_) => At(held, p, Writer(ChecksIncomplete))
    case Window(pc, _, _) =>
      At(held, p, s.procs[p].(pc := if pc == SeeksAdmission then CreatesMarker else RemovesMaintenance))
  }

  function AfterGivingAdmission(s: State, p: Id): State
    requires p in s.procs
  {
    var freed := s.(admission := None);
    match s.procs[p]
    case Writer(LeavesAdmission) => At(freed, p, Writer(RechecksIncomplete))
    case Window(AnnouncedMarker, _, _) => At(freed, p, s.procs[p].(pc := Drains))
    case _ => freed
  }

  /** `_create_marker(marker)`: exclusive creation. A failure after the file exists leaves it. */
  function AfterCreating(s: State, p: Id, fate: Fate): State
    requires Enabled(s, CreateMaintenance(p, fate))
  {
    if s.maintenance || fate.RaisesBefore? then At(s, p, s.procs[p].(pc := WindowUnwinds))
    else At(s.(maintenance := true), p,
            s.procs[p].(pc := if fate.Succeeds? then AnnouncedMarker else WindowUnwinds))
  }

  /** `begin_recovery`: an existing marker is accepted; a failure leaves `started` alone. */
  function AfterBeginning(s: State, p: Id, fate: Fate): State
    requires Enabled(s, BeginRecovery(p, fate))
  {
    match fate
    case Succeeds => At(s.(incomplete := true), p, s.procs[p].(started := true))
    case RaisesAfter => s.(incomplete := true)
    case _ => s
  }

  function AfterRemovingMaintenance(s: State, p: Id, fate: Fate): State
    requires Enabled(s, RemoveMaintenance(p, fate))
  {
    var w := s.procs[p];
    var next := if fate.Succeeds? && w.started && w.verified then RemovesIncomplete else WindowUnwinds;
    At(if fate.RaisesBefore? then s else s.(maintenance := false), p, w.(pc := next))
  }

  function AfterRemovingIncomplete(s: State, p: Id, fate: Fate): State
    requires Enabled(s, RemoveIncomplete(p, fate))
  {
    At(if fate.RaisesBefore? then s else s.(incomplete := false), p, s.procs[p].(pc := WindowUnwinds))
  }

  /** A dead process gives its locks back and leaves every marker where it is. */
  function AfterCrash(s: State, p: Id): State {
    s.(admission := if s.admission == Some(p) then None else s.admission,
       barrier := if s.barrier == Some(p) then None else s.barrier,
       procs := s.procs - {p})
  }

  function Step(s: State, e: Event): State
    requires Enabled(s, e)
  {
    match e
    case EnterWriter(p) => At(s, p, Writer(WantsAdmission))
    case EnterWindow(p) => At(s, p, Window(SeeksAdmission, false, false))
    case TakeAdmission(p) => AfterTakingAdmission(s, p)
    case TakeBarrier(p) =>
      At(s.(barrier := Some(p)), p,
         if s.procs[p].Writer? then Writer(LeavesAdmission) else s.procs[p].(pc := Open))
    case TimeOut(p) => AfterTimeOut(s, p)
    case LookForIncomplete(p) =>
      Look(s, p, s.incomplete,
           if s.procs[p].at == ChecksIncomplete then ChecksMaintenance else RechecksMaintenance)
    case LookForMaintenance(p) =>
      Look(s, p, s.maintenance, if s.procs[p].at == ChecksMaintenance then WantsBarrier else Writing)
    case CreateMaintenance(p, fate) => AfterCreating(s, p, fate)
    case GiveAdmission(p) => AfterGivingAdmission(s, p)
    case GiveBarrier(p) => s.(barrier := None)
    case BeginRecovery(p, fate) => AfterBeginning(s, p, fate)
    case CompleteRecovery(p) =>
      if s.procs[p].started then At(s, p, s.procs[p].(verified := true)) else s
    case BodyEnds(p) =>
      At(s, p, if s.procs[p].Writer? then Writer(WriterUnwinds)
               else s.procs[p].(pc := SeeksAdmissionAgain))
    case RemoveMaintenance(p, fate) => AfterRemovingMaintenance(s, p, fate)
    case RemoveIncomplete(p, fate) => AfterRemovingIncomplete(s, p, fate)
    case Leave(p) => s.(procs := s.procs - {p})
    case Crash(p) => AfterCrash(s, p)
  }

  // ---------------------------------------------------------------------
  // What every step keeps

  /** The processes that must hold the admission lock where they stand. */
  predicate NeedsAdmission(proc: Process) {
    match proc
    case Writer(at) => at in {ChecksIncomplete, ChecksMaintenance, WantsBarrier, LeavesAdmission}
    case Window(pc, _, _) => pc in {CreatesMarker, AnnouncedMarker, RemovesMaintenance, RemovesIncomplete}
  }

  predicate NeedsBarrier(proc: Process) {
    match proc
    case Writer(at) => at in {LeavesAdmission, RechecksIncomplete, RechecksMaintenance, Writing}
    case Window(pc, started, _) =>
      || pc == Open
      || (started && pc in {SeeksAdmissionAgain, RemovesMaintenance, RemovesIncomplete})
  }

  /** Windows whose own maintenance marker is in place. */
  predicate OwnsMarker(proc: Process) {
    proc.Window? && proc.pc in {AnnouncedMarker, Drains, Open, SeeksAdmissionAgain, RemovesMaintenance}
  }

  predicate MayHoldBarrier(proc: Process) {
    match proc
    case Writer(at) => NeedsBarrier(proc) || at == WriterUnwinds
    case Window(pc, _, _) =>
      pc in {Open, SeeksAdmissionAgain, RemovesMaintenance, RemovesIncomplete, WindowUnwinds}
  }

  ghost predicate ProcessInv(s: State, p: Id)
    requires p in s.procs
  {
    var proc := s.procs[p];
    && (NeedsAdmission(proc) ==> s.admission == Some(p))
    && (s.admission == Some(p) ==> NeedsAdmission(proc) || Unwinds(s, p))
    && (NeedsBarrier(proc) ==> s.barrier == Some(p))
    && (s.barrier == Some(p) ==> MayHoldBarrier(proc))
    && (OwnsMarker(proc) ==> s.maintenance)
    && (proc.Writer? && proc.at in {WantsBarrier, LeavesAdmission} ==> !s.maintenance)
    && (proc.Writer? && proc.at in {RechecksMaintenance, Writing} ==> !s.incomplete)
    && (proc.Window? ==>
          && (proc.verified ==> proc.started)
          && (proc.started ==> proc.pc !in {SeeksAdmission, CreatesMarker, AnnouncedMarker, Drains})
          && (proc.started && proc.pc != WindowUnwinds ==> s.incomplete)
          && (proc.pc == RemovesIncomplete ==> proc.started && proc.verified))
  }

  ghost predicate Inv(s: State) {
    && (s.admission.Some? ==> s.admission.value in s.procs)
    && (s.barrier.Some? ==> s.barrier.value in s.procs)
    && (forall p <- s.procs :: ProcessInv(s, p))
    && (forall p, q :: p in s.procs && q in s.procs && p != q ==>
          !OwnsMarker(s.procs[p]) || !OwnsMarker(s.procs[q]))
  }

  /** What a step by `p` must leave alone for the others, and establish for `p`. */
  ghost predicate StepsAlone(s: State, p: Id, s': State) {
    && s'.procs - {p} == s.procs - {p}
    && (s'.admission == s.admission || (s.admission.None? && s'.admission == Some(p))
        || (s.admission == Some(p) && s'.admission.None?))
    && (s'.barrier == s.barrier || (s.barrier.None? && s'.barrier == Some(p))
        || (s.barrier == Some(p) && s'.barrier.None?))
    && (s'.maintenance && !s.maintenance ==> s.admission == Some(p))
    && (s.maintenance && !s'.maintenance ==> p in s.procs && OwnsMarker(s.procs[p]))
    && (s'.incomplete != s.incomplete ==> s.barrier == Some(p))
  }

  lemma OthersKeepInv(s: State, p: Id, s': State, q: Id)
    requires Inv(s) && StepsAlone(s, p, s')
    requires q in s.procs && q != p
    ensures q in s'.procs && s'.procs[q] == s.procs[q] && ProcessInv(s', q)
  {
    assert q in s.procs - {p} && (s.procs - {p})[q] == s.procs[q];
    assert q in s'.procs - {p} && (s'.procs - {p})[q] == s'.procs[q];
    assert ProcessInv(s, q);
  }

  lemma AloneKeepsInv(s: State, p: Id, s': State)
    requires Inv(s) && StepsAlone(s, p, s')
    requires p in s'.procs ==> ProcessInv(s', p)
    requires p !in s'.procs ==> s'.admission != Some(p) && s'.barrier != Some(p)
    requires p in s'.procs && OwnsMarker(s'.procs[p]) ==>
               !s.maintenance || (p in s.procs && OwnsMarker(s.procs[p]))
    ensures Inv(s')
  {
    forall q | q in s'.procs ensures ProcessInv(s', q) {
      if q != p {
        assert q in s'.procs - {p};
        OthersKeepInv(s, p, s', q);
      }
    }
    forall q | q in s.procs && q != p ensures q in s'.procs && s'.procs[q] == s.procs[q] {
      OthersKeepInv(s, p, s', q);
    }
    forall q | q in s'.procs && q != p ensures q in s.procs && s'.procs[q] == s.procs[q] {
      assert q in s'.procs - {p};
      OthersKeepInv(s, p, s', q);
    }
  }

  predicate IsLockStep(e: Event) {
    e.TakeAdmission? || e.TakeBarrier? || e.TimeOut? || e.GiveAdmission? || e.GiveBarrier?
  }

  predicate IsMarkerStep(e: Event) {
    e.LookForIncomplete? || e.LookForMaintenance? || e.CreateMaintenance?
    || e.RemoveMaintenance? || e.RemoveIncomplete?
  }

  lemma TakingIsAlone(s: State, e: Event)
    requires Enabled(s, e) && (e.TakeAdmission? || e.TakeBarrier? || e.TimeOut?)
    ensures StepsAlone(s, e.p, Step(s, e))
  {
  }

  lemma GivingIsAlone(s: State, e: Event)
    requires Enabled(s, e) && (e.GiveAdmission? || e.GiveBarrier?)
    ensures StepsAlone(s, e.p, Step(s, e))
  {
  }

  lemma LockStepIsAlone(s: State, e: Event)
    requires Inv(s) && Enabled(s, e) && IsLockStep(e)
    ensures StepsAlone(s, e.p, Step(s, e))
  {
    hide Inv, StepsAlone, Step;
    if e.GiveAdmission? || e.GiveBarrier? {
      GivingIsAlone(s, e);
    } else {
      TakingIsAlone(s, e);
    }
  }

  lemma MarkerStepIsAlone(s: State, e: Event)
    requires Inv(s) && Enabled(s, e) && IsMarkerStep(e)
    ensures StepsAlone(s, e.p, Step(s, e))
  {
    assert ProcessInv(s, e.p);
  }

  lemma BodyStepIsAlone(s: State, e: Event)
    requires Inv(s) && Enabled(s, e) && !IsLockStep(e) && !IsMarkerStep(e)
    ensures StepsAlone(s, e.p, Step(s, e))
  {
    if e.p in s.procs {
      assert ProcessInv(s, e.p);
    }
  }

  lemma StepIsAlone(s: State, e: Event)
    requires Inv(s) && Enabled(s, e)
    ensures StepsAlone(s, e.p, Step(s, e))
  {
    if IsLockStep(e) {
      LockStepIsAlone(s, e);
    } else if IsMarkerStep(e) {
      MarkerStepIsAlone(s, e);
    } else {
      BodyStepIsAlone(s, e);
    }
  }

  ghost predicate ActorInv(s: State, p: Id, s': State) {
    && (p in s'.procs ==> ProcessInv(s', p))
    && (p !in s'.procs ==> s'.admission != Some(p) && s'.barrier != Some(p))
    && (p in s'.procs && OwnsMarker(s'.procs[p]) ==>
          !s.maintenance || (p in s.procs && OwnsMarker(s.procs[p])))
  }

  lemma TimeOutKeepsActor(s: State, p: Id)
    requires Enabled(s, TimeOut(p)) && ProcessInv(s, p)
    ensures ActorInv(s, p, Step(s, TimeOut(p)))
  {
  }

  lemma TakeAdmissionKeepsActor(s: State, p: Id)
    requires Enabled(s, TakeAdmission(p)) && ProcessInv(s, p)
    ensures ActorInv(s, p, Step(s, TakeAdmission(p)))
  {
  }

  lemma TakeBarrierKeepsActor(s: State, p: Id)
    requires Enabled(s, TakeBarrier(p)) && ProcessInv(s, p)
    ensures ActorInv(s, p, Step(s, TakeBarrier(p)))
  {
  }

  lemma TakingKeepsActor(s: State, e: Event)
    requires Inv(s) && Enabled(s, e)
    requires e.TakeAdmission? || e.TakeBarrier? || e.TimeOut?
    ensures ActorInv(s, e.p, Step(s, e))
  {
    assert ProcessInv(s, e.p);
    hide Inv, ActorInv, ProcessInv, Step, Enabled;
    match e {
      case TakeAdmission(p) => TakeAdmissionKeepsActor(s, p);
      case TakeBarrier(p) => TakeBarrierKeepsActor(s, p);
      case TimeOut(p) => TimeOutKeepsActor(s, p);
    }
  }

  lemma GivingKeepsActor(s: State, e: Event)
    requires Inv(s) && Enabled(s, e)
    requires e.GiveAdmission? || e.GiveBarrier?
    ensures ActorInv(s, e.p, Step(s, e))
  {
    assert ProcessInv(s, e.p);
    hide Inv;
  }

  lemma LookKeepsActor(s: State, e: Event)
    requires Enabled(s, e) && (e.LookForIncomplete? || e.LookForMaintenance?) && ProcessInv(s, e.p)
    ensures ActorInv(s, e.p, Step(s, e))
  {
  }

  lemma FileStepKeepsActor(s: State, e: Event)
    requires Enabled(s, e) && (e.CreateMaintenance? || e.RemoveMaintenance? || e.RemoveIncomplete?)
    requires ProcessInv(s, e.p)
    ensures ActorInv(s, e.p, Step(s, e))
  {
  }

  lemma MarkerStepsKeepActor(s: State, e: Event)
    requires Inv(s) && Enabled(s, e)
    requires IsMarkerStep(e)
    ensures ActorInv(s, e.p, Step(s, e))
  {
    assert ProcessInv(s, e.p);
    hide Inv, ActorInv, ProcessInv, Step;
    if e.LookForIncomplete? || e.LookForMaintenance? {
      LookKeepsActor(s, e);
    } else {
      FileStepKeepsActor(s, e);
    }
  }

  lemma BodyStepsKeepActor(s: State, e: Event)
    requires Inv(s) && Enabled(s, e)
    requires !IsLockStep(e) && !IsMarkerStep(e)
    ensures ActorInv(s, e.p, Step(s, e))
  {
    if e.p in s.procs {
      assert ProcessInv(s, e.p);
    }
  }

  lemma ActorKeepsInv(s: State, e: Event)
    requires Inv(s) && Enabled(s, e)
    ensures ActorInv(s, e.p, Step(s, e))
  {
    if e.TakeAdmission? || e.TakeBarrier? || e.TimeOut? {
      TakingKeepsActor(s, e);
    } else if e.GiveAdmission? || e.GiveBarrier? {
      GivingKeepsActor(s, e);
    } else if IsMarkerStep(e) {
      MarkerStepsKeepActor(s, e);
    } else {
      BodyStepsKeepActor(s, e);
    }
  }

  /** Every step of every process keeps the invariant. */
  lemma StepKeepsInv(s: State, e: Event)
    requires Inv(s) && Enabled(s, e)
    ensures Inv(Step(s, e))
  {
    StepIsAlone(s, e);
    ActorKeepsInv(s, e);
    AloneKeepsInv(s, e.p, Step(s, e));
  }
}

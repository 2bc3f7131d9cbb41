/** What the writer fence guarantees over every run of any number of processes. */
module FenceProperties {
  import opened Basics
  import opened Fence

  /** A run: the states it goes through and the event between each two of them. */
  ghost predicate IsRun(states: seq<State>, events: seq<Event>) {
    && |states| == |events| + 1
    && states[0] == Initial()
    && forall i :: 0 <= i < |events| ==> Follows(states[i], events[i], states[i + 1])
  }

  ghost predicate Follows(s: State, e: Event, s': State) {
    Enabled(s, e) && s' == Step(s, e)
  }

  lemma {:induction false} RunKeepsInv(states: seq<State>, events: seq<Event>, i: nat)
    requires IsRun(states, events) && i < |states|
    ensures Inv(states[i])
  {
    if i > 0 {
      RunKeepsInv(states, events, i - 1);
      assert Follows(states[i - 1], events[i - 1], states[i]);
      StepKeepsInv(states[i - 1], events[i - 1]);
    }
  }

  // ---------------------------------------------------------------------
  // Exclusion

  /** Nobody writes while a window is open or a recovery is unfinished, or beside another writer. */
  lemma WritersAreFenced(states: seq<State>, events: seq<Event>, i: nat, writer: Id)
    requires IsRun(states, events) && i < |states|
    requires IsWriter(states[i], writer, Writing)
    ensures !states[i].incomplete
    ensures forall q :: !IsWindow(states[i], q, Open)
    ensures forall q :: IsWriter(states[i], q, Writing) ==> q == writer
  {
    RunKeepsInv(states, events, i);
    assert ProcessInv(states[i], writer);
    forall q | q in states[i].procs && q != writer
      ensures !IsWindow(states[i], q, Open) && !IsWriter(states[i], q, Writing)
    {
      assert ProcessInv(states[i], q);
    }
  }

  /** A window whose recovery has begun keeps every writer out until it lets go of the drain
      lock, and afterwards the marker does unless it completed. */
  ghost predicate Recovering(s: State, p: Id) {
    && p in s.procs && s.procs[p].Window? && s.procs[p].started && s.procs[p].pc != WindowUnwinds
    && s.incomplete && s.barrier == Some(p)
  }

  ghost predicate Verified(s: State, p: Id) {
    Recovering(s, p) && s.procs[p].verified
  }

  /** The only steps that turn a window's flags on. */
  lemma OwnFlagsChange(s: State, e: Event)
    requires Enabled(s, e) && (e.p in s.procs ==> ProcessInv(s, e.p))
    requires Recovering(Step(s, e), e.p)
    ensures !Recovering(s, e.p) ==> e == BeginRecovery(e.p, Succeeds) && !Verified(Step(s, e), e.p)
    ensures Recovering(s, e.p) && Verified(Step(s, e), e.p) ==> Verified(s, e.p) || e == CompleteRecovery(e.p)
  {
  }

  lemma OthersKeepFlags(s: State, e: Event, p: Id)
    requires Inv(s) && Enabled(s, e) && e.p != p && Recovering(Step(s, e), p)
    ensures Recovering(s, p) && (Verified(Step(s, e), p) ==> Verified(s, p))
  {
    OthersAreUnmoved(s, e);
    StepIsAlone(s, e);
    assert ProcessInv(s, p);
    hide Inv, Step, Enabled;
  }

  lemma RecoveryFlagsChange(s: State, e: Event, p: Id)
    requires Inv(s) && Enabled(s, e)
    requires Recovering(Step(s, e), p)
    ensures !Recovering(s, p) ==> e == BeginRecovery(p, Succeeds) && !Verified(Step(s, e), p)
    ensures Recovering(s, p) && Verified(Step(s, e), p) ==> Verified(s, p) || e == CompleteRecovery(p)
  {
    if e.p != p {
      OthersKeepFlags(s, e, p);
    } else {
      if p in s.procs {
        assert ProcessInv(s, p);
      }
      hide Inv, Enabled, Step, ProcessInv, Recovering, Verified;
      OwnFlagsChange(s, e);
    }
    hide Inv, Enabled, Step, Recovering, Verified;
  }

  lemma FencedWhileRecovering(s: State, p: Id, q: Id)
    requires Inv(s) && Recovering(s, p)
    ensures !IsWriter(s, q, Writing)
  {
    if q in s.procs {
      assert ProcessInv(s, q);
    }
  }

  lemma {:induction false} RecoveringSinceItBegan(states: seq<State>, events: seq<Event>, k: nat, p: Id)
    returns (b: nat)
    requires IsRun(states, events) && k < |states|
    requires Recovering(states[k], p)
    ensures b < k && events[b] == BeginRecovery(p, Succeeds)
    ensures forall j :: b < j <= k ==> Recovering(states[j], p)
  {
    assert k > 0;
    RunKeepsInv(states, events, k - 1);
    assert Follows(states[k - 1], events[k - 1], states[k]);
    RecoveryFlagsChange(states[k - 1], events[k - 1], p);
    hide Inv, Follows, Enabled, Step, Recovering, Verified;
    if Recovering(states[k - 1], p) {
      b := RecoveringSinceItBegan(states, events, k - 1, p);
    } else {
      b := k - 1;
    }
  }

  lemma {:induction false} RecoveringSinceItCompleted(states: seq<State>, events: seq<Event>, k: nat, p: Id)
    returns (b: nat, c: nat)
    requires IsRun(states, events) && k < |states|
    requires Verified(states[k], p)
    ensures b < c < k
    ensures events[b] == BeginRecovery(p, Succeeds) && events[c] == CompleteRecovery(p)
    ensures forall j :: b < j <= k ==> Recovering(states[j], p)
  {
    assert k > 0;
    assert Recovering(states[k], p);
    assert Follows(states[k - 1], events[k - 1], states[k]);
    hide Inv, Enabled, Step, Recovering, Verified;
    RunKeepsInv(states, events, k - 1);
    RecoveryFlagsChange(states[k - 1], events[k - 1], p);
    hide Follows;
    if Verified(states[k - 1], p) {
      b, c := RecoveringSinceItCompleted(states, events, k - 1, p);
    } else {
      b := RecoveringSinceItBegan(states, events, k - 1, p);
      c := k - 1;
    }
  }

  /** The recovery-incomplete marker goes away only at the hands of a window that began and
      then completed a recovery, and that had every writer locked out all along. */
  lemma MarkerClearedByItsOwnRecovery(states: seq<State>, events: seq<Event>, k: nat)
    returns (p: Id, b: nat, c: nat)
    requires IsRun(states, events) && k < |events|
    requires states[k].incomplete && !states[k + 1].incomplete
    ensures events[k].RemoveIncomplete? && events[k].p == p
    ensures b < c < k
    ensures events[b] == BeginRecovery(p, Succeeds) && events[c] == CompleteRecovery(p)
    ensures forall j :: b < j <= k ==> Recovering(states[j], p)
    ensures forall j, q :: b < j <= k ==> !IsWriter(states[j], q, Writing)
  {
    RunKeepsInv(states, events, k);
    assert Follows(states[k], events[k], states[k + 1]);
    p := events[k].p;
    assert ProcessInv(states[k], p);
    b, c := RecoveringSinceItCompleted(states, events, k, p);
    forall j, q | b < j <= k ensures !IsWriter(states[j], q, Writing) {
      RunKeepsInv(states, events, j);
      FencedWhileRecovering(states[j], p, q);
    }
  }

  // ---------------------------------------------------------------------
  // No circular wait

  ghost predicate WaitsFor(s: State, p: Id, q: Id) {
    || (WaitsForAdmission(s, p) && s.admission == Some(q))
    || (WaitsForBarrier(s, p) && s.barrier == Some(q))
  }

  /** Who is waited for by someone who is waited for does not wait. */
  lemma WaitingChainsAreShort(s: State, p: Id, q: Id, r: Id)
    requires Inv(s)
    requires WaitsFor(s, p, q) && WaitsFor(s, q, r)
    ensures !WaitsForAdmission(s, r) && !WaitsForBarrier(s, r)
  {
    assert ProcessInv(s, p) && ProcessInv(s, q) && ProcessInv(s, r);
  }

  function Next(cycle: seq<Id>, n: nat): (m: nat)
    requires n < |cycle|
    ensures m < |cycle|
  {
    if n + 1 == |cycle| then 0 else n + 1
  }

  ghost predicate WaitsForNext(s: State, cycle: seq<Id>, n: nat)
    requires n < |cycle|
  {
    WaitsFor(s, cycle[n], cycle[Next(cycle, n)])
  }

  /** The two locks never reach a circular wait, however many processes take part. */
  lemma NoCircularWait(states: seq<State>, events: seq<Event>, i: nat, cycle: seq<Id>)
    requires IsRun(states, events) && i < |states|
    requires |cycle| > 0
    ensures exists n :: 0 <= n < |cycle| && !WaitsForNext(states[i], cycle, n)
  {
    RunKeepsInv(states, events, i);
    if forall n :: 0 <= n < |cycle| ==> WaitsForNext(states[i], cycle, n) {
      var second := Next(cycle, 0);
      var third := Next(cycle, second);
      assert WaitsForNext(states[i], cycle, 0) && WaitsForNext(states[i], cycle, second)
             && WaitsForNext(states[i], cycle, third);
      WaitingChainsAreShort(states[i], cycle[0], cycle[second], cycle[third]);
    }
  }

  /** The step other than dying or giving up that a process takes next, unless a lock is taken. */
  function NextStep(s: State, p: Id): Event
    requires p in s.procs
  {
    match s.procs[p]
    case Writer(at) => (
      match at
      case WantsAdmission => TakeAdmission(p)
      case ChecksIncomplete => LookForIncomplete(p)
      case ChecksMaintenance => LookForMaintenance(p)
      case WantsBarrier => TakeBarrier(p)
      case LeavesAdmission => GiveAdmission(p)
      case RechecksIncomplete => LookForIncomplete(p)
      case RechecksMaintenance => LookForMaintenance(p)
      case Writing => BodyEnds(p)
      case WriterUnwinds => NextUnwinding(s, p)
    )
    case Window(pc, _, _) =>
      match pc
      case SeeksAdmission => TakeAdmission(p)
      case CreatesMarker => CreateMaintenance(p, Succeeds)
      case AnnouncedMarker => GiveAdmission(p)
      case Drains => TakeBarrier(p)
      case Open => BodyEnds(p)
      case SeeksAdmissionAgain => TakeAdmission(p)
      case RemovesMaintenance => RemoveMaintenance(p, Succeeds)
      case RemovesIncomplete => RemoveIncomplete(p, Succeeds)
      case WindowUnwinds => NextUnwinding(s, p)
  }

  function NextUnwinding(s: State, p: Id): Event {
    if s.admission == Some(p) then GiveAdmission(p)
    else if s.barrier == Some(p) then GiveBarrier(p)
    else Leave(p)
  }

  lemma OnlyLocksBlock(s: State, p: Id)
    requires Inv(s) && p in s.procs
    ensures !Enabled(s, NextStep(s, p)) ==>
              || (WaitsForAdmission(s, p) && s.admission.Some?)
              || (WaitsForBarrier(s, p) && s.barrier.Some?)
  {
    assert ProcessInv(s, p);
  }

  /** Some process can always go on without giving up. */
  lemma NeverDeadlocked(states: seq<State>, events: seq<Event>, i: nat)
    requires IsRun(states, events) && i < |states|
    requires states[i].procs != map[]
    ensures exists p :: p in states[i].procs && Enabled(states[i], NextStep(states[i], p))
  {
    var s := states[i];
    RunKeepsInv(states, events, i);
    if forall p :: p in s.procs ==> !Enabled(s, NextStep(s, p)) {
      var p :| p in s.procs;
      OnlyLocksBlock(s, p);
      var q := if WaitsForAdmission(s, p) then s.admission.value else s.barrier.value;
      OnlyLocksBlock(s, q);
      var r := if WaitsForAdmission(s, q) then s.admission.value else s.barrier.value;
      OnlyLocksBlock(s, r);
      WaitingChainsAreShort(s, p, q, r);
    }
  }

  // ---------------------------------------------------------------------
  // The maintenance marker

  ghost predicate NotAdmitted(s: State, p: Id) {
    || p !in s.procs || s.procs[p].Window?
    || s.procs[p].at in {WantsAdmission, ChecksIncomplete, ChecksMaintenance, WriterUnwinds}
  }

  /** While a window's marker stands, whoever comes after it does not get to write. */
  lemma {:induction false} MarkerStopsNewWriters(
    states: seq<State>, events: seq<Event>, i: nat, j: nat, p: Id)
    requires IsRun(states, events) && i <= j < |states|
    requires NotAdmitted(states[i], p)
    requires forall n :: i <= n <= j ==> states[n].maintenance
    ensures NotAdmitted(states[j], p)
  {
    if i < j {
      MarkerStopsNewWriters(states, events, i, j - 1, p);
      assert Follows(states[j - 1], events[j - 1], states[j]);
      StillNotAdmitted(states[j - 1], events[j - 1], p);
      hide NotAdmitted, Step, Enabled;
    }
  }

  lemma StillNotAdmitted(s: State, e: Event, p: Id)
    requires Enabled(s, e) && NotAdmitted(s, p) && s.maintenance
    ensures NotAdmitted(Step(s, e), p)
  {
  }

  ghost predicate Orphaned(s: State) {
    s.maintenance && forall p <- s.procs :: !OwnsMarker(s.procs[p])
  }

  /** The four ways to leave a maintenance marker behind: to die as its owner, to run out of time
      for the admission lock when closing, to raise when opening after the file was made, and to
      fail to remove it. */
  predicate Abandons(s: State, e: Event) {
    match e
    case Crash(p) => p in s.procs && OwnsMarker(s.procs[p])
    case TimeOut(p) => IsWindow(s, p, SeeksAdmissionAgain)
    case CreateMaintenance(p, fate) => fate.RaisesAfter? && !s.maintenance
    case RemoveMaintenance(p, fate) => fate.RaisesBefore?
    case _ => false
  }

  predicate Owns(s: State, p: Id) {
    p in s.procs && OwnsMarker(s.procs[p])
  }

  /** How the step of one process moves the ownership of the marker. */
  predicate MovesOwnership(s: State, e: Event, s': State) {
    && (Abandons(s, e) ==> s'.maintenance && !Owns(s', e.p) && (s.maintenance ==> Owns(s, e.p)))
    && (!Abandons(s, e) && s'.maintenance && (Owns(s, e.p) || !s.maintenance) ==> Owns(s', e.p))
    && (s.maintenance && !Owns(s, e.p) ==> s'.maintenance && !Owns(s', e.p))
  }

  lemma MarkerStepMovesOwnership(s: State, e: Event)
    requires Inv(s) && Enabled(s, e) && IsMarkerStep(e)
    ensures MovesOwnership(s, e, Step(s, e))
  {
    assert ProcessInv(s, e.p);
    hide Inv;
  }

  lemma OtherStepMovesOwnership(s: State, e: Event)
    requires Inv(s) && Enabled(s, e) && !IsMarkerStep(e)
    ensures MovesOwnership(s, e, Step(s, e))
  {
    if e.p in s.procs {
      assert ProcessInv(s, e.p);
    }
    hide Inv;
    if IsLockStep(e) {
      LockStepMovesOwnership(s, e);
    } else {
      BodyStepMovesOwnership(s, e);
    }
    hide Step, Enabled, MovesOwnership, ProcessInv;
  }

  lemma LockStepMovesOwnership(s: State, e: Event)
    requires Enabled(s, e) && IsLockStep(e) && e.p in s.procs && ProcessInv(s, e.p)
    ensures MovesOwnership(s, e, Step(s, e))
  {
  }

  lemma BodyStepMovesOwnership(s: State, e: Event)
    requires Enabled(s, e) && !IsMarkerStep(e) && !IsLockStep(e) && (e.p in s.procs ==> ProcessInv(s, e.p))
    ensures MovesOwnership(s, e, Step(s, e))
  {
  }

  lemma OwnershipMoves(s: State, e: Event)
    requires Inv(s) && Enabled(s, e)
    ensures MovesOwnership(s, e, Step(s, e))
  {
    hide *;
    if IsMarkerStep(e) {
      MarkerStepMovesOwnership(s, e);
    } else {
      OtherStepMovesOwnership(s, e);
    }
  }

  lemma OthersAreUnmoved(s: State, e: Event)
    requires Inv(s) && Enabled(s, e)
    ensures forall q | q != e.p && q in s.procs :: q in Step(s, e).procs && Step(s, e).procs[q] == s.procs[q]
    ensures forall q | q != e.p && q in Step(s, e).procs :: q in s.procs
  {
    StepIsAlone(s, e);
    var s' := Step(s, e);
    hide Inv, Step, Enabled;
    forall q | q != e.p && q in s.procs ensures q in s'.procs && s'.procs[q] == s.procs[q] {
      assert q in s.procs - {e.p} && (s.procs - {e.p})[q] == s.procs[q];
      assert q in s'.procs - {e.p} && (s'.procs - {e.p})[q] == s'.procs[q];
    }
    forall q | q != e.p && q in s'.procs ensures q in s.procs {
      assert q in s'.procs - {e.p};
    }
  }

  /** A marker whose window is gone is never removed by anyone: no writer is admitted and no
      window opens until an operator deletes it. */
  lemma {:induction false} OrphanedMarkerStays(states: seq<State>, events: seq<Event>, i: nat, j: nat)
    requires IsRun(states, events) && i <= j < |states|
    requires Orphaned(states[i])
    ensures Orphaned(states[j])
  {
    if i < j {
      OrphanedMarkerStays(states, events, i, j - 1);
      RunKeepsInv(states, events, j - 1);
      assert Follows(states[j - 1], events[j - 1], states[j]);
      OwnershipMoves(states[j - 1], events[j - 1]);
      OthersAreUnmoved(states[j - 1], events[j - 1]);
      hide Inv, Step, Enabled;
    }
  }

  /** A marker loses its owner in these four ways and in no other. */
  lemma MarkerOrphanedByAStepExactly(s: State, e: Event)
    requires Inv(s) && Enabled(s, e) && !Orphaned(s)
    ensures Orphaned(Step(s, e)) <==> Abandons(s, e)
  {
    OwnershipMoves(s, e);
    OthersAreUnmoved(s, e);
    var s' := Step(s, e);
    hide Step, Enabled;
    if Abandons(s, e) {
      forall q | q in s'.procs ensures !OwnsMarker(s'.procs[q]) {
        if q != e.p && !s.maintenance {
          assert ProcessInv(s, q);
        }
      }
    }
  }

  /** A marker stands that nobody will ever remove exactly when some window abandoned it. */
  lemma {:induction false} MarkerOrphanedExactly(states: seq<State>, events: seq<Event>, j: nat)
    requires IsRun(states, events) && j < |states|
    ensures Orphaned(states[j]) <==> exists i :: 0 <= i < j && Abandons(states[i], events[i])
  {
    if j > 0 {
      MarkerOrphanedExactly(states, events, j - 1);
      RunKeepsInv(states, events, j - 1);
      var s, e := states[j - 1], events[j - 1];
      assert Follows(s, e, states[j]);
      if Orphaned(s) {
        OrphanedMarkerStays(states, events, j - 1, j);
      } else {
        MarkerOrphanedByAStepExactly(s, e);
      }
    }
  }

  /** It takes no crash: a window whose time runs out while it closes leaves its marker, and gives
      up the drain lock all the same. */
  lemma ClosingTimeOutOrphansTheMarker(s: State, p: Id)
    requires Inv(s) && IsWindow(s, p, SeeksAdmissionAgain)
    ensures Orphaned(Step(s, TimeOut(p)))
    ensures Step(s, TimeOut(p)).incomplete == s.incomplete
  {
    assert ProcessInv(s, p);
    var s' := Step(s, TimeOut(p));
    forall q | q in s'.procs ensures !OwnsMarker(s'.procs[q]) {
      if q != p {
        assert s'.procs[q] == s.procs[q];
      }
    }
  }
}

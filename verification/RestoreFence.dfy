/** A restore inside the writer fence (scripts/ai4c_restore.py:530-554,
    agent-server/focusproof/recovery.py): what it tells its window, and whom the fence lets in. */
module RestoreFence {
  import opened Basics
  import opened Fence
  import opened FenceProperties
  import opened Restore
  import opened RestoreProperties

  // ---------------------------------------------------------------------
  // What an open window remembers

  datatype Memory = Memory(incomplete: bool, started: bool, verified: bool)

  predicate Remembers(s: State, p: Id, m: Memory) {
    && IsWindow(s, p, Open) && s.incomplete == m.incomplete
    && s.procs[p].started == m.started && s.procs[p].verified == m.verified
  }

  /** The steps of one process. */
  function Own(events: seq<Event>, p: Id): seq<Event> {
    if events == [] then []
    else Own(events[..|events| - 1], p) + (if events[|events| - 1].p == p then [events[|events| - 1]] else [])
  }

  /** `begin_recovery` and `complete_recovery`, as calls on the window. */
  function Remembered(m: Memory, calls: seq<Event>): Memory {
    if calls == [] then m else
    var m' := Remembered(m, calls[..|calls| - 1]);
    match calls[|calls| - 1]
    case BeginRecovery(_, fate) => Memory(m'.incomplete || !fate.RaisesBefore?, m'.started || fate.Succeeds?, m'.verified)
    case CompleteRecovery(_) => m'.(verified := m'.verified || m'.started)
    case _ => m'
  }

  predicate IsWindowCall(e: Event) {
    e.BeginRecovery? || e.CompleteRecovery?
  }

  lemma OneStepRemembered(s: State, e: Event, p: Id, m: Memory)
    requires Inv(s) && Enabled(s, e) && Remembers(s, p, m)
    requires e.p == p ==> IsWindowCall(e)
    ensures Remembers(Step(s, e), p, Remembered(m, if e.p == p then [e] else []))
  {
    assert ProcessInv(s, p);
    if e.p != p {
      OthersAreUnmoved(s, e);
      StepIsAlone(s, e);
      hide Step, Enabled;
    } else {
      assert [e][..0] == [];
    }
  }

  /** Whatever the others do, an open window and the incomplete marker are what its own calls made them. */
  lemma {:induction false} WindowRemembers(
    states: seq<State>, events: seq<Event>, a: nat, b: nat, p: Id, m: Memory)
    requires IsRun(states, events) && a <= b < |states|
    requires Remembers(states[a], p, m)
    requires forall e <- Own(events[a..b], p) :: IsWindowCall(e)
    ensures Remembers(states[b], p, Remembered(m, Own(events[a..b], p)))
  {
    if a < b {
      var e, before := events[b - 1], Own(events[a..b - 1], p);
      OwnOfOneMore(events, a, b, p);
      WindowRemembers(states, events, a, b - 1, p, m);
      RunKeepsInv(states, events, b - 1);
      assert Follows(states[b - 1], e, states[b]);
      hide Inv, Enabled, Step, Remembers, Remembered, IsWindowCall, Own;
      OneStepRemembered(states[b - 1], e, p, Remembered(m, before));
      RememberedAppend(m, before, e);
      RememberedNothing(Remembered(m, before));
      if e.p == p {
        assert Own(events[a..b], p) == before + [e];
      } else {
        assert Own(events[a..b], p) == before;
      }
    }
  }

  lemma OwnOfOneMore(events: seq<Event>, a: nat, b: nat, p: Id)
    requires a < b <= |events|
    ensures Own(events[a..b], p) == Own(events[a..b - 1], p) + if events[b - 1].p == p then [events[b - 1]] else []
    ensures events[b - 1].p == p ==> events[b - 1] in Own(events[a..b], p)
    ensures forall x <- Own(events[a..b - 1], p) :: x in Own(events[a..b], p)
  {
    assert events[a..b][..b - a - 1] == events[a..b - 1];
  }

  lemma RememberedNothing(m: Memory)
    ensures Remembered(m, []) == m
  {
  }

  lemma RememberedAppend(m: Memory, calls: seq<Event>, e: Event)
    ensures Remembered(m, calls + [e]) == Remembered(Remembered(m, calls), [e])
  {
    assert (calls + [e])[..|calls|] == calls && [e][..0] == [];
  }

  // ---------------------------------------------------------------------
  // A restore as its window sees it

  ghost predicate ReachesBegin(w: World, bundle: Bundle, fates: Fates) {
    fates(CheckBundle).Succeeds? && PrepareRun(w, bundle, fates).ending.Done?
  }

  /** The calls a restore makes on its window. */
  ghost function RestoreCalls(w: World, bundle: Bundle, fates: Fates, p: Id): seq<Event> {
    if !ReachesBegin(w, bundle, fates) || fates(StepName.Begin).Dies? then []
    else
      [BeginRecovery(p, fates(StepName.Begin))]
      + if EveryMoveSucceeds(w, fates) && fates(ReconcileLive).Succeeds? && TakesEffect(fates(StepName.Complete))
        then [CompleteRecovery(p)] else []
  }

  function MemoryOf(w: World): Memory {
    Memory(w.incomplete, w.started, w.verified)
  }

  /** The marker and the flags in the outcome are the ones these calls make in the fence. */
  lemma OutcomeRemembered(w: World, bundle: Bundle, fates: Fates, p: Id)
    requires Fresh(w)
    ensures MemoryOf(RestoreRun(w, bundle, fates).world)
            == Remembered(MemoryOf(w), RestoreCalls(w, bundle, fates, p))
  {
    EndKeepsTheWindow(w, bundle, fates);
    AttemptRemembered(w, bundle, fates, p);
    RememberedNothing(MemoryOf(w));
    hide RestoreRun, PrepareRun, CutoverAllRun, Remembered, Fresh, EveryMoveSucceeds;
  }

  lemma EndKeepsTheWindow(w: World, bundle: Bundle, fates: Fates)
    ensures MemoryOf(RestoreRun(w, bundle, fates).world)
            == if fates(CheckBundle).Succeeds? then MemoryOf(ForwardRun(w, bundle, fates).world) else MemoryOf(w)
  {
    var a := ForwardRun(w, bundle, fates);
    UndoKeepsTheWindow(a.world, a.flags, fates);
    CleanupKeepsTheWindow(a.world, a.flags, fates);
    hide ForwardRun, CleanupRun, UndoRun;
  }

  lemma AttemptRemembered(w: World, bundle: Bundle, fates: Fates, p: Id)
    requires Fresh(w)
    ensures var prepared := PrepareRun(w, bundle, fates);
            var a := CutoverAllRun(prepared.world, prepared.flags, fates);
            && MemoryOf(prepared.world) == MemoryOf(w)
            && (ReachesBegin(w, bundle, fates) ==>
                  MemoryOf(a.world) == Remembered(MemoryOf(w), RestoreCalls(w, bundle, fates, p)))
  {
    PreparationOutcome(w, bundle, fates);
    if ReachesBegin(w, bundle, fates) {
      var prepared := PrepareRun(w, bundle, fates);
      CutoverAllOutcome(w, bundle, prepared.world, prepared.flags, fates);
    }
    RememberedCalls(MemoryOf(w), p, fates(StepName.Begin));
    RememberedNothing(MemoryOf(w));
    hide PrepareRun, CutoverAllRun, CutoverProgress, Remembered, LiveReconciles, FullyCutOver;
  }

  lemma CleanupKeepsTheWindow(w: World, flags: Flags, fates: Fates)
    ensures MemoryOf(CleanupRun(w, flags, fates).world) == MemoryOf(w)
  {
  }

  lemma RememberedCalls(m: Memory, p: Id, fate: Fate)
    ensures var m1 := Memory(m.incomplete || !fate.RaisesBefore?, m.started || fate.Succeeds?, m.verified);
            && Remembered(m, [BeginRecovery(p, fate)]) == m1
            && Remembered(m, [BeginRecovery(p, fate)] + [CompleteRecovery(p)])
               == m1.(verified := m1.verified || m1.started)
  {
    RememberedAppend(m, [BeginRecovery(p, fate)], CompleteRecovery(p));
    assert [BeginRecovery(p, fate)][..0] == [] && [CompleteRecovery(p)][..0] == [];
  }

  /** From state `a` to its `b`-th step, window `p` of this run carries out this restore. */
  ghost predicate CarriesOut(states: seq<State>, events: seq<Event>, a: nat, b: nat, p: Id,
                             w: World, bundle: Bundle, fates: Fates) {
    && IsRun(states, events) && a <= b < |events|
    && Fresh(w) && Remembers(states[a], p, MemoryOf(w))
    && Own(events[a..b], p) == RestoreCalls(w, bundle, fates, p)
    && events[b] == if RestoreRun(w, bundle, fates).ending.Crashed? then Crash(p) else BodyEnds(p)
  }

  /** The window of a restore ends with exactly the marker and the flags of its outcome. */
  lemma RestoreLeaves(states: seq<State>, events: seq<Event>, a: nat, b: nat, p: Id,
                      w: World, bundle: Bundle, fates: Fates)
    requires CarriesOut(states, events, a, b, p, w, bundle, fates)
    ensures Remembers(states[b], p, MemoryOf(RestoreRun(w, bundle, fates).world))
  {
    OutcomeRemembered(w, bundle, fates, p);
    WindowRemembers(states, events, a, b, p, MemoryOf(w));
    hide RestoreRun, Fresh, Remembered, Own, Follows, EveryMoveSucceeds, ReachesBegin;
  }

  // ---------------------------------------------------------------------
  // Whom the fence lets in afterwards

  /** A whole recovery: begun, completed, and its marker removed, by one window. */
  ghost predicate IsRecovery(events: seq<Event>, q: Id, b: nat, c: nat, k: nat) {
    && b < c < k < |events|
    && events[b] == BeginRecovery(q, Succeeds) && events[c] == CompleteRecovery(q)
    && events[k].RemoveIncomplete? && events[k].p == q
  }

  ghost predicate RecoveredBetween(events: seq<Event>, from: nat, to: nat) {
    exists q, b: nat, c: nat, k: nat :: from < b && k < to && IsRecovery(events, q, b, c, k)
  }

  lemma {:induction false} ClearedBetween(states: seq<State>, events: seq<Event>, i: nat, j: nat) returns (k: nat)
    requires IsRun(states, events) && i <= j < |states|
    requires states[i].incomplete && !states[j].incomplete
    ensures i <= k < j && states[k].incomplete && !states[k + 1].incomplete
  {
    if states[j - 1].incomplete {
      k := j - 1;
    } else {
      k := ClearedBetween(states, events, i, j - 1);
    }
  }

  /** A window that is past its body and may not clear the incomplete marker. */
  predicate LeavesUnverified(s: State, p: Id) {
    && p in s.procs && s.procs[p].Window? && !s.procs[p].verified
    && s.procs[p].pc in {SeeksAdmissionAgain, RemovesMaintenance, WindowUnwinds}
  }

  lemma StillUnverified(s: State, e: Event, p: Id)
    requires Inv(s) && Enabled(s, e) && LeavesUnverified(s, p)
    ensures LeavesUnverified(Step(s, e), p) || p !in Step(s, e).procs
  {
    if e.p != p {
      OthersAreUnmoved(s, e);
      hide Step, Enabled;
    }
    hide Inv;
  }

  ghost predicate GoneBetween(states: seq<State>, i: nat, j: nat, p: Id)
    requires i <= j < |states|
  {
    exists m :: i < m <= j && p !in states[m].procs
  }

  /** It never does: it has to leave, and to come back as a new window. */
  lemma {:induction false} UnverifiedUntilGone(states: seq<State>, events: seq<Event>, i: nat, j: nat, p: Id)
    requires IsRun(states, events) && i <= j < |states|
    requires LeavesUnverified(states[i], p)
    ensures LeavesUnverified(states[j], p) || GoneBetween(states, i, j, p)
  {
    if i < j {
      UnverifiedUntilGone(states, events, i, j - 1, p);
      if GoneBetween(states, i, j - 1, p) {
        assert GoneBetween(states, i, j, p);
      } else {
        RunKeepsInv(states, events, j - 1);
        assert Follows(states[j - 1], events[j - 1], states[j]);
        hide LeavesUnverified, Inv, Step, Enabled, GoneBetween;
        StillUnverified(states[j - 1], events[j - 1], p);
        if p !in states[j].procs {
          IsGoneBetween(states, i, j, p);
        }
      }
    }
  }

  lemma IsGoneBetween(states: seq<State>, i: nat, j: nat, p: Id)
    requires i < j < |states| && p !in states[j].procs
    ensures GoneBetween(states, i, j, p)
  {
  }

  /** Behind a window that ends its body with the incomplete marker standing and no verification,
      nobody writes before a whole new recovery. */
  lemma UnverifiedRecoveryKeepsWritersOut(
    states: seq<State>, events: seq<Event>, i: nat, j: nat, p: Id, writer: Id)
    requires IsRun(states, events) && i < j < |states|
    requires IsWindow(states[i], p, Open) && events[i] == BodyEnds(p)
    requires states[i].incomplete && !states[i].procs[p].verified
    requires IsWriter(states[j], writer, Writing)
    ensures RecoveredBetween(events, i, j)
  {
    assert Follows(states[i], events[i], states[i + 1]);
    RunKeepsInv(states, events, i);
    assert ProcessInv(states[i], p);
    WritersAreFenced(states, events, j, writer);
    var k := ClearedBetween(states, events, i + 1, j);
    var q, b, c := MarkerClearedByItsOwnRecovery(states, events, k);
    assert Follows(states[k], events[k], states[k + 1]);
    UnverifiedUntilGone(states, events, i + 1, k, p);
    hide Inv, Step;
    assert q == p ==> !LeavesUnverified(states[k], p);
    assert Recovering(states[i], q) ==> q == p;
    assert i < b;
    assert IsRecovery(events, q, b, c, k);
  }

  /** While a window is open nobody is anywhere inside the writer barrier. */
  lemma NobodyAdmittedBesideAWindow(s: State, p: Id, q: Id)
    requires Inv(s) && IsWindow(s, p, Open)
    ensures NotAdmitted(s, q)
  {
    assert ProcessInv(s, p);
    if q in s.procs && q != p {
      assert ProcessInv(s, q);
      match s.procs[q] {
        case Writer(at) => match at {
          case WantsBarrier =>
          case _ =>
        }
        case _ =>
      }
    }
    hide Inv;
  }

  /** A window whose process dies keeps every writer out for good. */
  lemma CrashedWindowKeepsWritersOut(states: seq<State>, events: seq<Event>, i: nat, j: nat, p: Id, writer: Id)
    requires IsRun(states, events) && i < j < |states|
    requires IsWindow(states[i], p, Open) && events[i] == Crash(p)
    ensures !IsWriter(states[j], writer, Writing)
  {
    RunKeepsInv(states, events, i);
    assert Follows(states[i], events[i], states[i + 1]);
    assert ProcessInv(states[i], p) && Owns(states[i], p);
    MarkerOrphanedByAStepExactly(states[i], events[i]);
    forall n | i <= n <= j ensures states[n].maintenance {
      if n > i {
        OrphanedMarkerStays(states, events, i + 1, n);
      }
    }
    NobodyAdmittedBesideAWindow(states[i], p, writer);
    MarkerStopsNewWriters(states, events, i, j, writer);
  }

  /** Main result, over every run of the fence and every placement of failures in the restore:
      whoever writes after it, with no whole recovery in between, was let in by its outcome, and
      finds the untouched originals or the complete reconciled set unless the interrupt between
      verification and commit was followed by an undo that stopped part of the way. */
  lemma WritersAfterARestoreSeeOneSet(
    states: seq<State>, events: seq<Event>, a: nat, b: nat, p: Id,
    w: World, bundle: Bundle, fates: Fates, j: nat, writer: Id)
    requires CarriesOut(states, events, a, b, p, w, bundle, fates) && b < j < |states|
    requires IsWriter(states[j], writer, Writing)
    requires !RecoveredBetween(events, b, j)
    ensures var o := RestoreRun(w, bundle, fates);
            && Readmits(o)
            && (!(VerifiedButNotCommitted(w, bundle, fates) && MixedUndo(w, fates)) ==>
                  SameLive(w, o.world) || FullyCutOver(o.world, bundle))
  {
    var o := RestoreRun(w, bundle, fates);
    RestoreLeaves(states, events, a, b, p, w, bundle, fates);
    RunKeepsInv(states, events, b);
    assert ProcessInv(states[b], p);
    ReadmittedWritersSeeOneSet(w, bundle, fates);
    hide RestoreRun, RestoreCalls, Fresh, FullyCutOver, SameLive, VerifiedButNotCommitted, MixedUndo,
         RecoveredBetween, Own, Inv, Follows;
    if o.ending.Crashed? {
      CrashedWindowKeepsWritersOut(states, events, b, j, p, writer);
    } else if !Readmits(o) {
      UnverifiedRecoveryKeepsWritersOut(states, events, b, j, p, writer);
    }
  }

  // ---------------------------------------------------------------------
  // And the other way round

  /** Where these steps lead from the `i`-th on, if each is enabled when its turn comes. */
  function Played(s: State, events: seq<Event>, i: nat): Option<State>
    requires i <= |events|
    decreases |events| - i
  {
    if i == |events| then Some(s)
    else if Enabled(s, events[i]) then Played(Step(s, events[i]), events, i + 1)
    else None
  }

  /** The steps of a window that ends its body and closes undisturbed. */
  function Closing(p: Id, verified: bool): seq<Event> {
    [BodyEnds(p), TakeAdmission(p), RemoveMaintenance(p, Succeeds)]
    + (if verified then [RemoveIncomplete(p, Succeeds)] else [])
    + [GiveAdmission(p), GiveBarrier(p), Leave(p)]
  }

  /** The steps of a writer that meets nobody. */
  function Entering(q: Id): seq<Event> {
    [EnterWriter(q), TakeAdmission(q), LookForIncomplete(q), LookForMaintenance(q), TakeBarrier(q),
     GiveAdmission(q), LookForIncomplete(q), LookForMaintenance(q)]
  }

  function Closed(s: State, p: Id): State
    requires IsWindow(s, p, Open)
  {
    State(None, None, false, s.incomplete && !s.procs[p].verified, s.procs - {p})
  }

  /** Where its own marker is gone and, if it may, the other one. */
  function MarkersGone(s: State, p: Id): State
    requires IsWindow(s, p, Open)
  {
    var verified := s.procs[p].verified;
    State(Some(p), s.barrier, false, s.incomplete && !verified, s.procs[p := s.procs[p].(pc := WindowUnwinds)])
  }

  /** After its own marker is gone. */
  function MarkerGone(s: State, p: Id): State
    requires IsWindow(s, p, Open)
  {
    var w := s.procs[p];
    var next := if w.started && w.verified then RemovesIncomplete else WindowUnwinds;
    State(Some(p), s.barrier, false, s.incomplete, s.procs[p := w.(pc := next)])
  }

  lemma RemovesItsMarkerAlone(s: State, p: Id, events: seq<Event>)
    requires IsWindow(s, p, Open) && s.admission.None?
    requires Closing(p, s.procs[p].verified) <= events
    ensures Played(s, events, 0) == Played(MarkerGone(s, p), events, 3)
  {
    hide Played;
    var s1 := PlayOne(s, events, 0);
    var s2 := PlayOne(s1, events, 1);
    var s3 := PlayOne(s2, events, 2);
    assert s3.procs == s.procs[p := s3.procs[p]];
  }

  lemma RemovesMarkersAlone(s: State, p: Id, events: seq<Event>)
    requires Inv(s) && IsWindow(s, p, Open) && s.admission.None?
    requires Closing(p, s.procs[p].verified) <= events
    ensures Played(s, events, 0) == Played(MarkersGone(s, p), events, if s.procs[p].verified then 4 else 3)
  {
    assert ProcessInv(s, p);
    RemovesItsMarkerAlone(s, p, events);
    hide Inv, ProcessInv, Played;
    if s.procs[p].verified {
      var s4 := PlayOne(MarkerGone(s, p), events, 3);
      assert s4.procs == s.procs[p := s4.procs[p]];
    }
  }

  lemma ClosesAlone(s: State, p: Id, events: seq<Event>)
    requires Inv(s) && IsWindow(s, p, Open) && s.admission.None?
    requires Closing(p, s.procs[p].verified) <= events
    ensures Played(s, events, 0) == Played(Closed(s, p), events, |Closing(p, s.procs[p].verified)|)
  {
    assert ProcessInv(s, p);
    RemovesMarkersAlone(s, p, events);
    hide Inv, ProcessInv, Played;
    var n := if s.procs[p].verified then 4 else 3;
    var s5 := PlayOne(MarkersGone(s, p), events, n);
    var s6 := PlayOne(s5, events, n + 1);
    var s7 := PlayOne(s6, events, n + 2);
    assert s7.procs == s.procs - {p};
    assert s7 == Closed(s, p);
  }

  lemma PlayOne(s: State, events: seq<Event>, i: nat) returns (s': State)
    requires i < |events| && Enabled(s, events[i])
    ensures s' == Step(s, events[i]) && Played(s, events, i) == Played(s', events, i + 1)
  {
    s' := Step(s, events[i]);
  }

  lemma EntersAlone(s: State, q: Id, events: seq<Event>, i: nat)
    requires s.admission.None? && s.barrier.None? && !s.maintenance && q !in s.procs
    requires i + |Entering(q)| == |events| && events[i..] == Entering(q)
    ensures match Played(s, events, i) case Some(s') => !s.incomplete && IsWriter(s', q, Writing) case None => s.incomplete
  {
    var es := events[i..];
    assert events[i] == es[0] && events[i + 1] == es[1] && events[i + 2] == es[2] && events[i + 3] == es[3]
           && events[i + 4] == es[4] && events[i + 5] == es[5] && events[i + 6] == es[6] && events[i + 7] == es[7];
    hide Played;
    var s1 := PlayOne(s, events, i);
    var s2 := PlayOne(s1, events, i + 1);
    var s3 := PlayOne(s2, events, i + 2);
    if s.incomplete {
      assert !Enabled(s3, events[i + 3]);
      PlayStops(s3, events, i + 3);
    } else {
      PassesAlone(s3, q, events, i);
    }
  }

  lemma PassesAlone(s3: State, q: Id, events: seq<Event>, i: nat)
    requires s3.admission == Some(q) && s3.barrier.None? && !s3.maintenance && !s3.incomplete
    requires IsWriter(s3, q, ChecksMaintenance)
    requires i + 8 == |events|
    requires events[i + 3] == LookForMaintenance(q) && events[i + 4] == TakeBarrier(q)
    requires events[i + 5] == GiveAdmission(q) && events[i + 6] == LookForIncomplete(q)
    requires events[i + 7] == LookForMaintenance(q)
    ensures match Played(s3, events, i + 3) case Some(s') => IsWriter(s', q, Writing) case None => false
  {
    hide Played;
    var s4 := PlayOne(s3, events, i + 3);
    var s5 := PlayOne(s4, events, i + 4);
    var s6 := PlayOne(s5, events, i + 5);
    var s7 := PlayOne(s6, events, i + 6);
    var s8 := PlayOne(s7, events, i + 7);
    PlayStops(s8, events, i + 8);
  }

  lemma PlayStops(s: State, events: seq<Event>, i: nat)
    requires i <= |events| && (i < |events| ==> !Enabled(s, events[i]))
    ensures Played(s, events, i) == if i < |events| then None else Some(s)
  {
  }

  /** The outcome of a restore that ends its body readmits writers exactly as `Readmits` says: once
      its window closed undisturbed, a writer that meets nobody gets in or is turned away by it. */
  lemma ReadmitsExactly(s: State, p: Id, q: Id, o: Outcome)
    requires Inv(s) && s.admission.None? && q !in s.procs
    requires Remembers(s, p, MemoryOf(o.world)) && !o.ending.Crashed?
    ensures match Played(s, Closing(p, o.world.verified) + Entering(q), 0)
            case Some(s') => Readmits(o) && IsWriter(s', q, Writing)
            case None => !Readmits(o)
  {
    var n := |Closing(p, o.world.verified)|;
    var events := Closing(p, o.world.verified) + Entering(q);
    assert ProcessInv(s, p);
    ClosesAlone(s, p, events);
    assert events[n..] == Entering(q);
    EntersAlone(Closed(s, p), q, events, n);
    hide Inv, ProcessInv, Played, Closing, Entering;
  }
}

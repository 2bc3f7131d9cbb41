/** The context managers of agent-server/focusproof/recovery.py as code that one process runs
    while any other processes take any steps between its own. */
module FenceProcesses {
  import opened Basics
  import opened Fence
  import opened FenceProperties

  datatype Admission = Admitted | BlockedBy(code: BlockCode) | TimedOut

  datatype BlockCode = RecoveryIncomplete | MaintenanceMode

  /** The coordination directory, seen by one process. `others` is what the rest of the
      world tries to do: one block of steps in each turn, which comes after a step or a pause
      of this process. `marks` are the places in the run where the turns ended. */
  class Coordination {
    const others: seq<seq<Event>>
    var turn: nat
    var state: State
    ghost var states: seq<State>
    ghost var events: seq<Event>
    ghost var marks: seq<nat>

    ghost predicate Recorded()
      reads this
    {
      && IsRun(states, events) && |states| == |events| + 1 && states[|events|] == state
      && turn < |marks| && InRange(marks, turn, |events|)
    }

    ghost predicate Valid()
      reads this
    {
      Recorded() && |marks| == turn + 1 && marks[turn] == |events|
    }

    /** The others have no steps left. */
    predicate Quiet()
      reads this
    {
      turn >= |others|
    }

    constructor (others: seq<seq<Event>>)
      ensures Valid() && state == Initial() && this.others == others && turn == 0
    {
      state := Initial();
      this.others := others;
      turn := 0;
      states := [Initial()];
      events := [];
      marks := [0];
    }

    /** The past is never rewritten. */
    twostate predicate Extends()
      reads this
    {
      old(states) <= states && old(events) <= events && old(marks) <= marks && old(turn) <= turn
    }

    /** In some turn of this call `p` began to wait for a lock that was taken at every look. */
    twostate predicate WasStarved(p: Id, patience: nat)
      reads this
    {
      exists t :: old(turn) <= t && StarvedIn(states, marks, t, p, others, patience)
    }

    /** This call took the marker of the window away, or tried to and failed. */
    twostate predicate Removes(p: Id, remove: Fate)
      reads this
    {
      exists n :: |old(events)| <= n < |events| && RemovesMarker(states, events, n, p, remove)
    }

    /** One atomic step of any process. */
    method Take(e: Event)
      requires Recorded() && Enabled(state, e)
      modifies this`state, this`states, this`events
      ensures Recorded() && Extends()
      ensures state == Step(old(state), e)
      ensures events == old(events) + [e]
    {
      state := Step(state, e);
      states := states + [state];
      events := events + [e];
    }

    /** Everybody but `p` takes the steps of the next block that they can take. */
    method Interleave(p: Id)
      requires Recorded() && |marks| == turn + 1
      modifies this
      ensures Valid() && Extends() && turn == old(turn) + 1
      ensures Untouched(old(state), state, p)
      ensures forall n :: |old(events)| <= n < |events| ==> events[n].p != p
      ensures state == PlayBlock(old(state), p, Block(others, old(turn)))
    {
      var block := Block(others, turn);
      ghost var was := state;
      for n := 0 to |block|
        invariant Recorded() && |marks| == turn + 1 && turn == old(turn) && Extends() && marks == old(marks)
        invariant Untouched(was, state, p)
        invariant forall m :: |old(events)| <= m < |events| ==> events[m].p != p
        invariant state == PlayBlock(was, p, block[..n])
      {
        assert block[..n + 1][..n] == block[..n];
        hide Inv, Follows;
        if block[n].p != p && Enabled(state, block[n]) {
          RunKeepsInv(states, events, |events|);
          OthersLeaveAlone(state, block[n], p);
          hide IsRun, Step;
          Take(block[n]);
        }
      }
      assert block[..|block|] == block;
      turn := turn + 1;
      marks := marks + [|events|];
    }

    /** A step of `p`, followed by whatever the others do. */
    method Perform(p: Id, e: Event)
      requires Valid() && Enabled(state, e) && e.p == p
      modifies this
      ensures Valid() && Extends()
      ensures Untouched(Step(old(state), e), state, p)
      ensures |old(events)| < |events| && events[|old(events)|] == e
      ensures forall n :: |old(events)| < n < |events| ==> events[n].p != p
      ensures old(Quiet()) ==> state == Step(old(state), e)
    {
      Take(e);
      Interleave(p);
    }

    /** `FileLock.acquire` with a timeout: polls, and gives up exactly when at each of its looks, one
        block of the others' steps apart, the lock is taken. */
    method Acquire(p: Id, patience: nat) returns (acquired: bool)
      requires Valid() && Waits(state, p)
      modifies this
      ensures Valid() && Extends()
      ensures p in state.procs
      ensures state.procs[p] == if acquired then Granted(old(state.procs[p])) else Refused(old(state.procs[p]))
      ensures acquired <==> !Starved(old(state), p, others, old(turn), patience)
      ensures !acquired ==> StarvedIn(states, marks, old(turn), p, others, patience)
      ensures old(Quiet()) && Enabled(old(state), AcquireEvent(old(state), p)) ==>
                acquired && state == Step(old(state), AcquireEvent(old(state), p))
      ensures forall n :: |old(events)| <= n < |events| && events[n].p == p ==> !events[n].RemoveIncomplete?
    {
      ghost var t := turn;
      assert states[marks[t]] == state;
      hide IsRun, Follows, InRange, PlayBlock, Waited, Block;
      acquired := Poll(p, patience);
      WaitingEnds(state, p);
      hide Step;
      Perform(p, if acquired then AcquireEvent(state, p) else TimeOut(p));
    }

    /** The looks, and the pauses between them. */
    method Poll(p: Id, patience: nat) returns (free: bool)
      requires Valid() && Waits(state, p)
      modifies this
      ensures Valid() && Extends()
      ensures Untouched(old(state), state, p)
      ensures free == Enabled(state, AcquireEvent(old(state), p))
      ensures free <==> !Starved(old(state), p, others, old(turn), patience)
      ensures Enabled(old(state), AcquireEvent(old(state), p)) ==> state == old(state)
      ensures forall n :: |old(events)| <= n < |events| ==> events[n].p != p
    {
      hide IsRun, Follows, InRange, Step, PlayBlock;
      var tries := 0;
      ghost var was, since, lock := state, turn, AcquireEvent(state, p);
      while tries < patience && !Enabled(state, AcquireEvent(state, p))
        invariant tries <= patience && Valid() && Extends()
        invariant Untouched(was, state, p) && turn == since + tries
        invariant forall n :: |old(events)| <= n < |events| ==> events[n].p != p
        invariant state == Waited(was, p, others, since, tries)
        invariant forall n: nat :: n < tries ==> !Enabled(Waited(was, p, others, since, n), lock)
        invariant tries == 0 ==> state == was
      {
        Interleave(p);
        tries := tries + 1;
      }
      free := Enabled(state, AcquireEvent(state, p));
    }

    /** Leaving the `with` blocks: each lock that is held goes back, admission first. */
    method Unwind(p: Id)
      requires Valid() && Unwinds(state, p)
      modifies this
      ensures Valid() && Extends()
      ensures p !in state.procs && state.admission != Some(p) && state.barrier != Some(p)
      ensures forall n :: |old(events)| <= n < |events| && events[n].p == p ==> !events[n].RemoveIncomplete?
      ensures old(Quiet()) ==> state.maintenance == old(state.maintenance)
      ensures old(Quiet()) ==> state.incomplete == old(state.incomplete)
    {
      hide Recorded, Untouched, Step, PlayBlock;
      if state.admission == Some(p) {
        GiveBack(p, GiveAdmission(p));
      }
      if state.barrier == Some(p) {
        GiveBack(p, GiveBarrier(p));
      }
      Depart(p);
    }

    method GiveBack(p: Id, e: Event)
      requires Valid() && Unwinds(state, p) && Enabled(state, e)
      requires e == GiveAdmission(p) || e == GiveBarrier(p)
      modifies this
      ensures Valid() && Extends() && Unwinds(state, p)
      ensures (e.GiveBarrier? && old(state.admission) == Some(p)) || state.admission != Some(p)
      ensures state.barrier == Some(p) <==> e.GiveAdmission? && old(state.barrier) == Some(p)
      ensures forall n :: |old(events)| <= n < |events| && events[n].p == p ==> events[n] == e
      ensures old(Quiet()) ==> state.maintenance == old(state.maintenance)
      ensures old(Quiet()) ==> state.incomplete == old(state.incomplete)
    {
      hide Recorded;
      Perform(p, e);
    }

    method Depart(p: Id)
      requires Valid() && Enabled(state, Leave(p))
      modifies this
      ensures Valid() && Extends()
      ensures p !in state.procs && state.admission != Some(p) && state.barrier != Some(p)
      ensures forall n :: |old(events)| <= n < |events| && events[n].p == p ==> events[n] == Leave(p)
      ensures old(Quiet()) ==> state.maintenance == old(state.maintenance)
      ensures old(Quiet()) ==> state.incomplete == old(state.incomplete)
    {
      hide Recorded;
      Perform(p, Leave(p));
    }

    // -------------------------------------------------------------------
    // writer_barrier

    /** Entering `writer_barrier`: the caller writes exactly when it is admitted, and is then
        fenced off; refused, it holds nothing, and a marker it names stood in its way. */
    method EnterWriterBarrier(p: Id, patience: nat) returns (r: Admission)
      requires Valid() && p !in state.procs
      modifies this
      ensures Valid() && Extends()
      ensures r == Admitted ==> IsWriter(state, p, Writing) && !state.incomplete
      ensures r == Admitted ==> forall q :: !IsWindow(state, q, Open)
      ensures r != Admitted ==> p !in state.procs && state.admission != Some(p) && state.barrier != Some(p)
      ensures r.BlockedBy? ==> exists n :: |old(events)| <= n < |events| && Blocks(states[n], r.code)
      ensures r.TimedOut? ==> WasStarved(p, patience)
      ensures old(Quiet()) && Calm(old(state)) ==> r == Admitted
    {
      Perform(p, EnterWriter(p));
      ghost var t := turn;
      var acquired := Acquire(p, patience);
      if !acquired {
        Unwind(p);
        assert StarvedIn(states, marks, t, p, others, patience);
        return TimedOut;
      }
      r := RaiseIfBlocked(p);
      if r == Admitted {
        r := PassBarrier(p, patience);
      }
    }

    /** Behind the first look: the drain lock, and a second look without admission. */
    method PassBarrier(p: Id, patience: nat) returns (r: Admission)
      requires Valid() && IsWriter(state, p, WantsBarrier)
      modifies this
      ensures Valid() && Extends()
      ensures r == Admitted ==> IsWriter(state, p, Writing) && !state.incomplete
      ensures r == Admitted ==> forall q :: !IsWindow(state, q, Open)
      ensures r != Admitted ==> p !in state.procs && state.admission != Some(p) && state.barrier != Some(p)
      ensures r.BlockedBy? ==> exists n :: |old(events)| <= n < |events| && Blocks(states[n], r.code)
      ensures r.TimedOut? ==> WasStarved(p, patience)
      ensures old(Quiet()) && old(state.barrier) == None && !old(state.maintenance) && !old(state.incomplete) ==>
                r == Admitted
    {
      var acquired := Acquire(p, patience);
      if !acquired {
        Unwind(p);
        assert StarvedIn(states, marks, old(turn), p, others, patience);
        return TimedOut;
      }
      HoldsAdmission(p);
      Perform(p, GiveAdmission(p));
      r := RaiseIfBlocked(p);
      if r == Admitted {
        WritersAreFenced(states, events, |events|, p);
      }
    }

    ghost method HoldsAdmission(p: Id)
      requires Valid() && IsWriter(state, p, LeavesAdmission)
      ensures state.admission == Some(p)
    {
      RunKeepsInv(states, events, |events|);
      assert ProcessInv(state, p);
    }

    /** `_raise_if_writes_blocked`: the incomplete marker first, then the maintenance marker. */
    method RaiseIfBlocked(p: Id) returns (r: Admission)
      requires Valid()
      requires IsWriter(state, p, ChecksIncomplete) || IsWriter(state, p, RechecksIncomplete)
      modifies this
      ensures Valid() && Extends()
      ensures r == Admitted ==>
                p in state.procs
                && state.procs[p] == Writer(if IsWriter(old(state), p, ChecksIncomplete) then WantsBarrier else Writing)
      ensures r != Admitted ==> p !in state.procs && state.admission != Some(p) && state.barrier != Some(p)
      ensures r != TimedOut
      ensures r.BlockedBy? ==> exists n :: |old(events)| <= n < |events| && Blocks(states[n], r.code)
      ensures old(Quiet()) ==>
                (r == Admitted <==> !old(state.incomplete) && !old(state.maintenance))
      ensures old(Quiet()) && r == Admitted ==>
                && state.admission == old(state.admission) && state.barrier == old(state.barrier)
                && state.incomplete == old(state.incomplete) && state.maintenance == old(state.maintenance)
    {
      ghost var n := |events|;
      Perform(p, LookForIncomplete(p));
      if IsWriter(state, p, WriterUnwinds) {
        assert Blocks(states[n], RecoveryIncomplete);
        Unwind(p);
        return BlockedBy(RecoveryIncomplete);
      }
      n := |events|;
      Perform(p, LookForMaintenance(p));
      if IsWriter(state, p, WriterUnwinds) {
        assert Blocks(states[n], MaintenanceMode);
        Unwind(p);
        return BlockedBy(MaintenanceMode);
      }
      r := Admitted;
    }

    method ExitWriterBarrier(p: Id)
      requires Valid() && IsWriter(state, p, Writing)
      modifies this
      ensures Valid() && Extends()
      ensures p !in state.procs && state.admission != Some(p) && state.barrier != Some(p)
    {
      Perform(p, BodyEnds(p));
      Unwind(p);
    }

    // -------------------------------------------------------------------
    // maintenance_window

    /** Entering `maintenance_window`: announces itself, then drains the writer that is inside. */
    method OpenWindow(p: Id, create: Fate, remove: Fate, patience: nat) returns (entered: bool)
      requires Valid() && p !in state.procs
      requires !create.Dies? && !remove.Dies?
      modifies this
      ensures Valid() && Extends()
      ensures entered ==> p in state.procs && state.procs[p] == Window(Open, false, false)
      ensures entered ==> state.maintenance && forall q :: !IsWriter(state, q, Writing)
      ensures !entered ==> p !in state.procs && state.admission != Some(p) && state.barrier != Some(p)
      ensures !entered ==>
                || WasStarved(p, patience)
                || exists n :: |old(events)| <= n < |events| && AnnouncementFails(states[n], events[n], p, create)
      ensures old(Quiet()) && Calm(old(state)) && create.Succeeds? ==> entered
    {
      hide IsRun, Follows, InRange, Inv, Starved, Waited;
      Perform(p, EnterWindow(p));
      ghost var t := turn;
      entered := Acquire(p, patience);
      if !entered {
        Unwind(p);
        assert StarvedIn(states, marks, t, p, others, patience);
        return;
      }
      entered := Announce(p, create);
      if entered {
        hide Enabled, Step, ProcessInv, Untouched, AnnouncementFails, StarvedIn, Waits;
        entered := Drain(p, remove, patience);
      }
    }

    /** `_create_marker`, with admission held. */
    method Announce(p: Id, create: Fate) returns (announced: bool)
      requires Valid() && IsWindow(state, p, CreatesMarker) && !create.Dies?
      modifies this
      ensures Valid() && Extends()
      ensures announced ==> p in state.procs && state.procs[p] == old(state.procs[p]).(pc := AnnouncedMarker)
      ensures !announced ==> p !in state.procs && state.admission != Some(p) && state.barrier != Some(p)
      ensures !announced ==>
                exists n :: |old(events)| <= n < |events| && AnnouncementFails(states[n], events[n], p, create)
      ensures old(Quiet()) && !old(state.maintenance) && create.Succeeds? ==>
                announced && state.barrier == old(state.barrier)
    {
      hide IsRun, Follows, InRange, Inv;
      ghost var n := |events|;
      Perform(p, CreateMaintenance(p, create));
      announced := IsWindow(state, p, AnnouncedMarker);
      if !announced {
        Unwind(p);
        assert AnnouncementFails(states[n], events[n], p, create);
      }
    }

    method Drain(p: Id, remove: Fate, patience: nat) returns (entered: bool)
      requires Valid() && IsWindow(state, p, AnnouncedMarker) && !remove.Dies?
      modifies this
      ensures Valid() && Extends()
      ensures entered ==> p in state.procs && state.procs[p] == old(state.procs[p]).(pc := Open)
      ensures entered ==> state.maintenance && forall q :: !IsWriter(state, q, Writing)
      ensures !entered ==> p !in state.procs && state.admission != Some(p) && state.barrier != Some(p)
      ensures !entered ==> WasStarved(p, patience)
      ensures old(Quiet()) && old(state.barrier) == None ==> entered
    {
      GiveAdmissionUp(p);
      hide Step, ProcessInv, Untouched, Enabled;
      ghost var t := turn;
      entered := Acquire(p, patience);
      if entered {
        OpenWindowIsAlone(p);
      } else {
        var cleared := Close(p, remove, Succeeds, patience);
        assert StarvedIn(states, marks, t, p, others, patience);
      }
    }

    /** The end of the `with admission` block of an announced window. */
    method GiveAdmissionUp(p: Id)
      requires Valid() && IsWindow(state, p, AnnouncedMarker)
      modifies this
      ensures Valid() && Extends() && p in state.procs
      ensures state.procs[p] == old(state.procs[p]).(pc := Drains)
      ensures old(Quiet()) ==> state.barrier == old(state.barrier)
    {
      RunKeepsInv(states, events, |events|);
      assert ProcessInv(state, p);
      hide Inv;
      Perform(p, GiveAdmission(p));
    }

    ghost method OpenWindowIsAlone(p: Id)
      requires Valid() && IsWindow(state, p, Open)
      ensures state.maintenance && forall q :: !IsWriter(state, q, Writing)
    {
      RunKeepsInv(states, events, |events|);
      assert ProcessInv(state, p);
      forall q | q in state.procs ensures !IsWriter(state, q, Writing) {
        assert ProcessInv(state, q);
      }
    }

    /** `begin_recovery`. */
    method Begin(p: Id, fate: Fate)
      requires Valid() && IsWindow(state, p, Open) && !fate.Dies?
      modifies this
      ensures Valid() && Extends()
      ensures p in state.procs
      ensures state.procs[p] == old(state.procs[p]).(started := old(state.procs[p].started) || fate.Succeeds?)
      ensures state.incomplete == (old(state.incomplete) || !fate.RaisesBefore?)
    {
      RunKeepsInv(states, events, |events|);
      assert ProcessInv(state, p);
      Perform(p, BeginRecovery(p, fate));
    }

    /** `complete_recovery`: raises unless a recovery was begun. */
    method Complete(p: Id) returns (ok: bool)
      requires Valid() && IsWindow(state, p, Open)
      modifies this
      ensures Valid() && Extends()
      ensures ok == old(state.procs[p].started)
      ensures p in state.procs
      ensures state.procs[p] == if ok then old(state.procs[p]).(verified := true) else old(state.procs[p])
      ensures state.incomplete == old(state.incomplete)
    {
      ok := state.procs[p].started;
      RunKeepsInv(states, events, |events|);
      assert ProcessInv(state, p);
      Perform(p, CompleteRecovery(p));
    }

    /** Leaving `maintenance_window`. The incomplete marker is taken away by nobody but a
        window that completed, and by that one unless something fails on the way. */
    method CloseWindow(p: Id, remove: Fate, clear: Fate, patience: nat) returns (cleared: bool)
      requires Valid() && IsWindow(state, p, Open) && !remove.Dies? && !clear.Dies?
      modifies this
      ensures Valid() && Extends()
      ensures p !in state.procs && state.admission != Some(p) && state.barrier != Some(p)
      ensures cleared ==> old(state.procs[p].verified)
      ensures || WasStarved(p, patience)
              || (Removes(p, remove) && (cleared <==> remove.Succeeds? && old(state.procs[p].verified)))
      ensures cleared <==> exists n :: |old(events)| <= n < |events| && events[n] == RemoveIncomplete(p, clear)
      ensures old(Quiet()) && old(state.admission) == None ==>
                && state.maintenance == remove.RaisesBefore?
                && cleared == (remove.Succeeds? && old(state.procs[p].verified))
                && state.incomplete == (old(state.incomplete) && !(cleared && !clear.RaisesBefore?))
    {
      RunKeepsInv(states, events, |events|);
      assert ProcessInv(state, p);
      hide Recorded, IsRun, Follows, InRange, Inv;
      Perform(p, BodyEnds(p));
      hide Step, Enabled, Untouched;
      cleared := Close(p, remove, clear, patience);
    }

    method Close(p: Id, remove: Fate, clear: Fate, patience: nat) returns (cleared: bool)
      requires Valid() && IsWindow(state, p, SeeksAdmissionAgain) && !remove.Dies? && !clear.Dies?
      modifies this
      ensures Valid() && Extends()
      ensures p !in state.procs && state.admission != Some(p) && state.barrier != Some(p)
      ensures cleared ==> old(state.procs[p].started && state.procs[p].verified)
      ensures || WasStarved(p, patience)
              || (Removes(p, remove)
                  && (cleared <==> remove.Succeeds? && old(state.procs[p].started && state.procs[p].verified)))
      ensures cleared ==> exists n :: |old(events)| <= n < |events| && events[n] == RemoveIncomplete(p, clear)
      ensures !cleared ==>
                forall n :: |old(events)| <= n < |events| && events[n].p == p ==> !events[n].RemoveIncomplete?
      ensures old(Quiet()) && old(state.admission) == None ==>
                && state.maintenance == (remove.RaisesBefore? && old(state.maintenance))
                && cleared == (remove.Succeeds? && old(state.procs[p].started && state.procs[p].verified))
                && state.incomplete == (old(state.incomplete) && !(cleared && !clear.RaisesBefore?))
    {
      hide IsRun, Follows, InRange, Inv, Starved, Waited;
      var acquired := Acquire(p, patience);
      hide Enabled, Step, Untouched;
      if acquired {
        cleared := CloseWithAdmission(p, remove, clear);
      } else {
        cleared := false;
        Unwind(p);
        assert StarvedIn(states, marks, old(turn), p, others, patience);
      }
    }

    /** The inner `with admission`, and the locks given back behind it. */
    method CloseWithAdmission(p: Id, remove: Fate, clear: Fate) returns (cleared: bool)
      requires Valid() && IsWindow(state, p, RemovesMaintenance) && !remove.Dies? && !clear.Dies?
      modifies this
      ensures Valid() && Extends()
      ensures p !in state.procs && state.admission != Some(p) && state.barrier != Some(p)
      ensures Removes(p, remove)
      ensures cleared <==> remove.Succeeds? && old(state.procs[p].started && state.procs[p].verified)
      ensures cleared ==> exists n :: |old(events)| <= n < |events| && events[n] == RemoveIncomplete(p, clear)
      ensures !cleared ==>
                forall n :: |old(events)| <= n < |events| && events[n].p == p ==> !events[n].RemoveIncomplete?
      ensures old(Quiet()) ==>
                && state.maintenance == (remove.RaisesBefore? && old(state.maintenance))
                && state.incomplete == (old(state.incomplete) && !(cleared && !clear.RaisesBefore?))
    {
      hide Recorded, Enabled, Step, RemovesMarker;
      cleared := TakeMarkersAway(p, remove, clear);
      ghost var n :| old(|events|) <= n < |events| && RemovesMarker(states, events, n, p, remove);
      ghost var seen, removed := states, events;
      Unwind(p);
      RemovalStays(seen, removed, states, events, n, p, remove);
    }

    method RemoveMaintenanceOf(p: Id, remove: Fate)
      requires Valid() && IsWindow(state, p, RemovesMaintenance) && !remove.Dies?
      modifies this
      ensures Valid() && Extends()
      ensures Untouched(Step(old(state), RemoveMaintenance(p, remove)), state, p)
      ensures RemovesMarker(states, events, |old(events)|, p, remove)
      ensures forall n :: |old(events)| < n < |events| ==> events[n].p != p
      ensures old(Quiet()) ==> state == Step(old(state), RemoveMaintenance(p, remove))
    {
      RunKeepsInv(states, events, |events|);
      assert ProcessInv(state, p);
      hide Inv;
      ghost var n := |events|;
      Perform(p, RemoveMaintenance(p, remove));
      assert states[n + 1] == Step(states[n], events[n]);
    }

    /** The marker of this window, and then, if it was verified, the incomplete marker. */
    method TakeMarkersAway(p: Id, remove: Fate, clear: Fate) returns (cleared: bool)
      requires Valid() && IsWindow(state, p, RemovesMaintenance) && !remove.Dies? && !clear.Dies?
      modifies this
      ensures Valid() && Extends() && Unwinds(state, p)
      ensures Removes(p, remove)
      ensures cleared <==> remove.Succeeds? && old(state.procs[p].started && state.procs[p].verified)
      ensures cleared ==> exists n :: |old(events)| <= n < |events| && events[n] == RemoveIncomplete(p, clear)
      ensures !cleared ==>
                forall n :: |old(events)| <= n < |events| && events[n].p == p ==> !events[n].RemoveIncomplete?
      ensures old(Quiet()) ==>
                && state.maintenance == (remove.RaisesBefore? && old(state.maintenance))
                && state.incomplete == (old(state.incomplete) && !(cleared && !clear.RaisesBefore?))
    {
      ghost var first := |events|;
      RemoveMaintenanceOf(p, remove);
      cleared := IsWindow(state, p, RemovesIncomplete);
      if cleared {
        ghost var n := |events|;
        Perform(p, RemoveIncomplete(p, clear));
        assert events[n] == RemoveIncomplete(p, clear);
      }
      assert RemovesMarker(states, events, first, p, remove);
    }
  }

  /** Nobody holds a lock and no marker stands. */
  predicate Calm(s: State) {
    s.admission == None && s.barrier == None && !s.maintenance && !s.incomplete
  }

  ghost predicate Blocks(s: State, code: BlockCode) {
    match code
    case RecoveryIncomplete => s.incomplete
    case MaintenanceMode => s.maintenance
  }

  /** Where a process stands once the lock it waits for is its own. */
  function Granted(proc: Process): Process {
    match proc
    case Writer(at) => Writer(if at == WantsAdmission then ChecksIncomplete else LeavesAdmission)
    case Window(SeeksAdmission, _, _) => proc.(pc := CreatesMarker)
    case Window(Drains, _, _) => proc.(pc := Open)
    case Window(_, _, _) => proc.(pc := RemovesMaintenance)
  }

  /** Where it stands once it gave up. */
  function Refused(proc: Process): Process {
    match proc
    case Writer(_) => Writer(WriterUnwinds)
    case Window(Drains, _, _) => proc.(pc := SeeksAdmissionAgain)
    case Window(_, _, _) => proc.(pc := WindowUnwinds)
  }

  function AcquireEvent(s: State, p: Id): Event {
    if WaitsForAdmission(s, p) then TakeAdmission(p) else TakeBarrier(p)
  }

  /** What the others cannot change: where `p` stands, and the locks it holds. */
  ghost predicate Untouched(s: State, s': State, p: Id) {
    && (p in s'.procs <==> p in s.procs)
    && (p in s.procs ==> s'.procs[p] == s.procs[p])
    && (s'.admission == Some(p) <==> s.admission == Some(p))
    && (s'.barrier == Some(p) <==> s.barrier == Some(p))
    && (s.barrier == Some(p) ==> s'.incomplete == s.incomplete)
  }

  lemma WaitingEnds(s: State, p: Id)
    requires Waits(s, p)
    ensures Enabled(s, AcquireEvent(s, p)) ==>
              var s' := Step(s, AcquireEvent(s, p));
              p in s'.procs && s'.procs[p] == Granted(s.procs[p])
    ensures var s' := Step(s, TimeOut(p));
            p in s'.procs && s'.procs[p] == Refused(s.procs[p])
  {
  }

  lemma OthersLeaveAlone(s: State, e: Event, p: Id)
    requires Inv(s) && Enabled(s, e) && e.p != p
    ensures Untouched(s, Step(s, e), p)
  {
    StepIsAlone(s, e);
    var s' := Step(s, e);
    assert p in s.procs <==> p in s.procs - {e.p};
    assert p in s'.procs <==> p in s'.procs - {e.p};
    if p in s.procs {
      assert (s.procs - {e.p})[p] == s.procs[p] && (s'.procs - {e.p})[p] == s'.procs[p];
    }
  }

  // ---------------------------------------------------------------------
  // What the others do while somebody waits

  function Block(others: seq<seq<Event>>, n: nat): seq<Event> {
    if n < |others| then others[n] else []
  }

  /** The steps of a block that are not `p`'s and that are enabled when their turn comes. */
  function PlayBlock(s: State, p: Id, block: seq<Event>): State {
    if block == [] then s else
    var before := PlayBlock(s, p, block[..|block| - 1]);
    var e := block[|block| - 1];
    if e.p != p && Enabled(before, e) then Step(before, e) else before
  }

  /** The state after `n` more blocks of the others, the first of them that of turn `turn`. */
  function Waited(s: State, p: Id, others: seq<seq<Event>>, turn: nat, n: nat): State {
    if n == 0 then s else PlayBlock(Waited(s, p, others, turn, n - 1), p, Block(others, turn + n - 1))
  }

  predicate Waits(s: State, p: Id) {
    WaitsForAdmission(s, p) || WaitsForBarrier(s, p)
  }

  /** At each of `patience + 1` looks, one block apart, the lock that `p` waits for is taken. */
  ghost predicate Starved(s: State, p: Id, others: seq<seq<Event>>, turn: nat, patience: nat) {
    forall n: nat :: n <= patience ==>
      !Enabled(Waited(s, p, others, turn, n), AcquireEvent(s, p))
  }

  ghost predicate InRange(marks: seq<nat>, turn: nat, n: nat)
    requires turn < |marks|
  {
    forall t :: 0 <= t <= turn ==> marks[t] <= n
  }

  ghost predicate StarvedIn(states: seq<State>, marks: seq<nat>, t: nat, p: Id, others: seq<seq<Event>>, patience: nat) {
    && t < |marks| && marks[t] < |states|
    && Waits(states[marks[t]], p) && Starved(states[marks[t]], p, others, t, patience)
  }

  ghost predicate AnnouncementFails(s: State, e: Event, p: Id, create: Fate) {
    e == CreateMaintenance(p, create) && (s.maintenance || !create.Succeeds?)
  }

  ghost predicate RemovesMarker(states: seq<State>, events: seq<Event>, n: nat, p: Id, remove: Fate) {
    && n < |events| && n + 1 < |states|
    && events[n] == RemoveMaintenance(p, remove) && (states[n + 1].maintenance <==> remove.RaisesBefore?)
  }

  lemma RemovalStays(
      states: seq<State>, events: seq<Event>, states': seq<State>, events': seq<Event>, n: nat, p: Id, remove: Fate)
    requires RemovesMarker(states, events, n, p, remove) && states <= states' && events <= events'
    ensures RemovesMarker(states', events', n, p, remove)
  {
    assert states'[n + 1] == states[n + 1];
  }

  lemma WaitingIsUntouched(s: State, p: Id, others: seq<seq<Event>>, turn: nat, n: nat)
    requires Inv(s)
    ensures Inv(Waited(s, p, others, turn, n)) && Untouched(s, Waited(s, p, others, turn, n), p)
  {
    if n > 0 {
      WaitingIsUntouched(s, p, others, turn, n - 1);
      BlockLeavesAlone(Waited(s, p, others, turn, n - 1), p, Block(others, turn + n - 1));
    }
  }

  lemma BlockLeavesAlone(s: State, p: Id, block: seq<Event>)
    requires Inv(s)
    ensures Inv(PlayBlock(s, p, block)) && Untouched(s, PlayBlock(s, p, block), p)
  {
    if block != [] {
      BlockLeavesAlone(s, p, block[..|block| - 1]);
      var before, e := PlayBlock(s, p, block[..|block| - 1]), block[|block| - 1];
      if e.p != p && Enabled(before, e) {
        StepKeepsInv(before, e);
        OthersLeaveAlone(before, e, p);
      }
    }
  }

  /** Another process has the lock that the event would take. */
  predicate HeldByAnother(s: State, e: Event) {
    var lock := if e.TakeAdmission? then s.admission else s.barrier;
    lock.Some? && lock.value != e.p
  }

  ghost predicate OutOfReach(s: State, p: Id, others: seq<seq<Event>>, turn: nat, patience: nat) {
    forall n: nat :: n <= patience ==> HeldByAnother(Waited(s, p, others, turn, n), AcquireEvent(s, p))
  }

  lemma LookFailsExactly(s: State, p: Id, others: seq<seq<Event>>, turn: nat, n: nat)
    requires Inv(s) && Waits(s, p)
    ensures !Enabled(Waited(s, p, others, turn, n), AcquireEvent(s, p))
            <==> HeldByAnother(Waited(s, p, others, turn, n), AcquireEvent(s, p))
  {
    WaitingIsUntouched(s, p, others, turn, n);
    assert ProcessInv(s, p);
  }

  /** A process gives up exactly when at each of its looks another process holds the lock. */
  lemma StarvedByOthers(s: State, p: Id, others: seq<seq<Event>>, turn: nat, patience: nat)
    requires Inv(s) && Waits(s, p)
    ensures Starved(s, p, others, turn, patience) <==> OutOfReach(s, p, others, turn, patience)
  {
    if Starved(s, p, others, turn, patience) {
      forall n: nat | n <= patience ensures HeldByAnother(Waited(s, p, others, turn, n), AcquireEvent(s, p)) {
        LookFailsExactly(s, p, others, turn, n);
      }
    } else {
      var n: nat :| n <= patience && Enabled(Waited(s, p, others, turn, n), AcquireEvent(s, p));
      LookFailsExactly(s, p, others, turn, n);
    }
  }
}

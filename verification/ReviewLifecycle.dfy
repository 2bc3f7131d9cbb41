/** Reviews, interrupts and shutdown of the conversation manager
    (agent-server/focusproof/openhands_runtime/manager.py:258-280, 296-346, 401-465, 629-637). */
module ReviewLifecycle {
  import opened Basics

  /** A session id and the call id of one review of it. */
  type Call = (Id, Id)

  /** Where `run_review` stands. */
  datatype Pc =
    | Queued        // active, waiting for the session's run lock
    | HoldsLock
    | Registered    // entered in the table of running reviews
    | HasHandle     // about to look whether it was interrupted
    | Cleared       // has looked for the last time, and does not execute yet
    | Executing     // the agent runs
    | GivesLock
    | Leaving       // the `finally` block

  datatype Review = Review(pc: Pc, signalled: bool)

  /** What the model leaves open: whether the run lock excludes at all (the default one does not), and
      whether a conversation that is interrupted before it executes remembers it. */
  datatype Runtime = Runtime(exclusive: bool, sticky: bool)

  datatype Closer = NotClosing | Draining | Closing(left: set<Id>) | Closed | CloseFailed

  datatype State = State(
    accepting: bool,
    active: map<Id, set<Id>>,
    running: map<Id, Id>,
    interrupted: set<Call>,
    pending: multiset<Id>,   // interrupts that left the lifecycle lock and have not reached the conversation
    handles: set<Id>,
    holders: map<Id, Id>,
    reviews: map<Call, Review>,
    closer: Closer)

  function Initial(): State {
    State(true, map[], map[], {}, multiset{}, {}, map[], map[], NotClosing)
  }

  datatype Event =
    | Enter(c: Call)
    | TakeRunLock(c: Call)
    | Register(c: Call)
    | GetHandle(c: Call, found: bool)
    | Check(c: Call)
    | ReturnEarly(c: Call)
    | Start(c: Call)
    | Finish(c: Call)
    | GiveRunLock(c: Call)
    | Leave(c: Call)
    | Interrupt(session: Id, call: Option<Id>)
    | Deliver(session: Id)
    | CreateHandle(session: Id)
    | Close(session: Id)
    | BeginShutdown
    | Drained
    | CloseOne(session: Id)
    | FailClosing
    | EndShutdown

  predicate IsAt(s: State, c: Call, pc: Pc) {
    c in s.reviews && s.reviews[c].pc == pc
  }

  predicate Free(s: State, session: Id, rt: Runtime) {
    rt.exclusive ==> session !in s.holders
  }

  predicate Enabled(s: State, e: Event, rt: Runtime) {
    match e
    case Enter(c) => s.accepting && c !in s.reviews
    case TakeRunLock(c) => IsAt(s, c, Queued) && Free(s, c.0, rt)
    case Register(c) => IsAt(s, c, HoldsLock)
    case GetHandle(c, _) => IsAt(s, c, Registered)
    case Check(c) => IsAt(s, c, HasHandle)
    case ReturnEarly(c) => IsAt(s, c, HasHandle) || IsAt(s, c, Cleared)
    case Start(c) => IsAt(s, c, Cleared)
    case Finish(c) => IsAt(s, c, Executing)
    case GiveRunLock(c) => IsAt(s, c, GivesLock)
    case Leave(c) => IsAt(s, c, Leaving)
    case Interrupt(_, _) => true
    case Deliver(session) => session in s.pending
    case CreateHandle(session) => Free(s, session, rt)
    case Close(session) => Free(s, session, rt)
    case BeginShutdown => s.accepting
    case Drained => s.closer == Draining && s.active == map[]
    case CloseOne(session) => s.closer.Closing? && session in s.closer.left && Free(s, session, rt)
    case FailClosing => s.closer.Closing?
    case EndShutdown => s.closer == Closing({})
  }

  function Moved(s: State, c: Call, pc: Pc): State
    requires c in s.reviews
  {
    s.(reviews := s.reviews[c := s.reviews[c].(pc := pc)])
  }

  function ActiveIn(s: State, session: Id): set<Id> {
    if session in s.active then s.active[session] else {}
  }

  predicate Hears(review: Review, rt: Runtime) {
    review.pc == Executing || (review.pc == Cleared && rt.sticky)
  }

  /** `handle.conversation.interrupt()` reaches what executes on that handle. */
  function Signal(s: State, sessions: set<Id>, rt: Runtime): State {
    s.(reviews := map c | c in s.reviews ::
         if c.0 in sessions && Hears(s.reviews[c], rt) then s.reviews[c].(signalled := true)
         else s.reviews[c])
  }

  /** The interrupt finds a running review and its handle. */
  predicate Reaches(s: State, session: Id, call: Option<Id>) {
    session in s.running && (call.None? || call == Some(s.running[session])) && session in s.handles
  }

  /** The section of `interrupt` under the lifecycle lock; the conversation is told afterwards. */
  function AfterInterrupt(s: State, session: Id, call: Option<Id>): State {
    var marked := set id | id in ActiveIn(s, session) && (call.None? || call == Some(id)) :: (session, id);
    s.(interrupted := s.interrupted + marked,
       pending := if Reaches(s, session, call) then s.pending + multiset{session} else s.pending)
  }

  /** The marks of `interrupt`, as the code makes them. */
  lemma InterruptMarks(s: State, session: Id, call: Option<Id>)
    ensures AfterInterrupt(s, session, call).interrupted
            == match call
               case None => s.interrupted + (set id | id in ActiveIn(s, session) :: (session, id))
               case Some(id) => if id in ActiveIn(s, session) then s.interrupted + {(session, id)} else s.interrupted
  {
    if call.Some? {
      assert (set id | id in ActiveIn(s, session) && call == Some(id) :: (session, id))
          == if call.value in ActiveIn(s, session) then {(session, call.value)} else {};
    }
  }

  function AllActive(s: State): set<Call> {
    set session, id | session in s.active && id in s.active[session] :: (session, id)
  }

  function AfterLeave(s: State, c: Call): State {
    var rest := ActiveIn(s, c.0) - {c.1};
    s.(active := if rest == {} then s.active - {c.0} else s.active[c.0 := rest],
       running := if c.0 in s.running && s.running[c.0] == c.1 then s.running - {c.0} else s.running,
       interrupted := s.interrupted - {c},
       reviews := s.reviews - {c})
  }

  function Step(s: State, e: Event, rt: Runtime): State
    requires Enabled(s, e, rt)
  {
    match e
    case Enter(c) =>
      s.(active := s.active[c.0 := ActiveIn(s, c.0) + {c.1}], reviews := s.reviews[c := Review(Queued, false)])
    case TakeRunLock(c) => Moved(s.(holders := s.holders[c.0 := c.1]), c, HoldsLock)
    case Register(c) =>
      if s.accepting then Moved(s.(running := s.running[c.0 := c.1]), c, Registered) else Moved(s, c, GivesLock)
    case GetHandle(c, found) =>
      if found then Moved(s.(handles := s.handles + {c.0}), c, HasHandle) else Moved(s, c, GivesLock)
    case Check(c) =>
      if !s.accepting || c in s.interrupted then Moved(Signal(s, {c.0}, rt), c, GivesLock) else Moved(s, c, Cleared)
    case ReturnEarly(c) => Moved(s, c, GivesLock)
    case Start(c) => Moved(s, c, Executing)
    case Finish(c) => Moved(s, c, GivesLock)
    case GiveRunLock(c) =>
      Moved(s.(holders := if c.0 in s.holders && s.holders[c.0] == c.1 then s.holders - {c.0} else s.holders),
            c, Leaving)
    case Leave(c) => AfterLeave(s, c)
    case Interrupt(session, call) => AfterInterrupt(s, session, call)
    case Deliver(session) => Signal(s.(pending := s.pending - multiset{session}), {session}, rt)
    case CreateHandle(session) => s.(handles := s.handles + {session})
    case Close(session) => s.(handles := s.handles - {session})
    case BeginShutdown =>
      Signal(s.(accepting := false, interrupted := s.interrupted + AllActive(s), closer := Draining),
             s.handles * s.running.Keys, rt)
    case Drained => s.(closer := Closing(s.handles))
    case CloseOne(session) =>
      s.(handles := s.handles - {session}, closer := Closing(s.closer.left - {session}))
    case FailClosing => s.(closer := CloseFailed)
    case EndShutdown => s.(closer := Closed)
  }

  // ---------------------------------------------------------------------
  // What every step keeps

  predicate InActive(s: State, c: Call) {
    c.0 in s.active && c.1 in s.active[c.0]
  }

  /** The tables agree with the reviews in flight. */
  ghost predicate Tables(s: State) {
    && (forall c: Call :: InActive(s, c) <==> c in s.reviews)
    && (forall session <- s.active :: s.active[session] != {})
    && (forall session <- s.running :: InActive(s, (session, s.running[session])))
    && (forall c <- s.interrupted :: InActive(s, c))
  }

  /** After the drain nothing is active, and nothing is admitted once shutdown has begun. */
  ghost predicate Shutdown(s: State) {
    && (s.accepting <==> s.closer == NotClosing)
    && (s.closer.Closing? || s.closer == Closed || s.closer == CloseFailed ==> s.active == map[])
    && (!s.accepting ==> forall c <- s.reviews :: c in s.interrupted)
  }

  lemma StepKeepsTables(s: State, e: Event, rt: Runtime)
    requires Tables(s) && Enabled(s, e, rt)
    ensures Tables(Step(s, e, rt))
  {
    var s' := Step(s, e, rt);
    match e {
      case Leave(c) => LeaveKeepsTables(s, c);
      case Enter(c) =>
        forall d: Call ensures InActive(s', d) <==> d in s'.reviews {
          assert InActive(s, d) <==> d in s.reviews;
        }
      case _ => OthersKeepTables(s, e, rt);
    }
  }

  lemma OthersKeepTables(s: State, e: Event, rt: Runtime)
    requires Tables(s) && Enabled(s, e, rt) && !e.Enter? && !e.Leave?
    ensures Tables(Step(s, e, rt))
  {
    var s' := Step(s, e, rt);
    if Acts(e) {
      ActingKeepsActive(s, e, rt);
    } else {
      OthersKeepActive(s, e, rt);
    }
    hide Step, Enabled, Acts;
    SameTables(s, s');
    RunningAndInterrupted(s, e, rt);
  }

  lemma CheckKeepsActive(s: State, c: Call, rt: Runtime)
    requires Enabled(s, Check(c), rt)
    ensures var s' := Step(s, Check(c), rt); s'.active == s.active && s'.reviews.Keys == s.reviews.Keys
  {
  }

  lemma MovingKeepsActive(s: State, e: Event, rt: Runtime)
    requires Enabled(s, e, rt) && Acts(e) && !e.Leave? && !e.Check?
    ensures var s' := Step(s, e, rt); s'.active == s.active && s'.reviews.Keys == s.reviews.Keys
  {
    hide Signal;
  }

  lemma ActingKeepsActive(s: State, e: Event, rt: Runtime)
    requires Enabled(s, e, rt) && Acts(e) && !e.Leave?
    ensures var s' := Step(s, e, rt); s'.active == s.active && s'.reviews.Keys == s.reviews.Keys
  {
    hide Step, Enabled, Acts;
    if e.Check? {
      CheckKeepsActive(s, e.c, rt);
    } else {
      MovingKeepsActive(s, e, rt);
    }
  }

  lemma OthersKeepActive(s: State, e: Event, rt: Runtime)
    requires Enabled(s, e, rt) && !Acts(e) && !e.Enter?
    ensures var s' := Step(s, e, rt); s'.active == s.active && s'.reviews.Keys == s.reviews.Keys
  {
  }

  lemma SameTables(s: State, s': State)
    requires Tables(s) && s'.active == s.active && s'.reviews.Keys == s.reviews.Keys
    ensures forall c: Call :: InActive(s', c) <==> InActive(s, c)
    ensures forall c: Call :: InActive(s', c) <==> c in s'.reviews
  {
    forall c: Call ensures InActive(s', c) <==> c in s'.reviews {
      assert InActive(s, c) <==> c in s.reviews;
    }
  }

  lemma RegisteredIsActive(s: State, c: Call, rt: Runtime)
    requires Tables(s) && Enabled(s, Register(c), rt)
    ensures forall session <- Step(s, Register(c), rt).running ::
              InActive(s, (session, Step(s, Register(c), rt).running[session]))
    ensures forall d <- Step(s, Register(c), rt).interrupted :: InActive(s, d)
  {
    assert c == (c.0, c.1) && InActive(s, c);
  }

  lemma InterruptedIsActive(s: State, e: Event, rt: Runtime)
    requires Tables(s) && Enabled(s, e, rt) && (e.Interrupt? || e.BeginShutdown?)
    ensures forall session <- Step(s, e, rt).running :: InActive(s, (session, Step(s, e, rt).running[session]))
    ensures forall c <- Step(s, e, rt).interrupted :: InActive(s, c)
  {
  }

  lemma ActingMarksNothing(s: State, e: Event, rt: Runtime)
    requires Enabled(s, e, rt) && Acts(e) && !e.Leave? && !e.Register?
    ensures var s' := Step(s, e, rt); s'.running == s.running && s'.interrupted == s.interrupted
  {
  }

  lemma OthersMarkNothing(s: State, e: Event, rt: Runtime)
    requires Enabled(s, e, rt) && !Acts(e) && !e.Enter? && !e.Interrupt? && !e.BeginShutdown?
    ensures var s' := Step(s, e, rt); s'.running == s.running && s'.interrupted == s.interrupted
  {
  }

  lemma RunningAndInterrupted(s: State, e: Event, rt: Runtime)
    requires Tables(s) && Enabled(s, e, rt) && !e.Enter? && !e.Leave?
    ensures forall session <- Step(s, e, rt).running :: InActive(s, (session, Step(s, e, rt).running[session]))
    ensures forall c <- Step(s, e, rt).interrupted :: InActive(s, c)
  {
    if e.Register? {
      RegisteredIsActive(s, e.c, rt);
    } else if e.Interrupt? || e.BeginShutdown? {
      InterruptedIsActive(s, e, rt);
    } else if Acts(e) {
      ActingMarksNothing(s, e, rt);
    } else {
      OthersMarkNothing(s, e, rt);
    }
    hide Step, Enabled, InActive, Acts;
  }

  lemma LeaveKeepsTables(s: State, c: Call)
    requires Tables(s) && IsAt(s, c, Leaving)
    ensures Tables(AfterLeave(s, c))
  {
    var s' := AfterLeave(s, c);
    assert InActive(s, c);
    forall d: Call ensures InActive(s', d) <==> InActive(s, d) && d != c {
      assert d == (d.0, d.1) && c == (c.0, c.1);
      if d.0 == c.0 && InActive(s, d) && d != c {
        assert d.1 in ActiveIn(s, c.0) - {c.1};
      }
    }
    forall d: Call ensures InActive(s', d) <==> d in s'.reviews {
      assert InActive(s, d) <==> d in s.reviews;
    }
    forall session | session in s'.running ensures InActive(s', (session, s'.running[session])) {
      assert InActive(s, (session, s.running[session]));
    }
  }

  lemma StepKeepsShutdown(s: State, e: Event, rt: Runtime)
    requires Tables(s) && Shutdown(s) && Enabled(s, e, rt)
    ensures Shutdown(Step(s, e, rt))
  {
    var s' := Step(s, e, rt);
    if e.BeginShutdown? {
      forall c | c in s'.reviews ensures c in s'.interrupted {
        assert InActive(s, c);
        assert c == (c.0, c.1);
      }
    }
  }

  // ---------------------------------------------------------------------
  // Runs

  ghost predicate IsRun(states: seq<State>, events: seq<Event>, rt: Runtime) {
    && |states| == |events| + 1
    && states[0] == Initial()
    && forall i :: 0 <= i < |events| ==> Follows(states[i], events[i], states[i + 1], rt)
  }

  ghost predicate Follows(s: State, e: Event, s': State, rt: Runtime) {
    Enabled(s, e, rt) && s' == Step(s, e, rt)
  }

  lemma {:induction false} RunKeepsInv(states: seq<State>, events: seq<Event>, rt: Runtime, i: nat)
    requires IsRun(states, events, rt) && i < |states|
    ensures Tables(states[i]) && Shutdown(states[i])
    ensures rt.exclusive ==> Locked(states[i])
  {
    if i > 0 {
      RunKeepsInv(states, events, rt, i - 1);
      var s, e := states[i - 1], events[i - 1];
      assert Follows(s, e, states[i], rt);
      StepKeepsTables(s, e, rt);
      StepKeepsShutdown(s, e, rt);
      if rt.exclusive {
        StepKeepsLocked(s, e, rt);
      }
      hide Tables, Shutdown, Locked, Step, Enabled;
    }
  }

  /** Main result, with or without an excluding run lock: a running review is active, every
      interrupted pair is active, and with the last active review the other tables are empty. */
  lemma TablesFollowActive(states: seq<State>, events: seq<Event>, rt: Runtime, i: nat)
    requires IsRun(states, events, rt) && i < |states|
    ensures var s := states[i];
            && (forall session <- s.running :: InActive(s, (session, s.running[session])))
            && (forall c <- s.interrupted :: InActive(s, c))
            && (s.active == map[] ==> s.running == map[] && s.interrupted == {})
  {
    RunKeepsInv(states, events, rt, i);
  }

  /** With no review in flight nobody holds a run lock. */
  lemma NobodyHolds(s: State, rt: Runtime)
    requires Tables(s) && (rt.exclusive ==> Locked(s)) && s.active == map[]
    ensures s.reviews == map[] && (rt.exclusive ==> s.holders == map[])
  {
    forall c: Call ensures c !in s.reviews {
      assert InActive(s, c) <==> c in s.reviews;
    }
    if rt.exclusive {
      forall session: Id ensures session !in s.holders {
        assert session in s.holders ==> HolderIsReview(s, (session, s.holders[session]));
      }
    }
  }

  /** Once shutdown has begun the set of active reviews only shrinks. */
  lemma {:induction false} ActiveShrinksInShutdown(
    states: seq<State>, events: seq<Event>, rt: Runtime, i: nat, j: nat)
    requires IsRun(states, events, rt) && i <= j < |states|
    requires !states[i].accepting
    ensures !states[j].accepting
    ensures forall c: Call :: InActive(states[j], c) ==> InActive(states[i], c)
  {
    if i < j {
      ActiveShrinksInShutdown(states, events, rt, i, j - 1);
      assert Follows(states[j - 1], events[j - 1], states[j], rt);
    }
  }

  /** `close_all` closes a handle only when no review is active any more. */
  lemma ClosesOnlyWhenDrained(states: seq<State>, events: seq<Event>, rt: Runtime, i: nat)
    requires IsRun(states, events, rt) && i < |events|
    requires events[i].CloseOne?
    ensures states[i].active == map[] && states[i].reviews == map[]
    ensures events[i].session in states[i].handles ==> events[i].session !in states[i + 1].handles
  {
    RunKeepsInv(states, events, rt, i);
    assert Follows(states[i], events[i], states[i + 1], rt);
  }

  // ---------------------------------------------------------------------
  // No interrupt is lost

  /** With an excluding run lock, the review that holds it is the one that is registered. */
  ghost predicate Locked(s: State) {
    && (forall c <- s.reviews :: LockedAt(s, c))
    && (forall session <- s.holders :: HolderIsReview(s, (session, s.holders[session])))
  }

  predicate HolderIsReview(s: State, c: Call) {
    c in s.reviews && s.reviews[c].pc !in {Queued, Leaving}
  }

  predicate LockedAt(s: State, c: Call)
    requires c in s.reviews
  {
    var pc := s.reviews[c].pc;
    && (pc !in {Queued, Leaving} ==> c.0 in s.holders && s.holders[c.0] == c.1)
    && (pc in {Registered, HasHandle, Cleared, Executing} ==> c.0 in s.running && s.running[c.0] == c.1)
    && (pc in {HasHandle, Cleared, Executing} ==> c.0 in s.handles)
  }

  predicate Acts(e: Event) {
    e.TakeRunLock? || e.Register? || e.GetHandle? || e.Check? || e.ReturnEarly? || e.Start? || e.Finish?
    || e.GiveRunLock? || e.Leave?
  }

  /** A step of one review, seen from any review. */
  lemma ActingKeepsLocked(s: State, e: Event, d: Call, rt: Runtime)
    requires Acts(e) && Enabled(s, e, rt) && rt.exclusive && e.c in s.reviews && LockedAt(s, e.c)
    requires d in s.reviews && LockedAt(s, d)
    requires d in Step(s, e, rt).reviews
    ensures LockedAt(Step(s, e, rt), d)
  {
    assert d == (d.0, d.1) && e.c == (e.c.0, e.c.1);
  }

  lemma OthersKeepLocked(s: State, e: Event, d: Call, rt: Runtime)
    requires !Acts(e) && Enabled(s, e, rt) && rt.exclusive
    requires d in s.reviews ==> LockedAt(s, d)
    requires s.closer.Closing? ==> s.reviews == map[]
    requires d in Step(s, e, rt).reviews
    ensures LockedAt(Step(s, e, rt), d)
  {
  }

  lemma ActingAdmitsNobody(s: State, e: Event, d: Call, rt: Runtime)
    requires Enabled(s, e, rt) && Acts(e) && d in Step(s, e, rt).reviews
    ensures d in s.reviews && e.c in s.reviews
  {
  }

  lemma ReviewStaysLocked(s: State, e: Event, d: Call, rt: Runtime)
    requires Tables(s) && Shutdown(s) && Locked(s) && Enabled(s, e, rt) && rt.exclusive
    requires d in Step(s, e, rt).reviews
    ensures LockedAt(Step(s, e, rt), d)
  {
    if s.closer.Closing? {
      NobodyHolds(s, rt);
    }
    assert d in s.reviews ==> LockedAt(s, d);
    if Acts(e) {
      ActingAdmitsNobody(s, e, d, rt);
      assert LockedAt(s, e.c);
    }
    hide Tables, LockedAt, Shutdown, Locked, Enabled, Step, Acts;
    if Acts(e) {
      ActingKeepsLocked(s, e, d, rt);
    } else {
      OthersKeepLocked(s, e, d, rt);
    }
  }

  lemma ActingKeepsHolder(s: State, e: Event, session: Id, rt: Runtime)
    requires Acts(e) && Enabled(s, e, rt) && rt.exclusive && e.c in s.reviews && LockedAt(s, e.c)
    requires session in s.holders ==> HolderIsReview(s, (session, s.holders[session]))
    requires session in Step(s, e, rt).holders
    ensures HolderIsReview(Step(s, e, rt), (session, Step(s, e, rt).holders[session]))
  {
    assert e.c == (e.c.0, e.c.1);
  }

  lemma HolderStaysReview(s: State, e: Event, session: Id, rt: Runtime)
    requires Locked(s) && Enabled(s, e, rt) && rt.exclusive
    requires session in Step(s, e, rt).holders
    ensures HolderIsReview(Step(s, e, rt), (session, Step(s, e, rt).holders[session]))
  {
    if session in s.holders {
      assert HolderIsReview(s, (session, s.holders[session]));
    }
    if Acts(e) {
      assert LockedAt(s, e.c);
      ActingKeepsHolder(s, e, session, rt);
    }
    hide Locked;
  }

  lemma StepKeepsLocked(s: State, e: Event, rt: Runtime)
    requires Tables(s) && Shutdown(s) && Locked(s) && Enabled(s, e, rt) && rt.exclusive
    ensures Locked(Step(s, e, rt))
  {
    var s' := Step(s, e, rt);
    forall d | d in s'.reviews ensures LockedAt(s', d) {
      ReviewStaysLocked(s, e, d, rt);
    }
    forall session | session in s'.holders ensures HolderIsReview(s', (session, s'.holders[session])) {
      HolderStaysReview(s, e, session, rt);
    }
  }

  /** A review goes on unless it waits for the run lock, whose holder then goes on: a drain
      never gets stuck. */
  lemma DrainNeverStuck(states: seq<State>, events: seq<Event>, rt: Runtime, i: nat) returns (e: Event)
    requires IsRun(states, events, rt) && rt.exclusive && i < |states|
    requires states[i].reviews != map[]
    ensures Enabled(states[i], e, rt) && Acts(e)
  {
    RunKeepsInv(states, events, rt, i);
    var s := states[i];
    var c: Call :| c in s.reviews;
    if s.reviews[c].pc == Queued && c.0 in s.holders {
      assert HolderIsReview(s, (c.0, s.holders[c.0]));
      e := NextOf(s, (c.0, s.holders[c.0]));
    } else {
      e := NextOf(s, c);
    }
  }

  function NextOf(s: State, c: Call): Event
    requires c in s.reviews
  {
    match s.reviews[c].pc
    case Queued => TakeRunLock(c)
    case HoldsLock => Register(c)
    case Registered => GetHandle(c, true)
    case HasHandle => Check(c)
    case Cleared => Start(c)
    case Executing => Finish(c)
    case GivesLock => GiveRunLock(c)
    case Leaving => Leave(c)
  }

  predicate Aims(e: Event, c: Call) {
    || (e.Interrupt? && e.session == c.0 && (e.call.None? || e.call == Some(c.1)))
    || e.BeginShutdown?
  }

  /** Nothing will tell this interrupted review to stop: it executes or is about to, it has not been
      told, and no interrupt is on its way. */
  predicate Forgotten(s: State, c: Call) {
    && c in s.reviews && c in s.interrupted && s.reviews[c].pc in {Cleared, Executing}
    && !s.reviews[c].signalled && s.pending[c.0] == 0
  }

  /** An interrupted review will not start, or it has been told to stop, or is about to be. */
  predicate Stopped(s: State, c: Call) {
    c in s.reviews ==> c in s.interrupted && !Forgotten(s, c)
  }

  /** The interrupt that would have told this review does not: it finds another review registered, or
      no handle, or it is the last one on its way and the conversation does not hear it. */
  predicate Misses(s: State, e: Event, c: Call, rt: Runtime) {
    && c in s.reviews && s.reviews[c].pc in {Cleared, Executing} && !s.reviews[c].signalled
    && match e
       case Interrupt(session, call) => Aims(e, c) && s.pending[c.0] == 0 && !Reaches(s, session, call)
       case Deliver(session) =>
         session == c.0 && c in s.interrupted && s.pending[c.0] == 1 && !Hears(s.reviews[c], rt)
       case BeginShutdown =>
         s.pending[c.0] == 0 && !(c.0 in s.handles && c.0 in s.running && Hears(s.reviews[c], rt))
       case _ => false
  }

  /** The last interrupt on its way reaches a conversation that does not execute yet, and that does
      not remember it. */
  predicate LandsUnheard(s: State, e: Event, c: Call, rt: Runtime) {
    && !rt.sticky && IsAt(s, c, Cleared) && !s.reviews[c].signalled
    && ( || (e == Deliver(c.0) && c in s.interrupted && s.pending[c.0] == 1)
         || (e.BeginShutdown? && s.pending[c.0] == 0))
  }

  /** With an excluding run lock that is the only way to miss a review. */
  lemma MissesOnlyInTheGap(s: State, e: Event, c: Call, rt: Runtime)
    requires Locked(s) && rt.exclusive
    ensures Misses(s, e, c, rt) <==> LandsUnheard(s, e, c, rt)
  {
    if c in s.reviews {
      assert LockedAt(s, c);
    }
    hide Locked;
  }

  lemma TargetIsMarked(s: State, e: Event, c: Call, rt: Runtime)
    requires Tables(s) && Enabled(s, e, rt) && Aims(e, c) && c in s.reviews
    ensures c in Step(s, e, rt).interrupted
  {
    assert c == (c.0, c.1) && InActive(s, c);
    hide Tables;
  }

  lemma UntargetedIsNotMarked(s: State, e: Event, c: Call, rt: Runtime)
    requires Enabled(s, e, rt) && !Aims(e, c) && c in s.reviews && c in Step(s, e, rt).reviews
    ensures c in Step(s, e, rt).interrupted ==> c in s.interrupted
    ensures c in s.interrupted ==> c in Step(s, e, rt).interrupted
  {
  }

  /** A step of one review, as it bears on any of them. */
  lemma ActingForgetsNobody(s: State, e: Event, c: Call, rt: Runtime)
    requires Acts(e) && Enabled(s, e, rt) && c in s.reviews && c in Step(s, e, rt).reviews
    ensures Forgotten(Step(s, e, rt), c) ==> Forgotten(s, c)
  {
    if e.Check? {
      CheckingForgetsNobody(s, e, c, rt);
    } else {
      MovingForgetsNobody(s, e, c, rt);
    }
    hide *;
  }

  lemma CheckingForgetsNobody(s: State, e: Event, c: Call, rt: Runtime)
    requires e.Check? && Enabled(s, e, rt) && c in s.reviews
    ensures Forgotten(Step(s, e, rt), c) ==> Forgotten(s, c)
  {
  }

  /** The steps that leave the tables of interrupts as they are. */
  lemma AdvancingForgetsNobody(s: State, e: Event, c: Call, rt: Runtime)
    requires e.TakeRunLock? || e.Register? || e.GetHandle? || e.ReturnEarly? || e.Start?
    requires Enabled(s, e, rt) && c in s.reviews && c in Step(s, e, rt).reviews
    ensures Forgotten(Step(s, e, rt), c) ==> Forgotten(s, c)
  {
  }

  lemma EndingForgetsNobody(s: State, e: Event, c: Call, rt: Runtime)
    requires e.Finish? || e.GiveRunLock? || e.Leave?
    requires Enabled(s, e, rt) && c in s.reviews && c in Step(s, e, rt).reviews
    ensures Forgotten(Step(s, e, rt), c) ==> Forgotten(s, c)
  {
  }

  lemma MovingForgetsNobody(s: State, e: Event, c: Call, rt: Runtime)
    requires Acts(e) && !e.Check? && Enabled(s, e, rt) && c in s.reviews && c in Step(s, e, rt).reviews
    ensures Forgotten(Step(s, e, rt), c) ==> Forgotten(s, c)
  {
    hide Enabled, Step, Forgotten;
    if e.Finish? || e.GiveRunLock? || e.Leave? {
      EndingForgetsNobody(s, e, c, rt);
    } else {
      AdvancingForgetsNobody(s, e, c, rt);
    }
  }

  predicate IsOther(e: Event) {
    e.Enter? || e.CreateHandle? || e.Close? || e.Drained? || e.CloseOne? || e.FailClosing? || e.EndShutdown?
  }

  lemma OthersForgetNobody(s: State, e: Event, c: Call, rt: Runtime)
    requires IsOther(e) && Enabled(s, e, rt)
    ensures Forgotten(Step(s, e, rt), c) ==> Forgotten(s, c)
  {
  }

  lemma InterruptingForgetsExactly(s: State, e: Event, c: Call, rt: Runtime)
    requires Tables(s) && Enabled(s, e, rt) && e.Interrupt?
    ensures Misses(s, e, c, rt) ==> Forgotten(Step(s, e, rt), c)
    ensures !Forgotten(s, c) && Forgotten(Step(s, e, rt), c) ==> Misses(s, e, c, rt)
  {
    if c in s.reviews {
      if Aims(e, c) {
        TargetIsMarked(s, e, c, rt);
      } else {
        UntargetedIsNotMarked(s, e, c, rt);
      }
    }
    hide Tables;
  }

  lemma DeliveringForgetsExactly(s: State, e: Event, c: Call, rt: Runtime)
    requires Tables(s) && Enabled(s, e, rt) && (e.Deliver? || e.BeginShutdown?)
    ensures Misses(s, e, c, rt) ==> Forgotten(Step(s, e, rt), c)
    ensures !Forgotten(s, c) && Forgotten(Step(s, e, rt), c) ==> Misses(s, e, c, rt)
  {
    if c in s.reviews && Aims(e, c) {
      TargetIsMarked(s, e, c, rt);
    }
    hide Tables;
  }

  /** A review is forgotten at these steps and at no other. */
  lemma ForgottenByAStepExactly(s: State, e: Event, c: Call, rt: Runtime)
    requires Tables(s) && Enabled(s, e, rt)
    ensures Misses(s, e, c, rt) ==> Forgotten(Step(s, e, rt), c)
    ensures !Forgotten(s, c) && Forgotten(Step(s, e, rt), c) ==> Misses(s, e, c, rt)
  {
    hide Tables, Enabled, Step, Forgotten;
    if e.Deliver? || e.BeginShutdown? {
      DeliveringForgetsExactly(s, e, c, rt);
    } else if e.Interrupt? {
      InterruptingForgetsExactly(s, e, c, rt);
    } else if IsOther(e) {
      OthersForgetNobody(s, e, c, rt);
    } else if c in Step(s, e, rt).reviews {
      ActingAdmitsNobody(s, e, c, rt);
      ActingForgetsNobody(s, e, c, rt);
    } else {
      ForgottenIsThere(Step(s, e, rt), c);
    }
  }

  lemma ForgottenIsThere(s: State, c: Call)
    requires c !in s.reviews
    ensures !Forgotten(s, c)
  {
  }

  ghost predicate EverForgotten(states: seq<State>, c: Call, j: nat) {
    exists n :: 0 <= n < |states| && n <= j && Forgotten(states[n], c)
  }

  ghost predicate EverMissed(states: seq<State>, events: seq<Event>, rt: Runtime, c: Call, j: nat) {
    exists k :: 0 <= k < |events| && k < |states| && k < j && Misses(states[k], events[k], c, rt)
  }

  lemma EverLater(states: seq<State>, events: seq<Event>, rt: Runtime, c: Call, j: nat)
    requires j < |states| == |events| + 1 && j > 0
    ensures EverForgotten(states, c, j) <==> EverForgotten(states, c, j - 1) || Forgotten(states[j], c)
    ensures EverMissed(states, events, rt, c, j)
            <==> EverMissed(states, events, rt, c, j - 1) || Misses(states[j - 1], events[j - 1], c, rt)
    ensures Forgotten(states[j - 1], c) ==> EverForgotten(states, c, j - 1)
  {
    hide Forgotten, Misses;
  }

  /** Main result, with or without an excluding run lock: an interrupted review is forgotten exactly
      when an interrupt or a shutdown missed it. */
  lemma {:induction false} InterruptForgottenExactly(
    states: seq<State>, events: seq<Event>, rt: Runtime, c: Call, j: nat)
    requires IsRun(states, events, rt) && j < |states|
    ensures EverForgotten(states, c, j) <==> EverMissed(states, events, rt, c, j)
  {
    if j > 0 {
      InterruptForgottenExactly(states, events, rt, c, j - 1);
      RunKeepsInv(states, events, rt, j - 1);
      assert Follows(states[j - 1], events[j - 1], states[j], rt);
      ForgottenByAStepExactly(states[j - 1], events[j - 1], c, rt);
      EverLater(states, events, rt, c, j);
      hide Tables, Locked, Shutdown, Forgotten, Misses, Step, Enabled, EverForgotten, EverMissed;
    }
  }

  ghost predicate EverUnheard(states: seq<State>, events: seq<Event>, rt: Runtime, c: Call, j: nat) {
    exists k :: 0 <= k < |events| && k < |states| && k < j && LandsUnheard(states[k], events[k], c, rt)
  }

  /** With an excluding run lock, then: exactly when its last interrupt reached the conversation
      between the last look and the execution, and that conversation does not remember it. */
  lemma RunLockLeavesOneGap(states: seq<State>, events: seq<Event>, rt: Runtime, c: Call, j: nat)
    requires IsRun(states, events, rt) && rt.exclusive && j < |states|
    ensures EverForgotten(states, c, j) <==> EverUnheard(states, events, rt, c, j)
  {
    InterruptForgottenExactly(states, events, rt, c, j);
    forall k | 0 <= k < |events| ensures Misses(states[k], events[k], c, rt) <==> LandsUnheard(states[k], events[k], c, rt) {
      RunKeepsInv(states, events, rt, k);
      MissesOnlyInTheGap(states[k], events[k], c, rt);
    }
    hide Misses, LandsUnheard, Tables, Shutdown, Locked;
  }

  lemma MarkedAfterAStep(s: State, e: Event, c: Call, rt: Runtime)
    requires Tables(s) && Enabled(s, e, rt)
    requires c in s.reviews && c in Step(s, e, rt).reviews
    requires Aims(e, c) || c in s.interrupted
    ensures c in Step(s, e, rt).interrupted
  {
    if Aims(e, c) {
      TargetIsMarked(s, e, c, rt);
    } else {
      UntargetedIsNotMarked(s, e, c, rt);
    }
    hide *;
  }

  lemma {:induction false} MarkStays(states: seq<State>, events: seq<Event>, rt: Runtime, i: nat, j: nat, c: Call)
    requires IsRun(states, events, rt) && i < j < |states|
    requires Aims(events[i], c)
    requires forall n :: i <= n <= j ==> c in states[n].reviews
    ensures c in states[j].interrupted
  {
    hide Tables, Locked, Shutdown, Step, Enabled, Aims;
    RunKeepsInv(states, events, rt, j - 1);
    assert Follows(states[j - 1], events[j - 1], states[j], rt);
    if i < j - 1 {
      MarkStays(states, events, rt, i, j - 1, c);
    }
    assert c in states[j - 1].reviews && c in states[j].reviews;
    MarkedAfterAStep(states[j - 1], events[j - 1], c, rt);
  }

  /** So an interrupt (or a shutdown) that misses nobody reaches every review it is aimed at, wherever
      that review stands, and holds until the review leaves; and with an excluding run lock and a
      conversation that remembers, every one does. */
  lemma NoInterruptIsLost(states: seq<State>, events: seq<Event>, rt: Runtime, i: nat, j: nat, c: Call)
    requires IsRun(states, events, rt) && i < j < |states|
    requires Aims(events[i], c)
    requires forall n :: i <= n <= j ==> c in states[n].reviews
    ensures !EverMissed(states, events, rt, c, j) ==> Stopped(states[j], c)
    ensures rt.exclusive && rt.sticky ==> Stopped(states[j], c)
  {
    hide Tables, Locked, Shutdown, Step, Enabled;
    InterruptForgottenExactly(states, events, rt, c, j);
    MarkStays(states, events, rt, i, j, c);
    if rt.exclusive {
      RunLockLeavesOneGap(states, events, rt, c, j);
    }
  }

  ghost predicate Reachable(s: State, rt: Runtime) {
    exists states, events :: IsRun(states, events, rt) && states[|events|] == s
  }

  lemma StepIsReachable(s: State, e: Event, rt: Runtime)
    requires Reachable(s, rt) && Enabled(s, e, rt)
    ensures Reachable(Step(s, e, rt), rt)
  {
    var states, events :| IsRun(states, events, rt) && states[|events|] == s;
    var states', events' := states + [Step(s, e, rt)], events + [e];
    forall i | 0 <= i < |events'| ensures Follows(states'[i], events'[i], states'[i + 1], rt) {
      if i < |events| {
        assert Follows(states[i], events[i], states[i + 1], rt);
      }
    }
    assert IsRun(states', events', rt) && states'[|events'|] == Step(s, e, rt);
  }

  /** One review of the session has looked for the last time, or executes. */
  function OneReview(session: Id, call: Id, pc: Pc): State {
    State(true, map[session := {call}], map[session := call], {}, multiset{}, {session}, map[session := call],
          map[(session, call) := Review(pc, false)], NotClosing)
  }

  function OneHoldsLock(session: Id, call: Id): State {
    State(true, map[session := {call}], map[], {}, multiset{}, {}, map[session := call],
          map[(session, call) := Review(HoldsLock, false)], NotClosing)
  }

  lemma OneHoldsLockIsReachable(session: Id, call: Id, rt: Runtime)
    ensures Reachable(OneHoldsLock(session, call), rt)
  {
    var c := (session, call);
    var s0 := Initial();
    var none: seq<Event> := [];
    assert IsRun([s0], none, rt) && [s0][|none|] == s0;
    var s1 := s0.(active := map[session := {call}], reviews := map[c := Review(Queued, false)]);
    assert {} + {call} == {call};
    assert Step(s0, Enter(c), rt) == s1;
    hide Reachable;
    StepIsReachable(s0, Enter(c), rt);
    assert Step(s1, TakeRunLock(c), rt) == OneHoldsLock(session, call);
    StepIsReachable(s1, TakeRunLock(c), rt);
  }

  lemma OneClearedIsReachable(session: Id, call: Id, rt: Runtime)
    ensures Reachable(OneReview(session, call, Cleared), rt)
  {
    hide Reachable;
    var c := (session, call);
    OneHoldsLockIsReachable(session, call, rt);
    var s2 := OneHoldsLock(session, call);
    var s3 := s2.(running := map[session := call], reviews := map[c := Review(Registered, false)]);
    assert Step(s2, Register(c), rt) == s3;
    StepIsReachable(s2, Register(c), rt);
    var s4 := s3.(handles := {session}, reviews := map[c := Review(HasHandle, false)]);
    assert Step(s3, GetHandle(c, true), rt) == s4;
    StepIsReachable(s3, GetHandle(c, true), rt);
    assert Step(s4, Check(c), rt) == OneReview(session, call, Cleared);
    StepIsReachable(s4, Check(c), rt);
  }

  lemma OneExecutingIsReachable(session: Id, call: Id, rt: Runtime)
    ensures Reachable(OneReview(session, call, Executing), rt)
  {
    OneClearedIsReachable(session, call, rt);
    assert Step(OneReview(session, call, Cleared), Start((session, call)), rt) == OneReview(session, call, Executing);
    StepIsReachable(OneReview(session, call, Cleared), Start((session, call)), rt);
  }

  /** The gap is real: an interrupt that reaches a conversation which is about to execute, and which
      does not remember it, is gone, and the review executes on although it was interrupted. */
  lemma InterruptLostBeforeTheStart(session: Id, call: Id, exclusive: bool)
    ensures exists s: State ::
              && Reachable(s, Runtime(exclusive, false))
              && IsAt(s, (session, call), Executing) && Forgotten(s, (session, call))
  {
    var rt, c := Runtime(exclusive, false), (session, call);
    hide Reachable, Step, Enabled;
    OneClearedIsReachable(session, call, rt);
    var s0 := OneReview(session, call, Cleared);
    var s1 := s0.(interrupted := {c}, pending := multiset{session});
    OneIsInterrupted(session, call, rt);
    StepIsReachable(s0, Interrupt(session, Some(call)), rt);
    var s2 := s1.(pending := multiset{});
    OneMissesAndStarts(session, call, rt);
    StepIsReachable(s1, Deliver(session), rt);
    var s3 := s2.(reviews := map[c := Review(Executing, false)]);
    StepIsReachable(s2, Start(c), rt);
    assert IsAt(s3, c, Executing) && Forgotten(s3, c);
  }

  lemma OneIsInterrupted(session: Id, call: Id, rt: Runtime)
    ensures var s := OneReview(session, call, Cleared);
            && Enabled(s, Interrupt(session, Some(call)), rt)
            && Step(s, Interrupt(session, Some(call)), rt)
               == s.(interrupted := {(session, call)}, pending := multiset{session})
  {
    InterruptMarks(OneReview(session, call, Cleared), session, Some(call));
  }

  lemma OneMissesAndStarts(session: Id, call: Id, rt: Runtime)
    requires !rt.sticky
    ensures var s := OneReview(session, call, Cleared).(interrupted := {(session, call)});
            var told := s.(pending := multiset{session});
            && Enabled(told, Deliver(session), rt) && Step(told, Deliver(session), rt) == s
            && Enabled(s, Start((session, call)), rt)
            && Step(s, Start((session, call)), rt) == s.(reviews := map[(session, call) := Review(Executing, false)])
  {
  }

  /** Beside it a second review of the session has registered: only possible without exclusion. */
  function TwoRegistered(session: Id, first: Id, second: Id): State {
    State(true, map[session := {first, second}], map[session := second], {}, multiset{}, {session},
          map[session := second],
          map[(session, first) := Review(Executing, false), (session, second) := Review(Registered, false)], NotClosing)
  }

  lemma TwoRegisteredIsReachable(session: Id, first: Id, second: Id, rt: Runtime)
    requires first != second && !rt.exclusive
    ensures Reachable(TwoRegistered(session, first, second), rt)
  {
    var a, b := (session, first), (session, second);
    hide Reachable;
    OneExecutingIsReachable(session, first, rt);
    var s0 := OneReview(session, first, Executing);
    var s1 := s0.(active := map[session := {first, second}],
                  reviews := map[a := Review(Executing, false), b := Review(Queued, false)]);
    assert Step(s0, Enter(b), rt) == s1 by {
      assert {first} + {second} == {first, second};
    }
    StepIsReachable(s0, Enter(b), rt);
    var s2 := s1.(holders := map[session := second],
                  reviews := map[a := Review(Executing, false), b := Review(HoldsLock, false)]);
    assert Step(s1, TakeRunLock(b), rt) == s2;
    StepIsReachable(s1, TakeRunLock(b), rt);
    assert Step(s2, Register(b), rt) == TwoRegistered(session, first, second);
    StepIsReachable(s2, Register(b), rt);
  }

  /** Without an excluding run lock an interrupt is lost outside the gap too: the second review of a
      session has taken over the entry in the running table, so an interrupt of the first, which
      passed its check before, marks it but tells nobody, and it executes on. */
  lemma InterruptLostWithoutRunLock(session: Id, first: Id, second: Id, sticky: bool)
    requires first != second
    ensures exists s: State ::
              && Reachable(s, Runtime(false, sticky)) && IsAt(s, (session, first), Executing)
              && !Forgotten(s, (session, first))
              && Forgotten(Step(s, Interrupt(session, Some(first)), Runtime(false, sticky)), (session, first))
  {
    TwoRegisteredIsReachable(session, first, second, Runtime(false, sticky));
    var s := TwoRegistered(session, first, second);
    assert s.running[session] == second;
    assert IsAt(s, (session, first), Executing) && !Forgotten(s, (session, first));
    assert Forgotten(Step(s, Interrupt(session, Some(first)), Runtime(false, sticky)), (session, first));
  }
}

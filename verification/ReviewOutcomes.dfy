/** What becomes of one review that nothing disturbs, beside any others: it executes, and it leaves the
    tables of the conversation manager as it found them. */
module ReviewOutcomes {
  import opened Basics
  import opened ReviewLifecycle

  /** The state after the events, if each is possible when its turn comes. */
  function Plays(s: State, events: seq<Event>, rt: Runtime): Option<State>
    decreases |events|
  {
    if events == [] then Some(s)
    else if !Enabled(s, events[0], rt) then None
    else Plays(Step(s, events[0], rt), events[1..], rt)
  }

  /** A new call for a session of which no review is running; other reviews of it may be waiting. */
  ghost predicate Undisturbed(s: State, c: Call) {
    && Tables(s) && s.accepting && c !in s.reviews
    && c.0 !in s.holders && c.0 !in s.running
  }

  function Until(c: Call): seq<Event> {
    [Enter(c), TakeRunLock(c), Register(c), GetHandle(c, true), Check(c), Start(c)]
  }

  function From(c: Call): seq<Event> {
    [Finish(c), GiveRunLock(c), Leave(c)]
  }

  /** The tables with the review in them. */
  function Entered(s: State, c: Call, pc: Pc): State {
    s.(active := s.active[c.0 := ActiveIn(s, c.0) + {c.1}], reviews := s.reviews[c := Review(pc, false)])
  }

  function Holding(s: State, c: Call, pc: Pc): State {
    Entered(s, c, pc).(holders := s.holders[c.0 := c.1])
  }

  function Running(s: State, c: Call, pc: Pc): State {
    Holding(s, c, pc).(running := s.running[c.0 := c.1])
  }

  function WithHandle(s: State, c: Call, pc: Pc): State {
    Running(s, c, pc).(handles := s.handles + {c.0})
  }

  lemma PlaysOne(s: State, e: Event, later: seq<Event>, rt: Runtime)
    requires Enabled(s, e, rt)
    ensures Plays(s, [e] + later, rt) == Plays(Step(s, e, rt), later, rt)
  {
    assert ([e] + later)[1..] == later;
  }

  lemma EntersAndLocks(s: State, c: Call, rt: Runtime)
    requires Undisturbed(s, c)
    ensures Enabled(s, Enter(c), rt) && Step(s, Enter(c), rt) == Entered(s, c, Queued)
    ensures Enabled(Entered(s, c, Queued), TakeRunLock(c), rt)
    ensures Step(Entered(s, c, Queued), TakeRunLock(c), rt) == Holding(s, c, HoldsLock)
    ensures Enabled(Holding(s, c, HoldsLock), Register(c), rt)
    ensures Step(Holding(s, c, HoldsLock), Register(c), rt) == Running(s, c, Registered)
  {
  }

  lemma FindsItsHandle(s: State, c: Call, rt: Runtime)
    ensures Enabled(Running(s, c, Registered), GetHandle(c, true), rt)
    ensures Step(Running(s, c, Registered), GetHandle(c, true), rt) == WithHandle(s, c, HasHandle)
  {
  }

  lemma IsCleared(s: State, c: Call, rt: Runtime)
    requires Undisturbed(s, c)
    ensures Enabled(WithHandle(s, c, HasHandle), Check(c), rt)
    ensures Step(WithHandle(s, c, HasHandle), Check(c), rt) == WithHandle(s, c, Cleared)
  {
    assert InActive(s, c) <==> c in s.reviews;
    hide InActive, Tables, Signal;
  }

  lemma Starts(s: State, c: Call, rt: Runtime)
    ensures Enabled(WithHandle(s, c, Cleared), Start(c), rt)
    ensures Step(WithHandle(s, c, Cleared), Start(c), rt) == WithHandle(s, c, Executing)
  {
    hide Signal, AfterLeave, AfterInterrupt, AllActive;
  }

  lemma Finishes(s: State, c: Call, rt: Runtime)
    ensures Enabled(WithHandle(s, c, Executing), Finish(c), rt)
    ensures Step(WithHandle(s, c, Executing), Finish(c), rt) == WithHandle(s, c, GivesLock)
  {
    hide Signal, AfterLeave, AfterInterrupt, AllActive;
  }

  lemma GivesItsLock(s: State, c: Call, rt: Runtime)
    requires c.0 !in s.holders
    ensures Enabled(WithHandle(s, c, GivesLock), GiveRunLock(c), rt)
    ensures Step(WithHandle(s, c, GivesLock), GiveRunLock(c), rt)
            == WithHandle(s, c, Leaving).(holders := s.holders)
  {
    assert s.holders[c.0 := c.1] - {c.0} == s.holders;
  }

  lemma Departs(s: State, c: Call, rt: Runtime)
    requires Undisturbed(s, c)
    ensures var given := WithHandle(s, c, Leaving).(holders := s.holders);
            && Enabled(given, Leave(c), rt)
            && Step(given, Leave(c), rt) == s.(handles := s.handles + {c.0})
  {
    LeavesAsItWas(s, c);
    hide AfterLeave, Tables;
  }

  lemma LeavesAsItWas(s: State, c: Call)
    requires Undisturbed(s, c)
    ensures AfterLeave(WithHandle(s, c, Leaving).(holders := s.holders), c) == s.(handles := s.handles + {c.0})
  {
    assert InActive(s, c) <==> c in s.reviews;
    assert ActiveIn(s, c.0) + {c.1} - {c.1} == ActiveIn(s, c.0);
    assert s.active[c.0 := ActiveIn(s, c.0) + {c.1}] - {c.0} == s.active - {c.0};
    assert c.0 !in s.active ==> s.active - {c.0} == s.active;
    assert s.running[c.0 := c.1] - {c.0} == s.running;
    assert s.reviews[c := Review(Leaving, false)] - {c} == s.reviews;
    assert s.interrupted - {c} == s.interrupted;
  }

  /** Main result: an undisturbed review is admitted, enters the running table, and executes. */
  lemma UndisturbedReviewExecutes(s: State, c: Call, rt: Runtime)
    requires Undisturbed(s, c)
    ensures Plays(s, Until(c), rt) == Some(WithHandle(s, c, Executing))
    ensures var r := Plays(s, Until(c), rt).value;
            && IsAt(r, c, Executing) && c.0 in r.running && r.running[c.0] == c.1
            && c.0 in r.handles && !r.reviews[c].signalled
  {
    EntersAndLocks(s, c, rt);
    FindsItsHandle(s, c, rt);
    IsCleared(s, c, rt);
    Starts(s, c, rt);
    var u := Until(c);
    hide Undisturbed, IsAt;
    assert u == [u[0]] + ([u[1]] + ([u[2]] + ([u[3]] + ([u[4]] + ([u[5]] + [])))));
    hide Enabled, Step, Tables, WithHandle, Running, Holding, Entered;
    PlaysOne(s, u[0], [u[1]] + ([u[2]] + ([u[3]] + ([u[4]] + ([u[5]] + [])))), rt);
    PlaysOne(Entered(s, c, Queued), u[1], [u[2]] + ([u[3]] + ([u[4]] + ([u[5]] + []))), rt);
    PlaysOne(Holding(s, c, HoldsLock), u[2], [u[3]] + ([u[4]] + ([u[5]] + [])), rt);
    PlaysOne(Running(s, c, Registered), u[3], [u[4]] + ([u[5]] + []), rt);
    PlaysOne(WithHandle(s, c, HasHandle), u[4], [u[5]] + [], rt);
    PlaysOne(WithHandle(s, c, Cleared), u[5], [], rt);
    assert u == Until(c);
    hide Plays, Until;
    InFlight(s, c);
  }

  lemma InFlight(s: State, c: Call)
    ensures var r := WithHandle(s, c, Executing);
            && IsAt(r, c, Executing) && c.0 in r.running && r.running[c.0] == c.1
            && c.0 in r.handles && !r.reviews[c].signalled
  {
  }

  /** And its end gives back everything: the tables are as it found them, only its handle stays. */
  lemma UndisturbedReviewLeavesNoTrace(s: State, c: Call, rt: Runtime)
    requires Undisturbed(s, c)
    ensures Plays(WithHandle(s, c, Executing), From(c), rt) == Some(s.(handles := s.handles + {c.0}))
  {
    Finishes(s, c, rt);
    GivesItsLock(s, c, rt);
    Departs(s, c, rt);
    var f := From(c);
    assert f == [f[0]] + ([f[1]] + ([f[2]] + []));
    hide Enabled, Step, Tables, WithHandle;
    PlaysOne(WithHandle(s, c, Executing), f[0], [f[1]] + ([f[2]] + []), rt);
    PlaysOne(WithHandle(s, c, GivesLock), f[1], [f[2]] + [], rt);
    PlaysOne(WithHandle(s, c, Leaving).(holders := s.holders), f[2], [], rt);
  }
}

/** `_run_db_operation` (agent-server/focusproof/speech_application.py:482-556): a caller with a
    deadline, a worker thread it may abandon, and the two events they share. */
module DbOperation {
  import opened Basics

  datatype Caller =
    | Waiting
    | SettingAbandoned   // the timeout fired: timed_out is set, abandoned not yet
    | Returned
    | DeadlineRaised
    | CancelledRaised
    | OperationRaised

  datatype Worker =
    | Operating
    | ChecksAbandoned    // the operation has run inside its transaction
    | Committing
    | ChecksTimedOut     // the transaction is given up
    | FallingBack
    | Committed
    | Failed             // the operation or its commit raised
    | GaveUp             // the cancellation was raised, after any fallback

  datatype State = State(
    caller: Caller, worker: Worker, timedOut: bool, abandoned: bool,
    operationCommitted: bool, fallbackTried: bool, fallbackCommitted: bool)

  /** With time left the operation starts; with none left only the fallback does. */
  function Start(timeLeft: bool): State {
    if timeLeft then State(Waiting, Operating, false, false, false, false, false)
    else State(DeadlineRaised, FallingBack, false, false, false, false, false)
  }

  datatype Event =
    | Operate(raises: bool)
    | ReadAbandoned
    | Commit(raises: bool)
    | ReadTimedOut
    | FallBack(lands: bool)  // may find no time left, or a row it must not touch
    | SeeResult
    | TimeOut
    | SetAbandoned
    | Cancel

  predicate Enabled(s: State, e: Event) {
    match e
    case Operate(_) => s.worker == Operating
    case ReadAbandoned => s.worker == ChecksAbandoned
    case Commit(_) => s.worker == Committing
    case ReadTimedOut => s.worker == ChecksTimedOut
    case FallBack(_) => s.worker == FallingBack
    case SeeResult => s.caller == Waiting && (s.worker == Committed || s.worker == Failed || s.worker == GaveUp)
    case TimeOut => s.caller == Waiting
    case SetAbandoned => s.caller == SettingAbandoned
    case Cancel => s.caller == Waiting
  }

  function Step(s: State, e: Event): State
    requires Enabled(s, e)
  {
    match e
    case Operate(raises) => s.(worker := if raises then Failed else ChecksAbandoned)
    case ReadAbandoned => s.(worker := if s.abandoned then ChecksTimedOut else Committing)
    case Commit(raises) =>
      if raises then s.(worker := Failed) else s.(worker := Committed, operationCommitted := true)
    case ReadTimedOut => s.(worker := if s.timedOut then FallingBack else GaveUp)
    case FallBack(lands) => s.(worker := GaveUp, fallbackTried := true, fallbackCommitted := lands)
    case SeeResult => s.(caller := if s.worker == Committed then Returned else OperationRaised)
    case TimeOut => s.(caller := SettingAbandoned, timedOut := true)
    case SetAbandoned => s.(caller := DeadlineRaised, abandoned := true)
    case Cancel => s.(caller := CancelledRaised, abandoned := true)
  }

  predicate Finished(s: State) {
    && s.caller !in {Waiting, SettingAbandoned}
    && s.worker in {Committed, Failed, GaveUp}
  }

  predicate Inv(s: State, timeLeft: bool) {
    && (s.operationCommitted <==> s.worker == Committed)
    && (s.fallbackCommitted ==> s.fallbackTried)
    && (s.fallbackTried ==> s.worker == GaveUp && (s.timedOut || !timeLeft))
    && (s.abandoned ==> s.caller == DeadlineRaised || s.caller == CancelledRaised)
    && (s.caller == CancelledRaised ==> s.abandoned && !s.timedOut)
    && (s.timedOut ==> s.caller == SettingAbandoned || s.caller == DeadlineRaised)
    && (s.caller == SettingAbandoned ==> s.timedOut)
    && (s.caller == DeadlineRaised && timeLeft ==> s.timedOut && s.abandoned)
    && (s.worker in {ChecksTimedOut, FallingBack, GaveUp} ==> s.abandoned || !timeLeft)
    && (s.worker == FallingBack ==> s.timedOut || !timeLeft)
    && (s.worker == GaveUp && !s.fallbackTried ==> s.caller == CancelledRaised)
    && (s.caller == Returned ==> s.worker == Committed)
    && (s.caller == OperationRaised ==> s.worker == Failed)
    && (!timeLeft ==> s.caller == DeadlineRaised && s.worker in {FallingBack, GaveUp})
  }

  ghost predicate IsRun(timeLeft: bool, states: seq<State>, events: seq<Event>) {
    && |states| == |events| + 1
    && states[0] == Start(timeLeft)
    && forall i :: 0 <= i < |events| ==> Follows(states[i], events[i], states[i + 1])
  }

  ghost predicate Follows(s: State, e: Event, s': State) {
    Enabled(s, e) && s' == Step(s, e)
  }

  lemma {:induction false} RunKeepsInv(timeLeft: bool, states: seq<State>, events: seq<Event>, i: nat)
    requires IsRun(timeLeft, states, events) && i < |states|
    ensures Inv(states[i], timeLeft)
  {
    if i > 0 {
      RunKeepsInv(timeLeft, states, events, i - 1);
      assert Follows(states[i - 1], events[i - 1], states[i]);
    }
  }

  /** Main result, for every interleaving of caller and worker and at every moment of it: the
      operation and its fallback never both commit, a returned value means the operation
      committed and no fallback will, and cancellation alone never leads to the fallback. */
  lemma NeverBoth(timeLeft: bool, states: seq<State>, events: seq<Event>, i: nat, j: nat)
    requires IsRun(timeLeft, states, events) && i <= j < |states|
    ensures !(states[i].operationCommitted && states[j].fallbackCommitted)
    ensures !(states[j].operationCommitted && states[i].fallbackCommitted)
    ensures states[i].caller == Returned ==> states[j].operationCommitted && !states[j].fallbackTried
    ensures states[i].caller == CancelledRaised ==> !states[j].fallbackTried
  {
    RunKeepsInv(timeLeft, states, events, i);
    RunKeepsInv(timeLeft, states, events, j);
    VerdictsStay(timeLeft, states, events, i, j);
  }

  /** What has committed stays committed, and a caller that has ended has ended. */
  lemma {:induction false} VerdictsStay(timeLeft: bool, states: seq<State>, events: seq<Event>, i: nat, j: nat)
    requires IsRun(timeLeft, states, events) && i <= j < |states|
    ensures states[i].operationCommitted ==> states[j].operationCommitted
    ensures states[i].fallbackCommitted ==> states[j].fallbackCommitted
    ensures states[i].caller in {Returned, DeadlineRaised, CancelledRaised, OperationRaised} ==>
              states[j].caller == states[i].caller
  {
    if i < j {
      VerdictsStay(timeLeft, states, events, i, j - 1);
      RunKeepsInv(timeLeft, states, events, j - 1);
      assert Follows(states[j - 1], events[j - 1], states[j]);
    }
  }

  /** The operation or its commit raised at this event. */
  predicate Raises(e: Event) {
    e == Operate(true) || e == Commit(true)
  }

  ghost predicate NothingRaised(events: seq<Event>, i: nat) {
    forall n :: 0 <= n < i && n < |events| ==> !Raises(events[n])
  }

  lemma {:induction false} FailedOnlyByRaising(timeLeft: bool, states: seq<State>, events: seq<Event>, i: nat)
    requires IsRun(timeLeft, states, events) && i < |states|
    ensures states[i].worker == Failed <==> !NothingRaised(events, i)
  {
    if i > 0 {
      FailedOnlyByRaising(timeLeft, states, events, i - 1);
      assert Follows(states[i - 1], events[i - 1], states[i]);
      assert Raises(events[i - 1]) ==> !NothingRaised(events, i);
      if !NothingRaised(events, i - 1) {
        assert !NothingRaised(events, i);
      }
    }
  }

  /** After a deadline, operation or fallback is carried out exactly when neither the operation nor
      its commit raised: one that raises once it is abandoned gets no fallback. */
  lemma DeadlineOutcomeExactly(timeLeft: bool, states: seq<State>, events: seq<Event>, i: nat)
    requires IsRun(timeLeft, states, events) && i < |states|
    requires Finished(states[i]) && states[i].caller == DeadlineRaised
    ensures states[i].operationCommitted || states[i].fallbackTried <==> NothingRaised(events, i)
  {
    RunKeepsInv(timeLeft, states, events, i);
    FailedOnlyByRaising(timeLeft, states, events, i);
  }

  ghost predicate Happened(events: seq<Event>, e: Event, i: nat) {
    exists n :: 0 <= n < i && n < |events| && events[n] == e
  }

  lemma {:induction false} EventsTell(timeLeft: bool, states: seq<State>, events: seq<Event>, i: nat)
    requires IsRun(timeLeft, states, events) && i < |states|
    ensures states[i].timedOut <==> Happened(events, TimeOut, i)
    ensures states[i].caller == CancelledRaised <==> Happened(events, Cancel, i)
  {
    if i > 0 {
      EventsTell(timeLeft, states, events, i - 1);
      RunKeepsInv(timeLeft, states, events, i - 1);
      assert Follows(states[i - 1], events[i - 1], states[i]);
      assert forall e :: Happened(events, e, i) <==> Happened(events, e, i - 1) || events[i - 1] == e;
    }
  }

  /** What the caller gets in the end depends on three events only: without a deadline, a cancellation
      and anything raised it is the value. */
  lemma CallerGetsExactly(timeLeft: bool, states: seq<State>, events: seq<Event>, i: nat)
    requires IsRun(timeLeft, states, events) && i < |states| && Finished(states[i])
    ensures states[i].caller
            == if !timeLeft || Happened(events, TimeOut, i) then DeadlineRaised
               else if Happened(events, Cancel, i) then CancelledRaised
               else if NothingRaised(events, i) then Returned else OperationRaised
  {
    RunKeepsInv(timeLeft, states, events, i);
    EventsTell(timeLeft, states, events, i);
    FailedOnlyByRaising(timeLeft, states, events, i);
  }

  /** Such a run, step by step. */
  lemma RaisingOperationLeavesNothing()
    ensures var events := [TimeOut, SetAbandoned, Operate(true)];
            exists states: seq<State> :: IsRun(true, states, events) && Finished(states[3])
                             && states[3].caller == DeadlineRaised
                             && !states[3].operationCommitted && !states[3].fallbackTried
  {
    var events := [TimeOut, SetAbandoned, Operate(true)];
    var s0 := Start(true);
    var s1 := Step(s0, TimeOut);
    var s2 := Step(s1, SetAbandoned);
    var states := [s0, s1, s2, Step(s2, Operate(true))];
    assert Follows(states[0], events[0], states[1]) && Follows(states[1], events[1], states[2])
           && Follows(states[2], events[2], states[3]);
    assert IsRun(true, states, events);
  }

  /** Nothing blocks: until both threads have finished one of them can go on. */
  lemma NeverStuck(timeLeft: bool, states: seq<State>, events: seq<Event>, i: nat) returns (e: Event)
    requires IsRun(timeLeft, states, events) && i < |states|
    requires !Finished(states[i])
    ensures Enabled(states[i], e)
  {
    RunKeepsInv(timeLeft, states, events, i);
    var s := states[i];
    e := match s.worker
         case Operating => Operate(false)
         case ChecksAbandoned => ReadAbandoned
         case Committing => Commit(false)
         case ChecksTimedOut => ReadTimedOut
         case FallingBack => FallBack(true)
         case _ => if s.caller == Waiting then SeeResult else SetAbandoned;
  }

  /** The operation as one caller sees it. */
  datatype Result =
    | Value            // the operation committed
    | Raised           // the operation raised: nothing committed, nothing will
    | Deadline         // operation or fallback may commit yet, never both
    | Cancelled        // the operation may commit yet, the fallback will not

  /** The code of caller and worker, with the turns of the two threads chosen by `turns`. */
  class DbCall {
    var state: State
    ghost var states: seq<State>
    ghost var events: seq<Event>
    const timeLeft: bool

    ghost predicate Valid()
      reads this
    {
      IsRun(timeLeft, states, events) && states[|events|] == state
    }

    constructor (timeLeft: bool)
      ensures Valid() && this.timeLeft == timeLeft && state == Start(timeLeft)
    {
      this.timeLeft := timeLeft;
      state := Start(timeLeft);
      states, events := [Start(timeLeft)], [];
    }

    method Take(e: Event)
      requires Valid() && Enabled(state, e)
      modifies this
      ensures Valid() && state == Step(old(state), e) && states == old(states) + [state]
    {
      state := Step(state, e);
      states, events := states + [state], events + [e];
    }

    /** Runs both threads until they have finished or the turns run out. */
    method Run(turns: seq<Event>) returns (result: Option<Result>)
      requires Valid()
      modifies this
      ensures Valid() && old(states) <= states
      ensures !(state.operationCommitted && state.fallbackCommitted)
      ensures result == Some(Value) ==> state.operationCommitted && !state.fallbackTried
      ensures result == Some(Raised) ==> !state.operationCommitted && !state.fallbackTried
      ensures result == Some(Cancelled) ==> !state.fallbackTried
      ensures result.None? <==> state.caller == Waiting || state.caller == SettingAbandoned
    {
      for n := 0 to |turns|
        invariant Valid() && old(states) <= states
      {
        if Enabled(state, turns[n]) {
          Take(turns[n]);
        }
      }
      RunKeepsInv(timeLeft, states, events, |events|);
      match state.caller {
        case Returned => result := Some(Value);
        case DeadlineRaised => result := Some(Deadline);
        case CancelledRaised => result := Some(Cancelled);
        case OperationRaised => result := Some(Raised);
        case _ => result := None;
      }
    }
  }
}

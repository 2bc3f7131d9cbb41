/** The sections of `ConversationManager` that run under its lifecycle lock, on the tables the
    class keeps (agent-server/focusproof/openhands_runtime/manager.py:258-280, 302-306, 339-346,
    413-457, 629-631). */
module ConversationManager {
  import opened Basics
  import opened ReviewLifecycle

  class Manager {
    var acceptingReviews: bool
    var activeReviews: map<Id, set<Id>>
    var runningReviews: map<Id, Id>
    var interruptedReviews: set<Call>
    var handles: set<Id>
    ghost var pending: multiset<Id>
    ghost var holders: map<Id, Id>
    ghost var reviews: map<Call, Review>
    ghost var closer: Closer
    const runtime: Runtime

    ghost function Current(): State
      reads this
    {
      State(acceptingReviews, activeReviews, runningReviews, interruptedReviews, pending, handles, holders,
            reviews, closer)
    }

    ghost predicate Valid()
      reads this
    {
      Tables(Current()) && Shutdown(Current()) && (runtime.exclusive ==> Locked(Current()))
    }

    constructor (runtime: Runtime)
      ensures Valid() && this.runtime == runtime && Current() == Initial()
    {
      this.runtime := runtime;
      acceptingReviews, activeReviews, runningReviews, interruptedReviews := true, map[], map[], {};
      handles, pending, holders, reviews, closer := {}, multiset{}, map[], map[], NotClosing;
    }

    /** The abstract state followed an event. */
    twostate predicate Did(e: Event)
      reads this
    {
      Enabled(old(Current()), e, runtime) && Current() == Step(old(Current()), e, runtime)
    }

    twostate lemma StaysValid(e: Event)
      requires old(Valid()) && Did(e)
      ensures Valid()
    {
      StepKeepsTables(old(Current()), e, runtime);
      StepKeepsShutdown(old(Current()), e, runtime);
      if runtime.exclusive {
        StepKeepsLocked(old(Current()), e, runtime);
      }
    }

    /** The first section of `run_review`. */
    method EnterReview(session: Id, call: Id) returns (admitted: bool)
      requires Valid() && (session, call) !in reviews
      modifies this
      ensures Valid() && admitted == old(acceptingReviews)
      ensures if admitted then Did(Enter((session, call))) else Current() == old(Current())
    {
      if !acceptingReviews {
        return false;
      }
      activeReviews := activeReviews[
        session := (if session in activeReviews then activeReviews[session] else {}) + {call}];
      reviews := reviews[(session, call) := Review(Queued, false)];
      admitted := true;
      StaysValid(Enter((session, call)));
    }

    /** The section that enters a review in the running table, under the run lock. */
    method RegisterReview(session: Id, call: Id) returns (admitted: bool)
      requires Valid() && IsAt(Current(), (session, call), HoldsLock)
      modifies this
      ensures Valid() && Did(Register((session, call))) && admitted == old(acceptingReviews)
    {
      admitted := acceptingReviews;
      if admitted {
        runningReviews := runningReviews[session := call];
      }
      reviews := reviews[(session, call) :=
        reviews[(session, call)].(pc := if admitted then Registered else GivesLock)];
      StaysValid(Register((session, call)));
    }

    /** The last look before the agent runs. */
    method MayExecute(session: Id, call: Id) returns (go: bool)
      requires Valid() && IsAt(Current(), (session, call), HasHandle)
      modifies this`reviews
      ensures Valid() && Did(Check((session, call)))
      ensures go <==> IsAt(Current(), (session, call), Cleared)
      ensures go <==> acceptingReviews && (session, call) !in interruptedReviews
    {
      go := acceptingReviews && (session, call) !in interruptedReviews;
      reviews := Step(Current(), Check((session, call)), runtime).reviews;
      StaysValid(Check((session, call)));
    }

    /** The `finally` block of `run_review`: the entry it looks up is always there. */
    method LeaveReview(session: Id, call: Id)
      requires Valid() && IsAt(Current(), (session, call), Leaving)
      modifies this
      ensures Valid() && Did(Leave((session, call)))
    {
      assert InActive(Current(), (session, call));
      hide InActive;
      var activeCalls := activeReviews[session] - {call};
      if activeCalls == {} {
        activeReviews := activeReviews - {session};
      } else {
        activeReviews := activeReviews[session := activeCalls];
      }
      if session in runningReviews && runningReviews[session] == call {
        runningReviews := runningReviews - {session};
      }
      interruptedReviews := interruptedReviews - {(session, call)};
      reviews := reviews - {(session, call)};
      hide Tables, Shutdown, Locked;
      StaysValid(Leave((session, call)));
    }

    /** `interrupt`: marks what is active, and says whether the session's conversation is to be told. */
    method InterruptReviews(session: Id, call: Option<Id>) returns (told: bool)
      requires Valid()
      modifies this`interruptedReviews, this`pending
      ensures Valid() && Did(Interrupt(session, call))
      ensures told ==> session in handles && session in runningReviews
      ensures pending == if told then old(pending) + multiset{session} else old(pending)
    {
      var activeCalls := if session in activeReviews then activeReviews[session] else {};
      var shouldInterrupt;
      if call.None? {
        interruptedReviews := interruptedReviews + set id | id in activeCalls :: (session, id);
        shouldInterrupt := session in runningReviews;
      } else {
        if call.value in activeCalls {
          interruptedReviews := interruptedReviews + {(session, call.value)};
        }
        shouldInterrupt := session in runningReviews && runningReviews[session] == call.value;
      }
      told := shouldInterrupt && session in handles;
      hide Tables, Shutdown, Locked;
      InterruptMarks(old(Current()), session, call);
      if told {
        pending := pending + multiset{session};
      }
      StaysValid(Interrupt(session, call));
    }

    /** The first section of `close_all`. */
    method BeginClosing() returns (told: set<Id>)
      requires Valid() && acceptingReviews
      modifies this
      ensures Valid() && Did(BeginShutdown)
      ensures told == old(handles * runningReviews.Keys)
    {
      hide Tables, Shutdown, Locked;
      acceptingReviews := false;
      interruptedReviews := interruptedReviews
        + set session, id | session in activeReviews && id in activeReviews[session] :: (session, id);
      told := set session | session in handles && session in runningReviews;
      reviews := Signal(Current(), told, runtime).reviews;
      closer := Draining;
      assert told == old(handles * runningReviews.Keys);
      StaysValid(BeginShutdown);
    }

    /** Requests that are still being served while the manager shuts down. */
    method Serve(requests: seq<Event>)
      requires Valid() && !acceptingReviews && activeReviews == map[]
      modifies this`handles, this`interruptedReviews, this`pending
      ensures Valid() && activeReviews == map[]
      ensures forall session <- handles - old(handles) :: CreateHandle(session) in requests
    {
      for i := 0 to |requests|
        invariant Valid()
        invariant forall session <- handles - old(handles) :: CreateHandle(session) in requests
      {
        ServeOne(requests[i]);
      }
    }

    method ServeOne(request: Event)
      requires Valid() && !acceptingReviews && activeReviews == map[]
      modifies this`handles, this`interruptedReviews, this`pending
      ensures Valid()
      ensures handles == match request
                         case CreateHandle(session) => old(handles) + {session}
                         case Close(session) => old(handles) - {session}
                         case _ => old(handles)
    {
      NobodyHolds(Current(), runtime);
      match request {
        case CreateHandle(session) =>
          handles := handles + {session};
          StaysValid(request);
        case Close(session) =>
          handles := handles - {session};
          StaysValid(request);
        case Interrupt(session, call) =>
          var _ := InterruptReviews(session, call);
        case _ =>
      }
    }

    /** One round of the closing loop. */
    method CloseOneHandle(session: Id)
      requires Valid() && activeReviews == map[] && closer.Closing? && session in closer.left
      modifies this`handles, this`closer
      ensures Valid() && closer == Closing(old(closer.left) - {session}) && handles == old(handles) - {session}
    {
      NobodyHolds(Current(), runtime);
      handles := handles - {session};
      closer := Closing(closer.left - {session});
      StaysValid(CloseOne(session));
    }

    /** The closing of `close_all`, once nothing is active; before each handle it closes, any other
        requests may be served. Every handle that was there when the drain ended is closed: what is
        left was made while it closed. */
    method CloseHandles(requests: seq<seq<Event>>)
      requires Valid() && closer == Draining && activeReviews == map[]
      modifies this
      ensures Valid() && closer == Closed && activeReviews == map[]
      ensures forall session <- handles :: IsCreated(session, requests)
    {
      assert !acceptingReviews;
      hide Tables, Shutdown, Locked;
      closer := Closing(handles);
      StaysValid(Drained);
      CloseEach(requests);
      label drained:
      closer := Closed;
      StaysValid@drained(EndShutdown);
    }

    method CloseEach(requests: seq<seq<Event>>)
      requires Valid() && closer == Closing(handles) && activeReviews == map[] && !acceptingReviews
      modifies this`handles, this`interruptedReviews, this`pending, this`closer
      ensures Valid() && closer == Closing({})
      ensures forall session <- handles :: IsCreated(session, requests)
    {
      hide Tables, Shutdown, Locked;
      var left := handles;
      var round := 0;
      while left != {}
        invariant Valid() && closer == Closing(left)
        invariant forall session <- handles - left :: IsCreated(session, requests)
        decreases |left|
      {
        ghost var before := handles;
        if round < |requests| {
          Serve(requests[round]);
        }
        assert forall session <- handles - before :: IsCreated(session, requests);
        assert forall session <- handles - left :: session in before - left || session in handles - before;
        round := round + 1;
        var session :| session in left;
        left := left - {session};
        CloseOneHandle(session);
      }
    }
  }

  predicate IsCreated(session: Id, requests: seq<seq<Event>>) {
    exists i :: 0 <= i < |requests| && CreateHandle(session) in requests[i]
  }
}

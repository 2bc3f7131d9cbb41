/** `TranscriptionService.execute` (agent-server/focusproof/speech_application.py:137-345, 576-776)
    under every placement of failures, deadlines, disconnects and cancellations, with the writes
    of abandoned workers arriving at any moment. */
module SpeechExecution {
  import opened Basics
  import opened Speech

  /** How one awaited step ends. */
  datatype Outcome =
    | Good
    | IsCancelled      // a disconnect, or the request task is cancelled
    | RunsOut          // the deadline passes while waiting
    | RanOut           // the deadline had passed already
    | Classified       // a SpeechError other than a timeout
    | Unclassified     // any other exception

  /** The exception classes `execute` tells apart. */
  datatype Signal =
    | Fine
    | CancelledError
    | AmbiguousError
    | DatabaseDeadline
    | ResultUnavailable
    | SpeechFailure
    | LeaseState
    | Other
  {
    predicate IsFailure() { !Fine? }
    function PropagateFailure(): Signal requires IsFailure() { this }
  }

  class TranscriptionService {
    var db: Db
    var token: nat
    var audioPresent: bool
    var slotHeld: bool     // a slot is claimed in the database
    var hasLease: bool     // `asr_lease` is set, so that the cleanup knows the slot
    var providerCalls: nat
    var dispatched: bool
    var providerResultReceived: bool
    var successCommitted: bool
    ghost var providerFailed: bool
    var outcomes: seq<Outcome>
    var arrivals: seq<seq<Arrival>>
    const verdict: ScanStatus

    /** Kept by every step, whatever happens. */
    ghost predicate Valid()
      reads this
    {
      && DbInv(db, providerFailed)
      && token <= db.row.generation
      && (providerFailed ==> dispatched)
      && (dispatched ==> Dispatched())
      && (!dispatched ==> providerCalls == 0 && !providerResultReceived)
      && (!dispatched && db.row.dispatchedAt.Some? ==> token < db.row.dispatchedAt.value)
      && providerCalls <= 1
      && (providerCalls == 1 ==> dispatched)
      && (providerResultReceived ==> providerCalls == 1)
      && (successCommitted ==> db.row.state == Succeeded && providerCalls == 1)
      && (dispatched && slotHeld ==> hasLease)
    }

    /** A clean scan is on record and DISPATCHING was committed for this token. */
    ghost predicate Dispatched()
      reads this
    {
      && db.row.scan == Some(Clean)
      && db.row.dispatchedAt.Some? && db.row.dispatchedAt.value <= token
    }

    constructor (row: Row, pending: seq<Late>, verdict: ScanStatus, outcomes: seq<Outcome>, arrivals: seq<seq<Arrival>>)
      requires DbInv(Db(row, pending), false) && row.dispatchedAt.None?
      ensures Valid() && db == Db(row, pending) && token == row.generation && this.verdict == verdict
      ensures !audioPresent && !slotHeld && !hasLease && providerCalls == 0 && !dispatched
      ensures !providerResultReceived && !successCommitted && !providerFailed
    {
      db, token := Db(row, pending), row.generation;
      this.verdict, this.outcomes, this.arrivals := verdict, outcomes, arrivals;
      audioPresent, slotHeld, hasLease, providerCalls, dispatched := false, false, false, 0, false;
      providerResultReceived, successCommitted, providerFailed := false, false, false;
    }

    /** What the row may have become meanwhile; nothing of the request itself changes. */
    twostate predicate OnlyTimePassed()
      reads this
    {
      && Advanced(old(db.row), db.row)
      && token == old(token) && audioPresent == old(audioPresent)
      && slotHeld == old(slotHeld) && hasLease == old(hasLease)
      && providerCalls == old(providerCalls) && dispatched == old(dispatched)
      && providerResultReceived == old(providerResultReceived)
      && successCommitted == old(successCommitted) && providerFailed == old(providerFailed)
    }

    /** Nothing goes wrong any more, and nobody else touches the row. */
    predicate Quiet()
      reads this
    {
      outcomes == [] && arrivals == []
    }

    /** Nobody else touches the row, and at most one step goes wrong: not one of the next `steps`. */
    predicate Smooth(steps: nat)
      reads this
    {
      arrivals == [] && (outcomes == [] || (|outcomes| > steps && OneFault(outcomes)))
    }

    /** Nobody else touches the row, and exactly one step goes wrong: one of the next `steps`. */
    predicate Faulty(steps: nat)
      reads this
    {
      arrivals == [] && 0 < |outcomes| <= steps && OneFault(outcomes)
    }

    /** The row is still the one this request holds the token for. */
    predicate Holds()
      reads this
    {
      Matches(db.row, token)
    }

    /** A freshly admitted request with the token of its row. */
    predicate Ready()
      reads this
    {
      Admissible(db.row) && Holds() && !slotHeld
    }

    /** Nobody else touches the row, and at most one step goes wrong. */
    predicate AtMostOneFault()
      reads this
    {
      arrivals == [] && (outcomes == [] || OneFault(outcomes))
    }

    /** The cleanup knows of every slot that is claimed. */
    predicate Accounted()
      reads this
    {
      slotHeld ==> hasLease
    }

    twostate predicate SlotUnchanged()
      reads this
    {
      slotHeld == old(slotHeld) && hasLease == old(hasLease)
    }

    /** The request holds the token of a row in this state, which was never dispatched. */
    predicate Stands(state: RowState)
      reads this
    {
      Holds() && db.row.state == state && db.row.dispatchedAt.None?
    }

    /** The row has been moved to this state, with nothing else changed. */
    twostate predicate MovedOn(state: RowState)
      reads this
    {
      Holds() && db.row == old(db.row).(state := state, generation := db.row.generation)
    }

    /** Other transactions commit. */
    method Interleave()
      requires Valid()
      modifies this`db, this`arrivals
      ensures Valid() && OnlyTimePassed()
      ensures old(arrivals) == [] ==> arrivals == [] && db == old(db)
    {
      var block := if arrivals == [] then [] else arrivals[0];
      arrivals := if arrivals == [] then [] else arrivals[1..];
      ArrivalsKeepInv(db, block, providerFailed);
      db := ArriveAll(db, block);
    }

    /** The next `steps` outcomes are used up, and nobody else has touched the row. */
    twostate predicate Ahead(steps: nat)
      reads this
    {
      arrivals == [] && UsedUp(old(outcomes), outcomes, steps)
    }

    /** An awaited step that does not touch the database. */
    method Await() returns (outcome: Outcome)
      requires Valid()
      modifies this`db, this`arrivals, this`outcomes
      ensures Valid() && OnlyTimePassed()
      ensures if old(outcomes) == [] then outcome == Good && outcomes == [] else |outcomes| < old(|outcomes|)
      ensures old(Smooth(1)) ==> Ahead(1) && outcome == Good
      ensures old(Faulty(1)) ==> Quiet() && outcome == Culprit(old(outcomes)) && outcome != Good
      ensures old(arrivals) == [] ==> arrivals == [] && db == old(db)
    {
      outcome := if outcomes == [] then Good else outcomes[0];
      outcomes := if outcomes == [] then [] else outcomes[1..];
      Interleave();
    }

    /** `_ensure_business_time` followed by `_check_disconnect`. */
    method Checkpoint() returns (signal: Signal)
      requires Valid()
      modifies this`db, this`arrivals, this`outcomes
      ensures Valid() && OnlyTimePassed()
      ensures old(Smooth(1)) ==> Ahead(1) && signal.Fine? && db == old(db)
      ensures old(Faulty(1)) ==> Quiet() && signal == Raised(TimeAndPeer, Culprit(old(outcomes))) && db == old(db)
    {
      var outcome := Await();
      match outcome {
        case Good => signal := Fine;
        case IsCancelled => signal := CancelledError;
        case _ => signal := SpeechFailure;
      }
    }

    /** An abandoned worker stays behind with the writes it may still commit. */
    method Abandon(choices: set<Write>)
      requires Valid()
      requires dispatched && Finalize(FailedTerminal) in choices ==> providerFailed
      modifies this`db, this`arrivals
      ensures Valid() && OnlyTimePassed()
      ensures old(arrivals) == [] ==> arrivals == [] && db.row == old(db.row)
    {
      db := db.(pending := db.pending + [Late(token, choices)]);
      Interleave();
    }

    /** The transaction of an operation that runs to its end: it commits or it refuses. */
    method Transact(w: Write) returns (signal: Signal, accepted: bool)
      requires Valid()
      requires dispatched && w == Finalize(FailedTerminal) ==> providerFailed
      modifies this`db, this`arrivals
      ensures Valid() && OnlyTimePassed()
      ensures old(arrivals) == [] ==> arrivals == []
      ensures accepted ==> signal.Fine? && CommittedFor(old(db.row), token, w, db.row)
      ensures signal.Fine? && !accepted ==> w.Finalize?
      ensures signal.Fine? || signal == LeaseState
      ensures old(arrivals) == [] && Accepts(old(db.row), token, w) ==>
                accepted && arrivals == [] && db.row == Written(old(db.row), w)
    {
      if !Accepts(db.row, token, w) {
        return if w.Finalize? && !Matches(db.row, token) then Fine else LeaseState, false;
      }
      ghost var row := db.row;
      WriteKeepsLates(db.row, token, w, providerFailed, db.pending);
      db := db.(row := Written(db.row, w));
      signal, accepted := Fine, true;
      Interleave();
      assert CommittedAt(row, token, w, db.row);
    }

    /** `_run_db_operation` as its caller sees it: the write commits, the operation refuses or
        fails, or the caller leaves and a worker stays behind with the write, the fallback, or
        both; never both of them commit (module DbOperation). */
    method RunDb(w: Write, fallback: Write) returns (signal: Signal, accepted: bool)
      requires Valid()
      requires dispatched && Finalize(FailedTerminal) in {w, fallback} ==> providerFailed
      modifies this`db, this`arrivals, this`outcomes
      ensures Valid() && OnlyTimePassed()
      ensures old(arrivals) == [] ==> arrivals == []
      ensures old(outcomes) == [] ==> outcomes == []
      ensures accepted ==> signal.Fine? && CommittedFor(old(db.row), token, w, db.row)
      ensures signal.Fine? && !accepted ==> w.Finalize?
      ensures signal in {Fine, LeaseState, Other, CancelledError, DatabaseDeadline}
      ensures old(Smooth(1)) && Accepts(old(db.row), token, w) ==>
                accepted && Ahead(1) && db.row == Written(old(db.row), w)
      ensures old(Faulty(1)) ==>
                !accepted && Quiet() && signal == Raised(Transit, Culprit(old(outcomes))) && db.row == old(db.row)
    {
      hide Valid, DbInv, Accepts, CommittedFor, CommittedAt, Written, OneFault, UsedUp;
      accepted := false;
      var outcome := Await();
      if outcome.Good? {
        ghost var before := db.row;
        signal, accepted := Transact(w);
        if accepted {
          CommittedSince(old(db.row), before, token, w, db.row);
        }
      } else {
        signal := Leave(outcome, w, fallback);
      }
    }

    /** The caller is gone, or the operation failed before its transaction. */
    method Leave(outcome: Outcome, w: Write, fallback: Write) returns (signal: Signal)
      requires Valid() && !outcome.Good?
      requires dispatched && Finalize(FailedTerminal) in {w, fallback} ==> providerFailed
      modifies this`db, this`arrivals
      ensures Valid() && OnlyTimePassed()
      ensures signal == Raised(Transit, outcome)
      ensures old(arrivals) == [] ==> arrivals == [] && db.row == old(db.row)
    {
      hide Valid;
      match outcome {
        case IsCancelled =>
          Abandon({w});
          signal := CancelledError;
        case RunsOut =>
          Abandon({w, fallback});
          signal := DatabaseDeadline;
        case RanOut =>
          Abandon({fallback});
          signal := DatabaseDeadline;
        case _ =>
          signal := Other;
      }
    }

    /** `_transition`. */
    method MoveTo(to: RowState) returns (signal: Signal)
      requires Valid() && !dispatched && !successCommitted && to in {Uploading, Scanning, Inspecting}
      modifies this
      ensures Valid() && BeforeDispatch() && SlotUnchanged()
      ensures old(Smooth(1)) && old(Holds()) && NextState(old(db.row.state)) == Some(to) ==>
                Ahead(1) && Holds() && signal.Fine? && db.row == Written(old(db.row), Transition(to))
      ensures old(Faulty(1)) ==>
                && Quiet() && signal == Raised(Transit, Culprit(old(outcomes)))
                && db.row == old(db.row) && token == old(token)
    {
      var accepted;
      signal, accepted := RunDb(Transition(to), Finalize(FailedTerminal));
      if accepted {
        token := token + 1;
      }
    }

    /** Nothing has been dispatched, and the row has only moved on. */
    twostate predicate BeforeDispatch()
      reads this
    {
      !dispatched && !successCommitted && providerCalls == 0 && Advanced(old(db.row), db.row)
    }

    method PrepareTempDirectory() returns (signal: Signal)
      requires Valid() && !dispatched && !successCommitted
      modifies this
      ensures Valid() && BeforeDispatch() && SlotUnchanged()
      ensures old(Smooth(1)) ==> Ahead(1) && signal.Fine? && db == old(db) && token == old(token)
      ensures old(Faulty(1)) ==>
                Quiet() && signal == Raised(TempDirectory, Culprit(old(outcomes))) && db == old(db) && token == old(token)
    {
      var outcome := Await();
      signal := if outcome.Good? then Fine else if outcome.IsCancelled? then CancelledError else Other;
    }

    /** The upload may leave a file behind however it ends. */
    method Upload() returns (signal: Signal)
      requires Valid() && !dispatched && !successCommitted
      modifies this
      ensures Valid() && BeforeDispatch() && SlotUnchanged()
      ensures old(Smooth(1)) ==> Ahead(1) && signal.Fine? && db == old(db) && token == old(token)
      ensures old(Faulty(1)) ==>
                Quiet() && signal == Raised(UploadBody, Culprit(old(outcomes))) && db == old(db) && token == old(token)
    {
      audioPresent := true;
      var outcome := Await();
      signal := if outcome.Good? then Fine else if outcome.IsCancelled? then CancelledError else SpeechFailure;
    }

    /** `_scan`: the verdict is recorded first, and only a clean one lets the request go on. */
    method Scan() returns (signal: Signal)
      requires Valid() && !dispatched && !successCommitted
      modifies this
      ensures Valid() && BeforeDispatch() && SlotUnchanged()
      ensures signal.Fine? ==> db.row.scan == Some(Clean)
      ensures old(Smooth(2)) && old(db.row.scan).None? ==>
                && Ahead(2) && signal == (if verdict == Clean then Fine else SpeechFailure)
                && token == old(token) && db.row == Written(old(db.row), RecordScan(verdict))
      ensures old(Faulty(2)) && old(db.row.scan).None? ==>
                && Quiet() && token == old(token) && db.row == old(db.row).(scan := db.row.scan)
                && signal == Raised(if old(|outcomes|) == 1 then ScanAudio else RecordVerdict,
                                    Culprit(old(outcomes)))
      ensures verdict != Clean ==> !signal.Fine?
    {
      hide AllGood, DbInv;
      var outcome := Await();
      var status := verdict;
      match outcome {
        case Good =>
        case IsCancelled => return CancelledError;
        case Unclassified => status := ScanError;
        case _ => return SpeechFailure;
      }
      var accepted;
      signal, accepted := RunDb(RecordScan(status), Finalize(FailedTerminal));
      if signal == LeaseState || signal == Other {
        return SpeechFailure;
      }
      if signal.Fine? && status != Clean {
        return SpeechFailure;
      }
    }

    method Inspect() returns (signal: Signal)
      requires Valid() && !dispatched && !successCommitted
      modifies this
      ensures Valid() && BeforeDispatch() && SlotUnchanged()
      ensures old(Smooth(1)) ==> Ahead(1) && signal.Fine? && db == old(db) && token == old(token)
      ensures old(Faulty(1)) ==>
                Quiet() && signal == Raised(InspectAudio, Culprit(old(outcomes))) && db == old(db) && token == old(token)
    {
      var outcome := Await();
      signal := if outcome.Good? then Fine else if outcome.IsCancelled? then CancelledError else SpeechFailure;
    }

    /** `_claim_asr_slot`: polls until a slot is free or the deadline passes; a slot granted
        too late is given back, if that works, and if it does not the request forgets it. */
    method ClaimAsrSlot(polls: nat) returns (signal: Signal)
      requires Valid() && !dispatched && !successCommitted
      modifies this
      ensures Valid() && BeforeDispatch()
      ensures old(AtMostOneFault() && Accounted()) ==> Accounted()
      ensures signal.Fine? ==> slotHeld && hasLease
      ensures old(arrivals) == [] ==> arrivals == [] && db == old(db) && token == old(token)
      ensures old(Smooth(1)) && polls > 0 ==> Ahead(1) && signal.Fine?
      ensures old(Faulty(1)) && polls > 0 ==>
                && Quiet()
                && signal == if SlotBusy(Culprit(old(outcomes))) && polls > 1 then Fine
                             else Raised(ClaimSlot, Culprit(old(outcomes)))
      ensures old(Quiet()) && polls == 0 ==> Quiet() && signal == SpeechFailure
    {
      hide AllGood, DbInv;
      for n := 0 to polls
        invariant Valid() && BeforeDispatch()
        invariant old(arrivals) == [] ==> arrivals == [] && db == old(db) && token == old(token)
        invariant old(AtMostOneFault() && Accounted()) ==> AtMostOneFault() && Accounted()
        invariant old(Smooth(1)) ==> n == 0 && outcomes == old(outcomes)
        invariant old(Faulty(1)) ==>
          if n == 0 then outcomes == old(outcomes) else n == 1 && outcomes == [] && SlotBusy(Culprit(old(outcomes)))
      {
        var outcome := Await();
        match outcome {
          case Good =>
            slotHeld, hasLease := true, true;
            return Fine;
          case RunsOut =>
            slotHeld := true;
            var released := Await();
            slotHeld := !released.Good?;
            return if released.IsCancelled? then CancelledError
                   else if released.Unclassified? then Other else SpeechFailure;
          case IsCancelled => return CancelledError;
          case Unclassified => return Other;
          case _ =>
        }
      }
      signal := SpeechFailure;
    }

    /** `_mark_dispatching`. */
    method MarkDispatched() returns (signal: Signal)
      requires Valid() && !dispatched && !successCommitted && db.row.scan == Some(Clean) && hasLease
      modifies this
      ensures Valid() && !successCommitted && providerCalls == 0 && !providerFailed && hasLease
      ensures signal.Fine? <==> dispatched
      ensures old(Smooth(1)) && old(Holds()) && old(db.row.state) == Inspecting ==>
                Ahead(1) && Holds() && signal.Fine? && db.row == Written(old(db.row), MarkDispatching)
      ensures old(Faulty(1)) ==>
                && Quiet() && signal == Raised(MarkDispatch, Culprit(old(outcomes)))
                && db.row == old(db.row) && token == old(token)
    {
      var accepted;
      signal, accepted := RunDb(MarkDispatching, Finalize(FailedTerminal));
      if accepted {
        token, dispatched := token + 1, true;
      }
    }

    /** The provider is called once; a timeout is ambiguous, and only an error the provider
        itself classifies counts as its failure. */
    method CallProvider() returns (signal: Signal)
      requires Valid() && dispatched && !successCommitted && providerCalls == 0 && !providerFailed
      modifies this
      ensures Valid() && dispatched && !successCommitted && hasLease == old(hasLease)
      ensures signal.Fine? ==> providerResultReceived && providerCalls == 1
      ensures providerFailed <==> signal == SpeechFailure
      ensures old(arrivals) == [] ==> arrivals == [] && db == old(db) && token == old(token)
      ensures old(Smooth(2)) ==> Ahead(2) && signal.Fine?
      ensures old(Faulty(2)) ==>
                && Quiet()
                && signal == Raised(if old(|outcomes|) == 1 then ClockLook else ProviderCall,
                                    Culprit(old(outcomes)))
                && providerCalls == (if signal == AmbiguousError && old(|outcomes|) == 1 then 0 else 1)
    {
      hide AllGood, DbInv;
      var clock := Await();
      if clock.RunsOut? || clock.RanOut? {
        return AmbiguousError;
      }
      providerCalls := providerCalls + 1;
      var outcome := Await();
      match outcome {
        case Good =>
          providerResultReceived := true;
          signal := Fine;
        case IsCancelled => signal := CancelledError;
        case Classified =>
          providerFailed := true;
          ProviderFailureKeepsInv(db);
          signal := SpeechFailure;
        case Unclassified => signal := Other;
        case _ => signal := AmbiguousError;
      }
    }

    /** `_finalize`: a deadline and a lost lease both count as not finalized. */
    method FinalizeAs(to: RowState) returns (signal: Signal, accepted: bool)
      requires Valid() && Terminal(to)
      requires dispatched && to == FailedTerminal ==> providerFailed
      modifies this`db, this`arrivals, this`outcomes
      ensures Valid() && OnlyTimePassed()
      ensures old(arrivals) == [] ==> arrivals == []
      ensures old(outcomes) == [] ==> outcomes == []
      ensures accepted ==> signal.Fine? && CommittedFor(old(db.row), token, Finalize(to), db.row)
      ensures signal in {Fine, Other, CancelledError}
      ensures old(Smooth(1)) && Accepts(old(db.row), token, Finalize(to)) ==>
                accepted && Ahead(1) && db.row == Written(old(db.row), Finalize(to))
      ensures old(Faulty(1)) ==>
                && !accepted && Quiet() && db.row == old(db.row)
                && signal == (var s := Raised(Transit, Culprit(old(outcomes))); if s == DatabaseDeadline then Fine else s)
    {
      signal, accepted := RunDb(Finalize(to), Finalize(if to == Succeeded then Ambiguous else to));
      if signal == DatabaseDeadline || signal == LeaseState {
        signal := Fine;
      }
    }

    /** The `try` body as far as the upload. */
    method BeginUpload() returns (signal: Signal)
      requires Valid() && !dispatched && !successCommitted
      modifies this
      ensures Valid() && BeforeDispatch() && SlotUnchanged()
      ensures old(Smooth(3)) && old(Ready()) ==> Ahead(3) && signal.Fine? && MovedOn(Uploading)
      ensures old(Faulty(3)) && old(Ready()) ==> Quiet() && Holds() && StoppedAt(0, old(outcomes), signal, db.row)
    {
      hide Valid, AllGood;
      signal := Fine;
      :- PrepareTempDirectory();
      :- Checkpoint();
      signal := MoveTo(Uploading);
    }

    /** The upload, as far as the scan. */
    method FinishUpload() returns (signal: Signal)
      requires Valid() && !dispatched && !successCommitted
      modifies this
      ensures Valid() && BeforeDispatch() && SlotUnchanged()
      ensures old(Smooth(3)) && old(Stands(Uploading)) ==> Ahead(3) && signal.Fine? && MovedOn(Scanning)
      ensures old(Faulty(3)) && old(Stands(Uploading)) ==>
                Quiet() && Holds() && StoppedAt(3, old(outcomes), signal, db.row)
    {
      hide Valid, AllGood;
      signal := Fine;
      :- Upload();
      :- Checkpoint();
      signal := MoveTo(Scanning);
    }

    /** The `try` body as far as the verdict of the scanner. */
    method ReceiveAndScan() returns (signal: Signal)
      requires Valid() && !dispatched && !successCommitted
      modifies this
      ensures Valid() && BeforeDispatch() && SlotUnchanged()
      ensures signal.Fine? ==> db.row.scan == Some(Clean)
      ensures old(Smooth(8)) && old(Ready()) ==>
                Ahead(8) && signal == (if verdict == Clean then Fine else SpeechFailure) && Stands(Scanning)
      ensures old(Faulty(8)) && old(Ready()) ==> Quiet() && Holds() && StoppedAt(0, old(outcomes), signal, db.row)
    {
      hide Valid, AllGood;
      signal := Fine;
      :- BeginUpload();
      :- FinishUpload();
      signal := Scan();
    }

    /** From the scan to the inspected audio. */
    method InspectAudioFile() returns (signal: Signal)
      requires Valid() && !dispatched && !successCommitted
      modifies this
      ensures Valid() && BeforeDispatch() && SlotUnchanged()
      ensures old(Smooth(3)) && old(Stands(Scanning)) ==> Ahead(3) && signal.Fine? && MovedOn(Inspecting)
      ensures old(Faulty(3)) && old(Stands(Scanning)) ==>
                Quiet() && Holds() && StoppedAt(8, old(outcomes), signal, db.row)
    {
      hide Valid, AllGood;
      signal := Fine;
      :- Checkpoint();
      :- Inspect();
      signal := MoveTo(Inspecting);
    }

    /** From the inspection to the slot. */
    method AwaitSlot(polls: nat) returns (signal: Signal)
      requires Valid() && !dispatched && !successCommitted
      modifies this
      ensures Valid() && BeforeDispatch()
      ensures old(AtMostOneFault() && Accounted()) ==> Accounted()
      ensures signal.Fine? ==> slotHeld && hasLease
      ensures old(Smooth(3)) && old(Stands(Inspecting)) && polls > 0 ==>
                Ahead(3) && signal.Fine? && MovedOn(Inspecting)
      ensures old(Faulty(3)) && old(Stands(Inspecting)) && polls > 0 ==>
                && Quiet()
                && if old(|outcomes|) == 2 && SlotBusy(Culprit(old(outcomes))) && polls > 1
                   then signal.Fine? && MovedOn(Inspecting)
                   else Holds() && StoppedAt(11, old(outcomes), signal, db.row)
      ensures old(Quiet()) && old(Stands(Inspecting)) && polls == 0 ==>
                Quiet() && signal == SpeechFailure && MovedOn(Inspecting)
    {
      hide Valid, AllGood;
      signal := Fine;
      :- Checkpoint();
      :- ClaimAsrSlot(polls);
      signal := Checkpoint();
    }

    /** From the verdict of the scanner to the slot. */
    method InspectAndClaim(polls: nat) returns (signal: Signal)
      requires Valid() && !dispatched && !successCommitted && db.row.scan == Some(Clean)
      modifies this
      ensures Valid() && BeforeDispatch()
      ensures old(AtMostOneFault() && Accounted() && Stands(Scanning)) ==> Accounted()
      ensures signal.Fine? ==> slotHeld && hasLease
      ensures old(Smooth(6)) && old(Stands(Scanning)) && polls > 0 ==> Ahead(6) && signal.Fine? && MovedOn(Inspecting)
      ensures old(Faulty(6)) && old(Stands(Scanning)) && polls > 0 ==>
                && Quiet()
                && if old(|outcomes|) == 5 && SlotBusy(Culprit(old(outcomes))) && polls > 1
                   then signal.Fine? && MovedOn(Inspecting)
                   else Holds() && StoppedAt(8, old(outcomes), signal, db.row)
      ensures old(Quiet()) && old(Stands(Scanning)) && polls == 0 ==>
                Quiet() && signal == SpeechFailure && MovedOn(Inspecting)
    {
      hide Valid, AllGood;
      signal := Fine;
      :- InspectAudioFile();
      signal := AwaitSlot(polls);
    }

    /** The commit of the provider's answer. */
    method CommitSuccess() returns (signal: Signal)
      requires Valid() && dispatched && !successCommitted && providerResultReceived
      modifies this`db, this`arrivals, this`outcomes, this`successCommitted
      ensures Valid() && dispatched
      ensures signal.Fine? <==> successCommitted
      ensures signal != SpeechFailure
      ensures old(Smooth(1)) && old(Holds()) ==> Ahead(1) && signal.Fine?
      ensures old(Faulty(1)) ==>
                Quiet() && signal == Raised(CommitResult, Culprit(old(outcomes))) && db.row == old(db.row)
    {
      var accepted;
      signal, accepted := FinalizeAs(Succeeded);
      if signal.Fine? && !accepted {
        signal := ResultUnavailable;
      }
      if accepted {
        successCommitted := true;
      }
    }

    /** Dispatch, the provider's answer, and its commit. */
    method DispatchAndCommit() returns (signal: Signal)
      requires Valid() && !dispatched && !successCommitted && db.row.scan == Some(Clean) && hasLease
      modifies this
      ensures Valid() && hasLease
      ensures signal.Fine? <==> successCommitted
      ensures dispatched && signal == SpeechFailure ==> providerFailed
      ensures successCommitted ==> dispatched
      ensures old(Smooth(4)) && old(Stands(Inspecting)) ==> Ahead(4) && signal.Fine?
      ensures old(Faulty(4)) && old(Stands(Inspecting)) ==>
                && Quiet()
                && if old(|outcomes|) == 2 && !OutOfTime(Culprit(old(outcomes))) then signal.Fine?
                   else Holds() && StoppedAt(14, old(outcomes), signal, db.row)
                        && (dispatched <==> old(|outcomes|) > 1) && providerCalls == (if old(|outcomes|) > 2 then 1 else 0)
    {
      hide AllGood;
      signal := Fine;
      :- MarkDispatched();
      :- CallProvider();
      signal := CommitSuccess();
    }

    /** The `try` body. */
    method TryBody(polls: nat) returns (signal: Signal)
      requires Valid() && !dispatched && !successCommitted
      modifies this
      ensures Valid()
      ensures signal.Fine? <==> successCommitted
      ensures signal.Fine? ==> hasLease
      ensures old(AtMostOneFault() && Ready()) ==> Accounted()
      ensures dispatched && signal == SpeechFailure ==> providerFailed
      ensures successCommitted ==> dispatched
      ensures old(Smooth(18)) && old(Ready()) && verdict == Clean && polls > 0 ==> Ahead(18) && signal.Fine?
      ensures old(Faulty(18)) && old(Ready()) && verdict == Clean && polls > 0 ==>
                && Quiet()
                && if Harmless(old(outcomes), polls) then signal.Fine?
                   else Holds() && StoppedAt(0, old(outcomes), signal, db.row)
                        && (dispatched <==> old(|outcomes|) > 15) && providerCalls == (if old(|outcomes|) > 16 then 1 else 0)
      ensures old(Quiet()) && old(Ready()) && (verdict != Clean || polls == 0) ==>
                Quiet() && Holds() && signal == SpeechFailure && !dispatched && db.row.dispatchedAt.None?
    {
      hide Valid, AllGood;
      signal := Fine;
      :- ReceiveAndScan();
      :- InspectAndClaim(polls);
      signal := DispatchAndCommit();
    }

    /** The `except` clauses. */
    method Handle(caught: Signal) returns (signal: Signal)
      requires Valid() && !caught.Fine? && !successCommitted
      requires dispatched && caught == SpeechFailure ==> providerFailed
      modifies this`db, this`arrivals, this`outcomes
      ensures Valid() && OnlyTimePassed() && !signal.Fine?
      ensures old(arrivals) == [] ==> arrivals == []
      ensures old(outcomes) == [] ==> outcomes == []
      ensures old(Quiet()) && old(Holds()) && dispatched ==>
                db.row.state == match caught
                  case SpeechFailure => FailedTerminal
                  case DatabaseDeadline => old(db.row.state)
                  case ResultUnavailable => old(db.row.state)
                  case _ => Ambiguous
      ensures old(Quiet()) && old(Holds()) && old(db.row.dispatchedAt).None? && caught != AmbiguousError ==>
                db.row.state == match caught
                  case CancelledError => Cancelled
                  case DatabaseDeadline => old(db.row.state)
                  case ResultUnavailable => old(db.row.state)
                  case _ => FailedTerminal
      ensures old(Quiet()) && old(Holds())
              && (dispatched || (old(db.row.dispatchedAt).None? && caught != AmbiguousError)) ==>
                db.row.state in {Ambiguous, Cancelled, FailedTerminal} ==> signal == Reported(db.row.state)
    {
      var accepted;
      signal := caught;
      if caught == AmbiguousError {
        signal, accepted := FinalizeAs(Ambiguous);
        signal := if signal.Fine? then AmbiguousError else signal;
      } else if caught == CancelledError {
        signal, accepted := FinalizeAs(if dispatched then Ambiguous else Cancelled);
        signal := if !signal.Fine? then signal else if dispatched then AmbiguousError else CancelledError;
      } else if caught == SpeechFailure {
        signal, accepted := FinalizeAs(FailedTerminal);
        signal := if signal.Fine? then SpeechFailure else signal;
      } else if caught == LeaseState || caught == Other {
        signal, accepted := FinalizeAs(if dispatched then Ambiguous else FailedTerminal);
        signal := if !signal.Fine? then signal else if dispatched then AmbiguousError else SpeechFailure;
      }
    }

    /** A wait for the cleanup task that goes on however often the request is cancelled: what it comes
        to in the end, and whether it was cancelled meanwhile. */
    method Outlast() returns (outcome: Outcome, interrupted: bool)
      requires Valid()
      modifies this`db, this`arrivals, this`outcomes
      ensures Valid() && OnlyTimePassed() && !outcome.IsCancelled?
      ensures old(arrivals) == [] ==> arrivals == [] && db.row == old(db.row)
      ensures old(Smooth(1)) ==> Ahead(1) && outcome.Good? && !interrupted
      ensures old(Faulty(1)) ==> Quiet() && (interrupted || !outcome.Good?)
    {
      hide Valid;
      interrupted := false;
      outcome := Await();
      while outcome.IsCancelled?
        invariant Valid() && OnlyTimePassed()
        invariant old(arrivals) == [] ==> arrivals == [] && db.row == old(db.row)
        invariant old(Smooth(1)) ==> Ahead(1) && outcome.Good? && !interrupted
        invariant old(Faulty(1)) ==> Quiet() && (interrupted || !outcome.Good?)
        decreases if outcome.IsCancelled? then |outcomes| + 1 else 0
      {
        interrupted := true;
        outcome := Await();
      }
    }

    /** `_cleanup`: slot, then file; a failed or interrupted cleanup is an error of its own. A slot
        the request has no lease for stays claimed until it expires. */
    method Cleanup() returns (signal: Signal)
      requires Valid()
      modifies this`db, this`arrivals, this`outcomes, this`slotHeld, this`audioPresent
      ensures Valid() && Advanced(old(db.row), db.row)
      ensures signal.Fine? ==> (hasLease ==> !slotHeld) && !audioPresent
      ensures !hasLease ==> slotHeld == old(slotHeld)
      ensures old(Smooth(2)) ==> signal.Fine?
      ensures old(Faulty(2)) && hasLease ==> !signal.Fine?
      ensures old(arrivals) == [] ==> db.row == old(db.row)
    {
      hide AllGood, DbInv;
      var released, failed, interrupted := ReleaseLease();
      if failed {
        return SpeechFailure;
      }
      var removal, again := Outlast();
      if !removal.Good? {
        return SpeechFailure;
      }
      audioPresent := false;
      signal := if !released then SpeechFailure else if interrupted || again then CancelledError else Fine;
    }

    /** The slot release of the cleanup: it succeeds, says that it did not, or raises. */
    method ReleaseLease() returns (released: bool, failed: bool, interrupted: bool)
      requires Valid()
      modifies this`db, this`arrivals, this`outcomes, this`slotHeld
      ensures Valid() && Advanced(old(db.row), db.row)
      ensures released && hasLease ==> !slotHeld
      ensures !hasLease ==> slotHeld == old(slotHeld)
      ensures old(Smooth(1)) ==>
                released && !failed && !interrupted && if hasLease then Ahead(1) else outcomes == old(outcomes) && arrivals == []
      ensures old(Faulty(1)) && hasLease ==> Quiet() && (!released || failed || interrupted)
      ensures old(arrivals) == [] ==> arrivals == [] && db.row == old(db.row)
    {
      if !hasLease {
        return true, false, false;
      }
      var outcome;
      outcome, interrupted := Outlast();
      failed := outcome.Unclassified? || outcome.RanOut?;
      released := outcome.Good?;
      slotHeld := !released;
    }

    /** `execute`. A transcript is handed out only for a committed success with the slot given
        back and the audio removed. */
    method Execute(polls: nat) returns (transcript: bool, signal: Signal)
      requires Valid() && !dispatched && !successCommitted
      modifies this
      ensures Valid()
      ensures providerCalls <= 1
      ensures providerCalls == 1 ==> db.row.scan == Some(Clean) && db.row.dispatchedAt.Some?
      ensures transcript ==> db.row.state == Succeeded && !slotHeld && !audioPresent && providerCalls == 1
      ensures Honest(db.row, providerFailed)
      ensures old(Smooth(20)) && old(Ready()) && verdict == Clean && polls > 0 ==> transcript
      ensures old(Faulty(20)) && old(Ready()) && verdict == Clean && polls > 0 ==>
                && (transcript <==> Harmless(old(outcomes), polls))
                && db.row.state == FinalState(old(outcomes), polls)
                && (db.row.state in {Ambiguous, Cancelled, FailedTerminal} ==> signal == Reported(db.row.state))
                && providerCalls == (if old(|outcomes|) > 16 || Harmless(old(outcomes), polls) then 1 else 0)
                && (old(|outcomes|) <= 18 ==> !slotHeld && !audioPresent)
      ensures old(Quiet()) && old(Ready()) && (verdict != Clean || polls == 0) ==>
                !transcript && db.row.state == FailedTerminal && providerCalls == 0
    {
      hide AllGood;
      signal := TryBody(polls);
      if !signal.Fine? {
        HandledFinally(old(outcomes), polls, signal, db.row);
        signal := Handle(signal);
      }
      var cleaned := Cleanup();
      if !cleaned.Fine? {
        signal := cleaned;
      }
      transcript := signal.Fine?;
    }

    /** Whatever still arrives after `execute` has ended: its verdict stays honest, and a
        transcript that was handed out stays a success. */
    method Linger(late: seq<Arrival>)
      requires Valid()
      modifies this`db
      ensures Valid() && Honest(db.row, providerFailed)
      ensures Terminal(old(db.row.state)) ==> db.row.state == old(db.row.state)
    {
      LateWritesStayHonest(db, late, providerFailed);
      ArrivalsKeepInv(db, late, providerFailed);
      db := ArriveAll(db, late);
    }
  }

  // ---------------------------------------------------------------------
  // One step that goes wrong

  /** The awaited steps of an undisturbed request. */
  datatype Awaited =
    | TempDirectory
    | TimeAndPeer      // the business deadline and the disconnect probe
    | Transit          // a transition of the row
    | UploadBody | ScanAudio | RecordVerdict | InspectAudio | ClaimSlot | MarkDispatch
    | ClockLook | ProviderCall | CommitResult
    | ReleaseSlot | RemoveAudio

  function Course(): seq<Awaited> {
    [ TempDirectory, TimeAndPeer, Transit, UploadBody, TimeAndPeer, Transit, ScanAudio, RecordVerdict,
      TimeAndPeer, InspectAudio, Transit, TimeAndPeer, ClaimSlot, TimeAndPeer,
      MarkDispatch, ClockLook, ProviderCall, CommitResult, ReleaseSlot, RemoveAudio ]
  }

  predicate OutOfTime(o: Outcome) {
    o.RunsOut? || o.RanOut?
  }

  /** No slot this time: the request asks again. */
  predicate SlotBusy(o: Outcome) {
    o.RanOut? || o.Classified?
  }

  /** The exception that a step with this outcome ends in. */
  function Raised(step: Awaited, o: Outcome): Signal {
    if o.Good? then Fine else
    match step
    case TempDirectory => if o.IsCancelled? then CancelledError else Other
    case Transit =>
      if o.IsCancelled? then CancelledError else if OutOfTime(o) then DatabaseDeadline else Other
    case MarkDispatch =>
      if o.IsCancelled? then CancelledError else if OutOfTime(o) then DatabaseDeadline else Other
    case RecordVerdict =>
      if o.IsCancelled? then CancelledError else if OutOfTime(o) then DatabaseDeadline else SpeechFailure
    case ClaimSlot =>
      if o.IsCancelled? then CancelledError else if o.Unclassified? then Other else SpeechFailure
    case ClockLook => if OutOfTime(o) then AmbiguousError else Fine
    case ProviderCall =>
      if o.IsCancelled? then CancelledError
      else if o.Classified? then SpeechFailure
      else if o.Unclassified? then Other else AmbiguousError
    case CommitResult =>
      if o.IsCancelled? then CancelledError else if OutOfTime(o) then ResultUnavailable else Other
    case _ => if o.IsCancelled? then CancelledError else SpeechFailure
  }

  predicate OneFault(outcomes: seq<Outcome>) {
    outcomes != [] && !Culprit(outcomes).Good? && AllGood(outcomes[..|outcomes| - 1])
  }

  predicate AllGood(outcomes: seq<Outcome>) {
    forall k :: 0 <= k < |outcomes| ==> outcomes[k].Good?
  }

  function Culprit(outcomes: seq<Outcome>): Outcome
    requires outcomes != []
  {
    outcomes[|outcomes| - 1]
  }

  /** The state of the row while the `n`-th step of an undisturbed request is awaited. */
  function StandsAt(n: nat): RowState {
    if n <= 2 then Admitted else if n <= 5 then Uploading else if n <= 10 then Scanning
    else if n <= 14 then Inspecting else if n <= 17 then Dispatching else Succeeded
  }

  /** The request stopped at its faulty step, with that step's exception and the row as it stood. */
  predicate StoppedAt(base: nat, outcomes: seq<Outcome>, signal: Signal, row: Row) {
    && outcomes != [] && base + |outcomes| <= 18
    && var n := base + |outcomes| - 1;
       && signal == Raised(Course()[n], Culprit(outcomes)) && !signal.Fine?
       && row.state == StandsAt(n) && (row.dispatchedAt.Some? <==> n > 14)
  }

  /** A slot that is free at the next look, and a look at the clock, which cannot raise. */
  predicate Harmless(outcomes: seq<Outcome>, polls: nat)
    requires outcomes != []
  {
    || (|outcomes| == 13 && SlotBusy(Culprit(outcomes)) && polls > 1)
    || (|outcomes| == 16 && !OutOfTime(Culprit(outcomes)))
  }

  /** What becomes of the row of a request of which exactly one step goes wrong. It is left as it stood
      exactly for a database deadline and for a result that could not be committed in time. */
  function FinalState(outcomes: seq<Outcome>, polls: nat): RowState
    requires 0 < |outcomes| <= 20
  {
    var n, o := |outcomes| - 1, Culprit(outcomes);
    if n >= 18 || Harmless(outcomes, polls) then Succeeded
    else if OutOfTime(o) && Course()[n] in {Transit, RecordVerdict, MarkDispatch, CommitResult} then StandsAt(n)
    else if n <= 14 then (if o.IsCancelled? then Cancelled else FailedTerminal)
    else if n == 16 && o.Classified? then FailedTerminal
    else Ambiguous
  }

  /** The exception the caller sees goes with the verdict. */
  function Reported(state: RowState): Signal {
    match state
    case Ambiguous => AmbiguousError
    case Cancelled => CancelledError
    case _ => SpeechFailure
  }

  lemma HandledFinally(outcomes: seq<Outcome>, polls: nat, signal: Signal, row: Row)
    ensures StoppedAt(0, outcomes, signal, row) && !Harmless(outcomes, polls) ==>
              FinalState(outcomes, polls)
              == match signal
                 case DatabaseDeadline => row.state
                 case ResultUnavailable => row.state
                 case SpeechFailure => FailedTerminal
                 case CancelledError => if |outcomes| > 15 then Ambiguous else Cancelled
                 case _ => if |outcomes| > 15 then Ambiguous else FailedTerminal
    ensures StoppedAt(0, outcomes, signal, row) && |outcomes| <= 15 ==> signal != AmbiguousError
  {
  }

  predicate UsedUp(before: seq<Outcome>, after: seq<Outcome>, steps: nat) {
    if |before| <= steps then after == []
    else |after| == |before| - steps && OneFault(after) && Culprit(after) == Culprit(before)
  }

  /** A freshly admitted request. */
  predicate Admissible(row: Row) {
    row.state == Admitted && row.leased && row.scan.None? && row.dispatchedAt.None?
  }

  /** The write committed for this token at some moment between two rows. */
  ghost predicate CommittedFor(before: Row, token: nat, w: Write, after: Row) {
    exists row :: Advanced(before, row) && CommittedAt(row, token, w, after)
  }

  ghost predicate CommittedAt(row: Row, token: nat, w: Write, after: Row) {
    && Accepts(row, token, w) && Advanced(Written(row, w), after)
    && (row.dispatchedAt.Some? ==> row.state == Dispatching || Terminal(row.state))
  }

  lemma CommittedSince(earlier: Row, before: Row, token: nat, w: Write, after: Row)
    requires Advanced(earlier, before) && CommittedFor(before, token, w, after)
    ensures CommittedFor(earlier, token, w, after)
  {
    var row :| Advanced(before, row) && CommittedAt(row, token, w, after);
    assert Advanced(earlier, row);
  }

  lemma ProviderFailureKeepsInv(db: Db)
    requires DbInv(db, false)
    ensures DbInv(db, true)
  {
  }
}

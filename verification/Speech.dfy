/** The request row of a transcription, the writes it accepts, and the writes of abandoned
    worker threads that may still arrive (agent-server/focusproof/persistence/repositories.py:1719-1927,
    agent-server/focusproof/speech_application.py:404-480). */
module Speech {
  import opened Basics

  datatype RowState =
    | Admitted | Uploading | Scanning | Inspecting | Dispatching
    | Succeeded | Cancelled | FailedTerminal | Ambiguous

  datatype ScanStatus = Clean | Malicious | Oversize | ScanTimeout | ScanError

  /** `dispatchedAt` is the generation that dispatching produced; `scan` is the audit record. */
  datatype Row = Row(
    state: RowState, generation: nat, leased: bool, dispatchedAt: Option<nat>, scan: Option<ScanStatus>)

  datatype Write =
    | Transition(to: RowState)
    | MarkDispatching
    | Finalize(to: RowState)
    | RecordScan(status: ScanStatus)

  function NextState(state: RowState): Option<RowState> {
    match state
    case Admitted => Some(Uploading)
    case Uploading => Some(Scanning)
    case Scanning => Some(Inspecting)
    case _ => None
  }

  predicate Terminal(state: RowState) {
    state in {Succeeded, Cancelled, FailedTerminal, Ambiguous}
  }

  /** The row is still the one the token was issued for. */
  predicate Matches(row: Row, token: nat) {
    row.leased && row.generation == token
  }

  predicate Accepts(row: Row, token: nat, w: Write) {
    match w
    case Transition(to) => Matches(row, token) && NextState(row.state) == Some(to)
    case MarkDispatching => Matches(row, token) && row.state == Inspecting
    case Finalize(to) =>
      && Matches(row, token) && Terminal(to)
      && (to == Succeeded || to == Ambiguous ==> row.dispatchedAt.Some?)
      && (to == Cancelled ==> row.dispatchedAt.None?)
    case RecordScan(_) => row.scan.None?
  }

  function Written(row: Row, w: Write): Row {
    match w
    case Transition(to) => row.(state := to, generation := row.generation + 1)
    case MarkDispatching =>
      row.(state := Dispatching, generation := row.generation + 1, dispatchedAt := Some(row.generation + 1))
    case Finalize(to) => row.(state := to, generation := row.generation + 1, leased := false)
    case RecordScan(status) => row.(scan := Some(status))
  }

  /** A worker that was abandoned: one of its writes may commit yet, or none. */
  datatype Late = Late(token: nat, choices: set<Write>)

  datatype Db = Db(row: Row, pending: seq<Late>)

  /** What can happen to the row behind the back of the request. */
  datatype Arrival =
    | Lands(n: nat, write: Write)
    | LeaseExpires

  function Arrive(db: Db, arrival: Arrival): Db {
    match arrival
    case Lands(n, w) =>
      if n < |db.pending| && w in db.pending[n].choices && Accepts(db.row, db.pending[n].token, w)
      then Db(Written(db.row, w), db.pending[..n] + db.pending[n + 1..]) else db
    case LeaseExpires =>
      if db.row.leased
      then db.(row := Written(db.row, Finalize(if db.row.dispatchedAt.Some? then Ambiguous else FailedTerminal)))
      else db
  }

  function ArriveAll(db: Db, arrivals: seq<Arrival>): Db
    decreases |arrivals|
  {
    if arrivals == [] then db else ArriveAll(Arrive(db, arrivals[0]), arrivals[1..])
  }

  /** The verdicts a dispatched request must not get: never cancelled, and failed only when the
      provider itself reported a failure. */
  predicate Honest(row: Row, providerFailed: bool) {
    row.dispatchedAt.Some? ==> row.state != Cancelled && (row.state == FailedTerminal ==> providerFailed)
  }

  /** A late write for a token of the dispatched generation is honest too. */
  predicate HonestLate(row: Row, late: Late, providerFailed: bool) {
    && late.token <= row.generation
    && (row.dispatchedAt.Some? && row.dispatchedAt.value <= late.token ==>
          Finalize(FailedTerminal) in late.choices ==> providerFailed)
  }

  ghost predicate DbInv(db: Db, providerFailed: bool) {
    && Honest(db.row, providerFailed)
    && (db.row.dispatchedAt.Some? ==>
          && db.row.dispatchedAt.value <= db.row.generation
          && (db.row.state == Dispatching || Terminal(db.row.state)))
    && (Terminal(db.row.state) <==> !db.row.leased)
    && (forall late <- db.pending :: HonestLate(db.row, late, providerFailed))
  }

  /** How a row may change over time, for whoever still holds an old token to it. */
  predicate Advanced(row: Row, row': Row) {
    && row.generation <= row'.generation
    && (row.dispatchedAt.Some? ==> row'.dispatchedAt == row.dispatchedAt)
    && (row.dispatchedAt.None? && row'.dispatchedAt.Some? ==> row.generation < row'.dispatchedAt.value)
    && (row.scan.Some? ==> row'.scan == row.scan)
    && (!row.leased ==> row' == row.(scan := row'.scan))
  }

  lemma ArrivalKeepsInv(db: Db, arrival: Arrival, providerFailed: bool)
    requires DbInv(db, providerFailed)
    ensures DbInv(Arrive(db, arrival), providerFailed)
    ensures Advanced(db.row, Arrive(db, arrival).row)
  {
    var db' := Arrive(db, arrival);
    if arrival.Lands? && arrival.n < |db.pending| {
      var late := db.pending[arrival.n];
      assert late in db.pending;
      if arrival.write in late.choices && Accepts(db.row, late.token, arrival.write) {
        WriteKeepsLates(db.row, late.token, arrival.write, providerFailed, db.pending);
        forall l | l in db'.pending ensures HonestLate(db'.row, l, providerFailed) {
          assert l in db.pending;
        }
      }
    } else if arrival.LeaseExpires? && db.row.leased {
      var w := Finalize(if db.row.dispatchedAt.Some? then Ambiguous else FailedTerminal);
      WriteKeepsLates(db.row, db.row.generation, w, providerFailed, db.pending);
    }
  }

  /** An accepted write that is honest itself keeps everything honest. */
  lemma WriteKeepsLates(row: Row, token: nat, w: Write, providerFailed: bool, pending: seq<Late>)
    requires DbInv(Db(row, pending), providerFailed)
    requires Accepts(row, token, w)
    requires w == Finalize(FailedTerminal) && row.dispatchedAt.Some? ==> providerFailed
    ensures DbInv(Db(Written(row, w), pending), providerFailed)
    ensures Advanced(row, Written(row, w))
  {
  }

  lemma {:induction false} ArrivalsKeepInv(db: Db, arrivals: seq<Arrival>, providerFailed: bool)
    requires DbInv(db, providerFailed)
    ensures DbInv(ArriveAll(db, arrivals), providerFailed)
    ensures Advanced(db.row, ArriveAll(db, arrivals).row)
    decreases |arrivals|
  {
    if arrivals != [] {
      ArrivalKeepsInv(db, arrivals[0], providerFailed);
      ArrivalsKeepInv(Arrive(db, arrivals[0]), arrivals[1..], providerFailed);
    }
  }

  /** Main result about the row: whatever arrives late, a dispatched request is never cancelled
      and fails only for the provider's own failure, and a verdict once given stays. */
  lemma LateWritesStayHonest(db: Db, arrivals: seq<Arrival>, providerFailed: bool)
    requires DbInv(db, providerFailed)
    ensures Honest(ArriveAll(db, arrivals).row, providerFailed)
    ensures Terminal(db.row.state) ==> ArriveAll(db, arrivals).row.state == db.row.state
  {
    ArrivalsKeepInv(db, arrivals, providerFailed);
  }
}

/** The durable job store: one table of requests, a unique index on the idempotency key and an
    append-only event log. Every public method is one SQLite transaction, so it either commits
    completely or, when the database raises, changes nothing. */
module JobStore {
  import opened Outcomes
  import opened Codes
  import opened StateMachine

  datatype ReviewRequest = ReviewRequest(
    requestId: string,
    idempotencyKey: string,
    projectId: string,
    triggerIntent: string,
    targetFile: string,
    diffText: string)

  datatype Row = Row(request: ReviewRequest, state: ReviewState)

  datatype Event =
    | Requested(state: ReviewState)
    | StateChanged(from: ReviewState, to: ReviewState, code: Code)
    | Terminal(final: ReviewState, code: Code)
    | DuplicateIgnored(duplicateId: string, key: string, existing: ReviewState)
    | Stage(stage: string, phase: string, step: ProgressCode)
  {
    /** Whether the event records the creation or a change of the state column. */
    predicate Lifecycle() {
      Requested? || StateChanged? || Terminal?
    }
  }

  /** One row of review_events; its autoincrement id is its position in the log. */
  datatype LogEntry = LogEntry(requestId: string, event: Event)

  datatype Store = Store(
    rows: map<string, Row>,
    keyIndex: map<string, string>,
    log: seq<LogEntry>)

  const EMPTY_STORE := Store(map[], map[], [])

  datatype JobCreationOutcome = JobCreationOutcome(
    created: bool, duplicate: bool, existingState: Option<ReviewState>)

  // ----- what each transaction does to the tables -----

  function Append(s: Store, id: string, event: Event): Store {
    s.(log := s.log + [LogEntry(id, event)])
  }

  function SetState(s: Store, id: string, state: ReviewState): Store
    requires id in s.rows
  {
    s.(rows := s.rows[id := s.rows[id].(state := state)])
  }

  /** INSERT OR IGNORE is refused by the primary key or by the unique idempotency key. */
  predicate Refused(s: Store, request: ReviewRequest) {
    request.requestId in s.rows || request.idempotencyKey in s.keyIndex
  }

  function Create(s: Store, request: ReviewRequest): (Store, JobCreationOutcome) {
    if Refused(s, request) then
      if request.idempotencyKey in s.keyIndex && s.keyIndex[request.idempotencyKey] in s.rows then
        var id := s.keyIndex[request.idempotencyKey];
        var existing := s.rows[id].state;
        (Append(s, id, DuplicateIgnored(request.requestId, request.idempotencyKey, existing)),
         JobCreationOutcome(false, true, Some(existing)))
      else
        (s, JobCreationOutcome(false, true, None))
    else
      var inserted := s.(
        rows := s.rows[request.requestId := Row(request, Queued)],
        keyIndex := s.keyIndex[request.idempotencyKey := request.requestId]);
      (Append(inserted, request.requestId, Requested(Queued)),
       JobCreationOutcome(true, false, Some(Queued)))
  }

  // The exceptions' messages are kept up to the state names and the quotes they add.

  const INVALID_TRANSITION := Error(ValueKind, "invalid state transition")

  const STATE_MISMATCH := Error(ValueKind, "current state mismatch")

  function UnknownRequest(id: string): Error {
    Error(KeyKind, id)
  }

  /** A compare-and-swap on the state column, guarded by the transition table. */
  function Transition(s: Store, id: string, from: ReviewState, to: ReviewState, code: Code): (Store, Outcome<Unit>) {
    if !CanTransition(from, to) then (s, Raise(INVALID_TRANSITION))
    else if id !in s.rows then (s, Raise(UnknownRequest(id)))
    else if s.rows[id].state != from then (s, Raise(STATE_MISMATCH))
    else (Append(SetState(s, id, to), id, StateChanged(from, to, code)), Ok(Unit))
  }

  /** An unconditional write of the state column. */
  function Mark(s: Store, id: string, final: ReviewState, code: Code): (Store, Outcome<Unit>) {
    if id !in s.rows then (s, Raise(UnknownRequest(id)))
    else (Append(SetState(s, id, final), id, Terminal(final, code)), Ok(Unit))
  }

  /** A transaction whose database call raises rolls back. */
  function Guarded<T>(s: Store, fault: Option<Error>, done: (Store, Outcome<T>)): (Store, Outcome<T>) {
    if fault.Some? then (s, Raise(fault.value)) else done
  }

  /** The table is consulted before the database is opened. */
  function TransitionGuarded(s: Store, id: string, from: ReviewState, to: ReviewState, code: Code, fault: Option<Error>)
    : (Store, Outcome<Unit>)
  {
    if CanTransition(from, to) then Guarded(s, fault, Transition(s, id, from, to, code))
    else (s, Raise(INVALID_TRANSITION))
  }

  function CreateGuarded(s: Store, request: ReviewRequest, fault: Option<Error>): (Store, Outcome<JobCreationOutcome>) {
    Guarded(s, fault, (Create(s, request).0, Ok(Create(s, request).1)))
  }

  function MarkGuarded(s: Store, id: string, final: ReviewState, code: Code, fault: Option<Error>)
    : (Store, Outcome<Unit>)
  {
    Guarded(s, fault, Mark(s, id, final, code))
  }

  function AppendGuarded(s: Store, id: string, event: Event, fault: Option<Error>): (Store, Outcome<Unit>) {
    Guarded(s, fault, (Append(s, id, event), Ok(Unit)))
  }

  predicate Recoverable(state: ReviewState) {
    state in {Queued, ContextReady, Analyzing, ReviewState.PatchProposed}
  }

  // ----- the store as the orchestrator holds it -----

  class SqliteJobStore {
    var rows: map<string, Row>
    var keyIndex: map<string, string>
    var log: seq<LogEntry>

    constructor ()
      ensures View() == EMPTY_STORE
    {
      rows, keyIndex, log := map[], map[], [];
    }

    ghost function View(): Store
      reads this
    {
      Store(rows, keyIndex, log)
    }

    method CreateRequest(request: ReviewRequest, fault: Option<Error>) returns (r: Outcome<JobCreationOutcome>)
      modifies this
      ensures (View(), r) == CreateGuarded(old(View()), request, fault)
    {
      if fault.Some? {
        return Raise(fault.value);
      }
      if request.requestId in rows || request.idempotencyKey in keyIndex {
        var existing: Option<ReviewState> := None;
        if request.idempotencyKey in keyIndex {
          var id := keyIndex[request.idempotencyKey];
          if id in rows {
            existing := Some(rows[id].state);
            log := log + [LogEntry(id, DuplicateIgnored(request.requestId, request.idempotencyKey, rows[id].state))];
          }
        }
        return Ok(JobCreationOutcome(false, true, existing));
      }
      rows := rows[request.requestId := Row(request, Queued)];
      keyIndex := keyIndex[request.idempotencyKey := request.requestId];
      log := log + [LogEntry(request.requestId, Requested(Queued))];
      return Ok(JobCreationOutcome(true, false, Some(Queued)));
    }

    method TransitionState(id: string, from: ReviewState, to: ReviewState, code: Code, fault: Option<Error>)
      returns (r: Outcome<Unit>)
      modifies this
      ensures (View(), r) == TransitionGuarded(old(View()), id, from, to, code, fault)
    {
      if !CanTransition(from, to) {
        return Raise(INVALID_TRANSITION);
      }
      if fault.Some? {
        return Raise(fault.value);
      }
      if id !in rows {
        return Raise(UnknownRequest(id));
      }
      if rows[id].state != from {
        return Raise(STATE_MISMATCH);
      }
      rows := rows[id := rows[id].(state := to)];
      log := log + [LogEntry(id, StateChanged(from, to, code))];
      return Ok(Unit);
    }

    method MarkTerminal(id: string, final: ReviewState, code: Code, fault: Option<Error>) returns (r: Outcome<Unit>)
      modifies this
      ensures (View(), r) == MarkGuarded(old(View()), id, final, code, fault)
    {
      if fault.Some? {
        return Raise(fault.value);
      }
      if id !in rows {
        return Raise(UnknownRequest(id));
      }
      rows := rows[id := rows[id].(state := final)];
      log := log + [LogEntry(id, Terminal(final, code))];
      return Ok(Unit);
    }

    method AppendEvent(id: string, event: Event, fault: Option<Error>) returns (r: Outcome<Unit>)
      modifies this
      ensures (View(), r) == AppendGuarded(old(View()), id, event, fault)
    {
      if fault.Some? {
        return Raise(fault.value);
      }
      log := log + [LogEntry(id, event)];
      return Ok(Unit);
    }

    /** The requests whose review was cut short in a state the store knows how to restart. */
    method ListRecoverableJobs() returns (jobs: set<ReviewRequest>)
      ensures forall job :: job in jobs <==>
                exists id :: id in rows && rows[id].request == job
                  && rows[id].state in {Queued, ContextReady, Analyzing, ReviewState.PatchProposed}
    {
      jobs := {};
      var pending := rows.Keys;
      while pending != {}
        invariant pending <= rows.Keys
        invariant forall id :: id in rows && id !in pending && Recoverable(rows[id].state) ==> rows[id].request in jobs
        invariant forall job :: job in jobs ==>
                    exists id :: id in rows && Recoverable(rows[id].state) && rows[id].request == job
        decreases pending
      {
        var id :| id in pending;
        if Recoverable(rows[id].state) {
          jobs := jobs + {rows[id].request};
        }
        pending := pending - {id};
      }
    }
  }
}

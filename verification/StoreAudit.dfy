/** What the event log proves about the state column, over every sequence of store transactions. */
module StoreAudit {
  import opened Codes
  import opened Outcomes
  import opened StateMachine
  import opened JobStore

  // ----- replaying the log of one request -----

  datatype Replayed = Absent | At(state: ReviewState) | Broken

  /** The effect of one event on a replay; an event that could not have happened breaks it. */
  function ReplayStep(before: Replayed, event: Event): Replayed {
    match event
    case Requested(state) => if before.Absent? && state == Queued then At(Queued) else Broken
    case StateChanged(from, to, _) => if before == At(from) && CanTransition(from, to) then At(to) else Broken
    case Terminal(final, _) => if before.At? then At(final) else Broken
    case DuplicateIgnored(_, _, _) => before
    case Stage(_, _, _) => before
  }

  function Replay(log: seq<LogEntry>, id: string): Replayed {
    if log == [] then Absent
    else
      var before := Replay(log[..|log| - 1], id);
      var last := log[|log| - 1];
      if last.requestId == id then ReplayStep(before, last.event) else before
  }

  lemma ReplayAppend(log: seq<LogEntry>, entry: LogEntry, id: string)
    ensures Replay(log + [entry], id)
         == if entry.requestId == id then ReplayStep(Replay(log, id), entry.event) else Replay(log, id)
  {
    assert (log + [entry])[..|log + [entry]| - 1] == log;
  }

  lemma {:induction false} BrokenStaysBroken(log: seq<LogEntry>, id: string, n: nat)
    requires n <= |log| && Replay(log, id) != Broken
    ensures Replay(log[..n], id) != Broken
  {
    if n < |log| {
      var init := log[..|log| - 1];
      BrokenStaysBroken(init, id, n);
      assert init[..n] == log[..n];
    } else {
      assert log[..n] == log;
    }
  }

  // ----- the invariant of the store -----

  predicate Indexed(s: Store) {
    && (forall id :: id in s.rows ==>
          && s.rows[id].request.requestId == id
          && s.rows[id].request.idempotencyKey in s.keyIndex
          && s.keyIndex[s.rows[id].request.idempotencyKey] == id)
    && (forall key :: key in s.keyIndex ==>
          s.keyIndex[key] in s.rows && s.rows[s.keyIndex[key]].request.idempotencyKey == key)
  }

  function ColumnOf(s: Store, id: string): Replayed {
    if id in s.rows then At(s.rows[id].state) else Absent
  }

  ghost predicate Audited(s: Store) {
    forall id :: Replay(s.log, id) == ColumnOf(s, id)
  }

  ghost predicate Sound(s: Store) {
    Indexed(s) && Audited(s)
  }

  lemma CreateSound(s: Store, request: ReviewRequest)
    requires Sound(s)
    ensures Sound(Create(s, request).0)
    ensures var o := Create(s, request).1;
            o.created <==> forall id :: id in s.rows ==>
              id != request.requestId && s.rows[id].request.idempotencyKey != request.idempotencyKey
  {
    var t := Create(s, request).0;
    if t != s {
      forall id
        ensures Replay(t.log, id) == ColumnOf(t, id)
      {
        ReplayAppend(s.log, t.log[|s.log|], id);
      }
    }
  }

  lemma TransitionSound(s: Store, id: string, from: ReviewState, to: ReviewState, code: Code)
    requires Sound(s)
    ensures Sound(Transition(s, id, from, to, code).0)
  {
    var t := Transition(s, id, from, to, code).0;
    if t != s {
      forall other
        ensures Replay(t.log, other) == ColumnOf(t, other)
      {
        ReplayAppend(s.log, t.log[|s.log|], other);
      }
    }
  }

  lemma MarkSound(s: Store, id: string, final: ReviewState, code: Code)
    requires Sound(s)
    ensures Sound(Mark(s, id, final, code).0)
  {
    var t := Mark(s, id, final, code).0;
    if t != s {
      forall other
        ensures Replay(t.log, other) == ColumnOf(t, other)
      {
        ReplayAppend(s.log, t.log[|s.log|], other);
      }
    }
  }

  // ----- what each transaction answers and changes, in terms of the rows -----

  predicate SameKey(s: Store, id: string, request: ReviewRequest) {
    id in s.rows && s.rows[id].request.idempotencyKey == request.idempotencyKey
  }

  /** A request is stored exactly when no row has its id or its key. A duplicate changes no row; the row that has its
      key, if any, is the one whose state is answered and whose log notes it. */
  lemma CreateIff(s: Store, request: ReviewRequest)
    requires Indexed(s)
    ensures var (t, o) := Create(s, request);
            && (o.created <==> request.requestId !in s.rows && forall id :: !SameKey(s, id, request))
            && o.duplicate == !o.created
            && (o.created ==>
                  && t.rows == s.rows[request.requestId := Row(request, Queued)] && o.existingState == Some(Queued)
                  && t.log == s.log + [LogEntry(request.requestId, Requested(Queued))])
            && (!o.created ==> t.rows == s.rows)
            && (forall id :: SameKey(s, id, request) ==>
                  && o.existingState == Some(s.rows[id].state)
                  && t.log == s.log + [LogEntry(id, DuplicateIgnored(request.requestId, request.idempotencyKey,
                                                                     s.rows[id].state))])
            && (!o.created && (forall id :: !SameKey(s, id, request)) ==> o.existingState == None && t == s)
  {
    if request.idempotencyKey in s.keyIndex {
      assert SameKey(s, s.keyIndex[request.idempotencyKey], request);
    }
  }

  /** A transition succeeds exactly when the table allows it and the row is in the state it starts from. Then that row
      and the log change; otherwise nothing does, and the error says why. */
  lemma TransitionIff(s: Store, id: string, from: ReviewState, to: ReviewState, code: Code)
    ensures var (t, r) := Transition(s, id, from, to, code);
            && (r.Ok? <==> CanTransition(from, to) && id in s.rows && s.rows[id].state == from)
            && (r.Ok? ==>
                  && t.rows == s.rows[id := Row(s.rows[id].request, to)] && t.keyIndex == s.keyIndex
                  && t.log == s.log + [LogEntry(id, StateChanged(from, to, code))])
            && (r.Raise? ==>
                  t == s && r.error.kind == if CanTransition(from, to) && id !in s.rows then KeyKind else ValueKind)
  {
  }

  /** A mark needs the row only. */
  lemma MarkIff(s: Store, id: string, final: ReviewState, code: Code)
    ensures var (t, r) := Mark(s, id, final, code);
            && (r.Ok? <==> id in s.rows)
            && (r.Ok? ==>
                  && t.rows == s.rows[id := Row(s.rows[id].request, final)] && t.keyIndex == s.keyIndex
                  && t.log == s.log + [LogEntry(id, Terminal(final, code))])
            && (r.Raise? ==> t == s && r.error.kind.KeyKind?)
  {
  }

  /** The event is not a lifecycle event, or repeats the terminal state the row already has. */
  predicate Fits(s: Store, id: string, event: Event) {
    event.Lifecycle() ==> event.Terminal? && id in s.rows && s.rows[id].state == event.final
  }

  /** `append_event` is public and unchecked: it keeps the log auditable exactly when the event fits. */
  lemma AppendSoundIff(s: Store, id: string, event: Event)
    requires Sound(s)
    ensures Sound(Append(s, id, event)) <==> Fits(s, id, event)
  {
    var t := Append(s, id, event);
    assert Indexed(t);
    forall other
      ensures Replay(t.log, other)
           == if other == id then ReplayStep(ColumnOf(s, id), event) else ColumnOf(t, other)
    {
      ReplayAppend(s.log, LogEntry(id, event), other);
    }
    assert Audited(t) <==> ReplayStep(ColumnOf(s, id), event) == ColumnOf(t, id) by {
      assert Audited(t) ==> Replay(t.log, id) == ColumnOf(t, id);
    }
  }

  // ----- every run -----

  /** The transactions that any number of threads issue, in commit order. */
  datatype Op =
    | CreateOp(request: ReviewRequest)
    | TransitionOp(id: string, from: ReviewState, to: ReviewState, code: Code)
    | MarkOp(id: string, final: ReviewState, code: Code)
    | AppendOp(id: string, event: Event)

  function Commit(s: Store, op: Op): Store {
    match op
    case CreateOp(request) => Create(s, request).0
    case TransitionOp(id, from, to, code) => Transition(s, id, from, to, code).0
    case MarkOp(id, final, code) => Mark(s, id, final, code).0
    case AppendOp(id, event) => Append(s, id, event)
  }

  function RunFrom(s: Store, ops: seq<Op>): Store {
    if ops == [] then s else Commit(RunFrom(s, ops[..|ops| - 1]), ops[|ops| - 1])
  }

  function Run(ops: seq<Op>): Store {
    RunFrom(EMPTY_STORE, ops)
  }

  /** Every appended event fits the store it is appended to. */
  ghost predicate AppendsFit(ops: seq<Op>) {
    forall n :: 0 <= n < |ops| && ops[n].AppendOp? ==> Fits(Run(ops[..n]), ops[n].id, ops[n].event)
  }

  /** As it does in every run of orchestrators, which append nothing but progress events. */
  lemma StagesFit(ops: seq<Op>)
    requires forall op :: op in ops && op.AppendOp? ==> op.event.Stage?
    ensures AppendsFit(ops)
  {
    assert forall n :: 0 <= n < |ops| ==> ops[n] in ops;
  }

  lemma AppendsFitInPrefix(ops: seq<Op>, n: nat)
    requires n <= |ops| && AppendsFit(ops)
    ensures AppendsFit(ops[..n])
  {
    assert forall k :: 0 <= k < n ==> ops[..n][k] == ops[k] && ops[..n][..k] == ops[..k];
  }

  lemma CommitSoundIff(s: Store, op: Op)
    requires Sound(s)
    ensures Sound(Commit(s, op)) <==> (op.AppendOp? ==> Fits(s, op.id, op.event))
  {
    match op
    case CreateOp(request) => CreateSound(s, request);
    case TransitionOp(id, from, to, code) => TransitionSound(s, id, from, to, code);
    case MarkOp(id, final, code) => MarkSound(s, id, final, code);
    case AppendOp(id, event) => AppendSoundIff(s, id, event);
  }

  lemma {:induction false} EveryRunIsSound(ops: seq<Op>)
    requires AppendsFit(ops)
    ensures Sound(Run(ops))
  {
    if ops != [] {
      var n := |ops| - 1;
      AppendsFitInPrefix(ops, n);
      EveryRunIsSound(ops[..n]);
      CommitSoundIff(Run(ops[..n]), ops[n]);
    }
  }

  lemma RunOfNext(ops: seq<Op>, n: nat)
    requires n < |ops|
    ensures Run(ops[..n + 1]) == Commit(Run(ops[..n]), ops[n])
  {
    assert ops[..n + 1][..n] == ops[..n];
  }

  /** Over every sequence of operations, the log can be replayed at every point exactly when every appended event
      fits. */
  lemma EveryRunIsSoundIff(ops: seq<Op>)
    ensures (forall n :: 0 <= n <= |ops| ==> Sound(Run(ops[..n]))) <==> AppendsFit(ops)
  {
    if AppendsFit(ops) {
      forall n | 0 <= n <= |ops|
        ensures Sound(Run(ops[..n]))
      {
        AppendsFitInPrefix(ops, n);
        EveryRunIsSound(ops[..n]);
      }
    }
    if forall n :: 0 <= n <= |ops| ==> Sound(Run(ops[..n])) {
      forall n | 0 <= n < |ops| && ops[n].AppendOp?
        ensures Fits(Run(ops[..n]), ops[n].id, ops[n].event)
      {
        RunOfNext(ops, n);
        assert Sound(Run(ops[..n + 1]));
        CommitSoundIff(Run(ops[..n]), ops[n]);
      }
    }
  }

  /** In every reachable store the log replays to the state column, and every recorded change starts
      from the state replayed just before it and is a move of the table. */
  lemma LogReplaysToColumn(ops: seq<Op>, id: string)
    requires AppendsFit(ops)
    ensures var s := Run(ops);
            Replay(s.log, id) == ColumnOf(s, id)
    ensures var log := Run(ops).log;
            forall i :: 0 <= i < |log| && log[i].requestId == id && log[i].event.StateChanged? ==>
              && Replay(log[..i], id) == At(log[i].event.from)
              && CanTransition(log[i].event.from, log[i].event.to)
  {
    EveryRunIsSound(ops);
    var log := Run(ops).log;
    assert Replay(log, id) == ColumnOf(Run(ops), id);
    forall i | 0 <= i < |log| && log[i].requestId == id && log[i].event.StateChanged?
      ensures Replay(log[..i], id) == At(log[i].event.from)
      ensures CanTransition(log[i].event.from, log[i].event.to)
    {
      BrokenStaysBroken(log, id, i + 1);
      ReplayAppend(log[..i], log[i], id);
      assert log[..i + 1] == log[..i] + [log[i]];
    }
  }

  // ----- how often a job can move before it is first marked -----

  predicate Unmarked(log: seq<LogEntry>, id: string) {
    forall i :: 0 <= i < |log| && log[i].requestId == id ==> !log[i].event.Terminal?
  }

  /** The successful table moves of one request, in log order. */
  function Moves(log: seq<LogEntry>, id: string): seq<Event> {
    if log == [] then []
    else
      var init := Moves(log[..|log| - 1], id);
      var last := log[|log| - 1];
      if last.requestId == id && last.event.StateChanged? then init + [last.event] else init
  }

  /** The states one request went through: Queued, then the target of each successful move. */
  function Visited(log: seq<LogEntry>, id: string): seq<ReviewState> {
    if log == [] then [Queued]
    else
      var init := Visited(log[..|log| - 1], id);
      var last := log[|log| - 1];
      if last.requestId == id && last.event.StateChanged? then init + [last.event.to] else init
  }

  /** The moves lead from each state of the path to the next. */
  ghost predicate Along(moves: seq<Event>, path: seq<ReviewState>) {
    && |path| == |moves| + 1
    && IsPath(path)
    && forall i :: 0 <= i < |moves| ==> moves[i].StateChanged? && moves[i].from == path[i] && moves[i].to == path[i + 1]
  }

  lemma AlongExtended(moves: seq<Event>, path: seq<ReviewState>, move: Event)
    requires Along(moves, path)
    requires move.StateChanged? && move.from == path[|path| - 1] && CanTransition(move.from, move.to)
    ensures Along(moves + [move], path + [move.to])
  {
  }

  lemma {:induction false} MovesFormAPath(log: seq<LogEntry>, id: string)
    requires Unmarked(log, id) && Replay(log, id) != Broken
    ensures Along(Moves(log, id), Visited(log, id))
    ensures match Replay(log, id)
            case At(state) => Visited(log, id)[|Visited(log, id)| - 1] == state
            case _ => Visited(log, id) == [Queued]
  {
    if log != [] {
      var init, last := log[..|log| - 1], log[|log| - 1];
      BrokenStaysBroken(log, id, |log| - 1);
      assert Unmarked(init, id);
      MovesFormAPath(init, id);
      if last.requestId == id && last.event.StateChanged? {
        AlongExtended(Moves(init, id), Visited(init, id), last.event);
      }
    }
  }

  predicate DistinctSources(moves: seq<Event>) {
    forall i, j :: 0 <= i < j < |moves| ==>
      moves[i].StateChanged? && moves[j].StateChanged? && moves[i].from != moves[j].from
  }

  lemma MovesBeforeMark(log: seq<LogEntry>, id: string)
    requires Unmarked(log, id) && Replay(log, id) != Broken
    ensures |Moves(log, id)| <= 6 && DistinctSources(Moves(log, id))
  {
    MovesFormAPath(log, id);
    var path, moves := Visited(log, id), Moves(log, id);
    PathsAreShortAndAcyclic(path);
    forall i, j | 0 <= i < j < |moves|
      ensures moves[i].StateChanged? && moves[j].StateChanged? && moves[i].from != moves[j].from
    {
      assert moves[i].from == path[i] && moves[j].from == path[j];
    }
  }

  /** Whatever callers race on a job, at most six of their transitions succeed before its first
      terminal mark, and no two of those start from the same state. */
  lemma AtMostSixMovesBeforeMark(ops: seq<Op>, id: string, n: nat)
    requires AppendsFit(ops) && n <= |Run(ops).log| && Unmarked(Run(ops).log[..n], id)
    ensures var moves := Moves(Run(ops).log[..n], id);
            |moves| <= 6 && DistinctSources(moves)
  {
    var log := Run(ops).log;
    EveryRunIsSound(ops);
    assert Replay(log, id) == ColumnOf(Run(ops), id);
    BrokenStaysBroken(log, id, n);
    MovesBeforeMark(log[..n], id);
  }

  /** Of two transitions out of the same state with no mark of the job in between, the second fails. */
  lemma SecondSwapFails(s: Store, ops: seq<Op>, id: string, from: ReviewState, to: ReviewState, to': ReviewState,
                        code: Code)
    requires Transition(s, id, from, to, code).1.Ok?
    requires forall op :: op in ops ==> !(op.MarkOp? && op.id == id)
    ensures Transition(RunFrom(Transition(s, id, from, to, code).0, ops), id, from, to', code).1.Raise?
  {
    var t := Transition(s, id, from, to, code).0;
    UnmarkedStateOnlyDescends(t, ops, id);
    assert MovesLeft(to) < MovesLeft(from);
  }

  lemma {:induction false} UnmarkedStateOnlyDescends(s: Store, ops: seq<Op>, id: string)
    requires id in s.rows
    requires forall op :: op in ops ==> !(op.MarkOp? && op.id == id)
    ensures var t := RunFrom(s, ops);
            id in t.rows && MovesLeft(t.rows[id].state) <= MovesLeft(s.rows[id].state)
  {
    if ops != [] {
      UnmarkedStateOnlyDescends(s, ops[..|ops| - 1], id);
      assert ops[|ops| - 1] in ops;
    }
  }
}

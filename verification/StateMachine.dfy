/** The review state machine: the transition table, and the shape of every path through it. */
module StateMachine {

  datatype ReviewState =
    | Queued | PrecheckFailed | ContextReady | Analyzing | ConsensusReached
    | PatchProposed | Verified | Delivered | Degraded | Failed

  function AllowedTransitions(from: ReviewState): set<ReviewState> {
    match from
    case Queued => {PrecheckFailed, ContextReady, Failed}
    case PrecheckFailed => {}
    case ContextReady => {Analyzing, Degraded, Failed}
    case Analyzing => {ConsensusReached, Degraded, Failed}
    case ConsensusReached => {PatchProposed, Delivered, Failed}
    case PatchProposed => {Verified, Failed}
    case Verified => {Delivered, Failed}
    case Delivered => {}
    case Degraded => {Delivered, Failed}
    case Failed => {}
  }

  predicate CanTransition(from: ReviewState, to: ReviewState) {
    to in AllowedTransitions(from)
  }

  /** The table by its targets. */
  lemma TableByTarget(from: ReviewState, to: ReviewState)
    ensures CanTransition(from, to) <==>
              match to
              case Queued => false
              case PrecheckFailed => from == Queued
              case ContextReady => from == Queued
              case Analyzing => from == ContextReady
              case ConsensusReached => from == Analyzing
              case PatchProposed => from == ConsensusReached
              case Verified => from == PatchProposed
              case Delivered => from == ConsensusReached || from == Verified || from == Degraded
              case Degraded => from == ContextReady || from == Analyzing
              case Failed => from != PrecheckFailed && from != Delivered && from != Failed
  {
  }

  /** The states in which the orchestrator ends a review. */
  predicate IsTerminal(state: ReviewState) {
    state in {PrecheckFailed, Delivered, Degraded, Failed}
  }

  /** The number of table moves still possible; every allowed move lowers it. */
  function MovesLeft(state: ReviewState): nat {
    match state
    case Queued => 6
    case ContextReady => 5
    case Analyzing => 4
    case ConsensusReached => 3
    case PatchProposed => 2
    case Verified => 1
    case Degraded => 1
    case PrecheckFailed => 0
    case Delivered => 0
    case Failed => 0
  }

  predicate IsPath(path: seq<ReviewState>) {
    path != [] && forall i :: 0 < i < |path| ==> CanTransition(path[i - 1], path[i])
  }

  lemma {:induction false} PathMovesLeft(path: seq<ReviewState>)
    requires IsPath(path)
    ensures MovesLeft(path[|path| - 1]) + |path| <= MovesLeft(path[0]) + 1
  {
    if |path| > 1 {
      var init := path[..|path| - 1];
      PathMovesLeft(init);
      assert CanTransition(path[|path| - 2], path[|path| - 1]);
    }
  }

  /** The table has no cycle, and no walk through it makes more than six moves. */
  lemma PathsAreShortAndAcyclic(path: seq<ReviewState>)
    requires IsPath(path)
    ensures |path| - 1 <= 6
    ensures forall i, j :: 0 <= i < j < |path| ==> path[i] != path[j]
  {
    PathMovesLeft(path);
    forall i, j | 0 <= i < j < |path|
      ensures path[i] != path[j]
    {
      var part := path[i..j + 1];
      assert part[0] == path[i] && part[|part| - 1] == path[j];
      PathMovesLeft(part);
    }
  }

  /** Six moves are reached, and only by the route through a verified patch. */
  lemma {:induction false} LongestPathIsThePatchRoute(path: seq<ReviewState>)
    ensures IsPath(path) && |path| == 7 <==> path in {
              [Queued, ContextReady, Analyzing, ConsensusReached, PatchProposed, Verified, Delivered],
              [Queued, ContextReady, Analyzing, ConsensusReached, PatchProposed, Verified, Failed]
            }
  {
    if IsPath(path) && |path| == 7 {
      forall k | 0 <= k < 7
        ensures MovesLeft(path[k]) == 6 - k
      {
        PathMovesLeft(path[..k + 1]);
        PathMovesLeft(path[k..]);
      }
      assert CanTransition(path[4], path[5]) && CanTransition(path[5], path[6]);
      assert path == [path[0], path[1], path[2], path[3], path[4], path[5], path[6]];
    }
  }
}

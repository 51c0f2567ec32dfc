/** Weighted consensus over the agents' decisions, in exact arithmetic. */
module Consensus {
  import opened Outcomes

  datatype AgentStatus = Passes | Warns | Rejects | Errs

  /** A decision, and what quoting its findings raises when one of them is no dictionary. */
  datatype AgentDecision = AgentDecision(agentName: string, status: AgentStatus, score: real, unreadable: Option<Error>)

  datatype ConsensusStatus = Pass | Reject | Patch | Degrade

  datatype ConsensusResult = ConsensusResult(
    status: ConsensusStatus,
    confidence: real,
    winningReasons: seq<string>,
    conflictingAgents: seq<string>)

  function Weight(d: AgentDecision): real {
    if d.status == Rejects then 2.0 else 1.0
  }

  function TotalWeight(ds: seq<AgentDecision>): (w: real)
    ensures w >= 0.0 && (ds != [] ==> w >= 1.0)
  {
    if ds == [] then 0.0 else Weight(ds[0]) + TotalWeight(ds[1..])
  }

  function WeightedScore(ds: seq<AgentDecision>): real {
    if ds == [] then 0.0 else ds[0].score * Weight(ds[0]) + WeightedScore(ds[1..])
  }

  /** The weighted average before rounding. */
  function Confidence(ds: seq<AgentDecision>): real
    requires ds != []
  {
    WeightedScore(ds) / TotalWeight(ds)
  }

  /** `round(x, 4)`: to the nearest ten-thousandth, ties to even. */
  function Round4(x: real): real {
    var scaled := x * 10000.0;
    var below := scaled.Floor;
    var rest := scaled - below as real;
    var n := if rest > 0.5 || (rest == 0.5 && below % 2 == 1) then below + 1 else below;
    n as real / 10000.0
  }

  function NamesWith(ds: seq<AgentDecision>, status: AgentStatus): seq<string> {
    if ds == [] then []
    else (if ds[0].status == status then [ds[0].agentName] else []) + NamesWith(ds[1..], status)
  }

  function Decide(ds: seq<AgentDecision>): ConsensusResult {
    if ds == [] then ConsensusResult(Pass, 0.5, [], [])
    else
      var rejecters, warners, passers := NamesWith(ds, Rejects), NamesWith(ds, Warns), NamesWith(ds, Passes);
      if rejecters != [] then ConsensusResult(Reject, Round4(Confidence(ds)), rejecters, passers)
      else if warners != [] then ConsensusResult(Pass, Round4(Confidence(ds)), warners, passers)
      else ConsensusResult(Pass, Round4(Confidence(ds)), passers, [])
  }

  /** What quoting the findings of the decisions with this status raises first. */
  function FirstFault(ds: seq<AgentDecision>, status: AgentStatus): Option<Error> {
    if ds == [] then None
    else if ds[0].status == status && ds[0].unreadable.Some? then ds[0].unreadable
    else FirstFault(ds[1..], status)
  }

  /** The summary quotes the findings of those who reject, or else of those who warn. */
  function DecideOrRaise(ds: seq<AgentDecision>): Outcome<ConsensusResult> {
    var quoted := if NamesWith(ds, Rejects) != [] then Rejects else Warns;
    match FirstFault(ds, quoted)
    case Some(e) => Raise(e)
    case None => Ok(Decide(ds))
  }

  // ----- status -----

  lemma {:induction false} SomeNamed(ds: seq<AgentDecision>, status: AgentStatus)
    ensures NamesWith(ds, status) != [] <==> exists d :: d in ds && d.status == status
  {
    if ds != [] {
      SomeNamed(ds[1..], status);
      assert ds == [ds[0]] + ds[1..];
    }
  }

  /** One reject decides; warnings and agent errors never block. */
  lemma RejectIffSomeoneRejects(ds: seq<AgentDecision>)
    ensures Decide(ds).status == Reject <==> exists d :: d in ds && d.status == Rejects
    ensures Decide(ds).status != Reject ==> Decide(ds).status == Pass
  {
    SomeNamed(ds, Rejects);
  }

  lemma {:induction false} FirstFaultIff(ds: seq<AgentDecision>, status: AgentStatus)
    ensures FirstFault(ds, status).Some? <==> exists d :: d in ds && d.status == status && d.unreadable.Some?
    ensures FirstFault(ds, status).Some? ==> exists d :: d in ds && d.unreadable == FirstFault(ds, status)
  {
    if ds != [] {
      FirstFaultIff(ds[1..], status);
      assert ds == [ds[0]] + ds[1..];
      if ds[0].status == status && ds[0].unreadable.Some? {
        assert ds[0] in ds;
      }
    }
  }

  /** The engine raises exactly when the findings of a rejecter, or of a warner where nobody rejects, cannot be
      quoted; those of passing and failing agents are not looked at. */
  lemma DecideRaisesIff(ds: seq<AgentDecision>)
    ensures DecideOrRaise(ds).Raise? <==>
              exists d :: d in ds && d.unreadable.Some?
                && (d.status == Rejects || (d.status == Warns && Decide(ds).status != Reject))
    ensures DecideOrRaise(ds).Raise? ==> exists d :: d in ds && d.unreadable == Some(DecideOrRaise(ds).error)
    ensures DecideOrRaise(ds).Ok? ==> DecideOrRaise(ds).value == Decide(ds)
  {
    SomeNamed(ds, Rejects);
    RejectIffSomeoneRejects(ds);
    FirstFaultIff(ds, Rejects);
    FirstFaultIff(ds, Warns);
  }

  /** A concatenation is rejected exactly when either part is. */
  lemma RejectOfConcatenation(a: seq<AgentDecision>, b: seq<AgentDecision>)
    ensures Decide(a + b).status == Reject <==> Decide(a).status == Reject || Decide(b).status == Reject
  {
    RejectIffSomeoneRejects(a);
    RejectIffSomeoneRejects(b);
    RejectIffSomeoneRejects(a + b);
    assert forall d :: d in a + b <==> d in a || d in b;
  }

  // ----- confidence -----

  lemma Scale(a: real, b: real, w: real)
    requires w > 0.0
    ensures a <= b <==> a * w <= b * w
  {
    assert (b - a) * w == b * w - a * w;
    if a <= b {
      assert (b - a) * w >= 0.0;
    } else {
      assert (a - b) * w > 0.0;
      assert (a - b) * w == a * w - b * w;
    }
  }

  lemma Distribute(k: real, a: real, b: real)
    ensures k * (a + b) == k * a + k * b
  {
  }

  lemma AddBounds(score: real, w: real, sum: real, rest: real, low: real, high: real)
    requires w > 0.0 && low <= score <= high
    requires low * rest <= sum <= high * rest
    ensures low * (w + rest) <= score * w + sum <= high * (w + rest)
  {
    Scale(low, score, w);
    Scale(score, high, w);
    Distribute(low, w, rest);
    Distribute(high, w, rest);
  }

  ghost predicate Bounded(ds: seq<AgentDecision>, low: real, high: real) {
    low * TotalWeight(ds) <= WeightedScore(ds) <= high * TotalWeight(ds)
  }

  lemma BoundedCons(d: AgentDecision, ds: seq<AgentDecision>, low: real, high: real)
    requires low <= d.score <= high && Bounded(ds, low, high)
    ensures Bounded([d] + ds, low, high)
  {
    assert ([d] + ds)[1..] == ds;
    AddBounds(d.score, Weight(d), WeightedScore(ds), TotalWeight(ds), low, high);
  }

  lemma {:induction false} ScoreBounds(ds: seq<AgentDecision>, low: real, high: real)
    requires forall d :: d in ds ==> low <= d.score <= high
    ensures Bounded(ds, low, high)
  {
    if ds != [] {
      ScoreBounds(ds[1..], low, high);
      BoundedCons(ds[0], ds[1..], low, high);
      assert ds == [ds[0]] + ds[1..];
    }
  }

  lemma Between(x: real, w: real, low: real, high: real)
    requires w > 0.0 && low * w <= x <= high * w
    ensures low <= x / w <= high
  {
    var q := x / w;
    assert q * w == x;
    Scale(low, q, w);
    Scale(q, high, w);
  }

  /** The confidence before rounding lies between the smallest and the largest score. */
  lemma ConfidenceBetweenScores(ds: seq<AgentDecision>, low: real, high: real)
    requires ds != []
    requires forall d :: d in ds ==> low <= d.score <= high
    ensures low <= Confidence(ds) <= high
  {
    ScoreBounds(ds, low, high);
    Between(WeightedScore(ds), TotalWeight(ds), low, high);
  }

  lemma RoundKeepsGridBounds(x: real, low: int, high: int)
    requires low as real / 10000.0 <= x <= high as real / 10000.0
    ensures low as real / 10000.0 <= Round4(x) <= high as real / 10000.0
  {
    var scaled := x * 10000.0;
    assert low as real <= scaled <= high as real;
    assert low <= scaled.Floor <= high;
  }

  /** With every score a probability, so is the published confidence, rounded or defaulted. */
  lemma PublishedConfidenceIsAProbability(ds: seq<AgentDecision>)
    requires forall d :: d in ds ==> 0.0 <= d.score <= 1.0
    ensures 0.0 <= Decide(ds).confidence <= 1.0
  {
    if ds != [] {
      ConfidenceBetweenScores(ds, 0.0, 1.0);
      RoundKeepsGridBounds(Confidence(ds), 0, 10000);
    }
  }

  // ----- order does not matter -----

  lemma {:induction false} SplitSums(a: seq<AgentDecision>, b: seq<AgentDecision>)
    ensures TotalWeight(a + b) == TotalWeight(a) + TotalWeight(b)
    ensures WeightedScore(a + b) == WeightedScore(a) + WeightedScore(b)
  {
    if a == [] {
      assert a + b == b;
    } else {
      SplitSums(a[1..], b);
      assert (a + b)[1..] == a[1..] + b;
    }
  }

  function Without(ds: seq<AgentDecision>, i: nat): seq<AgentDecision>
    requires i < |ds|
  {
    ds[..i] + ds[i + 1..]
  }

  predicate SameSums(a: seq<AgentDecision>, b: seq<AgentDecision>) {
    TotalWeight(a) == TotalWeight(b) && WeightedScore(a) == WeightedScore(b)
  }

  lemma MoveToFront(ds: seq<AgentDecision>, i: nat)
    requires i < |ds|
    ensures SameSums(ds, [ds[i]] + Without(ds, i))
    ensures multiset(Without(ds, i)) == multiset(ds) - multiset{ds[i]}
  {
    var front, one, back := ds[..i], [ds[i]], ds[i + 1..];
    assert ds == front + (one + back);
    SplitSums(front, one + back);
    SplitSums(one, back);
    SplitSums(front, back);
    SplitSums(one, front + back);
  }

  lemma SameHead(d: AgentDecision, a: seq<AgentDecision>, b: seq<AgentDecision>)
    requires SameSums(a, b)
    ensures SameSums([d] + a, [d] + b)
  {
    SplitSums([d], a);
    SplitSums([d], b);
  }

  lemma {:induction false} SumsOfPermutation(a: seq<AgentDecision>, b: seq<AgentDecision>)
    requires multiset(a) == multiset(b)
    ensures SameSums(a, b)
    decreases |a|
  {
    if a == [] {
      assert |multiset(b)| == |b|;
    } else {
      assert a[0] in multiset(b);
      var i :| 0 <= i < |b| && b[i] == a[0];
      MoveToFront(b, i);
      assert a == [a[0]] + a[1..];
      SumsOfPermutation(a[1..], Without(b, i));
      SameHead(a[0], a[1..], Without(b, i));
    }
  }

  /** Permuting the agents changes neither the status nor the confidence. */
  lemma OrderDoesNotMatter(a: seq<AgentDecision>, b: seq<AgentDecision>)
    requires multiset(a) == multiset(b)
    ensures Decide(a).status == Decide(b).status && Decide(a).confidence == Decide(b).confidence
  {
    SumsOfPermutation(a, b);
    RejectIffSomeoneRejects(a);
    RejectIffSomeoneRejects(b);
    assert forall d :: d in a <==> d in multiset(a);
    assert forall d :: d in b <==> d in multiset(b);
    assert |a| == |multiset(a)| == |multiset(b)| == |b|;
  }

  lemma Times(x: real, w: real, low: real, high: real)
    requires w > 0.0 && low <= x / w <= high
    ensures low * w <= x <= high * w
  {
    var q := x / w;
    assert q * w == x;
    Scale(low, q, w);
    Scale(q, high, w);
  }

  lemma SumBounds(xa: real, wa: real, xb: real, wb: real, low: real, high: real)
    requires low * wa <= xa <= high * wa && low * wb <= xb <= high * wb
    ensures low * (wa + wb) <= xa + xb <= high * (wa + wb)
  {
    Distribute(low, wa, wb);
    Distribute(high, wa, wb);
  }

  lemma Mediant(xa: real, wa: real, xb: real, wb: real, low: real, high: real)
    requires wa > 0.0 && wb > 0.0
    requires low <= xa / wa <= high && low <= xb / wb <= high
    ensures low <= (xa + xb) / (wa + wb) <= high
  {
    var x, w := xa + xb, wa + wb;
    assert low * w <= x <= high * w by {
      Times(xa, wa, low, high);
      Times(xb, wb, low, high);
      SumBounds(xa, wa, xb, wb, low, high);
    }
    Between(x, w, low, high);
  }

  /** The confidence of a concatenation lies between the confidences of its parts. */
  lemma ConfidenceOfConcatenation(a: seq<AgentDecision>, b: seq<AgentDecision>, low: real, high: real)
    requires a != [] && b != []
    requires low <= Confidence(a) <= high && low <= Confidence(b) <= high
    ensures low <= Confidence(a + b) <= high
  {
    SplitSums(a, b);
    Mediant(WeightedScore(a), TotalWeight(a), WeightedScore(b), TotalWeight(b), low, high);
  }

  // ----- the weights and the rounding -----

  function SumOfScores(ds: seq<AgentDecision>): real {
    if ds == [] then 0.0 else ds[0].score + SumOfScores(ds[1..])
  }

  /** Without a reject the confidence is the plain mean. */
  lemma {:induction false} PlainSums(ds: seq<AgentDecision>)
    requires forall d :: d in ds ==> d.status != Rejects
    ensures TotalWeight(ds) == |ds| as real && WeightedScore(ds) == SumOfScores(ds)
  {
    if ds != [] {
      PlainSums(ds[1..]);
      assert ds[0] in ds;
    }
  }

  lemma SumsOfThree(a: seq<AgentDecision>, d: AgentDecision, b: seq<AgentDecision>)
    ensures TotalWeight(a + [d] + b) == TotalWeight(a) + Weight(d) + TotalWeight(b)
    ensures WeightedScore(a + [d] + b) == WeightedScore(a) + d.score * Weight(d) + WeightedScore(b)
  {
    SplitSums(a + [d], b);
    SplitSums(a, [d]);
    assert [d][1..] == [];
  }

  /** A reject counts as much as two other agents with its score. */
  lemma RejectCountsTwice(a: seq<AgentDecision>, d: AgentDecision, twin: AgentDecision, b: seq<AgentDecision>)
    requires d.status == Rejects && twin.status != Rejects && twin.score == d.score
    ensures Confidence(a + [d] + b) == Confidence(a + [twin] + ([twin] + b))
  {
    var one, two := a + [d] + b, a + [twin] + ([twin] + b);
    assert TotalWeight(one) == TotalWeight(two) && WeightedScore(one) == WeightedScore(two) by {
      SumsOfThree(a, d, b);
      SumsOfThree(a, twin, [twin] + b);
      SumsOfThree([], twin, b);
      assert [] + [twin] + b == [twin] + b;
      assert Weight(d) == 2.0 * Weight(twin);
    }
  }

  lemma ConfidenceIs(ds: seq<AgentDecision>, score: real, weight: real)
    requires ds != [] && WeightedScore(ds) == score && TotalWeight(ds) == weight
    ensures weight > 0.0 && Confidence(ds) == score / weight
  {
  }

  /** And the others count once each: without a reject the confidence is the mean score. */
  lemma OthersCountOnce(ds: seq<AgentDecision>)
    requires ds != [] && forall d :: d in ds ==> d.status != Rejects
    ensures Confidence(ds) == SumOfScores(ds) / |ds| as real
  {
    PlainSums(ds);
    ConfidenceIs(ds, SumOfScores(ds), |ds| as real);
  }

  /** Rounding gives the nearest ten-thousandth, and of two equally near ones the even one. */
  lemma RoundsToNearest(x: real) returns (n: int)
    ensures Round4(x) == n as real / 10000.0
    ensures -0.5 <= x * 10000.0 - n as real <= 0.5
    ensures x * 10000.0 - n as real == 0.5 || x * 10000.0 - n as real == -0.5 ==> n % 2 == 0
  {
    var scaled := x * 10000.0;
    var below := scaled.Floor;
    var rest := scaled - below as real;
    n := if rest > 0.5 || (rest == 0.5 && below % 2 == 1) then below + 1 else below;
  }

  // ----- who is named -----

  lemma {:induction false} NamedIff(ds: seq<AgentDecision>, status: AgentStatus, name: string)
    ensures name in NamesWith(ds, status) <==> exists d :: d in ds && d.agentName == name && d.status == status
  {
    if ds != [] {
      NamedIff(ds[1..], status, name);
      assert ds == [ds[0]] + ds[1..];
    }
  }

  /** The winning reasons name the agents of the strongest status that occurs, passing ones included only when nobody
      objects; the conflicting agents are those that pass while others object. */
  lemma NamesAreThoseOf(ds: seq<AgentDecision>, name: string)
    ensures var rejected := exists d :: d in ds && d.status == Rejects;
            var warned := exists d :: d in ds && d.status == Warns;
            var winning := if rejected then Rejects else if warned then Warns else Passes;
            && (name in Decide(ds).winningReasons <==>
                  exists d :: d in ds && d.agentName == name && d.status == winning)
            && (name in Decide(ds).conflictingAgents <==>
                  (rejected || warned) && exists d :: d in ds && d.agentName == name && d.status == Passes)
  {
    SomeNamed(ds, Rejects);
    SomeNamed(ds, Warns);
    NamedIff(ds, Rejects, name);
    NamedIff(ds, Warns, name);
    NamedIff(ds, Passes, name);
  }

  lemma {:induction false} NamesInOrder(a: seq<AgentDecision>, b: seq<AgentDecision>, status: AgentStatus)
    ensures NamesWith(a + b, status) == NamesWith(a, status) + NamesWith(b, status)
  {
    if a == [] {
      assert a + b == b;
    } else {
      NamesInOrder(a[1..], b, status);
      assert (a + b)[1..] == a[1..] + b;
    }
  }

  /** Nobody decides: a pass of confidence one half. */
  lemma NobodyDecides()
    ensures Decide([]) == ConsensusResult(Pass, 0.5, [], [])
    ensures forall ds: seq<AgentDecision> :: ds != [] ==> Decide(ds).confidence == Round4(Confidence(ds))
  {
  }
}

/** What one review leaves in the event log when it runs to its delivery and no write of its events fails. */
module AuditTrail {
  import opened Codes
  import opened Consensus
  import opened Foretelling
  import opened JobStore
  import opened LlmReviewGate
  import opened Orchestrator
  import opened OrchestratorSafety
  import opened Outcomes
  import opened PassGate
  import opened RunOnce
  import opened Sequences
  import opened StateMachine

  function Entries(id: string, events: seq<Event>): (log: seq<LogEntry>)
    ensures |log| == |events| && forall i :: 0 <= i < |events| ==> log[i] == LogEntry(id, events[i])
  {
    seq(|events|, i requires 0 <= i < |events| => LogEntry(id, events[i]))
  }

  lemma EntriesConcat(id: string, a: seq<Event>, b: seq<Event>)
    ensures Entries(id, a + b) == Entries(id, a) + Entries(id, b)
  {
  }

  const AGENT_TRAIL := [Stage("agent", "started", AgentStarted), Stage("agent", "completed", AgentCompleted)]
  const CREATED := [Requested(Queued)]
  const PREPARED := [StateChanged(Queued, ContextReady, Progress(ContextBuildStarted)),
                     StateChanged(ContextReady, Analyzing, Progress(AgentsStarted))]
  const DECIDED := [StateChanged(Analyzing, ConsensusReached, Progress(ConsensusWasReached))]
  const L3_TRAIL := [Stage("l3", "started", L3Started), Stage("l3", "completed", L3Completed)]

  /** Two progress events for each agent. */
  function AgentTrail(n: nat): seq<Event> {
    if n == 0 then [] else AGENT_TRAIL + AgentTrail(n - 1)
  }

  /** The events of a review by `n` agents that is delivered with this code. */
  function Trail(n: nat, asked: bool, code: Code): seq<Event> {
    CREATED + PREPARED + AgentTrail(n) + DECIDED + (if asked then L3_TRAIL else []) + [Terminal(Delivered, code)]
  }

  /** No write of an event fails. */
  predicate EventsWritten(script: Script) {
    && script.creation.None? && script.l3StartEvent.None? && script.l3EndEvent.None? && script.deliverMark.None?
    && AgentEventsWritten(Active(script))
  }

  predicate AgentEventsWritten(agents: seq<Agent>) {
    forall a :: a in agents ==> a.startEvent.None? && a.endEvent.None?
  }

  // ----- one stage after the other -----

  /** The second point is reached from the first, with these events written in between. */
  ghost predicate Writes(s: Store, c: Call, s': Store, c': Call, events: seq<Event>) {
    && Leads(s, c, s', c') && c'.request == c.request && c'.script == c.script
    && s'.log == s.log + Entries(c.request.requestId, events)
  }

  lemma WritesBoth(s: Store, c: Call, s1: Store, c1: Call, s2: Store, c2: Call, a: seq<Event>, b: seq<Event>)
    requires Writes(s, c, s1, c1, a) && Writes(s1, c1, s2, c2, b)
    ensures Writes(s, c, s2, c2, a + b)
  {
    EntriesConcat(c.request.requestId, a, b);
    Associative(s.log, Entries(c.request.requestId, a), Entries(c.request.requestId, b));
  }

  /** The row is there, in the state the call takes it to be in. */
  ghost predicate Ready(s: Store, c: Call, state: ReviewState, pc: Pc) {
    && c.persisted && c.current == state && c.pc == pc
    && c.request.requestId in s.rows && s.rows[c.request.requestId].state == state
  }

  lemma AdvanceWrites(s: Store, c: Call, from: ReviewState, pc: Pc, to: ReviewState, code: Code, next: Pc)
    requires Ready(s, c, from, pc) && CanTransition(from, to)
    ensures var (s', c') := Advance(s, c, to, code, None, next);
            && Ready(s', c', to, next)
            && c'.request == c.request && c'.script == c.script && c'.decisions == c.decisions
            && s'.log == s.log + Entries(c.request.requestId, [StateChanged(from, to, code)])
  {
  }

  lemma LogWrites(s: Store, c: Call, event: Event, next: Pc)
    ensures var (s', c') := Log(s, c, event, None, next);
            c' == Goto(c, next) && s' == s.(log := s.log + Entries(c.request.requestId, [event]))
  {
  }

  lemma StartWrites(s: Store, request: ReviewRequest, script: Script) returns (s': Store, c': Call)
    requires !Refused(s, request) && EventsWritten(script) && LetThrough(script)
    ensures Writes(s, Start(request, script), s', c', CREATED)
    ensures Ready(s', c', Queued, Context(ToContext)) && c'.decisions == []
  {
    s', c' := s, Start(request, script);
    StepLeads(s', c');
    s', c' := Step(s', c').0, Step(s', c').1;
    StepLeads(s', c');
    c' := Step(s', c').1;
    StepLeads(s', c');
    c' := Step(s', c').1;
  }

  lemma ContextWrites(s: Store, c: Call) returns (s': Store, c': Call)
    requires Ready(s, c, Queued, Context(ToContext)) && LetThrough(c.script)
    ensures Writes(s, c, s', c', PREPARED)
    ensures Ready(s', c', Analyzing, Agents(AgentStarting(Active(c.script)))) && c'.decisions == c.decisions
  {
    s', c' := s, c;
    AdvanceWrites(s', c', Queued, Context(ToContext), ContextReady, Progress(ContextBuildStarted), Context(Building));
    StepLeads(s', c');
    s', c' := Step(s', c').0, Step(s', c').1;
    StepLeads(s', c');
    c' := Step(s', c').1;
    AdvanceWrites(s', c', ContextReady, Context(ToAnalyzing), Analyzing, Progress(AgentsStarted), Context(Selecting));
    StepLeads(s', c');
    s', c' := Step(s', c').0, Step(s', c').1;
    StepLeads(s', c');
    c' := Step(s', c').1;
  }

  lemma AgentWrites(s: Store, c: Call, agent: Agent, rest: seq<Agent>) returns (s': Store, c': Call)
    requires Ready(s, c, Analyzing, Agents(AgentStarting([agent] + rest)))
    requires agent.run.Ok? && agent.startEvent.None? && agent.endEvent.None?
    ensures Writes(s, c, s', c', AGENT_TRAIL)
    ensures Ready(s', c', Analyzing, Agents(AgentStarting(rest))) && c'.decisions == c.decisions + [agent.run.value]
  {
    assert ([agent] + rest)[1..] == rest;
    s', c' := s, c;
    LogWrites(s', c', Stage("agent", "started", AgentStarted), Agents(AgentRunning(agent, rest)));
    StepLeads(s', c');
    s', c' := Step(s', c').0, Step(s', c').1;
    StepLeads(s', c');
    c' := Step(s', c').1;
    LogWrites(s', c', Stage("agent", "completed", AgentCompleted), Agents(AgentStarting(rest)));
    StepLeads(s', c');
    s', c' := Step(s', c').0, Step(s', c').1;
  }

  lemma {:induction false} AgentsWrite(s: Store, c: Call, done: seq<Agent>, todo: seq<Agent>)
    returns (s': Store, c': Call)
    requires Ready(s, c, Analyzing, Agents(AgentStarting(done + todo)))
    requires AllAgentsDecide(done) && AgentEventsWritten(done)
    ensures Writes(s, c, s', c', AgentTrail(|done|))
    ensures Ready(s', c', Analyzing, Agents(AgentStarting(todo))) && c'.decisions == c.decisions + Decided(done)
    decreases |done|
  {
    if done == [] {
      s', c' := s, c;
      assert Entries(c.request.requestId, []) == [] && c.decisions + [] == c.decisions && done + todo == todo;
    } else {
      var agent, rest := done[0], done[1..];
      assert agent in done && done + todo == [agent] + (rest + todo);
      var s1, c1 := AgentWrites(s, c, agent, rest + todo);
      s', c' := AgentsWrite(s1, c1, rest, todo);
      WritesBoth(s, c, s1, c1, s', c', AGENT_TRAIL, AgentTrail(|rest|));
      Associative(c.decisions, [agent.run.value], Decided(rest));
    }
  }

  lemma AllAgentsWrite(s: Store, c: Call, agents: seq<Agent>) returns (s': Store, c': Call)
    requires Ready(s, c, Analyzing, Agents(AgentStarting(agents)))
    requires AllAgentsDecide(agents) && AgentEventsWritten(agents)
    ensures Writes(s, c, s', c', AgentTrail(|agents|))
    ensures Ready(s', c', Analyzing, Agents(ToConsensus)) && c'.decisions == c.decisions + Decided(agents)
  {
    assert agents + [] == agents;
    s', c' := AgentsWrite(s, c, agents, []);
    StepLeads(s', c');
    c' := Step(s', c').1;
  }

  lemma ConsensusWrites(s: Store, c: Call) returns (s': Store, c': Call)
    requires Ready(s, c, Analyzing, Agents(ToConsensus)) && c.script.toConsensus.None?
    ensures Writes(s, c, s', c', DECIDED)
    ensures Ready(s', c', ConsensusReached, Judging(Deciding)) && c'.decisions == c.decisions
  {
    AdvanceWrites(s, c, Analyzing, Agents(ToConsensus), ConsensusReached, Progress(ConsensusWasReached),
                  Judging(Deciding));
    StepLeads(s, c);
    s', c' := Step(s, c).0, Step(s, c).1;
  }

  /** L3 is asked for this review. */
  predicate Asked(script: Script, decisions: seq<AgentDecision>)
    requires Consult(script, decisions).Ok?
  {
    AsksL3(Consult(script, decisions).value, script.services)
  }

  lemma L3Writes(s: Store, c: Call, k: ConsensusResult) returns (s': Store, c': Call)
    requires Ready(s, c, ConsensusReached, Judging(L3Starting(k))) && c.script.services.gate.Some?
    requires c.script.l3StartEvent.None? && c.script.l3EndEvent.None? && Review(c.script.services.gate.value).Ok?
    ensures Writes(s, c, s', c', L3_TRAIL) && c'.decisions == c.decisions
    ensures Ready(s', c', ConsensusReached, Closing(Concluding(k, Some(Review(c.script.services.gate.value).value))))
  {
    var p := Review(c.script.services.gate.value).value;
    s', c' := s, c;
    LogWrites(s', c', Stage("l3", "started", L3Started), Judging(L3Asking(k)));
    StepLeads(s', c');
    s', c' := Step(s', c').0, Step(s', c').1;
    StepLeads(s', c');
    c' := Step(s', c').1;
    LogWrites(s', c', Stage("l3", "completed", L3Completed), Closing(Concluding(k, Some(p))));
    StepLeads(s', c');
    s', c' := Step(s', c').0, Step(s', c').1;
  }

  lemma JudgingWrites(s: Store, c: Call) returns (s': Store, c': Call)
    requires Ready(s, c, ConsensusReached, Judging(Deciding)) && Judge(c.script, c.decisions).Ok?
    requires c.script.l3StartEvent.None? && c.script.l3EndEvent.None?
    requires Asked(c.script, c.decisions) ==> c.script.findings.None?
    ensures Writes(s, c, s', c', if Asked(c.script, c.decisions) then L3_TRAIL else [])
    ensures Ready(s', c', ConsensusReached, Closing(Delivering(Judge(c.script, c.decisions).value)))
  {
    var k := Consult(c.script, c.decisions).value;
    StepLeads(s, c);
    s', c' := s, Step(s, c).1;
    assert Entries(c.request.requestId, []) == [];
    if Asked(c.script, c.decisions) {
      s', c' := L3Writes(s', c', k);
    }
    StepLeads(s', c');
    c' := Step(s', c').1;
  }

  lemma DeliveryWrites(s: Store, c: Call, v: Verdict) returns (s': Store, c': Call)
    requires Ready(s, c, ConsensusReached, Closing(Delivering(v))) && c.script.deliverMark.None?
    requires PublishQuickFix(c.script).Ok?
    ensures Writes(s, c, s', c', [Terminal(Delivered, v.code)]) && c'.pc == Finished(VerdictResult(c.request, v))
  {
    s', c' := s, c;
    assert s.log + Entries(c.request.requestId, [Terminal(Delivered, v.code)])
        == s.log + [LogEntry(c.request.requestId, Terminal(Delivered, v.code))];
    StepLeads(s', c');
    s', c' := Step(s', c').0, Step(s', c').1;
    StepLeads(s', c');
    c' := Step(s', c').1;
  }

  /** Up to the agents. */
  lemma PreparationWrites(s: Store, request: ReviewRequest, script: Script) returns (s': Store, c': Call)
    requires !Refused(s, request) && EventsWritten(script) && LetThrough(script)
    ensures Writes(s, Start(request, script), s', c', CREATED + PREPARED)
    ensures Ready(s', c', Analyzing, Agents(AgentStarting(Active(script)))) && c'.decisions == []
  {
    var c := Start(request, script);
    var s1, c1 := StartWrites(s, request, script);
    s', c' := ContextWrites(s1, c1);
    WritesBoth(s, c, s1, c1, s', c', CREATED, PREPARED);
  }

  /** Up to the consensus. */
  lemma AnalysisWrites(s: Store, request: ReviewRequest, script: Script) returns (s': Store, c': Call)
    requires !Refused(s, request) && EventsWritten(script) && LetThrough(script) && AllAgentsDecide(Active(script))
    ensures Writes(s, Start(request, script), s', c', CREATED + PREPARED + AgentTrail(|Active(script)|) + DECIDED)
    ensures Ready(s', c', ConsensusReached, Judging(Deciding)) && c'.decisions == Decided(Active(script))
  {
    var c, agents := Start(request, script), Active(script);
    var s1, c1 := PreparationWrites(s, request, script);
    var s2, c2 := AllAgentsWrite(s1, c1, agents);
    s', c' := ConsensusWrites(s2, c2);
    WritesBoth(s, c, s1, c1, s2, c2, CREATED + PREPARED, AgentTrail(|agents|));
    WritesBoth(s, c, s2, c2, s', c', CREATED + PREPARED + AgentTrail(|agents|), DECIDED);
    assert [] + Decided(agents) == Decided(agents);
  }

  /** From the consensus on. */
  lemma VerdictWrites(s: Store, c: Call, v: Verdict) returns (s': Store, c': Call)
    requires Ready(s, c, ConsensusReached, Judging(Deciding)) && Judge(c.script, c.decisions) == Ok(v)
    requires c.script.l3StartEvent.None? && c.script.l3EndEvent.None? && c.script.deliverMark.None?
    requires (Asked(c.script, c.decisions) ==> c.script.findings.None?) && PublishQuickFix(c.script).Ok?
    ensures Writes(s, c, s', c',
                   (if Asked(c.script, c.decisions) then L3_TRAIL else []) + [Terminal(Delivered, v.code)])
    ensures c'.pc == Finished(VerdictResult(c.request, v))
  {
    var s1, c1 := JudgingWrites(s, c);
    s', c' := DeliveryWrites(s1, c1, v);
    var l3 := if Asked(c.script, c.decisions) then L3_TRAIL else [];
    WritesBoth(s, c, s1, c1, s', c', l3, [Terminal(Delivered, v.code)]);
  }

  /** The whole trail of a delivered review: its creation, its two steps to the agents, two events for each of them, the
      consensus, two events of L3 if it was asked, and the delivery under the code that is reported. */
  lemma DeliveryLeavesItsTrail(s: Store, request: ReviewRequest, script: Script)
    requires !Refused(s, request) && EventsWritten(script) && Delivers(script) && PublishQuickFix(script).Ok?
    ensures var (t, c) := RunAlone(s, Start(request, script));
            var decisions := Decided(Active(script));
            var v := Judge(script, decisions).value;
            && t.log == s.log + Entries(request.requestId, Trail(|Active(script)|, Asked(script, decisions), v.code))
            && c.pc == Finished(ReviewResult(request.requestId, Delivered, v.status, v.confidence, v.code))
  {
    var c, decisions := Start(request, script), Decided(Active(script));
    var v := Judge(script, decisions).value;
    var s1, c1 := AnalysisWrites(s, request, script);
    var s2, c2 := VerdictWrites(s1, c1, v);
    var front := CREATED + PREPARED + AgentTrail(|Active(script)|) + DECIDED;
    var l3 := if Asked(script, decisions) then L3_TRAIL else [];
    WritesBoth(s, c, s1, c1, s2, c2, front, l3 + [Terminal(Delivered, v.code)]);
    Associative(front, l3, [Terminal(Delivered, v.code)]);
  }

  // ----- an agent that raises -----

  lemma FailureWrites(s: Store, c: Call, agent: Agent, rest: seq<Agent>, e: Error) returns (s': Store, c': Call)
    requires Ready(s, c, Analyzing, Agents(AgentStarting([agent] + rest))) && agent.run == Raise(e)
    requires agent.startEvent.None? && agent.endEvent.None?
    ensures Writes(s, c, s', c', [Stage("agent", "started", AgentStarted), Stage("agent", "failed", AgentFailed)])
    ensures Ready(s', c', Analyzing, Recovery(Recovering(e)))
  {
    assert ([agent] + rest)[1..] == rest;
    s', c' := s, c;
    LogWrites(s', c', Stage("agent", "started", AgentStarted), Agents(AgentRunning(agent, rest)));
    StepLeads(s', c');
    s', c' := Step(s', c').0, Step(s', c').1;
    StepLeads(s', c');
    c' := Step(s', c').1;
    LogWrites(s', c', Stage("agent", "failed", AgentFailed), Recovery(Recovering(e)));
    StepLeads(s', c');
    s', c' := Step(s', c').0, Step(s', c').1;
  }

  /** The failure as a transition, where the table has one, and as the final mark. */
  function FailureTrail(from: ReviewState, f: Fallback): seq<Event> {
    (if CanTransition(from, f.state) then [StateChanged(from, f.state, f.code)] else []) + [Terminal(f.state, f.code)]
  }

  lemma FallbackWrites(s: Store, c: Call, from: ReviewState, e: Error) returns (s': Store, c': Call)
    requires Ready(s, c, from, Recovery(Recovering(e))) && Underway(from) && c.script.recoverTransition.None?
    ensures var f := ClassifyFailure(e);
            Writes(s, c, s', c', if CanTransition(from, f.state) then [StateChanged(from, f.state, f.code)] else [])
            && c'.pc == Recovery(MarkingFallback(e)) && c'.persisted && c.request.requestId in s'.rows
  {
    assert Entries(c.request.requestId, []) == [];
    StepLeads(s, c);
    s', c' := Step(s, c).0, Step(s, c).1;
  }

  lemma FinalMarkWrites(s: Store, c: Call, e: Error) returns (s': Store, c': Call)
    requires c.pc == Recovery(MarkingFallback(e)) && c.request.requestId in s.rows && c.script.recoverMark.None?
    ensures var f := ClassifyFailure(e);
            Writes(s, c, s', c', [Terminal(f.state, f.code)]) && c'.pc == Finished(FailureResult(c.request, e))
  {
    StepLeads(s, c);
    s', c' := Step(s, c).0, Step(s, c).1;
  }

  lemma RecoveryWrites(s: Store, c: Call, from: ReviewState, e: Error) returns (s': Store, c': Call)
    requires Ready(s, c, from, Recovery(Recovering(e))) && Underway(from)
    requires c.script.recoverTransition.None? && c.script.recoverMark.None?
    ensures Writes(s, c, s', c', FailureTrail(from, ClassifyFailure(e)))
    ensures c'.pc == Finished(FailureResult(c.request, e))
  {
    var f := ClassifyFailure(e);
    var s1, c1 := FallbackWrites(s, c, from, e);
    s', c' := FinalMarkWrites(s1, c1, e);
    WritesBoth(s, c, s1, c1, s', c', if CanTransition(from, f.state) then [StateChanged(from, f.state, f.code)] else [],
               [Terminal(f.state, f.code)]);
  }

  /** The trail of a review whose agent raises: the agents before it, its own two events, and the failure twice, as a
      transition and as the final mark; no later agent leaves anything. */
  lemma FailedAgentLeavesItsTrail(s: Store, request: ReviewRequest, script: Script, front: seq<Agent>, agent: Agent,
                                  rest: seq<Agent>, e: Error)
    requires !Refused(s, request) && EventsWritten(script) && LetThrough(script)
    requires script.recoverTransition.None? && script.recoverMark.None?
    requires Active(script) == front + ([agent] + rest) && AllAgentsDecide(front) && agent.run == Raise(e)
    ensures var (t, c) := RunAlone(s, Start(request, script));
            var f := ClassifyFailure(e);
            && t.log == s.log + Entries(request.requestId,
                 CREATED + PREPARED + AgentTrail(|front|)
                 + [Stage("agent", "started", AgentStarted), Stage("agent", "failed", AgentFailed)]
                 + FailureTrail(Analyzing, f))
            && c.pc == Finished(ReviewResult(request.requestId, f.state, f.status, 0.0, f.code))
  {
    var c, f := Start(request, script), ClassifyFailure(e);
    var failed := [Stage("agent", "started", AgentStarted), Stage("agent", "failed", AgentFailed)];
    assert agent in Active(script) && forall a :: a in front ==> a in Active(script);
    var s1, c1 := PreparationWrites(s, request, script);
    var s2, c2 := AgentsWrite(s1, c1, front, [agent] + rest);
    var s3, c3 := FailureWrites(s2, c2, agent, rest, e);
    var s4, c4 := RecoveryWrites(s3, c3, Analyzing, e);
    WritesBoth(s, c, s1, c1, s2, c2, CREATED + PREPARED, AgentTrail(|front|));
    WritesBoth(s, c, s2, c2, s3, c3, CREATED + PREPARED + AgentTrail(|front|), failed);
    WritesBoth(s, c, s3, c3, s4, c4, CREATED + PREPARED + AgentTrail(|front|) + failed, FailureTrail(Analyzing, f));
  }

  // ----- an L3 gate that raises -----

  lemma FailedL3Writes(s: Store, c: Call, e: Error) returns (s': Store, c': Call)
    requires Ready(s, c, ConsensusReached, Judging(Deciding)) && Consult(c.script, c.decisions).Ok?
    requires Asked(c.script, c.decisions) && c.script.findings.None?
    requires Review(c.script.services.gate.value) == Raise(e)
    requires c.script.l3StartEvent.None? && c.script.l3EndEvent.None?
    ensures Writes(s, c, s', c', [Stage("l3", "started", L3Started), Stage("l3", "failed", L3Failed)])
    ensures Ready(s', c', ConsensusReached, Recovery(Recovering(e)))
  {
    var k := Consult(c.script, c.decisions).value;
    s', c' := s, c;
    StepLeads(s', c');
    c' := Step(s', c').1;
    LogWrites(s', c', Stage("l3", "started", L3Started), Judging(L3Asking(k)));
    StepLeads(s', c');
    s', c' := Step(s', c').0, Step(s', c').1;
    StepLeads(s', c');
    c' := Step(s', c').1;
    LogWrites(s', c', Stage("l3", "failed", L3Failed), Recovery(Recovering(e)));
    StepLeads(s', c');
    s', c' := Step(s', c').0, Step(s', c').1;
  }

  lemma FailureFromConsensus(f: Fallback)
    requires f.state == Failed || f.state == Degraded
    ensures FailureTrail(ConsensusReached, f)
         == (if f.state == Failed then [StateChanged(ConsensusReached, Failed, f.code)] else [])
            + [Terminal(f.state, f.code)]
  {
    TableByTarget(ConsensusReached, f.state);
  }

  /** The trail of a review whose L3 gate raises. From consensus the table leads to FAILED but not to DEGRADED, so a
      time limit or a lost connection leaves its final mark only. */
  lemma FailedL3LeavesItsTrail(s: Store, request: ReviewRequest, script: Script, e: Error)
    requires !Refused(s, request) && EventsWritten(script) && LetThrough(script) && AllAgentsDecide(Active(script))
    requires Consult(script, Decided(Active(script))).Ok? && Asked(script, Decided(Active(script)))
    requires script.findings.None? && Review(script.services.gate.value) == Raise(e)
    requires script.recoverTransition.None? && script.recoverMark.None?
    ensures var (t, c) := RunAlone(s, Start(request, script));
            var f := ClassifyFailure(e);
            && t.log == s.log + Entries(request.requestId,
                 CREATED + PREPARED + AgentTrail(|Active(script)|) + DECIDED
                 + [Stage("l3", "started", L3Started), Stage("l3", "failed", L3Failed)]
                 + ((if f.state == Failed then [StateChanged(ConsensusReached, Failed, f.code)] else [])
                    + [Terminal(f.state, f.code)]))
            && c.pc == Finished(ReviewResult(request.requestId, f.state, f.status, 0.0, f.code))
  {
    var c, f := Start(request, script), ClassifyFailure(e);
    var front := CREATED + PREPARED + AgentTrail(|Active(script)|) + DECIDED;
    var failed := [Stage("l3", "started", L3Started), Stage("l3", "failed", L3Failed)];
    FailureFromConsensus(f);
    var s1, c1 := AnalysisWrites(s, request, script);
    var s2, c2 := FailedL3Writes(s1, c1, e);
    WritesBoth(s, c, s1, c1, s2, c2, front, failed);
    var s3, c3 := RecoveryWrites(s2, c2, ConsensusReached, e);
    WritesBoth(s, c, s2, c2, s3, c3, front + failed, FailureTrail(ConsensusReached, f));
  }
}

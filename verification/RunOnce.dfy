/** `run_once` as the imperative program it is, proved to be the step machine run without interruption. */
module RunOnce {
  import opened Outcomes
  import opened Codes
  import opened StateMachine
  import opened JobStore
  import opened LlmReviewGate
  import opened Consensus
  import opened PassGate
  import opened Orchestrator

  /** How a piece of the pipeline ends when it does not raise. */
  datatype Flow = Return(result: ReviewResult) | Continue

  /** Running on from the second point is running on from the first. */
  ghost predicate Leads(s: Store, c: Call, s': Store, c': Call) {
    RunAlone(s, c) == RunAlone(s', c')
  }

  lemma StepLeads(s: Store, c: Call)
    requires !c.pc.Finished?
    ensures Leads(s, c, Step(s, c).0, Step(s, c).1)
  {
  }

  /** The point of the machine that a flow corresponds to. */
  ghost predicate Reached(c: Call, flow: Outcome<Flow>, next: Pc) {
    match flow
    case Raise(e) => c.pc == Recovery(Recovering(e))
    case Ok(Return(r)) => c.pc == Finished(r)
    case Ok(Continue) => c.pc == next
  }

  /** The program's variables agree with the machine's. */
  ghost predicate Tracks(c: Call, request: ReviewRequest, script: Script, current: ReviewState, persisted: bool) {
    c.request == request && c.script == script && c.current == current && c.persisted == persisted
  }

  class ReviewOrchestrator {
    const store: SqliteJobStore

    constructor (store: SqliteJobStore)
      ensures this.store == store
    {
      this.store := store;
    }

    method MarkTerminalSafe(id: string, final: ReviewState, code: Code, fault: Option<Error>) returns (ghost ok: bool)
      modifies store
      ensures var r := MarkGuarded(old(store.View()), id, final, code, fault);
              store.View() == r.0 && ok == r.1.Ok?
    {
      var r := store.MarkTerminal(id, final, code, fault);
      ok := r.Ok?;
    }

    method RecordStageEvent(id: string, event: Event, fault: Option<Error>)
      modifies store
      ensures store.View() == AppendGuarded(old(store.View()), id, event, fault).0
    {
      var _ := store.AppendEvent(id, event, fault);
    }

    /** Creation, admission control and policy, up to the context. */
    method Admit(request: ReviewRequest, script: Script)
      returns (flow: Outcome<Flow>, current: ReviewState, persisted: bool, ghost c: Call)
      modifies store
      ensures Leads(old(store.View()), Start(request, script), store.View(), c)
      ensures Tracks(c, request, script, current, persisted) && c.decisions == []
      ensures Reached(c, flow, Context(ToContext)) && (flow == Ok(Continue) ==> current == Queued)
    {
      current, persisted := Queued, false;
      c := Start(request, script);
      StepLeads(store.View(), c);
      c := Step(store.View(), c).1;
      var creation := store.CreateRequest(request, script.creation);
      if creation.Raise? {
        return Raise(creation.error), current, persisted, c;
      }
      if creation.value.duplicate {
        return Ok(Return(DuplicateResult(request))), current, persisted, c;
      }
      persisted := creation.value.created;

      StepLeads(store.View(), c);
      c := Step(store.View(), c).1;
      if script.admission.Raise? {
        return Raise(script.admission.error), current, persisted, c;
      }
      if !script.admission.value {
        StepLeads(store.View(), c);
        c := Step(store.View(), c).1;
        var _ := MarkTerminalSafe(request.requestId, Degraded, Stop(ResourceRejected), script.rejectMark);
        return Ok(Return(RejectedResult(request))), current, persisted, c;
      }

      StepLeads(store.View(), c);
      c := Step(store.View(), c).1;
      if script.policy.Raise? {
        return Raise(script.policy.error), current, persisted, c;
      }
      if !script.policy.value.accepted {
        flow, current, c := RefuseByPolicy(request, script, c);
        return;
      }
      flow := Ok(Continue);
    }

    method RefuseByPolicy(request: ReviewRequest, script: Script, ghost c0: Call)
      returns (flow: Outcome<Flow>, current: ReviewState, ghost c: Call)
      requires c0.request == request && c0.script == script && c0.current == Queued
      requires c0.pc == Admission(ToPrecheck)
      modifies store
      ensures Leads(old(store.View()), c0, store.View(), c)
      ensures Tracks(c, request, script, current, c0.persisted) && c.decisions == c0.decisions
      ensures Reached(c, flow, Context(ToContext)) && flow != Ok(Continue)
    {
      current := Queued;
      StepLeads(store.View(), c0);
      c := Step(store.View(), c0).1;
      var moved := store.TransitionState(request.requestId, Queued, PrecheckFailed, Stop(PolicyRejected),
                                         script.toPrecheck);
      if moved.Raise? {
        return Raise(moved.error), current, c;
      }
      current := PrecheckFailed;
      StepLeads(store.View(), c);
      c := Step(store.View(), c).1;
      var _ := MarkTerminalSafe(request.requestId, PrecheckFailed, Stop(PolicyRejected), script.precheckMark);
      return Ok(Return(PrecheckResult(request))), current, c;
    }

    /** Building the context and selecting the agents. */
    method Prepare(request: ReviewRequest, script: Script, ghost c0: Call)
      returns (flow: Outcome<Flow>, current: ReviewState, agents: seq<Agent>, ghost c: Call)
      requires c0.request == request && c0.script == script && c0.current == Queued && c0.pc == Context(ToContext)
      modifies store
      ensures Leads(old(store.View()), c0, store.View(), c)
      ensures Tracks(c, request, script, current, c0.persisted) && c.decisions == c0.decisions
      ensures Reached(c, flow, Agents(AgentStarting(agents)))
        && (flow.Ok? ==> flow.value == Continue && current == Analyzing)
    {
      current, agents := Queued, [];
      StepLeads(store.View(), c0);
      c := Step(store.View(), c0).1;
      var moved := store.TransitionState(request.requestId, Queued, ContextReady, Progress(ContextBuildStarted),
                                         script.toContext);
      if moved.Raise? {
        return Raise(moved.error), current, agents, c;
      }
      current := ContextReady;
      StepLeads(store.View(), c);
      c := Step(store.View(), c).1;
      var built := BuildContext(script);
      if built.Raise? {
        return Raise(built.error), current, agents, c;
      }
      StepLeads(store.View(), c);
      c := Step(store.View(), c).1;
      moved := store.TransitionState(request.requestId, ContextReady, Analyzing, Progress(AgentsStarted),
                                     script.toAnalyzing);
      if moved.Raise? {
        return Raise(moved.error), current, agents, c;
      }
      current := Analyzing;
      StepLeads(store.View(), c);
      c := Step(store.View(), c).1;
      if script.selection.Raise? {
        return Raise(script.selection.error), current, agents, c;
      }
      agents := Active(script);
      flow := Ok(Continue);
    }

    /** One agent between its two progress events. */
    method RunOneAgent(id: string, agent: Agent, ghost rest: seq<Agent>, ghost c0: Call)
      returns (decision: Outcome<AgentDecision>, ghost c: Call)
      requires c0.request.requestId == id && c0.pc == Agents(AgentStarting([agent] + rest))
      modifies store
      ensures Leads(old(store.View()), c0, store.View(), c)
      ensures decision == agent.run
      ensures match decision
              case Raise(e) => c == Throw(c0, e)
              case Ok(d) => c == c0.(decisions := c0.decisions + [d], pc := Agents(AgentStarting(rest)))
    {
      assert ([agent] + rest)[1..] == rest;
      StepLeads(store.View(), c0);
      c := Step(store.View(), c0).1;
      RecordStageEvent(id, AgentEvent("started", AgentStarted), agent.startEvent);
      StepLeads(store.View(), c);
      c := Step(store.View(), c).1;
      decision := agent.run;
      StepLeads(store.View(), c);
      c := Step(store.View(), c).1;
      if decision.Raise? {
        RecordStageEvent(id, AgentEvent("failed", AgentFailed), agent.endEvent);
      } else {
        RecordStageEvent(id, AgentEvent("completed", AgentCompleted), agent.endEvent);
      }
    }

    method RunAgents(request: ReviewRequest, agents: seq<Agent>, ghost c0: Call)
      returns (flow: Outcome<Flow>, decisions: seq<AgentDecision>, ghost c: Call)
      requires c0.request == request && c0.decisions == [] && c0.pc == Agents(AgentStarting(agents))
      modifies store
      ensures Leads(old(store.View()), c0, store.View(), c)
      ensures Tracks(c, request, c0.script, c0.current, c0.persisted) && c.decisions == decisions
      ensures Reached(c, flow, Agents(ToConsensus)) && (flow.Ok? ==> flow.value == Continue)
    {
      decisions, c := [], c0;
      var i := 0;
      while i < |agents|
        invariant 0 <= i <= |agents|
        invariant c == c0.(decisions := decisions, pc := Agents(AgentStarting(agents[i..])))
        invariant Leads(old(store.View()), c0, store.View(), c)
      {
        assert agents[i..] == [agents[i]] + agents[i + 1..];
        var decision;
        decision, c := RunOneAgent(request.requestId, agents[i], agents[i + 1..], c);
        if decision.Raise? {
          return Raise(decision.error), decisions, c;
        }
        decisions := decisions + [decision.value];
        i := i + 1;
      }
      StepLeads(store.View(), c);
      c := Step(store.View(), c).1;
      flow := Ok(Continue);
    }

    /** The L3 call between its two progress events. */
    method AskGate(request: ReviewRequest, script: Script, k: ConsensusResult, ghost c0: Call)
      returns (answer: Outcome<Payload>, ghost c: Call)
      requires c0.request == request && c0.script == script && c0.pc == Judging(L3Starting(k))
      requires script.services.gate.Some?
      modifies store
      ensures Leads(old(store.View()), c0, store.View(), c)
      ensures answer == Review(script.services.gate.value)
      ensures c == match answer
                   case Raise(e) => Throw(c0, e)
                   case Ok(p) => Goto(c0, Closing(Concluding(k, Some(p))))
    {
      StepLeads(store.View(), c0);
      c := Step(store.View(), c0).1;
      RecordStageEvent(request.requestId, L3Event("started", L3Started), script.l3StartEvent);
      StepLeads(store.View(), c);
      c := Step(store.View(), c).1;
      answer := Review(script.services.gate.value);
      StepLeads(store.View(), c);
      c := Step(store.View(), c).1;
      if answer.Raise? {
        RecordStageEvent(request.requestId, L3Event("failed", L3Failed), script.l3EndEvent);
      } else {
        RecordStageEvent(request.requestId, L3Event("completed", L3Completed), script.l3EndEvent);
      }
    }

    /** Consensus, L3 and the verdict. */
    method JudgeReview(request: ReviewRequest, script: Script, decisions: seq<AgentDecision>, ghost c0: Call)
      returns (verdict: Outcome<Verdict>, current: ReviewState, ghost c: Call)
      requires c0.request == request && c0.script == script && c0.current == Analyzing
      requires c0.decisions == decisions && c0.pc == Agents(ToConsensus)
      modifies store
      ensures Leads(old(store.View()), c0, store.View(), c)
      ensures Tracks(c, request, script, current, c0.persisted)
      ensures match verdict
              case Raise(e) => c.pc == Recovery(Recovering(e))
              case Ok(v) => c.pc == Closing(Delivering(v))
    {
      current := Analyzing;
      StepLeads(store.View(), c0);
      c := Step(store.View(), c0).1;
      var moved := store.TransitionState(request.requestId, Analyzing, ConsensusReached,
                                         Progress(ConsensusWasReached), script.toConsensus);
      if moved.Raise? {
        return Raise(moved.error), current, c;
      }
      current := ConsensusReached;
      StepLeads(store.View(), c);
      c := TakeConsensus(c);
      var consensus := Consult(script, decisions);
      if consensus.Raise? {
        return Raise(consensus.error), current, c;
      }
      var llm: Option<Payload> := None;
      if AsksL3(consensus.value, script.services) {
        if script.findings.Some? {
          return Raise(script.findings.value), current, c;
        }
        var answer;
        answer, c := AskGate(request, script, consensus.value, c);
        if answer.Raise? {
          return Raise(answer.error), current, c;
        }
        llm := Some(answer.value);
      }
      StepLeads(store.View(), c);
      c := Step(store.View(), c).1;
      verdict := Conclude(consensus.value, script.services, llm);
    }

    /** The terminal mark of a completed review, and its publication. */
    method Deliver(request: ReviewRequest, script: Script, verdict: Verdict, ghost c0: Call)
      returns (flow: Outcome<Flow>, ghost c: Call)
      requires c0.request == request && c0.script == script && c0.pc == Closing(Delivering(verdict))
      modifies store
      ensures Leads(old(store.View()), c0, store.View(), c)
      ensures Tracks(c, request, script, c0.current, c0.persisted)
      ensures Reached(c, flow, c.pc) && flow != Ok(Continue)
    {
      StepLeads(store.View(), c0);
      c := Step(store.View(), c0).1;
      var _ := MarkTerminalSafe(request.requestId, Delivered, verdict.code, script.deliverMark);
      StepLeads(store.View(), c);
      c := Step(store.View(), c).1;
      var published := PublishQuickFix(script);
      if published.Raise? {
        return Raise(published.error), c;
      }
      flow := Ok(Return(VerdictResult(request, verdict)));
    }

    /** The body of the exception handler. */
    method HandleFailure(request: ReviewRequest, script: Script, error: Error, current: ReviewState, persisted: bool,
                         ghost c0: Call)
      returns (result: ReviewResult, ghost c: Call)
      requires Tracks(c0, request, script, current, persisted) && c0.pc == Recovery(Recovering(error))
      modifies store
      ensures Leads(old(store.View()), c0, store.View(), c)
      ensures c.pc == Finished(result)
    {
      var fallback := ClassifyFailure(error);
      StepLeads(store.View(), c0);
      c := Step(store.View(), c0).1;
      if persisted && !IsTerminal(current) && current != fallback.state {
        var _ := store.TransitionState(request.requestId, current, fallback.state, fallback.code,
                                       script.recoverTransition);
      }
      if persisted {
        StepLeads(store.View(), c);
        c := Step(store.View(), c).1;
        var _ := MarkTerminalSafe(request.requestId, fallback.state, fallback.code, script.recoverMark);
      }
      result := FailureResult(request, error);
    }

    /** Everything after admission. */
    method Analyze(request: ReviewRequest, script: Script, ghost c0: Call)
      returns (flow: Outcome<Flow>, current: ReviewState, ghost c: Call)
      requires Tracks(c0, request, script, Queued, c0.persisted) && c0.decisions == [] && c0.pc == Context(ToContext)
      modifies store
      ensures Leads(old(store.View()), c0, store.View(), c)
      ensures Tracks(c, request, script, current, c0.persisted)
      ensures Reached(c, flow, c.pc) && flow != Ok(Continue)
    {
      var agents, decisions, verdict;
      flow, current, agents, c := Prepare(request, script, c0);
      if flow.Raise? {
        return;
      }
      flow, decisions, c := RunAgents(request, agents, c);
      if flow.Raise? {
        return;
      }
      verdict, current, c := JudgeReview(request, script, decisions, c);
      if verdict.Raise? {
        flow := Raise(verdict.error);
        return;
      }
      flow, c := Deliver(request, script, verdict.value, c);
    }

    /** The whole pipeline: what it returns, and what it leaves in the store, is what the step machine
        returns and leaves when no other call interferes. */
    method RunOnce(request: ReviewRequest, script: Script) returns (result: ReviewResult)
      modifies store
      ensures var (s, c) := RunAlone(old(store.View()), Start(request, script));
              store.View() == s && Finished(result) == c.pc
    {
      var flow, current, persisted;
      ghost var c;
      flow, current, persisted, c := Admit(request, script);
      if flow == Ok(Continue) {
        flow, current, c := Analyze(request, script, c);
      }
      match flow {
        case Ok(Return(r)) => result := r;
        case Raise(e) => result, c := HandleFailure(request, script, e, current, persisted, c);
      }
    }
  }
}

/** What a call will report and store, computed from its script alone: the pipeline as one function from the
    collaborators' answers to an ending, and the proof that every schedule leads there. */
module Foretelling {
  import opened Outcomes
  import opened Codes
  import opened StateMachine
  import opened JobStore
  import opened LlmReviewGate
  import opened Consensus
  import opened PassGate
  import opened Orchestrator
  import opened OrchestratorSafety
  import opened Interleavings
  import StoreAudit
  import Text

  // ----- the pipeline without a store -----

  /** How the pipeline ends, up to the quick fix: refused, stopped by an error, or with a verdict to deliver. */
  datatype Ending = Rejected | Prechecked | Stopped(error: Error) | Deliverable(verdict: Verdict)

  function FromConclusion(script: Script, k: ConsensusResult, llm: Option<Payload>): Ending {
    match Conclude(k, script.services, llm)
    case Raise(e) => Stopped(e)
    case Ok(v) => Deliverable(v)
  }

  function FromL3(script: Script, k: ConsensusResult): Ending {
    match L3Answer(script, k)
    case Raise(e) => Stopped(e)
    case Ok(llm) => FromConclusion(script, k, llm)
  }

  function FromDeciding(script: Script, decisions: seq<AgentDecision>): Ending {
    match Consult(script, decisions)
    case Raise(e) => Stopped(e)
    case Ok(k) =>
      if AsksL3(k, script.services) && script.findings.Some? then Stopped(script.findings.value)
      else FromL3(script, k)
  }

  function FromConsensus(script: Script, decisions: seq<AgentDecision>): Ending {
    if script.toConsensus.Some? then Stopped(script.toConsensus.value) else FromDeciding(script, decisions)
  }

  function FromAgents(script: Script, decisions: seq<AgentDecision>, todo: seq<Agent>): Ending
    decreases |todo|
  {
    if todo == [] then FromConsensus(script, decisions)
    else
      match todo[0].run
      case Raise(e) => Stopped(e)
      case Ok(d) => FromAgents(script, decisions + [d], todo[1..])
  }

  function FromSelection(script: Script): Ending {
    if script.selection.Raise? then Stopped(script.selection.error) else FromAgents(script, [], Active(script))
  }

  function FromAnalyzing(script: Script): Ending {
    if script.toAnalyzing.Some? then Stopped(script.toAnalyzing.value) else FromSelection(script)
  }

  function FromBuilding(script: Script): Ending {
    match BuildContext(script)
    case Raise(e) => Stopped(e)
    case Ok(_) => FromAnalyzing(script)
  }

  function FromContext(script: Script): Ending {
    if script.toContext.Some? then Stopped(script.toContext.value) else FromBuilding(script)
  }

  function FromPrecheck(script: Script): Ending {
    if script.toPrecheck.Some? then Stopped(script.toPrecheck.value) else Prechecked
  }

  function FromPolicy(script: Script): Ending {
    match script.policy
    case Raise(e) => Stopped(e)
    case Ok(d) => if d.accepted then FromContext(script) else FromPrecheck(script)
  }

  function Ends(script: Script): Ending {
    match script.admission
    case Raise(e) => Stopped(e)
    case Ok(allowed) => if allowed then FromPolicy(script) else Rejected
  }

  /** The error that sends a call to its exception handler. A verdict can still be lost to the quick fix. */
  function Failure(script: Script): Option<Error> {
    match Ends(script)
    case Stopped(e) => Some(e)
    case Deliverable(_) => if PublishQuickFix(script).Raise? then Some(PublishQuickFix(script).error) else None
    case _ => None
  }

  function Foretold(request: ReviewRequest, script: Script): ReviewResult {
    match Failure(script)
    case Some(e) => FailureResult(request, e)
    case None =>
      match Ends(script)
      case Rejected => RejectedResult(request)
      case Prechecked => PrecheckResult(request)
      case Deliverable(v) => VerdictResult(request, v)
  }

  // ----- every point of a call leads to the same ending -----

  ghost predicate AdmissionForeseen(c: Call, at: AdmissionPc) {
    match at
    case Creating => false
    case Admitting => true
    case MarkingRejected => Ends(c.script) == Rejected
    case Screening => Ends(c.script) == FromPolicy(c.script)
    case ToPrecheck => Ends(c.script) == FromPrecheck(c.script)
    case MarkingPrecheck => Ends(c.script) == Prechecked
  }

  ghost predicate ContextForeseen(c: Call, at: ContextPc) {
    match at
    case ToContext => Ends(c.script) == FromContext(c.script)
    case Building => Ends(c.script) == FromBuilding(c.script)
    case ToAnalyzing => Ends(c.script) == FromAnalyzing(c.script)
    case Selecting => Ends(c.script) == FromSelection(c.script)
  }

  ghost predicate AgentsForeseen(c: Call, at: AgentsPc) {
    match at
    case AgentStarting(todo) => Ends(c.script) == FromAgents(c.script, c.decisions, todo)
    case AgentRunning(agent, rest) => Ends(c.script) == FromAgents(c.script, c.decisions, [agent] + rest)
    case AgentLogging(_, rest) => Ends(c.script) == FromAgents(c.script, c.decisions, rest)
    case AgentFailing(_, e) => Ends(c.script) == Stopped(e)
    case ToConsensus => Ends(c.script) == FromConsensus(c.script, c.decisions)
  }

  ghost predicate ReviewForeseen(c: Call, at: ReviewPc) {
    match at
    case Deciding => Ends(c.script) == FromDeciding(c.script, c.decisions)
    case L3Starting(k) => Ends(c.script) == FromL3(c.script, k)
    case L3Asking(k) => Ends(c.script) == FromL3(c.script, k)
    case L3Logging(k, p) => Ends(c.script) == FromConclusion(c.script, k, Some(p))
    case L3Failing(e) => Ends(c.script) == Stopped(e)
  }

  /** After the terminal mark of a delivery: what became of it. */
  ghost predicate DeliveryMarked(c: Call) {
    && Ends(c.script).Deliverable?
    && c.mark == (if c.script.deliverMark.None? then Marked else MarkLost)
    && (c.script.deliverMark.None? ==> c.column == Delivered)
    && (c.script.deliverMark.Some? ==> c.column != Delivered)
  }

  ghost predicate VerdictForeseen(c: Call, at: VerdictPc) {
    match at
    case Concluding(k, llm) => Ends(c.script) == FromConclusion(c.script, k, llm)
    case Delivering(v) => Ends(c.script) == Deliverable(v)
    case Publishing(v) => Ends(c.script) == Deliverable(v) && DeliveryMarked(c)
  }

  ghost predicate RecoveryForeseen(c: Call, at: RecoveryPc) {
    && Failure(c.script) == Some(at.error)
    && if Ends(c.script).Deliverable? then DeliveryMarked(c) else c.mark == NotMarked && c.column != Delivered
  }

  /** Whether the row of a finished call says DELIVERED. */
  predicate EndsDelivered(script: Script) {
    && Ends(script).Deliverable? && script.deliverMark.None?
    && (PublishQuickFix(script).Raise? ==> script.recoverMark.Some?)
  }

  ghost predicate Foreseen(c: Call) {
    c.persisted ==>
      match c.pc
      case Admission(at) => AdmissionForeseen(c, at) && c.column != Delivered
      case Context(at) => ContextForeseen(c, at) && c.column != Delivered
      case Agents(at) => AgentsForeseen(c, at) && c.column != Delivered
      case Judging(at) => ReviewForeseen(c, at) && c.column != Delivered
      case Closing(at) => VerdictForeseen(c, at) && (!at.Publishing? ==> c.column != Delivered)
      case Recovery(at) => RecoveryForeseen(c, at)
      case Finished(r) =>
        r == Foretold(c.request, c.script) && (c.column == Delivered <==> EndsDelivered(c.script))
  }

  lemma AdmissionStepForeseen(s: Store, c: Call, at: AdmissionPc)
    requires Good(s, c) && Foreseen(c) && c.pc == Admission(at)
    ensures Foreseen(StepAdmission(s, c, at).1)
  {
    match at
    case Creating => EnterEffect(s, c);
    case MarkingRejected =>
      MarkEffect(s, c, Degraded, Stop(ResourceRejected), c.script.rejectMark, Finished(RejectedResult(c.request)));
    case ToPrecheck =>
      AdvanceEffect(s, c, PrecheckFailed, Stop(PolicyRejected), c.script.toPrecheck, Admission(MarkingPrecheck));
    case MarkingPrecheck =>
      MarkEffect(s, c, PrecheckFailed, Stop(PolicyRejected), c.script.precheckMark,
                 Finished(PrecheckResult(c.request)));
    case _ =>
  }

  lemma ContextStepForeseen(s: Store, c: Call, at: ContextPc)
    requires Good(s, c) && Foreseen(c) && c.pc == Context(at)
    ensures Foreseen(StepContext(s, c, at).1)
  {
    match at
    case ToContext =>
      AdvanceEffect(s, c, ContextReady, Progress(ContextBuildStarted), c.script.toContext, Context(Building));
    case ToAnalyzing =>
      AdvanceEffect(s, c, Analyzing, Progress(AgentsStarted), c.script.toAnalyzing, Context(Selecting));
    case _ =>
  }

  lemma AgentsStepForeseen(s: Store, c: Call, at: AgentsPc)
    requires Good(s, c) && Foreseen(c) && c.pc == Agents(at)
    ensures Foreseen(StepAgents(s, c, at).1)
  {
    match at
    case AgentStarting(todo) =>
      if todo != [] {
        assert todo == [todo[0]] + todo[1..];
      }
    case AgentRunning(agent, rest) => assert ([agent] + rest)[1..] == rest;
    case ToConsensus =>
      AdvanceEffect(s, c, ConsensusReached, Progress(ConsensusWasReached), c.script.toConsensus, Judging(Deciding));
    case _ =>
  }

  lemma ReviewStepForeseen(s: Store, c: Call, at: ReviewPc)
    requires Good(s, c) && Foreseen(c) && c.pc == Judging(at)
    ensures Foreseen(StepReview(s, c, at).1)
  {
  }

  lemma VerdictStepForeseen(s: Store, c: Call, at: VerdictPc)
    requires Good(s, c) && Foreseen(c) && c.pc == Closing(at)
    ensures Foreseen(StepVerdict(s, c, at).1)
  {
    if at.Delivering? {
      MarkEffect(s, c, Delivered, at.verdict.code, c.script.deliverMark, Closing(Publishing(at.verdict)));
    }
  }

  lemma RecoveryStepForeseen(s: Store, c: Call, at: RecoveryPc)
    requires Good(s, c) && Foreseen(c) && c.pc == Recovery(at)
    ensures Foreseen(StepRecovery(s, c, at).1)
  {
    if at.MarkingFallback? {
      var f := ClassifyFailure(at.error);
      MarkEffect(s, c, f.state, f.code, c.script.recoverMark, Finished(FailureResult(c.request, at.error)));
    }
  }

  lemma StepForeseen(s: Store, c: Call)
    requires Good(s, c) && Foreseen(c)
    ensures Foreseen(Step(s, c).1)
  {
    match c.pc
    case Admission(at) => AdmissionStepForeseen(s, c, at);
    case Context(at) => ContextStepForeseen(s, c, at);
    case Agents(at) => AgentsStepForeseen(s, c, at);
    case Judging(at) => ReviewStepForeseen(s, c, at);
    case Closing(at) => VerdictStepForeseen(s, c, at);
    case Recovery(at) => RecoveryStepForeseen(s, c, at);
    case Finished(_) =>
  }

  lemma {:induction false} EveryScheduleIsForeseen(sys: System, schedule: seq<nat>, i: nat)
    requires Initial(sys) && i < |Run(sys, schedule).calls|
    ensures Foreseen(Run(sys, schedule).calls[i])
  {
    if schedule == [] {
      assert sys.calls[i] == Start(sys.calls[i].request, sys.calls[i].script);
    } else {
      var n := |schedule| - 1;
      var before := Run(sys, schedule[..n]);
      EveryScheduleIsForeseen(sys, schedule[..n], i);
      if schedule[n] == i {
        EveryScheduleIsSafe(sys, schedule[..n]);
        assert CallSound(before.calls[i]) && Attached(before.store, before.calls[i]);
        StepForeseen(before.store, before.calls[i]);
      }
    }
  }

  /** Whatever else runs, a finished call whose row was created reports what its script foretells. */
  lemma ResultIsForetold(sys: System, schedule: seq<nat>, i: nat)
    requires Initial(sys) && i < |Run(sys, schedule).calls|
    requires var c := Run(sys, schedule).calls[i]; c.pc.Finished? && c.persisted
    ensures var c := Run(sys, schedule).calls[i]; c.pc.result == Foretold(c.request, c.script)
  {
    EveryScheduleIsForeseen(sys, schedule, i);
  }

  // ----- when a review is delivered -----

  /** The values of the agents that did not raise. */
  function Decided(agents: seq<Agent>): seq<AgentDecision> {
    if agents == [] then []
    else (if agents[0].run.Ok? then [agents[0].run.value] else []) + Decided(agents[1..])
  }

  predicate AllAgentsDecide(agents: seq<Agent>) {
    forall a :: a in agents ==> a.run.Ok?
  }

  /** Every collaborator up to the verdict answers, the request is let through, and no forward transition fails. */
  predicate Delivers(script: Script) {
    var decisions := Decided(Active(script));
    && script.admission == Ok(true) && script.policy.Ok? && script.policy.value.accepted
    && script.toContext.None? && script.toAnalyzing.None? && script.toConsensus.None?
    && BuildContext(script).Ok? && script.selection.Ok? && AllAgentsDecide(Active(script))
    && Judge(script, decisions).Ok?
    && (AsksL3(Consult(script, decisions).value, script.services) ==> script.findings.None?)
  }

  lemma {:induction false} AgentsDecide(script: Script, decisions: seq<AgentDecision>, todo: seq<Agent>)
    ensures FromAgents(script, decisions, todo).Deliverable?
        <==> AllAgentsDecide(todo) && FromConsensus(script, decisions + Decided(todo)).Deliverable?
    ensures AllAgentsDecide(todo) ==>
              FromAgents(script, decisions, todo) == FromConsensus(script, decisions + Decided(todo))
    decreases |todo|
  {
    if todo == [] {
      assert decisions + Decided(todo) == decisions;
    } else {
      assert todo[0] in todo;
      assert AllAgentsDecide(todo) <==> todo[0].run.Ok? && AllAgentsDecide(todo[1..]) by {
        assert todo == [todo[0]] + todo[1..];
      }
      if todo[0].run.Ok? {
        AgentsDecide(script, decisions + [todo[0].run.value], todo[1..]);
        assert (decisions + [todo[0].run.value]) + Decided(todo[1..]) == decisions + Decided(todo);
      }
    }
  }

  lemma DecidingDelivers(script: Script, decisions: seq<AgentDecision>)
    ensures FromDeciding(script, decisions).Deliverable?
        <==> Judge(script, decisions).Ok?
             && (AsksL3(Consult(script, decisions).value, script.services) ==> script.findings.None?)
  {
  }

  lemma EndsInDelivery(script: Script)
    ensures Ends(script).Deliverable? <==> Delivers(script)
  {
    var agents := Active(script);
    AgentsDecide(script, [], agents);
    assert [] + Decided(agents) == Decided(agents);
    DecidingDelivers(script, Decided(agents));
  }

  /** A finished call was delivered exactly when its script delivers and the quick fix does not take it back. */
  lemma DeliveredIff(sys: System, schedule: seq<nat>, i: nat)
    requires Initial(sys) && i < |Run(sys, schedule).calls|
    requires var c := Run(sys, schedule).calls[i]; c.pc.Finished? && c.persisted
    ensures var c := Run(sys, schedule).calls[i];
            c.pc.result.state == Delivered <==> Delivers(c.script) && PublishQuickFix(c.script).Ok?
  {
    ResultIsForetold(sys, schedule, i);
    EndsInDelivery(Run(sys, schedule).calls[i].script);
  }

  lemma ExitZeroIffScriptPasses(sys: System, schedule: seq<nat>, i: nat)
    requires Initial(sys) && i < |Run(sys, schedule).calls|
    requires Run(sys, schedule).calls[i].pc.Finished?
    requires Run(sys, schedule).calls[i].script.engine.None?
    ensures var c := Run(sys, schedule).calls[i];
            ExitCode(c.pc.result.code) == 0 <==>
              && c.persisted && Delivers(c.script) && PublishQuickFix(c.script).Ok?
              && (forall a :: a in Active(c.script) ==> a.run.Ok? && a.run.value.status != Rejects)
              && L3Passes(c.script.services)
  {
    ExitZeroIffDelivered(sys, schedule, i);
    if Run(sys, schedule).calls[i].persisted {
      DeliveredIff(sys, schedule, i);
    }
  }

  /** Nothing on the way to the consensus refuses the request or fails: admission, policy, the forward transitions, the
      context with its forgiving cache, and the selection. */
  predicate LetThrough(script: Script) {
    && script.admission == Ok(true) && script.policy.Ok? && script.policy.value.accepted
    && script.toContext.None? && script.toAnalyzing.None? && script.toConsensus.None?
    && script.context.None?
    && (script.cache.Some? ==>
          var kind := script.cache.value.kind;
          kind.OsKind? || kind.TimeoutKind? || kind.ConnectionKind? || kind.RuntimeKind?)
    && script.selection.Ok?
  }

  /** Every agent that was selected and that the policy allows decides, does not reject, and if it warns its findings
      can be quoted. */
  predicate NobodyObjects(script: Script)
    requires script.selection.Ok? && script.policy.Ok?
  {
    forall a :: a in script.selection.value
                && (script.policy.value.allowedAgents == None || a.name in script.policy.value.allowedAgents.value) ==>
      && a.run.Ok? && a.run.value.status != Rejects
      && (a.run.value.status == Warns ==> a.run.value.unreadable == None)
  }

  /** Collecting the findings and publishing the quick fix raise nothing, or nothing that matters. */
  predicate Publishes(script: Script) {
    && script.findings.None?
    && (script.quickFix.Some? ==>
          var kind := script.quickFix.value.kind;
          kind.OsKind? || kind.TimeoutKind? || kind.ConnectionKind? || kind.ValueKind? || kind.TypeKind?)
  }

  lemma {:induction false} DecidedIff(agents: seq<Agent>)
    requires AllAgentsDecide(agents)
    ensures forall d :: d in Decided(agents) <==> exists a :: a in agents && a.run.value == d
  {
    if agents != [] {
      assert agents[0] in agents;
      assert AllAgentsDecide(agents[1..]);
      DecidedIff(agents[1..]);
      assert agents == [agents[0]] + agents[1..];
    }
  }

  lemma ObjectionsIff(script: Script)
    requires script.selection.Ok? && script.policy.Ok?
    ensures NobodyObjects(script) <==>
              forall a :: a in Active(script) ==>
                && a.run.Ok? && a.run.value.status != Rejects
                && (a.run.value.status == Warns ==> a.run.value.unreadable == None)
  {
    forall a
      ensures a in Active(script)
          <==> (a in script.selection.value
                && (script.policy.value.allowedAgents == None || a.name in script.policy.value.allowedAgents.value))
    {
      PermittedIff(script.selection.value, script.policy.value.allowedAgents, a);
    }
  }

  /** Where nobody rejects, the engine answers a pass exactly when every warning can be quoted. */
  lemma EnginePassesIff(script: Script)
    requires script.engine.None? && AllAgentsDecide(Active(script))
    requires forall a :: a in Active(script) ==> a.run.value.status != Rejects
    ensures var decisions := Decided(Active(script));
            && (Consult(script, decisions).Ok? <==>
                  forall a :: a in Active(script) && a.run.value.status == Warns ==> a.run.value.unreadable == None)
            && (Consult(script, decisions).Ok? ==> Consult(script, decisions).value.status == Pass)
  {
    var decisions := Decided(Active(script));
    DecidedIff(Active(script));
    DecideRaisesIff(decisions);
    RejectIffSomeoneRejects(decisions);
  }

  /** What is left to ask after a passing consensus: L3, which passes, and its findings. */
  lemma JudgedIff(script: Script, decisions: seq<AgentDecision>)
    requires Consult(script, decisions).Ok? && Consult(script, decisions).value.status == Pass
    requires L3Passes(script.services) && script.findings.None?
    ensures Judge(script, decisions).Ok?
  {
  }

  lemma PassesIff(script: Script)
    requires script.engine.None?
    ensures Delivers(script) && PublishQuickFix(script).Ok?
            && (forall a :: a in Active(script) ==> a.run.Ok? && a.run.value.status != Rejects)
            && L3Passes(script.services)
        <==> LetThrough(script) && NobodyObjects(script) && L3Passes(script.services) && Publishes(script)
  {
    if LetThrough(script) {
      ObjectionsIff(script);
      if forall a :: a in Active(script) ==> a.run.Ok? && a.run.value.status != Rejects {
        EnginePassesIff(script);
        var decisions := Decided(Active(script));
        if Consult(script, decisions).Ok? && L3Passes(script.services) && script.findings.None? {
          JudgedIff(script, decisions);
        }
      }
    }
  }

  /** With the default consensus engine, a finished call exits 0 exactly when its row was created, nothing refused or
      failed it on the way, no agent that was selected and allowed objects, L3 passes if it is configured, and
      publishing takes nothing back. */
  lemma ExitZeroIffReviewPassed(sys: System, schedule: seq<nat>, i: nat)
    requires Initial(sys) && i < |Run(sys, schedule).calls|
    requires Run(sys, schedule).calls[i].pc.Finished?
    requires Run(sys, schedule).calls[i].script.engine.None?
    ensures var c := Run(sys, schedule).calls[i];
            ExitCode(c.pc.result.code) == 0 <==>
              c.persisted && LetThrough(c.script) && NobodyObjects(c.script) && L3Passes(c.script.services)
              && Publishes(c.script)
  {
    ExitZeroIffScriptPasses(sys, schedule, i);
    PassesIff(Run(sys, schedule).calls[i].script);
  }

  // ----- what a failure reports -----

  /** The failures worth trying again: their type or their message, in any case, names a time limit, a connection or
      a rate limit. */
  predicate Transient(error: Error) {
    var message := Text.Lower(error.message);
    || error.kind.TimeoutKind? || error.kind.ConnectionKind?
    || Text.Contains(message, "rate limit") || Text.Contains(message, "timeout")
    || Text.Contains(message, "connection")
  }

  lemma FallbackOf(error: Error)
    ensures ClassifyFailure(error).state == (if Transient(error) then Degraded else Failed)
    ensures Transient(error) <==> ClassifyFailure(error).code != Stop(SystemFailed)
  {
  }

  lemma ForetoldCause(request: ReviewRequest, script: Script)
    ensures var r, failure := Foretold(request, script), Failure(script);
            && (r.state == Failed <==> failure.Some? && !Transient(failure.value))
            && (r.state == Failed ==> r.code == Stop(SystemFailed))
            && (r.state == Degraded <==>
                  Ends(script) == Rejected || (failure.Some? && Transient(failure.value)))
  {
    if Failure(script).Some? {
      FallbackOf(Failure(script).value);
    }
  }

  /** A finished call reports FAILED, with SYSTEM_FAILED, exactly when an error stopped it that is not transient, and
      DEGRADED exactly when it was refused or the error is transient. */
  lemma FailureReportsItsCause(sys: System, schedule: seq<nat>, i: nat)
    requires Initial(sys) && i < |Run(sys, schedule).calls|
    requires var c := Run(sys, schedule).calls[i]; c.pc.Finished? && c.persisted
    ensures var c, failure := Run(sys, schedule).calls[i], Failure(Run(sys, schedule).calls[i].script);
            && (c.pc.result.state == Failed <==> failure.Some? && !Transient(failure.value))
            && (c.pc.result.state == Failed ==> c.pc.result.code == Stop(SystemFailed))
            && (c.pc.result.state == Degraded <==>
                  Ends(c.script) == Rejected || (failure.Some? && Transient(failure.value)))
  {
    ResultIsForetold(sys, schedule, i);
    ForetoldCause(Run(sys, schedule).calls[i].request, Run(sys, schedule).calls[i].script);
  }

  /** The error's message, in any case, contains these words. */
  ghost predicate Mentions(error: Error, words: string) {
    Text.OccursIn(Text.Lower(error.message), words)
  }

  lemma MentionsIff(error: Error, words: string)
    ensures Mentions(error, words) <==> Text.Contains(Text.Lower(error.message), words)
  {
    Text.ContainsIff(Text.Lower(error.message), words);
  }

  lemma ClassifiedIff(error: Error)
    ensures var f := ClassifyFailure(error);
            var timeout, connection := error.kind.TimeoutKind?, error.kind.ConnectionKind?;
            && (f.code == Stop(LlmRateLimited) <==> !timeout && !connection && Mentions(error, "rate limit"))
            && (f.code == Stop(LlmTimeout) <==>
                  timeout || (!connection && Mentions(error, "timeout") && !Mentions(error, "rate limit")))
            && (f.code == Stop(LlmConnectionError) <==>
                  connection || (!timeout && Mentions(error, "connection") && !Mentions(error, "timeout")
                                 && !Mentions(error, "rate limit")))
            && (f.code == Stop(SystemFailed) <==>
                  !timeout && !connection && !Mentions(error, "rate limit") && !Mentions(error, "timeout")
                  && !Mentions(error, "connection"))
            && (f == if f.code == Stop(SystemFailed) then Fallback(Failed, FailedStatus, f.code)
                     else Fallback(Degraded, DegradedStatus, f.code))
  {
    MentionsIff(error, "rate limit");
    MentionsIff(error, "timeout");
    MentionsIff(error, "connection");
  }

  /** What a finished call reports when it stopped early, code by code. */
  lemma StopsAreReportedIff(sys: System, schedule: seq<nat>, i: nat)
    requires Initial(sys) && i < |Run(sys, schedule).calls|
    requires var c := Run(sys, schedule).calls[i]; c.pc.Finished? && c.persisted
    ensures var script, r := Run(sys, schedule).calls[i].script, Run(sys, schedule).calls[i].pc.result;
            var id := Run(sys, schedule).calls[i].request.requestId;
            && (r.code == Stop(ResourceRejected) <==> script.admission == Ok(false))
            && (r.code == Stop(ResourceRejected) ==>
                  r == ReviewResult(id, Degraded, DegradedStatus, 0.0, Stop(ResourceRejected)))
            && (r.code == Stop(PolicyRejected) <==>
                  script.admission == Ok(true) && script.policy.Ok? && !script.policy.value.accepted
                  && script.toPrecheck.None?)
            && (r.code == Stop(PolicyRejected) ==>
                  r == ReviewResult(id, PrecheckFailed, RejectedStatus, 1.0, Stop(PolicyRejected)))
            && (Failure(script).Some? ==>
                  var f := ClassifyFailure(Failure(script).value);
                  r == ReviewResult(id, f.state, f.status, 0.0, f.code))
  {
    ResultIsForetold(sys, schedule, i);
    var script := Run(sys, schedule).calls[i].script;
    NoVerdictStops(script);
    if Failure(script).Some? {
      ClassifiedIff(Failure(script).value);
    }
  }

  /** A script that does not end early is not reported as one that did. */
  lemma NoVerdictStops(script: Script)
    ensures Ends(script).Deliverable? ==> !Ends(script).verdict.code.Stop?
    ensures Ends(script) == Rejected <==> script.admission == Ok(false)
    ensures Ends(script) == Prechecked
        <==> (script.admission == Ok(true) && script.policy.Ok? && !script.policy.value.accepted
              && script.toPrecheck.None?)
  {
    if script.selection.Ok? {
      AgentsNeverRefuse(script, [], Active(script));
    }
  }

  lemma {:induction false} AgentsNeverRefuse(script: Script, decisions: seq<AgentDecision>, todo: seq<Agent>)
    ensures var e := FromAgents(script, decisions, todo);
            e.Stopped? || (e.Deliverable? && !e.verdict.code.Stop?)
    decreases |todo|
  {
    if todo != [] && todo[0].run.Ok? {
      AgentsNeverRefuse(script, decisions + [todo[0].run.value], todo[1..]);
    }
  }

  // ----- a delivered review that is overwritten -----

  /** Call `i` owns its row, and the row says DELIVERED. */
  ghost predicate ShowsDelivered(sys: System, i: nat) {
    && i < |sys.calls| && sys.calls[i].persisted
    && var id := sys.calls[i].request.requestId;
       id in sys.store.rows && sys.store.rows[id].state == Delivered
  }

  ghost predicate OnceDelivered(sys: System, schedule: seq<nat>, i: nat) {
    exists n :: 0 <= n <= |schedule| && ShowsDelivered(Run(sys, schedule[..n]), i)
  }

  lemma ShownIsColumn(sys: System, schedule: seq<nat>, i: nat)
    requires Initial(sys) && i < |Run(sys, schedule).calls|
    ensures var c := Run(sys, schedule).calls[i];
            ShowsDelivered(Run(sys, schedule), i) <==> c.persisted && c.column == Delivered
  {
    EveryScheduleIsSafe(sys, schedule);
    var t := Run(sys, schedule);
    assert Attached(t.store, t.calls[i]);
  }

  /** The terminal mark of a delivery has been tried. */
  predicate PastDelivery(c: Call) {
    && c.persisted && Ends(c.script).Deliverable?
    && (c.pc.Recovery? || c.pc.Finished? || (c.pc.Closing? && c.pc.verdict.Publishing?))
  }

  lemma FinishingStep(s: Store, c: Call)
    requires Good(s, c) && !c.pc.Finished?
    requires Step(s, c).1.pc.Finished? && Step(s, c).1.persisted
    ensures || c.pc == Admission(MarkingRejected) || c.pc == Admission(MarkingPrecheck)
            || (c.pc.Closing? && c.pc.verdict.Publishing?) || c.pc.Recovery?
    ensures c.persisted
  {
    if c.pc == Admission(Creating) {
      EnterEffect(s, c);
    }
  }

  lemma DeliveryStep(s: Store, c: Call)
    requires Good(s, c) && Foreseen(c) && !PastDelivery(c) && PastDelivery(Step(s, c).1)
    requires Step(s, c).1.script == c.script && c.script.deliverMark.None?
    ensures Step(s, c).1.column == Delivered
  {
    StepForeseen(s, c);
    if Step(s, c).1.pc.Finished? && !c.pc.Finished? {
      FinishingStep(s, c);
    }
  }

  lemma DeliveredByThisStep(sys: System, schedule: seq<nat>, i: nat)
    requires Initial(sys) && schedule != [] && i < |Run(sys, schedule[..|schedule| - 1]).calls|
    requires !PastDelivery(Run(sys, schedule[..|schedule| - 1]).calls[i])
    requires i < |Run(sys, schedule).calls| && PastDelivery(Run(sys, schedule).calls[i])
    requires Run(sys, schedule).calls[i].script.deliverMark.None?
    ensures Run(sys, schedule).calls[i].column == Delivered
  {
    var n := |schedule| - 1;
    var before := Run(sys, schedule[..n]);
    EveryScheduleIsSafe(sys, schedule[..n]);
    EveryScheduleIsForeseen(sys, schedule[..n], i);
    assert schedule[n] == i;
    assert CallSound(before.calls[i]) && Attached(before.store, before.calls[i]);
    StepKeepsIdentity(before.store, before.calls[i]);
    DeliveryStep(before.store, before.calls[i]);
  }

  lemma {:induction false} DeliveredOnTheWay(sys: System, schedule: seq<nat>, i: nat)
    requires Initial(sys) && i < |Run(sys, schedule).calls|
    requires PastDelivery(Run(sys, schedule).calls[i])
    requires Run(sys, schedule).calls[i].script.deliverMark.None?
    ensures OnceDelivered(sys, schedule, i)
  {
    CallsKeepTheirIdentity(sys, schedule);
    assert sys.calls[i] == Start(sys.calls[i].request, sys.calls[i].script);
    if schedule != [] {
      var n := |schedule| - 1;
      var before := Run(sys, schedule[..n]);
      CallsKeepTheirIdentity(sys, schedule[..n]);
      if PastDelivery(before.calls[i]) {
        DeliveredOnTheWay(sys, schedule[..n], i);
        var m :| 0 <= m <= n && ShowsDelivered(Run(sys, schedule[..n][..m]), i);
        assert schedule[..n][..m] == schedule[..m];
      } else {
        DeliveredByThisStep(sys, schedule, i);
        ShownIsColumn(sys, schedule, i);
        assert schedule[..|schedule|] == schedule;
      }
    }
  }

  lemma OnlyDeliveriesShow(sys: System, schedule: seq<nat>, i: nat, n: nat)
    requires Initial(sys) && i < |Run(sys, schedule).calls| && n <= |schedule|
    requires ShowsDelivered(Run(sys, schedule[..n]), i)
    ensures var script := Run(sys, schedule).calls[i].script;
            Ends(script).Deliverable? && script.deliverMark.None?
  {
    ShownIsColumn(sys, schedule[..n], i);
    EveryScheduleIsForeseen(sys, schedule[..n], i);
    CallsKeepTheirIdentity(sys, schedule[..n]);
    CallsKeepTheirIdentity(sys, schedule);
  }

  /** DELIVERED is stored on the way and no longer there at the end exactly when the script delivers, its mark is
      written, publishing the findings raises something its caller does not forgive, and the second mark is written
      too. */
  lemma DeliveredIsOverwrittenIff(sys: System, schedule: seq<nat>, i: nat)
    requires Initial(sys) && i < |Run(sys, schedule).calls|
    requires var c := Run(sys, schedule).calls[i]; c.pc.Finished? && c.persisted
    ensures var script := Run(sys, schedule).calls[i].script;
            (OnceDelivered(sys, schedule, i) && !ShowsDelivered(Run(sys, schedule), i)
             <==> Delivers(script) && script.deliverMark.None?
                  && PublishQuickFix(script).Raise? && script.recoverMark.None?)
  {
    var c := Run(sys, schedule).calls[i];
    EveryScheduleIsForeseen(sys, schedule, i);
    ShownIsColumn(sys, schedule, i);
    EndsInDelivery(c.script);
    if OnceDelivered(sys, schedule, i) {
      var n :| 0 <= n <= |schedule| && ShowsDelivered(Run(sys, schedule[..n]), i);
      OnlyDeliveriesShow(sys, schedule, i, n);
    }
    if Delivers(c.script) && c.script.deliverMark.None? {
      DeliveredOnTheWay(sys, schedule, i);
    }
  }

  // ----- runs that fail late -----

  const NO_SERVICES := Services(None, None, None)

  const PASSING := AgentDecision("architecture", Passes, 0.95, None)

  /** Nothing goes wrong, one agent passes, and nothing is configured. */
  const CALM := Script(None, Ok(true), None, Ok(PolicyDecision(true, None)), None, None, None, None, None, None,
                       Ok([Agent("architecture", Ok(PASSING), None, None)]), None, None, None, NO_SERVICES,
                       None, None, None, None, None, None)

  lemma CalmAgents(script: Script)
    requires script.selection == CALM.selection && script.policy == CALM.policy
    ensures AllAgentsDecide(Active(script)) && Decided(Active(script)) == [PASSING]
  {
    var agents := CALM.selection.value;
    assert agents[1..] == [] && Permitted([], None) == [] && Decided([]) == [];
    assert Permitted(agents, None) == [agents[0]];
    assert Decided([agents[0]]) == [PASSING] + Decided([agents[0]][1..]);
  }

  lemma CalmDelivers(script: Script)
    requires script == CALM.(findings := script.findings, quickFix := script.quickFix)
    ensures Delivers(script)
  {
    CalmAgents(script);
    RejectIffSomeoneRejects([PASSING]);
    DecideRaisesIff([PASSING]);
  }

  /** The only call has finished, its delivery was stored, and is no longer. */
  ghost predicate Overwritten(sys: System, schedule: seq<nat>) {
    var t := Run(sys, schedule);
    && |t.calls| == 1 && t.calls[0].pc.Finished? && t.calls[0].persisted
    && OnceDelivered(sys, schedule, 0) && !ShowsDelivered(t, 0)
  }

  lemma CalmIsOverwrittenIff(s: Store, request: ReviewRequest, script: Script, schedule: seq<nat>)
    requires StoreAudit.Sound(s)
    requires script == CALM.(findings := script.findings, quickFix := script.quickFix)
    requires var sys := System(s, [Start(request, script)]);
             && |Run(sys, schedule).calls| == 1
             && Run(sys, schedule).calls[0].pc.Finished? && Run(sys, schedule).calls[0].persisted
    ensures Overwritten(System(s, [Start(request, script)]), schedule) <==> PublishQuickFix(script).Raise?
  {
    var sys := System(s, [Start(request, script)]);
    CallsKeepTheirIdentity(sys, schedule);
    CalmDelivers(script);
    DeliveredIsOverwrittenIff(sys, schedule, 0);
  }

  /** Whenever the findings cannot be collected, or the quick fix raises an error its publisher does not catch, the
      delivered review of an otherwise uneventful run is overwritten. */
  lemma LateFailureOverwrites(s: Store, request: ReviewRequest, script: Script) returns (schedule: seq<nat>)
    requires StoreAudit.Sound(s) && !Refused(s, request)
    requires script == CALM.(findings := script.findings, quickFix := script.quickFix)
    requires PublishQuickFix(script).Raise?
    ensures var sys := System(s, [Start(request, script)]);
            Overwritten(sys, schedule) && Run(sys, schedule).calls[0].pc.result.state != Delivered
  {
    var sys := System(s, [Start(request, script)]);
    schedule := AloneIsASchedule(s, Start(request, script));
    UninterruptedRunAgreesWithStore(s, request, script);
    CallsKeepTheirIdentity(sys, schedule);
    CalmIsOverwrittenIff(s, request, script, schedule);
    DeliveredIff(sys, schedule, 0);
  }

  /** Findings that cannot be collected overwrite the delivery whatever their error is; a quick fix does so exactly
      when it raises a type its publisher does not catch. */
  lemma LateFailuresExist(s: Store, request: ReviewRequest, e: Error)
    requires StoreAudit.Sound(s) && !Refused(s, request)
    ensures exists schedule :: Overwritten(System(s, [Start(request, CALM.(findings := Some(e)))]), schedule)
    ensures (exists schedule :: Overwritten(System(s, [Start(request, CALM.(quickFix := Some(e)))]), schedule))
        <==> !e.IsOsError() && !e.kind.ValueKind? && !e.kind.TypeKind?
  {
    var first, second := CALM.(findings := Some(e)), CALM.(quickFix := Some(e));
    var schedule := LateFailureOverwrites(s, request, first);
    if PublishQuickFix(second).Raise? {
      var other := LateFailureOverwrites(s, request, second);
    }
    forall schedule | Overwritten(System(s, [Start(request, second)]), schedule)
      ensures PublishQuickFix(second).Raise?
    {
      CalmIsOverwrittenIff(s, request, second, schedule);
    }
  }

  /** Everything up to the consensus succeeds. */
  predicate ReachesConsensus(script: Script) {
    && script.admission == Ok(true) && script.policy.Ok? && script.policy.value.accepted
    && script.toContext.None? && script.toAnalyzing.None? && script.toConsensus.None?
    && BuildContext(script).Ok? && script.selection.Ok? && AllAgentsDecide(Active(script))
  }

  lemma NotInLlmResult(part: string)
    requires |part| >= 7 && part[0] != 'l' && part[0] != 'm' && part[0] != '_'
    ensures !Text.Contains(Text.Lower("llm_result"), part)
  {
    var s := Text.Lower("llm_result");
    assert s[0] == 'l' && s[1] == 'l' && s[2] == 'm' && s[3] == '_';
    Text.NotContained(s, part);
  }

  lemma UnassignedVariableIsNotTransient()
    ensures !Transient(UNBOUND_LLM_RESULT)
  {
    NotInLlmResult("rate limit");
    NotInLlmResult("timeout");
    NotInLlmResult("connection");
  }

  /** The engine answers `k`, a Patch, and the patch is created and verified. */
  predicate VerifiesPatch(script: Script, k: ConsensusResult) {
    && ReachesConsensus(script) && script.engine == Some(Ok(k)) && k.status == Patch
    && script.services.patching == Some(PatchPipeline(Ok(true), Ok(true)))
  }

  lemma EndsInDeciding(script: Script)
    requires ReachesConsensus(script)
    ensures Ends(script) == FromDeciding(script, Decided(Active(script)))
  {
    AgentsDecide(script, [], Active(script));
    assert [] + Decided(Active(script)) == Decided(Active(script));
  }

  lemma PatchEnding(script: Script, k: ConsensusResult)
    requires VerifiesPatch(script, k)
    ensures var both := script.services.gate.Some? && script.services.autofix.Some?;
            && (both ==> Ends(script) == Stopped(UNBOUND_LLM_RESULT))
            && (!both ==> Ends(script)
                          == Deliverable(Verdict(PatchStatus, Gate(GateCode.PatchProposed), k.confidence, true)))
  {
    EndsInDeciding(script);
    VerifiedPatchIsDeliveredIff(k, script.services);
  }

  lemma FailureOfUnassignedVariable(request: ReviewRequest)
    ensures FailureResult(request, UNBOUND_LLM_RESULT).state == Failed
    ensures FailureResult(request, UNBOUND_LLM_RESULT).code == Stop(SystemFailed)
  {
    UnassignedVariableIsNotTransient();
    FallbackOf(UNBOUND_LLM_RESULT);
  }

  /** With an engine of its own that answers Patch, a run whose patch was verified delivers it exactly when the gate
      or the auto-fix service is missing; with both it reports SYSTEM_FAILED. */
  lemma VerifiedPatchIsReportedIff(sys: System, schedule: seq<nat>, i: nat, k: ConsensusResult)
    requires Initial(sys) && i < |Run(sys, schedule).calls|
    requires var c := Run(sys, schedule).calls[i]; c.pc.Finished? && c.persisted
    requires VerifiesPatch(Run(sys, schedule).calls[i].script, k)
    ensures var c := Run(sys, schedule).calls[i];
            var both := c.script.services.gate.Some? && c.script.services.autofix.Some?;
            && (Delivers(c.script) <==> !both)
            && (both ==> c.pc.result.state == Failed && c.pc.result.code == Stop(SystemFailed))
            && (!both && PublishQuickFix(c.script).Ok? ==>
                  c.pc.result.state == Delivered && c.pc.result.code == Gate(GateCode.PatchProposed))
  {
    var c := Run(sys, schedule).calls[i];
    ResultIsForetold(sys, schedule, i);
    EndsInDelivery(c.script);
    PatchEnding(c.script, k);
    FailureOfUnassignedVariable(c.request);
  }

  const ONE_PATCH := ConsensusResult(Patch, 0.9, [], [])

  /** A run whose patch was created and verified, and which fails because gate and auto-fix are both configured,
      whatever those two would answer. */
  lemma AVerifiedPatchFails(s: Store, request: ReviewRequest, gate: Generated, fix: Outcome<AutoFix>)
    returns (schedule: seq<nat>)
    requires StoreAudit.Sound(s) && !Refused(s, request)
    ensures var services := Services(Some(gate), Some(PatchPipeline(Ok(true), Ok(true))), Some(fix));
            var script := CALM.(engine := Some(Ok(ONE_PATCH)), services := services);
            var t := Run(System(s, [Start(request, script)]), schedule);
            && |t.calls| == 1 && t.calls[0].pc.Finished?
            && t.calls[0].pc.result.state == Failed && t.calls[0].pc.result.code == Stop(SystemFailed)
  {
    var services := Services(Some(gate), Some(PatchPipeline(Ok(true), Ok(true))), Some(fix));
    var script := CALM.(engine := Some(Ok(ONE_PATCH)), services := services);
    var sys := System(s, [Start(request, script)]);
    schedule := AloneIsASchedule(s, Start(request, script));
    UninterruptedRunAgreesWithStore(s, request, script);
    CallsKeepTheirIdentity(sys, schedule);
    CalmAgents(script);
    VerifiedPatchIsReportedIff(sys, schedule, 0, ONE_PATCH);
  }
}

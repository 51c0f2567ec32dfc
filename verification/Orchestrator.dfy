/** One call of the review pipeline as a state machine over the job store.

    A call carries a script that fixes in advance what every collaborator will answer or raise, so a step
    is a function; quantifying over scripts quantifies over every behaviour of the collaborators. Each step
    makes at most one store transaction, so interleavings of steps are interleavings of threads. */
module Orchestrator {
  import opened Outcomes
  import opened Codes
  import opened StateMachine
  import opened JobStore
  import opened LlmReviewGate
  import opened Consensus
  import opened PassGate
  import opened Sequences
  import Text

  datatype PolicyDecision = PolicyDecision(accepted: bool, allowedAgents: Option<set<string>>)

  /** An agent, what running it does, and whether its two progress events can be written. */
  datatype Agent = Agent(
    name: string,
    run: Outcome<AgentDecision>,
    startEvent: Option<Error>,
    endEvent: Option<Error>)

  datatype Script = Script(
    creation: Option<Error>,
    admission: Outcome<bool>,
    rejectMark: Option<Error>,
    policy: Outcome<PolicyDecision>,
    toPrecheck: Option<Error>,
    precheckMark: Option<Error>,
    toContext: Option<Error>,
    context: Option<Error>,
    cache: Option<Error>,
    toAnalyzing: Option<Error>,
    selection: Outcome<seq<Agent>>,
    toConsensus: Option<Error>,
    engine: Option<Outcome<ConsensusResult>>,
    findings: Option<Error>,
    services: Services,
    l3StartEvent: Option<Error>,
    l3EndEvent: Option<Error>,
    deliverMark: Option<Error>,
    quickFix: Option<Error>,
    recoverTransition: Option<Error>,
    recoverMark: Option<Error>)

  datatype ReviewResult = ReviewResult(
    requestId: string, state: ReviewState, status: Status, confidence: real, code: Code)

  // Where a call is in the pipeline.

  datatype AdmissionPc = Creating | Admitting | MarkingRejected | Screening | ToPrecheck | MarkingPrecheck

  datatype ContextPc = ToContext | Building | ToAnalyzing | Selecting

  datatype AgentsPc =
    | AgentStarting(todo: seq<Agent>)
    | AgentRunning(agent: Agent, rest: seq<Agent>)
    | AgentLogging(agent: Agent, rest: seq<Agent>)
    | AgentFailing(agent: Agent, error: Error)
    | ToConsensus

  datatype ReviewPc =
    | Deciding
    | L3Starting(consensus: ConsensusResult)
    | L3Asking(consensus: ConsensusResult)
    | L3Logging(consensus: ConsensusResult, payload: Payload)
    | L3Failing(error: Error)

  datatype VerdictPc =
    | Concluding(consensus: ConsensusResult, llm: Option<Payload>)
    | Delivering(verdict: Verdict)
    | Publishing(verdict: Verdict)

  datatype RecoveryPc = Recovering(error: Error) | MarkingFallback(error: Error)

  datatype Pc =
    | Admission(admission: AdmissionPc)
    | Context(context: ContextPc)
    | Agents(agents: AgentsPc)
    | Judging(review: ReviewPc)
    | Closing(verdict: VerdictPc)
    | Recovery(recovery: RecoveryPc)
    | Finished(result: ReviewResult)

  datatype MarkStatus = NotMarked | Marked | MarkLost

  /** `current` and `persisted` are the pipeline's own variables. `column` and `mark` are history: the
      state this call last wrote to its row, and what became of its last terminal mark. */
  datatype Call = Call(
    request: ReviewRequest,
    script: Script,
    pc: Pc,
    current: ReviewState,
    persisted: bool,
    decisions: seq<AgentDecision>,
    column: ReviewState,
    mark: MarkStatus)

  function Start(request: ReviewRequest, script: Script): Call {
    Call(request, script, Admission(Creating), Queued, false, [], Queued, NotMarked)
  }

  // ----- failure classification -----

  datatype Fallback = Fallback(state: ReviewState, status: Status, code: Code)

  function ClassifyFailure(error: Error): (f: Fallback)
    ensures f.state == Degraded || f.state == Failed
    ensures ExitCode(f.code) == 1
  {
    var message := Text.Lower(error.message);
    if error.kind.TimeoutKind? then Fallback(Degraded, DegradedStatus, Stop(LlmTimeout))
    else if error.kind.ConnectionKind? then Fallback(Degraded, DegradedStatus, Stop(LlmConnectionError))
    else if Text.Contains(message, "rate limit") then Fallback(Degraded, DegradedStatus, Stop(LlmRateLimited))
    else if Text.Contains(message, "timeout") then Fallback(Degraded, DegradedStatus, Stop(LlmTimeout))
    else if Text.Contains(message, "connection") then Fallback(Degraded, DegradedStatus, Stop(LlmConnectionError))
    else Fallback(Failed, FailedStatus, Stop(SystemFailed))
  }

  // ----- results -----

  function DuplicateResult(request: ReviewRequest): ReviewResult {
    ReviewResult(request.requestId, Delivered, IgnoredStatus, 1.0, Stop(DuplicateRequestIgnored))
  }

  function RejectedResult(request: ReviewRequest): ReviewResult {
    ReviewResult(request.requestId, Degraded, DegradedStatus, 0.0, Stop(ResourceRejected))
  }

  function PrecheckResult(request: ReviewRequest): ReviewResult {
    ReviewResult(request.requestId, PrecheckFailed, RejectedStatus, 1.0, Stop(PolicyRejected))
  }

  function VerdictResult(request: ReviewRequest, v: Verdict): ReviewResult {
    ReviewResult(request.requestId, Delivered, v.status, v.confidence, v.code)
  }

  function FailureResult(request: ReviewRequest, error: Error): ReviewResult {
    var f := ClassifyFailure(error);
    ReviewResult(request.requestId, f.state, f.status, 0.0, f.code)
  }

  // ----- pieces of the pipeline -----

  function Permitted(agents: seq<Agent>, allowed: Option<set<string>>): seq<Agent> {
    if agents == [] then []
    else
      (if allowed.None? || agents[0].name in allowed.value then [agents[0]] else [])
      + Permitted(agents[1..], allowed)
  }

  /** The agents that run are those the policy names, or all where it names none, as often as they were selected. */
  lemma {:induction false} PermittedIff(agents: seq<Agent>, allowed: Option<set<string>>, a: Agent)
    ensures a in Permitted(agents, allowed) <==> a in agents && (allowed.None? || a.name in allowed.value)
    ensures multiset(Permitted(agents, allowed))[a]
         == if allowed.None? || a.name in allowed.value then multiset(agents)[a] else 0
  {
    if agents != [] {
      PermittedIff(agents[1..], allowed, a);
      assert agents == [agents[0]] + agents[1..];
    }
  }

  /** And they run in the order of the selection. */
  lemma {:induction false} PermittedInOrder(a: seq<Agent>, b: seq<Agent>, allowed: Option<set<string>>)
    ensures Permitted(a + b, allowed) == Permitted(a, allowed) + Permitted(b, allowed)
  {
    if a == [] {
      assert a + b == b;
    } else {
      PermittedInOrder(a[1..], b, allowed);
      assert (a + b)[1..] == a[1..] + b && (a + b)[0] == a[0];
      var first := if allowed.None? || a[0].name in allowed.value then [a[0]] else [];
      Associative(first, Permitted(a[1..], allowed), Permitted(b, allowed));
    }
  }

  /** The agents this script runs: those selected, restricted to those the policy allows. */
  function Active(script: Script): seq<Agent> {
    if script.selection.Ok? && script.policy.Ok?
    then Permitted(script.selection.value, script.policy.value.allowedAgents)
    else []
  }

  /** Building the context, with the cache lookup whose usual failures are forgiven. */
  function BuildContext(script: Script): Outcome<Unit> {
    if script.context.Some? then Raise(script.context.value)
    else if script.cache.Some? && !script.cache.value.IsOsError() && !script.cache.value.kind.RuntimeKind?
    then Raise(script.cache.value)
    else Ok(Unit)
  }

  function Consult(script: Script, decisions: seq<AgentDecision>): Outcome<ConsensusResult> {
    if script.engine.Some? then script.engine.value else DecideOrRaise(decisions)
  }

  /** Collecting findings, then publishing the quick fix, which forgives only three exception types. */
  function PublishQuickFix(script: Script): Outcome<Unit> {
    if script.findings.Some? then Raise(script.findings.value)
    else
      match script.quickFix
      case None => Ok(Unit)
      case Some(e) => if e.IsOsError() || e.kind.ValueKind? || e.kind.TypeKind? then Ok(Unit) else Raise(e)
  }

  function AgentEvent(phase: string, step: ProgressCode): Event {
    Stage("agent", phase, step)
  }

  function L3Event(phase: string, step: ProgressCode): Event {
    Stage("l3", phase, step)
  }

  // ----- one step -----

  function Goto(c: Call, pc: Pc): Call {
    c.(pc := pc)
  }

  function Throw(c: Call, error: Error): Call {
    Goto(c, Recovery(Recovering(error)))
  }

  /** A forward move of the pipeline: a checked transition whose failure aborts the run. */
  function Advance(s: Store, c: Call, to: ReviewState, code: Code, fault: Option<Error>, next: Pc): (Store, Call) {
    var (s', r) := TransitionGuarded(s, c.request.requestId, c.current, to, code, fault);
    match r
    case Raise(e) => (s', Throw(c, e))
    case Ok(_) => (s', c.(current := to, column := to, pc := next))
  }

  /** A terminal mark; its failure is logged and swallowed. */
  function MarkSafe(s: Store, c: Call, final: ReviewState, code: Code, fault: Option<Error>, next: Pc): (Store, Call) {
    var (s', r) := MarkGuarded(s, c.request.requestId, final, code, fault);
    (s', if r.Ok? then c.(column := final, mark := Marked, pc := next) else c.(mark := MarkLost, pc := next))
  }

  /** A progress event; its failure is logged and swallowed. */
  function Log(s: Store, c: Call, event: Event, fault: Option<Error>, next: Pc): (Store, Call) {
    (AppendGuarded(s, c.request.requestId, event, fault).0, Goto(c, next))
  }

  function Enter(s: Store, c: Call): (Store, Call) {
    var (s', r) := CreateGuarded(s, c.request, c.script.creation);
    match r
    case Raise(e) => (s', Throw(c, e))
    case Ok(o) =>
      if o.duplicate then (s', Goto(c, Finished(DuplicateResult(c.request))))
      else (s', c.(persisted := o.created, column := Queued, pc := Admission(Admitting)))
  }

  function RunAgent(c: Call, agent: Agent, rest: seq<Agent>): Call {
    match agent.run
    case Raise(e) => Goto(c, Agents(AgentFailing(agent, e)))
    case Ok(d) => c.(decisions := c.decisions + [d], pc := Agents(AgentLogging(agent, rest)))
  }

  function TakeConsensus(c: Call): Call {
    match Consult(c.script, c.decisions)
    case Raise(e) => Throw(c, e)
    case Ok(k) =>
      if !AsksL3(k, c.script.services) then Goto(c, Closing(Concluding(k, None)))
      else if c.script.findings.Some? then Throw(c, c.script.findings.value)
      else Goto(c, Judging(L3Starting(k)))
  }

  function AskL3(c: Call, k: ConsensusResult): Call {
    if c.script.services.gate.None? then Goto(c, Closing(Concluding(k, None)))
    else
      match Review(c.script.services.gate.value)
      case Raise(e) => Goto(c, Judging(L3Failing(e)))
      case Ok(p) => Goto(c, Judging(L3Logging(k, p)))
  }

  function StepAdmission(s: Store, c: Call, at: AdmissionPc): (Store, Call) {
    var script, request := c.script, c.request;
    match at
    case Creating => Enter(s, c)
    case Admitting =>
      (match script.admission
       case Raise(e) => (s, Throw(c, e))
       case Ok(allowed) => (s, Goto(c, Admission(if allowed then Screening else MarkingRejected))))
    case MarkingRejected =>
      MarkSafe(s, c, Degraded, Stop(ResourceRejected), script.rejectMark, Finished(RejectedResult(request)))
    case Screening =>
      (match script.policy
       case Raise(e) => (s, Throw(c, e))
       case Ok(d) => (s, Goto(c, if d.accepted then Context(ToContext) else Admission(ToPrecheck))))
    case ToPrecheck =>
      Advance(s, c, PrecheckFailed, Stop(PolicyRejected), script.toPrecheck, Admission(MarkingPrecheck))
    case MarkingPrecheck =>
      MarkSafe(s, c, PrecheckFailed, Stop(PolicyRejected), script.precheckMark, Finished(PrecheckResult(request)))
  }

  function StepContext(s: Store, c: Call, at: ContextPc): (Store, Call) {
    var script := c.script;
    match at
    case ToContext =>
      Advance(s, c, ContextReady, Progress(ContextBuildStarted), script.toContext, Context(Building))
    case Building =>
      (match BuildContext(script)
       case Raise(e) => (s, Throw(c, e))
       case Ok(_) => (s, Goto(c, Context(ToAnalyzing))))
    case ToAnalyzing =>
      Advance(s, c, Analyzing, Progress(AgentsStarted), script.toAnalyzing, Context(Selecting))
    case Selecting =>
      (match script.selection
       case Raise(e) => (s, Throw(c, e))
       case Ok(_) => (s, Goto(c, Agents(AgentStarting(Active(script))))))
  }

  function StepAgents(s: Store, c: Call, at: AgentsPc): (Store, Call) {
    match at
    case AgentStarting(todo) =>
      if todo == [] then (s, Goto(c, Agents(ToConsensus)))
      else
        Log(s, c, AgentEvent("started", AgentStarted), todo[0].startEvent, Agents(AgentRunning(todo[0], todo[1..])))
    case AgentRunning(agent, rest) => (s, RunAgent(c, agent, rest))
    case AgentLogging(agent, rest) =>
      Log(s, c, AgentEvent("completed", AgentCompleted), agent.endEvent, Agents(AgentStarting(rest)))
    case AgentFailing(agent, e) =>
      Log(s, c, AgentEvent("failed", AgentFailed), agent.endEvent, Recovery(Recovering(e)))
    case ToConsensus =>
      Advance(s, c, ConsensusReached, Progress(ConsensusWasReached), c.script.toConsensus, Judging(Deciding))
  }

  function StepReview(s: Store, c: Call, at: ReviewPc): (Store, Call) {
    match at
    case Deciding => (s, TakeConsensus(c))
    case L3Starting(k) => Log(s, c, L3Event("started", L3Started), c.script.l3StartEvent, Judging(L3Asking(k)))
    case L3Asking(k) => (s, AskL3(c, k))
    case L3Logging(k, p) =>
      Log(s, c, L3Event("completed", L3Completed), c.script.l3EndEvent, Closing(Concluding(k, Some(p))))
    case L3Failing(e) => Log(s, c, L3Event("failed", L3Failed), c.script.l3EndEvent, Recovery(Recovering(e)))
  }

  function StepVerdict(s: Store, c: Call, at: VerdictPc): (Store, Call) {
    match at
    case Concluding(k, llm) =>
      (match Conclude(k, c.script.services, llm)
       case Raise(e) => (s, Throw(c, e))
       case Ok(v) => (s, Goto(c, Closing(Delivering(v)))))
    case Delivering(v) => MarkSafe(s, c, Delivered, v.code, c.script.deliverMark, Closing(Publishing(v)))
    case Publishing(v) =>
      (match PublishQuickFix(c.script)
       case Raise(e) => (s, Throw(c, e))
       case Ok(_) => (s, Goto(c, Finished(VerdictResult(c.request, v)))))
  }

  /** The exception handler: try to record the failure as a transition, then mark it. */
  function StepRecovery(s: Store, c: Call, at: RecoveryPc): (Store, Call) {
    var f := ClassifyFailure(at.error);
    match at
    case Recovering(e) =>
      if !c.persisted then (s, Goto(c, Finished(FailureResult(c.request, e))))
      else if IsTerminal(c.current) || c.current == f.state then (s, Goto(c, Recovery(MarkingFallback(e))))
      else
        var (s', r) := TransitionGuarded(s, c.request.requestId, c.current, f.state, f.code,
                                         c.script.recoverTransition);
        (s', c.(current := f.state, column := if r.Ok? then f.state else c.column, pc := Recovery(MarkingFallback(e))))
    case MarkingFallback(e) =>
      MarkSafe(s, c, f.state, f.code, c.script.recoverMark, Finished(FailureResult(c.request, e)))
  }

  function Step(s: Store, c: Call): (Store, Call) {
    match c.pc
    case Admission(at) => StepAdmission(s, c, at)
    case Context(at) => StepContext(s, c, at)
    case Agents(at) => StepAgents(s, c, at)
    case Judging(at) => StepReview(s, c, at)
    case Closing(at) => StepVerdict(s, c, at)
    case Recovery(at) => StepRecovery(s, c, at)
    case Finished(_) => (s, c)
  }

  // ----- a call on its own terminates -----

  function Phase(pc: Pc): nat {
    match pc
    case Admission(_) => 6
    case Context(_) => 5
    case Agents(_) => 4
    case Judging(_) => 3
    case Closing(_) => 2
    case Recovery(_) => 1
    case Finished(_) => 0
  }

  function Remaining(pc: Pc): nat {
    match pc
    case Admission(Creating) => 4
    case Admission(Admitting) => 3
    case Admission(Screening) => 2
    case Admission(ToPrecheck) => 1
    case Context(ToContext) => 3
    case Context(Building) => 2
    case Context(ToAnalyzing) => 1
    case Agents(AgentStarting(todo)) => 3 * |todo| + 1
    case Agents(AgentRunning(_, rest)) => 3 * |rest| + 3
    case Agents(AgentLogging(_, rest)) => 3 * |rest| + 2
    case Judging(Deciding) => 3
    case Judging(L3Starting(_)) => 2
    case Judging(L3Asking(_)) => 1
    case Closing(Concluding(_, _)) => 2
    case Closing(Delivering(_)) => 1
    case Recovery(Recovering(_)) => 1
    case _ => 0
  }

  predicate Descends(from: Pc, to: Pc) {
    Phase(to) < Phase(from) || (Phase(to) == Phase(from) && Remaining(to) < Remaining(from))
  }

  lemma ReviewDescends(s: Store, c: Call, at: ReviewPc)
    requires c.pc == Judging(at)
    ensures Descends(c.pc, StepReview(s, c, at).1.pc)
  {
  }

  lemma AgentsDescends(s: Store, c: Call, at: AgentsPc)
    requires c.pc == Agents(at)
    ensures Descends(c.pc, StepAgents(s, c, at).1.pc)
  {
  }

  lemma AdmissionDescends(s: Store, c: Call, at: AdmissionPc)
    requires c.pc == Admission(at)
    ensures Descends(c.pc, StepAdmission(s, c, at).1.pc)
  {
  }

  lemma StepDescends(s: Store, c: Call)
    requires !c.pc.Finished?
    ensures Descends(c.pc, Step(s, c).1.pc)
  {
    match c.pc
    case Admission(at) => AdmissionDescends(s, c, at);
    case Agents(at) => AgentsDescends(s, c, at);
    case Judging(at) => ReviewDescends(s, c, at);
    case _ =>
  }

  /** The call stepped until it finishes, with nobody else at the store. */
  function RunAlone(s: Store, c: Call): (r: (Store, Call))
    ensures r.1.pc.Finished?
    decreases Phase(c.pc), Remaining(c.pc)
  {
    if c.pc.Finished? then (s, c)
    else
      StepDescends(s, c);
      var (s', c') := Step(s, c);
      RunAlone(s', c')
  }
}

/** What one step of a call keeps: its own bookkeeping, its row, and everybody else's rows. */
module OrchestratorSafety {
  import opened Outcomes
  import opened Codes
  import opened StateMachine
  import opened JobStore
  import opened StoreAudit
  import opened LlmReviewGate
  import opened Consensus
  import opened PassGate
  import opened Orchestrator

  // ----- what a call knows about itself -----

  /** The decisions so far are those of the first active agents, and `todo` are the others. */
  ghost predicate DecisionsSoFar(c: Call, todo: seq<Agent>) {
    var agents := Active(c.script);
    && |c.decisions| + |todo| == |agents|
    && todo == agents[|c.decisions|..]
    && forall k :: 0 <= k < |c.decisions| ==> agents[k].run == Ok(c.decisions[k])
  }

  /** Every active agent has decided. */
  ghost predicate AllDecided(c: Call) {
    DecisionsSoFar(c, [])
  }

  /** The L3 payload a consensus leads to, None when L3 is not asked; Raise when asking it raised. */
  function L3Answer(script: Script, k: ConsensusResult): Outcome<Option<Payload>> {
    if !AsksL3(k, script.services) then Ok(None)
    else
      match Review(script.services.gate.value)
      case Raise(e) => Raise(e)
      case Ok(p) => Ok(Some(p))
  }

  /** The verdict the collaborators' answers lead to. */
  function Judge(script: Script, decisions: seq<AgentDecision>): Outcome<Verdict> {
    match Consult(script, decisions)
    case Raise(e) => Raise(e)
    case Ok(k) =>
      match L3Answer(script, k)
      case Raise(e) => Raise(e)
      case Ok(llm) => Conclude(k, script.services, llm)
  }

  /** The pipeline state at each point before the first terminal mark. */
  function StageState(pc: Pc): ReviewState {
    match pc
    case Admission(at) => if at.MarkingPrecheck? then PrecheckFailed else Queued
    case Context(at) => if at.ToContext? then Queued else if at.Selecting? then Analyzing else ContextReady
    case Agents(_) => Analyzing
    case _ => ConsensusReached
  }

  ghost predicate AgentsFaithful(c: Call, at: AgentsPc) {
    match at
    case AgentStarting(todo) => DecisionsSoFar(c, todo)
    case AgentRunning(agent, rest) => DecisionsSoFar(c, [agent] + rest)
    case AgentLogging(_, rest) => DecisionsSoFar(c, rest)
    case AgentFailing(_, _) => true
    case ToConsensus => AllDecided(c)
  }

  ghost predicate ReviewFaithful(c: Call, at: ReviewPc) {
    match at
    case Deciding => AllDecided(c)
    case L3Starting(k) => AllDecided(c) && Consult(c.script, c.decisions) == Ok(k) && AsksL3(k, c.script.services)
    case L3Asking(k) => AllDecided(c) && Consult(c.script, c.decisions) == Ok(k) && AsksL3(k, c.script.services)
    case L3Logging(k, p) =>
      AllDecided(c) && Consult(c.script, c.decisions) == Ok(k) && L3Answer(c.script, k) == Ok(Some(p))
    case L3Failing(_) => true
  }

  ghost predicate VerdictFaithful(c: Call, at: VerdictPc) {
    && AllDecided(c)
    && match at
       case Concluding(k, llm) => Consult(c.script, c.decisions) == Ok(k) && L3Answer(c.script, k) == Ok(llm)
       case Delivering(v) => Judge(c.script, c.decisions) == Ok(v)
       case Publishing(v) => Judge(c.script, c.decisions) == Ok(v)
  }

  /** What a finished call reports, against what it wrote. */
  ghost predicate Settled(c: Call, r: ReviewResult) {
    && r.requestId == c.request.requestId
    && IsTerminal(r.state)
    && (c.persisted ==> c.mark != NotMarked)
    && (c.persisted && c.mark == Marked ==> c.column == r.state)
    && (!c.persisted ==>
          r == DuplicateResult(c.request)
          || (c.script.creation.Some? && r == FailureResult(c.request, c.script.creation.value)))
    && (c.persisted && r.state == Delivered ==> DeliveredHonestly(c, r))
    && (r.state != Delivered ==> ExitCode(r.code) == 1)
  }

  ghost predicate DeliveredHonestly(c: Call, r: ReviewResult) {
    && AllDecided(c)
    && Judge(c.script, c.decisions).Ok?
    && r == VerdictResult(c.request, Judge(c.script, c.decisions).value)
  }

  /** Before its first terminal mark a call's row is in the state its pipeline variable says. */
  ghost predicate OnTrack(c: Call) {
    c.persisted && c.mark == NotMarked && c.column == c.current == StageState(c.pc)
  }

  /** The states a call can fail in. */
  predicate Underway(state: ReviewState) {
    state in {Queued, ContextReady, Analyzing, ConsensusReached}
  }

  ghost predicate Failing(c: Call) {
    if !c.persisted then c.current == Queued && c.mark == NotMarked
    else
      && Underway(c.current)
      && c.column == (if c.mark == Marked then Delivered else c.current)
      && (c.mark != NotMarked ==> c.current == ConsensusReached)
  }

  ghost predicate CallSound(c: Call) {
    match c.pc
    case Admission(at) =>
      c.decisions == []
      && if at.Creating? then !c.persisted && c.mark == NotMarked && c.current == Queued else OnTrack(c)
    case Context(_) => c.decisions == [] && OnTrack(c)
    case Agents(at) => OnTrack(c) && AgentsFaithful(c, at)
    case Judging(at) => OnTrack(c) && ReviewFaithful(c, at)
    case Closing(at) =>
      VerdictFaithful(c, at)
      && if at.Publishing? then c.persisted && c.mark != NotMarked && Failing(c) else OnTrack(c)
    case Recovery(at) =>
      if at.Recovering? then Failing(c) && (!c.persisted ==> c.script.creation == Some(at.error))
      else c.persisted && (c.mark == NotMarked ==> Underway(c.column) || IsTerminal(c.column))
    case Finished(r) => Settled(c, r)
  }

  // ----- one call against the store -----

  ghost predicate Owns(s: Store, c: Call) {
    var id := c.request.requestId;
    id in s.rows && s.rows[id] == Row(c.request, c.column)
  }

  ghost predicate Attached(s: Store, c: Call) {
    c.persisted ==> Owns(s, c)
  }

  /** A step leaves every row alone except the one its call owns; it may add one row, for its own
      request id, and only by becoming that row's owner. */
  ghost predicate Framed(s: Store, c: Call, s': Store, c': Call) {
    && c'.request == c.request && c'.script == c.script
    && (c.persisted ==> c'.persisted)
    && (forall id :: id in s.rows && !(c.persisted && id == c.request.requestId) ==>
          id in s'.rows && s'.rows[id] == s.rows[id])
    && (forall id :: id in s'.rows && id !in s.rows ==> c'.persisted && id == c.request.requestId)
    && (c'.persisted && !c.persisted ==> !Refused(s, c.request))
  }

  ghost predicate StoreStep(s: Store, c: Call, s': Store, c': Call) {
    Attached(s', c') && Framed(s, c, s', c')
  }

  lemma EnterEffect(s: Store, c: Call)
    requires Indexed(s) && !c.persisted
    ensures var (s', c') := Enter(s, c);
            && StoreStep(s, c, s', c')
            && (c' == c.(persisted := true, column := Queued, pc := Admission(Admitting))
                || (c' == Goto(c, Finished(DuplicateResult(c.request))) && s'.rows == s.rows)
                || (c.script.creation.Some? && c' == Throw(c, c.script.creation.value) && s' == s))
  {
  }

  lemma AdvanceEffect(s: Store, c: Call, to: ReviewState, code: Code, fault: Option<Error>, next: Pc)
    requires c.persisted && Owns(s, c) && c.column == c.current && CanTransition(c.current, to)
    ensures var (s', c') := Advance(s, c, to, code, fault, next);
            && StoreStep(s, c, s', c')
            && c' == (if fault.Some? then Throw(c, fault.value) else c.(current := to, column := to, pc := next))
  {
  }

  lemma MarkEffect(s: Store, c: Call, final: ReviewState, code: Code, fault: Option<Error>, next: Pc)
    requires c.persisted && Owns(s, c)
    ensures var (s', c') := MarkSafe(s, c, final, code, fault, next);
            && StoreStep(s, c, s', c')
            && c' == (if fault.Some? then c.(mark := MarkLost, pc := next)
                      else c.(column := final, mark := Marked, pc := next))
  {
  }

  lemma LogEffect(s: Store, c: Call, event: Event, fault: Option<Error>, next: Pc)
    requires Attached(s, c)
    ensures var (s', c') := Log(s, c, event, fault, next);
            StoreStep(s, c, s', c') && c' == Goto(c, next) && s'.rows == s.rows
  {
  }

  // ----- every step keeps the bookkeeping -----

  ghost predicate Good(s: Store, c: Call) {
    Indexed(s) && Attached(s, c) && CallSound(c)
  }

  ghost predicate GoodStep(s: Store, c: Call, s': Store, c': Call) {
    StoreStep(s, c, s', c') && CallSound(c')
  }

  lemma CreatingKeeps(s: Store, c: Call)
    requires Good(s, c) && c.pc == Admission(Creating)
    ensures var (s', c') := Enter(s, c); GoodStep(s, c, s', c')
  {
    EnterEffect(s, c);
  }

  lemma RejectionKeeps(s: Store, c: Call)
    requires Good(s, c) && c.pc == Admission(MarkingRejected)
    ensures var (s', c') := StepAdmission(s, c, MarkingRejected); GoodStep(s, c, s', c')
  {
    MarkEffect(s, c, Degraded, Stop(ResourceRejected), c.script.rejectMark, Finished(RejectedResult(c.request)));
  }

  lemma PrecheckKeeps(s: Store, c: Call)
    requires Good(s, c) && c.pc == Admission(MarkingPrecheck)
    ensures var (s', c') := StepAdmission(s, c, MarkingPrecheck); GoodStep(s, c, s', c')
  {
    MarkEffect(s, c, PrecheckFailed, Stop(PolicyRejected), c.script.precheckMark, Finished(PrecheckResult(c.request)));
  }

  lemma ToPrecheckKeeps(s: Store, c: Call)
    requires Good(s, c) && c.pc == Admission(ToPrecheck)
    ensures var (s', c') := StepAdmission(s, c, ToPrecheck); GoodStep(s, c, s', c')
  {
    AdvanceEffect(s, c, PrecheckFailed, Stop(PolicyRejected), c.script.toPrecheck, Admission(MarkingPrecheck));
  }

  lemma AdmissionKeeps(s: Store, c: Call, at: AdmissionPc)
    requires Good(s, c) && c.pc == Admission(at)
    ensures var (s', c') := StepAdmission(s, c, at); GoodStep(s, c, s', c')
  {
    match at
    case Creating => CreatingKeeps(s, c);
    case MarkingRejected => RejectionKeeps(s, c);
    case ToPrecheck => ToPrecheckKeeps(s, c);
    case MarkingPrecheck => PrecheckKeeps(s, c);
    case _ =>
  }

  lemma ContextKeeps(s: Store, c: Call, at: ContextPc)
    requires Good(s, c) && c.pc == Context(at)
    ensures var (s', c') := StepContext(s, c, at); GoodStep(s, c, s', c')
  {
    match at
    case ToContext =>
      AdvanceEffect(s, c, ContextReady, Progress(ContextBuildStarted), c.script.toContext, Context(Building));
    case ToAnalyzing =>
      AdvanceEffect(s, c, Analyzing, Progress(AgentsStarted), c.script.toAnalyzing, Context(Selecting));
    case _ =>
  }

  lemma AgentStartingKeeps(s: Store, c: Call, agent: Agent, rest: seq<Agent>)
    requires Good(s, c) && c.pc == Agents(AgentStarting([agent] + rest))
    ensures var (s', c') := Log(s, c, AgentEvent("started", AgentStarted), agent.startEvent,
                                Agents(AgentRunning(agent, rest)));
            GoodStep(s, c, s', c')
  {
    LogEffect(s, c, AgentEvent("started", AgentStarted), agent.startEvent, Agents(AgentRunning(agent, rest)));
  }

  lemma AgentRunningKeeps(c: Call, agent: Agent, rest: seq<Agent>)
    requires CallSound(c) && c.pc == Agents(AgentRunning(agent, rest))
    ensures CallSound(RunAgent(c, agent, rest))
  {
    assert Active(c.script)[|c.decisions|..][0] == agent;
    assert rest == Active(c.script)[|c.decisions| + 1..];
  }

  lemma AgentsKeep(s: Store, c: Call, at: AgentsPc)
    requires Good(s, c) && c.pc == Agents(at)
    ensures var (s', c') := StepAgents(s, c, at); GoodStep(s, c, s', c')
  {
    match at
    case AgentStarting(todo) =>
      if todo != [] {
        assert todo == [todo[0]] + todo[1..];
        AgentStartingKeeps(s, c, todo[0], todo[1..]);
      }
    case AgentRunning(agent, rest) => AgentRunningKeeps(c, agent, rest);
    case AgentLogging(agent, rest) =>
      LogEffect(s, c, AgentEvent("completed", AgentCompleted), agent.endEvent, Agents(AgentStarting(rest)));
    case AgentFailing(agent, e) =>
      LogEffect(s, c, AgentEvent("failed", AgentFailed), agent.endEvent, Recovery(Recovering(e)));
    case ToConsensus =>
      AdvanceEffect(s, c, ConsensusReached, Progress(ConsensusWasReached), c.script.toConsensus, Judging(Deciding));
  }

  lemma TakeConsensusKeeps(c: Call)
    requires CallSound(c) && c.pc == Judging(Deciding)
    ensures CallSound(TakeConsensus(c))
  {
  }

  lemma ReviewKeeps(s: Store, c: Call, at: ReviewPc)
    requires Good(s, c) && c.pc == Judging(at)
    ensures var (s', c') := StepReview(s, c, at); GoodStep(s, c, s', c')
  {
    match at
    case Deciding => TakeConsensusKeeps(c);
    case L3Starting(k) => LogEffect(s, c, L3Event("started", L3Started), c.script.l3StartEvent, Judging(L3Asking(k)));
    case L3Logging(k, p) =>
      LogEffect(s, c, L3Event("completed", L3Completed), c.script.l3EndEvent, Closing(Concluding(k, Some(p))));
    case L3Failing(e) => LogEffect(s, c, L3Event("failed", L3Failed), c.script.l3EndEvent, Recovery(Recovering(e)));
    case _ =>
  }

  lemma VerdictKeeps(s: Store, c: Call, at: VerdictPc)
    requires Good(s, c) && c.pc == Closing(at)
    ensures var (s', c') := StepVerdict(s, c, at); GoodStep(s, c, s', c')
  {
    if at.Delivering? {
      MarkEffect(s, c, Delivered, at.verdict.code, c.script.deliverMark, Closing(Publishing(at.verdict)));
    }
  }

  lemma RecoverTransitionEffect(s: Store, c: Call, to: ReviewState, code: Code, fault: Option<Error>, c': Call)
    requires c.persisted && Owns(s, c)
    requires var r := TransitionGuarded(s, c.request.requestId, c.current, to, code, fault).1;
             c' == c.(current := to, column := if r.Ok? then to else c.column, pc := c'.pc)
    ensures StoreStep(s, c, TransitionGuarded(s, c.request.requestId, c.current, to, code, fault).0, c')
  {
  }

  lemma RecoveringKeeps(s: Store, c: Call, e: Error)
    requires Good(s, c) && c.pc == Recovery(Recovering(e))
    ensures var (s', c') := StepRecovery(s, c, Recovering(e)); GoodStep(s, c, s', c')
  {
    var f := ClassifyFailure(e);
    if c.persisted && c.current != f.state {
      RecoverTransitionEffect(s, c, f.state, f.code, c.script.recoverTransition, StepRecovery(s, c, Recovering(e)).1);
    }
  }

  lemma RecoveryKeeps(s: Store, c: Call, at: RecoveryPc)
    requires Good(s, c) && c.pc == Recovery(at)
    ensures var (s', c') := StepRecovery(s, c, at); GoodStep(s, c, s', c')
  {
    if at.Recovering? {
      RecoveringKeeps(s, c, at.error);
    } else {
      var f := ClassifyFailure(at.error);
      MarkEffect(s, c, f.state, f.code, c.script.recoverMark, Finished(FailureResult(c.request, at.error)));
    }
  }

  lemma StepKeeps(s: Store, c: Call)
    requires Good(s, c)
    ensures var (s', c') := Step(s, c); GoodStep(s, c, s', c')
  {
    match c.pc
    case Admission(at) => AdmissionKeeps(s, c, at);
    case Context(at) => ContextKeeps(s, c, at);
    case Agents(at) => AgentsKeep(s, c, at);
    case Judging(at) => ReviewKeeps(s, c, at);
    case Closing(at) => VerdictKeeps(s, c, at);
    case Recovery(at) => RecoveryKeeps(s, c, at);
    case Finished(_) =>
  }
}

/** The pipeline under every schedule: any number of calls, every script, every interleaving of steps. */
module Interleavings {
  import opened Outcomes
  import opened Codes
  import opened StateMachine
  import opened JobStore
  import opened StoreAudit
  import opened LlmReviewGate
  import opened Consensus
  import opened PassGate
  import opened Orchestrator
  import opened OrchestratorSafety

  datatype System = System(store: Store, calls: seq<Call>)

  /** The scheduler lets call `i` take one step; an index that names no call is skipped. */
  function StepCall(sys: System, i: nat): System {
    if i < |sys.calls| then
      var (s, c) := Step(sys.store, sys.calls[i]);
      System(s, sys.calls[i := c])
    else sys
  }

  function Run(sys: System, schedule: seq<nat>): System {
    if schedule == [] then sys
    else StepCall(Run(sys, schedule[..|schedule| - 1]), schedule[|schedule| - 1])
  }

  /** Calls that have not begun, over a store any earlier runs may have left behind. */
  ghost predicate Initial(sys: System) {
    && Sound(sys.store)
    && forall i :: 0 <= i < |sys.calls| ==>
         sys.calls[i] == Start(sys.calls[i].request, sys.calls[i].script)
  }

  // ----- the invariant -----

  ghost predicate Distinct(calls: seq<Call>) {
    forall i, j :: 0 <= i < j < |calls| && calls[i].persisted && calls[j].persisted ==>
      calls[i].request.requestId != calls[j].request.requestId
  }

  ghost predicate Safe(sys: System) {
    && Sound(sys.store)
    && (forall i :: 0 <= i < |sys.calls| ==> CallSound(sys.calls[i]) && Attached(sys.store, sys.calls[i]))
    && Distinct(sys.calls)
  }

  lemma AdmissionStepSound(s: Store, c: Call, at: AdmissionPc)
    requires Sound(s) && c.pc == Admission(at)
    ensures Sound(StepAdmission(s, c, at).0)
  {
    var id := c.request.requestId;
    match at
    case Creating => CreateSound(s, c.request);
    case MarkingRejected => MarkSound(s, id, Degraded, Stop(ResourceRejected));
    case ToPrecheck => TransitionSound(s, id, c.current, PrecheckFailed, Stop(PolicyRejected));
    case MarkingPrecheck => MarkSound(s, id, PrecheckFailed, Stop(PolicyRejected));
    case _ =>
  }

  lemma ContextStepSound(s: Store, c: Call, at: ContextPc)
    requires Sound(s) && c.pc == Context(at)
    ensures Sound(StepContext(s, c, at).0)
  {
    TransitionSound(s, c.request.requestId, c.current, ContextReady, Progress(ContextBuildStarted));
    TransitionSound(s, c.request.requestId, c.current, Analyzing, Progress(AgentsStarted));
  }

  lemma StageSound(s: Store, id: string, event: Event, fault: Option<Error>)
    requires Sound(s) && event.Stage?
    ensures Sound(AppendGuarded(s, id, event, fault).0)
  {
    AppendSoundIff(s, id, event);
  }

  lemma AgentsStepSound(s: Store, c: Call, at: AgentsPc)
    requires Sound(s) && c.pc == Agents(at)
    ensures Sound(StepAgents(s, c, at).0)
  {
    var id := c.request.requestId;
    match at
    case AgentStarting(todo) =>
      if todo != [] {
        StageSound(s, id, AgentEvent("started", AgentStarted), todo[0].startEvent);
      }
    case AgentRunning(_, _) =>
    case AgentLogging(agent, _) => StageSound(s, id, AgentEvent("completed", AgentCompleted), agent.endEvent);
    case AgentFailing(agent, _) => StageSound(s, id, AgentEvent("failed", AgentFailed), agent.endEvent);
    case ToConsensus => TransitionSound(s, id, c.current, ConsensusReached, Progress(ConsensusWasReached));
  }

  lemma ReviewStepSound(s: Store, c: Call, at: ReviewPc)
    requires Sound(s) && c.pc == Judging(at)
    ensures Sound(StepReview(s, c, at).0)
  {
    var id := c.request.requestId;
    match at
    case L3Starting(_) => StageSound(s, id, L3Event("started", L3Started), c.script.l3StartEvent);
    case L3Logging(_, _) => StageSound(s, id, L3Event("completed", L3Completed), c.script.l3EndEvent);
    case L3Failing(_) => StageSound(s, id, L3Event("failed", L3Failed), c.script.l3EndEvent);
    case _ =>
  }

  lemma VerdictStepSound(s: Store, c: Call, at: VerdictPc)
    requires Sound(s) && c.pc == Closing(at)
    ensures Sound(StepVerdict(s, c, at).0)
  {
    if at.Delivering? {
      MarkSound(s, c.request.requestId, Delivered, at.verdict.code);
    }
  }

  lemma RecoveryStepSound(s: Store, c: Call, at: RecoveryPc)
    requires Sound(s) && c.pc == Recovery(at)
    ensures Sound(StepRecovery(s, c, at).0)
  {
    var id, f := c.request.requestId, ClassifyFailure(at.error);
    if at.Recovering? {
      TransitionSound(s, id, c.current, f.state, f.code);
    } else {
      MarkSound(s, id, f.state, f.code);
    }
  }

  lemma StepSound(s: Store, c: Call)
    requires Sound(s)
    ensures Sound(Step(s, c).0)
  {
    match c.pc
    case Admission(at) => AdmissionStepSound(s, c, at);
    case Context(at) => ContextStepSound(s, c, at);
    case Agents(at) => AgentsStepSound(s, c, at);
    case Judging(at) => ReviewStepSound(s, c, at);
    case Closing(at) => VerdictStepSound(s, c, at);
    case Recovery(at) => RecoveryStepSound(s, c, at);
    case Finished(_) =>
  }

  /** Another call's row is out of reach. */
  lemma OthersStayAttached(s: Store, c: Call, s': Store, c': Call, other: Call)
    requires Framed(s, c, s', c') && Attached(s, other)
    requires c.persisted && other.persisted ==> c.request.requestId != other.request.requestId
    ensures Attached(s', other)
    ensures c'.persisted && other.persisted ==> c.request.requestId != other.request.requestId
  {
  }

  lemma StepCallSafe(sys: System, i: nat)
    requires Safe(sys)
    ensures Safe(StepCall(sys, i))
  {
    if i < |sys.calls| {
      var c := sys.calls[i];
      var (s', c') := Step(sys.store, c);
      StepSound(sys.store, c);
      StepKeeps(sys.store, c);
      forall j | 0 <= j < |sys.calls| && j != i
        ensures Attached(s', sys.calls[j])
        ensures c'.persisted && sys.calls[j].persisted ==> c'.request.requestId != sys.calls[j].request.requestId
      {
        OthersStayAttached(sys.store, c, s', c', sys.calls[j]);
      }
    }
  }

  lemma {:induction false} EveryScheduleIsSafe(sys: System, schedule: seq<nat>)
    requires Initial(sys)
    ensures Safe(Run(sys, schedule))
  {
    if schedule != [] {
      EveryScheduleIsSafe(sys, schedule[..|schedule| - 1]);
      StepCallSafe(Run(sys, schedule[..|schedule| - 1]), schedule[|schedule| - 1]);
    }
  }

  // ----- the theorems -----

  /** At most one call per request id, and per idempotency key, ever gets past creation. */
  lemma AtMostOneCallPerKey(sys: System, schedule: seq<nat>, i: nat, j: nat)
    requires Initial(sys)
    requires i < j < |Run(sys, schedule).calls|
    requires Run(sys, schedule).calls[i].persisted && Run(sys, schedule).calls[j].persisted
    ensures var calls := Run(sys, schedule).calls;
            && calls[i].request.requestId != calls[j].request.requestId
            && calls[i].request.idempotencyKey != calls[j].request.idempotencyKey
  {
    EveryScheduleIsSafe(sys, schedule);
    var t := Run(sys, schedule);
    assert Owns(t.store, t.calls[i]) && Owns(t.store, t.calls[j]);
  }

  /** A row's state is only ever changed by the one call that created it, and rows never disappear. */
  lemma OnlyTheOwnerWrites(sys: System, schedule: seq<nat>, i: nat, id: string)
    requires Initial(sys) && i < |Run(sys, schedule).calls|
    requires id in Run(sys, schedule).store.rows
    ensures var before, after := Run(sys, schedule), Run(sys, schedule + [i]);
            && id in after.store.rows
            && (after.store.rows[id] != before.store.rows[id] ==>
                  before.calls[i].persisted && before.calls[i].request.requestId == id)
  {
    EveryScheduleIsSafe(sys, schedule);
    assert (schedule + [i])[..|schedule + [i]| - 1] == schedule;
    StepKeeps(Run(sys, schedule).store, Run(sys, schedule).calls[i]);
  }

  /** The state the next step of a call moves its row to, when that step is a forward transition. */
  function ForwardTarget(pc: Pc): Option<ReviewState> {
    match pc
    case Admission(ToPrecheck) => Some(PrecheckFailed)
    case Context(ToContext) => Some(ContextReady)
    case Context(ToAnalyzing) => Some(Analyzing)
    case Agents(ToConsensus) => Some(ConsensusReached)
    case _ => None
  }

  /** Before a call's terminal mark its forward transitions are never refused, neither by the table nor
      by a state some other call left behind: only the database itself can make them fail. */
  lemma ForwardTransitionsNeverMismatch(sys: System, schedule: seq<nat>, i: nat, code: Code, fault: Option<Error>)
    requires Initial(sys) && i < |Run(sys, schedule).calls|
    requires ForwardTarget(Run(sys, schedule).calls[i].pc).Some?
    ensures var t := Run(sys, schedule);
            var c := t.calls[i];
            TransitionGuarded(t.store, c.request.requestId, c.current, ForwardTarget(c.pc).value, code, fault).1
              == OrRaise(fault)
  {
    EveryScheduleIsSafe(sys, schedule);
    var t := Run(sys, schedule);
    assert CallSound(t.calls[i]) && Attached(t.store, t.calls[i]);
  }

  lemma EnterRefused(s: Store, c: Call)
    requires c.pc == Admission(Creating) && Refused(s, c.request)
    ensures var (s', c') := Step(s, c);
            && s'.rows == s.rows
            && c'.persisted == c.persisted
            && (c.script.creation.None? ==> c'.pc == Finished(DuplicateResult(c.request)))
  {
  }

  /** A duplicate is answered at once, and no state column changes: neither of the row it collides with
      nor of any other. */
  lemma DuplicatesChangeNothing(sys: System, schedule: seq<nat>, i: nat)
    requires Initial(sys) && i < |Run(sys, schedule).calls|
    requires Run(sys, schedule).calls[i].pc == Admission(Creating)
    requires Refused(Run(sys, schedule).store, Run(sys, schedule).calls[i].request)
    ensures var before, after := Run(sys, schedule), Run(sys, schedule + [i]);
            && after.store.rows == before.store.rows
            && !after.calls[i].persisted
            && (before.calls[i].script.creation.None? ==>
                  after.calls[i].pc
                  == Finished(ReviewResult(before.calls[i].request.requestId, Delivered, IgnoredStatus, 1.0,
                                           Stop(DuplicateRequestIgnored))))
  {
    assert (schedule + [i])[..|schedule + [i]| - 1] == schedule;
    EveryScheduleIsSafe(sys, schedule);
    assert CallSound(Run(sys, schedule).calls[i]);
    EnterRefused(Run(sys, schedule).store, Run(sys, schedule).calls[i]);
  }

  lemma {:induction false} CallsKeepTheirIdentity(sys: System, schedule: seq<nat>)
    ensures var t := Run(sys, schedule);
            && |t.calls| == |sys.calls|
            && forall i :: 0 <= i < |sys.calls| ==>
                 t.calls[i].request == sys.calls[i].request && t.calls[i].script == sys.calls[i].script
  {
    if schedule != [] {
      CallsKeepTheirIdentity(sys, schedule[..|schedule| - 1]);
      var t, i := Run(sys, schedule[..|schedule| - 1]), schedule[|schedule| - 1];
      if i < |t.calls| {
        StepKeepsIdentity(t.store, t.calls[i]);
      }
    }
  }

  lemma StepKeepsIdentity(s: Store, c: Call)
    ensures Step(s, c).1.request == c.request && Step(s, c).1.script == c.script
  {
  }

  /** Whatever raised, and wherever: a finished call whose row was created reports one of the four
      terminal states, and if its last terminal mark was written, that is the state stored. A call whose
      row was not created reports a duplicate or the database's failure. */
  lemma ResultAgreesWithStore(sys: System, schedule: seq<nat>, i: nat)
    requires Initial(sys) && i < |Run(sys, schedule).calls|
    requires Run(sys, schedule).calls[i].pc.Finished?
    ensures var t := Run(sys, schedule);
            var c, r := t.calls[i], t.calls[i].pc.result;
            && r.requestId == c.request.requestId
            && IsTerminal(r.state)
            && (c.persisted ==>
                  && c.mark != NotMarked
                  && r.requestId in t.store.rows
                  && (c.mark == Marked ==> t.store.rows[r.requestId].state == r.state))
            && (!c.persisted ==>
                  || r == DuplicateResult(c.request)
                  || (c.script.creation.Some? && r == FailureResult(c.request, c.script.creation.value)))
  {
    EveryScheduleIsSafe(sys, schedule);
    var t := Run(sys, schedule);
    assert CallSound(t.calls[i]) && Attached(t.store, t.calls[i]);
  }

  /** With the default consensus engine, a finished review exits 0 exactly when it was delivered, none of
      the agents that were selected and allowed rejected, and L3, if configured, passed. */
  lemma ExitZeroIffDelivered(sys: System, schedule: seq<nat>, i: nat)
    requires Initial(sys) && i < |Run(sys, schedule).calls|
    requires Run(sys, schedule).calls[i].pc.Finished?
    requires Run(sys, schedule).calls[i].script.engine.None?
    ensures var c := Run(sys, schedule).calls[i];
            ExitCode(c.pc.result.code) == 0 <==>
              && c.persisted
              && c.pc.result.state == Delivered
              && (forall a :: a in Active(c.script) ==> a.run.Ok? && a.run.value.status != Rejects)
              && L3Passes(c.script.services)
  {
    EveryScheduleIsSafe(sys, schedule);
    var c := Run(sys, schedule).calls[i];
    assert CallSound(c);
    if c.persisted && c.pc.result.state == Delivered {
      DeliveredExit(c);
    }
  }

  /** L3 is not configured, or answers with a pass or with no code at all. */
  predicate L3Passes(services: Services) {
    services.gate.Some? ==>
      Review(services.gate.value).Ok? && L3Code(Review(services.gate.value).value) == Gate(ReviewPassed)
  }

  lemma DeliveredExit(c: Call)
    requires c.script.engine.None? && c.pc.Finished? && DeliveredHonestly(c, c.pc.result)
    ensures ExitCode(c.pc.result.code) == 0 <==>
              (forall a :: a in Active(c.script) ==> a.run.Ok? && a.run.value.status != Rejects)
              && L3Passes(c.script.services)
  {
    var k := Decide(c.decisions);
    var llm := L3Answer(c.script, k).value;
    DecideRaisesIff(c.decisions);
    RejectIffSomeoneRejects(c.decisions);
    ExitZeroIffNobodyObjects(c.decisions, c.script.services, llm);
    var agents := Active(c.script);
    assert forall n :: 0 <= n < |agents| ==> agents[n].run == Ok(c.decisions[n]);
    assert (forall d :: d in c.decisions ==> d.status != Rejects)
      <==> (forall a :: a in agents ==> a.run.Ok? && a.run.value.status != Rejects) by {
      if forall a :: a in agents ==> a.run.Ok? && a.run.value.status != Rejects {
        forall d | d in c.decisions
          ensures d.status != Rejects
        {
          var n :| 0 <= n < |c.decisions| && c.decisions[n] == d;
          assert agents[n] in agents;
        }
      }
    }
  }

  /** What a restart would find: at each point of a call before its first terminal mark, whether the row is offered
      for recovery. The exception handler may have recorded its own transition already. */
  predicate OfferedAt(c: Call) {
    match c.pc
    case Admission(at) => !at.MarkingPrecheck?
    case Context(_) => true
    case Agents(_) => true
    case Recovery(Recovering(_)) => c.current != ConsensusReached
    case Recovery(MarkingFallback(_)) => !IsTerminal(c.column) && c.column != ConsensusReached
    case _ => false
  }

  /** If the process dies between two steps of a review that has not yet written a final state, the store offers the
      review for recovery exactly while it had neither reached consensus nor been turned away by the policy; in the
      exception handler this lasts until the handler's own transition has recorded the failure. */
  lemma RecoverableUntilConsensus(sys: System, schedule: seq<nat>, i: nat)
    requires Initial(sys) && i < |Run(sys, schedule).calls|
    requires var c := Run(sys, schedule).calls[i]; c.persisted && c.mark == NotMarked
    ensures var t := Run(sys, schedule);
            var c := t.calls[i];
            && c.request.requestId in t.store.rows
            && (Recoverable(t.store.rows[c.request.requestId].state) <==> OfferedAt(c))
  {
    EveryScheduleIsSafe(sys, schedule);
    var t := Run(sys, schedule);
    RecoverableOnTrack(t.store, t.calls[i]);
  }

  lemma RecoverableOnTrack(s: Store, c: Call)
    requires CallSound(c) && Attached(s, c) && c.persisted && c.mark == NotMarked
    ensures c.request.requestId in s.rows
    ensures Recoverable(s.rows[c.request.requestId].state) <==> OfferedAt(c)
  {
  }

  // ----- a call that nobody interrupts -----

  lemma {:induction false} RunFromFront(sys: System, i: nat, schedule: seq<nat>)
    ensures Run(sys, [i] + schedule) == Run(StepCall(sys, i), schedule)
  {
    if schedule == [] {
      assert ([i] + schedule)[..|[i] + schedule| - 1] == [];
    } else {
      RunFromFront(sys, i, schedule[..|schedule| - 1]);
      assert ([i] + schedule)[..|[i] + schedule| - 1] == [i] + schedule[..|schedule| - 1];
    }
  }

  /** Running alone is one of the schedules. */
  lemma {:induction false} AloneIsASchedule(s: Store, c: Call) returns (schedule: seq<nat>)
    ensures Run(System(s, [c]), schedule) == System(RunAlone(s, c).0, [RunAlone(s, c).1])
    decreases Phase(c.pc), Remaining(c.pc)
  {
    if c.pc.Finished? {
      schedule := [];
    } else {
      StepDescends(s, c);
      var (s', c') := Step(s, c);
      var rest := AloneIsASchedule(s', c');
      RunFromFront(System(s, [c]), 0, rest);
      assert StepCall(System(s, [c]), 0) == System(s', [c']);
      schedule := [0] + rest;
    }
  }

  /** So an uninterrupted run, whatever raises in it, returns what it stored. */
  lemma UninterruptedRunAgreesWithStore(s: Store, request: ReviewRequest, script: Script)
    requires Sound(s)
    ensures var (t, c) := RunAlone(s, Start(request, script));
            var r := c.pc.result;
            && Sound(t)
            && IsTerminal(r.state)
            && (c.persisted <==> !Refused(s, request) && script.creation.None?)
            && (c.persisted && c.mark == Marked ==>
                  request.requestId in t.rows && t.rows[request.requestId].state == r.state)
            && (forall id :: id in s.rows ==> id in t.rows && (id != request.requestId ==> t.rows[id] == s.rows[id]))
  {
    var c0 := Start(request, script);
    var schedule := AloneIsASchedule(s, c0);
    var sys := System(s, [c0]);
    EveryScheduleIsSafe(sys, schedule);
    ResultAgreesWithStore(sys, schedule, 0);
    CallsKeepTheirIdentity(sys, schedule);
    AloneTouchesOneRow(s, c0);
  }

  lemma {:induction false} AloneTouchesOneRow(s: Store, c: Call)
    requires Sound(s) && CallSound(c) && Attached(s, c)
    ensures var (t, d) := RunAlone(s, c);
            && (forall id :: id in s.rows && id != c.request.requestId ==> id in t.rows && t.rows[id] == s.rows[id])
            && (c.request.requestId in s.rows ==> c.request.requestId in t.rows)
            && d.request == c.request
            && (c.persisted ==> d.persisted)
            && (c.pc == Admission(Creating) ==> (d.persisted <==> !Refused(s, c.request) && c.script.creation.None?))
            && (c.pc.Recovery? && !c.persisted ==> !d.persisted)
    decreases Phase(c.pc), Remaining(c.pc)
  {
    if !c.pc.Finished? {
      StepDescends(s, c);
      StepKeeps(s, c);
      StepSound(s, c);
      AloneTouchesOneRow(Step(s, c).0, Step(s, c).1);
    }
  }
}

/** The end of the pipeline: consensus, L3, patch verification and auto-fix become one result code,
    and the result code becomes the exit code of the command-line gate. */
module PassGate {
  import opened Outcomes
  import opened Json
  import opened Codes
  import opened LlmReviewGate
  import opened Consensus

  /** Create a patch (None when no diff could be extracted), then verify it; both may raise. */
  datatype PatchPipeline = PatchPipeline(create: Outcome<bool>, verify: Outcome<bool>)

  datatype AutoFix = AutoFix(applied: bool, verifyPassed: Option<bool>)

  /** The optional services the orchestrator was built with, and what each would answer. */
  datatype Services = Services(
    gate: Option<Generated>,
    patching: Option<PatchPipeline>,
    autofix: Option<Outcome<AutoFix>>)

  /** The status of a published review. */
  datatype Status = PassStatus | RejectedStatus | PatchStatus | DegradedStatus | FailedStatus | IgnoredStatus

  datatype Verdict = Verdict(status: Status, code: Code, confidence: real, patch: bool)

  /** The code an L3 answer carries. */
  function CodeOf(value: Json): Code {
    if value == REVIEW_PASSED then Gate(ReviewPassed)
    else if value == REVIEW_REJECTED then Gate(ReviewRejected)
    else if value == PATCH_PROPOSED then Gate(PatchProposed)
    else if value.Str? then Foreign(value.text)
    else NotText
  }

  /** Reading an L3 code as a constructor loses nothing: its text survives, and the exit is 0 exactly for
      the text of a pass. */
  lemma L3CodeKeepsItsText(value: Json)
    ensures value.Str? ==> CodeOf(value) != NotText && Token(CodeOf(value)) == value.text
    ensures CodeOf(value) != Foreign(REVIEW_PASSED_TEXT)
    ensures ExitCode(CodeOf(value)) == 0 <==> value == Str(REVIEW_PASSED_TEXT)
  {
  }

  /** The L3 code, with a missing key read as a pass. */
  function L3Code(payload: Payload): Code {
    if "result_code" in payload then CodeOf(payload["result_code"]) else Gate(ReviewPassed)
  }

  /** The verdict after consensus and L3. */
  function AfterL3(consensus: ConsensusResult, llm: Option<Payload>): Verdict {
    var passed := consensus.status == Pass;
    if llm.None? then
      Verdict(if passed then PassStatus else RejectedStatus,
              if passed then Gate(ReviewPassed) else Gate(ReviewRejected), consensus.confidence, false)
    else
      var code := L3Code(llm.value);
      var given := Get(llm.value, "confidence_score");
      Verdict(if code == Gate(ReviewPassed) then PassStatus else RejectedStatus, code,
              match given case Num(r) => r case Bool(b) => (if b then 1.0 else 0.0) case _ => consensus.confidence,
              false)
  }

  /** The patch branch, taken only when the consensus itself is Patch. */
  function AfterPatch(consensus: ConsensusResult, v: Verdict, patching: Option<PatchPipeline>): Outcome<Verdict> {
    if consensus.status != Patch then Ok(v)
    else if patching.None? then Ok(v.(status := RejectedStatus, code := Gate(PatchRequired)))
    else
      match patching.value.create
      case Raise(e) => Raise(e)
      case Ok(false) => Ok(v.(status := RejectedStatus, code := Gate(PatchRequired)))
      case Ok(true) =>
        match patching.value.verify
        case Raise(e) => Raise(e)
        case Ok(true) => Ok(v.(status := PatchStatus, code := Gate(PatchProposed), patch := true))
        case Ok(false) => Ok(v.(status := RejectedStatus, code := Gate(PatchVerifyFailed), patch := true))
  }

  /** The interpreter's message names the variable; its further words depend on the version. */
  const UNBOUND_LLM_RESULT := Error(OtherKind, "llm_result")

  /** The auto-fix branch. `llm_result` is assigned only if L3 was asked, but read whenever a gate is
      configured. */
  function AfterAutoFix(v: Verdict, services: Services, llm: Option<Payload>): Outcome<Verdict> {
    if v.code != Gate(PatchProposed) || services.autofix.None? || services.gate.None? then Ok(v)
    else if llm.None? then Raise(UNBOUND_LLM_RESULT)
    else if !HasPatch(llm.value) then Ok(v)
    else
      match services.autofix.value
      case Raise(e) => Raise(e)
      case Ok(fix) =>
        if !fix.applied then Ok(v)
        else if fix.verifyPassed == Some(false) then Ok(v.(status := RejectedStatus, code := Gate(PatchRollback)))
        else Ok(v.(code := Gate(PatchApplied)))
  }

  function Conclude(consensus: ConsensusResult, services: Services, llm: Option<Payload>): Outcome<Verdict> {
    match AfterPatch(consensus, AfterL3(consensus, llm), services.patching)
    case Raise(e) => Raise(e)
    case Ok(v) => AfterAutoFix(v, services, llm)
  }

  /** L3 is asked exactly when the consensus passed and a gate is configured. */
  predicate AsksL3(consensus: ConsensusResult, services: Services) {
    consensus.status == Pass && services.gate.Some?
  }

  /** The condition under which the gate opens. */
  predicate GateOpens(consensus: ConsensusResult, llm: Option<Payload>) {
    consensus.status == Pass && (llm.None? || L3Code(llm.value) == Gate(ReviewPassed))
  }

  /** A concluded review exits 0 exactly when the consensus passed and L3, if asked, passed too. */
  lemma ExitZeroIffGateOpens(consensus: ConsensusResult, services: Services, llm: Option<Payload>)
    requires llm.Some? <==> AsksL3(consensus, services)
    requires Conclude(consensus, services, llm).Ok?
    ensures var v := Conclude(consensus, services, llm).value;
            (ExitCode(v.code) == 0 <==> GateOpens(consensus, llm))
            && (ExitCode(v.code) == 0 ==> v.status == PassStatus)
  {
  }

  /** The same for the default engine, down to the agents: nobody rejected, and L3 said nothing else. */
  lemma ExitZeroIffNobodyObjects(decisions: seq<AgentDecision>, services: Services, llm: Option<Payload>)
    requires llm.Some? <==> AsksL3(Decide(decisions), services)
    ensures Conclude(Decide(decisions), services, llm).Ok? ==>
              (ExitCode(Conclude(Decide(decisions), services, llm).value.code) == 0 <==>
                 (forall d :: d in decisions ==> d.status != Rejects)
                 && (llm.None? || L3Code(llm.value) == Gate(ReviewPassed)))
    ensures Conclude(Decide(decisions), services, llm).Raise? ==>
              services.autofix.Some? && services.autofix.value.Raise?
              && llm.Some? && L3Code(llm.value) == Gate(PatchProposed) && HasPatch(llm.value)
  {
    RejectIffSomeoneRejects(decisions);
    if Conclude(Decide(decisions), services, llm).Ok? {
      ExitZeroIffGateOpens(Decide(decisions), services, llm);
    }
  }

  /** After a verified patch, an engine that answers Patch is delivered the patch exactly when the gate or the
      auto-fix service is missing; with both, the unassigned variable is read and the run fails. */
  lemma VerifiedPatchIsDeliveredIff(consensus: ConsensusResult, services: Services)
    requires consensus.status == Patch && services.patching == Some(PatchPipeline(Ok(true), Ok(true)))
    ensures var verdict := Conclude(consensus, services, None);
            && (verdict == Ok(Verdict(PatchStatus, Gate(PatchProposed), consensus.confidence, true))
                <==> services.gate.None? || services.autofix.None?)
            && (verdict == Raise(UNBOUND_LLM_RESULT) <==> services.gate.Some? && services.autofix.Some?)
  {
    var v := Verdict(PatchStatus, Gate(PatchProposed), consensus.confidence, true);
    assert AfterPatch(consensus, AfterL3(consensus, None), services.patching) == Ok(v);
  }

  // ----- every verdict, by what led to it -----

  /** L3 was asked and answered with this code. */
  predicate Answers(llm: Option<Payload>, code: string) {
    llm.Some? && "result_code" in llm.value && llm.value["result_code"] == Str(code)
  }

  /** L3 proposed a patch, sent one along, and auto-fix was run on it. */
  predicate FixTried(services: Services, llm: Option<Payload>) {
    Answers(llm, "PATCH_PROPOSED") && Get(llm.value, "suggested_patch").Truthy() && services.autofix.Some?
  }

  predicate FixApplied(services: Services, llm: Option<Payload>) {
    FixTried(services, llm) && services.autofix.value.Ok? && services.autofix.value.value.applied
  }

  /** What the patch pipeline came to, where the engine asked for a patch. */
  predicate Created(consensus: ConsensusResult, services: Services) {
    consensus.status == Patch && services.patching.Some? && services.patching.value.create == Ok(true)
  }

  predicate Verified(consensus: ConsensusResult, services: Services) {
    Created(consensus, services) && services.patching.value.verify == Ok(true)
  }

  /** A conclusion raises exactly when the patch pipeline or auto-fix does, or when a verified patch meets both a gate
      and an auto-fix service. */
  lemma ConclusionRaisesIff(consensus: ConsensusResult, services: Services, llm: Option<Payload>)
    requires llm.Some? <==> AsksL3(consensus, services)
    ensures Conclude(consensus, services, llm).Raise? <==>
              || (consensus.status == Patch && services.patching.Some? && services.patching.value.create.Raise?)
              || (Created(consensus, services) && services.patching.value.verify.Raise?)
              || (Verified(consensus, services) && services.gate.Some? && services.autofix.Some?)
              || (FixTried(services, llm) && services.autofix.value.Raise?)
  {
  }

  /** Each code has exactly one cause. */
  lemma CodeIff(consensus: ConsensusResult, services: Services, llm: Option<Payload>)
    requires llm.Some? <==> AsksL3(consensus, services)
    requires Conclude(consensus, services, llm).Ok?
    ensures var code := Conclude(consensus, services, llm).value.code;
            && (code == Gate(ReviewPassed) <==>
                  consensus.status == Pass
                  && (llm.None? || "result_code" !in llm.value || Answers(llm, "REVIEW_PASSED")))
            && (code == Gate(ReviewRejected) <==>
                  consensus.status == Reject || consensus.status == Degrade || Answers(llm, "REVIEW_REJECTED"))
            && (code == Gate(PatchApplied) <==>
                  FixApplied(services, llm) && services.autofix.value.value.verifyPassed != Some(false))
            && (code == Gate(PatchRollback) <==>
                  FixApplied(services, llm) && services.autofix.value.value.verifyPassed == Some(false))
            && (code == Gate(PatchProposed) <==>
                  Verified(consensus, services) || (Answers(llm, "PATCH_PROPOSED") && !FixApplied(services, llm)))
            && (code == Gate(PatchVerifyFailed) <==>
                  Created(consensus, services) && !Verified(consensus, services))
            && (code == Gate(PatchRequired) <==>
                  consensus.status == Patch && !Created(consensus, services))
            && (forall text :: code == Foreign(text) <==>
                  Answers(llm, text) && text !in {"REVIEW_PASSED", "REVIEW_REJECTED", "PATCH_PROPOSED"})
  {
  }

  /** The rest of the verdict: its status, its confidence, and whether a patch goes with it. */
  lemma VerdictIff(consensus: ConsensusResult, services: Services, llm: Option<Payload>)
    requires llm.Some? <==> AsksL3(consensus, services)
    requires Conclude(consensus, services, llm).Ok?
    ensures var v := Conclude(consensus, services, llm).value;
            && (v.status == PassStatus <==> v.code == Gate(ReviewPassed))
            && (v.status == PatchStatus <==> Verified(consensus, services))
            && (v.status != PassStatus && v.status != PatchStatus ==> v.status == RejectedStatus)
            && (v.patch <==> Created(consensus, services))
            && (if llm.Some? && Get(llm.value, "confidence_score").Num?
                then v.confidence == llm.value["confidence_score"].number
                else if llm.Some? && Get(llm.value, "confidence_score").Bool?
                then v.confidence == if llm.value["confidence_score"].flag then 1.0 else 0.0
                else v.confidence == consensus.confidence)
  {
  }
}

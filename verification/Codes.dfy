/** The machine-readable codes of reviews and of their progress events. */
module Codes {

  /** The codes of a review that ran to its verdict. */
  datatype GateCode =
    | ReviewPassed | ReviewRejected | PatchProposed
    | PatchRequired | PatchVerifyFailed | PatchApplied | PatchRollback

  /** The codes of a review that stopped early. */
  datatype StopCode =
    | ResourceRejected | PolicyRejected | DuplicateRequestIgnored
    | LlmTimeout | LlmConnectionError | LlmRateLimited | SystemFailed

  datatype ProgressCode =
    | ContextBuildStarted | AgentsStarted | ConsensusWasReached
    | AgentStarted | AgentCompleted | AgentFailed
    | L3Started | L3Completed | L3Failed

  datatype Code =
    | Gate(gate: GateCode)
    | Stop(stop: StopCode)
    | Progress(progress: ProgressCode)
    | Foreign(text: string)  // any other text an L3 answer carried as its result code
    | NotText                // an L3 result code that is null, a number or a boolean

  function GateText(code: GateCode): string {
    match code
    case ReviewPassed => "REVIEW_PASSED"
    case ReviewRejected => "REVIEW_REJECTED"
    case PatchProposed => "PATCH_PROPOSED"
    case PatchRequired => "PATCH_REQUIRED"
    case PatchVerifyFailed => "PATCH_VERIFY_FAILED"
    case PatchApplied => "PATCH_APPLIED"
    case PatchRollback => "PATCH_ROLLBACK"
  }

  function StopText(code: StopCode): string {
    match code
    case ResourceRejected => "RESOURCE_REJECTED"
    case PolicyRejected => "POLICY_REJECTED"
    case DuplicateRequestIgnored => "DUPLICATE_REQUEST_IGNORED"
    case LlmTimeout => "LLM_TIMEOUT"
    case LlmConnectionError => "LLM_CONNECTION_ERROR"
    case LlmRateLimited => "LLM_RATE_LIMITED"
    case SystemFailed => "SYSTEM_FAILED"
  }

  function ProgressText(code: ProgressCode): string {
    match code
    case ContextBuildStarted => "CONTEXT_BUILD_STARTED"
    case AgentsStarted => "AGENTS_STARTED"
    case ConsensusWasReached => "CONSENSUS_REACHED"
    case AgentStarted => "AGENT_STARTED"
    case AgentCompleted => "AGENT_COMPLETED"
    case AgentFailed => "AGENT_FAILED"
    case L3Started => "L3_STARTED"
    case L3Completed => "L3_COMPLETED"
    case L3Failed => "L3_FAILED"
  }

  /** The text the rest of the world sees. */
  function Token(code: Code): string
    requires code != NotText
  {
    match code
    case Gate(gate) => GateText(gate)
    case Stop(stop) => StopText(stop)
    case Progress(progress) => ProgressText(progress)
    case Foreign(text) => text
  }

  const REVIEW_PASSED_TEXT := "REVIEW_PASSED"

  /** The command-line gate passes one code only; unknown and missing codes fail closed. */
  function ExitCode(code: Code): int {
    if code == Gate(ReviewPassed) then 0 else 1
  }

  /** The text alone decides the exit. */
  lemma TextDecidesExit(code: Code)
    requires code != NotText && code != Foreign(REVIEW_PASSED_TEXT)
    ensures ExitCode(code) == 0 <==> Token(code) == REVIEW_PASSED_TEXT
  {
    match code
    case Gate(gate) => assert gate != ReviewPassed ==> |GateText(gate)| != 13 || GateText(gate)[0] != 'R';
    case Stop(stop) => assert |StopText(stop)| != 13 || StopText(stop)[0] != 'R';
    case Progress(progress) => assert |ProgressText(progress)| != 13 || ProgressText(progress)[0] != 'R';
    case Foreign(_) =>
  }
}

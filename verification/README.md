# Jemmin review pipeline: a verified model

A Dafny model of the review daemon, from the request that enters it to the exit code and the editor edits that leave
it. Each module follows one component of the repository; `dafny verify dfyconfig.toml` checks all of them.

- **Job store and orchestrator.** `JobStore` is the table of requests and the append-only event log, one atomic
  step per method; `StateMachine` is the transition table; `StoreAudit` shows that the log replays to the table.
  `Orchestrator` is one call of the pipeline as a deterministic state machine over a script that fixes beforehand what
  every collaborator answers or raises. `RunOnce` is the imperative pipeline, proved to do what the state machine does.
  `OrchestratorSafety` and `Interleavings` prove what holds over every interleaving of any number of calls;
  `Foretelling` computes from a script alone what its call will report and store, over every schedule; `AuditTrail` is
  the log it leaves.
- **Pass gate.** `Consensus`, `LlmReviewGate`, `PassGate` and `Codes` lead from agent decisions and the language
  model's answer to the result code and the exit code.
- **Context cache.** `CacheManager` is the cache as one caller sees it; `CacheConcurrency` is the same cache shared by
  threads, with the lock released around the provider call.
- **Message router.** `ZmqRouter`: permits, tracked jobs, replies and the draining shutdown.
- **Patches as editor edits.** `UnifiedDiff` says what a patch means (IEEE Std 1003.1-2017, "Diff -u or -U Output
  Format"), `LineEdits` what a list of edits means (LSP 3.17, "TextEdit[]"), `TextDocument` what an editor takes for
  the lines of a document (LSP 3.17, "Text Documents"). `FeedbackService` reads the patch and `CodeActions` builds the
  edits; `PatchReading` shows when the reading is right, `PatchAsEdits` when the edits are, and `PatchAction` when the
  whole way from the text of a patch to the document in the editor is. `HunkHeaders` says which lines are headers.
- **Loop scanner.** `LoopRules` defines "inside a loop body"; `LoopRuleScanner` is the indentation stack;
  `ArchitectureScan` runs it over the hunks of a diff, and `DiffScan` says what that reports for the text of a patch.
- **Text formats.** `Jsonc` (comment stripping, with `JsoncTokens` for texts given piece by piece), `Framing` and
  `Decimal` (length-prefixed messages), `Lines`, `Text`; `Sequences` holds facts about concatenation.
- **Admission.** `Debounce`, shared by `ResourceManager` and `FileWatcher`.

Where a promise turned out not to hold, the model keeps the code as it is and states exactly when it does:

- `Foretelling.DeliveredIsOverwrittenIff`: a delivered review is overwritten when collecting the findings raises
  anything, or publishing the quick fix raises a type its publisher does not catch. `Foretelling.LateFailureOverwrites`
  gives the runs. There the repository's own `FileFeedbackService`, given no findings and no patch, raises no KeyError or
  other uncaught type, so a quick fix that fails so takes a feedback service of the caller's.
- `Foretelling.VerifiedPatchIsReportedIff`: a verified patch is lost to a variable read before assignment when both the
  gate and the auto-fix service are configured. The repository's own engine never answers patch
  (`Consensus.RejectIffSomeoneRejects`), so this takes an engine of the caller's. `Foretelling.AVerifiedPatchFails` is
  such a run.
- `PatchReading.PatchComesBackIff`: a form feed or another boundary character inside a patch line
  (`PatchReading.AFormFeedLosesText`).
- `PatchAsEdits.EditsMeanPatchIff`: pure insertions are placed one line early (`PatchAsEdits.AnInsertionLandsEarly`).
- `CodeActions.TextEditsMeanEditsIff`: an empty new side leaves a blank line (`CodeActions.AnEmptySideLeavesALine`).
- `TextDocument.EditorLinesIff`: a carriage return inside a line is a line end to the editor, and edits below it land
  on other lines than meant (`PatchAction.ALoneReturnMisplacesTheEdit`).
- `CacheConcurrency.LeakedIffPublishedOver`: two threads that miss together leak a cache.
- `CacheManager.SharedHashIff`: NUL characters in the hash input.
- `DiffScan.AllAddedAreScannedIff`: an added line that begins with two plus signs is taken for a file header and is not
  scanned.
- `StoreAudit.EveryRunIsSoundIff`: an appended event that contradicts the state column.
- `Framing.AllBodiesSurviveIff`: an empty body reads as the end of the stream.

In the numeric parts, times and confidences are exact `real` numbers. The clock, the provider, the agents, the
database's failures and the decoded JSON enter as parameters.

## Model

| member | source | states |
|---|---|---|
| `StateMachine.PathsAreShortAndAcyclic` | src/jemmin/state/statemachine.py:6-21 | Every path in the transition table has at most six moves and never visits a state twice |
| `StateMachine.LongestPathIsThePatchRoute` | src/jemmin/state/statemachine.py:6-17 | Which paths have exactly six moves: only those through the patch states, and no other |
| `StateMachine.TableByTarget` | src/jemmin/state/statemachine.py:6-17 | The table read by its targets: from which states each state can be entered |
| `JobStore.SqliteJobStore.CreateRequest` | src/jemmin/state/sqlite_spooler.py:88-140 | Insert-or-ignore in one transaction: the new row with its request event, or, when the id or the key is taken, only a duplicate event on the row that holds the key; a database error changes nothing |
| `JobStore.SqliteJobStore.TransitionState` | src/jemmin/state/sqlite_spooler.py:164-201 | Checked compare-and-swap: state and event change together, or nothing changes and the right error is raised (table, unknown id, mismatch, database) |
| `JobStore.SqliteJobStore.MarkTerminal` | src/jemmin/state/sqlite_spooler.py:233-252 | Unconditional write of the state with its terminal event, or nothing |
| `JobStore.SqliteJobStore.AppendEvent` | src/jemmin/state/sqlite_spooler.py:203-217 | One event at the end of the log; rows untouched |
| `JobStore.SqliteJobStore.ListRecoverableJobs` | src/jemmin/state/sqlite_spooler.py:219-231 | Exactly the stored requests in one of the four recoverable states, which are named |
| `StoreAudit.EveryRunIsSoundIff` | src/jemmin/state/sqlite_spooler.py:88-252 | Over any sequence of store operations, appends of any event included, the keys index the rows and every log replays to its state column at every point exactly when every appended event fits |
| `StoreAudit.StagesFit` | src/jemmin/orchestrator/controller.py:70-86 | Progress events, all that orchestrators append, always fit |
| `StoreAudit.LogReplaysToColumn` | src/jemmin/state/sqlite_spooler.py:172-201 | While appended events fit, the replayed lifecycle events give exactly the state column; each state change starts from the state replayed just before it and is in the table |
| `StoreAudit.AppendSoundIff` | src/jemmin/state/sqlite_spooler.py:203-205 | A caller's own append keeps the log replayable exactly when its event is not a lifecycle event that contradicts the column |
| `StoreAudit.CreateIff` | src/jemmin/state/sqlite_spooler.py:88-140 | In terms of the rows alone: a request is stored exactly when no row has its id or its key; a duplicate changes no row, and its answer and its event name the state of the row with its key |
| `StoreAudit.TransitionIff` | src/jemmin/state/sqlite_spooler.py:164-201 | A transition succeeds exactly when the table has it and the row is in the state it starts from; then that row's state and one event change, otherwise nothing, and the error says why |
| `StoreAudit.MarkIff` | src/jemmin/state/sqlite_spooler.py:233-252 | A mark succeeds exactly when the row exists, whatever its state, and changes that state and one event |
| `StoreAudit.AtMostSixMovesBeforeMark` | src/jemmin/state/sqlite_spooler.py:172-190 | For any racing callers, at most six transitions of one request succeed before its first terminal mark, no two of them from the same state |
| `StoreAudit.SecondSwapFails` | src/jemmin/state/sqlite_spooler.py:172-190 | Once a swap from a state succeeded, every later swap from that state is refused until a terminal mark |
| `StoreAudit.UnmarkedStateOnlyDescends` | src/jemmin/state/sqlite_spooler.py:172-190 | Without a mark a row only moves down the table, whatever operations run in between |
| `LlmReviewGate.BlockingCarriesEvidence` | src/jemmin/services/llm_review_gate.py:122-163 | Every REVIEW_REJECTED or PATCH_PROPOSED from the gate is the model's own payload and carries details or a patch; one that carries either is never softened |
| `LlmReviewGate.SentComesOutIff` | src/jemmin/services/llm_review_gate.py:122-163 | Every payload the model sent, as the answer itself or as its decoded text, comes out unchanged exactly when it is not a blocking verdict without details and patch; such a one becomes a pass of confidence at most one half |
| `LlmReviewGate.UnreadIsAPass` | src/jemmin/services/llm_review_gate.py:65-138 | Where nothing can be read the gate answers its own pass of confidence one half, except for the failures it does not forgive |
| `LlmReviewGate.UnusableAnswersPass` | src/jemmin/services/llm_review_gate.py:65-74 | Whatever the model did not send itself comes out as a pass of confidence at most one half; which provider failures are forgiven |
| `Consensus.RejectIffSomeoneRejects` | src/jemmin/orchestrator/consensus.py:28-85 | The decision is reject exactly when some agent rejects |
| `Consensus.DecideRaisesIff` | src/jemmin/orchestrator/consensus.py:41-66 | The engine raises exactly when a finding of a rejecter, or of a warner where nobody rejects, cannot be quoted |
| `Consensus.RejectOfConcatenation` | src/jemmin/orchestrator/consensus.py:28-58 | The decision on two lists together is reject exactly when the decision on either is |
| `Consensus.ConfidenceBetweenScores` | src/jemmin/orchestrator/consensus.py:33-39 | Before rounding the confidence lies between the smallest and the largest score |
| `Consensus.PublishedConfidenceIsAProbability` | src/jemmin/orchestrator/consensus.py:19-85 | Scores between 0 and 1 give a rounded confidence between 0 and 1, on the empty list too |
| `Consensus.OrderDoesNotMatter` | src/jemmin/orchestrator/consensus.py:28-85 | Permuting the decisions changes neither status nor confidence |
| `Consensus.ConfidenceOfConcatenation` | src/jemmin/orchestrator/consensus.py:33-39 | The confidence of two lists together lies between their two confidences |
| `Consensus.RejectCountsTwice` | src/jemmin/orchestrator/consensus.py:33-39 | A reject weighs as much as two other decisions with its score, wherever it stands |
| `Consensus.OthersCountOnce` | src/jemmin/orchestrator/consensus.py:33-39 | Without a reject the confidence is the mean score |
| `Consensus.RoundsToNearest` | src/jemmin/orchestrator/consensus.py:56-56 | The published confidence is the nearest ten-thousandth, of two the even one |
| `Consensus.NamesAreThoseOf` | src/jemmin/orchestrator/consensus.py:28-85 | Who is named as winning and as conflicting: exactly the agents of the strongest status that occurs, and the passing ones where others object |
| `PassGate.L3CodeKeepsItsText` | src/jemmin/orchestrator/controller.py:365-386 | Reading an L3 code as a constructor keeps its text; it exits 0 exactly for the text REVIEW_PASSED |
| `PassGate.ExitZeroIffGateOpens` | src/jemmin/orchestrator/controller.py:321-453 | A concluded review exits 0 exactly when the consensus passed and L3, if asked, passed or sent no code; patching and auto-fix never open the gate |
| `PassGate.ExitZeroIffNobodyObjects` | src/jemmin/orchestrator/controller.py:321-453 | The same for the default engine down to the agents' statuses, and the one way such a conclusion can raise |
| `PassGate.CodeIff` | src/jemmin/orchestrator/controller.py:323-448 | Each result code has exactly one cause, PATCH_APPLIED and PATCH_ROLLBACK and the patch codes included |
| `PassGate.VerdictIff` | src/jemmin/orchestrator/controller.py:323-453 | Status, confidence and patch of the verdict, each by what led to it |
| `PassGate.ConclusionRaisesIff` | src/jemmin/orchestrator/controller.py:323-453 | A conclusion raises exactly when the patch pipeline or auto-fix does, or when a verified patch meets both a gate and an auto-fix service |
| `PassGate.VerifiedPatchIsDeliveredIff` | src/jemmin/orchestrator/controller.py:397-436 | The verdict on a verified patch, from an engine that answers patch, is that patch exactly when the gate or the auto-fix service is missing; with both, a variable that was never assigned is read |
| `Foretelling.VerifiedPatchIsReportedIff` | src/jemmin/orchestrator/controller.py:397-523 | The finished call of an engine that answers patch, over every schedule: with both services it reports FAILED with SYSTEM_FAILED, otherwise the patch is delivered |
| `Foretelling.AVerifiedPatchFails` | src/jemmin/orchestrator/controller.py:397-523 | From the start of a call over any store, a run that verifies its patch and fails, whatever gate and auto-fix would have answered |
| `Codes.TextDecidesExit` | bin/jemmin_cli.py:45-51 | The exit code depends on the text of the result code alone: 0 for REVIEW_PASSED, 1 for every other |
| `Foretelling.ResultIsForetold` | src/jemmin/orchestrator/controller.py:96-523 | Over every schedule, whatever else runs, a finished call whose row was created reports exactly what its collaborators' answers foretell |
| `Foretelling.FailureReportsItsCause` | src/jemmin/orchestrator/controller.py:486-523 | A finished call reports FAILED with SYSTEM_FAILED exactly when the error that stopped it is not transient, and DEGRADED exactly when it was refused or the error is transient |
| `Foretelling.StopsAreReportedIff` | src/jemmin/orchestrator/controller.py:119-175 | The whole result of a finished call that stopped early: RESOURCE_REJECTED and POLICY_REJECTED exactly when admission or policy refused |
| `Foretelling.ClassifiedIff` | src/jemmin/orchestrator/controller.py:627-640 | Each failure code by the type of the error and the words in its message, and the state and status that go with it |
| `Foretelling.EndsInDelivery` | src/jemmin/orchestrator/controller.py:119-462 | The pipeline reaches its delivery exactly when the request is let through and every collaborator it consults up to the verdict succeeds |
| `Foretelling.DeliveredIff` | src/jemmin/orchestrator/controller.py:119-484 | Over every schedule a finished call was delivered exactly when its script delivers and publishing the findings does not take it back |
| `Orchestrator.StepDescends` | src/jemmin/orchestrator/controller.py:96-523 | Every step of an unfinished call comes nearer to the end, so every run terminates |
| `RunOnce.ReviewOrchestrator.RunOnce` | src/jemmin/orchestrator/controller.py:96-523 | The imperative pipeline, with every collaborator free to raise, leaves the store and returns the result of the state machine run on its own |
| `AuditTrail.DeliveryLeavesItsTrail` | src/jemmin/orchestrator/controller.py:96-462 | The complete log of an uninterrupted delivery whose events can be written, event by event and code by code, and the result that goes with it |
| `AuditTrail.FailedAgentLeavesItsTrail` | src/jemmin/orchestrator/controller.py:258-523 | The complete log of a review whose agent raises: the agents before it, its own two events, and its failure as transition and as final mark |
| `AuditTrail.FailedL3LeavesItsTrail` | src/jemmin/orchestrator/controller.py:330-523 | The complete log of a review whose L3 gate raises; a transient failure leaves no transition there, because the table has none |
| `Orchestrator.PermittedIff` | src/jemmin/orchestrator/controller.py:251-257 | Exactly the selected agents that the policy names run, or all if it names none, as often as they were selected |
| `Orchestrator.PermittedInOrder` | src/jemmin/orchestrator/controller.py:251-257 | In the order of the selection |
| `RunOnce.ReviewOrchestrator.RunAgents` | src/jemmin/orchestrator/controller.py:258-320 | The agent loop: every permitted agent in order, its events best effort, stopping at the first that raises |
| `RunOnce.ReviewOrchestrator.HandleFailure` | src/jemmin/orchestrator/controller.py:486-523 | The exception handler follows the recovery steps: a refused transition is swallowed, the mark still tried |
| `RunOnce.ReviewOrchestrator.MarkTerminalSafe` | src/jemmin/orchestrator/controller.py:573-589 | A terminal mark whose failure is swallowed, with its effect on the store |
| `OrchestratorSafety.StepKeeps` | src/jemmin/orchestrator/controller.py:96-523 | Every step keeps the call's bookkeeping true of its row and touches no other row |
| `Interleavings.EveryScheduleIsSafe` | src/jemmin/orchestrator/controller.py:96-523 | Over every interleaving of any number of calls, all calls keep their bookkeeping, own different rows, and the store stays auditable |
| `Interleavings.AtMostOneCallPerKey` | src/jemmin/orchestrator/controller.py:107-117 | Over every interleaving at most one call per request id and per idempotency key gets past creation |
| `Interleavings.OnlyTheOwnerWrites` | src/jemmin/orchestrator/controller.py:107-117 | A row changes only in a step of the one call that created it, and rows never disappear |
| `Interleavings.ForwardTransitionsNeverMismatch` | src/jemmin/orchestrator/controller.py:143-150 | Before its terminal mark a call's forward transitions can fail only through the database |
| `Interleavings.DuplicatesChangeNothing` | src/jemmin/orchestrator/controller.py:112-116 | A duplicate is answered DUPLICATE_REQUEST_IGNORED at once and changes no row |
| `Interleavings.ResultAgreesWithStore` | src/jemmin/orchestrator/controller.py:486-589 | Whatever raised and wherever, a finished call reports one of the four terminal states, and if its last terminal mark was written that is the stored state |
| `Foretelling.ExitZeroIffReviewPassed` | src/jemmin/orchestrator/controller.py:119-484 | With the default engine, in terms of what each collaborator answers: a finished call exits 0 exactly when its row was created, nothing on the way refused or failed it, every agent that was selected and that the policy allows decided without rejecting or warning unreadably, L3 is absent or passed, and publishing took nothing back |
| `Interleavings.RecoverableUntilConsensus` | src/jemmin/state/sqlite_spooler.py:219-231 | A call that dies before any final write is offered for recovery exactly when it had neither reached consensus nor been turned away by the policy, and, in the exception handler, as long as its failure was not recorded as a transition |
| `Interleavings.AloneIsASchedule` | src/jemmin/orchestrator/controller.py:96-523 | Running one call to its end is one of the schedules |
| `Interleavings.UninterruptedRunAgreesWithStore` | src/jemmin/orchestrator/controller.py:96-523 | One uninterrupted call returns what it stored, persists exactly when it was neither a duplicate nor failed at creation, and leaves all other rows alone |
| `Foretelling.DeliveredIsOverwrittenIff` | src/jemmin/orchestrator/controller.py:464-512 | Over every schedule, DELIVERED is stored on the way and gone at the end exactly when the script delivers, its mark is written, collecting the findings or publishing the quick fix raises unforgiven, and the second mark is written too |
| `Foretelling.LateFailureOverwrites` | src/jemmin/orchestrator/controller.py:479-512 | From the start of an otherwise uneventful call with one passing agent, over any store, a run in which that happens |
| `Foretelling.LateFailuresExist` | src/jemmin/services/artifact_publisher.py:105-121 | In such calls, findings that cannot be collected overwrite the delivery for every error; an error of the quick fix does so exactly when it is no OSError, ValueError or TypeError |
| `CacheManager.SharedHashIff` | src/jemmin/services/cache_mgr.py:139-142 | Another prompt and context have the same hash exactly when the prompt or the context holds a NUL character |
| `CacheManager.ContextCacheManager.OldestKey` | src/jemmin/services/cache_mgr.py:154-154 | The key whose entry expires first |
| `CacheManager.ContextCacheManager.EvictOldest` | src/jemmin/services/cache_mgr.py:150-157 | Removes, deletes and counts the entry that expires first, and nothing from an empty store |
| `CacheManager.ContextCacheManager.Lookup` | src/jemmin/services/cache_mgr.py:64-79 | The first locked section: a live entry is a hit; otherwise an expired entry is deleted but left in the map, and only a full store evicts |
| `CacheManager.ContextCacheManager.GetOrCreate` | src/jemmin/services/cache_mgr.py:52-95 | The whole lookup: hit, miss or provider failure, with the new store, counters, deletes and provider calls; below capacity every entry is kept, at capacity the one that expires first goes and no other; nothing leaks and the bound is kept, even if the provider repeats an id; while ids are fresh, stored ids are made for their key |
| `CacheManager.MissKeeps` | src/jemmin/services/cache_mgr.py:70-79 | A miss below capacity keeps every entry and deletes at most the expired id of its own hash; at capacity it removes exactly the victim |
| `CacheManager.ContextCacheManager.Invalidate` | src/jemmin/services/cache_mgr.py:97-110 | Removes and deletes exactly that context's entry and says whether there was one |
| `CacheManager.ContextCacheManager.CleanupExpired` | src/jemmin/services/cache_mgr.py:112-123 | Exactly the expired entries go, the others stay as they were, and the count is the difference |
| `CacheManager.ContextCacheManager.ClearAll` | src/jemmin/services/cache_mgr.py:125-133 | Everything goes, and then everything ever created has been deleted |
| `CacheManager.MissAccounted` | src/jemmin/services/cache_mgr.py:70-79 | The first locked section keeps: created ids are the stored and the deleted ones, and evictions counts the deletes |
| `CacheConcurrency.StoreStaysBounded` | src/jemmin/services/cache_mgr.py:64-95 | With n threads, entries plus callers between the two locked sections never exceed max_entries + n - 1, through provider failures and all other operations |
| `CacheConcurrency.HitsAreAlive` | src/jemmin/services/cache_mgr.py:64-133 | Under every interleaving a hit returns an id made for that very hash on which no delete was called |
| `CacheConcurrency.EntryStaysIff` | src/jemmin/services/cache_mgr.py:64-133 | A step takes an entry out, or replaces it, exactly by invalidating its context, clearing all, cleaning it up once it has expired, evicting it from a full store, or publishing another entry for its context |
| `CacheConcurrency.GoodEntryStays` | src/jemmin/services/cache_mgr.py:64-133 | Over every run an entry can be hit by all threads until it expires, unless it was invalidated, cleared, evicted from a full store or replaced; no clean-up takes it |
| `CacheConcurrency.CountersCount` | src/jemmin/services/cache_mgr.py:64-80 | Over every run each hit and each miss is counted once, and every deleted id raises the evictions |
| `CacheConcurrency.StepLeaksIff` | src/jemmin/services/cache_mgr.py:93-94 | A step leaks an id exactly when it publishes over an entry that was not deleted |
| `CacheConcurrency.LeakedIffPublishedOver` | src/jemmin/services/cache_mgr.py:52-133 | On every run, an id is leaked at the end exactly when some step of the run published over its entry undeleted; so what is leaked stays leaked |
| `CacheConcurrency.OneThreadLeaksNothing` | src/jemmin/services/cache_mgr.py:52-133 | With one thread nothing ever leaks, whatever the provider does |
| `CacheConcurrency.TwoThreadsCanLeak` | src/jemmin/services/cache_mgr.py:64-94 | A run of two threads that leaks the id published first |
| `ZmqRouter.PermitsAreConserved` | src/jemmin/ipc/zmq_router.py:65-72 | Free permits plus tracked jobs is always the limit, however jobs end; so never more handlers than that, and none tracked means all permits free |
| `ZmqRouter.RepliesAreExact` | src/jemmin/ipc/zmq_router.py:79-128 | At most one reply per accepted request, exactly one if and only if it was sent; and it is the one the request's fields and its handler deserve: success exactly for a message of version 1.0 with a registered, non-empty type whose handler succeeded, under the parsed id and type, to its own client |
| `ZmqRouter.RouterCanBeClosed` | src/jemmin/ipc/zmq_router.py:135-155 | From every state of a run whose shutdown was not abandoned, some continuation closes the socket |
| `ZmqRouter.ShutdownDrains` | src/jemmin/ipc/zmq_router.py:135-155 | Once shutdown begins nothing is accepted, and the socket closes only when every accepted request has ended |
| `ZmqRouter.EveryRunIsSafe` | src/jemmin/ipc/zmq_router.py:42-159 | The invariant behind the three, over every run of accept, finish, fail, cancel, callback, stop, drain and close |
| `ZmqRouter.Router.CreateTask` | src/jemmin/ipc/zmq_router.py:65-72 | Takes a permit and tracks the new job |
| `ZmqRouter.Router.OnTaskDone` | src/jemmin/ipc/zmq_router.py:130-133 | Returns the permit and stops tracking |
| `ZmqRouter.Router.BuildReply` | src/jemmin/ipc/zmq_router.py:79-117 | The reply the request deserves, success or error, to its own client under its own id and type |
| `ZmqRouter.Router.SendReply` | src/jemmin/ipc/zmq_router.py:119-128 | Serialise and send; the closed-socket return is never taken |
| `ZmqRouter.Router.StartShutdown` | src/jemmin/ipc/zmq_router.py:135-143 | The first call starts draining, a later one changes nothing |
| `ZmqRouter.Router.Close` | src/jemmin/ipc/zmq_router.py:152-155 | Closing, allowed only when the awaited jobs have ended |
| `Lines.LinesComeBackIff` | src/jemmin/services/feedback_svc.py:34-34 | Splitting newline-terminated lines gives them back exactly when none holds another line boundary character |
| `Lines.CutsIff` | src/jemmin/services/feedback_svc.py:34-34 | Which characters cut a text in two: ten, by name |
| `Lines.PairCutsIff` | src/jemmin/services/feedback_svc.py:34-34 | A carriage return and the line feed after it cut once, every other pair of boundaries twice |
| `UnifiedDiff.BodyReplacesOldByNew` | src/jemmin/services/feedback_svc.py:51-56 | A hunk walked line by line replaces its old side by its new side, or does not apply |
| `FeedbackService.ParseHunkRanges` | src/jemmin/services/feedback_svc.py:25-60 | The parser's loop computes the reading of the whole text |
| `FeedbackService.HeaderComesBack` | src/jemmin/services/feedback_svc.py:22-22 | The header pattern reads back start and length of every rendered header, with the length written or left out |
| `HunkHeaders.MatchHeaderIff` | src/jemmin/services/feedback_svc.py:22-22 | Exactly which lines are hunk headers, and the numbers read off them: two ranges of digits between the marks, whatever follows |
| `PatchReading.PatchComesBackIff` | src/jemmin/services/feedback_svc.py:25-60 | Reading the text of any patch gives one edit per hunk, its old range and its new side, exactly when the patch is legible: kept and added lines hold no further line boundary, and no later piece of another line opens an edit or adds a line |
| `PatchReading.RemovedLineMayBreak` | src/jemmin/services/feedback_svc.py:48-56 | A removed line may hold one further line boundary exactly when what follows it is read as nothing: no header, no added and no kept line |
| `PatchReading.AFormFeedLosesText` | src/jemmin/services/feedback_svc.py:34-56 | A patch that applies and whose kept line, holding a form feed, is read without its rest |
| `LineEdits.ReplacedIsSpliced` | bin/jemmin_lsp.py:157-166 | For ordered edits the simultaneous replacement on the original document equals one pass over the edits |
| `PatchAsEdits.EditsMeanPatch` | src/jemmin/services/feedback_svc.py:39-45 | If no hunk is a pure insertion, replacing each range of the original yields exactly the patched file |
| `PatchAsEdits.EditsMeanPatchIff` | src/jemmin/services/feedback_svc.py:39-45 | For every patch that applies: the edits are well placed and yield the patched file exactly when every pure insertion repeats the kept line before it |
| `PatchAsEdits.AnInsertionLandsEarly` | src/jemmin/services/feedback_svc.py:39-45 | A line added after the first of two lines lands before it |
| `TextDocument.EditorLinesIff` | bin/jemmin_lsp.py:160-163 | An editor, which also ends lines at a carriage return, counts the lines of a file as the file does exactly when every carriage return is the last character of its line |
| `CodeActions.BuildTextEdits` | bin/jemmin_lsp.py:157-166 | One text edit per range, in order |
| `CodeActions.TextEditsMeanEditsIff` | bin/jemmin_lsp.py:160-166 | For well-placed edits above the first line the editor counts otherwise: the document edited in the editor is the text of the edited lines exactly when no edit has an empty new side |
| `CodeActions.AnEmptySideLeavesALine` | bin/jemmin_lsp.py:157-166 | Deleting the only line of a file leaves an empty line |
| `PatchAction.PatchedLinesIff` | src/jemmin/services/feedback_svc.py:25-60 | From the text of a patch without stray headers: its edits are well placed and the lines they yield are the patched ones exactly when the patch is legible and its pure insertions are harmless |
| `PatchAction.StrayHeaderByCoincidence` | src/jemmin/services/feedback_svc.py:34-56 | An illegible patch whose stray header replaces a line by itself, so that its edits yield the patched lines all the same |
| `PatchAction.PatchActionAppliesPatchIff` | bin/jemmin_lsp.py:155-175 | From the text of a patch without stray headers to the document in the editor, for files whose lines up to the last hunk the editor counts alike: the patched text exactly when the patch is legible, its pure insertions are harmless, and every hunk has a new side |
| `PatchAction.ALoneReturnMisplacesTheEdit` | bin/jemmin_lsp.py:157-166 | A legible patch whose removed line holds a carriage return: the editor counts two lines, and only the first is replaced |
| `LoopRules.StackIsOpenHeaders` | src/jemmin/agents/architecture.py:97-113 | At every point the stack is strictly increasing and holds exactly the indents of the loops still open |
| `LoopRules.ReportedIffBroken` | src/jemmin/agents/architecture.py:97-113 | A rule is reported exactly when some line in the body of some loop breaks it |
| `LoopRules.PopsAreBounded` | src/jemmin/agents/architecture.py:103-104 | Pops and remaining entries together are the headers seen, so the inner loop runs at most once per line over a whole hunk |
| `LoopRuleScanner.OneMoreBlank` | src/jemmin/agents/architecture.py:61-64 | The indent of n spaces is n; a further space adds one column, a further tab leads to the next multiple of eight |
| `LoopRuleScanner.UsesIoIff` | src/jemmin/agents/architecture.py:51-58 | A line does input or output exactly when one of six names occurs in it |
| `LoopRuleScanner.LoopHeaderIff` | src/jemmin/agents/architecture.py:49-49 | A loop header is the word for or while, anything, a colon, blanks and at most a comment |
| `LoopRuleScanner.PlainImportIff` | src/jemmin/agents/architecture.py:109-110 | A plain import is the word and a space or a tab |
| `LoopRuleScanner.BrokenInSource` | src/jemmin/agents/architecture.py:97-113 | The rules on the source text itself: what is reported is a line of code that breaks a rule and that, like all code since, is indented deeper than a loop header before it |
| `DiffScan.PatchIsScanned` | src/jemmin/agents/architecture.py:67-83 | On the text of a patch the generator yields, hunk by hunk, the added lines that do not begin with two plus signs |
| `DiffScan.AllAddedAreScannedIff` | src/jemmin/agents/architecture.py:79-80 | All added lines are scanned exactly when none begins with two plus signs |
| `DiffScan.ReportedOfPatch` | src/jemmin/agents/architecture.py:121-134 | A rule is reported for the text of a patch exactly when the scanned lines of one of its hunks break it |
| `DiffScan.IndentedCallIsReported` | src/jemmin/agents/architecture.py:97-113 | Input or output on the line after a loop header is reported exactly when it is indented at all |
| `LoopRuleScanner.Scanner.ScanLine` | src/jemmin/agents/architecture.py:97-113 | One line: the inner loop, the two checks and the push are one step of the scan |
| `ArchitectureScan.IterAddedHunks` | src/jemmin/agents/architecture.py:67-83 | One hunk per header with the lines added up to the next; lines before the first header count only if there is no header |
| `ArchitectureScan.ScanDiff` | src/jemmin/agents/architecture.py:121-134 | The loop findings, in code order, are exactly the rules some hunk breaks |
| `Jsonc.StripComments` | src/jemmin/mini_reviewer.py:105-165 | The four-flag loop computes the grammar of strings, line comments, block comments and plain text |
| `Jsonc.RunIsStrip` | src/jemmin/mini_reviewer.py:114-163 | The automaton equals the recursive grammar on every text |
| `Jsonc.StrippedIsClean` | src/jemmin/mini_reviewer.py:114-163 | No comment opens outside a string in the output |
| `Jsonc.StripTwice` | src/jemmin/mini_reviewer.py:114-163 | Text is unchanged exactly when it has no comment; stripping twice is stripping once |
| `Jsonc.LiteralsKept` | src/jemmin/mini_reviewer.py:135-150 | String literals are kept character for character and in order |
| `Jsonc.NewlinesKept` | src/jemmin/mini_reviewer.py:118-133 | The newlines of the text are all kept |
| `JsoncTokens.TokensStripped` | src/jemmin/mini_reviewer.py:105-165 | A text given as literals, comments and other characters: literals with their escapes and other characters come out as they are, comments as their newlines, in order |
| `JsoncTokens.UnclosedBlockStripped` | src/jemmin/mini_reviewer.py:114-163 | A block comment that is not closed leaves its newlines |
| `JsoncTokens.UnclosedLineStripped` | src/jemmin/mini_reviewer.py:114-163 | A last line comment leaves nothing |
| `JsoncTokens.UnclosedLiteralStripped` | src/jemmin/mini_reviewer.py:114-163 | A literal that is not closed is kept whole |
| `Decimal.DigitsOfPrint` | bin/jemmin_lsp.py:40-53 | Reading the digits of a printed length gives it back |
| `Decimal.DigitsIff` | bin/jemmin_lsp.py:27-46 | Which text is a numeral: digits and single underscores between them |
| `Decimal.DigitsSnoc` | bin/jemmin_lsp.py:27-46 | Each further digit multiplies by ten, and an underscore before it changes nothing |
| `Decimal.SignIff` | bin/jemmin_lsp.py:27-46 | One sign may stand before a numeral |
| `Framing.ReadMessage` | bin/jemmin_lsp.py:27-46 | The header loop and the body read compute the reading and leave the stream right behind it; end of stream and malformed lengths included |
| `Framing.WriteMessage` | bin/jemmin_lsp.py:49-55 | One frame at the end of the stream |
| `Framing.ReadOfFramed` | bin/jemmin_lsp.py:27-46 | A message with any other headers before or after the length is read whole, whatever follows; a body of length zero reads as end of stream |
| `Framing.ReadOfHeaders` | bin/jemmin_lsp.py:27-46 | Any headers: the last length counts, in any case and between any blanks; none or zero is the end of the stream, -1 everything there is, less an error, and a body cut short comes as far as it goes |
| `Framing.ReadOfBadLength` | bin/jemmin_lsp.py:27-46 | The first length that is no number ends the message there |
| `Framing.ReadOfNoBlankLine` | bin/jemmin_lsp.py:27-46 | Headers without a blank line after them are the end of the stream |
| `Framing.ReadAllOfFrames` | bin/jemmin_lsp.py:27-55 | For every list of bodies, whatever bytes they contain, those before the first empty one are read back in order, then end of stream |
| `Framing.AllBodiesSurviveIff` | bin/jemmin_lsp.py:27-55 | All of them come back exactly when none is empty |
| `Debounce.RecordsTheLatest` | src/jemmin/orchestrator/resource_mgr.py:61-65 | What is recorded for a key is the clock of its latest accepted attempt, whatever the clock does |
| `Debounce.AcceptedIff` | src/jemmin/orchestrator/resource_mgr.py:60-65 | Exactly when an attempt is accepted, for clocks read in any order |
| `Debounce.AcceptedAreSpaced` | src/jemmin/orchestrator/resource_mgr.py:60-65 | Two accepted attempts for one key are at least the debounce apart |
| `Debounce.RefusedIsClose` | src/jemmin/orchestrator/resource_mgr.py:60-65 | With a clock that runs forward, a refused attempt lies within the debounce of an accepted one or of clock zero |
| `ResourceManager.DefaultResourceManager.AllowNewJob` | src/jemmin/orchestrator/resource_mgr.py:53-66 | Breaker, debounce and record in one call, as one step of the specification |
| `ResourceManager.DefaultResourceManager.ReserveTokens` | src/jemmin/orchestrator/resource_mgr.py:68-73 | Grants exactly what fits and subtracts it |
| `ResourceManager.AdmittedAreSpaced` | src/jemmin/orchestrator/resource_mgr.py:53-66 | Over every run of calls two admitted requests of one intent for one file are at least its debounce apart |
| `ResourceManager.AdmittedIff` | src/jemmin/orchestrator/resource_mgr.py:53-66 | Exactly when a request is admitted, over every run: the breaker is closed, and a debounced one is far enough from every debounced request with its key that was admitted before |
| `ResourceManager.BreakerIff` | src/jemmin/orchestrator/resource_mgr.py:78-82 | The breaker is open exactly when it was opened and not closed since |
| `ResourceManager.GrantedIff` | src/jemmin/orchestrator/resource_mgr.py:68-73 | A reservation is granted exactly when it fits into the budget less everything granted before |
| `ResourceManager.DefaultIntents` | src/jemmin/orchestrator/resource_mgr.py:10-13 | With the default table, exactly when a passive save is admitted: the breaker is closed and 1.5 seconds have passed since clock zero and every admitted passive save of the file; every other request is answered by the breaker alone |
| `ResourceManager.RefusedIsCloseToAdmitted` | src/jemmin/orchestrator/resource_mgr.py:53-66 | With sequential calls and the breaker closed, a refusal has an admitted request or clock zero within the debounce |
| `ResourceManager.TokensAreConserved` | src/jemmin/orchestrator/resource_mgr.py:68-76 | Remaining tokens are the budget minus all that was granted, and never negative |
| `FileWatcher.CodeChangeHandler.HandlePathEvent` | bin/mini_nitpicker_daemon.py:51-63 | Directories and other suffixes are ignored and leave no trace; otherwise the debounce decides |
| `FileWatcher.HandleAll` | bin/mini_nitpicker_daemon.py:41-63 | Over a run of events, a review starts exactly for the accepted attempts |
| `FileWatcher.StartedIff` | bin/mini_nitpicker_daemon.py:41-63 | Exactly when an event starts a review, in terms of the events: a watched file, and far enough from every event of that file that started one before |
| `FileWatcher.ReviewsAreSpaced` | bin/mini_nitpicker_daemon.py:57-63 | Two reviews of one file are started at least the debounce apart |

## Left out

- SQLite, ZeroMQ, asyncio, subprocess and file-system mechanics: each transaction, send and wait is one atomic step that
  happens or raises. Frame checks before a message is accepted, poll timeouts and signal handling are not modelled.
- Exceptions that are not `Exception` (interrupts): the handler does not see them in the code either.
- `Consensus.DecideRaisesIff`: of an agent's findings only what quoting them raises is kept; that they cannot be
  collected (src/jemmin/orchestrator/controller.py:668-676) is a separate parameter of the call.
- Summaries, reasons and log text; event payloads are kept only as far as the state and the result code, and the store's
  exception messages without the state names they quote. The interpreter's message about an unassigned variable is kept as
  the variable's name.
- Stores that return no `JobCreationOutcome` (src/jemmin/orchestrator/controller.py:109-110) and the offload gateway,
  whose answer is only logged.
- Result codes of L3 that are not text are one value, `NotText`: they never pass, whatever they are.
- Floating-point rounding and overflow, the SHA-256 digest (taken to be injective), UTF-8 decoding and JSON decoding.
- Unicode: digits, letters and white space are ASCII ones; `str.isspace` has a few more characters.
- `CacheConcurrency.HitsAreAlive`: assumes a clock that does not run back and provider ids that are never reused. The
  statistics counters of removals are updated outside the lock; lost updates of a counter are not modelled.
- `CacheManager.ContextCacheManager.GetOrCreate`: that stored ids were made for their key is promised only while the
  provider's ids are fresh.
- `CacheManager.ContextCacheManager.OldestKey`: among entries that expire together the code takes the one inserted first;
  the model allows any of them.
- `JobStore.SqliteJobStore.ListRecoverableJobs`: the result is a set, the order of the rows is not modelled.
- `ZmqRouter.RepliesAreExact`: the handler's answer is a success or an error; its contents are not modelled.
- `PatchReading.PatchComesBackIff`: single-file patches only. The `---` and `+++` lines of a second file would be read as
  lines of the hunk before them.
- `PatchAction.PatchActionAppliesPatchIff`: the document's last line ends in a newline, and lines hold none. No line up
  to the last hunk holds a carriage return before its last character; where one does, the editor counts further lines
  and what an edit hits depends on them (`TextDocument.EditorLinesIff`, `PatchAction.ALoneReturnMisplacesTheEdit`). A
  patch with a stray header, a later piece of a line that matches the header pattern, is always misread
  (`PatchReading.PatchComesBackIff`); whether its edits still leave the right text depends on the lines they hit
  (`PatchAction.StrayHeaderByCoincidence`), so the equivalence is stated for patches without one.
- `PatchAction.PatchedLinesIff`: stated for patches without a stray header, for the same reason.
- `CodeActions.TextEditsMeanEditsIff`: the edits end above the first line the editor counts otherwise.
- The suppression and inline actions of the language server.
- `Debounce.AcceptedAreSpaced`: the debounce is not negative. A negative one can be configured for the file watcher and
  refuses only events whose clock ran back by more than that.
- `FileWatcher.StartedIff`: the debounce is not negative, for the same reason.
- `AuditTrail.DeliveryLeavesItsTrail`: one call at a time, and no write of an event fails; what interleaved calls do to the
  rows is in `Interleavings`.
- `DiffScan.PatchIsScanned`: no line of the patch holds a further line boundary, and no line before the first hunk looks
  like a hunk header.
- `FileWatcher.CodeChangeHandler.HandlePathEvent`: the suffix of a path is a parameter; the review thread itself is not
  modelled.
- `ResourceManager.AdmittedAreSpaced`: a call checks the breaker and takes the lock in one step. A breaker that opens
  between the two does not change the spacing, which `Debounce.AcceptedAreSpaced` states for the locked sections alone.
- Rules ARCH003 to ARCH007 and the other rule tables: what they do is what the regular-expression engine does.
- Language-model providers, notifications, analytics, reports, the setup wizard, the policy engine and the agent registry:
  input, output or formatting, or only their answers matter here.
- The context service's own cache (src/jemmin/services/context_svc.py:88-94), which is keyed by the target file alone, and
  the files the auto-fix rollback touches (src/jemmin/services/autofix_svc.py:198-206).

# Verified model of the agent execution kernel

This project models, in Dafny, the logic at the centre of the assistant's backend and proves properties of it over
all inputs and all runs.

* **Agent execution.** The deterministic planner, the executor with its bounded event log and cooperative
  cancellation, the lifecycle runtime around an arbitrary backend, and the service that persists both logs through a
  third transition table. Each layer has an explicit description of everything it can return; the layers are then
  composed (`Pipeline.dfy`).
* **Text chunking.** The sliding-window loop with prioritised natural breaks.
* **Workspace integration bindings.** The in-memory store and the service over it, under every interleaving of reads
  and writes.
* **Context assembly, grounded answers, refresh-token rotation, hash embedding.** Smaller cores, each with an
  independent description its code is proved equal to.

Objects the source mutates are classes here (`ExecutionLifecycle`, `DeterministicExecutor`, `RuntimeLifecycle`,
`RuntimeContext`, `LifecycleAgentRuntime`, `AgentRunService`, `RunSession`, `InMemoryWorkspaceBindingRepository`,
`WorkspaceIntegrationService`, `ContextProviderRegistry`, `AgentContextAssembler`, `AuthService`, `AuthSession`).
Their methods are proved equal to functions on values, and the theorems are about those functions. Cooperative
concurrency is a state machine over steps: what runs between two awaits is one step, and any other task's step may
come in between
(`ExecutorSystem.dfy`, `RuntimeSystem.dfy`, `BindingService.dfy`, `AuthSessions.dfy`).

## Findings

Where the code does not keep what its names or its neighbours suggest, the model follows the code and states the exact
condition:

* An executor limit of exactly `2 * steps + 3` events returns a run as `succeeded` with code `executor_limit` and no
  final event, because the transition sets the status before it records (`ExecutionRuns.EventBudgetIsExact`).
* The planner's validators accept steps listed in any order, the executor's only in position order
  (`PlannedExecution.ValidatorsAgreeExactly`, `PlannedExecution.ValidatorsDiffer`).
* If nobody cancelled, a valid backend log of more than `max_events - 5` and at most `max_events` events makes the
  runtime raise, while a longer one is returned as a failure (`AgentRuntime.ReturnsExactlyWhen`).
* A run whose audit write fails on the way into `running` stays `queued`: there is no legal move from there to `failed`
  (`AgentRuns.ErrorsEndFailedExactly`).
* The executor's outcome does not influence the final status: a run it reports as cancelled or failed is still handed
  to the runtime (`Pipeline.FinalStatusIsTheRuntimes`).
* A backend event named `run.status_changed` is stored under that name and can break the history of the run
  (`Pipeline.ForeignStatusChangeBreaksHistory`; the exact condition is `Pipeline.EveryScenarioMatchesExactly`).
* So can an event of that name appended by a caller: the name is accepted, and every such event breaks the history of a
  run that was in order (`AgentRuns.PosingEventBreaksHistory`; the exact condition over any sequence of operations is
  `AgentRuns.HistoryOfRunExactly`).
* An event appended with an explicit sequence leaves a gap exactly when it names a number beyond the next one
  (`AgentRuns.AppendEventKeepsOrderExactly`).
* Binding with a credential that has no ownership fails on reading it, while an update accepts such a credential
  (`BindingService.BindSucceedsExactly`, `BindingService.ChangeSucceedsExactly`).
* A provider registered while other providers are awaited makes the assembler reject its own merge
  (`ContextAssembly.StructuralChecksFailExactly`).
* A refresh token can be exchanged twice: exactly when the second request reads before any refresh of the session has
  committed and while the session may be used (`AuthSessions.ExchangedTwiceExactly`). Both succeed, and only the later commit's token works afterwards.
* A change to a binding is lost when another operation that had read it before writes its copy: exactly when the change
  touched what that operation keeps (`BindingService.StaleWriteExactly`). A disabled binding can so be revived
  (`BindingService.StaleUpdateRevives`).

## Reading guide

`Outcomes` and `Ordering` are shared. `SlidingWindows` is the theory of windows for any end function and
`TextChunking` its instance. `Planning`, `Execution`, `ExecutionRuns`, `ExecutorSystem`, `PlannedExecution`,
`AgentRuntime`, `RuntimeSystem`, `RunPersistence`, `AgentRuns` and `Pipeline` build on each other in this order, as do
`Integrations`, `WorkspaceBindings` and `BindingService`. `ContextAssembly`, `GroundedAnswers`, `AuthSessions` and `HashEmbedding` use
only the shared modules and `TextChunking`'s notion of white space. `dafny verify dfyconfig.toml` checks everything.

Common abbreviations in the models: `Execute` of the executor takes the set of await points (two per step) at which a
cancel request arrives; `Execute` of the runtime takes whether the cancellation event was set beforehand and whether a
cancel request came while the backend ran; the systems show that these are the requests `cancel` answered.

## Model

| member | source | states |
|---|---|---|
| TextChunking.TextChunker.Chunk | backend/app/domains/documents/chunking.py:30-55 | the sliding loop terminates and returns exactly the chunks of the windows `Windows` describes |
| TextChunking.TextChunker.FindNaturalBreak | backend/app/domains/documents/chunking.py:57-68 | the returned end is the best break: no better separator stands past 55% of the window, and this one nowhere later; the hard end if none does |
| TextChunking.NewChunker | backend/app/domains/documents/chunking.py:20-28 | construction succeeds if and only if the size is at least 200 and the overlap lies between 0 and the size |
| TextChunking.SpacesAreThese | backend/app/domains/documents/chunking.py:31 | the characters that stripping removes, below U+10000 |
| TextChunking.StrippedSpanKeeps | backend/app/domains/documents/chunking.py:31 | stripping a range loses only white space |
| TextChunking.LastOccurrenceDecides | backend/app/domains/documents/chunking.py:61-66 | looking only at the last occurrence of a separator is enough: if that one is too early, no occurrence qualifies |
| TextChunking.WindowEndByPreference | backend/app/domains/documents/chunking.py:57-68 | a window short of the end of the text ends after its last paragraph break past 55%, else its last line break, else its last sentence end, else its last space, else at its full length |
| TextChunking.BlankExactly | backend/app/domains/documents/chunking.py:31-33 | stripping leaves nothing if and only if every character is white space |
| TextChunking.WindowEndIsMonotone | backend/app/domains/documents/chunking.py:57-68 | moving the window right never moves the chosen end left, for any two starts |
| TextChunking.StartsIncreaseAndEndsNeverDecrease | backend/app/domains/documents/chunking.py:37-55 | over all passes, starts strictly increase and ends never decrease, however large the overlap |
| TextChunking.AdjacentWindows | backend/app/domains/documents/chunking.py:38-55 | adjacent windows leave no gap, overlap by at most the overlap setting and advance by at least the stride |
| SlidingWindows.NeighboursExactly | backend/app/domains/documents/chunking.py:37-55 | each window ends where the end function says, and the next starts exactly the overlap before that end, or one past its start when that is further |
| TextChunking.WindowsEndBest | backend/app/domains/documents/chunking.py:37-40 | every window of the loop ends at its best break or at its full length |
| TextChunking.NeighboursShareTheOverlap | backend/app/domains/documents/chunking.py:53-55 | neighbouring windows share exactly the overlap when the first is longer than overlap + 1; otherwise the next starts one further |
| TextChunking.WindowIsRange | backend/app/domains/documents/chunking.py:37-54 | every window is a non-empty range within the size limit, and only the last reaches the end of the text |
| TextChunking.WindowCountBound | backend/app/domains/documents/chunking.py:36-55 | at most 1 + (L - 1) / max(1, floor(0.55 size) + 1 - overlap) passes |
| SlidingWindows.SlideCountBound | backend/app/domains/documents/chunking.py:36-55 | the same bound for any function giving window ends, from the least step between starts |
| TextChunking.WindowsRebuildText | backend/app/domains/documents/chunking.py:37-54 | joining what each window adds beyond the previous end rebuilds the stripped text exactly |
| TextChunking.EveryCharacterIsChunked | backend/app/domains/documents/chunking.py:30-55 | every non-blank character lies, at its own position, in the stripped span of an emitted chunk |
| TextChunking.ChunkIsItsSpan | backend/app/domains/documents/chunking.py:40-50 | chunk j is numbered j and is the text of the j-th non-empty stripped span |
| TextChunking.ChunksAreWellFormed | backend/app/domains/documents/chunking.py:40-50 | chunks are numbered 0..m-1, non-empty, at most the size long, start and end with non-blank characters and count their characters |
| TextChunking.NonBlankTextHasChunks | backend/app/domains/documents/chunking.py:31-33 | there are chunks if and only if some character is not white space |
| Planning.StepIdReadsBack | backend/app/domains/agents/planner.py:361 | the number can be read back from a zero-padded `step-NNN` identifier, of any length |
| Planning.StepIdsAreDistinct | backend/app/domains/agents/planner.py:360-361 | different orders never share a step identifier |
| Planning.StepIdFormat | backend/app/domains/agents/planner.py:360-361 | `step-` and then digits reading as the order: three of them below 1000, and beyond that without a leading zero |
| Planning.BuildSteps | backend/app/domains/agents/planner.py:342-375 | the loop yields one tool step per tool, in order, each depending on the one before, or the single instruction step |
| Planning.BuiltStepsChain | backend/app/domains/agents/planner.py:342-375 | the built steps one by one: a chain of tool steps, each depending on exactly the one before it, with their texts; or the single instruction step |
| Planning.BuiltStepsAreValid | backend/app/domains/agents/planner.py:342-375 | the steps built for any tool list have distinct identifiers, orders equal to positions and only earlier dependencies |
| Planning.ToolIdsOfPlan | backend/app/domains/agents/planner.py:243-244 | the tools of the built steps are the requested tools, in order |
| Planning.ToolIdsConcat | backend/app/domains/agents/planner.py:229-244 | the tools of any list of steps are listed piece by piece |
| Planning.ToolIdsOfOne | backend/app/domains/agents/planner.py:229-244 | only a tool step with a tool lists one |
| Planning.NoStepErrorMeans | backend/app/domains/agents/planner.py:230-241 | the per-step loop complains about nothing if and only if every step is short enough and every tool step names an available tool |
| Planning.AcceptedForRequestExactly | backend/app/domains/agents/planner.py:213-244 | a plan is accepted for a request if and only if run, user, task and requested tools agree, it is within limits, and its tool steps name available tools, just the requested ones in order |
| Planning.Plan | backend/app/domains/agents/planner.py:281-306 | the planner returns the built plan or the first error its stages raise |
| Planning.BuiltPlanIsValid | backend/app/domains/agents/planner.py:160-180 | every plan the planner builds passes the plan model's own validator |
| Planning.PlannerAcceptsExactly | backend/app/domains/agents/planner.py:281-306 | a well-formed request gets its plan exactly when it is within limits and every tool is available, and otherwise the stated error |
| Execution.LegalMoves | backend/app/domains/agents/executor.py:64-94 | the transition table by its columns: from where each status is reached; cancelling is possible until the run is over, and nothing leads out of a run that is |
| Execution.ExecutionLifecycle.constructor | backend/app/domains/agents/executor.py:370-402 | a run starts `requested` with its steps pending and one event |
| Execution.ExecutionLifecycle.Record | backend/app/domains/agents/executor.py:429-451 | an event is appended with the next number, or refused when the log is full, leaving the state as it was |
| Execution.ExecutionLifecycle.Transition | backend/app/domains/agents/executor.py:404-427 | an illegal target changes nothing; a legal one changes the status even when its event no longer fits |
| Execution.TransitionIsSafe | backend/app/domains/agents/executor.py:404-427 | a transition makes a legal move, recorded when the log has room, or changes nothing; once a run is over every further one is refused |
| Execution.ExecutionLifecycle.SetStepStatus | backend/app/domains/agents/executor.py:453-483 | only the step at `order - 1` changes |
| Execution.ExecutionLifecycle.RequestCancel | backend/app/domains/agents/executor.py:485-489 | accepted if and only if the run is not over, and then only the flag changes |
| Execution.DeterministicExecutor.Cancel | backend/app/domains/agents/executor.py:582-584 | True exactly for a run in flight that is not over; no other run is touched |
| Execution.DeterministicExecutor.ProgressStep | backend/app/domains/agents/executor.py:625-651 | starts the step, records it, closes it as deferred or completed, records that; stops where the log is full |
| Execution.DeterministicExecutor.CoordinateStep | backend/app/domains/agents/executor.py:557-562 | one turn: a cancel request during either suspension is noticed at once, before or after the step |
| Execution.DeterministicExecutor.CloseSteps | backend/app/domains/agents/executor.py:663-672 | every open step is closed with the error, every finished one kept |
| Execution.DeterministicExecutor.FailureResult | backend/app/domains/agents/executor.py:653-680 | what a raised executor error becomes: a result, or the limit error again when the final event does not fit |
| Execution.DeterministicExecutor.RunSteps | backend/app/domains/agents/executor.py:545-575 | the body of `execute` refines the value-level run `RunPlan` |
| Execution.DeterministicExecutor.ExecuteRequest | backend/app/domains/agents/executor.py:531-580 | validation, refusal of a run already in flight, the run itself; the dictionary ends as it began |
| ExecutionRuns.StepFromMidway | backend/app/domains/agents/executor.py:625-651 | one step leads from k steps done to k + 1 steps done with two more events, or stops with the log full |
| ExecutionRuns.TurnOutcome | backend/app/domains/agents/executor.py:557-562 | every way one turn of the loop can end, by limit and cancel request |
| ExecutionRuns.RunOutcome | backend/app/domains/agents/executor.py:531-580 | every run of a valid plan, for every limit, policy and cancel schedule, equals an explicit description of its log and steps |
| ExecutionRuns.EventBudgetIsExact | backend/app/domains/agents/executor.py:404-451 | the limit is met if and only if it is below 2k + 4 (k steps done) or 3 when denied; a run with room records exactly that many; 2n + 3 is the one limit at which the finished run returns `succeeded` with a limit error and no final event |
| ExecutionRuns.CancelledRunsEndCancelled | backend/app/domains/agents/executor.py:653-680 | with room, any cancel request at an await point ends the run cancelled, a prefix of steps done by kind and all later ones cancelled |
| ExecutionRuns.NoStepFaultMeans | backend/app/domains/agents/executor.py:297-315 | the executor's per-step checks pass if and only if lengths, dependencies and tools are all in order |
| ExecutionRuns.ValidExactly | backend/app/domains/agents/executor.py:280-319 | the executor's validator accepts a plan if and only if steps, identifiers, order, lengths, dependencies and tools are as listed, on the plan itself |
| ExecutionRuns.RegisteredExactly | backend/app/domains/agents/executor.py:586-608 | the registry check passes if and only if there is no registry or it enables the tool of every tool step |
| ExecutionRuns.PermittedExactly | backend/app/domains/agents/executor.py:610-624 | a plan meets no policy if and only if its instructions are allowed and its tool steps are allowed and not rejected |
| ExecutionRuns.DeniedExactly | backend/app/domains/agents/executor.py:531-580 | a valid plan is denied, whoever cancels it when, if and only if it holds an instruction that is not allowed or a tool step that is not allowed or rejected |
| ExecutionRuns.ReturnedLogsFollowDependencies | backend/app/domains/agents/executor.py:557-562 | in every returned log a step starts only after each step it depends on was completed or deferred |
| ExecutionRuns.ReturnedStatesCoverPlan | backend/app/domains/agents/executor.py:321-337 | whatever is returned passes the executor's own validation of its state and is terminal |
| ExecutorSystem.ResumeAsAlone | backend/app/domains/agents/executor.py:557-580 | resuming a call that is where it would be alone leaves it where it would be alone |
| ExecutorSystem.NextKeepsInv | backend/app/domains/agents/executor.py:531-584 | starting, resuming, cancelling and killing calls in any order keep the dictionary and the calls in step |
| ExecutorSystem.EveryCallEndsAsAlone | backend/app/domains/agents/executor.py:531-580 | isolation: under every interleaving of any number of runs, a call ends exactly as it would alone with its own cancels |
| ExecutorSystem.AcceptedCancelIsHonoured | backend/app/domains/agents/executor.py:582-584 | once `cancel` has answered True, that call can only end cancelled with its first k steps done, or raise because the event limit is below 2k + 4; it never succeeds, under any limit and whatever came before or comes after |
| ExecutorSystem.CancelEndsNextResumption | backend/app/domains/agents/executor.py:557-580 | such a call ends, and leaves the dictionary, with its very next resumption |
| ExecutorSystem.OthersAreUntouched | backend/app/domains/agents/executor.py:531-584 | an action leaves every other call, and its place in the dictionary, as they were |
| ExecutorSystem.DuplicateNeverEvicts | backend/app/domains/agents/executor.py:534-535 | a second `execute` for a run in flight is refused and the first keeps its place |
| ExecutorSystem.StartsExactly | backend/app/domains/agents/executor.py:531-580 | after any interleaving, when a new call is a duplicate, when it comes to wait, and that it is otherwise over at once with the outcome it has alone |
| ExecutorSystem.KillFrees | backend/app/domains/agents/executor.py:577-580 | killing a waiting call's task frees its run's place |
| ExecutorSystem.ResumptionsMoveOn | backend/app/domains/agents/executor.py:557-562 | each resumption moves a call one await point on, so it is resumed fewer than twice its steps |
| PlannedExecution.ValidatorsAgreeExactly | backend/app/domains/agents/executor.py:280-319 | a plan the planner's validators accept is accepted by the executor's if and only if its steps are listed in order |
| PlannedExecution.ValidatorsDiffer | backend/app/domains/agents/executor.py:292-295 | a concrete plan listed back to front passes the planner's validators and not the executor's |
| PlannedExecution.RegistryAcceptsExactly | backend/app/domains/agents/executor.py:586-608 | the registry check passes a built plan if and only if every requested tool is enabled, or there is no registry |
| PlannedExecution.PlannerPlansAreAccepted | backend/app/domains/agents/executor.py:280-319 | every plan the planner returns under default limits passes the executor's validator and default policies, and is accepted if and only if the executor's registry, which may differ from the planner's, enables the requested tools, as the planner's own always does |
| PlannedExecution.AcceptedRunCompletes | backend/app/domains/agents/executor.py:531-580 | under any settings, an accepted and permitted plan whose 2n + 4 events fit runs, uncancelled, to the completed run |
| PlannedExecution.DefaultRunCompletes | backend/app/domains/agents/executor.py:94-120 | under default limits and policies every accepted plan completes when nobody cancels, with at most 132 of 256 events |
| PlannedExecution.PlannedRunCompletes | backend/app/domains/agents/executor.py:531-580 | the uncancelled run of a planner's plan whose tools the executor's registry enables is the completed run described step by step |
| PlannedExecution.PlannedRunsSucceed | backend/app/domains/agents/executor.py:531-580 | such a plan, uncancelled, runs to `succeeded` with 2n + 4 events, every tool step deferred and the instruction step completed |
| AgentRuntime.LegalMoves | backend/app/domains/agents/runtime.py:37-70 | the transition table by its columns; cancelling is possible until the execution is over |
| AgentRuntime.RuntimeLifecycle.constructor | backend/app/domains/agents/runtime.py:255-277 | an execution starts `requested` with one event |
| AgentRuntime.RuntimeLifecycle.Record | backend/app/domains/agents/runtime.py:326-346 | an event is appended with the next number, or refused when the log is full |
| AgentRuntime.RuntimeLifecycle.Transition | backend/app/domains/agents/runtime.py:298-324 | the limit is checked first, so a refused transition leaves the status unchanged |
| AgentRuntime.TransitionIsSafe | backend/app/domains/agents/runtime.py:298-324 | a transition makes a legal move and records it, or changes nothing at all |
| AgentRuntime.RuntimeLifecycle.RequestCancel | backend/app/domains/agents/runtime.py:348-352 | accepted if and only if the execution is not over |
| AgentRuntime.LifecycleAgentRuntime.Cancel | backend/app/domains/agents/runtime.py:479-487 | True exactly for an execution in flight, whose lifecycle is then marked and whose cancellation event is set; no other execution is touched |
| AgentRuntime.LifecycleAgentRuntime.FailureResult | backend/app/domains/agents/runtime.py:523-541 | what a runtime error becomes: a cancelled, failed or retriable result, or another raise |
| AgentRuntime.FailureAfterEnd | backend/app/domains/agents/runtime.py:523-541 | an error that comes after the end changes neither status nor log |
| AgentRuntime.LifecycleAgentRuntime.CheckCancelled | backend/app/domains/agents/runtime.py:517-520 | raises exactly when the lifecycle is marked or the cancellation event is set |
| AgentRuntime.LifecycleAgentRuntime.Open | backend/app/domains/agents/runtime.py:431-436 | three transitions, each followed by the check for a cancel request |
| AgentRuntime.LifecycleAgentRuntime.Close | backend/app/domains/agents/runtime.py:438-453 | from the backend's answer to the end of the log; what was cancelled meanwhile is read from the lifecycle and the event |
| AgentRuntime.LifecycleAgentRuntime.Start | backend/app/domains/agents/runtime.py:410-438 | `execute` up to its await: refused, ended, or entered in the dictionary and waiting; nothing else changes |
| AgentRuntime.LifecycleAgentRuntime.Finish | backend/app/domains/agents/runtime.py:438-477 | `execute` from its await on: the outcome depends on the marks left meanwhile, and the execution leaves the dictionary |
| AgentRuntime.LifecycleAgentRuntime.ExecuteContext | backend/app/domains/agents/runtime.py:410-477 | both halves with a call of `Cancel` in between or not: a run in flight is refused, unacceptable input raises, and the dictionary ends as it began |
| AgentRuntime.RecordedAllOutcome | backend/app/domains/agents/runtime.py:441-448 | copying the backend's events renumbers them in order, or stops at a full log |
| AgentRuntime.BeginRuns | backend/app/domains/agents/runtime.py:431-438 | an accepted execution comes to wait for its backend exactly when its event was not set and four events fit |
| AgentRuntime.ResumeOutcome | backend/app/domains/agents/runtime.py:438-477 | what a waiting execution comes to, where only the mark or the event decides between success and cancellation |
| AgentRuntime.PredictedSucceedsExactly | backend/app/domains/agents/runtime.py:438-453 | success exactly when nobody cancelled, the backend finished, and its log is valid and fits |
| AgentRuntime.ExecutionOutcome | backend/app/domains/agents/runtime.py:410-541 | every execution, for every log limit, backend outcome and cancel request, equals an explicit description of its result |
| AgentRuntime.PresetOutcome | backend/app/domains/agents/runtime.py:431-436 | an execution whose event was set beforehand ends cancelled after `validating` |
| AgentRuntime.UnansweredOutcome | backend/app/domains/agents/runtime.py:489-541 | status, error and status changes for each thing a backend without a log can come to: not configured, timed out, task cancelled, each runtime error it raises, any other exception |
| AgentRuntime.AnsweredOutcome | backend/app/domains/agents/runtime.py:438-453 | the same for a backend that answers, by the validity of its output and events, their number, a cancel request and the room left, in this order |
| AgentRuntime.ReturnsExactlyWhen | backend/app/domains/agents/runtime.py:410-477 | a call for a run not in flight returns exactly when its definition and context are acceptable and the log has room; a valid log of more than max - 5 and at most max events makes it raise |
| AgentRuntime.EnoughRoomAlwaysReturns | backend/app/domains/agents/runtime.py:410-477 | with valid metadata and room for max(6, backend events + 5) it always returns, and cancelled if a cancel request came in time |
| AgentRuntime.SucceededLog | backend/app/domains/agents/runtime.py:431-453 | a succeeded result was never cancelled; its log is the four opening events, the backend's events in order from 4, then `succeeded` |
| AgentRuntime.ResultStatuses | backend/app/domains/agents/runtime.py:522-541 | a result is succeeded, failed, cancelled or retriable; retryable only if retriable; succeeded only without error; numbered in order |
| RuntimeSystem.AnswerAsAlone | backend/app/domains/agents/runtime.py:438-477 | a backend answering a call that waits as it would alone brings it where it would end alone |
| RuntimeSystem.NextKeepsInv | backend/app/domains/agents/runtime.py:410-487 | starts, answers, cancel requests and set events, in any order, keep the dictionary and the calls in step |
| RuntimeSystem.EveryCallEndsAsAlone | backend/app/domains/agents/runtime.py:410-477 | isolation: under every interleaving of any number of executions, a call ends exactly as it would alone with its own cancel requests |
| RuntimeSystem.SucceedsExactly | backend/app/domains/agents/runtime.py:410-477 | in any interleaving a call succeeds exactly when it was accepted, no cancel request reached it, its event was never set, and its backend's log is valid and fits |
| RuntimeSystem.AcceptedCancelIsHonoured | backend/app/domains/agents/runtime.py:479-487 | once `cancel` has answered True for a run, that execution never succeeds, whatever comes before or after, and ends cancelled when its backend finishes well and a fifth event fits |
| RuntimeSystem.CancelReplyExactly | backend/app/domains/agents/runtime.py:479-482 | `cancel` answers True exactly for the runs with an execution waiting |
| RuntimeSystem.OthersAreUntouched | backend/app/domains/agents/runtime.py:410-487 | an action leaves every other call, and its place in the dictionary, as they were |
| RuntimeSystem.DuplicateNeverEvicts | backend/app/domains/agents/runtime.py:418-422 | a second `execute` for a run in flight is refused and the first keeps its place |
| RuntimeSystem.StartsExactly | backend/app/domains/agents/runtime.py:410-438 | after any interleaving, when a new call is a duplicate and when it comes to wait |
| RuntimeSystem.AnswerEnds | backend/app/domains/agents/runtime.py:438-477 | once its backend answers, a waiting call is over with the outcome it has alone, and its place is free |
| RuntimeSystem.EventMarks | backend/app/domains/agents/runtime.py:517-520 | setting the event of a waiting call marks it and leaves it waiting |
| RuntimeSystem.CancelMarksBoth | backend/app/domains/agents/runtime.py:479-487 | a cancel request marks the lifecycle and sets the event of the waiting call |
| RunPersistence.LegalMoves | backend/app/domains/agents/policies.py:23-47 | the transition table by its columns; cancelling is possible until the run is over |
| RunPersistence.NextIsLength | backend/app/domains/agents/repository.py:328-333 | for events numbered 0..n-1 the next number is n |
| RunPersistence.StatusNameReadsBack | backend/app/domains/agents/policies.py:23-47 | stored status names identify their status |
| RunPersistence.MovedKeepsInv | backend/app/domains/agents/services.py:856-912 | a legal transition keeps the numbering and extends the reported path to the new status |
| RunPersistence.PersistingKeepsInvExactly | backend/app/domains/agents/services.py:937-997 | storing a log keeps the history exact if and only if the status changes it reports lead from the run's status back to it |
| RunPersistence.AppendedAllNumbers | backend/app/domains/agents/services.py:914-935 | storing a log appends all its events, in order, with the next numbers, and changes nothing else |
| RunPersistence.StoredNumbersReadBack | backend/app/domains/agents/services.py:965-997 | a stored event of either log carries the number it had there, which reads back, and its other metadata |
| RunPersistence.WithStepsExactly | backend/app/domains/agents/services.py:945-969 | a result's step rows are stored all, in order and under their own indices, if and only if every state is of the plan and no index repeats; otherwise none is |
| RunPersistence.StepStatusesCarryOver | backend/app/domains/agents/services.py:1101-1109 | the stored status of a step tells its status in the executor |
| RunPersistence.ExecutionNamesReadBack | backend/app/domains/agents/services.py:970-980 | the executor's status names are the run's |
| RunPersistence.RunSession.CreateStep | backend/app/domains/agents/repository.py:205-233 | a second step row for one index is refused |
| RunPersistence.RunSession.Rollback | backend/app/domains/agents/services.py:484-485 | what was written since the last commit is gone |
| AgentRuns.AgentRunService.AppendRunEvent | backend/app/domains/agents/services.py:914-935 | the event is stored under one past the largest number in use |
| AgentRuns.AgentRunService.TransitionRun | backend/app/domains/agents/services.py:856-912 | a legal move with acceptable metadata and a working audit write is committed with its event; otherwise nothing new is committed |
| AgentRuns.AgentRunService.UpdateRunStatus | backend/app/domains/agents/services.py:587-645 | raises exactly when the move is illegal or its metadata refused; the committed run moves, or stays as it was |
| AgentRuns.AgentRunService.Cancel | backend/app/domains/agents/services.py:559-585 | raises exactly when `cancelled` is no legal move or the audit write fails; the committed run moves, or stays as it was |
| AgentRuns.AgentRunService.AddEvent | backend/app/domains/agents/services.py:675-712 | an event is committed under its own or the next number, or refused exactly for metadata, count, a step that is not the run's, or a number in use |
| AgentRuns.AgentRunService.AddStep | backend/app/domains/agents/services.py:647-673 | a step is committed, or refused exactly for metadata, count or an index in use |
| AgentRuns.AgentRunService.PersistExecutionResult | backend/app/domains/agents/services.py:937-980 | all step rows and executor events are written, or it raises with the rows before the offending one still to be rolled back |
| AgentRuns.AgentRunService.PersistRuntimeResult | backend/app/domains/agents/services.py:982-997 | all runtime events are written in order after what is there |
| AgentRuns.AgentRunService.FailRunAfterError | backend/app/domains/agents/services.py:1034-1068 | after a rollback the run is moved towards `failed` as far as the transitions and audit writes allow |
| AgentRuns.AgentRunService.AttemptRun | backend/app/domains/agents/services.py:359-483 | what is committed when the try block is left, and whether by an exception |
| AgentRuns.AgentRunService.ExecutePlan | backend/app/domains/agents/services.py:422-483 | the stages from the executor on, each committed before the next |
| AgentRuns.AgentRunService.CreateAndExecute | backend/app/domains/agents/services.py:317-506 | the committed run at the end, for every way each stage and audit write can go |
| AgentRuns.AttemptCommits | backend/app/domains/agents/services.py:359-483 | exactly where an attempt can stop, and that it is not interrupted if and only if every stage returned |
| AgentRuns.CreatedExactly | backend/app/domains/agents/services.py:317-358 | a run is created if and only if its payload is accepted and its first audit write succeeds |
| AgentRuns.ErrorsEndFailedExactly | backend/app/domains/agents/services.py:484-501 | after an error the run ends `failed` if and only if it was not caught between `queued` and `running` and the recovery's audit writes work |
| AgentRuns.RaisingStagesEndFailed | backend/app/domains/agents/services.py:484-501 | with working audit writes a raising stage or refused output always leaves `failed`; otherwise the runtime's status stands |
| AgentRuns.OutcomeIsRecorded | backend/app/domains/agents/services.py:465-498 | the stored error is the runtime's, or the name of what was raised, or none; a retry is counted exactly when a stored runtime result is retryable |
| AgentRuns.StepRowsStay | backend/app/domains/agents/services.py:422-501 | once the executor's result is stored its step rows stay, however the run ends |
| AgentRuns.UninterruptedRun | backend/app/domains/agents/services.py:359-483 | an orchestration nothing interrupts stores both logs and then makes exactly the change the runtime's result calls for |
| AgentRuns.StoredRunMatchesExactly | backend/app/domains/agents/services.py:856-935 | across commits, rollbacks and recovery the events are 0..n-1, and the reported changes are one legal path to the stored status exactly when the stored runtime log reports none that leads elsewhere |
| AgentRuns.AppendEventKeepsOrderExactly | backend/app/domains/agents/services.py:675-712 | on an ordered run: when an appended event is refused; the numbering is kept if and only if it is refused, names no number, or names the next one; the history if and only if it is refused or is not named `run.status_changed` |
| AgentRuns.AppliedExactly | backend/app/domains/agents/services.py:559-712 | the whole effect of each status update, cancellation, event and step on an ordered run, refusal by refusal, with its limits |
| AgentRuns.OperationKeepsInvExactly | backend/app/domains/agents/services.py:559-712 | one status update, cancellation, event or step keeps numbering and history if and only if it is not an accepted event with a number beyond the next one or the name of a status change |
| AgentRuns.HistoryOfRunExactly | backend/app/domains/agents/services.py:559-712 | over every sequence of such operations, numbering and path hold after each of them if and only if each is harmless where it comes |
| AgentRuns.HistoryOfRun | backend/app/domains/agents/services.py:559-712 | in particular they hold at the end when every appended event is unnumbered and no event poses as a status change |
| AgentRuns.PosingEventBreaksHistory | backend/app/domains/agents/services.py:675-712 | on every ordered run with room, one accepted event named `run.status_changed` breaks the history, whatever it reports |
| AgentRuns.NewRunCanBreak | backend/app/domains/agents/services.py:675-712 | a newly created run is such a run |
| Pipeline.ExecutionIsStored | backend/app/domains/agents/services.py:937-980 | whatever the executor returns for a plan it accepts can be stored in full |
| Pipeline.FinalStatusIsTheRuntimes | backend/app/domains/agents/services.py:422-501 | composed with context assembly, planner, executor and runtime, the final status is the runtime's or `failed`; a cancelled executor run does not count |
| Pipeline.StoredOutcomeByBackend | backend/app/domains/agents/services.py:465-483 | the stored status, error code and retry count for each thing the backend can come to, each code by its own name |
| Pipeline.StoredRowsByOutcome | backend/app/domains/agents/services.py:947-963 | the stored step rows for every way the executor can return: all failed when denied, else a done prefix by kind and the rest cancelled |
| Pipeline.StoredTypesByOutcome | backend/app/domains/agents/services.py:317-506 | the types of all stored events for every way executor and runtime can return |
| Pipeline.RuntimeStatusesCarryOver | backend/app/domains/agents/services.py:1092-1098 | every status a runtime result carries maps to its namesake, which is a legal move from `running` |
| Pipeline.RuntimeNamesReadBack | backend/app/domains/agents/services.py:1092-1098 | the runtime's status names are the run's |
| Pipeline.OtherStatusesFail | backend/app/domains/agents/services.py:1092-1098 | a status no result carries would be stored as a failure |
| Pipeline.TablesAgree | backend/app/domains/agents/policies.py:23-47 | the stored run's statuses allow the same moves as the runtime's of the same name |
| Pipeline.FinalTransitionIsLegal | backend/app/domains/agents/services.py:465-483 | in every scenario the runtime's status is a legal move from `running`, so the final transition is refused only for output metadata or a failing audit write; the run then stays `running`, and otherwise gets the runtime's status |
| Pipeline.LogIsStoredExactly | backend/app/domains/agents/services.py:359-463 | the runtime's log is stored exactly when context, plan, execution and runtime result are all there |
| Pipeline.EveryScenarioMatchesExactly | backend/app/domains/agents/services.py:317-506 | in every scenario of context, planner, executor, runtime, cancel requests and backend the numbering holds, and the history exactly when the runtime did not succeed or the changes the backend's events report lead from `running` back to `running` |
| Pipeline.ForeignStatusChangeBreaksHistory | backend/app/domains/agents/services.py:982-997 | whatever else is chosen, an undisturbed scenario whose backend answers with one event named like the service's own status change stores a broken history |
| Pipeline.SomeScenarioBreaksHistory | backend/app/domains/agents/services.py:982-997 | such a scenario exists |
| Pipeline.UndisturbedRunIsStoredWhole | backend/app/domains/agents/services.py:317-506 | under any limits and policies, an undisturbed run is stored event by event: the service's six, the executor's by step kind, the runtime's with the backend's in their midst, the final change; each step once, under its own index, skipped or succeeded by kind; no error, no retry |
| WorkspaceBindings.InMemoryWorkspaceBindingRepository.HasActiveRival | backend/app/domains/workspaces/repository.py:68-79 | the scan finds a rival if and only if another record is active for the same workspace and provider |
| WorkspaceBindings.InMemoryWorkspaceBindingRepository.Create | backend/app/domains/workspaces/repository.py:61-85 | the record is added, or refused as duplicate, rival or over capacity; consistency and capacity are kept |
| WorkspaceBindings.CreateSucceedsExactly | backend/app/domains/workspaces/repository.py:61-84 | a binding is created if and only if its identifier is new, no other is active for its workspace and provider if it is active, and there is room |
| WorkspaceBindings.InMemoryWorkspaceBindingRepository.Get | backend/app/domains/workspaces/repository.py:87-89 | the record filed under the identifier, if any |
| WorkspaceBindings.InMemoryWorkspaceBindingRepository.GetByWorkspaceAndProvider | backend/app/domains/workspaces/repository.py:91-102 | the linear scan answers what the abstract index of active bindings says, whatever the insertion order |
| WorkspaceBindings.InMemoryWorkspaceBindingRepository.Update | backend/app/domains/workspaces/repository.py:118-141 | the record is replaced in place, or refused as unknown or rival |
| WorkspaceBindings.UpdateSucceedsExactly | backend/app/domains/workspaces/repository.py:118-142 | it is updated if and only if its identifier is in use and no other is active for its workspace and provider if it is active |
| WorkspaceBindings.InMemoryWorkspaceBindingRepository.Delete | backend/app/domains/workspaces/repository.py:143-145 | exactly that record goes |
| WorkspaceBindings.InMemoryWorkspaceBindingRepository.ListBindings | backend/app/domains/workspaces/repository.py:104-116 | the matching records by identifier, cut at the limit |
| WorkspaceBindings.ListedExactly | backend/app/domains/workspaces/repository.py:104-116 | the listing holds exactly the stored bindings that agree with every field the filter sets, once each, by identifier; a limit keeps the first |
| WorkspaceBindings.CreateKeepsConsistent | backend/app/domains/workspaces/repository.py:61-85 | at most one active record per workspace and provider, and at most `max_records` |
| WorkspaceBindings.UpdateKeepsConsistent | backend/app/domains/workspaces/repository.py:118-141 | the same for an overwrite, which never changes the number of records |
| WorkspaceBindings.ActiveIndex | backend/app/domains/workspaces/repository.py:91-102 | the abstract map: defined for exactly the slots with an active record, whose identifier it gives |
| WorkspaceBindings.IndexAfterWrite | backend/app/domains/workspaces/repository.py:84-141 | a write gives up the record's old slot and takes its new one; every other slot keeps its binding |
| WorkspaceBindings.IndexAfterDelete | backend/app/domains/workspaces/repository.py:143-145 | a deletion frees the record's slot and no other |
| WorkspaceBindings.ListingIgnoresInsertionOrder | backend/app/domains/workspaces/repository.py:104-116 | a listing does not depend on insertion order |
| BindingService.BindSucceedsExactly | backend/app/domains/workspaces/services.py:44-88 | binding is accepted before the store if and only if the provider is open, required scopes are granted without repetition and a credential may be used and names owners |
| BindingService.ChangeSucceedsExactly | backend/app/domains/workspaces/services.py:144-238 | when disable, enable and update are accepted before the store, and that nothing else changes |
| BindingService.ChangedExactly | backend/app/domains/workspaces/services.py:120-238 | a whole change by error: not there, another user's, refused by the operation, or another binding active in its place |
| BindingService.NewBindingIsSound | backend/app/domains/workspaces/services.py:44-105 | what `bind` writes is active, covers the required scopes and has a credential that fits provider and owner |
| BindingService.ChangedCopyIsSound | backend/app/domains/workspaces/services.py:144-238 | the unvalidated copy of a sound binding is sound and keeps identifier, workspace, user and provider |
| BindingService.WorkspaceIntegrationService.BindIntegration | backend/app/domains/workspaces/services.py:44-105 | the new binding is stored, or nothing is |
| BindingService.WorkspaceIntegrationService.ReadForChange | backend/app/domains/workspaces/services.py:144-238 | the copy an operation will write, from the binding as it is when read |
| BindingService.WorkspaceIntegrationService.WriteCopy | backend/app/domains/workspaces/repository.py:118-141 | the copy replaces whatever is stored by then, or is refused |
| BindingService.WorkspaceIntegrationService.ChangeBinding | backend/app/domains/workspaces/services.py:144-238 | enable, disable and update without interference: the changed copy replaces the binding, or nothing changes |
| BindingService.WorkspaceIntegrationService.PrepareIntegrationRequest | backend/app/domains/workspaces/services.py:240-269 | the request is prepared from the binding the abstract index names |
| BindingService.PreparedRequestPassesExactly | backend/app/integrations/contracts.py:839-877 | a prepared request passes the provider's checks if and only if its scopes cover the required ones; with default scopes always |
| Integrations.RequestPassesExactly | backend/app/integrations/contracts.py:839-877 | which provider check refuses a request, in the order of the checks, and that none does |
| BindingService.PrepareSucceedsExactly | backend/app/domains/workspaces/schemas.py:195-232 | a request is prepared if and only if the binding and its credential are active, the provider is known and offers the capability, and the scopes asked for are granted and not repeated; it carries the binding's own identity and credential and exactly those scopes |
| BindingService.PreparedExactly | backend/app/domains/workspaces/services.py:240-269 | after any interleaving a request is prepared if and only if some stored binding of the workspace and provider may send it, and only with scopes that one has granted |
| BindingService.NextKeepsInv | backend/app/domains/workspaces/services.py:144-238 | each read, write, bind or delete keeps consistency, capacity and soundness, also of the copies still to be written |
| BindingService.StepChangesStore | backend/app/domains/workspaces/services.py:46-238 | what each step does to the stored bindings, and when it does nothing |
| BindingService.StepChangesPending | backend/app/domains/workspaces/services.py:120-238 | which copies wait to be written after each step |
| BindingService.EveryInterleavingKeepsInv | backend/app/domains/workspaces/services.py:144-238 | so they hold after every interleaving, stale copies included |
| BindingService.IdentityNeverChanges | backend/app/domains/workspaces/services.py:179-238 | a binding's workspace, user and provider are the same whenever it is stored |
| BindingService.PreparedRequestsPass | backend/app/integrations/contracts.py:839-877 | after any interleaving, a request prepared with default scopes passes provider, credential, scope and ownership checks |
| BindingService.StaleCopyExactly | backend/app/domains/workspaces/services.py:144-238 | a copy from an earlier reading is what a fresh reading would give exactly when both readings agree on everything the request keeps |
| BindingService.StaleWriteExactly | backend/app/domains/workspaces/services.py:144-238 | over any interleaving, the write stores the copy made from its own reading, and a change made meanwhile is lost exactly when it touched what the request keeps |
| BindingService.NothingLostUntouched | backend/app/domains/workspaces/services.py:144-238 | nothing is lost while nobody else writes or deletes that binding |
| BindingService.StaleUpdateRevives | backend/app/domains/workspaces/services.py:144-238 | a binding one request disables is active again once an earlier reader's update that changes nothing is written |
| ContextAssembly.ContextProviderRegistry.Register | backend/app/domains/agents/context.py:165-176 | a blank or duplicate name is refused and leaves the registry unchanged; names stay distinct |
| ContextAssembly.RegisteredExactly | backend/app/domains/agents/context.py:165-176 | a provider is registered if and only if its name is not blank and not taken |
| ContextAssembly.AwaitsChangeExactly | backend/app/domains/agents/context.py:357-373 | the registry changes during the awaits if and only if some provider that could be registered then was |
| ContextAssembly.ContextProviderRegistry.Providers | backend/app/domains/agents/context.py:181-187 | all registered providers, each once, by descending priority and then name |
| ContextAssembly.OrderIsUnique | backend/app/domains/agents/context.py:181-187 | providers with distinct names can be put in order in one way only |
| ContextAssembly.ProviderOrderIsCanonical | backend/app/domains/agents/context.py:181-187 | the order of providers does not depend on the order of registration |
| ContextAssembly.SetDefaults | backend/app/domains/agents/context.py:222-223 | the loop adds exactly the keys not yet present |
| ContextAssembly.MergeSections | backend/app/domains/agents/context.py:213-231 | the merge is by sorted section, first holder first |
| ContextAssembly.FirstSectionWins | backend/app/domains/agents/context.py:220-223 | a key is present if and only if some section holds it, and has the first holder's value |
| ContextAssembly.HighestPriorityWins | backend/app/domains/agents/context.py:213-231 | each key has the value of the highest-priority section holding it, ties broken by name |
| ContextAssembly.AgentContextAssembler.CollectSections | backend/app/domains/agents/context.py:357-368 | the loop collects every provider's accepted section, or the first error, while other tasks register more providers |
| ContextAssembly.AgentContextAssembler.BuildContext | backend/app/domains/agents/context.py:348-398 | over the registry itself: the context, or the first error of its request, providers or merge, for any registrations during the awaits, which the registry keeps |
| ContextAssembly.ContributionExactly | backend/app/domains/agents/context.py:415-448 | a provider's section is accepted if and only if it is its own, its data and metadata are acceptable and it is not too large; it is passed on unchanged |
| ContextAssembly.CollectedExactly | backend/app/domains/agents/context.py:365-372 | all sections are collected if and only if each is accepted, and in provider order |
| ContextAssembly.RequestExactly | backend/app/domains/agents/context.py:400-413 | a request is accepted if and only if its task, messages and mappings are within their limits and no key is blank |
| ContextAssembly.AssembledExactly | backend/app/domains/agents/context.py:348-398 | a context is assembled if and only if request, required providers, sections, registry and limits are all as they should be, and what it then holds |
| ContextAssembly.MergeKeepsOrder | backend/app/domains/agents/context.py:219 | sections arrive sorted, so the merge leaves them in provider order |
| ContextAssembly.AssemblyIgnoresRegistrationOrder | backend/app/domains/agents/context.py:348-398 | the whole result is independent of registration order |
| ContextAssembly.NamesChangeExactly | backend/app/domains/agents/context.py:470-473 | the ordered names differ exactly when a provider was registered meanwhile |
| ContextAssembly.MergedContextExactly | backend/app/domains/agents/context.py:450-485 | what merging and checking comes to: limits, changed names, or the merged context, and nothing else |
| ContextAssembly.MergedPassesExactly | backend/app/domains/agents/context.py:450-485 | the checks of a merged context, on any context a merge may return |
| ContextAssembly.StructuralChecksFailExactly | backend/app/domains/agents/context.py:450-485 | after acceptance of request and sections, the structural checks fail if and only if a provider was registered meanwhile |
| ContextAssembly.FixedRegistryNeverFailsStructurally | backend/app/domains/agents/context.py:450-485 | with a fixed registry they never fail |
| GroundedAnswers.ReadResult | backend/app/domains/documents/services.py:402-419 | one result's sentences extend the candidates by first occurrences only |
| GroundedAnswers.ReadingAt | backend/app/domains/documents/services.py:402-403 | every sentence of every result is read once, result by result, in order |
| GroundedAnswers.ScoreCountsSharedTerms | backend/app/domains/documents/services.py:409-416 | a candidate's score is the number of the question's terms its sentence contains |
| GroundedAnswers.TrimmedExactly | backend/app/domains/documents/services.py:446-449 | a statement is the sentence itself, or its first 317 characters without trailing white space and three dots when it is longer than 320 |
| GroundedAnswers.SelectGroundedStatements | backend/app/domains/documents/services.py:392-429 | the loops select from the candidates as `Selected` does |
| GroundedAnswers.BuildGroundedAnswer | backend/app/domains/documents/services.py:374-390 | which of the three answers is given, and its statements and citations |
| GroundedAnswers.SortIsBuckets | backend/app/domains/documents/services.py:418 | the stable sort lists the highest score in reading order, then the next, and so on |
| GroundedAnswers.SelectionIsTopThree | backend/app/domains/documents/services.py:418-429 | the selection is the first three of the positive score buckets, or of all buckets when nothing scores |
| GroundedAnswers.CandidateComesFromReading | backend/app/domains/documents/services.py:402-416 | every candidate is the first occurrence of its normalised sentence |
| GroundedAnswers.FirstOccurrenceIsCandidate | backend/app/domains/documents/services.py:402-416 | every first occurrence is a candidate |
| GroundedAnswers.AnswersCiteSuppliedResults | backend/app/domains/documents/services.py:374-390 | one to three statements, each the trimmed text of a sentence of a result it cites; every citation of a quoted result, none twice; grounded if and only if some sentence has text |
| AuthSessions.AuthService.CreateSession | backend/app/domains/identity/service.py:201-219 | a login adds a session carrying its first token |
| AuthSessions.LoginOpens | backend/app/domains/identity/service.py:201-219 | a login opens a session for its user, whose first token is accepted if and only if it has a lifetime and the user is active; other sessions are untouched |
| AuthSessions.AuthService.GetValidRefreshSession | backend/app/domains/identity/service.py:221-243 | the session is returned exactly when no check fails, and otherwise the first failing check's error |
| AuthSessions.AuthService.Refresh | backend/app/domains/identity/service.py:124-143 | a valid token is replaced by the next, other columns and sessions untouched; an invalid one changes nothing |
| AuthSessions.AuthService.Logout | backend/app/domains/identity/service.py:145-164 | a valid token revokes its session; a missing or invalid one is ignored |
| AuthSessions.ClockAndUsers | backend/app/domains/identity/service.py:221-243 | the clock the checks read moves with time alone, and the users they ask about change by administration alone |
| AuthSessions.RunKeepsInv | backend/app/domains/identity/service.py:124-164 | over every interleaving of reads and commits a session carries the token last committed for it, and token identifiers stay distinct |
| AuthSessions.AcceptedExactly | backend/app/domains/identity/service.py:221-243 | over every interleaving, a refresh token is acceptable exactly when it is the session's last committed one, the session is not revoked, the token not expired and its user active |
| AuthSessions.RefusedExactly | backend/app/domains/identity/service.py:221-243 | over every interleaving, which error refuses a refresh token, and that none does |
| AuthSessions.AccessExactly | backend/app/domains/identity/service.py:166-195 | over every interleaving, which error refuses an access token: none if and only if it and its session's last refresh token have not expired, the session is its user's and not revoked, and the user is active |
| AuthSessions.OnlyLastCommittedIsAccepted | backend/app/domains/identity/service.py:221-243 | two acceptable refresh tokens of one session are the same token |
| AuthSessions.AcceptedLaterExactly | backend/app/domains/identity/service.py:124-143 | an acceptable token stays acceptable exactly while no refresh of its session commits and the session may be used |
| AuthSessions.ExchangedTwiceExactly | backend/app/domains/identity/service.py:124-143 | a token is exchanged a second time exactly when its second reader comes before any refresh of the session has committed since, and the session may still be used |
| AuthSessions.EveryExchangeCommits | backend/app/domains/identity/service.py:124-143 | a request that was let through completes its exchange whatever happens before its commit |
| AuthSessions.ReadsExactly | backend/app/domains/identity/service.py:124-164 | a request is let through if and only if its token is accepted; reading changes no session |
| AuthSessions.EveryLogoutRevokes | backend/app/domains/identity/service.py:145-164 | a logout let through revokes its session when it commits, whatever happens in between |
| AuthSessions.SupersededStaysRejected | backend/app/domains/identity/service.py:124-143 | a token another has superseded is never accepted again |
| AuthSessions.RevocationIsFinal | backend/app/domains/identity/service.py:145-195 | once a session is revoked neither a refresh nor an access token for it is accepted again, even if a pending refresh still commits |
| AuthSessions.ConcurrentRefreshesBothCommit | backend/app/domains/identity/service.py:124-143 | the shortest such schedule: both requests succeed and only the later commit's token lasts |
| HashEmbedding.AddInPlace | backend/app/domains/documents/embeddings.py:87-90 | one bucket moves by one; the rest of the array stays |
| HashEmbedding.Embed | backend/app/domains/documents/embeddings.py:80-90 | the loop updates the vector in place to the accumulated vector of the text's tokens |
| HashEmbedding.CoordinateIsBalance | backend/app/domains/documents/embeddings.py:86-90 | each coordinate is the number of positive less the number of negative tokens in its bucket |
| HashEmbedding.OrderDoesNotMatter | backend/app/domains/documents/embeddings.py:86-90 | the vector depends only on the multiset of tokens |
| HashEmbedding.ConcatenationAdds | backend/app/domains/documents/embeddings.py:86-90 | the vector of concatenated token lists is the sum of their vectors |
| HashEmbedding.WordsConcat | backend/app/domains/documents/embeddings.py:82 | a text cut next to white space, on either side, has the words of its parts, in order |
| HashEmbedding.WordsOfRuns | backend/app/domains/documents/embeddings.py:82 | white space alone has no word and a run without any is one word |
| HashEmbedding.TokensExactly | backend/app/domains/documents/embeddings.py:82-84 | the tokens are the lower-cased words in order, or the lower-cased text when it is white space |
| HashEmbedding.BucketIsRemainder | backend/app/domains/documents/embeddings.py:88 | a token's bucket is the remainder of its digest's number by the dimensions |
| HashEmbedding.JoinedTextsAdd | backend/app/domains/documents/embeddings.py:80-90 | joining two texts with words by white space adds their vectors |
| HashEmbedding.NormIsBounded | backend/app/domains/documents/embeddings.py:86-90 | the sum of magnitudes is at most the token count and has its parity |
| HashEmbedding.OddTextsAreNotZero | backend/app/domains/documents/embeddings.py:82-95 | a text with an odd number of tokens never has the zero vector |
| HashEmbedding.ZeroExactlyWhenBalanced | backend/app/domains/documents/embeddings.py:92-94 | the vector is zero, and returned undivided, exactly when every bucket is balanced |

## Left out

- FastAPI routes, cookies, settings, the React frontend and migrations: plumbing.
- SQLAlchemy and ORM mechanics: the database is a committed and a pending value, and ids are values.
- Two writers racing on one agent run row: the code takes no lock, so persistence is stated for one writer at a time.
- Timestamps, messages, execution ids and SHA-256 plan ids: they carry no control flow.
- JSON serialisation, `max_metadata_bytes` and `max_result_bytes`: metadata checks enter as their verdicts, sizes as functions; the executor's own size check of a result is not made.
- Identifier patterns and stripping of plan fields: identifiers arrive well formed, at most 120 characters long and, in a request, without repetition, as the request model enforces.
- Identity, task, request id and size of a merged context: the default merge returns what the assembler gave it, so those checks compare a value with itself.
- Tasks killed while the service orchestrates a run: the source does not catch the cancellation, so the run keeps the status it was last committed in.
- Names, input and output metadata and error codes of stored step rows, and step identifiers on stored events: not modelled.
- Request metadata of planner and executor, and metadata of context sections' messages beyond its checks: not modelled.
- Type checks of identifiers: identifiers are typed.
- Output payloads of the runtime and artifacts of a run: not modelled.
- Audit records: only whether each write succeeds matters and is a parameter; the audit actions are not modelled.
- `Execution.DeterministicExecutor.ExecuteRequest`: as a method it cannot be suspended, so it takes the await points at which `Cancel` is called for its run, and it makes no check of request metadata or result size; the interleaving with other calls is proved on values in `ExecutorSystem`.
- `AgentRuntime.LifecycleAgentRuntime.ExecuteContext`: runs the halves `Start` and `Finish` with at most one cancel request in between; the interleaving of many executions is proved on values in `RuntimeSystem`. The backend is what it answers, and one that never answers is its timeout.
- `AgentRuns.AgentRunService.AddEvent`: whether the named step belongs to the run is a parameter, because step rows carry no database identifiers here.
- `AgentRuns.AgentRunService.PersistRuntimeResult`: column lengths are not modelled, so the database may refuse a backend event whose type is over 100 characters long, which the runtime's validator lets through.
- `Pipeline.LogIsStoredExactly`: says nothing of a database refusal of over-long event columns, for the same reason.
- `BindingService.WorkspaceIntegrationService.ChangeBinding`: runs `ReadForChange` and `WriteCopy` without interference; the interleavings are proved on values in the same module.
- The lock of the binding repository: each method is one atomic step.
- Configuration and metadata of bindings, secret scanning of their values, and the provider registry's own administration: no logic of the binding rules depends on them.
- Credential transitions, OAuth states, providers' HTTP clients and payload normalisers: easy members or foreign calls.
- Splitting text into sentences, normalising them and extracting their terms: sentences arrive with their normal form and terms.
- The confidence formula, memory scoring and the final normalisation of an embedding: floating-point rounding.
- `int(chunk_size * 0.55)` is `chunk_size * 11 / 20`: the binary fraction nearest 0.55 is slightly above it, and rounding does not cross an integer for practical sizes.
- Content hashes of chunks: SHA-256 is not modelled; in the embedder it is a function from tokens to digests.
- `TextChunking.NewChunker`: settings are integers; other types are not modelled.
- Lower-casing and white space beyond the characters `str.isspace` accepts in the Basic Multilingual Plane: strings are sequences of characters.
- Passwords, token signatures and cookies: token identifiers are fresh, signatures cannot be forged and a token's hash stands for the token.
- Memory CRUD, tool and provider registries, definitions of agents: they would only add easy members.

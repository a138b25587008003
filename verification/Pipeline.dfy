/** The layers composed: context, planner, executor and runtime feeding one orchestrated, persisted run. */
module Pipeline {
  import opened Outcomes
  import ContextAssembly
  import Planning
  import Execution
  import ExecutionRuns
  import ExecutorSystem
  import PlannedExecution
  import TextChunking
  import AgentRuntime
  import opened RunPersistence
  import opened AgentRuns

  // Everything the outside world decides about one orchestration.
  datatype Scenario = Scenario(
    contextRequest: ContextAssembly.ContextRequest,
    registered: seq<ContextAssembly.Provider>,
    later: seq<ContextAssembly.Provider>,
    requiredNames: set<string>,
    contextLimits: ContextAssembly.Limits,
    sizes: ContextAssembly.Sizes,
    request: Planning.PlanningRequest,
    registryTools: seq<string>,
    settings: Execution.Settings,
    cancels: set<nat>,
    runtimeLimits: AgentRuntime.RuntimeLimits,
    definition: AgentRuntime.Definition,
    runtimeRequest: AgentRuntime.Request,
    presetCancel: bool,
    cancelled: bool,
    backend: AgentRuntime.Backend,
    outputMetadataOk: bool,
    errorCode: string)

  function ContextOf(s: Scenario): Option<ContextAssembly.Context> {
    match ContextAssembly.Assembled(
      s.contextRequest, s.registered, s.later, s.requiredNames, s.contextLimits, s.sizes)
    case Ok(context) => Some(context)
    case Err(_) => None
  }

  function PlanOf(s: Scenario): Option<Planning.ExecutionPlan> {
    match Planning.PlanFor(s.request, s.registryTools, Planning.DEFAULT_LIMITS)
    case Ok(plan) => Some(plan)
    case Err(_) => None
  }

  function ExecutionOf(s: Scenario): Option<Execution.ExecutionResult> {
    if PlanOf(s).None? then None
    else
      match Execution.Execute(s.settings, PlanOf(s).value, s.cancels)
      case Returned(result) => Some(result)
      case Raised(_) => None
  }

  function RuntimeOf(s: Scenario): Option<AgentRuntime.RuntimeResult> {
    match AgentRuntime.ExecuteCall(
      s.runtimeLimits, s.definition, s.runtimeRequest, s.presetCancel, s.cancelled, s.backend)
    case Returned(result) => Some(result)
    case Raised(_) => None
  }

  function StagesOf(s: Scenario): Stages {
    Stages(true, ContextOf(s).Some?, PlanOf(s), ExecutionOf(s), RuntimeOf(s),
           s.outputMetadataOk, s.errorCode, ALL_AUDITS)
  }

  // Context, plan, execution and runtime result are all there.
  predicate StagesReturn(s: Scenario) { ContextOf(s).Some? && ExecutionOf(s).Some? && RuntimeOf(s).Some? }

  // The stored step rows of an execution state that covers its plan.
  function StepRows(states: seq<Execution.StepState>): seq<RunStep> {
    seq(|states|, i requires 0 <= i < |states| =>
      RunStep(i, states[i].stepId, StepStatusFromExecution(states[i].status)))
  }

  lemma StepsAreStored(d: RunData, plan: Planning.ExecutionPlan, states: seq<Execution.StepState>)
    requires d.steps == []
    requires forall i :: 0 <= i < |states| ==> IsPlanned(plan, states[i].stepId) && states[i].order == i + 1
    ensures WithSteps(d, plan, states) == Some(d.(steps := StepRows(states)))
  {
    WithStepsExactly(d, plan, states);
    assert d.steps + RowsOf(states) == StepRows(states);
  }

  // Whatever the executor returns for a plan it accepts can be stored.
  lemma ExecutionIsStored(settings: Execution.Settings, plan: Planning.ExecutionPlan, cancels: set<nat>, d: RunData)
    requires settings.limits.maxEvents >= 1 && Execution.Execute(settings, plan, cancels).Returned? && d.steps == []
    ensures var result := Execution.Execute(settings, plan, cancels).result;
            Persisted(d, plan, result) ==
            Some(AppendedAll(d.(steps := StepRows(result.state.stepStates)), ExecutionDrafts(result.state.events)))
  {
    var states := Execution.Execute(settings, plan, cancels).result.state.stepStates;
    ExecutionRuns.ReturnedStatesCoverPlan(settings, plan, cancels);
    assert Planning.OrdersArePositions(plan.steps);
    forall i | 0 <= i < |states| ensures IsPlanned(plan, states[i].stepId) && states[i].order == i + 1 {
      assert states[i].stepId == plan.steps[i].stepId;
    }
    StepsAreStored(d, plan, states);
  }

  // A scenario's runtime log is stored exactly when every stage returned.
  lemma LogIsStoredExactly(s: Scenario)
    requires s.settings.limits.maxEvents >= 1
    ensures StoresRuntimeLog(StagesOf(s)) <==> StagesReturn(s)
  {
    RunningRunInv();
    if ExecutionOf(s).Some? {
      ExecutionIsStored(s.settings, PlanOf(s).value, s.cancels, RunningRun());
    }
  }

  // How an orchestration ends depends on the runtime's result alone once the stages before have returned: an
  // execution the executor reports as cancelled or failed is still handed to the runtime.
  lemma FinalStatusIsTheRuntimes(s: Scenario)
    requires s.settings.limits.maxEvents >= 1
    ensures var stages := StagesOf(s);
            && Orchestrated(stages).Some?
            && Orchestrated(stages).value.status ==
               if StagesReturn(s) && s.outputMetadataOk then RunStatusFromRuntime(RuntimeOf(s).value.status) else Failed
  {
    RaisingStagesEndFailed(StagesOf(s));
    LogIsStoredExactly(s);
  }

  function RuntimeStatusName(status: AgentRuntime.RuntimeStatus): string {
    match status
    case Requested => "requested"
    case Validating => "validating"
    case Queued => "queued"
    case Running => "running"
    case WaitingForApproval => "waiting_for_approval"
    case Succeeded => "succeeded"
    case Failed => "failed"
    case Cancelled => "cancelled"
    case Retriable => "retriable"
  }

  // The runtime's status names are the run's.
  lemma RuntimeNamesReadBack(status: AgentRuntime.RuntimeStatus)
    ensures StatusNamed(RuntimeStatusName(status)) ==
            Some(match status
                 case Requested => Requested
                 case Validating => Validating
                 case Queued => Queued
                 case Running => Running
                 case WaitingForApproval => WaitingForApproval
                 case Succeeded => Succeeded
                 case Failed => Failed
                 case Cancelled => Cancelled
                 case Retriable => Retriable)
  {
    StatusNameReadsBack(Requested);
    StatusNameReadsBack(Validating);
    StatusNameReadsBack(Queued);
    StatusNameReadsBack(Running);
    StatusNameReadsBack(WaitingForApproval);
    StatusNameReadsBack(Succeeded);
    StatusNameReadsBack(Failed);
    StatusNameReadsBack(Cancelled);
    StatusNameReadsBack(Retriable);
  }

  // The stored run's statuses and moves are the runtime's, name by name.
  lemma TablesAgree(
    status: AgentRuntime.RuntimeStatus, target: AgentRuntime.RuntimeStatus, stored: RunStatus, next: RunStatus)
    requires StatusName(stored) == RuntimeStatusName(status) && StatusName(next) == RuntimeStatusName(target)
    ensures target in AgentRuntime.AllowedTargets(status) <==> next in RunPersistence.AllowedTargets(stored)
    ensures AgentRuntime.Terminal(status) <==> RunPersistence.Terminal(stored)
  {
    StatusNameReadsBack(stored);
    StatusNameReadsBack(next);
    AgentRuntime.LegalMoves(status, target);
    RunPersistence.LegalMoves(stored, next);
  }

  lemma ResultStatusCarriesOver(status: AgentRuntime.RuntimeStatus)
    requires status in {AgentRuntime.Succeeded, AgentRuntime.Failed, AgentRuntime.Cancelled, AgentRuntime.Retriable}
    ensures StatusName(RunStatusFromRuntime(status)) == RuntimeStatusName(status)
    ensures RunStatusFromRuntime(status) in RunPersistence.AllowedTargets(Running)
  {
  }

  // A status no result carries would be stored as a failure.
  lemma OtherStatusesFail(status: AgentRuntime.RuntimeStatus)
    requires status !in {AgentRuntime.Succeeded, AgentRuntime.Failed, AgentRuntime.Cancelled, AgentRuntime.Retriable}
    ensures RunStatusFromRuntime(status) == Failed
  {
  }

  // Every status a runtime result can carry has a namesake among the run's statuses ...
  lemma RuntimeStatusesCarryOver(maxEvents: nat, preset: bool, cancelled: bool, backend: AgentRuntime.Backend)
    requires maxEvents >= 1 && AgentRuntime.Execute(maxEvents, preset, cancelled, backend).Returned?
    ensures var status := AgentRuntime.Execute(maxEvents, preset, cancelled, backend).result.status;
            && StatusName(RunStatusFromRuntime(status)) == RuntimeStatusName(status)
            && RunStatusFromRuntime(status) in RunPersistence.AllowedTargets(Running)
  {
    AgentRuntime.ResultStatuses(maxEvents, preset, cancelled, backend);
    ResultStatusCarriesOver(AgentRuntime.Execute(maxEvents, preset, cancelled, backend).result.status);
  }

  // ... that is a legal move from `running`: for a result of the runtime, the final transition can be refused only for
  // its output metadata or by a failing audit write, and then leaves the run `running`.
  lemma FinalTransitionIsLegal(d: RunData, s: Scenario, stages: Stages)
    requires d.status.Running? && NumberedInOrder(d.events)
    requires s.runtimeLimits.maxEvents >= 1 && RuntimeOf(s).Some?
    ensures var result := RuntimeOf(s).value;
            var attempt := AfterRuntime(d, result, stages);
            && RunStatusFromRuntime(result.status) in RunPersistence.AllowedTargets(Running)
            && (attempt.raised <==> !stages.outputMetadataOk || !stages.audits.final)
            && StatusName(attempt.data.status) == if attempt.raised then "running" else RuntimeStatusName(result.status)
  {
    AfterRuntimeCommits(d, RuntimeOf(s).value, stages);
    RuntimeStatusesCarryOver(s.runtimeLimits.maxEvents, s.presetCancel, s.cancelled, s.backend);
  }

  // The runtime's own events are never taken for status changes of the run.
  lemma RuntimeOwnEventsAreNotChanges()
    ensures "runtime.requested" != STATUS_CHANGED && "runtime.status_changed" != STATUS_CHANGED
  {
    assert "runtime.requested"[3] != STATUS_CHANGED[3] && "runtime.status_changed"[3] != STATUS_CHANGED[3];
  }

  predicate NoneNamedStatusChange(events: seq<AgentRuntime.RuntimeEvent>) {
    forall i :: 0 <= i < |events| ==> events[i].body.eventType != STATUS_CHANGED
  }

  lemma StoppedEventTypes(n: nat, e: AgentRuntime.RuntimeError)
    requires n <= 4
    ensures NoneNamedStatusChange(AgentRuntime.StoppedRun(AgentRuntime.OPENING[..n], e).events)
  {
    RuntimeOwnEventsAreNotChanges();
  }

  lemma DraftsKeepTypes(events: seq<AgentRuntime.RuntimeEvent>)
    requires NoneNamedStatusChange(events)
    ensures NoStatusChanges(RuntimeDrafts(events))
  {
    forall i | 0 <= i < |events| ensures RuntimeDrafts(events)[i].eventType != STATUS_CHANGED {
      assert RuntimeDrafts(events)[i].eventType == events[i].body.eventType;
    }
  }

  // Where the status changes a backend's own events report lead, read as reports about the run.
  function FollowBackend(at: Option<RunStatus>, events: seq<AgentRuntime.BackendEvent>): Option<RunStatus> {
    if events == [] then at
    else
      var last := events[|events| - 1].body;
      FollowChange(FollowBackend(at, events[..|events| - 1]), RunEvent(0, last.eventType, last.metadata))
  }

  // The changes among the backend's events, if any, lead from `running` back to `running`.
  predicate BackendLogCloses(events: seq<AgentRuntime.BackendEvent>) {
    FollowBackend(Some(Running), events) == Some(Running)
  }

  lemma NumberIsNoReport(metadata: map<string, string>, number: string)
    ensures ReportedChange(metadata["runtime_sequence" := number]) == ReportedChange(metadata)
  {
    assert "runtime_sequence"[0] != "from"[0] && "runtime_sequence"[0] != "to"[0];
  }

  lemma {:induction false} NumberedFollows(
    at: Option<RunStatus>, events: seq<AgentRuntime.BackendEvent>)
    ensures FollowDrafts(at, RuntimeDrafts(AgentRuntime.Numbered(4, events))) == FollowBackend(at, events)
  {
    if events != [] {
      var n := |events| - 1;
      var drafts := RuntimeDrafts(AgentRuntime.Numbered(4, events));
      NumberedFollows(at, events[..n]);
      assert drafts[..n] == RuntimeDrafts(AgentRuntime.Numbered(4, events[..n]));
      NumberIsNoReport(events[n].body.metadata, Planning.Decimal(4 + n));
    }
  }

  lemma DraftsOfConcat(a: seq<AgentRuntime.RuntimeEvent>, b: seq<AgentRuntime.RuntimeEvent>)
    ensures RuntimeDrafts(a + b) == RuntimeDrafts(a) + RuntimeDrafts(b)
  {
  }

  // Of a succeeded execution's log only the backend's own events can report changes of the run.
  lemma SucceededLogFollows(events: seq<AgentRuntime.BackendEvent>)
    ensures FollowDrafts(Some(Running), RuntimeDrafts(AgentRuntime.SucceededRun(events).events)) ==
            FollowBackend(Some(Running), events)
  {
    var opening, middle := AgentRuntime.OPENING, AgentRuntime.Numbered(4, events);
    var last := [AgentRuntime.RuntimeEvent(4 + |events|, AgentRuntime.StatusBody(AgentRuntime.Succeeded))];
    RuntimeOwnEventsAreNotChanges();
    DraftsKeepTypes(opening);
    DraftsKeepTypes(last);
    DraftsOfConcat(opening + middle, last);
    DraftsOfConcat(opening, middle);
    FollowDraftsConcat(Some(Running), RuntimeDrafts(opening) + RuntimeDrafts(middle), RuntimeDrafts(last));
    FollowDraftsConcat(Some(Running), RuntimeDrafts(opening), RuntimeDrafts(middle));
    NoChangesLeadNowhere(Some(Running), RuntimeDrafts(opening));
    NumberedFollows(Some(Running), events);
    NoChangesLeadNowhere(FollowBackend(Some(Running), events), RuntimeDrafts(last));
  }

  lemma StoppedLogFollows(n: nat, e: AgentRuntime.RuntimeError)
    requires n <= 4
    ensures FollowDrafts(Some(Running), RuntimeDrafts(AgentRuntime.StoppedRun(AgentRuntime.OPENING[..n], e).events)) ==
            Some(Running)
  {
    var events := AgentRuntime.StoppedRun(AgentRuntime.OPENING[..n], e).events;
    StoppedEventTypes(n, e);
    DraftsKeepTypes(events);
    NoChangesLeadNowhere(Some(Running), RuntimeDrafts(events));
  }

  predicate ResultCloses(result: AgentRuntime.RuntimeResult) {
    FollowDrafts(Some(Running), RuntimeDrafts(result.events)) == Some(Running)
  }

  // A result's log leads nowhere else exactly when it holds no backend log, or one that closes.
  lemma ResultClosesExactly(maxEvents: nat, preset: bool, cancelled: bool, backend: AgentRuntime.Backend)
    requires maxEvents >= 1 && AgentRuntime.Predicted(maxEvents, preset, cancelled, backend).Returned?
    ensures var result := AgentRuntime.Predicted(maxEvents, preset, cancelled, backend).result;
            ResultCloses(result) <==>
            (result.status.Succeeded? ==> backend.Finished? && BackendLogCloses(backend.events))
  {
    var stopped := AgentRuntime.StoppingError(maxEvents, cancelled, backend);
    if preset {
      StoppedLogFollows(2, AgentRuntime.CancelledError);
    } else if stopped.Some? {
      assert AgentRuntime.OPENING[..4] == AgentRuntime.OPENING;
      StoppedLogFollows(4, stopped.value);
    } else {
      SucceededLogFollows(backend.events);
    }
  }

  lemma RuntimeLogClosesExactly(s: Scenario)
    requires s.runtimeLimits.maxEvents >= 1 && RuntimeOf(s).Some?
    ensures RuntimeLogCloses(StagesOf(s)) <==>
            (RuntimeOf(s).value.status.Succeeded? ==> s.backend.Finished? && BackendLogCloses(s.backend.events))
  {
    AgentRuntime.ExecutionOutcome(s.runtimeLimits.maxEvents, s.presetCancel, s.cancelled, s.backend);
    ResultClosesExactly(s.runtimeLimits.maxEvents, s.presetCancel, s.cancelled, s.backend);
    assert ResultCloses(RuntimeOf(s).value) <==> RuntimeLogCloses(StagesOf(s));
  }

  // Whatever context, planner, executor, runtime and cancel requests do, the stored run keeps its numbering; and it
  // keeps its history exactly when the runtime did not succeed, or the changes its backend reported close.
  lemma EveryScenarioMatchesExactly(s: Scenario)
    requires s.settings.limits.maxEvents >= 1 && s.runtimeLimits.maxEvents >= 1
    ensures Orchestrated(StagesOf(s)).Some? && NumberedInOrder(Orchestrated(StagesOf(s)).value.events)
    ensures HistoryMatches(Orchestrated(StagesOf(s)).value) <==>
            (StagesReturn(s) && RuntimeOf(s).value.status.Succeeded? ==>
               s.backend.Finished? && BackendLogCloses(s.backend.events))
  {
    StoredRunMatchesExactly(StagesOf(s));
    LogIsStoredExactly(s);
    if RuntimeOf(s).Some? {
      RuntimeLogClosesExactly(s);
    }
  }

  // A scenario in which nothing goes wrong: the context is assembled, a plan is found that the executor accepts and
  // permits, nobody cancels, the backend's log is valid, and both logs fit.
  predicate Undisturbed(s: Scenario) {
    && ContextOf(s).Some?
    && PlanOf(s).Some? && s.cancels == {} && s.outputMetadataOk
    && ExecutorSystem.Accepted(s.settings, PlanOf(s).value)
    && Execution.Permitted(s.settings.policies, PlanOf(s).value.steps)
    && s.settings.limits.maxEvents >= 2 * |PlanOf(s).value.steps| + 4
    && AgentRuntime.IsAcceptable(s.definition, s.runtimeRequest, s.runtimeLimits.maxTaskLength)
    && !s.presetCancel && !s.cancelled && s.backend.Finished? && AgentRuntime.HasValidMetadata(s.backend)
    && s.runtimeLimits.maxEvents >= |s.backend.events| + 5
  }

  lemma UndisturbedRuntime(s: Scenario)
    requires Undisturbed(s)
    ensures RuntimeOf(s) == Some(AgentRuntime.SucceededRun(s.backend.events))
  {
    AgentRuntime.ExecutionOutcome(s.runtimeLimits.maxEvents, false, false, s.backend);
  }

  lemma UndisturbedExecution(s: Scenario)
    requires Undisturbed(s)
    ensures ExecutionOf(s) == Some(ExecutionRuns.CompletedRun(PlanOf(s).value.steps))
  {
    PlannedExecution.AcceptedRunCompletes(s.settings, PlanOf(s).value);
  }

  // ---------- what the stored run says about every kind of runtime outcome ----------

  // The run ends in this status, with this error code; only a run that may be retried counts a retry.
  predicate EndsAs(run: RunData, status: RunStatus, code: Option<string>) {
    && run.status == status && run.errorCode == code
    && run.retryCount == if status == Retriable then 1 else 0
  }

  // How a run is stored whose backend gave no log ...
  predicate EndsUnanswered(run: RunData, backend: AgentRuntime.Backend)
    requires !backend.Finished?
  {
    match backend
    case Unconfigured => EndsAs(run, Failed, Some("runtime_backend_unconfigured"))
    case Crashed => EndsAs(run, Failed, Some("runtime_backend_error"))
    case TaskCancelled => EndsAs(run, Cancelled, Some("runtime_cancelled"))
    case TimedOut => EndsAs(run, Retriable, Some("runtime_timeout"))
    case RaisedByBackend(BackendError(code, retryable)) =>
      EndsAs(run, if retryable then Retriable else Failed, Some(code))
    case RaisedByBackend(CancelledError) => EndsAs(run, Cancelled, Some("runtime_cancelled"))
    case RaisedByBackend(TimeoutError) => EndsAs(run, Retriable, Some("runtime_timeout"))
    case RaisedByBackend(LimitError) => EndsAs(run, Failed, Some("runtime_limit"))
    case RaisedByBackend(_) => EndsAs(run, Failed, Some("runtime_backend_error"))
  }

  // ... and one whose backend did, or whose execution was cancelled beforehand.
  predicate EndsAnswered(run: RunData, maxEvents: nat, preset: bool, cancelled: bool, events: nat) {
    if preset then EndsAs(run, Cancelled, Some("runtime_cancelled"))
    else if events > maxEvents then EndsAs(run, Failed, Some("runtime_limit"))
    else if cancelled then EndsAs(run, Cancelled, Some("runtime_cancelled"))
    else EndsAs(run, Succeeded, None)
  }

  // The run says what the runtime's result says.
  predicate EndsAsResult(run: RunData, result: AgentRuntime.RuntimeResult) {
    && run.status == RunStatusFromRuntime(result.status)
    && run.errorCode == (if result.error.Some? then Some(RuntimeErrorCode(result.error.value)) else None)
    && run.retryCount == if result.retryable then 1 else 0
  }

  lemma EndsAsStopped(
    run: RunData, outcome: AgentRuntime.Outcome, status: AgentRuntime.RuntimeStatus, e: AgentRuntime.RuntimeError)
    requires status in {AgentRuntime.Failed, AgentRuntime.Cancelled, AgentRuntime.Retriable}
    requires AgentRuntime.StopsAs(outcome, status, e) && EndsAsResult(run, outcome.result)
    ensures EndsAs(run, RunStatusFromRuntime(status), Some(RuntimeErrorCode(e)))
  {
  }

  lemma UnansweredEnds(run: RunData, maxEvents: nat, cancelled: bool, backend: AgentRuntime.Backend)
    requires maxEvents >= 6 && !backend.Finished?
    requires AgentRuntime.Execute(maxEvents, false, cancelled, backend).Returned?
    requires EndsAsResult(run, AgentRuntime.Execute(maxEvents, false, cancelled, backend).result)
    ensures EndsUnanswered(run, backend)
  {
    var outcome := AgentRuntime.Execute(maxEvents, false, cancelled, backend);
    AgentRuntime.UnansweredOutcome(maxEvents, cancelled, backend);
    match backend
    case Unconfigured =>
      EndsAsStopped(
        run, outcome, AgentRuntime.Failed, AgentRuntime.BackendError("runtime_backend_unconfigured", false));
    case Crashed =>
      EndsAsStopped(run, outcome, AgentRuntime.Failed, AgentRuntime.BackendError("runtime_backend_error", false));
    case TaskCancelled => EndsAsStopped(run, outcome, AgentRuntime.Cancelled, AgentRuntime.CancelledError);
    case TimedOut => EndsAsStopped(run, outcome, AgentRuntime.Retriable, AgentRuntime.TimeoutError);
    case RaisedByBackend(e) =>
      match e {
        case BackendError(code, retryable) =>
          EndsAsStopped(run, outcome, if retryable then AgentRuntime.Retriable else AgentRuntime.Failed, e);
        case CancelledError => EndsAsStopped(run, outcome, AgentRuntime.Cancelled, e);
        case TimeoutError => EndsAsStopped(run, outcome, AgentRuntime.Retriable, e);
        case LimitError => EndsAsStopped(run, outcome, AgentRuntime.Failed, e);
        case _ =>
          EndsAsStopped(run, outcome, AgentRuntime.Failed, AgentRuntime.BackendError("runtime_backend_error", false));
      }
  }

  lemma AnsweredEnds(
    run: RunData, maxEvents: nat, preset: bool, cancelled: bool, outputOk: bool, events: seq<AgentRuntime.BackendEvent>)
    requires maxEvents >= 6
    requires AgentRuntime.Execute(maxEvents, preset, cancelled, AgentRuntime.Finished(outputOk, events)).Returned?
    requires EndsAsResult(
               run, AgentRuntime.Execute(maxEvents, preset, cancelled, AgentRuntime.Finished(outputOk, events)).result)
    ensures EndsAnswered(run, maxEvents, preset, cancelled, |events|)
  {
    var backend := AgentRuntime.Finished(outputOk, events);
    var outcome := AgentRuntime.Execute(maxEvents, preset, cancelled, backend);
    if preset {
      AgentRuntime.PresetOutcome(maxEvents, cancelled, backend);
    } else {
      AgentRuntime.AnsweredOutcome(maxEvents, cancelled, outputOk, events);
    }
  }

  lemma StoredAsResult(s: Scenario)
    requires s.settings.limits.maxEvents >= 1 && StagesReturn(s) && s.outputMetadataOk
    ensures EndsAsResult(Orchestrated(StagesOf(s)).value, RuntimeOf(s).value)
  {
    LogIsStoredExactly(s);
    FinalStatusIsTheRuntimes(s);
    OutcomeIsRecorded(StagesOf(s));
  }

  lemma ResultIsExecutions(s: Scenario)
    requires RuntimeOf(s).Some?
    ensures var outcome := AgentRuntime.Execute(s.runtimeLimits.maxEvents, s.presetCancel, s.cancelled, s.backend);
            outcome == AgentRuntime.Returned(RuntimeOf(s).value)
  {
  }

  // The run says what becomes of an execution with this backend.
  predicate EndsByBackend(
    run: RunData, maxEvents: nat, preset: bool, cancelled: bool, backend: AgentRuntime.Backend)
  {
    if backend.Finished? then EndsAnswered(run, maxEvents, preset, cancelled, |backend.events|)
    else if preset then EndsAs(run, Cancelled, Some("runtime_cancelled"))
    else EndsUnanswered(run, backend)
  }

  lemma ResultEndsByBackend(
    run: RunData, maxEvents: nat, preset: bool, cancelled: bool, backend: AgentRuntime.Backend,
    result: AgentRuntime.RuntimeResult)
    requires maxEvents >= 6 && EndsAsResult(run, result)
    requires AgentRuntime.Execute(maxEvents, preset, cancelled, backend) == AgentRuntime.Returned(result)
    ensures EndsByBackend(run, maxEvents, preset, cancelled, backend)
  {
    if backend.Finished? {
      AnsweredEnds(run, maxEvents, preset, cancelled, backend.outputOk, backend.events);
    } else if preset {
      AgentRuntime.PresetOutcome(maxEvents, cancelled, backend);
    } else {
      UnansweredEnds(run, maxEvents, cancelled, backend);
    }
  }

  // The stored outcome for each thing the backend call can come to, when every stage returned and the runtime's log
  // has room for six events.
  lemma StoredOutcomeByBackend(s: Scenario)
    requires s.settings.limits.maxEvents >= 1 && s.runtimeLimits.maxEvents >= 6
    requires StagesReturn(s) && s.outputMetadataOk
    ensures EndsByBackend(Orchestrated(StagesOf(s)).value, s.runtimeLimits.maxEvents, s.presetCancel, s.cancelled,
                          s.backend)
  {
    StoredAsResult(s);
    ResultIsExecutions(s);
    ResultEndsByBackend(Orchestrated(StagesOf(s)).value, s.runtimeLimits.maxEvents, s.presetCancel, s.cancelled,
                        s.backend, RuntimeOf(s).value);
  }

  // ---------- the types of the stored events ----------

  function TypesOf(events: seq<RunEvent>): seq<string> {
    seq(|events|, i requires 0 <= i < |events| => events[i].eventType)
  }

  function DraftTypes(drafts: seq<Draft>): seq<string> {
    seq(|drafts|, i requires 0 <= i < |drafts| => drafts[i].eventType)
  }

  // What each layer writes, in order.
  const OPENING_TYPES: seq<string> :=
    ["run.requested", STATUS_CHANGED, "context.assembled", "planner.completed", STATUS_CHANGED, STATUS_CHANGED]

  function StepTypes(steps: seq<Planning.PlanStep>): seq<string> {
    if steps == [] then []
    else
      var last := steps[|steps| - 1];
      StepTypes(steps[..|steps| - 1])
      + ["step.started", if last.stepType.Tool? then "step.deferred" else "step.completed"]
  }

  function ExecutorTypes(steps: seq<Planning.PlanStep>): seq<string> {
    ["execution.requested", "execution.validating", "execution.running"] + StepTypes(steps) + ["execution.succeeded"]
  }

  function BackendTypes(events: seq<AgentRuntime.BackendEvent>): seq<string> {
    seq(|events|, i requires 0 <= i < |events| => events[i].body.eventType)
  }

  function RuntimeTypes(events: seq<AgentRuntime.BackendEvent>): seq<string> {
    ["runtime.requested", "runtime.status_changed", "runtime.status_changed", "runtime.status_changed"]
    + BackendTypes(events) + ["runtime.status_changed"]
  }

  lemma TypesOfAppendedAll(d: RunData, drafts: seq<Draft>)
    requires NumberedInOrder(d.events)
    ensures TypesOf(AppendedAll(d, drafts).events) == TypesOf(d.events) + DraftTypes(drafts)
  {
    AppendedAllNumbers(d, drafts);
    var events := AppendedAll(d, drafts).events;
    forall i | 0 <= i < |events| ensures events[i].eventType == (TypesOf(d.events) + DraftTypes(drafts))[i] {
      if i < |d.events| {
        assert events[..|d.events|][i] == events[i];
      } else {
        assert events[|d.events| + (i - |d.events|)].eventType == drafts[i - |d.events|].eventType;
      }
    }
  }

  lemma StatusEventNames()
    ensures ExecutionEventName(Execution.StatusReached(Execution.Requested)) == "execution.requested"
    ensures ExecutionEventName(Execution.StatusReached(Execution.Validating)) == "execution.validating"
    ensures ExecutionEventName(Execution.StatusReached(Execution.Running)) == "execution.running"
    ensures ExecutionEventName(Execution.StatusReached(Execution.Succeeded)) == "execution.succeeded"
    ensures ExecutionEventName(Execution.StatusReached(Execution.Failed)) == "execution.failed"
    ensures ExecutionEventName(Execution.StatusReached(Execution.Cancelled)) == "execution.cancelled"
  {
    assert "execution." + "failed" == "execution.failed" && "execution." + "cancelled" == "execution.cancelled";
    assert "execution." + "requested" == "execution.requested" && "execution." + "validating" == "execution.validating";
    assert "execution." + "running" == "execution.running" && "execution." + "succeeded" == "execution.succeeded";
  }

  lemma DraftTypesConcat(a: seq<Execution.ExecutionEvent>, b: seq<Execution.ExecutionEvent>)
    ensures DraftTypes(ExecutionDrafts(a + b)) == DraftTypes(ExecutionDrafts(a)) + DraftTypes(ExecutionDrafts(b))
  {
  }

  // The types stored for the executor's log once its first k steps are done.
  function LogTypes(steps: seq<Planning.PlanStep>, k: nat): seq<string>
    requires k <= |steps|
  {
    DraftTypes(ExecutionDrafts(ExecutionRuns.LogAfter(steps, k)))
  }

  lemma StepTypesSnoc(steps: seq<Planning.PlanStep>, k: nat)
    requires k < |steps|
    ensures StepTypes(steps[..k + 1]) ==
            StepTypes(steps[..k])
            + ["step.started", if steps[k].stepType.Tool? then "step.deferred" else "step.completed"]
  {
    assert steps[..k + 1][..k] == steps[..k];
  }

  lemma TypesOfStep(steps: seq<Planning.PlanStep>, k: nat)
    requires k < |steps|
    ensures DraftTypes(ExecutionDrafts([ExecutionRuns.LogEntry(steps, 3 + 2 * k),
                                        ExecutionRuns.LogEntry(steps, 4 + 2 * k)])) ==
            ["step.started", if steps[k].stepType.Tool? then "step.deferred" else "step.completed"]
  {
    ExecutionRuns.LogGrows(steps, k);
  }

  lemma TypesOfOpening(steps: seq<Planning.PlanStep>)
    ensures LogTypes(steps, 0) ==
            ["execution.requested", "execution.validating", "execution.running"]
  {
    StatusEventNames();
    assert ExecutionRuns.LogAfter(steps, 0) ==
           [ExecutionRuns.LogEntry(steps, 0), ExecutionRuns.LogEntry(steps, 1), ExecutionRuns.LogEntry(steps, 2)];
  }

  lemma LogTypesGrow(steps: seq<Planning.PlanStep>, k: nat)
    requires k < |steps|
    ensures LogTypes(steps, k + 1) ==
            LogTypes(steps, k)
            + ["step.started", if steps[k].stepType.Tool? then "step.deferred" else "step.completed"]
  {
    ExecutionRuns.LogGrows(steps, k);
    TypesOfStep(steps, k);
    DraftTypesConcat(
      ExecutionRuns.LogAfter(steps, k),
      [ExecutionRuns.LogEntry(steps, 3 + 2 * k), ExecutionRuns.LogEntry(steps, 4 + 2 * k)]);
  }

  lemma {:induction false} TypesOfLog(steps: seq<Planning.PlanStep>, k: nat)
    requires k <= |steps|
    ensures LogTypes(steps, k) ==
            ["execution.requested", "execution.validating", "execution.running"] + StepTypes(steps[..k])
  {
    if k == 0 {
      TypesOfOpening(steps);
    } else {
      TypesOfLog(steps, k - 1);
      LogTypesGrow(steps, k - 1);
      StepTypesSnoc(steps, k - 1);
    }
  }

  lemma TypesOfCompletedRun(steps: seq<Planning.PlanStep>)
    ensures DraftTypes(ExecutionDrafts(ExecutionRuns.CompletedRun(steps).state.events)) == ExecutorTypes(steps)
  {
    var n := |steps|;
    var last := ExecutionRuns.StatusEvent(3 + 2 * n, Execution.Succeeded);
    StatusEventNames();
    TypesOfLog(steps, n);
    assert steps[..n] == steps;
    DraftTypesConcat(ExecutionRuns.LogAfter(steps, n), [last]);
    assert DraftTypes(ExecutionDrafts([last])) == ["execution.succeeded"];
  }

  // Some step meets a policy against it.
  predicate MeetsPolicy(policies: Execution.ExecutionPolicies, steps: seq<Planning.PlanStep>) {
    exists i :: 0 <= i < |steps| &&
      if steps[i].stepType == Planning.Instruction then !policies.allowInstructionSteps
      else !policies.allowToolSteps || policies.rejectTools
  }

  lemma PolicyExactly(policies: Execution.ExecutionPolicies, steps: seq<Planning.PlanStep>)
    ensures MeetsPolicy(policies, steps) <==> !Execution.Permitted(policies, steps)
  {
    ExecutionRuns.PermittedExactly(policies, steps);
  }

  // The executor's result when its first cancel request comes at await point a.
  function ResultFor(steps: seq<Planning.PlanStep>, denied: bool, a: nat, maxEvents: nat): Execution.ExecutionResult
    requires a <= 2 * |steps|
  {
    if denied then ExecutionRuns.DeniedRun(steps)
    else if a < 2 * |steps| then ExecutionRuns.CancelledAfter(steps, (a + 1) / 2)
    else if maxEvents == 2 * |steps| + 3 then ExecutionRuns.TruncatedRun(steps)
    else ExecutionRuns.CompletedRun(steps)
  }

  // Every result the executor returns, by policy, first cancel request and event limit.
  lemma ReturnedExactly(settings: Execution.Settings, plan: Planning.ExecutionPlan, cancels: set<nat>)
    requires settings.limits.maxEvents >= 1 && Execution.Execute(settings, plan, cancels).Returned?
    ensures Execution.Execute(settings, plan, cancels).result ==
            ResultFor(plan.steps, MeetsPolicy(settings.policies, plan.steps),
                      ExecutionRuns.FirstCancel(cancels, 2 * |plan.steps|, 0), settings.limits.maxEvents)
  {
    ExecutionRuns.RunOutcome(settings, plan, cancels);
    PolicyExactly(settings.policies, plan.steps);
  }

  // The executor's stored event types for every way it can return: all denied, or the first `done` steps in order and
  // then the status it ended in, if that event still fitted.
  function ExecutionTypes(steps: seq<Planning.PlanStep>, denied: bool, done: nat, last: seq<string>): seq<string>
    requires done <= |steps|
  {
    if denied then ["execution.requested", "execution.validating", "execution.failed"]
    else
      ["execution.requested", "execution.validating", "execution.running"] + StepTypes(steps[..done]) + last
  }

  lemma TypesOfLogAndMore(steps: seq<Planning.PlanStep>, k: nat, status: Execution.ExecutionStatus)
    requires k <= |steps|
    ensures DraftTypes(ExecutionDrafts(
              ExecutionRuns.LogAfter(steps, k) + [ExecutionRuns.StatusEvent(3 + 2 * k, status)])) ==
            ExecutionTypes(steps, false, k, [ExecutionEventName(Execution.StatusReached(status))])
  {
    var last := ExecutionRuns.StatusEvent(3 + 2 * k, status);
    TypesOfLog(steps, k);
    DraftTypesConcat(ExecutionRuns.LogAfter(steps, k), [last]);
    assert DraftTypes(ExecutionDrafts([last])) == [ExecutionEventName(Execution.StatusReached(status))];
  }

  lemma TypesOfDeniedRun(steps: seq<Planning.PlanStep>)
    ensures DraftTypes(ExecutionDrafts(ExecutionRuns.DeniedRun(steps).state.events)) ==
            ["execution.requested", "execution.validating", "execution.failed"]
  {
    StatusEventNames();
  }

  lemma TypesOfTruncatedRun(steps: seq<Planning.PlanStep>)
    ensures DraftTypes(ExecutionDrafts(ExecutionRuns.TruncatedRun(steps).state.events)) ==
            ExecutionTypes(steps, false, |steps|, [])
  {
    TypesOfLog(steps, |steps|);
  }

  // What the executor's last event is called, when its first cancel request came at await point a.
  function LastTypes(a: nat, awaits: nat, maxEvents: nat): seq<string> {
    if a < awaits then ["execution.cancelled"]
    else if maxEvents == awaits + 3 then []
    else ["execution.succeeded"]
  }

  lemma TypesOfResult(steps: seq<Planning.PlanStep>, denied: bool, a: nat, maxEvents: nat)
    requires a <= 2 * |steps|
    ensures DraftTypes(ExecutionDrafts(ResultFor(steps, denied, a, maxEvents).state.events)) ==
            ExecutionTypes(steps, denied, (a + 1) / 2, LastTypes(a, 2 * |steps|, maxEvents))
  {
    StatusEventNames();
    if denied {
      TypesOfDeniedRun(steps);
    } else if a < 2 * |steps| {
      TypesOfLogAndMore(steps, (a + 1) / 2, Execution.Cancelled);
    } else if maxEvents == 2 * |steps| + 3 {
      TypesOfTruncatedRun(steps);
    } else {
      TypesOfLogAndMore(steps, |steps|, Execution.Succeeded);
    }
  }

  lemma TypesOfSucceededRun(events: seq<AgentRuntime.BackendEvent>)
    ensures DraftTypes(RuntimeDrafts(AgentRuntime.SucceededRun(events).events)) == RuntimeTypes(events)
  {
    var log := AgentRuntime.SucceededRun(events).events;
    forall i | 0 <= i < |log| ensures log[i].body.eventType == RuntimeTypes(events)[i] {
      if 4 <= i < 4 + |events| {
        assert log[i] == AgentRuntime.RuntimeEvent(i, events[i - 4].body);
      }
    }
  }

  // The runtime's stored event types for every status it can return.
  function AnyRuntimeTypes(
    status: AgentRuntime.RuntimeStatus, preset: bool, events: seq<AgentRuntime.BackendEvent>): seq<string>
  {
    if status == AgentRuntime.Succeeded then RuntimeTypes(events)
    else
      ["runtime.requested", "runtime.status_changed"]
      + (if preset then [] else ["runtime.status_changed", "runtime.status_changed"])
      + (if status == AgentRuntime.Retriable then ["runtime.status_changed", "runtime.status_changed"]
         else ["runtime.status_changed"])
  }

  lemma TypesOfStoppedRun(n: nat, e: AgentRuntime.RuntimeError)
    requires n == 2 || n == 4
    requires n == 2 ==> e == AgentRuntime.CancelledError
    ensures var result := AgentRuntime.StoppedRun(AgentRuntime.OPENING[..n], e);
            && result.status != AgentRuntime.Succeeded
            && DraftTypes(RuntimeDrafts(result.events)) == AnyRuntimeTypes(result.status, n == 2, [])
  {
  }

  lemma TypesOfRuntime(maxEvents: nat, preset: bool, cancelled: bool, backend: AgentRuntime.Backend)
    requires maxEvents >= 1 && AgentRuntime.Execute(maxEvents, preset, cancelled, backend).Returned?
    ensures var result := AgentRuntime.Execute(maxEvents, preset, cancelled, backend).result;
            DraftTypes(RuntimeDrafts(result.events)) ==
            AnyRuntimeTypes(result.status, preset, if backend.Finished? then backend.events else [])
  {
    AgentRuntime.ExecutionOutcome(maxEvents, preset, cancelled, backend);
    var stopped := AgentRuntime.StoppingError(maxEvents, cancelled, backend);
    if preset {
      TypesOfStoppedRun(2, AgentRuntime.CancelledError);
    } else if stopped.Some? {
      assert AgentRuntime.OPENING[..4] == AgentRuntime.OPENING;
      TypesOfStoppedRun(4, stopped.value);
    } else {
      TypesOfSucceededRun(backend.events);
    }
  }

  lemma TypesOfRunningRun()
    ensures TypesOf(RunningRun().events) == OPENING_TYPES
  {
    RunningRunInv();
    assert PlannedRun().events[..3] == AssembledRun().events;
  }

  // The run with the executor's log stored.
  function Executed(result: Execution.ExecutionResult): RunData {
    AppendedAll(RunningRun().(steps := StepRows(result.state.stepStates)), ExecutionDrafts(result.state.events))
  }

  lemma ExecutedIsPersisted(s: Scenario)
    requires s.settings.limits.maxEvents >= 1 && ExecutionOf(s).Some?
    ensures Persisted(RunningRun(), PlanOf(s).value, ExecutionOf(s).value) == Some(Executed(ExecutionOf(s).value))
  {
    RunningRunInv();
    ExecutionIsStored(s.settings, PlanOf(s).value, s.cancels, RunningRun());
  }

  lemma UndisturbedStored(s: Scenario)
    requires Undisturbed(s) && ExecutionOf(s).Some?
    ensures var log := RuntimeDrafts(AgentRuntime.SucceededRun(s.backend.events).events);
            Orchestrated(StagesOf(s)) ==
            Some(Moved(AppendedAll(Executed(ExecutionOf(s).value), log), Succeeded, None, false))
  {
    UndisturbedRuntime(s);
    LogIsStoredExactly(s);
    ExecutedIsPersisted(s);
    UninterruptedRun(StagesOf(s));
  }

  // One row per step, under its own index: every step failed in a denied run; otherwise the first `done` are done,
  // tools skipped and instructions succeeded, and the others cancelled.
  predicate RowsTell(rows: seq<RunStep>, steps: seq<Planning.PlanStep>, denied: bool, done: nat) {
    && |rows| == |steps|
    && forall i :: 0 <= i < |rows| ==>
         && rows[i].stepIndex == i && rows[i].planStepId == steps[i].stepId
         && rows[i].status ==
            if denied then StepFailed
            else if i >= done then StepCancelled
            else if steps[i].stepType == Planning.Tool then Skipped else StepSucceeded
  }

  lemma RowsOfStates(
    steps: seq<Planning.PlanStep>, k: nat, rest: Execution.StepStatus, error: Option<Execution.ErrorCode>)
    requires rest.StepCancelled? || (rest.StepFailed? && k == 0) || (rest.StepPending? && k == |steps|)
    ensures RowsTell(StepRows(ExecutionRuns.StatesAfter(steps, k, rest, error)), steps, rest.StepFailed?, k)
  {
  }

  lemma RowsOfResult(steps: seq<Planning.PlanStep>, denied: bool, a: nat, maxEvents: nat)
    requires a <= 2 * |steps|
    ensures RowsTell(StepRows(ResultFor(steps, denied, a, maxEvents).state.stepStates), steps, denied, (a + 1) / 2)
  {
    if denied {
      RowsOfStates(steps, 0, Execution.StepFailed, Some(Execution.ExecutorPolicy));
    } else if a < 2 * |steps| {
      RowsOfStates(steps, (a + 1) / 2, Execution.StepCancelled, Some(Execution.ExecutorCancelled));
    } else {
      RowsOfStates(steps, |steps|, Execution.StepPending, None);
    }
  }

  lemma ResultIsExecutors(s: Scenario)
    requires ExecutionOf(s).Some?
    ensures PlanOf(s).Some?
    ensures Execution.Execute(s.settings, PlanOf(s).value, s.cancels) == Execution.Returned(ExecutionOf(s).value)
  {
  }

  function FirstCancelOf(s: Scenario): nat
    requires PlanOf(s).Some?
  {
    ExecutionRuns.FirstCancel(s.cancels, 2 * |PlanOf(s).value.steps|, 0)
  }

  lemma ResultIsPredicted(s: Scenario)
    requires s.settings.limits.maxEvents >= 1 && ExecutionOf(s).Some?
    ensures PlanOf(s).Some?
    ensures ExecutionOf(s).value ==
            ResultFor(PlanOf(s).value.steps, MeetsPolicy(s.settings.policies, PlanOf(s).value.steps),
                      FirstCancelOf(s), s.settings.limits.maxEvents)
  {
    ResultIsExecutors(s);
    ReturnedExactly(s.settings, PlanOf(s).value, s.cancels);
  }

  // The stored rows for every way the executor can return, whatever the runtime and the output metadata do later.
  lemma StoredRowsByOutcome(s: Scenario)
    requires s.settings.limits.maxEvents >= 1 && ContextOf(s).Some? && ExecutionOf(s).Some?
    ensures Orchestrated(StagesOf(s)).Some?
    ensures RowsTell(Orchestrated(StagesOf(s)).value.steps, PlanOf(s).value.steps,
                     MeetsPolicy(s.settings.policies, PlanOf(s).value.steps), (FirstCancelOf(s) + 1) / 2)
  {
    ExecutedIsPersisted(s);
    StepRowsStay(StagesOf(s));
    ResultIsPredicted(s);
    RowsOfResult(PlanOf(s).value.steps, MeetsPolicy(s.settings.policies, PlanOf(s).value.steps), FirstCancelOf(s),
                 s.settings.limits.maxEvents);
    RunningRunInv();
    AppendedAllNumbers(RunningRun().(steps := StepRows(ExecutionOf(s).value.state.stepStates)),
                       ExecutionDrafts(ExecutionOf(s).value.state.events));
  }

  // What the stored run looks like for these steps and this backend log.
  predicate IsStoredWhole(run: RunData, steps: seq<Planning.PlanStep>, events: seq<AgentRuntime.BackendEvent>) {
    && run.status.Succeeded? && run.errorCode.None? && run.retryCount == 0
    && NumberedInOrder(run.events)
    && TypesOf(run.events) == OPENING_TYPES + ExecutorTypes(steps) + RuntimeTypes(events) + [STATUS_CHANGED]
    && |run.steps| == |steps|
    && (forall i :: 0 <= i < |steps| ==>
          run.steps[i] == RunStep(i, steps[i].stepId, if steps[i].stepType.Tool? then Skipped else StepSucceeded))
  }

  // Two logs stored one after the other, then the final change.
  lemma TwoLogsThenChange(d: RunData, a: seq<Draft>, b: seq<Draft>)
    requires NumberedInOrder(d.events)
    ensures var run := Moved(AppendedAll(AppendedAll(d, a), b), Succeeded, None, false);
            && run == d.(status := Succeeded, events := run.events) && NumberedInOrder(run.events)
            && TypesOf(run.events) == TypesOf(d.events) + DraftTypes(a) + DraftTypes(b) + [STATUS_CHANGED]
  {
    var executed := AppendedAll(d, a);
    AppendedAllNumbers(d, a);
    TypesOfAppendedAll(d, a);
    AppendedAllNumbers(executed, b);
    TypesOfAppendedAll(executed, b);
    NextIsLength(AppendedAll(executed, b).events);
  }

  lemma CompletedRows(steps: seq<Planning.PlanStep>)
    ensures var rows := StepRows(ExecutionRuns.CompletedRun(steps).state.stepStates);
            |rows| == |steps| && forall i :: 0 <= i < |steps| ==>
              rows[i] == RunStep(i, steps[i].stepId, if steps[i].stepType.Tool? then Skipped else StepSucceeded)
  {
  }

  lemma CompletedThenSucceeded(steps: seq<Planning.PlanStep>, events: seq<AgentRuntime.BackendEvent>)
    ensures IsStoredWhole(
              Moved(AppendedAll(Executed(ExecutionRuns.CompletedRun(steps)),
                                RuntimeDrafts(AgentRuntime.SucceededRun(events).events)),
                    Succeeded, None, false),
              steps, events)
  {
    var result := ExecutionRuns.CompletedRun(steps);
    RunningRunInv();
    CompletedRows(steps);
    TypesOfRunningRun();
    TypesOfCompletedRun(steps);
    TypesOfSucceededRun(events);
    TwoLogsThenChange(RunningRun().(steps := StepRows(result.state.stepStates)),
                      ExecutionDrafts(result.state.events), RuntimeDrafts(AgentRuntime.SucceededRun(events).events));
  }

  // The stored log is, event by event, the six up to `running`, the executor's, the runtime's own five with the
  // backend's in their midst, and the final change; every step is stored once, under its own index.
  lemma UndisturbedRunIsStoredWhole(s: Scenario)
    requires Undisturbed(s)
    ensures Orchestrated(StagesOf(s)).Some?
    ensures IsStoredWhole(Orchestrated(StagesOf(s)).value, PlanOf(s).value.steps, s.backend.events)
  {
    UndisturbedExecution(s);
    UndisturbedStored(s);
    CompletedThenSucceeded(PlanOf(s).value.steps, s.backend.events);
  }

  lemma TypesOfFinishedRun(d: RunData, a: seq<Draft>, b: seq<Draft>, change: Change)
    requires NumberedInOrder(d.events)
    ensures TypesOf(Moved(AppendedAll(AppendedAll(d, a), b), change.target, change.error, change.retry).events) ==
            TypesOf(d.events) + DraftTypes(a) + DraftTypes(b) + [STATUS_CHANGED]
  {
    AppendedAllNumbers(d, a);
    TypesOfAppendedAll(d, a);
    AppendedAllNumbers(AppendedAll(d, a), b);
    TypesOfAppendedAll(AppendedAll(d, a), b);
  }

  lemma TypesOfTwoLogs(result: Execution.ExecutionResult, b: seq<Draft>, change: Change)
    ensures TypesOf(Moved(AppendedAll(Executed(result), b), change.target, change.error, change.retry).events) ==
            OPENING_TYPES + DraftTypes(ExecutionDrafts(result.state.events)) + DraftTypes(b) + [STATUS_CHANGED]
  {
    RunningRunInv();
    TypesOfRunningRun();
    TypesOfFinishedRun(
      RunningRun().(steps := StepRows(result.state.stepStates)), ExecutionDrafts(result.state.events), b, change);
  }

  lemma StoredTypesAreBothLogs(s: Scenario)
    requires s.settings.limits.maxEvents >= 1 && StagesReturn(s) && s.outputMetadataOk
    ensures TypesOf(Orchestrated(StagesOf(s)).value.events) ==
            OPENING_TYPES + DraftTypes(ExecutionDrafts(ExecutionOf(s).value.state.events))
            + DraftTypes(RuntimeDrafts(RuntimeOf(s).value.events)) + [STATUS_CHANGED]
  {
    LogIsStoredExactly(s);
    ExecutedIsPersisted(s);
    UninterruptedRun(StagesOf(s));
    TypesOfTwoLogs(
      ExecutionOf(s).value, RuntimeDrafts(RuntimeOf(s).value.events), FinalChange(RuntimeOf(s).value, true));
  }

  function ExecutionTypesOf(s: Scenario): seq<string>
    requires PlanOf(s).Some?
  {
    var steps := PlanOf(s).value.steps;
    ExecutionTypes(steps, MeetsPolicy(s.settings.policies, steps), (FirstCancelOf(s) + 1) / 2,
                   LastTypes(FirstCancelOf(s), 2 * |steps|, s.settings.limits.maxEvents))
  }

  function RuntimeTypesOf(s: Scenario): seq<string>
    requires RuntimeOf(s).Some?
  {
    AnyRuntimeTypes(RuntimeOf(s).value.status, s.presetCancel, if s.backend.Finished? then s.backend.events else [])
  }

  lemma ExecutionTypesStored(s: Scenario)
    requires s.settings.limits.maxEvents >= 1 && ExecutionOf(s).Some?
    ensures DraftTypes(ExecutionDrafts(ExecutionOf(s).value.state.events)) == ExecutionTypesOf(s)
  {
    var steps := PlanOf(s).value.steps;
    ResultIsPredicted(s);
    TypesOfResult(steps, MeetsPolicy(s.settings.policies, steps), FirstCancelOf(s), s.settings.limits.maxEvents);
  }

  lemma RuntimeTypesStored(s: Scenario)
    requires s.runtimeLimits.maxEvents >= 1 && RuntimeOf(s).Some?
    ensures DraftTypes(RuntimeDrafts(RuntimeOf(s).value.events)) == RuntimeTypesOf(s)
  {
    TypesOfRuntime(s.runtimeLimits.maxEvents, s.presetCancel, s.cancelled, s.backend);
  }

  // The stored log for every way executor and runtime can return: the six events up to `running`, the executor's, the
  // runtime's, and the final change.
  lemma StoredTypesByOutcome(s: Scenario)
    requires s.settings.limits.maxEvents >= 1 && s.runtimeLimits.maxEvents >= 1
    requires StagesReturn(s) && s.outputMetadataOk
    ensures TypesOf(Orchestrated(StagesOf(s)).value.events) ==
            OPENING_TYPES + ExecutionTypesOf(s) + RuntimeTypesOf(s) + [STATUS_CHANGED]
  {
    StoredTypesAreBothLogs(s);
    ExecutionTypesStored(s);
    RuntimeTypesStored(s);
  }

  // ---------- a backend that names an event like the service's own ----------

  // Nothing is registered, asked for or cancelled; the backend answers with one event.
  function PlainScenario(event: AgentRuntime.BackendEvent): Scenario {
    Scenario(
      ContextAssembly.ContextRequest("task", map[], map[], []), [], [], {},
      ContextAssembly.Limits(100, 10, 10, 100, 100, 10, 100),
      ContextAssembly.Sizes(_ => 0, _ => 0, (_, _) => 0),
      Planning.PlanningRequest(0, 0, "task", []), [],
      Execution.Settings(Execution.DEFAULT_EXECUTION_LIMITS, Execution.DEFAULT_POLICIES, None), {},
      AgentRuntime.RuntimeLimits(1_000, 20_000), AgentRuntime.Definition("key", "type", "1", true),
      AgentRuntime.Request(0, "task", None, true), false, false, AgentRuntime.Finished(true, [event]), true, "")
  }

  lemma PlainTexts()
    ensures !TextChunking.IsBlank("key") && !TextChunking.IsBlank("type") && !TextChunking.IsBlank("1")
    ensures !TextChunking.IsBlank("task") && !TextChunking.IsBlank(STATUS_CHANGED)
  {
    TextChunking.StrippedSpanKeeps("key", 0, 3, 0);
    TextChunking.StrippedSpanKeeps("type", 0, 4, 0);
    TextChunking.StrippedSpanKeeps("1", 0, 1, 0);
    TextChunking.StrippedSpanKeeps("task", 0, 4, 0);
    TextChunking.StrippedSpanKeeps(STATUS_CHANGED, 0, |STATUS_CHANGED|, 0);
  }

  lemma PlainRequestIsFine(limits: ContextAssembly.Limits, sizes: ContextAssembly.Sizes)
    requires limits.maxTaskLength >= 4 && ContextAssembly.MappingFault(map[], limits, sizes).None?
    ensures ContextAssembly.RequestFault(ContextAssembly.ContextRequest("task", map[], map[], []), limits, sizes).None?
  {
    var two: seq<ContextAssembly.Data> := [map[], map[]];
    assert two + [] == two && two[1..] == [map[]] && two[1..][1..] == [];
    assert ContextAssembly.MappingsFault([], limits, sizes).None?;
    assert ContextAssembly.MappingsFault(two[1..], limits, sizes).None?;
  }

  lemma PlainContextIsAssembled(event: AgentRuntime.BackendEvent)
    ensures ContextOf(PlainScenario(event)).Some?
  {
    var s := PlainScenario(event);
    PlainRequestIsFine(s.contextLimits, s.sizes);
    assert ContextAssembly.Collected([], s.contextLimits, s.sizes) == Ok([]);
    assert ContextAssembly.MergedContext([], [], s.contextLimits, s.sizes).Ok?;
  }

  lemma PlainRequestIsPlanned(event: AgentRuntime.BackendEvent)
    ensures PlanOf(PlainScenario(event)).Some?
  {
    Planning.PlannerAcceptsExactly(PlainScenario(event).request, []);
  }

  lemma PlainScenarioIsUndisturbed(event: AgentRuntime.BackendEvent)
    requires AgentRuntime.IsValidEvent(event)
    ensures Undisturbed(PlainScenario(event))
  {
    PlainTexts();
    PlainContextIsAssembled(event);
    PlainRequestIsPlanned(event);
    PlannedExecution.PlannerPlansAreAccepted(PlainScenario(event).request, [], None);
  }

  const FOREIGN_CHANGE :=
    AgentRuntime.BackendEvent(AgentRuntime.EventBody(STATUS_CHANGED, None, map[]), true)

  lemma ForeignChangeDoesNotClose()
    ensures !BackendLogCloses([FOREIGN_CHANGE])
  {
    assert [FOREIGN_CHANGE][..0] == [];
    assert FollowBackend(Some(Running), []) == Some(Running);
  }

  // In every undisturbed scenario whose backend answers with one event named run.status_changed and no metadata, the
  // stored run's history is broken ...
  lemma ForeignStatusChangeBreaksHistory(s: Scenario)
    requires Undisturbed(s) && s.backend == AgentRuntime.Finished(true, [FOREIGN_CHANGE])
    ensures Orchestrated(StagesOf(s)).Some? && !HistoryMatches(Orchestrated(StagesOf(s)).value)
  {
    UndisturbedRuntime(s);
    UndisturbedExecution(s);
    EveryScenarioMatchesExactly(s);
    ForeignChangeDoesNotClose();
  }

  // ... and there is one.
  lemma SomeScenarioBreaksHistory()
    ensures exists s :: Undisturbed(s) && !HistoryMatches(Orchestrated(StagesOf(s)).value)
  {
    PlainTexts();
    PlainScenarioIsUndisturbed(FOREIGN_CHANGE);
    ForeignStatusChangeBreaksHistory(PlainScenario(FOREIGN_CHANGE));
  }
}

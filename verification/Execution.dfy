/**
 The deterministic executor: a per-run lifecycle with a bounded event log, driven step by step, that a cancel
 request can reach only while the run is suspended at one of its two await points per step.
 Timestamps, messages and event metadata are not modelled.
 */
module Execution {
  import opened Outcomes
  import opened Planning

  datatype ExecutionStatus =
    | Requested | Validating | Running | WaitingForApproval | Succeeded | Failed | Cancelled

  datatype StepStatus = StepPending | StepRunning | StepCompleted | StepDeferred | StepFailed | StepCancelled

  datatype ErrorCode = ExecutorCancelled | ExecutorLimit | ExecutorPolicy | ExecutorValidation

  datatype EventType = StatusReached(reached: ExecutionStatus) | StepStarted | StepFinished(deferred: bool)

  datatype ExecutionEvent = ExecutionEvent(
    sequence: nat, eventType: EventType, status: ExecutionStatus, stepId: Option<string>)

  datatype StepState = StepState(
    stepId: string, order: nat, toolId: Option<string>, status: StepStatus, error: Option<ErrorCode>)

  datatype ExecutionLimits = ExecutionLimits(maxSteps: nat, maxEvents: nat, maxStepDescriptionLength: nat)

  const DEFAULT_EXECUTION_LIMITS := ExecutionLimits(64, 256, 2_000)

  datatype ExecutionPolicies = ExecutionPolicies(allowInstructionSteps: bool, allowToolSteps: bool, rejectTools: bool)

  const DEFAULT_POLICIES := ExecutionPolicies(true, true, false)

  // What one executor instance is configured with. `enabledTools` is the registry's enabled tools, if there is one.
  datatype Settings = Settings(limits: ExecutionLimits, policies: ExecutionPolicies, enabledTools: Option<seq<string>>)

  function AllowedTargets(status: ExecutionStatus): set<ExecutionStatus> {
    match status
    case Requested => {Validating, Cancelled}
    case Validating => {Running, Failed, Cancelled}
    case Running => {WaitingForApproval, Succeeded, Failed, Cancelled}
    case WaitingForApproval => {Running, Failed, Cancelled}
    case Succeeded => {}
    case Failed => {}
    case Cancelled => {}
  }

  predicate Terminal(status: ExecutionStatus) { status.Succeeded? || status.Failed? || status.Cancelled? }

  // The table read by its columns: from where each status can be reached. Cancelling is possible exactly until the run
  // is over, and nothing leads out of a run that is.
  lemma LegalMoves(status: ExecutionStatus, target: ExecutionStatus)
    ensures target in AllowedTargets(status) <==>
            match target
            case Requested => false
            case Validating => status == Requested
            case Running => status in {Validating, WaitingForApproval}
            case WaitingForApproval => status == Running
            case Succeeded => status == Running
            case Failed => status in {Validating, Running, WaitingForApproval}
            case Cancelled => status !in {Succeeded, Failed, Cancelled}
    ensures Terminal(status) <==> AllowedTargets(status) == {}
  {
  }

  // ---------- one run's lifecycle, as a value ----------

  datatype Lifecycle = Lifecycle(
    status: ExecutionStatus,
    currentStepId: Option<string>,
    stepStates: seq<StepState>,
    events: seq<ExecutionEvent>,
    cancellationRequested: bool)

  // A lifecycle operation's new state, and the error it raises if it does.
  datatype Effect = Effect(state: Lifecycle, error: Option<ErrorCode>)

  function Recorded(
    l: Lifecycle, maxEvents: nat, eventType: EventType, status: ExecutionStatus, stepId: Option<string>): Effect
  {
    if |l.events| >= maxEvents then Effect(l, Some(ExecutorLimit))
    else Effect(l.(events := l.events + [ExecutionEvent(|l.events|, eventType, status, stepId)]), None)
  }

  // The status changes before the event is recorded, so a full log leaves the new status without an event.
  function Transitioned(l: Lifecycle, maxEvents: nat, target: ExecutionStatus): Effect {
    if target !in AllowedTargets(l.status) then Effect(l, Some(ExecutorValidation))
    else Recorded(l.(status := target), maxEvents, StatusReached(target), target, None)
  }

  // A transition either makes a legal move, recording it when the log has room, or changes nothing; once a run is over
  // every further one is refused.
  lemma TransitionIsSafe(l: Lifecycle, maxEvents: nat, target: ExecutionStatus)
    ensures var moved := Transitioned(l, maxEvents, target);
            && (moved.error.None? <==> target in AllowedTargets(l.status) && |l.events| < maxEvents)
            && (target in AllowedTargets(l.status) ==>
                  && moved.state == l.(status := target, events := moved.state.events)
                  && moved.error in {None, Some(ExecutorLimit)}
                  && moved.state.events ==
                     if |l.events| >= maxEvents then l.events
                     else l.events + [ExecutionEvent(|l.events|, StatusReached(target), target, None)])
            && (target !in AllowedTargets(l.status) || Terminal(l.status) ==>
                  moved == Effect(l, Some(ExecutorValidation)))
  {
  }

  function WithStepStatus(l: Lifecycle, step: PlanStep, status: StepStatus, error: Option<ErrorCode>): Lifecycle
    requires 1 <= step.order <= |l.stepStates|
  {
    var index := step.order - 1;
    l.(stepStates := l.stepStates[index := l.stepStates[index].(status := status, error := error)])
  }

  function DoneStatus(step: PlanStep): StepStatus { if step.stepType.Tool? then StepDeferred else StepCompleted }

  function Progressed(l: Lifecycle, maxEvents: nat, step: PlanStep): Effect
    requires 1 <= step.order <= |l.stepStates|
  {
    var started := Recorded(
      WithStepStatus(l.(currentStepId := Some(step.stepId)), step, StepRunning, None),
      maxEvents, StepStarted, Running, Some(step.stepId));
    if started.error.Some? then started
    else
      var finished := Recorded(
        WithStepStatus(started.state, step, DoneStatus(step), None),
        maxEvents, StepFinished(step.stepType.Tool?), Running, Some(step.stepId));
      if finished.error.Some? then finished
      else Effect(finished.state.(currentStepId := None), None)
  }

  function InitialStep(step: PlanStep): StepState {
    StepState(step.stepId, step.order, step.toolId, StepPending, None)
  }

  function InitialSteps(steps: seq<PlanStep>): seq<StepState> {
    seq(|steps|, i requires 0 <= i < |steps| => InitialStep(steps[i]))
  }

  // A new lifecycle with its first event; the log limit is at least one.
  function Fresh(plan: ExecutionPlan): Lifecycle {
    Lifecycle(Requested, None, InitialSteps(plan.steps),
              [ExecutionEvent(0, StatusReached(Requested), Requested, None)], false)
  }

  /** The executor's private, mutable per-run state machine. */
  class ExecutionLifecycle {
    const maxEvents: nat
    var status: ExecutionStatus
    var currentStepId: Option<string>
    var stepStates: seq<StepState>
    var events: seq<ExecutionEvent>
    var cancellationRequested: bool

    function View(): Lifecycle
      reads this
    {
      Lifecycle(status, currentStepId, stepStates, events, cancellationRequested)
    }

    constructor (plan: ExecutionPlan, maxEvents: nat)
      requires maxEvents >= 1
      ensures View() == Fresh(plan) && this.maxEvents == maxEvents
    {
      this.maxEvents := maxEvents;
      status := Requested;
      currentStepId := None;
      stepStates := InitialSteps(plan.steps);
      events := [ExecutionEvent(0, StatusReached(Requested), Requested, None)];
      cancellationRequested := false;
    }

    method Record(eventType: EventType, status: ExecutionStatus, stepId: Option<string>)
      returns (error: Option<ErrorCode>)
      modifies this`events
      ensures Effect(View(), error) == Recorded(old(View()), maxEvents, eventType, status, stepId)
    {
      if |events| >= maxEvents {
        return Some(ExecutorLimit);
      }
      events := events + [ExecutionEvent(|events|, eventType, status, stepId)];
      error := None;
    }

    method Transition(target: ExecutionStatus) returns (error: Option<ErrorCode>)
      modifies this`status, this`events
      ensures Effect(View(), error) == Transitioned(old(View()), maxEvents, target)
    {
      if target !in AllowedTargets(status) {
        return Some(ExecutorValidation);
      }
      status := target;
      error := Record(StatusReached(target), target, None);
    }

    method SetStepStatus(step: PlanStep, status: StepStatus, error: Option<ErrorCode>)
      requires 1 <= step.order <= |stepStates|
      modifies this`stepStates
      ensures View() == WithStepStatus(old(View()), step, status, error)
    {
      var index := step.order - 1;
      stepStates := stepStates[index := stepStates[index].(status := status, error := error)];
    }

    method RequestCancel() returns (accepted: bool)
      modifies this`cancellationRequested
      ensures accepted == !Terminal(status)
      ensures View() == if accepted then old(View()).(cancellationRequested := true) else old(View())
    {
      if Terminal(status) {
        return false;
      }
      cancellationRequested := true;
      accepted := true;
    }
  }

  // ---------- validation ----------

  predicate ToolIsListed(step: PlanStep, tools: seq<string>) {
    step.stepType.Tool? ==> step.toolId.Some? && step.toolId.value in tools
  }

  function FirstStepFault(plan: ExecutionPlan, limits: ExecutionLimits, i: nat): Option<ErrorCode>
    requires i <= |plan.steps|
    decreases |plan.steps| - i
  {
    if i == |plan.steps| then None
    else
      var step := plan.steps[i];
      if |step.description| > limits.maxStepDescriptionLength then Some(ExecutorLimit)
      else if exists d :: d in step.dependsOn && !NamesEarlierStep(plan.steps, d, step.order) then
        Some(ExecutorValidation)
      else if !ToolIsListed(step, plan.metadata.availableToolIds) then Some(ExecutorValidation)
      else FirstStepFault(plan, limits, i + 1)
  }

  // ExecutionValidator.validate_plan
  function ValidatePlan(plan: ExecutionPlan, limits: ExecutionLimits): Option<ErrorCode> {
    if plan.steps == [] then Some(ExecutorValidation)
    else if |plan.steps| > limits.maxSteps then Some(ExecutorLimit)
    else if !StepIdsDistinct(plan.steps) then Some(ExecutorValidation)
    else if !OrdersArePositions(plan.steps) then Some(ExecutorValidation)
    else
      var fault := FirstStepFault(plan, limits, 0);
      if fault.Some? then fault
      else if ToolIds(plan.steps) != plan.metadata.requestedToolIds then Some(ExecutorValidation)
      else None
  }

  // DeterministicExecutor._validate_registry_metadata
  function ValidateRegistry(plan: ExecutionPlan, enabledTools: Option<seq<string>>): Option<ErrorCode> {
    if enabledTools.None? || forall i :: 0 <= i < |plan.steps| ==> ToolIsListed(plan.steps[i], enabledTools.value) then
      None
    else Some(ExecutorValidation)
  }

  predicate Denied(policies: ExecutionPolicies, step: PlanStep) {
    if step.stepType.Instruction? then !policies.allowInstructionSteps
    else !policies.allowToolSteps || policies.rejectTools
  }

  predicate Permitted(policies: ExecutionPolicies, steps: seq<PlanStep>) {
    forall i :: 0 <= i < |steps| ==> !Denied(policies, steps[i])
  }

  // ExecutionValidator.validate_state, apart from the run and plan identifiers
  predicate CoversPlan(state: Lifecycle, plan: ExecutionPlan, limits: ExecutionLimits) {
    && |state.events| <= limits.maxEvents
    && |state.stepStates| == |plan.steps|
    && (forall i :: 0 <= i < |plan.steps| ==>
          && state.stepStates[i].stepId == plan.steps[i].stepId
          && state.stepStates[i].order == plan.steps[i].order
          && state.stepStates[i].toolId == plan.steps[i].toolId)
    && (forall i :: 0 <= i < |state.events| ==> state.events[i].sequence == i)
  }

  // ---------- one run, from start to finish ----------

  datatype ExecutionResult = ExecutionResult(state: Lifecycle, error: Option<ErrorCode>)

  // `execute` either returns a result or raises.
  datatype Outcome = Returned(result: ExecutionResult) | Raised(code: ErrorCode)

  // A run is suspended at await point `at` (two per step), or `execute` has come to an end.
  datatype Phase = Waiting(state: Lifecycle, at: nat) | Ended(outcome: Outcome)

  function ClosedSteps(states: seq<StepState>, cancelled: bool, code: ErrorCode): seq<StepState> {
    seq(|states|, i requires 0 <= i < |states| =>
      if states[i].status.StepPending? || states[i].status.StepRunning? then
        states[i].(status := if cancelled then StepCancelled else StepFailed, error := Some(code))
      else states[i])
  }

  // DeterministicExecutor._failure_result
  function FailureOutcome(l: Lifecycle, maxEvents: nat, code: ErrorCode): Outcome {
    var closed := l.(stepStates := ClosedSteps(l.stepStates, code.ExecutorCancelled?, code));
    if Terminal(l.status) then Returned(ExecutionResult(closed, Some(code)))
    else
      var final := Transitioned(closed, maxEvents, if code.ExecutorCancelled? then Cancelled else Failed);
      if final.error.Some? then Raised(final.error.value) else Returned(ExecutionResult(final.state, Some(code)))
  }

  // The synchronous part of `execute` up to its first await.
  function Begin(settings: Settings, plan: ExecutionPlan): Phase {
    var m := settings.limits.maxEvents;
    var validating := Transitioned(Fresh(plan), m, Validating);
    if validating.error.Some? then Ended(FailureOutcome(validating.state, m, validating.error.value))
    else if !Permitted(settings.policies, plan.steps) then Ended(FailureOutcome(validating.state, m, ExecutorPolicy))
    else
      var running := Transitioned(validating.state, m, Running);
      if running.error.Some? then Ended(FailureOutcome(running.state, m, running.error.value))
      else Waiting(running.state, 0)
  }

  function Finish(settings: Settings, l: Lifecycle): Outcome {
    var m := settings.limits.maxEvents;
    var succeeded := Transitioned(l, m, Succeeded);
    if succeeded.error.Some? then FailureOutcome(succeeded.state, m, succeeded.error.value)
    else Returned(ExecutionResult(succeeded.state, None))
  }

  // The synchronous part of `execute` from await point `at` to the next one or to the end.
  function Resume(settings: Settings, plan: ExecutionPlan, l: Lifecycle, at: nat): Phase
    requires OrdersArePositions(plan.steps) && |l.stepStates| == |plan.steps| && at < 2 * |plan.steps|
  {
    var m := settings.limits.maxEvents;
    if l.cancellationRequested then Ended(FailureOutcome(l, m, ExecutorCancelled))
    else if at % 2 == 0 then
      var done := Progressed(l, m, plan.steps[at / 2]);
      if done.error.Some? then Ended(FailureOutcome(done.state, m, done.error.value)) else Waiting(done.state, at + 1)
    else if at + 1 < 2 * |plan.steps| then Waiting(l, at + 1)
    else Ended(Finish(settings, l))
  }

  // `cancels` holds the await points during which a cancel request arrives.
  function Delivered(l: Lifecycle, at: nat, cancels: set<nat>): Lifecycle {
    if at in cancels && !Terminal(l.status) then l.(cancellationRequested := true) else l
  }

  // One turn of the step loop: an await, the step, another await.
  function Coordinated(settings: Settings, plan: ExecutionPlan, l: Lifecycle, i: nat, cancels: set<nat>): Effect
    requires OrdersArePositions(plan.steps) && |l.stepStates| == |plan.steps| && i < |plan.steps|
  {
    var before := Delivered(l, 2 * i, cancels);
    if before.cancellationRequested then Effect(before, Some(ExecutorCancelled))
    else
      var done := Progressed(before, settings.limits.maxEvents, plan.steps[i]);
      if done.error.Some? then done
      else
        var after := Delivered(done.state, 2 * i + 1, cancels);
        Effect(after, if after.cancellationRequested then Some(ExecutorCancelled) else None)
  }

  function StepLoop(settings: Settings, plan: ExecutionPlan, l: Lifecycle, i: nat, cancels: set<nat>): Outcome
    requires OrdersArePositions(plan.steps) && |l.stepStates| == |plan.steps| && i <= |plan.steps|
    decreases |plan.steps| - i
  {
    if i == |plan.steps| then Finish(settings, l)
    else
      var turn := Coordinated(settings, plan, l, i, cancels);
      if turn.error.Some? then FailureOutcome(turn.state, settings.limits.maxEvents, turn.error.value)
      else StepLoop(settings, plan, turn.state, i + 1, cancels)
  }

  function RunPlan(settings: Settings, plan: ExecutionPlan, cancels: set<nat>): Outcome
    requires plan.steps != [] && OrdersArePositions(plan.steps)
  {
    match Begin(settings, plan)
    case Ended(outcome) => outcome
    case Waiting(l, _) => StepLoop(settings, plan, l, 0, cancels)
  }

  // What `execute` does with a request when no run with its identifier is active.
  function Execute(settings: Settings, plan: ExecutionPlan, cancels: set<nat>): Outcome {
    var fault := ValidatePlan(plan, settings.limits);
    if fault.Some? then Raised(fault.value)
    else
      var missing := ValidateRegistry(plan, settings.enabledTools);
      if missing.Some? then Raised(missing.value) else RunPlan(settings, plan, cancels)
  }

  /** The executor itself. `active` holds the runs in flight by run identifier. */
  class DeterministicExecutor {
    const settings: Settings
    var active: map<Uuid, ExecutionLifecycle>

    constructor (settings: Settings)
      ensures this.settings == settings && active == map[]
    {
      this.settings := settings;
      active := map[];
    }

    method Cancel(runId: Uuid) returns (accepted: bool)
      modifies if runId in active then {active[runId]} else {}
      ensures runId !in active ==> !accepted
      ensures runId in active ==>
                && accepted == !Terminal(active[runId].status)
                && active[runId].View() ==
                   if accepted then old(active[runId].View()).(cancellationRequested := true)
                   else old(active[runId].View())
    {
      accepted := false;
      if runId in active {
        accepted := active[runId].RequestCancel();
      }
    }

    method ProgressStep(l: ExecutionLifecycle, step: PlanStep) returns (error: Option<ErrorCode>)
      requires 1 <= step.order <= |l.stepStates|
      modifies l
      ensures Effect(l.View(), error) == Progressed(old(l.View()), l.maxEvents, step)
      ensures |l.stepStates| == |old(l.stepStates)|
    {
      l.currentStepId := Some(step.stepId);
      l.SetStepStatus(step, StepRunning, None);
      error := l.Record(StepStarted, Running, Some(step.stepId));
      if error.Some? {
        return;
      }
      l.SetStepStatus(step, DoneStatus(step), None);
      error := l.Record(StepFinished(step.stepType.Tool?), Running, Some(step.stepId));
      if error.Some? {
        return;
      }
      l.currentStepId := None;
    }

    // One turn of the step loop of `execute`. A suspension lets other tasks run, which may call `Cancel` for this run.
    method CoordinateStep(l: ExecutionLifecycle, plan: ExecutionPlan, i: nat, cancels: set<nat>)
      returns (error: Option<ErrorCode>)
      requires OrdersArePositions(plan.steps) && |l.stepStates| == |plan.steps| && i < |plan.steps|
      requires l.maxEvents == settings.limits.maxEvents && plan.runId in active && active[plan.runId] == l
      modifies l
      ensures Effect(l.View(), error) == Coordinated(settings, plan, old(l.View()), i, cancels)
      ensures |l.stepStates| == |plan.steps|
    {
      if 2 * i in cancels {
        var _ := Cancel(plan.runId);
      }
      if l.cancellationRequested {
        return Some(ExecutorCancelled);
      }
      error := ProgressStep(l, plan.steps[i]);
      if error.Some? {
        return;
      }
      if 2 * i + 1 in cancels {
        var _ := Cancel(plan.runId);
      }
      if l.cancellationRequested {
        error := Some(ExecutorCancelled);
      }
    }

    method CloseSteps(l: ExecutionLifecycle, plan: ExecutionPlan, target: ExecutionStatus, code: ErrorCode)
      requires OrdersArePositions(plan.steps) && |l.stepStates| == |plan.steps|
      modifies l`stepStates
      ensures l.stepStates == ClosedSteps(old(l.stepStates), target.Cancelled?, code)
    {
      for i := 0 to |plan.steps|
        invariant |l.stepStates| == |plan.steps|
        invariant forall k :: 0 <= k < i ==>
                    l.stepStates[k] == ClosedSteps(old(l.stepStates), target.Cancelled?, code)[k]
        invariant forall k :: i <= k < |plan.steps| ==> l.stepStates[k] == old(l.stepStates)[k]
      {
        var step := plan.steps[i];
        var state := l.stepStates[step.order - 1];
        if state.status.StepPending? || state.status.StepRunning? {
          l.SetStepStatus(step, if target.Cancelled? then StepCancelled else StepFailed, Some(code));
        }
      }
    }

    method FailureResult(l: ExecutionLifecycle, plan: ExecutionPlan, code: ErrorCode) returns (outcome: Outcome)
      requires OrdersArePositions(plan.steps) && |l.stepStates| == |plan.steps|
      modifies l
      ensures outcome == FailureOutcome(old(l.View()), l.maxEvents, code)
    {
      var target := if code.ExecutorCancelled? then Cancelled else Failed;
      CloseSteps(l, plan, target, code);
      if !Terminal(l.status) {
        var error := l.Transition(target);
        if error.Some? {
          return Raised(error.value);
        }
      }
      outcome := Returned(ExecutionResult(l.View(), Some(code)));
    }

    // The body of `execute` between registering the run and removing it.
    method RunSteps(l: ExecutionLifecycle, plan: ExecutionPlan, cancels: set<nat>) returns (outcome: Outcome)
      requires plan.steps != [] && OrdersArePositions(plan.steps)
      requires l.View() == Fresh(plan) && l.maxEvents == settings.limits.maxEvents
      requires plan.runId in active && active[plan.runId] == l
      modifies l
      ensures outcome == RunPlan(settings, plan, cancels)
    {
      var error := l.Transition(Validating);
      if error.None? && !Permitted(settings.policies, plan.steps) {
        error := Some(ExecutorPolicy);
      }
      if error.None? {
        error := l.Transition(Running);
      }
      if error.Some? {
        outcome := FailureResult(l, plan, error.value);
        return;
      }
      for i := 0 to |plan.steps|
        invariant |l.stepStates| == |plan.steps|
        invariant StepLoop(settings, plan, l.View(), i, cancels) == RunPlan(settings, plan, cancels)
      {
        error := CoordinateStep(l, plan, i, cancels);
        if error.Some? {
          outcome := FailureResult(l, plan, error.value);
          return;
        }
      }
      error := l.Transition(Succeeded);
      if error.Some? {
        outcome := FailureResult(l, plan, error.value);
        return;
      }
      outcome := Returned(ExecutionResult(l.View(), None));
    }

    // `cancels` says at which await points of this run another task calls `Cancel` for it.
    method ExecuteRequest(plan: ExecutionPlan, cancels: set<nat>) returns (outcome: Outcome)
      requires settings.limits.maxEvents >= 1
      modifies this`active
      ensures active == old(active)
      ensures plan.runId !in active ==> outcome == Execute(settings, plan, cancels)
      ensures plan.runId in active && ValidatePlan(plan, settings.limits).None? ==>
                outcome == Raised(ExecutorValidation)
    {
      var fault := ValidatePlan(plan, settings.limits);
      if fault.Some? {
        return Raised(fault.value);
      }
      if plan.runId in active {
        return Raised(ExecutorValidation);
      }
      var missing := ValidateRegistry(plan, settings.enabledTools);
      if missing.Some? {
        return Raised(missing.value);
      }
      var l := new ExecutionLifecycle(plan, settings.limits.maxEvents);
      active := active[plan.runId := l];
      outcome := RunSteps(l, plan, cancels);
      active := active - {plan.runId};
    }
  }
}

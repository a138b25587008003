/** The planner and the executor together: two separate validators, and runs of planner-made plans. */
module PlannedExecution {
  import opened Outcomes
  import opened Planning
  import opened Execution
  import opened ExecutionRuns
  import opened ExecutorSystem
  import Ordering

  // For plans the planner's validators let through, the executor's validator only adds that the steps are
  // listed in order (the planner's model accepts any arrangement of the orders 1..n).
  lemma ValidatorsAgreeExactly(
    plan: ExecutionPlan, request: PlanningRequest, planning: PlanningLimits, limits: ExecutionLimits)
    requires IsExecutionPlan(plan)
    requires ValidatePlanForRequest(plan, request, plan.metadata.availableToolIds, planning).None?
    requires planning.maxPlanSteps <= limits.maxSteps
    requires planning.maxStepDescriptionLength <= limits.maxStepDescriptionLength
    ensures ValidatePlan(plan, limits).None? <==> OrdersArePositions(plan.steps)
  {
    NoStepErrorMeans(plan.steps, plan.metadata.availableToolIds, planning.maxStepDescriptionLength, 0);
    NoStepFaultMeans(plan, limits, 0);
  }

  const BACK_TO_FRONT := ExecutionPlan(
    0, 0, "task",
    [PlanStep("step-002", 2, Instruction, "b", None, []), PlanStep("step-001", 1, Instruction, "a", None, [])],
    PlanMetadata([], []))

  lemma BackToFrontIsPlan()
    ensures IsExecutionPlan(BACK_TO_FRONT) && !OrdersArePositions(BACK_TO_FRONT.steps)
  {
    assert "step-002"[7] != "step-001"[7];
    assert BACK_TO_FRONT.steps[0].order != 1;
  }

  lemma BackToFrontNamesNoTools()
    ensures ToolIds(BACK_TO_FRONT.steps) == []
  {
    var steps := BACK_TO_FRONT.steps;
    assert steps[..1] == [steps[0]] && [steps[0]][..0] == [];
    assert ToolIds([]) == [];
    assert ToolIds([steps[0]]) == [];
  }

  // The two validators do differ: a two-step plan listed back to front passes the first and not the second.
  lemma ValidatorsDiffer()
    ensures exists plan: ExecutionPlan, request: PlanningRequest ::
              && IsExecutionPlan(plan)
              && ValidatePlanForRequest(plan, request, plan.metadata.availableToolIds, DEFAULT_LIMITS).None?
              && ValidatePlan(plan, DEFAULT_EXECUTION_LIMITS) == Some(ExecutorValidation)
  {
    var plan, request := BACK_TO_FRONT, PlanningRequest(0, 0, "task", []);
    BackToFrontIsPlan();
    BackToFrontNamesNoTools();
    NoStepErrorMeans(plan.steps, [], 2_000, 0);
    assert ValidatePlanForRequest(plan, request, plan.metadata.availableToolIds, DEFAULT_LIMITS).None?;
  }

  // What the planner checked of a plan it returns.
  lemma PlannedMeans(request: PlanningRequest, registryTools: seq<string>)
    requires PlanFor(request, registryTools, DEFAULT_LIMITS).Ok?
    ensures PlanFor(request, registryTools, DEFAULT_LIMITS).value == BuiltPlan(request, registryTools)
    ensures |request.requestedToolIds| <= 32 && IsExecutionPlan(BuiltPlan(request, registryTools))
    ensures ValidatePlanForRequest(BuiltPlan(request, registryTools), request, registryTools, DEFAULT_LIMITS).None?
  {
  }

  // Sorting the registry's tools does not change which steps name a listed one.
  lemma SortedToolsServe(plan: ExecutionPlan, request: PlanningRequest, registryTools: seq<string>)
    requires ValidatePlanForRequest(plan, request, registryTools, DEFAULT_LIMITS).None?
    ensures ValidatePlanForRequest(plan, request, Ordering.Sort(Ordering.TextLeq, registryTools), DEFAULT_LIMITS).None?
    ensures forall i :: 0 <= i < |plan.steps| ==> ToolIsListed(plan.steps[i], registryTools)
  {
    Ordering.SortKeepsElements(Ordering.TextLeq, registryTools);
    NoStepErrorMeans(plan.steps, registryTools, 2_000, 0);
    NoStepErrorMeans(plan.steps, Ordering.Sort(Ordering.TextLeq, registryTools), 2_000, 0);
  }

  lemma OrdersOfBuiltSteps(tools: seq<string>)
    ensures OrdersArePositions(StepsFor(tools)) && |StepsFor(tools)| == if tools == [] then 1 else |tools|
  {
  }

  // The executor's registry enables every tool the request asks for.
  predicate ServesRequest(enabledTools: Option<seq<string>>, request: PlanningRequest) {
    enabledTools.Some? ==>
      forall i :: 0 <= i < |request.requestedToolIds| ==> request.requestedToolIds[i] in enabledTools.value
  }

  lemma RegistryAcceptsExactly(plan: ExecutionPlan, request: PlanningRequest, enabledTools: Option<seq<string>>)
    requires plan.steps == StepsFor(request.requestedToolIds)
    ensures ValidateRegistry(plan, enabledTools).None? <==> ServesRequest(enabledTools, request)
  {
    var tools := request.requestedToolIds;
    if enabledTools.Some? && tools != [] {
      assert forall i :: 0 <= i < |tools| ==> plan.steps[i] == ToolStep(tools[i], i + 1);
    }
  }

  // A plan the planner returns under its default limits passes the executor's own validator and default policies; the
  // executor accepts it exactly when its registry, if it has one, enables the requested tools. The planner's own does.
  lemma PlannerPlansAreAccepted(request: PlanningRequest, registryTools: seq<string>, enabledTools: Option<seq<string>>)
    requires PlanFor(request, registryTools, DEFAULT_LIMITS).Ok?
    ensures var settings := Settings(DEFAULT_EXECUTION_LIMITS, DEFAULT_POLICIES, enabledTools);
            var plan := PlanFor(request, registryTools, DEFAULT_LIMITS).value;
            && ValidatePlan(plan, settings.limits).None? && Permitted(settings.policies, plan.steps)
            && (Accepted(settings, plan) <==> ServesRequest(enabledTools, request))
            && ServesRequest(Some(registryTools), request)
            && 1 <= |plan.steps| <= 32 && plan.steps == StepsFor(request.requestedToolIds)
  {
    var plan := BuiltPlan(request, registryTools);
    PlannedMeans(request, registryTools);
    SortedToolsServe(plan, request, registryTools);
    OrdersOfBuiltSteps(request.requestedToolIds);
    ValidatorsAgreeExactly(plan, request, DEFAULT_LIMITS, DEFAULT_EXECUTION_LIMITS);
    RegistryAcceptsExactly(plan, request, enabledTools);
  }

  // An accepted and permitted plan runs to completion when nobody cancels and its events fit.
  lemma AcceptedRunCompletes(settings: Settings, plan: ExecutionPlan)
    requires Accepted(settings, plan) && Permitted(settings.policies, plan.steps)
    requires settings.limits.maxEvents >= 2 * |plan.steps| + 4
    ensures Execute(settings, plan, {}) == Returned(CompletedRun(plan.steps))
  {
    AcceptedMeans(settings, plan);
    RunOutcome(settings, plan, {});
    NoCancel(2 * |plan.steps|, 0);
  }

  // Under default limits and policies every accepted plan completes when nobody cancels: at most 64 steps need at most
  // 132 of the 256 events, and no step meets a policy.
  lemma DefaultRunCompletes(plan: ExecutionPlan, enabledTools: Option<seq<string>>)
    requires Accepted(Settings(DEFAULT_EXECUTION_LIMITS, DEFAULT_POLICIES, enabledTools), plan)
    ensures DEFAULT_EXECUTION_LIMITS == ExecutionLimits(64, 256, 2_000)
    ensures DEFAULT_POLICIES == ExecutionPolicies(true, true, false)
    ensures var outcome := Execute(Settings(DEFAULT_EXECUTION_LIMITS, DEFAULT_POLICIES, enabledTools), plan, {});
            outcome == Returned(CompletedRun(plan.steps)) && |outcome.result.state.events| <= 132
  {
    AcceptedRunCompletes(Settings(DEFAULT_EXECUTION_LIMITS, DEFAULT_POLICIES, enabledTools), plan);
  }

  lemma PlannedRunCompletes(request: PlanningRequest, registryTools: seq<string>, enabledTools: Option<seq<string>>)
    requires PlanFor(request, registryTools, DEFAULT_LIMITS).Ok? && ServesRequest(enabledTools, request)
    ensures var settings := Settings(DEFAULT_EXECUTION_LIMITS, DEFAULT_POLICIES, enabledTools);
            var plan := PlanFor(request, registryTools, DEFAULT_LIMITS).value;
            Execute(settings, plan, {}) == Returned(CompletedRun(plan.steps))
  {
    PlannerPlansAreAccepted(request, registryTools, enabledTools);
    AcceptedRunCompletes(Settings(DEFAULT_EXECUTION_LIMITS, DEFAULT_POLICIES, enabledTools),
                         PlanFor(request, registryTools, DEFAULT_LIMITS).value);
  }

  lemma CompletedStepsByKind(tools: seq<string>)
    ensures var steps := StepsFor(tools);
            var state := CompletedRun(steps).state;
            && |state.events| == 2 * |steps| + 4 && |state.stepStates| == |steps|
            && forall i :: 0 <= i < |steps| ==>
                 state.stepStates[i].status == if tools == [] then StepCompleted else StepDeferred
  {
  }

  // A plan the planner returns under its default limits runs, uncancelled and under default policies, to
  // `succeeded`: every tool step deferred, every instruction step completed, 2 * steps + 4 events.
  lemma PlannedRunsSucceed(request: PlanningRequest, registryTools: seq<string>, enabledTools: Option<seq<string>>)
    requires PlanFor(request, registryTools, DEFAULT_LIMITS).Ok? && ServesRequest(enabledTools, request)
    ensures var settings := Settings(DEFAULT_EXECUTION_LIMITS, DEFAULT_POLICIES, enabledTools);
            var plan := PlanFor(request, registryTools, DEFAULT_LIMITS).value;
            var outcome := Execute(settings, plan, {});
            && outcome.Returned? && outcome.result.error.None? && outcome.result.state.status.Succeeded?
            && |outcome.result.state.events| == 2 * |plan.steps| + 4
            && |outcome.result.state.stepStates| == |plan.steps|
            && forall i :: 0 <= i < |plan.steps| ==>
                             outcome.result.state.stepStates[i].status ==
                             if request.requestedToolIds == [] then StepCompleted else StepDeferred
  {
    PlannedRunCompletes(request, registryTools, enabledTools);
    PlannerPlansAreAccepted(request, registryTools, enabledTools);
    CompletedStepsByKind(request.requestedToolIds);
  }
}

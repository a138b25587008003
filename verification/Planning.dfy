/**
 Plans, the deterministic planner that builds them, and the planner's own validators.
 Identifiers arrive already stripped and matched against the identifier pattern; JSON sizes are not modelled.
 */
module Planning {
  import opened Outcomes
  import Ordering

  datatype StepType = Instruction | Tool

  datatype PlanStep = PlanStep(
    stepId: string,
    order: nat,
    stepType: StepType,
    description: string,
    toolId: Option<string>,
    dependsOn: seq<string>)

  datatype PlanMetadata = PlanMetadata(availableToolIds: seq<string>, requestedToolIds: seq<string>)

  datatype ExecutionPlan = ExecutionPlan(
    runId: Uuid,
    userId: Uuid,
    task: string,
    steps: seq<PlanStep>,
    metadata: PlanMetadata)

  datatype PlanningLimits = PlanningLimits(
    maxTaskLength: nat, maxRequestedTools: nat, maxPlanSteps: nat, maxStepDescriptionLength: nat)

  const DEFAULT_LIMITS := PlanningLimits(20_000, 32, 64, 2_000)

  datatype PlanningRequest = PlanningRequest(runId: Uuid, userId: Uuid, task: string, requestedToolIds: seq<string>)

  datatype PlannerError = InvalidPlan | PlannerValidation | PlannerLimit

  // ---------- numbers in step identifiers ----------

  function Digit(d: nat): char
    requires d < 10
  {
    ('0' as int + d) as char
  }

  function Decimal(n: nat): string {
    if n < 10 then [Digit(n)] else Decimal(n / 10) + [Digit(n % 10)]
  }

  // format(n, "03d")
  function Padded3(n: nat): string {
    var digits := Decimal(n);
    if |digits| == 1 then "00" + digits else if |digits| == 2 then "0" + digits else digits
  }

  function StepIdOf(order: nat): string { "step-" + Padded3(order) }

  // Reads a decimal numeral back; leading zeros do not matter.
  function Numeral(s: string): int {
    if s == "" then 0 else 10 * Numeral(s[..|s| - 1]) + (s[|s| - 1] as int - '0' as int)
  }

  lemma {:induction false} NumeralOfDecimal(n: nat)
    ensures Numeral(Decimal(n)) == n
  {
    if n < 10 {
      assert Decimal(n)[..0] == "";
    } else {
      NumeralOfDecimal(n / 10);
      assert Decimal(n)[..|Decimal(n)| - 1] == Decimal(n / 10);
    }
  }

  lemma {:induction false} LeadingZero(s: string)
    ensures Numeral("0" + s) == Numeral(s)
  {
    if s == "" {
      assert ("0" + s)[..0] == "";
    } else {
      LeadingZero(s[..|s| - 1]);
      assert ("0" + s)[..|s|] == "0" + s[..|s| - 1];
    }
  }

  lemma StepIdReadsBack(n: nat)
    ensures |StepIdOf(n)| >= 5 && Numeral(StepIdOf(n)[5..]) == n
  {
    var digits := Decimal(n);
    NumeralOfDecimal(n);
    LeadingZero(digits);
    LeadingZero("0" + digits);
    assert "00" + digits == "0" + ("0" + digits);
    assert StepIdOf(n)[5..] == Padded3(n);
  }

  predicate IsDigit(c: char) { '0' <= c <= '9' }

  lemma {:induction false} DecimalIsNumeral(n: nat)
    ensures |Decimal(n)| >= 1 && forall i :: 0 <= i < |Decimal(n)| ==> IsDigit(Decimal(n)[i])
    ensures |Decimal(n)| > 1 ==> Decimal(n)[0] != '0'
    ensures |Decimal(n)| == 1 <==> n < 10
    ensures |Decimal(n)| <= 2 <==> n < 100
    ensures |Decimal(n)| <= 3 <==> n < 1000
    ensures n > 0 ==> Decimal(n)[0] != '0'
  {
    if n >= 10 {
      DecimalIsNumeral(n / 10);
    }
  }

  // What makes an identifier the one of step n: the prefix, then digits that read as n, at least three of them, and
  // more only without a leading zero.
  lemma StepIdFormat(n: nat)
    ensures var id := StepIdOf(n);
            && |id| >= 8 && id[..5] == "step-"
            && (forall i :: 5 <= i < |id| ==> IsDigit(id[i]))
            && Numeral(id[5..]) == n
            && (|id| == 8 <==> n < 1000)
            && (|id| > 8 ==> id[5] != '0')
  {
    DecimalIsNumeral(n);
    StepIdReadsBack(n);
    var digits := Padded3(n);
    assert forall i :: 0 <= i < |digits| ==> IsDigit(digits[i]);
    assert StepIdOf(n)[..5] == "step-";
    forall i | 5 <= i < |StepIdOf(n)| ensures IsDigit(StepIdOf(n)[i]) {
      assert StepIdOf(n)[i] == digits[i - 5];
    }
  }

  lemma StepIdsAreDistinct(m: nat, n: nat)
    requires StepIdOf(m) == StepIdOf(n)
    ensures m == n
  {
    StepIdReadsBack(m);
    StepIdReadsBack(n);
  }

  // ---------- validators ----------

  // PlanStep's own model validator.
  predicate IsPlanStep(step: PlanStep) {
    && step.order >= 1
    && 1 <= |step.description| <= 2_000
    && (step.stepType.Tool? <==> step.toolId.Some?)
    && step.stepId !in step.dependsOn
    && Distinct(step.dependsOn)
  }

  // `dependency` names a step that comes before `order`.
  predicate NamesEarlierStep(steps: seq<PlanStep>, dependency: string, order: nat) {
    exists i :: 0 <= i < |steps| && steps[i].stepId == dependency && steps[i].order < order
  }

  predicate DependenciesPrecede(steps: seq<PlanStep>) {
    forall i, d :: 0 <= i < |steps| && d in steps[i].dependsOn ==> NamesEarlierStep(steps, d, steps[i].order)
  }

  predicate StepIdsDistinct(steps: seq<PlanStep>) {
    forall i, j :: 0 <= i < j < |steps| ==> steps[i].stepId != steps[j].stepId
  }

  // Distinct orders that are, in some arrangement, 1..n.
  predicate OrdersAreContiguous(steps: seq<PlanStep>) {
    && (forall i, j :: 0 <= i < j < |steps| ==> steps[i].order != steps[j].order)
    && (forall i :: 0 <= i < |steps| ==> 1 <= steps[i].order <= |steps|)
  }

  // The steps are listed in order: step i has order i + 1.
  predicate OrdersArePositions(steps: seq<PlanStep>) {
    forall i :: 0 <= i < |steps| ==> steps[i].order == i + 1
  }

  // ExecutionPlan's own model validator.
  predicate IsExecutionPlan(plan: ExecutionPlan) {
    && 1 <= |plan.steps| <= 64
    && (forall i :: 0 <= i < |plan.steps| ==> IsPlanStep(plan.steps[i]))
    && Distinct(plan.metadata.availableToolIds)
    && Distinct(plan.metadata.requestedToolIds)
    && StepIdsDistinct(plan.steps)
    && OrdersAreContiguous(plan.steps)
    && DependenciesPrecede(plan.steps)
  }

  // The tools of the tool steps, in plan order.
  function ToolIds(steps: seq<PlanStep>): seq<string> {
    if steps == [] then []
    else
      var last := steps[|steps| - 1];
      ToolIds(steps[..|steps| - 1]) + (if last.stepType.Tool? && last.toolId.Some? then [last.toolId.value] else [])
  }

  // The first complaint of the per-step loop, from step i on.
  function FirstStepError(steps: seq<PlanStep>, available: seq<string>, maxDescription: nat, i: nat)
    : Option<PlannerError>
    requires i <= |steps|
    decreases |steps| - i
  {
    if i == |steps| then None
    else if |steps[i].description| > maxDescription then Some(PlannerLimit)
    else if steps[i].stepType.Tool? && (steps[i].toolId.None? || steps[i].toolId.value !in available) then
      Some(PlannerValidation)
    else FirstStepError(steps, available, maxDescription, i + 1)
  }

  // PlanningValidator.validate_plan_for_request
  function ValidatePlanForRequest(
    plan: ExecutionPlan, request: PlanningRequest, available: seq<string>, limits: PlanningLimits): Option<PlannerError>
  {
    if plan.runId != request.runId || plan.userId != request.userId || plan.task != request.task
      || plan.metadata.requestedToolIds != request.requestedToolIds then Some(PlannerValidation)
    else if |plan.steps| > limits.maxPlanSteps then Some(PlannerLimit)
    else
      var stepError := FirstStepError(plan.steps, available, limits.maxStepDescriptionLength, 0);
      if stepError.Some? then stepError
      else if ToolIds(plan.steps) != request.requestedToolIds then Some(PlannerValidation)
      else None
  }

  lemma {:induction false} NoStepErrorMeans(steps: seq<PlanStep>, available: seq<string>, maxDescription: nat, i: nat)
    requires i <= |steps|
    ensures FirstStepError(steps, available, maxDescription, i).None? <==>
            forall k :: i <= k < |steps| ==>
                          && |steps[k].description| <= maxDescription
                          && (steps[k].stepType.Tool? ==> steps[k].toolId.Some? && steps[k].toolId.value in available)
    decreases |steps| - i
  {
    if i < |steps| {
      NoStepErrorMeans(steps, available, maxDescription, i + 1);
    }
  }

  // A plan is accepted for a request exactly when it is for this run, user, task and tools, is within limits, and its
  // tool steps name available tools, and just the requested ones, in order.
  lemma AcceptedForRequestExactly(
    plan: ExecutionPlan, request: PlanningRequest, available: seq<string>, limits: PlanningLimits)
    ensures ValidatePlanForRequest(plan, request, available, limits).None? <==>
            && plan.runId == request.runId && plan.userId == request.userId && plan.task == request.task
            && plan.metadata.requestedToolIds == request.requestedToolIds
            && |plan.steps| <= limits.maxPlanSteps
            && (forall k :: 0 <= k < |plan.steps| ==> |plan.steps[k].description| <= limits.maxStepDescriptionLength)
            && (forall k :: 0 <= k < |plan.steps| && plan.steps[k].stepType == Tool ==>
                  plan.steps[k].toolId.Some? && plan.steps[k].toolId.value in available)
            && ToolIds(plan.steps) == request.requestedToolIds
  {
    NoStepErrorMeans(plan.steps, available, limits.maxStepDescriptionLength, 0);
  }

  // ---------- the planner ----------

  function Description(toolId: string): string {
    "Use registered tool contract '" + toolId + "' as a planned future action."
  }

  function ToolStep(toolId: string, order: nat): PlanStep {
    PlanStep(StepIdOf(order), order, Tool, Description(toolId), Some(toolId),
             if order <= 1 then [] else [StepIdOf(order - 1)])
  }

  const INSTRUCTION_STEP :=
    PlanStep("step-001", 1, Instruction, "Use the validated execution context to address the task.", None, [])

  function StepsFor(tools: seq<string>): seq<PlanStep> {
    if tools == [] then [INSTRUCTION_STEP] else seq(|tools|, i requires 0 <= i < |tools| => ToolStep(tools[i], i + 1))
  }

  lemma LongerPrefix<T>(s: seq<T>, n: nat)
    requires n < |s|
    ensures s[..n + 1] == s[..n] + [s[n]]
  {
  }

  // The planner's loop adds one step per tool.
  lemma StepsForSnoc(tools: seq<string>, index: nat)
    requires 1 <= index <= |tools|
    ensures StepsFor(tools)[..index] == StepsFor(tools)[..index - 1] + [ToolStep(tools[index - 1], index)]
  {
    LongerPrefix(StepsFor(tools), index - 1);
  }

  method BuildSteps(tools: seq<string>) returns (steps: seq<PlanStep>)
    ensures steps == StepsFor(tools)
  {
    if tools == [] {
      return [INSTRUCTION_STEP];
    }
    steps := [];
    for index := 1 to |tools| + 1
      invariant steps == StepsFor(tools)[..index - 1]
    {
      StepsForSnoc(tools, index);
      var tool := tools[index - 1];
      var stepId := StepIdOf(index);
      steps := steps + [
        PlanStep(stepId, index, Tool, Description(tool), Some(tool), if index == 1 then [] else [StepIdOf(index - 1)])];
    }
  }

  function BuiltPlan(request: PlanningRequest, registryTools: seq<string>): ExecutionPlan {
    ExecutionPlan(
      request.runId, request.userId, request.task, StepsFor(request.requestedToolIds),
      PlanMetadata(Ordering.Sort(Ordering.TextLeq, registryTools), request.requestedToolIds))
  }

  // The planner's result when each stage is a function of the request and the registry's enabled tools.
  function PlanFor(request: PlanningRequest, registryTools: seq<string>, limits: PlanningLimits)
    : Result<ExecutionPlan, PlannerError>
  {
    if |request.task| > limits.maxTaskLength || |request.requestedToolIds| > limits.maxRequestedTools then
      Err(PlannerLimit)
    else if exists i :: 0 <= i < |request.requestedToolIds| && request.requestedToolIds[i] !in registryTools then
      Err(PlannerValidation)
    else
      var plan := BuiltPlan(request, registryTools);
      if !IsExecutionPlan(plan) then Err(InvalidPlan)
      else
        match ValidatePlanForRequest(plan, request, registryTools, limits)
        case None => Ok(plan)
        case Some(error) => Err(error)
  }

  method Plan(request: PlanningRequest, registryTools: seq<string>, limits: PlanningLimits)
    returns (r: Result<ExecutionPlan, PlannerError>)
    ensures r == PlanFor(request, registryTools, limits)
  {
    if |request.task| > limits.maxTaskLength || |request.requestedToolIds| > limits.maxRequestedTools {
      return Err(PlannerLimit);
    }
    var available := Ordering.Sort(Ordering.TextLeq, registryTools);
    var resolved: seq<string> := [];
    for i := 0 to |request.requestedToolIds|
      invariant resolved == request.requestedToolIds[..i]
      invariant forall k :: 0 <= k < i ==> request.requestedToolIds[k] in registryTools
    {
      if request.requestedToolIds[i] !in registryTools {
        return Err(PlannerValidation);
      }
      resolved := resolved + [request.requestedToolIds[i]];
    }
    assert resolved == request.requestedToolIds;
    var steps := BuildSteps(resolved);
    var plan := ExecutionPlan(
      request.runId, request.userId, request.task, steps, PlanMetadata(available, request.requestedToolIds));
    if !IsExecutionPlan(plan) {
      return Err(InvalidPlan);
    }
    var checked := ValidatePlanForRequest(plan, request, registryTools, limits);
    match checked
    case None => return Ok(plan);
    case Some(error) => return Err(error);
  }

  // ---------- what the planner's steps are ----------

  lemma ToolIdsSnoc(steps: seq<PlanStep>, toolId: string, order: nat)
    ensures ToolIds(steps + [ToolStep(toolId, order)]) == ToolIds(steps) + [toolId]
  {
    assert (steps + [ToolStep(toolId, order)])[..|steps|] == steps;
  }

  // The tools of a plan, on any steps: they are listed piece by piece, and only a tool step with a tool lists one.
  lemma {:induction false} ToolIdsConcat(a: seq<PlanStep>, b: seq<PlanStep>)
    ensures ToolIds(a + b) == ToolIds(a) + ToolIds(b)
    decreases |b|
  {
    if b == [] {
      assert a + b == a;
    } else {
      assert (a + b)[..|a + b| - 1] == a + b[..|b| - 1];
      ToolIdsConcat(a, b[..|b| - 1]);
    }
  }

  lemma ToolIdsOfOne(step: PlanStep)
    ensures ToolIds([step]) == match step.toolId
                               case Some(tool) => if step.stepType == Tool then [tool] else []
                               case None => []
  {
    assert [step][..0] == [];
  }

  lemma {:induction false} ToolIdsOfToolSteps(tools: seq<string>, n: nat)
    requires tools != [] && n <= |tools|
    ensures ToolIds(StepsFor(tools)[..n]) == tools[..n]
  {
    if n > 0 {
      var steps := StepsFor(tools);
      ToolIdsOfToolSteps(tools, n - 1);
      ToolIdsSnoc(steps[..n - 1], tools[n - 1], n);
      LongerPrefix(steps, n - 1);
      LongerPrefix(tools, n - 1);
    }
  }

  lemma ToolIdsOfPlan(tools: seq<string>)
    ensures ToolIds(StepsFor(tools)) == tools
  {
    if tools != [] {
      ToolIdsOfToolSteps(tools, |tools|);
      assert StepsFor(tools)[..|tools|] == StepsFor(tools) && tools[..|tools|] == tools;
    } else {
      assert [INSTRUCTION_STEP][..0] == [];
    }
  }

  lemma ToolStepIsValid(toolId: string, order: nat)
    requires |toolId| <= 120 && order >= 1
    ensures IsPlanStep(ToolStep(toolId, order))
  {
    if order > 1 && StepIdOf(order - 1) == StepIdOf(order) {
      StepIdsAreDistinct(order - 1, order);
    }
  }

  lemma StepIdAt(tools: seq<string>, i: nat)
    requires i < |StepsFor(tools)|
    ensures StepsFor(tools)[i].stepId == StepIdOf(i + 1)
  {
  }

  lemma IdsByOrderAreDistinct(steps: seq<PlanStep>)
    requires forall i :: 0 <= i < |steps| ==> steps[i].stepId == StepIdOf(i + 1)
    ensures StepIdsDistinct(steps)
  {
    forall i, j | 0 <= i < j < |steps| ensures steps[i].stepId != steps[j].stepId {
      if steps[i].stepId == steps[j].stepId {
        StepIdsAreDistinct(i + 1, j + 1);
      }
    }
  }

  lemma BuiltIdsAreDistinct(tools: seq<string>)
    ensures StepIdsDistinct(StepsFor(tools))
  {
    forall i | 0 <= i < |StepsFor(tools)| ensures StepsFor(tools)[i].stepId == StepIdOf(i + 1) {
      StepIdAt(tools, i);
    }
    IdsByOrderAreDistinct(StepsFor(tools));
  }

  lemma BuiltDependenciesPrecede(tools: seq<string>)
    ensures DependenciesPrecede(StepsFor(tools))
  {
    var steps := StepsFor(tools);
    forall i, d | 0 <= i < |steps| && d in steps[i].dependsOn ensures NamesEarlierStep(steps, d, steps[i].order) {
      assert i > 0 && steps[i - 1].stepId == d;
    }
  }

  // The built steps one by one: a chain of tool steps in the order requested, each naming the step before it as its
  // only dependency, or the one instruction step.
  lemma BuiltStepsChain(tools: seq<string>)
    ensures var steps := StepsFor(tools);
            if tools == [] then
              && |steps| == 1 && steps[0].order == 1 && steps[0].stepType == Instruction && steps[0].toolId == None
              && steps[0].stepId == "step-001" && steps[0].dependsOn == []
              && steps[0].description == "Use the validated execution context to address the task."
            else
              && |steps| == |tools|
              && forall i :: 0 <= i < |steps| ==>
                   && steps[i].order == i + 1 && steps[i].stepType == Tool && steps[i].toolId == Some(tools[i])
                   && steps[i].dependsOn == (if i == 0 then [] else [steps[i - 1].stepId])
                   && steps[i].description ==
                      "Use registered tool contract '" + tools[i] + "' as a planned future action."
  {
    var steps := StepsFor(tools);
    forall i | 1 <= i < |steps| ensures steps[i].dependsOn == [steps[i - 1].stepId] {
      StepIdAt(tools, i - 1);
    }
  }

  lemma BuiltStepsAreValid(tools: seq<string>)
    requires forall i :: 0 <= i < |tools| ==> |tools[i]| <= 120
    ensures var steps := StepsFor(tools);
            && |steps| >= 1
            && (forall i :: 0 <= i < |steps| ==> IsPlanStep(steps[i]))
            && StepIdsDistinct(steps) && OrdersArePositions(steps) && DependenciesPrecede(steps)
  {
    BuiltIdsAreDistinct(tools);
    BuiltDependenciesPrecede(tools);
    forall i | 0 <= i < |tools| ensures IsPlanStep(ToolStep(tools[i], i + 1)) {
      ToolStepIsValid(tools[i], i + 1);
    }
  }

  lemma BuiltPlanIsValid(request: PlanningRequest, registryTools: seq<string>)
    requires Distinct(request.requestedToolIds) && Distinct(registryTools) && |request.requestedToolIds| <= 64
    requires forall i :: 0 <= i < |request.requestedToolIds| ==> |request.requestedToolIds[i]| <= 120
    ensures IsExecutionPlan(BuiltPlan(request, registryTools))
  {
    BuiltStepsAreValid(request.requestedToolIds);
    // registry identifiers are distinct dictionary keys, so they stay distinct when sorted
    Ordering.SortKeepsDistinct(Ordering.TextLeq, registryTools);
  }

  lemma BuiltStepsHaveNoError(tools: seq<string>, registryTools: seq<string>)
    requires forall i :: 0 <= i < |tools| ==> |tools[i]| <= 120 && tools[i] in registryTools
    ensures FirstStepError(StepsFor(tools), registryTools, 2_000, 0).None?
  {
    NoStepErrorMeans(StepsFor(tools), registryTools, 2_000, 0);
  }

  lemma BuiltPlanFitsRequest(request: PlanningRequest, registryTools: seq<string>)
    requires |request.requestedToolIds| <= 64
    requires forall i :: 0 <= i < |request.requestedToolIds| ==>
               |request.requestedToolIds[i]| <= 120 && request.requestedToolIds[i] in registryTools
    ensures ValidatePlanForRequest(BuiltPlan(request, registryTools), request, registryTools, DEFAULT_LIMITS).None?
  {
    ToolIdsOfPlan(request.requestedToolIds);
    BuiltStepsHaveNoError(request.requestedToolIds, registryTools);
  }

  // A request whose identifiers are well formed is planned exactly when its tools are available and within limits.
  lemma PlannerAcceptsExactly(request: PlanningRequest, registryTools: seq<string>)
    requires Distinct(request.requestedToolIds) && Distinct(registryTools)
    requires forall i :: 0 <= i < |request.requestedToolIds| ==> |request.requestedToolIds[i]| <= 120
    ensures PlanFor(request, registryTools, DEFAULT_LIMITS) ==
            if |request.task| > 20_000 || |request.requestedToolIds| > 32 then Err(PlannerLimit)
            else if exists i :: 0 <= i < |request.requestedToolIds|
                           && request.requestedToolIds[i] !in registryTools then
              Err(PlannerValidation)
            else Ok(BuiltPlan(request, registryTools))
  {
    if |request.requestedToolIds| <= 32 {
      BuiltPlanIsValid(request, registryTools);
      if forall i :: 0 <= i < |request.requestedToolIds| ==> request.requestedToolIds[i] in registryTools {
        BuiltPlanFitsRequest(request, registryTools);
      }
    }
  }
}

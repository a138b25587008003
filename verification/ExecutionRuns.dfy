/**
 What a whole executor run comes to, for every plan, every event limit and every schedule of cancel requests:
 an explicit description of the log and the step states, and the exact event budget.
 */
module ExecutionRuns {
  import opened Outcomes
  import opened Planning
  import opened Execution

  // ---------- the explicit description ----------

  // The event at position i of a run that has not been stopped.
  function LogEntry(steps: seq<PlanStep>, i: nat): ExecutionEvent
    requires i < 3 + 2 * |steps|
  {
    if i == 0 then ExecutionEvent(0, StatusReached(Requested), Requested, None)
    else if i == 1 then ExecutionEvent(1, StatusReached(Validating), Validating, None)
    else if i == 2 then ExecutionEvent(2, StatusReached(Running), Running, None)
    else
      var step := steps[(i - 3) / 2];
      ExecutionEvent(i, if (i - 3) % 2 == 0 then StepStarted else StepFinished(step.stepType.Tool?),
                     Running, Some(step.stepId))
  }

  function LogAfter(steps: seq<PlanStep>, k: nat): seq<ExecutionEvent>
    requires k <= |steps|
  {
    seq(3 + 2 * k, i requires 0 <= i < 3 + 2 * k => LogEntry(steps, i))
  }

  // The first k steps are done and the others are all in one state.
  function StatesAfter(steps: seq<PlanStep>, k: nat, rest: StepStatus, error: Option<ErrorCode>): seq<StepState> {
    seq(|steps|, i requires 0 <= i < |steps| =>
      if i < k then InitialStep(steps[i]).(status := DoneStatus(steps[i]))
      else InitialStep(steps[i]).(status := rest, error := error))
  }

  // A running lifecycle between two steps.
  function Midway(steps: seq<PlanStep>, k: nat, cancelled: bool): Lifecycle
    requires k <= |steps|
  {
    Lifecycle(Running, None, StatesAfter(steps, k, StepPending, None), LogAfter(steps, k), cancelled)
  }

  function StatusEvent(sequence: nat, status: ExecutionStatus): ExecutionEvent {
    ExecutionEvent(sequence, StatusReached(status), status, None)
  }

  function CancelledAfter(steps: seq<PlanStep>, k: nat): ExecutionResult
    requires k <= |steps|
  {
    ExecutionResult(
      Lifecycle(Cancelled, None, StatesAfter(steps, k, StepCancelled, Some(ExecutorCancelled)),
                LogAfter(steps, k) + [StatusEvent(3 + 2 * k, Cancelled)], true),
      Some(ExecutorCancelled))
  }

  function CompletedRun(steps: seq<PlanStep>): ExecutionResult {
    var n := |steps|;
    ExecutionResult(
      Midway(steps, n, false).(status := Succeeded,
                               events := LogAfter(steps, n) + [StatusEvent(3 + 2 * n, Succeeded)]),
      None)
  }

  // Succeeded, but the log was full: the last event is missing and the limit error is reported.
  function TruncatedRun(steps: seq<PlanStep>): ExecutionResult {
    ExecutionResult(Midway(steps, |steps|, false).(status := Succeeded), Some(ExecutorLimit))
  }

  function DeniedRun(steps: seq<PlanStep>): ExecutionResult {
    ExecutionResult(
      Lifecycle(Failed, None, StatesAfter(steps, 0, StepFailed, Some(ExecutorPolicy)),
                [StatusEvent(0, Requested), StatusEvent(1, Validating), StatusEvent(2, Failed)], false),
      Some(ExecutorPolicy))
  }

  // The first await point at or after `from` with a cancel request, or `awaits` if there is none.
  function FirstCancel(cancels: set<nat>, awaits: nat, from: nat): (a: nat)
    requires from <= awaits
    ensures from <= a <= awaits
    ensures a < awaits ==> a in cancels
    ensures forall b :: from <= b < a ==> b !in cancels
    decreases awaits - from
  {
    if from == awaits || from in cancels then from else FirstCancel(cancels, awaits, from + 1)
  }

  // How many steps are done when a cancel request at await point `at` is noticed.
  function StepsDoneAt(at: nat): nat { (at + 1) / 2 }

  function PredictedFrom(steps: seq<PlanStep>, maxEvents: nat, cancels: set<nat>, i: nat): Outcome
    requires i <= |steps|
  {
    var n := |steps|;
    var a := FirstCancel(cancels, 2 * n, 2 * i);
    if a < 2 * n then
      var k := StepsDoneAt(a);
      if maxEvents >= 2 * k + 4 then Returned(CancelledAfter(steps, k)) else Raised(ExecutorLimit)
    else if maxEvents >= 2 * n + 4 then Returned(CompletedRun(steps))
    else if maxEvents == 2 * n + 3 then Returned(TruncatedRun(steps))
    else Raised(ExecutorLimit)
  }

  function Predicted(settings: Settings, plan: ExecutionPlan, cancels: set<nat>): Outcome {
    var m := settings.limits.maxEvents;
    if Permitted(settings.policies, plan.steps) then PredictedFrom(plan.steps, m, cancels, 0)
    else if m >= 3 then Returned(DeniedRun(plan.steps))
    else Raised(ExecutorLimit)
  }

  // ---------- a step from one description to the next ----------

  lemma LogGrows(steps: seq<PlanStep>, k: nat)
    requires k < |steps|
    ensures LogAfter(steps, k + 1) == LogAfter(steps, k) + [LogEntry(steps, 3 + 2 * k), LogEntry(steps, 4 + 2 * k)]
    ensures LogEntry(steps, 3 + 2 * k) == ExecutionEvent(3 + 2 * k, StepStarted, Running, Some(steps[k].stepId))
    ensures LogEntry(steps, 4 + 2 * k) ==
            ExecutionEvent(4 + 2 * k, StepFinished(steps[k].stepType.Tool?), Running, Some(steps[k].stepId))
  {
    assert (2 * k) / 2 == k && (2 * k + 1) / 2 == k;
  }

  lemma StatesGrow(steps: seq<PlanStep>, k: nat)
    requires k < |steps|
    ensures var was := StatesAfter(steps, k, StepPending, None);
            StatesAfter(steps, k + 1, StepPending, None) ==
            was[k := was[k].(status := StepRunning, error := None)]
               [k := was[k].(status := DoneStatus(steps[k]), error := None)]
  {
  }

  lemma StepFromMidway(steps: seq<PlanStep>, k: nat, cancelled: bool, maxEvents: nat)
    requires k < |steps| && OrdersArePositions(steps)
    requires maxEvents >= 3 + 2 * k
    ensures var done := Progressed(Midway(steps, k, cancelled), maxEvents, steps[k]);
            if maxEvents >= 5 + 2 * k then done == Effect(Midway(steps, k + 1, cancelled), None)
            else
              && done.error == Some(ExecutorLimit) && done.state.status == Running
              && |done.state.events| == maxEvents && done.state.currentStepId == Some(steps[k].stepId)
              && done.state.stepStates[k].status == if maxEvents == 3 + 2 * k then StepRunning else DoneStatus(steps[k])
  {
    LogGrows(steps, k);
    StatesGrow(steps, k);
    var was := Midway(steps, k, cancelled);
    assert |was.events| == 3 + 2 * k;
    if maxEvents >= 5 + 2 * k {
      var states := was.stepStates;
      var first := Recorded(
        WithStepStatus(was.(currentStepId := Some(steps[k].stepId)), steps[k], StepRunning, None),
        maxEvents, StepStarted, Running, Some(steps[k].stepId));
      assert first.error.None?;
      assert first.state.events + [LogEntry(steps, 4 + 2 * k)] == LogAfter(steps, k + 1);
      var done := Progressed(was, maxEvents, steps[k]);
      assert done.state.events == LogAfter(steps, k + 1);
      assert done.state.stepStates == StatesAfter(steps, k + 1, StepPending, None);
    }
  }

  lemma FullLogRaises(l: Lifecycle, maxEvents: nat, code: ErrorCode)
    requires |l.events| >= maxEvents && !Terminal(l.status)
    requires (if code.ExecutorCancelled? then Cancelled else Failed) in AllowedTargets(l.status)
    ensures FailureOutcome(l, maxEvents, code) == Raised(ExecutorLimit)
  {
  }

  lemma CancelFromMidway(steps: seq<PlanStep>, k: nat, maxEvents: nat)
    requires k <= |steps| && maxEvents >= 3 + 2 * k
    ensures FailureOutcome(Midway(steps, k, true), maxEvents, ExecutorCancelled) ==
            if maxEvents >= 2 * k + 4 then Returned(CancelledAfter(steps, k)) else Raised(ExecutorLimit)
  {
    var l := Midway(steps, k, true);
    assert ClosedSteps(l.stepStates, true, ExecutorCancelled) ==
           StatesAfter(steps, k, StepCancelled, Some(ExecutorCancelled));
    assert |l.events| == 3 + 2 * k;
  }

  lemma FinishFromMidway(settings: Settings, steps: seq<PlanStep>)
    requires settings.limits.maxEvents >= 3 + 2 * |steps|
    ensures Finish(settings, Midway(steps, |steps|, false)) ==
            if settings.limits.maxEvents >= 2 * |steps| + 4 then Returned(CompletedRun(steps))
            else Returned(TruncatedRun(steps))
  {
    var n, l := |steps|, Midway(steps, |steps|, false);
    assert |l.events| == 3 + 2 * n;
    assert ClosedSteps(l.stepStates, false, ExecutorLimit) == l.stepStates;
  }

  // ---------- whole runs ----------

  // One turn of the step loop either reaches the next description or stops the run.
  lemma TurnOutcome(settings: Settings, plan: ExecutionPlan, i: nat, cancels: set<nat>)
    requires i < |plan.steps| && OrdersArePositions(plan.steps)
    requires settings.limits.maxEvents >= 3 + 2 * i
    ensures var m := settings.limits.maxEvents;
            var turn := Coordinated(settings, plan, Midway(plan.steps, i, false), i, cancels);
            if 2 * i in cancels then turn == Effect(Midway(plan.steps, i, true), Some(ExecutorCancelled))
            else if m < 5 + 2 * i then
              turn.error == Some(ExecutorLimit) && FailureOutcome(turn.state, m, ExecutorLimit) == Raised(ExecutorLimit)
            else if 2 * i + 1 in cancels then turn == Effect(Midway(plan.steps, i + 1, true), Some(ExecutorCancelled))
            else turn == Effect(Midway(plan.steps, i + 1, false), None)
  {
    var l, m := Midway(plan.steps, i, false), settings.limits.maxEvents;
    if 2 * i !in cancels {
      StepFromMidway(plan.steps, i, false, m);
      var done := Progressed(l, m, plan.steps[i]);
      if m < 5 + 2 * i {
        FullLogRaises(done.state, m, ExecutorLimit);
      }
    }
  }

  lemma PredictedStep(steps: seq<PlanStep>, maxEvents: nat, cancels: set<nat>, i: nat)
    requires i < |steps|
    ensures PredictedFrom(steps, maxEvents, cancels, i) ==
            if 2 * i in cancels then
              if maxEvents >= 2 * i + 4 then Returned(CancelledAfter(steps, i)) else Raised(ExecutorLimit)
            else if 2 * i + 1 in cancels then
              if maxEvents >= 2 * i + 6 then Returned(CancelledAfter(steps, i + 1)) else Raised(ExecutorLimit)
            else PredictedFrom(steps, maxEvents, cancels, i + 1)
  {
    assert StepsDoneAt(2 * i) == i && StepsDoneAt(2 * i + 1) == i + 1;
    assert FirstCancel(cancels, 2 * |steps|, 2 * i) ==
           if 2 * i in cancels then 2 * i
           else if 2 * i + 1 in cancels then 2 * i + 1
           else FirstCancel(cancels, 2 * |steps|, 2 * i + 2);
  }

  lemma PredictedWithFullLog(steps: seq<PlanStep>, maxEvents: nat, cancels: set<nat>, i: nat)
    requires i <= |steps| && maxEvents < 3 + 2 * i
    ensures PredictedFrom(steps, maxEvents, cancels, i) == Raised(ExecutorLimit)
  {
  }

  lemma {:induction false} StepLoopOutcome(settings: Settings, plan: ExecutionPlan, i: nat, cancels: set<nat>)
    requires i <= |plan.steps| && OrdersArePositions(plan.steps)
    requires settings.limits.maxEvents >= 3 + 2 * i
    ensures StepLoop(settings, plan, Midway(plan.steps, i, false), i, cancels) ==
            PredictedFrom(plan.steps, settings.limits.maxEvents, cancels, i)
    decreases |plan.steps| - i
  {
    var steps, m := plan.steps, settings.limits.maxEvents;
    if i == |steps| {
      FinishFromMidway(settings, steps);
    } else {
      TurnOutcome(settings, plan, i, cancels);
      PredictedStep(steps, m, cancels, i);
      if 2 * i in cancels {
        CancelFromMidway(steps, i, m);
      } else if m < 5 + 2 * i {
        PredictedWithFullLog(steps, m, cancels, i + 1);
      } else if 2 * i + 1 in cancels {
        CancelFromMidway(steps, i + 1, m);
      } else {
        StepLoopOutcome(settings, plan, i + 1, cancels);
      }
    }
  }

  lemma BeginOutcome(settings: Settings, plan: ExecutionPlan)
    requires settings.limits.maxEvents >= 1
    ensures var m := settings.limits.maxEvents;
            Begin(settings, plan) ==
            if m < 3 then Ended(Raised(ExecutorLimit))
            else if !Permitted(settings.policies, plan.steps) then Ended(Returned(DeniedRun(plan.steps)))
            else Waiting(Midway(plan.steps, 0, false), 0)
  {
    var m := settings.limits.maxEvents;
    var first := Fresh(plan);
    assert InitialSteps(plan.steps) == StatesAfter(plan.steps, 0, StepPending, None);
    var validating := Transitioned(first, m, Validating);
    assert ClosedSteps(first.stepStates, false, ExecutorPolicy) ==
           StatesAfter(plan.steps, 0, StepFailed, Some(ExecutorPolicy));
    assert LogAfter(plan.steps, 0) == [StatusEvent(0, Requested), StatusEvent(1, Validating), StatusEvent(2, Running)];
    if m == 1 {
      FullLogRaises(validating.state, m, ExecutorLimit);
    } else {
      assert validating.state.events == [StatusEvent(0, Requested), StatusEvent(1, Validating)];
      var running := Transitioned(validating.state, m, Running);
      if m == 2 {
        FullLogRaises(validating.state, m, ExecutorPolicy);
        FullLogRaises(running.state, m, ExecutorLimit);
      } else {
        assert running.state == Midway(plan.steps, 0, false);
        assert FailureOutcome(validating.state, m, ExecutorPolicy) == Returned(DeniedRun(plan.steps));
      }
    }
  }

  // Every run of a valid plan, described exactly.
  lemma RunOutcome(settings: Settings, plan: ExecutionPlan, cancels: set<nat>)
    requires settings.limits.maxEvents >= 1
    requires plan.steps != [] && OrdersArePositions(plan.steps)
    ensures RunPlan(settings, plan, cancels) == Predicted(settings, plan, cancels)
  {
    BeginOutcome(settings, plan);
    if settings.limits.maxEvents >= 3 && Permitted(settings.policies, plan.steps) {
      StepLoopOutcome(settings, plan, 0, cancels);
    }
  }

  lemma {:induction false} NoStepFaultMeans(plan: ExecutionPlan, limits: ExecutionLimits, i: nat)
    requires i <= |plan.steps|
    ensures FirstStepFault(plan, limits, i).None? <==>
            && (forall k :: i <= k < |plan.steps| ==> |plan.steps[k].description| <= limits.maxStepDescriptionLength)
            && (forall k, d :: i <= k < |plan.steps| && d in plan.steps[k].dependsOn ==>
                  NamesEarlierStep(plan.steps, d, plan.steps[k].order))
            && (forall k :: i <= k < |plan.steps| ==> ToolIsListed(plan.steps[k], plan.metadata.availableToolIds))
    decreases |plan.steps| - i
  {
    if i < |plan.steps| {
      NoStepFaultMeans(plan, limits, i + 1);
    }
  }

  lemma EarlierByPosition(steps: seq<PlanStep>)
    requires OrdersArePositions(steps)
    ensures forall i, d :: 0 <= i < |steps| ==>
              (NamesEarlierStep(steps, d, steps[i].order) <==> exists k :: 0 <= k < i && steps[k].stepId == d)
  {
    forall i, d | 0 <= i < |steps|
      ensures NamesEarlierStep(steps, d, steps[i].order) <==> exists k :: 0 <= k < i && steps[k].stepId == d
    {
      if NamesEarlierStep(steps, d, steps[i].order) {
        var k :| 0 <= k < |steps| && steps[k].stepId == d && steps[k].order < steps[i].order;
        assert k < i;
      }
      if exists k :: 0 <= k < i && steps[k].stepId == d {
        var k :| 0 <= k < i && steps[k].stepId == d;
        assert steps[k].order < steps[i].order;
      }
    }
  }

  lemma {:induction false} FaultKinds(plan: ExecutionPlan, limits: ExecutionLimits, i: nat)
    requires i <= |plan.steps|
    ensures FirstStepFault(plan, limits, i) in {None, Some(ExecutorValidation), Some(ExecutorLimit)}
    decreases |plan.steps| - i
  {
    if i < |plan.steps| {
      FaultKinds(plan, limits, i + 1);
    }
  }

  // A plan passes the executor's validator exactly when it has steps, not too many, with distinct identifiers, listed
  // in order, each short enough, depending on earlier steps only and, if it is a tool step, naming a listed tool; and
  // when its tools are the requested ones, in order.
  lemma ValidExactly(plan: ExecutionPlan, limits: ExecutionLimits)
    ensures ValidatePlan(plan, limits).None? <==>
            && 1 <= |plan.steps| <= limits.maxSteps
            && (forall i, j :: 0 <= i < j < |plan.steps| ==> plan.steps[i].stepId != plan.steps[j].stepId)
            && (forall i :: 0 <= i < |plan.steps| ==> plan.steps[i].order == i + 1)
            && (forall i :: 0 <= i < |plan.steps| ==> |plan.steps[i].description| <= limits.maxStepDescriptionLength)
            && (forall i, d :: 0 <= i < |plan.steps| && d in plan.steps[i].dependsOn ==>
                  exists k :: 0 <= k < i && plan.steps[k].stepId == d)
            && (forall i :: 0 <= i < |plan.steps| && plan.steps[i].stepType == Tool ==>
                  plan.steps[i].toolId.Some? && plan.steps[i].toolId.value in plan.metadata.availableToolIds)
            && ToolIds(plan.steps) == plan.metadata.requestedToolIds
    ensures ValidatePlan(plan, limits) in {None, Some(ExecutorValidation), Some(ExecutorLimit)}
  {
    NoStepFaultMeans(plan, limits, 0);
    if OrdersArePositions(plan.steps) {
      EarlierByPosition(plan.steps);
    }
    FaultKinds(plan, limits, 0);
  }

  // The registry check passes exactly when there is no registry or it enables the tool of every tool step.
  lemma RegisteredExactly(plan: ExecutionPlan, enabledTools: Option<seq<string>>)
    ensures ValidateRegistry(plan, enabledTools).None? <==>
            enabledTools == None ||
            forall i :: 0 <= i < |plan.steps| && plan.steps[i].stepType == Tool ==>
              plan.steps[i].toolId.Some? && plan.steps[i].toolId.value in enabledTools.value
    ensures ValidateRegistry(plan, enabledTools) in {None, Some(ExecutorValidation)}
  {
    assert enabledTools.Some? ==> forall i :: 0 <= i < |plan.steps| ==>
      (ToolIsListed(plan.steps[i], enabledTools.value) <==>
        (plan.steps[i].stepType == Tool ==>
          plan.steps[i].toolId.Some? && plan.steps[i].toolId.value in enabledTools.value));
  }

  // The executor has no policy against this step: an instruction where instructions are allowed, or a tool step
  // where tool steps are allowed and tools are not to be rejected.
  lemma PermittedExactly(policies: ExecutionPolicies, steps: seq<PlanStep>)
    ensures Permitted(policies, steps) <==>
            forall i :: 0 <= i < |steps| ==>
              if steps[i].stepType == Instruction then policies.allowInstructionSteps
              else policies.allowToolSteps && !policies.rejectTools
  {
    assert forall i :: 0 <= i < |steps| ==>
      (Denied(policies, steps[i]) <==>
        if steps[i].stepType == Instruction then !policies.allowInstructionSteps
        else !policies.allowToolSteps || policies.rejectTools);
  }

  // With room for three events, a valid plan is denied as a whole exactly when some step meets a policy against it,
  // whoever cancels it when.
  lemma DeniedExactly(settings: Settings, plan: ExecutionPlan, cancels: set<nat>)
    requires ValidatePlan(plan, settings.limits).None? && ValidateRegistry(plan, settings.enabledTools).None?
    requires settings.limits.maxEvents >= 3
    ensures Execute(settings, plan, cancels) == Returned(DeniedRun(plan.steps)) <==>
            exists i :: 0 <= i < |plan.steps| &&
              if plan.steps[i].stepType == Instruction then !settings.policies.allowInstructionSteps
              else !settings.policies.allowToolSteps || settings.policies.rejectTools
  {
    RunOutcome(settings, plan, cancels);
    PermittedExactly(settings.policies, plan.steps);
  }

  // ---------- the event budget ----------

  // The events a run needs when no limit is in its way.
  function EventsNeeded(settings: Settings, plan: ExecutionPlan, cancels: set<nat>): nat {
    if !Permitted(settings.policies, plan.steps) then 3
    else
      var a := FirstCancel(cancels, 2 * |plan.steps|, 0);
      2 * StepsDoneAt(a) + 4
  }

  predicate MeetsLimit(outcome: Outcome) {
    outcome == Raised(ExecutorLimit) || (outcome.Returned? && outcome.result.error == Some(ExecutorLimit))
  }

  // The limit is met exactly when the run needs more events than it may record; otherwise it records exactly
  // that many. One event short of an uncancelled run is the only case that still returns, as succeeded.
  lemma EventBudgetIsExact(settings: Settings, plan: ExecutionPlan, cancels: set<nat>)
    requires settings.limits.maxEvents >= 1
    requires plan.steps != [] && OrdersArePositions(plan.steps)
    ensures var m, needed := settings.limits.maxEvents, EventsNeeded(settings, plan, cancels);
            var outcome := RunPlan(settings, plan, cancels);
            && (MeetsLimit(outcome) <==> m < needed)
            && (m >= needed ==> outcome.Returned? && |outcome.result.state.events| == needed)
            && (outcome.Returned? && MeetsLimit(outcome) <==>
                  Permitted(settings.policies, plan.steps)
                  && FirstCancel(cancels, 2 * |plan.steps|, 0) == 2 * |plan.steps|
                  && m == needed - 1)
            && (outcome.Returned? && MeetsLimit(outcome) ==>
                  outcome.result.state.status.Succeeded? && |outcome.result.state.events| == m
                  && StatusReached(Succeeded) != outcome.result.state.events[m - 1].eventType)
    ensures EventsNeeded(settings, plan, cancels) <= 2 * |plan.steps| + 4
  {
    RunOutcome(settings, plan, cancels);
    assert StepsDoneAt(2 * |plan.steps|) == |plan.steps|;
  }

  // ---------- cancellation ----------

  // A prefix of k steps is done, each by its kind, and every later step is cancelled.
  predicate PrefixDoneRestCancelled(steps: seq<PlanStep>, states: seq<StepState>, k: nat) {
    && |states| == |steps|
    && (forall i :: 0 <= i < |steps| ==> states[i].stepId == steps[i].stepId)
    && (forall i :: 0 <= i < |steps| && i < k ==> states[i].status == DoneStatus(steps[i]))
    && (forall i :: k <= i < |steps| ==>
          states[i].status == StepCancelled && states[i].error == Some(ExecutorCancelled))
  }

  lemma CancelledRunsEndCancelled(settings: Settings, plan: ExecutionPlan, cancels: set<nat>, at: nat)
    requires plan.steps != [] && OrdersArePositions(plan.steps) && Permitted(settings.policies, plan.steps)
    requires settings.limits.maxEvents >= 2 * |plan.steps| + 4
    requires at in cancels && at < 2 * |plan.steps|
    ensures var outcome := RunPlan(settings, plan, cancels);
            && outcome.Returned? && outcome.result.state.status.Cancelled?
            && outcome.result.error == Some(ExecutorCancelled)
            && PrefixDoneRestCancelled(plan.steps, outcome.result.state.stepStates,
                                       StepsDoneAt(FirstCancel(cancels, 2 * |plan.steps|, 0)))
            && StepsDoneAt(FirstCancel(cancels, 2 * |plan.steps|, 0)) <= StepsDoneAt(at)
  {
    RunOutcome(settings, plan, cancels);
  }

  // ---------- dependencies ----------

  ghost predicate FinishedBefore(events: seq<ExecutionEvent>, stepId: string, j: nat) {
    exists i :: 0 <= i < j && i < |events| && events[i].eventType.StepFinished? && events[i].stepId == Some(stepId)
  }

  // Whenever a step starts, every step it depends on has already been completed or deferred.
  ghost predicate StartsFollowDependencies(steps: seq<PlanStep>, events: seq<ExecutionEvent>) {
    forall j, s, d :: 0 <= j < |events| && events[j].eventType.StepStarted?
      && 0 <= s < |steps| && events[j].stepId == Some(steps[s].stepId) && d in steps[s].dependsOn
      ==> FinishedBefore(events, d, j)
  }

  lemma LogFollowsDependencies(steps: seq<PlanStep>, k: nat)
    requires k <= |steps| && StepIdsDistinct(steps) && OrdersArePositions(steps) && DependenciesPrecede(steps)
    ensures StartsFollowDependencies(steps, LogAfter(steps, k))
  {
    var log := LogAfter(steps, k);
    forall j, s, d | 0 <= j < |log| && log[j].eventType.StepStarted?
      && 0 <= s < |steps| && log[j].stepId == Some(steps[s].stepId) && d in steps[s].dependsOn
      ensures FinishedBefore(log, d, j)
    {
      var own := (j - 3) / 2;
      assert log[j] == LogEntry(steps, j) && own == s;
      assert NamesEarlierStep(steps, d, steps[s].order);
      var e :| 0 <= e < |steps| && steps[e].stepId == d && steps[e].order < steps[s].order;
      assert (4 + 2 * e - 3) % 2 == 1 && (4 + 2 * e - 3) / 2 == e;
      assert log[4 + 2 * e] == LogEntry(steps, 4 + 2 * e);
    }
  }

  lemma MoreStatusEvents(steps: seq<PlanStep>, events: seq<ExecutionEvent>, e: ExecutionEvent)
    requires StartsFollowDependencies(steps, events) && !e.eventType.StepStarted?
    ensures StartsFollowDependencies(steps, events + [e])
  {
    var longer := events + [e];
    forall j, s, d | 0 <= j < |longer| && longer[j].eventType.StepStarted?
      && 0 <= s < |steps| && longer[j].stepId == Some(steps[s].stepId) && d in steps[s].dependsOn
      ensures FinishedBefore(longer, d, j)
    {
      assert FinishedBefore(events, d, j);
      var i :| 0 <= i < j && i < |events| && events[i].eventType.StepFinished? && events[i].stepId == Some(d);
      assert longer[i] == events[i];
    }
  }

  lemma PredictedLogsFollowDependencies(settings: Settings, plan: ExecutionPlan, cancels: set<nat>)
    requires StepIdsDistinct(plan.steps) && OrdersArePositions(plan.steps) && DependenciesPrecede(plan.steps)
    requires Predicted(settings, plan, cancels).Returned?
    ensures StartsFollowDependencies(plan.steps, Predicted(settings, plan, cancels).result.state.events)
  {
    var steps, n := plan.steps, |plan.steps|;
    if Permitted(settings.policies, steps) {
      var a := FirstCancel(cancels, 2 * n, 0);
      var k := StepsDoneAt(a);
      LogFollowsDependencies(steps, k);
      if a < 2 * n {
        MoreStatusEvents(steps, LogAfter(steps, k), StatusEvent(3 + 2 * k, Cancelled));
      } else {
        assert k == n;
        MoreStatusEvents(steps, LogAfter(steps, n), StatusEvent(3 + 2 * n, Succeeded));
      }
    }
  }

  lemma ReturnedLogsFollowDependencies(settings: Settings, plan: ExecutionPlan, cancels: set<nat>)
    requires settings.limits.maxEvents >= 1 && Execute(settings, plan, cancels).Returned?
    ensures StartsFollowDependencies(plan.steps, Execute(settings, plan, cancels).result.state.events)
  {
    var outcome := Execute(settings, plan, cancels);
    assert outcome == RunPlan(settings, plan, cancels);
    RunOutcome(settings, plan, cancels);
    assert DependenciesPrecede(plan.steps) by {
      NoStepFaultMeans(plan, settings.limits, 0);
    }
    PredictedLogsFollowDependencies(settings, plan, cancels);
  }

  // The log of a run, and its step states, on their own.
  predicate LogIsNumbered(events: seq<ExecutionEvent>) { forall i :: 0 <= i < |events| ==> events[i].sequence == i }

  predicate StatesFollow(states: seq<StepState>, steps: seq<PlanStep>) {
    && |states| == |steps|
    && (forall i :: 0 <= i < |steps| ==>
          states[i].stepId == steps[i].stepId && states[i].order == steps[i].order
          && states[i].toolId == steps[i].toolId)
  }

  lemma StatesAfterFollow(steps: seq<PlanStep>, k: nat, rest: StepStatus, error: Option<ErrorCode>)
    ensures StatesFollow(StatesAfter(steps, k, rest, error), steps)
  {
  }

  lemma LogAfterIsNumbered(steps: seq<PlanStep>, k: nat, status: ExecutionStatus)
    requires k <= |steps|
    ensures LogIsNumbered(LogAfter(steps, k)) && LogIsNumbered(LogAfter(steps, k) + [StatusEvent(3 + 2 * k, status)])
  {
    forall i | 0 <= i < 3 + 2 * k ensures LogAfter(steps, k)[i].sequence == i {
      assert LogAfter(steps, k)[i] == LogEntry(steps, i);
    }
  }

  lemma CoversWhen(state: Lifecycle, plan: ExecutionPlan, limits: ExecutionLimits)
    requires |state.events| <= limits.maxEvents
    requires LogIsNumbered(state.events) && StatesFollow(state.stepStates, plan.steps)
    ensures CoversPlan(state, plan, limits)
  {
  }

  lemma CancelledRunCovers(plan: ExecutionPlan, k: nat, limits: ExecutionLimits)
    requires k <= |plan.steps| && limits.maxEvents >= 2 * k + 4
    ensures CoversPlan(CancelledAfter(plan.steps, k).state, plan, limits)
  {
    StatesAfterFollow(plan.steps, k, StepCancelled, Some(ExecutorCancelled));
    LogAfterIsNumbered(plan.steps, k, Cancelled);
    CoversWhen(CancelledAfter(plan.steps, k).state, plan, limits);
  }

  lemma CompletedRunCovers(plan: ExecutionPlan, limits: ExecutionLimits)
    requires limits.maxEvents >= 2 * |plan.steps| + 4
    ensures CoversPlan(CompletedRun(plan.steps).state, plan, limits)
  {
    StatesAfterFollow(plan.steps, |plan.steps|, StepPending, None);
    LogAfterIsNumbered(plan.steps, |plan.steps|, Succeeded);
    CoversWhen(CompletedRun(plan.steps).state, plan, limits);
  }

  lemma TruncatedRunCovers(plan: ExecutionPlan, limits: ExecutionLimits)
    requires limits.maxEvents >= 2 * |plan.steps| + 3
    ensures CoversPlan(TruncatedRun(plan.steps).state, plan, limits)
  {
    StatesAfterFollow(plan.steps, |plan.steps|, StepPending, None);
    LogAfterIsNumbered(plan.steps, |plan.steps|, Succeeded);
    CoversWhen(TruncatedRun(plan.steps).state, plan, limits);
  }

  lemma DeniedRunCovers(plan: ExecutionPlan, limits: ExecutionLimits)
    requires limits.maxEvents >= 3
    ensures CoversPlan(DeniedRun(plan.steps).state, plan, limits)
  {
    StatesAfterFollow(plan.steps, 0, StepFailed, Some(ExecutorPolicy));
    CoversWhen(DeniedRun(plan.steps).state, plan, limits);
  }

  lemma PredictedCovers(settings: Settings, plan: ExecutionPlan, cancels: set<nat>)
    requires Predicted(settings, plan, cancels).Returned?
    ensures CoversPlan(Predicted(settings, plan, cancels).result.state, plan, settings.limits)
    ensures Terminal(Predicted(settings, plan, cancels).result.state.status)
  {
    var n, m := |plan.steps|, settings.limits.maxEvents;
    var a := FirstCancel(cancels, 2 * n, 0);
    if !Permitted(settings.policies, plan.steps) {
      DeniedRunCovers(plan, settings.limits);
    } else if a < 2 * n {
      CancelledRunCovers(plan, StepsDoneAt(a), settings.limits);
    } else if m >= 2 * n + 4 {
      CompletedRunCovers(plan, settings.limits);
    } else {
      TruncatedRunCovers(plan, settings.limits);
    }
  }

  // Whatever `execute` returns passes the executor's own check of its result.
  lemma ReturnedStatesCoverPlan(settings: Settings, plan: ExecutionPlan, cancels: set<nat>)
    requires settings.limits.maxEvents >= 1 && Execute(settings, plan, cancels).Returned?
    ensures CoversPlan(Execute(settings, plan, cancels).result.state, plan, settings.limits)
    ensures var state := Execute(settings, plan, cancels).result.state;
            && |state.events| <= settings.limits.maxEvents
            && (forall i :: 0 <= i < |state.events| ==> state.events[i].sequence == i)
            && |state.stepStates| == |plan.steps|
            && forall i :: 0 <= i < |plan.steps| ==>
                 && state.stepStates[i].stepId == plan.steps[i].stepId && state.stepStates[i].order == i + 1
                 && state.stepStates[i].toolId == plan.steps[i].toolId
    ensures Terminal(Execute(settings, plan, cancels).result.state.status)
  {
    RunOutcome(settings, plan, cancels);
    PredictedCovers(settings, plan, cancels);
  }
}

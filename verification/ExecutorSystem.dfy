/**
 Any number of executor runs in flight at once. Code between two awaits is atomic; at an await any other task may
 run: start an execution, resume one, cancel a run by its identifier, or have its own task killed.

 The point: each call comes to exactly what it would have come to alone, with its own cancel requests.
 */
module ExecutorSystem {
  import opened Outcomes
  import opened Planning
  import opened Execution
  import opened ExecutionRuns

  datatype CallPhase = Suspended(state: Lifecycle, at: nat) | Over(outcome: Outcome) | Killed

  // One call of `execute`, with the await points at which a cancel request for it was accepted so far.
  datatype Call = Call(plan: ExecutionPlan, phase: CallPhase, cancels: set<nat>, duplicate: bool)

  // `active` is the executor's dictionary of runs in flight; calls are named by fresh numbers.
  datatype System = System(active: map<Uuid, nat>, calls: map<nat, Call>)

  datatype Action =
    | ExecuteCall(id: nat, plan: ExecutionPlan)
    | ResumeCall(id: nat)
    | CancelRun(runId: Uuid)
    | KillCall(id: nat)

  const INITIAL := System(map[], map[])

  // The call is over and its run leaves the dictionary.
  function WithoutRun(s: System, id: nat, call: Call): System {
    System(s.active - {call.plan.runId}, s.calls[id := call])
  }

  function Started(settings: Settings, s: System, id: nat, plan: ExecutionPlan): System {
    var fault := ValidatePlan(plan, settings.limits);
    if fault.Some? then s.(calls := s.calls[id := Call(plan, Over(Raised(fault.value)), {}, false)])
    else if plan.runId in s.active then
      s.(calls := s.calls[id := Call(plan, Over(Raised(ExecutorValidation)), {}, true)])
    else
      var missing := ValidateRegistry(plan, settings.enabledTools);
      if missing.Some? then s.(calls := s.calls[id := Call(plan, Over(Raised(missing.value)), {}, false)])
      else
        match Begin(settings, plan)
        case Ended(outcome) => s.(calls := s.calls[id := Call(plan, Over(outcome), {}, false)])
        case Waiting(l, at) =>
          System(s.active[plan.runId := id], s.calls[id := Call(plan, Suspended(l, at), {}, false)])
  }

  // A suspended call can go on; this always holds of the calls a system reaches.
  predicate CanResume(call: Call) {
    && call.phase.Suspended?
    && OrdersArePositions(call.plan.steps)
    && |call.phase.state.stepStates| == |call.plan.steps|
    && call.phase.at < 2 * |call.plan.steps|
  }

  function Resumed(settings: Settings, s: System, id: nat): System
    requires id in s.calls && CanResume(s.calls[id])
  {
    var call := s.calls[id];
    match Resume(settings, call.plan, call.phase.state, call.phase.at)
    case Waiting(l, at) => s.(calls := s.calls[id := call.(phase := Suspended(l, at))])
    case Ended(outcome) => WithoutRun(s, id, call.(phase := Over(outcome)))
  }

  // The answer `cancel` gives for a run.
  predicate CancelReply(s: System, runId: Uuid) {
    && runId in s.active && s.active[runId] in s.calls
    && s.calls[s.active[runId]].phase.Suspended?
    && !Terminal(s.calls[s.active[runId]].phase.state.status)
  }

  function Cancelling(s: System, runId: Uuid): System {
    if !CancelReply(s, runId) then s
    else
      var id := s.active[runId];
      var call := s.calls[id];
      var flagged := call.phase.state.(cancellationRequested := true);
      s.(calls := s.calls[id := call.(phase := Suspended(flagged, call.phase.at),
                                      cancels := call.cancels + {call.phase.at})])
  }

  // An action that does not apply (a used call number, a call not suspended) changes nothing.
  function Next(settings: Settings, s: System, action: Action): System {
    match action
    case ExecuteCall(id, plan) => if id in s.calls then s else Started(settings, s, id, plan)
    case ResumeCall(id) => if id in s.calls && CanResume(s.calls[id]) then Resumed(settings, s, id) else s
    case CancelRun(runId) => Cancelling(s, runId)
    case KillCall(id) =>
      if id in s.calls && s.calls[id].phase.Suspended? then WithoutRun(s, id, s.calls[id].(phase := Killed)) else s
  }

  function Run(settings: Settings, s: System, actions: seq<Action>): System
    decreases |actions|
  {
    if actions == [] then s
    else Next(settings, Run(settings, s, actions[..|actions| - 1]), actions[|actions| - 1])
  }

  // ---------- the invariant ----------

  predicate Accepted(settings: Settings, plan: ExecutionPlan) {
    && ValidatePlan(plan, settings.limits).None?
    && ValidateRegistry(plan, settings.enabledTools).None?
  }

  predicate SuspendedAsAlone(settings: Settings, call: Call)
    requires call.phase.Suspended?
  {
    var steps, at, m := call.plan.steps, call.phase.at, settings.limits.maxEvents;
    && Accepted(settings, call.plan) && Permitted(settings.policies, steps)
    && at < 2 * |steps|
    && (forall c :: c in call.cancels ==> c == at)
    && m >= 3 + 2 * StepsDoneAt(at)
    && call.phase.state == Midway(steps, StepsDoneAt(at), at in call.cancels)
  }

  predicate AsAlone(settings: Settings, call: Call) {
    match call.phase
    case Suspended(_, _) => !call.duplicate && SuspendedAsAlone(settings, call)
    case Over(outcome) =>
      outcome == if call.duplicate then Raised(ExecutorValidation) else Execute(settings, call.plan, call.cancels)
    case Killed => true
  }

  predicate InFlight(call: Call, runId: Uuid) { call.phase.Suspended? && call.plan.runId == runId }

  predicate Holds(active: map<Uuid, nat>, runId: Uuid, id: nat) { runId in active && active[runId] == id }

  // The dictionary and the suspended calls name each other.
  ghost predicate Linked(s: System) {
    && (forall r :: r in s.active ==> s.active[r] in s.calls && InFlight(s.calls[s.active[r]], r))
    && (forall id :: id in s.calls && s.calls[id].phase.Suspended? ==> Holds(s.active, s.calls[id].plan.runId, id))
  }

  ghost predicate Inv(settings: Settings, s: System) {
    Linked(s) && (forall id :: id in s.calls ==> AsAlone(settings, s.calls[id]))
  }

  lemma AcceptedMeans(settings: Settings, plan: ExecutionPlan)
    requires Accepted(settings, plan)
    ensures plan.steps != [] && OrdersArePositions(plan.steps) && StepIdsDistinct(plan.steps)
    ensures forall cancels :: Execute(settings, plan, cancels) == RunPlan(settings, plan, cancels)
  {
  }

  lemma OnlyCancel(cancels: set<nat>, awaits: nat, at: nat, from: nat)
    requires from <= at < awaits && cancels == {at}
    ensures FirstCancel(cancels, awaits, from) == at
    decreases at - from
  {
    if from < at {
      OnlyCancel(cancels, awaits, at, from + 1);
    }
  }

  lemma NoCancel(awaits: nat, from: nat)
    requires from <= awaits
    ensures FirstCancel({}, awaits, from) == awaits
    decreases awaits - from
  {
  }

  // What resuming comes to, when that is where the call would be alone.
  predicate ResumesAsAlone(settings: Settings, call: Call)
    requires CanResume(call) && SuspendedAsAlone(settings, call)
  {
    match Resume(settings, call.plan, call.phase.state, call.phase.at)
    case Waiting(l, at) => at == call.phase.at + 1 && SuspendedAsAlone(settings, call.(phase := Suspended(l, at)))
    case Ended(outcome) => outcome == Execute(settings, call.plan, call.cancels)
  }

  lemma ResumeAfterCancel(settings: Settings, call: Call)
    requires CanResume(call) && SuspendedAsAlone(settings, call) && call.phase.at in call.cancels
    ensures ResumesAsAlone(settings, call)
  {
    var plan, at := call.plan, call.phase.at;
    AcceptedMeans(settings, plan);
    RunOutcome(settings, plan, call.cancels);
    assert call.cancels == {at};
    OnlyCancel(call.cancels, 2 * |plan.steps|, at, 0);
    CancelFromMidway(plan.steps, StepsDoneAt(at), settings.limits.maxEvents);
  }

  // The step fits: the call moves on to the await after it.
  lemma ResumeIntoStep(settings: Settings, call: Call)
    requires CanResume(call) && SuspendedAsAlone(settings, call) && call.cancels == {} && call.phase.at % 2 == 0
    requires settings.limits.maxEvents >= 5 + 2 * StepsDoneAt(call.phase.at)
    ensures ResumesAsAlone(settings, call)
  {
    var at := call.phase.at;
    assert at / 2 == StepsDoneAt(at) && StepsDoneAt(at + 1) == StepsDoneAt(at) + 1;
    StepFromMidway(call.plan.steps, StepsDoneAt(at), false, settings.limits.maxEvents);
  }

  lemma FullLogAlone(settings: Settings, plan: ExecutionPlan, k: nat)
    requires Accepted(settings, plan) && Permitted(settings.policies, plan.steps)
    requires k < |plan.steps| && 1 <= settings.limits.maxEvents < 5 + 2 * k
    ensures Execute(settings, plan, {}) == Raised(ExecutorLimit)
  {
    AcceptedMeans(settings, plan);
    RunOutcome(settings, plan, {});
    NoCancel(2 * |plan.steps|, 0);
  }

  // The log fills up during the step: the call raises, as it would alone.
  lemma ResumeIntoFullLog(settings: Settings, call: Call)
    requires CanResume(call) && SuspendedAsAlone(settings, call) && call.cancels == {} && call.phase.at % 2 == 0
    requires settings.limits.maxEvents < 5 + 2 * StepsDoneAt(call.phase.at)
    ensures ResumesAsAlone(settings, call)
  {
    var plan, at, m := call.plan, call.phase.at, settings.limits.maxEvents;
    var steps, k := plan.steps, StepsDoneAt(at);
    assert at / 2 == k;
    StepFromMidway(steps, k, false, m);
    FullLogRaises(Progressed(call.phase.state, m, steps[k]).state, m, ExecutorLimit);
    FullLogAlone(settings, plan, k);
  }

  lemma ResumeAfterStep(settings: Settings, call: Call)
    requires CanResume(call) && SuspendedAsAlone(settings, call) && call.cancels == {} && call.phase.at % 2 == 1
    ensures ResumesAsAlone(settings, call)
  {
    var plan, at := call.plan, call.phase.at;
    var steps := plan.steps;
    if at + 1 < 2 * |steps| {
      assert StepsDoneAt(at + 1) == StepsDoneAt(at);
    } else {
      AcceptedMeans(settings, plan);
      RunOutcome(settings, plan, {});
      NoCancel(2 * |steps|, 0);
      assert StepsDoneAt(at) == |steps|;
      FinishFromMidway(settings, steps);
    }
  }

  // Resuming a call that is where it would be alone leaves it where it would be alone.
  lemma ResumeAsAlone(settings: Settings, call: Call)
    requires call.phase.Suspended? && SuspendedAsAlone(settings, call)
    ensures CanResume(call) && ResumesAsAlone(settings, call)
  {
    AcceptedMeans(settings, call.plan);
    if call.phase.at in call.cancels {
      ResumeAfterCancel(settings, call);
    } else {
      assert call.cancels == {};
      if call.phase.at % 2 == 1 {
        ResumeAfterStep(settings, call);
      } else if settings.limits.maxEvents >= 5 + 2 * StepsDoneAt(call.phase.at) {
        ResumeIntoStep(settings, call);
      } else {
        ResumeIntoFullLog(settings, call);
      }
    }
  }

  lemma AddingOverCallKeepsInv(settings: Settings, s: System, id: nat, call: Call)
    requires Inv(settings, s) && id !in s.calls && call.phase.Over? && AsAlone(settings, call)
    ensures Inv(settings, s.(calls := s.calls[id := call]))
  {
  }

  lemma AddingSuspendedCallKeepsInv(settings: Settings, s: System, id: nat, call: Call)
    requires Inv(settings, s) && id !in s.calls && call.plan.runId !in s.active
    requires call.phase.Suspended? && AsAlone(settings, call)
    ensures Inv(settings, System(s.active[call.plan.runId := id], s.calls[id := call]))
  {
  }

  // A call of an accepted plan begins where it would begin alone.
  lemma BeginAsAlone(settings: Settings, plan: ExecutionPlan)
    requires settings.limits.maxEvents >= 1 && Accepted(settings, plan)
    ensures match Begin(settings, plan)
            case Ended(outcome) => AsAlone(settings, Call(plan, Over(outcome), {}, false))
            case Waiting(l, at) => AsAlone(settings, Call(plan, Suspended(l, at), {}, false))
  {
    AcceptedMeans(settings, plan);
    BeginOutcome(settings, plan);
  }

  lemma StartAsAlone(settings: Settings, s: System, id: nat, plan: ExecutionPlan)
    requires settings.limits.maxEvents >= 1 && Inv(settings, s) && id !in s.calls
    ensures Inv(settings, Started(settings, s, id, plan))
  {
    var s' := Started(settings, s, id, plan);
    if Accepted(settings, plan) && plan.runId !in s.active {
      BeginAsAlone(settings, plan);
      if s'.calls[id].phase.Suspended? {
        AddingSuspendedCallKeepsInv(settings, s, id, s'.calls[id]);
      } else {
        AddingOverCallKeepsInv(settings, s, id, s'.calls[id]);
      }
    } else {
      AddingOverCallKeepsInv(settings, s, id, s'.calls[id]);
    }
  }

  lemma MovingOnKeepsInv(settings: Settings, s: System, id: nat, call: Call)
    requires Inv(settings, s) && id in s.calls && s.calls[id].phase.Suspended?
    requires call.plan == s.calls[id].plan && call.phase.Suspended? && AsAlone(settings, call)
    ensures Inv(settings, s.(calls := s.calls[id := call]))
  {
  }

  lemma EndingKeepsInv(settings: Settings, s: System, id: nat, call: Call)
    requires Inv(settings, s) && id in s.calls && s.calls[id].phase.Suspended?
    requires call.plan == s.calls[id].plan && !call.phase.Suspended? && AsAlone(settings, call)
    ensures Inv(settings, WithoutRun(s, id, call))
  {
    assert Holds(s.active, call.plan.runId, id);
  }

  lemma CancellingKeepsInv(settings: Settings, s: System, runId: Uuid)
    requires Inv(settings, s)
    ensures Inv(settings, Cancelling(s, runId))
  {
    if CancelReply(s, runId) {
      var id := s.active[runId];
      var call := s.calls[id];
      var flagged := call.(phase := Suspended(call.phase.state.(cancellationRequested := true), call.phase.at),
                           cancels := call.cancels + {call.phase.at});
      assert AsAlone(settings, call);
      MovingOnKeepsInv(settings, s, id, flagged);
    }
  }

  lemma ResumingKeepsInv(settings: Settings, s: System, id: nat)
    requires settings.limits.maxEvents >= 1 && Inv(settings, s) && id in s.calls && CanResume(s.calls[id])
    ensures Inv(settings, Resumed(settings, s, id))
  {
    var call := s.calls[id];
    assert AsAlone(settings, call);
    ResumeAsAlone(settings, call);
    match Resume(settings, call.plan, call.phase.state, call.phase.at)
    case Waiting(l, at) => MovingOnKeepsInv(settings, s, id, call.(phase := Suspended(l, at)));
    case Ended(outcome) => EndingKeepsInv(settings, s, id, call.(phase := Over(outcome)));
  }

  lemma NextKeepsInv(settings: Settings, s: System, action: Action)
    requires settings.limits.maxEvents >= 1 && Inv(settings, s)
    ensures Inv(settings, Next(settings, s, action))
  {
    match action
    case ExecuteCall(id, plan) =>
      if id !in s.calls {
        StartAsAlone(settings, s, id, plan);
      }
    case ResumeCall(id) =>
      if id in s.calls && CanResume(s.calls[id]) {
        ResumingKeepsInv(settings, s, id);
      }
    case CancelRun(runId) => CancellingKeepsInv(settings, s, runId);
    case KillCall(id) =>
      if id in s.calls && s.calls[id].phase.Suspended? {
        EndingKeepsInv(settings, s, id, s.calls[id].(phase := Killed));
      }
  }

  lemma {:induction false} RunKeepsInv(settings: Settings, s: System, actions: seq<Action>)
    requires settings.limits.maxEvents >= 1 && Inv(settings, s)
    ensures Inv(settings, Run(settings, s, actions))
    decreases |actions|
  {
    if actions != [] {
      RunKeepsInv(settings, s, actions[..|actions| - 1]);
      NextKeepsInv(settings, Run(settings, s, actions[..|actions| - 1]), actions[|actions| - 1]);
    }
  }

  // ---------- what holds of every run of the system ----------

  // Isolation: whatever else happened meanwhile, a call that is over came to what it comes to alone.
  lemma EveryCallEndsAsAlone(settings: Settings, actions: seq<Action>, id: nat)
    requires settings.limits.maxEvents >= 1
    requires var s := Run(settings, INITIAL, actions); id in s.calls && s.calls[id].phase.Over?
    ensures var call := Run(settings, INITIAL, actions).calls[id];
            call.phase.outcome ==
            if call.duplicate then Raised(ExecutorValidation) else Execute(settings, call.plan, call.cancels)
  {
    RunKeepsInv(settings, INITIAL, actions);
    assert AsAlone(settings, Run(settings, INITIAL, actions).calls[id]);
  }

  // What no later action changes about a call, and what a call that is over keeps for good.
  predicate Continues(before: Call, after: Call) {
    && after.plan == before.plan && after.duplicate == before.duplicate && before.cancels <= after.cancels
    && (before.phase.Over? ==> after == before)
  }

  lemma {:induction false} CallsContinue(settings: Settings, s: System, actions: seq<Action>, id: nat)
    requires id in s.calls
    ensures id in Run(settings, s, actions).calls && Continues(s.calls[id], Run(settings, s, actions).calls[id])
    decreases |actions|
  {
    if actions != [] {
      CallsContinue(settings, s, actions[..|actions| - 1], id);
    }
  }

  lemma {:induction false} RunConcat(settings: Settings, s: System, a: seq<Action>, b: seq<Action>)
    ensures Run(settings, s, a + b) == Run(settings, Run(settings, s, a), b)
    decreases |b|
  {
    if b == [] {
      assert a + b == a;
    } else {
      assert (a + b)[..|a + b| - 1] == a + b[..|b| - 1];
      RunConcat(settings, s, a, b[..|b| - 1]);
    }
  }

  // What a run comes to when a cancel request is noticed after k steps: a prefix of k steps is done and every later
  // step is cancelled, or the final event no longer fits.
  predicate StopsAfter(steps: seq<PlanStep>, maxEvents: nat, k: nat, outcome: Outcome) {
    && k <= |steps|
    && outcome == (if maxEvents >= 2 * k + 4 then Returned(CancelledAfter(steps, k)) else Raised(ExecutorLimit))
    && (outcome.Returned? ==>
          && outcome.result.state.status.Cancelled? && outcome.result.error == Some(ExecutorCancelled)
          && PrefixDoneRestCancelled(steps, outcome.result.state.stepStates, k))
  }

  lemma CancelledRunStops(settings: Settings, plan: ExecutionPlan, cancels: set<nat>, at: nat) returns (k: nat)
    requires settings.limits.maxEvents >= 1 && Accepted(settings, plan) && Permitted(settings.policies, plan.steps)
    requires at in cancels && at < 2 * |plan.steps|
    ensures StopsAfter(plan.steps, settings.limits.maxEvents, k, Execute(settings, plan, cancels))
  {
    AcceptedMeans(settings, plan);
    RunOutcome(settings, plan, cancels);
    k := StepsDoneAt(FirstCancel(cancels, 2 * |plan.steps|, 0));
  }

  lemma RunSnoc(settings: Settings, s: System, actions: seq<Action>, action: Action)
    ensures Run(settings, s, actions + [action]) == Next(settings, Run(settings, s, actions), action)
  {
    assert (actions + [action])[..|actions|] == actions;
  }

  lemma InFlightMeans(settings: Settings, s: System, runId: Uuid)
    requires Inv(settings, s) && runId in s.active
    ensures s.active[runId] in s.calls
    ensures var call := s.calls[s.active[runId]];
            && call.phase.Suspended? && call.plan.runId == runId && !call.duplicate
            && call.phase.at < 2 * |call.plan.steps|
            && Accepted(settings, call.plan) && Permitted(settings.policies, call.plan.steps)
  {
    assert InFlight(s.calls[s.active[runId]], runId) && AsAlone(settings, s.calls[s.active[runId]]);
  }

  // The call a cancel request was for, after that request and whatever follows it.
  lemma AfterCancel(settings: Settings, before: seq<Action>, runId: Uuid, afterwards: seq<Action>) returns (at: nat)
    requires settings.limits.maxEvents >= 1 && CancelReply(Run(settings, INITIAL, before), runId)
    ensures var id := Run(settings, INITIAL, before).active[runId];
            var s := Run(settings, INITIAL, before + [CancelRun(runId)] + afterwards);
            && id in s.calls && s.calls[id].plan.runId == runId && !s.calls[id].duplicate
            && at in s.calls[id].cancels && at < 2 * |s.calls[id].plan.steps|
            && Accepted(settings, s.calls[id].plan) && Permitted(settings.policies, s.calls[id].plan.steps)
  {
    var s0 := Run(settings, INITIAL, before);
    RunKeepsInv(settings, INITIAL, before);
    InFlightMeans(settings, s0, runId);
    at := s0.calls[s0.active[runId]].phase.at;
    RunSnoc(settings, INITIAL, before, CancelRun(runId));
    RunConcat(settings, INITIAL, before + [CancelRun(runId)], afterwards);
    CallsContinue(settings, Cancelling(s0, runId), afterwards, s0.active[runId]);
  }

  // Cancellation: once `cancel` has answered True for a run, the call it was running can only end cancelled,
  // with a prefix of its steps done and every later step cancelled, or raise because the log is full; it never
  // succeeds, whatever the limit and whatever happens before and afterwards.
  lemma AcceptedCancelIsHonoured(settings: Settings, before: seq<Action>, runId: Uuid, afterwards: seq<Action>)
    requires settings.limits.maxEvents >= 1
    requires CancelReply(Run(settings, INITIAL, before), runId)
    ensures var id := Run(settings, INITIAL, before).active[runId];
            var s := Run(settings, INITIAL, before + [CancelRun(runId)] + afterwards);
            && id in s.calls && s.calls[id].plan.runId == runId
            && (s.calls[id].phase.Over? ==>
                  exists k: nat ::
                    StopsAfter(s.calls[id].plan.steps, settings.limits.maxEvents, k, s.calls[id].phase.outcome))
  {
    var actions := before + [CancelRun(runId)] + afterwards;
    var at := AfterCancel(settings, before, runId, afterwards);
    var call := Run(settings, INITIAL, actions).calls[Run(settings, INITIAL, before).active[runId]];
    if call.phase.Over? {
      EveryCallEndsAsAlone(settings, actions, Run(settings, INITIAL, before).active[runId]);
      var k := CancelledRunStops(settings, call.plan, call.cancels, at);
    }
  }

  // And it ends with its next resumption.
  lemma CancelEndsNextResumption(settings: Settings, s: System, runId: Uuid)
    requires Inv(settings, s) && CancelReply(s, runId)
    ensures var s' := Next(settings, Next(settings, s, CancelRun(runId)), ResumeCall(s.active[runId]));
            s.active[runId] in s'.calls && s'.calls[s.active[runId]].phase.Over? && runId !in s'.active
  {
    InFlightMeans(settings, s, runId);
    ResumeAsAlone(settings, s.calls[s.active[runId]]);
  }

  // The call an action is about, if any.
  function Target(s: System, action: Action): Option<nat> {
    match action
    case ExecuteCall(id, _) => Some(id)
    case ResumeCall(id) => Some(id)
    case CancelRun(runId) => if runId in s.active then Some(s.active[runId]) else None
    case KillCall(id) => Some(id)
  }

  lemma StartedOnlyAdds(settings: Settings, s: System, id: nat, plan: ExecutionPlan)
    ensures var s' := Started(settings, s, id, plan);
            && id in s'.calls && s'.calls == s.calls[id := s'.calls[id]]
            && (s'.active == s.active || (plan.runId !in s.active && s'.active == s.active[plan.runId := id]))
  {
  }

  lemma ResumedOnlyMoves(settings: Settings, s: System, id: nat)
    requires id in s.calls && CanResume(s.calls[id])
    ensures var s' := Resumed(settings, s, id);
            && id in s'.calls && s'.calls == s.calls[id := s'.calls[id]]
            && (s'.active == s.active || s'.active == s.active - {s.calls[id].plan.runId})
  {
  }

  // Every other call, and its place in the dictionary, is untouched by an action.
  lemma OthersAreUntouched(settings: Settings, s: System, action: Action, id: nat)
    requires Linked(s) && id in s.calls && Target(s, action) != Some(id)
    ensures var s' := Next(settings, s, action);
            id in s'.calls && s'.calls[id] == s.calls[id]
            && (s.calls[id].phase.Suspended? ==> Holds(s'.active, s.calls[id].plan.runId, id))
  {
    if s.calls[id].phase.Suspended? {
      assert Holds(s.active, s.calls[id].plan.runId, id);
    }
    match action
    case ExecuteCall(i, plan) => StartedOnlyAdds(settings, s, i, plan);
    case ResumeCall(i) =>
      if i in s.calls && CanResume(s.calls[i]) {
        ResumedOnlyMoves(settings, s, i);
        assert Holds(s.active, s.calls[i].plan.runId, i);
      }
    case CancelRun(_) =>
    case KillCall(i) =>
      if i in s.calls && s.calls[i].phase.Suspended? {
        assert Holds(s.active, s.calls[i].plan.runId, i);
      }
  }

  // A second `execute` for a run in flight is refused and leaves the first in its place.
  lemma DuplicateNeverEvicts(settings: Settings, s: System, id: nat, plan: ExecutionPlan)
    requires Linked(s) && id !in s.calls && plan.runId in s.active
    ensures var s' := Next(settings, s, ExecuteCall(id, plan));
            && s'.active == s.active
            && s'.calls[id].phase.Over? && s'.calls[id].phase.outcome.Raised?
            && s'.calls[s.active[plan.runId]] == s.calls[s.active[plan.runId]]
            && s'.calls[s.active[plan.runId]].phase.Suspended?
  {
    assert InFlight(s.calls[s.active[plan.runId]], plan.runId);
  }

  function CountResumes(actions: seq<Action>, id: nat): nat {
    if actions == [] then 0
    else CountResumes(actions[..|actions| - 1], id) + (if actions[|actions| - 1] == ResumeCall(id) then 1 else 0)
  }

  // How a new call begins, whatever runs are in flight: it is a duplicate exactly when its plan is valid and its run is
  // in flight; it comes to wait, under its run's identifier, exactly when plan and registry are accepted, its run is
  // not in flight, no policy is met and three events fit; and otherwise it is over at once, with the outcome it has
  // alone.
  lemma StartsExactly(settings: Settings, before: seq<Action>, id: nat, plan: ExecutionPlan)
    requires settings.limits.maxEvents >= 1 && id !in Run(settings, INITIAL, before).calls
    ensures var s := Run(settings, INITIAL, before);
            var s' := Next(settings, s, ExecuteCall(id, plan));
            && id in s'.calls && s'.calls[id].plan == plan && s'.calls[id].cancels == {}
            && (s'.calls[id].duplicate <==> ValidatePlan(plan, settings.limits).None? && plan.runId in s.active)
            && (s'.calls[id].phase.Suspended? <==>
                  && Accepted(settings, plan) && plan.runId !in s.active
                  && Permitted(settings.policies, plan.steps) && settings.limits.maxEvents >= 3)
            && (if s'.calls[id].phase.Suspended? then
                  s'.calls[id].phase.at == 0 && s'.active == s.active[plan.runId := id]
                else
                  && s'.active == s.active
                  && s'.calls[id].phase ==
                     Over(if s'.calls[id].duplicate then Raised(ExecutorValidation) else Execute(settings, plan, {})))
  {
    if Accepted(settings, plan) {
      AcceptedMeans(settings, plan);
      BeginOutcome(settings, plan);
    }
  }

  // Killing the task of a waiting call ends it and frees its run's place.
  lemma KillFrees(settings: Settings, s: System, id: nat)
    requires Linked(s) && id in s.calls && s.calls[id].phase.Suspended?
    ensures var s' := Next(settings, s, KillCall(id));
            && id in s'.calls && s'.calls[id].phase == Killed
            && s.calls[id].plan.runId in s.active && s'.active == s.active - {s.calls[id].plan.runId}
  {
    assert Holds(s.active, s.calls[id].plan.runId, id);
  }

  // No action moves a suspended call except its own resumption, which moves it one await point on.
  predicate MovesOn(before: Call, after: Call, resumed: bool) {
    after.phase.Suspended? ==>
      && before.phase.Suspended? && after.plan == before.plan
      && after.phase.at == before.phase.at + (if resumed then 1 else 0)
  }

  lemma ActionMovesOn(settings: Settings, s: System, action: Action, id: nat)
    requires id in s.calls
    requires s.calls[id].phase.Suspended? ==> CanResume(s.calls[id])
    ensures id in Next(settings, s, action).calls
    ensures MovesOn(s.calls[id], Next(settings, s, action).calls[id], action == ResumeCall(id))
  {
    match action
    case ExecuteCall(_, _) =>
    case ResumeCall(i) =>
      if i in s.calls && CanResume(s.calls[i]) {
        var call := s.calls[i];
        var phase := Resume(settings, call.plan, call.phase.state, call.phase.at);
        assert phase.Waiting? ==> phase.at == call.phase.at + 1;
      }
    case CancelRun(_) =>
    case KillCall(_) =>
  }

  lemma SuspendedCanResume(settings: Settings, s: System, actions: seq<Action>, id: nat)
    requires settings.limits.maxEvents >= 1 && Inv(settings, s) && id in Run(settings, s, actions).calls
    ensures var call := Run(settings, s, actions).calls[id]; call.phase.Suspended? ==> CanResume(call)
  {
    RunKeepsInv(settings, s, actions);
    var call := Run(settings, s, actions).calls[id];
    assert AsAlone(settings, call);
    if call.phase.Suspended? {
      ResumeAsAlone(settings, call);
    }
  }

  // Progress: a suspended call moves one await point with each resumption, so it is resumed fewer than
  // 2 * steps times before it is over.
  lemma {:induction false} ResumptionsMoveOn(settings: Settings, s: System, actions: seq<Action>, id: nat)
    requires settings.limits.maxEvents >= 1 && Inv(settings, s)
    requires id in s.calls && s.calls[id].phase.Suspended?
    ensures id in Run(settings, s, actions).calls
    ensures var call := Run(settings, s, actions).calls[id];
            call.phase.Suspended? ==>
              && call.plan == s.calls[id].plan
              && call.phase.at == s.calls[id].phase.at + CountResumes(actions, id) < 2 * |call.plan.steps|
    decreases |actions|
  {
    if actions != [] {
      var earlier := actions[..|actions| - 1];
      ResumptionsMoveOn(settings, s, earlier, id);
      SuspendedCanResume(settings, s, earlier, id);
      ActionMovesOn(settings, Run(settings, s, earlier), actions[|actions| - 1], id);
    }
    SuspendedCanResume(settings, s, actions, id);
  }
}

/**
 Any number of runtime executions in flight at once. Code between two awaits is atomic; while an execution waits for
 its backend any other task may run: start an execution, let a backend answer, cancel a run by its identifier, or set
 the cancellation event of a context. A backend that is not configured answers at once, and killing the task of a
 waiting execution is the answer `TaskCancelled`.

 The point: each call comes to exactly what it would have come to alone, and a cancel request that was answered True
 reaches the execution it was meant for.
 */
module RuntimeSystem {
  import opened Outcomes
  import opened AgentRuntime

  datatype CallPhase = Suspended(state: Lifecycle, eventSet: bool) | Over(outcome: Outcome)

  // One call of `execute`. `preset`: its event was set beforehand; `cancelled`: a cancel request reached it, or its
  // event was set, while it waited; `answer`: what its backend answered.
  datatype Call = Call(
    definition: Definition, request: Request, preset: bool, phase: CallPhase, cancelled: bool,
    answer: Option<Backend>, duplicate: bool)

  // `active` is the runtime's dictionary of executions in flight; calls are named by fresh numbers.
  datatype System = System(active: map<Uuid, nat>, calls: map<nat, Call>)

  datatype Action =
    | StartCall(id: nat, definition: Definition, request: Request, preset: bool)
    | BackendAnswers(id: nat, backend: Backend)
    | CancelRun(runId: Uuid)
    | SetEvent(id: nat)

  const INITIAL := System(map[], map[])

  function Started(limits: RuntimeLimits, s: System, id: nat, definition: Definition, request: Request, preset: bool)
    : System
  {
    var call := Call(definition, request, preset, Over(Raised(ValidationError)), false, None, false);
    if !IsAcceptable(definition, request, limits.maxTaskLength) then s.(calls := s.calls[id := call])
    else if request.runId in s.active then
      s.(calls := s.calls[id := call.(phase := Over(Raised(ALREADY_ACTIVE)), duplicate := true)])
    else
      match Begin(limits.maxEvents, preset)
      case Ended(outcome) => s.(calls := s.calls[id := call.(phase := Over(outcome))])
      case Waiting(l) =>
        System(s.active[request.runId := id], s.calls[id := call.(phase := Suspended(l, preset))])
  }

  function Answered(limits: RuntimeLimits, s: System, id: nat, backend: Backend): System
    requires id in s.calls && s.calls[id].phase.Suspended?
  {
    var call := s.calls[id];
    var outcome := Resume(limits.maxEvents, call.phase.state, call.phase.eventSet, backend);
    System(s.active - {call.request.runId}, s.calls[id := call.(phase := Over(outcome), answer := Some(backend))])
  }

  // The answer `cancel` gives for a run.
  predicate CancelReply(s: System, runId: Uuid) { runId in s.active }

  function Marked(call: Call): Call
    requires call.phase.Suspended?
  {
    call.(phase := Suspended(Delivered(call.phase.state), true), cancelled := true)
  }

  function Cancelling(s: System, runId: Uuid): System {
    if runId in s.active && s.active[runId] in s.calls && s.calls[s.active[runId]].phase.Suspended? then
      s.(calls := s.calls[s.active[runId] := Marked(s.calls[s.active[runId]])])
    else s
  }

  // An action that does not apply (a used call number, a call not waiting) changes nothing.
  function Next(limits: RuntimeLimits, s: System, action: Action): System {
    match action
    case StartCall(id, definition, request, preset) =>
      if id in s.calls then s else Started(limits, s, id, definition, request, preset)
    case BackendAnswers(id, backend) =>
      if id in s.calls && s.calls[id].phase.Suspended? then Answered(limits, s, id, backend) else s
    case CancelRun(runId) => Cancelling(s, runId)
    case SetEvent(id) =>
      if id in s.calls && s.calls[id].phase.Suspended? then
        var call := s.calls[id];
        s.(calls := s.calls[id := call.(phase := Suspended(call.phase.state, true), cancelled := true)])
      else s
  }

  function Run(limits: RuntimeLimits, s: System, actions: seq<Action>): System
    decreases |actions|
  {
    if actions == [] then s
    else Next(limits, Run(limits, s, actions[..|actions| - 1]), actions[|actions| - 1])
  }

  // ---------- the invariant ----------

  // What the call comes to alone; the backend of a call that never came to wait is of no consequence.
  function Alone(limits: RuntimeLimits, call: Call): Outcome {
    ExecuteCall(limits, call.definition, call.request, call.preset, call.cancelled,
                if call.answer.Some? then call.answer.value else Unconfigured)
  }

  predicate WaitsAsAlone(limits: RuntimeLimits, call: Call)
    requires call.phase.Suspended?
  {
    var l := call.phase.state;
    && IsAcceptable(call.definition, call.request, limits.maxTaskLength)
    && !call.preset && limits.maxEvents >= 4
    && l == Lifecycle(Running, OPENING, l.cancelRequested)
    && call.cancelled == CancelSeen(l, call.phase.eventSet)
  }

  predicate AsAlone(limits: RuntimeLimits, call: Call) {
    match call.phase
    case Suspended(_, _) => !call.duplicate && call.answer.None? && WaitsAsAlone(limits, call)
    case Over(outcome) => outcome == if call.duplicate then Raised(ALREADY_ACTIVE) else Alone(limits, call)
  }

  predicate InFlight(call: Call, runId: Uuid) { call.phase.Suspended? && call.request.runId == runId }

  predicate Holds(active: map<Uuid, nat>, runId: Uuid, id: nat) { runId in active && active[runId] == id }

  // The dictionary and the waiting calls name each other.
  ghost predicate Linked(s: System) {
    && (forall r :: r in s.active ==> s.active[r] in s.calls && InFlight(s.calls[s.active[r]], r))
    && (forall id :: id in s.calls && s.calls[id].phase.Suspended? ==> Holds(s.active, s.calls[id].request.runId, id))
  }

  ghost predicate Each(good: Call -> bool, calls: map<nat, Call>) {
    forall id :: id in calls ==> good(calls[id])
  }

  function AsAloneUnder(limits: RuntimeLimits): Call -> bool { call => AsAlone(limits, call) }

  ghost predicate Inv(limits: RuntimeLimits, s: System) { Linked(s) && Each(AsAloneUnder(limits), s.calls) }

  // ---------- one step ----------

  // A call begins where it would begin alone.
  lemma BeginAsAlone(limits: RuntimeLimits, definition: Definition, request: Request, preset: bool)
    requires limits.maxEvents >= 1 && IsAcceptable(definition, request, limits.maxTaskLength)
    ensures var call := Call(definition, request, preset, Over(Raised(ValidationError)), false, None, false);
            match Begin(limits.maxEvents, preset)
            case Ended(outcome) => AsAlone(limits, call.(phase := Over(outcome)))
            case Waiting(l) => AsAlone(limits, call.(phase := Suspended(l, preset)))
  {
    BeginRuns(limits.maxEvents, preset);
  }

  // Answering a call that waits where it would wait alone brings it where it would end alone.
  lemma AnswerAsAlone(limits: RuntimeLimits, call: Call, backend: Backend)
    requires call.phase.Suspended? && WaitsAsAlone(limits, call)
    ensures Resume(limits.maxEvents, call.phase.state, call.phase.eventSet, backend)
         == Alone(limits, call.(answer := Some(backend)))
  {
    ResumeOutcome(limits.maxEvents, call.phase.state.cancelRequested, call.phase.eventSet, backend);
    ExecutionOutcome(limits.maxEvents, false, call.cancelled, backend);
  }

  lemma EachWith(good: Call -> bool, calls: map<nat, Call>, id: nat, call: Call)
    requires Each(good, calls) && good(call)
    ensures Each(good, calls[id := call])
  {
  }

  lemma AddingKeepsLinked(s: System, id: nat, call: Call)
    requires Linked(s) && id !in s.calls
    ensures call.phase.Over? ==> Linked(s.(calls := s.calls[id := call]))
    ensures call.phase.Suspended? && call.request.runId !in s.active ==>
              Linked(System(s.active[call.request.runId := id], s.calls[id := call]))
  {
  }

  lemma MarkingKeepsLinked(s: System, id: nat, call: Call)
    requires Linked(s) && id in s.calls && s.calls[id].phase.Suspended?
    requires call.request == s.calls[id].request && call.phase.Suspended?
    ensures Linked(s.(calls := s.calls[id := call]))
  {
  }

  lemma EndingKeepsLinked(s: System, id: nat, call: Call)
    requires Linked(s) && id in s.calls && s.calls[id].phase.Suspended?
    requires call.request == s.calls[id].request && call.phase.Over?
    ensures Linked(System(s.active - {call.request.runId}, s.calls[id := call]))
  {
    assert Holds(s.active, call.request.runId, id);
  }

  lemma AnsweringKeepsInv(limits: RuntimeLimits, s: System, id: nat, backend: Backend)
    requires Inv(limits, s) && id in s.calls && s.calls[id].phase.Suspended?
    ensures Inv(limits, Answered(limits, s, id, backend))
  {
    var call, ended := s.calls[id], Answered(limits, s, id, backend).calls[id];
    assert AsAlone(limits, call);
    AnswerAsAlone(limits, call, backend);
    assert AsAlone(limits, ended);
    EachWith(AsAloneUnder(limits), s.calls, id, ended);
    EndingKeepsLinked(s, id, ended);
  }

  lemma StartingKeepsInv(
    limits: RuntimeLimits, s: System, id: nat, definition: Definition, request: Request, preset: bool)
    requires limits.maxEvents >= 1 && Inv(limits, s) && id !in s.calls
    ensures Inv(limits, Started(limits, s, id, definition, request, preset))
  {
    var call := Started(limits, s, id, definition, request, preset).calls[id];
    if IsAcceptable(definition, request, limits.maxTaskLength) && request.runId !in s.active {
      BeginAsAlone(limits, definition, request, preset);
    }
    assert AsAlone(limits, call);
    EachWith(AsAloneUnder(limits), s.calls, id, call);
    AddingKeepsLinked(s, id, call);
  }

  lemma MarkingKeepsInv(limits: RuntimeLimits, s: System, id: nat, call: Call)
    requires Inv(limits, s) && id in s.calls && s.calls[id].phase.Suspended?
    requires call.request == s.calls[id].request && call.phase.Suspended? && AsAlone(limits, call)
    ensures Inv(limits, s.(calls := s.calls[id := call]))
  {
    EachWith(AsAloneUnder(limits), s.calls, id, call);
    MarkingKeepsLinked(s, id, call);
  }

  lemma NextKeepsInv(limits: RuntimeLimits, s: System, action: Action)
    requires limits.maxEvents >= 1 && Inv(limits, s)
    ensures Inv(limits, Next(limits, s, action))
  {
    match action
    case StartCall(id, definition, request, preset) =>
      if id !in s.calls {
        StartingKeepsInv(limits, s, id, definition, request, preset);
      }
    case BackendAnswers(id, backend) =>
      if id in s.calls && s.calls[id].phase.Suspended? {
        AnsweringKeepsInv(limits, s, id, backend);
      }
    case CancelRun(runId) =>
      if runId in s.active {
        var id := s.active[runId];
        assert InFlight(s.calls[id], runId) && AsAlone(limits, s.calls[id]);
        MarkingKeepsInv(limits, s, id, Marked(s.calls[id]));
      }
    case SetEvent(id) =>
      if id in s.calls && s.calls[id].phase.Suspended? {
        var call := s.calls[id];
        assert AsAlone(limits, call);
        MarkingKeepsInv(limits, s, id, call.(phase := Suspended(call.phase.state, true), cancelled := true));
      }
  }

  lemma {:induction false} RunKeepsInv(limits: RuntimeLimits, s: System, actions: seq<Action>)
    requires limits.maxEvents >= 1 && Inv(limits, s)
    ensures Inv(limits, Run(limits, s, actions))
    decreases |actions|
  {
    if actions != [] {
      RunKeepsInv(limits, s, actions[..|actions| - 1]);
      NextKeepsInv(limits, Run(limits, s, actions[..|actions| - 1]), actions[|actions| - 1]);
    }
  }

  // ---------- what holds of every run of the system ----------

  // Isolation: whatever else happened meanwhile, a call that is over came to what it comes to alone.
  lemma EveryCallEndsAsAlone(limits: RuntimeLimits, actions: seq<Action>, id: nat)
    requires limits.maxEvents >= 1
    requires var s := Run(limits, INITIAL, actions); id in s.calls && s.calls[id].phase.Over?
    ensures var call := Run(limits, INITIAL, actions).calls[id];
            call.phase.outcome == if call.duplicate then Raised(ALREADY_ACTIVE) else Alone(limits, call)
  {
    RunKeepsInv(limits, INITIAL, actions);
    assert AsAlone(limits, Run(limits, INITIAL, actions).calls[id]);
  }

  // What no later action changes about a call, and what a call that is over keeps for good.
  predicate Continues(before: Call, after: Call) {
    && after.definition == before.definition && after.request == before.request && after.preset == before.preset
    && after.duplicate == before.duplicate && (before.cancelled ==> after.cancelled)
    && (before.phase.Over? ==> after == before)
  }

  lemma StartedOnlyAdds(
    limits: RuntimeLimits, s: System, id: nat, definition: Definition, request: Request, preset: bool)
    ensures var s' := Started(limits, s, id, definition, request, preset);
            && id in s'.calls && s'.calls == s.calls[id := s'.calls[id]]
            && (s'.active == s.active
                || (request.runId !in s.active && s'.active == s.active[request.runId := id]))
  {
  }

  lemma AnsweredOnlyEnds(limits: RuntimeLimits, s: System, id: nat, backend: Backend)
    requires id in s.calls && s.calls[id].phase.Suspended?
    ensures var s' := Answered(limits, s, id, backend);
            && id in s'.calls && s'.calls == s.calls[id := s'.calls[id]] && Continues(s.calls[id], s'.calls[id])
            && s'.active == s.active - {s.calls[id].request.runId}
  {
  }

  // An action adds its call or moves it on, and leaves every other call as it is.
  lemma NextContinues(limits: RuntimeLimits, s: System, action: Action, id: nat)
    requires id in s.calls
    ensures id in Next(limits, s, action).calls && Continues(s.calls[id], Next(limits, s, action).calls[id])
  {
    match action
    case StartCall(i, definition, request, preset) => StartedOnlyAdds(limits, s, i, definition, request, preset);
    case BackendAnswers(i, backend) =>
      if i in s.calls && s.calls[i].phase.Suspended? {
        AnsweredOnlyEnds(limits, s, i, backend);
      }
    case CancelRun(_) =>
    case SetEvent(_) =>
  }

  lemma {:induction false} CallsContinue(limits: RuntimeLimits, s: System, actions: seq<Action>, id: nat)
    requires id in s.calls
    ensures id in Run(limits, s, actions).calls && Continues(s.calls[id], Run(limits, s, actions).calls[id])
    decreases |actions|
  {
    if actions != [] {
      var earlier := actions[..|actions| - 1];
      CallsContinue(limits, s, earlier, id);
      NextContinues(limits, Run(limits, s, earlier), actions[|actions| - 1], id);
    }
  }

  lemma {:induction false} RunConcat(limits: RuntimeLimits, s: System, a: seq<Action>, b: seq<Action>)
    ensures Run(limits, s, a + b) == Run(limits, Run(limits, s, a), b)
    decreases |b|
  {
    if b == [] {
      assert a + b == a;
    } else {
      assert (a + b)[..|a + b| - 1] == a + b[..|b| - 1];
      RunConcat(limits, s, a, b[..|b| - 1]);
    }
  }

  predicate HasSucceeded(outcome: Outcome) { outcome.Returned? && outcome.result.status.Succeeded? }

  // The backend has finished with an execution the runtime accepts.
  predicate FinishedWell(limits: RuntimeLimits, call: Call) {
    && call.answer.Some? && call.answer.value.Finished?
    && ExecutionFault(call.answer.value.outputOk, call.answer.value.events, limits.maxEvents).None?
  }

  lemma AloneSucceedsExactly(limits: RuntimeLimits, call: Call)
    requires limits.maxEvents >= 1
    ensures HasSucceeded(Alone(limits, call)) <==>
            && IsAcceptable(call.definition, call.request, limits.maxTaskLength) && !call.preset && !call.cancelled
            && FinishedWell(limits, call) && |call.answer.value.events| + 5 <= limits.maxEvents
  {
    var backend := if call.answer.Some? then call.answer.value else Unconfigured;
    ExecutionOutcome(limits.maxEvents, call.preset, call.cancelled, backend);
    PredictedSucceedsExactly(limits.maxEvents, call.preset, call.cancelled, backend);
  }

  // A call succeeds exactly when it was accepted, nobody cancelled it, and its backend's log is valid and fits.
  lemma SucceedsExactly(limits: RuntimeLimits, actions: seq<Action>, id: nat)
    requires limits.maxEvents >= 1
    requires var s := Run(limits, INITIAL, actions); id in s.calls && s.calls[id].phase.Over?
    ensures var call := Run(limits, INITIAL, actions).calls[id];
            HasSucceeded(call.phase.outcome) <==>
            && !call.duplicate && IsAcceptable(call.definition, call.request, limits.maxTaskLength)
            && !call.preset && !call.cancelled
            && FinishedWell(limits, call) && |call.answer.value.events| + 5 <= limits.maxEvents
  {
    EveryCallEndsAsAlone(limits, actions, id);
    AloneSucceedsExactly(limits, Run(limits, INITIAL, actions).calls[id]);
  }

  lemma InFlightMeans(limits: RuntimeLimits, s: System, runId: Uuid)
    requires Inv(limits, s) && runId in s.active
    ensures s.active[runId] in s.calls
    ensures var call := s.calls[s.active[runId]];
            && call.phase.Suspended? && call.request.runId == runId && !call.duplicate && !call.preset
            && IsAcceptable(call.definition, call.request, limits.maxTaskLength) && limits.maxEvents >= 4
  {
    assert InFlight(s.calls[s.active[runId]], runId) && AsAlone(limits, s.calls[s.active[runId]]);
  }

  lemma RunSnoc(limits: RuntimeLimits, s: System, actions: seq<Action>, action: Action)
    ensures Run(limits, s, actions + [action]) == Next(limits, Run(limits, s, actions), action)
  {
    assert (actions + [action])[..|actions|] == actions;
  }

  // The state after a cancel request and whatever follows it, seen from the state before.
  lemma AfterCancel(limits: RuntimeLimits, before: seq<Action>, runId: Uuid, afterwards: seq<Action>)
    requires limits.maxEvents >= 1 && CancelReply(Run(limits, INITIAL, before), runId)
    ensures var id := Run(limits, INITIAL, before).active[runId];
            var s := Run(limits, INITIAL, before + [CancelRun(runId)] + afterwards);
            && id in s.calls && s.calls[id].request.runId == runId && s.calls[id].cancelled && !s.calls[id].duplicate
            && IsAcceptable(s.calls[id].definition, s.calls[id].request, limits.maxTaskLength) && !s.calls[id].preset
            && limits.maxEvents >= 4
  {
    var s0 := Run(limits, INITIAL, before);
    RunKeepsInv(limits, INITIAL, before);
    InFlightMeans(limits, s0, runId);
    RunSnoc(limits, INITIAL, before, CancelRun(runId));
    RunConcat(limits, INITIAL, before + [CancelRun(runId)], afterwards);
    CallsContinue(limits, Cancelling(s0, runId), afterwards, s0.active[runId]);
  }

  // Cancellation: once `cancel` has answered True for a run, the execution it was for never succeeds, whatever
  // happens before and afterwards; if its backend still finishes well and a fifth event fits, it ends cancelled.
  lemma AcceptedCancelIsHonoured(limits: RuntimeLimits, before: seq<Action>, runId: Uuid, afterwards: seq<Action>)
    requires limits.maxEvents >= 1 && CancelReply(Run(limits, INITIAL, before), runId)
    ensures var id := Run(limits, INITIAL, before).active[runId];
            var s := Run(limits, INITIAL, before + [CancelRun(runId)] + afterwards);
            && id in s.calls && s.calls[id].request.runId == runId
            && var call := s.calls[id];
               call.phase.Over? ==>
                 && !HasSucceeded(call.phase.outcome)
                 && (FinishedWell(limits, call) && limits.maxEvents >= 5 ==>
                       call.phase.outcome == Returned(StoppedRun(OPENING, CancelledError)))
  {
    AfterCancel(limits, before, runId, afterwards);
    var id := Run(limits, INITIAL, before).active[runId];
    var actions := before + [CancelRun(runId)] + afterwards;
    var call := Run(limits, INITIAL, actions).calls[id];
    if call.phase.Over? {
      SucceedsExactly(limits, actions, id);
      EveryCallEndsAsAlone(limits, actions, id);
      if FinishedWell(limits, call) {
        ExecutionOutcome(limits.maxEvents, false, true, call.answer.value);
      }
    }
  }

  // A cancel request marks the execution's lifecycle and sets its event; it still waits, under the same name.
  lemma CancelMarksBoth(limits: RuntimeLimits, actions: seq<Action>, runId: Uuid)
    requires limits.maxEvents >= 1 && CancelReply(Run(limits, INITIAL, actions), runId)
    ensures var s := Run(limits, INITIAL, actions);
            var s' := Next(limits, s, CancelRun(runId));
            && s.active[runId] in s'.calls && s'.active == s.active
            && s'.calls[s.active[runId]].phase == Suspended(Lifecycle(Running, OPENING, true), true)
  {
    var s := Run(limits, INITIAL, actions);
    RunKeepsInv(limits, INITIAL, actions);
    InFlightMeans(limits, s, runId);
    assert AsAlone(limits, s.calls[s.active[runId]]) by {
      assert AsAloneUnder(limits)(s.calls[s.active[runId]]);
    }
  }

  // `cancel` answers True exactly for the runs with an execution waiting.
  lemma CancelReplyExactly(limits: RuntimeLimits, actions: seq<Action>, runId: Uuid)
    requires limits.maxEvents >= 1
    ensures var s := Run(limits, INITIAL, actions);
            CancelReply(s, runId) <==> exists id :: id in s.calls && InFlight(s.calls[id], runId)
  {
    RunKeepsInv(limits, INITIAL, actions);
    var s := Run(limits, INITIAL, actions);
    if runId in s.active {
      assert InFlight(s.calls[s.active[runId]], runId);
    }
    if exists id :: id in s.calls && InFlight(s.calls[id], runId) {
      var id :| id in s.calls && InFlight(s.calls[id], runId);
      assert Holds(s.active, s.calls[id].request.runId, id);
    }
  }

  // The call an action is about, if any.
  function Target(s: System, action: Action): Option<nat> {
    match action
    case StartCall(id, _, _, _) => Some(id)
    case BackendAnswers(id, _) => Some(id)
    case CancelRun(runId) => if runId in s.active then Some(s.active[runId]) else None
    case SetEvent(id) => Some(id)
  }

  // Every other call, and its place in the dictionary, is untouched by an action.
  lemma OthersAreUntouched(limits: RuntimeLimits, s: System, action: Action, id: nat)
    requires Linked(s) && id in s.calls && Target(s, action) != Some(id)
    ensures var s' := Next(limits, s, action);
            id in s'.calls && s'.calls[id] == s.calls[id]
            && (s.calls[id].phase.Suspended? ==> Holds(s'.active, s.calls[id].request.runId, id))
  {
    if s.calls[id].phase.Suspended? {
      assert Holds(s.active, s.calls[id].request.runId, id);
    }
    match action
    case StartCall(i, definition, request, preset) => StartedOnlyAdds(limits, s, i, definition, request, preset);
    case BackendAnswers(i, backend) =>
      if i in s.calls && s.calls[i].phase.Suspended? {
        AnsweredOnlyEnds(limits, s, i, backend);
        assert Holds(s.active, s.calls[i].request.runId, i);
      }
    case CancelRun(_) =>
    case SetEvent(_) =>
  }

  // How a new call begins, whatever executions are in flight: it is a duplicate exactly when its input is acceptable
  // and its run is in flight; it comes to wait exactly when its input is acceptable, its run is not in flight, its
  // event was not set and four events fit; and otherwise it is over at once.
  lemma StartsExactly(
    limits: RuntimeLimits, before: seq<Action>, id: nat, definition: Definition, request: Request, preset: bool)
    requires limits.maxEvents >= 1 && id !in Run(limits, INITIAL, before).calls
    ensures var s := Run(limits, INITIAL, before);
            var s' := Next(limits, s, StartCall(id, definition, request, preset));
            && id in s'.calls
            && s'.calls[id] == Call(definition, request, preset, s'.calls[id].phase, false, None,
                                    s'.calls[id].duplicate)
            && (s'.calls[id].duplicate <==>
                  IsAcceptable(definition, request, limits.maxTaskLength) && request.runId in s.active)
            && (s'.calls[id].phase.Suspended? <==>
                  && IsAcceptable(definition, request, limits.maxTaskLength) && request.runId !in s.active
                  && !preset && limits.maxEvents >= 4)
            && s'.active == if s'.calls[id].phase.Suspended? then s.active[request.runId := id] else s.active
  {
    BeginRuns(limits.maxEvents, preset);
  }

  // When a waiting execution's backend answers, it is over with the outcome it has alone, and its place is free.
  lemma AnswerEnds(limits: RuntimeLimits, s: System, id: nat, backend: Backend)
    requires Inv(limits, s) && id in s.calls && s.calls[id].phase.Suspended?
    ensures var call, s' := s.calls[id], Next(limits, s, BackendAnswers(id, backend));
            && id in s'.calls && s'.calls[id].answer == Some(backend)
            && s'.calls[id].phase ==
               Over(ExecuteCall(limits, call.definition, call.request, call.preset, call.cancelled, backend))
            && call.request.runId in s.active && s'.active == s.active - {call.request.runId}
  {
    assert Holds(s.active, s.calls[id].request.runId, id);
    assert AsAloneUnder(limits)(s.calls[id]);
    AnswerAsAlone(limits, s.calls[id], backend);
  }

  // Setting the event of a waiting execution marks it; it goes on waiting.
  lemma EventMarks(limits: RuntimeLimits, s: System, id: nat)
    requires id in s.calls && s.calls[id].phase.Suspended?
    ensures var call, s' := s.calls[id], Next(limits, s, SetEvent(id));
            && id in s'.calls && s'.active == s.active
            && s'.calls[id] == call.(phase := Suspended(call.phase.state, true), cancelled := true)
  {
  }

  // A second `execute` for a run in flight is refused and leaves the first in its place.
  lemma DuplicateNeverEvicts(
    limits: RuntimeLimits, s: System, id: nat, definition: Definition, request: Request, preset: bool)
    requires Linked(s) && id !in s.calls && request.runId in s.active
    ensures var s' := Next(limits, s, StartCall(id, definition, request, preset));
            && s'.active == s.active
            && s'.calls[id].phase ==
               (if IsAcceptable(definition, request, limits.maxTaskLength) then
                  Over(Raised(BackendError("runtime_already_active", false)))
                else Over(Raised(ValidationError)))
            && s'.calls[s.active[request.runId]] == s.calls[s.active[request.runId]]
            && s'.calls[s.active[request.runId]].phase.Suspended?
  {
    assert InFlight(s.calls[s.active[request.runId]], request.runId);
  }
}

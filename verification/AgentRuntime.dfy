/**
 The lifecycle runtime: a second state machine around an arbitrary execution backend, with its own bounded log.
 `execute` has one await, the backend call: it is modelled in two parts, up to the await and from it on, so that
 cancel requests can come in between. RuntimeSystem.dfy interleaves any number of executions.
 Timestamps, messages and output payloads are not modelled; JSON checks on metadata arrive as their verdicts.
 */
module AgentRuntime {
  import opened Outcomes
  import opened TextChunking

  datatype RuntimeStatus =
    | Requested | Validating | Queued | Running | WaitingForApproval | Succeeded | Failed | Cancelled | Retriable

  function AllowedTargets(status: RuntimeStatus): set<RuntimeStatus> {
    match status
    case Requested => {Validating, Cancelled}
    case Validating => {Queued, Failed, Cancelled}
    case Queued => {Running, Cancelled}
    case Running => {WaitingForApproval, Succeeded, Failed, Cancelled, Retriable}
    case WaitingForApproval => {Running, Failed, Cancelled}
    case Succeeded => {}
    case Failed => {Retriable}
    case Cancelled => {}
    case Retriable => {Queued, Cancelled}
  }

  predicate Terminal(status: RuntimeStatus) { status.Succeeded? || status.Failed? || status.Cancelled? }

  // The table read by its columns: from where each status can be reached. Cancelling is possible exactly until the run
  // is over; only a failed run has a way out of its end, to be retried.
  lemma LegalMoves(status: RuntimeStatus, target: RuntimeStatus)
    ensures target in AllowedTargets(status) <==>
            match target
            case Requested => false
            case Validating => status == Requested
            case Queued => status in {Validating, Retriable}
            case Running => status in {Queued, WaitingForApproval}
            case WaitingForApproval => status == Running
            case Succeeded => status == Running
            case Failed => status in {Validating, Running, WaitingForApproval}
            case Cancelled => status !in {Succeeded, Failed, Cancelled}
            case Retriable => status in {Running, Failed}
    ensures Terminal(status) <==> Cancelled !in AllowedTargets(status)
  {
  }

  // What an event carries besides its number.
  datatype EventBody = EventBody(eventType: string, status: Option<RuntimeStatus>, metadata: map<string, string>)

  datatype RuntimeEvent = RuntimeEvent(sequence: nat, body: EventBody)

  // The first four are runtime errors, which `execute` turns into a result; the last two are not.
  datatype RuntimeError =
    | CancelledError | TimeoutError | LimitError | BackendError(code: string, retryable: bool)
    | LifecycleError | ValidationError

  predicate IsRuntimeError(e: RuntimeError) { !e.LifecycleError? && !e.ValidationError? }

  predicate IsRetryable(e: RuntimeError) { e.TimeoutError? || (e.BackendError? && e.retryable) }

  datatype Lifecycle = Lifecycle(status: RuntimeStatus, events: seq<RuntimeEvent>, cancelRequested: bool)

  datatype Effect = Effect(state: Lifecycle, error: Option<RuntimeError>)

  function Recorded(l: Lifecycle, maxEvents: nat, body: EventBody): Effect {
    if |l.events| >= maxEvents then Effect(l, Some(LimitError))
    else Effect(l.(events := l.events + [RuntimeEvent(|l.events|, body)]), None)
  }

  function StatusBody(status: RuntimeStatus): EventBody { EventBody("runtime.status_changed", Some(status), map[]) }

  // The limit is checked before the status changes.
  function Transitioned(l: Lifecycle, maxEvents: nat, target: RuntimeStatus): Effect {
    if target !in AllowedTargets(l.status) then Effect(l, Some(LifecycleError))
    else if |l.events| >= maxEvents then Effect(l, Some(LimitError))
    else Recorded(l.(status := target), maxEvents, StatusBody(target))
  }

  // A transition either makes a legal move and records it, or changes nothing; once an execution has succeeded or was
  // cancelled every further one is refused.
  lemma TransitionIsSafe(l: Lifecycle, maxEvents: nat, target: RuntimeStatus)
    ensures var moved := Transitioned(l, maxEvents, target);
            if target !in AllowedTargets(l.status) then moved == Effect(l, Some(LifecycleError))
            else if |l.events| >= maxEvents then moved == Effect(l, Some(LimitError))
            else
              && moved.error == None && moved.state.status == target
              && moved.state.cancelRequested == l.cancelRequested
              && moved.state.events == l.events + [RuntimeEvent(|l.events|, StatusBody(target))]
    ensures l.status in {Succeeded, Cancelled} ==> Transitioned(l, maxEvents, target) == Effect(l, Some(LifecycleError))
  {
  }

  const REQUESTED_BODY := EventBody("runtime.requested", Some(Requested), map[])

  const FIRST := Lifecycle(Requested, [RuntimeEvent(0, REQUESTED_BODY)], false)

  /** The in-memory state machine of one runtime execution. */
  class RuntimeLifecycle {
    const maxEvents: nat
    var status: RuntimeStatus
    var events: seq<RuntimeEvent>
    var cancelRequested: bool

    function View(): Lifecycle
      reads this
    {
      Lifecycle(status, events, cancelRequested)
    }

    constructor (maxEvents: nat)
      requires maxEvents >= 1
      ensures View() == FIRST && this.maxEvents == maxEvents
    {
      this.maxEvents := maxEvents;
      status := Requested;
      events := [RuntimeEvent(0, REQUESTED_BODY)];
      cancelRequested := false;
    }

    method Record(body: EventBody) returns (error: Option<RuntimeError>)
      modifies this`events
      ensures Effect(View(), error) == Recorded(old(View()), maxEvents, body)
    {
      if |events| >= maxEvents {
        return Some(LimitError);
      }
      events := events + [RuntimeEvent(|events|, body)];
      error := None;
    }

    method Transition(target: RuntimeStatus) returns (error: Option<RuntimeError>)
      modifies this`status, this`events
      ensures Effect(View(), error) == Transitioned(old(View()), maxEvents, target)
    {
      if target !in AllowedTargets(status) {
        return Some(LifecycleError);
      }
      if |events| >= maxEvents {
        return Some(LimitError);
      }
      status := target;
      error := Record(StatusBody(target));
    }

    method RequestCancel() returns (accepted: bool)
      modifies this`cancelRequested
      ensures accepted == !Terminal(status)
      ensures View() == if accepted then old(View()).(cancelRequested := true) else old(View())
    {
      if Terminal(status) {
        return false;
      }
      cancelRequested := true;
      accepted := true;
    }
  }

  // ---------- the backend ----------

  datatype BackendEvent = BackendEvent(body: EventBody, metadataOk: bool)

  // What the backend call comes to. `Crashed` is any exception that is not a runtime error.
  datatype Backend =
    | Unconfigured | Finished(outputOk: bool, events: seq<BackendEvent>) | TimedOut | TaskCancelled
    | RaisedByBackend(error: RuntimeError) | Crashed

  // _execute_backend's error, if it raises.
  function BackendFault(backend: Backend): Option<RuntimeError> {
    match backend
    case Unconfigured => Some(BackendError("runtime_backend_unconfigured", false))
    case Finished(_, _) => None
    case TimedOut => Some(TimeoutError)
    case TaskCancelled => Some(CancelledError)
    case RaisedByBackend(e) => if IsRuntimeError(e) then Some(e) else Some(BackendError("runtime_backend_error", false))
    case Crashed => Some(BackendError("runtime_backend_error", false))
  }

  predicate IsValidEvent(e: BackendEvent) { !IsBlank(e.body.eventType) && e.metadataOk }

  // RuntimeValidator.validate_execution
  function ExecutionFault(outputOk: bool, events: seq<BackendEvent>, maxEvents: nat): Option<RuntimeError> {
    if !outputOk then Some(ValidationError)
    else if |events| > maxEvents then Some(LimitError)
    else if exists i :: 0 <= i < |events| && !IsValidEvent(events[i]) then Some(ValidationError)
    else None
  }

  function RecordedAll(l: Lifecycle, maxEvents: nat, events: seq<BackendEvent>): Effect
    decreases |events|
  {
    if events == [] then Effect(l, None)
    else
      var first := Recorded(l, maxEvents, events[0].body);
      if first.error.Some? then first else RecordedAll(first.state, maxEvents, events[1..])
  }

  // ---------- one execution ----------

  datatype RuntimeResult = RuntimeResult(
    status: RuntimeStatus, events: seq<RuntimeEvent>, error: Option<RuntimeError>, retryable: bool)

  datatype Outcome = Returned(result: RuntimeResult) | Raised(error: RuntimeError)

  // The handlers of `execute` and _failure_result.
  function FailureOutcome(l: Lifecycle, maxEvents: nat, e: RuntimeError): Outcome {
    if !IsRuntimeError(e) then Raised(e)
    else if Terminal(l.status) then Returned(RuntimeResult(l.status, l.events, Some(e), IsRetryable(e)))
    else
      var target := if e.CancelledError? then Cancelled else Failed;
      var closed := Transitioned(l, maxEvents, target);
      if closed.error.Some? then Raised(closed.error.value)
      else if !IsRetryable(e) then Returned(RuntimeResult(closed.state.status, closed.state.events, Some(e), false))
      else
        var retriable := Transitioned(closed.state, maxEvents, Retriable);
        if retriable.error.Some? then Raised(retriable.error.value)
        else Returned(RuntimeResult(retriable.state.status, retriable.state.events, Some(e), true))
  }

  // _check_cancelled: a cancel request reached the lifecycle, or the context's cancellation event is set.
  predicate CancelSeen(l: Lifecycle, eventSet: bool) { l.cancelRequested || eventSet }

  // One opening transition and the check after it.
  function Advanced(l: Lifecycle, maxEvents: nat, target: RuntimeStatus, eventSet: bool): Effect {
    var moved := Transitioned(l, maxEvents, target);
    if moved.error.None? && CancelSeen(moved.state, eventSet) then Effect(moved.state, Some(CancelledError)) else moved
  }

  // The three opening transitions.
  function Opened(l: Lifecycle, maxEvents: nat, eventSet: bool): Effect {
    var validating := Advanced(l, maxEvents, Validating, eventSet);
    if validating.error.Some? then validating
    else
      var queued := Advanced(validating.state, maxEvents, Queued, eventSet);
      if queued.error.Some? then queued else Advanced(queued.state, maxEvents, Running, eventSet)
  }

  // From the backend's answer to the end of the log.
  function Closed(l: Lifecycle, maxEvents: nat, eventSet: bool, backend: Backend): Effect {
    var fault := BackendFault(backend);
    if fault.Some? then Effect(l, fault)
    else
      var invalid := ExecutionFault(backend.outputOk, backend.events, maxEvents);
      if invalid.Some? then Effect(l, invalid)
      else if CancelSeen(l, eventSet) then Effect(l, Some(CancelledError))
      else
        var recorded := RecordedAll(l, maxEvents, backend.events);
        if recorded.error.Some? then recorded else Transitioned(recorded.state, maxEvents, Succeeded)
  }

  // `execute` waits for the backend, or has come to an end.
  datatype Phase = Waiting(state: Lifecycle) | Ended(outcome: Outcome)

  // An accepted execution up to its await.
  function Begin(maxEvents: nat, eventSet: bool): Phase {
    var begun := Opened(FIRST, maxEvents, eventSet);
    if begun.error.Some? then Ended(FailureOutcome(begun.state, maxEvents, begun.error.value)) else Waiting(begun.state)
  }

  // From the await on, once the backend has answered.
  function Resume(maxEvents: nat, l: Lifecycle, eventSet: bool, backend: Backend): Outcome {
    var closed := Closed(l, maxEvents, eventSet, backend);
    if closed.error.Some? then FailureOutcome(closed.state, maxEvents, closed.error.value)
    else Returned(RuntimeResult(closed.state.status, closed.state.events, None, false))
  }

  // RuntimeLifecycle.request_cancel
  function Delivered(l: Lifecycle): Lifecycle { if Terminal(l.status) then l else l.(cancelRequested := true) }

  // A whole accepted execution. `preset`: the cancellation event was already set; `cancelled`: a cancel request
  // came while the backend ran.
  function Execute(maxEvents: nat, preset: bool, cancelled: bool, backend: Backend): Outcome {
    match Begin(maxEvents, preset)
    case Ended(outcome) => outcome
    case Waiting(l) =>
      Resume(maxEvents, if cancelled then Delivered(l) else l, preset || cancelled, backend)
  }

  // ---------- what is accepted ----------

  datatype Definition = Definition(agentKey: string, agentType: string, version: string, configurationOk: bool)

  datatype Request = Request(runId: Uuid, task: string, requestId: Option<string>, metadataOk: bool)

  datatype RuntimeLimits = RuntimeLimits(maxEvents: nat, maxTaskLength: nat)

  // RuntimeValidator.validate_definition and validate_context
  predicate IsAcceptable(definition: Definition, request: Request, maxTaskLength: nat) {
    && !IsBlank(definition.agentKey) && !IsBlank(definition.agentType) && !IsBlank(definition.version)
    && definition.configurationOk
    && !IsBlank(request.task) && |request.task| <= maxTaskLength
    && (request.requestId.Some? ==> |request.requestId.value| <= 128)
    && request.metadataOk
  }

  // A call of `execute` for a run that is not in flight.
  function ExecuteCall(
    limits: RuntimeLimits, definition: Definition, request: Request, preset: bool, cancelled: bool, backend: Backend)
    : Outcome
  {
    if !IsAcceptable(definition, request, limits.maxTaskLength) then Raised(ValidationError)
    else Execute(limits.maxEvents, preset, cancelled, backend)
  }

  // An entry made for a run and removed again leaves the dictionary as it was.
  lemma EntryLeaves<V>(entries: map<Uuid, V>, runId: Uuid, value: V)
    requires runId !in entries
    ensures entries[runId := value] - {runId} == entries
  {
  }

  const ALREADY_ACTIVE := BackendError("runtime_already_active", false)

  /** An execution's input and its cancellation event, which callers and the backend may set. */
  class RuntimeContext {
    const request: Request
    var cancellationEvent: bool

    constructor (request: Request)
      ensures this.request == request && !cancellationEvent
    {
      this.request := request;
      cancellationEvent := false;
    }
  }

  const OPENING: seq<RuntimeEvent> := [
    RuntimeEvent(0, REQUESTED_BODY),
    RuntimeEvent(1, StatusBody(Validating)),
    RuntimeEvent(2, StatusBody(Queued)),
    RuntimeEvent(3, StatusBody(Running))]

  lemma OpeningOutcome(maxEvents: nat, eventSet: bool)
    requires maxEvents >= 1
    ensures var begun := Opened(FIRST, maxEvents, eventSet);
            if maxEvents == 1 then begun == Effect(FIRST, Some(LimitError))
            else if eventSet then begun == Effect(Lifecycle(Validating, OPENING[..2], false), Some(CancelledError))
            else if maxEvents == 2 then begun == Effect(Lifecycle(Validating, OPENING[..2], false), Some(LimitError))
            else if maxEvents == 3 then begun == Effect(Lifecycle(Queued, OPENING[..3], false), Some(LimitError))
            else begun == Effect(Lifecycle(Running, OPENING, false), None)
  {
    assert OPENING[..2] == [OPENING[0], OPENING[1]];
    assert OPENING[..3] == OPENING[..2] + [OPENING[2]];
    assert OPENING == OPENING[..3] + [OPENING[3]];
  }

  // An execution waits for its backend exactly when its cancellation event was not set and four events fit.
  lemma BeginRuns(maxEvents: nat, eventSet: bool)
    requires maxEvents >= 1
    ensures Begin(maxEvents, eventSet).Waiting? <==> !eventSet && maxEvents >= 4
    ensures Begin(maxEvents, eventSet).Waiting? ==>
            Begin(maxEvents, eventSet) == Waiting(Lifecycle(Running, OPENING, false))
  {
    OpeningOutcome(maxEvents, eventSet);
  }

  /** The coordinator around the backend, with the executions in flight by run identifier. */
  class LifecycleAgentRuntime {
    const limits: RuntimeLimits
    var active: map<Uuid, RuntimeLifecycle>
    var activeContexts: map<Uuid, RuntimeContext>

    // Every execution in flight waits for its backend.
    ghost predicate Valid()
      reads this, active.Values, activeContexts.Values
    {
      && limits.maxEvents >= 1
      && active.Keys == activeContexts.Keys
      && (forall r :: r in activeContexts ==> activeContexts[r].request.runId == r)
      && (forall r :: r in active ==> active[r].status.Running? && active[r].maxEvents == limits.maxEvents)
      && (forall r, q :: r in active && q in active && r != q ==> active[r] != active[q])
    }

    constructor (limits: RuntimeLimits)
      requires limits.maxEvents >= 1
      ensures Valid() && this.limits == limits && active == map[]
    {
      this.limits := limits;
      active, activeContexts := map[], map[];
    }

    // Answers True for any execution in the dictionary, and then leaves a mark the execution will see.
    method Cancel(runId: Uuid) returns (accepted: bool)
      requires Valid()
      modifies if runId in active then {active[runId]} else {}
      modifies if runId in activeContexts then {activeContexts[runId]} else {}
      ensures Valid()
      ensures accepted == (runId in active)
      ensures accepted ==>
                active[runId].View() == Delivered(old(active[runId].View())) && activeContexts[runId].cancellationEvent
    {
      if runId !in active {
        return false;
      }
      var _ := active[runId].RequestCancel();
      if runId in activeContexts {
        activeContexts[runId].cancellationEvent := true;
      }
      accepted := true;
    }

    method FailureResult(l: RuntimeLifecycle, e: RuntimeError) returns (outcome: Outcome)
      modifies l
      ensures outcome == FailureOutcome(old(l.View()), l.maxEvents, e)
    {
      if !IsRuntimeError(e) {
        return Raised(e);
      }
      var target := if e.CancelledError? then Cancelled else if IsRetryable(e) then Retriable else Failed;
      if !Terminal(l.status) {
        if target.Retriable? && !l.status.Failed? {
          var error := l.Transition(Failed);
          if error.Some? {
            return Raised(error.value);
          }
        }
        var error := l.Transition(target);
        if error.Some? {
          return Raised(error.value);
        }
      }
      outcome := Returned(RuntimeResult(l.status, l.events, Some(e), IsRetryable(e)));
    }

    method CheckCancelled(l: RuntimeLifecycle, context: RuntimeContext) returns (error: Option<RuntimeError>)
      ensures error == if CancelSeen(l.View(), context.cancellationEvent) then Some(CancelledError) else None
    {
      error := if l.cancelRequested || context.cancellationEvent then Some(CancelledError) else None;
    }

    method Advance(l: RuntimeLifecycle, context: RuntimeContext, target: RuntimeStatus)
      returns (error: Option<RuntimeError>)
      modifies l
      ensures Effect(l.View(), error) == Advanced(old(l.View()), l.maxEvents, target, context.cancellationEvent)
    {
      error := l.Transition(target);
      if error.None? {
        error := CheckCancelled(l, context);
      }
    }

    method Open(l: RuntimeLifecycle, context: RuntimeContext) returns (error: Option<RuntimeError>)
      modifies l
      ensures Effect(l.View(), error) == Opened(old(l.View()), l.maxEvents, context.cancellationEvent)
    {
      error := Advance(l, context, Validating);
      if error.Some? {
        return;
      }
      error := Advance(l, context, Queued);
      if error.Some? {
        return;
      }
      error := Advance(l, context, Running);
    }

    method Close(l: RuntimeLifecycle, context: RuntimeContext, backend: Backend) returns (error: Option<RuntimeError>)
      modifies l
      ensures Effect(l.View(), error) == Closed(old(l.View()), l.maxEvents, context.cancellationEvent, backend)
    {
      error := BackendFault(backend);
      if error.Some? {
        return;
      }
      error := ExecutionFault(backend.outputOk, backend.events, l.maxEvents);
      if error.Some? {
        return;
      }
      error := CheckCancelled(l, context);
      if error.Some? {
        return;
      }
      ghost var was, all := l.View(), backend.events;
      for i := 0 to |backend.events|
        invariant RecordedAll(l.View(), l.maxEvents, all[i..]) == RecordedAll(was, l.maxEvents, all)
      {
        assert all[i..][0] == all[i] && all[i..][1..] == all[i + 1..];
        error := l.Record(backend.events[i].body);
        if error.Some? {
          return;
        }
      }
      error := l.Transition(Succeeded);
    }

    method OpenOrFail(l: RuntimeLifecycle, context: RuntimeContext) returns (ended: Option<Outcome>)
      requires l.View() == FIRST
      modifies l
      ensures match Begin(l.maxEvents, context.cancellationEvent)
              case Ended(outcome) => ended == Some(outcome)
              case Waiting(state) => ended == None && l.View() == state
    {
      var error := Open(l, context);
      ended := None;
      if error.Some? {
        var outcome := FailureResult(l, error.value);
        ended := Some(outcome);
      }
    }

    method CloseOrFail(l: RuntimeLifecycle, context: RuntimeContext, backend: Backend) returns (outcome: Outcome)
      modifies l
      ensures outcome == Resume(l.maxEvents, old(l.View()), context.cancellationEvent, backend)
    {
      var error := Close(l, context, backend);
      if error.Some? {
        outcome := FailureResult(l, error.value);
      } else {
        outcome := Returned(RuntimeResult(l.status, l.events, None, false));
      }
    }

    // `execute` up to its await; None while it waits for the backend.
    method Start(definition: Definition, context: RuntimeContext) returns (ended: Option<Outcome>)
      requires Valid()
      modifies this`active, this`activeContexts
      ensures Valid()
      ensures var r := context.request.runId;
              if !IsAcceptable(definition, context.request, limits.maxTaskLength) then
                ended == Some(Raised(ValidationError)) && active == old(active) && activeContexts == old(activeContexts)
              else if r in old(active) then
                ended == Some(Raised(ALREADY_ACTIVE)) && active == old(active) && activeContexts == old(activeContexts)
              else
                match Begin(limits.maxEvents, context.cancellationEvent)
                case Ended(outcome) =>
                  ended == Some(outcome) && active == old(active) && activeContexts == old(activeContexts)
                case Waiting(l) =>
                  && ended == None && r in active && fresh(active[r]) && active[r].View() == l
                  && active == old(active)[r := active[r]] && activeContexts == old(activeContexts)[r := context]
    {
      // Nothing else runs before the await, so the execution is entered only once it is to wait.
      var runId := context.request.runId;
      if !IsAcceptable(definition, context.request, limits.maxTaskLength) {
        return Some(Raised(ValidationError));
      }
      if runId in active {
        return Some(Raised(ALREADY_ACTIVE));
      }
      var l := new RuntimeLifecycle(limits.maxEvents);
      BeginRuns(limits.maxEvents, context.cancellationEvent);
      ended := OpenOrFail(l, context);
      if ended.Some? {
        return;
      }
      active := active[runId := l];
      activeContexts := activeContexts[runId := context];
    }

    // `execute` from its await on, once the backend has answered.
    method Finish(runId: Uuid, backend: Backend) returns (outcome: Outcome)
      requires Valid() && runId in active
      modifies this`active, this`activeContexts, active[runId]
      ensures Valid()
      ensures outcome ==
              Resume(limits.maxEvents, old(active[runId].View()), old(activeContexts[runId].cancellationEvent), backend)
      ensures active == old(active) - {runId} && activeContexts == old(activeContexts) - {runId}
    {
      outcome := CloseOrFail(active[runId], activeContexts[runId], backend);
      active := active - {runId};
      activeContexts := activeContexts - {runId};
    }

    // The backend runs, a cancel request may come, the backend answers.
    method AwaitBackend(runId: Uuid, cancelled: bool, backend: Backend) returns (outcome: Outcome)
      requires Valid() && runId in active
      modifies this`active, this`activeContexts, active[runId], activeContexts[runId]
      ensures Valid()
      ensures var l, eventSet := old(active[runId].View()), old(activeContexts[runId].cancellationEvent);
              outcome ==
              Resume(limits.maxEvents, if cancelled then Delivered(l) else l, eventSet || cancelled, backend)
      ensures active == old(active) - {runId} && activeContexts == old(activeContexts) - {runId}
    {
      if cancelled {
        var _ := Cancel(runId);
      }
      outcome := Finish(runId, backend);
    }

    // A whole execution; `cancelled` says whether another task calls `Cancel` for this run while the backend runs.
    method ExecuteContext(definition: Definition, context: RuntimeContext, cancelled: bool, backend: Backend)
      returns (outcome: Outcome)
      requires Valid()
      modifies this`active, this`activeContexts, context
      ensures Valid()
      ensures active == old(active) && activeContexts == old(activeContexts)
      ensures outcome ==
              if IsAcceptable(definition, context.request, limits.maxTaskLength)
                 && context.request.runId in old(active) then Raised(ALREADY_ACTIVE)
              else ExecuteCall(
                limits, definition, context.request, old(context.cancellationEvent), cancelled, backend)
    {
      ghost var entries, contexts, runId := active, activeContexts, context.request.runId;
      var ended := Start(definition, context);
      if ended.Some? {
        return ended.value;
      }
      EntryLeaves(entries, runId, active[runId]);
      EntryLeaves(contexts, runId, activeContexts[runId]);
      outcome := AwaitBackend(context.request.runId, cancelled, backend);
    }
  }

  // ---------- what every execution comes to ----------

  function Numbered(start: nat, bodies: seq<BackendEvent>): seq<RuntimeEvent> {
    seq(|bodies|, i requires 0 <= i < |bodies| => RuntimeEvent(start + i, bodies[i].body))
  }

  function SucceededRun(events: seq<BackendEvent>): RuntimeResult {
    RuntimeResult(Succeeded, OPENING + Numbered(4, events) + [RuntimeEvent(4 + |events|, StatusBody(Succeeded))],
                  None, false)
  }

  // The result of an execution that stops with runtime error e after the given events.
  function StoppedRun(events: seq<RuntimeEvent>, e: RuntimeError): RuntimeResult {
    var n := |events|;
    if e.CancelledError? then
      RuntimeResult(Cancelled, events + [RuntimeEvent(n, StatusBody(Cancelled))], Some(e), false)
    else if IsRetryable(e) then
      RuntimeResult(Retriable,
                    events + [RuntimeEvent(n, StatusBody(Failed)), RuntimeEvent(n + 1, StatusBody(Retriable))],
                    Some(e), true)
    else RuntimeResult(Failed, events + [RuntimeEvent(n, StatusBody(Failed))], Some(e), false)
  }

  // The error an execution with room for everything stops with, once the backend has been called.
  function StoppingError(maxEvents: nat, cancelled: bool, backend: Backend): Option<RuntimeError> {
    if BackendFault(backend).Some? then BackendFault(backend)
    else
      var invalid := ExecutionFault(backend.outputOk, backend.events, maxEvents);
      if invalid.Some? then invalid else if cancelled then Some(CancelledError) else None
  }

  function Predicted(maxEvents: nat, preset: bool, cancelled: bool, backend: Backend): Outcome {
    if maxEvents == 1 then Raised(LifecycleError)
    else if maxEvents == 2 then Raised(LimitError)
    else if preset then Returned(StoppedRun(OPENING[..2], CancelledError))
    else if maxEvents == 3 then Raised(LifecycleError)
    else
      match StoppingError(maxEvents, cancelled, backend)
      case Some(e) =>
        if !IsRuntimeError(e) then Raised(e)
        else if maxEvents >= (if IsRetryable(e) then 6 else 5) then Returned(StoppedRun(OPENING, e))
        else Raised(LimitError)
      case None =>
        if maxEvents >= |backend.events| + 5 then Returned(SucceededRun(backend.events)) else Raised(LimitError)
  }

  lemma FailureFrom(l: Lifecycle, maxEvents: nat, e: RuntimeError)
    requires IsRuntimeError(e) && !Terminal(l.status)
    ensures var target := if e.CancelledError? then Cancelled else Failed;
            FailureOutcome(l, maxEvents, e) ==
            if target !in AllowedTargets(l.status) then Raised(LifecycleError)
            else if maxEvents >= |l.events| + (if IsRetryable(e) then 2 else 1) then Returned(StoppedRun(l.events, e))
            else Raised(LimitError)
  {
    var n := |l.events|;
    assert l.events + [RuntimeEvent(n, StatusBody(Failed))] + [RuntimeEvent(n + 1, StatusBody(Retriable))]
        == l.events + [RuntimeEvent(n, StatusBody(Failed)), RuntimeEvent(n + 1, StatusBody(Retriable))];
  }

  // An error that comes after the end changes neither status nor log.
  lemma FailureAfterEnd(l: Lifecycle, maxEvents: nat, e: RuntimeError)
    requires IsRuntimeError(e) && l.status in {Succeeded, Failed, Cancelled}
    ensures FailureOutcome(l, maxEvents, e) == Returned(RuntimeResult(l.status, l.events, Some(e), IsRetryable(e)))
  {
  }

  lemma {:induction false} RecordedAllOutcome(l: Lifecycle, maxEvents: nat, events: seq<BackendEvent>)
    requires |l.events| <= maxEvents
    ensures var recorded := RecordedAll(l, maxEvents, events);
            if |l.events| + |events| <= maxEvents then
              recorded == Effect(l.(events := l.events + Numbered(|l.events|, events)), None)
            else
              && recorded.error == Some(LimitError)
              && recorded.state.status == l.status && |recorded.state.events| == maxEvents
    decreases |events|
  {
    if events == [] {
      assert l.events + Numbered(|l.events|, events) == l.events;
    } else {
      var first := Recorded(l, maxEvents, events[0].body);
      if first.error.None? {
        RecordedAllOutcome(first.state, maxEvents, events[1..]);
        assert first.state.events + Numbered(|l.events| + 1, events[1..]) == l.events + Numbered(|l.events|, events);
      }
    }
  }

  // What a waiting execution comes to: only the mark a cancel request left, on the lifecycle or as the event,
  // decides between success and cancellation.
  lemma ResumeOutcome(maxEvents: nat, marked: bool, eventSet: bool, backend: Backend)
    requires maxEvents >= 4
    ensures Resume(maxEvents, Lifecycle(Running, OPENING, marked), eventSet, backend) ==
            Predicted(maxEvents, false, marked || eventSet, backend)
  {
    var l := Lifecycle(Running, OPENING, marked);
    var closed := Closed(l, maxEvents, eventSet, backend);
    match StoppingError(maxEvents, marked || eventSet, backend)
    case Some(e) =>
      assert closed == Effect(l, Some(e));
      if IsRuntimeError(e) {
        FailureFrom(l, maxEvents, e);
      }
    case None =>
      RecordedAllOutcome(l, maxEvents, backend.events);
      if closed.error.Some? {
        FailureFrom(closed.state, maxEvents, LimitError);
      }
  }

  // Every execution, for every log limit, backend outcome and cancel request.
  lemma ExecutionOutcome(maxEvents: nat, preset: bool, cancelled: bool, backend: Backend)
    requires maxEvents >= 1
    ensures Execute(maxEvents, preset, cancelled, backend) == Predicted(maxEvents, preset, cancelled, backend)
  {
    OpeningOutcome(maxEvents, preset);
    var begun := Opened(FIRST, maxEvents, preset);
    if begun.error.Some? {
      FailureFrom(begun.state, maxEvents, begun.error.value);
    } else {
      ResumeOutcome(maxEvents, cancelled, cancelled, backend);
    }
  }

  // When an accepted execution returns. A valid backend log of more than maxEvents - 5 and at most maxEvents events
  // makes it raise, while a longer one is reported as a failure.
  predicate Returns(maxEvents: nat, preset: bool, cancelled: bool, backend: Backend) {
    if preset then maxEvents >= 3
    else
      && maxEvents >= 5
      && match backend
         case Finished(outputOk, events) =>
           && outputOk
           && (|events| > maxEvents
               || ((forall i :: 0 <= i < |events| ==> IsValidEvent(events[i]))
                   && (cancelled || |events| + 5 <= maxEvents)))
         case TimedOut => maxEvents >= 6
         case RaisedByBackend(e) => IsRetryable(e) ==> maxEvents >= 6
         case _ => true
  }

  lemma PredictedReturnsExactly(maxEvents: nat, preset: bool, cancelled: bool, backend: Backend)
    requires maxEvents >= 1
    ensures Predicted(maxEvents, preset, cancelled, backend).Returned? <==>
            Returns(maxEvents, preset, cancelled, backend)
  {
  }

  // A call for a run not in flight returns, instead of raising, exactly when its input is acceptable and the log has
  // room for what the backend and the cancel requests make of it.
  lemma ReturnsExactlyWhen(
    limits: RuntimeLimits, definition: Definition, request: Request, preset: bool, cancelled: bool, backend: Backend)
    requires limits.maxEvents >= 1
    ensures ExecuteCall(limits, definition, request, preset, cancelled, backend).Returned? <==>
            && HasText(definition.agentKey) && HasText(definition.agentType) && HasText(definition.version)
            && HasText(request.task) && |request.task| <= limits.maxTaskLength
            && (request.requestId == None || |request.requestId.value| <= 128)
            && definition.configurationOk && request.metadataOk
            && Returns(limits.maxEvents, preset, cancelled, backend)
  {
    BlankExactly(definition.agentKey);
    BlankExactly(definition.agentType);
    BlankExactly(definition.version);
    BlankExactly(request.task);
    ExecutionOutcome(limits.maxEvents, preset, cancelled, backend);
    PredictedReturnsExactly(limits.maxEvents, preset, cancelled, backend);
  }

  // An execution succeeds exactly when nobody cancelled it and its backend's log is valid and fits.
  lemma PredictedSucceedsExactly(maxEvents: nat, preset: bool, cancelled: bool, backend: Backend)
    requires maxEvents >= 1
    ensures var outcome := Predicted(maxEvents, preset, cancelled, backend);
            outcome.Returned? && outcome.result.status.Succeeded? <==>
            && !preset && !cancelled && backend.Finished?
            && ExecutionFault(backend.outputOk, backend.events, maxEvents).None? && |backend.events| + 5 <= maxEvents
  {
  }

  predicate HasValidMetadata(backend: Backend) {
    backend.Finished? ==> backend.outputOk && forall i :: 0 <= i < |backend.events| ==> IsValidEvent(backend.events[i])
  }

  function BackendEventCount(backend: Backend): nat { if backend.Finished? then |backend.events| else 0 }

  // With room for six events and for the backend's events plus five, `execute` always returns a result.
  lemma EnoughRoomAlwaysReturns(maxEvents: nat, preset: bool, cancelled: bool, backend: Backend)
    requires HasValidMetadata(backend)
    requires maxEvents >= 6 && maxEvents >= BackendEventCount(backend) + 5
    ensures Execute(maxEvents, preset, cancelled, backend).Returned?
    ensures Execute(maxEvents, preset, cancelled, backend).result.status in {Succeeded, Failed, Cancelled, Retriable}
    ensures preset || (cancelled && backend.Finished?) ==>
              Execute(maxEvents, preset, cancelled, backend).result.status.Cancelled?
  {
    ExecutionOutcome(maxEvents, preset, cancelled, backend);
  }

  // ---------- what each backend makes of an execution ----------

  function StatusesOf(events: seq<RuntimeEvent>): seq<Option<RuntimeStatus>> {
    seq(|events|, i requires 0 <= i < |events| => events[i].body.status)
  }

  // The execution ran, stopped with this error and ended in this status, through `failed` when it may be retried.
  predicate StopsAs(outcome: Outcome, status: RuntimeStatus, e: RuntimeError) {
    && outcome.Returned? && outcome.result.status == status && outcome.result.error == Some(e)
    && (outcome.result.retryable <==> status == Retriable)
    && StatusesOf(outcome.result.events) ==
       [Some(Requested), Some(Validating), Some(Queued), Some(Running)]
       + if status == Retriable then [Some(Failed), Some(Retriable)] else [Some(status)]
  }

  lemma StoppedAs(maxEvents: nat, cancelled: bool, backend: Backend, status: RuntimeStatus, e: RuntimeError)
    requires maxEvents >= 6 && StoppingError(maxEvents, cancelled, backend) == Some(e) && IsRuntimeError(e)
    requires status == if e.CancelledError? then Cancelled else if IsRetryable(e) then Retriable else Failed
    ensures StopsAs(Execute(maxEvents, false, cancelled, backend), status, e)
  {
    ExecutionOutcome(maxEvents, false, cancelled, backend);
  }

  // An execution whose event was set beforehand never comes to its backend.
  lemma PresetOutcome(maxEvents: nat, cancelled: bool, backend: Backend)
    requires maxEvents >= 3
    ensures var outcome := Execute(maxEvents, true, cancelled, backend);
            && outcome.Returned? && outcome.result.status == Cancelled && outcome.result.error == Some(CancelledError)
            && !outcome.result.retryable
            && StatusesOf(outcome.result.events) == [Some(Requested), Some(Validating), Some(Cancelled)]
  {
    ExecutionOutcome(maxEvents, true, cancelled, backend);
  }

  // An execution with room for six events whose event was not set, for each thing its backend call can come to.
  lemma UnansweredOutcome(maxEvents: nat, cancelled: bool, backend: Backend)
    requires maxEvents >= 6 && !backend.Finished?
    ensures var outcome := Execute(maxEvents, false, cancelled, backend);
            match backend
            case Unconfigured => StopsAs(outcome, Failed, BackendError("runtime_backend_unconfigured", false))
            case Crashed => StopsAs(outcome, Failed, BackendError("runtime_backend_error", false))
            case TaskCancelled => StopsAs(outcome, Cancelled, CancelledError)
            case TimedOut => StopsAs(outcome, Retriable, TimeoutError)
            case RaisedByBackend(BackendError(code, retryable)) =>
              StopsAs(outcome, if retryable then Retriable else Failed, BackendError(code, retryable))
            case RaisedByBackend(CancelledError) => StopsAs(outcome, Cancelled, CancelledError)
            case RaisedByBackend(TimeoutError) => StopsAs(outcome, Retriable, TimeoutError)
            case RaisedByBackend(LimitError) => StopsAs(outcome, Failed, LimitError)
            case RaisedByBackend(_) => StopsAs(outcome, Failed, BackendError("runtime_backend_error", false))
            case Finished(_, _) => true
  {
    match backend
    case Unconfigured =>
      StoppedAs(maxEvents, cancelled, backend, Failed, BackendError("runtime_backend_unconfigured", false));
    case Crashed => StoppedAs(maxEvents, cancelled, backend, Failed, BackendError("runtime_backend_error", false));
    case TaskCancelled => StoppedAs(maxEvents, cancelled, backend, Cancelled, CancelledError);
    case TimedOut => StoppedAs(maxEvents, cancelled, backend, Retriable, TimeoutError);
    case RaisedByBackend(e) =>
      match e {
        case BackendError(code, retryable) =>
          StoppedAs(maxEvents, cancelled, backend, if retryable then Retriable else Failed, e);
        case CancelledError => StoppedAs(maxEvents, cancelled, backend, Cancelled, e);
        case TimeoutError => StoppedAs(maxEvents, cancelled, backend, Retriable, e);
        case LimitError => StoppedAs(maxEvents, cancelled, backend, Failed, e);
        case _ => StoppedAs(maxEvents, cancelled, backend, Failed, BackendError("runtime_backend_error", false));
      }
  }

  // ... and when it answers with a log: whether its output and events are valid, whether they fit, and whether a
  // cancel request came meanwhile, in this order.
  lemma AnsweredOutcome(maxEvents: nat, cancelled: bool, outputOk: bool, events: seq<BackendEvent>)
    requires maxEvents >= 6
    ensures var outcome := Execute(maxEvents, false, cancelled, Finished(outputOk, events));
            var invalid :=
              exists i :: 0 <= i < |events| && (!HasText(events[i].body.eventType) || !events[i].metadataOk);
            if !outputOk then outcome == Raised(ValidationError)
            else if |events| > maxEvents then StopsAs(outcome, Failed, LimitError)
            else if invalid then outcome == Raised(ValidationError)
            else if cancelled then StopsAs(outcome, Cancelled, CancelledError)
            else if |events| + 5 > maxEvents then outcome == Raised(LimitError)
            else outcome == Returned(SucceededRun(events))
  {
    var backend := Finished(outputOk, events);
    ExecutionOutcome(maxEvents, false, cancelled, backend);
    forall i | 0 <= i < |events| ensures IsBlank(events[i].body.eventType) <==> !HasText(events[i].body.eventType) {
      BlankExactly(events[i].body.eventType);
    }
    if outputOk && |events| > maxEvents {
      StoppedAs(maxEvents, cancelled, backend, Failed, LimitError);
    } else if cancelled && StoppingError(maxEvents, true, backend) == Some(CancelledError) {
      StoppedAs(maxEvents, cancelled, backend, Cancelled, CancelledError);
    }
  }

  predicate NumberedInOrder(events: seq<RuntimeEvent>) {
    forall i :: 0 <= i < |events| ==> events[i].sequence == i
  }

  // The log of a run that succeeds.
  predicate IsSucceededLog(log: seq<RuntimeEvent>, events: seq<BackendEvent>) {
    var n := |events|;
    && |log| == n + 5
    && log[0].body.status == Some(Requested) && log[1].body.status == Some(Validating)
    && log[2].body.status == Some(Queued) && log[3].body.status == Some(Running)
    && (forall i :: 0 <= i < n ==> log[4 + i] == RuntimeEvent(4 + i, events[i].body))
    && log[4 + n].body.status == Some(Succeeded)
  }

  lemma SucceededRunLog(events: seq<BackendEvent>)
    ensures IsSucceededLog(SucceededRun(events).events, events) && NumberedInOrder(SucceededRun(events).events)
  {
  }

  lemma StoppedRunLog(events: seq<RuntimeEvent>, e: RuntimeError)
    requires NumberedInOrder(events)
    ensures NumberedInOrder(StoppedRun(events, e).events)
  {
  }

  // A succeeded result: nobody cancelled, and the log is the four opening events, then the backend's events in
  // order renumbered from 4, then `succeeded`.
  lemma SucceededLog(maxEvents: nat, preset: bool, cancelled: bool, backend: Backend)
    requires maxEvents >= 1
    requires Execute(maxEvents, preset, cancelled, backend).Returned?
    requires Execute(maxEvents, preset, cancelled, backend).result.status.Succeeded?
    ensures !preset && !cancelled && backend.Finished?
    ensures var log := Execute(maxEvents, preset, cancelled, backend).result.events;
            IsSucceededLog(log, backend.events) && NumberedInOrder(log) && |log| <= maxEvents
  {
    ExecutionOutcome(maxEvents, preset, cancelled, backend);
    if backend.Finished? {
      SucceededRunLog(backend.events);
    }
  }

  // Whatever `execute` returns, its status is one the run can move to, and its events are numbered in order.
  lemma ResultStatuses(maxEvents: nat, preset: bool, cancelled: bool, backend: Backend)
    requires maxEvents >= 1 && Execute(maxEvents, preset, cancelled, backend).Returned?
    ensures var result := Execute(maxEvents, preset, cancelled, backend).result;
            && result.status in {Succeeded, Failed, Cancelled, Retriable}
            && (result.retryable <==> result.status.Retriable?)
            && (result.status.Succeeded? <==> result.error.None?)
            && |result.events| <= maxEvents
            && NumberedInOrder(result.events)
  {
    ExecutionOutcome(maxEvents, preset, cancelled, backend);
    var stopped := StoppingError(maxEvents, cancelled, backend);
    if preset {
      StoppedRunLog(OPENING[..2], CancelledError);
    } else if stopped.Some? {
      StoppedRunLog(OPENING, stopped.value);
    } else {
      SucceededRunLog(backend.events);
    }
  }
}

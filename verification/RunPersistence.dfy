/**
 The persisted side of an agent run: one row, its steps and its numbered events, written by one task at a time
 through a database session that commits and rolls back.
 Timestamps, messages, output payloads and audit records are not modelled; an audit write only succeeds or raises.
 */
module RunPersistence {
  import opened Outcomes
  import Planning
  import Execution
  import AgentRuntime

  datatype RunStatus =
    | Requested | Validating | Queued | Running | WaitingForApproval | Succeeded | Failed | Cancelled | Retriable

  function AllowedTargets(status: RunStatus): set<RunStatus> {
    match status
    case Requested => {Validating, Cancelled}
    case Validating => {Queued, Failed, Cancelled}
    case Queued => {Running, Cancelled}
    case Running => {WaitingForApproval, Succeeded, Failed, Cancelled, Retriable}
    case WaitingForApproval => {Running, Failed, Cancelled}
    case Succeeded => {}
    case Failed => {Retriable}
    case Cancelled => {}
    case Retriable => {Queued, Cancelled}
  }

  predicate Terminal(status: RunStatus) { status.Succeeded? || status.Failed? || status.Cancelled? }

  // The table read by its columns: from where each status can be reached. Cancelling is possible exactly until the run
  // is over; only a failed run has a way out of its end, to be retried.
  lemma LegalMoves(status: RunStatus, target: RunStatus)
    ensures target in AllowedTargets(status) <==>
            match target
            case Requested => false
            case Validating => status == Requested
            case Queued => status in {Validating, Retriable}
            case Running => status in {Queued, WaitingForApproval}
            case WaitingForApproval => status == Running
            case Succeeded => status == Running
            case Failed => status in {Validating, Running, WaitingForApproval}
            case Cancelled => status !in {Succeeded, Failed, Cancelled}
            case Retriable => status in {Running, Failed}
    ensures Terminal(status) <==> Cancelled !in AllowedTargets(status)
  {
  }

  function StatusName(status: RunStatus): string {
    match status
    case Requested => "requested"
    case Validating => "validating"
    case Queued => "queued"
    case Running => "running"
    case WaitingForApproval => "waiting_for_approval"
    case Succeeded => "succeeded"
    case Failed => "failed"
    case Cancelled => "cancelled"
    case Retriable => "retriable"
  }

  function StatusNamed(name: string): Option<RunStatus> {
    if name == "requested" then Some(Requested)
    else if name == "validating" then Some(Validating)
    else if name == "queued" then Some(Queued)
    else if name == "running" then Some(Running)
    else if name == "waiting_for_approval" then Some(WaitingForApproval)
    else if name == "succeeded" then Some(Succeeded)
    else if name == "failed" then Some(Failed)
    else if name == "cancelled" then Some(Cancelled)
    else if name == "retriable" then Some(Retriable)
    else None
  }

  lemma StatusNameReadsBack(status: RunStatus)
    ensures StatusNamed(StatusName(status)) == Some(status)
  {
    assert "validating" != "requested" && "retriable" != "requested" && "retriable" != "succeeded";
    assert "requested"[1] == 'e' && "validating"[0] == 'v' && "queued"[0] == 'q' && "running"[1] == 'u';
    assert "waiting_for_approval"[0] == 'w' && "succeeded"[0] == 's' && "failed"[0] == 'f' && "cancelled"[0] == 'c';
    assert "requested"[2] == 'q' && "retriable"[2] == 't';
  }

  datatype RunEvent = RunEvent(sequence: nat, eventType: string, metadata: map<string, string>)

  datatype StepStatus = Pending | StepRunning | StepSucceeded | Skipped | StepFailed | StepCancelled

  datatype RunStep = RunStep(stepIndex: int, planStepId: string, status: StepStatus)

  datatype RunData = RunData(
    status: RunStatus, errorCode: Option<string>, retryCount: nat, events: seq<RunEvent>, steps: seq<RunStep>)

  const STATUS_CHANGED := "run.status_changed"

  // ---------- event numbers ----------

  function MaxSequence(events: seq<RunEvent>): int {
    if events == [] then -1
    else
      var earlier := MaxSequence(events[..|events| - 1]);
      var last := events[|events| - 1].sequence;
      if last > earlier then last else earlier
  }

  // next_event_sequence: one past the largest number in use.
  function NextSequence(events: seq<RunEvent>): (n: nat)
    ensures n == MaxSequence(events) + 1
  {
    assert MaxSequence(events) >= -1;
    MaxSequence(events) + 1
  }

  // The events of a run are numbered 0, 1, 2, ... in the order they were written.
  predicate NumberedInOrder(events: seq<RunEvent>) {
    forall i :: 0 <= i < |events| ==> events[i].sequence == i
  }

  lemma {:induction false} NextIsLength(events: seq<RunEvent>)
    requires NumberedInOrder(events)
    ensures NextSequence(events) == |events|
  {
    if events != [] {
      NextIsLength(events[..|events| - 1]);
    }
  }

  function Appended(d: RunData, eventType: string, metadata: map<string, string>): RunData {
    d.(events := d.events + [RunEvent(NextSequence(d.events), eventType, metadata)])
  }

  // ---------- status changes as a path ----------

  datatype StatusChange = StatusChange(from: RunStatus, to: RunStatus)

  // The change an event of type run.status_changed reports, if its metadata names two statuses.
  function ReportedChange(metadata: map<string, string>): Option<StatusChange> {
    if "from" in metadata && "to" in metadata
       && StatusNamed(metadata["from"]).Some? && StatusNamed(metadata["to"]).Some? then
      Some(StatusChange(StatusNamed(metadata["from"]).value, StatusNamed(metadata["to"]).value))
    else None
  }

  function FollowChange(at: Option<RunStatus>, e: RunEvent): Option<RunStatus> {
    if e.eventType != STATUS_CHANGED then at
    else
      var change := ReportedChange(e.metadata);
      if at.Some? && change.Some? && change.value.from == at.value && change.value.to in AllowedTargets(at.value) then
        Some(change.value.to)
      else None
  }

  // Follows the reported changes from a status: where they lead when each starts where the last ended and is
  // allowed, and None when they do not form a path.
  function Follow(at: Option<RunStatus>, events: seq<RunEvent>): Option<RunStatus> {
    if events == [] then at else FollowChange(Follow(at, events[..|events| - 1]), events[|events| - 1])
  }

  // The reported changes form one legal path from `requested` to the stored status.
  predicate HistoryMatches(d: RunData) { Follow(Some(Requested), d.events) == Some(d.status) }

  predicate RunInv(d: RunData) { NumberedInOrder(d.events) && HistoryMatches(d) }

  function ChangeMetadata(from: RunStatus, to: RunStatus): map<string, string> {
    map["from" := StatusName(from), "to" := StatusName(to)]
  }

  // _transition_run's writes: the row's new status and the event reporting it.
  function Moved(d: RunData, target: RunStatus, error: Option<string>, retry: bool): RunData {
    Appended(
      d.(status := target,
         errorCode := if error.Some? then error else d.errorCode,
         retryCount := if retry then d.retryCount + 1 else d.retryCount),
      STATUS_CHANGED, ChangeMetadata(d.status, target))
  }

  lemma ReportsItsChange(from: RunStatus, to: RunStatus)
    ensures ReportedChange(ChangeMetadata(from, to)) == Some(StatusChange(from, to))
  {
    StatusNameReadsBack(from);
    StatusNameReadsBack(to);
    assert "from"[0] != "to"[0];
  }

  lemma MovedKeepsInv(d: RunData, target: RunStatus, error: Option<string>, retry: bool)
    requires RunInv(d) && target in AllowedTargets(d.status)
    ensures RunInv(Moved(d, target, error, retry))
  {
    NextIsLength(d.events);
    ReportsItsChange(d.status, target);
    var d' := Moved(d, target, error, retry);
    assert d'.events[..|d.events|] == d.events;
  }

  // Appending any event keeps the numbering, and the history too unless the event poses as a status change.
  lemma AppendedKeepsInv(d: RunData, eventType: string, metadata: map<string, string>)
    requires RunInv(d) && eventType != STATUS_CHANGED
    ensures RunInv(Appended(d, eventType, metadata))
  {
    NextIsLength(d.events);
    assert Appended(d, eventType, metadata).events[..|d.events|] == d.events;
  }

  // ---------- the session ----------

  predicate IndexIsFree(steps: seq<RunStep>, index: int) {
    forall i :: 0 <= i < |steps| ==> steps[i].stepIndex != index
  }

  /** A database session over one run: what is committed, and what this task has written since. */
  class RunSession {
    var committed: Option<RunData>
    var working: Option<RunData>

    constructor ()
      ensures committed == None && working == None
    {
      committed, working := None, None;
    }

    method Commit()
      modifies this`committed
      ensures committed == working
    {
      committed := working;
    }

    method Rollback()
      modifies this`working
      ensures working == committed
    {
      working := committed;
    }

    method CreateRun()
      modifies this`working
      ensures working == Some(RunData(Requested, None, 0, [], []))
    {
      working := Some(RunData(Requested, None, 0, [], []));
    }

    method NextEventSequence() returns (sequence: nat)
      requires working.Some?
      ensures sequence == NextSequence(working.value.events)
    {
      sequence := NextSequence(working.value.events);
    }

    method CreateEvent(sequence: nat, eventType: string, metadata: map<string, string>)
      requires working.Some?
      modifies this`working
      ensures working == Some(old(working).value.(
                                events := old(working).value.events + [RunEvent(sequence, eventType, metadata)]))
    {
      working := Some(working.value.(events := working.value.events + [RunEvent(sequence, eventType, metadata)]));
    }

    // The pair (run, step index) is unique.
    method CreateStep(step: RunStep) returns (ok: bool)
      requires working.Some?
      modifies this`working
      ensures ok == IndexIsFree(old(working).value.steps, step.stepIndex)
      ensures working ==
              if ok then Some(old(working).value.(steps := old(working).value.steps + [step])) else old(working)
    {
      ok := IndexIsFree(working.value.steps, step.stepIndex);
      if ok {
        working := Some(working.value.(steps := working.value.steps + [step]));
      }
    }
  }

  // ---------- persisting the executor's and the runtime's logs ----------

  function StepStatusFromExecution(status: Execution.StepStatus): StepStatus {
    match status
    case StepPending => Pending
    case StepRunning => StepRunning
    case StepCompleted => StepSucceeded
    case StepDeferred => Skipped
    case StepFailed => StepFailed
    case StepCancelled => StepCancelled
  }

  // A step's stored status tells its status in the executor: completed steps succeeded, deferred ones were skipped.
  lemma StepStatusesCarryOver(status: Execution.StepStatus)
    ensures match StepStatusFromExecution(status)
            case Pending => status == Execution.StepPending
            case StepRunning => status == Execution.StepRunning
            case StepSucceeded => status == Execution.StepCompleted
            case Skipped => status == Execution.StepDeferred
            case StepFailed => status == Execution.StepFailed
            case StepCancelled => status == Execution.StepCancelled
  {
  }

  function ExecutionStatusName(status: Execution.ExecutionStatus): string {
    match status
    case Requested => "requested"
    case Validating => "validating"
    case Running => "running"
    case WaitingForApproval => "waiting_for_approval"
    case Succeeded => "succeeded"
    case Failed => "failed"
    case Cancelled => "cancelled"
  }

  // The executor's status names are the run's.
  lemma ExecutionNamesReadBack(status: Execution.ExecutionStatus)
    ensures StatusNamed(ExecutionStatusName(status)) ==
            Some(match status
                 case Requested => Requested
                 case Validating => Validating
                 case Running => Running
                 case WaitingForApproval => WaitingForApproval
                 case Succeeded => Succeeded
                 case Failed => Failed
                 case Cancelled => Cancelled)
  {
    StatusNameReadsBack(Requested);
    StatusNameReadsBack(Validating);
    StatusNameReadsBack(Running);
    StatusNameReadsBack(WaitingForApproval);
    StatusNameReadsBack(Succeeded);
    StatusNameReadsBack(Failed);
    StatusNameReadsBack(Cancelled);
  }

  function ExecutionEventName(eventType: Execution.EventType): string {
    match eventType
    case StatusReached(status) => "execution." + ExecutionStatusName(status)
    case StepStarted => "step.started"
    case StepFinished(deferred) => if deferred then "step.deferred" else "step.completed"
  }

  lemma ExecutionEventsAreNotChanges(eventType: Execution.EventType)
    ensures ExecutionEventName(eventType) != STATUS_CHANGED
  {
    assert STATUS_CHANGED[0] == 'r' && ExecutionEventName(eventType)[0] != 'r';
  }

  // An event to be written: its type and metadata, still without a number.
  datatype Draft = Draft(eventType: string, metadata: map<string, string>)

  function AppendedAll(d: RunData, drafts: seq<Draft>): RunData {
    if drafts == [] then d
    else
      var last := drafts[|drafts| - 1];
      Appended(AppendedAll(d, drafts[..|drafts| - 1]), last.eventType, last.metadata)
  }

  function ExecutionDrafts(events: seq<Execution.ExecutionEvent>): seq<Draft> {
    seq(|events|, i requires 0 <= i < |events| =>
      Draft(ExecutionEventName(events[i].eventType), map["executor_sequence" := Planning.Decimal(events[i].sequence)]))
  }

  function RuntimeDrafts(events: seq<AgentRuntime.RuntimeEvent>): seq<Draft> {
    seq(|events|, i requires 0 <= i < |events| =>
      Draft(events[i].body.eventType,
            events[i].body.metadata["runtime_sequence" := Planning.Decimal(events[i].sequence)]))
  }

  predicate IsPlanned(plan: Planning.ExecutionPlan, stepId: string) {
    exists i :: 0 <= i < |plan.steps| && plan.steps[i].stepId == stepId
  }

  // The rows for the step states, or None when a state is not of the plan or repeats a step index.
  function WithSteps(
    d: RunData, plan: Planning.ExecutionPlan, states: seq<Execution.StepState>): Option<RunData>
  {
    if states == [] then Some(d)
    else
      var earlier := WithSteps(d, plan, states[..|states| - 1]);
      var state := states[|states| - 1];
      if earlier.None? || !IsPlanned(plan, state.stepId) || !IndexIsFree(earlier.value.steps, state.order - 1) then None
      else Some(earlier.value.(
        steps := earlier.value.steps + [RunStep(state.order - 1, state.stepId, StepStatusFromExecution(state.status))]))
  }

  // Every state is of the plan, and no two have the same order or the index of a row that is already there.
  predicate CanStoreSteps(d: RunData, plan: Planning.ExecutionPlan, states: seq<Execution.StepState>) {
    && (forall i :: 0 <= i < |states| ==> IsPlanned(plan, states[i].stepId))
    && (forall i, j :: 0 <= i < j < |states| ==> states[i].order != states[j].order)
    && (forall i, k :: 0 <= i < |states| && 0 <= k < |d.steps| ==> d.steps[k].stepIndex != states[i].order - 1)
  }

  lemma CanStoreMore(d: RunData, plan: Planning.ExecutionPlan, states: seq<Execution.StepState>)
    requires states != []
    ensures var front, last := states[..|states| - 1], states[|states| - 1];
            CanStoreSteps(d, plan, states) <==>
            && CanStoreSteps(d, plan, front) && IsPlanned(plan, last.stepId)
            && IndexIsFree(d.steps, last.order - 1)
            && (forall i :: 0 <= i < |front| ==> front[i].order != last.order)
  {
    var front, last := states[..|states| - 1], states[|states| - 1];
    assert states == front + [last];
  }

  // The rows of these states, in their order.
  function RowsOf(states: seq<Execution.StepState>): seq<RunStep> {
    seq(|states|, i requires 0 <= i < |states| =>
      RunStep(states[i].order - 1, states[i].stepId, StepStatusFromExecution(states[i].status)))
  }

  lemma FreeAfterRows(steps: seq<RunStep>, states: seq<Execution.StepState>, order: nat)
    ensures IndexIsFree(steps + RowsOf(states), order - 1) <==>
            IndexIsFree(steps, order - 1) && forall i :: 0 <= i < |states| ==> states[i].order != order
  {
    if IndexIsFree(steps + RowsOf(states), order - 1) {
      forall i | 0 <= i < |steps| ensures steps[i].stepIndex != order - 1 {
        assert (steps + RowsOf(states))[i] == steps[i];
      }
      forall i | 0 <= i < |states| ensures states[i].order != order {
        assert (steps + RowsOf(states))[|steps| + i] == RowsOf(states)[i];
      }
    }
  }

  // The step rows of a result are stored all, in order and under their own indices, or not at all.
  lemma {:induction false} WithStepsExactly(
    d: RunData, plan: Planning.ExecutionPlan, states: seq<Execution.StepState>)
    ensures WithSteps(d, plan, states) ==
            if CanStoreSteps(d, plan, states) then Some(d.(steps := d.steps + RowsOf(states))) else None
    decreases |states|
  {
    if states == [] {
      assert d.steps + RowsOf(states) == d.steps;
    } else {
      var front, last := states[..|states| - 1], states[|states| - 1];
      WithStepsExactly(d, plan, front);
      CanStoreMore(d, plan, states);
      FreeAfterRows(d.steps, front, last.order);
      var row := RunStep(last.order - 1, last.stepId, StepStatusFromExecution(last.status));
      assert RowsOf(states) == RowsOf(front) + [row];
      assert d.steps + RowsOf(states) == d.steps + RowsOf(front) + [row];
    }
  }

  lemma {:induction false} AppendedAllNumbers(d: RunData, drafts: seq<Draft>)
    requires NumberedInOrder(d.events)
    ensures var d' := AppendedAll(d, drafts);
            && d' == d.(events := d'.events) && NumberedInOrder(d'.events)
            && |d'.events| == |d.events| + |drafts| && d'.events[..|d.events|] == d.events
            && forall i :: 0 <= i < |drafts| ==>
                 d'.events[|d.events| + i] == RunEvent(|d.events| + i, drafts[i].eventType, drafts[i].metadata)
  {
    if drafts != [] {
      AppendedAllNumbers(d, drafts[..|drafts| - 1]);
      NextIsLength(AppendedAll(d, drafts[..|drafts| - 1]).events);
    } else {
      assert d.events[..|d.events|] == d.events;
    }
  }

  function FollowDraft(at: Option<RunStatus>, draft: Draft): Option<RunStatus> {
    FollowChange(at, RunEvent(0, draft.eventType, draft.metadata))
  }

  function FollowDrafts(at: Option<RunStatus>, drafts: seq<Draft>): Option<RunStatus> {
    if drafts == [] then at else FollowDraft(FollowDrafts(at, drafts[..|drafts| - 1]), drafts[|drafts| - 1])
  }

  lemma {:induction false} FollowDraftsConcat(at: Option<RunStatus>, a: seq<Draft>, b: seq<Draft>)
    ensures FollowDrafts(at, a + b) == FollowDrafts(FollowDrafts(at, a), b)
    decreases |b|
  {
    if b == [] {
      assert a + b == a;
    } else {
      assert (a + b)[..|a + b| - 1] == a + b[..|b| - 1];
      FollowDraftsConcat(at, a, b[..|b| - 1]);
    }
  }

  lemma {:induction false} AppendedAllFollows(d: RunData, drafts: seq<Draft>, at: Option<RunStatus>)
    ensures Follow(at, AppendedAll(d, drafts).events) == FollowDrafts(Follow(at, d.events), drafts)
  {
    if drafts != [] {
      AppendedAllFollows(d, drafts[..|drafts| - 1], at);
      var d1, last := AppendedAll(d, drafts[..|drafts| - 1]), drafts[|drafts| - 1];
      assert Appended(d1, last.eventType, last.metadata).events[..|d1.events|] == d1.events;
    }
  }

  // Persisting a log keeps the history exact if and only if the status changes among its events, read as
  // reports about the run, lead from the run's status back to it; a log without such events always does.
  lemma PersistingKeepsInvExactly(d: RunData, drafts: seq<Draft>)
    requires RunInv(d)
    ensures RunInv(AppendedAll(d, drafts)) <==> FollowDrafts(Some(d.status), drafts) == Some(d.status)
  {
    AppendedAllNumbers(d, drafts);
    AppendedAllFollows(d, drafts, Some(Requested));
  }

  // A stored event of either log can be traced back: it carries the number it had there, which reads back, and
  // whatever else it carried.
  lemma StoredNumbersReadBack(
    executed: seq<Execution.ExecutionEvent>, logged: seq<AgentRuntime.RuntimeEvent>, i: nat, j: nat)
    requires i < |executed| && j < |logged|
    ensures "executor_sequence" in ExecutionDrafts(executed)[i].metadata
    ensures Planning.Numeral(ExecutionDrafts(executed)[i].metadata["executor_sequence"]) == executed[i].sequence
    ensures "runtime_sequence" in RuntimeDrafts(logged)[j].metadata
    ensures Planning.Numeral(RuntimeDrafts(logged)[j].metadata["runtime_sequence"]) == logged[j].sequence
    ensures RuntimeDrafts(logged)[j].eventType == logged[j].body.eventType
    ensures RuntimeDrafts(logged)[j].metadata - {"runtime_sequence"} == logged[j].body.metadata - {"runtime_sequence"}
  {
    Planning.NumeralOfDecimal(executed[i].sequence);
    Planning.NumeralOfDecimal(logged[j].sequence);
  }

  predicate NoStatusChanges(drafts: seq<Draft>) {
    forall i :: 0 <= i < |drafts| ==> drafts[i].eventType != STATUS_CHANGED
  }

  lemma {:induction false} NoChangesLeadNowhere(at: Option<RunStatus>, drafts: seq<Draft>)
    requires NoStatusChanges(drafts)
    ensures FollowDrafts(at, drafts) == at
  {
    if drafts != [] {
      NoChangesLeadNowhere(at, drafts[..|drafts| - 1]);
    }
  }
}

/**
 The agent run service: creating a run, orchestrating context, planner, executor and runtime over it, and failing
 it after an error. Every stage may raise; so may each audit write.
 */
module AgentRuns {
  import opened Outcomes
  import opened RunPersistence
  import Planning
  import Execution
  import AgentRuntime

  // Whether each audit write of one orchestration succeeds (as it does when there is no audit logger).
  datatype Audits = Audits(
    requested: bool, validating: bool, queued: bool, running: bool, final: bool,
    recoveryValidating: bool, recoveryFailed: bool)

  const ALL_AUDITS := Audits(true, true, true, true, true, true, true)

  // What each stage comes to; None where it raises.
  datatype Stages = Stages(
    payloadAccepted: bool,
    contextAssembled: bool,
    plan: Option<Planning.ExecutionPlan>,
    execution: Option<Execution.ExecutionResult>,
    runtime: Option<AgentRuntime.RuntimeResult>,
    outputMetadataOk: bool,
    errorCode: string,
    audits: Audits)

  function RunStatusFromRuntime(status: AgentRuntime.RuntimeStatus): RunStatus {
    match status
    case Succeeded => Succeeded
    case Failed => Failed
    case Cancelled => Cancelled
    case Retriable => Retriable
    case _ => Failed
  }

  datatype Change = Change(target: RunStatus, outputOk: bool, error: Option<string>, retry: bool)

  // _transition_run: the newly committed run, or None when it raises (and nothing new is committed).
  function Transitioned(d: RunData, change: Change, auditOk: bool): Option<RunData> {
    if change.target !in AllowedTargets(d.status) || !change.outputOk || !auditOk then None
    else Some(Moved(d, change.target, change.error, change.retry))
  }

  function Simple(target: RunStatus): Change { Change(target, true, None, false) }

  function RuntimeErrorCode(e: AgentRuntime.RuntimeError): string {
    match e
    case CancelledError => "runtime_cancelled"
    case TimeoutError => "runtime_timeout"
    case LimitError => "runtime_limit"
    case BackendError(code, _) => code
    case LifecycleError => "AgentLifecycleError"
    case ValidationError => "AgentValidationError"
  }

  function FinalChange(result: AgentRuntime.RuntimeResult, outputOk: bool): Change {
    Change(RunStatusFromRuntime(result.status), outputOk,
           if result.error.Some? then Some(RuntimeErrorCode(result.error.value)) else None, result.retryable)
  }

  const CREATED := RunData(Requested, None, 0, [RunEvent(0, "run.requested", map[])], [])

  // The committed run when the try block is left, and whether it was left by an exception.
  datatype Attempt = Attempt(data: RunData, raised: bool)

  function Persisted(d: RunData, plan: Planning.ExecutionPlan, result: Execution.ExecutionResult): Option<RunData> {
    var stepped := WithSteps(d, plan, result.state.stepStates);
    if stepped.None? then None else Some(AppendedAll(stepped.value, ExecutionDrafts(result.state.events)))
  }

  function AfterRuntime(d: RunData, result: AgentRuntime.RuntimeResult, stages: Stages): Attempt {
    var logged := AppendedAll(d, RuntimeDrafts(result.events));
    var moved := Transitioned(logged, FinalChange(result, stages.outputMetadataOk), stages.audits.final);
    if moved.None? then Attempt(logged, true) else Attempt(moved.value, false)
  }

  function AfterRunning(d: RunData, plan: Planning.ExecutionPlan, stages: Stages): Attempt {
    if stages.execution.None? then Attempt(d, true)
    else
      var persisted := Persisted(d, plan, stages.execution.value);
      if persisted.None? then Attempt(d, true)
      else if stages.runtime.None? then Attempt(persisted.value, true)
      else AfterRuntime(persisted.value, stages.runtime.value, stages)
  }

  function AfterValidating(d: RunData, stages: Stages): Attempt {
    if !stages.contextAssembled then Attempt(d, true)
    else
      var assembled := Appended(d, "context.assembled", map[]);
      if stages.plan.None? then Attempt(assembled, true)
      else
        var planned := Appended(assembled, "planner.completed", map[]);
        var queued := Transitioned(planned, Simple(Queued), stages.audits.queued);
        if queued.None? then Attempt(planned, true)
        else
          var running := Transitioned(queued.value, Simple(Running), stages.audits.running);
          if running.None? then Attempt(queued.value, true)
          else AfterRunning(running.value, stages.plan.value, stages)
  }

  function Attempted(stages: Stages): Attempt {
    var validating := Transitioned(CREATED, Simple(Validating), stages.audits.validating);
    if validating.None? then Attempt(CREATED, true) else AfterValidating(validating.value, stages)
  }

  // _fail_run_after_error: what is committed after it, whether or not it raises itself.
  function Recovered(d: RunData, stages: Stages): RunData {
    var validating :=
      if d.status.Requested? then Transitioned(d, Simple(Validating), stages.audits.recoveryValidating) else Some(d);
    if validating.None? then d
    else if Terminal(validating.value.status) then validating.value
    else
      var failed := Transitioned(
        validating.value, Change(Failed, true, Some(stages.errorCode), false), stages.audits.recoveryFailed);
      if failed.None? then validating.value else failed.value
  }

  // create_and_execute: the committed run at the end, if a run was created at all.
  function Orchestrated(stages: Stages): Option<RunData> {
    if !stages.payloadAccepted || !stages.audits.requested then None
    else
      var attempt := Attempted(stages);
      Some(if attempt.raised then Recovered(attempt.data, stages) else attempt.data)
  }

  // The other writers of a run. Each commits its change or, when it raises, leaves the run as it was.
  datatype Operation =
    | UpdateStatus(change: Change)
    | CancelRun(auditOk: bool)
    | AppendEvent(
        eventType: string, metadata: map<string, string>, sequence: Option<nat>, metadataOk: bool, stepOk: bool)
    | AppendStep(step: RunStep, metadataOk: bool)

  const MAX_EVENTS_PER_RUN := 1_000
  const MAX_STEPS_PER_RUN := 100

  // The pair (run, sequence) is unique.
  predicate SequenceIsFree(events: seq<RunEvent>, sequence: nat) {
    forall i :: 0 <= i < |events| ==> events[i].sequence != sequence
  }

  // Appending is refused for the metadata, the number of events, a named step that is not the run's (`stepOk`), or a
  // number in use.
  predicate IsRefused(events: seq<RunEvent>, op: Operation)
    requires op.AppendEvent?
  {
    || !op.metadataOk || |events| >= MAX_EVENTS_PER_RUN || !op.stepOk
    || (op.sequence.Some? && !SequenceIsFree(events, op.sequence.value))
  }

  function Applied(d: RunData, op: Operation): RunData {
    match op
    case UpdateStatus(change) => if Transitioned(d, change, true).Some? then Transitioned(d, change, true).value else d
    case CancelRun(auditOk) =>
      if Transitioned(d, Simple(Cancelled), auditOk).Some? then Transitioned(d, Simple(Cancelled), auditOk).value else d
    case AppendEvent(eventType, metadata, sequence, _, _) =>
      if IsRefused(d.events, op) then d
      else if sequence.None? then Appended(d, eventType, metadata)
      else d.(events := d.events + [RunEvent(sequence.value, eventType, metadata)])
    case AppendStep(step, metadataOk) =>
      if !metadataOk || |d.steps| >= MAX_STEPS_PER_RUN || !IndexIsFree(d.steps, step.stepIndex) then d
      else d.(steps := d.steps + [step])
  }

  function AppliedAll(d: RunData, ops: seq<Operation>): RunData {
    if ops == [] then d else Applied(AppliedAll(d, ops[..|ops| - 1]), ops[|ops| - 1])
  }

  lemma {:induction false} StepsFailEarly(
    d: RunData, plan: Planning.ExecutionPlan, states: seq<Execution.StepState>, n: nat)
    requires n <= |states| && WithSteps(d, plan, states[..n]).None?
    ensures WithSteps(d, plan, states).None?
    decreases |states| - n
  {
    if n == |states| {
      assert states[..n] == states;
    } else {
      assert states[..n + 1][..n] == states[..n];
      StepsFailEarly(d, plan, states, n + 1);
    }
  }

  /** The service over one database session. Methods return false where the source raises. */
  class AgentRunService {
    const db: RunSession

    constructor (db: RunSession)
      ensures this.db == db
    {
      this.db := db;
    }

    method AppendRunEvent(eventType: string, metadata: map<string, string>)
      requires db.working.Some?
      modifies db`working
      ensures db.working == Some(Appended(old(db.working).value, eventType, metadata))
    {
      var sequence := db.NextEventSequence();
      db.CreateEvent(sequence, eventType, metadata);
    }

    method TransitionRun(change: Change, auditOk: bool) returns (ok: bool)
      requires db.working.Some? && db.committed == db.working
      modifies db
      ensures ok == Transitioned(old(db.working).value, change, auditOk).Some?
      ensures db.committed == if ok then Transitioned(old(db.working).value, change, auditOk) else old(db.committed)
      ensures ok ==> db.working == db.committed
    {
      var run := db.working.value;
      if change.target !in AllowedTargets(run.status) {
        return false;
      }
      if !change.outputOk {
        return false;
      }
      db.working := Some(run.(
        status := change.target,
        errorCode := if change.error.Some? then change.error else run.errorCode,
        retryCount := if change.retry then run.retryCount + 1 else run.retryCount));
      AppendRunEvent(STATUS_CHANGED, ChangeMetadata(run.status, change.target));
      if !auditOk {
        return false;
      }
      db.Commit();
      ok := true;
    }

    method UpdateRunStatus(change: Change) returns (ok: bool)
      requires db.working.Some? && db.committed == db.working
      modifies db
      ensures db.committed == Some(Applied(old(db.committed).value, UpdateStatus(change)))
      ensures ok == (change.target in AllowedTargets(old(db.committed).value.status) && change.outputOk)
    {
      ok := TransitionRun(change, true);
    }

    method Cancel(auditOk: bool) returns (ok: bool)
      requires db.working.Some? && db.committed == db.working
      modifies db
      ensures db.committed == Some(Applied(old(db.committed).value, CancelRun(auditOk)))
      ensures ok == (Cancelled in AllowedTargets(old(db.committed).value.status) && auditOk)
    {
      ok := TransitionRun(Simple(Cancelled), auditOk);
    }

    method AddEvent(
      eventType: string, metadata: map<string, string>, sequence: Option<nat>, metadataOk: bool, stepOk: bool)
      returns (ok: bool)
      requires db.working.Some? && db.committed == db.working
      modifies db
      ensures var op := AppendEvent(eventType, metadata, sequence, metadataOk, stepOk);
              && db.committed == Some(Applied(old(db.committed).value, op))
              && ok == !IsRefused(old(db.committed).value.events, op)
    {
      if !metadataOk || |db.working.value.events| >= MAX_EVENTS_PER_RUN || !stepOk {
        return false;
      }
      if sequence.None? {
        AppendRunEvent(eventType, metadata);
      } else if !SequenceIsFree(db.working.value.events, sequence.value) {
        return false;
      } else {
        db.CreateEvent(sequence.value, eventType, metadata);
      }
      db.Commit();
      ok := true;
    }

    method AddStep(step: RunStep, metadataOk: bool) returns (ok: bool)
      requires db.working.Some? && db.committed == db.working
      modifies db
      ensures db.committed == Some(Applied(old(db.committed).value, AppendStep(step, metadataOk)))
      ensures var steps := old(db.committed).value.steps;
              ok == (metadataOk && |steps| < MAX_STEPS_PER_RUN && IndexIsFree(steps, step.stepIndex))
    {
      if !metadataOk || |db.working.value.steps| >= MAX_STEPS_PER_RUN {
        return false;
      }
      ok := db.CreateStep(step);
      if ok {
        db.Commit();
      }
    }

    method AppendDrafts(drafts: seq<Draft>)
      requires db.working.Some?
      modifies db`working
      ensures db.working == Some(AppendedAll(old(db.working).value, drafts))
    {
      ghost var was := db.working.value;
      for i := 0 to |drafts|
        invariant db.working == Some(AppendedAll(was, drafts[..i]))
      {
        assert drafts[..i + 1][..i] == drafts[..i];
        AppendRunEvent(drafts[i].eventType, drafts[i].metadata);
      }
      assert drafts[..|drafts|] == drafts;
    }

    method PersistExecutionResult(plan: Planning.ExecutionPlan, result: Execution.ExecutionResult) returns (ok: bool)
      requires db.working.Some?
      modifies db`working
      ensures ok == Persisted(old(db.working).value, plan, result).Some?
      ensures ok ==> db.working == Persisted(old(db.working).value, plan, result)
      // When it raises, the step rows before the offending one are still to be rolled back.
      ensures !ok ==> exists n: nat :: n < |result.state.stepStates|
                        && WithSteps(old(db.working).value, plan, result.state.stepStates[..n]) == db.working
    {
      ghost var was := db.working.value;
      var states := result.state.stepStates;
      for i := 0 to |states|
        invariant db.working.Some? && WithSteps(was, plan, states[..i]) == db.working
      {
        var state := states[i];
        assert states[..i + 1][..i] == states[..i];
        if !IsPlanned(plan, state.stepId) {
          StepsFailEarly(was, plan, states, i + 1);
          return false;
        }
        var created := db.CreateStep(RunStep(state.order - 1, state.stepId, StepStatusFromExecution(state.status)));
        if !created {
          StepsFailEarly(was, plan, states, i + 1);
          return false;
        }
      }
      assert states[..|states|] == states;
      AppendDrafts(ExecutionDrafts(result.state.events));
      ok := true;
    }

    method PersistRuntimeResult(result: AgentRuntime.RuntimeResult)
      requires db.working.Some?
      modifies db`working
      ensures db.working == Some(AppendedAll(old(db.working).value, RuntimeDrafts(result.events)))
    {
      AppendDrafts(RuntimeDrafts(result.events));
    }

    method FailRunAfterError(stages: Stages)
      requires db.working.Some? && db.committed == db.working
      modifies db
      ensures db.committed == Some(Recovered(old(db.committed).value, stages))
    {
      if db.working.value.status.Requested? {
        var ok := TransitionRun(Simple(Validating), stages.audits.recoveryValidating);
        if !ok {
          return;
        }
      }
      if Terminal(db.working.value.status) {
        return;
      }
      var _ := TransitionRun(Change(Failed, true, Some(stages.errorCode), false), stages.audits.recoveryFailed);
    }

    // The try block from the planner's result on.
    method ExecutePlan(plan: Planning.ExecutionPlan, stages: Stages) returns (raised: bool)
      requires db.working.Some? && db.committed == db.working
      modifies db
      ensures db.committed.Some?
      ensures Attempt(db.committed.value, raised) == AfterRunning(old(db.working).value, plan, stages)
    {
      if stages.execution.None? {
        return true;
      }
      var ok := PersistExecutionResult(plan, stages.execution.value);
      if !ok {
        return true;
      }
      db.Commit();
      if stages.runtime.None? {
        return true;
      }
      PersistRuntimeResult(stages.runtime.value);
      db.Commit();
      ok := TransitionRun(FinalChange(stages.runtime.value, stages.outputMetadataOk), stages.audits.final);
      raised := !ok;
    }

    // The whole try block.
    method AttemptRun(stages: Stages) returns (raised: bool)
      requires db.working == Some(CREATED) && db.committed == db.working
      modifies db
      ensures db.committed.Some? && Attempt(db.committed.value, raised) == Attempted(stages)
    {
      var ok := TransitionRun(Simple(Validating), stages.audits.validating);
      if !ok || !stages.contextAssembled {
        return true;
      }
      AppendRunEvent("context.assembled", map[]);
      db.Commit();
      if stages.plan.None? {
        return true;
      }
      AppendRunEvent("planner.completed", map[]);
      db.Commit();
      ok := TransitionRun(Simple(Queued), stages.audits.queued);
      if !ok {
        return true;
      }
      ok := TransitionRun(Simple(Running), stages.audits.running);
      if !ok {
        return true;
      }
      raised := ExecutePlan(stages.plan.value, stages);
    }

    method CreateAndExecute(stages: Stages)
      requires db.committed == None && db.working == None
      modifies db
      ensures db.committed == Orchestrated(stages)
    {
      if !stages.payloadAccepted {
        return;
      }
      db.CreateRun();
      db.CreateEvent(0, "run.requested", map[]);
      assert db.working.value.events == CREATED.events;
      if !stages.audits.requested {
        return;
      }
      db.Commit();
      var raised := AttemptRun(stages);
      if raised {
        db.Rollback();
        FailRunAfterError(stages);
      }
    }
  }

  // ---------- what the stored run looks like ----------

  // The run as committed after each stage up to `running`.
  function ValidatingRun(): RunData { Moved(CREATED, Validating, None, false) }

  function AssembledRun(): RunData { Appended(ValidatingRun(), "context.assembled", map[]) }

  function PlannedRun(): RunData { Appended(AssembledRun(), "planner.completed", map[]) }

  function QueuedRun(): RunData { Moved(PlannedRun(), Queued, None, false) }

  function RunningRun(): RunData { Moved(QueuedRun(), Running, None, false) }

  // A run that got as far as storing the runtime's log.
  predicate StoresRuntimeLog(stages: Stages) {
    && stages.audits.validating && stages.contextAssembled && stages.plan.Some?
    && stages.audits.queued && stages.audits.running
    && stages.execution.Some? && stages.runtime.Some?
    && Persisted(RunningRun(), stages.plan.value, stages.execution.value).Some?
  }

  // The statuses the runtime's own events report about the run, if any, lead from `running` back to `running`.
  predicate RuntimeLogCloses(stages: Stages) {
    stages.runtime.Some? ==>
      FollowDrafts(Some(Running), RuntimeDrafts(stages.runtime.value.events)) == Some(Running)
  }

  lemma CreatedRunInv()
    ensures RunInv(CREATED)
  {
    assert "run.requested"[4] != STATUS_CHANGED[4];
    assert CREATED.events[..0] == [];
  }

  lemma PlannedRunInv()
    ensures RunInv(ValidatingRun()) && RunInv(AssembledRun()) && RunInv(PlannedRun()) && |PlannedRun().events| == 4
  {
    CreatedRunInv();
    MovedKeepsInv(CREATED, Validating, None, false);
    assert "context.assembled"[0] != STATUS_CHANGED[0] && "planner.completed"[0] != STATUS_CHANGED[0];
    AppendedKeepsInv(ValidatingRun(), "context.assembled", map[]);
    AppendedKeepsInv(AssembledRun(), "planner.completed", map[]);
  }

  lemma RunningRunInv()
    ensures RunInv(QueuedRun())
    ensures RunInv(RunningRun()) && |RunningRun().events| == 6
    ensures RunningRun() == CREATED.(status := Running, events := RunningRun().events)
  {
    PlannedRunInv();
    MovedKeepsInv(PlannedRun(), Queued, None, false);
    MovedKeepsInv(QueuedRun(), Running, None, false);
  }

  // The attempt's one way through the stages, and where it leaves that way.
  lemma AttemptByStages(stages: Stages)
    ensures Attempted(stages) ==
            if !stages.audits.validating then Attempt(CREATED, true)
            else if !stages.contextAssembled then Attempt(ValidatingRun(), true)
            else if stages.plan.None? then Attempt(AssembledRun(), true)
            else if !stages.audits.queued then Attempt(PlannedRun(), true)
            else if !stages.audits.running then Attempt(QueuedRun(), true)
            else AfterRunning(RunningRun(), stages.plan.value, stages)
  {
  }

  lemma ExecutionDraftsAreNotChanges(events: seq<Execution.ExecutionEvent>)
    ensures NoStatusChanges(ExecutionDrafts(events))
  {
    forall i | 0 <= i < |events| ensures ExecutionDrafts(events)[i].eventType != STATUS_CHANGED {
      ExecutionEventsAreNotChanges(events[i].eventType);
    }
  }

  lemma {:induction false} WithStepsKeepsEvents(
    d: RunData, plan: Planning.ExecutionPlan, states: seq<Execution.StepState>)
    ensures var stepped := WithSteps(d, plan, states);
            stepped.Some? ==> stepped.value == d.(steps := stepped.value.steps)
    decreases |states|
  {
    if states != [] {
      WithStepsKeepsEvents(d, plan, states[..|states| - 1]);
    }
  }

  lemma PersistedKeepsInv(d: RunData, plan: Planning.ExecutionPlan, result: Execution.ExecutionResult)
    requires RunInv(d) && Persisted(d, plan, result).Some?
    ensures RunInv(Persisted(d, plan, result).value) && Persisted(d, plan, result).value.status == d.status
  {
    var stepped := WithSteps(d, plan, result.state.stepStates).value;
    WithStepsKeepsEvents(d, plan, result.state.stepStates);
    ExecutionDraftsAreNotChanges(result.state.events);
    NoChangesLeadNowhere(Some(d.status), ExecutionDrafts(result.state.events));
    PersistingKeepsInvExactly(stepped, ExecutionDrafts(result.state.events));
    AppendedAllNumbers(stepped, ExecutionDrafts(result.state.events));
  }

  // With the runtime's log stored, everything before it went the one way it can.
  lemma AttemptReachesRuntime(stages: Stages)
    requires StoresRuntimeLog(stages)
    ensures Attempted(stages) ==
            var executed := Persisted(RunningRun(), stages.plan.value, stages.execution.value).value;
            AfterRuntime(executed, stages.runtime.value, stages)
  {
    AttemptByStages(stages);
  }

  lemma AfterRuntimeCommits(d: RunData, result: AgentRuntime.RuntimeResult, stages: Stages)
    requires d.status.Running? && NumberedInOrder(d.events)
    ensures var attempt := AfterRuntime(d, result, stages);
            && (attempt.raised <==> !stages.outputMetadataOk || !stages.audits.final)
            && attempt.data.status == if attempt.raised then Running else RunStatusFromRuntime(result.status)
  {
    AppendedAllNumbers(d, RuntimeDrafts(result.events));
  }

  // From `running` on, the attempt fails with the run still `running` or ends in the runtime's status.
  lemma AfterRunningCommits(stages: Stages)
    requires stages.plan.Some?
    ensures var attempt := AfterRunning(RunningRun(), stages.plan.value, stages);
            var stored := stages.execution.Some? && stages.runtime.Some?
                          && Persisted(RunningRun(), stages.plan.value, stages.execution.value).Some?;
            && (attempt.raised <==> !(stored && stages.outputMetadataOk && stages.audits.final))
            && attempt.data.status ==
               if attempt.raised then Running else RunStatusFromRuntime(stages.runtime.value.status)
  {
    RunningRunInv();
    if stages.execution.Some? {
      var persisted := Persisted(RunningRun(), stages.plan.value, stages.execution.value);
      if persisted.Some? {
        PersistedKeepsInv(RunningRun(), stages.plan.value, stages.execution.value);
        if stages.runtime.Some? {
          AfterRuntimeCommits(persisted.value, stages.runtime.value, stages);
        }
      }
    }
  }

  // An orchestration that nothing interrupts stores both logs and then makes the final change.
  lemma UninterruptedRun(stages: Stages)
    requires stages.payloadAccepted && stages.audits == ALL_AUDITS
    requires StoresRuntimeLog(stages) && stages.outputMetadataOk
    ensures var executed := Persisted(RunningRun(), stages.plan.value, stages.execution.value).value;
            var change := FinalChange(stages.runtime.value, true);
            var logged := AppendedAll(executed, RuntimeDrafts(stages.runtime.value.events));
            Orchestrated(stages) == Some(Moved(logged, change.target, change.error, change.retry))
  {
    var executed := Persisted(RunningRun(), stages.plan.value, stages.execution.value).value;
    RunningRunInv();
    AttemptReachesRuntime(stages);
    PersistedKeepsInv(RunningRun(), stages.plan.value, stages.execution.value);
    AppendedAllNumbers(executed, RuntimeDrafts(stages.runtime.value.events));
    AfterRuntimeCommits(executed, stages.runtime.value, stages);
  }

  // Where the attempt stands when it raises: the run is committed in one of the statuses before the final one.
  lemma AttemptCommits(stages: Stages)
    ensures var attempt := Attempted(stages);
            && (attempt.raised ==> attempt.data.status in {Requested, Validating, Queued, Running})
            && (attempt.raised && attempt.data.status.Requested? <==> !stages.audits.validating)
            && (attempt.raised && attempt.data.status.Queued? <==>
                  && stages.audits.validating && stages.contextAssembled && stages.plan.Some? && stages.audits.queued
                  && !stages.audits.running)
            && (!attempt.raised <==> StoresRuntimeLog(stages) && stages.outputMetadataOk && stages.audits.final)
            && (!attempt.raised ==> attempt.data.status == RunStatusFromRuntime(stages.runtime.value.status))
  {
    AttemptByStages(stages);
    if stages.plan.Some? {
      AfterRunningCommits(stages);
    }
  }

  // After any error the stored run ends `failed` exactly when it was not caught between `queued` and `running`
  // (from `queued` there is no legal move to `failed`) and the recovery's own audit writes succeed.
  lemma ErrorsEndFailedExactly(stages: Stages)
    requires stages.payloadAccepted && stages.audits.requested && Attempted(stages).raised
    ensures Orchestrated(stages).Some?
    ensures Orchestrated(stages).value.status.Failed? <==>
            && stages.audits.recoveryFailed
            && (stages.audits.validating || stages.audits.recoveryValidating)
            && !(stages.audits.validating && stages.contextAssembled && stages.plan.Some? && stages.audits.queued
                 && !stages.audits.running)
  {
    AttemptCommits(stages);
  }

  // A run is created exactly when its payload is accepted and its first audit write succeeds.
  lemma CreatedExactly(stages: Stages)
    ensures Orchestrated(stages) == None <==> !stages.payloadAccepted || !stages.audits.requested
  {
  }

  // With working audit writes, a raising stage or refused output metadata always leaves the run `failed`.
  lemma RaisingStagesEndFailed(stages: Stages)
    requires stages.payloadAccepted && stages.audits == ALL_AUDITS
    ensures Orchestrated(stages).Some?
    ensures Orchestrated(stages).value.status ==
            if StoresRuntimeLog(stages) && stages.outputMetadataOk then
              RunStatusFromRuntime(stages.runtime.value.status)
            else Failed
  {
    AttemptCommits(stages);
  }

  // No error is recorded and nothing has been retried.
  predicate IsClean(d: RunData) { d.errorCode.None? && d.retryCount == 0 }

  lemma PersistedOnlyAdds(d: RunData, plan: Planning.ExecutionPlan, result: Execution.ExecutionResult)
    requires NumberedInOrder(d.events) && Persisted(d, plan, result).Some?
    ensures var d' := Persisted(d, plan, result).value;
            d' == d.(steps := d'.steps, events := d'.events) && NumberedInOrder(d'.events)
  {
    WithStepsKeepsEvents(d, plan, result.state.stepStates);
    AppendedAllNumbers(WithSteps(d, plan, result.state.stepStates).value, ExecutionDrafts(result.state.events));
  }

  lemma RaisedAttemptIsClean(stages: Stages)
    ensures Attempted(stages).raised ==> IsClean(Attempted(stages).data)
  {
    AttemptByStages(stages);
    RunningRunInv();
    if stages.plan.Some? && stages.execution.Some? {
      var persisted := Persisted(RunningRun(), stages.plan.value, stages.execution.value);
      if persisted.Some? {
        PersistedOnlyAdds(RunningRun(), stages.plan.value, stages.execution.value);
        if stages.runtime.Some? {
          AppendedAllNumbers(persisted.value, RuntimeDrafts(stages.runtime.value.events));
        }
      }
    }
  }

  // What the run records about how it ended: the runtime's error, or the name of what was raised; a retry is
  // counted exactly when the runtime's result is retryable and was stored.
  lemma OutcomeIsRecorded(stages: Stages)
    requires stages.payloadAccepted && stages.audits == ALL_AUDITS
    ensures var d, done := Orchestrated(stages).value, StoresRuntimeLog(stages) && stages.outputMetadataOk;
            && d.retryCount == (if done && stages.runtime.value.retryable then 1 else 0)
            && d.errorCode ==
               if !done then Some(stages.errorCode)
               else if stages.runtime.value.error.Some? then Some(RuntimeErrorCode(stages.runtime.value.error.value))
               else None
  {
    AttemptCommits(stages);
    RaisedAttemptIsClean(stages);
    if StoresRuntimeLog(stages) && stages.outputMetadataOk {
      RunningRunInv();
      UninterruptedRun(stages);
      PersistedOnlyAdds(RunningRun(), stages.plan.value, stages.execution.value);
      AppendedAllNumbers(Persisted(RunningRun(), stages.plan.value, stages.execution.value).value,
                         RuntimeDrafts(stages.runtime.value.events));
    }
  }

  lemma RecoveredKeepsSteps(d: RunData, stages: Stages)
    ensures Recovered(d, stages).steps == d.steps
  {
  }

  // Once the executor's result is stored its step rows stay, however the run ends.
  lemma StepRowsStay(stages: Stages)
    requires stages.payloadAccepted && stages.audits == ALL_AUDITS && stages.contextAssembled && stages.plan.Some?
    requires stages.execution.Some?
    requires Persisted(RunningRun(), stages.plan.value, stages.execution.value).Some?
    ensures Orchestrated(stages).Some?
    ensures Orchestrated(stages).value.steps ==
            Persisted(RunningRun(), stages.plan.value, stages.execution.value).value.steps
  {
    var persisted := Persisted(RunningRun(), stages.plan.value, stages.execution.value).value;
    AttemptByStages(stages);
    RunningRunInv();
    PersistedOnlyAdds(RunningRun(), stages.plan.value, stages.execution.value);
    RecoveredKeepsSteps(Attempted(stages).data, stages);
    if stages.runtime.Some? {
      AppendedAllNumbers(persisted, RuntimeDrafts(stages.runtime.value.events));
    }
  }

  // A legal move keeps the numbering, and its history matches exactly when it did before.
  lemma MovedMatchesExactly(d: RunData, target: RunStatus, error: Option<string>, retry: bool)
    requires NumberedInOrder(d.events) && target in AllowedTargets(d.status)
    ensures NumberedInOrder(Moved(d, target, error, retry).events)
    ensures HistoryMatches(Moved(d, target, error, retry)) <==> HistoryMatches(d)
  {
    NextIsLength(d.events);
    ReportsItsChange(d.status, target);
    var d' := Moved(d, target, error, retry);
    assert d'.events[..|d.events|] == d.events;
  }

  lemma RecoveredKeepsInvExactly(d: RunData, stages: Stages)
    requires NumberedInOrder(d.events)
    ensures NumberedInOrder(Recovered(d, stages).events)
    ensures HistoryMatches(Recovered(d, stages)) <==> HistoryMatches(d)
  {
    if d.status.Requested? && stages.audits.recoveryValidating {
      MovedMatchesExactly(d, Validating, None, false);
    }
    var d' := if d.status.Requested? && stages.audits.recoveryValidating then Moved(d, Validating, None, false) else d;
    if Failed in AllowedTargets(d'.status) {
      MovedMatchesExactly(d', Failed, Some(stages.errorCode), false);
    }
  }

  lemma AfterRuntimeMatchesExactly(d: RunData, result: AgentRuntime.RuntimeResult, stages: Stages)
    requires RunInv(d) && d.status.Running?
    ensures NumberedInOrder(AfterRuntime(d, result, stages).data.events)
    ensures HistoryMatches(AfterRuntime(d, result, stages).data) <==>
            FollowDrafts(Some(Running), RuntimeDrafts(result.events)) == Some(Running)
  {
    var logged, change := AppendedAll(d, RuntimeDrafts(result.events)), FinalChange(result, stages.outputMetadataOk);
    PersistingKeepsInvExactly(d, RuntimeDrafts(result.events));
    AppendedAllNumbers(d, RuntimeDrafts(result.events));
    MovedMatchesExactly(logged, change.target, change.error, change.retry);
  }

  lemma AfterRunningMatchesExactly(stages: Stages)
    requires stages.plan.Some?
    ensures var attempt := AfterRunning(RunningRun(), stages.plan.value, stages);
            var reached := stages.execution.Some? && stages.runtime.Some?
                           && Persisted(RunningRun(), stages.plan.value, stages.execution.value).Some?;
            && NumberedInOrder(attempt.data.events)
            && (HistoryMatches(attempt.data) <==> (reached ==> RuntimeLogCloses(stages)))
  {
    RunningRunInv();
    if stages.execution.Some? {
      var persisted := Persisted(RunningRun(), stages.plan.value, stages.execution.value);
      if persisted.Some? {
        PersistedKeepsInv(RunningRun(), stages.plan.value, stages.execution.value);
        if stages.runtime.Some? {
          AfterRuntimeMatchesExactly(persisted.value, stages.runtime.value, stages);
        }
      }
    }
  }

  lemma AttemptMatchesExactly(stages: Stages)
    ensures NumberedInOrder(Attempted(stages).data.events)
    ensures HistoryMatches(Attempted(stages).data) <==> (StoresRuntimeLog(stages) ==> RuntimeLogCloses(stages))
  {
    CreatedRunInv();
    PlannedRunInv();
    RunningRunInv();
    AttemptByStages(stages);
    if stages.plan.Some? {
      AfterRunningMatchesExactly(stages);
    }
  }

  // Across all commits, rollbacks and recovery: the stored events are numbered 0..n-1, and the status changes
  // among them form one legal path from `requested` to the stored status, exactly when the runtime's stored log
  // (if one was stored) does not itself report a status change that leads elsewhere.
  lemma StoredRunMatchesExactly(stages: Stages)
    requires Orchestrated(stages).Some?
    ensures var d := Orchestrated(stages).value;
            && NumberedInOrder(d.events)
            && (HistoryMatches(d) <==> (StoresRuntimeLog(stages) ==> RuntimeLogCloses(stages)))
  {
    AttemptMatchesExactly(stages);
    RecoveredKeepsInvExactly(Attempted(stages).data, stages);
  }

  lemma UsedNumbers(events: seq<RunEvent>, sequence: nat)
    requires NumberedInOrder(events)
    ensures SequenceIsFree(events, sequence) <==> sequence >= |events|
  {
    if sequence < |events| {
      assert events[sequence].sequence == sequence;
    }
  }

  // No status may be left for itself, so a single event posing as a status change never leads back to where it starts.
  lemma PosingNeverCloses(status: RunStatus, e: RunEvent)
    requires e.eventType == STATUS_CHANGED
    ensures FollowChange(Some(status), e) != Some(status)
  {
  }

  // An appended event keeps the numbers in order exactly when it is refused, or asks for no number or for the next one;
  // and it keeps the history exactly when it is refused or does not pose as a status change.
  lemma AppendEventKeepsOrderExactly(d: RunData, op: Operation)
    requires op.AppendEvent? && NumberedInOrder(d.events)
    ensures IsRefused(d.events, op) <==>
            || !op.metadataOk || |d.events| >= MAX_EVENTS_PER_RUN || !op.stepOk
            || (op.sequence.Some? && op.sequence.value < |d.events|)
    ensures NumberedInOrder(Applied(d, op).events) <==>
            IsRefused(d.events, op) || op.sequence.None? || op.sequence.value == |d.events|
    ensures HistoryMatches(d) ==>
              (HistoryMatches(Applied(d, op)) <==> IsRefused(d.events, op) || op.eventType != STATUS_CHANGED)
  {
    NextIsLength(d.events);
    if op.sequence.Some? {
      UsedNumbers(d.events, op.sequence.value);
    }
    if !IsRefused(d.events, op) {
      var events := Applied(d, op).events;
      assert events[..|d.events|] == d.events;
      assert events[|d.events|].sequence == if op.sequence.None? then |d.events| else op.sequence.value;
      if op.eventType == STATUS_CHANGED {
        PosingNeverCloses(d.status, events[|d.events|]);
      }
    }
  }

  // What each operation does to a run whose events are in order, refusal by refusal.
  lemma AppliedExactly(d: RunData, op: Operation)
    requires NumberedInOrder(d.events)
    ensures var n := |d.events|;
            var d' := Applied(d, op);
            match op
            case UpdateStatus(Change(target, outputOk, error, retry)) =>
              if target in AllowedTargets(d.status) && outputOk then
                && d'.status == target && d'.steps == d.steps
                && d'.errorCode == (if error == None then d.errorCode else error)
                && d'.retryCount == d.retryCount + (if retry then 1 else 0)
                && d'.events == d.events + [RunEvent(n, "run.status_changed", ChangeMetadata(d.status, target))]
              else d' == d
            case CancelRun(auditOk) =>
              if auditOk && d.status !in {Succeeded, Failed, Cancelled} then
                && d' == d.(status := Cancelled, events := d'.events)
                && d'.events == d.events + [RunEvent(n, "run.status_changed", ChangeMetadata(d.status, Cancelled))]
              else d' == d
            case AppendEvent(eventType, metadata, sequence, metadataOk, stepOk) =>
              if metadataOk && stepOk && n < 1_000 && (sequence == None || sequence.value >= n) then
                && d' == d.(events := d'.events)
                && d'.events ==
                   d.events + [RunEvent(if sequence == None then n else sequence.value, eventType, metadata)]
              else d' == d
            case AppendStep(step, metadataOk) =>
              if metadataOk && |d.steps| < 100 && (forall i :: 0 <= i < |d.steps| ==>
                                                     d.steps[i].stepIndex != step.stepIndex) then
                d' == d.(steps := d.steps + [step])
              else d' == d
  {
    NextIsLength(d.events);
    match op
    case UpdateStatus(_) =>
    case CancelRun(_) => LegalMoves(d.status, Cancelled);
    case AppendEvent(_, _, sequence, _, _) =>
      if sequence.Some? {
        UsedNumbers(d.events, sequence.value);
      }
    case AppendStep(_, _) =>
  }

  // What an operation must be for the run to stay in order, on a run that is: only an appended event can do harm.
  predicate IsHarmless(d: RunData, op: Operation) {
    op.AppendEvent? ==>
      || IsRefused(d.events, op)
      || (op.eventType != STATUS_CHANGED && (op.sequence.None? || op.sequence.value == |d.events|))
  }

  // One operation keeps numbering and history exactly when it is harmless.
  lemma OperationKeepsInvExactly(d: RunData, op: Operation)
    requires RunInv(d)
    ensures RunInv(Applied(d, op)) <==> IsHarmless(d, op)
  {
    match op
    case UpdateStatus(change) =>
      if Transitioned(d, change, true).Some? {
        MovedKeepsInv(d, change.target, change.error, change.retry);
      }
    case CancelRun(auditOk) =>
      if Transitioned(d, Simple(Cancelled), auditOk).Some? {
        MovedKeepsInv(d, Cancelled, None, false);
      }
    case AppendEvent(_, _, _, _, _) => AppendEventKeepsOrderExactly(d, op);
    case AppendStep(_, _) =>
  }

  // The run is in order after each of the first n operations.
  ghost predicate StaysInOrder(d: RunData, ops: seq<Operation>, n: nat)
    requires n <= |ops|
  {
    forall i :: 0 <= i <= n ==> RunInv(AppliedAll(d, ops[..i]))
  }

  // Each of the first n operations is harmless where it comes.
  predicate AreHarmless(d: RunData, ops: seq<Operation>, n: nat)
    requires n <= |ops|
  {
    forall i :: 0 <= i < n ==> IsHarmless(AppliedAll(d, ops[..i]), ops[i])
  }

  lemma AppliedSnoc(d: RunData, ops: seq<Operation>, n: nat)
    requires n < |ops|
    ensures AppliedAll(d, ops[..n + 1]) == Applied(AppliedAll(d, ops[..n]), ops[n])
  {
    assert ops[..n + 1][..n] == ops[..n];
  }

  lemma NextInOrderExactly(d: RunData, ops: seq<Operation>, n: nat)
    requires n < |ops| && RunInv(AppliedAll(d, ops[..n]))
    ensures RunInv(AppliedAll(d, ops[..n + 1])) <==> IsHarmless(AppliedAll(d, ops[..n]), ops[n])
  {
    AppliedSnoc(d, ops, n);
    OperationKeepsInvExactly(AppliedAll(d, ops[..n]), ops[n]);
  }

  lemma OneMore(d: RunData, ops: seq<Operation>, n: nat)
    requires n < |ops|
    ensures StaysInOrder(d, ops, n + 1) <==> StaysInOrder(d, ops, n) && RunInv(AppliedAll(d, ops[..n + 1]))
    ensures AreHarmless(d, ops, n + 1) <==> AreHarmless(d, ops, n) && IsHarmless(AppliedAll(d, ops[..n]), ops[n])
    ensures StaysInOrder(d, ops, n) ==> RunInv(AppliedAll(d, ops[..n]))
  {
  }

  lemma NoneYet(d: RunData, ops: seq<Operation>)
    requires RunInv(d)
    ensures StaysInOrder(d, ops, 0) && AreHarmless(d, ops, 0)
  {
    assert AppliedAll(d, ops[..0]) == d;
  }

  lemma OneMoreExactly(d: RunData, ops: seq<Operation>, n: nat)
    requires n < |ops| && (StaysInOrder(d, ops, n) <==> AreHarmless(d, ops, n))
    ensures StaysInOrder(d, ops, n + 1) <==> AreHarmless(d, ops, n + 1)
  {
    OneMore(d, ops, n);
    if StaysInOrder(d, ops, n) {
      NextInOrderExactly(d, ops, n);
    }
  }

  lemma {:induction false} InOrderExactly(d: RunData, ops: seq<Operation>, n: nat)
    requires RunInv(d) && n <= |ops|
    ensures StaysInOrder(d, ops, n) <==> AreHarmless(d, ops, n)
  {
    if n == 0 {
      NoneYet(d, ops);
    } else {
      InOrderExactly(d, ops, n - 1);
      OneMoreExactly(d, ops, n - 1);
    }
  }

  // One writer after another, over a run's whole life: the run is in order all the time exactly when every operation is
  // harmless where it comes.
  lemma HistoryOfRunExactly(d: RunData, ops: seq<Operation>)
    requires RunInv(d)
    ensures StaysInOrder(d, ops, |ops|) <==> AreHarmless(d, ops, |ops|)
  {
    InOrderExactly(d, ops, |ops|);
  }

  predicate IsUnnumberedAndHonest(op: Operation) {
    op.AppendEvent? ==> op.sequence.None? && op.eventType != STATUS_CHANGED
  }

  // In particular it is while no appended event names a number or poses as a status change.
  lemma HistoryOfRun(d: RunData, ops: seq<Operation>)
    requires RunInv(d)
    requires forall i :: 0 <= i < |ops| ==> IsUnnumberedAndHonest(ops[i])
    ensures RunInv(AppliedAll(d, ops))
  {
    HistoryOfRunExactly(d, ops);
    assert ops[..|ops|] == ops;
  }

  // An accepted event posing as a status change breaks the history of every run that was in order, whatever it
  // reports ...
  lemma PosingEventBreaksHistory(d: RunData, metadata: map<string, string>)
    requires RunInv(d) && |d.events| < MAX_EVENTS_PER_RUN
    ensures !HistoryMatches(Applied(d, AppendEvent(STATUS_CHANGED, metadata, None, true, true)))
  {
    AppendEventKeepsOrderExactly(d, AppendEvent(STATUS_CHANGED, metadata, None, true, true));
  }

  // ... that of a newly created run, for instance.
  lemma NewRunCanBreak()
    ensures RunInv(CREATED)
    ensures !RunInv(Applied(CREATED, AppendEvent(STATUS_CHANGED, map[], None, true, true)))
  {
    CreatedRunInv();
    PosingEventBreaksHistory(CREATED, map[]);
  }
}

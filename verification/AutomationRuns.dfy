/**
  Runs of the store: any sequence of calls by any number of workers, schedulers and clients. A crash
  is a caller that makes no further call, so every run is also a run with crashes.
 */
module AutomationRuns {
  import opened Outcomes
  import opened AutomationModel
  import opened AutomationRules
  import opened AutomationStore
  import opened AutomationInvariant
  import opened AutomationProgress
  import opened AutomationPreservation
  import opened AutomationClaims
  import opened AutomationCommands
  import opened AutomationAdmission

  /** A call of the store interface, with the instant the store read and the random values it drew. */
  datatype Call =
    | CallCreateTask(task: Task, requestId: Option<string>, inputDigest: string)
    | CallUpdateTask(task: Task, expectedRevision: int, requestId: Option<string>, inputDigest: string)
    | CallDeleteTask(command: Command, taskId: string, expectedRevision: int, now: Time, ids: seq<ExecutionId>)
    | CallMaterialize(task: Task, expectedNextRunAt: Time, executions: seq<ScheduledExecution>, now: Time, uuids: nat -> nat)
    | CallEnqueue(execution: Execution, occurrence: string, requestId: Option<string>, inputDigest: string,
                  expectedTaskRevision: Option<int>, now: Time, uuid: nat)
    | CallClaimWork(request: ClaimRequest, now: Time, tokens: nat -> Token, candidates: seq<WorkKey>)
    | CallRenew(claim: Claim, leaseDuration: Time, now: Time)
    | CallAuthorize(claim: Claim, executionTimeout: Time, now: Time, startToken: Token)
    | CallInterrupt(claim: Claim, interruptIds: seq<string>, now: Time, uuid: nat)
    | CallFinish(claim: Claim, settlement: Settlement, now: Time)
    | CallCancel(command: Command, id: ExecutionId, now: Time)
    | CallResolve(command: Command, id: ExecutionId, resolution: AttentionResolution, reason: string, now: Time)
    | CallClose

  datatype Reply =
    | Refusal(error: StoreError)
    | Done
    | ClaimsIssued(claims: seq<Claim>)
    | ClaimRenewed(claim: Claim)
    | StartAuthorized(execution: Execution)

  datatype Performed = Performed(store: Store, reply: Reply)

  function Plain<T>(step: Step<T>): Performed {
    Performed(step.store, if step.outcome.Ok? then Done else Refusal(step.outcome.error))
  }

  /**
    What surrounds the store promises of a call: new executions are built by the service from their
    occurrences, and the orders in which the store walks its own records are the ones it computes.
   */
  predicate Permitted(store: Store, call: Call) {
    match call
    case CallDeleteTask(_, taskId, _, _, ids) =>
      AreDistinct(ids) && (set id | id in ids) == QueuedForTask(store, taskId)
    case CallMaterialize(task, _, executions, _, _) => AreNewExecutions(task.namespace, executions)
    case CallEnqueue(execution, occurrence, _, _, _, _, _) => IsNewExecution(execution, occurrence)
    case CallClaimWork(request, now, _, candidates) =>
      && WellShaped(store)
      && IsClaimOrder(RecoverClaims(store, request.namespace, now).work, request.namespace, now, candidates)
    case _ => true
  }

  function Perform(store: Store, call: Call): Performed
    requires WellShaped(store) && Permitted(store, call)
  {
    match call
    case CallCreateTask(task, requestId, inputDigest) => Plain(CreateTask(store, task, requestId, inputDigest))
    case CallUpdateTask(task, revision, requestId, inputDigest) => Plain(UpdateTask(store, task, revision, requestId, inputDigest))
    case CallDeleteTask(command, taskId, revision, now, ids) =>
      assert forall id :: id in ids ==> id in (set x | x in ids);
      Plain(DeleteTask(store, command, taskId, revision, now, ids))
    case CallMaterialize(task, expected, executions, now, uuids) =>
      Plain(MaterializeTask(store, task, expected, executions, now, uuids))
    case CallEnqueue(execution, occurrence, requestId, inputDigest, revision, now, uuid) =>
      Plain(EnqueueExecution(store, execution, occurrence, requestId, inputDigest, revision, now, uuid))
    case CallClaimWork(request, now, tokens, candidates) =>
      var step := ClaimWork(store, request, now, tokens, candidates);
      Performed(step.store, if step.outcome.Ok? then ClaimsIssued(step.outcome.value) else Refusal(step.outcome.error))
    case CallRenew(claim, leaseDuration, now) =>
      var step := RenewClaim(store, claim, leaseDuration, now);
      Performed(step.store, if step.outcome.Ok? then ClaimRenewed(step.outcome.value) else Refusal(step.outcome.error))
    case CallAuthorize(claim, executionTimeout, now, startToken) =>
      var step := AuthorizeClaim(store, claim, executionTimeout, now, startToken);
      Performed(step.store, if step.outcome.Ok? then StartAuthorized(step.outcome.value) else Refusal(step.outcome.error))
    case CallInterrupt(claim, interruptIds, now, uuid) => Plain(MarkInterrupted(store, claim, interruptIds, now, uuid))
    case CallFinish(claim, settlement, now) => Plain(FinishClaim(store, claim, settlement, now))
    case CallCancel(command, id, now) => Plain(CancelCommand(store, command, id, now))
    case CallResolve(command, id, resolution, reason, now) => Plain(ResolveCommand(store, command, id, resolution, reason, now))
    case CallClose => Performed(Close(store), Done)
  }

  /** Every call keeps the invariant and only moves the store forward. */
  lemma PerformPreserves(store: Store, call: Call)
    requires Inv(store) && Permitted(store, call)
    ensures WellShaped(store) && Preserves(store, Perform(store, call).store)
  {
    assert WellShaped(store);
    hide Inv, Evolves, WellShaped;
    match call
    case CallCreateTask(task, requestId, inputDigest) => CreateTaskPreserves(store, task, requestId, inputDigest);
    case CallUpdateTask(task, revision, requestId, inputDigest) => UpdateTaskPreserves(store, task, revision, requestId, inputDigest);
    case CallDeleteTask(command, taskId, revision, now, ids) =>
      assert forall id :: id in ids ==> id in (set x | x in ids);
      DeleteTaskPreserves(store, command, taskId, revision, now, ids);
    case CallMaterialize(task, expected, executions, now, uuids) =>
      MaterializePreserves(store, task, expected, executions, now, uuids);
    case CallEnqueue(execution, occurrence, requestId, inputDigest, revision, now, uuid) =>
      EnqueuePreserves(store, execution, occurrence, requestId, inputDigest, revision, now, uuid);
    case CallClaimWork(request, now, tokens, candidates) => ClaimWorkPreserves(store, request, now, tokens, candidates);
    case CallRenew(claim, leaseDuration, now) => RenewClaimPreserves(store, claim, leaseDuration, now);
    case CallAuthorize(claim, executionTimeout, now, startToken) =>
      AuthorizeClaimPreserves(store, claim, executionTimeout, now, startToken);
    case CallInterrupt(claim, interruptIds, now, uuid) => MarkInterruptedPreserves(store, claim, interruptIds, now, uuid);
    case CallFinish(claim, settlement, now) => FinishClaimPreserves(store, claim, settlement, now);
    case CallCancel(command, id, now) => CancelCommandPreserves(store, command, id, now);
    case CallResolve(command, id, resolution, reason, now) =>
      ResolveCommandPreserves(store, command, id, resolution, reason, now);
    case CallClose => ClosePreserves(store);
  }
}

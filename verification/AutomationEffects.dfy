/**
  What each call of the store does, field by field and for each status an execution may have: the
  statements name the fields of the store before and after, and none of the transition rules.
 */
module AutomationEffects {
  import opened Outcomes
  import opened AutomationModel
  import opened AutomationRules
  import opened AutomationStore
  import opened AutomationInvariant
  import opened AutomationProgress
  import opened AutomationPreservation
  import opened AutomationCommands
  import opened AutomationAdmission
  import AutomationClaims
  import AutomationDelivery

  /** An item nobody owns any more and nobody will claim again. */
  function Over(item: WorkItem): WorkItem {
    item.(status := Completed, workerId := None, claimToken := None, leaseUntil := None)
  }

  /** All work of the execution is over, and other work is as it was. */
  predicate AllWorkIsOver(before: map<WorkKey, WorkItem>, after: map<WorkKey, WorkItem>, id: ExecutionId) {
    after.Keys == before.Keys && forall k :: k in before ==> after[k] == if k.executionId == id then Over(before[k]) else before[k]
  }

  /** The command is in the log with this execution, if it has a request ID, and the log is otherwise as it was. */
  predicate LogsExecution(before: Store, after: Store, command: Command, execution: Execution) {
    match command.requestId
    case None => after.operations == before.operations
    case Some(requestId) =>
      after.operations == before.operations[OperationKey(command.namespace, command.ownerId, requestId)
                                            := Operation(command.inputDigest, ExecutionResult(execution))]
  }

  /** Nothing but this execution, work, admission, counters and the log has changed. */
  predicate KeepsTheRest(before: Store, after: Store, id: ExecutionId) {
    && after.limits == before.limits && after.closed == before.closed
    && after.tasks == before.tasks && after.occurrences == before.occurrences
    && id in after.executions && after.executions == before.executions[id := after.executions[id]]
    && after.admitted - {id} == before.admitted - {id}
  }

  predicate IsNew(store: Store, command: Command) {
    command.requestId.Some? ==> OperationKey(command.namespace, command.ownerId, command.requestId.value) !in store.operations
  }

  predicate LogHasRoom(store: Store, command: Command) {
    command.requestId.Some? ==> |store.operations| < store.limits.maxOperations
  }

  predicate IsOwnedBy(store: Store, command: Command, id: ExecutionId) {
    id in store.executions && store.executions[id].namespace == command.namespace && store.executions[id].ownerId == command.ownerId
  }

  /** What an accepted cancellation makes of the execution in each status. */
  predicate IsCancelled(before: Store, after: Store, id: ExecutionId, now: Time)
    requires id in before.executions && id in after.executions
  {
    var was, became := before.executions[id], after.executions[id];
    match was.status
    case Queued | Interrupted =>
      && became == was.(status := Cancelled, finishedAt := Some(now), updatedAt := now)
      && AllWorkIsOver(before.work, after.work, id) && id !in after.admitted
    case Running =>
      && became == was.(status := CancelRequested, updatedAt := now)
      && after.work == before.work && after.admitted == before.admitted && after.allocations == before.allocations
    case CancelRequested | Succeeded | Failed | TimedOut | Cancelled =>
      became == was && after.work == before.work && after.admitted == before.admitted && after.allocations == before.allocations
    case NeedsAttention => false
  }

  // ---------------------------------------------------------------- committing

  /** The execution ends: its work is over and it holds no capacity. */
  lemma EndsExecution(store: Store, execution: Execution)
    requires execution.id in store.executions
    ensures
      var after := Released(store, Transition(execution, CompleteAll, true, None), None);
      && KeepsTheRest(store, after, execution.id) && after.executions[execution.id] == execution
      && AllWorkIsOver(store.work, after.work, execution.id) && execution.id !in after.admitted
      && after.operations == store.operations
  {
    hide Decremented;
  }

  /** Only the snapshot changes. */
  lemma ReplacesExecution(store: Store, execution: Execution)
    requires execution.id in store.executions
    ensures Released(store, Unchanged(execution, CompleteNone), None) == store.(executions := store.executions[execution.id := execution])
  {
    assert CompleteItems(store.work, CompleteNone, execution.id, None) == store.work;
  }

  /** The execution gives its capacity back; its work is as it was. */
  lemma FreesExecution(store: Store, execution: Execution)
    requires execution.id in store.executions
    ensures
      var after := Released(store, Transition(execution, CompleteNone, true, None), None);
      && KeepsTheRest(store, after, execution.id) && after.executions[execution.id] == execution
      && after.work == store.work && execution.id !in after.admitted
      && after.operations == store.operations
  {
    hide Decremented;
    assert CompleteItems(store.work, CompleteNone, execution.id, None) == store.work;
  }

  /** A transition without a deadline item is committed and recorded as a whole, or refused for lack of room in the log. */
  lemma Commits(store: Store, command: Command, transition: Transition, now: Time)
    requires transition.deadlineWorkAt.None?
    ensures
      var result, after := CommitCommand(store, command, Ok(transition), now), Released(store, transition, None);
      if !LogHasRoom(store, command) then result == Step(store, Err(CapacityExhausted))
      else
        && result.outcome == Ok(transition.execution)
        && result.store == after.(operations := result.store.operations)
        && LogsExecution(after, result.store, command, transition.execution)
  {
    hide Released;
  }

  lemma CommitsNothing(store: Store, command: Command, error: StoreError, now: Time)
    ensures CommitCommand(store, command, Err(error), now) == Step(store, Err(error))
  {
  }

  // ---------------------------------------------------------------- cancelling

  lemma CancelOwned(store: Store, command: Command, id: ExecutionId, now: Time)
    requires IsNew(store, command) && !store.closed
    ensures
      CancelCommand(store, command, id, now) ==
      if IsOwnedBy(store, command, id) then CommitCommand(store, command, CancelExecution(store.executions[id], now), now)
      else Step(store, Err(ExecutionNotFound))
  {
    hide CommitCommand, CancelExecution;
  }

  /** A cancellation that is not yet in the log, by the status of its execution. */
  lemma CancellationByStatus(store: Store, command: Command, id: ExecutionId, now: Time)
    requires Inv(store) && IsNew(store, command) && !store.closed
    ensures
      var result := CancelCommand(store, command, id, now);
      if !IsOwnedBy(store, command, id) then result == Step(store, Err(ExecutionNotFound))
      else if store.executions[id].status == NeedsAttention then result == Step(store, Err(ResolutionNotAllowed))
      else if !LogHasRoom(store, command) then result == Step(store, Err(CapacityExhausted))
      else
        && KeepsTheRest(store, result.store, id) && result.outcome == Ok(result.store.executions[id])
        && LogsExecution(store, result.store, command, result.store.executions[id])
        && IsCancelled(store, result.store, id, now)
  {
    hide Consistent, CountersCountHolders, OccurrencesInStep, WorkResolves, OccurrencesResolve, RecordsConsistent, Released, CommitCommand, CancelCommand,
         IsOwnedBy, LogHasRoom, IsNew, AllWorkIsOver;
    CancelOwned(store, command, id, now);
    if IsOwnedBy(store, command, id) {
      OwnedIsNamed(store, command, id);
      var execution := store.executions[id];
      var decided := CancelExecution(execution, now);
      if decided.Ok? {
        Commits(store, command, decided.value, now);
        EndsExecution(store, decided.value.execution);
        ReplacesExecution(store, decided.value.execution);
      } else {
        CommitsNothing(store, command, decided.error, now);
      }
    }
  }

  lemma OwnedIsNamed(store: Store, command: Command, id: ExecutionId)
    requires ExecutionsNamed(store.executions) && IsOwnedBy(store, command, id)
    ensures id in store.executions && store.executions[id].id == id
  {
  }

  // ---------------------------------------------------------------- resolving

  /** Not empty, with no ASCII whitespace at either end: blanks, tabs and line ends, and the four separators. */
  predicate IsCanonicalReason(reason: string) {
    reason != "" && !IsBlank(reason[0]) && !IsBlank(reason[|reason| - 1])
  }

  predicate IsBlank(c: char) {
    c in {' ', '\t', '\n', '\r', 11 as char, 12 as char, 28 as char, 29 as char, 30 as char, 31 as char}
  }

  /** What a resolution makes of an execution that needs attention. */
  predicate IsResolvedAs(was: Execution, became: Execution, resolution: AttentionResolution, reason: string, now: Time) {
    match resolution
    case ResolveSucceeded => became == was.(status := Succeeded, failureMessage := None, finishedAt := Some(now), updatedAt := now)
    case ResolveCancelled => became == was.(status := Cancelled, failureMessage := None, finishedAt := Some(now), updatedAt := now)
    case ResolveFailed =>
      became == was.(status := Failed, failureCode := Some("automation.explicit_resolution"), failureMessage := Some(reason),
                     finishedAt := Some(now), updatedAt := now)
  }

  lemma BlankIsSpace(c: char)
    ensures IsBlank(c) <==> IsSpace(c)
  {
  }

  lemma ResolveOwned(store: Store, command: Command, id: ExecutionId, resolution: AttentionResolution, reason: string, now: Time)
    requires IsNew(store, command) && !store.closed && IsCanonicalReason(reason)
    ensures
      ResolveCommand(store, command, id, resolution, reason, now) ==
      if IsOwnedBy(store, command, id) then
        CommitCommand(store, command, ResolveExecution(store.executions[id], resolution, reason, now), now)
      else Step(store, Err(ExecutionNotFound))
  {
    hide CommitCommand, ResolveExecution, IsSpace, IsBlank;
    BlankIsSpace(reason[0]);
    BlankIsSpace(reason[|reason| - 1]);
  }

  /** A resolution that is not yet in the log: only what needs attention is resolved, to the outcome that was chosen. */
  lemma ResolutionByChoice(store: Store, command: Command, id: ExecutionId, resolution: AttentionResolution, reason: string, now: Time)
    requires Inv(store) && IsNew(store, command) && !store.closed
    ensures
      var result := ResolveCommand(store, command, id, resolution, reason, now);
      if !IsCanonicalReason(reason) then result == Step(store, Err(InvalidArgument))
      else if !IsOwnedBy(store, command, id) then result == Step(store, Err(ExecutionNotFound))
      else if store.executions[id].status != NeedsAttention then result == Step(store, Err(ResolutionNotAllowed))
      else if !LogHasRoom(store, command) then result == Step(store, Err(CapacityExhausted))
      else
        && KeepsTheRest(store, result.store, id) && result.outcome == Ok(result.store.executions[id])
        && LogsExecution(store, result.store, command, result.store.executions[id])
        && IsResolvedAs(store.executions[id], result.store.executions[id], resolution, reason, now)
        && result.store.work == store.work && id !in result.store.admitted
  {
    hide Consistent, CountersCountHolders, OccurrencesInStep, WorkResolves, OccurrencesResolve, RecordsConsistent, Released, CommitCommand,
         IsOwnedBy, LogHasRoom, IsNew, AllWorkIsOver, IsSpace, IsBlank;
    if reason != "" {
      BlankIsSpace(reason[0]);
      BlankIsSpace(reason[|reason| - 1]);
    }
    if IsCanonicalReason(reason) {
      ResolveOwned(store, command, id, resolution, reason, now);
      hide ResolveCommand;
      if IsOwnedBy(store, command, id) {
        OwnedIsNamed(store, command, id);
        var decided := ResolveExecution(store.executions[id], resolution, reason, now);
        if decided.Ok? {
          Commits(store, command, decided.value, now);
          FreesExecution(store, decided.value.execution);
        } else {
          CommitsNothing(store, command, decided.error, now);
        }
      }
    }
  }

  // ---------------------------------------------------------------- deleting a task

  /** Of these executions each becomes cancelled, its work is over and it holds no capacity; nothing else changes. */
  predicate AreCancelled(before: Store, after: Store, ids: set<ExecutionId>, now: Time) {
    && after.executions.Keys == before.executions.Keys
    && (forall id :: id in before.executions ==>
          after.executions[id] ==
          if id in ids then before.executions[id].(status := Cancelled, finishedAt := Some(now), updatedAt := now) else before.executions[id])
    && after.work.Keys == before.work.Keys
    && (forall k :: k in before.work ==> after.work[k] == if k.executionId in ids then Over(before.work[k]) else before.work[k])
    && after.admitted == before.admitted - ids
    && after.occurrences == before.occurrences && after.limits == before.limits && after.closed == before.closed
  }

  function CancelledAt(execution: Execution, now: Time): Execution {
    execution.(status := Cancelled, finishedAt := Some(now), updatedAt := now)
  }

  lemma OneMoreIsCancelled(before: Store, earlier: Store, after: Store, ids: set<ExecutionId>, id: ExecutionId, now: Time)
    requires AreCancelled(before, earlier, ids, now) && id !in ids && id in before.executions
    requires KeepsTheRest(earlier, after, id) && after.executions[id] == CancelledAt(before.executions[id], now)
    requires AllWorkIsOver(earlier.work, after.work, id) && id !in after.admitted
    ensures AreCancelled(before, after, ids + {id}, now)
  {
    assert after.executions.Keys == earlier.executions.Keys;
    hide Over, CancelledAt;
    assert after.admitted == earlier.admitted - {id};
  }

  lemma CancelsLast(store: Store, ids: seq<ExecutionId>, now: Time)
    requires ids != [] && forall id :: id in ids ==> id in store.executions
    requires store.executions[ids[|ids| - 1]].status.Queued?
    ensures
      var cancelled := CancelledAt(store.executions[ids[|ids| - 1]], now);
      CancelAll(store, ids, now) == Released(CancelAll(store, ids[..|ids| - 1], now), Transition(cancelled, CompleteAll, true, None), None)
  {
    hide Released;
  }

  lemma NoneCancelled(store: Store, now: Time)
    ensures AreCancelled(store, store, {}, now)
  {
  }

  lemma {:induction false} CancelAllCancels(store: Store, ids: seq<ExecutionId>, now: Time)
    requires ExecutionsNamed(store.executions) && AreDistinct(ids)
    requires forall id :: id in ids ==> id in store.executions && store.executions[id].status.Queued?
    ensures
      var after := CancelAll(store, ids, now);
      AreCancelled(store, after, (set id | id in ids), now) && after.tasks == store.tasks && after.executions.Keys == store.executions.Keys
    decreases |ids|
  {
    hide Released, AreCancelled, AllWorkIsOver, CancelledAt;
    if ids == [] {
      assert (set id | id in ids) == {};
      NoneCancelled(store, now);
    } else {
      var last, front := ids[|ids| - 1], ids[..|ids| - 1];
      assert ids == front + [last] && last !in front;
      CancelAllCancels(store, front, now);
      CancelsLast(store, ids, now);
      hide CancelAll, AreDistinct;
      var earlier := CancelAll(store, front, now);
      assert (set id | id in ids) == (set id | id in front) + {last};
      assert store.executions[last].id == last;
      CancelledKeepsId(store.executions[last], now);
      EndsExecution(earlier, CancelledAt(store.executions[last], now));
      OneMoreIsCancelled(store, earlier, CancelAll(store, ids, now), (set id | id in front), last, now);
    }
  }

  lemma CancelledKeepsId(execution: Execution, now: Time)
    ensures CancelledAt(execution, now).id == execution.id
  {
  }

  /** Tasks and the log play no part. */
  lemma CancelledBeside(before: Store, after: Store, tasks: map<string, Task>, operations: map<OperationKey, Operation>, ids: set<ExecutionId>, now: Time)
    requires AreCancelled(before.(tasks := tasks), after, ids, now)
    ensures AreCancelled(before, after.(operations := operations), ids, now)
  {
  }

  lemma DeletesOwned(store: Store, command: Command, taskId: string, expectedRevision: int, now: Time, ids: seq<ExecutionId>)
    requires IsNew(store, command) && !store.closed && forall id :: id in ids ==> id in QueuedForTask(store, taskId)
    requires taskId in store.tasks && store.tasks[taskId].namespace == command.namespace && store.tasks[taskId].ownerId == command.ownerId
    requires store.tasks[taskId].revision == expectedRevision && LogHasRoom(store, command)
    ensures forall id :: id in ids ==> id in store.executions
    ensures
      var result := DeleteTask(store, command, taskId, expectedRevision, now, ids);
      && result.outcome == Ok(())
      && result.store == CancelAll(store.(tasks := store.tasks - {taskId}), ids, now).(operations := result.store.operations)
  {
    assert forall id :: id in ids ==> id in QueuedForTask(store, taskId) && id in store.executions;
    hide CancelAll;
  }

  lemma DeletionIsRefused(store: Store, command: Command, taskId: string, expectedRevision: int, now: Time, ids: seq<ExecutionId>)
    requires IsNew(store, command) && !store.closed && forall id :: id in ids ==> id in QueuedForTask(store, taskId)
    ensures
      var result := DeleteTask(store, command, taskId, expectedRevision, now, ids);
      if !(taskId in store.tasks && store.tasks[taskId].namespace == command.namespace && store.tasks[taskId].ownerId == command.ownerId)
      then result == Step(store, Err(TaskNotFound))
      else if store.tasks[taskId].revision != expectedRevision then result == Step(store, Err(TaskConflict))
      else !LogHasRoom(store, command) ==> result == Step(store, Err(CapacityExhausted))
  {
    hide CancelAll;
  }

  /** Deleting a task cancels exactly its queued executions. */
  lemma DeletionCancelsQueuedWork(
    store: Store, command: Command, taskId: string, expectedRevision: int, now: Time, ids: seq<ExecutionId>)
    requires Inv(store) && IsNew(store, command) && !store.closed && AreDistinct(ids)
    requires forall id :: id in ids <==> id in store.executions && store.executions[id].taskId == Some(taskId) && store.executions[id].status.Queued?
    requires taskId in store.tasks && store.tasks[taskId].namespace == command.namespace && store.tasks[taskId].ownerId == command.ownerId
    requires store.tasks[taskId].revision == expectedRevision && LogHasRoom(store, command)
    ensures forall id :: id in ids ==> id in QueuedForTask(store, taskId)
    ensures
      var result := DeleteTask(store, command, taskId, expectedRevision, now, ids);
      && result.outcome == Ok(())
      && AreCancelled(store, result.store, (set id | id in ids), now)
      && result.store.tasks == store.tasks - {taskId}
  {
    assert ExecutionsNamed(store.executions);
    assert forall id :: id in ids ==> id in QueuedForTask(store, taskId) && id in store.executions;
    hide Inv, ExecutionsNamed, CancelAll, AreCancelled, DeleteTask, AreDistinct, QueuedForTask, IsNew, LogHasRoom;
    var open := store.(tasks := store.tasks - {taskId});
    CancelAllCancels(open, ids, now);
    DeletesOwned(store, command, taskId, expectedRevision, now, ids);
    CancelledBeside(store, CancelAll(open, ids, now), open.tasks, DeleteTask(store, command, taskId, expectedRevision, now, ids).store.operations, (set id | id in ids), now);
  }

  // ---------------------------------------------------------------- owners of a claim

  /** The claim's token, fence and lease are those of its item at this instant. */
  predicate Owns(store: Store, claim: Claim, now: Time) {
    && claim.item in store.work
    && store.work[claim.item].status == Claimed
    && store.work[claim.item].claimToken == Some(claim.claimToken)
    && store.work[claim.item].fence == claim.fence
    && store.work[claim.item].leaseUntil.Some? && now < store.work[claim.item].leaseUntil.value
  }

  /** The owner extends the lease, and nobody else does. */
  lemma RenewalByOwner(store: Store, claim: Claim, leaseDuration: Time, now: Time)
    requires !store.closed && leaseDuration > 0
    ensures
      RenewClaim(store, claim, leaseDuration, now) ==
      if !Owns(store, claim, now) then Step(store, Err(ClaimLost))
      else Step(store.(work := store.work[claim.item := store.work[claim.item].(leaseUntil := Some(now + leaseDuration))]),
                Ok(claim.(leaseUntil := now + leaseDuration)))
  {
  }

  function StartedAt(execution: Execution, now: Time, timeout: Time, token: Token): Execution {
    execution.(status := Running, startedAt := Some(now), deadline := Some(now + timeout), startAuthorizedAt := Some(now),
               startToken := Some(token), updatedAt := now)
  }

  /** Owning executable work is all it takes to start it, once. */
  lemma StartByOwner(store: Store, claim: Claim, timeout: Time, now: Time, token: Token)
    requires Inv(store) && !store.closed && timeout > 0
    ensures Owns(store, claim, now) ==> claim.item.executionId in store.executions
    ensures
      var result := AuthorizeClaim(store, claim, timeout, now, token);
      if !Owns(store, claim, now) || !claim.item.kind.Execute? then result == Step(store, Err(ClaimLost))
      else
        var was := store.executions[claim.item.executionId];
        if was.startAuthorizedAt.Some? then result == Step(store, Err(StartAlreadyAuthorized))
        else result == Step(store.(executions := store.executions[was.id := StartedAt(was, now, timeout, token)]), Ok(StartedAt(was, now, timeout, token)))
  {
    hide CountersCountHolders, OccurrencesInStep, OccurrencesResolve, OwnedWhileClaimed;
    if Owns(store, claim, now) {
      var id := claim.item.executionId;
      assert Consistent(id, RecordOf(store, id));
      assert claim.item == KeyFor(id, claim.item.kind);
    }
  }

  /** The owner's report is accepted exactly when it is a final status or asks for attention. */
  lemma FinishByOwner(store: Store, claim: Claim, settlement: Settlement, now: Time)
    requires WellShaped(store)
    ensures
      var result := FinishClaim(store, claim, settlement, now);
      if settlement.status in {Queued, Running, Interrupted, CancelRequested} then result == Step(store, Err(InvalidArgument))
      else if store.closed then result == Step(store, Err(StoreClosed))
      else if !Owns(store, claim, now) then result == Step(store, Err(ClaimLost))
      else result.outcome.Ok?
  {
    hide WorkResolves, ExecutionsNamed, OccurrencesResolve, Released;
  }

  /** The deadline item of an interrupted execution: new, or the one there was, waiting for the deadline. */
  function DeadlineItem(store: Store, execution: Execution, at: Time, now: Time, uuid: nat): WorkItem {
    var key := KeyFor(execution.id, ExpireInterrupt);
    if key in store.work then store.work[key].(status := Pending, workerId := None, claimToken := None, leaseUntil := None, availableAt := at)
    else WorkItem(uuid, execution.namespace, execution.id, ExpireInterrupt, at, now, Pending, None, None, 0, None)
  }

  /** The owner of a started execution interrupts it: capacity is kept, and the deadline it was started with will expire it. */
  lemma InterruptionByOwner(store: Store, claim: Claim, interruptIds: seq<string>, now: Time, uuid: nat)
    requires Inv(store) && !store.closed && interruptIds != []
    ensures Owns(store, claim, now) ==> claim.item.executionId in store.executions
    ensures
      var result := MarkInterrupted(store, claim, interruptIds, now, uuid);
      if !Owns(store, claim, now) || store.executions[claim.item.executionId].deadline.None? then result == Step(store, Err(ClaimLost))
      else
        var id := claim.item.executionId;
        var was, at := store.executions[id], store.executions[id].deadline.value;
        var became := was.(status := Interrupted, interruptIds := Deduplicated(interruptIds), updatedAt := now);
        var key := KeyFor(id, ExpireInterrupt);
        if key !in store.work && |store.work| >= store.limits.maxWorkItems then result == Step(store, Err(CapacityExhausted))
        else
          && result.outcome == Ok(became)
          && result.store == store.(executions := store.executions[id := became],
                                    work := store.work[claim.item := Over(store.work[claim.item])][key := DeadlineItem(store, was, at, now, uuid)])
  {
    hide CountersCountHolders, OccurrencesInStep, OccurrencesResolve, RecordsConsistent, Consistent, Deduplicated;
    if Owns(store, claim, now) && store.executions[claim.item.executionId].deadline.Some? {
      var id := claim.item.executionId;
      assert store.executions[id].id == id && store.work[claim.item].Key() == claim.item;
      assert CompleteItems(store.work, CompleteCurrent, id, Some(claim.item)) == store.work[claim.item := Over(store.work[claim.item])];
    }
  }

  /** A claim that was handed out lets its holder start the execution at any instant until the lease ends. */
  lemma FreshClaimMayStart(
    store: Store, request: ClaimRequest, now: Time, tokens: nat -> Token, candidates: seq<WorkKey>, c: nat, later: Time, timeout: Time, token: Token)
    requires Inv(store) && IsClaimOrder(RecoverClaims(store, request.namespace, now).work, request.namespace, now, candidates)
    requires request.limit >= 1 && request.leaseDuration > 0 && request.globalConcurrency >= 1 && !store.closed
    requires
      var claimed := ClaimWork(store, request, now, tokens, candidates);
      claimed.outcome.Ok? && c < |claimed.outcome.value| && claimed.outcome.value[c].item.kind.Execute?
    requires later < now + request.leaseDuration && timeout > 0
    ensures Inv(ClaimWork(store, request, now, tokens, candidates).store)
    ensures
      var claimed := ClaimWork(store, request, now, tokens, candidates);
      AuthorizeClaim(claimed.store, claimed.outcome.value[c], timeout, later, token).outcome.Ok?
  {
    var start, claimed := RecoverClaims(store, request.namespace, now), ClaimWork(store, request, now, tokens, candidates);
    AutomationClaims.ClaimWorkPreserves(store, request, now, tokens, candidates);
    RecoverClaimsPreserves(store, request.namespace, now);
    AutomationClaims.RecoveredCandidates(store, request.namespace, now, candidates);
    assert start.closed == store.closed;
    hide Inv, WellShaped, ClaimWork, RecoverClaims, Evolves, AuthorizeClaim, IsClaimOrder, AutomationDelivery.StopsAt, AutomationDelivery.IsDelivered;
    var n := AutomationDelivery.ClaimWorkDelivers(store, request, now, tokens, candidates);
    FreshClaimStarts(start, Claiming(claimed.store, claimed.outcome.value), candidates, n, request, now, tokens, c, later, timeout, token);
  }

  lemma FreshClaimStarts(
    start: Store, after: Claiming, candidates: seq<WorkKey>, n: nat, request: ClaimRequest, now: Time, tokens: nat -> Token,
    c: nat, later: Time, timeout: Time, token: Token)
    requires Inv(start) && Inv(after.store) && !start.closed && AutomationClaims.AreCandidates(start, candidates) && n <= |candidates|
    requires AutomationDelivery.IsDelivered(start, after, candidates[..n], request, now, tokens)
    requires c < |after.claims| && after.claims[c].item.kind.Execute? && later < now + request.leaseDuration && timeout > 0
    ensures WellShaped(after.store) && AuthorizeClaim(after.store, after.claims[c], timeout, later, token).outcome.Ok?
  {
    hide WorkResolves, ExecutionsNamed, OccurrencesResolve, RecordsConsistent, CountersCountHolders, OccurrencesInStep, AuthorizeClaim,
         AutomationDelivery.AreServed, AutomationDelivery.ItemsAfterFirst, AutomationDelivery.AreLeases, AutomationDelivery.ExecutionsAfterFirst,
         AutomationDelivery.AdmittedAfterFirst, AutomationDelivery.TimedOutAt, Consistent, Owns, AutomationClaims.AreCandidates;
    var claim, key := after.claims[c], after.claims[c].item;
    LeaseIsOwned(start, after.store.work, candidates, n, after.claims, request, now, tokens, c, later);
    StartByOwner(after.store, claim, timeout, later, token);
    AutomationDelivery.CandidateRecord(start, key);
    AutomationDelivery.CandidateRecord(after.store, key);
    PendingIsUnstarted(start, key.executionId, RecordOf(start, key.executionId));
    ClaimedIsUnfinished(after.store, key.executionId, RecordOf(after.store, key.executionId));
    UnlessTimedOutTheSame(start, after.store.executions, candidates[..n], now, key.executionId);
  }

  lemma LeaseIsOwned(
    start: Store, work: map<WorkKey, WorkItem>, candidates: seq<WorkKey>, n: nat, claims: seq<Claim>, request: ClaimRequest, now: Time,
    tokens: nat -> Token, c: nat, later: Time)
    requires n <= |candidates| && AutomationClaims.AreCandidates(start, candidates)
    requires AutomationDelivery.AreLeases(start, work, candidates[..n], claims, request, now, tokens)
    requires c < |claims| && later < now + request.leaseDuration
    ensures claims[c].item in start.work && start.work[claims[c].item].status.Pending?
    ensures claims[c].item in work && work[claims[c].item].status.Claimed?
    ensures forall store: Store :: store.work == work ==> Owns(store, claims[c], later)
  {
    assert claims[c].item in candidates[..n];
  }

  lemma UnlessTimedOutTheSame(start: Store, executions: map<ExecutionId, Execution>, done: seq<WorkKey>, now: Time, id: ExecutionId)
    requires AutomationDelivery.ExecutionsAfterFirst(start, executions, done, now) && id in executions && !executions[id].status.TimedOut?
    ensures id in start.executions && executions[id] == start.executions[id]
  {
  }

  lemma PendingIsUnstarted(store: Store, id: ExecutionId, record: Record)
    requires Consistent(id, record) && record.execute.value.status.Pending?
    ensures record.execution.status.Queued? && record.execution.startAuthorizedAt.None?
  {
  }

  lemma ClaimedIsUnfinished(store: Store, id: ExecutionId, record: Record)
    requires Consistent(id, record) && record.execute.value.status.Claimed?
    ensures !record.execution.status.TimedOut?
  {
  }

  // ---------------------------------------------------------------- tasks

  /** The log holds the task for this command, if it has a request ID, and is otherwise as it was. */
  predicate LogsTask(before: map<OperationKey, Operation>, after: map<OperationKey, Operation>, command: Command, task: Task) {
    match command.requestId
    case None => after == before
    case Some(requestId) =>
      after == before[OperationKey(command.namespace, command.ownerId, requestId) := Operation(command.inputDigest, TaskResult(task))]
  }

  lemma CreationByIdentity(store: Store, task: Task, requestId: Option<string>, inputDigest: string)
    requires !store.closed && IsNew(store, Command(task.namespace, task.ownerId, requestId, inputDigest))
    ensures
      var command, result := Command(task.namespace, task.ownerId, requestId, inputDigest), CreateTask(store, task, requestId, inputDigest);
      if task.id in store.tasks then result == Step(store, Err(TaskConflict))
      else if |store.tasks| >= store.limits.maxTasks || !LogHasRoom(store, command) then result == Step(store, Err(CapacityExhausted))
      else
        && result.outcome == Ok(task)
        && LogsTask(store.operations, result.store.operations, command, task)
        && result.store == store.(tasks := store.tasks[task.id := task], operations := result.store.operations)
  {
  }

  /** An update replaces exactly the revision it expects by the next one. */
  lemma UpdateByRevision(store: Store, task: Task, expectedRevision: int, requestId: Option<string>, inputDigest: string)
    requires !store.closed && IsNew(store, Command(task.namespace, task.ownerId, requestId, inputDigest))
    ensures
      var command := Command(task.namespace, task.ownerId, requestId, inputDigest);
      var result := UpdateTask(store, task, expectedRevision, requestId, inputDigest);
      if !(task.id in store.tasks && store.tasks[task.id].namespace == task.namespace && store.tasks[task.id].ownerId == task.ownerId)
      then result == Step(store, Err(TaskNotFound))
      else if store.tasks[task.id].revision != expectedRevision || task.revision != expectedRevision + 1 then result == Step(store, Err(TaskConflict))
      else if !LogHasRoom(store, command) then result == Step(store, Err(CapacityExhausted))
      else
        && result.outcome == Ok(task)
        && LogsTask(store.operations, result.store.operations, command, task)
        && result.store == store.(tasks := store.tasks[task.id := task], operations := result.store.operations)
  {
  }

  // ---------------------------------------------------------------- queues

  /** The two executions share a task, or an owner when neither has a task. */
  predicate ShareQueue(a: Execution, b: Execution) {
    a.namespace == b.namespace && a.taskId == b.taskId && (a.taskId.None? ==> a.ownerId == b.ownerId)
  }

  /** The queued executions that wait in the same queue. */
  function QueueOf(executions: map<ExecutionId, Execution>, execution: Execution): set<ExecutionId> {
    set id | id in executions && ShareQueue(executions[id], execution) && executions[id].status == Queued
  }

  lemma QueueIsScope(store: Store, execution: Execution)
    ensures QueuedInScope(store, ExecutionScope(execution)) == QueueOf(store.executions, execution)
  {
  }

  /** The refusal of work whose task is missing or has moved on. */
  predicate IsTaskRefusal(store: Store, execution: Execution, expectedRevision: Option<int>, error: StoreError) {
    if execution.taskId.None? || execution.retryOf.Some? then expectedRevision.Some? && error == InvalidArgument
    else if !(&& execution.taskId.value in store.tasks
              && store.tasks[execution.taskId.value].namespace == execution.namespace
              && store.tasks[execution.taskId.value].ownerId == execution.ownerId) then error == TaskNotFound
    else
      && expectedRevision.Some?
      && (if expectedRevision.value < 1 then error == InvalidArgument
          else store.tasks[execution.taskId.value].revision != expectedRevision.value && error == TaskConflict)
  }

  predicate HasRecordRoom(store: Store, command: Command) {
    |store.executions| < store.limits.maxExecutions && |store.work| < store.limits.maxWorkItems && LogHasRoom(store, command)
  }

  /** The item a new execution waits with. */
  function FirstItem(execution: Execution, now: Time, uuid: nat): WorkItem {
    WorkItem(uuid, execution.namespace, execution.id, Execute, execution.queuedAt, now, Pending, None, None, 0, None)
  }

  /** The execution, its occurrence and its item are stored, and nothing else changes but the log. */
  predicate IsAdded(before: Store, after: Store, execution: Execution, occurrence: string, now: Time, uuid: nat) {
    after == before.(executions := before.executions[execution.id := execution],
                     occurrences := before.occurrences[(execution.namespace, occurrence) := execution.id],
                     work := before.work[KeyFor(execution.id, Execute) := FirstItem(execution, now, uuid)],
                     operations := after.operations)
  }

  lemma IdentityIsOccurrence(store: Store, execution: Execution, occurrence: string)
    requires Inv(store) && IsNewExecution(execution, occurrence)
    ensures (execution.namespace, occurrence) in store.occurrences <==> execution.id in store.executions
    ensures execution.id in store.executions ==> store.occurrences[(execution.namespace, occurrence)] == execution.id
    ensures execution.id !in store.executions ==> forall kind :: KeyFor(execution.id, kind) !in store.work
  {
    hide CountersCountHolders, RecordsConsistent;
  }

  lemma RefusalIsSpelledOut(store: Store, execution: Execution, expectedRevision: Option<int>, error: StoreError)
    ensures TaskPrecondition(store, execution, expectedRevision) == Some(error) <==> IsTaskRefusal(store, execution, expectedRevision, error)
  {
  }

  lemma AddsFirstItem(store: Store, execution: Execution, occurrence: string, now: Time, uuid: nat)
    requires KeyFor(execution.id, Execute) !in store.work && execution.namespace == execution.id.namespace
    ensures IsAdded(store, AddExecution(store, execution, occurrence, now, uuid), execution, occurrence, now, uuid)
    ensures AddExecution(store, execution, occurrence, now, uuid).operations == store.operations
  {
  }

  lemma QueueGrows(executions: map<ExecutionId, Execution>, execution: Execution)
    requires execution.id !in executions && execution.status.Queued?
    ensures QueueOf(executions[execution.id := execution], execution) == QueueOf(executions, execution) + {execution.id}
    ensures |QueueOf(executions[execution.id := execution], execution)| == |QueueOf(executions, execution)| + 1
  {
    assert execution.id !in QueueOf(executions, execution);
    assert QueueOf(executions[execution.id := execution], execution) == QueueOf(executions, execution) + {execution.id};
  }

  /** The decision, still in the store's own terms. */
  lemma EnqueueDecides(
    store: Store, execution: Execution, occurrence: string, requestId: Option<string>, inputDigest: string,
    expectedRevision: Option<int>, now: Time, uuid: nat)
    requires WellShaped(store) && !store.closed && execution.status.Queued?
    requires execution.id in store.executions <==> (execution.namespace, occurrence) in store.occurrences
    requires IsNew(store, Command(execution.namespace, execution.ownerId, requestId, inputDigest))
    ensures
      var command := Command(execution.namespace, execution.ownerId, requestId, inputDigest);
      var result := EnqueueExecution(store, execution, occurrence, requestId, inputDigest, expectedRevision, now, uuid);
      var refusal := TaskPrecondition(store, execution, expectedRevision);
      var added := AddExecution(store, execution, occurrence, now, uuid);
      if execution.id in store.executions then
        result == Step(store, Ok(store.executions[store.occurrences[(execution.namespace, occurrence)]]))
      else if refusal.Some? then result == Step(store, Err(refusal.value))
      else if |QueuedInScope(store, ExecutionScope(execution))| >= execution.limits.maxQueuedRuns then result == Step(store, Err(QueueFull))
      else if !HasRecordRoom(store, command) then result == Step(store, Err(CapacityExhausted))
      else
        && result.outcome == Ok(execution) && result.store == added.(operations := result.store.operations)
        && LogsExecution(added, result.store, command, execution)
  {
    hide WorkResolves, ExecutionsNamed, TaskPrecondition, AddExecution, QueuedInScope;
  }

  /** Who is refused, and that no queue grows beyond its limit. */
  predicate IsEnqueued(
    store: Store, result: Step<Execution>, execution: Execution, occurrence: string, command: Command, expectedRevision: Option<int>,
    now: Time, uuid: nat)
  {
    match result.outcome
    case Err(error) =>
      && result.store == store
      && (|| IsTaskRefusal(store, execution, expectedRevision, error)
          || (error == QueueFull && |QueueOf(store.executions, execution)| >= execution.limits.maxQueuedRuns)
          || (error == CapacityExhausted && !HasRecordRoom(store, command)))
    case Ok(stored) =>
      && stored == execution
      && (forall error :: !IsTaskRefusal(store, execution, expectedRevision, error)) && HasRecordRoom(store, command)
      && IsAdded(store, result.store, execution, occurrence, now, uuid)
      && LogsExecution(store, result.store, command, execution)
      && QueueOf(result.store.executions, execution) == QueueOf(store.executions, execution) + {execution.id}
      && |QueueOf(result.store.executions, execution)| <= execution.limits.maxQueuedRuns
  }

  /** Enqueueing with a command that is not yet in the log. */
  lemma EnqueueingByQueue(
    store: Store, execution: Execution, occurrence: string, requestId: Option<string>, inputDigest: string,
    expectedRevision: Option<int>, now: Time, uuid: nat)
    requires Inv(store) && !store.closed && IsNewExecution(execution, occurrence)
    requires IsNew(store, Command(execution.namespace, execution.ownerId, requestId, inputDigest))
    ensures
      var command := Command(execution.namespace, execution.ownerId, requestId, inputDigest);
      var result := EnqueueExecution(store, execution, occurrence, requestId, inputDigest, expectedRevision, now, uuid);
      if execution.id in store.executions then result == Step(store, Ok(store.executions[execution.id]))
      else IsEnqueued(store, result, execution, occurrence, command, expectedRevision, now, uuid)
  {
    hide CountersCountHolders, RecordsConsistent, OccurrencesInStep, WellShaped, EnqueueExecution, TaskPrecondition, AddExecution, QueuedInScope,
         QueueOf, IsTaskRefusal, IsNew, HasRecordRoom, FirstItem;
    IdentityIsOccurrence(store, execution, occurrence);
    EnqueueDecides(store, execution, occurrence, requestId, inputDigest, expectedRevision, now, uuid);
    QueueIsScope(store, execution);
    forall error ensures TaskPrecondition(store, execution, expectedRevision) == Some(error) <==> IsTaskRefusal(store, execution, expectedRevision, error) {
      RefusalIsSpelledOut(store, execution, expectedRevision, error);
    }
    if execution.id !in store.executions {
      AddsFirstItem(store, execution, occurrence, now, uuid);
      QueueGrows(store.executions, execution);
    }
  }

  // ---------------------------------------------------------------- materializing

  /** The queued executions of a task. */
  function QueueOfTask(executions: map<ExecutionId, Execution>, taskId: string): set<ExecutionId> {
    set id | id in executions && executions[id].taskId == Some(taskId) && executions[id].status == Queued
  }

  function IdsOf(added: seq<ScheduledExecution>): set<ExecutionId> {
    set i | 0 <= i < |added| :: added[i].execution.id
  }

  lemma OneMoreId(front: seq<ScheduledExecution>, last: ScheduledExecution)
    ensures IdsOf(front + [last]) == IdsOf(front) + {last.execution.id}
  {
    var added := front + [last];
    assert added[|front|] == last;
    assert forall i :: 0 <= i < |front| ==> added[i] == front[i];
  }

  /** The new executions and their items are stored; what was stored before is as it was. */
  predicate AreAdded(before: Store, after: Store, added: seq<ScheduledExecution>, now: Time, uuids: nat -> nat) {
    && after.executions.Keys == before.executions.Keys + IdsOf(added)
    && (forall id :: id in before.executions ==> after.executions[id] == before.executions[id])
    && (forall k :: k in before.work ==> k in after.work && after.work[k] == before.work[k])
    && (forall i :: 0 <= i < |added| ==>
          && added[i].execution.id !in before.executions
          && added[i].execution.id in after.executions && after.executions[added[i].execution.id] == added[i].execution
          && KeyFor(added[i].execution.id, Execute) in after.work
          && after.work[KeyFor(added[i].execution.id, Execute)] == FirstItem(added[i].execution, now, uuids(i)))
    && after.admitted == before.admitted && after.allocations == before.allocations
    && after.operations == before.operations && after.tasks == before.tasks
  }

  lemma OneMoreIsAdded(
    before: Store, earlier: Store, after: Store, front: seq<ScheduledExecution>, last: ScheduledExecution, now: Time, uuids: nat -> nat)
    requires AreAdded(before, earlier, front, now, uuids) && last.execution.id !in earlier.executions
    requires KeyFor(last.execution.id, Execute) !in earlier.work
    requires IsAdded(earlier, after, last.execution, last.occurrence, now, uuids(|front|)) && after.operations == earlier.operations
    ensures AreAdded(before, after, front + [last], now, uuids)
  {
    hide FirstItem, IdsOf;
    var added, item := front + [last], FirstItem(last.execution, now, uuids(|front|));
    OneMoreId(front, last);
    assert after.executions.Keys == earlier.executions.Keys + {last.execution.id};
    forall i | 0 <= i < |added|
      ensures added[i].execution.id in after.executions && after.executions[added[i].execution.id] == added[i].execution
      ensures KeyFor(added[i].execution.id, Execute) in after.work
      ensures after.work[KeyFor(added[i].execution.id, Execute)] == FirstItem(added[i].execution, now, uuids(i))
    {
      if i < |front| {
        assert added[i] == front[i];
      }
    }
  }

  lemma NoneAdded(store: Store, now: Time, uuids: nat -> nat)
    ensures AreAdded(store, store, [], now, uuids)
  {
  }

  lemma {:induction false} AddExecutionsAdds(store: Store, namespace: string, pending: seq<ScheduledExecution>, now: Time, uuids: nat -> nat)
    requires Inv(store) && AreNewExecutions(namespace, pending)
    requires DistinctOccurrences(pending) && AreNewOccurrences(store, namespace, pending)
    ensures AreAdded(store, AddExecutions(store, pending, now, uuids), pending, now, uuids)
    decreases |pending|
  {
    hide Inv, Evolves, AddExecution, FirstItem, IsNewExecution, AreAdded;
    if pending == [] {
      NoneAdded(store, now, uuids);
    } else {
      var last, front := pending[|pending| - 1], pending[..|pending| - 1];
      assert pending == front + [last];
      AddExecutionsAdds(store, namespace, front, now, uuids);
      AddExecutionsPreserves(store, namespace, front, now, uuids);
      NextIsAdded(store, AddExecutions(store, front, now, uuids), namespace, front, last, now, uuids);
    }
  }

  lemma NextIsAdded(
    store: Store, earlier: Store, namespace: string, front: seq<ScheduledExecution>, last: ScheduledExecution, now: Time, uuids: nat -> nat)
    requires AreAdded(store, earlier, front, now, uuids) && Inv(earlier)
    requires AreNewExecutions(namespace, front + [last]) && DistinctOccurrences(front + [last]) && AreNewOccurrences(store, namespace, front + [last])
    requires forall o :: o in earlier.occurrences ==> o in store.occurrences || exists i :: 0 <= i < |front| && o == (namespace, front[i].occurrence)
    ensures AreAdded(store, AddExecution(earlier, last.execution, last.occurrence, now, uuids(|front|)), front + [last], now, uuids)
  {
    hide Inv, AddExecution, FirstItem, AreAdded, IsUnstarted;
    var all := front + [last];
    assert all[|front|] == last;
    assert forall i :: 0 <= i < |front| ==> all[i] == front[i] && front[i].occurrence != last.occurrence;
    assert (namespace, last.occurrence) !in earlier.occurrences;
    IdentityIsOccurrence(earlier, last.execution, last.occurrence);
    AddsFirstItem(earlier, last.execution, last.occurrence, now, uuids(|front|));
    OneMoreIsAdded(store, earlier, AddExecution(earlier, last.execution, last.occurrence, now, uuids(|front|)), front, last, now, uuids);
  }

  /** The decision, still in the store's own terms. */
  lemma MaterializeDecides(
    store: Store, task: Task, expectedNextRunAt: Time, executions: seq<ScheduledExecution>, now: Time, uuids: nat -> nat)
    requires !store.closed
    requires task.id in store.tasks && store.tasks[task.id].namespace == task.namespace && store.tasks[task.id].ownerId == task.ownerId
    ensures
      var stored, result := store.tasks[task.id], MaterializeTask(store, task, expectedNextRunAt, executions, now, uuids);
      var pending := PendingOccurrences(executions, ExistingOccurrences(store, task.namespace));
      if stored.nextRunAt != Some(expectedNextRunAt) || stored.revision != task.revision || stored.status != Enabled then
        result == Step(store, Ok(Materialization(stored, [])))
      else if |QueueOfTask(store.executions, task.id)| + |pending| > task.limits.maxQueuedRuns then result == Step(store, Err(QueueFull))
      else if |store.executions| + |pending| > store.limits.maxExecutions || |store.work| + |pending| > store.limits.maxWorkItems then
        result == Step(store, Err(CapacityExhausted))
      else
        result == Step(AddExecutions(store.(tasks := store.tasks[task.id := task]), pending, now, uuids), Ok(Materialization(task, ExecutionsOf(pending))))
  {
    assert QueuedForTask(store, task.id) == QueueOfTask(store.executions, task.id);
    hide PendingOccurrences, AddExecutions, QueueOfTask, QueuedForTask, ExistingOccurrences;
  }

  /** A current materialization stores what it selected, and the task's queue stays within its limit. */
  lemma MaterializationByQueue(
    store: Store, task: Task, expectedNextRunAt: Time, executions: seq<ScheduledExecution>, now: Time, uuids: nat -> nat)
    requires Inv(store) && !store.closed && AreNewExecutions(task.namespace, executions)
    requires task.id in store.tasks && store.tasks[task.id].namespace == task.namespace && store.tasks[task.id].ownerId == task.ownerId
    ensures
      var stored, result := store.tasks[task.id], MaterializeTask(store, task, expectedNextRunAt, executions, now, uuids);
      var pending := PendingOccurrences(executions, ExistingOccurrences(store, task.namespace));
      if stored.nextRunAt != Some(expectedNextRunAt) || stored.revision != task.revision || stored.status != Enabled then
        result == Step(store, Ok(Materialization(stored, [])))
      else if |QueueOfTask(store.executions, task.id)| + |pending| > task.limits.maxQueuedRuns then result == Step(store, Err(QueueFull))
      else if |store.executions| + |pending| > store.limits.maxExecutions || |store.work| + |pending| > store.limits.maxWorkItems then
        result == Step(store, Err(CapacityExhausted))
      else
        && result.outcome == Ok(Materialization(task, ExecutionsOf(pending)))
        && AreAdded(store.(tasks := store.tasks[task.id := task]), result.store, pending, now, uuids)
        && |QueueOfTask(result.store.executions, task.id)| <= task.limits.maxQueuedRuns
  {
    hide WellShaped, RecordsConsistent, CountersCountHolders, OccurrencesInStep, PendingOccurrences, AreAdded, AddExecutions, QueueOfTask,
         ExistingOccurrences, AreNewExecutions, MaterializeTask;
    var pending := PendingOccurrences(executions, ExistingOccurrences(store, task.namespace));
    var advanced := store.(tasks := store.tasks[task.id := task]);
    MaterializeDecides(store, task, expectedNextRunAt, executions, now, uuids);
    AdvancingKeepsInv(store, advanced.tasks);
    PendingAreNew(store, task.namespace, executions);
    AddExecutionsAdds(advanced, task.namespace, pending, now, uuids);
    QueueOfTaskGrows(advanced, AddExecutions(advanced, pending, now, uuids), pending, task.id, now, uuids);
  }

  lemma AdvancingKeepsInv(store: Store, tasks: map<string, Task>)
    requires Inv(store)
    ensures Inv(store.(tasks := tasks))
  {
    hide CountersCountHolders, OccurrencesInStep, WorkResolves, OccurrencesResolve, Consistent;
    assert forall id :: id in store.executions ==> RecordOf(store.(tasks := tasks), id) == RecordOf(store, id);
  }

  lemma QueueOfTaskGrows(before: Store, after: Store, added: seq<ScheduledExecution>, taskId: string, now: Time, uuids: nat -> nat)
    requires AreAdded(before, after, added, now, uuids)
    ensures |QueueOfTask(after.executions, taskId)| <= |QueueOfTask(before.executions, taskId)| + |added|
  {
    AtMostAsMany(added);
    hide IdsOf;
    Outnumbered(QueueOfTask(after.executions, taskId), QueueOfTask(before.executions, taskId) + IdsOf(added));
  }

  lemma {:induction false} AtMostAsMany(added: seq<ScheduledExecution>)
    ensures |IdsOf(added)| <= |added|
    decreases |added|
  {
    if added != [] {
      var front, last := added[..|added| - 1], added[|added| - 1];
      assert added == front + [last];
      AtMostAsMany(front);
      OneMoreId(front, last);
    }
  }

  lemma Outnumbered(a: set<ExecutionId>, b: set<ExecutionId>)
    requires a <= b
    ensures |a| <= |b|
  {
    assert |b - a| == |b| - |a|;
  }
}

/** Capacity over whole runs: counters stay within the limits under which executions were admitted. */
module AutomationCapacity {
  import opened Outcomes
  import opened AutomationModel
  import opened AutomationRules
  import opened AutomationStore
  import opened AutomationInvariant
  import opened AutomationProgress
  import opened AutomationPreservation
  import opened AutomationClaims
  import opened AutomationCommands
  import opened AutomationAdmission
  import opened AutomationRuns
  import opened AutomationSafety

  /** Some execution of the scope allows this many concurrent runs. */
  predicate AllowedBySome(executions: map<ExecutionId, Execution>, scope: Scope, count: nat) {
    exists id :: id in executions && ExecutionScope(executions[id]) == scope && count <= executions[id].limits.maxConcurrentRuns
  }

  /** A global scope holds at most `globalConcurrency`, a task or owner scope what one of its executions allows. */
  predicate ScopeWithinLimit(store: Store, scope: Scope, globalConcurrency: nat) {
    var count := Lookup(store.allocations, scope, 0);
    if scope.GlobalScope? then count <= globalConcurrency
    else count == 0 || AllowedBySome(store.executions, scope, count)
  }

  ghost predicate WithinLimits(store: Store, globalConcurrency: nat) {
    forall scope :: ScopeWithinLimit(store, scope, globalConcurrency)
  }

  // ---------------------------------------------------------------- steps that admit nobody

  lemma HoldersShrink(before: Store, after: Store, scope: Scope)
    requires Inv(before) && Inv(after) && KeepsIdentities(before.executions, after.executions)
    requires after.admitted <= before.admitted
    ensures Lookup(after.allocations, scope, 0) <= Lookup(before.allocations, scope, 0)
  {
    hide RecordsConsistent, OccurrencesInStep, WellShaped;
    var held, kept := Holders(before.executions, before.admitted, scope), Holders(after.executions, after.admitted, scope);
    assert kept <= held;
    assert |kept| <= |held| by {
      assert |held - kept| == |held| - |kept|;
    }
  }

  lemma AllowancePersists(before: map<ExecutionId, Execution>, after: map<ExecutionId, Execution>, scope: Scope, count: nat, more: nat)
    requires KeepsIdentities(before, after) && AllowedBySome(before, scope, more) && count <= more
    ensures AllowedBySome(after, scope, count)
  {
    var id :| id in before && ExecutionScope(before[id]) == scope && more <= before[id].limits.maxConcurrentRuns;
    assert id in after && SameIdentity(before[id], after[id]);
  }

  lemma EvolvesKeepsIdentities(before: Store, after: Store)
    requires Evolves(before, after)
    ensures KeepsIdentities(before.executions, after.executions)
  {
    hide ItemAdvances, SameStart, SameIdentity;
    forall id | id in before.executions
      ensures SameIdentity(before.executions[id], after.executions[id])
    {
      assert Advances(RecordOf(before, id), RecordOf(after, id));
    }
  }

  lemma ReleasingStaysWithin(before: Store, after: Store, globalConcurrency: nat)
    requires Inv(before) && Preserves(before, after) && WithinLimits(before, globalConcurrency)
    requires after.admitted <= before.admitted
    ensures WithinLimits(after, globalConcurrency)
  {
    EvolvesKeepsIdentities(before, after);
    hide Inv, Evolves, KeepsIdentities, AllowedBySome;
    forall scope
      ensures ScopeWithinLimit(after, scope, globalConcurrency)
    {
      HoldersShrink(before, after, scope);
      assert ScopeWithinLimit(before, scope, globalConcurrency);
      var count, more := Lookup(after.allocations, scope, 0), Lookup(before.allocations, scope, 0);
      if !scope.GlobalScope? && count != 0 {
        AllowancePersists(before.executions, after.executions, scope, count, more);
      }
    }
  }

  // ---------------------------------------------------------------- the claim loop

  lemma LeaseStaysWithin(store: Store, key: WorkKey, request: ClaimRequest, now: Time, token: Token, globalConcurrency: nat)
    requires WellShaped(store) && WithinLimits(store, globalConcurrency) && request.globalConcurrency <= globalConcurrency
    requires key in store.work && store.work[key].executionId in store.executions
    requires !IsRefusedAdmission(store, store.work[key], store.executions[store.work[key].executionId], request.globalConcurrency)
    ensures WithinLimits(Lease(store, key, request, now, token), globalConcurrency)
  {
    var after := Lease(store, key, request, now, token);
    var execution := store.executions[store.work[key].executionId];
    assert execution.id == store.work[key].executionId;
    hide WellShaped, AllowedBySome;
    forall scope
      ensures ScopeWithinLimit(after, scope, globalConcurrency)
    {
      assert ScopeWithinLimit(store, scope, globalConcurrency);
      var count := Lookup(after.allocations, scope, 0);
      if count != Lookup(store.allocations, scope, 0) && scope == ExecutionScope(execution) {
        AllowedByThis(after.executions, execution.id, count);
      }
    }
  }

  lemma AllowedByThis(executions: map<ExecutionId, Execution>, id: ExecutionId, count: nat)
    requires id in executions && count <= executions[id].limits.maxConcurrentRuns
    ensures AllowedBySome(executions, ExecutionScope(executions[id]), count)
  {
  }

  lemma ClaimItemCases(current: Claiming, request: ClaimRequest, now: Time, token: Token, key: WorkKey)
    requires WellShaped(current.store) && key in current.store.work
    ensures
      var store := current.store;
      var execution := store.executions[store.work[key].executionId];
      var candidate := ClaimCandidate(execution, store.work[key].kind, now);
      ClaimItem(current, request, now, token, key).store ==
        if candidate.Some? then Released(store, candidate.value, Some(key))
        else if IsRefusedAdmission(store, store.work[key], execution, request.globalConcurrency) then store
        else Lease(store, key, request, now, token)
  {
    hide Released, Lease, IsRefusedAdmission, WorkResolves, ExecutionsNamed, OccurrencesResolve;
  }

  lemma ReleasedAdmitsNobody(store: Store, transition: Transition, item: Option<WorkKey>)
    ensures Released(store, transition, item).admitted <= store.admitted
  {
    hide CompleteItems, Decremented;
  }

  lemma ClaimItemStaysWithin(current: Claiming, request: ClaimRequest, now: Time, token: Token, key: WorkKey, globalConcurrency: nat)
    requires Inv(current.store) && WithinLimits(current.store, globalConcurrency) && request.globalConcurrency <= globalConcurrency
    requires key in current.store.work && current.store.work[key].status.Pending?
    ensures WellShaped(current.store) && WithinLimits(ClaimItem(current, request, now, token, key).store, globalConcurrency)
  {
    assert WellShaped(current.store);
    var store := current.store;
    var execution := store.executions[store.work[key].executionId];
    hide Inv, Evolves, WithinLimits, WorkResolves, ExecutionsNamed, OccurrencesResolve;
    ClaimItemPreserves(current, request, now, token, key);
    ClaimItemCases(current, request, now, token, key);
    hide ClaimItem, Released, Lease, IsRefusedAdmission, ClaimCandidate;
    var candidate := ClaimCandidate(execution, store.work[key].kind, now);
    if candidate.Some? {
      ReleasedAdmitsNobody(store, candidate.value, Some(key));
      ReleasingStaysWithin(store, Released(store, candidate.value, Some(key)), globalConcurrency);
    } else if !IsRefusedAdmission(store, store.work[key], execution, request.globalConcurrency) {
      LeaseStaysWithin(store, key, request, now, token, globalConcurrency);
    }
  }

  lemma {:induction false} ClaimItemsStayWithin(
    current: Claiming, request: ClaimRequest, now: Time, tokens: nat -> Token, candidates: seq<WorkKey>, globalConcurrency: nat)
    requires Inv(current.store) && WellShaped(current.store) && AreCandidates(current.store, candidates)
    requires WithinLimits(current.store, globalConcurrency) && request.globalConcurrency <= globalConcurrency
    ensures WithinLimits(ClaimItems(current, request, now, tokens, candidates).store, globalConcurrency)
    decreases |candidates|
  {
    hide Inv, Evolves, WithinLimits, WorkResolves, ExecutionsNamed, OccurrencesResolve, ClaimItem;
    if candidates != [] && |current.claims| < request.limit {
      var token := tokens(|current.claims|);
      ClaimItemPreserves(current, request, now, token, candidates[0]);
      ClaimItemShape(current, request, now, token, candidates[0]);
      RemainingCandidates(current, request, now, token, candidates);
      ClaimItemStaysWithin(current, request, now, token, candidates[0], globalConcurrency);
      ClaimItemsStayWithin(ClaimItem(current, request, now, token, candidates[0]), request, now, tokens, candidates[1..], globalConcurrency);
    }
  }

  lemma ClaimWorkStaysWithin(
    store: Store, request: ClaimRequest, now: Time, tokens: nat -> Token, candidates: seq<WorkKey>, globalConcurrency: nat)
    requires Inv(store) && WellShaped(store)
    requires IsClaimOrder(RecoverClaims(store, request.namespace, now).work, request.namespace, now, candidates)
    requires WithinLimits(store, globalConcurrency) && request.globalConcurrency <= globalConcurrency
    ensures WithinLimits(ClaimWork(store, request, now, tokens, candidates).store, globalConcurrency)
  {
    var recovered := RecoverClaims(store, request.namespace, now);
    RecoverClaimsPreserves(store, request.namespace, now);
    RecoveryKeepsShape(store, request.namespace, now);
    RecoveredCandidates(store, request.namespace, now, candidates);
    assert recovered.admitted == store.admitted;
    hide Inv, Evolves, WithinLimits, WorkResolves, ExecutionsNamed, OccurrencesResolve, RecoverClaims, ClaimItems;
    ReleasingStaysWithin(store, recovered, globalConcurrency);
    ClaimItemsStayWithin(Claiming(recovered, []), request, now, tokens, candidates, globalConcurrency);
  }

  // ---------------------------------------------------------------- all calls

  lemma TransitionAdmitsNobody(store: Store, transition: Transition, item: Option<WorkKey>, now: Time, uuid: nat)
    ensures ApplyTransition(store, transition, item, now, uuid).store.admitted <= store.admitted
  {
    ReleasedAdmitsNobody(store, transition, item);
    hide Released;
  }

  lemma {:induction false} CancelAllAdmitsNobody(store: Store, ids: seq<ExecutionId>, now: Time)
    requires forall id :: id in ids ==> id in store.executions
    ensures CancelAll(store, ids, now).admitted <= store.admitted
    decreases |ids|
  {
    hide ApplyTransition, CancelExecution;
    if ids != [] {
      var last := |ids| - 1;
      CancelAllAdmitsNobody(store, ids[..last], now);
      var cancelled := CancelExecution(store.executions[ids[last]], now);
      if cancelled.Ok? {
        TransitionAdmitsNobody(CancelAll(store, ids[..last], now), cancelled.value, None, now, 0);
      }
    }
  }

  lemma {:induction false} AddExecutionsAdmitsNobody(store: Store, pending: seq<ScheduledExecution>, now: Time, uuids: nat -> nat)
    ensures AddExecutions(store, pending, now, uuids).admitted == store.admitted
    decreases |pending|
  {
    if pending != [] {
      AddExecutionsAdmitsNobody(store, pending[..|pending| - 1], now, uuids);
    }
  }

  lemma SettlingAdmitsNobody(store: Store, call: Call)
    requires WellShaped(store) && (call.CallInterrupt? || call.CallFinish?)
    ensures Perform(store, call).store.admitted <= store.admitted
  {
    hide ExecutionsNamed, OccurrencesResolve, ApplyTransition, InterruptExecution, FinishExecution;
    if ValidClaim(store, call.claim, call.now) {
      var execution := store.executions[call.claim.item.executionId];
      match call
      case CallInterrupt(claim, interruptIds, now, uuid) =>
        var interrupted := InterruptExecution(execution, interruptIds, now);
        if interrupted.Ok? {
          TransitionAdmitsNobody(store, interrupted.value, Some(claim.item), now, uuid);
        }
      case CallFinish(claim, settlement, now) =>
        var finished := FinishExecution(execution, settlement.status, now,
                                        settlement.result, settlement.failureCode, settlement.failureMessage);
        if finished.Ok? {
          TransitionAdmitsNobody(store, finished.value, Some(claim.item), now, 0);
        }
    }
  }

  lemma CommittingAdmitsNobody(store: Store, command: Command, decided: Outcome<Transition, StoreError>, now: Time)
    ensures CommitCommand(store, command, decided, now).store.admitted <= store.admitted
  {
    hide ApplyTransition;
    if decided.Ok? {
      TransitionAdmitsNobody(store, decided.value, None, now, 0);
    }
  }

  lemma CommandsAdmitNobody(store: Store, call: Call)
    requires WellShaped(store) && Permitted(store, call)
    requires call.CallCancel? || call.CallResolve? || call.CallDeleteTask? || call.CallMaterialize?
    ensures Perform(store, call).store.admitted <= store.admitted
  {
    hide WorkResolves, ExecutionsNamed, OccurrencesResolve, CancelExecution, ResolveExecution, CommitCommand, CancelAll, AddExecutions;
    hide CancelCommand, ResolveCommand, DeleteTask, MaterializeTask;
    match call
    case CallCancel(command, id, now) =>
      CancelCommandCases(store, command, id, now);
      if id in store.executions {
        CommittingAdmitsNobody(store, command, CancelExecution(store.executions[id], now), now);
      }
    case CallResolve(command, id, resolution, reason, now) =>
      ResolveCommandCases(store, command, id, resolution, reason, now);
      if id in store.executions {
        CommittingAdmitsNobody(store, command, ResolveExecution(store.executions[id], resolution, reason, now), now);
      }
    case CallDeleteTask(command, taskId, revision, now, ids) =>
      assert forall id :: id in ids ==> id in (set x | x in ids);
      DeleteTaskCases(store, command, taskId, revision, now, ids);
      CancelAllAdmitsNobody(store.(tasks := store.tasks - {taskId}), ids, now);
    case CallMaterialize(task, expected, executions, now, uuids) =>
      MaterializeCases(store, task, expected, executions, now, uuids);
      AddExecutionsAdmitsNobody(store.(tasks := store.tasks[task.id := task]),
                                PendingOccurrences(executions, ExistingOccurrences(store, task.namespace)), now, uuids);
  }

  /** Only claiming admits executions. */
  lemma OnlyClaimingAdmits(store: Store, call: Call)
    requires WellShaped(store) && Permitted(store, call) && !call.CallClaimWork?
    ensures Perform(store, call).store.admitted <= store.admitted
  {
    hide WellShaped;
    if call.CallInterrupt? || call.CallFinish? {
      SettlingAdmitsNobody(store, call);
    } else if call.CallCancel? || call.CallResolve? || call.CallDeleteTask? || call.CallMaterialize? {
      CommandsAdmitNobody(store, call);
    } else {
      hide MarkInterrupted, FinishClaim, CancelCommand, ResolveCommand, DeleteTask, MaterializeTask, ClaimWork;
      hide AuthorizeStart, TaskPrecondition, OwnsTask;
      assert Perform(store, call).store.admitted == store.admitted;
    }
    hide Perform;
  }

  /** The claims of a call stay under this global limit. */
  predicate ClaimsUpTo(call: Call, globalConcurrency: nat) {
    call.CallClaimWork? ==> call.request.globalConcurrency <= globalConcurrency
  }

  lemma PerformStaysWithin(store: Store, call: Call, globalConcurrency: nat)
    requires Inv(store) && WellShaped(store) && Permitted(store, call)
    requires WithinLimits(store, globalConcurrency) && ClaimsUpTo(call, globalConcurrency)
    ensures WithinLimits(Perform(store, call).store, globalConcurrency)
  {
    hide Inv, Evolves, WithinLimits, WellShaped;
    PerformPreserves(store, call);
    if call.CallClaimWork? {
      ClaimWorkStaysWithin(store, call.request, call.now, call.tokens, call.candidates, globalConcurrency);
      hide ClaimWork;
    } else {
      OnlyClaimingAdmits(store, call);
      hide Perform;
      ReleasingStaysWithin(store, Perform(store, call).store, globalConcurrency);
    }
  }

  /**
    Over every run whose claims use at most `globalConcurrency`, each counter equals the number of admitted
    executions of its scope and stays within the scope's limit.
   */
  lemma {:induction false} CapacityIsConservedAndBounded(stores: seq<Store>, calls: seq<Call>, i: nat, globalConcurrency: nat)
    requires IsRun(stores, calls) && i < |stores|
    requires forall k :: 0 <= k < |calls| ==> ClaimsUpTo(calls[k], globalConcurrency)
    ensures WithinLimits(stores[i], globalConcurrency)
    ensures CountersCountHolders(stores[i].executions, stores[i].admitted, stores[i].allocations)
  {
    hide Perform, Permitted, RecordsConsistent, OccurrencesInStep, WellShaped;
    RunKeepsInv(stores, calls, i);
    if i > 0 {
      CapacityIsConservedAndBounded(stores, calls, i - 1, globalConcurrency);
      RunKeepsInv(stores, calls, i - 1);
      assert IsStep(stores, calls, i - 1);
      PerformStaysWithin(stores[i - 1], calls[i - 1], globalConcurrency);
    }
  }

  /** A limit shared by every execution of a task or owner scope bounds the scope. */
  lemma SharedScopeLimitHolds(stores: seq<Store>, calls: seq<Call>, i: nat, globalConcurrency: nat, scope: Scope, limit: nat)
    requires IsRun(stores, calls) && i < |stores| && !scope.GlobalScope?
    requires forall k :: 0 <= k < |calls| ==> ClaimsUpTo(calls[k], globalConcurrency)
    requires forall id :: id in stores[i].executions && ExecutionScope(stores[i].executions[id]) == scope ==>
               stores[i].executions[id].limits.maxConcurrentRuns <= limit
    ensures |Holders(stores[i].executions, stores[i].admitted, scope)| == Lookup(stores[i].allocations, scope, 0) <= limit
  {
    hide Perform, Permitted;
    CapacityIsConservedAndBounded(stores, calls, i, globalConcurrency);
    assert ScopeWithinLimit(stores[i], scope, globalConcurrency);
  }
}

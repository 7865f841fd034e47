/** Commands: their effect on the invariant, and the idempotency promised by the command log. */
module AutomationCommands {
  import opened Outcomes
  import opened AutomationModel
  import opened AutomationRules
  import opened AutomationStore
  import opened AutomationInvariant
  import opened AutomationProgress
  import opened AutomationPreservation

  // ---------------------------------------------------------------- the log

  /** Tasks, the command log and the closed flag play no part in the invariant. */
  lemma LogPreserves(before: Store, after: Store)
    requires Inv(before)
    requires after.executions == before.executions && after.work == before.work
    requires after.admitted == before.admitted && after.allocations == before.allocations
    requires after.occurrences == before.occurrences && after.limits == before.limits
    requires before.closed ==> after.closed
    requires IsSubmap(before.operations, after.operations)
    ensures Preserves(before, after)
  {
    hide CountersCountHolders, OccurrencesInStep, WorkResolves, ExecutionsNamed, OccurrencesResolve, Consistent;
    forall id | id in before.executions
      ensures RecordOf(after, id) == RecordOf(before, id)
    {
    }
  }

  predicate IsUnrecorded(store: Store, command: Command) {
    command.requestId.Some? ==> command.Key() !in store.operations
  }

  lemma SaveOperationPreserves(before: Store, after: Store, command: Command, result: OperationResult)
    requires Preserves(before, after) && IsUnrecorded(after, command)
    ensures Preserves(before, SaveOperation(after, command, result))
  {
    hide Inv, Advances;
    LogPreserves(after, SaveOperation(after, command, result));
    EvolvesTransitive(before, after, SaveOperation(after, command, result));
  }

  // ---------------------------------------------------------------- task commands

  lemma CreateTaskPreserves(store: Store, task: Task, requestId: Option<string>, inputDigest: string)
    requires Inv(store)
    ensures Preserves(store, CreateTask(store, task, requestId, inputDigest).store)
  {
    hide Inv;
    LogPreserves(store, CreateTask(store, task, requestId, inputDigest).store);
  }

  lemma UpdateTaskPreserves(store: Store, task: Task, expectedRevision: int, requestId: Option<string>, inputDigest: string)
    requires Inv(store)
    ensures Preserves(store, UpdateTask(store, task, expectedRevision, requestId, inputDigest).store)
  {
    hide Inv;
    LogPreserves(store, UpdateTask(store, task, expectedRevision, requestId, inputDigest).store);
  }

  lemma ClosePreserves(store: Store)
    requires Inv(store)
    ensures Preserves(store, Close(store))
  {
    hide Inv;
    LogPreserves(store, Close(store));
  }

  // ---------------------------------------------------------------- execution commands

  /** The transition decided for a command, if any, leaves the records of its execution consistent. */
  ghost predicate DecidesWell(store: Store, id: ExecutionId, decided: Outcome<Transition, StoreError>) {
    && id in store.executions
    && (decided.Ok? ==>
          && decided.value.execution.id == id
          && decided.value.deadlineWorkAt.None?
          && Improves(id, RecordOf(store, id), Transitioned(RecordOf(store, id), decided.value, None)))
  }

  lemma CommitPreserves(store: Store, command: Command, id: ExecutionId, decided: Outcome<Transition, StoreError>, now: Time)
    requires Inv(store) && IsUnrecorded(store, command) && DecidesWell(store, id, decided)
    ensures Preserves(store, CommitCommand(store, command, decided, now).store)
  {
    hide Inv, Evolves, Improves, Settled, ReleaseScopes;
    EvolvesReflexive(store);
    if decided.Ok? {
      TransitionPreserves(store, id, decided.value, now);
      SaveOperationPreserves(store, Released(store, decided.value, None), command, ExecutionResult(decided.value.execution));
    }
  }

  lemma TransitionPreserves(store: Store, id: ExecutionId, transition: Transition, now: Time)
    requires Inv(store) && DecidesWell(store, id, Ok(transition))
    ensures Preserves(store, Released(store, transition, None))
    ensures
      var after := Released(store, transition, None);
      && after.operations == store.operations
      && after.tasks == store.tasks
      && after.executions == store.executions[id := transition.execution]
  {
    hide CountersCountHolders, OccurrencesInStep, WorkResolves, OccurrencesResolve, ItemAdvances, StatusFixesWork;
    ReleasedPreserves(store, transition, None, None);
  }

  lemma CancelDecidesWell(store: Store, id: ExecutionId, now: Time)
    requires RecordsConsistent(store) && id in store.executions
    ensures DecidesWell(store, id, CancelExecution(store.executions[id], now))
  {
    var cancelled := CancelExecution(store.executions[id], now);
    assert Consistent(id, RecordOf(store, id));
    if cancelled.Ok? {
      CancelImproves(id, RecordOf(store, id), now);
    }
    hide Consistent, Advances;
  }

  lemma CancelCommandCases(store: Store, command: Command, id: ExecutionId, now: Time)
    ensures
      var result := CancelCommand(store, command, id, now);
      || result.store == store
      || (&& id in store.executions
          && IsUnrecorded(store, command)
          && result == CommitCommand(store, command, CancelExecution(store.executions[id], now), now))
  {
    hide CancelExecution, CommitCommand;
  }

  lemma CancelCommandPreserves(store: Store, command: Command, id: ExecutionId, now: Time)
    requires Inv(store)
    ensures Preserves(store, CancelCommand(store, command, id, now).store)
  {
    assert RecordsConsistent(store);
    CancelCommandCases(store, command, id, now);
    hide Inv, Evolves, RecordsConsistent, CancelExecution, CommitCommand, DecidesWell, CancelCommand;
    EvolvesReflexive(store);
    if id in store.executions && IsUnrecorded(store, command) {
      CancelDecidesWell(store, id, now);
      CommitPreserves(store, command, id, CancelExecution(store.executions[id], now), now);
    }
  }

  lemma ResolveDecidesWell(store: Store, id: ExecutionId, resolution: AttentionResolution, reason: string, now: Time)
    requires RecordsConsistent(store) && id in store.executions
    ensures DecidesWell(store, id, ResolveExecution(store.executions[id], resolution, reason, now))
  {
    var resolved := ResolveExecution(store.executions[id], resolution, reason, now);
    assert Consistent(id, RecordOf(store, id));
    if resolved.Ok? {
      ResolveImproves(id, RecordOf(store, id), resolution, reason, now);
    }
    hide Consistent, Advances;
  }

  lemma ResolveCommandCases(store: Store, command: Command, id: ExecutionId, resolution: AttentionResolution, reason: string, now: Time)
    ensures
      var result := ResolveCommand(store, command, id, resolution, reason, now);
      || result.store == store
      || (&& id in store.executions
          && IsUnrecorded(store, command)
          && result == CommitCommand(store, command, ResolveExecution(store.executions[id], resolution, reason, now), now))
  {
    hide ResolveExecution, CommitCommand;
  }

  lemma ResolveCommandPreserves(
    store: Store, command: Command, id: ExecutionId, resolution: AttentionResolution, reason: string, now: Time)
    requires Inv(store)
    ensures Preserves(store, ResolveCommand(store, command, id, resolution, reason, now).store)
  {
    assert RecordsConsistent(store);
    ResolveCommandCases(store, command, id, resolution, reason, now);
    hide Inv, Evolves, RecordsConsistent, ResolveExecution, CommitCommand, DecidesWell, ResolveCommand;
    EvolvesReflexive(store);
    if id in store.executions && IsUnrecorded(store, command) {
      ResolveDecidesWell(store, id, resolution, reason, now);
      CommitPreserves(store, command, id, ResolveExecution(store.executions[id], resolution, reason, now), now);
    }
  }

  // ---------------------------------------------------------------- deleting a task

  predicate AreDistinct(ids: seq<ExecutionId>) {
    forall i, j :: 0 <= i < j < |ids| ==> ids[i] != ids[j]
  }

  predicate AreStoredQueued(store: Store, ids: seq<ExecutionId>) {
    && (forall id :: id in ids ==> id in store.executions)
    && (forall id :: id in ids ==> store.executions[id].status.Queued?)
  }

  lemma {:induction false} CancelAllPreserves(store: Store, ids: seq<ExecutionId>, now: Time)
    requires Inv(store) && AreDistinct(ids) && AreStoredQueued(store, ids)
    ensures
      var after := CancelAll(store, ids, now);
      && Preserves(store, after)
      && after.operations == store.operations
      && after.tasks == store.tasks
      && (forall x :: x in store.executions && x !in ids ==> x in after.executions && after.executions[x] == store.executions[x])
    decreases |ids|
  {
    hide Inv, Evolves;
    EvolvesReflexive(store);
    if ids != [] {
      var last := |ids| - 1;
      var earlier := CancelAll(store, ids[..last], now);
      assert ids == ids[..last] + [ids[last]];
      CancelAllPreserves(store, ids[..last], now);
      assert ids[last] !in ids[..last];
      CancelOnePreserves(store, earlier, ids[last], now);
    }
  }

  /** One more queued execution is cancelled after some others. */
  lemma CancelOnePreserves(store: Store, earlier: Store, id: ExecutionId, now: Time)
    requires Preserves(store, earlier) && id in store.executions && id in earlier.executions
    requires earlier.executions[id] == store.executions[id] && store.executions[id].status.Queued?
    ensures
      var cancelled := CancelExecution(store.executions[id], now);
      && cancelled.Ok?
      && var after := ApplyTransition(earlier, cancelled.value, None, now, 0).store;
      && Preserves(store, after)
      && after.operations == earlier.operations
      && after.tasks == earlier.tasks
      && after.executions == earlier.executions[id := cancelled.value.execution]
  {
    hide Consistent, Evolves, CountersCountHolders, OccurrencesInStep, WellShaped;
    assert RecordsConsistent(earlier);
    hide Inv, RecordsConsistent;
    var transition := CancelExecution(store.executions[id], now).value;
    assert transition.deadlineWorkAt.None?;
    hide CancelExecution, Improves, Released;
    CancelDecidesWell(earlier, id, now);
    TransitionPreserves(earlier, id, transition, now);
    EvolvesTransitive(store, earlier, Released(earlier, transition, None));
  }

  lemma DeletedStorePreserves(store: Store, command: Command, taskId: string, now: Time, ids: seq<ExecutionId>)
    requires Inv(store) && AreDistinct(ids) && AreStoredQueued(store, ids) && IsUnrecorded(store, command)
    ensures
      var cancelled := CancelAll(store.(tasks := store.tasks - {taskId}), ids, now);
      Preserves(store, SaveOperation(cancelled, command, DeletedTask(taskId)))
  {
    hide Inv, Evolves;
    var without := store.(tasks := store.tasks - {taskId});
    LogPreserves(store, without);
    CancelAllPreserves(without, ids, now);
    var cancelled := CancelAll(without, ids, now);
    EvolvesTransitive(store, without, cancelled);
    SaveOperationPreserves(store, cancelled, command, DeletedTask(taskId));
  }

  lemma DeleteTaskCases(store: Store, command: Command, taskId: string, expectedRevision: int, now: Time, ids: seq<ExecutionId>)
    requires forall id :: id in ids ==> id in QueuedForTask(store, taskId)
    ensures AreStoredQueued(store, ids)
    ensures
      var result := DeleteTask(store, command, taskId, expectedRevision, now, ids);
      || result.store == store
      || (&& IsUnrecorded(store, command)
          && result.store ==
             SaveOperation(CancelAll(store.(tasks := store.tasks - {taskId}), ids, now), command, DeletedTask(taskId)))
  {
    hide CancelAll, SaveOperation;
    assert forall id :: id in ids ==> id in QueuedForTask(store, taskId) && id in store.executions;
  }

  lemma DeleteTaskPreserves(store: Store, command: Command, taskId: string, expectedRevision: int, now: Time, ids: seq<ExecutionId>)
    requires Inv(store) && AreDistinct(ids)
    requires forall id :: id in ids ==> id in QueuedForTask(store, taskId)
    ensures Preserves(store, DeleteTask(store, command, taskId, expectedRevision, now, ids).store)
  {
    hide Inv, Evolves;
    EvolvesReflexive(store);
    DeleteTaskCases(store, command, taskId, expectedRevision, now, ids);
    hide DeleteTask, CancelAll, SaveOperation;
    if IsUnrecorded(store, command) {
      DeletedStorePreserves(store, command, taskId, now, ids);
    }
  }
}

/** New executions: enqueueing, materializing due occurrences, and the invariant across both. */
module AutomationAdmission {
  import opened Outcomes
  import opened AutomationModel
  import opened AutomationRules
  import opened AutomationStore
  import opened AutomationInvariant
  import opened AutomationProgress
  import opened AutomationPreservation
  import opened AutomationCommands

  /** A snapshot as the service builds it: queued, never started, identified by its occurrence. */
  predicate IsNewExecution(execution: Execution, occurrence: string) {
    && execution.id == ExecutionId(execution.namespace, occurrence)
    && execution.status.Queued?
    && execution.finishedAt.None?
    && IsUnstarted(execution)
  }

  /** The records of an execution just added. */
  function NewRecord(execution: Execution, now: Time, uuid: nat): Record {
    Record(execution, Some(NewItem(execution, Execute, execution.queuedAt, now, uuid)), None, false)
  }

  lemma NewRecordIsConsistent(execution: Execution, occurrence: string, now: Time, uuid: nat)
    requires IsNewExecution(execution, occurrence)
    ensures Consistent(execution.id, NewRecord(execution, now, uuid))
  {
  }

  /** The identity is new because its occurrence is. */
  lemma NewOccurrenceIsNewExecution(store: Store, execution: Execution, occurrence: string)
    requires Inv(store) && IsNewExecution(execution, occurrence)
    requires (execution.namespace, occurrence) !in store.occurrences
    ensures execution.id !in store.executions && execution.id !in store.admitted
    ensures forall kind :: KeyFor(execution.id, kind) !in store.work
  {
  }

  lemma AddedShape(store: Store, execution: Execution, occurrence: string, now: Time, uuid: nat)
    requires WellShaped(store) && execution.namespace == execution.id.namespace
    ensures WellShaped(AddExecution(store, execution, occurrence, now, uuid))
  {
    var saved := store.(executions := store.executions[execution.id := execution],
                        occurrences := store.occurrences[(execution.namespace, occurrence) := execution.id]);
    assert WellShaped(saved);
    CreateWorkShape(saved, execution, Execute, execution.queuedAt, now, uuid);
  }

  lemma AddedRecord(store: Store, execution: Execution, occurrence: string, now: Time, uuid: nat)
    requires IsNewExecution(execution, occurrence)
    requires execution.id !in store.admitted && forall kind :: KeyFor(execution.id, kind) !in store.work
    ensures
      var after := AddExecution(store, execution, occurrence, now, uuid);
      && SameElsewhere(store, after, execution.id)
      && RecordOf(after, execution.id) == NewRecord(execution, now, uuid)
  {
    assert KeyFor(execution.id, ExpireInterrupt) !in store.work;
    assert KeyFor(execution.id, Execute) !in store.work;
  }

  lemma AddedOccurrences(store: Store, execution: Execution, occurrence: string, now: Time, uuid: nat)
    requires OccurrencesInStep(store.executions, store.occurrences) && IsNewExecution(execution, occurrence)
    requires (execution.namespace, occurrence) !in store.occurrences
    ensures
      var after := AddExecution(store, execution, occurrence, now, uuid);
      && OccurrencesInStep(after.executions, after.occurrences)
      && IsSubmap(store.occurrences, after.occurrences)
  {
  }

  lemma AddedCounters(store: Store, execution: Execution, occurrence: string, now: Time, uuid: nat)
    requires CountersCountHolders(store.executions, store.admitted, store.allocations) && store.admitted <= store.executions.Keys
    requires execution.id !in store.executions
    ensures
      var after := AddExecution(store, execution, occurrence, now, uuid);
      && CountersCountHolders(after.executions, after.admitted, after.allocations)
      && after.admitted <= after.executions.Keys
  {
    var after := AddExecution(store, execution, occurrence, now, uuid);
    assert KeepsIdentities(store.executions, after.executions);
    CountersUnchanged(store.executions, after.executions, store.admitted, store.allocations);
  }

  lemma AddExecutionPreserves(store: Store, execution: Execution, occurrence: string, now: Time, uuid: nat)
    requires Inv(store) && IsNewExecution(execution, occurrence)
    requires (execution.namespace, occurrence) !in store.occurrences
    ensures
      var after := AddExecution(store, execution, occurrence, now, uuid);
      && Preserves(store, after)
      && after.operations == store.operations
  {
    var after := AddExecution(store, execution, occurrence, now, uuid);
    NewOccurrenceIsNewExecution(store, execution, occurrence);
    AddedShape(store, execution, occurrence, now, uuid);
    AddedRecord(store, execution, occurrence, now, uuid);
    AddedOccurrences(store, execution, occurrence, now, uuid);
    AddedCounters(store, execution, occurrence, now, uuid);
    NewRecordIsConsistent(execution, occurrence, now, uuid);
    hide Consistent, Advances, WorkResolves, ExecutionsNamed, OccurrencesResolve, CountersCountHolders, OccurrencesInStep;
    RecordsStayConsistent(store, after, execution.id);
    LocalAdvance(store, after, execution.id);
  }

  // ---------------------------------------------------------------- enqueue

  lemma EnqueueCases(
    store: Store, execution: Execution, occurrence: string, requestId: Option<string>, inputDigest: string,
    expectedTaskRevision: Option<int>, now: Time, uuid: nat)
    requires WellShaped(store)
    ensures
      var command := Command(execution.namespace, execution.ownerId, requestId, inputDigest);
      var result := EnqueueExecution(store, execution, occurrence, requestId, inputDigest, expectedTaskRevision, now, uuid);
      || result.store == store
      || (&& (execution.namespace, occurrence) !in store.occurrences
          && IsUnrecorded(store, command)
          && result.store == SaveOperation(AddExecution(store, execution, occurrence, now, uuid), command, ExecutionResult(execution)))
  {
    hide AddExecution, SaveOperation, TaskPrecondition, OwnsTask;
  }

  lemma EnqueuePreserves(
    store: Store, execution: Execution, occurrence: string, requestId: Option<string>, inputDigest: string,
    expectedTaskRevision: Option<int>, now: Time, uuid: nat)
    requires Inv(store) && IsNewExecution(execution, occurrence)
    ensures
      Preserves(store,
        EnqueueExecution(store, execution, occurrence, requestId, inputDigest, expectedTaskRevision, now, uuid).store)
  {
    assert WellShaped(store);
    hide Inv, Evolves, WellShaped;
    EvolvesReflexive(store);
    EnqueueCases(store, execution, occurrence, requestId, inputDigest, expectedTaskRevision, now, uuid);
    hide EnqueueExecution, AddExecution, SaveOperation;
    var command := Command(execution.namespace, execution.ownerId, requestId, inputDigest);
    if (execution.namespace, occurrence) !in store.occurrences && IsUnrecorded(store, command) {
      AddExecutionPreserves(store, execution, occurrence, now, uuid);
      SaveOperationPreserves(store, AddExecution(store, execution, occurrence, now, uuid), command, ExecutionResult(execution));
    }
  }

  // ---------------------------------------------------------------- materialize

  predicate AreNewExecutions(namespace: string, executions: seq<ScheduledExecution>) {
    forall i :: 0 <= i < |executions| ==>
      && IsNewExecution(executions[i].execution, executions[i].occurrence)
      && executions[i].execution.namespace == namespace
  }

  /** None of these occurrences is stored yet. */
  predicate AreNewOccurrences(store: Store, namespace: string, pending: seq<ScheduledExecution>) {
    forall i :: 0 <= i < |pending| ==> (namespace, pending[i].occurrence) !in store.occurrences
  }

  lemma {:induction false} AddExecutionsPreserves(
    store: Store, namespace: string, pending: seq<ScheduledExecution>, now: Time, uuids: nat -> nat)
    requires Inv(store) && AreNewExecutions(namespace, pending)
    requires DistinctOccurrences(pending) && AreNewOccurrences(store, namespace, pending)
    ensures
      var after := AddExecutions(store, pending, now, uuids);
      && Preserves(store, after)
      && (forall o :: o in after.occurrences ==>
            o in store.occurrences || exists i :: 0 <= i < |pending| && o == (namespace, pending[i].occurrence))
    decreases |pending|
  {
    hide Inv, Evolves;
    EvolvesReflexive(store);
    if pending != [] {
      var last := |pending| - 1;
      var earlier := AddExecutions(store, pending[..last], now, uuids);
      AddExecutionsPreserves(store, namespace, pending[..last], now, uuids);
      var o := (namespace, pending[last].occurrence);
      assert forall i :: 0 <= i < last ==> o != (namespace, pending[..last][i].occurrence);
      AddExecutionPreserves(earlier, pending[last].execution, pending[last].occurrence, now, uuids(last));
      EvolvesTransitive(store, earlier, AddExecutions(store, pending, now, uuids));
    }
  }

  lemma PendingAreNew(store: Store, namespace: string, executions: seq<ScheduledExecution>)
    requires AreNewExecutions(namespace, executions)
    ensures
      var pending := PendingOccurrences(executions, ExistingOccurrences(store, namespace));
      && AreNewExecutions(namespace, pending)
      && DistinctOccurrences(pending)
      && AreNewOccurrences(store, namespace, pending)
  {
    var existing := ExistingOccurrences(store, namespace);
    PendingOccurrencesAreNewAndDistinct(executions, existing);
    var pending := PendingOccurrences(executions, existing);
    forall i | 0 <= i < |pending|
      ensures (namespace, pending[i].occurrence) !in store.occurrences
      ensures IsNewExecution(pending[i].execution, pending[i].occurrence) && pending[i].execution.namespace == namespace
    {
      var o := (namespace, pending[i].occurrence);
      assert o in store.occurrences ==> o.1 in existing;
    }
  }

  lemma MaterializeCases(
    store: Store, task: Task, expectedNextRunAt: Time, executions: seq<ScheduledExecution>, now: Time, uuids: nat -> nat)
    ensures
      var result := MaterializeTask(store, task, expectedNextRunAt, executions, now, uuids);
      || result.store == store
      || (&& task.id in store.tasks
          && MaterializationIsCurrent(store.tasks[task.id], task, expectedNextRunAt)
          && result.store == AddExecutions(store.(tasks := store.tasks[task.id := task]),
                                           PendingOccurrences(executions, ExistingOccurrences(store, task.namespace)), now, uuids))
  {
    hide AddExecutions, PendingOccurrences;
  }

  lemma MaterializePreserves(
    store: Store, task: Task, expectedNextRunAt: Time, executions: seq<ScheduledExecution>, now: Time, uuids: nat -> nat)
    requires Inv(store) && AreNewExecutions(task.namespace, executions)
    ensures Preserves(store, MaterializeTask(store, task, expectedNextRunAt, executions, now, uuids).store)
  {
    hide Inv, Evolves;
    EvolvesReflexive(store);
    MaterializeCases(store, task, expectedNextRunAt, executions, now, uuids);
    hide MaterializeTask, AddExecutions;
    var advanced := store.(tasks := store.tasks[task.id := task]);
    var pending := PendingOccurrences(executions, ExistingOccurrences(store, task.namespace));
    LogPreserves(store, advanced);
    PendingAreNew(store, task.namespace, executions);
    AddExecutionsPreserves(advanced, task.namespace, pending, now, uuids);
    EvolvesTransitive(store, advanced, AddExecutions(advanced, pending, now, uuids));
  }
}

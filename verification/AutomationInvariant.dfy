/** The inductive invariant of the store, and its preservation by every atomic operation. */
module AutomationInvariant {
  import opened Outcomes
  import opened AutomationModel
  import opened AutomationRules
  import opened AutomationStore

  // ---------------------------------------------------------------- the records of one execution

  /** Everything the store keeps about one execution, gathered from its maps. */
  datatype Record = Record(execution: Execution, execute: Option<WorkItem>, expire: Option<WorkItem>, admitted: bool)

  function ItemOf(work: map<WorkKey, WorkItem>, id: ExecutionId, kind: WorkKind): Option<WorkItem> {
    if KeyFor(id, kind) in work then Some(work[KeyFor(id, kind)]) else None
  }

  function RecordOf(store: Store, id: ExecutionId): Record
    requires id in store.executions
  {
    Record(store.executions[id], ItemOf(store.work, id, Execute), ItemOf(store.work, id, ExpireInterrupt), id in store.admitted)
  }

  /** An item has an owner, a token and a lease exactly while it is claimed. */
  predicate OwnedWhileClaimed(item: WorkItem) {
    && (item.status.Claimed? <==> item.claimToken.Some?)
    && (item.status.Claimed? <==> item.leaseUntil.Some?)
    && (item.status.Claimed? <==> item.workerId.Some?)
    && (item.status.Claimed? ==> item.fence > 0)
  }

  /** The start was authorized, with everything that is recorded then. */
  predicate IsStarted(execution: Execution) {
    && execution.startAuthorizedAt.Some?
    && execution.startToken.Some?
    && execution.startedAt.Some?
    && execution.deadline.Some?
  }

  predicate IsUnstarted(execution: Execution) {
    && execution.startAuthorizedAt.None?
    && execution.startToken.None?
    && execution.startedAt.None?
    && execution.deadline.None?
  }

  predicate IsCompletedOrAbsent(item: Option<WorkItem>) {
    item.Some? ==> item.value.status.Completed?
  }

  /** The status of an execution fixes its outstanding work and whether it holds capacity. */
  predicate StatusFixesWork(record: Record)
    requires record.execute.Some?
  {
    match record.execution.status
    case Queued =>
      && IsUnstarted(record.execution)
      && !record.execute.value.status.Completed?
      && (record.execute.value.status.Claimed? ==> record.admitted)
      && record.expire.None?
    case Running | CancelRequested =>
      && IsStarted(record.execution)
      && record.execute.value.status.Claimed?
      && record.expire.None?
      && record.admitted
    case Interrupted =>
      && IsStarted(record.execution)
      && record.execute.value.status.Completed?
      && record.expire.Some?
      && !record.expire.value.status.Completed?
      && record.expire.value.availableAt == record.execution.deadline.value
      && record.admitted
    case NeedsAttention =>
      && record.execute.value.status.Completed?
      && IsCompletedOrAbsent(record.expire)
      && record.admitted
    case _ =>
      && record.execute.value.status.Completed?
      && IsCompletedOrAbsent(record.expire)
      && !record.admitted
  }

  predicate Consistent(id: ExecutionId, record: Record) {
    && record.execution.id == id
    && record.execution.namespace == id.namespace
    && (IsStarted(record.execution) || IsUnstarted(record.execution))
    && (record.execution.finishedAt.Some? <==> record.execution.status.IsTerminal())
    && record.execute.Some?
    && OwnedWhileClaimed(record.execute.value)
    && (record.expire.Some? ==> OwnedWhileClaimed(record.expire.value))
    && StatusFixesWork(record)
  }

  // ---------------------------------------------------------------- the invariant

  predicate RecordsConsistent(store: Store) {
    forall id :: id in store.executions ==> Consistent(id, RecordOf(store, id))
  }

  predicate InScope(execution: Execution, scope: Scope) {
    scope == GlobalScope(execution.namespace) || scope == ExecutionScope(execution)
  }

  /** The admitted executions of a scope. */
  function Holders(executions: map<ExecutionId, Execution>, admitted: set<ExecutionId>, scope: Scope): set<ExecutionId> {
    set id | id in admitted && id in executions && InScope(executions[id], scope)
  }

  /** Each counter equals the number of holders; a scope without holders has no counter. */
  ghost predicate CountersCountHolders(
    executions: map<ExecutionId, Execution>, admitted: set<ExecutionId>, allocations: map<Scope, nat>)
  {
    forall scope {:trigger Holders(executions, admitted, scope)} ::
      && Lookup(allocations, scope, 0) == |Holders(executions, admitted, scope)|
      && (scope in allocations ==> allocations[scope] > 0)
  }

  /** Executions and occurrences correspond one to one. */
  predicate OccurrencesInStep(executions: map<ExecutionId, Execution>, occurrences: map<(string, string), ExecutionId>) {
    && (forall id :: id in executions ==> (id.namespace, id.occurrence) in occurrences)
    && (forall o :: o in occurrences ==> occurrences[o] == ExecutionId(o.0, o.1) && occurrences[o] in executions)
  }

  ghost predicate Inv(store: Store) {
    && WellShaped(store)
    && RecordsConsistent(store)
    && store.admitted <= store.executions.Keys
    && CountersCountHolders(store.executions, store.admitted, store.allocations)
    && OccurrencesInStep(store.executions, store.occurrences)
  }

  lemma EmptySatisfiesInv(limits: RecordLimits)
    ensures Inv(Empty(limits))
  {
    var store := Empty(limits);
    forall scope
      ensures Lookup(store.allocations, scope, 0) == |Holders(store.executions, store.admitted, scope)|
    {
      assert Holders(store.executions, store.admitted, scope) == {};
    }
  }

  // ---------------------------------------------------------------- capacity counters

  /** The fields of an execution that no transition changes. */
  predicate SameIdentity(a: Execution, b: Execution) {
    && a.id == b.id
    && a.taskId == b.taskId
    && a.namespace == b.namespace
    && a.ownerId == b.ownerId
    && a.limits == b.limits
    && a.retryOf == b.retryOf
    && a.scheduledFor == b.scheduledFor
    && a.queuedAt == b.queuedAt
    && a.queueDeadline == b.queueDeadline
  }

  predicate KeepsIdentities(before: map<ExecutionId, Execution>, after: map<ExecutionId, Execution>) {
    forall id :: id in before ==> id in after && SameIdentity(before[id], after[id])
  }

  lemma CountersUnchanged(
    before: map<ExecutionId, Execution>, after: map<ExecutionId, Execution>,
    admitted: set<ExecutionId>, allocations: map<Scope, nat>)
    requires CountersCountHolders(before, admitted, allocations) && admitted <= before.Keys
    requires KeepsIdentities(before, after)
    ensures CountersCountHolders(after, admitted, allocations)
  {
    forall scope {:trigger Holders(after, admitted, scope)}
      ensures Holders(after, admitted, scope) == Holders(before, admitted, scope)
    {
    }
  }

  lemma CountersAfterReserve(store: Store, id: ExecutionId)
    requires CountersCountHolders(store.executions, store.admitted, store.allocations) && store.admitted <= store.executions.Keys
    requires id in store.executions && id !in store.admitted && store.executions[id].id == id
    ensures
      var after := ReserveScopes(store, store.executions[id]);
      CountersCountHolders(after.executions, after.admitted, after.allocations)
  {
    var execution := store.executions[id];
    var after := ReserveScopes(store, execution);
    forall scope {:trigger Holders(after.executions, after.admitted, scope)}
      ensures Lookup(after.allocations, scope, 0) == |Holders(after.executions, after.admitted, scope)|
      ensures scope in after.allocations ==> after.allocations[scope] > 0
    {
      var holders := Holders(store.executions, store.admitted, scope);
      assert Lookup(store.allocations, scope, 0) == |holders|;
      assert Holders(after.executions, after.admitted, scope) == if InScope(execution, scope) then holders + {id} else holders;
    }
  }

  lemma CountersAfterRelease(store: Store, id: ExecutionId)
    requires CountersCountHolders(store.executions, store.admitted, store.allocations) && store.admitted <= store.executions.Keys
    requires id in store.executions && id in store.admitted && store.executions[id].id == id
    ensures
      var after := ReleaseScopes(store, store.executions[id]);
      CountersCountHolders(after.executions, after.admitted, after.allocations)
  {
    var execution := store.executions[id];
    var after := ReleaseScopes(store, execution);
    forall scope {:trigger Holders(after.executions, after.admitted, scope)}
      ensures Lookup(after.allocations, scope, 0) == |Holders(after.executions, after.admitted, scope)|
      ensures scope in after.allocations ==> after.allocations[scope] > 0
    {
      var holders := Holders(store.executions, store.admitted, scope);
      assert Lookup(store.allocations, scope, 0) == |holders|;
      assert Holders(after.executions, after.admitted, scope) == if InScope(execution, scope) then holders - {id} else holders;
      if InScope(execution, scope) {
        assert id in holders;
      }
    }
  }

  // ---------------------------------------------------------------- changes to one execution

  predicate SameExecutionsElsewhere(before: map<ExecutionId, Execution>, after: map<ExecutionId, Execution>, id: ExecutionId) {
    && after.Keys == before.Keys + {id}
    && (forall x :: x in before && x != id ==> after[x] == before[x])
  }

  predicate SameWorkElsewhere(before: map<WorkKey, WorkItem>, after: map<WorkKey, WorkItem>, id: ExecutionId) {
    && (forall k :: k in before && k.executionId != id ==> k in after && after[k] == before[k])
    && (forall k :: k in after && k.executionId != id ==> k in before)
  }

  predicate SameAdmittedElsewhere(before: set<ExecutionId>, after: set<ExecutionId>, id: ExecutionId) {
    before - {id} == after - {id}
  }

  /** The two stores differ only in the records of one execution. */
  predicate SameElsewhere(before: Store, after: Store, id: ExecutionId) {
    && SameExecutionsElsewhere(before.executions, after.executions, id)
    && SameWorkElsewhere(before.work, after.work, id)
    && SameAdmittedElsewhere(before.admitted, after.admitted, id)
  }

  /** Other executions keep their records, so only the changed one has to be checked. */
  lemma RecordsStayConsistent(before: Store, after: Store, id: ExecutionId)
    requires RecordsConsistent(before) && SameElsewhere(before, after, id)
    requires Consistent(id, RecordOf(after, id))
    ensures RecordsConsistent(after)
  {
    forall x | x in after.executions
      ensures Consistent(x, RecordOf(after, x))
    {
      if x != id {
        SameRecordElsewhere(before, after, id, x);
      }
    }
  }

  lemma SameRecordElsewhere(before: Store, after: Store, id: ExecutionId, x: ExecutionId)
    requires SameElsewhere(before, after, id) && x in before.executions && x != id
    ensures x in after.executions && RecordOf(after, x) == RecordOf(before, x)
  {
    assert x in after.admitted <==> x in before.admitted by {
      assert x in after.admitted - {id} <==> x in before.admitted - {id};
    }
  }
}

/** Every atomic operation of the store keeps the invariant and moves the store forward. */
module AutomationPreservation {
  import opened Outcomes
  import opened AutomationModel
  import opened AutomationRules
  import opened AutomationStore
  import opened AutomationInvariant
  import opened AutomationProgress

  // ---------------------------------------------------------------- rules on the records of one execution

  function CompletedBy(item: Option<WorkItem>, completeWork: CompleteWork, current: bool): Option<WorkItem> {
    if item.Some? && (completeWork.CompleteAll? || (completeWork.CompleteCurrent? && current))
    then Some(item.value.Unowned(Completed)) else item
  }

  /** A transition, seen from the records of its execution; `kind` is the kind of the item it was decided for. */
  function Transitioned(record: Record, transition: Transition, kind: Option<WorkKind>): Record {
    Record(transition.execution,
           CompletedBy(record.execute, transition.completeWork, kind == Some(Execute)),
           CompletedBy(record.expire, transition.completeWork, kind == Some(ExpireInterrupt)),
           record.admitted && !transition.releaseCapacity)
  }

  function ItemOfKind(record: Record, kind: WorkKind): Option<WorkItem> {
    if kind.Execute? then record.execute else record.expire
  }

  predicate IsClaimed(record: Record, kind: WorkKind) {
    ItemOfKind(record, kind).Some? && ItemOfKind(record, kind).value.status.Claimed?
  }

  /** The records after a step are consistent and have only advanced. */
  predicate Improves(id: ExecutionId, before: Record, after: Record) {
    Consistent(id, after) && Advances(before, after)
  }

  lemma FinishImproves(id: ExecutionId, record: Record, kind: WorkKind, settlement: Settlement, now: Time)
    requires Consistent(id, record) && IsClaimed(record, kind) && IsFinishStatus(settlement.status)
    ensures
      var transition := FinishExecution(record.execution, settlement.status, now,
                                        settlement.result, settlement.failureCode, settlement.failureMessage).value;
      Improves(id, record, Transitioned(record, transition, Some(kind)))
  {
  }

  lemma CancelImproves(id: ExecutionId, record: Record, now: Time)
    requires Consistent(id, record) && CancelExecution(record.execution, now).Ok?
    ensures Improves(id, record, Transitioned(record, CancelExecution(record.execution, now).value, None))
  {
  }

  lemma ResolveImproves(id: ExecutionId, record: Record, resolution: AttentionResolution, reason: string, now: Time)
    requires Consistent(id, record) && ResolveExecution(record.execution, resolution, reason, now).Ok?
    ensures Improves(id, record, Transitioned(record, ResolveExecution(record.execution, resolution, reason, now).value, None))
  {
  }

  /** Only an expired queue deadline ever settles a due item of a consistent record: stale work does not exist. */
  lemma ClaimCandidateIsQueueExpiry(id: ExecutionId, record: Record, kind: WorkKind, now: Time)
    requires Consistent(id, record)
    requires ItemOfKind(record, kind).Some? && ItemOfKind(record, kind).value.status.Pending?
    ensures
      var candidate := ClaimCandidate(record.execution, kind, now);
      candidate.Some? ==> kind.Execute? && candidate == Some(ExpireQueued(record.execution, now))
    ensures
      var candidate := ClaimCandidate(record.execution, kind, now);
      candidate.Some? ==> Improves(id, record, Transitioned(record, candidate.value, Some(kind)))
  {
  }

  // ---------------------------------------------------------------- transitions of the store

  /** The item, if any, is the one of this kind of the transitioned execution. */
  predicate DecidedFor(transition: Transition, item: Option<WorkKey>, kind: Option<WorkKind>) {
    item == if kind.Some? then Some(KeyFor(transition.execution.id, kind.value)) else None
  }

  lemma SettledItem(store: Store, transition: Transition, item: Option<WorkKey>, kind: Option<WorkKind>, k: WorkKind)
    requires DecidedFor(transition, item, kind)
    ensures
      var id := transition.execution.id;
      ItemOf(Settled(store, transition, item).work, id, k) ==
      CompletedBy(ItemOf(store.work, id, k), transition.completeWork, kind == Some(k))
  {
  }

  lemma ReleasedRecord(store: Store, transition: Transition, item: Option<WorkKey>, kind: Option<WorkKind>)
    requires Concerns(store, transition) && DecidedFor(transition, item, kind)
    ensures
      var id := transition.execution.id;
      RecordOf(Released(store, transition, item), id) == Transitioned(RecordOf(store, id), transition, kind)
  {
    SettledItem(store, transition, item, kind, Execute);
    SettledItem(store, transition, item, kind, ExpireInterrupt);
  }

  lemma SettledElsewhere(store: Store, transition: Transition, item: Option<WorkKey>, kind: Option<WorkKind>)
    requires Concerns(store, transition) && DecidedFor(transition, item, kind)
    ensures SameElsewhere(store, Settled(store, transition, item), transition.execution.id)
  {
  }

  lemma ReleasedElsewhere(store: Store, transition: Transition, item: Option<WorkKey>, kind: Option<WorkKind>)
    requires Concerns(store, transition) && DecidedFor(transition, item, kind)
    ensures SameElsewhere(store, Released(store, transition, item), transition.execution.id)
  {
    SettledElsewhere(store, transition, item, kind);
  }

  lemma ReleasedCounters(store: Store, transition: Transition, item: Option<WorkKey>)
    requires Inv(store) && Concerns(store, transition)
    requires SameIdentity(store.executions[transition.execution.id], transition.execution)
    ensures
      var after := Released(store, transition, item);
      CountersCountHolders(after.executions, after.admitted, after.allocations) && after.admitted <= after.executions.Keys
  {
    hide RecordsConsistent, OccurrencesInStep, WorkResolves, OccurrencesResolve, CompleteItems, CountersCountHolders;
    var id := transition.execution.id;
    var settled := Settled(store, transition, item);
    CountersUnchanged(store.executions, settled.executions, store.admitted, store.allocations);
    if id in store.admitted {
      CountersAfterRelease(settled, id);
    }
  }

  lemma OccurrencesStayInStep(
    before: map<ExecutionId, Execution>, after: map<ExecutionId, Execution>, occurrences: map<(string, string), ExecutionId>)
    requires OccurrencesInStep(before, occurrences) && after.Keys == before.Keys
    ensures OccurrencesInStep(after, occurrences)
  {
  }

  /** The invariant holds after a step that only moved the store forward. */
  ghost predicate Preserves(before: Store, after: Store) {
    Inv(after) && Evolves(before, after)
  }

  /** A transition that leaves the records of its execution consistent keeps the invariant. */
  lemma ReleasedKeepsInv(store: Store, transition: Transition, item: Option<WorkKey>, kind: Option<WorkKind>)
    requires Inv(store) && Concerns(store, transition) && DecidedFor(transition, item, kind)
    requires SameIdentity(store.executions[transition.execution.id], transition.execution)
    requires
      var id := transition.execution.id;
      Consistent(id, Transitioned(RecordOf(store, id), transition, kind))
    ensures Inv(Released(store, transition, item))
  {
    var after := Released(store, transition, item);
    ReleasedShape(store, transition, item);
    ReleasedRecord(store, transition, item, kind);
    ReleasedElsewhere(store, transition, item, kind);
    RecordsStayConsistent(store, after, transition.execution.id);
    ReleasedCounters(store, transition, item);
    OccurrencesStayInStep(store.executions, after.executions, store.occurrences);
  }

  lemma ReleasedPreserves(store: Store, transition: Transition, item: Option<WorkKey>, kind: Option<WorkKind>)
    requires Inv(store) && Concerns(store, transition) && DecidedFor(transition, item, kind)
    requires
      var id := transition.execution.id;
      Improves(id, RecordOf(store, id), Transitioned(RecordOf(store, id), transition, kind))
    ensures Preserves(store, Released(store, transition, item))
  {
    ReleasedKeepsInv(store, transition, item, kind);
    ReleasedRecord(store, transition, item, kind);
    ReleasedElsewhere(store, transition, item, kind);
    LocalAdvance(store, Released(store, transition, item), transition.execution.id);
  }

  // ---------------------------------------------------------------- settling a claim

  lemma ValidClaimIsClaimed(store: Store, claim: Claim, now: Time)
    requires WellShaped(store) && RecordsConsistent(store) && ValidClaim(store, claim, now)
    ensures claim.item.executionId in store.executions
    ensures claim.item == KeyFor(claim.item.executionId, claim.item.kind)
    ensures
      var id := claim.item.executionId;
      Consistent(id, RecordOf(store, id)) && IsClaimed(RecordOf(store, id), claim.item.kind)
  {
    var id := claim.item.executionId;
    assert claim.item == KeyFor(id, claim.item.kind);
    assert ItemOfKind(RecordOf(store, id), claim.item.kind) == Some(store.work[claim.item]);
  }

  lemma FinishClaimPreserves(store: Store, claim: Claim, settlement: Settlement, now: Time)
    requires Inv(store)
    ensures Preserves(store, FinishClaim(store, claim, settlement, now).store)
  {
    hide ItemAdvances, OccurrencesResolve, CountersCountHolders, OccurrencesInStep, StatusFixesWork, WorkResolves;
    if IsFinishStatus(settlement.status) && !store.closed && ValidClaim(store, claim, now) {
      ValidClaimIsClaimed(store, claim, now);
      var id := claim.item.executionId;
      var transition := FinishExecution(store.executions[id], settlement.status, now,
                                        settlement.result, settlement.failureCode, settlement.failureMessage).value;
      FinishImproves(id, RecordOf(store, id), claim.item.kind, settlement, now);
      ReleasedPreserves(store, transition, Some(claim.item), Some(claim.item.kind));
    } else {
      EvolvesReflexive(store);
    }
  }

  // ---------------------------------------------------------------- interrupting a claim

  /** An interruption ends the claimed item and leaves one pending deadline item. */
  function InterruptedRecord(record: Record, transition: Transition, kind: WorkKind, created: WorkItem): Record
    requires transition.deadlineWorkAt.Some?
  {
    var settled := Transitioned(record, transition, Some(kind));
    var expire :=
      if settled.expire.Some? then settled.expire.value.Unowned(Pending).(availableAt := transition.deadlineWorkAt.value)
      else created;
    settled.(expire := Some(expire))
  }

  predicate IsNewDeadlineItem(item: WorkItem, id: ExecutionId, at: Time) {
    && item.Key() == KeyFor(id, ExpireInterrupt)
    && item.availableAt == at
    && item.status.Pending?
    && item.workerId.None? && item.claimToken.None? && item.leaseUntil.None?
    && item.fence == 0
  }

  lemma InterruptImproves(
    id: ExecutionId, record: Record, kind: WorkKind, interruptIds: seq<string>, now: Time, created: WorkItem)
    requires Consistent(id, record) && IsClaimed(record, kind)
    requires InterruptExecution(record.execution, interruptIds, now).Ok?
    requires IsNewDeadlineItem(created, id, record.execution.deadline.value)
    ensures
      var transition := InterruptExecution(record.execution, interruptIds, now).value;
      Improves(id, record, InterruptedRecord(record, transition, kind, created))
  {
  }

  /** The item that a new deadline would create. */
  function NewItem(execution: Execution, kind: WorkKind, availableAt: Time, now: Time, uuid: nat): WorkItem {
    WorkItem(uuid, execution.namespace, execution.id, kind, availableAt, now, Pending, None, None, 0, None)
  }

  lemma CreatedRecord(store: Store, execution: Execution, at: Time, now: Time, uuid: nat)
    requires execution.id in store.executions && execution.namespace == execution.id.namespace
    ensures
      var after := CreateWork(store, execution, ExpireInterrupt, at, now, uuid);
      var record := RecordOf(store, execution.id);
      && SameElsewhere(store, after, execution.id)
      && RecordOf(after, execution.id) == record.(expire := Some(
           if record.expire.Some? then record.expire.value.Unowned(Pending).(availableAt := at)
           else NewItem(execution, ExpireInterrupt, at, now, uuid)))
  {
  }

  lemma ElsewhereTransitive(a: Store, b: Store, c: Store, id: ExecutionId)
    requires SameElsewhere(a, b, id) && SameElsewhere(b, c, id)
    ensures SameElsewhere(a, c, id)
  {
  }

  lemma IdentitiesKept(before: Store, after: Store, id: ExecutionId)
    requires SameElsewhere(before, after, id)
    requires id in before.executions ==> SameIdentity(before.executions[id], after.executions[id])
    ensures KeepsIdentities(before.executions, after.executions)
  {
  }

  /** A change to the records of one stored execution that touches no counter. */
  lemma LocalChangePreserves(before: Store, after: Store, id: ExecutionId)
    requires Inv(before) && id in before.executions && WellShaped(after)
    requires SameElsewhere(before, after, id)
    requires Improves(id, RecordOf(before, id), RecordOf(after, id))
    requires after.admitted == before.admitted && after.allocations == before.allocations
    requires after.occurrences == before.occurrences && after.operations == before.operations
    requires after.limits == before.limits && after.closed == before.closed
    ensures Preserves(before, after)
  {
    hide Consistent, ItemAdvances, WorkResolves, ExecutionsNamed, OccurrencesResolve, CountersCountHolders, OccurrencesInStep;
    assert after.executions.Keys == before.executions.Keys;
    assert RecordsConsistent(after) by {
      RecordsStayConsistent(before, after, id);
    }
    assert CountersCountHolders(after.executions, after.admitted, after.allocations) by {
      IdentitiesKept(before, after, id);
      CountersUnchanged(before.executions, after.executions, before.admitted, before.allocations);
    }
    assert OccurrencesInStep(after.executions, after.occurrences) by {
      OccurrencesStayInStep(before.executions, after.executions, before.occurrences);
    }
    LocalAdvance(before, after, id);
  }

  lemma InterruptedStorePreserves(store: Store, transition: Transition, kind: WorkKind, now: Time, uuid: nat)
    requires Inv(store) && Concerns(store, transition)
    requires transition.deadlineWorkAt.Some? && !transition.releaseCapacity
    requires
      var id := transition.execution.id;
      var created := NewItem(transition.execution, ExpireInterrupt, transition.deadlineWorkAt.value, now, uuid);
      Improves(id, RecordOf(store, id), InterruptedRecord(RecordOf(store, id), transition, kind, created))
    ensures
      Preserves(store, CreateWork(Released(store, transition, Some(KeyFor(transition.execution.id, kind))),
                                  transition.execution, ExpireInterrupt, transition.deadlineWorkAt.value, now, uuid))
  {
    hide Consistent, Advances, CountersCountHolders, OccurrencesInStep, WorkResolves, ExecutionsNamed, OccurrencesResolve;
    var id := transition.execution.id;
    var item := Some(KeyFor(id, kind));
    var at := transition.deadlineWorkAt.value;
    var released := Released(store, transition, item);
    ReleasedShape(store, transition, item);
    ReleasedRecord(store, transition, item, Some(kind));
    ReleasedElsewhere(store, transition, item, Some(kind));
    CreateWorkShape(released, transition.execution, ExpireInterrupt, at, now, uuid);
    CreatedRecord(released, transition.execution, at, now, uuid);
    var after := CreateWork(released, transition.execution, ExpireInterrupt, at, now, uuid);
    ElsewhereTransitive(store, released, after, id);
    LocalChangePreserves(store, after, id);
  }

  lemma InterruptClaimPreserves(store: Store, claim: Claim, interruptIds: seq<string>, now: Time, uuid: nat)
    requires Inv(store)
    requires claim.item.executionId in store.executions && claim.item == KeyFor(claim.item.executionId, claim.item.kind)
    requires IsClaimed(RecordOf(store, claim.item.executionId), claim.item.kind)
    ensures
      match InterruptExecution(store.executions[claim.item.executionId], interruptIds, now)
      case Err(_) => Preserves(store, store)
      case Ok(transition) => Preserves(store, ApplyTransition(store, transition, Some(claim.item), now, uuid).store)
  {
    hide CountersCountHolders, OccurrencesInStep, WorkResolves, ExecutionsNamed, OccurrencesResolve, ItemAdvances;
    var id := claim.item.executionId;
    EvolvesReflexive(store);
    var interrupted := InterruptExecution(store.executions[id], interruptIds, now);
    if interrupted.Ok? {
      var at := store.executions[id].deadline.value;
      InterruptImproves(id, RecordOf(store, id), claim.item.kind, interruptIds, now,
                        NewItem(interrupted.value.execution, ExpireInterrupt, at, now, uuid));
      InterruptedStorePreserves(store, interrupted.value, claim.item.kind, now, uuid);
    }
  }

  lemma MarkInterruptedPreserves(store: Store, claim: Claim, interruptIds: seq<string>, now: Time, uuid: nat)
    requires Inv(store)
    ensures Preserves(store, MarkInterrupted(store, claim, interruptIds, now, uuid).store)
  {
    if interruptIds != [] && !store.closed && ValidClaim(store, claim, now) {
      ValidClaimIsClaimed(store, claim, now);
      InterruptClaimPreserves(store, claim, interruptIds, now, uuid);
    } else {
      EvolvesReflexive(store);
    }
  }

  // ---------------------------------------------------------------- authorizing and renewing a claim

  lemma AuthorizeImproves(id: ExecutionId, record: Record, kind: WorkKind, now: Time, timeout: Time, token: Token)
    requires Consistent(id, record) && IsClaimed(record, kind)
    requires AuthorizeStart(record.execution, kind, record.admitted, now, timeout, token).Ok?
    ensures
      var started := AuthorizeStart(record.execution, kind, record.admitted, now, timeout, token).value;
      Improves(id, record, record.(execution := started))
  {
  }

  lemma ExecutionReplaced(store: Store, id: ExecutionId, execution: Execution)
    requires WellShaped(store) && id in store.executions && SameIdentity(store.executions[id], execution)
    ensures
      var after := store.(executions := store.executions[id := execution]);
      && WellShaped(after)
      && SameElsewhere(store, after, id)
      && RecordOf(after, id) == RecordOf(store, id).(execution := execution)
  {
  }

  lemma AuthorizeClaimPreserves(store: Store, claim: Claim, timeout: Time, now: Time, token: Token)
    requires Inv(store)
    ensures Preserves(store, AuthorizeClaim(store, claim, timeout, now, token).store)
  {
    hide Consistent, ItemAdvances, OccurrencesResolve, CountersCountHolders, OccurrencesInStep, StatusFixesWork;
    var after := AuthorizeClaim(store, claim, timeout, now, token);
    if after.outcome.Ok? {
      ValidClaimIsClaimed(store, claim, now);
      var id := claim.item.executionId;
      AuthorizeImproves(id, RecordOf(store, id), claim.item.kind, now, timeout, token);
      ExecutionReplaced(store, id, after.outcome.value);
      LocalChangePreserves(store, after.store, id);
    } else {
      EvolvesReflexive(store);
    }
  }

  function WithItem(record: Record, kind: WorkKind, item: WorkItem): Record {
    if kind.Execute? then record.(execute := Some(item)) else record.(expire := Some(item))
  }

  lemma RenewImproves(id: ExecutionId, record: Record, kind: WorkKind, lease: Time)
    requires Consistent(id, record) && IsClaimed(record, kind)
    ensures Improves(id, record, WithItem(record, kind, ItemOfKind(record, kind).value.(leaseUntil := Some(lease))))
  {
  }

  lemma ItemReplaced(store: Store, id: ExecutionId, kind: WorkKind, item: WorkItem)
    requires id in store.executions
    ensures
      var after := store.(work := store.work[KeyFor(id, kind) := item]);
      && SameElsewhere(store, after, id)
      && RecordOf(after, id) == WithItem(RecordOf(store, id), kind, item)
  {
  }

  lemma ReplacementKeepsShape(store: Store, key: WorkKey, item: WorkItem)
    requires WellShaped(store) && key in store.work && item.Key() == store.work[key].Key()
    ensures WellShaped(store.(work := store.work[key := item]))
  {
  }

  lemma RenewClaimPreserves(store: Store, claim: Claim, leaseDuration: Time, now: Time)
    requires Inv(store)
    ensures Preserves(store, RenewClaim(store, claim, leaseDuration, now).store)
  {
    hide Consistent, Advances, WorkResolves, ExecutionsNamed, OccurrencesResolve, CountersCountHolders, OccurrencesInStep;
    var after := RenewClaim(store, claim, leaseDuration, now);
    if after.outcome.Ok? {
      ValidClaimIsClaimed(store, claim, now);
      var id := claim.item.executionId;
      RenewImproves(id, RecordOf(store, id), claim.item.kind, now + leaseDuration);
      var item := store.work[claim.item].(leaseUntil := Some(now + leaseDuration));
      ItemReplaced(store, id, claim.item.kind, item);
      ReplacementKeepsShape(store, claim.item, item);
      LocalChangePreserves(store, after.store, id);
    } else {
      EvolvesReflexive(store);
    }
  }

  /** A change to the records of any stored executions that touches no counter. */
  lemma EverywherePreserves(before: Store, after: Store)
    requires Inv(before) && WellShaped(after)
    requires after.executions.Keys == before.executions.Keys
    requires forall id :: id in before.executions ==> Improves(id, RecordOf(before, id), RecordOf(after, id))
    requires after.admitted == before.admitted && after.allocations == before.allocations
    requires after.occurrences == before.occurrences && after.operations == before.operations
    requires after.limits == before.limits && after.closed == before.closed
    ensures Preserves(before, after)
  {
    hide Consistent, ItemAdvances, WorkResolves, ExecutionsNamed, OccurrencesResolve, CountersCountHolders, OccurrencesInStep;
    CountersUnchanged(before.executions, after.executions, before.admitted, before.allocations);
    OccurrencesStayInStep(before.executions, after.executions, before.occurrences);
  }

  // ---------------------------------------------------------------- recovering expired claims

  function RecoveredOptional(item: Option<WorkItem>, execution: Execution, namespace: string, now: Time): Option<WorkItem> {
    if item.Some? && IsExpired(item.value, namespace, now) then Some(RecoveredItem(item.value, execution, now)) else item
  }

  /** Recovery, seen from the records of one execution. */
  function RecoveredRecord(record: Record, namespace: string, now: Time): Record {
    Record(
      if record.execute.Some? && IsExpired(record.execute.value, namespace, now)
      then RecoverExpiredClaim(record.execution, Execute, now).execution
      else record.execution,
      RecoveredOptional(record.execute, record.execution, namespace, now),
      RecoveredOptional(record.expire, record.execution, namespace, now),
      record.admitted)
  }

  lemma RecoveryImproves(id: ExecutionId, record: Record, namespace: string, now: Time)
    requires Consistent(id, record)
    requires record.execute.Some? ==> record.execute.value.kind.Execute?
    requires record.expire.Some? ==> record.expire.value.kind.ExpireInterrupt?
    ensures Improves(id, record, RecoveredRecord(record, namespace, now))
  {
  }

  lemma RecordAfterRecovery(store: Store, namespace: string, now: Time, id: ExecutionId)
    requires WellShaped(store) && id in store.executions
    ensures id in RecoverClaims(store, namespace, now).executions
    ensures RecordOf(RecoverClaims(store, namespace, now), id) == RecoveredRecord(RecordOf(store, id), namespace, now)
  {
  }

  lemma RecordAfterRecoveryImproves(store: Store, namespace: string, now: Time, id: ExecutionId)
    requires WellShaped(store) && RecordsConsistent(store) && id in store.executions
    ensures id in RecoverClaims(store, namespace, now).executions
    ensures Improves(id, RecordOf(store, id), RecordOf(RecoverClaims(store, namespace, now), id))
  {
    RecordAfterRecovery(store, namespace, now, id);
    RecoveryImproves(id, RecordOf(store, id), namespace, now);
  }

  lemma RecoverClaimsPreserves(store: Store, namespace: string, now: Time)
    requires Inv(store)
    ensures Preserves(store, RecoverClaims(store, namespace, now))
  {
    var after := RecoverClaims(store, namespace, now);
    RecoveryKeepsShape(store, namespace, now);
    RecoveredExecutionsNamed(store, namespace, now);
    assert forall id :: id in store.executions ==> Improves(id, RecordOf(store, id), RecordOf(after, id)) by {
      forall id | id in store.executions
        ensures Improves(id, RecordOf(store, id), RecordOf(after, id))
      {
        RecordAfterRecoveryImproves(store, namespace, now, id);
      }
    }
    EverywherePreserves(store, after);
  }
}

/** What every step of the store keeps about the past: the store only moves forward. */
module AutomationProgress {
  import opened Outcomes
  import opened AutomationModel
  import opened AutomationRules
  import opened AutomationStore
  import opened AutomationInvariant

  /** Statuses are only left for later ones. */
  function Rank(status: ExecutionStatus): nat {
    match status
    case Queued => 0
    case Running => 1
    case CancelRequested => 2
    case Interrupted => 3
    case NeedsAttention => 4
    case _ => 5
  }

  /** A start authorization, once recorded, never changes; nor does the deadline it fixed. */
  predicate SameStart(a: Execution, b: Execution) {
    && a.startAuthorizedAt == b.startAuthorizedAt
    && a.startToken == b.startToken
    && a.startedAt == b.startedAt
    && a.deadline == b.deadline
  }

  predicate ExecutionAdvances(a: Execution, b: Execution) {
    && SameIdentity(a, b)
    && (IsStarted(a) ==> SameStart(a, b))
    && Rank(a.status) <= Rank(b.status)
    && (a.status.IsTerminal() ==> a == b)
  }

  /** Fences never decrease, and an item is owned under a fence only by the token it was claimed with. */
  predicate ItemAdvances(a: WorkItem, b: WorkItem) {
    && a.Key() == b.Key()
    && a.fence <= b.fence
    && (a.fence == b.fence && b.status.Claimed? ==> a.status.Claimed? && a.claimToken == b.claimToken)
  }

  predicate OptionalItemAdvances(a: Option<WorkItem>, b: Option<WorkItem>) {
    a.Some? ==> b.Some? && ItemAdvances(a.value, b.value)
  }

  predicate Advances(a: Record, b: Record) {
    && ExecutionAdvances(a.execution, b.execution)
    && OptionalItemAdvances(a.execute, b.execute)
    && OptionalItemAdvances(a.expire, b.expire)
  }

  predicate IsSubmap<K, V(==)>(a: map<K, V>, b: map<K, V>) {
    forall k :: k in a ==> k in b && b[k] == a[k]
  }

  /** Executions only advance, and the logs of occurrences and commands only grow. */
  predicate Evolves(before: Store, after: Store) {
    && after.limits == before.limits
    && (before.closed ==> after.closed)
    && before.executions.Keys <= after.executions.Keys
    && (forall id :: id in before.executions ==> Advances(RecordOf(before, id), RecordOf(after, id)))
    && IsSubmap(before.occurrences, after.occurrences)
    && IsSubmap(before.operations, after.operations)
  }

  lemma EvolvesReflexive(store: Store)
    ensures Evolves(store, store)
  {
  }

  lemma AdvancesTransitive(a: Record, b: Record, c: Record)
    requires Advances(a, b) && Advances(b, c)
    ensures Advances(a, c)
  {
  }

  lemma EvolvesTransitive(a: Store, b: Store, c: Store)
    requires Evolves(a, b) && Evolves(b, c)
    ensures Evolves(a, c)
  {
    forall id | id in a.executions
      ensures id in c.executions && Advances(RecordOf(a, id), RecordOf(c, id))
    {
      AdvancesTransitive(RecordOf(a, id), RecordOf(b, id), RecordOf(c, id));
    }
  }

  /** A change to the records of one execution, logs aside. */
  lemma LocalAdvance(before: Store, after: Store, id: ExecutionId)
    requires SameElsewhere(before, after, id)
    requires id in before.executions ==> Advances(RecordOf(before, id), RecordOf(after, id))
    requires after.limits == before.limits && after.closed == before.closed
    requires IsSubmap(before.occurrences, after.occurrences) && IsSubmap(before.operations, after.operations)
    ensures Evolves(before, after)
  {
    forall x | x in before.executions
      ensures Advances(RecordOf(before, x), RecordOf(after, x))
    {
      if x != id {
        SameRecordElsewhere(before, after, id, x);
      }
    }
  }
}

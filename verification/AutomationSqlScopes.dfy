/**
  Admission in the SQL store: one counter row per scope, reserved global first and compensated when
  the second scope is full. It gives the same verdicts and the same counts as the store that checks
  both limits before incrementing either.
 */
module AutomationSqlScopes {
  import opened Outcomes
  import opened AutomationModel
  import opened AutomationRules
  import opened AutomationStore
  import opened AutomationInvariant

  datatype ScopeRow = ScopeRow(holders: int, capacity: int)

  type ScopeRows = map<Scope, ScopeRow>

  /** The check constraint of the scopes table. */
  predicate SatisfiesCheck(rows: ScopeRows) {
    forall scope :: scope in rows ==> rows[scope].capacity >= 1 && 0 <= rows[scope].holders <= rows[scope].capacity
  }

  function AllocatedIn(rows: ScopeRows, scope: Scope): int {
    Lookup(rows, scope, ScopeRow(0, 0)).holders
  }

  /** The counts after adding `amount` to one scope. */
  ghost predicate CountsChangeBy(before: ScopeRows, after: ScopeRows, scope: Scope, amount: int) {
    forall s :: AllocatedIn(after, s) == AllocatedIn(before, s) + if s == scope then amount else 0
  }

  /** Every count is the one the in-memory store keeps. */
  ghost predicate Matches(rows: ScopeRows, allocations: map<Scope, nat>) {
    forall scope :: AllocatedIn(rows, scope) == Lookup(allocations, scope, 0)
  }

  class SqlScopes {
    var rows: ScopeRows
    var admitted: set<ExecutionId>

    constructor ()
      ensures rows == map[] && admitted == {}
    {
      rows, admitted := map[], {};
    }

    method EnsureScope(scope: Scope, capacity: int)
      requires SatisfiesCheck(rows) && capacity >= 1
      modifies this`rows
      ensures SatisfiesCheck(rows) && CountsChangeBy(old(rows), rows, scope, 0)
      ensures rows == if scope in old(rows) then old(rows) else old(rows)[scope := ScopeRow(0, capacity)]
    {
      if scope !in rows {
        rows := rows[scope := ScopeRow(0, capacity)];
      }
    }

    /** The guarded update that counts one more holder. */
    method AllocateScope(scope: Scope, capacity: int) returns (reserved: bool)
      requires SatisfiesCheck(rows) && capacity >= 1
      modifies this`rows
      ensures SatisfiesCheck(rows)
      ensures reserved <==> AllocatedIn(old(rows), scope) < capacity
      ensures CountsChangeBy(old(rows), rows, scope, if reserved then 1 else 0)
    {
      EnsureScope(scope, capacity);
      var row := rows[scope];
      if row.holders < capacity {
        rows := rows[scope := ScopeRow(row.holders + 1, if row.capacity < capacity then capacity else row.capacity)];
        return true;
      }
      return false;
    }

    /** The guarded update that counts one holder fewer; false is the protocol error. */
    method DecrementScope(scope: Scope) returns (released: bool)
      requires SatisfiesCheck(rows)
      modifies this`rows
      ensures SatisfiesCheck(rows)
      ensures released <==> AllocatedIn(old(rows), scope) > 0
      ensures CountsChangeBy(old(rows), rows, scope, if released then -1 else 0)
    {
      if scope in rows && rows[scope].holders > 0 {
        rows := rows[scope := rows[scope].(holders := rows[scope].holders - 1)];
        return true;
      }
      return false;
    }

    /** A task's new limit reaches its row only when the row's holders fit under it. */
    method ChangeCapacity(scope: Scope, capacity: int)
      requires SatisfiesCheck(rows) && capacity >= 1
      modifies this`rows
      ensures SatisfiesCheck(rows) && CountsChangeBy(old(rows), rows, scope, 0)
      ensures rows == if scope in old(rows) && old(rows)[scope].holders <= capacity
                      then old(rows)[scope := old(rows)[scope].(capacity := capacity)]
                      else old(rows)
    {
      if scope in rows && rows[scope].holders <= capacity {
        rows := rows[scope := rows[scope].(capacity := capacity)];
      }
    }

    /**
      Reserve the global scope, then the execution's own, and give the global one back if that fails.
      `store` is the in-memory store in the same situation.
     */
    method ReserveScopes(execution: Execution, globalConcurrency: int, ghost store: Store)
      returns (reserved: bool, ghost after: Store, ghost compensated: bool)
      requires SatisfiesCheck(rows) && Matches(rows, store.allocations) && admitted == store.admitted
      requires globalConcurrency >= 1 && execution.limits.maxConcurrentRuns >= 1
      modifies this
      ensures SatisfiesCheck(rows) && compensated
      ensures reserved == (execution.id in store.admitted || HasCapacity(store, execution, globalConcurrency))
      ensures after == Admission(store, execution, globalConcurrency)
      ensures Matches(rows, after.allocations) && admitted == after.admitted
    {
      compensated, after := true, Admission(store, execution, globalConcurrency);
      if execution.id in admitted {
        return true, after, compensated;
      }
      ReservedCounts(store, execution);
      ScopesDiffer(execution);
      var global := AllocateScope(GlobalScope(execution.namespace), globalConcurrency);
      if !global {
        return false, after, compensated;
      }
      var own := AllocateScope(ExecutionScope(execution), execution.limits.maxConcurrentRuns);
      if !own {
        var released := DecrementScope(GlobalScope(execution.namespace));
        return false, after, released;
      }
      admitted := admitted + {execution.id};
      return true, after, compensated;
    }

    /** Both decrements succeed, because each counter counts this execution among its holders. */
    method ReleaseScopes(execution: Execution, ghost store: Store) returns (released: bool)
      requires SatisfiesCheck(rows) && Matches(rows, store.allocations) && admitted == store.admitted
      requires execution.id in store.executions && SameIdentity(store.executions[execution.id], execution)
      requires CountersCountHolders(store.executions, store.admitted, store.allocations)
      modifies this
      ensures released && SatisfiesCheck(rows)
      ensures
        var after := AutomationStore.ReleaseScopes(store, execution);
        Matches(rows, after.allocations) && admitted == after.admitted
    {
      if execution.id !in admitted {
        return true;
      }
      HolderIsCounted(store, execution, GlobalScope(execution.namespace));
      HolderIsCounted(store, execution, ExecutionScope(execution));
      ReleasedCounts(store, execution);
      ScopesDiffer(execution);
      var global := DecrementScope(GlobalScope(execution.namespace));
      var own := DecrementScope(ExecutionScope(execution));
      admitted := admitted - {execution.id};
      return global && own;
    }
  }

  /** Check both limits, then increment both counters. */
  ghost function Admission(store: Store, execution: Execution, globalConcurrency: int): Store {
    if execution.id !in store.admitted && HasCapacity(store, execution, globalConcurrency)
    then AutomationStore.ReserveScopes(store, execution)
    else store
  }

  lemma ScopesDiffer(execution: Execution)
    ensures ExecutionScope(execution) != GlobalScope(execution.namespace)
  {
  }

  lemma ReservedCounts(store: Store, execution: Execution)
    ensures forall s :: Lookup(AutomationStore.ReserveScopes(store, execution).allocations, s, 0) ==
                        Lookup(store.allocations, s, 0) + if InScope(execution, s) then 1 else 0
  {
  }

  lemma ReleasedCounts(store: Store, execution: Execution)
    requires execution.id in store.admitted
    requires forall s :: InScope(execution, s) ==> Lookup(store.allocations, s, 0) > 0
    ensures forall s :: Lookup(AutomationStore.ReleaseScopes(store, execution).allocations, s, 0) ==
                        Lookup(store.allocations, s, 0) - if InScope(execution, s) then 1 else 0
  {
  }

  /** An admitted execution is counted by both of its scopes. */
  lemma HolderIsCounted(store: Store, execution: Execution, scope: Scope)
    requires CountersCountHolders(store.executions, store.admitted, store.allocations)
    requires execution.id in store.admitted && execution.id in store.executions
    requires SameIdentity(store.executions[execution.id], execution) && InScope(execution, scope)
    ensures Lookup(store.allocations, scope, 0) > 0
  {
    assert execution.id in Holders(store.executions, store.admitted, scope);
  }

  // ---------------------------------------------------------------- whole histories of admission

  /** What happens to the counters; executions and limits come from the store's records. */
  datatype ScopeEvent =
    | Ensured(scope: Scope, capacity: int)
    | CapacityChanged(scope: Scope, capacity: int)
    | Reserving(id: ExecutionId, globalConcurrency: int)
    | Releasing(id: ExecutionId)

  predicate IsEventOf(executions: map<ExecutionId, Execution>, event: ScopeEvent) {
    match event
    case Ensured(_, capacity) => capacity >= 1
    case CapacityChanged(_, capacity) => capacity >= 1
    case Reserving(id, globalConcurrency) =>
      id in executions && executions[id].limits.maxConcurrentRuns >= 1 && globalConcurrency >= 1
    case Releasing(id) => id in executions
  }

  /** The in-memory counters after one event, and the verdict of a reservation. */
  ghost function AfterEvent(store: Store, event: ScopeEvent): Store
    requires IsEventOf(store.executions, event)
  {
    match event
    case Ensured(_, _) => store
    case CapacityChanged(_, _) => store
    case Reserving(id, globalConcurrency) => Admission(store, store.executions[id], globalConcurrency)
    case Releasing(id) => AutomationStore.ReleaseScopes(store, store.executions[id])
  }

  ghost function Verdict(store: Store, event: ScopeEvent): bool
    requires IsEventOf(store.executions, event)
  {
    match event
    case Reserving(id, globalConcurrency) =>
      store.executions[id].id in store.admitted || HasCapacity(store, store.executions[id], globalConcurrency)
    case _ => true
  }

  lemma AfterEventKeepsCounters(store: Store, event: ScopeEvent)
    requires IsEventOf(store.executions, event) && ExecutionsNamed(store.executions)
    requires CountersCountHolders(store.executions, store.admitted, store.allocations) && store.admitted <= store.executions.Keys
    ensures
      var after := AfterEvent(store, event);
      && after.executions == store.executions
      && after.admitted <= after.executions.Keys
      && CountersCountHolders(after.executions, after.admitted, after.allocations)
  {
    hide CountersCountHolders;
    match event
    case Ensured(_, _) =>
    case CapacityChanged(_, _) =>
    case Reserving(id, globalConcurrency) =>
      if id !in store.admitted {
        CountersAfterReserve(store, id);
      }
    case Releasing(id) =>
      if id in store.admitted {
        CountersAfterRelease(store, id);
      }
  }

  /**
    Any history of admissions and releases, played against the rows and against the in-memory store:
    every verdict agrees, every count agrees at the end, and no decrement ever fails.
   */
  method PlayHistory(scopes: SqlScopes, events: seq<ScopeEvent>, ghost store: Store, executions: map<ExecutionId, Execution>)
    returns (verdicts: seq<bool>, ghost stores: seq<Store>)
    requires scopes.rows == map[] && scopes.admitted == {}
    requires store.allocations == map[] && store.admitted == {} && store.executions == executions && ExecutionsNamed(executions)
    requires forall i :: 0 <= i < |events| ==> IsEventOf(executions, events[i])
    modifies scopes
    ensures SatisfiesCheck(scopes.rows)
    ensures |verdicts| == |events| && |stores| == |events| + 1 && stores[0] == store
    ensures forall i :: 0 <= i < |events| ==>
              && stores[i].executions == executions
              && stores[i + 1] == AfterEvent(stores[i], events[i])
              && verdicts[i] == Verdict(stores[i], events[i])
    ensures Matches(scopes.rows, stores[|events|].allocations) && scopes.admitted == stores[|events|].admitted
  {
    ghost var now := store;
    NoHolders(store);
    verdicts, stores := [], [store];
    var i := 0;
    while i < |events|
      invariant 0 <= i <= |events| && |verdicts| == i && |stores| == i + 1 && stores[i] == now && stores[0] == store
      invariant SatisfiesCheck(scopes.rows) && Matches(scopes.rows, now.allocations) && scopes.admitted == now.admitted
      invariant now.executions == executions && now.admitted <= executions.Keys
      invariant CountersCountHolders(executions, now.admitted, now.allocations)
      invariant forall j :: 0 <= j < i ==>
                  && stores[j].executions == executions
                  && stores[j + 1] == AfterEvent(stores[j], events[j])
                  && verdicts[j] == Verdict(stores[j], events[j])
    {
      var verdict := PlayEvent(scopes, events[i], now, executions);
      AfterEventKeepsCounters(now, events[i]);
      now := AfterEvent(now, events[i]);
      verdicts, stores := verdicts + [verdict], stores + [now];
      i := i + 1;
    }
  }

  lemma NoHolders(store: Store)
    requires store.admitted == {} && store.allocations == map[]
    ensures CountersCountHolders(store.executions, store.admitted, store.allocations)
  {
    forall scope ensures Holders(store.executions, store.admitted, scope) == {} {
    }
  }

  method PlayEvent(scopes: SqlScopes, event: ScopeEvent, ghost store: Store, executions: map<ExecutionId, Execution>)
    returns (verdict: bool)
    requires SatisfiesCheck(scopes.rows) && Matches(scopes.rows, store.allocations) && scopes.admitted == store.admitted
    requires store.executions == executions && ExecutionsNamed(executions) && IsEventOf(executions, event)
    requires CountersCountHolders(store.executions, store.admitted, store.allocations)
    modifies scopes
    ensures SatisfiesCheck(scopes.rows) && verdict == Verdict(store, event)
    ensures Matches(scopes.rows, AfterEvent(store, event).allocations) && scopes.admitted == AfterEvent(store, event).admitted
  {
    hide CountersCountHolders, SatisfiesCheck;
    match event
    case Ensured(scope, capacity) => scopes.EnsureScope(scope, capacity); verdict := true;
    case CapacityChanged(scope, capacity) => scopes.ChangeCapacity(scope, capacity); verdict := true;
    case Reserving(id, globalConcurrency) =>
      ghost var after, compensated;
      verdict, after, compensated := scopes.ReserveScopes(executions[id], globalConcurrency, store);
    case Releasing(id) => verdict := scopes.ReleaseScopes(executions[id], store);
  }
}

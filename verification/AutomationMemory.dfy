/**
  The in-memory store as an object: separate collections that its methods update in place. Every
  method is proved to have exactly the effect of the corresponding operation on the store value.
 */
module AutomationMemory {
  import opened Outcomes
  import opened AutomationModel
  import opened AutomationRules
  import opened AutomationStore
  import Spec = AutomationStore
  import Commands = AutomationCommands
  import opened AutomationAdmission

  // ---------------------------------------------------------------- work items and their index

  /** `keys` is the index of `work`: every item is found under its key, and nothing else is. */
  predicate Indexes(work: seq<WorkItem>, keys: map<WorkKey, nat>) {
    && (forall w :: 0 <= w < |work| ==> work[w].Key() in keys && keys[work[w].Key()] == w)
    && (forall k :: k in keys ==> keys[k] < |work| && work[keys[k]].Key() == k)
  }

  /** The items by key. */
  function ByKey(work: seq<WorkItem>, keys: map<WorkKey, nat>): map<WorkKey, WorkItem>
    requires Indexes(work, keys)
  {
    map k | k in keys :: work[keys[k]]
  }

  lemma ReplacedItem(work: seq<WorkItem>, keys: map<WorkKey, nat>, w: nat, item: WorkItem)
    requires Indexes(work, keys) && w < |work| && item.Key() == work[w].Key()
    ensures Indexes(work[w := item], keys)
    ensures ByKey(work[w := item], keys) == ByKey(work, keys)[item.Key() := item]
  {
  }

  lemma AppendedItem(work: seq<WorkItem>, keys: map<WorkKey, nat>, item: WorkItem)
    requires Indexes(work, keys) && item.Key() !in keys
    ensures Indexes(work + [item], keys[item.Key() := |work|])
    ensures ByKey(work + [item], keys[item.Key() := |work|]) == ByKey(work, keys)[item.Key() := item]
  {
  }

  /** Replacing every item by one with the same key keeps the index. */
  lemma ReplacedItems(work: seq<WorkItem>, changed: seq<WorkItem>, keys: map<WorkKey, nat>)
    requires Indexes(work, keys) && |changed| == |work|
    requires forall w :: 0 <= w < |work| ==> changed[w].Key() == work[w].Key()
    ensures Indexes(changed, keys)
  {
  }

  /** The index is as large as what it indexes. */
  lemma {:induction false} IndexSize(work: seq<WorkItem>, keys: map<WorkKey, nat>)
    requires Indexes(work, keys)
    ensures |keys| == |work| == |ByKey(work, keys)|
    decreases |work|
  {
    assert ByKey(work, keys).Keys == keys.Keys;
    if work == [] {
      assert keys == map[];
    } else {
      var last := |work| - 1;
      var rest := keys - {work[last].Key()};
      IndexSize(work[..last], rest);
      assert rest.Keys == keys.Keys - {work[last].Key()};
    }
  }

  lemma IndexKeys(work: seq<WorkItem>, keys: map<WorkKey, nat>)
    requires Indexes(work, keys)
    ensures ByKey(work, keys).Keys == keys.Keys
  {
  }

  /** Completing all items does not look at the current one, and completing none changes nothing. */
  lemma CompletedSame(work: map<WorkKey, WorkItem>, completeWork: CompleteWork, id: ExecutionId, item: Option<WorkKey>)
    ensures completeWork.CompleteAll? ==> CompleteItems(work, completeWork, id, item) == CompleteItems(work, CompleteAll, id, None)
    ensures completeWork.CompleteNone? ==> CompleteItems(work, completeWork, id, item) == work
  {
  }

  // ---------------------------------------------------------------- recovery, item by item

  lemma ItemAt(work: seq<WorkItem>, keys: map<WorkKey, nat>, w: nat)
    requires Indexes(work, keys) && w < |work|
    ensures IsPosition(keys, w, work[w].Key())
    ensures work[w].Key() in ByKey(work, keys) && ByKey(work, keys)[work[w].Key()] == work[w]
  {
  }

  lemma EverythingIsBelow(work: seq<WorkItem>, keys: map<WorkKey, nat>)
    requires Indexes(work, keys)
    ensures forall k :: k in ByKey(work, keys) ==> IsBelow(keys, |work|, k)
  {
  }

  predicate IsBelow(keys: map<WorkKey, nat>, w: nat, key: WorkKey) {
    key in keys && keys[key] < w
  }

  ghost function ExecutionsBelow(store: Store, keys: map<WorkKey, nat>, w: nat, namespace: string, now: Time):
    map<ExecutionId, Execution>
  {
    map id | id in store.executions :: ExecutionBelow(store, keys, w, namespace, now, id)
  }

  ghost function WorkBelow(store: Store, keys: map<WorkKey, nat>, w: nat, namespace: string, now: Time): map<WorkKey, WorkItem>
    requires WorkResolves(store.executions, store.work)
  {
    map k | k in store.work ::
      if IsBelow(keys, w, k) && IsExpired(store.work[k], namespace, now)
      then RecoveredItem(store.work[k], store.executions[k.executionId], now)
      else store.work[k]
  }

  /** The expired claims on the items stored before position `w` are recovered. */
  ghost function RecoveredBelow(store: Store, keys: map<WorkKey, nat>, w: nat, namespace: string, now: Time): Store
    requires WellShaped(store)
  {
    store.(executions := ExecutionsBelow(store, keys, w, namespace, now), work := WorkBelow(store, keys, w, namespace, now))
  }

  lemma NothingRecovered(store: Store, keys: map<WorkKey, nat>, namespace: string, now: Time)
    requires WellShaped(store)
    ensures RecoveredBelow(store, keys, 0, namespace, now) == store
  {
    hide RecoverExpiredClaim, RecoveredItem, LostClaim, IsExpired, WorkResolves, ExecutionsNamed, OccurrencesResolve;
    assert ExecutionsBelow(store, keys, 0, namespace, now) == store.executions;
    assert WorkBelow(store, keys, 0, namespace, now) == store.work;
  }

  lemma AllRecovered(store: Store, keys: map<WorkKey, nat>, w: nat, namespace: string, now: Time)
    requires WellShaped(store)
    requires forall k :: k in store.work ==> IsBelow(keys, w, k)
    ensures RecoveredBelow(store, keys, w, namespace, now) == RecoverClaims(store, namespace, now)
  {
    hide RecoverExpiredClaim, RecoveredItem, IsExpired, WorkResolves, ExecutionsNamed, OccurrencesResolve, IsBelow;
    assert ExecutionsBelow(store, keys, w, namespace, now) == RecoveredExecutions(store, namespace, now);
    assert WorkBelow(store, keys, w, namespace, now) == RecoveredWork(store, namespace, now);
  }

  /** Position `w` belongs to `key` alone. */
  predicate IsPosition(keys: map<WorkKey, nat>, w: nat, key: WorkKey) {
    key in keys && keys[key] == w && forall k :: k in keys && keys[k] == w ==> k == key
  }

  lemma PassPosition(keys: map<WorkKey, nat>, w: nat, key: WorkKey, k: WorkKey)
    requires IsPosition(keys, w, key)
    ensures IsBelow(keys, w + 1, k) == (IsBelow(keys, w, k) || k == key)
    ensures !IsBelow(keys, w, key)
  {
  }

  lemma WorkStep(store: Store, keys: map<WorkKey, nat>, w: nat, namespace: string, now: Time, key: WorkKey)
    requires WorkResolves(store.executions, store.work) && key in store.work && IsPosition(keys, w, key)
    ensures
      var at, next := WorkBelow(store, keys, w, namespace, now), WorkBelow(store, keys, w + 1, namespace, now);
      && key in at && at[key] == store.work[key]
      && next == if IsExpired(store.work[key], namespace, now)
                 then at[key := RecoveredItem(store.work[key], store.executions[key.executionId], now)]
                 else at
  {
    hide RecoveredItem, IsExpired, IsPosition, IsBelow;
    forall k ensures IsBelow(keys, w + 1, k) == (IsBelow(keys, w, k) || k == key) && !IsBelow(keys, w, key) {
      PassPosition(keys, w, key, k);
    }
  }

  ghost function ExecutionBelow(store: Store, keys: map<WorkKey, nat>, w: nat, namespace: string, now: Time, id: ExecutionId): Execution
    requires id in store.executions
  {
    if IsBelow(keys, w, KeyFor(id, Execute)) && LostClaim(store, id, namespace, now)
    then RecoverExpiredClaim(store.executions[id], Execute, now).execution
    else store.executions[id]
  }

  /** The execution of executable work is still as it was before recovery when its item is reached. */
  lemma ExecutionStep(store: Store, keys: map<WorkKey, nat>, w: nat, namespace: string, now: Time, key: WorkKey, id: ExecutionId)
    requires WellShaped(store) && key in store.work && IsPosition(keys, w, key) && id in store.executions
    ensures
      var at, next := ExecutionBelow(store, keys, w, namespace, now, id), ExecutionBelow(store, keys, w + 1, namespace, now, id);
      && at.id == id
      && (key == KeyFor(id, Execute) ==> at == store.executions[id])
      && next == if key.executionId == id && IsExpired(store.work[key], namespace, now)
                 then RecoverExpiredClaim(at, key.kind, now).execution
                 else at
  {
    hide IsExpired, IsPosition, IsBelow, OccurrencesResolve;
    PassPosition(keys, w, key, KeyFor(id, Execute));
  }

  lemma ExecutionsStep(store: Store, keys: map<WorkKey, nat>, w: nat, namespace: string, now: Time, key: WorkKey)
    requires WellShaped(store) && key in store.work && IsPosition(keys, w, key)
    ensures
      var at, next := ExecutionsBelow(store, keys, w, namespace, now), ExecutionsBelow(store, keys, w + 1, namespace, now);
      && key.executionId in at && at[key.executionId].id == key.executionId
      && (key.kind.Execute? ==> at[key.executionId] == store.executions[key.executionId])
      && next == if IsExpired(store.work[key], namespace, now)
                 then at[key.executionId := RecoverExpiredClaim(at[key.executionId], key.kind, now).execution]
                 else at
  {
    assert key.executionId in store.executions && key.namespace == key.executionId.namespace;
    hide IsExpired, IsPosition, WellShaped, RecoverExpiredClaim, ExecutionBelow;
    forall id | id in store.executions
      ensures
        var at, next := ExecutionBelow(store, keys, w, namespace, now, id), ExecutionBelow(store, keys, w + 1, namespace, now, id);
        && at.id == id
        && (key == KeyFor(id, Execute) ==> at == store.executions[id])
        && next == if key.executionId == id && IsExpired(store.work[key], namespace, now)
                   then RecoverExpiredClaim(at, key.kind, now).execution
                   else at
    {
      ExecutionStep(store, keys, w, namespace, now, key, id);
    }
  }

  lemma RecoveryStep(store: Store, keys: map<WorkKey, nat>, w: nat, namespace: string, now: Time, key: WorkKey)
    requires WellShaped(store) && IsPosition(keys, w, key)
    requires key in RecoveredBelow(store, keys, w, namespace, now).work
    ensures
      var at, next := RecoveredBelow(store, keys, w, namespace, now), RecoveredBelow(store, keys, w + 1, namespace, now);
      && key in at.work && key.executionId in at.executions && at.executions[key.executionId].id == key.executionId
      && next == if IsExpired(at.work[key], namespace, now) then Recovered(at, key, now) else at
  {
    assert key in store.work;
    hide WorkBelow, ExecutionsBelow, IsPosition, IsExpired;
    WorkStep(store, keys, w, namespace, now, key);
    ExecutionsStep(store, keys, w, namespace, now, key);
  }

  /** The store with the claim on one item recovered. */
  ghost function Recovered(store: Store, key: WorkKey, now: Time): Store
    requires key in store.work && key.executionId in store.executions
  {
    var execution := store.executions[key.executionId];
    store.(executions := store.executions[key.executionId := RecoverExpiredClaim(execution, key.kind, now).execution],
           work := store.work[key := RecoveredItem(store.work[key], execution, now)])
  }

  lemma CompletedCurrent(work: map<WorkKey, WorkItem>, completeWork: CompleteWork, id: ExecutionId, key: WorkKey)
    requires key in work && !completeWork.CompleteAll?
    ensures CompleteItems(work, completeWork, id, Some(key)) ==
            if completeWork.CompleteCurrent? then work[key := work[key].Unowned(Completed)] else work
  {
  }

  lemma RecoveryTransition(store: Store, key: WorkKey, now: Time)
    requires key in store.work && key.executionId in store.executions && store.work[key].Key() == key
    requires store.executions[key.executionId].id == key.executionId
    ensures
      var transition := RecoverExpiredClaim(store.executions[key.executionId], key.kind, now);
      var after := Spec.ApplyTransition(store, transition, Some(key), now, 0).store;
      && transition.deadlineWorkAt.None?
      && key in after.work
      && var status := if transition.completeWork.CompleteNone? then Pending else after.work[key].status;
      && after.(work := after.work[key := after.work[key].Unowned(status)]) == Recovered(store, key, now)
  {
    hide CompleteItems, Spec.CreateWork, Spec.ReleaseScopes;
    var transition := RecoverExpiredClaim(store.executions[key.executionId], key.kind, now);
    CompletedCurrent(store.work, transition.completeWork, key.executionId, key);
    var after := Spec.ApplyTransition(store, transition, Some(key), now, 0).store;
    assert after == Settled(store, transition, Some(key));
  }

  // ---------------------------------------------------------------- claim order, by insertion

  /** `sorted` are the due items among the first `w`, in claim order. */
  predicate AreSortedDue(work: seq<WorkItem>, w: nat, namespace: string, now: Time, sorted: seq<WorkItem>)
    requires w <= |work|
  {
    && (forall item :: item in sorted ==> item in work[..w] && IsDue(item, namespace, now))
    && (forall x :: 0 <= x < w && IsDue(work[x], namespace, now) ==> work[x] in sorted)
    && InClaimOrder(sorted)
  }

  predicate InClaimOrder(items: seq<WorkItem>) {
    forall i, j :: 0 <= i < j < |items| ==> items[i] != items[j] && ClaimsBefore(items[i], items[j])
  }

  lemma ClaimOrderIsTotal(a: WorkItem, b: WorkItem, c: WorkItem)
    ensures ClaimsBefore(a, b) || ClaimsBefore(b, a)
    ensures ClaimsBefore(a, b) && ClaimsBefore(b, c) ==> ClaimsBefore(a, c)
  {
  }

  lemma InsertedInOrder(sorted: seq<WorkItem>, item: WorkItem, p: nat)
    requires InClaimOrder(sorted) && item !in sorted && p <= |sorted|
    requires forall i :: 0 <= i < p ==> ClaimsBefore(sorted[i], item)
    requires p < |sorted| ==> !ClaimsBefore(sorted[p], item)
    ensures InClaimOrder(sorted[..p] + [item] + sorted[p..])
  {
    hide ClaimsBefore;
    forall j | p <= j < |sorted| ensures ClaimsBefore(item, sorted[j]) {
      ClaimOrderIsTotal(item, sorted[p], sorted[j]);
    }
  }

  lemma InsertedDue(
    work: seq<WorkItem>, keys: map<WorkKey, nat>, w: nat, namespace: string, now: Time, sorted: seq<WorkItem>, p: nat)
    requires Indexes(work, keys) && w < |work| && AreSortedDue(work, w, namespace, now, sorted)
    requires IsDue(work[w], namespace, now) && p <= |sorted|
    requires forall i :: 0 <= i < p ==> ClaimsBefore(sorted[i], work[w])
    requires p < |sorted| ==> !ClaimsBefore(sorted[p], work[w])
    ensures AreSortedDue(work, w + 1, namespace, now, sorted[..p] + [work[w]] + sorted[p..])
  {
    UnseenItem(work, keys, w);
    InsertedInOrder(sorted, work[w], p);
    hide Indexes, InClaimOrder, IsDue, ClaimsBefore;
    assert work[..w + 1] == work[..w] + [work[w]];
    InsertedMembers(sorted, work[w], p);
    var inserted := sorted[..p] + [work[w]] + sorted[p..];
    forall x | 0 <= x < w + 1 && IsDue(work[x], namespace, now) ensures work[x] in inserted {
      assert x < w ==> work[x] in sorted;
    }
  }

  lemma UnseenItem(work: seq<WorkItem>, keys: map<WorkKey, nat>, w: nat)
    requires Indexes(work, keys) && w < |work|
    ensures work[w] !in work[..w]
  {
    assert forall x :: 0 <= x < w ==> keys[work[x].Key()] == x;
  }

  lemma InsertedMembers(sorted: seq<WorkItem>, item: WorkItem, p: nat)
    requires p <= |sorted|
    ensures forall x :: x in sorted[..p] + [item] + sorted[p..] <==> x in sorted || x == item
  {
    assert sorted == sorted[..p] + sorted[p..];
  }

  function KeysOf(items: seq<WorkItem>): seq<WorkKey> {
    seq(|items|, i requires 0 <= i < |items| => items[i].Key())
  }

  lemma SortedDueIsClaimOrder(work: seq<WorkItem>, keys: map<WorkKey, nat>, namespace: string, now: Time, sorted: seq<WorkItem>)
    requires Indexes(work, keys) && AreSortedDue(work, |work|, namespace, now, sorted)
    ensures IsClaimOrder(ByKey(work, keys), namespace, now, KeysOf(sorted))
  {
    var candidates, items := KeysOf(sorted), ByKey(work, keys);
    hide IsDue, ClaimsBefore;
    forall i | 0 <= i < |sorted| ensures candidates[i] in items && items[candidates[i]] == sorted[i] {
      assert sorted[i] in work[..|work|];
    }
    forall k | k in items && IsDue(items[k], namespace, now) ensures k in candidates {
      assert items[k] in sorted;
      var i :| 0 <= i < |sorted| && sorted[i] == items[k];
      assert candidates[i] == k;
    }
  }

  lemma ItemResolves(store: Store, key: WorkKey)
    requires WellShaped(store) && key in store.work
    ensures store.work[key].Key() == key && key.executionId in store.executions
    ensures store.executions[key.executionId].id == key.executionId
    ensures store.executions[key.executionId].namespace == key.executionId.namespace
  {
  }

  lemma ReplacedShape(store: Store, key: WorkKey, item: WorkItem)
    requires WellShaped(store) && key in store.work && item.Key() == key
    ensures WellShaped(store.(work := store.work[key := item]))
  {
  }

  lemma UpdatedShape(store: Store, execution: Execution)
    requires WellShaped(store) && execution.id in store.executions && execution.namespace == execution.id.namespace
    ensures WellShaped(store.(executions := store.executions[execution.id := execution]))
  {
  }

  lemma ClaimItemSettles(current: Claiming, request: ClaimRequest, now: Time, token: Token, key: WorkKey)
    requires WellShaped(current.store) && key in current.store.work
    ensures
      var store, item := current.store, current.store.work[key];
      var transition := ClaimCandidate(store.executions[item.executionId], item.kind, now);
      transition.Some? ==>
        ClaimItem(current, request, now, token, key) == current.(store := Spec.ApplyTransition(store, transition.value, Some(key), now, 0).store)
  {
    hide Spec.ApplyTransition, IsRefusedAdmission, Lease;
  }

  predicate NothingSettles(store: Store, key: WorkKey, now: Time) {
    && key in store.work && store.work[key].executionId in store.executions
    && ClaimCandidate(store.executions[store.work[key].executionId], store.work[key].kind, now).None?
  }

  lemma ClaimItemLeases(current: Claiming, request: ClaimRequest, now: Time, token: Token, key: WorkKey)
    requires WellShaped(current.store) && NothingSettles(current.store, key, now)
    ensures
      var store, item := current.store, current.store.work[key];
      ClaimItem(current, request, now, token, key) ==
        if IsRefusedAdmission(store, item, store.executions[item.executionId], request.globalConcurrency) then current
        else Claiming(Lease(store, key, request, now, token),
                      current.claims + [Claim(key, token, item.fence + 1, now + request.leaseDuration)])
  {
    hide Spec.ApplyTransition, IsRefusedAdmission, Lease;
  }

  /** The snapshots belong to the namespace; whether their identities are new is not asked. */
  predicate AreOf(namespace: string, executions: seq<ScheduledExecution>) {
    forall i :: 0 <= i < |executions| ==> executions[i].execution.namespace == executions[i].execution.id.namespace == namespace
  }

  lemma PendingAreOf(namespace: string, executions: seq<ScheduledExecution>, existing: set<string>)
    requires AreOf(namespace, executions)
    ensures AreOf(namespace, PendingOccurrences(executions, existing))
  {
    PendingOccurrencesAreNewAndDistinct(executions, existing);
  }

  /** What the log says of a command: its recorded result, nothing under its request ID, or other input under it. */
  ghost predicate IsLogAnswer(store: Store, command: Command, answer: Outcome<Option<OperationResult>, StoreError>) {
    match answer
    case Ok(Some(result)) => IsRecorded(store, command, result)
    case Ok(None) => forall digest, result :: !IsRecorded(store, command.(inputDigest := digest), result)
    case Err(error) =>
      && error == RequestConflict
      && exists digest, result :: digest != command.inputDigest && IsRecorded(store, command.(inputDigest := digest), result)
  }

  lemma LogAnswerIsRecordedResult(store: Store, command: Command, answer: Outcome<Option<OperationResult>, StoreError>)
    requires IsLogAnswer(store, command, answer)
    ensures answer == RecordedResult(store, command)
  {
    if command.requestId.Some? && command.Key() in store.operations {
      var operation := store.operations[command.Key()];
      assert IsRecorded(store, command.(inputDigest := operation.inputDigest), operation.result);
    }
  }

  /** Settling unclaimable work only concerns the work itself. */
  lemma CandidateTransition(execution: Execution, kind: WorkKind, now: Time)
    ensures
      var transition := ClaimCandidate(execution, kind, now);
      transition.Some? ==> transition.value.completeWork.CompleteCurrent? && transition.value.deadlineWorkAt.None?
  {
  }

  // ---------------------------------------------------------------- walks over the executions

  predicate AllStored(executions: map<ExecutionId, Execution>, ids: seq<ExecutionId>) {
    forall id :: id in ids ==> id in executions
  }

  /** `picked` are the wanted ones among the first `i` of `ids`, each once. */
  ghost predicate ArePicked(ids: seq<ExecutionId>, i: nat, wanted: set<ExecutionId>, picked: seq<ExecutionId>)
    requires i <= |ids|
  {
    && Commands.AreDistinct(picked)
    && forall id :: id in picked <==> id in ids[..i] && id in wanted
  }

  lemma PickedNext(ids: seq<ExecutionId>, i: nat, wanted: set<ExecutionId>, picked: seq<ExecutionId>)
    requires Commands.AreDistinct(ids) && i < |ids| && ArePicked(ids, i, wanted, picked)
    ensures ArePicked(ids, i + 1, wanted, if ids[i] in wanted then picked + [ids[i]] else picked)
  {
    assert ids[..i + 1] == ids[..i] + [ids[i]];
    assert ids[i] !in ids[..i];
  }

  lemma AllPicked(ids: seq<ExecutionId>, wanted: set<ExecutionId>, picked: seq<ExecutionId>)
    requires ArePicked(ids, |ids|, wanted, picked) && forall id :: id in wanted ==> id in ids
    ensures (set id | id in picked) == wanted
  {
    assert ids[..|ids|] == ids;
  }

  lemma AllWanted(ids: seq<ExecutionId>, wanted: set<ExecutionId>)
    requires (set id | id in ids) == wanted
    ensures forall id :: id in ids ==> id in wanted
  {
    assert forall id :: id in ids ==> id in (set x | x in ids);
  }

  lemma AdvancedShape(store: Store, task: Task)
    requires WellShaped(store)
    ensures WellShaped(store.(tasks := store.tasks[task.id := task]))
  {
  }

  lemma QueuedCancel(before: Store, current: Store, id: ExecutionId, now: Time)
    requires WellShaped(before) && WellShaped(current) && current.executions.Keys == before.executions.Keys
    requires id in before.executions && before.executions[id].status.Queued?
    ensures
      var decided := CancelExecution(before.executions[id], now);
      && decided.Ok? && !decided.value.completeWork.CompleteCurrent? && decided.value.deadlineWorkAt.None?
      && var after := Spec.ApplyTransition(current, decided.value, None, now, 0).store;
      && WellShaped(after) && after.executions.Keys == current.executions.Keys
  {
    var transition := CancelExecution(before.executions[id], now).value;
    hide WorkResolves, OccurrencesResolve, Released;
    assert Concerns(current, transition);
    TransitionShape(current, transition, None, now, 0);
    ReleasedShape(current, transition, None);
  }

  lemma CancelOneMore(store: Store, ids: seq<ExecutionId>, id: ExecutionId, now: Time)
    requires AllStored(store.executions, ids) && id in store.executions && CancelExecution(store.executions[id], now).Ok?
    ensures AllStored(store.executions, ids + [id])
    ensures CancelAll(store, ids + [id], now) ==
            Spec.ApplyTransition(CancelAll(store, ids, now), CancelExecution(store.executions[id], now).value, None, now, 0).store
  {
    assert (ids + [id])[..|ids|] == ids;
  }

  class MemoryStore {
    const limits: RecordLimits
    var closed: bool
    var tasks: map<string, Task>
    var executions: map<ExecutionId, Execution>
    var occurrences: map<(string, string), ExecutionId>
    var work: seq<WorkItem>
    var workKeys: map<WorkKey, nat>
    var operations: map<OperationKey, Operation>
    var allocations: map<Scope, nat>
    var admitted: set<ExecutionId>

    ghost predicate Valid()
      reads this
    {
      Indexes(work, workKeys) && WellShaped(Contents())
    }

    /** The store value this object holds. */
    ghost function Contents(): Store
      reads this
      requires Indexes(work, workKeys)
    {
      Store(limits, closed, tasks, executions, occurrences, ByKey(work, workKeys), operations, allocations, admitted)
    }

    constructor (limits: RecordLimits)
      ensures Valid() && Contents() == Empty(limits)
    {
      this.limits := limits;
      closed := false;
      tasks, executions, occurrences, operations, allocations := map[], map[], map[], map[], map[];
      work, workKeys, admitted := [], map[], {};
    }

    // ---------------------------------------------------------------- work

    /** The capacity check repeated when an item is created is already met by every caller. */
    method CreateWork(execution: Execution, kind: WorkKind, availableAt: Time, now: Time, uuid: nat)
      requires Indexes(work, workKeys)
      requires WorkKey(execution.namespace, execution.id, kind) !in workKeys ==> |work| < limits.maxWorkItems
      modifies this`work, this`workKeys
      ensures Indexes(work, workKeys) && |work| <= old(|work|) + 1
      ensures Contents() == Spec.CreateWork(old(Contents()), execution, kind, availableAt, now, uuid)
    {
      var key := WorkKey(execution.namespace, execution.id, kind);
      if key in workKeys {
        var w := workKeys[key];
        var item := work[w].Unowned(Pending).(availableAt := availableAt);
        ReplacedItem(work, workKeys, w, item);
        work := work[w := item];
      } else {
        var item := WorkItem(uuid, execution.namespace, execution.id, kind, availableAt, now, Pending, None, None, 0, None);
        AppendedItem(work, workKeys, item);
        work, workKeys := work + [item], workKeys[key := |work|];
      }
    }

    method CompleteExecutionWork(id: ExecutionId)
      requires Indexes(work, workKeys)
      modifies this`work
      ensures Indexes(work, workKeys) && |work| == old(|work|)
      ensures ByKey(work, workKeys) == CompleteItems(old(ByKey(work, workKeys)), CompleteAll, id, None)
    {
      ghost var before := work;
      var w := 0;
      while w < |work|
        invariant 0 <= w <= |work| == |before|
        invariant forall x :: 0 <= x < w ==>
                    work[x] == if before[x].executionId == id then before[x].Unowned(Completed) else before[x]
        invariant forall x :: w <= x < |work| ==> work[x] == before[x]
      {
        if work[w].executionId == id {
          work := work[w := work[w].Unowned(Completed)];
        }
        w := w + 1;
      }
      ReplacedItems(before, work, workKeys);
    }

    method ReadItem(key: WorkKey) returns (item: WorkItem)
      requires Indexes(work, workKeys) && key in workKeys
      ensures key in ByKey(work, workKeys) && item == ByKey(work, workKeys)[key] && item.Key() == key
    {
      return work[workKeys[key]];
    }

    /** Assignments to the fields of one stored item. */
    method ReplaceItem(key: WorkKey, item: WorkItem)
      requires Indexes(work, workKeys) && key in workKeys && item.Key() == key
      modifies this`work
      ensures Indexes(work, workKeys) && |work| == old(|work|)
      ensures ByKey(work, workKeys) == old(ByKey(work, workKeys))[key := item]
    {
      ReplacedItem(work, workKeys, workKeys[key], item);
      work := work[workKeys[key] := item];
    }

    method CompleteItem(key: WorkKey)
      requires Indexes(work, workKeys) && key in workKeys
      modifies this`work
      ensures Indexes(work, workKeys) && |work| == old(|work|)
      ensures forall id :: ByKey(work, workKeys) == CompleteItems(old(ByKey(work, workKeys)), CompleteCurrent, id, Some(key))
    {
      var w := workKeys[key];
      ReplacedItem(work, workKeys, w, work[w].Unowned(Completed));
      work := work[w := work[w].Unowned(Completed)];
    }

    // ---------------------------------------------------------------- capacity

    method ReserveScopes(execution: Execution, globalConcurrency: int) returns (reserved: bool)
      requires Indexes(work, workKeys)
      modifies this`allocations, this`admitted
      ensures reserved == (execution.id in old(admitted) || HasCapacity(old(Contents()), execution, globalConcurrency))
      ensures Contents() ==
              if reserved && execution.id !in old(admitted) then Spec.ReserveScopes(old(Contents()), execution) else old(Contents())
    {
      if execution.id in admitted {
        return true;
      }
      var globalKey, executionKey := GlobalScope(execution.namespace), ExecutionScope(execution);
      if Lookup(allocations, globalKey, 0) >= globalConcurrency {
        return false;
      }
      if Lookup(allocations, executionKey, 0) >= execution.limits.maxConcurrentRuns {
        return false;
      }
      allocations := allocations[globalKey := Lookup(allocations, globalKey, 0) + 1];
      allocations := allocations[executionKey := Lookup(allocations, executionKey, 0) + 1];
      admitted := admitted + {execution.id};
      return true;
    }

    method ReleaseScopes(execution: Execution)
      requires Indexes(work, workKeys)
      modifies this`allocations, this`admitted
      ensures Contents() == Spec.ReleaseScopes(old(Contents()), execution)
    {
      if execution.id !in admitted {
        return;
      }
      var keys := [GlobalScope(execution.namespace), ExecutionScope(execution)];
      var i := 0;
      while i < |keys|
        invariant 0 <= i <= |keys|
        invariant i == 0 ==> allocations == old(allocations)
        invariant i == 1 ==> allocations == Decremented(old(allocations), keys[0])
        invariant i == 2 ==> allocations == Decremented(Decremented(old(allocations), keys[0]), keys[1])
        invariant admitted == old(admitted)
      {
        var count := Lookup(allocations, keys[i], 0);
        if count <= 1 {
          allocations := allocations - {keys[i]};
        } else {
          allocations := allocations[keys[i] := count - 1];
        }
        i := i + 1;
      }
      admitted := admitted - {execution.id};
    }

    // ---------------------------------------------------------------- transitions

    /** Save the execution and complete its work as the transition says. */
    method Settle(transition: Transition, item: Option<WorkKey>)
      requires Indexes(work, workKeys)
      requires transition.completeWork.CompleteCurrent? ==> item.Some? && item.value in workKeys
      modifies this`executions, this`work
      ensures Indexes(work, workKeys) && |work| == old(|work|)
      ensures Contents() == Settled(old(Contents()), transition, item)
    {
      hide Indexes, ByKey, CompleteItems;
      ghost var before := ByKey(work, workKeys);
      var id := transition.execution.id;
      executions := executions[id := transition.execution];
      match transition.completeWork {
        case CompleteAll => CompleteExecutionWork(id);
        case CompleteCurrent => CompleteItem(item.value);
        case CompleteNone =>
      }
      CompletedSame(before, transition.completeWork, id, item);
    }

    method ApplyTransition(transition: Transition, item: Option<WorkKey>, now: Time, uuid: nat)
      returns (r: Outcome<Execution, StoreError>)
      requires Indexes(work, workKeys)
      requires transition.completeWork.CompleteCurrent? ==> item.Some? && item.value in workKeys
      modifies this`executions, this`work, this`workKeys, this`allocations, this`admitted
      ensures Indexes(work, workKeys)
      ensures transition.deadlineWorkAt.None? ==> workKeys == old(workKeys) && |work| == old(|work|)
      ensures Step(Contents(), r) == Spec.ApplyTransition(old(Contents()), transition, item, now, uuid)
    {
      hide Indexes, ByKey, Settled, Spec.ReleaseScopes, Spec.CreateWork;
      ghost var before := Contents();
      IndexSize(work, workKeys);
      IndexKeys(work, workKeys);
      var execution := transition.execution;
      if transition.deadlineWorkAt.Some? {
        var key := WorkKey(execution.namespace, execution.id, ExpireInterrupt);
        if key !in workKeys && |work| >= limits.maxWorkItems {
          return Err(CapacityExhausted);
        }
      }
      Settle(transition, item);
      if transition.releaseCapacity {
        ReleaseScopes(execution);
      }
      assert Contents() == Released(before, transition, item);
      if transition.deadlineWorkAt.Some? {
        CreateWork(execution, ExpireInterrupt, transition.deadlineWorkAt.value, now, uuid);
      }
      return Ok(execution);
    }

    // ---------------------------------------------------------------- claims

    method RecoverExpiredClaims(namespace: string, now: Time)
      requires Valid()
      modifies this`executions, this`work, this`workKeys, this`allocations, this`admitted
      ensures Valid() && Contents() == RecoverClaims(old(Contents()), namespace, now)
    {
      hide Indexes, ByKey, WellShaped, RecoveredBelow, RecoverClaims;
      ghost var before, keys := Contents(), workKeys;
      EverythingIsBelow(work, workKeys);
      AllRecovered(before, keys, |work|, namespace, now);
      NothingRecovered(before, keys, namespace, now);
      var w := 0;
      while w < |work|
        invariant Indexes(work, workKeys) && workKeys == keys
        invariant 0 <= w <= |work| == old(|work|)
        invariant Contents() == RecoveredBelow(before, keys, w, namespace, now)
      {
        RecoverItem(before, w, namespace, now);
        w := w + 1;
      }
      RecoveryKeepsShape(before, namespace, now);
    }

    /** The loop body: what it leaves behind is recovery one item further. */
    method RecoverItem(ghost before: Store, w: nat, namespace: string, now: Time)
      requires Indexes(work, workKeys) && WellShaped(before) && w < |work|
      requires Contents() == RecoveredBelow(before, workKeys, w, namespace, now)
      modifies this`executions, this`work, this`workKeys, this`allocations, this`admitted
      ensures Indexes(work, workKeys) && workKeys == old(workKeys) && |work| == old(|work|)
      ensures Contents() == RecoveredBelow(before, workKeys, w + 1, namespace, now)
    {
      hide Indexes, ByKey, RecoveredBelow, WellShaped, RecoverExpiredClaim, Spec.ApplyTransition;
      var key := work[w].Key();
      ItemAt(work, workKeys, w);
      RecoveryStep(before, workKeys, w, namespace, now, key);
      if IsExpired(work[w], namespace, now) {
        ghost var at := Contents();
        var execution := executions[work[w].executionId];
        var transition := RecoverExpiredClaim(execution, work[w].kind, now);
        RecoveryTransition(at, key, now);
        var _ := ApplyTransition(transition, Some(key), now, 0);
        var item := ReadItem(key);
        var status := if transition.completeWork.CompleteNone? then Pending else item.status;
        ReplaceItem(key, item.Unowned(status));
      }
    }

    /** The due items in claim order, by insertion. */
    method Candidates(namespace: string, now: Time) returns (candidates: seq<WorkKey>)
      requires Indexes(work, workKeys)
      ensures IsClaimOrder(ByKey(work, workKeys), namespace, now, candidates)
    {
      var sorted: seq<WorkItem> := [];
      var w := 0;
      while w < |work|
        invariant 0 <= w <= |work|
        invariant AreSortedDue(work, w, namespace, now, sorted)
      {
        if IsDue(work[w], namespace, now) {
          var p := 0;
          while p < |sorted| && ClaimsBefore(sorted[p], work[w])
            invariant 0 <= p <= |sorted|
            invariant forall i :: 0 <= i < p ==> ClaimsBefore(sorted[i], work[w])
          {
            p := p + 1;
          }
          InsertedDue(work, workKeys, w, namespace, now, sorted, p);
          sorted := sorted[..p] + [work[w]] + sorted[p..];
        }
        w := w + 1;
      }
      SortedDueIsClaimOrder(work, workKeys, namespace, now, sorted);
      candidates := KeysOf(sorted);
    }

    method AdmitAndLease(key: WorkKey, request: ClaimRequest, now: Time, token: Token) returns (claim: Option<Claim>)
      requires Indexes(work, workKeys) && key in ByKey(work, workKeys) && key.executionId in executions
      requires ByKey(work, workKeys)[key].executionId == key.executionId
      modifies this`work, this`allocations, this`admitted
      ensures Indexes(work, workKeys)
      ensures
        var was := old(Contents());
        var item := was.work[key];
        if IsRefusedAdmission(was, item, was.executions[item.executionId], request.globalConcurrency)
        then claim == None && Contents() == was
        else
          && claim == Some(Claim(key, token, item.fence + 1, now + request.leaseDuration))
          && Contents() == Lease(was, key, request, now, token)
    {
      hide Indexes, ByKey, Spec.ReserveScopes, HasCapacity;
      IndexKeys(work, workKeys);
      ghost var before := Contents();
      var item := ReadItem(key);
      if item.kind.Execute? {
        var reserved := ReserveScopes(executions[item.executionId], request.globalConcurrency);
        if !reserved {
          return None;
        }
      }
      assert Contents() == Admit(before, item);
      ReplaceItem(key, item.(status := Claimed, workerId := Some(request.workerId), claimToken := Some(token),
                             fence := item.fence + 1, leaseUntil := Some(now + request.leaseDuration)));
      return Some(Claim(key, token, item.fence + 1, now + request.leaseDuration));
    }

    /** An item that nothing settles is leased, unless admission is refused. */
    method LeaseCandidate(key: WorkKey, claims: seq<Claim>, request: ClaimRequest, now: Time, token: Token)
      returns (next: seq<Claim>)
      requires Valid() && NothingSettles(Contents(), key, now)
      modifies this`work, this`allocations, this`admitted
      ensures Indexes(work, workKeys)
      ensures Claiming(Contents(), next) == ClaimItem(Claiming(old(Contents()), claims), request, now, token, key)
    {
      ghost var current := Claiming(Contents(), claims);
      hide Indexes, ByKey, WellShaped, ClaimCandidate, IsRefusedAdmission, Lease, ClaimItem;
      ItemResolves(current.store, key);
      ClaimItemLeases(current, request, now, token, key);
      var claim := AdmitAndLease(key, request, now, token);
      next := if claim.Some? then claims + [claim.value] else claims;
    }

    method ClaimCandidateItem(key: WorkKey, claims: seq<Claim>, request: ClaimRequest, now: Time, token: Token)
      returns (next: seq<Claim>)
      requires Valid() && key in ByKey(work, workKeys)
      modifies this`executions, this`work, this`workKeys, this`allocations, this`admitted
      ensures Indexes(work, workKeys)
      ensures Claiming(Contents(), next) == ClaimItem(Claiming(old(Contents()), claims), request, now, token, key)
    {
      ghost var current := Claiming(Contents(), claims);
      hide Indexes, ByKey, WellShaped, ClaimCandidate, Spec.ApplyTransition, ClaimItem;
      IndexKeys(work, workKeys);
      ItemResolves(current.store, key);
      var item := ReadItem(key);
      var execution := executions[item.executionId];
      var transition := ClaimCandidate(execution, item.kind, now);
      if transition.Some? {
        CandidateTransition(execution, item.kind, now);
        ClaimItemSettles(current, request, now, token, key);
        var _ := ApplyTransition(transition.value, Some(key), now, 0);
        return claims;
      }
      next := LeaseCandidate(key, claims, request, now, token);
    }

    method ClaimWork(request: ClaimRequest, now: Time, tokens: nat -> Token)
      returns (r: Outcome<seq<Claim>, StoreError>, ghost candidates: seq<WorkKey>)
      requires Valid()
      modifies this`executions, this`work, this`workKeys, this`allocations, this`admitted
      ensures Valid()
      ensures r.Err? <==> !IsValidClaimRequest(request) || old(closed)
      ensures r.Err? ==> Contents() == old(Contents()) && r.error == if IsValidClaimRequest(request) then StoreClosed else InvalidArgument
      ensures r.Ok? ==>
                && IsClaimOrder(RecoverClaims(old(Contents()), request.namespace, now).work, request.namespace, now, candidates)
                && Step(Contents(), r) == Spec.ClaimWork(old(Contents()), request, now, tokens, candidates)
    {
      hide Indexes, ByKey, WellShaped, RecoverClaims, ClaimItem, IsClaimOrder;
      candidates := [];
      if !IsValidClaimRequest(request) {
        return Err(InvalidArgument), candidates;
      }
      if closed {
        return Err(StoreClosed), candidates;
      }
      RecoverExpiredClaims(request.namespace, now);
      var order := Candidates(request.namespace, now);
      candidates := order;
      ghost var recovered := Claiming(Contents(), []);
      var claims: seq<Claim> := [];
      var i := 0;
      while i < |order| && |claims| < request.limit
        invariant 0 <= i <= |order| && Valid() && Contents().closed == old(closed)
        invariant forall j :: 0 <= j < |order| ==> order[j] in ByKey(work, workKeys)
        invariant ClaimItems(Claiming(Contents(), claims), request, now, tokens, order[i..])
               == ClaimItems(recovered, request, now, tokens, order)
      {
        ghost var current := Claiming(Contents(), claims);
        ClaimItemShape(current, request, now, tokens(|claims|), order[i]);
        assert order[i..][0] == order[i] && order[i..][1..] == order[i + 1..];
        claims := ClaimCandidateItem(order[i], claims, request, now, tokens(|claims|));
        i := i + 1;
      }
      r := Ok(claims);
    }

    /** Whether the claim still owns its item, and the item when it does. */
    method ValidItem(claim: Claim, now: Time) returns (item: Option<WorkItem>)
      requires Indexes(work, workKeys)
      ensures item.Some? <==> Spec.ValidClaim(Contents(), claim, now)
      ensures item.Some? ==> item.value == ByKey(work, workKeys)[claim.item] && item.value.Key() == claim.item
    {
      if claim.item !in workKeys {
        return None;
      }
      var found := ReadItem(claim.item);
      if !found.status.Claimed? || found.claimToken != Some(claim.claimToken) || found.fence != claim.fence
         || found.leaseUntil.None? || found.leaseUntil.value <= now {
        return None;
      }
      return Some(found);
    }

    method RenewClaim(claim: Claim, leaseDuration: Time, now: Time) returns (r: Outcome<Claim, StoreError>)
      requires Valid()
      modifies this`work
      ensures Valid() && Step(Contents(), r) == Spec.RenewClaim(old(Contents()), claim, leaseDuration, now)
    {
      ghost var before := Contents();
      if leaseDuration <= 0 {
        return Err(InvalidArgument);
      }
      if closed {
        return Err(StoreClosed);
      }
      var item := ValidItem(claim, now);
      if item.None? {
        return Err(ClaimLost);
      }
      var renewed := item.value.(leaseUntil := Some(now + leaseDuration));
      ReplacedShape(before, claim.item, renewed);
      IndexKeys(work, workKeys);
      hide Indexes, ByKey, WellShaped;
      ReplaceItem(claim.item, renewed);
      return Ok(claim.(leaseUntil := now + leaseDuration));
    }

    method AuthorizeStart(claim: Claim, executionTimeout: Time, now: Time, startToken: Token)
      returns (r: Outcome<Execution, StoreError>)
      requires Valid()
      modifies this`executions
      ensures Valid() && Step(Contents(), r) == AuthorizeClaim(old(Contents()), claim, executionTimeout, now, startToken)
    {
      ghost var before := Contents();
      hide Indexes, ByKey, WellShaped;
      if executionTimeout <= 0 {
        return Err(InvalidArgument);
      }
      if closed {
        return Err(StoreClosed);
      }
      var item := ValidItem(claim, now);
      if item.None? {
        return Err(ClaimLost);
      }
      ItemResolves(before, claim.item);
      var execution := executions[item.value.executionId];
      var started := AutomationRules.AuthorizeStart(
        execution, item.value.kind, execution.id in admitted, now, executionTimeout, startToken);
      if started.Ok? {
        UpdatedShape(before, started.value);
        executions := executions[execution.id := started.value];
      }
      return started;
    }

    method MarkInterrupted(claim: Claim, interruptIds: seq<string>, now: Time, uuid: nat)
      returns (r: Outcome<Execution, StoreError>)
      requires Valid()
      modifies this`executions, this`work, this`workKeys, this`allocations, this`admitted
      ensures Valid() && Step(Contents(), r) == Spec.MarkInterrupted(old(Contents()), claim, interruptIds, now, uuid)
    {
      ghost var before := Contents();
      hide Indexes, ByKey, WellShaped, Spec.ApplyTransition;
      if interruptIds == [] {
        return Err(InvalidArgument);
      }
      if closed {
        return Err(StoreClosed);
      }
      var item := ValidItem(claim, now);
      if item.None? {
        return Err(ClaimLost);
      }
      ItemResolves(before, claim.item);
      IndexKeys(work, workKeys);
      var decided := InterruptExecution(executions[item.value.executionId], interruptIds, now);
      if decided.Err? {
        return Err(decided.error);
      }
      TransitionShape(before, decided.value, Some(claim.item), now, uuid);
      r := ApplyTransition(decided.value, Some(claim.item), now, uuid);
    }

    method FinishExecution(claim: Claim, settlement: Settlement, now: Time) returns (r: Outcome<Execution, StoreError>)
      requires Valid()
      modifies this`executions, this`work, this`workKeys, this`allocations, this`admitted
      ensures Valid() && Step(Contents(), r) == FinishClaim(old(Contents()), claim, settlement, now)
    {
      ghost var before := Contents();
      hide Indexes, ByKey, WellShaped, Spec.ApplyTransition;
      if !IsFinishStatus(settlement.status) {
        return Err(InvalidArgument);
      }
      if closed {
        return Err(StoreClosed);
      }
      var item := ValidItem(claim, now);
      if item.None? {
        return Err(ClaimLost);
      }
      ItemResolves(before, claim.item);
      var decided := AutomationRules.FinishExecution(
        executions[item.value.executionId], settlement.status, now,
        settlement.result, settlement.failureCode, settlement.failureMessage);
      TransitionShape(before, decided.value, Some(claim.item), now, 0);
      r := ApplyTransition(decided.value, Some(claim.item), now, 0);
    }

    // ---------------------------------------------------------------- commands and their log

    method OperationResult(command: Command) returns (r: Outcome<Option<OperationResult>, StoreError>)
      requires Indexes(work, workKeys)
      ensures IsLogAnswer(Contents(), command, r)
    {
      if command.requestId.None? || command.Key() !in operations {
        return Ok(None);
      }
      var operation := operations[command.Key()];
      assert IsRecorded(Contents(), command.(inputDigest := operation.inputDigest), operation.result);
      if operation.inputDigest != command.inputDigest {
        return Err(RequestConflict);
      }
      return Ok(Some(operation.result));
    }

    /** The capacity check repeated when a result is recorded is already met by every caller. */
    method SaveOperation(command: Command, result: OperationResult)
      requires Indexes(work, workKeys)
      requires OperationFits(Contents(), command)
      modifies this`operations
      ensures Contents() == Spec.SaveOperation(old(Contents()), command, result)
    {
      if command.requestId.Some? {
        operations := operations[command.Key() := Operation(command.inputDigest, result)];
      }
    }

    method CreateTask(task: Task, requestId: Option<string>, inputDigest: string) returns (r: Outcome<Task, StoreError>)
      requires Valid()
      modifies this`tasks, this`operations
      ensures Valid() && Step(Contents(), r) == Spec.CreateTask(old(Contents()), task, requestId, inputDigest)
    {
      hide Indexes, ByKey, WorkResolves, ExecutionsNamed, OccurrencesResolve;
      var command := Command(task.namespace, task.ownerId, requestId, inputDigest);
      if closed {
        return Err(StoreClosed);
      }
      var previous := OperationResult(command);
      LogAnswerIsRecordedResult(Contents(), command, previous);
      if previous.Err? {
        return Err(previous.error);
      }
      if previous.value.Some? {
        return ExpectTask(previous.value.value);
      }
      if task.id in tasks {
        return Err(TaskConflict);
      }
      if |tasks| >= limits.maxTasks || (requestId.Some? && |operations| >= limits.maxOperations) {
        return Err(CapacityExhausted);
      }
      tasks := tasks[task.id := task];
      SaveOperation(command, TaskResult(task));
      return Ok(task);
    }

    method UpdateTask(task: Task, expectedRevision: int, requestId: Option<string>, inputDigest: string)
      returns (r: Outcome<Task, StoreError>)
      requires Valid()
      modifies this`tasks, this`operations
      ensures Valid() && Step(Contents(), r) == Spec.UpdateTask(old(Contents()), task, expectedRevision, requestId, inputDigest)
    {
      hide Indexes, ByKey, WorkResolves, ExecutionsNamed, OccurrencesResolve;
      var command := Command(task.namespace, task.ownerId, requestId, inputDigest);
      if closed {
        return Err(StoreClosed);
      }
      var previous := OperationResult(command);
      LogAnswerIsRecordedResult(Contents(), command, previous);
      if previous.Err? {
        return Err(previous.error);
      }
      if previous.value.Some? {
        return ExpectTask(previous.value.value);
      }
      if task.id !in tasks || tasks[task.id].namespace != task.namespace || tasks[task.id].ownerId != task.ownerId {
        return Err(TaskNotFound);
      }
      if tasks[task.id].revision != expectedRevision || task.revision != expectedRevision + 1 {
        return Err(TaskConflict);
      }
      if requestId.Some? && |operations| >= limits.maxOperations {
        return Err(CapacityExhausted);
      }
      tasks := tasks[task.id := task];
      SaveOperation(command, TaskResult(task));
      return Ok(task);
    }

    /** The common end of the commands on one execution. */
    method Commit(command: Command, decided: Outcome<Transition, StoreError>, now: Time)
      returns (r: Outcome<Execution, StoreError>)
      requires Valid()
      requires decided.Ok? ==> Concerns(Contents(), decided.value) && !decided.value.completeWork.CompleteCurrent?
      requires decided.Ok? ==> decided.value.deadlineWorkAt.None?
      modifies this`executions, this`work, this`workKeys, this`allocations, this`admitted, this`operations
      ensures Valid() && Step(Contents(), r) == CommitCommand(old(Contents()), command, decided, now)
    {
      hide Indexes, ByKey, WorkResolves, ExecutionsNamed, OccurrencesResolve, Released;
      ghost var before := Contents();
      if decided.Err? {
        return Err(decided.error);
      }
      if command.requestId.Some? && |operations| >= limits.maxOperations {
        return Err(CapacityExhausted);
      }
      TransitionShape(before, decided.value, None, now, 0);
      var updated := ApplyTransition(decided.value, None, now, 0);
      SaveOperation(command, ExecutionResult(updated.value));
      return updated;
    }

    method CancelExecution(command: Command, id: ExecutionId, now: Time) returns (r: Outcome<Execution, StoreError>)
      requires Valid()
      modifies this`executions, this`work, this`workKeys, this`allocations, this`admitted, this`operations
      ensures Valid() && Step(Contents(), r) == CancelCommand(old(Contents()), command, id, now)
    {
      ghost var before := Contents();
      hide Indexes, ByKey, CommitCommand;
      if closed {
        return Err(StoreClosed);
      }
      var previous := OperationResult(command);
      LogAnswerIsRecordedResult(Contents(), command, previous);
      if previous.Err? {
        return Err(previous.error);
      }
      if previous.value.Some? {
        return ExpectExecution(previous.value.value);
      }
      if id !in executions || executions[id].namespace != command.namespace || executions[id].ownerId != command.ownerId {
        return Err(ExecutionNotFound);
      }
      r := Commit(command, AutomationRules.CancelExecution(executions[id], now), now);
    }

    method ResolveExecution(command: Command, id: ExecutionId, resolution: AttentionResolution, reason: string, now: Time)
      returns (r: Outcome<Execution, StoreError>)
      requires Valid()
      modifies this`executions, this`work, this`workKeys, this`allocations, this`admitted, this`operations
      ensures Valid() && Step(Contents(), r) == ResolveCommand(old(Contents()), command, id, resolution, reason, now)
    {
      ghost var before := Contents();
      hide Indexes, ByKey, CommitCommand;
      if reason == "" || !IsStripped(reason) {
        return Err(InvalidArgument);
      }
      if closed {
        return Err(StoreClosed);
      }
      var previous := OperationResult(command);
      LogAnswerIsRecordedResult(Contents(), command, previous);
      if previous.Err? {
        return Err(previous.error);
      }
      if previous.value.Some? {
        return ExpectExecution(previous.value.value);
      }
      if id !in executions || executions[id].namespace != command.namespace || executions[id].ownerId != command.ownerId {
        return Err(ExecutionNotFound);
      }
      r := Commit(command, AutomationRules.ResolveExecution(executions[id], resolution, reason, now), now);
    }

    method Close()
      requires Valid()
      modifies this`closed
      ensures Valid() && Contents() == Spec.Close(old(Contents()))
    {
      closed := true;
    }

    // ---------------------------------------------------------------- walks over the executions

    method StoredIds() returns (ids: seq<ExecutionId>)
      ensures Commands.AreDistinct(ids) && forall id :: id in ids <==> id in executions
    {
      var remaining := executions.Keys;
      ids := [];
      while remaining != {}
        invariant remaining <= executions.Keys && Commands.AreDistinct(ids)
        invariant forall id :: id in ids <==> id in executions && id !in remaining
      {
        var id :| id in remaining;
        assert id !in ids;
        ids, remaining := ids + [id], remaining - {id};
      }
    }

    method CountQueuedForTask(taskId: string) returns (n: nat)
      requires Indexes(work, workKeys)
      ensures n == |QueuedForTask(Contents(), taskId)|
    {
      var remaining := executions.Keys;
      ghost var found: set<ExecutionId> := {};
      n := 0;
      while remaining != {}
        invariant remaining <= executions.Keys && n == |found|
        invariant found == QueuedForTask(Contents(), taskId) - remaining
      {
        var id :| id in remaining;
        remaining := remaining - {id};
        if executions[id].taskId == Some(taskId) && executions[id].status.Queued? {
          n, found := n + 1, found + {id};
        }
      }
    }

    method CountQueuedInScope(scope: Scope) returns (n: nat)
      requires Indexes(work, workKeys)
      ensures n == |QueuedInScope(Contents(), scope)|
    {
      var remaining := executions.Keys;
      ghost var found: set<ExecutionId> := {};
      n := 0;
      while remaining != {}
        invariant remaining <= executions.Keys && n == |found|
        invariant found == QueuedInScope(Contents(), scope) - remaining
      {
        var id :| id in remaining;
        remaining := remaining - {id};
        if ExecutionScope(executions[id]) == scope && executions[id].status.Queued? {
          n, found := n + 1, found + {id};
        }
      }
    }

    method CancelQueued(taskId: string, now: Time) returns (ghost cancelled: seq<ExecutionId>)
      requires Valid()
      modifies this`executions, this`work, this`workKeys, this`allocations, this`admitted
      ensures Valid() && Commands.AreDistinct(cancelled)
      ensures (set id | id in cancelled) == QueuedForTask(old(Contents()), taskId)
      ensures AllStored(old(executions), cancelled)
      ensures Contents() == CancelAll(old(Contents()), cancelled, now)
    {
      hide Indexes, ByKey, WellShaped, Spec.ApplyTransition, AutomationRules.CancelExecution;
      ghost var before := Contents();
      var snapshot := executions;
      var ids := StoredIds();
      ghost var wanted := QueuedForTask(before, taskId);
      cancelled := [];
      var i := 0;
      while i < |ids|
        invariant 0 <= i <= |ids| && Valid() && executions.Keys == snapshot.Keys
        invariant ArePicked(ids, i, wanted, cancelled) && AllStored(before.executions, cancelled)
        invariant Contents() == CancelAll(before, cancelled, now)
      {
        var execution := snapshot[ids[i]];
        PickedNext(ids, i, wanted, cancelled);
        if execution.taskId == Some(taskId) && execution.status.Queued? {
          QueuedCancel(before, Contents(), ids[i], now);
          CancelOneMore(before, cancelled, ids[i], now);
          var _ := ApplyTransition(AutomationRules.CancelExecution(execution, now).value, None, now, 0);
          cancelled := cancelled + [ids[i]];
        }
        i := i + 1;
      }
      AllPicked(ids, wanted, cancelled);
    }

    method DeleteTask(command: Command, taskId: string, expectedRevision: int, now: Time)
      returns (r: Outcome<(), StoreError>, ghost ids: seq<ExecutionId>)
      requires Valid()
      modifies this`tasks, this`executions, this`work, this`workKeys, this`allocations, this`admitted, this`operations
      ensures Valid() && Commands.AreDistinct(ids)
      ensures forall id :: id in ids ==> id in QueuedForTask(old(Contents()), taskId)
      ensures r.Ok? && RecordedResult(old(Contents()), command) == Ok(None) ==>
                (set id | id in ids) == QueuedForTask(old(Contents()), taskId)
      ensures Step(Contents(), r) == Spec.DeleteTask(old(Contents()), command, taskId, expectedRevision, now, ids)
    {
      hide Indexes, ByKey, WorkResolves, ExecutionsNamed, OccurrencesResolve, CancelAll;
      ids := [];
      if closed {
        return Err(StoreClosed), ids;
      }
      var previous := OperationResult(command);
      LogAnswerIsRecordedResult(Contents(), command, previous);
      if previous.Err? {
        return Err(previous.error), ids;
      }
      if previous.value.Some? {
        return ExpectDeletion(previous.value.value), ids;
      }
      if taskId !in tasks || tasks[taskId].namespace != command.namespace || tasks[taskId].ownerId != command.ownerId {
        return Err(TaskNotFound), ids;
      }
      if tasks[taskId].revision != expectedRevision {
        return Err(TaskConflict), ids;
      }
      if command.requestId.Some? && |operations| >= limits.maxOperations {
        return Err(CapacityExhausted), ids;
      }
      ghost var before := Contents();
      tasks := tasks - {taskId};
      assert QueuedForTask(Contents(), taskId) == QueuedForTask(before, taskId);
      ids := CancelQueued(taskId, now);
      AllWanted(ids, QueuedForTask(before, taskId));
      SaveOperation(command, DeletedTask(taskId));
      r := Ok(());
    }

    // ---------------------------------------------------------------- new executions

    method AddExecution(execution: Execution, occurrence: string, now: Time, uuid: nat)
      requires Indexes(work, workKeys) && |work| < limits.maxWorkItems
      modifies this`executions, this`occurrences, this`work, this`workKeys
      ensures Indexes(work, workKeys) && |work| <= old(|work|) + 1
      ensures Contents() == Spec.AddExecution(old(Contents()), execution, occurrence, now, uuid)
    {
      hide Indexes, ByKey, Spec.CreateWork;
      executions := executions[execution.id := execution];
      occurrences := occurrences[(execution.namespace, occurrence) := execution.id];
      CreateWork(execution, Execute, execution.queuedAt, now, uuid);
    }

    method EnqueueExecution(
      execution: Execution, occurrence: string, requestId: Option<string>, inputDigest: string,
      expectedTaskRevision: Option<int>, now: Time, uuid: nat
    ) returns (r: Outcome<Execution, StoreError>)
      requires Valid() && execution.id.namespace == execution.namespace
      modifies this`executions, this`occurrences, this`work, this`workKeys, this`operations
      ensures Valid()
      ensures Step(Contents(), r) == Spec.EnqueueExecution(
                old(Contents()), execution, occurrence, requestId, inputDigest, expectedTaskRevision, now, uuid)
    {
      hide Indexes, ByKey, WorkResolves, ExecutionsNamed, Spec.AddExecution, QueuedInScope;
      ghost var before := Contents();
      IndexSize(work, workKeys);
      var command := Command(execution.namespace, execution.ownerId, requestId, inputDigest);
      if closed {
        return Err(StoreClosed);
      }
      var previous := OperationResult(command);
      LogAnswerIsRecordedResult(Contents(), command, previous);
      if previous.Err? {
        return Err(previous.error);
      }
      if previous.value.Some? {
        return ExpectExecution(previous.value.value);
      }
      if (execution.namespace, occurrence) in occurrences {
        return Ok(executions[occurrences[(execution.namespace, occurrence)]]);
      }
      if !execution.status.Queued? {
        return Err(InvalidArgument);
      }
      if execution.id in executions {
        return Err(RequestConflict);
      }
      var unmet := CheckTask(execution, expectedTaskRevision);
      if unmet.Some? {
        return Err(unmet.value);
      }
      var queued := CountQueuedInScope(ExecutionScope(execution));
      if queued + 1 > execution.limits.maxQueuedRuns {
        return Err(QueueFull);
      }
      if |executions| >= limits.maxExecutions || (requestId.Some? && |operations| >= limits.maxOperations)
         || |work| >= limits.maxWorkItems {
        return Err(CapacityExhausted);
      }
      AddedShape(before, execution, occurrence, now, uuid);
      AddExecution(execution, occurrence, now, uuid);
      SaveOperation(command, ExecutionResult(execution));
      return Ok(execution);
    }

    method CheckTask(execution: Execution, expectedTaskRevision: Option<int>) returns (unmet: Option<StoreError>)
      requires Indexes(work, workKeys)
      ensures unmet == TaskPrecondition(Contents(), execution, expectedTaskRevision)
    {
      if execution.retryOf.None? && execution.taskId.Some? {
        var taskId := execution.taskId.value;
        if taskId !in tasks || tasks[taskId].namespace != execution.namespace || tasks[taskId].ownerId != execution.ownerId {
          return Some(TaskNotFound);
        }
        if expectedTaskRevision.None? {
          return None;
        }
        if expectedTaskRevision.value < 1 {
          return Some(InvalidArgument);
        }
        return if tasks[taskId].revision != expectedTaskRevision.value then Some(TaskConflict) else None;
      }
      return if expectedTaskRevision.Some? then Some(InvalidArgument) else None;
    }

    method MaterializeTask(task: Task, expectedNextRunAt: Time, scheduled: seq<ScheduledExecution>, now: Time, uuids: nat -> nat)
      returns (r: Outcome<Materialization, StoreError>)
      requires Valid() && AreOf(task.namespace, scheduled)
      modifies this`tasks, this`executions, this`occurrences, this`work, this`workKeys
      ensures Valid()
      ensures Step(Contents(), r) == Spec.MaterializeTask(old(Contents()), task, expectedNextRunAt, scheduled, now, uuids)
    {
      hide Indexes, ByKey, WellShaped, AddExecutions, QueuedForTask, PendingOccurrences;
      if closed {
        return Err(StoreClosed);
      }
      if task.id !in tasks || tasks[task.id].namespace != task.namespace || tasks[task.id].ownerId != task.ownerId {
        return Err(TaskNotFound);
      }
      if !MaterializationIsCurrent(tasks[task.id], task, expectedNextRunAt) {
        return Ok(Materialization(tasks[task.id], []));
      }
      PendingAreOf(task.namespace, scheduled, ExistingOccurrences(Contents(), task.namespace));
      var pending := SelectPending(scheduled, set o | o in occurrences && o.0 == task.namespace :: o.1);
      var queued := CountQueuedForTask(task.id);
      if queued + |pending| > task.limits.maxQueuedRuns {
        return Err(QueueFull);
      }
      IndexSize(work, workKeys);
      if |executions| + |pending| > limits.maxExecutions || |work| + |pending| > limits.maxWorkItems {
        return Err(CapacityExhausted);
      }
      AdvancedShape(Contents(), task);
      tasks := tasks[task.id := task];
      var created := AddPending(task.namespace, pending, now, uuids);
      return Ok(Materialization(task, created));
    }

    method AddPending(ghost namespace: string, pending: seq<ScheduledExecution>, now: Time, uuids: nat -> nat)
      returns (created: seq<Execution>)
      requires Valid() && AreOf(namespace, pending) && |work| + |pending| <= limits.maxWorkItems
      modifies this`executions, this`occurrences, this`work, this`workKeys
      ensures Valid() && Contents() == AddExecutions(old(Contents()), pending, now, uuids)
      ensures created == ExecutionsOf(pending)
    {
      hide Indexes, ByKey, WellShaped, Spec.AddExecution;
      ghost var before := Contents();
      created := [];
      var i := 0;
      while i < |pending|
        invariant 0 <= i <= |pending| && Valid() && |work| <= old(|work|) + i
        invariant Contents() == AddExecutions(before, pending[..i], now, uuids)
        invariant created == ExecutionsOf(pending[..i])
      {
        AddedShape(Contents(), pending[i].execution, pending[i].occurrence, now, uuids(i));
        assert pending[..i + 1][..i] == pending[..i];
        AddExecution(pending[i].execution, pending[i].occurrence, now, uuids(i));
        created := created + [pending[i].execution];
        i := i + 1;
      }
      assert pending[..i] == pending;
    }
  }
}

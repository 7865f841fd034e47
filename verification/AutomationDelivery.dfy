/**
  What a claim call does with every due item, said without its own loop: which items are handed out,
  which are settled, and which stay because their limits are reached.
 */
module AutomationDelivery {
  import opened Outcomes
  import opened AutomationModel
  import opened AutomationRules
  import opened AutomationStore
  import opened AutomationInvariant
  import opened AutomationProgress
  import opened AutomationPreservation
  import opened AutomationClaims

  /** One of the claims is for this item. */
  predicate IsClaimedBy(claims: seq<Claim>, key: WorkKey) {
    exists i :: 0 <= i < |claims| && claims[i].item == key
  }

  /** Executable work whose queue deadline has passed. */
  predicate IsOverdue(store: Store, key: WorkKey, now: Time) {
    && key.kind.Execute?
    && key.executionId in store.executions
    && store.executions[key.executionId].queueDeadline <= now
  }

  /** The executions that hold capacity once the first candidates are dealt with. */
  function AdmittedAfterFirst(start: Store, done: seq<WorkKey>, claims: seq<Claim>, now: Time): set<ExecutionId> {
    set id |
      && id in start.executions
      && (id in start.admitted || (KeyFor(id, Execute) in done && IsClaimedBy(claims, KeyFor(id, Execute))))
      && !(KeyFor(id, Execute) in done && IsOverdue(start, KeyFor(id, Execute), now))
  }

  /** The limits leave room for one more run of this execution beside these. */
  predicate HasRoom(start: Store, admitted: set<ExecutionId>, id: ExecutionId, globalConcurrency: int)
    requires id in start.executions
  {
    var execution := start.executions[id];
    && |Holders(start.executions, admitted, GlobalScope(execution.namespace))| < globalConcurrency
    && |Holders(start.executions, admitted, ExecutionScope(execution))| < execution.limits.maxConcurrentRuns
  }

  /** The queue deadline passed before anyone could start the execution. */
  function TimedOutAt(execution: Execution, now: Time): Execution {
    execution.(status := TimedOut, finishedAt := Some(now), failureCode := Some("automation.queue_timeout"),
               failureMessage := Some("Execution exceeded its queue deadline"), updatedAt := now)
  }

  predicate ExecutionsAfterFirst(start: Store, executions: map<ExecutionId, Execution>, done: seq<WorkKey>, now: Time) {
    && executions.Keys == start.executions.Keys
    && forall id :: id in executions ==>
         executions[id] ==
         if KeyFor(id, Execute) in done && IsOverdue(start, KeyFor(id, Execute), now) then TimedOutAt(start.executions[id], now)
         else start.executions[id]
  }

  /** Overdue items are completed, and every item neither overdue nor claimed stays as it was. */
  predicate ItemsAfterFirst(start: Store, work: map<WorkKey, WorkItem>, done: seq<WorkKey>, claims: seq<Claim>, now: Time) {
    && work.Keys == start.work.Keys
    && forall k :: k in work && !IsClaimedBy(claims, k) ==>
         work[k] == if k in done && IsOverdue(start, k, now) then start.work[k].Unowned(Completed) else start.work[k]
  }

  /** Every claim is a lease of the requesting worker, under the next fence, until the lease duration is over. */
  predicate AreLeases(
    start: Store, work: map<WorkKey, WorkItem>, done: seq<WorkKey>, claims: seq<Claim>, request: ClaimRequest, now: Time, tokens: nat -> Token)
  {
    && work.Keys == start.work.Keys
    && (forall i, j :: 0 <= i < j < |claims| ==> claims[i].item != claims[j].item)
    && forall i :: 0 <= i < |claims| ==>
         && claims[i].item in done && claims[i].item in start.work
         && var item, until := start.work[claims[i].item], now + request.leaseDuration;
         && claims[i] == Claim(claims[i].item, tokens(i), item.fence + 1, until)
         && work[claims[i].item] == LeasedItem(item, request, now, tokens(i))
  }

  /**
    A candidate is handed out exactly when it is not overdue and, if it is executable work, its
    execution holds capacity already or its limits have room at its turn.
   */
  predicate IsServed(start: Store, earlier: seq<WorkKey>, key: WorkKey, claims: seq<Claim>, request: ClaimRequest, now: Time)
    requires key.executionId in start.executions
  {
    var admitted := AdmittedAfterFirst(start, earlier, claims, now);
    IsClaimedBy(claims, key) <==>
      && !IsOverdue(start, key, now)
      && (key.kind.Execute? ==> key.executionId in admitted || HasRoom(start, admitted, key.executionId, request.globalConcurrency))
  }

  predicate AreServed(start: Store, done: seq<WorkKey>, claims: seq<Claim>, request: ClaimRequest, now: Time)
  {
    forall i :: 0 <= i < |done| ==> done[i].executionId in start.executions && IsServed(start, done[..i], done[i], claims, request, now)
  }

  /** Tasks, occurrences, the log and the limits are as they were. */
  predicate KeepsTheRest(before: Store, after: Store) {
    && after.limits == before.limits && after.closed == before.closed
    && after.tasks == before.tasks && after.occurrences == before.occurrences && after.operations == before.operations
  }

  /** The first candidates are dealt with and nothing else has happened. */
  predicate IsDelivered(start: Store, after: Claiming, done: seq<WorkKey>, request: ClaimRequest, now: Time, tokens: nat -> Token) {
    && ExecutionsAfterFirst(start, after.store.executions, done, now)
    && ItemsAfterFirst(start, after.store.work, done, after.claims, now)
    && AreLeases(start, after.store.work, done, after.claims, request, now, tokens)
    && after.store.admitted == AdmittedAfterFirst(start, done, after.claims, now)
    && KeepsTheRest(start, after.store)
    && AreServed(start, done, after.claims, request, now)
  }

  // ---------------------------------------------------------------- one candidate

  lemma CountersTellRoom(store: Store, id: ExecutionId, globalConcurrency: int)
    requires CountersCountHolders(store.executions, store.admitted, store.allocations) && id in store.executions
    ensures HasCapacity(store, store.executions[id], globalConcurrency) <==> HasRoom(store, store.admitted, id, globalConcurrency)
  {
    var execution := store.executions[id];
    assert Lookup(store.allocations, GlobalScope(execution.namespace), 0)
        == |Holders(store.executions, store.admitted, GlobalScope(execution.namespace))|;
    assert Lookup(store.allocations, ExecutionScope(execution), 0) == |Holders(store.executions, store.admitted, ExecutionScope(execution))|;
  }

  lemma CandidateRecord(store: Store, key: WorkKey)
    requires Inv(store) && key in store.work
    ensures
      var id := key.executionId;
      && id in store.executions && key == KeyFor(id, key.kind) && store.work[key].Key() == key && store.executions[id].id == id
      && Consistent(id, RecordOf(store, id)) && ItemOfKind(RecordOf(store, id), key.kind) == Some(store.work[key])
  {
    hide Consistent, CountersCountHolders, OccurrencesInStep, OccurrencesResolve;
    assert key == KeyFor(key.executionId, key.kind);
  }

  lemma CandidateDecided(store: Store, key: WorkKey, now: Time, globalConcurrency: int)
    requires Inv(store) && key in store.work && store.work[key].status.Pending?
    ensures
      var id := key.executionId;
      && id in store.executions && key == KeyFor(id, key.kind) && store.work[key].Key() == key && store.executions[id].id == id
      && ClaimCandidate(store.executions[id], key.kind, now)
         == (if IsOverdue(store, key, now) then Some(ExpireQueued(store.executions[id], now)) else None)
      && (IsRefusedAdmission(store, store.work[key], store.executions[id], globalConcurrency) <==>
          key.kind.Execute? && id !in store.admitted && !HasRoom(store, store.admitted, id, globalConcurrency))
  {
    var id := key.executionId;
    CandidateRecord(store, key);
    CountersTellRoom(store, id, globalConcurrency);
    hide Inv, HasCapacity, HasRoom;
    QueuedUnlessExpired(id, RecordOf(store, id), key.kind, now);
    hide Consistent;
  }

  lemma QueuedUnlessExpired(id: ExecutionId, record: Record, kind: WorkKind, now: Time)
    requires Consistent(id, record) && ItemOfKind(record, kind).Some? && ItemOfKind(record, kind).value.status.Pending?
    ensures ClaimCandidate(record.execution, kind, now) ==
            if kind.Execute? && record.execution.queueDeadline <= now then Some(ExpireQueued(record.execution, now)) else None
  {
  }

  /** The candidate's execution times out. */
  predicate TimesOut(current: Claiming, next: Claiming, now: Time, key: WorkKey)
    requires key in current.store.work && key.executionId in current.store.executions
  {
    var store, id := current.store, key.executionId;
    && next.claims == current.claims
    && next.store.executions == store.executions[id := TimedOutAt(store.executions[id], now)]
    && next.store.work == store.work[key := store.work[key].Unowned(Completed)]
    && next.store.admitted == store.admitted - {id}
    && KeepsTheRest(store, next.store)
  }

  /** The candidate is leased, and an execution whose work is executable holds capacity from then on. */
  predicate HandsOut(current: Claiming, next: Claiming, request: ClaimRequest, now: Time, token: Token, key: WorkKey)
    requires key in current.store.work
  {
    var store, item, until := current.store, current.store.work[key], now + request.leaseDuration;
    && next.claims == current.claims + [Claim(key, token, item.fence + 1, until)]
    && next.store.executions == store.executions
    && next.store.work == store.work[key := LeasedItem(item, request, now, token)]
    && next.store.admitted == (if key.kind.Execute? then store.admitted + {key.executionId} else store.admitted)
    && KeepsTheRest(store, next.store)
  }

  /** The execution is over, its item completed, and any capacity it held free. */
  lemma ReleasedCurrent(store: Store, execution: Execution, key: WorkKey)
    requires key in store.work
    ensures
      var after := Released(store, Transition(execution, CompleteCurrent, true, None), Some(key));
      && after.executions == store.executions[execution.id := execution]
      && after.work == store.work[key := store.work[key].Unowned(Completed)]
      && after.admitted == store.admitted - {execution.id}
      && KeepsTheRest(store, after)
  {
    hide Decremented, CompleteItems;
    CompletesCurrent(store.work, execution.id, key);
    assert execution.id !in store.admitted ==> store.admitted - {execution.id} == store.admitted;
  }

  lemma CompletesCurrent(work: map<WorkKey, WorkItem>, id: ExecutionId, key: WorkKey)
    requires key in work
    ensures CompleteItems(work, CompleteCurrent, id, Some(key)) == work[key := work[key].Unowned(Completed)]
  {
  }

  lemma OverdueSettles(current: Claiming, request: ClaimRequest, now: Time, token: Token, key: WorkKey)
    requires WellShaped(current.store) && key in current.store.work && key.executionId in current.store.executions
    requires current.store.executions[key.executionId].id == key.executionId
    requires ClaimCandidate(current.store.executions[key.executionId], key.kind, now)
          == Some(ExpireQueued(current.store.executions[key.executionId], now))
    ensures TimesOut(current, ClaimItem(current, request, now, token, key), now, key)
  {
    hide ClaimCandidate, OccurrencesResolve, ExecutionsNamed, TimedOutAt, ExpireQueued, Released;
    var store := current.store;
    assert store.work[key].Key() == key;
    ExpiredIsTimedOut(store.executions[key.executionId], now);
    ReleasedCurrent(store, TimedOutAt(store.executions[key.executionId], now), key);
  }

  lemma ExpiredIsTimedOut(execution: Execution, now: Time)
    ensures ExpireQueued(execution, now) == Transition(TimedOutAt(execution, now), CompleteCurrent, true, None)
    ensures TimedOutAt(execution, now).id == execution.id
  {
  }

  lemma LeaseHolds(current: Claiming, request: ClaimRequest, now: Time, token: Token, key: WorkKey)
    requires WellShaped(current.store) && key in current.store.work && key.executionId in current.store.executions
    requires current.store.executions[key.executionId].id == key.executionId
    requires ClaimCandidate(current.store.executions[key.executionId], key.kind, now) == None
    requires !IsRefusedAdmission(current.store, current.store.work[key], current.store.executions[key.executionId], request.globalConcurrency)
    ensures HandsOut(current, ClaimItem(current, request, now, token, key), request, now, token, key)
  {
    assert current.store.work[key].Key() == key;
    hide ClaimCandidate, OccurrencesResolve, ExecutionsNamed, IsRefusedAdmission;
  }

  lemma RefusalChangesNothing(current: Claiming, request: ClaimRequest, now: Time, token: Token, key: WorkKey)
    requires WellShaped(current.store) && key in current.store.work && key.executionId in current.store.executions
    requires ClaimCandidate(current.store.executions[key.executionId], key.kind, now) == None
    requires IsRefusedAdmission(current.store, current.store.work[key], current.store.executions[key.executionId], request.globalConcurrency)
    ensures ClaimItem(current, request, now, token, key) == current
  {
    assert current.store.work[key].Key() == key;
    hide ClaimCandidate, OccurrencesResolve, ExecutionsNamed, IsRefusedAdmission;
  }

  /** What one candidate makes of the store. */
  lemma OneCandidate(current: Claiming, request: ClaimRequest, now: Time, token: Token, key: WorkKey)
    requires Inv(current.store) && key in current.store.work && current.store.work[key].status.Pending?
    ensures
      var store, next, id := current.store, ClaimItem(current, request, now, token, key), key.executionId;
      && id in store.executions && key == KeyFor(id, key.kind)
      && if IsOverdue(store, key, now) then TimesOut(current, next, now, key)
         else if key.kind.Execute? && id !in store.admitted && !HasRoom(store, store.admitted, id, request.globalConcurrency) then
           next == current
         else HandsOut(current, next, request, now, token, key)
  {
    var store, id := current.store, key.executionId;
    CandidateDecided(store, key, now, request.globalConcurrency);
    assert WellShaped(store);
    hide Inv, WellShaped, ClaimCandidate, IsRefusedAdmission, HasRoom, IsOverdue, ExpireQueued, TimesOut, HandsOut, ClaimItem;
    if ClaimCandidate(store.executions[id], key.kind, now).Some? {
      OverdueSettles(current, request, now, token, key);
    } else if IsRefusedAdmission(store, store.work[key], store.executions[id], request.globalConcurrency) {
      RefusalChangesNothing(current, request, now, token, key);
    } else {
      LeaseHolds(current, request, now, token, key);
    }
  }

  // ---------------------------------------------------------------- the candidates one after another

  /** The candidates before the next one are dealt with; all of them are distinct pending items of the start. */
  predicate AreOrdered(start: Store, candidates: seq<WorkKey>) {
    && (forall i :: 0 <= i < |candidates| ==> candidates[i] in start.work && start.work[candidates[i]].status.Pending?)
    && (forall i, j :: 0 <= i < j < |candidates| ==> candidates[i] != candidates[j])
  }

  lemma ClaimedMore(claims: seq<Claim>, claim: Claim, key: WorkKey)
    ensures IsClaimedBy(claims + [claim], key) <==> IsClaimedBy(claims, key) || claim.item == key
  {
    var more := claims + [claim];
    if i :| 0 <= i < |claims| && claims[i].item == key {
      assert more[i].item == key;
    }
    assert more[|claims|] == claim;
  }

  /** A claim for an item outside of these does not change who holds capacity after them. */
  lemma LaterClaimAdmitsNoneOfThese(start: Store, done: seq<WorkKey>, claims: seq<Claim>, claim: Claim, now: Time)
    requires claim.item !in done
    ensures AdmittedAfterFirst(start, done, claims + [claim], now) == AdmittedAfterFirst(start, done, claims, now)
  {
    forall id: ExecutionId | KeyFor(id, Execute) in done
      ensures IsClaimedBy(claims + [claim], KeyFor(id, Execute)) <==> IsClaimedBy(claims, KeyFor(id, Execute))
    {
      ClaimedMore(claims, claim, KeyFor(id, Execute));
    }
    hide IsClaimedBy, IsOverdue;
  }

  /** Who holds capacity after one more candidate. */
  lemma AdmittedAfterOneMore(start: Store, done: seq<WorkKey>, key: WorkKey, claims: seq<Claim>, now: Time)
    requires key !in done && key == KeyFor(key.executionId, key.kind) && key.executionId in start.executions
    ensures
      var id, before, after := key.executionId, AdmittedAfterFirst(start, done, claims, now), AdmittedAfterFirst(start, done + [key], claims, now);
      after == if !key.kind.Execute? then before
               else if IsOverdue(start, key, now) then before - {id}
               else if IsClaimedBy(claims, key) then before + {id}
               else before
  {
    hide IsClaimedBy, IsOverdue;
    assert forall id: ExecutionId :: KeyFor(id, Execute) in done + [key] <==> KeyFor(id, Execute) in done || (key.kind.Execute? && id == key.executionId);
  }

  lemma ExecutionsAfterOneMore(
    start: Store, before: map<ExecutionId, Execution>, after: map<ExecutionId, Execution>, done: seq<WorkKey>, key: WorkKey, now: Time)
    requires ExecutionsAfterFirst(start, before, done, now)
    requires key !in done && key == KeyFor(key.executionId, key.kind) && key.executionId in start.executions
    requires after == if IsOverdue(start, key, now) then before[key.executionId := TimedOutAt(before[key.executionId], now)] else before
    ensures ExecutionsAfterFirst(start, after, done + [key], now)
  {
    hide TimedOutAt;
    assert forall id: ExecutionId :: KeyFor(id, Execute) in done + [key] <==> KeyFor(id, Execute) in done || (key.kind.Execute? && id == key.executionId);
  }

  /** An item that is overdue or stays as it is. */
  lemma ItemsAfterOneMore(
    start: Store, before: map<WorkKey, WorkItem>, after: map<WorkKey, WorkItem>, done: seq<WorkKey>, key: WorkKey, claims: seq<Claim>, now: Time)
    requires ItemsAfterFirst(start, before, done, claims, now) && key in start.work && key !in done && !IsClaimedBy(claims, key)
    requires after == if IsOverdue(start, key, now) then before[key := before[key].Unowned(Completed)] else before
    ensures ItemsAfterFirst(start, after, done + [key], claims, now)
  {
    hide IsClaimedBy, IsOverdue;
    assert forall k :: k in done + [key] <==> k in done || k == key;
  }

  /** An item that is claimed. */
  lemma ItemsAfterOneClaim(
    start: Store, before: map<WorkKey, WorkItem>, item: WorkItem, done: seq<WorkKey>, claims: seq<Claim>, claim: Claim, now: Time)
    requires ItemsAfterFirst(start, before, done, claims, now) && claim.item in start.work && claim.item !in done
    ensures ItemsAfterFirst(start, before[claim.item := item], done + [claim.item], claims + [claim], now)
  {
    forall k ensures IsClaimedBy(claims + [claim], k) <==> IsClaimedBy(claims, k) || claim.item == k {
      ClaimedMore(claims, claim, k);
    }
    hide IsClaimedBy, IsOverdue;
    assert forall k :: k in done + [claim.item] <==> k in done || k == claim.item;
  }

  lemma LeasesAfterOneMore(
    start: Store, before: map<WorkKey, WorkItem>, after: map<WorkKey, WorkItem>, done: seq<WorkKey>, key: WorkKey, claims: seq<Claim>,
    request: ClaimRequest, now: Time, tokens: nat -> Token)
    requires AreLeases(start, before, done, claims, request, now, tokens)
    requires key in start.work && key !in done && after.Keys == before.Keys && forall k :: k in before && k != key ==> after[k] == before[k]
    ensures AreLeases(start, after, done + [key], claims, request, now, tokens)
  {
  }

  lemma LeasesAfterOneClaim(
    start: Store, before: map<WorkKey, WorkItem>, done: seq<WorkKey>, key: WorkKey, claims: seq<Claim>,
    request: ClaimRequest, now: Time, tokens: nat -> Token)
    requires AreLeases(start, before, done, claims, request, now, tokens) && key in start.work && key !in done
    ensures
      var item, until, token := start.work[key], now + request.leaseDuration, tokens(|claims|);
      AreLeases(start, before[key := LeasedItem(item, request, now, token)], done + [key], claims + [Claim(key, token, item.fence + 1, until)], request, now, tokens)
  {
  }

  /** Earlier candidates stay served, and the next one is by what was decided at its turn. */
  lemma ServedAfterOneMore(
    start: Store, done: seq<WorkKey>, key: WorkKey, claims: seq<Claim>, more: seq<Claim>, request: ClaimRequest, now: Time)
    requires AreServed(start, done, claims, request, now) && key !in done && key.executionId in start.executions
    requires AreDistinct(done)
    requires more == claims || (|more| == |claims| + 1 && more == claims + [more[|claims|]] && more[|claims|].item == key)
    requires IsServed(start, done, key, more, request, now)
    ensures AreServed(start, done + [key], more, request, now)
  {
    var all := done + [key];
    forall i | 0 <= i < |all| ensures all[i].executionId in start.executions && IsServed(start, all[..i], all[i], more, request, now) {
      assert all[..i] == done[..i];
      if i == |done| {
        assert done[..i] == done;
      } else {
        assert IsServed(start, done[..i], done[i], claims, request, now);
        if more != claims {
          LaterClaimAdmitsNoneOfThese(start, done[..i], claims, more[|claims|], now);
          ClaimedMore(claims, more[|claims|], done[i]);
        }
      }
    }
  }

  /** The limits are read from fields that no candidate changes. */
  lemma SameRoom(start: Store, current: Store, done: seq<WorkKey>, admitted: set<ExecutionId>, id: ExecutionId, globalConcurrency: int, now: Time)
    requires ExecutionsAfterFirst(start, current.executions, done, now) && id in start.executions
    ensures HasRoom(current, admitted, id, globalConcurrency) <==> HasRoom(start, admitted, id, globalConcurrency)
  {
    var execution := start.executions[id];
    SameHolders(start, current, done, admitted, GlobalScope(execution.namespace), now);
    SameHolders(start, current, done, admitted, ExecutionScope(execution), now);
    hide Holders, IsOverdue;
  }

  lemma SameHolders(start: Store, current: Store, done: seq<WorkKey>, admitted: set<ExecutionId>, scope: Scope, now: Time)
    requires ExecutionsAfterFirst(start, current.executions, done, now)
    ensures Holders(current.executions, admitted, scope) == Holders(start.executions, admitted, scope)
  {
    hide IsOverdue;
  }

  predicate AreDistinct(keys: seq<WorkKey>) {
    forall i, j :: 0 <= i < j < |keys| ==> keys[i] != keys[j]
  }

  /** A candidate not yet dealt with. */
  predicate IsNext(start: Store, current: Claiming, done: seq<WorkKey>, key: WorkKey) {
    && AreDistinct(done) && key !in done
    && key in start.work && key in current.store.work && current.store.work[key] == start.work[key]
    && !IsClaimedBy(current.claims, key)
    && key == KeyFor(key.executionId, key.kind) && key.executionId in start.executions && key.executionId in current.store.executions
  }

  /** The next candidate, as it was at the start. */
  lemma NextIsUntouched(start: Store, current: Claiming, done: seq<WorkKey>, key: WorkKey, request: ClaimRequest, now: Time, tokens: nat -> Token)
    requires IsDelivered(start, current, done, request, now, tokens) && Inv(current.store)
    requires key in start.work && key !in done && AreDistinct(done)
    ensures IsNext(start, current, done, key)
    ensures IsOverdue(current.store, key, now) == IsOverdue(start, key, now)
    ensures HasRoom(current.store, current.store.admitted, key.executionId, request.globalConcurrency)
         == HasRoom(start, current.store.admitted, key.executionId, request.globalConcurrency)
  {
    hide AreServed, HasRoom, AdmittedAfterFirst, Inv, Consistent, AreDistinct, ExecutionsAfterFirst;
    CandidateRecord(current.store, key);
    SameQueueDeadline(start, current.store.executions, done, key.executionId, now);
    SameRoom(start, current.store, done, current.store.admitted, key.executionId, request.globalConcurrency, now);
  }

  lemma SameQueueDeadline(start: Store, executions: map<ExecutionId, Execution>, done: seq<WorkKey>, id: ExecutionId, now: Time)
    requires ExecutionsAfterFirst(start, executions, done, now) && id in executions
    ensures id in start.executions && executions[id].queueDeadline == start.executions[id].queueDeadline
  {
    hide IsOverdue;
  }

  lemma DeliversOverdue(
    start: Store, current: Claiming, next: Claiming, done: seq<WorkKey>, key: WorkKey, request: ClaimRequest, now: Time, tokens: nat -> Token)
    requires IsDelivered(start, current, done, request, now, tokens) && IsNext(start, current, done, key)
    requires IsOverdue(start, key, now) && TimesOut(current, next, now, key)
    ensures IsDelivered(start, next, done + [key], request, now, tokens)
  {
    hide IsOverdue, HasRoom, IsClaimedBy, TimedOutAt, ExecutionsAfterFirst, ItemsAfterFirst, AreLeases, AreServed, AdmittedAfterFirst, AreDistinct;
    ExecutionsAfterOneMore(start, current.store.executions, next.store.executions, done, key, now);
    ItemsAfterOneMore(start, current.store.work, next.store.work, done, key, current.claims, now);
    LeasesAfterOneMore(start, current.store.work, next.store.work, done, key, current.claims, request, now, tokens);
    AdmittedAfterOneMore(start, done, key, next.claims, now);
    OverdueIsExecute(start, key, now);
    ServedAfterOneMore(start, done, key, current.claims, next.claims, request, now);
  }

  lemma OverdueIsExecute(start: Store, key: WorkKey, now: Time)
    requires IsOverdue(start, key, now)
    ensures key.kind.Execute?
  {
  }

  lemma DeliversRefused(
    start: Store, current: Claiming, done: seq<WorkKey>, key: WorkKey, request: ClaimRequest, now: Time, tokens: nat -> Token)
    requires IsDelivered(start, current, done, request, now, tokens) && IsNext(start, current, done, key)
    requires !IsOverdue(start, key, now) && key.kind.Execute? && key.executionId !in current.store.admitted
    requires !HasRoom(start, current.store.admitted, key.executionId, request.globalConcurrency)
    ensures IsDelivered(start, current, done + [key], request, now, tokens)
  {
    hide IsOverdue, HasRoom, IsClaimedBy, TimedOutAt, ExecutionsAfterFirst, ItemsAfterFirst, AreLeases, AreServed, AdmittedAfterFirst, AreDistinct;
    ExecutionsAfterOneMore(start, current.store.executions, current.store.executions, done, key, now);
    ItemsAfterOneMore(start, current.store.work, current.store.work, done, key, current.claims, now);
    LeasesAfterOneMore(start, current.store.work, current.store.work, done, key, current.claims, request, now, tokens);
    AdmittedAfterOneMore(start, done, key, current.claims, now);
    ServedAfterOneMore(start, done, key, current.claims, current.claims, request, now);
  }

  lemma DeliversClaim(
    start: Store, current: Claiming, next: Claiming, done: seq<WorkKey>, key: WorkKey, request: ClaimRequest, now: Time, tokens: nat -> Token)
    requires IsDelivered(start, current, done, request, now, tokens) && IsNext(start, current, done, key)
    requires !IsOverdue(start, key, now) && HandsOut(current, next, request, now, tokens(|current.claims|), key)
    requires key.kind.Execute? ==>
               key.executionId in current.store.admitted || HasRoom(start, current.store.admitted, key.executionId, request.globalConcurrency)
    ensures IsDelivered(start, next, done + [key], request, now, tokens)
  {
    hide IsOverdue, HasRoom, IsClaimedBy, LeasedItem, ExecutionsAfterFirst, ItemsAfterFirst, AreLeases, AreServed, AdmittedAfterFirst, AreDistinct;
    ClaimKeepsRecords(start, current, next, done, key, request, now, tokens);
    var claim := Claim(key, tokens(|current.claims|), start.work[key].fence + 1, now + request.leaseDuration);
    assert next.claims == current.claims + [claim];
    ClaimServes(start, done, key, current.claims, claim, request, now);
  }

  lemma ClaimKeepsRecords(
    start: Store, current: Claiming, next: Claiming, done: seq<WorkKey>, key: WorkKey, request: ClaimRequest, now: Time, tokens: nat -> Token)
    requires IsDelivered(start, current, done, request, now, tokens) && IsNext(start, current, done, key)
    requires !IsOverdue(start, key, now) && HandsOut(current, next, request, now, tokens(|current.claims|), key)
    ensures ExecutionsAfterFirst(start, next.store.executions, done + [key], now)
    ensures ItemsAfterFirst(start, next.store.work, done + [key], next.claims, now)
    ensures AreLeases(start, next.store.work, done + [key], next.claims, request, now, tokens)
  {
    var token := tokens(|current.claims|);
    var claim := Claim(key, token, start.work[key].fence + 1, now + request.leaseDuration);
    hide IsOverdue, IsClaimedBy, LeasedItem, ExecutionsAfterFirst, ItemsAfterFirst, AreLeases, AreServed, AdmittedAfterFirst, AreDistinct;
    ExecutionsAfterOneMore(start, current.store.executions, next.store.executions, done, key, now);
    ItemsAfterOneClaim(start, current.store.work, LeasedItem(start.work[key], request, now, token), done, current.claims, claim, now);
    LeasesAfterOneClaim(start, current.store.work, done, key, current.claims, request, now, tokens);
  }

  /** The admitted set and the service of a candidate that is claimed. */
  lemma ClaimServes(start: Store, done: seq<WorkKey>, key: WorkKey, claims: seq<Claim>, claim: Claim, request: ClaimRequest, now: Time)
    requires AreServed(start, done, claims, request, now) && AreDistinct(done) && key !in done && claim.item == key
    requires key == KeyFor(key.executionId, key.kind) && key.executionId in start.executions && !IsOverdue(start, key, now)
    requires var admitted := AdmittedAfterFirst(start, done, claims, now);
             key.kind.Execute? ==> key.executionId in admitted || HasRoom(start, admitted, key.executionId, request.globalConcurrency)
    ensures AreServed(start, done + [key], claims + [claim], request, now)
    ensures
      var admitted := AdmittedAfterFirst(start, done, claims, now);
      AdmittedAfterFirst(start, done + [key], claims + [claim], now) == if key.kind.Execute? then admitted + {key.executionId} else admitted
  {
    hide IsOverdue, HasRoom, IsClaimedBy, AreServed, AdmittedAfterFirst, AreDistinct;
    LaterClaimAdmitsNoneOfThese(start, done, claims, claim, now);
    ClaimedMore(claims, claim, key);
    AdmittedAfterOneMore(start, done, key, claims + [claim], now);
    ServedAfterOneMore(start, done, key, claims, claims + [claim], request, now);
  }

  lemma DeliversOneMore(
    start: Store, current: Claiming, done: seq<WorkKey>, key: WorkKey, request: ClaimRequest, now: Time, tokens: nat -> Token)
    requires IsDelivered(start, current, done, request, now, tokens) && Inv(current.store) && AreOrdered(start, done + [key])
    requires key in current.store.work
    ensures IsDelivered(start, ClaimItem(current, request, now, tokens(|current.claims|), key), done + [key], request, now, tokens)
  {
    var token, id := tokens(|current.claims|), key.executionId;
    assert (done + [key])[|done|] == key && key in start.work && start.work[key].status.Pending?;
    assert forall i :: 0 <= i < |done| ==> (done + [key])[i] == done[i];
    assert key !in done && AreDistinct(done);
    NextIsUntouched(start, current, done, key, request, now, tokens);
    OneCandidate(current, request, now, token, key);
    var next := ClaimItem(current, request, now, token, key);
    hide Inv, ClaimItem, IsOverdue, HasRoom, IsClaimedBy, IsDelivered, TimesOut, HandsOut, AreDistinct, AreOrdered;
    if IsOverdue(start, key, now) {
      DeliversOverdue(start, current, next, done, key, request, now, tokens);
    } else if key.kind.Execute? && id !in current.store.admitted && !HasRoom(start, current.store.admitted, id, request.globalConcurrency) {
      DeliversRefused(start, current, done, key, request, now, tokens);
    } else {
      DeliversClaim(start, current, next, done, key, request, now, tokens);
    }
  }

  // ---------------------------------------------------------------- the whole call

  /** All candidates are dealt with, or the last one dealt with took the last claim. */
  predicate StopsAt(candidates: seq<WorkKey>, n: nat, claims: seq<Claim>, limit: int) {
    && n <= |candidates| && |claims| <= limit
    && if |claims| < limit then n == |candidates| else claims != [] && n > 0 && candidates[n - 1] == claims[|claims| - 1].item
  }

  /** The loop may go on from here: the first candidates are dealt with, the rest are waiting. */
  ghost predicate IsUnderWay(
    start: Store, current: Claiming, candidates: seq<WorkKey>, i: nat, request: ClaimRequest, now: Time, tokens: nat -> Token)
  {
    && i <= |candidates| && AreOrdered(start, candidates)
    && Inv(current.store) && AreCandidates(current.store, candidates[i..])
    && IsDelivered(start, current, candidates[..i], request, now, tokens)
    && (|current.claims| < request.limit || StopsAt(candidates, i, current.claims, request.limit))
  }

  lemma CanGoOn(start: Store, current: Claiming, candidates: seq<WorkKey>, i: nat, request: ClaimRequest, now: Time, tokens: nat -> Token)
    requires IsUnderWay(start, current, candidates, i, request, now, tokens)
    ensures WellShaped(current.store) && forall j :: 0 <= j < |candidates[i..]| ==> candidates[i..][j] in current.store.work
  {
    hide IsDelivered, AreOrdered, StopsAt;
  }

  lemma OneRound(start: Store, current: Claiming, candidates: seq<WorkKey>, i: nat, request: ClaimRequest, now: Time, tokens: nat -> Token)
    requires IsUnderWay(start, current, candidates, i, request, now, tokens) && i < |candidates| && |current.claims| < request.limit
    requires WellShaped(current.store) && candidates[i] in current.store.work
    ensures IsUnderWay(start, ClaimItem(current, request, now, tokens(|current.claims|), candidates[i]), candidates, i + 1, request, now, tokens)
  {
    hide Inv, Evolves, ClaimItem, IsDelivered, AreOrdered, WellShaped, StopsAt, AreCandidates;
    var token, rest := tokens(|current.claims|), candidates[i..];
    assert rest[0] == candidates[i] && rest[1..] == candidates[i + 1..] && candidates[..i] + [candidates[i]] == candidates[..i + 1];
    FirstAreOrdered(start, candidates, i + 1);
    RestIsPending(current.store, rest);
    DeliversOneMore(start, current, candidates[..i], candidates[i], request, now, tokens);
    ClaimItemPreserves(current, request, now, token, candidates[i]);
    ClaimItemShape(current, request, now, token, candidates[i]);
    RemainingCandidates(current, request, now, token, rest);
    StopsAfterLastClaim(current, request, now, token, candidates, i);
  }

  lemma RestIsPending(store: Store, rest: seq<WorkKey>)
    requires AreCandidates(store, rest) && rest != []
    ensures rest[0] in store.work && store.work[rest[0]].status.Pending?
  {
  }

  /** The loop deals with the candidates in order until the limit is reached; `n` of them are dealt with. */
  lemma {:induction false} LoopDelivers(
    start: Store, current: Claiming, candidates: seq<WorkKey>, i: nat, request: ClaimRequest, now: Time, tokens: nat -> Token,
    after: Claiming) returns (n: nat)
    requires IsUnderWay(start, current, candidates, i, request, now, tokens)
    requires WellShaped(current.store) && forall j :: 0 <= j < |candidates[i..]| ==> candidates[i..][j] in current.store.work
    requires after == ClaimItems(current, request, now, tokens, candidates[i..])
    ensures n <= |candidates| && StopsAt(candidates, n, after.claims, request.limit)
    ensures IsDelivered(start, after, candidates[..n], request, now, tokens)
    decreases |candidates| - i
  {
    if i == |candidates| || |current.claims| >= request.limit {
      hide Inv, IsDelivered, WellShaped, AreOrdered, AreCandidates;
      AllDealtWith(candidates, i, current.claims, request.limit);
      return i;
    }
    hide IsUnderWay, ClaimItem, WellShaped, IsDelivered, StopsAt;
    var next := ClaimItem(current, request, now, tokens(|current.claims|), candidates[i]);
    assert candidates[i..][0] == candidates[i] && candidates[i..][1..] == candidates[i + 1..];
    OneRound(start, current, candidates, i, request, now, tokens);
    CanGoOn(start, next, candidates, i + 1, request, now, tokens);
    n := LoopDelivers(start, next, candidates, i + 1, request, now, tokens, after);
  }

  lemma AllDealtWith(candidates: seq<WorkKey>, i: nat, claims: seq<Claim>, limit: int)
    requires i == |candidates| || |claims| >= limit
    requires |claims| < limit || StopsAt(candidates, i, claims, limit)
    ensures StopsAt(candidates, i, claims, limit)
  {
  }

  lemma StopsAfterLastClaim(current: Claiming, request: ClaimRequest, now: Time, token: Token, candidates: seq<WorkKey>, i: nat)
    requires WellShaped(current.store) && i < |candidates| && candidates[i] in current.store.work && |current.claims| < request.limit
    ensures
      var next := ClaimItem(current, request, now, token, candidates[i]);
      |next.claims| < request.limit || StopsAt(candidates, i + 1, next.claims, request.limit)
  {
    hide WellShaped, ClaimItem, Fences, OffersQueuedWork;
    ClaimItemIssues(current, request, now, token, candidates[i]);
  }

  lemma FirstAreOrdered(start: Store, candidates: seq<WorkKey>, n: nat)
    requires AreOrdered(start, candidates) && n <= |candidates|
    ensures AreOrdered(start, candidates[..n])
  {
  }

  lemma NothingDelivered(start: Store, request: ClaimRequest, now: Time, tokens: nat -> Token)
    requires start.admitted <= start.executions.Keys
    ensures IsDelivered(start, Claiming(start, []), [], request, now, tokens)
  {
  }

  /**
    A claim call, after recovery: the candidates are dealt with in claim order until the limit is
    reached. Each one dealt with is handed out exactly when it is not overdue and, if it is executable
    work, its execution held capacity already or its limits had room at its turn; overdue executions
    time out; everything else stays as it was.
   */
  lemma ClaimWorkDelivers(store: Store, request: ClaimRequest, now: Time, tokens: nat -> Token, candidates: seq<WorkKey>) returns (n: nat)
    requires Inv(store) && IsClaimOrder(RecoverClaims(store, request.namespace, now).work, request.namespace, now, candidates)
    requires request.limit >= 1 && request.leaseDuration > 0 && request.globalConcurrency >= 1 && !store.closed
    ensures
      var result := ClaimWork(store, request, now, tokens, candidates);
      && result.outcome.Ok?
      && StopsAt(candidates, n, result.outcome.value, request.limit)
      && IsDelivered(RecoverClaims(store, request.namespace, now), Claiming(result.store, result.outcome.value), candidates[..n], request, now, tokens)
  {
    RecoveryIsUnderWay(store, request, now, tokens, candidates);
    var recovered := RecoverClaims(store, request.namespace, now);
    hide Inv, RecoverClaims, IsClaimOrder, IsDelivered, StopsAt, IsUnderWay, ClaimItems, WellShaped;
    CanGoOn(recovered, Claiming(recovered, []), candidates, 0, request, now, tokens);
    assert candidates[0..] == candidates;
    n := LoopDelivers(recovered, Claiming(recovered, []), candidates, 0, request, now, tokens,
                      ClaimItems(Claiming(recovered, []), request, now, tokens, candidates));
  }

  lemma RecoveryIsUnderWay(store: Store, request: ClaimRequest, now: Time, tokens: nat -> Token, candidates: seq<WorkKey>)
    requires Inv(store) && IsClaimOrder(RecoverClaims(store, request.namespace, now).work, request.namespace, now, candidates)
    requires request.limit >= 1
    ensures
      var recovered := RecoverClaims(store, request.namespace, now);
      IsUnderWay(recovered, Claiming(recovered, []), candidates, 0, request, now, tokens)
  {
    assert WellShaped(store);
    RecoverClaimsPreserves(store, request.namespace, now);
    RecoveryKeepsShape(store, request.namespace, now);
    RecoveredCandidates(store, request.namespace, now, candidates);
    var recovered := RecoverClaims(store, request.namespace, now);
    assert recovered.admitted <= recovered.executions.Keys;
    hide Inv, Evolves, WellShaped, RecoverClaims, IsClaimOrder, IsDelivered, StopsAt;
    NothingDelivered(recovered, request, now, tokens);
    assert candidates[..0] == [] && candidates[0..] == candidates;
  }

  // ---------------------------------------------------------------- recovery

  /** The claim of this item ran out. */
  predicate RanOut(item: WorkItem, namespace: string, now: Time) {
    item.namespace == namespace && item.status.Claimed? && item.leaseUntil.Some? && item.leaseUntil.value <= now
  }

  /**
    Before anything is handed out, every claim of the namespace that ran out is taken back: work whose
    start was authorized is over and its execution needs attention, all other work is available again.
   */
  lemma RanOutClaimsAreTakenBack(store: Store, namespace: string, now: Time, key: WorkKey)
    requires Inv(store) && key in store.work
    ensures
      var after, item, id := RecoverClaims(store, namespace, now), store.work[key], key.executionId;
      && key in after.work && id in store.executions && id in after.executions
      && after.admitted == store.admitted && after.allocations == store.allocations
      && var lost := key.kind.Execute? && store.executions[id].startAuthorizedAt.Some?;
      && after.work[key] == (if RanOut(item, namespace, now) then TakenBack(item, lost) else item)
      && (key.kind.Execute? ==>
            after.executions[id] == if lost && RanOut(item, namespace, now) then Lost(store.executions[id], now) else store.executions[id])
  {
    hide CountersCountHolders, RecordsConsistent, OccurrencesInStep, Consistent, OccurrencesResolve;
    CandidateRecord(store, key);
    assert key == KeyFor(key.executionId, key.kind);
  }

  /** The item without its owner: over, or available again. */
  function TakenBack(item: WorkItem, lost: bool): WorkItem {
    item.(status := if lost then Completed else Pending, workerId := None, claimToken := None, leaseUntil := None)
  }

  function Lost(execution: Execution, now: Time): Execution {
    execution.(status := NeedsAttention, failureCode := Some("automation.claim_lost_after_start"),
               failureMessage := Some("Execution ownership expired after start"), updatedAt := now)
  }

  // ---------------------------------------------------------------- due work in the new store

  /** A due item is handed out, is over because its queue deadline passed, or is executable work without room. */
  predicate IsAccountedFor(start: Store, after: Store, claims: seq<Claim>, key: WorkKey, request: ClaimRequest, now: Time) {
    && AreKnown(start, after, key)
    && var id, execution := key.executionId, after.executions[key.executionId];
    || IsHandedOut(start, after, claims, key, request, now)
    || (&& key.kind.Execute? && start.executions[id].queueDeadline <= now
        && execution == TimedOutAt(start.executions[id], now)
        && after.work[key].status.Completed? && id !in after.admitted)
    || (&& key.kind.Execute? && start.executions[id].queueDeadline > now
        && after.work[key] == start.work[key] && execution == start.executions[id] && id !in after.admitted
        && (|| Lookup(after.allocations, GlobalScope(execution.namespace), 0) >= request.globalConcurrency
            || Lookup(after.allocations, ExecutionScope(execution), 0) >= execution.limits.maxConcurrentRuns))
  }

  predicate AreKnown(start: Store, after: Store, key: WorkKey) {
    key in start.work && key in after.work && key.executionId in start.executions && key.executionId in after.executions
  }

  predicate IsHandedOut(start: Store, after: Store, claims: seq<Claim>, key: WorkKey, request: ClaimRequest, now: Time)
    requires AreKnown(start, after, key)
  {
    && (exists i :: 0 <= i < |claims| && claims[i].item == key && after.work[key].claimToken == Some(claims[i].claimToken))
    && after.work[key].status.Claimed?
    && after.work[key].workerId == Some(request.workerId)
    && after.work[key].leaseUntil == Some(now + request.leaseDuration)
    && after.work[key].fence == start.work[key].fence + 1
    && after.executions[key.executionId] == start.executions[key.executionId]
    && (key.kind.Execute? ==> key.executionId in after.admitted)
  }

  /** Only an execution that held capacity and is overdue gives capacity back during the call. */
  predicate GivesBack(start: Store, key: WorkKey, now: Time) {
    IsOverdue(start, key, now) && key.executionId in start.admitted
  }

  predicate NothingGivenBackAfter(start: Store, candidates: seq<WorkKey>, i: nat, n: nat, now: Time)
    requires n <= |candidates|
  {
    forall j :: i < j < n ==> !GivesBack(start, candidates[j], now)
  }

  /** Capacity held at a candidate's turn is held until the end unless someone gives it back later. */
  lemma HeldUntilTheEnd(start: Store, candidates: seq<WorkKey>, i: nat, n: nat, claims: seq<Claim>, now: Time)
    requires AreOrdered(start, candidates) && i < n <= |candidates| && NothingGivenBackAfter(start, candidates, i, n, now)
    requires !IsOverdue(start, candidates[i], now)
    ensures AdmittedAfterFirst(start, candidates[..i], claims, now) <= AdmittedAfterFirst(start, candidates[..n], claims, now)
  {
    forall id | id in AdmittedAfterFirst(start, candidates[..i], claims, now) ensures id in AdmittedAfterFirst(start, candidates[..n], claims, now) {
      var key := KeyFor(id, Execute);
      if key in candidates[..i] {
        var k :| 0 <= k < i && candidates[..i][k] == key;
        assert candidates[..n][k] == key;
      }
    }
  }

  /** An execution whose only executable item is neither claimed nor in possession of capacity at its turn has none at the end. */
  lemma NeverAdmitted(start: Store, candidates: seq<WorkKey>, i: nat, n: nat, claims: seq<Claim>, now: Time)
    requires i < n <= |candidates| && !IsOverdue(start, candidates[i], now) && !IsClaimedBy(claims, candidates[i])
    requires candidates[i] == KeyFor(candidates[i].executionId, Execute) && AreDistinct(candidates)
    requires candidates[i].executionId !in AdmittedAfterFirst(start, candidates[..i], claims, now)
    requires candidates[i].executionId in start.executions
    ensures candidates[i].executionId !in AdmittedAfterFirst(start, candidates[..n], claims, now)
  {
    assert candidates[i] !in candidates[..i];
    hide IsClaimedBy, IsOverdue;
  }

  /** Counters never understate the holders among any of the admitted. */
  lemma CountersReach(store: Store, start: Store, done: seq<WorkKey>, admitted: set<ExecutionId>, scope: Scope, now: Time)
    requires CountersCountHolders(store.executions, store.admitted, store.allocations)
    requires ExecutionsAfterFirst(start, store.executions, done, now) && admitted <= store.admitted
    ensures Lookup(store.allocations, scope, 0) >= |Holders(start.executions, admitted, scope)|
  {
    SameHolders(start, store, done, admitted, scope, now);
    var all, some := Holders(store.executions, store.admitted, scope), Holders(store.executions, admitted, scope);
    assert some <= all;
    Outnumbered(some, all);
  }

  lemma Outnumbered<T>(a: set<T>, b: set<T>)
    requires a <= b
    ensures |a| <= |b|
  {
    assert |b - a| == |b| - |a|;
  }

  /** An item that was claimed, in the new store. */
  lemma ClaimedIsHandedOut(start: Store, after: Claiming, done: seq<WorkKey>, key: WorkKey, request: ClaimRequest, now: Time, tokens: nat -> Token)
    requires AreLeases(start, after.store.work, done, after.claims, request, now, tokens) && IsClaimedBy(after.claims, key)
    requires ExecutionsAfterFirst(start, after.store.executions, done, now) && !IsOverdue(start, key, now)
    requires key in start.work && key == KeyFor(key.executionId, key.kind) && key.executionId in start.executions && key in done
    requires after.store.admitted == AdmittedAfterFirst(start, done, after.claims, now)
    requires key.kind.ExpireInterrupt? ==> KeyFor(key.executionId, Execute) !in done
    ensures IsAccountedFor(start, after.store, after.claims, key, request, now)
  {
    var i :| 0 <= i < |after.claims| && after.claims[i].item == key;
    hide IsOverdue;
    assert after.store.work[key] == LeasedItem(start.work[key], request, now, tokens(i)) && after.claims[i].claimToken == tokens(i);
  }

  /** An overdue item, in the new store. */
  lemma OverdueIsOver(start: Store, after: Claiming, done: seq<WorkKey>, key: WorkKey, request: ClaimRequest, now: Time)
    requires ItemsAfterFirst(start, after.store.work, done, after.claims, now) && !IsClaimedBy(after.claims, key)
    requires ExecutionsAfterFirst(start, after.store.executions, done, now) && IsOverdue(start, key, now)
    requires key in start.work && key == KeyFor(key.executionId, Execute) && key in done
    requires after.store.admitted == AdmittedAfterFirst(start, done, after.claims, now)
    ensures IsAccountedFor(start, after.store, after.claims, key, request, now)
  {
    hide IsHandedOut, IsClaimedBy;
  }

  /** An item that stays, in the new store. */
  lemma OtherwiseThereIsNoRoom(
    start: Store, after: Claiming, candidates: seq<WorkKey>, i: nat, n: nat, request: ClaimRequest, now: Time)
    requires CountersCountHolders(after.store.executions, after.store.admitted, after.store.allocations)
    requires AreOrdered(start, candidates) && AreDistinct(candidates) && i < n <= |candidates| && NothingGivenBackAfter(start, candidates, i, n, now)
    requires ItemsAfterFirst(start, after.store.work, candidates[..n], after.claims, now)
    requires ExecutionsAfterFirst(start, after.store.executions, candidates[..n], now)
    requires after.store.admitted == AdmittedAfterFirst(start, candidates[..n], after.claims, now)
    requires candidates[i] in start.work && candidates[i] == KeyFor(candidates[i].executionId, Execute) && candidates[i].executionId in start.executions
    requires !IsClaimedBy(after.claims, candidates[i]) && !IsOverdue(start, candidates[i], now)
    requires candidates[i].executionId !in AdmittedAfterFirst(start, candidates[..i], after.claims, now)
    requires !HasRoom(start, AdmittedAfterFirst(start, candidates[..i], after.claims, now), candidates[i].executionId, request.globalConcurrency)
    ensures IsAccountedFor(start, after.store, after.claims, candidates[i], request, now)
  {
    var key, id, admitted := candidates[i], candidates[i].executionId, AdmittedAfterFirst(start, candidates[..i], after.claims, now);
    var execution := start.executions[id];
    NeverAdmitted(start, candidates, i, n, after.claims, now);
    HeldUntilTheEnd(start, candidates, i, n, after.claims, now);
    CountersReach(after.store, start, candidates[..n], admitted, GlobalScope(execution.namespace), now);
    CountersReach(after.store, start, candidates[..n], admitted, ExecutionScope(execution), now);
    assert execution.queueDeadline > now && after.store.executions[id] == execution && after.store.work[key] == start.work[key];
    hide IsHandedOut, IsClaimedBy, IsOverdue, AdmittedAfterFirst, CountersCountHolders, Holders, TimedOutAt, AreOrdered, AreDistinct,
         NothingGivenBackAfter, ExecutionsAfterFirst, ItemsAfterFirst;
  }

  /** Where an interrupt's deadline is due, the executable work of that execution is over. */
  lemma ExpiryComesAlone(start: Store, candidates: seq<WorkKey>, i: nat)
    requires Inv(start) && AreOrdered(start, candidates) && i < |candidates| && candidates[i].kind.ExpireInterrupt?
    ensures KeyFor(candidates[i].executionId, Execute) !in candidates
  {
    CandidateRecord(start, candidates[i]);
    hide Inv, OwnedWhileClaimed;
  }

  lemma PlaceOf(start: Store, candidates: seq<WorkKey>, i: nat, n: nat)
    requires AreOrdered(start, candidates) && i < n <= |candidates|
    ensures candidates[i] in start.work && candidates[i] in candidates[..n] && AreDistinct(candidates)
    ensures candidates[..n][i] == candidates[i] && candidates[..n][..i] == candidates[..i]
  {
    assert candidates[..n][i] == candidates[i];
  }

  lemma ServedAt(start: Store, done: seq<WorkKey>, i: nat, claims: seq<Claim>, request: ClaimRequest, now: Time)
    requires AreServed(start, done, claims, request, now) && i < |done|
    ensures done[i].executionId in start.executions && IsServed(start, done[..i], done[i], claims, request, now)
  {
    hide IsServed;
  }

  /** A candidate that was dealt with, seen from the new store. */
  lemma IsAccountedForAtTheEnd(
    start: Store, after: Claiming, candidates: seq<WorkKey>, i: nat, n: nat, request: ClaimRequest, now: Time, tokens: nat -> Token)
    requires Inv(after.store) && Inv(start) && AreOrdered(start, candidates) && i < n <= |candidates|
    requires IsDelivered(start, after, candidates[..n], request, now, tokens)
    requires NothingGivenBackAfter(start, candidates, i, n, now)
    ensures IsAccountedFor(start, after.store, after.claims, candidates[i], request, now)
  {
    hide AdmittedAfterFirst, HasRoom, IsOverdue, IsClaimedBy, ExecutionsAfterFirst, ItemsAfterFirst, AreLeases, AreServed, AreOrdered, AreDistinct,
         NothingGivenBackAfter, IsAccountedFor, CountersCountHolders, WellShaped, RecordsConsistent, OccurrencesInStep, Consistent;
    var key, done := candidates[i], candidates[..n];
    PlaceOf(start, candidates, i, n);
    CandidateRecord(start, key);
    ServedAt(start, done, i, after.claims, request, now);
    if IsClaimedBy(after.claims, key) {
      if key.kind.ExpireInterrupt? {
        ExpiryComesAlone(start, candidates, i);
      }
      ClaimedIsHandedOut(start, after, done, key, request, now, tokens);
    } else if IsOverdue(start, key, now) {
      OverdueIsExecute(start, key, now);
      OverdueIsOver(start, after, done, key, request, now);
    } else {
      OtherwiseThereIsNoRoom(start, after, candidates, i, n, request, now);
    }
  }

  /** The due items of a namespace. */
  predicate IsDueAt(item: WorkItem, namespace: string, now: Time) {
    item.namespace == namespace && item.status.Pending? && item.availableAt <= now
  }

  /** By availability, then by creation, then by identifier. */
  predicate ComesNoLater(a: WorkItem, b: WorkItem) {
    || a.availableAt < b.availableAt
    || (a.availableAt == b.availableAt && (a.createdAt < b.createdAt || (a.createdAt == b.createdAt && a.uuid <= b.uuid)))
  }

  ghost predicate AreAllDue(work: map<WorkKey, WorkItem>, namespace: string, now: Time, keys: seq<WorkKey>) {
    forall k :: k in keys <==> k in work && IsDueAt(work[k], namespace, now)
  }

  predicate AreInOrder(work: map<WorkKey, WorkItem>, keys: seq<WorkKey>) {
    forall i, j :: 0 <= i < j < |keys| ==> keys[i] in work && keys[j] in work && ComesNoLater(work[keys[i]], work[keys[j]])
  }

  lemma CandidatesAreTheDueItems(start: Store, namespace: string, now: Time, candidates: seq<WorkKey>)
    requires IsClaimOrder(start.work, namespace, now, candidates)
    ensures AreOrdered(start, candidates)
    ensures AreAllDue(start.work, namespace, now, candidates) && AreInOrder(start.work, candidates)
  {
  }

  /**
    Due work is never passed over: of the first due items in claim order, up to the one that took the last
    claim, or all of them when fewer claims than the limit came back, each is handed out to the requesting
    worker, or over because its queue deadline passed, or executable work whose counters in the new
    store have reached their limits, as long as no later one gives capacity back.
   */
  lemma DueWorkIsAccountedFor(store: Store, request: ClaimRequest, now: Time, tokens: nat -> Token, candidates: seq<WorkKey>) returns (n: nat)
    requires Inv(store) && IsClaimOrder(RecoverClaims(store, request.namespace, now).work, request.namespace, now, candidates)
    requires request.limit >= 1 && request.leaseDuration > 0 && request.globalConcurrency >= 1 && !store.closed
    ensures
      var start, result := RecoverClaims(store, request.namespace, now), ClaimWork(store, request, now, tokens, candidates);
      && result.outcome.Ok?
      && StopsAt(candidates, n, result.outcome.value, request.limit)
      && AreAllDue(start.work, request.namespace, now, candidates) && AreInOrder(start.work, candidates)
      && (forall i :: 0 <= i < n && NothingGivenBackAfter(start, candidates, i, n, now) ==>
            IsAccountedFor(start, result.store, result.outcome.value, candidates[i], request, now))
  {
    var start, result := RecoverClaims(store, request.namespace, now), ClaimWork(store, request, now, tokens, candidates);
    ClaimWorkPreserves(store, request, now, tokens, candidates);
    RecoverClaimsPreserves(store, request.namespace, now);
    hide ClaimWork, RecoverClaims, IsDelivered, Evolves, AreOrdered, IsClaimOrder, Inv, NothingGivenBackAfter, IsAccountedFor, AreAllDue, AreInOrder;
    n := ClaimWorkDelivers(store, request, now, tokens, candidates);
    CandidatesAreTheDueItems(start, request.namespace, now, candidates);
    forall i | 0 <= i < n && NothingGivenBackAfter(start, candidates, i, n, now)
      ensures IsAccountedFor(start, result.store, result.outcome.value, candidates[i], request, now)
    {
      IsAccountedForAtTheEnd(start, Claiming(result.store, result.outcome.value), candidates, i, n, request, now, tokens);
    }
  }

  // ---------------------------------------------------------------- capacity given back too late

  function WaitingExecution(name: string, queueDeadline: Time): Execution {
    Execution(ExecutionId("n", name), None, "n", "o", ExecutionLimits(1, 2, 1, 1), Queued, None, None, 0, queueDeadline,
              None, None, None, None, None, None, [], None, None, 0)
  }

  function WaitingItem(name: string, availableAt: Time): WorkItem {
    WorkItem(0, "n", ExecutionId("n", name), Execute, availableAt, 0, Pending, None, None, 0, None)
  }

  const First: WorkKey := KeyFor(ExecutionId("n", "first"), Execute)
  const Second: WorkKey := KeyFor(ExecutionId("n", "second"), Execute)

  /** Two executions of one owner; the second, overdue at 10, still holds the only place from a claim that ran out. */
  const Waiting: Store := Store(
    RecordLimits(0, 2, 2, 0), false, map[],
    map[First.executionId := WaitingExecution("first", 100), Second.executionId := WaitingExecution("second", 5)],
    map[("n", "first") := First.executionId, ("n", "second") := Second.executionId],
    map[First := WaitingItem("first", 0), Second := WaitingItem("second", 1)],
    map[], map[GlobalScope("n") := 1, OwnerScope("n", "o") := 1], {Second.executionId})

  lemma WaitingIsShaped()
    ensures WellShaped(Waiting)
  {
    assert WorkResolves(Waiting.executions, Waiting.work);
    assert ExecutionsNamed(Waiting.executions);
    hide WorkResolves, ExecutionsNamed;
  }

  lemma WaitingOccursInStep()
    ensures OccurrencesInStep(Waiting.executions, Waiting.occurrences)
  {
  }

  lemma WaitingIsConsistent()
    ensures RecordsConsistent(Waiting)
  {
    forall id | id in Waiting.executions ensures Consistent(id, RecordOf(Waiting, id)) {
      if id == First.executionId {
        assert RecordOf(Waiting, id) == Record(WaitingExecution("first", 100), Some(WaitingItem("first", 0)), None, false);
      } else {
        assert RecordOf(Waiting, id) == Record(WaitingExecution("second", 5), Some(WaitingItem("second", 1)), None, true);
      }
      hide RecordOf;
    }
  }

  lemma WaitingIsCounted()
    ensures CountersCountHolders(Waiting.executions, Waiting.admitted, Waiting.allocations)
  {
    forall scope {:trigger Holders(Waiting.executions, Waiting.admitted, scope)}
      ensures Lookup(Waiting.allocations, scope, 0) == |Holders(Waiting.executions, Waiting.admitted, scope)|
      ensures scope in Waiting.allocations ==> Waiting.allocations[scope] > 0
    {
      assert Holders(Waiting.executions, Waiting.admitted, scope)
          == if scope == GlobalScope("n") || scope == OwnerScope("n", "o") then {Second.executionId} else {};
    }
  }

  lemma WaitingSatisfiesInv()
    ensures Inv(Waiting)
  {
    WaitingIsShaped();
    WaitingOccursInStep();
    WaitingIsConsistent();
    WaitingIsCounted();
    hide WellShaped, RecordsConsistent, CountersCountHolders, OccurrencesInStep;
  }

  const WaitingRequest := ClaimRequest("n", "worker", 1, 60, 1)

  lemma NothingRanOut()
    ensures WellShaped(Waiting) && RecoverClaims(Waiting, "n", 10) == Waiting
  {
    WaitingIsShaped();
    hide WellShaped;
    assert RecoveredExecutions(Waiting, "n", 10) == Waiting.executions;
    assert forall k :: k in Waiting.work ==> !IsExpired(Waiting.work[k], "n", 10);
    assert RecoveredWork(Waiting, "n", 10).Keys == Waiting.work.Keys;
  }

  lemma BothAreDue()
    ensures IsClaimOrder(Waiting.work, "n", 10, [First, Second])
  {
  }

  lemma TheFirstWaits(token: Token)
    requires Inv(Waiting) && WellShaped(Waiting)
    ensures ClaimItem(Claiming(Waiting, []), WaitingRequest, 10, token, First) == Claiming(Waiting, [])
  {
    hide ClaimItem, Inv, WellShaped;
    assert Holders(Waiting.executions, Waiting.admitted, GlobalScope("n")) == {Second.executionId};
    assert !HasRoom(Waiting, Waiting.admitted, First.executionId, 1);
    hide HasRoom, Holders, TimesOut, HandsOut;
    OneCandidate(Claiming(Waiting, []), WaitingRequest, 10, token, First);
  }

  lemma TheSecondTimesOut(token: Token)
    requires Inv(Waiting) && WellShaped(Waiting)
    ensures
      var after := ClaimItem(Claiming(Waiting, []), WaitingRequest, 10, token, Second);
      && after.claims == [] && Inv(after.store) && after.store.admitted == {}
      && First in after.store.work && after.store.work[First] == WaitingItem("first", 0)
  {
    hide ClaimItem, Inv, WellShaped, HasRoom, Evolves, HandsOut, TimedOutAt;
    OneCandidate(Claiming(Waiting, []), WaitingRequest, 10, token, Second);
    ClaimItemPreserves(Claiming(Waiting, []), WaitingRequest, 10, token, Second);
  }

  /** At its turn the first candidate finds the only place taken; the second gives it back. */
  lemma TheFirstWaitsTheSecondTimesOut(tokens: nat -> Token)
    requires WellShaped(Waiting) && Inv(Waiting)
    ensures
      var after := ClaimItems(Claiming(Waiting, []), WaitingRequest, 10, tokens, [First, Second]);
      after.claims == [] && First in after.store.work && after.store.work[First] == WaitingItem("first", 0)
      && Inv(after.store) && after.store.admitted == {}
  {
    hide ClaimItem, Inv, WellShaped;
    var current, keys := Claiming(Waiting, []), [First, Second];
    TheFirstWaits(tokens(0));
    TheSecondTimesOut(tokens(0));
    assert keys[1..] == [Second] && [Second][1..] == [];
    var after := ClaimItem(current, WaitingRequest, 10, tokens(0), Second);
    assert ClaimItems(current, WaitingRequest, 10, tokens, [Second]) == after;
  }

  lemma NobodyIsCounted(store: Store)
    requires Inv(store) && store.admitted == {}
    ensures forall scope {:trigger Lookup(store.allocations, scope, 0)} :: Lookup(store.allocations, scope, 0) == 0
  {
    hide WellShaped, RecordsConsistent, OccurrencesInStep;
    forall scope ensures Lookup(store.allocations, scope, 0) == 0 {
      assert Holders(store.executions, store.admitted, scope) == {};
    }
  }

  /** A call with a free place at its end answers with nothing although work is due: the place was given back after that work's turn. */
  lemma CapacityGivenBackIsLeftUnused(tokens: nat -> Token)
    ensures Inv(Waiting) && IsClaimOrder(RecoverClaims(Waiting, "n", 10).work, "n", 10, [First, Second])
    ensures
      var result := ClaimWork(Waiting, WaitingRequest, 10, tokens, [First, Second]);
      && result.outcome == Ok([])
      && First in result.store.work && IsDueAt(result.store.work[First], "n", 10)
      && result.store.admitted == {}
      && Lookup(result.store.allocations, GlobalScope("n"), 0) == Lookup(result.store.allocations, OwnerScope("n", "o"), 0) == 0
  {
    WaitingSatisfiesInv();
    NothingRanOut();
    BothAreDue();
    hide Inv, RecoverClaims, ClaimItems, IsClaimOrder, WellShaped, Lookup;
    TheFirstWaitsTheSecondTimesOut(tokens);
    NobodyIsCounted(ClaimItems(Claiming(Waiting, []), WaitingRequest, 10, tokens, [First, Second]).store);
  }
}

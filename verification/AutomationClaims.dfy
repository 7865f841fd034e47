/** Claiming work: the invariant across the claim loop, and what the issued claims guarantee. */
module AutomationClaims {
  import opened Outcomes
  import opened AutomationModel
  import opened AutomationRules
  import opened AutomationStore
  import opened AutomationInvariant
  import opened AutomationProgress
  import opened AutomationPreservation

  // ---------------------------------------------------------------- one lease

  function LeasedItem(item: WorkItem, request: ClaimRequest, now: Time, token: Token): WorkItem {
    item.(status := Claimed, workerId := Some(request.workerId), claimToken := Some(token),
          fence := item.fence + 1, leaseUntil := Some(now + request.leaseDuration))
  }

  /** A lease, seen from the records of the execution. */
  function LeasedRecord(record: Record, kind: WorkKind, request: ClaimRequest, now: Time, token: Token): Record
    requires ItemOfKind(record, kind).Some?
  {
    WithItem(record, kind, LeasedItem(ItemOfKind(record, kind).value, request, now, token))
      .(admitted := record.admitted || kind.Execute?)
  }

  lemma LeaseImproves(id: ExecutionId, record: Record, kind: WorkKind, request: ClaimRequest, now: Time, token: Token)
    requires Consistent(id, record)
    requires ItemOfKind(record, kind).Some? && ItemOfKind(record, kind).value.status.Pending?
    requires ClaimCandidate(record.execution, kind, now).None?
    ensures Improves(id, record, LeasedRecord(record, kind, request, now, token))
  {
  }

  lemma LeaseRecord(store: Store, id: ExecutionId, kind: WorkKind, request: ClaimRequest, now: Time, token: Token)
    requires WellShaped(store) && id in store.executions && KeyFor(id, kind) in store.work
    ensures
      var after := Lease(store, KeyFor(id, kind), request, now, token);
      && SameElsewhere(store, after, id)
      && RecordOf(after, id) == LeasedRecord(RecordOf(store, id), kind, request, now, token)
  {
    var item := store.work[KeyFor(id, kind)];
    assert item.Key() == KeyFor(id, kind) && store.executions[id].id == id;
    hide Admit, WellShaped;
    AdmittedAfter(store, item);
    ItemReplaced(store, id, kind, LeasedItem(item, request, now, token));
  }

  lemma AdmittedAfter(store: Store, item: WorkItem)
    requires item.executionId in store.executions && store.executions[item.executionId].id == item.executionId
    ensures Admit(store, item).admitted ==
            if item.kind.Execute? then store.admitted + {item.executionId} else store.admitted
  {
  }

  lemma LeaseCounters(store: Store, key: WorkKey, request: ClaimRequest, now: Time, token: Token)
    requires Inv(store) && key in store.work
    ensures
      var after := Lease(store, key, request, now, token);
      CountersCountHolders(after.executions, after.admitted, after.allocations) && after.admitted <= after.executions.Keys
  {
    hide Consistent, OccurrencesInStep, OccurrencesResolve;
    var id := store.work[key].executionId;
    if id !in store.admitted {
      CountersAfterReserve(store, id);
    }
  }

  lemma LeasePreserves(store: Store, id: ExecutionId, kind: WorkKind, request: ClaimRequest, now: Time, token: Token)
    requires Inv(store) && id in store.executions
    requires KeyFor(id, kind) in store.work && store.work[KeyFor(id, kind)].status.Pending?
    requires ClaimCandidate(store.executions[id], kind, now).None?
    ensures Preserves(store, Lease(store, KeyFor(id, kind), request, now, token))
  {
    hide StatusFixesWork, CountersCountHolders, OccurrencesInStep, OccurrencesResolve, ExecutionAdvances, ItemAdvances;
    var key := KeyFor(id, kind);
    var after := Lease(store, key, request, now, token);
    assert Improves(id, RecordOf(store, id), RecordOf(after, id)) by {
      assert Consistent(id, RecordOf(store, id));
      LeaseImproves(id, RecordOf(store, id), kind, request, now, token);
      LeaseRecord(store, id, kind, request, now, token);
    }
    hide Consistent, Advances, WorkResolves, ExecutionsNamed;
    LeaseShape(store, key, request, now, token);
    LeaseRecord(store, id, kind, request, now, token);
    LeaseCounters(store, key, request, now, token);
    RecordsStayConsistent(store, after, id);
    LocalAdvance(store, after, id);
  }

  // ---------------------------------------------------------------- the claim loop

  /** The candidates left to process are pending work of stored executions, each listed once. */
  predicate AreCandidates(store: Store, candidates: seq<WorkKey>) {
    && (forall i :: 0 <= i < |candidates| ==> candidates[i] in store.work && store.work[candidates[i]].status.Pending?)
    && (forall i, j :: 0 <= i < j < |candidates| ==> candidates[i] != candidates[j])
  }

  /** A processed candidate leaves the other items alone. */
  lemma ClaimItemElsewhere(current: Claiming, request: ClaimRequest, now: Time, token: Token, key: WorkKey)
    requires WellShaped(current.store) && key in current.store.work
    ensures
      var after := ClaimItem(current, request, now, token, key).store;
      && after.work.Keys == current.store.work.Keys
      && forall k :: k in current.store.work && k != key ==> after.work[k] == current.store.work[k]
  {
    hide OccurrencesResolve, ExecutionsNamed, ReserveScopes, HasCapacity;
    var store := current.store;
    var candidate := ClaimCandidate(store.executions[key.executionId], key.kind, now);
    if candidate.Some? {
      assert candidate.value.completeWork.CompleteCurrent? && candidate.value.deadlineWorkAt.None?;
      hide ClaimCandidate;
      SettledElsewhereForItem(store, candidate.value, key);
    }
  }

  lemma SettledElsewhereForItem(store: Store, transition: Transition, key: WorkKey)
    requires transition.completeWork.CompleteCurrent?
    ensures
      var after := Released(store, transition, Some(key));
      && after.work.Keys == store.work.Keys
      && forall k :: k in store.work && k != key ==> after.work[k] == store.work[k]
  {
  }

  lemma RemainingCandidates(current: Claiming, request: ClaimRequest, now: Time, token: Token, candidates: seq<WorkKey>)
    requires WellShaped(current.store) && AreCandidates(current.store, candidates) && candidates != []
    ensures AreCandidates(ClaimItem(current, request, now, token, candidates[0]).store, candidates[1..])
  {
    ClaimItemElsewhere(current, request, now, token, candidates[0]);
    hide ClaimItem, WorkResolves, OccurrencesResolve, ExecutionsNamed;
  }

  lemma ClaimItemPreserves(current: Claiming, request: ClaimRequest, now: Time, token: Token, key: WorkKey)
    requires Inv(current.store) && key in current.store.work && current.store.work[key].status.Pending?
    ensures Preserves(current.store, ClaimItem(current, request, now, token, key).store)
  {
    hide CountersCountHolders, OccurrencesInStep, OccurrencesResolve, ExecutionAdvances, ItemAdvances, StatusFixesWork;
    var store := current.store;
    var id, kind := key.executionId, key.kind;
    assert key == KeyFor(id, kind) && store.work[key].Key() == key;
    var record := RecordOf(store, id);
    assert ItemOfKind(record, kind) == Some(store.work[key]);
    assert Consistent(id, record);
    var candidate := ClaimCandidate(store.executions[id], kind, now);
    hide Consistent, Advances, WorkResolves;
    if candidate.Some? {
      ClaimCandidateIsQueueExpiry(id, record, kind, now);
      ReleasedPreserves(store, candidate.value, Some(key), Some(kind));
    } else if IsRefusedAdmission(store, store.work[key], store.executions[id], request.globalConcurrency) {
      EvolvesReflexive(store);
    } else {
      LeasePreserves(store, id, kind, request, now, token);
    }
  }

  lemma {:induction false} ClaimItemsPreserves(
    origin: Store, current: Claiming, request: ClaimRequest, now: Time, tokens: nat -> Token, candidates: seq<WorkKey>)
    requires Preserves(origin, current.store) && WellShaped(current.store) && AreCandidates(current.store, candidates)
    ensures Preserves(origin, ClaimItems(current, request, now, tokens, candidates).store)
    decreases |candidates|
  {
    hide Inv, Evolves, WellShaped, ClaimItem;
    if candidates != [] && |current.claims| < request.limit {
      var token := tokens(|current.claims|);
      var next := ClaimItem(current, request, now, token, candidates[0]);
      ClaimItemPreserves(current, request, now, token, candidates[0]);
      EvolvesTransitive(origin, current.store, next.store);
      RemainingCandidates(current, request, now, token, candidates);
      ClaimItemShape(current, request, now, token, candidates[0]);
      ClaimItemsPreserves(origin, next, request, now, tokens, candidates[1..]);
    }
  }

  // ---------------------------------------------------------------- issued claims

  /** The claim owns its item in `after` under a fence the item did not have in `before`. */
  predicate Fences(before: Store, after: Store, claim: Claim) {
    && claim.item in before.work && claim.item in after.work
    && before.work[claim.item].fence < claim.fence
    && after.work[claim.item].status.Claimed?
    && after.work[claim.item].claimToken == Some(claim.claimToken)
    && after.work[claim.item].fence == claim.fence
    && after.work[claim.item].leaseUntil == Some(claim.leaseUntil)
  }

  /** Executable work is handed out only for an execution that is still queued. */
  predicate OffersQueuedWork(store: Store, claim: Claim) {
    && claim.item.executionId in store.executions
    && (claim.item.kind.Execute? ==> store.executions[claim.item.executionId].status.Queued?)
  }

  /** What the claim loop promises of each claim it issues. */
  predicate IsIssued(before: Store, after: Store, candidates: seq<WorkKey>, claim: Claim) {
    claim.item in candidates && Fences(before, after, claim) && OffersQueuedWork(before, claim)
  }

  /** The claim issued for one candidate, if any. */
  lemma ClaimItemIssues(current: Claiming, request: ClaimRequest, now: Time, token: Token, key: WorkKey)
    requires WellShaped(current.store) && key in current.store.work
    ensures
      var next := ClaimItem(current, request, now, token, key);
      || next.claims == current.claims
      || (exists claim ::
            && next.claims == current.claims + [claim]
            && claim.item == key
            && claim.leaseUntil == now + request.leaseDuration
            && Fences(current.store, next.store, claim)
            && OffersQueuedWork(current.store, claim))
  {
    hide OccurrencesResolve, ReserveScopes, HasCapacity, ReleaseScopes;
    var next := ClaimItem(current, request, now, token, key);
    if next.claims != current.claims {
      assert next.claims == current.claims + [next.claims[|current.claims|]];
    }
  }

  lemma {:induction false} ClaimItemsElsewhere(
    current: Claiming, request: ClaimRequest, now: Time, tokens: nat -> Token, candidates: seq<WorkKey>, k: WorkKey)
    requires WellShaped(current.store) && AreCandidates(current.store, candidates)
    requires k in current.store.work && k !in candidates
    ensures
      var after := ClaimItems(current, request, now, tokens, candidates).store;
      k in after.work && after.work[k] == current.store.work[k]
    decreases |candidates|
  {
    hide WorkResolves, ExecutionsNamed, OccurrencesResolve, ClaimItem;
    if candidates != [] && |current.claims| < request.limit {
      var token := tokens(|current.claims|);
      var next := ClaimItem(current, request, now, token, candidates[0]);
      RemainingCandidates(current, request, now, token, candidates);
      ClaimItemShape(current, request, now, token, candidates[0]);
      ClaimItemElsewhere(current, request, now, token, candidates[0]);
      ClaimItemsElsewhere(next, request, now, tokens, candidates[1..], k);
    }
  }

  /** A claim that was new to a later store was also new to an earlier one. */
  lemma IssuedEarlier(before: Store, middle: Store, after: Store, claim: Claim)
    requires WellShaped(before) && Evolves(before, middle) && claim.item in before.work
    requires Fences(middle, after, claim) && OffersQueuedWork(middle, claim)
    ensures Fences(before, after, claim) && OffersQueuedWork(before, claim)
  {
    var id, kind := claim.item.executionId, claim.item.kind;
    assert claim.item == KeyFor(id, kind) && id in before.executions;
    var earlier, later := RecordOf(before, id), RecordOf(middle, id);
    assert Advances(earlier, later);
    hide WellShaped, Evolves, SameStart, SameIdentity;
    assert ItemOfKind(earlier, kind) == Some(before.work[claim.item]);
    assert ItemOfKind(later, kind) == Some(middle.work[claim.item]);
  }

  /** All claims added by the loop are issued, for distinct candidates, within the limit. */
  predicate AreIssued(before: Store, after: Store, candidates: seq<WorkKey>, claims: seq<Claim>, already: nat) {
    && already <= |claims|
    && (forall i :: already <= i < |claims| ==> IsIssued(before, after, candidates, claims[i]))
    && (forall i, j :: already <= i < j < |claims| ==> claims[i].item != claims[j].item)
  }

  lemma {:induction false} ClaimItemsIssue(
    current: Claiming, request: ClaimRequest, now: Time, tokens: nat -> Token, candidates: seq<WorkKey>)
    requires Inv(current.store) && AreCandidates(current.store, candidates)
    requires |current.claims| <= request.limit
    ensures
      var result := ClaimItems(current, request, now, tokens, candidates);
      && current.claims <= result.claims
      && |result.claims| <= request.limit
      && AreIssued(current.store, result.store, candidates, result.claims, |current.claims|)
    decreases |candidates|
  {
    assert WellShaped(current.store);
    hide Inv, Evolves, WorkResolves, ExecutionsNamed, OccurrencesResolve, ClaimItem;
    if candidates != [] && |current.claims| < request.limit {
      var token := tokens(|current.claims|);
      var next := ClaimItem(current, request, now, token, candidates[0]);
      ClaimItemPreserves(current, request, now, token, candidates[0]);
      ClaimItemShape(current, request, now, token, candidates[0]);
      RemainingCandidates(current, request, now, token, candidates);
      ClaimItemIssues(current, request, now, token, candidates[0]);
      ClaimItemsIssue(next, request, now, tokens, candidates[1..]);
      ClaimItemsElsewhere(next, request, now, tokens, candidates[1..], candidates[0]);
      var result := ClaimItems(next, request, now, tokens, candidates[1..]);
      IssuedFromHere(current, next, result, candidates);
    }
  }

  /** One iteration of the claim loop followed by the rest of it. */
  lemma IssuedFromHere(current: Claiming, next: Claiming, result: Claiming, candidates: seq<WorkKey>)
    requires candidates != [] && AreCandidates(current.store, candidates)
    requires WellShaped(current.store) && WellShaped(next.store)
    requires Evolves(current.store, next.store) && current.store.work.Keys == next.store.work.Keys
    requires next.claims <= result.claims
    requires AreIssued(next.store, result.store, candidates[1..], result.claims, |next.claims|)
    requires candidates[0] in result.store.work && candidates[0] in next.store.work
    requires result.store.work[candidates[0]] == next.store.work[candidates[0]]
    requires
      || next.claims == current.claims
      || (exists claim ::
            && next.claims == current.claims + [claim]
            && claim.item == candidates[0]
            && Fences(current.store, next.store, claim)
            && OffersQueuedWork(current.store, claim))
    ensures current.claims <= result.claims
    ensures AreIssued(current.store, result.store, candidates, result.claims, |current.claims|)
  {
    hide Evolves, WellShaped, OffersQueuedWork;
    forall i | |current.claims| <= i < |result.claims|
      ensures IsIssued(current.store, result.store, candidates, result.claims[i])
      ensures i < |next.claims| ==> result.claims[i].item == candidates[0]
      ensures i >= |next.claims| ==> result.claims[i].item in candidates[1..]
    {
      if i >= |next.claims| {
        assert IsIssued(next.store, result.store, candidates[1..], result.claims[i]);
        IssuedEarlier(current.store, next.store, result.store, result.claims[i]);
      } else {
        assert result.claims[i] == next.claims[i];
      }
    }
  }

  // ---------------------------------------------------------------- claim_work

  lemma RecoveredCandidates(store: Store, namespace: string, now: Time, candidates: seq<WorkKey>)
    requires WellShaped(store)
    requires IsClaimOrder(RecoverClaims(store, namespace, now).work, namespace, now, candidates)
    ensures AreCandidates(RecoverClaims(store, namespace, now), candidates)
  {
  }

  lemma ClaimWorkPreserves(store: Store, request: ClaimRequest, now: Time, tokens: nat -> Token, candidates: seq<WorkKey>)
    requires Inv(store)
    requires IsClaimOrder(RecoverClaims(store, request.namespace, now).work, request.namespace, now, candidates)
    ensures Preserves(store, ClaimWork(store, request, now, tokens, candidates).store)
  {
    assert WellShaped(store);
    hide Inv, Evolves, WellShaped, ClaimItems, RecoverClaims, IsClaimOrder;
    RecoverClaimsPreserves(store, request.namespace, now);
    RecoveryKeepsShape(store, request.namespace, now);
    RecoveredCandidates(store, request.namespace, now, candidates);
    EvolvesReflexive(store);
    ClaimItemsPreserves(store, Claiming(RecoverClaims(store, request.namespace, now), []), request, now, tokens, candidates);
  }

  /**
    Every issued claim is valid when it is handed out, carries a fence its item never had before, and
    offers executable work only for an execution that was queued when the call began.
   */
  lemma ClaimWorkIssuesFencedClaims(
    store: Store, request: ClaimRequest, now: Time, tokens: nat -> Token, candidates: seq<WorkKey>)
    requires Inv(store)
    requires IsClaimOrder(RecoverClaims(store, request.namespace, now).work, request.namespace, now, candidates)
    requires ClaimWork(store, request, now, tokens, candidates).outcome.Ok?
    ensures
      var result := ClaimWork(store, request, now, tokens, candidates);
      var claims := result.outcome.value;
      && |claims| <= request.limit
      && (forall i :: 0 <= i < |claims| ==>
            && Fences(store, result.store, claims[i])
            && OffersQueuedWork(store, claims[i]))
      && (forall i, j :: 0 <= i < j < |claims| ==> claims[i].item != claims[j].item)
  {
    assert WellShaped(store);
    hide Inv, Evolves, WellShaped, ClaimItems, RecoverClaims, Fences, OffersQueuedWork, IsClaimOrder;
    RecoverClaimsPreserves(store, request.namespace, now);
    RecoveryKeepsShape(store, request.namespace, now);
    RecoveredCandidates(store, request.namespace, now, candidates);
    var recovered := RecoverClaims(store, request.namespace, now);
    ClaimItemsIssue(Claiming(recovered, []), request, now, tokens, candidates);
    var result := ClaimItems(Claiming(recovered, []), request, now, tokens, candidates);
    forall i | 0 <= i < |result.claims|
      ensures Fences(store, result.store, result.claims[i]) && OffersQueuedWork(store, result.claims[i])
    {
      assert IsIssued(recovered, result.store, candidates, result.claims[i]);
      IssuedFrom(store, recovered, result.store, result.claims[i]);
    }
  }

  lemma IssuedFrom(before: Store, middle: Store, after: Store, claim: Claim)
    requires WellShaped(before) && Evolves(before, middle) && before.work.Keys == middle.work.Keys
    requires Fences(middle, after, claim) && OffersQueuedWork(middle, claim)
    ensures Fences(before, after, claim) && OffersQueuedWork(before, claim)
  {
    hide WellShaped, Evolves;
    assert claim.item in middle.work.Keys;
    IssuedEarlier(before, middle, after, claim);
  }
}

/** Safety over whole runs: one start per execution, fenced ownership, final outcomes. */
module AutomationSafety {
  import opened Outcomes
  import opened AutomationModel
  import opened AutomationRules
  import opened AutomationStore
  import opened AutomationInvariant
  import opened AutomationProgress
  import opened AutomationPreservation
  import opened AutomationClaims
  import opened AutomationRuns

  // ---------------------------------------------------------------- runs

  /** Call `i` leads from store `i` to store `i + 1`. */
  predicate IsStep(stores: seq<Store>, calls: seq<Call>, i: nat)
    requires |stores| == |calls| + 1 && i < |calls|
  {
    && WellShaped(stores[i])
    && Permitted(stores[i], calls[i])
    && stores[i + 1] == Perform(stores[i], calls[i]).store
  }

  /** The stores passed through by a sequence of calls on a new store. */
  predicate IsRun(stores: seq<Store>, calls: seq<Call>) {
    && |stores| == |calls| + 1
    && stores[0] == Empty(stores[0].limits)
    && (forall i :: 0 <= i < |calls| ==> IsStep(stores, calls, i))
  }

  /** Call `i` was answered with reply `i`. */
  predicate IsReply(stores: seq<Store>, calls: seq<Call>, replies: seq<Reply>, i: nat)
    requires |stores| == |calls| + 1 && |replies| == |calls| && i < |calls|
  {
    IsStep(stores, calls, i) && replies[i] == Perform(stores[i], calls[i]).reply
  }

  /** A run together with what its callers were told. */
  predicate IsAnsweredRun(stores: seq<Store>, calls: seq<Call>, replies: seq<Reply>) {
    && IsRun(stores, calls)
    && |replies| == |calls|
    && (forall i :: 0 <= i < |calls| ==> IsReply(stores, calls, replies, i))
  }

  lemma {:induction false} RunKeepsInv(stores: seq<Store>, calls: seq<Call>, i: nat)
    requires IsRun(stores, calls) && i < |stores|
    ensures Inv(stores[i])
  {
    hide Inv, Evolves, Perform, WellShaped, Permitted;
    if i == 0 {
      EmptySatisfiesInv(stores[0].limits);
    } else {
      RunKeepsInv(stores, calls, i - 1);
      assert IsStep(stores, calls, i - 1);
      PerformPreserves(stores[i - 1], calls[i - 1]);
    }
  }

  lemma {:induction false} RunMovesForward(stores: seq<Store>, calls: seq<Call>, i: nat, j: nat)
    requires IsRun(stores, calls) && i <= j < |stores|
    ensures Evolves(stores[i], stores[j])
    decreases j
  {
    hide Inv, Evolves, Perform, WellShaped, Permitted;
    if i == j {
      EvolvesReflexive(stores[i]);
    } else {
      RunMovesForward(stores, calls, i, j - 1);
      RunKeepsInv(stores, calls, j - 1);
      assert IsStep(stores, calls, j - 1);
      PerformPreserves(stores[j - 1], calls[j - 1]);
      EvolvesTransitive(stores[i], stores[j - 1], stores[j]);
    }
  }

  // ---------------------------------------------------------------- one start per execution

  /** An authorized start is recorded in the store and was not there before. */
  lemma StartIsRecorded(store: Store, call: Call)
    requires WellShaped(store) && Permitted(store, call) && Perform(store, call).reply.StartAuthorized?
    ensures
      var started := Perform(store, call).reply.execution;
      && started.id in store.executions
      && store.executions[started.id].startAuthorizedAt.None?
      && started.id in Perform(store, call).store.executions
      && Perform(store, call).store.executions[started.id] == started
      && started.startAuthorizedAt.Some?
      && started.startToken == Some(call.startToken)
      && started.startedAt == Some(call.now)
      && started.deadline == Some(call.now + call.executionTimeout)
  {
    hide OccurrencesResolve;
  }

  lemma StartsPersist(before: Store, after: Store, id: ExecutionId)
    requires Inv(before) && Evolves(before, after) && id in before.executions
    requires before.executions[id].startAuthorizedAt.Some?
    ensures id in after.executions && SameStart(before.executions[id], after.executions[id])
    ensures !after.executions[id].status.Queued?
  {
    hide CountersCountHolders, OccurrencesInStep, WorkResolves, OccurrencesResolve, ItemAdvances;
    assert Consistent(id, RecordOf(before, id));
    assert Advances(RecordOf(before, id), RecordOf(after, id));
  }

  /** Over every run, the start of an execution is authorized at most once. */
  lemma AtMostOneStart(stores: seq<Store>, calls: seq<Call>, replies: seq<Reply>, i: nat, j: nat)
    requires IsAnsweredRun(stores, calls, replies) && i < j < |calls|
    requires replies[i].StartAuthorized? && replies[j].StartAuthorized?
    ensures replies[i].execution.id != replies[j].execution.id
  {
    hide Perform, Inv, Evolves, WellShaped, Permitted;
    assert IsReply(stores, calls, replies, i) && IsReply(stores, calls, replies, j);
    RunKeepsInv(stores, calls, i + 1);
    RunMovesForward(stores, calls, i + 1, j);
    StartIsRecorded(stores[i], calls[i]);
    StartIsRecorded(stores[j], calls[j]);
    StartsPersist(stores[i + 1], stores[j], replies[i].execution.id);
  }

  lemma IssuedBy(store: Store, call: Call, c: nat)
    requires Inv(store) && WellShaped(store) && Permitted(store, call) && Perform(store, call).reply.ClaimsIssued?
    requires c < |Perform(store, call).reply.claims|
    ensures
      var claim := Perform(store, call).reply.claims[c];
      Fences(store, Perform(store, call).store, claim) && OffersQueuedWork(store, claim)
  {
    hide Inv, WellShaped, Fences, OffersQueuedWork, IsClaimOrder;
    ClaimWorkIssuesFencedClaims(store, call.request, call.now, call.tokens, call.candidates);
  }

  /** Once an execution has started, its executable work is never offered to a worker again. */
  lemma StartedWorkIsNeverOfferedAgain(stores: seq<Store>, calls: seq<Call>, replies: seq<Reply>, i: nat, j: nat, c: nat)
    requires IsAnsweredRun(stores, calls, replies) && i < j < |calls|
    requires replies[i].StartAuthorized?
    requires replies[j].ClaimsIssued? && c < |replies[j].claims|
    ensures replies[j].claims[c].item != KeyFor(replies[i].execution.id, Execute)
  {
    hide Perform, Inv, Evolves, WellShaped, Permitted;
    assert IsReply(stores, calls, replies, i) && IsReply(stores, calls, replies, j);
    RunKeepsInv(stores, calls, i + 1);
    RunKeepsInv(stores, calls, j);
    RunMovesForward(stores, calls, i + 1, j);
    StartIsRecorded(stores[i], calls[i]);
    IssuedBy(stores[j], calls[j], c);
    StartsPersist(stores[i + 1], stores[j], replies[i].execution.id);
  }

  // ---------------------------------------------------------------- fencing

  lemma FencesPersist(before: Store, after: Store, key: WorkKey)
    requires WellShaped(before) && Evolves(before, after) && key in before.work
    ensures key in after.work && ItemAdvances(before.work[key], after.work[key])
  {
    hide OccurrencesResolve, ExecutionAdvances;
    var id, kind := key.executionId, key.kind;
    assert key == KeyFor(id, kind);
    assert Advances(RecordOf(before, id), RecordOf(after, id));
    assert ItemOfKind(RecordOf(before, id), kind) == Some(before.work[key]);
    assert ItemOfKind(RecordOf(after, id), kind) == ItemOf(after.work, id, kind);
  }

  /** Over every run, later claims of an item carry larger fences. */
  lemma FencesStrictlyIncrease(stores: seq<Store>, calls: seq<Call>, replies: seq<Reply>, i: nat, c: nat, j: nat, d: nat)
    requires IsAnsweredRun(stores, calls, replies) && i < j < |calls|
    requires replies[i].ClaimsIssued? && c < |replies[i].claims|
    requires replies[j].ClaimsIssued? && d < |replies[j].claims|
    requires replies[i].claims[c].item == replies[j].claims[d].item
    ensures replies[i].claims[c].fence < replies[j].claims[d].fence
  {
    hide Perform, Inv, Evolves, Permitted, WorkResolves, ExecutionsNamed, OccurrencesResolve;
    assert IsReply(stores, calls, replies, i) && IsReply(stores, calls, replies, j);
    RunKeepsInv(stores, calls, i);
    RunKeepsInv(stores, calls, j);
    RunMovesForward(stores, calls, i + 1, j);
    IssuedBy(stores[i], calls[i], c);
    IssuedBy(stores[j], calls[j], d);
    assert IsStep(stores, calls, i + 1) || i + 1 == |calls|;
    FencesPersist(stores[i + 1], stores[j], replies[i].claims[c].item);
  }

  /** The calls that present a claim. */
  function ClaimPresented(call: Call): Option<Claim> {
    match call
    case CallRenew(claim, _, _) => Some(claim)
    case CallAuthorize(claim, _, _, _) => Some(claim)
    case CallInterrupt(claim, _, _, _) => Some(claim)
    case CallFinish(claim, _, _) => Some(claim)
    case _ => None
  }

  lemma InvalidClaimIsRefused(store: Store, call: Call)
    requires WellShaped(store) && Permitted(store, call) && ClaimPresented(call).Some?
    requires forall now :: !ValidClaim(store, ClaimPresented(call).value, now)
    ensures Perform(store, call).reply.Refusal? && Perform(store, call).store == store
  {
    hide WellShaped, ApplyTransition, ValidClaim;
  }

  /**
    Once an item has been claimed again, no claim with an earlier fence (nor a renewal of it) ever
    renews, authorizes, interrupts or settles anything: the call is refused and changes nothing.
   */
  lemma StaleClaimIsPowerless(stores: seq<Store>, calls: seq<Call>, replies: seq<Reply>, j: nat, d: nat, k: nat, stale: Claim)
    requires IsAnsweredRun(stores, calls, replies) && j < k < |calls|
    requires replies[j].ClaimsIssued? && d < |replies[j].claims|
    requires stale.item == replies[j].claims[d].item && stale.fence < replies[j].claims[d].fence
    requires ClaimPresented(calls[k]) == Some(stale)
    ensures replies[k].Refusal? && stores[k + 1] == stores[k]
  {
    hide Perform, Inv, Evolves, Permitted, WorkResolves, ExecutionsNamed, OccurrencesResolve;
    assert IsReply(stores, calls, replies, j) && IsReply(stores, calls, replies, k);
    RunKeepsInv(stores, calls, j);
    RunMovesForward(stores, calls, j + 1, k);
    IssuedBy(stores[j], calls[j], d);
    assert IsStep(stores, calls, j + 1);
    FencesPersist(stores[j + 1], stores[k], stale.item);
    InvalidClaimIsRefused(stores[k], calls[k]);
  }

  lemma IssuedTogether(store: Store, call: Call, c: nat, d: nat)
    requires Inv(store) && WellShaped(store) && Permitted(store, call) && Perform(store, call).reply.ClaimsIssued?
    requires c < d < |Perform(store, call).reply.claims|
    ensures Perform(store, call).reply.claims[c].item != Perform(store, call).reply.claims[d].item
  {
    hide Inv, WellShaped, Fences, OffersQueuedWork, IsClaimOrder;
    ClaimWorkIssuesFencedClaims(store, call.request, call.now, call.tokens, call.candidates);
  }

  /** Claims issued at different times or places of a run for one item are never valid together, at any store and any instant. */
  lemma AtMostOneClaimIsValid(
    stores: seq<Store>, calls: seq<Call>, replies: seq<Reply>, i: nat, c: nat, j: nat, d: nat, store: Store, now: Time, later: Time)
    requires IsAnsweredRun(stores, calls, replies) && i <= j < |calls| && (i < j || c < d)
    requires replies[i].ClaimsIssued? && c < |replies[i].claims|
    requires replies[j].ClaimsIssued? && d < |replies[j].claims|
    requires replies[i].claims[c].item == replies[j].claims[d].item
    ensures !(ValidClaim(store, replies[i].claims[c], now) && ValidClaim(store, replies[j].claims[d], later))
  {
    hide Perform, Inv, WellShaped, Permitted;
    if i < j {
      FencesStrictlyIncrease(stores, calls, replies, i, c, j, d);
    } else {
      assert IsReply(stores, calls, replies, i);
      RunKeepsInv(stores, calls, i);
      IssuedTogether(stores[i], calls[i], c, d);
    }
  }

  // ---------------------------------------------------------------- settlement

  /** What a claim's owner reports is what is stored; no work stays open, and only uncertain work keeps its capacity. */
  lemma SettlementIsRecorded(store: Store, claim: Claim, settlement: Settlement, now: Time)
    requires WellShaped(store) && FinishClaim(store, claim, settlement, now).outcome.Ok?
    ensures claim.item in store.work && claim.item.executionId in store.executions
    ensures
      var id := claim.item.executionId;
      var after := FinishClaim(store, claim, settlement, now).store;
      && id in after.executions
      && var e := after.executions[id];
      && Settlement(e.status, e.result, e.failureCode, e.failureMessage) == settlement
      && e.finishedAt == (if e.status.IsTerminal() then Some(now) else None)
      && SameIdentity(store.executions[id], e) && SameStart(store.executions[id], e)
      && (forall k :: k in after.work && k.executionId == id ==> after.work[k].status.Completed?)
      && (id in after.admitted <==> id in store.admitted && e.status.NeedsAttention?)
  {
    hide Decremented, OccurrencesResolve;
  }

  // ---------------------------------------------------------------- reachable states

  /** In every reachable state the status of an execution fixes its outstanding work and its capacity. */
  lemma ReachableStatusFixesWork(stores: seq<Store>, calls: seq<Call>, i: nat, id: ExecutionId)
    requires IsRun(stores, calls) && i < |stores| && id in stores[i].executions
    ensures Consistent(id, RecordOf(stores[i], id))
  {
    RunKeepsInv(stores, calls, i);
    hide Perform, Consistent, CountersCountHolders, OccurrencesInStep, WorkResolves, ExecutionsNamed, OccurrencesResolve, Permitted;
  }

  /** A terminal execution never changes again. */
  lemma TerminalIsFinal(stores: seq<Store>, calls: seq<Call>, i: nat, j: nat, id: ExecutionId)
    requires IsRun(stores, calls) && i <= j < |stores|
    requires id in stores[i].executions && stores[i].executions[id].status.IsTerminal()
    ensures id in stores[j].executions && stores[j].executions[id] == stores[i].executions[id]
  {
    hide Perform, WellShaped, Permitted, ItemAdvances, SameIdentity;
    RunMovesForward(stores, calls, i, j);
    assert Advances(RecordOf(stores[i], id), RecordOf(stores[j], id));
  }

  /** Stale work does not exist: a due item is claimable unless its queue deadline has passed. */
  lemma StaleWorkIsUnreachable(stores: seq<Store>, calls: seq<Call>, i: nat, key: WorkKey, now: Time)
    requires IsRun(stores, calls) && i < |stores|
    requires key in stores[i].work && stores[i].work[key].status.Pending?
    ensures key.executionId in stores[i].executions
    ensures
      var execution := stores[i].executions[key.executionId];
      ClaimCandidate(execution, key.kind, now) ==
      if key.kind.Execute? && execution.queueDeadline <= now then Some(ExpireQueued(execution, now)) else None
  {
    hide Perform, Permitted, CountersCountHolders, OccurrencesInStep, OccurrencesResolve, StatusFixesWork;
    RunKeepsInv(stores, calls, i);
    var id := key.executionId;
    assert key == KeyFor(id, key.kind);
    var record := RecordOf(stores[i], id);
    assert ItemOfKind(record, key.kind) == Some(stores[i].work[key]);
    assert Consistent(id, record);
    ClaimCandidateIsQueueExpiry(id, record, key.kind, now);
  }
}

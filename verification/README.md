# Verified models of the Tinkerfin runtime

Dafny models of the parts of Tinkerfin whose correctness depends on state kept in step over many
calls, with proofs that hold for every input and every run. `dafny verify dfyconfig.toml` checks
everything.

## What is modelled

**Automation execution protocol.** `AutomationModel`, `AutomationRules` and `AutomationStore` give the
transition rules and every atomic store operation as functions of a store value. `AutomationInvariant`,
`AutomationProgress`, `AutomationPreservation`, `AutomationClaims`, `AutomationCommands` and
`AutomationAdmission` prove one inductive invariant and one forward-only relation for every operation.
`AutomationRuns`, `AutomationSafety`, `AutomationCapacity` and `AutomationIdempotency` lift them to
arbitrary runs, `AutomationDelivery` says what a claim call does with every due item and `AutomationEffects`
what each other call does field by field, both without the rules they are computed with, and
`AutomationEngine` lifts the protocol to arbitrary interleavings of engine tasks that may crash between
any two steps. `AutomationMemory` is the in-memory store as an object with separate collections and
loops; each of its methods is proved to have exactly the effect and the answer of the operation on the
store value. `AutomationSqlScopes` does the same for the counter rows of the SQL store.

**Schedules.** `Schedules` and `Misfires` model the next-run computation and misfire materialization over
exact microseconds, `ScheduleRaces` the race of schedulers on one task.

**Human review.** `HitlModel` defines complete assignments and their unique projection without searching;
`HitlSearch`, `HitlCorrelation` and `HitlRelevance` are the budgeted, truncated and memoised searches.
`InterruptReviews` and `ReviewDecisions` are publication, collection and resume translation.

**AG-UI adapter.** `AguiEvents` is the protocol as a client may rely on it, `AguiState` what each part
does to the adapter's memory and publishes apart from ENDs, as functions of a value, and `AguiAdapter` the
stateful converter proved against them; `AguiResults` says when a second result of a call is a replay. `JsonValues`, `JsonPatches` (with JSON Pointer, RFC 6901, and JSON Patch, RFC 6902) are the
state synchronisation.

**LangGraph document store.** `NamespaceTexts`, `DocumentFields`, `DocumentTables`, `DocumentQueries` and
`DocumentStore` model the four tables, their queries and batches for arbitrary, possibly colliding digests.

**Expiry index.** `ExpiryIndex` is the lazy heap over a deadline map. `Listings` and `Outcomes` are shared
vocabulary.

## Where the code and its description differ

- The adapter promises that correlation errors are raised before a part changes lifecycle state
  (packages/tinkerfin-agui-adapter/src/tinkerfin_agui_adapter/adapter.py:260-266). A continuation fragment for a call that already ended passes validation and fails
  only while events are being collected, which are then lost. `AguiAdapter.Adapter.Process` states exactly
  which parts are refused and that all the others leave everything unchanged. `AguiAdapter.ConvertRun` proves
  that the stream of a run is accepted and balanced if and only if the run did not stop at such a part
  after that part had ended open reasoning, moved or ended the open message, or started a call
  (`AguiState.LosesLifecycle`, a condition on the state before the part and on its fragments).
  `AguiAdapter.LateContinuationBreaksBalance` shows a stream broken by one.
- The correlation promises that a tool-call ID is never reused (packages/tinkerfin-agui-adapter/src/tinkerfin_agui_adapter/hitl.py:185-191). The single-group path
  does not check this; `HitlCorrelation.RepeatedCallServesTwoActions` shows it, and
  `HitlCorrelation.SingleGroupAgreesExactly` that the two paths agree on every group if and only if no
  message repeats a call ID among its well-formed calls.
- The closed form for the latest due instant of an interval and the scan: `Misfires.ClosedFormAgreesExactly`
  and `Misfires.SkippedAgreesExactly` say for every wakeup and window when they select the same instants and
  when they report the same skipped instants. With a window of at least one interval the selections agree
  exactly on the grid; on the grid the reports differ exactly when the wakeup is the only missed instant and
  lies before the window.
- A command with a request ID promises the first answer on repetition. An enqueue that finds its occurrence
  stored (packages/tinkerfin-automation/src/tinkerfin_automation/memory.py:446-449) is answered without being recorded;
  `AutomationIdempotency.SuccessIsRecorded` proves this is the only exception, and
  `AutomationIdempotency.UnrecordedEnqueueAnswersDifferently` gives a repetition with another answer.
- A claim call deals with due items in order and frees the capacity of overdue executions at their turn, so an
  item refused earlier in the call may find room in the new store. `AutomationDelivery.ClaimWorkDelivers`
  states exactly, item by item, what is handed out by the capacity held at its turn;
  `AutomationDelivery.DueWorkIsAccountedFor` the same by the counters of the new store as long as no later
  item gives capacity back; and `AutomationDelivery.CapacityGivenBackIsLeftUnused` is a call that answers
  with nothing while work is due and a place is free.
- A repeated tool result without a name is an exact replay only where the adapter knows the call's name.
  `AguiResults.SecondResultOfACall` states exactly which second results are accepted;
  `AguiResults.NamelessReplayIsRefused` is a nameless one refused for a call of an earlier request.
- A start is authorized without looking at the queue deadline again, and a cancellation request may still
  end as an interruption; the model does the same.
- Materialization does not raise a task's revision and updates are read-modify-write, so an instant can be
  materialized again after an update; `ScheduleRaces.InstantRepeatsAfterUpdate` is such a run. The race
  results are stated per revision.

## Model

| member | source | states |
|---|---|---|
| `AutomationRules.Deduplicated` | packages/tinkerfin-automation/src/tinkerfin_automation/_rules.py:166-184 | Interrupt IDs keep every value once: the result has the same members and no repetition |
| `AutomationRules.DeduplicatedKeepsOrder` | packages/tinkerfin-automation/src/tinkerfin_automation/_rules.py:166-184 | The kept interrupt IDs stand in the order of their first occurrences |
| `AutomationRules.SelectPending` | packages/tinkerfin-automation/src/tinkerfin_automation/_rules.py:96-107 | The walk with a growing set selects the same snapshots as the recursive definition |
| `AutomationRules.PendingOccurrencesAreNewAndDistinct` | packages/tinkerfin-automation/src/tinkerfin_automation/_rules.py:96-107 | What is selected comes from the input, is not yet persisted, and never repeats an occurrence |
| `AutomationRules.PendingOccurrencesKeepEveryNewOne` | packages/tinkerfin-automation/src/tinkerfin_automation/_rules.py:96-107 | Every new occurrence is selected, in the form in which it first appeared |
| `AutomationPreservation.ClaimCandidateIsQueueExpiry` | packages/tinkerfin-automation/src/tinkerfin_automation/_rules.py:119-131 | For a pending item of a consistent execution the only way to be unclaimable is an expired queue deadline |
| `AutomationPreservation.FinishClaimPreserves` | packages/tinkerfin-automation/src/tinkerfin_automation/memory.py:672-697 | Settling a claim keeps the whole invariant and only moves executions forward |
| `AutomationPreservation.MarkInterruptedPreserves` | packages/tinkerfin-automation/src/tinkerfin_automation/memory.py:654-670 | Interrupting keeps the invariant: the EXECUTE item ends and one deadline item appears at the original deadline |
| `AutomationPreservation.AuthorizeClaimPreserves` | packages/tinkerfin-automation/src/tinkerfin_automation/memory.py:630-652 | Authorizing a start keeps the invariant and records the authorization forever |
| `AutomationPreservation.RenewClaimPreserves` | packages/tinkerfin-automation/src/tinkerfin_automation/memory.py:618-628 | Renewal keeps the invariant and the fence |
| `AutomationPreservation.RecoverClaimsPreserves` | packages/tinkerfin-automation/src/tinkerfin_automation/memory.py:909-924 | Recovering every expired claim keeps the invariant; started work becomes needs_attention and keeps its capacity |
| `AutomationClaims.ClaimWorkPreserves` | packages/tinkerfin-automation/src/tinkerfin_automation/memory.py:559-616 | Recovery followed by the claim loop keeps the invariant |
| `AutomationClaims.ClaimWorkIssuesFencedClaims` | packages/tinkerfin-automation/src/tinkerfin_automation/memory.py:559-616 | Every claim handed out raises its item's fence, owns the item afterwards, and executable work is offered only while its execution is queued and unstarted |
| `AutomationDelivery.ClaimWorkDelivers` | packages/tinkerfin-automation/src/tinkerfin_automation/memory.py:559-616 | Candidates are dealt with in claim order until the limit is reached; each is handed out if and only if it is not overdue and, for executable work, its execution held capacity or both limits had room at its turn; overdue executions time out, each claim is a lease of the requesting worker for the lease duration, and nothing else changes |
| `AutomationDelivery.DueWorkIsAccountedFor` | packages/tinkerfin-automation/src/tinkerfin_automation/memory.py:559-616 | Every due item up to the one that took the last claim, and every due item when fewer claims than the limit came back, is claimed by one of the returned claims, timed out because its queue deadline passed, or unadmitted executable work one of whose counters in the new store has reached its limit, as long as no later one gives capacity back |
| `AutomationDelivery.CapacityGivenBackIsLeftUnused` | packages/tinkerfin-automation/src/tinkerfin_automation/memory.py:596-615 | A store in which a later overdue execution gives back the only place after an earlier item was refused: the call answers with nothing |
| `AutomationDelivery.RanOutClaimsAreTakenBack` | packages/tinkerfin-automation/src/tinkerfin_automation/memory.py:909-924 | A claim whose lease ended is taken back: its work is available again, or over with its execution needing attention if the start was authorized; other items are unchanged |
| `AutomationDelivery.CandidatesAreTheDueItems` | packages/tinkerfin-automation/src/tinkerfin_automation/memory.py:582-595 | The candidates are all items of the namespace that are pending and available by now, by availability, then creation, then identifier |
| `AutomationCommands.CreateTaskPreserves` | packages/tinkerfin-automation/src/tinkerfin_automation/memory.py:155-187 | Creating a task keeps the invariant |
| `AutomationCommands.UpdateTaskPreserves` | packages/tinkerfin-automation/src/tinkerfin_automation/memory.py:189-231 | Updating a task keeps the invariant |
| `AutomationCommands.DeleteTaskPreserves` | packages/tinkerfin-automation/src/tinkerfin_automation/memory.py:233-274 | Deleting a task and cancelling its queued executions one by one keeps the invariant |
| `AutomationCommands.CancelCommandPreserves` | packages/tinkerfin-automation/src/tinkerfin_automation/memory.py:699-723 | Cancellation keeps the invariant in every status |
| `AutomationCommands.ResolveCommandPreserves` | packages/tinkerfin-automation/src/tinkerfin_automation/memory.py:725-754 | Explicit resolution of uncertain work keeps the invariant and releases its capacity |
| `AutomationEffects.CancellationByStatus` | packages/tinkerfin-automation/src/tinkerfin_automation/_rules.py:215-240 | An unrecorded cancellation by status: queued and interrupted executions become cancelled with all work over and no capacity, running ones cancel-requested with work, start and capacity unchanged, cancel-requested and terminal ones stay, uncertain ones are refused; every refusal with its condition |
| `AutomationEffects.ResolutionByChoice` | packages/tinkerfin-automation/src/tinkerfin_automation/_rules.py:243-272 | An unrecorded resolution: only an execution that needs attention, with a canonical reason, ends in the chosen status with code and message, and gives its capacity back |
| `AutomationEffects.DeletionCancelsQueuedWork` | packages/tinkerfin-automation/src/tinkerfin_automation/memory.py:233-274 | Deleting a task cancels exactly its queued executions, ends their work, frees their capacity and removes the task |
| `AutomationEffects.CreationByIdentity` | packages/tinkerfin-automation/src/tinkerfin_automation/memory.py:155-187 | A task is created exactly if its ID is new and there is room, and recorded |
| `AutomationEffects.UpdateByRevision` | packages/tinkerfin-automation/src/tinkerfin_automation/memory.py:189-231 | An update replaces exactly the owned task at the expected revision by the next revision |
| `AutomationEffects.EnqueueingByQueue` | packages/tinkerfin-automation/src/tinkerfin_automation/memory.py:424-498 | Who is refused and why; an accepted execution is stored with its occurrence and one pending item, and its task or owner queue never exceeds its limit |
| `AutomationEffects.MaterializationByQueue` | packages/tinkerfin-automation/src/tinkerfin_automation/memory.py:354-422 | A stale proposal changes nothing; a current one stores the selected executions with their items unless the task queue or the records would exceed their limits |
| `AutomationEffects.RenewalByOwner` | packages/tinkerfin-automation/src/tinkerfin_automation/memory.py:618-628 | A lease is extended exactly for the token and fence that own the item at that instant |
| `AutomationEffects.StartByOwner` | packages/tinkerfin-automation/src/tinkerfin_automation/memory.py:630-652 | A start is authorized exactly for the owner of executable work whose execution has none, with start, deadline and token recorded |
| `AutomationEffects.InterruptionByOwner` | packages/tinkerfin-automation/src/tinkerfin_automation/memory.py:654-670 | The owner of a started execution interrupts it: its item is over and a deadline item waits for the original deadline |
| `AutomationEffects.FinishByOwner` | packages/tinkerfin-automation/src/tinkerfin_automation/memory.py:672-697 | A report is accepted exactly from the owner with a terminal status or needs-attention |
| `AutomationEffects.FreshClaimMayStart` | packages/tinkerfin-automation/src/tinkerfin_automation/memory.py:559-652 | Whoever was handed executable work may start it at any instant until the lease ends |
| `AutomationAdmission.EnqueuePreserves` | packages/tinkerfin-automation/src/tinkerfin_automation/memory.py:424-498 | Enqueueing keeps the invariant; occurrences and executions stay one to one |
| `AutomationAdmission.MaterializePreserves` | packages/tinkerfin-automation/src/tinkerfin_automation/memory.py:354-422 | Materializing any number of due occurrences keeps the invariant |
| `AutomationRuns.PerformPreserves` | packages/tinkerfin-automation/src/tinkerfin_automation/memory.py:115-1033 | Every call of the store keeps the invariant and only moves the store forward |
| `AutomationSafety.StartIsRecorded` | packages/tinkerfin-automation/src/tinkerfin_automation/memory.py:630-652 | An authorized start was not there before, and is stored with its token, instant and deadline |
| `AutomationSafety.AtMostOneStart` | packages/tinkerfin-automation/src/tinkerfin_automation/_rules.py:134-163 | In any run of the store two start authorizations are for different executions |
| `AutomationSafety.StartedWorkIsNeverOfferedAgain` | packages/tinkerfin-automation/src/tinkerfin_automation/memory.py:559-652 | Once a start is authorized, no later claim call ever offers that execution's EXECUTE item |
| `AutomationSafety.FencesStrictlyIncrease` | packages/tinkerfin-automation/src/tinkerfin_automation/memory.py:609-628 | Two claims issued for one item in a run have strictly increasing fences |
| `AutomationSafety.StaleClaimIsPowerless` | packages/tinkerfin-automation/src/tinkerfin_automation/memory.py:965-983 | After a later claim was issued, an earlier one is refused by renew, authorize, interrupt and finish, forever and without any change |
| `AutomationSafety.AtMostOneClaimIsValid` | packages/tinkerfin-automation/src/tinkerfin_automation/memory.py:965-983 | Of two claims issued in a run for one item, in one call or in two, at most one is valid in any store |
| `AutomationSafety.SettlementIsRecorded` | packages/tinkerfin-automation/src/tinkerfin_automation/_rules.py:187-212 | What the owner reports is stored with identity and start unchanged; no work stays open, and only uncertain work keeps its capacity |
| `AutomationSafety.ReachableStatusFixesWork` | packages/tinkerfin-automation/src/tinkerfin_automation/memory.py:875-924 | In every reachable store the status of an execution fixes its outstanding work, its start record and its admission |
| `AutomationSafety.TerminalIsFinal` | packages/tinkerfin-automation/src/tinkerfin_automation/_rules.py:187-289 | A terminal snapshot never changes again |
| `AutomationSafety.StaleWorkIsUnreachable` | packages/tinkerfin-automation/src/tinkerfin_automation/_rules.py:119-131 | In every reachable store the stale-work branches of the claim decision are dead; only queue expiry remains |
| `AutomationCapacity.CapacityIsConservedAndBounded` | packages/tinkerfin-automation/src/tinkerfin_automation/memory.py:926-963 | In every reachable store each counter equals the number of admitted executions of its scope, the global one within the global limit, and a task or owner scope within the limit of some stored execution of that scope |
| `AutomationCapacity.SharedScopeLimitHolds` | packages/tinkerfin-automation/src/tinkerfin_automation/memory.py:926-948 | When no execution of a task or owner scope allows more than a limit, the scope never holds more than it |
| `AutomationCapacity.OnlyClaimingAdmits` | packages/tinkerfin-automation/src/tinkerfin_automation/memory.py:875-948 | No call other than claiming work admits an execution |
| `AutomationIdempotency.RefusalChangesNothing` | packages/tinkerfin-automation/src/tinkerfin_automation/memory.py:155-274 | Every refused call leaves the whole store as it was |
| `AutomationIdempotency.RecordedCommandIsReplayed` | packages/tinkerfin-automation/src/tinkerfin_automation/memory.py:791-841 | Each of the six commands whose request ID is recorded is answered from the log: the recorded result, a conflict of digests or of kinds, or the earlier refusal of a closed store or an invalid reason |
| `AutomationIdempotency.RecordedCommandChangesNothing` | packages/tinkerfin-automation/src/tinkerfin_automation/memory.py:791-841 | A command whose request ID is recorded changes nothing; with another digest it is a conflict, unless the store is closed or the reason of a resolution is invalid, which is refused first |
| `AutomationIdempotency.SuccessIsRecorded` | packages/tinkerfin-automation/src/tinkerfin_automation/memory.py:424-498 | A successful command of any of the six kinds is in the log with its answer if and only if it is not an enqueue that found its occurrence stored |
| `AutomationIdempotency.UnrecordedEnqueueAnswersDifferently` | packages/tinkerfin-automation/src/tinkerfin_automation/memory.py:446-449 | Such an enqueue is answered and not recorded, and repeated after a cancellation it answers differently |
| `AutomationIdempotency.CancelIsReplayed` | packages/tinkerfin-automation/src/tinkerfin_automation/memory.py:699-723 | A recorded cancellation returns the recorded result |
| `AutomationIdempotency.CancelIsRecorded` | packages/tinkerfin-automation/src/tinkerfin_automation/memory.py:699-723 | A successful cancellation with a request ID is recorded with its result |
| `AutomationIdempotency.ResolveIsReplayed` | packages/tinkerfin-automation/src/tinkerfin_automation/memory.py:725-754 | A recorded resolution returns the recorded result |
| `AutomationIdempotency.ResolveIsRecorded` | packages/tinkerfin-automation/src/tinkerfin_automation/memory.py:725-754 | A successful resolution is recorded with its result |
| `AutomationIdempotency.RecordsAreForever` | packages/tinkerfin-automation/src/tinkerfin_automation/memory.py:817-833 | The command log is append-only over any run |
| `AutomationIdempotency.RepeatedCommandReturnsTheFirstAnswer` | packages/tinkerfin-automation/src/tinkerfin_automation/memory.py:791-841 | Repeating any recorded command of the six kinds at any later point of a run returns the first answer and changes nothing |
| `AutomationIdempotency.RepeatedCancelReturnsTheFirstAnswer` | packages/tinkerfin-automation/src/tinkerfin_automation/memory.py:699-723 | Repeating a cancellation at any later point of a run returns the first answer and changes nothing |
| `AutomationEngine.HistoryKeepsInv` | packages/tinkerfin-automation/src/tinkerfin_automation/engine.py:438-568 | Over every interleaving of engines, crashes and other callers, permissions to run belong to distinct started executions |
| `AutomationEngine.TargetRunsAtMostOnce` | packages/tinkerfin-automation/src/tinkerfin_automation/engine.py:438-568 | The target of an execution is invoked at most once in any history |
| `AutomationEngine.OneTaskRunsAnExecution` | packages/tinkerfin-automation/src/tinkerfin_automation/engine.py:438-568 | Two engine tasks never run the target of one execution at the same time |
| `AutomationEngine.UnsettledTargetsFitTheLimit` | packages/tinkerfin-automation/src/tinkerfin_automation/engine.py:355-389 | The executions of a namespace whose target was ever invoked and which are not terminal never exceed the global concurrency, whether or not their engine task crashed |
| `AutomationMemory.MemoryStore.CreateWork` | packages/tinkerfin-automation/src/tinkerfin_automation/memory.py:843-873 | Reusing or adding an item has the effect of creating work on the store value, and the index stays exact |
| `AutomationMemory.MemoryStore.CompleteExecutionWork` | packages/tinkerfin-automation/src/tinkerfin_automation/memory.py:999-1005 | The loop over all items completes exactly those of one execution |
| `AutomationMemory.MemoryStore.ReserveScopes` | packages/tinkerfin-automation/src/tinkerfin_automation/memory.py:926-948 | True exactly when already admitted or under both limits; both counters or neither are incremented |
| `AutomationMemory.MemoryStore.ReleaseScopes` | packages/tinkerfin-automation/src/tinkerfin_automation/memory.py:950-963 | The two decrements and the removal have the effect of releasing on the store value, once only |
| `AutomationMemory.MemoryStore.ApplyTransition` | packages/tinkerfin-automation/src/tinkerfin_automation/memory.py:875-907 | The in-place sequence commits the transition on the store value, or refuses before any change |
| `AutomationMemory.MemoryStore.RecoverExpiredClaims` | packages/tinkerfin-automation/src/tinkerfin_automation/memory.py:909-924 | The item-by-item loop equals recovering every expired claim at once |
| `AutomationMemory.MemoryStore.Candidates` | packages/tinkerfin-automation/src/tinkerfin_automation/memory.py:582-595 | The result lists every due item exactly once, in claim order |
| `AutomationMemory.MemoryStore.AdmitAndLease` | packages/tinkerfin-automation/src/tinkerfin_automation/memory.py:605-615 | The item is leased with a raised fence unless its execution does not fit, in which case nothing changes; when that is, by the counters, is `AutomationDelivery.ClaimWorkDelivers` |
| `AutomationMemory.MemoryStore.ClaimCandidateItem` | packages/tinkerfin-automation/src/tinkerfin_automation/memory.py:598-615 | One round of the claim loop settles, skips or leases as on the store value |
| `AutomationMemory.MemoryStore.ClaimWork` | packages/tinkerfin-automation/src/tinkerfin_automation/memory.py:559-616 | Recovery, ordering and the claim loop together equal claiming on the store value, of which `AutomationDelivery` states what is handed out |
| `AutomationMemory.MemoryStore.ValidItem` | packages/tinkerfin-automation/src/tinkerfin_automation/memory.py:965-983 | An item is returned exactly when the claim still owns it |
| `AutomationMemory.MemoryStore.RenewClaim` | packages/tinkerfin-automation/src/tinkerfin_automation/memory.py:618-628 | Same new store and same answer as renewal on the store value |
| `AutomationMemory.MemoryStore.AuthorizeStart` | packages/tinkerfin-automation/src/tinkerfin_automation/memory.py:630-652 | Same new store and same answer as authorization on the store value |
| `AutomationMemory.MemoryStore.MarkInterrupted` | packages/tinkerfin-automation/src/tinkerfin_automation/memory.py:654-670 | Same new store and same answer as interruption on the store value |
| `AutomationMemory.MemoryStore.FinishExecution` | packages/tinkerfin-automation/src/tinkerfin_automation/memory.py:672-697 | Same new store and same answer as settling on the store value |
| `AutomationMemory.MemoryStore.OperationResult` | packages/tinkerfin-automation/src/tinkerfin_automation/memory.py:791-808 | A result exactly when the log holds one for this request ID and digest, a conflict exactly when it holds one for another digest, nothing exactly when the ID is not in it or there is none |
| `AutomationMemory.MemoryStore.SaveOperation` | packages/tinkerfin-automation/src/tinkerfin_automation/memory.py:817-833 | The repeated capacity check is never needed; the record is added |
| `AutomationMemory.MemoryStore.CreateTask` | packages/tinkerfin-automation/src/tinkerfin_automation/memory.py:155-187 | Same new store and same answer as on the store value, refusals included |
| `AutomationMemory.MemoryStore.UpdateTask` | packages/tinkerfin-automation/src/tinkerfin_automation/memory.py:189-231 | Same new store and same answer as on the store value, refusals included |
| `AutomationMemory.MemoryStore.DeleteTask` | packages/tinkerfin-automation/src/tinkerfin_automation/memory.py:233-274 | The cancelling walk over a snapshot cancels each queued execution of the task once and equals deletion on the store value |
| `AutomationMemory.MemoryStore.CancelExecution` | packages/tinkerfin-automation/src/tinkerfin_automation/memory.py:699-723 | Same new store and same answer as the cancel command on the store value, of which `AutomationEffects.CancellationByStatus` states the effect in each status |
| `AutomationMemory.MemoryStore.ResolveExecution` | packages/tinkerfin-automation/src/tinkerfin_automation/memory.py:725-754 | Same new store and same answer as the resolve command on the store value |
| `AutomationMemory.MemoryStore.EnqueueExecution` | packages/tinkerfin-automation/src/tinkerfin_automation/memory.py:424-498 | Counting, checking and adding equal enqueueing on the store value, refusals included |
| `AutomationMemory.MemoryStore.MaterializeTask` | packages/tinkerfin-automation/src/tinkerfin_automation/memory.py:354-422 | Selecting, counting and adding equal materialization on the store value; the inner capacity check never fires |
| `AutomationMemory.MemoryStore.Close` | packages/tinkerfin-automation/src/tinkerfin_automation/memory.py:756-759 | The store is closed and nothing else changes |
| `AutomationSqlScopes.SqlScopes.AllocateScope` | packages/tinkerfin-automation/src/tinkerfin_automation/sqlalchemy.py:1970-2040 | The guarded update reserves exactly when the count is under the limit, and the table check holds |
| `AutomationSqlScopes.SqlScopes.DecrementScope` | packages/tinkerfin-automation/src/tinkerfin_automation/sqlalchemy.py:2068-2093 | The guarded update releases exactly when the count is positive |
| `AutomationSqlScopes.SqlScopes.ChangeCapacity` | packages/tinkerfin-automation/src/tinkerfin_automation/sqlalchemy.py:412-424 | A new limit reaches the row only when its holders fit, so allocated never exceeds capacity |
| `AutomationSqlScopes.SqlScopes.ReserveScopes` | packages/tinkerfin-automation/src/tinkerfin_automation/sqlalchemy.py:1928-1968 | Reserve global, reserve own, compensate: same verdict and same counts as checking both limits first; the compensation always succeeds |
| `AutomationSqlScopes.SqlScopes.ReleaseScopes` | packages/tinkerfin-automation/src/tinkerfin_automation/sqlalchemy.py:2042-2066 | Both decrements succeed for every admitted execution, so the release error is unreachable, and the counts match |
| `AutomationSqlScopes.PlayHistory` | packages/tinkerfin-automation/src/tinkerfin_automation/sqlalchemy.py:1928-2093 | Over any history of admissions, releases and limit changes every verdict and every count agrees with the in-memory store and the table check holds |
| `AutomationSqlScopes.AfterEventKeepsCounters` | packages/tinkerfin-automation/src/tinkerfin_automation/memory.py:926-963 | Each event of such a history keeps every counter equal to the number of holders |
| `AutomationSqlScopes.HolderIsCounted` | packages/tinkerfin-automation/src/tinkerfin_automation/sqlalchemy.py:2042-2066 | An admitted execution is counted in both of its scopes |
| `Schedules.NextIntervalIsNext` | packages/tinkerfin-automation/src/tinkerfin_automation/schedules.py:296-301 | The division gives the least grid point strictly after the bound |
| `Schedules.SearchDay` | packages/tinkerfin-automation/src/tinkerfin_automation/schedules.py:310-320 | The hour and minute loops find the first matching minute of a day after the bound, or there is none |
| `Schedules.NextCron` | packages/tinkerfin-automation/src/tinkerfin_automation/schedules.py:303-325 | The day search returns the least instant strictly after the bound whose local month, day, weekday, hour and minute are all selected, and fails only if the searched years hold none |
| `Schedules.FiresWhenSelected` | packages/tinkerfin-automation/src/tinkerfin_automation/schedules.py:303-325 | A Cron schedule fires at exactly the UTC times of the local minutes selected in all five fields |
| `Schedules.NextRunAfter` | packages/tinkerfin-automation/src/tinkerfin_automation/schedules.py:275-325 | The least firing strictly after the bound for every kind of schedule; for Cron spelled out over the five fields |
| `Misfires.ScanDue` | packages/tinkerfin-automation/src/tinkerfin_automation/schedules.py:394-407 | The scan lists all the firings of the window in order, or there are at least as many as its limit |
| `Misfires.Materialize` | packages/tinkerfin-automation/src/tinkerfin_automation/schedules.py:360-416 | What each misfire mode selects and reports, by the firings between the wakeup, the catch-up window and now; that the next wakeup is the least firing after now; it fails only if the years searched from the scanned window hold no run, or if the window holds as many firings as the limit of the scan |
| `Misfires.SelectionIsSpelledOut` | packages/tinkerfin-automation/src/tinkerfin_automation/schedules.py:360-416 | Latest selects the last missed instant of the window and catch-up the first ones up to its maximum; the wakeup is reported when it is older than the window or an instant is left out |
| `Misfires.ClosedFormEqualsScan` | packages/tinkerfin-automation/src/tinkerfin_automation/schedules.py:349-392 | From a wakeup on the grid the closed form selects what the scan selects last |
| `Misfires.OffGridDiffers` | packages/tinkerfin-automation/src/tinkerfin_automation/schedules.py:349-392 | From a wakeup off the grid it never does, once the window spans an interval |
| `Misfires.ClosedFormAgreesExactlyOnTheGrid` | packages/tinkerfin-automation/src/tinkerfin_automation/schedules.py:349-392 | With a catch-up window of at least one interval the two agree on the due instants if and only if the wakeup is on the grid |
| `Misfires.ClosedFormAgreesExactly` | packages/tinkerfin-automation/src/tinkerfin_automation/schedules.py:349-392 | For every window and wakeup: they agree exactly when the latest step is a firing if it lies in the window, and otherwise when no firing does |
| `Misfires.LatestFiresWithWakeup` | packages/tinkerfin-automation/src/tinkerfin_automation/schedules.py:349-392 | The latest step from a wakeup is on the grid if and only if the wakeup is, so within the window the grid decides agreement |
| `Misfires.SkippedAgreesExactly` | packages/tinkerfin-automation/src/tinkerfin_automation/schedules.py:387-416 | For every window and wakeup, the exact condition under which both report the same skipped instant |
| `Misfires.SkippedAgreesOnTheGrid` | packages/tinkerfin-automation/src/tinkerfin_automation/schedules.py:387-416 | On the grid they report the same if and only if the wakeup lies in the window or a later instant is due |
| `Misfires.SkippedDiffersOutsideTheWindow` | packages/tinkerfin-automation/src/tinkerfin_automation/schedules.py:387-416 | When the only missed instant lies outside the window the closed form reports nothing skipped and the scan reports the wakeup |
| `ScheduleRaces.StepMovesTask` | packages/tinkerfin-automation/src/tinkerfin_automation/memory.py:189-422 | Any store call leaves a task alone, removes it, raises its revision by one, or materializes its current wakeup |
| `ScheduleRaces.WakeupsNeverGoBack` | packages/tinkerfin-automation/src/tinkerfin_automation/memory.py:354-422 | In any race the wakeup never decreases within one revision |
| `ScheduleRaces.WakeupIsLaterThanMaterialized` | packages/tinkerfin-automation/src/tinkerfin_automation/service.py:750-805 | Within a revision the stored wakeup is later than every instant already materialized |
| `ScheduleRaces.MaterializedInstantsIncrease` | packages/tinkerfin-automation/src/tinkerfin_automation/service.py:750-805 | Within a revision committed instants strictly increase, none is committed twice, and a due wakeup is won by one scheduler only |
| `ScheduleRaces.InstantRepeatsAfterUpdate` | packages/tinkerfin-automation/src/tinkerfin_automation/memory.py:189-422 | A run that commits an instant, restores the wakeup with the next revision, and commits the same instant again |
| `HitlModel.VerdictIsUnique` | packages/tinkerfin-agui-adapter/src/tinkerfin_agui_adapter/hitl.py:178-329 | All complete assignments together give exactly one verdict: none, one value, or many |
| `HitlModel.SolutionsNameTheirCalls` | packages/tinkerfin-agui-adapter/src/tinkerfin_agui_adapter/hitl.py:178-329 | Every solution lists for each group, slot by selected slot, IDs of calls in one message with the action's name and identical arguments |
| `HitlModel.FittingIsIdentical` | packages/tinkerfin-agui-adapter/src/tinkerfin_agui_adapter/hitl.py:103-135 | A call fits an action exactly when name and arguments are identical, or when relaxed also if its arguments could not be decoded |
| `HitlSearch.GroupSearch.Assign` | packages/tinkerfin-agui-adapter/src/tinkerfin_agui_adapter/hitl.py:263-320 | The budgeted backtracking finds none, one or two projections, and misses none unless it found two; its shared lists are restored |
| `HitlSearch.GroupSearch.SearchFrom` | packages/tinkerfin-agui-adapter/src/tinkerfin_agui_adapter/hitl.py:103-135 | The same for the lazy ordered matching inside one message |
| `HitlSearch.ReachesExactlySolutions` | packages/tinkerfin-agui-adapter/src/tinkerfin_agui_adapter/hitl.py:263-320 | What the search can reach is exactly the projections of complete assignments: ordered in one message, disjoint across groups |
| `HitlCorrelation.ProjectionSearch.Search` | packages/tinkerfin-agui-adapter/src/tinkerfin_agui_adapter/hitl.py:138-175 | Each memo cell keeps at most two distinct suffixes, and all of them unless there are two |
| `HitlCorrelation.MatchSingleGroup` | packages/tinkerfin-agui-adapter/src/tinkerfin_agui_adapter/hitl.py:240-259 | The single-group path finds none, one or two ordered projections over all messages |
| `HitlCorrelation.MatchActionGroups` | packages/tinkerfin-agui-adapter/src/tinkerfin_agui_adapter/hitl.py:178-329 | Every argument error, and otherwise the verdict on all complete assignments; a returned value names calls of the reviewed actions; the budget of 100000 states is reported exceeded only when the full search of the problem has more states |
| `HitlCorrelation.SolutionsDecide` | packages/tinkerfin-agui-adapter/src/tinkerfin_agui_adapter/hitl.py:321-329 | Two kept solutions decide none, one or many as well as all of them |
| `HitlCorrelation.SingleGroupAgrees` | packages/tinkerfin-agui-adapter/src/tinkerfin_agui_adapter/hitl.py:240-259 | If no message repeats a call ID among well-formed calls the single-group path gives the verdict of the general search |
| `HitlCorrelation.RepeatedCallSpoilsAgreement` | packages/tinkerfin-agui-adapter/src/tinkerfin_agui_adapter/hitl.py:240-259 | A repeated ID gives a group of two actions with an ordered solution that is no solution |
| `HitlCorrelation.SingleGroupAgreesExactly` | packages/tinkerfin-agui-adapter/src/tinkerfin_agui_adapter/hitl.py:240-259 | The two paths have the same solutions for every group if and only if no message repeats a call ID among its well-formed calls |
| `HitlCorrelation.RepeatedCallServesTwoActions` | packages/tinkerfin-agui-adapter/src/tinkerfin_agui_adapter/hitl.py:240-259 | With a repeated call ID it may not: one call serves two actions of a group |
| `HitlRelevance.RelevanceSearch.Assign` | packages/tinkerfin-agui-adapter/src/tinkerfin_agui_adapter/hitl.py:397-428 | The relaxed search returns a malformed call some placement uses, and nothing only if no placement uses one |
| `HitlRelevance.RelevantMalformedCandidate` | packages/tinkerfin-agui-adapter/src/tinkerfin_agui_adapter/hitl.py:332-428 | A candidate only if some relaxed complete assignment uses a malformed one, and then such a one; none only if no assignment does; the budget is reported exceeded only when the full search has more than 100000 states |
| `HitlRelevance.DecodingChangesNothing` | packages/tinkerfin-agui-adapter/src/tinkerfin_agui_adapter/_adapter_contracts.py:778-801 | If none is relevant, replacing malformed arguments by any values leaves the set of solutions unchanged |
| `HitlRelevance.DecodingKeepsTheVerdict` | packages/tinkerfin-agui-adapter/src/tinkerfin_agui_adapter/_adapter_contracts.py:778-801 | ... and therefore the correlation verdict |
| `AguiEvents.ToolCallsRunOnce` | packages/tinkerfin-agui-adapter/src/tinkerfin_agui_adapter/_adapter_messages.py:424-600 | In an accepted stream each tool call emits at most START, ARGS, END, RESULT in that order, and an earlier request's call only RESULT |
| `AguiEvents.MessagesAlternate` | packages/tinkerfin-agui-adapter/src/tinkerfin_agui_adapter/_adapter_messages.py:303-421 | In an accepted stream START and END alternate per message and per reasoning ID |
| `AguiEvents.AcceptedKeepsSane` | packages/tinkerfin-agui-adapter/src/tinkerfin_agui_adapter/_adapter_messages.py:628-732 | Text and reasoning are never both open in a namespace |
| `AguiEvents.HidingSubgraphsKeepsBalance` | packages/tinkerfin-agui-adapter/src/tinkerfin_agui_adapter/adapter.py:336-359 | Hiding every subgraph event from an accepted stream leaves an accepted stream |
| `AguiEvents.RootEventsAreKept` | packages/tinkerfin-agui-adapter/src/tinkerfin_agui_adapter/adapter.py:336-359 | Hiding keeps every root event as often as it occurs and no other |
| `AguiEvents.ClosingsFit` | packages/tinkerfin-agui-adapter/src/tinkerfin_agui_adapter/adapter.py:422-445 | Closing events that leave nothing open for one client do so for another exactly when the same text, reasoning and calls are open there |
| `AguiState.LateLossIsExact` | packages/tinkerfin-agui-adapter/src/tinkerfin_agui_adapter/_adapter_messages.py:303-456 | A part refused only after it began leaves the same things open exactly when no reasoning was open in its namespace, its open message is the one it leaves, and it starts no call before the stale fragment; other namespaces are untouched |
| `AguiState.ServedAllStartsCalls` | packages/tinkerfin-agui-adapter/src/tinkerfin_agui_adapter/_adapter_messages.py:406-501 | Serving fragments up to a stale one starts calls of its own namespace only, and none exactly when no start of a new call comes before it |
| `AguiResults.SecondResultOfACall` | packages/tinkerfin-agui-adapter/src/tinkerfin_agui_adapter/_adapter_messages.py:504-560 | Of two results for one call in a run the later is accepted if and only if content and effective message ID are equal and the names agree, which for a call known by name means absent or the recorded one; either way nothing changes and nothing is published |
| `AguiResults.NamelessReplayIsRefused` | packages/tinkerfin-agui-adapter/src/tinkerfin_agui_adapter/_adapter_messages.py:529-560 | For an earlier request's call known by no name a result without a name is no replay of the same result with one |
| `AguiResults.ChunkIsSaid` | packages/tinkerfin-agui-adapter/src/tinkerfin_agui_adapter/_adapter_messages.py:303-404 | A chunk publishes its text, attachments and exposed reasoning exactly when it has any |
| `AguiResults.HeartbeatIsSilent` | packages/tinkerfin-agui-adapter/src/tinkerfin_agui_adapter/_adapter_messages.py:303-421 | A chunk with none of these and no fragment publishes nothing, and changes nothing unless it is final |
| `AguiResults.FittingFragmentsAreComplete` | packages/tinkerfin-agui-adapter/src/tinkerfin_agui_adapter/adapter.py:361-420 | Accepted fragments have an index and both ID and name, or neither |
| `AguiState.RunRemembers` | packages/tinkerfin-agui-adapter/src/tinkerfin_agui_adapter/_adapter_tasks.py:318-345 | Over any run known tool names and recorded results never change; a task start that renames a known call is refused |
| `AguiAdapter.Adapter.CloseMessage` | packages/tinkerfin-agui-adapter/src/tinkerfin_agui_adapter/_adapter_messages.py:724-732 | Ends the open message of the namespace, if any, and nothing else |
| `AguiAdapter.Adapter.CloseReasoning` | packages/tinkerfin-agui-adapter/src/tinkerfin_agui_adapter/_adapter_messages.py:699-721 | Ends the reasoning of one namespace in two events |
| `AguiAdapter.Adapter.CloseTool` | packages/tinkerfin-agui-adapter/src/tinkerfin_agui_adapter/_adapter_messages.py:735-749 | Ends a running call once and frees its slot |
| `AguiAdapter.Adapter.CloseToolsIn` | packages/tinkerfin-agui-adapter/src/tinkerfin_agui_adapter/_adapter_messages.py:752-803 | Ends a set of running calls in any order, freeing exactly their slots |
| `AguiAdapter.Adapter.CloseAll` | packages/tinkerfin-agui-adapter/src/tinkerfin_agui_adapter/_adapter_messages.py:764-803 | Closes everything; nothing stays open, and only ENDs are emitted |
| `AguiAdapter.Adapter.EmitReasoning` | packages/tinkerfin-agui-adapter/src/tinkerfin_agui_adapter/_adapter_messages.py:628-696 | The message ends, other reasoning ends, and this one opens or continues; what is emitted apart from ENDs is exactly that |
| `AguiAdapter.Adapter.EmitContent` | packages/tinkerfin-agui-adapter/src/tinkerfin_agui_adapter/_adapter_messages.py:348-404 | Reasoning ends before text or attachments, whose message starts exactly if it was not open |
| `AguiAdapter.Adapter.ValidateFragments` | packages/tinkerfin-agui-adapter/src/tinkerfin_agui_adapter/adapter.py:361-420 | The staged walk accepts exactly the fragments that fit one after another, and changes nothing |
| `AguiAdapter.Adapter.ServeCall` | packages/tinkerfin-agui-adapter/src/tinkerfin_agui_adapter/_adapter_messages.py:463-501 | A new call starts, takes its slot and is named; arguments are appended and passed on exactly while the call runs; nothing else changes |
| `AguiAdapter.Adapter.EmitFragment` | packages/tinkerfin-agui-adapter/src/tinkerfin_agui_adapter/_adapter_messages.py:424-501 | Starts or continues the call of a slot; the branch that closes a replaced call is unreachable; fails exactly on a continuation whose slot is no longer live |
| `AguiAdapter.Adapter.EmitFragments` | packages/tinkerfin-agui-adapter/src/tinkerfin_agui_adapter/_adapter_messages.py:406-416 | Fails exactly when some fragment continues a call that already ended; the events and the state are those of serving the fragments before it |
| `AguiAdapter.Adapter.CloseNamespace` | packages/tinkerfin-agui-adapter/src/tinkerfin_agui_adapter/_adapter_messages.py:417-421 | After a final frame nothing is open in the namespace, and everything else is as before |
| `AguiAdapter.Adapter.ProcessChunk` | packages/tinkerfin-agui-adapter/src/tinkerfin_agui_adapter/_adapter_messages.py:303-421 | The events carry a client from the old view to the new one, and apart from ENDs they are the reasoning, text, attachments and calls of the chunk in order; a heartbeat does nothing, a final frame leaves the namespace idle; what was collected before a late failure is lost |
| `AguiAdapter.Adapter.ProcessToolResult` | packages/tinkerfin-agui-adapter/src/tinkerfin_agui_adapter/_adapter_messages.py:504-600 | Refused exactly on a contradicting name or a conflicting replay, spelled out over two results in `AguiResults.SecondResultOfACall`, and then nothing at all changes; an exact replay emits nothing; a new result completes the call and is recorded |
| `AguiAdapter.Adapter.Process` | packages/tinkerfin-agui-adapter/src/tinkerfin_agui_adapter/adapter.py:298-334 | Exactly which parts are refused, and what each part makes of the whole state: nothing if it is refused by validation; the events of an accepted part carry the client along and are what the part publishes, those of a part that continues an ended call are lost |
| `AguiAdapter.Adapter.Finish` | packages/tinkerfin-agui-adapter/src/tinkerfin_agui_adapter/adapter.py:422-434 | Refused while child interrupts are unresolved; otherwise everything is closed |
| `AguiAdapter.Adapter.Abort` | packages/tinkerfin-agui-adapter/src/tinkerfin_agui_adapter/adapter.py:436-445 | Everything is closed |
| `AguiAdapter.ConvertRun` | packages/tinkerfin-agui-adapter/src/tinkerfin_agui_adapter/adapter.py:298-445 | For every sequence of parts: which part is refused first, that apart from ENDs the stream is what the parts before it publish, and that the stream is accepted to its end with nothing left open if and only if the run did not stop at a part that had lost lifecycle events; with subgraphs hidden, if and only if that part did not belong to the root graph either |
| `AguiAdapter.LateContinuationBreaksBalance` | packages/tinkerfin-agui-adapter/src/tinkerfin_agui_adapter/_adapter_messages.py:446-456 | A run in which such a part makes the client see the end of a message that never started |
| `JsonValues.EqualMeansIdentical` | packages/tinkerfin-agui-adapter/src/tinkerfin_agui_adapter/reasoning.py:37-51 | The recursive comparison is identity of JSON values |
| `JsonPointers.EscapeRoundTrip` | packages/tinkerfin-agui-adapter/src/tinkerfin_agui_adapter/_adapter_messages.py:93-94 | Unescaping by section 4 of RFC 6901 undoes the escaping of any key |
| `JsonPointers.PointerRoundTrip` | packages/tinkerfin-agui-adapter/src/tinkerfin_agui_adapter/_adapter_messages.py:93-94 | A written pointer reads back as its keys |
| `JsonPatches.PatchIsExact` | packages/tinkerfin-agui-adapter/src/tinkerfin_agui_adapter/_adapter_messages.py:97-132 | Applying the patch between two values to the first gives the second, under sections 4.1 to 4.3 of RFC 6902 |
| `JsonPatches.PatchIsEmptyForEqualStates` | packages/tinkerfin-agui-adapter/src/tinkerfin_agui_adapter/_adapter_messages.py:97-132 | The patch is empty exactly when the values are equal |
| `StateReplica.FrameKeepsReplicaExact` | packages/tinkerfin-agui-adapter/src/tinkerfin_agui_adapter/_adapter_tasks.py:663-707 | One values frame carries the client from the adapter's previous state to its current one, and a change is never silent |
| `StateReplica.ReplicaStaysExact` | packages/tinkerfin-agui-adapter/src/tinkerfin_agui_adapter/_adapter_tasks.py:663-707 | Over any run of frames no delta fails and the client holds the adapter's last root state |
| `StateReplica.ClientHoldsTheLastRootState` | packages/tinkerfin-agui-adapter/src/tinkerfin_agui_adapter/_adapter_tasks.py:608-707 | That state is the visible part of the last root frame; the client holds nothing only while every root frame was visibly empty |
| `StateReplica.ClientSeesNothingPrivate` | packages/tinkerfin-agui-adapter/src/tinkerfin_agui_adapter/_adapter_tasks.py:608-707 | The client holds exactly the fields of the last root frame that are neither messages nor private, or nothing while there were none |
| `NamespaceTexts.PathRoundTrip` | packages/tinkerfin-langgraph-store/src/tinkerfin_langgraph_store/_operations.py:107-120 | Decoding a namespace's text gives the namespace back |
| `NamespaceTexts.TextOrderIsPathOrder` | packages/tinkerfin-langgraph-store/src/tinkerfin_langgraph_store/_operations.py:107-110 | The text sorts by bytes exactly as the namespace sorts as a tuple |
| `NamespaceTexts.PrefixRangeIsTuplePrefix` | packages/tinkerfin-langgraph-store/src/tinkerfin_langgraph_store/sqlalchemy.py:158-168 | The byte range selects exactly the namespace and its descendants |
| `DocumentFields.KeysAreExact` | packages/tinkerfin-langgraph-store/src/tinkerfin_langgraph_store/_operations.py:78-98 | Equality keys are equal exactly when the values are, integers and equal floats included, booleans excluded |
| `DocumentFields.BuildRows` | packages/tinkerfin-langgraph-store/src/tinkerfin_langgraph_store/sqlalchemy.py:171-205 | The rows index every field and nothing else, or two fields share a digest |
| `DocumentFields.FilterExpressionIsExact` | packages/tinkerfin-langgraph-store/src/tinkerfin_langgraph_store/sqlalchemy.py:118-155 | Whatever the digests, the subquery holds exactly when the filter holds of the document, where order is that of the rounded numbers |
| `DocumentFields.OrderFiltersCompareNumbers` | packages/tinkerfin-langgraph-store/src/tinkerfin_langgraph_store/sqlalchemy.py:118-155 | `$gt`, `$gte`, `$lt` and `$lte` hold exactly as `>`, `>=`, `<` and `<=` do between the rounded reals; an integer beyond binary64 satisfies exactly the two of its side, a missing field or a non-number none |
| `DocumentTables.OverriddenNext` | packages/tinkerfin-langgraph-store/src/tinkerfin_langgraph_store/sqlalchemy.py:592-642 | Applying the last writes one key at a time, in any order, is overriding the original documents |
| `DocumentQueries.GetIsExact` | packages/tinkerfin-langgraph-store/src/tinkerfin_langgraph_store/sqlalchemy.py:489-509 | A lookup answers for the document map; it fails exactly when a stored document with other identity has the digests of the key |
| `DocumentQueries.RowMatchesDocument` | packages/tinkerfin-langgraph-store/src/tinkerfin_langgraph_store/sqlalchemy.py:511-533 | A row satisfies the search clause exactly when its document matches |
| `DocumentQueries.RowOrderIsDocumentOrder` | packages/tinkerfin-langgraph-store/src/tinkerfin_langgraph_store/sqlalchemy.py:521-527 | The ORDER BY columns order rows as newest first, namespace tuple, key |
| `DocumentQueries.RunSearch` | packages/tinkerfin-langgraph-store/src/tinkerfin_langgraph_store/sqlalchemy.py:511-533 | The page returned is the one direct evaluation on the documents gives |
| `DocumentQueries.SearchAnswerIsUnique` | packages/tinkerfin-langgraph-store/src/tinkerfin_langgraph_store/sqlalchemy.py:511-533 | Direct evaluation of a search has one answer |
| `DocumentQueries.SelectedTextsAreExact` | packages/tinkerfin-langgraph-store/src/tinkerfin_langgraph_store/sqlalchemy.py:535-590 | The listing query selects the texts of exactly the matching namespaces, truncated after matching; locked namespaces without documents do not appear |
| `DocumentQueries.RunList` | packages/tinkerfin-langgraph-store/src/tinkerfin_langgraph_store/sqlalchemy.py:535-590 | The namespaces returned are the page direct evaluation gives, in tuple order |
| `DocumentQueries.ListAnswerIsUnique` | packages/tinkerfin-langgraph-store/src/tinkerfin_langgraph_store/sqlalchemy.py:535-590 | Direct evaluation of a listing has one answer |
| `DocumentStore.Store.LockNamespace` | packages/tinkerfin-langgraph-store/src/tinkerfin_langgraph_store/sqlalchemy.py:448-487 | The namespace's rows are present afterwards and are its projections; it fails exactly when a present namespace with another path has its digest |
| `DocumentStore.Store.Put` | packages/tinkerfin-langgraph-store/src/tinkerfin_langgraph_store/sqlalchemy.py:592-642 | The document and field tables become the projections of the written documents; it fails exactly when a stored document with another identity has the key's digests or two fields of the value share one |
| `DocumentStore.Store.DropIfEmpty` | packages/tinkerfin-langgraph-store/src/tinkerfin_langgraph_store/sqlalchemy.py:430-445 | A namespace's rows are removed exactly when it has no document left |
| `DocumentStore.Store.Batch` | packages/tinkerfin-langgraph-store/src/tinkerfin_langgraph_store/sqlalchemy.py:405-446 | After a committed batch all tables are the projections of the overridden documents and every read was answered from the documents before; corruption leaves the tables unchanged, and two of the identities that are stored or that this batch touches share a digest |
| `DocumentStore.CollisionFreeMeetsNone` | packages/tinkerfin-langgraph-store/src/tinkerfin_langgraph_store/sqlalchemy.py:405-509 | With digests that do not collide, no batch meets a collision |
| `DocumentStore.LastWriteWins` | packages/tinkerfin-langgraph-store/src/tinkerfin_langgraph_store/sqlalchemy.py:370-372 | The last write of a key decides, and a key that existed keeps its creation time while a new one gets the time of the batch |
| `DocumentStore.UnwrittenIsKept` | packages/tinkerfin-langgraph-store/src/tinkerfin_langgraph_store/sqlalchemy.py:405-446 | A key without a write keeps its document |
| `InterruptReviews.Publish` | packages/tinkerfin-agui-adapter/src/tinkerfin_agui_adapter/_adapter_contracts.py:591-658 | One interrupt per action, group by group in action order |
| `InterruptReviews.ActionsHaveDifferentIds` | packages/tinkerfin-agui-adapter/src/tinkerfin_agui_adapter/_adapter_contracts.py:591-658 | The actions of one group go by different public IDs |
| `InterruptReviews.GroupPrepared` | packages/tinkerfin-agui-adapter/src/tinkerfin_agui_adapter/_adapter_contracts.py:288-310 | Cutting by native sizes restores a partition of what was published, and fails exactly when the sizes do not add up |
| `InterruptReviews.RegroupingRestoresGroups` | packages/tinkerfin-agui-adapter/src/tinkerfin_agui_adapter/_adapter_contracts.py:288-310 | Regrouping what was published gives back the groups |
| `InterruptReviews.CollectGroups` | packages/tinkerfin-agui-adapter/src/tinkerfin_agui_adapter/resume.py:478-551 | Succeeds exactly on parsable interrupts with distinct calls, IDs and positions and consistent groups; slots hold exactly their calls |
| `InterruptReviews.ConsistencyIsSpelledOut` | packages/tinkerfin-agui-adapter/src/tinkerfin_agui_adapter/resume.py:478-551 | Interrupts are consistent exactly when each repeats its action's public ID, name, arguments and policy, and no two share a call, an ID or a position |
| `InterruptReviews.Collect` | packages/tinkerfin-agui-adapter/src/tinkerfin_agui_adapter/resume.py:478-569 | Succeeds exactly when, in addition, every group is complete |
| `InterruptReviews.PublicationIsConsistent` | packages/tinkerfin-agui-adapter/src/tinkerfin_agui_adapter/resume.py:478-569 | A publication with distinct IDs, in any order, is consistent and complete |
| `InterruptReviews.RoundTrip` | packages/tinkerfin-agui-adapter/src/tinkerfin_agui_adapter/resume.py:478-569 | Collecting a publication in any order recovers the same groups, calls in action order, names and allowed decisions |
| `ReviewDecisions.CountGroups` | packages/tinkerfin-agui-adapter/src/tinkerfin_agui_adapter/resume.py:362-370 | Counting pending actions gives each group's size |
| `ReviewDecisions.Translate` | packages/tinkerfin-agui-adapter/src/tinkerfin_agui_adapter/resume.py:344-475 | Entries in any order are accepted exactly when each pending action has one acceptable entry; the mode is abandon, command or custom as all, none or some were cancelled; a command is never incomplete, and the cancelled IDs keep their order |
| `ReviewDecisions.CollectedFillsGroups` | packages/tinkerfin-agui-adapter/src/tinkerfin_agui_adapter/resume.py:344-370 | Whatever was collected successfully has each action of each group pending under one public ID, which is what the translation relies on |
| `ReviewDecisions.ResumePublished` | packages/tinkerfin-agui-adapter/src/tinkerfin_agui_adapter/resume.py:344-569 | From publication through collection in any order to translation: the entries are accepted exactly when every published action has one acceptable entry, and each decision reaches the native slot of the action it was shown for |
| `ReviewDecisions.EmptyMeansCancelled` | packages/tinkerfin-agui-adapter/src/tinkerfin_agui_adapter/resume.py:372-396 | A decision slot is empty exactly when its entry was cancelled, and otherwise holds that entry's decision |
| `ExpiryIndex.Index.Set` | packages/tinkerfin-messaging/src/tinkerfin_messaging/_capacity.py:32-40 | Updates the deadline map, and the heap holds at most twice the live entries plus 64 |
| `ExpiryIndex.Index.PopDue` | packages/tinkerfin-messaging/src/tinkerfin_messaging/_capacity.py:42-48 | Removes the least live deadline that is due, or none is due; stale entries never surface |
| `ExpiryIndex.LeastEntryExists` | packages/tinkerfin-messaging/src/tinkerfin_messaging/_capacity.py:42-48 | A nonempty heap has a least entry in tuple order |

## Left out

- Reading the clock and drawing tokens and identifiers: the store's clock is read once per operation and passed in, random values are parameters.
- SHA-256 and uuid5: digests of the document store are arbitrary functions; the execution identity is an injective function of its namespace and occurrence.
- AutomationMemory.MemoryStore.EnqueueExecution: execution identities carry their namespace, as the derived identifiers do, so a snapshot whose identity was derived from another namespace is not modelled.
- AutomationMemory.MemoryStore.MaterializeTask: the same for the snapshots it is given; identities already stored are allowed.
- Work item identifiers: an item is identified by namespace, execution and kind, of which the store keeps one each; the random identifier remains a sort key, and the request kind is part of the key.
- Text validation (surrounding whitespace beyond ASCII, NUL, lengths), deep-copied snapshots, getters and paging of the stores: field checks and projections of one record.
- Asynchronous locks, task ownership, shielding, shutdown and lease-renewal timing of the engine: each store operation is one atomic step and the engine's steps may come at any time.
- SQL text, dialects, transaction retries and isolation: each statement is modelled by its effect on rows, and a failed document batch by restoring the rows it had.
- The SQL automation store beyond its admission counters: claims, transitions and commands repeat the in-memory store with rows.
- Cron text parsing, calendar arithmetic and the time zone database: a compiled expression is a set per field, days are numbered with year, month, day and weekday functions, and local time maps to UTC by a partial function that is strictly increasing.
- Floating-point seconds in interval arithmetic: instants and intervals are exact integers, so rounding of very long spans is not modelled.
- Private provider data and JSON normalization in adapter events, message snapshots, raw events and task provenance: they carry no lifecycle.
- The check that a subgraph was started before its messages: it refuses parts before any change.
- Scoped identifiers: public message and tool identifiers are pairs of namespace and native identifier, which the encoding maps injectively.
- JSON Patch on arrays: the adapter replaces arrays as a whole, so pointers never enter one and the client model fails on them.
- The comparison of a resumed decision with its allowed decisions and argument schema: a parameter of the translation.
- Runtime (non-review) interrupts, buffering of child interrupts and replay of committed interrupts: they are passed through or compared as whole values.
- The heap library: taken by its contract, a multiset with a least entry.
- Media, server-sent events, the content batcher, Studio and packaging: small beside the rest or user interface.

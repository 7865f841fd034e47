/**
  The store as a value and its atomic operations as functions of that value. The store's lock makes
  each operation one step; the clock is read once per step and passed in as `now`, and random
  identifiers and tokens are parameters. A work item is identified by its key: there is at most one
  item of each kind for an execution.
 */
module AutomationStore {
  import opened Outcomes
  import opened AutomationModel
  import opened AutomationRules

  datatype RecordLimits = RecordLimits(maxTasks: nat, maxExecutions: nat, maxWorkItems: nat, maxOperations: nat)

  datatype Store = Store(
    limits: RecordLimits,
    closed: bool,
    tasks: map<string, Task>,
    executions: map<ExecutionId, Execution>,
    occurrences: map<(string, string), ExecutionId>,
    work: map<WorkKey, WorkItem>,
    operations: map<OperationKey, Operation>,
    allocations: map<Scope, nat>,
    admitted: set<ExecutionId>)

  /** A new store holds no facts. */
  function Empty(limits: RecordLimits): Store {
    Store(limits, false, map[], map[], map[], map[], map[], map[], {})
  }

  /** The store after an operation, with what the caller is told. */
  datatype Step<+T> = Step(store: Store, outcome: Outcome<T, StoreError>)

  function Refused<T>(store: Store, error: StoreError): Step<T> {
    Step(store, Err(error))
  }

  function KeyFor(id: ExecutionId, kind: WorkKind): WorkKey {
    WorkKey(id.namespace, id, kind)
  }

  /** Items are stored under their keys and name stored executions. */
  predicate WorkResolves(executions: map<ExecutionId, Execution>, work: map<WorkKey, WorkItem>) {
    forall k :: k in work ==> work[k].Key() == k && k.executionId in executions && k.namespace == k.executionId.namespace
  }

  predicate ExecutionsNamed(executions: map<ExecutionId, Execution>) {
    forall id :: id in executions ==> executions[id].id == id && executions[id].namespace == id.namespace
  }

  predicate OccurrencesResolve(executions: map<ExecutionId, Execution>, occurrences: map<(string, string), ExecutionId>) {
    forall o :: o in occurrences ==> occurrences[o] in executions
  }

  /** References between the maps resolve. */
  predicate WellShaped(store: Store) {
    && WorkResolves(store.executions, store.work)
    && ExecutionsNamed(store.executions)
    && OccurrencesResolve(store.executions, store.occurrences)
  }

  // ---------------------------------------------------------------- work items

  function CreateWork(store: Store, execution: Execution, kind: WorkKind, availableAt: Time, now: Time, uuid: nat): Store {
    var key := WorkKey(execution.namespace, execution.id, kind);
    var item :=
      if key in store.work then store.work[key].Unowned(Pending).(availableAt := availableAt)
      else WorkItem(uuid, execution.namespace, execution.id, kind, availableAt, now, Pending, None, None, 0, None);
    store.(work := store.work[key := item])
  }

  predicate IsCompleted(completeWork: CompleteWork, id: ExecutionId, item: Option<WorkKey>, key: WorkKey) {
    || (completeWork.CompleteAll? && key.executionId == id)
    || (completeWork.CompleteCurrent? && item == Some(key))
  }

  /** The work after a transition of execution `id`, decided for `item` when there is one. */
  function CompleteItems(work: map<WorkKey, WorkItem>, completeWork: CompleteWork, id: ExecutionId, item: Option<WorkKey>):
    map<WorkKey, WorkItem>
  {
    map k | k in work :: if IsCompleted(completeWork, id, item, k) then work[k].Unowned(Completed) else work[k]
  }

  // ---------------------------------------------------------------- capacity

  function Decremented(allocations: map<Scope, nat>, scope: Scope): map<Scope, nat> {
    var count := Lookup(allocations, scope, 0);
    if count <= 1 then allocations - {scope} else allocations[scope := count - 1]
  }

  function Incremented(allocations: map<Scope, nat>, scope: Scope): map<Scope, nat> {
    allocations[scope := Lookup(allocations, scope, 0) + 1]
  }

  /** Whether an execution not yet admitted fits under both of its limits. */
  predicate HasCapacity(store: Store, execution: Execution, globalConcurrency: int) {
    && Lookup(store.allocations, GlobalScope(execution.namespace), 0) < globalConcurrency
    && Lookup(store.allocations, ExecutionScope(execution), 0) < execution.limits.maxConcurrentRuns
  }

  function ReserveScopes(store: Store, execution: Execution): Store {
    store.(
      allocations := Incremented(Incremented(store.allocations, GlobalScope(execution.namespace)), ExecutionScope(execution)),
      admitted := store.admitted + {execution.id})
  }

  function ReleaseScopes(store: Store, execution: Execution): Store {
    if execution.id !in store.admitted then store
    else
      store.(
        allocations := Decremented(Decremented(store.allocations, GlobalScope(execution.namespace)), ExecutionScope(execution)),
        admitted := store.admitted - {execution.id})
  }

  // ---------------------------------------------------------------- transitions

  /** Whether the deadline item named by the transition can be created. */
  predicate DeadlineWorkFits(store: Store, transition: Transition) {
    && transition.deadlineWorkAt.Some?
    && WorkKey(transition.execution.namespace, transition.execution.id, ExpireInterrupt) !in store.work
    ==> |store.work| < store.limits.maxWorkItems
  }

  /** The execution saved and its work completed as the transition says. */
  function Settled(store: Store, transition: Transition, item: Option<WorkKey>): Store {
    var id := transition.execution.id;
    store.(executions := store.executions[id := transition.execution],
           work := CompleteItems(store.work, transition.completeWork, id, item))
  }

  /** ... and its capacity released, when the transition says so. */
  function Released(store: Store, transition: Transition, item: Option<WorkKey>): Store {
    var settled := Settled(store, transition, item);
    if transition.releaseCapacity then ReleaseScopes(settled, transition.execution) else settled
  }

  /** Commit a transition; `item` is the claimed item it was decided for, when there is one. */
  function ApplyTransition(store: Store, transition: Transition, item: Option<WorkKey>, now: Time, uuid: nat): Step<Execution> {
    var execution := transition.execution;
    if !DeadlineWorkFits(store, transition) then Refused(store, CapacityExhausted)
    else
      var released := Released(store, transition, item);
      match transition.deadlineWorkAt
      case Some(at) => Step(CreateWork(released, execution, ExpireInterrupt, at, now, uuid), Ok(execution))
      case None => Step(released, Ok(execution))
  }

  /** The transition concerns a stored execution and keeps its identity. */
  predicate Concerns(store: Store, transition: Transition) {
    && transition.execution.id in store.executions
    && transition.execution.namespace == transition.execution.id.namespace
  }

  lemma SettledShape(store: Store, transition: Transition, item: Option<WorkKey>)
    requires WellShaped(store) && Concerns(store, transition)
    ensures WellShaped(Settled(store, transition, item))
    ensures Settled(store, transition, item).work.Keys == store.work.Keys
  {
  }

  lemma ReleasedShape(store: Store, transition: Transition, item: Option<WorkKey>)
    requires WellShaped(store) && Concerns(store, transition)
    ensures WellShaped(Released(store, transition, item))
    ensures Released(store, transition, item).work.Keys == store.work.Keys
    ensures Released(store, transition, item).executions.Keys == store.executions.Keys
  {
    SettledShape(store, transition, item);
  }

  lemma CreateWorkShape(store: Store, execution: Execution, kind: WorkKind, availableAt: Time, now: Time, uuid: nat)
    requires WellShaped(store) && execution.id in store.executions && execution.namespace == execution.id.namespace
    ensures WellShaped(CreateWork(store, execution, kind, availableAt, now, uuid))
  {
  }

  lemma TransitionShape(store: Store, transition: Transition, item: Option<WorkKey>, now: Time, uuid: nat)
    requires WellShaped(store) && Concerns(store, transition)
    ensures WellShaped(ApplyTransition(store, transition, item, now, uuid).store)
  {
    ReleasedShape(store, transition, item);
    if transition.deadlineWorkAt.Some? {
      CreateWorkShape(Released(store, transition, item), transition.execution, ExpireInterrupt,
                      transition.deadlineWorkAt.value, now, uuid);
    }
  }

  // ---------------------------------------------------------------- claims

  predicate IsExpired(item: WorkItem, namespace: string, now: Time) {
    && item.namespace == namespace
    && item.status.Claimed?
    && item.leaseUntil.Some?
    && item.leaseUntil.value <= now
  }

  /** The executable work of this execution is owned by an expired claim. */
  predicate LostClaim(store: Store, id: ExecutionId, namespace: string, now: Time) {
    KeyFor(id, Execute) in store.work && IsExpired(store.work[KeyFor(id, Execute)], namespace, now)
  }

  /** What becomes of an item whose claim expired: finished if its start was authorized, else available again. */
  function RecoveredItem(item: WorkItem, execution: Execution, now: Time): WorkItem {
    item.Unowned(if RecoverExpiredClaim(execution, item.kind, now).completeWork.CompleteNone? then Pending else Completed)
  }

  function RecoveredExecutions(store: Store, namespace: string, now: Time): map<ExecutionId, Execution> {
    map id | id in store.executions ::
      if LostClaim(store, id, namespace, now) then RecoverExpiredClaim(store.executions[id], Execute, now).execution
      else store.executions[id]
  }

  function RecoveredWork(store: Store, namespace: string, now: Time): map<WorkKey, WorkItem>
    requires WorkResolves(store.executions, store.work)
  {
    map k | k in store.work ::
      if IsExpired(store.work[k], namespace, now) then RecoveredItem(store.work[k], store.executions[k.executionId], now)
      else store.work[k]
  }

  /** Recovery of every expired claim of a namespace. */
  function RecoverClaims(store: Store, namespace: string, now: Time): Store
    requires WellShaped(store)
  {
    store.(executions := RecoveredExecutions(store, namespace, now), work := RecoveredWork(store, namespace, now))
  }

  predicate IsDue(item: WorkItem, namespace: string, now: Time) {
    && item.namespace == namespace
    && item.status.Pending?
    && item.availableAt <= now
  }

  /** Claim order: availability, then creation, then identifier. */
  predicate ClaimsBefore(a: WorkItem, b: WorkItem) {
    || a.availableAt < b.availableAt
    || (a.availableAt == b.availableAt && a.createdAt < b.createdAt)
    || (a.availableAt == b.availableAt && a.createdAt == b.createdAt && a.uuid <= b.uuid)
  }

  /** `candidates` are the due items of the namespace, each once, in claim order. */
  predicate IsClaimOrder(work: map<WorkKey, WorkItem>, namespace: string, now: Time, candidates: seq<WorkKey>) {
    && (forall i :: 0 <= i < |candidates| ==> candidates[i] in work && IsDue(work[candidates[i]], namespace, now))
    && (forall k :: k in work && IsDue(work[k], namespace, now) ==> k in candidates)
    && (forall i, j :: 0 <= i < j < |candidates| ==>
          candidates[i] != candidates[j] && ClaimsBefore(work[candidates[i]], work[candidates[j]]))
  }

  datatype ClaimRequest = ClaimRequest(
    namespace: string, workerId: string, limit: int, leaseDuration: Time, globalConcurrency: int)

  datatype Claiming = Claiming(store: Store, claims: seq<Claim>)

  /** The item is executable work whose execution does not fit under its limits. */
  predicate IsRefusedAdmission(store: Store, item: WorkItem, execution: Execution, globalConcurrency: int) {
    && item.kind.Execute?
    && execution.id !in store.admitted
    && !HasCapacity(store, execution, globalConcurrency)
  }

  /** Executable work is admitted once; other work needs no admission. */
  function Admit(store: Store, item: WorkItem): (r: Store)
    requires item.executionId in store.executions
    ensures r == store.(allocations := r.allocations, admitted := r.admitted)
  {
    var execution := store.executions[item.executionId];
    if item.kind.Execute? && execution.id !in store.admitted then ReserveScopes(store, execution) else store
  }

  /** Hand out a fenced lease, admitting the execution of executable work. */
  function Lease(store: Store, key: WorkKey, request: ClaimRequest, now: Time, token: Token): Store
    requires key in store.work && store.work[key].executionId in store.executions
  {
    var item := store.work[key];
    var leased := item.(status := Claimed, workerId := Some(request.workerId), claimToken := Some(token),
                        fence := item.fence + 1, leaseUntil := Some(now + request.leaseDuration));
    Admit(store, item).(work := store.work[key := leased])
  }

  /** One candidate of the claim loop: settle stale work, or admit and lease it. */
  function ClaimItem(current: Claiming, request: ClaimRequest, now: Time, token: Token, key: WorkKey): (r: Claiming)
    requires WellShaped(current.store) && key in current.store.work
  {
    var store := current.store;
    var item := store.work[key];
    var execution := store.executions[item.executionId];
    match ClaimCandidate(execution, item.kind, now)
    case Some(transition) => current.(store := ApplyTransition(store, transition, Some(key), now, 0).store)
    case None =>
      if IsRefusedAdmission(store, item, execution, request.globalConcurrency) then current
      else
        Claiming(Lease(store, key, request, now, token),
                 current.claims + [Claim(key, token, item.fence + 1, now + request.leaseDuration)])
  }

  lemma LeaseShape(store: Store, key: WorkKey, request: ClaimRequest, now: Time, token: Token)
    requires WellShaped(store) && key in store.work
    ensures WellShaped(Lease(store, key, request, now, token))
    ensures Lease(store, key, request, now, token).work.Keys == store.work.Keys
  {
  }

  lemma ClaimItemShape(current: Claiming, request: ClaimRequest, now: Time, token: Token, key: WorkKey)
    requires WellShaped(current.store) && key in current.store.work
    ensures
      var next := ClaimItem(current, request, now, token, key);
      WellShaped(next.store) && next.store.work.Keys == current.store.work.Keys
  {
    hide Released, Lease, IsRefusedAdmission, OccurrencesResolve;
    var item := current.store.work[key];
    var transition := ClaimCandidate(current.store.executions[item.executionId], item.kind, now);
    if transition.Some? {
      ReleasedShape(current.store, transition.value, Some(key));
    } else {
      LeaseShape(current.store, key, request, now, token);
    }
  }

  /** The claim loop over ordered candidates; it stops once `limit` claims are out. */
  function ClaimItems(current: Claiming, request: ClaimRequest, now: Time, tokens: nat -> Token, candidates: seq<WorkKey>): Claiming
    requires WellShaped(current.store)
    requires forall i :: 0 <= i < |candidates| ==> candidates[i] in current.store.work
    decreases |candidates|
  {
    if candidates == [] || |current.claims| >= request.limit then current
    else
      ClaimItemShape(current, request, now, tokens(|current.claims|), candidates[0]);
      var next := ClaimItem(current, request, now, tokens(|current.claims|), candidates[0]);
      ClaimItems(next, request, now, tokens, candidates[1..])
  }

  predicate IsValidClaimRequest(request: ClaimRequest) {
    request.limit >= 1 && request.leaseDuration > 0 && request.globalConcurrency >= 1
  }

  lemma RecoveredExecutionsNamed(store: Store, namespace: string, now: Time)
    requires ExecutionsNamed(store.executions)
    ensures ExecutionsNamed(RecoveredExecutions(store, namespace, now))
    ensures RecoveredExecutions(store, namespace, now).Keys == store.executions.Keys
  {
  }

  lemma RecoveryKeepsShape(store: Store, namespace: string, now: Time)
    requires WellShaped(store)
    ensures WellShaped(RecoverClaims(store, namespace, now))
    ensures RecoverClaims(store, namespace, now).work.Keys == store.work.Keys
  {
    RecoveredExecutionsNamed(store, namespace, now);
    assert RecoveredWork(store, namespace, now).Keys == store.work.Keys;
  }

  /** `candidates` is the claim order of the store once expired claims are recovered. */
  function ClaimWork(store: Store, request: ClaimRequest, now: Time, tokens: nat -> Token, candidates: seq<WorkKey>): Step<seq<Claim>>
    requires WellShaped(store)
    requires IsClaimOrder(RecoverClaims(store, request.namespace, now).work, request.namespace, now, candidates)
  {
    if !IsValidClaimRequest(request) then Refused(store, InvalidArgument)
    else if store.closed then Refused(store, StoreClosed)
    else
      RecoveryKeepsShape(store, request.namespace, now);
      var result := ClaimItems(Claiming(RecoverClaims(store, request.namespace, now), []), request, now, tokens, candidates);
      Step(result.store, Ok(result.claims))
  }

  /** Whether the claim is still the owner of its item. */
  predicate ValidClaim(store: Store, claim: Claim, now: Time) {
    && claim.item in store.work
    && var item := store.work[claim.item];
    && item.status.Claimed?
    && item.claimToken == Some(claim.claimToken)
    && item.fence == claim.fence
    && item.leaseUntil.Some?
    && now < item.leaseUntil.value
  }

  function RenewClaim(store: Store, claim: Claim, leaseDuration: Time, now: Time): Step<Claim> {
    if leaseDuration <= 0 then Refused(store, InvalidArgument)
    else if store.closed then Refused(store, StoreClosed)
    else if !ValidClaim(store, claim, now) then Refused(store, ClaimLost)
    else
      var item := store.work[claim.item].(leaseUntil := Some(now + leaseDuration));
      Step(store.(work := store.work[claim.item := item]), Ok(claim.(leaseUntil := now + leaseDuration)))
  }

  function AuthorizeClaim(store: Store, claim: Claim, executionTimeout: Time, now: Time, startToken: Token): Step<Execution>
    requires WellShaped(store)
  {
    if executionTimeout <= 0 then Refused(store, InvalidArgument)
    else if store.closed then Refused(store, StoreClosed)
    else if !ValidClaim(store, claim, now) then Refused(store, ClaimLost)
    else
      var item := store.work[claim.item];
      var execution := store.executions[item.executionId];
      match AuthorizeStart(execution, item.kind, execution.id in store.admitted, now, executionTimeout, startToken)
      case Err(error) => Refused(store, error)
      case Ok(started) => Step(store.(executions := store.executions[execution.id := started]), Ok(started))
  }

  function MarkInterrupted(store: Store, claim: Claim, interruptIds: seq<string>, now: Time, uuid: nat): Step<Execution>
    requires WellShaped(store)
  {
    if interruptIds == [] then Refused(store, InvalidArgument)
    else if store.closed then Refused(store, StoreClosed)
    else if !ValidClaim(store, claim, now) then Refused(store, ClaimLost)
    else
      match InterruptExecution(store.executions[claim.item.executionId], interruptIds, now)
      case Err(error) => Refused(store, error)
      case Ok(transition) => ApplyTransition(store, transition, Some(claim.item), now, uuid)
  }

  datatype Settlement = Settlement(
    status: ExecutionStatus, result: Option<Payload>, failureCode: Option<string>, failureMessage: Option<string>)

  function FinishClaim(store: Store, claim: Claim, settlement: Settlement, now: Time): Step<Execution>
    requires WellShaped(store)
  {
    if !IsFinishStatus(settlement.status) then Refused(store, InvalidArgument)
    else if store.closed then Refused(store, StoreClosed)
    else if !ValidClaim(store, claim, now) then Refused(store, ClaimLost)
    else
      match FinishExecution(store.executions[claim.item.executionId], settlement.status, now,
                            settlement.result, settlement.failureCode, settlement.failureMessage)
      case Err(error) => Refused(store, error)
      case Ok(transition) => ApplyTransition(store, transition, Some(claim.item), now, 0)
  }

  // ---------------------------------------------------------------- commands and their log

  /** Who issued a command; a command without a request ID is not recorded. */
  datatype Command = Command(namespace: string, ownerId: string, requestId: Option<string>, inputDigest: string)
  {
    function Key(): OperationKey
      requires requestId.Some?
    {
      OperationKey(namespace, ownerId, requestId.value)
    }
  }

  /** The recorded result of a repeated command, or the refusal of a reused request ID. */
  function RecordedResult(store: Store, command: Command): Outcome<Option<OperationResult>, StoreError> {
    if command.requestId.None? || command.Key() !in store.operations then Ok(None)
    else
      var operation := store.operations[command.Key()];
      if operation.inputDigest != command.inputDigest then Err(RequestConflict) else Ok(Some(operation.result))
  }

  /** The log holds this result for exactly this command. */
  predicate IsRecorded(store: Store, command: Command, result: OperationResult) {
    && command.requestId.Some?
    && command.Key() in store.operations
    && store.operations[command.Key()] == Operation(command.inputDigest, result)
  }

  predicate OperationFits(store: Store, command: Command) {
    command.requestId.Some? ==> |store.operations| < store.limits.maxOperations
  }

  function SaveOperation(store: Store, command: Command, result: OperationResult): Store {
    if command.requestId.None? then store
    else store.(operations := store.operations[command.Key() := Operation(command.inputDigest, result)])
  }

  function ExpectTask(result: OperationResult): Outcome<Task, StoreError> {
    if result.TaskResult? then Ok(result.task) else Err(InvalidResultType)
  }

  function ExpectExecution(result: OperationResult): Outcome<Execution, StoreError> {
    if result.ExecutionResult? then Ok(result.execution) else Err(InvalidResultType)
  }

  function ExpectDeletion(result: OperationResult): Outcome<(), StoreError> {
    if result.DeletedTask? then Ok(()) else Err(InvalidResultType)
  }

  predicate OwnsTask(store: Store, namespace: string, ownerId: string, taskId: string) {
    && taskId in store.tasks
    && store.tasks[taskId].namespace == namespace
    && store.tasks[taskId].ownerId == ownerId
  }

  predicate OwnsExecution(store: Store, namespace: string, ownerId: string, id: ExecutionId) {
    && id in store.executions
    && store.executions[id].namespace == namespace
    && store.executions[id].ownerId == ownerId
  }

  function CreateTask(store: Store, task: Task, requestId: Option<string>, inputDigest: string): Step<Task> {
    var command := Command(task.namespace, task.ownerId, requestId, inputDigest);
    if store.closed then Refused(store, StoreClosed)
    else
      match RecordedResult(store, command)
      case Err(error) => Refused(store, error)
      case Ok(Some(previous)) => Step(store, ExpectTask(previous))
      case Ok(None) =>
        if task.id in store.tasks then Refused(store, TaskConflict)
        else if |store.tasks| >= store.limits.maxTasks then Refused(store, CapacityExhausted)
        else if !OperationFits(store, command) then Refused(store, CapacityExhausted)
        else Step(SaveOperation(store.(tasks := store.tasks[task.id := task]), command, TaskResult(task)), Ok(task))
  }

  function UpdateTask(store: Store, task: Task, expectedRevision: int, requestId: Option<string>, inputDigest: string): Step<Task> {
    var command := Command(task.namespace, task.ownerId, requestId, inputDigest);
    if store.closed then Refused(store, StoreClosed)
    else
      match RecordedResult(store, command)
      case Err(error) => Refused(store, error)
      case Ok(Some(previous)) => Step(store, ExpectTask(previous))
      case Ok(None) =>
        if !OwnsTask(store, task.namespace, task.ownerId, task.id) then Refused(store, TaskNotFound)
        else if store.tasks[task.id].revision != expectedRevision then Refused(store, TaskConflict)
        else if task.revision != expectedRevision + 1 then Refused(store, TaskConflict)
        else if !OperationFits(store, command) then Refused(store, CapacityExhausted)
        else Step(SaveOperation(store.(tasks := store.tasks[task.id := task]), command, TaskResult(task)), Ok(task))
  }

  /** The queued executions of a task. */
  function QueuedForTask(store: Store, taskId: string): set<ExecutionId> {
    set id | id in store.executions && store.executions[id].taskId == Some(taskId) && store.executions[id].status.Queued?
  }

  /** Cancel a sequence of stored executions, one transition at a time. */
  function CancelAll(store: Store, ids: seq<ExecutionId>, now: Time): Store
    requires forall id :: id in ids ==> id in store.executions
    decreases |ids|
  {
    if ids == [] then store
    else
      var last := |ids| - 1;
      var earlier := CancelAll(store, ids[..last], now);
      match CancelExecution(store.executions[ids[last]], now)
      case Err(_) => earlier
      case Ok(transition) => ApplyTransition(earlier, transition, None, now, 0).store
  }

  /** `ids` lists the queued executions of the task in storage order. */
  function DeleteTask(store: Store, command: Command, taskId: string, expectedRevision: int, now: Time, ids: seq<ExecutionId>): Step<()>
    requires forall id :: id in ids ==> id in QueuedForTask(store, taskId)
  {
    if store.closed then Refused(store, StoreClosed)
    else
      match RecordedResult(store, command)
      case Err(error) => Refused(store, error)
      case Ok(Some(previous)) => Step(store, ExpectDeletion(previous))
      case Ok(None) =>
        if !OwnsTask(store, command.namespace, command.ownerId, taskId) then Refused(store, TaskNotFound)
        else if store.tasks[taskId].revision != expectedRevision then Refused(store, TaskConflict)
        else if !OperationFits(store, command) then Refused(store, CapacityExhausted)
        else
          assert forall id :: id in ids ==> id in QueuedForTask(store, taskId) && id in store.executions;
          var cancelled := CancelAll(store.(tasks := store.tasks - {taskId}), ids, now);
          Step(SaveOperation(cancelled, command, DeletedTask(taskId)), Ok(()))
  }

  function QueuedInScope(store: Store, scope: Scope): set<ExecutionId> {
    set id | id in store.executions && ExecutionScope(store.executions[id]) == scope && store.executions[id].status.Queued?
  }

  /** Persist a new execution with its occurrence and its executable work. */
  function AddExecution(store: Store, execution: Execution, occurrence: string, now: Time, uuid: nat): Store {
    CreateWork(
      store.(executions := store.executions[execution.id := execution],
             occurrences := store.occurrences[(execution.namespace, occurrence) := execution.id]),
      execution, Execute, execution.queuedAt, now, uuid)
  }

  function EnqueueExecution(
    store: Store, execution: Execution, occurrence: string, requestId: Option<string>, inputDigest: string,
    expectedTaskRevision: Option<int>, now: Time, uuid: nat
  ): Step<Execution>
    requires WellShaped(store)
  {
    var command := Command(execution.namespace, execution.ownerId, requestId, inputDigest);
    if store.closed then Refused(store, StoreClosed)
    else
      match RecordedResult(store, command)
      case Err(error) => Refused(store, error)
      case Ok(Some(previous)) => Step(store, ExpectExecution(previous))
      case Ok(None) =>
        if (execution.namespace, occurrence) in store.occurrences then
          Step(store, Ok(store.executions[store.occurrences[(execution.namespace, occurrence)]]))
        else if !execution.status.Queued? then Refused(store, InvalidArgument)
        else if execution.id in store.executions then Refused(store, RequestConflict)
        else
          match TaskPrecondition(store, execution, expectedTaskRevision)
          case Some(error) => Refused(store, error)
          case None =>
            if |QueuedInScope(store, ExecutionScope(execution))| + 1 > execution.limits.maxQueuedRuns then Refused(store, QueueFull)
            else if |store.executions| >= store.limits.maxExecutions then Refused(store, CapacityExhausted)
            else if !OperationFits(store, command) then Refused(store, CapacityExhausted)
            else if |store.work| >= store.limits.maxWorkItems then Refused(store, CapacityExhausted)
            else
              var added := AddExecution(store, execution, occurrence, now, uuid);
              Step(SaveOperation(added, command, ExecutionResult(execution)), Ok(execution))
  }

  /** New task-backed work needs its task, at the expected revision when one is given. */
  function TaskPrecondition(store: Store, execution: Execution, expectedTaskRevision: Option<int>): Option<StoreError> {
    if execution.retryOf.None? && execution.taskId.Some? then
      if !OwnsTask(store, execution.namespace, execution.ownerId, execution.taskId.value) then Some(TaskNotFound)
      else if expectedTaskRevision.None? then None
      else if expectedTaskRevision.value < 1 then Some(InvalidArgument)
      else if store.tasks[execution.taskId.value].revision != expectedTaskRevision.value then Some(TaskConflict)
      else None
    else if expectedTaskRevision.Some? then Some(InvalidArgument)
    else None
  }

  /** Persist a sequence of new executions of one task. */
  function AddExecutions(store: Store, pending: seq<ScheduledExecution>, now: Time, uuids: nat -> nat): Store
    decreases |pending|
  {
    if pending == [] then store
    else
      var last := |pending| - 1;
      AddExecution(AddExecutions(store, pending[..last], now, uuids),
                   pending[last].execution, pending[last].occurrence, now, uuids(last))
  }

  datatype Materialization = Materialization(task: Task, executions: seq<Execution>)

  function ExistingOccurrences(store: Store, namespace: string): set<string> {
    set o | o in store.occurrences && o.0 == namespace :: o.1
  }

  function ExecutionsOf(pending: seq<ScheduledExecution>): seq<Execution> {
    seq(|pending|, i requires 0 <= i < |pending| => pending[i].execution)
  }

  function MaterializeTask(
    store: Store, task: Task, expectedNextRunAt: Time, executions: seq<ScheduledExecution>, now: Time, uuids: nat -> nat
  ): Step<Materialization>
  {
    if store.closed then Refused(store, StoreClosed)
    else if !OwnsTask(store, task.namespace, task.ownerId, task.id) then Refused(store, TaskNotFound)
    else if !MaterializationIsCurrent(store.tasks[task.id], task, expectedNextRunAt) then
      Step(store, Ok(Materialization(store.tasks[task.id], [])))
    else
      var pending := PendingOccurrences(executions, ExistingOccurrences(store, task.namespace));
      if |QueuedForTask(store, task.id)| + |pending| > task.limits.maxQueuedRuns then Refused(store, QueueFull)
      else if |store.executions| + |pending| > store.limits.maxExecutions then Refused(store, CapacityExhausted)
      else if |store.work| + |pending| > store.limits.maxWorkItems then Refused(store, CapacityExhausted)
      else
        var advanced := store.(tasks := store.tasks[task.id := task]);
        Step(AddExecutions(advanced, pending, now, uuids), Ok(Materialization(task, ExecutionsOf(pending))))
  }

  /** Commit a command's transition together with the record of its result. */
  function CommitCommand(store: Store, command: Command, decided: Outcome<Transition, StoreError>, now: Time): Step<Execution> {
    match decided
    case Err(error) => Refused(store, error)
    case Ok(transition) =>
      if !OperationFits(store, command) then Refused(store, CapacityExhausted)
      else
        var applied := ApplyTransition(store, transition, None, now, 0);
        Step(SaveOperation(applied.store, command, ExecutionResult(transition.execution)), Ok(transition.execution))
  }

  function CancelCommand(store: Store, command: Command, id: ExecutionId, now: Time): Step<Execution> {
    if store.closed then Refused(store, StoreClosed)
    else
      match RecordedResult(store, command)
      case Err(error) => Refused(store, error)
      case Ok(Some(previous)) => Step(store, ExpectExecution(previous))
      case Ok(None) =>
        if !OwnsExecution(store, command.namespace, command.ownerId, id) then Refused(store, ExecutionNotFound)
        else CommitCommand(store, command, CancelExecution(store.executions[id], now), now)
  }

  function ResolveCommand(
    store: Store, command: Command, id: ExecutionId, resolution: AttentionResolution, reason: string, now: Time
  ): Step<Execution>
  {
    if reason == "" || !IsStripped(reason) then Refused(store, InvalidArgument)
    else if store.closed then Refused(store, StoreClosed)
    else
      match RecordedResult(store, command)
      case Err(error) => Refused(store, error)
      case Ok(Some(previous)) => Step(store, ExpectExecution(previous))
      case Ok(None) =>
        if !OwnsExecution(store, command.namespace, command.ownerId, id) then Refused(store, ExecutionNotFound)
        else CommitCommand(store, command, ResolveExecution(store.executions[id], resolution, reason, now), now)
  }

  function Close(store: Store): Store {
    store.(closed := true)
  }
}

/** Value objects of the automation package: execution snapshots, work items, claims and store records. */
module AutomationModel {
  import opened Outcomes

  /** Instants and durations, in microseconds. */
  type Time = int

  /** Random values drawn by the store (claim and start tokens). */
  type Token = nat

  /** JSON payloads are carried around and never inspected by the protocol. */
  type Payload = string

  /** Execution identity, derived injectively from the namespace and the occurrence it was created for. */
  datatype ExecutionId = ExecutionId(namespace: string, occurrence: string)

  datatype ExecutionStatus =
    | Queued
    | Running
    | Interrupted
    | CancelRequested
    | Succeeded
    | Failed
    | TimedOut
    | Cancelled
    | NeedsAttention
  {
    predicate IsTerminal() {
      Succeeded? || Failed? || TimedOut? || Cancelled?
    }
  }

  datatype AttentionResolution = ResolveSucceeded | ResolveFailed | ResolveCancelled

  datatype ExecutionLimits = ExecutionLimits(
    maxConcurrentRuns: nat, maxQueuedRuns: nat, executionTimeout: Time, queueTimeout: Time)

  datatype Execution = Execution(
    id: ExecutionId,
    taskId: Option<string>,
    namespace: string,
    ownerId: string,
    limits: ExecutionLimits,
    status: ExecutionStatus,
    retryOf: Option<ExecutionId>,
    scheduledFor: Option<Time>,
    queuedAt: Time,
    queueDeadline: Time,
    startedAt: Option<Time>,
    deadline: Option<Time>,
    finishedAt: Option<Time>,
    failureCode: Option<string>,
    failureMessage: Option<string>,
    result: Option<Payload>,
    interruptIds: seq<string>,
    startAuthorizedAt: Option<Time>,
    startToken: Option<Token>,
    updatedAt: Time)

  datatype TaskStatus = Enabled | Paused

  datatype Task = Task(
    id: string,
    namespace: string,
    ownerId: string,
    status: TaskStatus,
    revision: int,
    nextRunAt: Option<Time>,
    limits: ExecutionLimits)

  datatype ScheduledExecution = ScheduledExecution(execution: Execution, occurrence: string)

  datatype WorkKind = Execute | ExpireInterrupt

  datatype WorkStatus = Pending | Claimed | Completed

  datatype WorkKey = WorkKey(namespace: string, executionId: ExecutionId, kind: WorkKind)

  /** A durable work item; `uuid` is its random identifier, which matters only as a sort key. */
  datatype WorkItem = WorkItem(
    uuid: nat,
    namespace: string,
    executionId: ExecutionId,
    kind: WorkKind,
    availableAt: Time,
    createdAt: Time,
    status: WorkStatus,
    workerId: Option<string>,
    claimToken: Option<Token>,
    fence: nat,
    leaseUntil: Option<Time>)
  {
    function Key(): WorkKey {
      WorkKey(namespace, executionId, kind)
    }

    /** The item without an owner. */
    function Unowned(newStatus: WorkStatus): WorkItem {
      this.(status := newStatus, workerId := None, claimToken := None, leaseUntil := None)
    }
  }

  /** Fenced ownership of the work item `item`. */
  datatype Claim = Claim(item: WorkKey, claimToken: Token, fence: nat, leaseUntil: Time)

  /** A capacity counter: every admitted execution holds its global scope and its task or owner scope. */
  datatype Scope =
    | GlobalScope(namespace: string)
    | TaskScope(namespace: string, taskId: string)
    | OwnerScope(namespace: string, ownerId: string)

  datatype OperationKey = OperationKey(namespace: string, ownerId: string, requestId: string)

  datatype OperationResult =
    | TaskResult(task: Task)
    | ExecutionResult(execution: Execution)
    | DeletedTask(taskId: string)

  datatype Operation = Operation(inputDigest: string, result: OperationResult)

  datatype StoreError =
    | StoreClosed
    | InvalidArgument
    | TaskConflict
    | TaskNotFound
    | ExecutionNotFound
    | RequestConflict
    | QueueFull
    | ClaimLost
    | StartAlreadyAuthorized
    | ResolutionNotAllowed
    | CapacityExhausted
    | InvalidResultType
}

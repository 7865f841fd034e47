/** Refused calls change nothing, and recorded commands are answered from the log forever. */
module AutomationIdempotency {
  import opened Outcomes
  import opened AutomationModel
  import opened AutomationRules
  import opened AutomationStore
  import opened AutomationInvariant
  import opened AutomationProgress
  import opened AutomationCommands
  import opened AutomationAdmission
  import opened AutomationRuns
  import opened AutomationSafety

  /** The command a call is recorded under, if it carries a request ID. */
  function CommandOf(call: Call): Option<Command> {
    var command :=
      match call
      case CallCreateTask(task, requestId, inputDigest) => Command(task.namespace, task.ownerId, requestId, inputDigest)
      case CallUpdateTask(task, _, requestId, inputDigest) => Command(task.namespace, task.ownerId, requestId, inputDigest)
      case CallDeleteTask(command, _, _, _, _) => command
      case CallEnqueue(execution, _, requestId, inputDigest, _, _, _) =>
        Command(execution.namespace, execution.ownerId, requestId, inputDigest)
      case CallCancel(command, _, _) => command
      case CallResolve(command, _, _, _, _) => command
      case _ => Command("", "", None, "");
    if command.requestId.Some? then Some(command) else None
  }

  lemma ClaimCallRefusalChangesNothing(store: Store, call: Call)
    requires WellShaped(store) && Permitted(store, call) && Perform(store, call).reply.Refusal?
    requires call.CallClaimWork? || ClaimPresented(call).Some?
    ensures Perform(store, call).store == store
  {
    hide WellShaped, Permitted, ClaimItems, Released, CreateWork, InterruptExecution, FinishExecution, AuthorizeStart;
  }

  lemma CommandRefusalChangesNothing(store: Store, call: Call)
    requires WellShaped(store) && Permitted(store, call) && Perform(store, call).reply.Refusal?
    requires !call.CallClaimWork? && ClaimPresented(call).None?
    ensures Perform(store, call).store == store
  {
    hide WellShaped, ApplyTransition, CancelExecution, ResolveExecution, AddExecution, AddExecutions, SaveOperation, CancelAll;
    hide PendingOccurrences, OwnsTask, OwnsExecution;
  }

  /** Every call that is refused leaves the whole store as it was. */
  lemma RefusalChangesNothing(store: Store, call: Call)
    requires WellShaped(store) && Permitted(store, call) && Perform(store, call).reply.Refusal?
    ensures Perform(store, call).store == store
  {
    hide WellShaped, Permitted;
    if call.CallClaimWork? || ClaimPresented(call).Some? {
      ClaimCallRefusalChangesNothing(store, call);
    } else {
      CommandRefusalChangesNothing(store, call);
    }
    hide Perform;
  }

  // ---------------------------------------------------------------- the command log

  /** What a command tells its caller; a deletion tells nothing more than that it is done. */
  datatype Answer = TaskAnswer(task: Task) | ExecutionAnswer(execution: Execution) | DeletionAnswer

  function AnswerOf(result: OperationResult): Answer {
    match result
    case TaskResult(task) => TaskAnswer(task)
    case ExecutionResult(execution) => ExecutionAnswer(execution)
    case DeletedTask(_) => DeletionAnswer
  }

  function MapOk<T, U>(outcome: Outcome<T, StoreError>, f: T -> U): Outcome<U, StoreError> {
    match outcome
    case Ok(value) => Ok(f(value))
    case Err(error) => Err(error)
  }

  /** The answer to each of the six commands. */
  function AnswerTo(store: Store, call: Call): Outcome<Answer, StoreError>
    requires WellShaped(store) && Permitted(store, call) && CommandOf(call).Some?
  {
    match call
    case CallCreateTask(task, requestId, inputDigest) =>
      MapOk(CreateTask(store, task, requestId, inputDigest).outcome, t => TaskAnswer(t))
    case CallUpdateTask(task, revision, requestId, inputDigest) =>
      MapOk(UpdateTask(store, task, revision, requestId, inputDigest).outcome, t => TaskAnswer(t))
    case CallDeleteTask(command, taskId, revision, now, ids) =>
      assert forall id :: id in ids ==> id in (set x | x in ids);
      MapOk(DeleteTask(store, command, taskId, revision, now, ids).outcome, _ => DeletionAnswer)
    case CallEnqueue(execution, occurrence, requestId, inputDigest, revision, now, uuid) =>
      MapOk(EnqueueExecution(store, execution, occurrence, requestId, inputDigest, revision, now, uuid).outcome, e => ExecutionAnswer(e))
    case CallCancel(command, id, now) => MapOk(CancelCommand(store, command, id, now).outcome, e => ExecutionAnswer(e))
    case CallResolve(command, id, resolution, reason, now) =>
      MapOk(ResolveCommand(store, command, id, resolution, reason, now).outcome, e => ExecutionAnswer(e))
  }

  /** The kind of result the command returns. */
  predicate Expects(call: Call, result: OperationResult) {
    match call
    case CallCreateTask(_, _, _) | CallUpdateTask(_, _, _, _) => result.TaskResult?
    case CallDeleteTask(_, _, _, _, _) => result.DeletedTask?
    case _ => result.ExecutionResult?
  }

  /** A resolution's reason is checked before anything else. */
  predicate HasBadReason(call: Call) {
    call.CallResolve? && (call.reason == "" || !IsStripped(call.reason))
  }

  /** The answer to a command whose request ID is in the log. */
  function ReplayedAnswer(store: Store, call: Call): Outcome<Answer, StoreError>
    requires CommandOf(call).Some? && CommandOf(call).value.Key() in store.operations
  {
    var command := CommandOf(call).value;
    var operation := store.operations[command.Key()];
    if HasBadReason(call) then Err(InvalidArgument)
    else if store.closed then Err(StoreClosed)
    else if operation.inputDigest != command.inputDigest then Err(RequestConflict)
    else if !Expects(call, operation.result) then Err(InvalidResultType)
    else Ok(AnswerOf(operation.result))
  }

  /** Every one of the six commands is answered from the log once its request ID is there, and changes nothing. */
  lemma RecordedCommandIsReplayed(store: Store, call: Call)
    requires WellShaped(store) && Permitted(store, call) && CommandOf(call).Some?
    requires CommandOf(call).value.Key() in store.operations
    ensures AnswerTo(store, call) == ReplayedAnswer(store, call)
    ensures Perform(store, call).store == store
    ensures Perform(store, call).reply == if ReplayedAnswer(store, call).Ok? then Done else Refusal(ReplayedAnswer(store, call).error)
  {
    hide WellShaped, ApplyTransition, CancelExecution, ResolveExecution, AddExecution, SaveOperation, CancelAll, IsStripped;
  }

  /** In particular a reused request ID with other input is a conflict. */
  lemma RecordedCommandChangesNothing(store: Store, call: Call)
    requires WellShaped(store) && Permitted(store, call) && CommandOf(call).Some?
    requires CommandOf(call).value.Key() in store.operations
    ensures Perform(store, call).store == store
    ensures
      var command := CommandOf(call).value;
      !store.closed && !HasBadReason(call) && store.operations[command.Key()].inputDigest != command.inputDigest ==>
        Perform(store, call).reply == Refusal(RequestConflict)
  {
    hide WellShaped, Permitted, Perform, AnswerTo;
    RecordedCommandIsReplayed(store, call);
  }

  /** An enqueue that finds its occurrence stored answers with that execution. */
  predicate FindsOccurrence(store: Store, call: Call) {
    && call.CallEnqueue? && CommandOf(call).Some?
    && CommandOf(call).value.Key() !in store.operations
    && (call.execution.namespace, call.occurrence) in store.occurrences
  }

  ghost predicate IsRecordedAs(store: Store, command: Command, answer: Answer) {
    exists result :: IsRecorded(store, command, result) && AnswerOf(result) == answer
  }

  lemma TaskCommandIsRecorded(store: Store, call: Call)
    requires WellShaped(store) && Permitted(store, call) && CommandOf(call).Some? && AnswerTo(store, call).Ok?
    requires call.CallCreateTask? || call.CallUpdateTask? || call.CallDeleteTask?
    ensures IsRecordedAs(Perform(store, call).store, CommandOf(call).value, AnswerTo(store, call).value)
  {
    var command, after := CommandOf(call).value, Perform(store, call).store;
    hide WellShaped, CancelAll, QueuedForTask;
    if command.Key() in store.operations {
      RecordedCommandIsReplayed(store, call);
      assert IsRecorded(after, command, store.operations[command.Key()].result);
    } else if call.CallDeleteTask? {
      assert IsRecorded(after, command, DeletedTask(call.taskId));
    } else {
      assert IsRecorded(after, command, TaskResult(call.task));
    }
  }

  lemma ExecutionCommandIsRecorded(store: Store, call: Call)
    requires WellShaped(store) && Permitted(store, call) && CommandOf(call).Some? && AnswerTo(store, call).Ok?
    requires call.CallCancel? || call.CallResolve?
    ensures IsRecordedAs(Perform(store, call).store, CommandOf(call).value, AnswerTo(store, call).value)
  {
    var command := CommandOf(call).value;
    hide WellShaped, CancelCommand, ResolveCommand;
    if call.CallCancel? {
      CancelIsRecorded(store, command, call.id, call.now);
    } else {
      ResolveIsRecorded(store, command, call.id, call.resolution, call.reason, call.now);
    }
    assert IsRecorded(Perform(store, call).store, command, ExecutionResult(AnswerTo(store, call).value.execution));
  }

  lemma EnqueueIsRecorded(store: Store, call: Call)
    requires WellShaped(store) && Permitted(store, call) && CommandOf(call).Some? && AnswerTo(store, call).Ok?
    requires call.CallEnqueue?
    ensures IsRecordedAs(Perform(store, call).store, CommandOf(call).value, AnswerTo(store, call).value) <==> !FindsOccurrence(store, call)
    ensures FindsOccurrence(store, call) ==> Perform(store, call).store == store
  {
    var command, after := CommandOf(call).value, Perform(store, call).store;
    hide WorkResolves, ExecutionsNamed, QueuedInScope, TaskPrecondition;
    if command.Key() in store.operations {
      RecordedCommandIsReplayed(store, call);
      assert IsRecorded(after, command, store.operations[command.Key()].result);
    } else if !FindsOccurrence(store, call) {
      assert IsRecorded(after, command, ExecutionResult(call.execution));
    }
  }

  /** A successful command is recorded with its answer, except exactly when an enqueue finds its occurrence stored. */
  lemma SuccessIsRecorded(store: Store, call: Call)
    requires WellShaped(store) && Permitted(store, call) && CommandOf(call).Some? && AnswerTo(store, call).Ok?
    ensures IsRecordedAs(Perform(store, call).store, CommandOf(call).value, AnswerTo(store, call).value) <==> !FindsOccurrence(store, call)
  {
    hide WellShaped, Permitted, Perform, AnswerTo, IsRecordedAs;
    if call.CallEnqueue? {
      EnqueueIsRecorded(store, call);
    } else if call.CallCancel? || call.CallResolve? {
      ExecutionCommandIsRecorded(store, call);
    } else {
      TaskCommandIsRecorded(store, call);
    }
  }

  /** A repeated cancellation returns the recorded snapshot, whatever became of the execution since. */
  lemma CancelIsReplayed(store: Store, command: Command, result: Execution, id: ExecutionId, now: Time)
    requires IsRecorded(store, command, ExecutionResult(result)) && !store.closed
    ensures CancelCommand(store, command, id, now) == Step(store, Ok(result))
  {
  }

  lemma ResolveIsReplayed(
    store: Store, command: Command, result: Execution, id: ExecutionId, resolution: AttentionResolution, reason: string, now: Time)
    requires IsRecorded(store, command, ExecutionResult(result)) && !store.closed
    requires reason != "" && IsStripped(reason)
    ensures ResolveCommand(store, command, id, resolution, reason, now) == Step(store, Ok(result))
  {
  }

  /** A successful command records what it returned, or was itself answered from the log. */
  lemma CancelIsRecorded(store: Store, command: Command, id: ExecutionId, now: Time)
    requires command.requestId.Some? && CancelCommand(store, command, id, now).outcome.Ok?
    ensures
      var result := CancelCommand(store, command, id, now);
      IsRecorded(result.store, command, ExecutionResult(result.outcome.value))
  {
    hide ApplyTransition, CancelExecution;
  }

  lemma ResolveIsRecorded(
    store: Store, command: Command, id: ExecutionId, resolution: AttentionResolution, reason: string, now: Time)
    requires command.requestId.Some? && ResolveCommand(store, command, id, resolution, reason, now).outcome.Ok?
    ensures
      var result := ResolveCommand(store, command, id, resolution, reason, now);
      IsRecorded(result.store, command, ExecutionResult(result.outcome.value))
  {
    hide ApplyTransition, ResolveExecution;
  }

  /** Once recorded, a command stays recorded with the same result in every later store of the run. */
  lemma RecordsAreForever(stores: seq<Store>, calls: seq<Call>, i: nat, j: nat, command: Command, result: OperationResult)
    requires IsRun(stores, calls) && i <= j < |stores| && IsRecorded(stores[i], command, result)
    ensures IsRecorded(stores[j], command, result)
  {
    hide Perform, Permitted, WellShaped, Advances;
    RunMovesForward(stores, calls, i, j);
  }

  /** Repeating a cancellation anywhere later in a run returns the first answer and changes nothing. */
  lemma RepeatedCancelReturnsTheFirstAnswer(
    stores: seq<Store>, calls: seq<Call>, i: nat, j: nat, command: Command, id: ExecutionId, now: Time, later: Time)
    requires IsRun(stores, calls) && i < j < |stores| && i < |calls| && command.requestId.Some?
    requires calls[i] == CallCancel(command, id, now) && CancelCommand(stores[i], command, id, now).outcome.Ok?
    requires !stores[j].closed
    ensures CancelCommand(stores[j], command, id, later) == Step(stores[j], CancelCommand(stores[i], command, id, now).outcome)
  {
    var first := CancelCommand(stores[i], command, id, now);
    assert IsStep(stores, calls, i);
    assert stores[i + 1] == first.store;
    hide Perform, Permitted, WellShaped;
    CancelIsRecorded(stores[i], command, id, now);
    RecordsAreForever(stores, calls, i + 1, j, command, ExecutionResult(first.outcome.value));
    CancelIsReplayed(stores[j], command, first.outcome.value, id, later);
    hide CancelCommand;
  }

  /** The same command again: the same kind of call with the same request ID and digest. */
  predicate Repeats(call: Call, again: Call) {
    && CommandOf(call).Some? && CommandOf(again) == CommandOf(call) && !HasBadReason(again)
    && (call.CallCreateTask? || call.CallUpdateTask? <==> again.CallCreateTask? || again.CallUpdateTask?)
    && (call.CallDeleteTask? <==> again.CallDeleteTask?)
  }

  /** The recorded result is of the kind every repetition expects. */
  lemma RepetitionExpectsResult(store: Store, call: Call, again: Call, result: OperationResult)
    requires WellShaped(store) && Permitted(store, call) && AnswerReady(store, call) && AnswerOf(result) == AnswerTo(store, call).value
    requires Repeats(call, again)
    ensures Expects(again, result)
  {
    hide CreateTask, UpdateTask, DeleteTask, EnqueueExecution, CancelCommand, ResolveCommand, WellShaped;
  }

  predicate AnswerReady(store: Store, call: Call)
    requires WellShaped(store) && Permitted(store, call)
  {
    CommandOf(call).Some? && AnswerTo(store, call).Ok?
  }

  /** Repeating any recorded command anywhere later in a run returns the first answer and changes nothing. */
  lemma RepeatedCommandReturnsTheFirstAnswer(stores: seq<Store>, calls: seq<Call>, i: nat, j: nat, again: Call)
    requires IsRun(stores, calls) && i < j < |stores| && IsStep(stores, calls, i)
    requires AnswerReady(stores[i], calls[i]) && !FindsOccurrence(stores[i], calls[i])
    requires Repeats(calls[i], again) && !stores[j].closed && WellShaped(stores[j]) && Permitted(stores[j], again)
    ensures AnswerTo(stores[j], again) == AnswerTo(stores[i], calls[i])
    ensures Perform(stores[j], again) == Performed(stores[j], Done)
  {
    hide Perform, Permitted, WellShaped, AnswerTo;
    var command := CommandOf(calls[i]).value;
    SuccessIsRecorded(stores[i], calls[i]);
    var result :| IsRecorded(stores[i + 1], command, result) && AnswerOf(result) == AnswerTo(stores[i], calls[i]).value;
    RecordsAreForever(stores, calls, i + 1, j, command, result);
    RepetitionExpectsResult(stores[i], calls[i], again, result);
    RecordedCommandIsReplayed(stores[j], again);
  }

  // ---------------------------------------------------------------- the enqueue that is not recorded

  const OneOfEach := RecordLimits(1, 1, 1, 1)

  /** A store holding one queued execution. */
  function WithOneQueued(execution: Execution, occurrence: string, now: Time): Store {
    AddExecution(Empty(OneOfEach), execution, occurrence, now, 0)
  }

  lemma FirstEnqueue(execution: Execution, occurrence: string, now: Time)
    requires IsNewExecution(execution, occurrence) && execution.taskId.None? && execution.limits.maxQueuedRuns >= 1
    ensures EnqueueExecution(Empty(OneOfEach), execution, occurrence, None, "", None, now, 0) ==
            Step(WithOneQueued(execution, occurrence, now), Ok(execution))
    ensures WellShaped(WithOneQueued(execution, occurrence, now))
  {
    assert QueuedInScope(Empty(OneOfEach), ExecutionScope(execution)) == {};
    AddedShape(Empty(OneOfEach), execution, occurrence, now, 0);
  }

  lemma ThenCancelled(execution: Execution, occurrence: string, now: Time)
    requires IsNewExecution(execution, occurrence)
    ensures
      var command := Command(execution.namespace, execution.ownerId, None, "");
      var after := CancelCommand(WithOneQueued(execution, occurrence, now), command, execution.id, now).store;
      && WellShaped(after)
      && !after.closed && after.operations == map[]
      && after.occurrences == map[(execution.namespace, occurrence) := execution.id]
      && execution.id in after.executions && after.executions[execution.id].status.Cancelled?
  {
    var store := WithOneQueued(execution, occurrence, now);
    var command := Command(execution.namespace, execution.ownerId, None, "");
    AddedShape(Empty(OneOfEach), execution, occurrence, now, 0);
    var transition := CancelExecution(store.executions[execution.id], now).value;
    TransitionShape(store, transition, None, now, 0);
    hide CompleteItems, Decremented, WorkResolves, OccurrencesResolve, CreateWork;
  }

  /**
    An enqueue with a request ID that finds its occurrence stored is answered and not recorded, so its
    repetition after a cancellation is answered differently.
   */
  lemma UnrecordedEnqueueAnswersDifferently(execution: Execution, occurrence: string, now: Time)
    requires IsNewExecution(execution, occurrence) && execution.taskId.None? && execution.limits.maxQueuedRuns >= 1
    ensures
      var first := EnqueueExecution(Empty(OneOfEach), execution, occurrence, None, "", None, now, 0).store;
      var command := Command(execution.namespace, execution.ownerId, None, "");
      var second := CancelCommand(first, command, execution.id, now).store;
      var again := CallEnqueue(execution, occurrence, Some("request"), "digest", None, now, 0);
      && WellShaped(first) && WellShaped(second)
      && FindsOccurrence(first, again) && Perform(first, again).store == first
      && AnswerTo(first, again).Ok? && AnswerTo(second, again).Ok? && AnswerTo(first, again) != AnswerTo(second, again)
  {
    FirstEnqueue(execution, occurrence, now);
    ThenCancelled(execution, occurrence, now);
    hide CancelCommand, WellShaped, QueuedInScope, TaskPrecondition, IsNewExecution;
  }
}

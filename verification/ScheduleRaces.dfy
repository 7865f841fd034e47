/**
  Schedulers racing to materialize one task: each reads the task at some time, computes what is due
  and submits it; the store accepts it only if the wakeup is still the one that was read.
 */
module ScheduleRaces {
  import opened Outcomes
  import opened AutomationModel
  import opened AutomationRules
  import opened AutomationStore
  import opened AutomationRuns
  import opened AutomationAdmission
  import opened AutomationSafety
  import Schedules
  import Misfires

  /** The instants of the submitted executions. */
  predicate HasInstants(executions: seq<ScheduledExecution>, instants: seq<Time>) {
    |executions| == |instants| && forall i :: 0 <= i < |executions| ==> executions[i].execution.scheduledFor == Some(instants[i])
  }

  /** What a scheduler submits for a wakeup, computed from the schedule of the revision it read. */
  ghost predicate IsProposal(schedule: Schedules.Schedule, expected: Time, next: Option<Time>, instants: seq<Time>) {
    exists now, m: Misfires.Materialized ::
      && m.dueAt == instants && m.nextRunAt == next
      && if expected > now then instants == [] && next == Some(expected) else Misfires.Progresses(schedule, expected, now, m)
  }

  /** The step commits a materialization of the task at its wakeup `expected`. */
  ghost predicate Commits(store: Store, call: Call, reply: Reply, taskId: string, expected: Time, instants: seq<Time>) {
    && call.CallMaterialize? && call.task.id == taskId && call.expectedNextRunAt == expected
    && HasInstants(call.executions, instants)
    && OwnsTask(store, call.task.namespace, call.task.ownerId, taskId)
    && MaterializationIsCurrent(store.tasks[taskId], call.task, expected)
    && reply.Done?
  }

  /** Everything submitted for the task is a proposal from the schedule of the revision it names. */
  ghost predicate IsHonest(call: Call, taskId: string, plan: int -> Schedules.Schedule) {
    call.CallMaterialize? && call.task.id == taskId ==>
      exists instants :: HasInstants(call.executions, instants)
                         && IsProposal(plan(call.task.revision), call.expectedNextRunAt, call.task.nextRunAt, instants)
  }

  predicate NeverCreates(call: Call, taskId: string) {
    call.CallCreateTask? ==> call.task.id != taskId
  }

  // ---------------------------------------------------------------- one step

  /** The task is as before, has a new revision, or was materialized at its current wakeup. */
  predicate TaskMoves(before: Task, call: Call, after: Task, taskId: string) {
    || after == before
    || after.revision == before.revision + 1
    || (call.CallMaterialize? && call.task.id == taskId && after == call.task && MaterializationIsCurrent(before, call.task, call.expectedNextRunAt))
  }

  lemma AddedKeepsTasks(store: Store, execution: Execution, occurrence: string, now: Time, uuid: nat)
    ensures AddExecution(store, execution, occurrence, now, uuid).tasks == store.tasks
  {
  }

  lemma {:induction false} AddedAllKeepTasks(store: Store, pending: seq<ScheduledExecution>, now: Time, uuids: nat -> nat)
    ensures AddExecutions(store, pending, now, uuids).tasks == store.tasks
    decreases |pending|
  {
    if pending != [] {
      AddedAllKeepTasks(store, pending[..|pending| - 1], now, uuids);
    }
  }

  lemma TransitionKeepsTasks(store: Store, transition: Transition, item: Option<WorkKey>, now: Time, uuid: nat)
    ensures ApplyTransition(store, transition, item, now, uuid).store.tasks == store.tasks
  {
    ReleasedKeepsTasks(store, transition, item);
    hide Released;
  }

  lemma ReleasedKeepsTasks(store: Store, transition: Transition, item: Option<WorkKey>)
    ensures Released(store, transition, item).tasks == store.tasks
  {
    hide CompleteItems, Decremented;
  }

  lemma {:induction false} CancelAllKeepsTasks(store: Store, ids: seq<ExecutionId>, now: Time)
    requires forall id :: id in ids ==> id in store.executions
    ensures CancelAll(store, ids, now).tasks == store.tasks
    decreases |ids|
  {
    if ids != [] {
      hide ApplyTransition;
      var last := |ids| - 1;
      CancelAllKeepsTasks(store, ids[..last], now);
      var decided := CancelExecution(store.executions[ids[last]], now);
      if decided.Ok? {
        TransitionKeepsTasks(CancelAll(store, ids[..last], now), decided.value, None, now, 0);
      }
    }
  }

  lemma {:induction false} ClaimsKeepTasks(current: Claiming, request: ClaimRequest, now: Time, tokens: nat -> Token, candidates: seq<WorkKey>)
    requires WellShaped(current.store)
    requires forall i :: 0 <= i < |candidates| ==> candidates[i] in current.store.work
    ensures ClaimItems(current, request, now, tokens, candidates).store.tasks == current.store.tasks
    decreases |candidates|
  {
    if candidates != [] && |current.claims| < request.limit {
      hide ApplyTransition, WellShaped, IsRefusedAdmission, ClaimCandidate;
      var token := tokens(|current.claims|);
      ClaimItemShape(current, request, now, token, candidates[0]);
      ClaimKeepsTasks(current, request, now, token, candidates[0]);
      ClaimsKeepTasks(ClaimItem(current, request, now, token, candidates[0]), request, now, tokens, candidates[1..]);
    }
  }

  lemma ClaimKeepsTasks(current: Claiming, request: ClaimRequest, now: Time, token: Token, key: WorkKey)
    requires WellShaped(current.store) && key in current.store.work
    ensures ClaimItem(current, request, now, token, key).store.tasks == current.store.tasks
  {
    var store, item := current.store, current.store.work[key];
    var candidate := ClaimCandidate(store.executions[item.executionId], item.kind, now);
    hide ApplyTransition, WellShaped, IsRefusedAdmission, ClaimCandidate;
    if candidate.Some? {
      TransitionKeepsTasks(store, candidate.value, Some(key), now, 0);
    }
  }

  /** Calls that have nothing to do with tasks leave them alone. */
  lemma OtherCallsKeepTasks(store: Store, call: Call)
    requires WellShaped(store) && Permitted(store, call)
    requires !call.CallCreateTask? && !call.CallUpdateTask? && !call.CallDeleteTask? && !call.CallMaterialize?
    ensures Perform(store, call).store.tasks == store.tasks
  {
    hide WellShaped, ApplyTransition, ClaimItems, IsClaimOrder, AddExecution, QueuedInScope, TaskPrecondition;
    match call
    case CallEnqueue(execution, occurrence, requestId, inputDigest, revision, now, uuid) =>
      AddedKeepsTasks(store, execution, occurrence, now, uuid);
    case CallClaimWork(request, now, tokens, candidates) => ClaimWorkKeepsTasks(store, request, now, tokens, candidates);
    case CallInterrupt(claim, interruptIds, now, uuid) => InterruptKeepsTasks(store, claim, interruptIds, now, uuid);
    case CallFinish(claim, settlement, now) => FinishKeepsTasks(store, claim, settlement, now);
    case CallCancel(command, id, now) => CommandsKeepTasks(store, command, now);
    case CallResolve(command, id, resolution, reason, now) => CommandsKeepTasks(store, command, now);
    case _ =>
  }

  lemma ClaimWorkKeepsTasks(store: Store, request: ClaimRequest, now: Time, tokens: nat -> Token, candidates: seq<WorkKey>)
    requires WellShaped(store) && IsClaimOrder(RecoverClaims(store, request.namespace, now).work, request.namespace, now, candidates)
    ensures ClaimWork(store, request, now, tokens, candidates).store.tasks == store.tasks
  {
    RecoveryKeepsShape(store, request.namespace, now);
    ClaimsKeepTasks(Claiming(RecoverClaims(store, request.namespace, now), []), request, now, tokens, candidates);
  }

  lemma InterruptKeepsTasks(store: Store, claim: Claim, interruptIds: seq<string>, now: Time, uuid: nat)
    requires WellShaped(store)
    ensures MarkInterrupted(store, claim, interruptIds, now, uuid).store.tasks == store.tasks
  {
    hide ApplyTransition;
    if ValidClaim(store, claim, now) {
      var decided := InterruptExecution(store.executions[claim.item.executionId], interruptIds, now);
      if decided.Ok? {
        TransitionKeepsTasks(store, decided.value, Some(claim.item), now, uuid);
      }
    }
  }

  lemma FinishKeepsTasks(store: Store, claim: Claim, settlement: Settlement, now: Time)
    requires WellShaped(store)
    ensures FinishClaim(store, claim, settlement, now).store.tasks == store.tasks
  {
    hide ApplyTransition;
    if ValidClaim(store, claim, now) {
      var decided := FinishExecution(store.executions[claim.item.executionId], settlement.status, now,
                                     settlement.result, settlement.failureCode, settlement.failureMessage);
      if decided.Ok? {
        TransitionKeepsTasks(store, decided.value, Some(claim.item), now, 0);
      }
    }
  }

  lemma CommandsKeepTasks(store: Store, command: Command, now: Time)
    ensures forall decided :: CommitCommand(store, command, decided, now).store.tasks == store.tasks
  {
    hide ApplyTransition;
    forall decided ensures CommitCommand(store, command, decided, now).store.tasks == store.tasks {
      if decided.Ok? {
        TransitionKeepsTasks(store, decided.value, None, now, 0);
      }
    }
  }

  /** A task only moves in the ways above, and one that is gone stays gone. */
  predicate TaskStep(before: map<string, Task>, call: Call, after: map<string, Task>, taskId: string) {
    taskId in after ==> taskId in before && TaskMoves(before[taskId], call, after[taskId], taskId)
  }

  lemma DeleteMovesTask(store: Store, call: Call, taskId: string)
    requires WellShaped(store) && Permitted(store, call) && call.CallDeleteTask?
    ensures TaskStep(store.tasks, call, Perform(store, call).store.tasks, taskId)
  {
    hide WellShaped, CancelAll, QueuedForTask;
    assert forall x :: x in call.ids ==> x in (set y | y in call.ids);
    QueuedAreStored(store, call.taskId, call.ids);
    CancelAllKeepsTasks(store.(tasks := store.tasks - {call.taskId}), call.ids, call.now);
  }

  lemma MaterializeMovesTask(store: Store, call: Call, taskId: string)
    requires WellShaped(store) && Permitted(store, call) && call.CallMaterialize?
    ensures TaskStep(store.tasks, call, Perform(store, call).store.tasks, taskId)
  {
    hide WellShaped, AddExecutions, PendingOccurrences, QueuedForTask, MaterializationIsCurrent;
    AddedAllKeepTasks(store.(tasks := store.tasks[call.task.id := call.task]),
                      PendingOccurrences(call.executions, ExistingOccurrences(store, call.task.namespace)), call.now, call.uuids);
  }

  lemma QueuedAreStored(store: Store, taskId: string, ids: seq<ExecutionId>)
    requires forall id :: id in ids ==> id in QueuedForTask(store, taskId)
    ensures forall id :: id in ids ==> id in store.executions
  {
  }

  lemma EditMovesTask(store: Store, call: Call, taskId: string)
    requires WellShaped(store) && Permitted(store, call) && (call.CallCreateTask? || call.CallUpdateTask?) && NeverCreates(call, taskId)
    ensures TaskStep(store.tasks, call, Perform(store, call).store.tasks, taskId)
  {
    hide WellShaped, MaterializationIsCurrent, RecordedResult, OperationFits, ExpectTask;
  }

  lemma StepMovesTask(store: Store, call: Call, taskId: string)
    requires WellShaped(store) && Permitted(store, call) && NeverCreates(call, taskId)
    ensures TaskStep(store.tasks, call, Perform(store, call).store.tasks, taskId)
  {
    hide WellShaped, Perform, Permitted, MaterializationIsCurrent;
    if call.CallDeleteTask? {
      DeleteMovesTask(store, call, taskId);
    } else if call.CallMaterialize? {
      MaterializeMovesTask(store, call, taskId);
    } else if call.CallCreateTask? || call.CallUpdateTask? {
      EditMovesTask(store, call, taskId);
    } else {
      OtherCallsKeepTasks(store, call);
    }
  }

  // ---------------------------------------------------------------- whole runs

  /** From step `from` on, schedulers are honest and nobody recreates the task; other callers do as they like. */
  ghost predicate IsRace(stores: seq<Store>, calls: seq<Call>, replies: seq<Reply>, taskId: string, plan: int -> Schedules.Schedule, from: nat) {
    && IsAnsweredRun(stores, calls, replies)
    && forall i :: from <= i < |calls| ==> NeverCreates(calls[i], taskId) && IsHonest(calls[i], taskId, plan)
  }

  /** A proposal keeps its instants between the wakeup and the next one, in order. */
  lemma ProposalMovesForward(schedule: Schedules.Schedule, expected: Time, next: Option<Time>, instants: seq<Time>)
    requires IsProposal(schedule, expected, next, instants)
    ensures Misfires.IsIncreasing(instants)
    ensures forall a :: a in instants ==> expected <= a && (next.Some? ==> a < next.value)
    ensures next.Some? ==> expected <= next.value
    ensures instants != [] && next.Some? ==> expected < next.value
  {
    hide Schedules.Fires;
  }

  /** Instants are determined by the executions that carry them. */
  lemma SameInstants(executions: seq<ScheduledExecution>, a: seq<Time>, b: seq<Time>)
    requires HasInstants(executions, a) && HasInstants(executions, b)
    ensures a == b
  {
    assert forall i :: 0 <= i < |executions| ==> Some(a[i]) == Some(b[i]);
  }

  /** One step of a race: the revision never falls, and within a revision neither does the wakeup. */
  predicate NeverBack(before: Task, after: Task) {
    && before.revision <= after.revision
    && (before.revision == after.revision && after.nextRunAt.Some? ==>
          before.nextRunAt.Some? && before.nextRunAt.value <= after.nextRunAt.value)
  }

  lemma RaceStep(store: Store, call: Call, taskId: string, plan: int -> Schedules.Schedule)
    requires WellShaped(store) && Permitted(store, call) && NeverCreates(call, taskId) && IsHonest(call, taskId, plan)
    ensures
      var after := Perform(store, call).store;
      taskId in after.tasks ==> taskId in store.tasks && NeverBack(store.tasks[taskId], after.tasks[taskId])
  {
    hide WellShaped, Perform, Permitted, IsProposal;
    StepMovesTask(store, call, taskId);
    if call.CallMaterialize? && call.task.id == taskId {
      var instants :| HasInstants(call.executions, instants)
                      && IsProposal(plan(call.task.revision), call.expectedNextRunAt, call.task.nextRunAt, instants);
      ProposalMovesForward(plan(call.task.revision), call.expectedNextRunAt, call.task.nextRunAt, instants);
    }
  }

  lemma {:induction false} WakeupsNeverGoBack(
    stores: seq<Store>, calls: seq<Call>, replies: seq<Reply>, taskId: string, plan: int -> Schedules.Schedule, from: nat, k: nat, j: nat)
    requires IsRace(stores, calls, replies, taskId, plan, from) && from <= k <= j < |stores| && taskId in stores[j].tasks
    ensures taskId in stores[k].tasks && NeverBack(stores[k].tasks[taskId], stores[j].tasks[taskId])
    decreases j
  {
    hide WellShaped, Perform, Permitted, IsHonest, NeverCreates;
    if k < j {
      assert IsStep(stores, calls, j - 1);
      assert NeverCreates(calls[j - 1], taskId) && IsHonest(calls[j - 1], taskId, plan);
      RaceStep(stores[j - 1], calls[j - 1], taskId, plan);
      WakeupsNeverGoBack(stores, calls, replies, taskId, plan, from, k, j - 1);
    }
  }

  /** A commit stores exactly the next wakeup of its proposal. */
  lemma CommitStoresWakeup(store: Store, call: Call, reply: Reply, taskId: string, expected: Time, instants: seq<Time>)
    requires WellShaped(store) && Permitted(store, call) && Commits(store, call, reply, taskId, expected, instants)
    requires Perform(store, call).reply == reply
    ensures
      var after := Perform(store, call).store;
      taskId in after.tasks && after.tasks[taskId] == call.task
  {
    hide WellShaped, AddExecutions, PendingOccurrences, QueuedForTask;
    AddedAllKeepTasks(store.(tasks := store.tasks[call.task.id := call.task]),
                      PendingOccurrences(call.executions, ExistingOccurrences(store, call.task.namespace)), call.now, call.uuids);
  }

  lemma CommitIsCurrent(store: Store, call: Call, reply: Reply, taskId: string, expected: Time, instants: seq<Time>)
    requires Commits(store, call, reply, taskId, expected, instants)
    ensures call.CallMaterialize? && taskId in store.tasks
    ensures store.tasks[taskId].revision == call.task.revision && store.tasks[taskId].nextRunAt == Some(expected)
  {
  }

  /** Committed instants are not before the wakeup they were computed from. */
  lemma CommittedAreDue(store: Store, call: Call, reply: Reply, taskId: string, plan: int -> Schedules.Schedule, expected: Time, instants: seq<Time>)
    requires Commits(store, call, reply, taskId, expected, instants) && IsHonest(call, taskId, plan)
    ensures Misfires.IsIncreasing(instants) && forall a :: a in instants ==> expected <= a
    ensures
      var next := call.task.nextRunAt;
      next.Some? ==>
        && expected <= next.value && (forall a :: a in instants ==> a < next.value)
        && (instants != [] ==> expected < next.value)
  {
    var proposed :| HasInstants(call.executions, proposed)
                    && IsProposal(plan(call.task.revision), call.expectedNextRunAt, call.task.nextRunAt, proposed);
    hide IsProposal;
    SameInstants(call.executions, proposed, instants);
    ProposalMovesForward(plan(call.task.revision), expected, call.task.nextRunAt, instants);
  }

  /** While the revision lasts, the stored wakeup is later than everything materialized. */
  lemma WakeupIsLaterThanMaterialized(
    stores: seq<Store>, calls: seq<Call>, replies: seq<Reply>, taskId: string, plan: int -> Schedules.Schedule, from: nat,
    i: nat, k: nat, expected: Time, instants: seq<Time>)
    requires IsRace(stores, calls, replies, taskId, plan, from) && from <= i < k < |stores|
    requires Commits(stores[i], calls[i], replies[i], taskId, expected, instants)
    requires taskId in stores[k].tasks && stores[k].tasks[taskId].revision == calls[i].task.revision
    ensures Misfires.IsIncreasing(instants) && forall a :: a in instants ==> expected <= a
    ensures stores[k].tasks[taskId].nextRunAt.Some? ==>
              var wakeup := stores[k].tasks[taskId].nextRunAt.value;
              && expected <= wakeup
              && (forall a :: a in instants ==> a < wakeup)
              && (instants != [] ==> expected < wakeup)
              && (calls[i].task.nextRunAt != Some(expected) ==> expected < wakeup)
  {
    assert IsReply(stores, calls, replies, i);
    assert IsHonest(calls[i], taskId, plan);
    CommitStoresWakeup(stores[i], calls[i], replies[i], taskId, expected, instants);
    WakeupsNeverGoBack(stores, calls, replies, taskId, plan, from, i + 1, k);
    CommittedAreDue(stores[i], calls[i], replies[i], taskId, plan, expected, instants);
  }

  /**
    Two materializations committed in one revision: every instant of the first comes before the wakeup of
    the second, which comes no later than its own instants. So instants strictly increase, none is
    materialized twice, and a wakeup that was due is won by one scheduler only.
   */
  lemma MaterializedInstantsIncrease(
    stores: seq<Store>, calls: seq<Call>, replies: seq<Reply>, taskId: string, plan: int -> Schedules.Schedule, from: nat,
    i: nat, j: nat, first: Time, earlier: seq<Time>, second: Time, later: seq<Time>)
    requires IsRace(stores, calls, replies, taskId, plan, from) && from <= i < j < |calls|
    requires Commits(stores[i], calls[i], replies[i], taskId, first, earlier) && Commits(stores[j], calls[j], replies[j], taskId, second, later)
    requires calls[i].task.revision == calls[j].task.revision
    ensures forall a, b :: a in earlier && b in later ==> a < second <= b
    ensures earlier != [] || calls[i].task.nextRunAt != Some(first) ==> first < second
  {
    assert IsHonest(calls[j], taskId, plan);
    hide IsRace, IsHonest, Commits;
    CommitIsCurrent(stores[i], calls[i], replies[i], taskId, first, earlier);
    CommitIsCurrent(stores[j], calls[j], replies[j], taskId, second, later);
    CommittedAreDue(stores[j], calls[j], replies[j], taskId, plan, second, later);
    WakeupIsLaterThanMaterialized(stores, calls, replies, taskId, plan, from, i, j, first, earlier);
  }

  // ---------------------------------------------------------------- across revisions

  /** Materializing one occurrence that is new and fits. */
  lemma MaterializeOne(store: Store, task: Task, expected: Time, item: ScheduledExecution, now: Time, uuids: nat -> nat)
    requires !store.closed && OwnsTask(store, task.namespace, task.ownerId, task.id)
    requires MaterializationIsCurrent(store.tasks[task.id], task, expected)
    requires item.occurrence !in ExistingOccurrences(store, task.namespace)
    requires |QueuedForTask(store, task.id)| < task.limits.maxQueuedRuns
    requires |store.executions| < store.limits.maxExecutions && |store.work| < store.limits.maxWorkItems
    ensures MaterializeTask(store, task, expected, [item], now, uuids) ==
            Step(AddExecution(store.(tasks := store.tasks[task.id := task]), item.execution, item.occurrence, now, uuids(0)),
                 Ok(Materialization(task, [item.execution])))
  {
    hide AddExecution, QueuedForTask, ExistingOccurrences, OwnsTask;
    assert [item][1..] == [] && [item][..0] == [];
    assert PendingOccurrences([item], ExistingOccurrences(store, task.namespace)) == [item];
    assert ExecutionsOf([item]) == [item.execution];
    var advanced := store.(tasks := store.tasks[task.id := task]);
    assert AddExecutions(advanced, [], now, uuids) == advanced;
  }

  const Limits := ExecutionLimits(1, 2, 1, 1)

  const EveryTen := Schedules.Interval(10, 0)

  function Example(revision: int, next: Time): Task {
    Task("t", "n", "o", Enabled, revision, Some(next), Limits)
  }

  /** The execution for instant 0; its occurrence names the revision. */
  function At0(occurrence: string): Execution {
    Execution(ExecutionId("n", occurrence), Some("t"), "n", "o", Limits, Queued, None, Some(0), 0, 1,
              None, None, None, None, None, None, [], None, None, 0)
  }

  const Zeros: nat -> nat := _ => 0

  const Start: Store := Empty(RecordLimits(1, 2, 2, 0))
  const Created: Store := Start.(tasks := map["t" := Example(1, 0)])
  const Once1: Store := AddExecution(Created.(tasks := map["t" := Example(1, 10)]), At0("1"), "1", 0, 0)
  const Restored: Store := Once1.(tasks := map["t" := Example(2, 0)])
  const Twice: Store := AddExecution(Restored.(tasks := map["t" := Example(2, 10)]), At0("2"), "2", 0, 0)

  /** Create the task, materialize instant 0, write the task back as it was with the next revision, materialize again. */
  const Calls: seq<Call> := [
    CallCreateTask(Example(1, 0), None, ""),
    CallMaterialize(Example(1, 10), 0, [ScheduledExecution(At0("1"), "1")], 0, Zeros),
    CallUpdateTask(Example(2, 0), 1, None, ""),
    CallMaterialize(Example(2, 10), 0, [ScheduledExecution(At0("2"), "2")], 0, Zeros)]

  const Stores: seq<Store> := [Start, Created, Once1, Restored, Twice]

  lemma FirstCommit()
    ensures WellShaped(Created) && Permitted(Created, Calls[1]) && Perform(Created, Calls[1]) == Performed(Once1, Done)
  {
    hide AddExecution;
    assert QueuedForTask(Created, "t") == {};
    assert ExistingOccurrences(Created, "n") == {};
    MaterializeOne(Created, Example(1, 10), 0, ScheduledExecution(At0("1"), "1"), 0, Zeros);
    assert Created.tasks["t" := Example(1, 10)] == map["t" := Example(1, 10)];
    hide MaterializeTask;
  }

  lemma OnceRecords()
    ensures WellShaped(Once1) && WellShaped(Restored)
    ensures Once1.limits == RecordLimits(1, 2, 2, 0) && |Once1.executions| == 1
    ensures !Once1.closed && Once1.tasks == map["t" := Example(1, 10)] && Once1.operations == map[]
    ensures Once1.executions == map[At0("1").id := At0("1")] && |Once1.work| == 1
    ensures Once1.occurrences == map[("n", "1") := At0("1").id]
  {
    AddedShape(Created.(tasks := map["t" := Example(1, 10)]), At0("1"), "1", 0, 0);
  }

  lemma Update()
    ensures WellShaped(Once1) && Permitted(Once1, Calls[2]) && Perform(Once1, Calls[2]) == Performed(Restored, Done)
  {
    OnceRecords();
    hide AddExecution;
    assert Once1.tasks["t" := Example(2, 0)] == map["t" := Example(2, 0)];
  }

  lemma RestoredRecords()
    ensures |QueuedForTask(Restored, "t")| < 2 && "2" !in ExistingOccurrences(Restored, "n")
  {
    OnceRecords();
    hide AddExecution;
    var queued, all := QueuedForTask(Restored, "t"), {At0("1").id};
    assert queued <= all;
    assert |all - queued| == |all| - |queued|;
  }

  lemma SecondMaterialization()
    ensures MaterializeTask(Restored, Example(2, 10), 0, [ScheduledExecution(At0("2"), "2")], 0, Zeros)
         == Step(Twice, Ok(Materialization(Example(2, 10), [At0("2")])))
  {
    OnceRecords();
    RestoredRecords();
    hide AddExecution, QueuedForTask, ExistingOccurrences;
    MaterializeOne(Restored, Example(2, 10), 0, ScheduledExecution(At0("2"), "2"), 0, Zeros);
    assert Restored.tasks["t" := Example(2, 10)] == map["t" := Example(2, 10)];
    hide MaterializeTask;
  }

  lemma SecondCommit()
    ensures WellShaped(Restored) && Permitted(Restored, Calls[3]) && Perform(Restored, Calls[3]) == Performed(Twice, Done)
  {
    OnceRecords();
    SecondMaterialization();
    hide AddExecution, MaterializeTask, WellShaped;
  }

  lemma Creation()
    ensures WellShaped(Start) && Permitted(Start, Calls[0]) && Perform(Start, Calls[0]) == Performed(Created, Done)
  {
  }

  lemma ExampleIsProposal()
    ensures IsProposal(EveryTen, 0, Some(10), [0])
  {
    Schedules.NextIntervalIsNext(10, 0, 0);
    var m := Misfires.Materialized([0], Some(10), None);
    assert Misfires.Progresses(EveryTen, 0, 0, m);
  }

  /** The per-revision results cannot be strengthened: a run in which one instant is materialized in two revisions. */
  lemma InstantRepeatsAfterUpdate()
    ensures
      var replies := [Done, Done, Done, Done];
      && IsRace(Stores, Calls, replies, "t", _ => EveryTen, 1)
      && Commits(Stores[1], Calls[1], replies[1], "t", 0, [0])
      && Commits(Stores[3], Calls[3], replies[3], "t", 0, [0])
      && Calls[1].task.revision != Calls[3].task.revision
  {
    Creation();
    FirstCommit();
    Update();
    SecondCommit();
    OnceRecords();
    ExampleIsProposal();
    hide Perform, WellShaped, Permitted, AddExecution, IsProposal, Schedules.Fires;
    var replies := [Done, Done, Done, Done];
    forall i | 0 <= i < 4 ensures IsReply(Stores, Calls, replies, i) {
    }
    assert HasInstants(Calls[1].executions, [0]) && HasInstants(Calls[3].executions, [0]);
    assert forall i :: 1 <= i < 4 ==> NeverCreates(Calls[i], "t") && IsHonest(Calls[i], "t", _ => EveryTen);
  }
}
